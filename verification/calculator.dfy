/**
  The calculator's entry point (calc.py:103-109): conversion, then
  evaluation. Every failure of the validator, the converter or the
  evaluator is reported as a calculation error, except the one raised when
  the expression opens with an operator, which is not of a kind the entry
  point catches and so escapes it unchanged.
 */
module Calculator {
  import opened Syntax
  import opened Validation
  import opened ShuntingYard
  import opened Postfix
  import opened ConversionProperties
  import opened EvaluationProperties

  /** What a call of the entry point ends with. */
  datatype Outcome =
    | Value(v: real)                  // the value of the expression
    | CalculationError(cause: Error)  // a failure wrapped by the entry point
    | Uncaught(cause: Error)          // a failure that escapes the entry point

  /** Whether the entry point wraps a failure of this kind. */
  predicate IsCaught(e: Error) {
    e != LeadingOperator
  }

  /** The entry point: convert, evaluate, and wrap the failures it catches. */
  function Calculate(s: string, pow: (real, real) -> real): (o: Outcome)
    ensures o.Uncaught? <==> InfixToRpn(s) == Err(LeadingOperator)
    ensures o.Uncaught? ==> !IsCaught(o.cause)
    ensures o.CalculationError? ==> IsCaught(o.cause)
    ensures o.Value? <==> InfixToRpn(s).Ok? && Evaluate(InfixToRpn(s).value, pow).Ok?
    ensures o.Value? ==> o.v == Evaluate(InfixToRpn(s).value, pow).value
    ensures InfixToRpn(s).Err? && IsCaught(InfixToRpn(s).error) ==> o == CalculationError(InfixToRpn(s).error)
    ensures InfixToRpn(s).Ok? && Evaluate(InfixToRpn(s).value, pow).Err? ==>
              o == CalculationError(Evaluate(InfixToRpn(s).value, pow).error)
  {
    match InfixToRpn(s)
    case Err(e) => if IsCaught(e) then CalculationError(e) else Uncaught(e)
    case Ok(rpn) =>
      match Evaluate(rpn, pow)
      case Err(e) => CalculationError(e)
      case Ok(v) => Value(v)
  }

  /** The entry point's verdict in terms of the input alone: which faults
      of the text it reports, in which order, and what a value implies
      about the postfix form it was computed from. */
  lemma CalculateSpec(s: string, pow: (real, real) -> real)
    ensures Calculate(s, pow) == CalculationError(EmptyExpression) <==> AllWhitespace(s)
    ensures Calculate(s, pow).Uncaught? <==> !AllWhitespace(s) && StartsWithOperator(s)
    ensures Calculate(s, pow) == CalculationError(ConsecutiveOperators) <==>
              !AllWhitespace(s) && !StartsWithOperator(s) && HasAdjacentOperators(s)
    ensures Calculate(s, pow) == CalculationError(UnbalancedParentheses) <==>
              !AllWhitespace(s) && !StartsWithOperator(s) && !HasAdjacentOperators(s) && !Balanced(s)
    ensures Calculate(s, pow).Value? ==>
              && !AllWhitespace(s) && !StartsWithOperator(s) && !HasAdjacentOperators(s) && Balanced(s)
              && Fits(InfixToRpn(s).value, 0) && Height(InfixToRpn(s).value, 0) == 1
  {
    InfixToRpnSpec(s);
    if InfixToRpn(s).Ok? {
      EvaluateSpec(InfixToRpn(s).value, pow);
    }
  }
}
