/**
  Vocabulary shared by every stage of the calculator: the five binary
  operators and their precedence table, the character classes the scanner
  looks at, the tokens that flow from the converter to the evaluator, and
  the error kinds each stage can raise.
 */
module Syntax {

  /** The binary operators of the calculator. */
  datatype Operator = Plus | Minus | Times | Divide | Power {

    /** The character that spells the operator in an expression. */
    function Symbol(): char {
      match this
      case Plus => '+'
      case Minus => '-'
      case Times => '*'
      case Divide => '/'
      case Power => '^'
    }

    /** The precedence table: additive < multiplicative < power. */
    function Precedence(): (p: nat)
      ensures 1 <= p <= 3
    {
      match this
      case Plus => 1
      case Minus => 1
      case Times => 2
      case Divide => 2
      case Power => 3
    }
  }

  /** The operator characters, i.e. the keys of the precedence table. */
  predicate IsOperatorChar(c: char) {
    c == '+' || c == '-' || c == '*' || c == '/' || c == '^'
  }

  /** The operator spelled by an operator character. */
  function OperatorOf(c: char): (op: Operator)
    requires IsOperatorChar(c)
    ensures op.Symbol() == c
  {
    match c
    case '+' => Plus
    case '-' => Minus
    case '*' => Times
    case '/' => Divide
    case _ => Power
  }

  /** Spelling an operator and reading it back gives the same operator,
      and exactly the operator characters spell an operator. */
  lemma SymbolRoundTrip(op: Operator)
    ensures IsOperatorChar(op.Symbol())
    ensures OperatorOf(op.Symbol()) == op
  {
  }

  /** ASCII decimal digits (the model restricts digits to these). */
  predicate IsDigit(c: char) {
    '0' <= c <= '9'
  }

  /** Characters that make up a number literal: digits and the dot. */
  predicate IsNumberChar(c: char) {
    IsDigit(c) || c == '.'
  }

  /** The code points that count as whitespace when an expression is
      stripped (those of a Unicode "isspace" test). */
  predicate IsWhitespace(c: char) {
    var n := c as int;
    || 0x09 <= n <= 0x0D
    || 0x1C <= n <= 0x20
    || n == 0x85 || n == 0xA0 || n == 0x1680
    || 0x2000 <= n <= 0x200A
    || n == 0x2028 || n == 0x2029 || n == 0x202F || n == 0x205F || n == 0x3000
  }

  /** A token of the postfix output: a number literal, kept as the text
      the scanner collected, or an operator. */
  datatype Token = Num(text: string) | Op(op: Operator)

  /** The failure sites of the calculator, one variant per raise. */
  datatype Error =
    | EmptyExpression        // the expression is blank
    | ConsecutiveOperators   // two operator characters with only spaces between
    | LeadingOperator        // the first non-space character is an operator
    | UnbalancedParentheses  // a ')' without '(' or a '(' never closed
    | InsufficientOperands   // an operator meets fewer than two operands
    | DivisionByZero         // division by zero, or zero to a negative power
    | InvalidExpression      // evaluation does not end with exactly one value

  datatype Option<+T> = None | Some(value: T)

  /** The outcome of a stage: a value, or the error it raised. */
  datatype Result<+T> = Ok(value: T) | Err(error: Error) {

    predicate IsFailure() {
      Err?
    }

    function PropagateFailure<U>(): Result<U>
      requires Err?
    {
      Err(error)
    }

    function Extract(): T
      requires Ok?
    {
      value
    }
  }
}
