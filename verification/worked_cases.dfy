/**
  The calculator on whole families of expressions: two natural numbers
  joined by an operator, three joined by two operators, and a
  parenthesised pair followed by a third operand, all spelled with single
  spaces around the operators. For these families the postfix output and
  the value are computed once and for all; the concrete expressions the
  repository's own test suite checks are instances.
 */
module WorkedCases {
  import opened Syntax
  import opened Validation
  import opened ShuntingYard
  import opened Postfix
  import opened EvaluationProperties
  import opened Calculator
  import opened ConversionProperties
  import opened Passes

  // ---------------------------------------------------------------------
  // Spelling expressions

  /** `x`, a space, the operator, a space, then `rest`. */
  function Spaced(x: string, o: Operator, rest: string): string {
    x + ([' '] + ([o.Symbol()] + ([' '] + rest)))
  }

  /** `(x o1 y) o2 z`. */
  function Grouped(x: string, o1: Operator, y: string, o2: Operator, z: string): string {
    ['('] + Spaced(x, o1, y + ([')'] + ([' '] + ([o2.Symbol()] + ([' '] + z)))))
  }

  /** A non-empty string of digits: a number literal without a dot. */
  predicate Digits(x: string) {
    |x| > 0 && AllDigits(x)
  }

  // ---------------------------------------------------------------------
  // The validator on these spellings

  lemma CheckSpaced(x: string, o: Operator, rest: string, prev: Option<char>)
    requires Digits(x)
    ensures CheckAdjacency(Spaced(x, o, rest), prev) == CheckAdjacency(rest, Some(o.Symbol()))
  {
    var c, d := o.Symbol(), x[|x| - 1];
    SymbolRoundTrip(o);
    assert IsDigit(d);
    CheckRun(x, [' '] + ([c] + ([' '] + rest)), prev);
    assert ([' '] + ([c] + ([' '] + rest)))[1..] == [c] + ([' '] + rest);
    assert ([c] + ([' '] + rest))[1..] == [' '] + rest;
    assert ([' '] + rest)[1..] == rest;
    assert CheckAdjacency([' '] + ([c] + ([' '] + rest)), Some(d)) == CheckAdjacency([c] + ([' '] + rest), Some(d));
    assert CheckAdjacency([c] + ([' '] + rest), Some(d)) == CheckAdjacency([' '] + rest, Some(c));
  }

  /** The validator accepts `x o y`. */
  lemma ValidateBinary(x: string, o: Operator, y: string)
    requires Digits(x) && Digits(y)
    ensures Validate(Spaced(x, o, y)) == Ok(())
  {
    var s := Spaced(x, o, y);
    assert s[0] == x[0];
    CheckSpaced(x, o, y, None);
    CheckRun(y, [], Some(o.Symbol()));
    assert y + [] == y;
  }

  /** The validator accepts `x o1 y o2 z`. */
  lemma ValidateChain(x: string, o1: Operator, y: string, o2: Operator, z: string)
    requires Digits(x) && Digits(y) && Digits(z)
    ensures Validate(Spaced(x, o1, Spaced(y, o2, z))) == Ok(())
  {
    var s := Spaced(x, o1, Spaced(y, o2, z));
    assert s[0] == x[0];
    CheckSpaced(x, o1, Spaced(y, o2, z), None);
    CheckSpaced(y, o2, z, Some(o1.Symbol()));
    CheckRun(z, [], Some(o2.Symbol()));
    assert z + [] == z;
  }

  /** The adjacency loop from the closing parenthesis of `(x o1 y) o2 z` on. */
  lemma CheckAfterGroup(d: char, o2: Operator, z: string)
    requires IsDigit(d) && Digits(z)
    ensures CheckAdjacency([')'] + After(o2, z), Some(d)) == Ok(())
  {
    var c2 := o2.Symbol();
    SymbolRoundTrip(o2);
    var t3 := [' '] + z;
    var t2 := [c2] + t3;
    var t1 := [' '] + t2;
    var tail := [')'] + t1;
    assert tail[1..] == t1 && t1[1..] == t2 && t2[1..] == t3 && t3[1..] == z;
    assert CheckAdjacency(tail, Some(d)) == CheckAdjacency(t1, Some(')'));
    assert CheckAdjacency(t1, Some(')')) == CheckAdjacency(t2, Some(')'));
    assert CheckAdjacency(t2, Some(')')) == CheckAdjacency(t3, Some(c2));
    assert CheckAdjacency(t3, Some(c2)) == CheckAdjacency(z, Some(c2));
    CheckRun(z, [], Some(c2));
    assert z + [] == z;
  }

  /** The validator accepts `(x o1 y) o2 z`. */
  lemma ValidateGrouped(x: string, o1: Operator, y: string, o2: Operator, z: string)
    requires Digits(x) && Digits(y) && Digits(z)
    ensures Validate(Grouped(x, o1, y, o2, z)) == Ok(())
  {
    var tail := [')'] + After(o2, z);
    var s := Grouped(x, o1, y, o2, z);
    assert s == ['('] + Spaced(x, o1, y + tail);
    assert s[0] == '(' && s[1..] == Spaced(x, o1, y + tail);
    assert !AllWhitespace(s) by {
      assert !IsWhitespace(s[0]);
    }
    assert Validate(s) == CheckAdjacency(Spaced(x, o1, y + tail), Some('('));
    CheckSpaced(x, o1, y + tail, Some('('));
    CheckRun(y, tail, Some(o1.Symbol()));
    CheckAfterGroup(y[|y| - 1], o2, z);
  }

  // ---------------------------------------------------------------------
  // The scan on these spellings

  /** `x o rest` with an empty stack and a number literal `x`. */
  lemma ScanSpaced(x: string, o: Operator, rest: string, output: seq<Token>, stack: seq<Pending>)
    requires Digits(x)
    ensures var popped := PopHigher(output + [Num(x)], stack, o);
            Scan(State(Spaced(x, o, rest), output, stack)) ==
            Scan(State(rest, popped.0, popped.1 + [PendingOp(o)]))
  {
    var c := o.Symbol();
    ScanNumber(x, [' '] + ([c] + ([' '] + rest)), output, stack);
    ScanSpace([c] + ([' '] + rest), output + [Num(x)], stack);
    ScanOperator(o, [' '] + rest, output + [Num(x)], stack);
    var popped := PopHigher(output + [Num(x)], stack, o);
    ScanSpace(rest, popped.0, popped.1 + [PendingOp(o)]);
  }

  lemma ScanLast(z: string, output: seq<Token>, stack: seq<Pending>)
    requires Digits(z)
    ensures Scan(State(z, output, stack)) == Ok(State([], output + [Num(z)], stack))
  {
    ScanNumber(z, [], output, stack);
    assert z + [] == z;
  }

  // ---------------------------------------------------------------------
  // The converter on these spellings

  /** Pushing onto a stack holding at most one operator. */
  lemma PopEmpty(output: seq<Token>, o: Operator)
    ensures PopHigher(output, [], o) == (output, [])
  {
    var empty: seq<Pending> := [];
    assert KeepBelow(empty, o) == 0;
    assert empty[0..] == [] && empty[..0] == [];
    assert Unstack([]) == [];
    assert output + [] == output;
  }

  lemma PopOne(output: seq<Token>, p: Operator, o: Operator)
    ensures PopHigher(output, [PendingOp(p)], o) ==
              if p.Precedence() >= o.Precedence() then (output + [Op(p)], []) else (output, [PendingOp(p)])
  {
    var stack := [PendingOp(p)];
    assert stack[..0] == [] && stack[1..] == [] && stack[0..] == stack && stack[..1] == stack;
    assert Unstack([]) == [];
    if p.Precedence() >= o.Precedence() {
      assert KeepBelow(stack, o) == KeepBelow([], o) == 0;
      assert stack[..|stack| - 1] == [];
      assert Unstack(stack) == [Op(p)] + Unstack([]) == [Op(p)];
      assert PopHigher(output, stack, o) == (output + Unstack(stack), []);
    } else {
      assert KeepBelow(stack, o) == 1;
      assert output + [] == output;
    }
  }

  /** The final drain of a stack of operators. */
  lemma DrainOne(output: seq<Token>, p: Operator)
    ensures Drain(output, [PendingOp(p)]) == Ok(output + [Op(p)])
  {
    assert [PendingOp(p)][..0] == [];
  }

  lemma DrainTwo(output: seq<Token>, p: Operator, q: Operator)
    ensures Drain(output, [PendingOp(p), PendingOp(q)]) == Ok(output + [Op(q), Op(p)])
  {
    assert [PendingOp(p), PendingOp(q)][..1] == [PendingOp(p)];
    DrainOne(output + [Op(q)], p);
    assert output + [Op(q)] + [Op(p)] == output + [Op(q), Op(p)];
  }

  /** The conversion of `x o y`. */
  lemma ConvertBinary(x: string, o: Operator, y: string)
    requires Digits(x) && Digits(y)
    ensures Convert(Spaced(x, o, y)) == Ok([Num(x), Num(y), Op(o)])
  {
    var s := Spaced(x, o, y);
    assert Scan(State(s, [], [])) == Scan(State(y, [Num(x)], [PendingOp(o)])) by {
      ScanSpaced(x, o, y, [], []);
      PopEmpty([Num(x)], o);
      assert [] + [Num(x)] == [Num(x)];
      assert [] + [PendingOp(o)] == [PendingOp(o)];
    }
    assert Scan(State(y, [Num(x)], [PendingOp(o)])) == Ok(State([], [Num(x), Num(y)], [PendingOp(o)])) by {
      ScanLast(y, [Num(x)], [PendingOp(o)]);
      assert [Num(x)] + [Num(y)] == [Num(x), Num(y)];
    }
    DrainOne([Num(x), Num(y)], o);
    assert [Num(x), Num(y)] + [Op(o)] == [Num(x), Num(y), Op(o)];
  }

  /** `x o y` becomes `x y o`. */
  lemma RpnBinary(x: string, o: Operator, y: string)
    requires Digits(x) && Digits(y)
    ensures InfixToRpn(Spaced(x, o, y)) == Ok([Num(x), Num(y), Op(o)])
  {
    ValidateBinary(x, o, y);
    ConvertBinary(x, o, y);
  }

  /** The scan of `x o1 y o2 z` up to `y`. */
  lemma ScanChainHead(x: string, o1: Operator, y: string, o2: Operator, z: string)
    requires Digits(x)
    ensures Scan(State(Spaced(x, o1, Spaced(y, o2, z)), [], [])) ==
            Scan(State(Spaced(y, o2, z), [Num(x)], [PendingOp(o1)]))
  {
    ScanSpaced(x, o1, Spaced(y, o2, z), [], []);
    PopEmpty([Num(x)], o1);
    assert [] + [Num(x)] == [Num(x)];
    assert [] + [PendingOp(o1)] == [PendingOp(o1)];
  }

  /** The scan of `x o1 y o2 z` from `y` on. */
  lemma ScanChainTail(x: string, o1: Operator, y: string, o2: Operator, z: string)
    requires Digits(y) && Digits(z)
    ensures var popped := PopHigher([Num(x), Num(y)], [PendingOp(o1)], o2);
            Scan(State(Spaced(y, o2, z), [Num(x)], [PendingOp(o1)])) ==
            Ok(State([], popped.0 + [Num(z)], popped.1 + [PendingOp(o2)]))
  {
    var popped := PopHigher([Num(x), Num(y)], [PendingOp(o1)], o2);
    ScanSpaced(y, o2, z, [Num(x)], [PendingOp(o1)]);
    assert [Num(x)] + [Num(y)] == [Num(x), Num(y)];
    ScanLast(z, popped.0, popped.1 + [PendingOp(o2)]);
  }

  /** The scan of `x o1 y o2 z`, in full. */
  lemma ScanChain(x: string, o1: Operator, y: string, o2: Operator, z: string)
    requires Digits(x) && Digits(y) && Digits(z)
    ensures Scan(State(Spaced(x, o1, Spaced(y, o2, z)), [], [])) ==
              if o1.Precedence() >= o2.Precedence()
              then Ok(State([], [Num(x), Num(y), Op(o1), Num(z)], [PendingOp(o2)]))
              else Ok(State([], [Num(x), Num(y), Num(z)], [PendingOp(o1), PendingOp(o2)]))
  {
    var popped := PopHigher([Num(x), Num(y)], [PendingOp(o1)], o2);
    ScanChainHead(x, o1, y, o2, z);
    ScanChainTail(x, o1, y, o2, z);
    PopOne([Num(x), Num(y)], o1, o2);
    if o1.Precedence() >= o2.Precedence() {
      assert popped.0 + [Num(z)] == [Num(x), Num(y), Op(o1), Num(z)];
      assert popped.1 + [PendingOp(o2)] == [PendingOp(o2)];
    } else {
      assert popped.0 + [Num(z)] == [Num(x), Num(y), Num(z)];
      assert popped.1 + [PendingOp(o2)] == [PendingOp(o1), PendingOp(o2)];
    }
  }

  /** The conversion of `x o1 y o2 z`. */
  lemma ConvertChain(x: string, o1: Operator, y: string, o2: Operator, z: string)
    requires Digits(x) && Digits(y) && Digits(z)
    ensures Convert(Spaced(x, o1, Spaced(y, o2, z))) ==
              if o1.Precedence() >= o2.Precedence()
              then Ok([Num(x), Num(y), Op(o1), Num(z), Op(o2)])
              else Ok([Num(x), Num(y), Num(z), Op(o2), Op(o1)])
  {
    var s := Spaced(x, o1, Spaced(y, o2, z));
    ScanChain(x, o1, y, o2, z);
    if o1.Precedence() >= o2.Precedence() {
      ConvertScanned(s, [Num(x), Num(y), Op(o1), Num(z)], [PendingOp(o2)]);
      DrainOne([Num(x), Num(y), Op(o1), Num(z)], o2);
      assert [Num(x), Num(y), Op(o1), Num(z)] + [Op(o2)] == [Num(x), Num(y), Op(o1), Num(z), Op(o2)];
    } else {
      ConvertScanned(s, [Num(x), Num(y), Num(z)], [PendingOp(o1), PendingOp(o2)]);
      DrainTwo([Num(x), Num(y), Num(z)], o1, o2);
      assert [Num(x), Num(y), Num(z)] + [Op(o2), Op(o1)] == [Num(x), Num(y), Num(z), Op(o2), Op(o1)];
    }
  }

  /** `x o1 y o2 z`: the first operator is output before the second is
      pushed when it binds at least as tightly (so equal precedence groups
      to the left, `^` included), and after the second otherwise. */
  lemma RpnChain(x: string, o1: Operator, y: string, o2: Operator, z: string)
    requires Digits(x) && Digits(y) && Digits(z)
    ensures InfixToRpn(Spaced(x, o1, Spaced(y, o2, z))) ==
              if o1.Precedence() >= o2.Precedence()
              then Ok([Num(x), Num(y), Op(o1), Num(z), Op(o2)])
              else Ok([Num(x), Num(y), Num(z), Op(o2), Op(o1)])
  {
    ValidateChain(x, o1, y, o2, z);
    ConvertChain(x, o1, y, o2, z);
  }

  /** The scan of `)` after `(x o1 y`. */
  lemma ScanCloseGroup(x: string, o1: Operator, y: string, rest: string)
    ensures Scan(State([')'] + rest, [Num(x), Num(y)], [OpenParen, PendingOp(o1)])) ==
            Scan(State(rest, [Num(x), Num(y), Op(o1)], []))
  {
    var stack := [OpenParen, PendingOp(o1)];
    assert ([')'] + rest)[1..] == rest;
    assert stack[..1] == [OpenParen] && [OpenParen][..0] == [];
    assert TopOpen(stack) == Some(0);
    assert stack[1..] == [PendingOp(o1)] && stack[..0] == [];
    assert Unstack([PendingOp(o1)]) == [Op(o1)] by {
      assert [PendingOp(o1)][..0] == [];
    }
    assert [Num(x), Num(y)] + [Op(o1)] == [Num(x), Num(y), Op(o1)];
    assert CloseParen([Num(x), Num(y)], stack) == Ok(([Num(x), Num(y)] + Unstack(stack[1..]), stack[..0]));
  }

  /** A space, the operator `o2`, a space, then `z`: the text that
      follows a left operand in these spellings. */
  function After(o2: Operator, z: string): string {
    [' '] + ([o2.Symbol()] + ([' '] + z))
  }

  lemma ScanGroupedInner(x: string, o1: Operator, rest: string)
    requires Digits(x)
    ensures Scan(State(Spaced(x, o1, rest), [], [OpenParen])) == Scan(State(rest, [Num(x)], [OpenParen, PendingOp(o1)]))
  {
    ScanSpaced(x, o1, rest, [], [OpenParen]);
    PopOneParen([Num(x)], o1);
    assert [] + [Num(x)] == [Num(x)];
    assert [OpenParen] + [PendingOp(o1)] == [OpenParen, PendingOp(o1)];
  }

  /** The scan of `(x o1 y) o2 z` up to the closing parenthesis. */
  lemma ScanGroupedHead(x: string, o1: Operator, y: string, o2: Operator, z: string)
    requires Digits(x) && Digits(y)
    ensures Scan(State(Grouped(x, o1, y, o2, z), [], [])) ==
            Scan(State([')'] + After(o2, z), [Num(x), Num(y)], [OpenParen, PendingOp(o1)]))
  {
    var after := After(o2, z);
    ScanGroupedOpen(x, o1, y + ([')'] + after));
    assert IsRun(y);
    ScanNumber(y, [')'] + after, [Num(x)], [OpenParen, PendingOp(o1)]);
    assert [Num(x)] + [Num(y)] == [Num(x), Num(y)];
  }

  /** `(x o1 rest`: `(` is pushed, `x` is output and `o1` waits above `(`. */
  lemma ScanGroupedOpen(x: string, o1: Operator, rest: string)
    requires Digits(x)
    ensures Scan(State(['('] + Spaced(x, o1, rest), [], [])) == Scan(State(rest, [Num(x)], [OpenParen, PendingOp(o1)]))
  {
    ScanOpen(Spaced(x, o1, rest), [], []);
    assert [] + [OpenParen] == [OpenParen];
    ScanGroupedInner(x, o1, rest);
  }

  /** The scan of `(x o1 y) o2 z` from the closing parenthesis on. */
  lemma ScanGroupedTail(x: string, o1: Operator, y: string, o2: Operator, z: string)
    requires Digits(z)
    ensures Scan(State([')'] + After(o2, z), [Num(x), Num(y)], [OpenParen, PendingOp(o1)])) ==
            Ok(State([], [Num(x), Num(y), Op(o1), Num(z)], [PendingOp(o2)]))
  {
    var t3 := [' '] + z;
    var t2 := [o2.Symbol()] + t3;
    var xyo := [Num(x), Num(y), Op(o1)];
    ScanCloseGroup(x, o1, y, After(o2, z));
    ScanSpace(t2, xyo, []);
    ScanOperator(o2, t3, xyo, []);
    PopEmpty(xyo, o2);
    assert [] + [PendingOp(o2)] == [PendingOp(o2)];
    ScanSpace(z, xyo, [PendingOp(o2)]);
    ScanLast(z, xyo, [PendingOp(o2)]);
    assert xyo + [Num(z)] == [Num(x), Num(y), Op(o1), Num(z)];
  }

  /** The conversion of `(x o1 y) o2 z`. */
  lemma ConvertGrouped(x: string, o1: Operator, y: string, o2: Operator, z: string)
    requires Digits(x) && Digits(y) && Digits(z)
    ensures Convert(Grouped(x, o1, y, o2, z)) == Ok([Num(x), Num(y), Op(o1), Num(z), Op(o2)])
  {
    ScanGroupedHead(x, o1, y, o2, z);
    ScanGroupedTail(x, o1, y, o2, z);
    DrainOne([Num(x), Num(y), Op(o1), Num(z)], o2);
    assert [Num(x), Num(y), Op(o1), Num(z)] + [Op(o2)] == [Num(x), Num(y), Op(o1), Num(z), Op(o2)];
  }

  /** Pushing onto a stack holding only an open parenthesis. */
  lemma PopOneParen(output: seq<Token>, o: Operator)
    ensures PopHigher(output, [OpenParen], o) == (output, [OpenParen])
  {
    var stack := [OpenParen];
    assert KeepBelow(stack, o) == 1;
    assert stack[..1] == stack && stack[1..] == [];
    assert Unstack([]) == [];
    assert output + [] == output;
  }

  /** `(x o1 y) o2 z` becomes `x y o1 z o2`, whatever the precedences. */
  lemma RpnGrouped(x: string, o1: Operator, y: string, o2: Operator, z: string)
    requires Digits(x) && Digits(y) && Digits(z)
    ensures InfixToRpn(Grouped(x, o1, y, o2, z)) == Ok([Num(x), Num(y), Op(o1), Num(z), Op(o2)])
  {
    ValidateGrouped(x, o1, y, o2, z);
    ConvertGrouped(x, o1, y, o2, z);
  }

  // ---------------------------------------------------------------------
  // The evaluator on the converted forms

  /** A digit string is a literal the evaluator reads as its digits' value. */
  lemma DigitsNumeric(x: string)
    requires Digits(x)
    ensures IsNumeric(x) && DecimalValue(x) == DigitsValue(x) as real
  {
    NoDotIndex(x);
    assert x[..|x|] == x;
  }

  /** The value of a digit string. */
  function V(x: string): real
    requires Digits(x)
  {
    DigitsValue(x) as real
  }

  /** What the entry point reports for a result of the evaluator. */
  function Report(r: Result<real>): Outcome {
    match r
    case Ok(v) => Value(v)
    case Err(e) => CalculationError(e)
  }

  /** A digit string pushes its value. */
  lemma PushDigits(stack: seq<real>, x: string, pow: (real, real) -> real)
    requires Digits(x)
    ensures EvalStep(stack, Num(x), pow) == Ok(stack + [V(x)])
  {
    DigitsNumeric(x);
  }

  /** The loop over the last token. */
  lemma RunLast(t: Token, stack: seq<real>, pow: (real, real) -> real)
    ensures Run([t], stack, pow) == EvalStep(stack, t, pow)
  {
    RunCons(t, [], stack, pow);
    assert [t] + [] == [t];
  }

  /** Two digit strings put their values on the stack. */
  lemma RunTwoNumbers(x: string, y: string, rest: seq<Token>, pow: (real, real) -> real)
    requires Digits(x) && Digits(y)
    ensures Run([Num(x), Num(y)] + rest, [], pow) == Run(rest, [V(x), V(y)], pow)
  {
    var empty: seq<real> := [];
    assert [Num(x), Num(y)] + rest == [Num(x)] + ([Num(y)] + rest);
    RunCons(Num(x), [Num(y)] + rest, empty, pow);
    PushDigits(empty, x, pow);
    assert empty + [V(x)] == [V(x)];
    assert Run([Num(x), Num(y)] + rest, empty, pow) == Run([Num(y)] + rest, [V(x)], pow);
    RunCons(Num(y), rest, [V(x)], pow);
    PushDigits([V(x)], y, pow);
    assert [V(x)] + [V(y)] == [V(x), V(y)];
  }

  /** The evaluator on a token sequence the loop reduces to one value. */
  lemma EvaluateOne(tokens: seq<Token>, v: real, pow: (real, real) -> real)
    requires Run(tokens, [], pow) == Ok([v])
    ensures Evaluate(tokens, pow) == Ok(v)
  {
  }

  /** The evaluator on a token sequence whose loop fails. */
  lemma EvaluateFails(tokens: seq<Token>, e: Error, pow: (real, real) -> real)
    requires Run(tokens, [], pow) == Err(e)
    ensures Evaluate(tokens, pow) == Err(e)
  {
  }

  /** The evaluator on `x y o`. */
  lemma EvaluateBinary(x: string, o: Operator, y: string, pow: (real, real) -> real)
    requires Digits(x) && Digits(y)
    ensures Evaluate([Num(x), Num(y), Op(o)], pow) == Apply(o, V(x), V(y), pow)
  {
    var tokens := [Num(x), Num(y), Op(o)];
    assert tokens == tokens + [];
    RunBinaryFront(x, o, y, [], pow);
    var a := Apply(o, V(x), V(y), pow);
    if a.Ok? {
      EvaluateOne(tokens, a.value, pow);
    } else {
      EvaluateFails(tokens, a.error, pow);
    }
  }

  /** `x y o` at the front reduces the stack to the operator's result. */
  lemma RunBinaryFront(x: string, o: Operator, y: string, tail: seq<Token>, pow: (real, real) -> real)
    requires Digits(x) && Digits(y)
    ensures var a := Apply(o, V(x), V(y), pow);
            Run([Num(x), Num(y), Op(o)] + tail, [], pow) ==
              if a.Ok? then Run(tail, [a.value], pow) else Err(a.error)
  {
    var empty: seq<real> := [];
    assert [Num(x), Num(y), Op(o)] + tail == [Num(x), Num(y)] + ([Op(o)] + tail);
    RunTwoNumbers(x, y, [Op(o)] + tail, pow);
    RunCons(Op(o), tail, [V(x), V(y)], pow);
    ApplyTop(empty, V(x), V(y), o, pow);
    assert empty + [V(x), V(y)] == [V(x), V(y)];
    var a := Apply(o, V(x), V(y), pow);
    if a.Ok? {
      assert empty + [a.value] == [a.value];
    }
  }

  /** `z o` on a stack whose top is `l`: `o` combines `l` with `z`. */
  lemma RunOperandThenOperator(below: seq<real>, l: real, z: string, o: Operator, rest: seq<Token>, pow: (real, real) -> real)
    requires Digits(z)
    ensures Run([Num(z), Op(o)] + rest, below + [l], pow) ==
              (var v :- Apply(o, l, V(z), pow); Run(rest, below + [v], pow))
  {
    assert [Num(z), Op(o)] + rest == [Num(z)] + ([Op(o)] + rest);
    RunCons(Num(z), [Op(o)] + rest, below + [l], pow);
    PushDigits(below + [l], z, pow);
    assert below + [l] + [V(z)] == below + [l, V(z)];
    RunCons(Op(o), rest, below + [l, V(z)], pow);
    ApplyTop(below, l, V(z), o, pow);
  }

  /** `x y o1 z o2`: the first operator's result is the second's left operand. */
  lemma EvaluateLeft(x: string, o1: Operator, y: string, o2: Operator, z: string, pow: (real, real) -> real)
    requires Digits(x) && Digits(y) && Digits(z)
    ensures Evaluate([Num(x), Num(y), Op(o1), Num(z), Op(o2)], pow) ==
              (var l :- Apply(o1, V(x), V(y), pow); Apply(o2, l, V(z), pow))
  {
    var tokens := [Num(x), Num(y), Op(o1), Num(z), Op(o2)];
    assert tokens == [Num(x), Num(y), Op(o1)] + [Num(z), Op(o2)];
    RunBinaryFront(x, o1, y, [Num(z), Op(o2)], pow);
    var a := Apply(o1, V(x), V(y), pow);
    if a.Ok? {
      var empty: seq<real> := [];
      assert [Num(z), Op(o2)] + [] == [Num(z), Op(o2)] && empty + [a.value] == [a.value];
      RunOperandThenOperator(empty, a.value, z, o2, [], pow);
      var b := Apply(o2, a.value, V(z), pow);
      if b.Ok? {
        assert empty + [b.value] == [b.value];
      }
      if b.Ok? {
        EvaluateOne(tokens, b.value, pow);
      } else {
        EvaluateFails(tokens, b.error, pow);
      }
    } else {
      EvaluateFails(tokens, a.error, pow);
    }
  }

  /** A last operator on a stack of two values leaves its result alone. */
  lemma RunLastOperator(a: real, b: real, o: Operator, pow: (real, real) -> real)
    ensures Run([Op(o)], [a, b], pow) == (var w :- Apply(o, a, b, pow); Ok([w]))
  {
    var empty: seq<real> := [];
    RunLast(Op(o), [a, b], pow);
    assert empty + [a, b] == [a, b];
    ApplyTop(empty, a, b, o, pow);
    var w := Apply(o, a, b, pow);
    if w.Ok? {
      assert empty + [w.value] == [w.value];
    }
  }

  /** `z o2 o1` on a stack holding `a` and `b`: `o2` combines `b` with
      `z`, and `o1` combines `a` with that. */
  lemma RunRightTail(a: real, b: real, z: string, o2: Operator, o1: Operator, pow: (real, real) -> real)
    requires Digits(z)
    ensures Run([Num(z), Op(o2), Op(o1)], [a, b], pow) ==
              (var r :- Apply(o2, b, V(z), pow); var w :- Apply(o1, a, r, pow); Ok([w]))
  {
    assert [Num(z), Op(o2), Op(o1)] == [Num(z), Op(o2)] + [Op(o1)];
    assert [a, b] == [a] + [b];
    RunOperandThenOperator([a], b, z, o2, [Op(o1)], pow);
    var r := Apply(o2, b, V(z), pow);
    if r.Ok? {
      assert [a] + [r.value] == [a, r.value];
      RunLastOperator(a, r.value, o1, pow);
    }
  }

  /** `x y z o2 o1`: the second operator's result is the first's right operand. */
  lemma EvaluateRight(x: string, o1: Operator, y: string, o2: Operator, z: string, pow: (real, real) -> real)
    requires Digits(x) && Digits(y) && Digits(z)
    ensures Evaluate([Num(x), Num(y), Num(z), Op(o2), Op(o1)], pow) ==
              (var r :- Apply(o2, V(y), V(z), pow); Apply(o1, V(x), r, pow))
  {
    var tokens := [Num(x), Num(y), Num(z), Op(o2), Op(o1)];
    assert tokens == [Num(x), Num(y)] + [Num(z), Op(o2), Op(o1)];
    RunTwoNumbers(x, y, [Num(z), Op(o2), Op(o1)], pow);
    RunRightTail(V(x), V(y), z, o2, o1, pow);
    var r := Apply(o2, V(y), V(z), pow);
    if r.Ok? {
      var w := Apply(o1, V(x), r.value, pow);
      if w.Ok? {
        EvaluateOne(tokens, w.value, pow);
      } else {
        EvaluateFails(tokens, w.error, pow);
      }
    } else {
      EvaluateFails(tokens, r.error, pow);
    }
  }

  // ---------------------------------------------------------------------
  // The entry point on natural numbers

  /** A spelled natural number is a digit string worth that number. */
  lemma SpelledValue(n: nat)
    ensures Digits(NatText(n)) && V(NatText(n)) == n as real
  {
    NatTextRoundTrip(n);
  }

  /** An expression that converts to `tokens` is worth what they evaluate to. */
  lemma CalculateConverted(s: string, tokens: seq<Token>, pow: (real, real) -> real)
    requires InfixToRpn(s) == Ok(tokens)
    ensures Calculate(s, pow) == Report(Evaluate(tokens, pow))
  {
  }

  /** `a o b` is worth `a o b`, or fails as the operator does. */
  lemma CalculateBinary(a: nat, o: Operator, b: nat, pow: (real, real) -> real)
    ensures Calculate(Spaced(NatText(a), o, NatText(b)), pow) == Report(Apply(o, a as real, b as real, pow))
  {
    var x, y := NatText(a), NatText(b);
    SpelledValue(a);
    SpelledValue(b);
    RpnBinary(x, o, y);
    CalculateConverted(Spaced(x, o, y), [Num(x), Num(y), Op(o)], pow);
    EvaluateBinary(x, o, y, pow);
  }

  /** `a o1 b o2 c` groups to the left when `o1` binds at least as tightly
      as `o2`, and to the right otherwise. */
  lemma CalculateChain(a: nat, o1: Operator, b: nat, o2: Operator, c: nat, pow: (real, real) -> real)
    ensures Calculate(Spaced(NatText(a), o1, Spaced(NatText(b), o2, NatText(c))), pow) ==
              if o1.Precedence() >= o2.Precedence()
              then Report(var l :- Apply(o1, a as real, b as real, pow); Apply(o2, l, c as real, pow))
              else Report(var r :- Apply(o2, b as real, c as real, pow); Apply(o1, a as real, r, pow))
  {
    var x, y, z := NatText(a), NatText(b), NatText(c);
    SpelledValue(a);
    SpelledValue(b);
    SpelledValue(c);
    var s := Spaced(x, o1, Spaced(y, o2, z));
    RpnChain(x, o1, y, o2, z);
    if o1.Precedence() >= o2.Precedence() {
      CalculateConverted(s, [Num(x), Num(y), Op(o1), Num(z), Op(o2)], pow);
      EvaluateLeft(x, o1, y, o2, z, pow);
    } else {
      CalculateConverted(s, [Num(x), Num(y), Num(z), Op(o2), Op(o1)], pow);
      EvaluateRight(x, o1, y, o2, z, pow);
    }
  }

  /** `(a o1 b) o2 c` applies `o1` first, whatever the precedences. */
  lemma CalculateGrouped(a: nat, o1: Operator, b: nat, o2: Operator, c: nat, pow: (real, real) -> real)
    ensures Calculate(Grouped(NatText(a), o1, NatText(b), o2, NatText(c)), pow) ==
              Report(var l :- Apply(o1, a as real, b as real, pow); Apply(o2, l, c as real, pow))
  {
    var x, y, z := NatText(a), NatText(b), NatText(c);
    SpelledValue(a);
    SpelledValue(b);
    SpelledValue(c);
    RpnGrouped(x, o1, y, o2, z);
    CalculateConverted(Grouped(x, o1, y, o2, z), [Num(x), Num(y), Op(o1), Num(z), Op(o2)], pow);
    EvaluateLeft(x, o1, y, o2, z, pow);
  }

  // ---------------------------------------------------------------------
  // Unbalanced parentheses

  /** The validator accepts `(x o y`: it does not look at parentheses. */
  lemma ValidateUnclosed(x: string, o: Operator, y: string)
    requires Digits(x) && Digits(y)
    ensures Validate(['('] + Spaced(x, o, y)) == Ok(())
  {
    var s := ['('] + Spaced(x, o, y);
    assert !IsWhitespace(s[0]);
    assert s[1..] == Spaced(x, o, y);
    CheckSpaced(x, o, y, Some('('));
    CheckRun(y, [], Some(o.Symbol()));
    assert y + [] == y;
  }

  /** The converter refuses `(x o y`: the drain meets the open parenthesis. */
  lemma ConvertUnclosed(x: string, o: Operator, y: string)
    requires Digits(x) && Digits(y)
    ensures Convert(['('] + Spaced(x, o, y)) == Err(UnbalancedParentheses)
  {
    ScanOpen(Spaced(x, o, y), [], []);
    assert [] + [OpenParen] == [OpenParen];
    ScanGroupedInner(x, o, y);
    ScanLast(y, [Num(x)], [OpenParen, PendingOp(o)]);
  }

  /** `(x o y` is refused as unbalanced. */
  lemma RpnUnclosed(x: string, o: Operator, y: string)
    requires Digits(x) && Digits(y)
    ensures InfixToRpn(['('] + Spaced(x, o, y)) == Err(UnbalancedParentheses)
  {
    ValidateUnclosed(x, o, y);
    ConvertUnclosed(x, o, y);
  }

  /** The validator accepts `x o )y`. */
  lemma ValidateStrayClose(x: string, o: Operator, y: string)
    requires Digits(x) && Digits(y)
    ensures Validate(Spaced(x, o, [')'] + y)) == Ok(())
  {
    var s := Spaced(x, o, [')'] + y);
    assert s[0] == x[0];
    CheckSpaced(x, o, [')'] + y, None);
    assert ([')'] + y)[1..] == y;
    SymbolRoundTrip(o);
    assert CheckAdjacency([')'] + y, Some(o.Symbol())) == CheckAdjacency(y, Some(')'));
    CheckRun(y, [], Some(')'));
    assert y + [] == y;
  }

  /** A `)` above a single operator finds no open parenthesis. */
  lemma ScanStrayClose(y: string, output: seq<Token>, o: Operator)
    ensures Scan(State([')'] + y, output, [PendingOp(o)])) == Err(UnbalancedParentheses)
  {
    assert OpenParen !in [PendingOp(o)];
    assert CloseParen(output, [PendingOp(o)]).Err?;
    assert ([')'] + y)[0] == ')';
  }

  /** The converter refuses `x o )y`: the `)` finds no open parenthesis. */
  lemma ConvertStrayClose(x: string, o: Operator, y: string)
    requires Digits(x) && Digits(y)
    ensures Convert(Spaced(x, o, [')'] + y)) == Err(UnbalancedParentheses)
  {
    ScanSpaced(x, o, [')'] + y, [], []);
    PopEmpty([] + [Num(x)], o);
    assert [] + [PendingOp(o)] == [PendingOp(o)];
    ScanStrayClose(y, [] + [Num(x)], o);
  }

  /** `x o )y` is refused as unbalanced. */
  lemma RpnStrayClose(x: string, o: Operator, y: string)
    requires Digits(x) && Digits(y)
    ensures InfixToRpn(Spaced(x, o, [')'] + y)) == Err(UnbalancedParentheses)
  {
    ValidateStrayClose(x, o, y);
    ConvertStrayClose(x, o, y);
  }

  // ---------------------------------------------------------------------
  // A character the validator remembers and the converter ignores

  /** `x o` followed by the character `c`, then `p y`. */
  function Hidden(x: string, o: Operator, c: char, p: Operator, y: string): string {
    Spaced(x, o, [c] + ([p.Symbol()] + ([' '] + y)))
  }

  /** A character that is none of: space, digit, dot, operator, parenthesis. */
  predicate Foreign(c: char) {
    c != ' ' && !IsNumberChar(c) && !IsOperatorChar(c) && c != '(' && c != ')'
  }

  /** The validator remembers `c` in place of `o`, so it never sees `o`
      and `p` side by side. */
  lemma ValidateHidden(x: string, o: Operator, c: char, p: Operator, y: string)
    requires Digits(x) && Digits(y) && Foreign(c)
    ensures Validate(Hidden(x, o, c, p, y)) == Ok(())
  {
    var s := Hidden(x, o, c, p, y);
    var t2 := [' '] + y;
    var t1 := [p.Symbol()] + t2;
    assert s[0] == x[0];
    CheckSpaced(x, o, [c] + t1, None);
    SymbolRoundTrip(o);
    SymbolRoundTrip(p);
    assert ([c] + t1)[1..] == t1 && t1[1..] == t2 && t2[1..] == y;
    assert CheckAdjacency([c] + t1, Some(o.Symbol())) == CheckAdjacency(t1, Some(c));
    assert CheckAdjacency(t1, Some(c)) == CheckAdjacency(t2, Some(p.Symbol()));
    assert CheckAdjacency(t2, Some(p.Symbol())) == CheckAdjacency(y, Some(p.Symbol()));
    CheckRun(y, [], Some(p.Symbol()));
    assert y + [] == y;
  }

  /** The scan passes over a foreign character. */
  lemma ScanForeign(c: char, rest: string, output: seq<Token>, stack: seq<Pending>)
    requires Foreign(c)
    ensures Scan(State([c] + rest, output, stack)) == Scan(State(rest, output, stack))
  {
    assert ([c] + rest)[0] == c && ([c] + rest)[1..] == rest;
  }

  /** The operator `p` after `x o`, when `o` binds at least as tightly
      as `p`: `o` is output and `p` takes its place on the stack. */
  lemma ScanHiddenOperator(x: string, o: Operator, p: Operator, t: string)
    requires o.Precedence() >= p.Precedence()
    ensures Scan(State([p.Symbol()] + t, [Num(x)], [PendingOp(o)])) ==
            Scan(State(t, [Num(x), Op(o)], [PendingOp(p)]))
  {
    var empty: seq<Pending> := [];
    ScanOperator(p, t, [Num(x)], [PendingOp(o)]);
    PopOne([Num(x)], o, p);
    assert [Num(x)] + [Op(o)] == [Num(x), Op(o)] && empty + [PendingOp(p)] == [PendingOp(p)];
  }

  /** The operand ` y` after `x o p`: it is output and the scan ends. */
  lemma ScanHiddenOperand(x: string, o: Operator, p: Operator, y: string)
    requires Digits(y)
    ensures Scan(State([' '] + y, [Num(x), Op(o)], [PendingOp(p)])) ==
            Ok(State([], [Num(x), Op(o), Num(y)], [PendingOp(p)]))
  {
    ScanSpace(y, [Num(x), Op(o)], [PendingOp(p)]);
    ScanLast(y, [Num(x), Op(o)], [PendingOp(p)]);
    assert [Num(x), Op(o)] + [Num(y)] == [Num(x), Op(o), Num(y)];
  }

  /** The scan of `p y` after `x o`, when `o` binds at least as tightly as `p`. */
  lemma ScanHiddenTail(x: string, o: Operator, p: Operator, y: string)
    requires Digits(y)
    requires o.Precedence() >= p.Precedence()
    ensures Scan(State([p.Symbol()] + ([' '] + y), [Num(x)], [PendingOp(o)])) ==
            Ok(State([], [Num(x), Op(o), Num(y)], [PendingOp(p)]))
  {
    ScanHiddenOperator(x, o, p, [' '] + y);
    ScanHiddenOperand(x, o, p, y);
  }

  /** The operator `p` after `x o`, when `p` binds more tightly than `o`:
      `p` is pushed above `o`. */
  lemma ScanHiddenPush(x: string, o: Operator, p: Operator, t: string)
    requires o.Precedence() < p.Precedence()
    ensures Scan(State([p.Symbol()] + t, [Num(x)], [PendingOp(o)])) ==
            Scan(State(t, [Num(x)], [PendingOp(o), PendingOp(p)]))
  {
    ScanOperator(p, t, [Num(x)], [PendingOp(o)]);
    PopOne([Num(x)], o, p);
    assert [PendingOp(o)] + [PendingOp(p)] == [PendingOp(o), PendingOp(p)];
  }

  /** The scan of `p y` after `x o`, when `p` binds more tightly than `o`. */
  lemma ScanHiddenTighter(x: string, o: Operator, p: Operator, y: string)
    requires Digits(y)
    requires o.Precedence() < p.Precedence()
    ensures Scan(State([p.Symbol()] + ([' '] + y), [Num(x)], [PendingOp(o)])) ==
            Ok(State([], [Num(x), Num(y)], [PendingOp(o), PendingOp(p)]))
  {
    ScanHiddenPush(x, o, p, [' '] + y);
    ScanSpace(y, [Num(x)], [PendingOp(o), PendingOp(p)]);
    ScanLast(y, [Num(x)], [PendingOp(o), PendingOp(p)]);
    assert [Num(x)] + [Num(y)] == [Num(x), Num(y)];
  }

  /** The scan of `x o c p y` reaches `p` as if `c` were not there. */
  lemma ScanHidden(x: string, o: Operator, c: char, p: Operator, y: string)
    requires Digits(x) && Foreign(c)
    ensures Scan(State(Hidden(x, o, c, p, y), [], [])) ==
            Scan(State([p.Symbol()] + ([' '] + y), [Num(x)], [PendingOp(o)]))
  {
    var t1 := [p.Symbol()] + ([' '] + y);
    ScanSpaced(x, o, [c] + t1, [], []);
    PopEmpty([] + [Num(x)], o);
    assert [] + [Num(x)] == [Num(x)] && [] + [PendingOp(o)] == [PendingOp(o)];
    ScanForeign(c, t1, [Num(x)], [PendingOp(o)]);
  }

  /** The converter passes over `c`. With `o` binding at least as tightly
      as `p`, `o` is output before `p` is pushed; otherwise `p` is pushed
      above `o` and both wait for the final drain. */
  lemma ConvertHidden(x: string, o: Operator, c: char, p: Operator, y: string)
    requires Digits(x) && Digits(y) && Foreign(c)
    ensures Convert(Hidden(x, o, c, p, y)) ==
              if o.Precedence() >= p.Precedence() then Ok([Num(x), Op(o), Num(y), Op(p)])
              else Ok([Num(x), Num(y), Op(p), Op(o)])
  {
    ScanHidden(x, o, c, p, y);
    if o.Precedence() >= p.Precedence() {
      ScanHiddenTail(x, o, p, y);
      ConvertScanned(Hidden(x, o, c, p, y), [Num(x), Op(o), Num(y)], [PendingOp(p)]);
      DrainOne([Num(x), Op(o), Num(y)], p);
      assert [Num(x), Op(o), Num(y)] + [Op(p)] == [Num(x), Op(o), Num(y), Op(p)];
    } else {
      ScanHiddenTighter(x, o, p, y);
      ConvertScanned(Hidden(x, o, c, p, y), [Num(x), Num(y)], [PendingOp(o), PendingOp(p)]);
      DrainTwo([Num(x), Num(y)], o, p);
      assert [Num(x), Num(y)] + [Op(p), Op(o)] == [Num(x), Num(y), Op(p), Op(o)];
    }
  }

  /** `x o y p`: the first operator finds a single operand. */
  lemma EvaluateHidden(x: string, o: Operator, y: string, p: Operator, pow: (real, real) -> real)
    requires Digits(x)
    ensures Evaluate([Num(x), Op(o), Num(y), Op(p)], pow) == Err(InsufficientOperands)
  {
    var tokens := [Num(x), Op(o), Num(y), Op(p)];
    var empty: seq<real> := [];
    assert tokens == [Num(x)] + ([Op(o)] + [Num(y), Op(p)]);
    RunCons(Num(x), [Op(o)] + [Num(y), Op(p)], empty, pow);
    PushDigits(empty, x, pow);
    RunCons(Op(o), [Num(y), Op(p)], empty + [V(x)], pow);
    EvaluateFails(tokens, InsufficientOperands, pow);
  }

  /** `p o` on a stack holding `a` and `b`: `p` combines them, or divides
      by zero; then `o` finds a single operand. */
  lemma RunTighterTail(a: real, b: real, p: Operator, o: Operator, pow: (real, real) -> real)
    ensures Run([Op(p), Op(o)], [a, b], pow) ==
              Err(if Apply(p, a, b, pow).Ok? then InsufficientOperands else DivisionByZero)
  {
    var empty: seq<real> := [];
    assert [Op(p), Op(o)] == [Op(p)] + [Op(o)];
    RunCons(Op(p), [Op(o)], [a, b], pow);
    assert empty + [a, b] == [a, b];
    ApplyTop(empty, a, b, p, pow);
    var w := Apply(p, a, b, pow);
    if w.Ok? {
      assert empty + [w.value] == [w.value];
      RunLast(Op(o), [w.value], pow);
    }
  }

  /** `x y p o`: `p` combines the two values, or divides by zero; then `o`
      finds a single operand. */
  lemma EvaluateHiddenTighter(x: string, y: string, p: Operator, o: Operator, pow: (real, real) -> real)
    requires Digits(x) && Digits(y)
    ensures Evaluate([Num(x), Num(y), Op(p), Op(o)], pow) ==
              Err(if Apply(p, V(x), V(y), pow).Ok? then InsufficientOperands else DivisionByZero)
  {
    var tokens := [Num(x), Num(y), Op(p), Op(o)];
    assert tokens == [Num(x), Num(y)] + [Op(p), Op(o)];
    RunTwoNumbers(x, y, [Op(p), Op(o)], pow);
    RunTighterTail(V(x), V(y), p, o, pow);
    EvaluateFails(tokens, if Apply(p, V(x), V(y), pow).Ok? then InsufficientOperands else DivisionByZero, pow);
  }

  /** `x o c p y` passes the validator and fails in the evaluator: for
      want of an operand, unless `p` binds more tightly than `o` and
      `x p y` divides by zero first. */
  lemma CalculateHidden(x: string, o: Operator, c: char, p: Operator, y: string, pow: (real, real) -> real)
    requires Digits(x) && Digits(y) && Foreign(c)
    ensures Calculate(Hidden(x, o, c, p, y), pow) ==
              CalculationError(if o.Precedence() < p.Precedence() && Apply(p, V(x), V(y), pow).Err?
                               then DivisionByZero else InsufficientOperands)
  {
    ValidateHidden(x, o, c, p, y);
    ConvertHidden(x, o, c, p, y);
    if o.Precedence() >= p.Precedence() {
      var tokens := [Num(x), Op(o), Num(y), Op(p)];
      CalculateConverted(Hidden(x, o, c, p, y), tokens, pow);
      EvaluateHidden(x, o, y, p, pow);
    } else {
      var tokens := [Num(x), Num(y), Op(p), Op(o)];
      CalculateConverted(Hidden(x, o, c, p, y), tokens, pow);
      EvaluateHiddenTighter(x, y, p, o, pow);
    }
  }

  // ---------------------------------------------------------------------
  // Two operators in a row

  /** The validator refuses `x o p y`, two operators separated by a space. */
  lemma ValidateDoubled(x: string, o: Operator, p: Operator, y: string)
    requires Digits(x)
    ensures Validate(Spaced(x, o, [p.Symbol()] + ([' '] + y))) == Err(ConsecutiveOperators)
  {
    var rest := [p.Symbol()] + ([' '] + y);
    var s := Spaced(x, o, rest);
    assert s[0] == x[0];
    assert !AllWhitespace(s) by {
      assert !IsWhitespace(s[0]);
    }
    CheckSpaced(x, o, rest, None);
    SymbolRoundTrip(o);
    SymbolRoundTrip(p);
    assert rest[0] == p.Symbol();
  }
}
