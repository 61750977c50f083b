/**
  What one pass of each loop does when the text or token in front of it
  is known: the adjacency loop of the validator (calc.py:21-25), the scan
  of the converter (calc.py:34-65) and the loop of the evaluator
  (calc.py:78-97). The general results about expression trees and the
  worked families are both assembled from these steps.
 */
module Passes {
  import opened Syntax
  import opened Validation
  import opened ShuntingYard
  import opened Postfix
  import opened ConversionProperties

  /** A run of `n` plain spaces. */
  function Spaces(n: nat): (s: string)
    ensures |s| == n && AllSpaces(s)
  {
    if n == 0 then [] else [' '] + Spaces(n - 1)
  }

  // ---------------------------------------------------------------------
  // The adjacency loop

  /** A run of digits and dots passes, and its last character is remembered. */
  lemma {:induction false} CheckRun(x: string, rest: string, prev: Option<char>)
    requires IsRun(x)
    ensures CheckAdjacency(x + rest, prev) == CheckAdjacency(rest, Some(x[|x| - 1]))
    decreases |x|
  {
    assert (x + rest)[0] == x[0];
    assert (x + rest)[1..] == x[1..] + rest;
    if |x| > 1 {
      CheckRun(x[1..], rest, Some(x[0]));
    } else {
      assert x[1..] + rest == rest;
    }
  }

  /** Plain spaces pass and leave the remembered character as it was. */
  lemma {:induction false} CheckSpaces(n: nat, rest: string, prev: Option<char>)
    ensures CheckAdjacency(Spaces(n) + rest, prev) == CheckAdjacency(rest, prev)
  {
    if n > 0 {
      var t := Spaces(n) + rest;
      assert t[0] == ' ' && t[1..] == Spaces(n - 1) + rest;
      CheckSpaces(n - 1, rest, prev);
    } else {
      assert Spaces(n) + rest == rest;
    }
  }

  /** An operator after a character that is not an operator passes, and
      is remembered. */
  lemma CheckOperator(op: Operator, t: string, d: char)
    requires !IsOperatorChar(d)
    ensures CheckAdjacency([op.Symbol()] + t, Some(d)) == CheckAdjacency(t, Some(op.Symbol()))
  {
    SymbolRoundTrip(op);
    assert ([op.Symbol()] + t)[1..] == t;
  }

  /** `(` passes, whatever was remembered before. */
  lemma CheckOpen(text: string, inner: string, prev: Option<char>)
    requires text == ['('] + inner
    ensures CheckAdjacency(text, prev) == CheckAdjacency(inner, Some('('))
  {
    assert text[1..] == inner;
  }

  /** `)` after a character that is not an operator passes. */
  lemma CheckClose(text: string, rest: string, d: char)
    requires text == [')'] + rest && !IsOperatorChar(d)
    ensures CheckAdjacency(text, Some(d)) == CheckAdjacency(rest, Some(')'))
  {
    assert text[1..] == rest;
  }

  // ---------------------------------------------------------------------
  // The scan of the converter

  /** The literal collected in front of something other than a digit or a
      dot is the whole run. */
  lemma {:induction false} RunLengthRun(x: string, rest: string)
    requires forall k :: 0 <= k < |x| ==> IsNumberChar(x[k])
    requires |rest| == 0 || !IsNumberChar(rest[0])
    ensures RunLength(x + rest) == |x|
    decreases |x|
  {
    if |x| > 0 {
      assert (x + rest)[1..] == x[1..] + rest;
      RunLengthRun(x[1..], rest);
    } else {
      assert x + rest == rest;
    }
  }

  /** A run of digits and dots becomes one number token. */
  lemma ScanNumber(x: string, rest: string, output: seq<Token>, stack: seq<Pending>)
    requires IsRun(x)
    requires |rest| == 0 || !IsNumberChar(rest[0])
    ensures Scan(State(x + rest, output, stack)) == Scan(State(rest, output + [Num(x)], stack))
  {
    RunLengthRun(x, rest);
    assert (x + rest)[0] == x[0];
    assert (x + rest)[..|x|] == x && (x + rest)[|x|..] == rest;
  }

  /** A space is passed over. */
  lemma ScanSpace(rest: string, output: seq<Token>, stack: seq<Pending>)
    ensures Scan(State([' '] + rest, output, stack)) == Scan(State(rest, output, stack))
  {
    assert ([' '] + rest)[1..] == rest;
  }

  /** A run of spaces is passed over. */
  lemma {:induction false} ScanSpaces(n: nat, rest: string, output: seq<Token>, stack: seq<Pending>)
    ensures Scan(State(Spaces(n) + rest, output, stack)) == Scan(State(rest, output, stack))
  {
    if n > 0 {
      assert Spaces(n) + rest == [' '] + (Spaces(n - 1) + rest);
      ScanSpace(Spaces(n - 1) + rest, output, stack);
      ScanSpaces(n - 1, rest, output, stack);
    } else {
      assert Spaces(n) + rest == rest;
    }
  }

  /** An operator pops what binds at least as tightly and is pushed. */
  lemma ScanOperator(o: Operator, rest: string, output: seq<Token>, stack: seq<Pending>)
    ensures var popped := PopHigher(output, stack, o);
            Scan(State([o.Symbol()] + rest, output, stack)) == Scan(State(rest, popped.0, popped.1 + [PendingOp(o)]))
  {
    assert ([o.Symbol()] + rest)[1..] == rest;
    SymbolRoundTrip(o);
  }

  /** `(` is pushed. */
  lemma ScanOpen(rest: string, output: seq<Token>, stack: seq<Pending>)
    ensures Scan(State(['('] + rest, output, stack)) == Scan(State(rest, output, stack + [OpenParen]))
  {
    assert (['('] + rest)[1..] == rest;
  }

  /** The converter drains whatever stack the scan ends with. */
  lemma ConvertScanned(s: string, output: seq<Token>, stack: seq<Pending>)
    requires Scan(State(s, [], [])) == Ok(State([], output, stack))
    ensures Convert(s) == Drain(output, stack)
  {
  }

  // ---------------------------------------------------------------------
  // The loop of the evaluator

  /** The loop runs the first token, then the rest from where it left. */
  lemma RunCons(t: Token, rest: seq<Token>, stack: seq<real>, pow: (real, real) -> real)
    ensures Run([t] + rest, stack, pow) == (var next :- EvalStep(stack, t, pow); Run(rest, next, pow))
  {
    assert ([t] + rest)[0] == t && ([t] + rest)[1..] == rest;
  }

  /** An operator replaces the two top values with its result. */
  lemma ApplyTop(below: seq<real>, a: real, b: real, o: Operator, pow: (real, real) -> real)
    ensures EvalStep(below + [a, b], Op(o), pow) == (var v :- Apply(o, a, b, pow); Ok(below + [v]))
  {
    var stack := below + [a, b];
    assert stack[|stack| - 1] == b && stack[|stack| - 2] == a && stack[..|stack| - 2] == below;
  }
}
