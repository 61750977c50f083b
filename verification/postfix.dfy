/**
  Evaluation of a postfix token sequence (calc.py:74-101) with a stack of
  values, the stack's top being the last element. Values are exact reals;
  raising to a power is a parameter `pow` of the evaluator, except for a
  zero base with a negative exponent, which fails as a division by zero.
 */
module Postfix {
  import opened Syntax

  // ---------------------------------------------------------------------
  // Number literals (calc.py:7-13)

  /** Every character of `t` is a decimal digit. */
  predicate AllDigits(t: string) {
    forall k :: 0 <= k < |t| ==> IsDigit(t[k])
  }

  /** Position of the first dot of `t`, or `|t|` when there is none. */
  function DotIndex(t: string): (i: nat)
    ensures i <= |t|
    ensures forall k :: 0 <= k < i ==> t[k] != '.'
    ensures i < |t| ==> t[i] == '.'
    decreases |t|
  {
    if |t| == 0 || t[0] == '.' then 0 else 1 + DotIndex(t[1..])
  }

  /** A number literal the evaluator accepts: digits, optionally one dot
      followed by more digits, and at least one digit in all. Such a
      literal is a non-empty run of digits and dots holding a digit. */
  function IsNumeric(t: string): (b: bool)
    ensures b ==> |t| > 0 && forall k :: 0 <= k < |t| ==> IsNumberChar(t[k])
    ensures b ==> exists k :: 0 <= k < |t| && IsDigit(t[k])
  {
    var i := DotIndex(t);
    var b := && AllDigits(t[..i])
             && (i == |t| || AllDigits(t[i + 1..]))
             && (i > 0 || i + 1 < |t|);
    if b then DigitsAroundDot(t, i); b else b
  }

  /** Digits on both sides of the first dot make a digit/dot run with a digit. */
  lemma DigitsAroundDot(t: string, i: nat)
    requires i <= |t| && (i < |t| ==> t[i] == '.')
    requires AllDigits(t[..i]) && (i == |t| || AllDigits(t[i + 1..])) && (i > 0 || i + 1 < |t|)
    ensures |t| > 0 && forall k :: 0 <= k < |t| ==> IsNumberChar(t[k])
    ensures exists k :: 0 <= k < |t| && IsDigit(t[k])
  {
    forall k | 0 <= k < |t| ensures IsNumberChar(t[k]) {
      if k < i {
        assert t[..i][k] == t[k];
      } else if k > i {
        assert t[i + 1..][k - i - 1] == t[k];
      }
    }
    if i > 0 {
      assert t[..i][0] == t[0];
      assert IsDigit(t[0]);
    } else {
      assert t[i + 1..][0] == t[i + 1];
      assert IsDigit(t[i + 1]);
    }
  }

  /** The value of a string of digits read in base ten. */
  function DigitsValue(d: string): nat
    requires AllDigits(d)
    decreases |d|
  {
    if |d| == 0 then 0 else 10 * DigitsValue(d[..|d| - 1]) + (d[|d| - 1] as int - '0' as int)
  }

  function Pow10(n: nat): (p: nat)
    ensures p > 0
  {
    if n == 0 then 1 else 10 * Pow10(n - 1)
  }

  /** Reading `a + b` in base ten: `a` shifted left by the length of `b`,
      plus `b`. */
  lemma {:induction false} DigitsValueConcat(a: string, b: string)
    requires AllDigits(a) && AllDigits(b)
    ensures AllDigits(a + b)
    ensures DigitsValue(a + b) == DigitsValue(a) * Pow10(|b|) + DigitsValue(b)
    decreases |b|
  {
    var s := a + b;
    assert AllDigits(s) by {
      forall k | 0 <= k < |s| ensures IsDigit(s[k]) {
        if k < |a| {
          assert s[k] == a[k];
        } else {
          assert s[k] == b[k - |a|];
        }
      }
    }
    if |b| == 0 {
      assert s == a;
    } else {
      var front := b[..|b| - 1];
      assert AllDigits(front) by {
        forall k | 0 <= k < |front| ensures IsDigit(front[k]) {
          assert front[k] == b[k];
        }
      }
      DigitsValueConcat(a, front);
      assert s[..|s| - 1] == a + front;
      assert s[|s| - 1] == b[|b| - 1];
      var d := b[|b| - 1] as int - '0' as int;
      assert b[..|b| - 1] == front;
      assert DigitsValue(b) == 10 * DigitsValue(front) + d;
      assert DigitsValue(s) == 10 * DigitsValue(a + front) + d;
      assert Pow10(|b|) == 10 * Pow10(|front|);
      ShiftDigit(DigitsValue(a), Pow10(|front|), DigitsValue(front), d);
    }
  }

  /** One more digit behind `a`'s shifted digits: the distributive step
      of `DigitsValueConcat`. */
  lemma ShiftDigit(va: int, p: int, vf: int, d: int)
    ensures 10 * (va * p + vf) + d == va * (10 * p) + (10 * vf + d)
  {
  }

  /** Multiplying naturals and then reading the product as a real is
      multiplying their readings as reals. */
  lemma {:induction false} CastProduct(x: nat, y: nat)
    ensures (x * y) as real == x as real * y as real
    decreases y
  {
    if y > 0 {
      CastProduct(x, y - 1);
      assert x * y == x * (y - 1) + x;
    }
  }

  /** `v` with the decimal point moved `k` places to the right. */
  function Shifted(v: real, k: nat): real {
    v * Pow10(k) as real
  }

  /** The whole part `a` plus the `k` fraction digits `b` scaled down,
      shifted back by `k` places, is the literal `n` read without its dot. */
  lemma ScaleDigits(v: real, a: nat, b: nat, k: nat, n: nat)
    requires n == a * Pow10(k) + b && v == a as real + b as real / Pow10(k) as real
    ensures Shifted(v, k) == n as real
  {
    CastProduct(a, Pow10(k));
    ScaleBack(a as real, b as real, Pow10(k) as real);
  }

  /** Scaling `a + b / p` back up by `p`. */
  lemma ScaleBack(a: real, b: real, p: real)
    requires p > 0.0
    ensures (a + b / p) * p == a * p + b
  {
  }

  /** The exact value of a number literal: the digits before the dot plus
      the digits after it scaled down by ten to their count. */
  function DecimalValue(t: string): (v: real)
    requires IsNumeric(t)
    ensures v >= 0.0
    ensures AllDigits(t) ==> v == DigitsValue(t) as real
  {
    var i := DotIndex(t);
    if i == |t| then DigitsValue(t) as real
    else DigitsValue(t[..i]) as real + DigitsValue(t[i + 1..]) as real / Pow10(|t| - i - 1) as real
  }

  /** Reading a dotted literal back: its value, scaled up by ten to the
      number of digits after the dot, is the value of its digits read with
      the dot taken out. */
  lemma DecimalValueShift(t: string)
    requires IsNumeric(t) && DotIndex(t) < |t|
    ensures AllDigits(t[..DotIndex(t)] + t[DotIndex(t) + 1..])
    ensures Shifted(DecimalValue(t), |t| - DotIndex(t) - 1)
            == DigitsValue(t[..DotIndex(t)] + t[DotIndex(t) + 1..]) as real
  {
    var i := DotIndex(t);
    DigitsValueConcat(t[..i], t[i + 1..]);
    assert |t[i + 1..]| == |t| - i - 1;
    ScaleDigits(DecimalValue(t), DigitsValue(t[..i]), DigitsValue(t[i + 1..]), |t| - i - 1,
                DigitsValue(t[..i] + t[i + 1..]));
  }

  // ---------------------------------------------------------------------
  // Operators (calc.py:86-97)

  /** One operator applied to the deeper operand `a` and the top operand
      `b`. Division by zero fails, and so does zero raised to a negative
      power; every other power is whatever `pow` says. */
  function Apply(op: Operator, a: real, b: real, pow: (real, real) -> real): (r: Result<real>)
    ensures r.Err? <==> (op == Divide && b == 0.0) || (op == Power && a == 0.0 && b < 0.0)
    ensures r.Err? ==> r.error == DivisionByZero
    ensures r.Ok? && op == Plus ==> r.value - b == a
    ensures r.Ok? && op == Minus ==> r.value + b == a
    ensures r.Ok? && op == Times ==> r.value == a * b
    ensures r.Ok? && op == Divide ==> r.value * b == a
    ensures r.Ok? && op == Power ==> r.value == pow(a, b)
  {
    match op
    case Plus => Ok(a + b)
    case Minus => Ok(a - b)
    case Times => Ok(a * b)
    case Divide => if b == 0.0 then Err(DivisionByZero) else Ok(a / b)
    case Power => if a == 0.0 && b < 0.0 then Err(DivisionByZero) else Ok(pow(a, b))
  }

  // ---------------------------------------------------------------------
  // Stack accounting

  /** How many values a token takes off the stack: none for a number, two
      for anything else (an operator, or a literal the evaluator cannot
      read, which pops its two operands and pushes nothing). */
  function Arity(t: Token): nat {
    if t.Num? && IsNumeric(t.text) then 0 else 2
  }

  /** How many values a token leaves on the stack. */
  function Pushes(t: Token): nat {
    if t.Num? && !IsNumeric(t.text) then 0 else 1
  }

  /** A token whose operator can fail on its operands' values. */
  predicate MayDivide(t: Token) {
    t.Op? && (t.op == Divide || t.op == Power)
  }

  // ---------------------------------------------------------------------
  // The evaluator

  /** One pass of the evaluation loop (calc.py:79-97). */
  function EvalStep(stack: seq<real>, t: Token, pow: (real, real) -> real): (r: Result<seq<real>>)
    ensures r.Err? ==> r.error == InsufficientOperands || r.error == DivisionByZero
    ensures r.Err? && r.error == InsufficientOperands <==> |stack| < Arity(t)
    ensures r.Err? && r.error == DivisionByZero ==> MayDivide(t) && |stack| >= 2
    ensures !MayDivide(t) && |stack| >= Arity(t) ==> r.Ok?
    ensures r.Ok? ==>
              && |stack| >= Arity(t)
              && |r.value| == |stack| - Arity(t) + Pushes(t)
              && r.value[..|stack| - Arity(t)] == stack[..|stack| - Arity(t)]
    ensures r.Ok? && t.Num? && IsNumeric(t.text) ==> r.value[|r.value| - 1] == DecimalValue(t.text)
    ensures r.Ok? && t.Op? ==>
              Apply(t.op, stack[|stack| - 2], stack[|stack| - 1], pow) == Ok(r.value[|r.value| - 1])
  {
    if t.Num? && IsNumeric(t.text) then Ok(stack + [DecimalValue(t.text)])
    else if |stack| < 2 then Err(InsufficientOperands)
    else
      var b, a, below := stack[|stack| - 1], stack[|stack| - 2], stack[..|stack| - 2];
      match t
      case Num(_) => Ok(below)
      case Op(op) =>
        var v :- Apply(op, a, b, pow);
        Ok(below + [v])
  }

  /** The evaluation loop over the remaining tokens, from a given stack. */
  function Run(tokens: seq<Token>, stack: seq<real>, pow: (real, real) -> real): (r: Result<seq<real>>)
    ensures r.Err? ==> r.error == InsufficientOperands || r.error == DivisionByZero
    decreases |tokens|
  {
    if |tokens| == 0 then Ok(stack)
    else
      var next :- EvalStep(stack, tokens[0], pow);
      Run(tokens[1..], next, pow)
  }

  /** The evaluator (calc.py:74-101): the loop from an empty stack, which
      must leave exactly one value. */
  function Evaluate(tokens: seq<Token>, pow: (real, real) -> real): (r: Result<real>)
    ensures r.Err? ==> r.error in {InsufficientOperands, DivisionByZero, InvalidExpression}
    ensures Run(tokens, [], pow).Ok? && |Run(tokens, [], pow).value| == 1 ==>
              r == Ok(Run(tokens, [], pow).value[0])
    ensures Run(tokens, [], pow).Ok? && |Run(tokens, [], pow).value| != 1 ==> r == Err(InvalidExpression)
    ensures Run(tokens, [], pow).Err? ==> r == Err(Run(tokens, [], pow).error)
  {
    var stack :- Run(tokens, [], pow);
    if |stack| != 1 then Err(InvalidExpression) else Ok(stack[0])
  }
}
