/**
  What the postfix evaluator guarantees, stated against a stack-height
  account of the token sequence that does not look at any value: every
  token must find the operands it takes, the stack ends as high as the
  account says, the evaluator never reaches below the operands it takes,
  and the evaluation succeeds exactly when one value is left.
 */
module EvaluationProperties {
  import opened Sequences
  import opened Syntax
  import opened Postfix

  // ---------------------------------------------------------------------
  // Number literals

  /** The characters before the first dot hold no dot. */
  lemma CountBeforeDot(t: string)
    ensures Count(t, '.') == Count(t[DotIndex(t)..], '.')
  {
    var i := DotIndex(t);
    assert t == t[..i] + t[i..];
    CountConcat(t[..i], t[i..], '.');
    CountAbsent(t[..i], '.');
  }

  /** From the first dot on, the dot count is one more than after it. */
  lemma CountFromDot(t: string, i: nat)
    requires i < |t| && t[i] == '.'
    ensures Count(t[i..], '.') == 1 + Count(t[i + 1..], '.')
  {
    var from := t[i..];
    assert from[0] == '.';
    assert from[1..] == t[i + 1..] by {
      forall k | 0 <= k < |t| - i - 1 ensures from[1..][k] == t[i + 1..][k] { }
    }
  }

  /** A string of digit/dot characters without a dot is all digits. */
  lemma DigitsWithoutDot(u: string)
    requires forall k :: 0 <= k < |u| ==> IsNumberChar(u[k])
    requires Count(u, '.') == 0
    ensures AllDigits(u)
  {
    if !AllDigits(u) {
      var k :| 0 <= k < |u| && !IsDigit(u[k]);
      CountPresent(u, '.');
    }
  }

  /** A literal the evaluator reads is a digit/dot string with at most
      one dot and at least one digit. */
  lemma NumericShape(t: string)
    requires IsNumeric(t)
    ensures forall k :: 0 <= k < |t| ==> IsNumberChar(t[k])
    ensures Count(t, '.') <= 1
    ensures exists k :: 0 <= k < |t| && IsDigit(t[k])
  {
    var i := DotIndex(t);
    CountBeforeDot(t);
    if i == |t| {
      assert t[i..] == [];
      assert t[..i] == t;
      assert IsDigit(t[0]);
    } else {
      var u := t[i + 1..];
      CountFromDot(t, i);
      CountAbsent(u, '.');
      forall k | 0 <= k < |t| ensures IsNumberChar(t[k]) {
        if k < i {
          assert t[..i][k] == t[k];
        } else if k > i {
          assert u[k - i - 1] == t[k];
        }
      }
      if i > 0 {
        assert t[..i][0] == t[0];
      } else {
        assert IsDigit(u[0]) && u[0] == t[i + 1];
      }
    }
  }

  /** A digit/dot string with at most one dot and at least one digit is a
      literal the evaluator reads. */
  lemma ShapeNumeric(t: string)
    requires forall k :: 0 <= k < |t| ==> IsNumberChar(t[k])
    requires Count(t, '.') <= 1
    requires exists k :: 0 <= k < |t| && IsDigit(t[k])
    ensures IsNumeric(t)
  {
    var i := DotIndex(t);
    var k :| 0 <= k < |t| && IsDigit(t[k]);
    assert AllDigits(t[..i]) by {
      forall j | 0 <= j < i ensures IsDigit(t[..i][j]) {
        assert t[..i][j] == t[j];
      }
    }
    if i < |t| {
      var u := t[i + 1..];
      CountBeforeDot(t);
      CountFromDot(t, i);
      forall j | 0 <= j < |u| ensures IsNumberChar(u[j]) {
        assert u[j] == t[i + 1 + j];
      }
      DigitsWithoutDot(u);
      if i == 0 {
        assert u[k - 1] == t[k];
      }
    }
  }

  /** The literals the evaluator reads are exactly the digit/dot strings
      with at most one dot and at least one digit. */
  lemma IsNumericSpec(t: string)
    ensures IsNumeric(t) <==>
              && (forall k :: 0 <= k < |t| ==> IsNumberChar(t[k]))
              && Count(t, '.') <= 1
              && (exists k :: 0 <= k < |t| && IsDigit(t[k]))
  {
    if IsNumeric(t) {
      NumericShape(t);
    }
    if (forall k :: 0 <= k < |t| ==> IsNumberChar(t[k])) && Count(t, '.') <= 1 &&
       (exists k :: 0 <= k < |t| && IsDigit(t[k])) {
      ShapeNumeric(t);
    }
  }

  /** The decimal spelling of a natural number, without leading zeros. */
  function NatText(n: nat): (t: string)
    ensures |t| > 0 && AllDigits(t)
    decreases n
  {
    var last := ['0' + (n % 10) as char];
    if n < 10 then last else NatText(n / 10) + last
  }

  /** Reading the spelling of a number gives the number back. */
  lemma {:induction false} NatTextRoundTrip(n: nat)
    ensures DigitsValue(NatText(n)) == n
    decreases n
  {
    var t := NatText(n);
    if n >= 10 {
      NatTextRoundTrip(n / 10);
      assert t[..|t| - 1] == NatText(n / 10);
    }
  }

  /** A spelled natural number is a literal the evaluator reads as itself. */
  lemma NatTextValue(n: nat)
    ensures IsNumeric(NatText(n))
    ensures DecimalValue(NatText(n)) == n as real
  {
    var t := NatText(n);
    NatTextRoundTrip(n);
    assert DotIndex(t) == |t| by {
      NoDotIndex(t);
    }
    assert t[..|t|] == t;
  }

  lemma NoDotIndex(t: string)
    requires AllDigits(t)
    ensures DotIndex(t) == |t|
  {
  }

  // ---------------------------------------------------------------------
  // The stack-height account

  /** The stack height after `tokens`, starting from height `d`. */
  function Height(tokens: seq<Token>, d: int): int
    decreases |tokens|
  {
    if |tokens| == 0 then d else Height(tokens[1..], d - Arity(tokens[0]) + Pushes(tokens[0]))
  }

  /** Starting from height `d`, every token finds the operands it takes. */
  predicate Fits(tokens: seq<Token>, d: int)
    decreases |tokens|
  {
    |tokens| == 0 || (d >= Arity(tokens[0]) && Fits(tokens[1..], d - Arity(tokens[0]) + Pushes(tokens[0])))
  }

  /** No token's operator can fail on the values it meets. */
  predicate DivisionFree(tokens: seq<Token>) {
    forall k :: 0 <= k < |tokens| ==> !MayDivide(tokens[k])
  }

  /** The evaluation loop follows the height account: a shortage of
      operands happens exactly where the account says so, and on success
      the stack is as high as the account says. Without division the
      loop succeeds exactly when the account has no shortage. */
  lemma {:induction false} RunShape(tokens: seq<Token>, stack: seq<real>, pow: (real, real) -> real)
    ensures Run(tokens, stack, pow).Ok? ==>
              Fits(tokens, |stack|) && |Run(tokens, stack, pow).value| == Height(tokens, |stack|)
    ensures Run(tokens, stack, pow) == Err(InsufficientOperands) ==> !Fits(tokens, |stack|)
    ensures !Fits(tokens, |stack|) ==> Run(tokens, stack, pow).Err?
    ensures DivisionFree(tokens) ==>
              (Run(tokens, stack, pow).Ok? <==> Fits(tokens, |stack|))
    ensures DivisionFree(tokens) && !Fits(tokens, |stack|) ==>
              Run(tokens, stack, pow) == Err(InsufficientOperands)
    decreases |tokens|
  {
    if |tokens| > 0 {
      var t := tokens[0];
      var r := EvalStep(stack, t, pow);
      if r.Ok? {
        RunShape(tokens[1..], r.value, pow);
      }
    }
  }

  /** The evaluation loop never reaches below the operands it takes: a
      run that succeeds from `stack` succeeds the same way on top of any
      deeper values, which it leaves alone. */
  lemma {:induction false} RunFrame(tokens: seq<Token>, below: seq<real>, stack: seq<real>, pow: (real, real) -> real)
    requires Run(tokens, stack, pow).Ok?
    ensures Run(tokens, below + stack, pow) == Ok(below + Run(tokens, stack, pow).value)
    decreases |tokens|
  {
    if |tokens| > 0 {
      var t := tokens[0];
      var next := EvalStep(stack, t, pow).value;
      StepFrame(below, stack, t, pow);
      RunFrame(tokens[1..], below, next, pow);
    }
  }

  /** One pass of the loop on top of deeper values. */
  lemma StepFrame(below: seq<real>, stack: seq<real>, t: Token, pow: (real, real) -> real)
    requires EvalStep(stack, t, pow).Ok?
    ensures EvalStep(below + stack, t, pow) == Ok(below + EvalStep(stack, t, pow).value)
  {
    var whole := below + stack;
    if t.Num? && IsNumeric(t.text) {
      assert whole + [DecimalValue(t.text)] == below + (stack + [DecimalValue(t.text)]);
    } else {
      var n := |stack|;
      assert whole[|whole| - 1] == stack[n - 1];
      assert whole[|whole| - 2] == stack[n - 2];
      assert whole[..|whole| - 2] == below + stack[..n - 2];
      if t.Op? {
        var v := Apply(t.op, stack[n - 2], stack[n - 1], pow).value;
        assert whole[..|whole| - 2] + [v] == below + (stack[..n - 2] + [v]);
      }
    }
  }

  /** Evaluating a sequence in two parts evaluates the second part from
      where the first left the stack. */
  lemma {:induction false} RunConcat(a: seq<Token>, b: seq<Token>, stack: seq<real>, pow: (real, real) -> real)
    ensures Run(a + b, stack, pow) ==
              match Run(a, stack, pow)
              case Ok(mid) => Run(b, mid, pow)
              case Err(e) => Err(e)
    decreases |a|
  {
    if |a| == 0 {
      assert a + b == b;
    } else {
      assert (a + b)[0] == a[0];
      assert (a + b)[1..] == a[1..] + b;
      var r := EvalStep(stack, a[0], pow);
      if r.Ok? {
        RunConcat(a[1..], b, r.value, pow);
      }
    }
  }

  /** The evaluator succeeds only when every operator finds its operands
      and exactly one value is left, and names the failure otherwise;
      without division it succeeds exactly then. */
  lemma EvaluateSpec(tokens: seq<Token>, pow: (real, real) -> real)
    ensures Evaluate(tokens, pow).Ok? ==> Fits(tokens, 0) && Height(tokens, 0) == 1
    ensures Evaluate(tokens, pow) == Err(InsufficientOperands) ==> !Fits(tokens, 0)
    ensures Evaluate(tokens, pow) == Err(InvalidExpression) <==>
              Run(tokens, [], pow).Ok? && Height(tokens, 0) != 1
    ensures Run(tokens, [], pow).Ok? && Height(tokens, 0) == 1 ==>
              Evaluate(tokens, pow) == Ok(Run(tokens, [], pow).value[0])
    ensures DivisionFree(tokens) ==>
              (Evaluate(tokens, pow).Ok? <==> Fits(tokens, 0) && Height(tokens, 0) == 1)
    ensures DivisionFree(tokens) && !Fits(tokens, 0) ==> Evaluate(tokens, pow) == Err(InsufficientOperands)
    ensures DivisionFree(tokens) && Fits(tokens, 0) && Height(tokens, 0) != 1 ==>
              Evaluate(tokens, pow) == Err(InvalidExpression)
  {
    RunShape(tokens, [], pow);
  }
}
