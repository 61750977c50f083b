/**
  What the shunting-yard conversion guarantees, stated against definitions
  that do not mention its stack: the number literals of the output are the
  maximal digit/dot runs of the input in input order, the operators of the
  output are those of the input, each once, and the conversion fails
  exactly when the parentheses of the input are unbalanced.
 */
module ConversionProperties {
  import opened Sequences
  import opened Syntax
  import opened Validation
  import opened ShuntingYard

  // ---------------------------------------------------------------------
  // Reference definitions

  /** A non-empty string of digits and dots. */
  predicate IsRun(t: string) {
    |t| > 0 && forall k :: 0 <= k < |t| ==> IsNumberChar(t[k])
  }

  /** The maximal runs of digits and dots of `s`, left to right. */
  function Runs(s: string): (rs: seq<string>)
    ensures forall k :: 0 <= k < |rs| ==> IsRun(rs[k])
    decreases |s|
  {
    if |s| == 0 then []
    else if !IsNumberChar(s[0]) then Runs(s[1..])
    else
      var n := RunLength(s);
      [s[..n]] + Runs(s[n..])
  }

  /** The operators spelled in `s`, left to right. */
  function OperatorsIn(s: string): seq<Operator>
    decreases |s|
  {
    if |s| == 0 then []
    else (if IsOperatorChar(s[0]) then [OperatorOf(s[0])] else []) + OperatorsIn(s[1..])
  }

  /** Open parentheses minus close parentheses in `t`. */
  function ParenDepth(t: string): int {
    Count(t, '(') - Count(t, ')')
  }

  /** No prefix of `t` closes more parentheses than `base` plus those it opens. */
  predicate NeverBelow(t: string, base: int) {
    forall k :: 0 <= k <= |t| ==> base + ParenDepth(t[..k]) >= 0
  }

  /** Every `)` of `s` closes an earlier `(`, and every `(` is closed. */
  predicate Balanced(s: string) {
    NeverBelow(s, 0) && ParenDepth(s) == 0
  }

  /** The number texts of a token sequence, in order. */
  function NumberTexts(tokens: seq<Token>): seq<string>
    decreases |tokens|
  {
    if |tokens| == 0 then []
    else (if tokens[0].Num? then [tokens[0].text] else []) + NumberTexts(tokens[1..])
  }

  /** The operators of a token sequence, in order. */
  function OperatorsOf(tokens: seq<Token>): seq<Operator>
    decreases |tokens|
  {
    if |tokens| == 0 then []
    else (if tokens[0].Op? then [tokens[0].op] else []) + OperatorsOf(tokens[1..])
  }

  /** The operators waiting on a stack segment, bottom to top. */
  function PendingOperators(stack: seq<Pending>): seq<Operator>
    decreases |stack|
  {
    if |stack| == 0 then []
    else (if stack[0].PendingOp? then [stack[0].op] else []) + PendingOperators(stack[1..])
  }

  /** Open parentheses waiting on a stack segment. */
  function OpenCount(stack: seq<Pending>): nat {
    Count(stack, OpenParen)
  }

  // ---------------------------------------------------------------------
  // Bookkeeping over concatenation

  lemma {:induction false} NumberTextsConcat(a: seq<Token>, b: seq<Token>)
    ensures NumberTexts(a + b) == NumberTexts(a) + NumberTexts(b)
    decreases |a|
  {
    if |a| > 0 {
      assert (a + b)[1..] == a[1..] + b;
      NumberTextsConcat(a[1..], b);
    } else {
      assert a + b == b;
    }
  }

  lemma {:induction false} OperatorsOfConcat(a: seq<Token>, b: seq<Token>)
    ensures OperatorsOf(a + b) == OperatorsOf(a) + OperatorsOf(b)
    decreases |a|
  {
    if |a| > 0 {
      assert (a + b)[1..] == a[1..] + b;
      OperatorsOfConcat(a[1..], b);
    } else {
      assert a + b == b;
    }
  }

  lemma {:induction false} PendingOperatorsConcat(a: seq<Pending>, b: seq<Pending>)
    ensures PendingOperators(a + b) == PendingOperators(a) + PendingOperators(b)
    decreases |a|
  {
    if |a| > 0 {
      assert (a + b)[1..] == a[1..] + b;
      PendingOperatorsConcat(a[1..], b);
    } else {
      assert a + b == b;
    }
  }

  /** Popped operators carry no number, keep their operators and hold no
      parenthesis. */
  lemma {:induction false} UnstackContents(seg: seq<Pending>, o: Operator)
    requires OnlyOperators(seg)
    ensures NumberTexts(Unstack(seg)) == []
    ensures Count(OperatorsOf(Unstack(seg)), o) == Count(PendingOperators(seg), o)
    ensures OpenCount(seg) == 0
    decreases |seg|
  {
    if |seg| > 0 {
      var init, top := seg[..|seg| - 1], seg[|seg| - 1];
      assert seg == init + [top];
      UnstackContents(init, o);
      NumberTextsConcat([Op(top.op)], Unstack(init));
      OperatorsOfConcat([Op(top.op)], Unstack(init));
      CountConcat([top.op], OperatorsOf(Unstack(init)), o);
      PendingOperatorsConcat(init, [top]);
      CountConcat(PendingOperators(init), [top.op], o);
      CountConcat(init, [top], OpenParen);
    }
  }

  // ---------------------------------------------------------------------
  // Parenthesis depth over concatenation

  lemma ParenDepthConcat(a: string, b: string)
    ensures ParenDepth(a + b) == ParenDepth(a) + ParenDepth(b)
  {
    CountConcat(a, b, '(');
    CountConcat(a, b, ')');
  }

  lemma NeverBelowConcat(a: string, b: string, d: int)
    ensures NeverBelow(a + b, d) <==> NeverBelow(a, d) && NeverBelow(b, d + ParenDepth(a))
  {
    var ab := a + b;
    if NeverBelow(ab, d) {
      forall k | 0 <= k <= |a| ensures d + ParenDepth(a[..k]) >= 0 {
        assert ab[..k] == a[..k];
      }
      forall k | 0 <= k <= |b| ensures d + ParenDepth(a) + ParenDepth(b[..k]) >= 0 {
        assert ab[..|a| + k] == a + b[..k];
        ParenDepthConcat(a, b[..k]);
      }
    }
    if NeverBelow(a, d) && NeverBelow(b, d + ParenDepth(a)) {
      forall k | 0 <= k <= |ab| ensures d + ParenDepth(ab[..k]) >= 0 {
        if k <= |a| {
          assert ab[..k] == a[..k];
        } else {
          assert ab[..k] == a + b[..k - |a|];
          ParenDepthConcat(a, b[..k - |a|]);
        }
      }
    }
  }

  /** A string without parentheses neither opens nor closes any. */
  lemma NeverBelowWithoutParens(t: string, d: int)
    requires forall k :: 0 <= k < |t| ==> t[k] != '(' && t[k] != ')'
    requires d >= 0
    ensures ParenDepth(t) == 0
    ensures NeverBelow(t, d)
  {
    forall k | 0 <= k <= |t| ensures ParenDepth(t[..k]) == 0 {
      CountAbsent(t[..k], '(');
      CountAbsent(t[..k], ')');
    }
    assert t[..|t|] == t;
  }

  // ---------------------------------------------------------------------
  // The scan: number literals

  /** One pass of the loop keeps the number literals of the output,
      followed by the runs still unread, unchanged. */
  lemma StepNumbers(st: State)
    requires |st.rest| > 0 && Step(st).Ok?
    ensures var next := Step(st).value;
            NumberTexts(next.output) + Runs(next.rest) == NumberTexts(st.output) + Runs(st.rest)
  {
    var c, rest, output, stack := st.rest[0], st.rest, st.output, st.stack;
    if IsNumberChar(c) {
      var n := RunLength(rest);
      assert Step(st).value.output == output + [Num(rest[..n])];
      NumberTextsConcat(output, [Num(rest[..n])]);
    } else if IsOperatorChar(c) {
      var popped := PopHigher(output, stack, OperatorOf(c));
      assert Step(st).value.output == output + Unstack(stack[|popped.1|..]);
      NumberTextsConcat(output, Unstack(stack[|popped.1|..]));
      UnstackContents(stack[|popped.1|..], Plus);
    } else if c == ')' {
      var below, seg := CloseParenParts(output, stack);
      assert Step(st).value.output == output + Unstack(seg);
      NumberTextsConcat(output, Unstack(seg));
      UnstackContents(seg, Plus);
    } else {
      assert Step(st).value.output == output;
    }
  }

  /** The number tokens the scan appends are the maximal runs it reads. */
  lemma {:induction false} ScanNumbers(st: State)
    requires Scan(st).Ok?
    ensures NumberTexts(Scan(st).value.output) == NumberTexts(st.output) + Runs(st.rest)
    decreases |st.rest|
  {
    if |st.rest| > 0 {
      var next := Step(st).value;
      StepNumbers(st);
      ScanNumbers(next);
    } else {
      assert Runs(st.rest) == [];
    }
  }

  // ---------------------------------------------------------------------
  // The scan: operators

  /** How often `o` occurs in the output, on the stack and in the unread rest. */
  function Census(st: State, o: Operator): nat {
    Count(OperatorsOf(st.output), o) + Count(PendingOperators(st.stack), o) + Count(OperatorsIn(st.rest), o)
  }

  /** A run of digits and dots spells no operator. */
  lemma {:induction false} OperatorsInNumberRun(t: string, n: nat)
    requires n <= |t|
    requires forall k :: 0 <= k < n ==> IsNumberChar(t[k])
    ensures OperatorsIn(t) == OperatorsIn(t[n..])
    decreases n
  {
    if n > 0 {
      OperatorsInNumberRun(t[1..], n - 1);
      assert t[1..][n - 1..] == t[n..];
    }
  }

  /** Appending a popped segment adds its operators to the output. */
  lemma AppendCensus(output: seq<Token>, seg: seq<Pending>, o: Operator)
    requires OnlyOperators(seg)
    ensures Count(OperatorsOf(output + Unstack(seg)), o) == Count(OperatorsOf(output), o) + Count(PendingOperators(seg), o)
  {
    OperatorsOfConcat(output, Unstack(seg));
    CountConcat(OperatorsOf(output), OperatorsOf(Unstack(seg)), o);
    UnstackContents(seg, o);
  }

  /** Splitting a stack splits its operators. */
  lemma SplitCensus(below: seq<Pending>, seg: seq<Pending>, o: Operator)
    ensures Count(PendingOperators(below + seg), o) == Count(PendingOperators(below), o) + Count(PendingOperators(seg), o)
  {
    PendingOperatorsConcat(below, seg);
    CountConcat(PendingOperators(below), PendingOperators(seg), o);
  }

  /** Popping before a push moves operators from the stack to the output. */
  lemma PopCensus(output: seq<Token>, stack: seq<Pending>, op: Operator, o: Operator)
    ensures var popped := PopHigher(output, stack, op);
            Count(OperatorsOf(popped.0), o) + Count(PendingOperators(popped.1), o) ==
            Count(OperatorsOf(output), o) + Count(PendingOperators(stack), o)
  {
    var popped := PopHigher(output, stack, op);
    var seg := stack[|popped.1|..];
    AppendCensus(output, seg, o);
    assert stack == popped.1 + seg;
    SplitCensus(popped.1, seg, o);
  }

  /** A successful close splits the stack at its topmost open parenthesis:
      what lies below it stays, what lies above it goes to the output. */
  lemma CloseParenParts(output: seq<Token>, stack: seq<Pending>) returns (below: seq<Pending>, seg: seq<Pending>)
    requires CloseParen(output, stack).Ok?
    ensures OnlyOperators(seg)
    ensures stack == below + ([OpenParen] + seg)
    ensures CloseParen(output, stack).value == (output + Unstack(seg), below)
  {
    var j := TopOpen(stack).value;
    below, seg := stack[..j], stack[j + 1..];
    assert stack == below + ([OpenParen] + seg);
  }

  /** Closing a parenthesis moves operators from the stack to the output. */
  lemma CloseCensus(output: seq<Token>, stack: seq<Pending>, o: Operator)
    requires CloseParen(output, stack).Ok?
    ensures var closed := CloseParen(output, stack).value;
            Count(OperatorsOf(closed.0), o) + Count(PendingOperators(closed.1), o) ==
            Count(OperatorsOf(output), o) + Count(PendingOperators(stack), o)
  {
    var below, seg := CloseParenParts(output, stack);
    AppendCensus(output, seg, o);
    SplitCensus(below, [OpenParen] + seg, o);
    SplitCensus([OpenParen], seg, o);
    assert PendingOperators([OpenParen]) == [];
  }

  /** The operators of the rest after its first character, which is not
      part of a number literal. */
  lemma RestCensus(rest: string, o: Operator)
    requires |rest| > 0
    ensures Count(OperatorsIn(rest), o) ==
              (if IsOperatorChar(rest[0]) && OperatorOf(rest[0]) == o then 1 else 0) + Count(OperatorsIn(rest[1..]), o)
  {
    var c := rest[0];
    var head: seq<Operator> := if IsOperatorChar(c) then [OperatorOf(c)] else [];
    assert OperatorsIn(rest) == head + OperatorsIn(rest[1..]);
    CountConcat(head, OperatorsIn(rest[1..]), o);
    if IsOperatorChar(c) {
      CountSingle(OperatorOf(c), o);
    }
  }

  lemma NumberCensus(st: State, o: Operator)
    requires |st.rest| > 0 && IsNumberChar(st.rest[0])
    ensures Census(Step(st).value, o) == Census(st, o)
  {
    var rest, output := st.rest, st.output;
    var n := RunLength(rest);
    assert Step(st).value == State(rest[n..], output + [Num(rest[..n])], st.stack);
    assert OperatorsOf(output + [Num(rest[..n])]) == OperatorsOf(output) by {
      OperatorsOfConcat(output, [Num(rest[..n])]);
    }
    OperatorsInNumberRun(rest, n);
  }

  lemma PushCensus(rest: string, output: seq<Token>, stack: seq<Pending>, o: Operator)
    requires |rest| > 0 && IsOperatorChar(rest[0])
    ensures var op := OperatorOf(rest[0]);
            var popped := PopHigher(output, stack, op);
            Census(State(rest[1..], popped.0, popped.1 + [PendingOp(op)]), o) == Census(State(rest, output, stack), o)
  {
    var op := OperatorOf(rest[0]);
    var popped := PopHigher(output, stack, op);
    RestCensus(rest, o);
    SplitCensus(popped.1, [PendingOp(op)], o);
    assert PendingOperators([PendingOp(op)]) == [op];
    CountSingle(op, o);
    PopCensus(output, stack, op, o);
  }

  lemma CloseStepCensus(st: State, o: Operator)
    requires |st.rest| > 0 && st.rest[0] == ')' && Step(st).Ok?
    ensures Census(Step(st).value, o) == Census(st, o)
  {
    var closed := CloseParen(st.output, st.stack).value;
    assert Step(st).value == State(st.rest[1..], closed.0, closed.1);
    RestCensus(st.rest, o);
    CloseCensus(st.output, st.stack, o);
  }

  lemma OtherCensus(st: State, o: Operator)
    requires |st.rest| > 0
    requires !IsNumberChar(st.rest[0]) && !IsOperatorChar(st.rest[0]) && st.rest[0] != ')'
    ensures Census(Step(st).value, o) == Census(st, o)
  {
    var rest, stack := st.rest, st.stack;
    RestCensus(rest, o);
    if rest[0] == '(' {
      assert Step(st).value == State(rest[1..], st.output, stack + [OpenParen]);
      PendingOperatorsConcat(stack, [OpenParen]);
      assert PendingOperators([OpenParen]) == [];
      assert PendingOperators(stack + [OpenParen]) == PendingOperators(stack);
    } else {
      assert Step(st).value == State(rest[1..], st.output, stack);
    }
  }

  /** One pass of the loop moves operators between the unread rest, the
      stack and the output, but creates or loses none. */
  lemma StepOperators(st: State, o: Operator)
    requires |st.rest| > 0 && Step(st).Ok?
    ensures Census(Step(st).value, o) == Census(st, o)
  {
    var c := st.rest[0];
    if IsNumberChar(c) {
      NumberCensus(st, o);
    } else if IsOperatorChar(c) {
      var op := OperatorOf(c);
      var popped := PopHigher(st.output, st.stack, op);
      assert Step(st).value == State(st.rest[1..], popped.0, popped.1 + [PendingOp(op)]);
      PushCensus(st.rest, st.output, st.stack, o);
    } else if c == ')' {
      CloseStepCensus(st, o);
    } else {
      OtherCensus(st, o);
    }
  }

  /** Every operator the scan reads ends up in the output or on the stack,
      and nothing else gets there. */
  lemma {:induction false} ScanOperators(st: State, o: Operator)
    requires Scan(st).Ok?
    ensures Census(Scan(st).value, o) == Census(st, o)
    decreases |st.rest|
  {
    if |st.rest| > 0 {
      StepOperators(st, o);
      ScanOperators(Step(st).value, o);
    }
  }

  // ---------------------------------------------------------------------
  // The scan: parentheses

  /** Closing a parenthesis fails exactly when none is open, and otherwise
      removes one. */
  lemma CloseOpens(output: seq<Token>, stack: seq<Pending>)
    ensures CloseParen(output, stack).Ok? <==> OpenCount(stack) > 0
    ensures CloseParen(output, stack).Ok? ==>
              OpenCount(CloseParen(output, stack).value.1) == OpenCount(stack) - 1
  {
    if CloseParen(output, stack).Ok? {
      var below, seg := CloseParenParts(output, stack);
      UnstackContents(seg, Plus);
      CountConcat(below, [OpenParen] + seg, OpenParen);
      CountConcat([OpenParen], seg, OpenParen);
      CountSingle(OpenParen, OpenParen);
    } else {
      CountAbsent(stack, OpenParen);
    }
  }

  /** Reading a `)`: it fails exactly when no open parenthesis is waiting,
      and otherwise removes one. */
  lemma CloseParens(st: State)
    requires |st.rest| > 0 && st.rest[0] == ')'
    ensures Step(st).Ok? <==> OpenCount(st.stack) > 0
    ensures Step(st).Ok? ==> OpenCount(Step(st).value.stack) == OpenCount(st.stack) - 1
  {
    var r := CloseParen(st.output, st.stack);
    CloseOpens(st.output, st.stack);
    if r.Ok? {
      assert Step(st) == Ok(State(st.rest[1..], r.value.0, r.value.1));
    } else {
      assert Step(st).Err?;
    }
  }

  /** Reading an operator pops only operators. */
  lemma PushParens(st: State)
    requires |st.rest| > 0 && IsOperatorChar(st.rest[0])
    ensures Step(st).Ok? && OpenCount(Step(st).value.stack) == OpenCount(st.stack)
  {
    var output, stack := st.output, st.stack;
    var op := OperatorOf(st.rest[0]);
    var popped := PopHigher(output, stack, op);
    var m := |popped.1|;
    var seg := stack[m..];
    assert Step(st) == Ok(State(st.rest[1..], popped.0, popped.1 + [PendingOp(op)]));
    UnstackContents(seg, op);
    assert stack == popped.1 + seg;
    CountConcat(popped.1, seg, OpenParen);
    CountConcat(popped.1, [PendingOp(op)], OpenParen);
  }

  /** One pass of the loop fails exactly when it reads a `)` with no open
      parenthesis on the stack, and otherwise the stack's open parentheses
      follow the depth of what it read. */
  lemma StepParens(st: State)
    requires |st.rest| > 0
    ensures var w, d := Width(st.rest), OpenCount(st.stack);
            && (Step(st).Ok? <==> NeverBelow(st.rest[..w], d))
            && (Step(st).Ok? ==> OpenCount(Step(st).value.stack) == d + ParenDepth(st.rest[..w]))
  {
    var c, rest, output, stack := st.rest[0], st.rest, st.output, st.stack;
    var w, d := Width(rest), OpenCount(stack);
    if IsNumberChar(c) {
      NeverBelowWithoutParens(rest[..w], d);
      assert Step(st).value.stack == stack;
    } else {
      assert rest[..w] == [c];
      assert [c][..0] == [] && [c][..1] == [c];
      assert NeverBelow([c], d) <==> d + ParenDepth([c]) >= 0;
      CountSingle(c, '(');
      CountSingle(c, ')');
      if c == ')' {
        CloseParens(st);
      } else if IsOperatorChar(c) {
        PushParens(st);
      } else if c == '(' {
        assert Step(st).value.stack == stack + [OpenParen];
        CountConcat(stack, [OpenParen], OpenParen);
        CountSingle(OpenParen, OpenParen);
      } else {
        assert Step(st).value.stack == stack;
      }
    }
  }

  /** The scan succeeds exactly when no `)` of the rest lacks an open
      parenthesis, counting those already on the stack; and then the stack
      holds as many open parentheses as were left unclosed. */
  lemma {:induction false} ScanParens(st: State)
    ensures Scan(st).Ok? <==> NeverBelow(st.rest, OpenCount(st.stack))
    ensures Scan(st).Ok? ==> OpenCount(Scan(st).value.stack) == OpenCount(st.stack) + ParenDepth(st.rest)
    decreases |st.rest|
  {
    var rest, d := st.rest, OpenCount(st.stack);
    if |rest| == 0 {
      assert rest[..0] == rest;
    } else {
      var w := Width(rest);
      StepParens(st);
      assert rest == rest[..w] + rest[w..];
      NeverBelowConcat(rest[..w], rest[w..], d);
      ParenDepthConcat(rest[..w], rest[w..]);
      if Step(st).Ok? {
        ScanParens(Step(st).value);
      }
    }
  }

  // ---------------------------------------------------------------------
  // The converter as a whole

  /** Tokens are numbers or operators, so counting both counts them all. */
  lemma {:induction false} TokenCensus(tokens: seq<Token>)
    ensures |tokens| == |NumberTexts(tokens)| + |OperatorsOf(tokens)|
    ensures forall k :: 0 <= k < |tokens| && tokens[k].Num? ==> tokens[k].text in NumberTexts(tokens)
    decreases |tokens|
  {
    if |tokens| > 0 {
      TokenCensus(tokens[1..]);
      forall k | 0 < k < |tokens| && tokens[k].Num? ensures tokens[k].text in NumberTexts(tokens) {
        assert tokens[1..][k - 1] == tokens[k];
      }
    }
  }

  /** The conversion succeeds exactly when the parentheses balance. */
  lemma ConvertBalance(s: string)
    ensures Convert(s).Ok? <==> Balanced(s)
  {
    var init := State(s, [], []);
    ScanParens(init);
    var sc := Scan(init);
    if sc.Ok? {
      var st := sc.value.stack;
      if OpenParen in st {
        CountPresent(st, OpenParen);
      } else {
        CountAbsent(st, OpenParen);
      }
    }
  }

  /** On success the conversion outputs each operator of the input as
      often as the input spells it. */
  lemma ConvertOperators(s: string, o: Operator)
    requires Convert(s).Ok?
    ensures Count(OperatorsOf(Convert(s).value), o) == Count(OperatorsIn(s), o)
  {
    var init := State(s, [], []);
    var sc := Scan(init).value;
    ScanOperators(init, o);
    assert OperatorsIn(sc.rest) == [];
    OperatorsOfConcat(sc.output, Unstack(sc.stack));
    CountConcat(OperatorsOf(sc.output), OperatorsOf(Unstack(sc.stack)), o);
    UnstackContents(sc.stack, o);
  }

  /** On success the conversion outputs the maximal runs of the input. */
  lemma ConvertNumbers(s: string)
    requires Convert(s).Ok?
    ensures NumberTexts(Convert(s).value) == Runs(s)
  {
    var init := State(s, [], []);
    var sc := Scan(init).value;
    ScanNumbers(init);
    NumberTextsConcat(sc.output, Unstack(sc.stack));
    UnstackContents(sc.stack, Plus);
  }

  /** The conversion of a validated expression succeeds exactly when its
      parentheses balance, fails with `UnbalancedParentheses` otherwise,
      and on success outputs the maximal digit/dot runs of the input in
      input order and the operators of the input, each exactly once, and
      nothing else. */
  lemma ConvertSpec(s: string)
    ensures Convert(s).Ok? <==> Balanced(s)
    ensures Convert(s).Err? ==> Convert(s).error == UnbalancedParentheses
    ensures Convert(s).Ok? ==> NumberTexts(Convert(s).value) == Runs(s)
    ensures Convert(s).Ok? ==> multiset(OperatorsOf(Convert(s).value)) == multiset(OperatorsIn(s))
    ensures Convert(s).Ok? ==> |Convert(s).value| == |Runs(s)| + |OperatorsIn(s)|
    ensures Convert(s).Ok? ==>
              forall k :: 0 <= k < |Convert(s).value| && Convert(s).value[k].Num? ==> IsRun(Convert(s).value[k].text)
  {
    ConvertBalance(s);
    if Convert(s).Ok? {
      var out := Convert(s).value;
      ConvertNumbers(s);
      forall o ensures Count(OperatorsOf(out), o) == Count(OperatorsIn(s), o) {
        ConvertOperators(s, o);
      }
      SameCounts(OperatorsOf(out), OperatorsIn(s));
      TokenCensus(out);
      assert |multiset(OperatorsOf(out))| == |multiset(OperatorsIn(s))|;
    }
  }

  /** The whole converter: the validator's verdict first, then the
      conversion of a validated expression. */
  lemma InfixToRpnSpec(s: string)
    ensures InfixToRpn(s).Ok? <==>
              !AllWhitespace(s) && !StartsWithOperator(s) && !HasAdjacentOperators(s) && Balanced(s)
    ensures AllWhitespace(s) ==> InfixToRpn(s) == Err(EmptyExpression)
    ensures !AllWhitespace(s) && StartsWithOperator(s) ==> InfixToRpn(s) == Err(LeadingOperator)
    ensures !AllWhitespace(s) && !StartsWithOperator(s) && HasAdjacentOperators(s) ==>
              InfixToRpn(s) == Err(ConsecutiveOperators)
    ensures !AllWhitespace(s) && !StartsWithOperator(s) && !HasAdjacentOperators(s) && !Balanced(s) ==>
              InfixToRpn(s) == Err(UnbalancedParentheses)
  {
    ValidateSpec(s);
    ConvertSpec(s);
  }
}
