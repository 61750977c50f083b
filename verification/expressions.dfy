/**
  The converter and the evaluator on every expression of the calculator's
  grammar: number literals, the five operators and parentheses, with any
  run of plain spaces before or after each of them. An expression is given
  as a tree whose shape is the one the precedence table and left grouping
  assign to its text: for every such tree the converter outputs the
  tree's postfix order (calc.py:49-53, 58-63, 67-70), and the entry
  point's value is the tree's value, its operands computed before its
  operator.
 */
module Expressions {
  import opened Syntax
  import opened Validation
  import opened ShuntingYard
  import opened Postfix
  import opened Calculator
  import opened ConversionProperties
  import opened Passes

  // ---------------------------------------------------------------------
  // Expression trees and their text

  /** A number literal, an operator applied to two operands, a
      parenthesised expression, or an expression with `before` plain
      spaces in front of it and `after` plain spaces behind it. */
  datatype Expr =
    | Lit(text: string)
    | Bin(op: Operator, left: Expr, right: Expr)
    | Group(inner: Expr)
    | Pad(body: Expr, before: nat, after: nat)

  /** How tightly the top of an expression binds: its operator's
      precedence, or more than any precedence for a literal or a group. */
  function Level(e: Expr): nat {
    match e
    case Bin(op, _, _) => op.Precedence()
    case Pad(b, _, _) => Level(b)
    case _ => 4
  }

  /** The tree is the one its text denotes: every literal is a run of
      digits and dots, the left operand of an operator binds at least as
      tightly as the operator, the right one strictly more tightly (so
      equal precedences group to the left), and an operand that binds more
      loosely is a group. */
  predicate WellFormed(e: Expr) {
    match e
    case Lit(x) => IsRun(x)
    case Bin(op, l, r) =>
      WellFormed(l) && WellFormed(r) && Level(l) >= op.Precedence() && Level(r) > op.Precedence()
    case Group(i) => WellFormed(i)
    case Pad(b, _, _) => WellFormed(b)
  }

  /** Every literal of the tree is one the evaluator reads. */
  predicate Readable(e: Expr) {
    match e
    case Lit(x) => IsNumeric(x)
    case Bin(_, l, r) => Readable(l) && Readable(r)
    case Group(i) => Readable(i)
    case Pad(b, _, _) => Readable(b)
  }

  /** The text of an expression. */
  function Spell(e: Expr): string {
    match e
    case Lit(x) => x
    case Bin(op, l, r) => Spell(l) + ([op.Symbol()] + Spell(r))
    case Group(i) => ['('] + (Spell(i) + [')'])
    case Pad(b, m, n) => Spaces(m) + (Spell(b) + Spaces(n))
  }

  /** The postfix order of a tree: both operands, then the operator. */
  function PostfixOf(e: Expr): seq<Token> {
    match e
    case Lit(x) => [Num(x)]
    case Bin(op, l, r) => PostfixOf(l) + PostfixOf(r) + [Op(op)]
    case Group(i) => PostfixOf(i)
    case Pad(b, _, _) => PostfixOf(b)
  }

  /** The value of a tree: the left operand, then the right, then the
      operator; the first failure is the result. */
  function Eval(e: Expr, pow: (real, real) -> real): (r: Result<real>)
    requires Readable(e)
    ensures r.Err? ==> r.error == DivisionByZero
  {
    match e
    case Lit(x) => Ok(DecimalValue(x))
    case Bin(op, l, r) =>
      var a :- Eval(l, pow);
      var b :- Eval(r, pow);
      Apply(op, a, b, pow)
    case Group(i) => Eval(i, pow)
    case Pad(b, _, _) => Eval(b, pow)
  }

  /** The last character of the text of a tree that is not a space. */
  function LastChar(e: Expr): char {
    match e
    case Lit(x) => if |x| > 0 then x[|x| - 1] else ' '
    case Bin(_, _, r) => LastChar(r)
    case Group(_) => ')'
    case Pad(b, _, _) => LastChar(b)
  }

  /** The text of a tree shows its last character other than a space,
      which is a digit, a dot or `)`; so the text is never blank. */
  lemma {:induction false} SpellEnds(e: Expr)
    requires WellFormed(e)
    ensures LastChar(e) in Spell(e)
    ensures IsNumberChar(LastChar(e)) || LastChar(e) == ')'
  {
    match e
    case Lit(x) =>
      assert x[|x| - 1] in x;
    case Bin(op, l, r) =>
      SpellEnds(r);
      assert LastChar(e) in [op.Symbol()] + Spell(r);
    case Group(i) =>
      assert (['('] + (Spell(i) + [')']))[|Spell(i)| + 1] == ')';
    case Pad(b, m, n) =>
      SpellEnds(b);
      assert LastChar(e) in Spell(b) + Spaces(n);
  }

  /** The text of `l op r` followed by `rest`. */
  lemma SpellBin(op: Operator, l: Expr, r: Expr, rest: string)
    ensures Spell(Bin(op, l, r)) + rest == Spell(l) + ([op.Symbol()] + (Spell(r) + rest))
  {
    AppendAssoc(Spell(l), [op.Symbol()] + Spell(r), rest);
    AppendAssoc([op.Symbol()], Spell(r), rest);
  }

  /** The text of `(i)` followed by `rest`. */
  lemma SpellGroup(i: Expr, rest: string)
    ensures Spell(Group(i)) + rest == ['('] + (Spell(i) + ([')'] + rest))
  {
    AppendAssoc(['('], Spell(i) + [')'], rest);
    AppendAssoc(Spell(i), [')'], rest);
  }

  /** The text of a padded tree followed by `rest`. */
  lemma SpellPad(b: Expr, m: nat, n: nat, rest: string)
    ensures Spell(Pad(b, m, n)) + rest == Spaces(m) + (Spell(b) + (Spaces(n) + rest))
  {
    AppendAssoc(Spaces(m), Spell(b) + Spaces(n), rest);
    AppendAssoc(Spell(b), Spaces(n), rest);
  }

  lemma AppendAssoc<T>(a: seq<T>, b: seq<T>, c: seq<T>)
    ensures (a + b) + c == a + (b + c)
  {
  }

  // ---------------------------------------------------------------------
  // The validator accepts every text

  /** The adjacency loop passes over the text of a tree, whatever it
      remembered before, and then remembers the text's last character
      other than a space. */
  lemma {:induction false} CheckSpell(e: Expr, text: string, rest: string, prev: Option<char>)
    requires WellFormed(e)
    requires text == Spell(e) + rest
    ensures CheckAdjacency(text, prev) == CheckAdjacency(rest, Some(LastChar(e)))
    ensures !IsOperatorChar(LastChar(e))
  {
    match e
    case Lit(x) =>
      CheckRun(x, rest, prev);
    case Bin(op, l, r) =>
      var right := Spell(r) + rest;
      SpellBin(op, l, r, rest);
      CheckSpell(l, text, [op.Symbol()] + right, prev);
      CheckOperator(op, right, LastChar(l));
      CheckSpell(r, right, rest, Some(op.Symbol()));
    case Group(i) =>
      var closing := [')'] + rest;
      var inner := Spell(i) + closing;
      SpellGroup(i, rest);
      CheckOpen(text, inner, prev);
      CheckSpell(i, inner, closing, Some('('));
      CheckClose(closing, rest, LastChar(i));
    case Pad(b, m, n) =>
      var trailing := Spaces(n) + rest;
      var inner := Spell(b) + trailing;
      SpellPad(b, m, n, rest);
      CheckSpaces(m, inner, prev);
      CheckSpell(b, inner, trailing, prev);
      CheckSpaces(n, rest, Some(LastChar(b)));
  }

  /** The validator accepts the text of every tree. */
  lemma ValidateSpell(e: Expr)
    requires WellFormed(e)
    ensures Validate(Spell(e)) == Ok(())
  {
    var s := Spell(e);
    SpellEnds(e);
    assert !AllWhitespace(s) by {
      var k :| 0 <= k < |s| && s[k] == LastChar(e);
      assert !IsWhitespace(s[k]);
    }
    CheckSpell(e, s, [], None);
    assert s == s + [];
  }

  // ---------------------------------------------------------------------
  // The scan over a text

  /** Nothing on top of the stack would be popped by an operator of
      precedence `p`. */
  predicate Guarded(stack: seq<Pending>, p: nat) {
    |stack| == 0 || stack[|stack| - 1] == OpenParen || stack[|stack| - 1].op.Precedence() < p
  }

  /** The output written once the text of a tree is read. */
  function Settled(e: Expr): seq<Token> {
    match e
    case Lit(x) => [Num(x)]
    case Bin(_, l, r) => PostfixOf(l) + Settled(r)
    case Group(i) => PostfixOf(i)
    case Pad(b, _, _) => Settled(b)
  }

  /** The operators of a tree still on the stack once its text is read,
      bottom first: the operators along its right edge, up to the first
      literal or group. */
  function Waiting(e: Expr): seq<Pending> {
    match e
    case Bin(op, _, r) => [PendingOp(op)] + Waiting(r)
    case Pad(b, _, _) => Waiting(b)
    case _ => []
  }

  /** An operator at the bottom of a segment is popped last. */
  lemma UnstackBottom(op: Operator, seg: seq<Pending>)
    requires OnlyOperators(seg)
    ensures OnlyOperators([PendingOp(op)] + seg)
    ensures Unstack([PendingOp(op)] + seg) == Unstack(seg) + [Op(op)]
  {
    var whole := [PendingOp(op)] + seg;
    assert OnlyOperators(whole) by {
      forall k | 0 <= k < |whole| ensures whole[k].PendingOp? {
        if k > 0 {
          assert whole[k] == seg[k - 1];
        }
      }
    }
    var a, b := Unstack(whole), Unstack(seg) + [Op(op)];
    assert |a| == |b|;
    forall k | 0 <= k < |a| ensures a[k] == b[k] {
      if k < |seg| {
        assert whole[|whole| - 1 - k] == seg[|seg| - 1 - k];
      }
    }
  }

  /** The waiting operators bind at least as tightly as the tree, and
      popping them completes the settled output to the postfix order. */
  lemma {:induction false} WaitingParts(e: Expr)
    requires WellFormed(e)
    ensures BindsAtLeast(Waiting(e), Level(e))
    ensures PostfixOf(e) == Settled(e) + Unstack(Waiting(e))
  {
    match e
    case Lit(x) =>
      assert Unstack([]) == [];
    case Bin(op, l, r) =>
      WaitingParts(r);
      var w := Waiting(r);
      UnstackBottom(op, w);
      var whole := [PendingOp(op)] + w;
      forall k | 0 <= k < |whole| ensures whole[k].op.Precedence() >= op.Precedence() {
        if k > 0 {
          assert whole[k] == w[k - 1];
        }
      }
      assert PostfixOf(r) == Settled(r) + Unstack(w);
      assert PostfixOf(e) == PostfixOf(l) + (Settled(r) + Unstack(w)) + [Op(op)];
    case Group(i) =>
      assert Unstack([]) == [];
    case Pad(b, _, _) =>
      WaitingParts(b);
  }

  /** The pops before pushing `op` stop exactly at the top of a guarded
      stack when the segment above it binds at least as tightly as `op`. */
  lemma {:induction false} KeepGuarded(below: seq<Pending>, seg: seq<Pending>, op: Operator)
    requires BindsAtLeast(seg, op.Precedence())
    requires Guarded(below, op.Precedence())
    ensures KeepBelow(below + seg, op) == |below|
    decreases |seg|
  {
    var stack := below + seg;
    if |seg| == 0 {
      assert stack == below;
    } else {
      var shorter := seg[..|seg| - 1];
      assert stack[|stack| - 1] == seg[|seg| - 1];
      assert stack[..|stack| - 1] == below + shorter;
      assert BindsAtLeast(shorter, op.Precedence()) by {
        forall k | 0 <= k < |shorter| ensures shorter[k] == seg[k] {
        }
      }
      KeepGuarded(below, shorter, op);
    }
  }

  /** Pushing an operator pops exactly the segment above a guarded stack
      when that segment binds at least as tightly as the operator. */
  lemma PopAbove(output: seq<Token>, below: seq<Pending>, seg: seq<Pending>, op: Operator)
    requires BindsAtLeast(seg, op.Precedence())
    requires Guarded(below, op.Precedence())
    ensures PopHigher(output, below + seg, op) == (output + Unstack(seg), below)
  {
    var stack := below + seg;
    KeepGuarded(below, seg, op);
    assert stack[..|below|] == below && stack[|below|..] == seg;
  }

  /** `)` pops exactly the operators above the open parenthesis that sits
      on top of `below`. */
  lemma CloseGroup(output: seq<Token>, below: seq<Pending>, seg: seq<Pending>)
    requires OnlyOperators(seg)
    ensures CloseParen(output, below + [OpenParen] + seg) == Ok((output + Unstack(seg), below))
  {
    var stack := below + [OpenParen] + seg;
    assert stack[|below|] == OpenParen;
    var r := CloseParen(output, stack);
    var j := |r.value.1|;
    assert stack[..j] == below && stack[j + 1..] == seg;
  }

  /** An operator on top of a guarded stack pops the segment above it
      into the output, which becomes `popped`, and is pushed in its place. */
  lemma ScanInfix(op: Operator, t: string, output: seq<Token>, below: seq<Pending>, seg: seq<Pending>, popped: seq<Token>)
    requires BindsAtLeast(seg, op.Precedence())
    requires Guarded(below, op.Precedence())
    requires popped == output + Unstack(seg)
    ensures Scan(State([op.Symbol()] + t, output, below + seg)) == Scan(State(t, popped, below + [PendingOp(op)]))
  {
    ScanOperator(op, t, output, below + seg);
    PopAbove(output, below, seg, op);
  }

  /** `)` on top of a group pops the group's operators and its `(`. */
  lemma ScanCloseParen(text: string, rest: string, output: seq<Token>, below: seq<Pending>, seg: seq<Pending>,
                       outEnd: seq<Token>, stackEnd: seq<Pending>)
    requires text == [')'] + rest && OnlyOperators(seg)
    requires outEnd == output + Unstack(seg) && stackEnd == below
    ensures Scan(State(text, output, below + [OpenParen] + seg)) == Scan(State(rest, outEnd, stackEnd))
  {
    CloseGroup(output, below, seg);
    assert text[1..] == rest;
  }

  /** Reading the text of a tree, on a stack whose top the tree's
      operators do not pop, writes the settled output and leaves the
      waiting operators on the stack. */
  lemma {:induction false} ScanSpell(e: Expr, text: string, rest: string, output: seq<Token>, stack: seq<Pending>,
                                     outEnd: seq<Token>, stackEnd: seq<Pending>)
    requires WellFormed(e)
    requires |rest| == 0 || !IsNumberChar(rest[0])
    requires Guarded(stack, Level(e))
    requires text == Spell(e) + rest && outEnd == output + Settled(e) && stackEnd == stack + Waiting(e)
    ensures Scan(State(text, output, stack)) == Scan(State(rest, outEnd, stackEnd))
    decreases e, 1
  {
    match e
    case Lit(x) =>
      assert stackEnd == stack;
      ScanNumber(x, rest, output, stack);
    case Bin(op, l, r) =>
      ScanSpellBin(op, l, r, text, rest, output, stack, outEnd, stackEnd);
    case Group(i) =>
      ScanSpellGroup(i, text, rest, output, stack, outEnd, stackEnd);
    case Pad(b, m, n) =>
      ScanSpellPad(b, m, n, text, rest, output, stack, outEnd, stackEnd);
  }

  /** The scan over the text of `l op r`: `l` is read, the operator pops
      what `l` left waiting and is pushed, then `r` is read above it. */
  lemma {:induction false} ScanSpellBin(op: Operator, l: Expr, r: Expr, text: string, rest: string,
                                        output: seq<Token>, stack: seq<Pending>, outEnd: seq<Token>, stackEnd: seq<Pending>)
    requires WellFormed(Bin(op, l, r))
    requires |rest| == 0 || !IsNumberChar(rest[0])
    requires Guarded(stack, op.Precedence())
    requires text == Spell(Bin(op, l, r)) + rest
    requires outEnd == output + Settled(Bin(op, l, r)) && stackEnd == stack + Waiting(Bin(op, l, r))
    ensures Scan(State(text, output, stack)) == Scan(State(rest, outEnd, stackEnd))
    decreases Bin(op, l, r), 0
  {
    var right := Spell(r) + rest;
    SpellBin(op, l, r, rest);
    SymbolRoundTrip(op);
    WaitingParts(l);
    ScanSpell(l, text, [op.Symbol()] + right, output, stack, output + Settled(l), stack + Waiting(l));
    AppendAssoc(output, Settled(l), Unstack(Waiting(l)));
    ScanInfix(op, right, output + Settled(l), stack, Waiting(l), output + PostfixOf(l));
    AppendAssoc(output, PostfixOf(l), Settled(r));
    AppendAssoc(stack, [PendingOp(op)], Waiting(r));
    ScanSpell(r, right, rest, output + PostfixOf(l), stack + [PendingOp(op)], outEnd, stackEnd);
  }

  /** The scan over the text of `(i)`: `(` is pushed, `i` is read above
      it, and `)` pops what `i` left waiting. */
  lemma {:induction false} ScanSpellGroup(i: Expr, text: string, rest: string,
                                          output: seq<Token>, stack: seq<Pending>, outEnd: seq<Token>, stackEnd: seq<Pending>)
    requires WellFormed(i)
    requires text == Spell(Group(i)) + rest
    requires outEnd == output + PostfixOf(i) && stackEnd == stack
    ensures Scan(State(text, output, stack)) == Scan(State(rest, outEnd, stackEnd))
    decreases Group(i), 0
  {
    var closing := [')'] + rest;
    var inner := Spell(i) + closing;
    SpellGroup(i, rest);
    WaitingParts(i);
    ScanOpen(inner, output, stack);
    ScanSpell(i, inner, closing, output, stack + [OpenParen], output + Settled(i), stack + [OpenParen] + Waiting(i));
    AppendAssoc(output, Settled(i), Unstack(Waiting(i)));
    ScanCloseParen(closing, rest, output + Settled(i), stack, Waiting(i), outEnd, stackEnd);
  }

  /** The scan over a padded tree: the spaces on either side are passed
      over and leave the output and the stack alone. */
  lemma {:induction false} ScanSpellPad(b: Expr, m: nat, n: nat, text: string, rest: string,
                                        output: seq<Token>, stack: seq<Pending>, outEnd: seq<Token>, stackEnd: seq<Pending>)
    requires WellFormed(b)
    requires |rest| == 0 || !IsNumberChar(rest[0])
    requires Guarded(stack, Level(b))
    requires text == Spell(Pad(b, m, n)) + rest
    requires outEnd == output + Settled(b) && stackEnd == stack + Waiting(b)
    ensures Scan(State(text, output, stack)) == Scan(State(rest, outEnd, stackEnd))
    decreases Pad(b, m, n), 0
  {
    var trailing := Spaces(n) + rest;
    var inner := Spell(b) + trailing;
    SpellPad(b, m, n, rest);
    ScanSpaces(m, inner, output, stack);
    assert n > 0 ==> trailing[0] == ' ';
    ScanSpell(b, inner, trailing, output, stack, outEnd, stackEnd);
    ScanSpaces(n, rest, outEnd, stackEnd);
  }

  /** The scan over the text of a tree, from the start. */
  lemma ScanWhole(e: Expr)
    requires WellFormed(e)
    ensures Scan(State(Spell(e), [], [])) == Ok(State([], Settled(e), Waiting(e)))
  {
    var empty: seq<Token> := [];
    var bottom: seq<Pending> := [];
    ScanSpell(e, Spell(e), [], empty, bottom, Settled(e), Waiting(e));
  }

  /** The converter outputs the postfix order of every tree. */
  lemma ConvertSpell(e: Expr)
    requires WellFormed(e)
    ensures Convert(Spell(e)) == Ok(PostfixOf(e))
  {
    ScanWhole(e);
    WaitingParts(e);
    ConvertScanned(Spell(e), Settled(e), Waiting(e));
  }

  /** The whole converter, validation included, turns the text of every
      tree into its postfix order: operators of higher precedence first,
      equal precedences to the left, groups as written. */
  lemma InfixToRpnSpell(e: Expr)
    requires WellFormed(e)
    ensures InfixToRpn(Spell(e)) == Ok(PostfixOf(e))
  {
    ValidateSpell(e);
    ConvertSpell(e);
  }

  // ---------------------------------------------------------------------
  // The evaluator on a postfix order

  /** The loop over a tree's postfix order puts the tree's value on the
      stack, or fails as the tree's value does. */
  lemma {:induction false} RunPostfix(e: Expr, rest: seq<Token>, stack: seq<real>, pow: (real, real) -> real)
    requires Readable(e)
    ensures Run(PostfixOf(e) + rest, stack, pow) ==
              if Eval(e, pow).Ok? then Run(rest, stack + [Eval(e, pow).value], pow) else Err(Eval(e, pow).error)
  {
    match e
    case Lit(x) =>
      RunCons(Num(x), rest, stack, pow);
    case Bin(op, l, r) =>
      var tail := [Op(op)] + rest;
      var right := PostfixOf(r) + tail;
      assert PostfixOf(e) + rest == PostfixOf(l) + right;
      RunPostfix(l, right, stack, pow);
      if Eval(l, pow).Ok? {
        var a := Eval(l, pow).value;
        RunPostfix(r, tail, stack + [a], pow);
        if Eval(r, pow).Ok? {
          var b := Eval(r, pow).value;
          RunCons(Op(op), rest, stack + [a] + [b], pow);
          assert stack + [a] + [b] == stack + [a, b];
          ApplyTop(stack, a, b, op, pow);
        }
      }
    case Group(i) =>
      RunPostfix(i, rest, stack, pow);
    case Pad(b, _, _) =>
      RunPostfix(b, rest, stack, pow);
  }

  /** The evaluator computes the value of every tree from its postfix order. */
  lemma EvaluatePostfix(e: Expr, pow: (real, real) -> real)
    requires Readable(e)
    ensures Evaluate(PostfixOf(e), pow) == Eval(e, pow)
  {
    var empty: seq<real> := [];
    RunPostfix(e, [], empty, pow);
    assert PostfixOf(e) + [] == PostfixOf(e);
    if Eval(e, pow).Ok? {
      assert empty + [Eval(e, pow).value] == [Eval(e, pow).value];
    }
  }

  /** The entry point on the text of every tree gives the tree's value,
      and fails only by division by zero, caught. */
  lemma CalculateSpell(e: Expr, pow: (real, real) -> real)
    requires WellFormed(e) && Readable(e)
    ensures Calculate(Spell(e), pow) ==
              if Eval(e, pow).Ok? then Value(Eval(e, pow).value) else CalculationError(DivisionByZero)
  {
    InfixToRpnSpell(e);
    EvaluatePostfix(e, pow);
  }
}
