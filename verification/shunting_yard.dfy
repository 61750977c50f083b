/**
  Conversion of an infix expression to postfix order (calc.py:27-72): one
  left-to-right scan with an output sequence and an operator stack, the
  stack's top being the LAST element of the sequence, as with a list used
  as a stack.
 */
module ShuntingYard {
  import opened Syntax
  import opened Validation

  /** An entry of the operator stack: a pending operator or an open
      parenthesis. Nothing else is ever pushed. */
  datatype Pending = PendingOp(op: Operator) | OpenParen

  /** Length of the longest prefix of `t` made of digits and dots: the
      number literal the scanner collects when it meets one. */
  function RunLength(t: string): (n: nat)
    ensures n <= |t|
    ensures forall k :: 0 <= k < n ==> IsNumberChar(t[k])
    ensures n < |t| ==> !IsNumberChar(t[n])
    decreases |t|
  {
    if |t| == 0 || !IsNumberChar(t[0]) then 0 else 1 + RunLength(t[1..])
  }

  /** All entries of a stack segment are operators. */
  predicate OnlyOperators(seg: seq<Pending>) {
    forall k :: 0 <= k < |seg| ==> seg[k].PendingOp?
  }

  /** The tokens a segment of operators contributes to the output when it
      is popped, top first. */
  function Unstack(seg: seq<Pending>): (out: seq<Token>)
    requires OnlyOperators(seg)
    ensures |out| == |seg|
    ensures forall k :: 0 <= k < |out| ==> out[k] == Op(seg[|seg| - 1 - k].op)
    decreases |seg|
  {
    if |seg| == 0 then [] else [Op(seg[|seg| - 1].op)] + Unstack(seg[..|seg| - 1])
  }

  /** A stack segment of operators whose precedences are all at least `p`. */
  predicate BindsAtLeast(seg: seq<Pending>, p: nat) {
    OnlyOperators(seg) && forall k :: 0 <= k < |seg| ==> seg[k].op.Precedence() >= p
  }

  /** How many stack entries survive the popping before `op` is pushed
      (calc.py:50-52): the pops stop at an open parenthesis, at an operator
      that binds less tightly than `op`, or at the bottom of the stack. */
  function KeepBelow(stack: seq<Pending>, op: Operator): (m: nat)
    ensures m <= |stack|
    ensures BindsAtLeast(stack[m..], op.Precedence())
    ensures m == 0 || stack[m - 1] == OpenParen || stack[m - 1].op.Precedence() < op.Precedence()
    decreases |stack|
  {
    if |stack| > 0 && stack[|stack| - 1].PendingOp? && stack[|stack| - 1].op.Precedence() >= op.Precedence()
    then
      var below := stack[..|stack| - 1];
      var m := KeepBelow(below, op);
      assert stack[m..] == below[m..] + [stack[|stack| - 1]];
      m
    else |stack|
  }

  /** Before pushing `op` (calc.py:50-53): pop operators of greater or equal
      precedence into the output, top first, stopping at an open
      parenthesis. */
  function PopHigher(output: seq<Token>, stack: seq<Pending>, op: Operator): (r: (seq<Token>, seq<Pending>))
    ensures |r.1| <= |stack| && r.1 == stack[..|r.1|]
    ensures BindsAtLeast(stack[|r.1|..], op.Precedence())
    ensures r.0 == output + Unstack(stack[|r.1|..])
    ensures |r.1| == 0 || stack[|r.1| - 1] == OpenParen || stack[|r.1| - 1].op.Precedence() < op.Precedence()
  {
    var m := KeepBelow(stack, op);
    (output + Unstack(stack[m..]), stack[..m])
  }

  /** The position of the topmost open parenthesis of the stack, if any. */
  function TopOpen(stack: seq<Pending>): (j: Option<nat>)
    ensures j.None? <==> OpenParen !in stack
    ensures j.Some? ==> j.value < |stack| && stack[j.value] == OpenParen && OnlyOperators(stack[j.value + 1..])
    decreases |stack|
  {
    if |stack| == 0 then None
    else if stack[|stack| - 1] == OpenParen then Some(|stack| - 1)
    else
      var below := stack[..|stack| - 1];
      assert stack == below + [stack[|stack| - 1]];
      var j := TopOpen(below);
      if j.Some? then
        assert stack[j.value + 1..] == below[j.value + 1..] + [stack[|stack| - 1]];
        j
      else j
  }

  /** On `)` (calc.py:58-63): pop operators into the output down to the
      nearest open parenthesis and discard it; fail if there is none. */
  function CloseParen(output: seq<Token>, stack: seq<Pending>): (r: Result<(seq<Token>, seq<Pending>)>)
    ensures r.Ok? <==> OpenParen in stack
    ensures r.Err? ==> r.error == UnbalancedParentheses
    ensures r.Ok? ==>
              var j := |r.value.1|;
              && j < |stack| && stack[j] == OpenParen && r.value.1 == stack[..j]
              && OnlyOperators(stack[j + 1..])
              && r.value.0 == output + Unstack(stack[j + 1..])
  {
    match TopOpen(stack)
    case None => Err(UnbalancedParentheses)
    case Some(j) => Ok((output + Unstack(stack[j + 1..]), stack[..j]))
  }

  /** After the scan (calc.py:67-70): pop everything left into the output,
      failing on an open parenthesis that was never closed. */
  function Drain(output: seq<Token>, stack: seq<Pending>): (r: Result<seq<Token>>)
    ensures r.Ok? <==> OpenParen !in stack
    ensures r.Err? ==> r.error == UnbalancedParentheses
    ensures r.Ok? ==> OnlyOperators(stack) && r.value == output + Unstack(stack)
    decreases |stack|
  {
    if |stack| == 0 then Ok(output)
    else
      var top, below := stack[|stack| - 1], stack[..|stack| - 1];
      assert stack == below + [top];
      if top == OpenParen then Err(UnbalancedParentheses)
      else Drain(output + [Op(top.op)], below)
  }

  /** The state of the scanning loop: the unread rest of the expression,
      the output so far and the operator stack. */
  datatype State = State(rest: string, output: seq<Token>, stack: seq<Pending>)

  /** How many characters one pass of the loop body reads: a whole number
      literal, or a single character. */
  function Width(rest: string): (w: nat)
    requires |rest| > 0
    ensures 0 < w <= |rest|
    ensures IsNumberChar(rest[0]) ==> forall k :: 0 <= k < w ==> IsNumberChar(rest[k])
    ensures !IsNumberChar(rest[0]) ==> w == 1
  {
    if IsNumberChar(rest[0]) then RunLength(rest) else 1
  }

  /** One pass of the body of the scanning loop (calc.py:35-65). Spaces
      are skipped, a maximal run of digits and dots becomes one number
      token, operators and parentheses go through the stack, and any other
      character is passed over. */
  function Step(st: State): (r: Result<State>)
    requires |st.rest| > 0
    ensures r.Ok? ==> r.value.rest == st.rest[Width(st.rest)..]
    ensures r.Err? ==> r.error == UnbalancedParentheses && st.rest[0] == ')' && OpenParen !in st.stack
  {
    var c, output, stack := st.rest[0], st.output, st.stack;
    if c == ' ' then Ok(State(st.rest[1..], output, stack))
    else if IsNumberChar(c) then
      var n := RunLength(st.rest);
      Ok(State(st.rest[n..], output + [Num(st.rest[..n])], stack))
    else if IsOperatorChar(c) then
      var op := OperatorOf(c);
      var popped := PopHigher(output, stack, op);
      Ok(State(st.rest[1..], popped.0, popped.1 + [PendingOp(op)]))
    else if c == '(' then Ok(State(st.rest[1..], output, stack + [OpenParen]))
    else if c == ')' then
      var closed :- CloseParen(output, stack);
      Ok(State(st.rest[1..], closed.0, closed.1))
    else Ok(State(st.rest[1..], output, stack))
  }

  /** The scanning loop (calc.py:34-65): passes of the body until the
      whole expression is read, or the first failure. */
  function Scan(st: State): (r: Result<State>)
    ensures r.Ok? ==> r.value.rest == []
    ensures r.Err? ==> r.error == UnbalancedParentheses
    decreases |st.rest|
  {
    if |st.rest| == 0 then Ok(st)
    else
      var next :- Step(st);
      Scan(next)
  }

  /** The scan followed by the final drain, on an already validated expression. */
  function Convert(s: string): (r: Result<seq<Token>>)
    ensures r.Err? ==> r.error == UnbalancedParentheses
  {
    var scanned :- Scan(State(s, [], []));
    Drain(scanned.output, scanned.stack)
  }

  /** The whole converter (calc.py:27-72): validation, then conversion. */
  function InfixToRpn(s: string): (r: Result<seq<Token>>)
    ensures Validate(s).Err? ==> r == Err(Validate(s).error)
    ensures Validate(s).Ok? ==> r.Ok? || r.error == UnbalancedParentheses
  {
    match Validate(s)
    case Err(e) => Err(e)
    case Ok(_) => Convert(s)
  }
}
