/**
  The structural gate run before conversion (calc.py:15-25): a blank
  expression is refused, and so are two operator characters that are
  adjacent once plain spaces are skipped. The scan remembers the last
  non-space character, which starts out absent; an operator met while it
  is still absent (the first non-space character is an operator) is a
  distinct failure, `LeadingOperator`, since the source compares the
  absent value against the operator set and fails with a type error there.
 */
module Validation {
  import opened Syntax

  /** Every character of `s` is whitespace: stripping `s` leaves nothing. */
  predicate AllWhitespace(s: string) {
    forall k :: 0 <= k < |s| ==> IsWhitespace(s[k])
  }

  /** Every character of `t` is a plain space. */
  predicate AllSpaces(t: string) {
    forall k :: 0 <= k < |t| ==> t[k] == ' '
  }

  /** The first character of `s` that is not a plain space is an operator. */
  predicate StartsWithOperator(s: string) {
    exists k :: 0 <= k < |s| && AllSpaces(s[..k]) && IsOperatorChar(s[k])
  }

  /** Two operator characters of `s` have only plain spaces between them. */
  predicate HasAdjacentOperators(s: string) {
    exists i, j :: 0 <= i < j < |s| && IsOperatorChar(s[i]) && IsOperatorChar(s[j]) && AllSpaces(s[i + 1..j])
  }

  /** The adjacency loop over the rest `t` of the expression, where `prev`
      is the last non-space character seen so far (absent at the start). */
  function CheckAdjacency(t: string, prev: Option<char>): (r: Result<()>)
    ensures r.Err? ==> r.error == LeadingOperator || r.error == ConsecutiveOperators
    ensures r.Err? && r.error == LeadingOperator ==> prev.None?
    decreases |t|
  {
    if |t| == 0 then Ok(())
    else
      var c := t[0];
      if IsOperatorChar(c) && prev.None? then Err(LeadingOperator)
      else if IsOperatorChar(c) && IsOperatorChar(prev.value) then Err(ConsecutiveOperators)
      else CheckAdjacency(t[1..], if c != ' ' then Some(c) else prev)
  }

  /** The validator: blank input first, then the adjacency loop. */
  function Validate(s: string): (r: Result<()>)
    ensures r == Err(EmptyExpression) <==> AllWhitespace(s)
    ensures r.Err? ==> r.error in {EmptyExpression, LeadingOperator, ConsecutiveOperators}
  {
    if AllWhitespace(s) then Err(EmptyExpression)
    else CheckAdjacency(s, None)
  }

  // ---------------------------------------------------------------------
  // The adjacency loop against the declarative predicates above.

  lemma StartsWithOperatorCons(c: char, u: string)
    ensures StartsWithOperator([c] + u) <==> IsOperatorChar(c) || (c == ' ' && StartsWithOperator(u))
  {
    var t := [c] + u;
    if StartsWithOperator(t) {
      var k :| 0 <= k < |t| && AllSpaces(t[..k]) && IsOperatorChar(t[k]);
      if k > 0 {
        assert t[..k][0] == c;
        assert u[..k - 1] == t[1..k];
        assert AllSpaces(u[..k - 1]);
        assert u[k - 1] == t[k];
      }
    }
    if IsOperatorChar(c) {
      assert AllSpaces(t[..0]);
    } else if c == ' ' && StartsWithOperator(u) {
      var k :| 0 <= k < |u| && AllSpaces(u[..k]) && IsOperatorChar(u[k]);
      assert t[..k + 1] == [c] + u[..k];
      assert t[k + 1] == u[k];
    }
  }

  /** An adjacent pair of `[c] + u` starts at `c` or lies within `u`. */
  lemma AdjacentPairOfCons(c: char, u: string, i: nat, j: nat)
    requires var t := [c] + u;
             i < j < |t| && IsOperatorChar(t[i]) && IsOperatorChar(t[j]) && AllSpaces(t[i + 1..j])
    ensures HasAdjacentOperators(u) || (IsOperatorChar(c) && StartsWithOperator(u))
  {
    var t := [c] + u;
    if i == 0 {
      assert u[..j - 1] == t[1..j];
      assert u[j - 1] == t[j];
      assert 0 <= j - 1 < |u| && AllSpaces(u[..j - 1]) && IsOperatorChar(u[j - 1]);
    } else {
      assert u[i..j - 1] == t[i + 1..j];
      assert u[i - 1] == t[i] && u[j - 1] == t[j];
      assert 0 <= i - 1 < j - 1 < |u| && IsOperatorChar(u[i - 1]) && IsOperatorChar(u[j - 1]) && AllSpaces(u[i..j - 1]);
    }
  }

  /** An adjacent pair of `u` is one of `[c] + u`. */
  lemma AdjacentPairInTail(c: char, u: string, i: nat, j: nat)
    requires i < j < |u| && IsOperatorChar(u[i]) && IsOperatorChar(u[j]) && AllSpaces(u[i + 1..j])
    ensures HasAdjacentOperators([c] + u)
  {
    var t := [c] + u;
    assert t[i + 2..j + 1] == u[i + 1..j];
    assert t[i + 1] == u[i] && t[j + 1] == u[j];
    assert 0 <= i + 1 < j + 1 < |t| && IsOperatorChar(t[i + 1]) && IsOperatorChar(t[j + 1]) && AllSpaces(t[i + 2..j + 1]);
  }

  /** An operator followed by spaces and an operator is an adjacent pair. */
  lemma AdjacentPairAtHead(c: char, u: string, k: nat)
    requires IsOperatorChar(c) && k < |u| && AllSpaces(u[..k]) && IsOperatorChar(u[k])
    ensures HasAdjacentOperators([c] + u)
  {
    var t := [c] + u;
    assert t[1..k + 1] == u[..k] by {
      forall m | 0 <= m < k ensures t[1..k + 1][m] == u[..k][m] {
        assert t[1..k + 1][m] == t[m + 1] == u[m];
      }
    }
    assert t[k + 1] == u[k];
    assert 0 < k + 1 < |t| && IsOperatorChar(t[0]) && IsOperatorChar(t[k + 1]) && AllSpaces(t[0 + 1..k + 1]);
  }

  lemma HasAdjacentOperatorsCons(c: char, u: string)
    ensures HasAdjacentOperators([c] + u) <==> HasAdjacentOperators(u) || (IsOperatorChar(c) && StartsWithOperator(u))
  {
    var t := [c] + u;
    if HasAdjacentOperators(t) {
      var i, j :| 0 <= i < j < |t| && IsOperatorChar(t[i]) && IsOperatorChar(t[j]) && AllSpaces(t[i + 1..j]);
      AdjacentPairOfCons(c, u, i, j);
    }
    if HasAdjacentOperators(u) {
      var i, j :| 0 <= i < j < |u| && IsOperatorChar(u[i]) && IsOperatorChar(u[j]) && AllSpaces(u[i + 1..j]);
      AdjacentPairInTail(c, u, i, j);
    }
    if IsOperatorChar(c) && StartsWithOperator(u) {
      var k :| 0 <= k < |u| && AllSpaces(u[..k]) && IsOperatorChar(u[k]);
      AdjacentPairAtHead(c, u, k);
    }
  }

  /** What the adjacency loop reports, for any remembered character. */
  lemma {:induction false} CheckAdjacencySpec(t: string, prev: Option<char>)
    ensures CheckAdjacency(t, prev) ==
      if prev.None? && StartsWithOperator(t) then Err(LeadingOperator)
      else if HasAdjacentOperators(t) || (prev.Some? && IsOperatorChar(prev.value) && StartsWithOperator(t))
      then Err(ConsecutiveOperators)
      else Ok(())
    decreases |t|
  {
    if |t| == 0 {
      assert !StartsWithOperator(t);
      assert !HasAdjacentOperators(t);
    } else {
      var c, u := t[0], t[1..];
      assert t == [c] + u;
      StartsWithOperatorCons(c, u);
      HasAdjacentOperatorsCons(c, u);
      if !(IsOperatorChar(c) && (prev.None? || IsOperatorChar(prev.value))) {
        CheckAdjacencySpec(u, if c != ' ' then Some(c) else prev);
      }
    }
  }

  /** The validator accepts exactly the expressions that are not blank, do
      not open with an operator and hold no two adjacent operators; and it
      names the first of these faults that applies. */
  lemma ValidateSpec(s: string)
    ensures Validate(s) == Err(EmptyExpression) <==> AllWhitespace(s)
    ensures Validate(s) == Err(LeadingOperator) <==> !AllWhitespace(s) && StartsWithOperator(s)
    ensures Validate(s) == Err(ConsecutiveOperators) <==>
              !AllWhitespace(s) && !StartsWithOperator(s) && HasAdjacentOperators(s)
    ensures Validate(s).Ok? <==>
              !AllWhitespace(s) && !StartsWithOperator(s) && !HasAdjacentOperators(s)
  {
    CheckAdjacencySpec(s, None);
  }
}
