/** Counting occurrences in a sequence. */
module Sequences {

  /** How many times `x` occurs in `s`. */
  function Count<T(==)>(s: seq<T>, x: T): nat
    decreases |s|
  {
    if |s| == 0 then 0 else (if s[0] == x then 1 else 0) + Count(s[1..], x)
  }

  lemma {:induction false} CountConcat<T>(a: seq<T>, b: seq<T>, x: T)
    ensures Count(a + b, x) == Count(a, x) + Count(b, x)
    decreases |a|
  {
    if |a| == 0 {
      assert a + b == b;
    } else {
      assert (a + b)[1..] == a[1..] + b;
      CountConcat(a[1..], b, x);
    }
  }

  lemma CountSingle<T>(y: T, x: T)
    ensures Count([y], x) == if y == x then 1 else 0
  {
    assert [y][1..] == [];
  }

  /** The count is the element's multiplicity in the sequence's multiset. */
  lemma {:induction false} CountIsMultiplicity<T>(s: seq<T>, x: T)
    ensures multiset(s)[x] == Count(s, x)
    decreases |s|
  {
    if |s| > 0 {
      assert s == [s[0]] + s[1..];
      CountIsMultiplicity(s[1..], x);
    }
  }

  /** Sequences with the same counts are permutations of each other. */
  lemma SameCounts<T>(a: seq<T>, b: seq<T>)
    requires forall x :: Count(a, x) == Count(b, x)
    ensures multiset(a) == multiset(b)
  {
    forall x ensures multiset(a)[x] == multiset(b)[x] {
      CountIsMultiplicity(a, x);
      CountIsMultiplicity(b, x);
    }
  }

  /** A sequence without `x` does not count it. */
  lemma {:induction false} CountAbsent<T>(s: seq<T>, x: T)
    requires x !in s
    ensures Count(s, x) == 0
    decreases |s|
  {
    if |s| > 0 {
      CountAbsent(s[1..], x);
    }
  }

  /** An element that occurs is counted. */
  lemma {:induction false} CountPresent<T>(s: seq<T>, x: T)
    requires x in s
    ensures Count(s, x) > 0
    decreases |s|
  {
    if s[0] != x {
      CountPresent(s[1..], x);
    }
  }
}
