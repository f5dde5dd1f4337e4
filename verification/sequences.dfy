/** Facts about sequences of identifiers. */
module Sequences {

  /** No identifier occurs twice. */
  predicate Distinct(s: seq<nat>) {
    forall i, j :: 0 <= i < |s| && 0 <= j < |s| && i != j ==> s[i] != s[j]
  }

  /** Dropping the head keeps the rest distinct, and the head does not recur. */
  lemma DistinctTail(s: seq<nat>)
    requires |s| > 0 && Distinct(s)
    ensures Distinct(s[1..]) && s[0] !in s[1..]
  {
    forall k | 0 <= k < |s[1..]| ensures s[1..][k] != s[0] {
      assert s[1..][k] == s[k + 1];
    }
  }

  /** Indexing and membership in the tail of a non-empty sequence. */
  lemma TailFacts<T>(s: seq<T>)
    requires |s| > 0
    ensures forall k :: 1 <= k < |s| ==> s[k] == s[1..][k - 1]
    ensures forall x :: x !in s ==> x !in s[1..] && x != s[0]
  {
  }

  /** The set of the elements of `s`. */
  function Elements(s: seq<nat>): (xs: set<nat>)
    ensures forall x :: x in xs <==> x in s
  {
    set x | x in s
  }

  /** The elements of `s` that are not in `xs`, in their original order. */
  function Without(s: seq<nat>, xs: set<nat>): (r: seq<nat>)
    ensures forall y :: y in r <==> y in s && y !in xs
    ensures |r| <= |s|
    ensures Distinct(s) ==> Distinct(r)
  {
    if |s| == 0 then []
    else if s[0] in xs then Without(s[1..], xs)
    else [s[0]] + Without(s[1..], xs)
  }

  /** Filtering out nothing that occurs leaves the sequence as it was. */
  lemma {:induction false} WithoutNothing(s: seq<nat>, xs: set<nat>)
    requires forall y :: y in s ==> y !in xs
    ensures Without(s, xs) == s
  {
    if |s| > 0 {
      WithoutNothing(s[1..], xs);
    }
  }

  /** Filtering twice is filtering once by the union. */
  lemma {:induction false} WithoutTwice(s: seq<nat>, xs: set<nat>, ys: set<nat>)
    ensures Without(Without(s, xs), ys) == Without(s, xs + ys)
  {
    if |s| > 0 {
      WithoutTwice(s[1..], xs, ys);
      if s[0] !in xs {
        assert Without(s, xs) == [s[0]] + Without(s[1..], xs);
        assert Without(s, xs)[1..] == Without(s[1..], xs);
      }
    }
  }
}
