/** Small facts about sequences shared by the other modules. */
module Sequences {

  /** No element occurs twice. */
  predicate Distinct<T(==)>(s: seq<T>)
  {
    forall i, j :: 0 <= i < j < |s| ==> s[i] != s[j]
  }

  /** In a sequence without repetitions, equal entries sit at the same position. */
  lemma SameAtSamePosition<T>(s: seq<T>, a: int, b: int)
    requires Distinct(s) && 0 <= a <= b < |s| && s[a] == s[b]
    ensures a == b
  {
  }

  /** In a sequence without repetitions, different positions hold different entries. */
  lemma DistinctApart<T>(s: seq<T>, a: int, b: int)
    requires Distinct(s) && 0 <= a < |s| && 0 <= b < |s| && a != b
    ensures s[a] != s[b]
  {
    if b < a {
      assert s[b] != s[a];
    }
  }

  /** The elements of s, as a set. */
  function Elements<T>(s: seq<T>): set<T>
  {
    set x | x in s
  }

  /** A sequence without repetitions has as many distinct elements as it has positions. */
  lemma {:induction false} DistinctCardinality<T>(s: seq<T>)
    requires Distinct(s)
    ensures |Elements(s)| == |s|
  {
    if s != [] {
      DistinctCardinality(s[1..]);
      assert Elements(s) == {s[0]} + Elements(s[1..]);
      assert s[0] !in Elements(s[1..]);
    } else {
      assert Elements(s) == {};
    }
  }

  /** A set whose every element occurs in s has at most |s| elements. */
  lemma {:induction false} FewerElementsThanPositions<T>(s: seq<T>, xs: set<T>)
    requires forall x :: x in xs ==> x in s
    ensures |xs| <= |s|
  {
    if s == [] {
      assert xs == {};
    } else {
      var rest := xs - {s[0]};
      assert s == [s[0]] + s[1..];
      FewerElementsThanPositions(s[1..], rest);
      assert xs <= rest + {s[0]};
    }
  }
}
