/** First-occurrence grouping: the order in which the aggregation of
    farm.rs emits farms (and, within a farm, rigs). */
module Grouping {

  /** The distinct values of `s`, each one at the place of its first occurrence. */
  function Distinct<T(==)>(s: seq<T>): seq<T>
  {
    if s == [] then []
    else
      var d := Distinct(s[..|s| - 1]);
      if s[|s| - 1] in d then d else d + [s[|s| - 1]]
  }

  ghost predicate NoDuplicates<T>(s: seq<T>)
  {
    forall i, j :: 0 <= i < j < |s| ==> s[i] != s[j]
  }

  /** Index of the first occurrence of `x` in `s`. */
  function FirstIndex<T(==)>(s: seq<T>, x: T): (i: nat)
    requires x in s
    ensures i < |s| && s[i] == x && x !in s[..i]
  {
    if s[0] == x then 0
    else
      var j := FirstIndex(s[1..], x);
      assert s[..1 + j] == [s[0]] + s[1..][..j];
      1 + j
  }

  lemma DistinctSnoc<T>(s: seq<T>, x: T)
    ensures Distinct(s + [x]) == if x in Distinct(s) then Distinct(s) else Distinct(s) + [x]
  {
    assert (s + [x])[..|s|] == s;
  }

  /** Distinct keeps exactly the values of `s`. */
  lemma {:induction false} DistinctMembers<T>(s: seq<T>, x: T)
    ensures x in Distinct(s) <==> x in s
  {
    if s != [] {
      var p := s[..|s| - 1];
      DistinctMembers(p, x);
      assert s == p + [s[|s| - 1]];
    }
  }

  /** Distinct lists each value once. */
  lemma {:induction false} DistinctNoDuplicates<T>(s: seq<T>)
    ensures NoDuplicates(Distinct(s))
  {
    if s != [] {
      var p := s[..|s| - 1];
      DistinctNoDuplicates(p);
      DistinctMembers(p, s[|s| - 1]);
    }
  }

  /** Any index that holds `x` with no earlier `x` is the first index. */
  lemma FirstIndexUnique<T>(s: seq<T>, x: T, i: nat)
    requires i < |s| && s[i] == x && x !in s[..i]
    ensures FirstIndex(s, x) == i
  {
  }

  lemma FirstIndexSnoc<T>(s: seq<T>, x: T, y: T)
    requires y in s
    ensures y in s + [x] && FirstIndex(s + [x], y) == FirstIndex(s, y)
  {
    var f := FirstIndex(s, y);
    assert (s + [x])[..f] == s[..f];
    FirstIndexUnique(s + [x], y, f);
  }

  /** Distinct lists the values in the order of their first occurrence in `s`. */
  lemma {:induction false} DistinctFirstOccurrenceOrder<T>(s: seq<T>)
    ensures forall x :: x in Distinct(s) ==> x in s
    ensures forall i, j :: 0 <= i < j < |Distinct(s)| ==>
      FirstIndex(s, Distinct(s)[i]) < FirstIndex(s, Distinct(s)[j])
  {
    forall x | x in Distinct(s) ensures x in s {
      DistinctMembers(s, x);
    }
    if s != [] {
      var p, x := s[..|s| - 1], s[|s| - 1];
      assert s == p + [x];
      DistinctFirstOccurrenceOrder(p);
      var d := Distinct(p);
      forall y | y in d ensures y in s && FirstIndex(s, y) == FirstIndex(p, y) {
        FirstIndexSnoc(p, x, y);
      }
      if x !in d {
        DistinctMembers(p, x);
        assert x !in s[..|p|];
        FirstIndexUnique(s, x, |p|);
        forall y | y in d ensures FirstIndex(s, y) < |p| {
          assert FirstIndex(p, y) < |p|;
        }
      }
    }
  }
}
