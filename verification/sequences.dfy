/**
 * Sequence facts the review screen relies on: subsequences, duplicate-free
 * lists, first occurrences, and `[...new Set(xs)]` (duplicates removed,
 * first occurrences kept in their original order).
 */
module Sequences {

  /** `a` is obtained from `b` by dropping elements, keeping the order of the rest. */
  ghost predicate IsSubsequence<T>(a: seq<T>, b: seq<T>)
    decreases |b|
  {
    if a == [] then true
    else if b == [] then false
    else (a[0] == b[0] && IsSubsequence(a[1..], b[1..])) || IsSubsequence(a, b[1..])
  }

  predicate NoDuplicates<T(==)>(s: seq<T>)
  {
    forall i, j :: 0 <= i < j < |s| ==> s[i] != s[j]
  }

  /** The index of the first occurrence of `x` in `s`. */
  function FirstIndex<T(==)>(s: seq<T>, x: T): (i: nat)
    requires x in s
    ensures i < |s| && s[i] == x && x !in s[..i]
  {
    if s[0] == x then 0
    else
      var k := FirstIndex(s[1..], x);
      assert s[1..][..k] == s[1..k + 1];
      k + 1
  }

  /** Any index holding `x` with no earlier `x` is the first index. */
  lemma FirstIndexUnique<T>(s: seq<T>, x: T, i: nat)
    requires i < |s| && s[i] == x && x !in s[..i]
    ensures FirstIndex(s, x) == i
  {
  }

  /** `[...new Set(s)]`: each distinct element once, at its first occurrence. */
  function Dedupe<T(==)>(s: seq<T>): (r: seq<T>)
    ensures NoDuplicates(r)
    ensures forall i :: 0 <= i < |s| ==> s[i] in r
    ensures forall i :: 0 <= i < |r| ==> r[i] in s
    decreases |s|
  {
    if s == [] then []
    else
      var init := s[..|s| - 1];
      var last := s[|s| - 1];
      var d := Dedupe(init);
      assert s == init + [last];
      if last in init then d else d + [last]
  }

  /** Appending an element does not move the first occurrence of an element already present. */
  lemma FirstIndexAppend<T>(s: seq<T>, last: T, x: T)
    requires x in s
    ensures FirstIndex(s + [last], x) == FirstIndex(s, x)
  {
    var k := FirstIndex(s, x);
    assert (s + [last])[..k] == s[..k];
    FirstIndexUnique(s + [last], x, k);
  }

  /** Dedupe lists the distinct elements in the order they first occur. */
  lemma {:induction false} DedupeFirstOccurrenceOrder<T>(s: seq<T>)
    ensures forall i, j :: 0 <= i < j < |Dedupe(s)| ==>
      FirstIndex(s, Dedupe(s)[i]) < FirstIndex(s, Dedupe(s)[j])
    decreases |s|
  {
    if s != [] {
      var init := s[..|s| - 1];
      var last := s[|s| - 1];
      var d := Dedupe(init);
      var r := Dedupe(s);
      DedupeFirstOccurrenceOrder(init);
      assert s == init + [last];
      forall i, j | 0 <= i < j < |r|
        ensures FirstIndex(s, r[i]) < FirstIndex(s, r[j])
      {
        assert r[i] == d[i] && d[i] in init;
        FirstIndexAppend(init, last, d[i]);
        if j < |d| {
          assert r[j] == d[j] && d[j] in init;
          FirstIndexAppend(init, last, d[j]);
        } else {
          assert last !in init && r[j] == last;
          assert s[..|s| - 1] == init;
          FirstIndexUnique(s, last, |s| - 1);
        }
      }
    }
  }
}
