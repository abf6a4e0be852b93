/** Sequence helpers shared by the two result views: the distinct-values list
    that `[...new Set(xs)]` builds, and occurrence counts. */
module Seqs {

  predicate NoDuplicates<T(==)>(s: seq<T>) {
    forall i, j :: 0 <= i < j < |s| ==> s[i] != s[j]
  }

  /** The index of the first occurrence of `x` in `s`. */
  function FirstIndex<T(==)>(s: seq<T>, x: T): (i: nat)
    requires x in s
    ensures i < |s| && s[i] == x
  {
    if s[0] == x then 0 else 1 + FirstIndex(s[1..], x)
  }

  /** No occurrence of `x` comes before its first index. */
  lemma {:induction false} FirstIndexFirst<T>(s: seq<T>, x: T, j: nat)
    requires x in s && j < FirstIndex(s, x)
    ensures s[j] != x
  {
    if j > 0 {
      FirstIndexFirst(s[1..], x, j - 1);
    }
  }

  /** Appending an element does not move the first occurrence of one already there. */
  lemma {:induction false} FirstIndexAppend<T>(init: seq<T>, x: T, y: T)
    requires y in init
    ensures y in init + [x] && FirstIndex(init + [x], y) == FirstIndex(init, y)
  {
    if init[0] != y {
      assert (init + [x])[1..] == init[1..] + [x];
      FirstIndexAppend(init[1..], x, y);
    }
  }

  /** `[...new Set(s)]`: every element of `s` once, in order of first
      occurrence (a JavaScript `Set` iterates in insertion order). */
  function Distinct<T(==)>(s: seq<T>): (r: seq<T>)
    ensures DistinctOf(s, r)
  {
    if s == [] then []
    else
      var d := Distinct(s[..|s| - 1]);
      DistinctLast(s, d);
      if s[|s| - 1] in d then d else d + [s[|s| - 1]]
  }

  lemma DistinctAppend<T>(s: seq<T>, x: T)
    ensures Distinct(s + [x]) == if x in Distinct(s) then Distinct(s) else Distinct(s) + [x]
  {
    SnocTake(s, x);
  }

  /** `r` lists the elements of `s`, each once, in order of first occurrence. */
  predicate DistinctOf<T(==)>(s: seq<T>, r: seq<T>) {
    && (forall i :: 0 <= i < |r| ==> r[i] in s)
    && (forall i :: 0 <= i < |s| ==> s[i] in r)
    && NoDuplicates(r)
    && FirstOccurrenceOrder(s, r)
  }

  predicate FirstOccurrenceOrder<T(==)>(s: seq<T>, r: seq<T>) {
    forall i, j :: 0 <= i < j < |r| ==> r[i] in s && r[j] in s && FirstIndex(s, r[i]) < FirstIndex(s, r[j])
  }

  lemma DistinctLast<T>(s: seq<T>, d: seq<T>)
    requires s != [] && DistinctOf(s[..|s| - 1], d)
    ensures DistinctOf(s, if s[|s| - 1] in d then d else d + [s[|s| - 1]])
  {
    assert s == s[..|s| - 1] + [s[|s| - 1]];
    DistinctSnoc(s[..|s| - 1], s[|s| - 1], d);
  }

  /** The distinct list grows by the appended element when that element is new. */
  lemma DistinctSnoc<T>(init: seq<T>, x: T, d: seq<T>)
    requires DistinctOf(init, d)
    ensures DistinctOf(init + [x], if x in d then d else d + [x])
  {
    var s := init + [x];
    forall i | 0 <= i < |s| ensures s[i] in d || s[i] == x {
      if i < |init| {
        assert s[i] == init[i];
      }
    }
    KeptFirstIndex(init, x, d);
    if x !in d {
      NewFirstIndex(init, x, d);
      NewOrder(init, x, d);
    }
  }

  /** The elements of the distinct list of `init` keep their first index. */
  lemma KeptFirstIndex<T>(init: seq<T>, x: T, d: seq<T>)
    requires forall i :: 0 <= i < |d| ==> d[i] in init
    ensures forall i :: 0 <= i < |d| ==>
      d[i] in init && d[i] in init + [x] && FirstIndex(init + [x], d[i]) == FirstIndex(init, d[i])
  {
    forall i | 0 <= i < |d|
      ensures d[i] in init && d[i] in init + [x] && FirstIndex(init + [x], d[i]) == FirstIndex(init, d[i])
    {
      FirstIndexAppend(init, x, d[i]);
    }
  }

  /** An element missing from the distinct list of `init` first occurs at the end. */
  lemma NewFirstIndex<T>(init: seq<T>, x: T, d: seq<T>)
    requires x !in d && forall i :: 0 <= i < |init| ==> init[i] in d
    ensures x in init + [x] && FirstIndex(init + [x], x) == |init|
  {
    var s := init + [x];
    forall j | 0 <= j < |init| ensures s[j] != x {
      assert s[j] == init[j];
    }
  }

  lemma NewOrder<T>(init: seq<T>, x: T, d: seq<T>)
    requires FirstOccurrenceOrder(init, d)
    requires forall i :: 0 <= i < |d| ==>
      d[i] in init && d[i] in init + [x] && FirstIndex(init + [x], d[i]) == FirstIndex(init, d[i])
    requires x in init + [x] && FirstIndex(init + [x], x) == |init|
    ensures FirstOccurrenceOrder(init + [x], d + [x])
  {
    var r := d + [x];
    forall i, j | 0 <= i < j < |r|
      ensures r[i] in init + [x] && r[j] in init + [x] && FirstIndex(init + [x], r[i]) < FirstIndex(init + [x], r[j])
    {
      assert r[i] == d[i];
      if j < |d| {
        assert r[j] == d[j];
      }
    }
  }

  lemma LastSplit<T>(s: seq<T>)
    requires s != []
    ensures s == s[..|s| - 1] + [s[|s| - 1]]
  {
  }

  lemma SnocTail<T>(s: seq<T>, x: T)
    requires s != []
    ensures (s + [x])[0] == s[0] && (s + [x])[1..] == s[1..] + [x]
  {
  }

  lemma ConsSnoc<T>(x: T, s: seq<T>, y: T)
    ensures [x] + (s + [y]) == [x] + s + [y]
  {
  }

  lemma SnocTake<T>(s: seq<T>, x: T)
    ensures (s + [x])[..|s|] == s && (s + [x])[|s|] == x
  {
  }

  /** The number of elements of `s` equal to `x`. */
  function Count<T(==)>(s: seq<T>, x: T): (n: nat)
    ensures n <= |s|
    ensures n == 0 <==> x !in s
  {
    if s == [] then 0 else (if s[|s| - 1] == x then 1 else 0) + Count(s[..|s| - 1], x)
  }

  lemma CountAppend<T>(s: seq<T>, y: T, x: T)
    ensures Count(s + [y], x) == Count(s, x) + (if y == x then 1 else 0)
  {
    assert (s + [y])[..|s|] == s;
  }
}
