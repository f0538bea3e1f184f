/** The array operations the application builds on: `filter`, `findIndex`
    and the positions a filter keeps. */
module Seqs {

  /** `s.filter(p)`: the elements satisfying p, in their original order. */
  function Filter<T>(s: seq<T>, p: T -> bool): (r: seq<T>)
    ensures |r| <= |s|
  {
    if |s| == 0 then [] else (if p(s[0]) then [s[0]] else []) + Filter(s[1..], p)
  }

  /** Every survivor of a filter is an element satisfying p, and every
      element satisfying p survives. */
  lemma {:induction false} FilterMembers<T>(s: seq<T>, p: T -> bool)
    ensures forall k :: 0 <= k < |Filter(s, p)| ==> Filter(s, p)[k] in s && p(Filter(s, p)[k])
    ensures forall k :: 0 <= k < |s| && p(s[k]) ==> s[k] in Filter(s, p)
  {
    if |s| > 0 {
      var tail := s[1..];
      FilterMembers(tail, p);
      assert forall k :: 1 <= k < |s| ==> s[k] == tail[k - 1];
    }
  }

  /** The indices i >= from of s with p(s[i]), in increasing order. */
  function PositionsFrom<T>(s: seq<T>, p: T -> bool, from: nat): (idx: seq<nat>)
    ensures forall k :: 0 <= k < |idx| ==> from <= idx[k] < |s| && p(s[idx[k]])
    decreases |s| - from
  {
    if from >= |s| then []
    else (if p(s[from]) then [from] else []) + PositionsFrom(s, p, from + 1)
  }

  /** Strictly increasing. */
  predicate Ascending(idx: seq<nat>) {
    forall k, l :: 0 <= k < l < |idx| ==> idx[k] < idx[l]
  }

  /** The positions ascend strictly. */
  lemma {:induction false} PositionsAscend<T>(s: seq<T>, p: T -> bool, from: nat)
    ensures Ascending(PositionsFrom(s, p, from))
    decreases |s| - from
  {
    if from < |s| {
      PositionsAscend(s, p, from + 1);
      var rest := PositionsFrom(s, p, from + 1);
      var head: seq<nat> := if p(s[from]) then [from] else [];
      var idx := head + rest;
      assert PositionsFrom(s, p, from) == idx;
      forall k, l | 0 <= k < l < |idx|
        ensures idx[k] < idx[l]
      {
        if k < |head| {
          assert idx[k] == from;
          assert idx[l] == rest[l - |head|] >= from + 1;
        } else {
          assert idx[k] == rest[k - |head|] && idx[l] == rest[l - |head|];
          assert rest[k - |head|] < rest[l - |head|];
        }
      }
    }
  }

  /** The positions miss no satisfying index. */
  lemma {:induction false} PositionsCover<T>(s: seq<T>, p: T -> bool, from: nat)
    ensures forall i :: from <= i < |s| && p(s[i]) ==> i in PositionsFrom(s, p, from)
    decreases |s| - from
  {
    if from < |s| {
      PositionsCover(s, p, from + 1);
      var head, rest := if p(s[from]) then [from] else [], PositionsFrom(s, p, from + 1);
      assert PositionsFrom(s, p, from) == head + rest;
      forall i | from <= i < |s| && p(s[i])
        ensures i in head + rest
      {
        if i == from {
          assert (head + rest)[0] == i;
        } else {
          assert i in rest;
        }
      }
    }
  }

  /** The positions ascend strictly and miss no satisfying index. */
  lemma PositionsComplete<T>(s: seq<T>, p: T -> bool, from: nat)
    ensures var idx := PositionsFrom(s, p, from);
      && (forall k, l :: 0 <= k < l < |idx| ==> idx[k] < idx[l])
      && (forall i :: from <= i < |s| && p(s[i]) ==> i in idx)
  {
    PositionsAscend(s, p, from);
    PositionsCover(s, p, from);
  }

  /** The indices of s whose elements satisfy p, ascending. */
  function Positions<T>(s: seq<T>, p: T -> bool): seq<nat> {
    PositionsFrom(s, p, 0)
  }

  /** r lists exactly the elements of s that satisfy p, each taken from its
      position in s, and in the order of those positions. */
  ghost predicate SelectsInOrder<T>(r: seq<T>, s: seq<T>, p: T -> bool) {
    var idx := Positions(s, p);
    |r| == |idx| && forall k :: 0 <= k < |r| ==> r[k] == s[idx[k]]
  }

  lemma {:induction false} FilterFromPositions<T>(s: seq<T>, p: T -> bool, from: nat)
    requires from <= |s|
    ensures var f := Filter(s[from..], p); var idx := PositionsFrom(s, p, from);
      |f| == |idx| && forall k :: 0 <= k < |f| ==> f[k] == s[idx[k]]
    decreases |s| - from
  {
    if from < |s| {
      FilterFromPositions(s, p, from + 1);
      assert s[from..][1..] == s[from + 1..];
    }
  }

  /** Filtering keeps exactly the satisfying elements, in order. */
  lemma FilterSelectsInOrder<T>(s: seq<T>, p: T -> bool)
    ensures SelectsInOrder(Filter(s, p), s, p)
  {
    FilterFromPositions(s, p, 0);
    assert s[0..] == s;
  }

  /** Filtering distributes over concatenation, so the relative order of
      the survivors is the order of the input. */
  lemma {:induction false} FilterConcat<T>(a: seq<T>, b: seq<T>, p: T -> bool)
    ensures Filter(a + b, p) == Filter(a, p) + Filter(b, p)
  {
    if |a| > 0 {
      FilterConcat(a[1..], b, p);
      assert (a + b)[1..] == a[1..] + b;
    } else {
      assert a + b == b;
    }
  }

  /** Nothing survives a filter no element satisfies. */
  lemma {:induction false} FilterNone<T>(s: seq<T>, p: T -> bool)
    requires forall k :: 0 <= k < |s| ==> !p(s[k])
    ensures Filter(s, p) == []
  {
    if |s| > 0 {
      FilterNone(s[1..], p);
    }
  }

  /** A filter every element satisfies is the identity. */
  lemma {:induction false} FilterAll<T>(s: seq<T>, p: T -> bool)
    requires forall k :: 0 <= k < |s| ==> p(s[k])
    ensures Filter(s, p) == s
  {
    if |s| > 0 {
      FilterAll(s[1..], p);
    }
  }

  /** When every element satisfies p, the positions are all the indices. */
  lemma {:induction false} PositionsOfAll<T>(s: seq<T>, p: T -> bool, from: nat)
    requires from <= |s|
    requires forall k :: 0 <= k < |s| ==> p(s[k])
    ensures |PositionsFrom(s, p, from)| == |s| - from
    ensures forall k :: 0 <= k < |s| - from ==> PositionsFrom(s, p, from)[k] == from + k
    decreases |s| - from
  {
    if from < |s| {
      PositionsOfAll(s, p, from + 1);
      var rest := PositionsFrom(s, p, from + 1);
      assert PositionsFrom(s, p, from) == [from] + rest;
    }
  }

  /** `s.findIndex(p)`: the first index whose element satisfies p, or -1. */
  function FindIndex<T>(s: seq<T>, p: T -> bool): (r: int)
    ensures -1 <= r < |s|
    ensures r == -1 <==> forall k :: 0 <= k < |s| ==> !p(s[k])
    ensures r >= 0 ==> p(s[r]) && forall k :: 0 <= k < r ==> !p(s[k])
  {
    if |s| == 0 then -1
    else if p(s[0]) then 0
    else var r := FindIndex(s[1..], p); if r == -1 then -1 else r + 1
  }

  /** Appending an element never moves an earlier first match. */
  lemma FindIndexAppend<T>(s: seq<T>, x: T, p: T -> bool)
    ensures FindIndex(s + [x], p) ==
      if FindIndex(s, p) >= 0 then FindIndex(s, p) else if p(x) then |s| else -1
  {
    var r := FindIndex(s + [x], p);
    var q := FindIndex(s, p);
    assert forall k :: 0 <= k < |s| ==> (s + [x])[k] == s[k];
    if q >= 0 {
      assert p((s + [x])[q]);
    } else if p(x) {
      assert p((s + [x])[|s|]);
    }
  }
}
