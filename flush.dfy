/**
  Flushing the caches: every set is walked from head to tail and each
  dirty line it meets costs a block of copies back. The walk clears the
  dirty bit of the set's head line only, not of the line it is visiting,
  and the model keeps that behaviour.
 */
module Flush {
  import opened LruList

  /** The number of dirty lines of a set. */
  function CountDirty(s: seq<Line>): (n: nat)
    ensures n <= |s|
    decreases |s|
  {
    if s == [] then 0
    else CountDirty(s[..|s| - 1]) + (if s[|s| - 1].dirty then 1 else 0)
  }

  /** The number of dirty lines over a sequence of sets. */
  function DirtyLines(sets: seq<seq<Line>>): nat
    decreases |sets|
  {
    if sets == [] then 0
    else DirtyLines(sets[..|sets| - 1]) + CountDirty(sets[|sets| - 1])
  }

  /** The number of sets whose head line is dirty. */
  function DirtyHeads(sets: seq<seq<Line>>): nat
    decreases |sets|
  {
    if sets == [] then 0
    else DirtyHeads(sets[..|sets| - 1]) +
         (var s := sets[|sets| - 1]; if s != [] && s[0].dirty then 1 else 0)
  }

  /** A set after the walk: its head line is clean, every other line is as it was. */
  function FlushSet(s: seq<Line>): seq<Line> {
    if s == [] then s else s[0 := s[0].(dirty := false)]
  }

  /** Every set after the walk. */
  function FlushSets(sets: seq<seq<Line>>): (r: seq<seq<Line>>)
    ensures |r| == |sets| && forall i :: 0 <= i < |sets| ==> r[i] == FlushSet(sets[i])
  {
    seq(|sets|, i requires 0 <= i < |sets| => FlushSet(sets[i]))
  }

  // ---------------------------------------------------------------------
  // Properties of the walk

  /**
    The walk keeps the set's length and tags, and hence its well-formedness,
    and leaves its head line clean.
   */
  lemma FlushSetKeepsTags(s: seq<Line>, assoc: nat)
    ensures var r := FlushSet(s);
      |r| == |s| && (forall j :: 0 <= j < |s| ==> r[j].tag == s[j].tag) &&
      (s != [] ==> !r[0].dirty && r[1..] == s[1..]) &&
      (SetOk(s, assoc) ==> SetOk(r, assoc))
  {
    var r := FlushSet(s);
    if SetOk(s, assoc) {
      forall i, j | 0 <= i < j < |r| ensures r[i].tag != r[j].tag {
        assert r[i].tag == s[i].tag && r[j].tag == s[j].tag;
      }
    }
  }

  /** Dropping the head of a set drops its dirty bit from the count. */
  lemma {:induction false} CountDirtyOfTail(s: seq<Line>)
    requires s != []
    ensures CountDirty(s) == CountDirty(s[1..]) + (if s[0].dirty then 1 else 0)
    decreases |s|
  {
    if |s| > 1 {
      var init := s[..|s| - 1];
      CountDirtyOfTail(init);
      assert init[1..] == s[1..][..|s[1..]| - 1];
      assert init[0] == s[0];
    }
  }

  /**
    After one walk exactly the dirty lines that were not at a head are
    still dirty: a set whose head was dirty has one dirty line fewer.
   */
  lemma CountDirtyAfterFlush(s: seq<Line>)
    ensures CountDirty(FlushSet(s)) == CountDirty(s) - (if s != [] && s[0].dirty then 1 else 0)
  {
    if s != [] {
      var r := FlushSet(s);
      CountDirtyOfTail(s);
      CountDirtyOfTail(r);
      assert r[1..] == s[1..];
    }
  }

  /** Over all sets, a second walk counts every dirty line again except the heads. */
  lemma {:induction false} DirtyLinesAfterFlush(sets: seq<seq<Line>>)
    ensures DirtyLines(FlushSets(sets)) == DirtyLines(sets) - DirtyHeads(sets)
    ensures DirtyHeads(sets) <= DirtyLines(sets)
    decreases |sets|
  {
    if sets != [] {
      var n := |sets| - 1;
      var init := sets[..n];
      DirtyLinesAfterFlush(init);
      assert FlushSets(sets)[..n] == FlushSets(init);
      CountDirtyAfterFlush(sets[n]);
      if sets[n] != [] {
        CountDirtyOfTail(sets[n]);
      }
    }
  }

  /** A flushed set has no dirty head, so a second walk finds no dirty heads. */
  lemma {:induction false} NoDirtyHeadsAfterFlush(sets: seq<seq<Line>>)
    ensures DirtyHeads(FlushSets(sets)) == 0
    decreases |sets|
  {
    if sets != [] {
      var n := |sets| - 1;
      NoDirtyHeadsAfterFlush(sets[..n]);
      assert FlushSets(sets)[..n] == FlushSets(sets[..n]);
    }
  }

  /** A set with a dirty line has a positive count. */
  lemma {:induction false} CountDirtyPositive(s: seq<Line>, i: nat)
    requires i < |s| && s[i].dirty
    ensures CountDirty(s) >= 1
    decreases |s|
  {
    if i < |s| - 1 {
      CountDirtyPositive(s[..|s| - 1], i);
    }
  }

  /**
    The walk is not idempotent: once a set holds a dirty line below its
    head, the first walk leaves a dirty line behind and every further walk
    leaves the set as it found it, so each one counts that line again.
   */
  lemma FlushTwiceCountsAgain(s: seq<Line>, i: nat)
    requires 1 <= i < |s| && s[i].dirty
    ensures FlushSet(FlushSet(s)) == FlushSet(s)
    ensures CountDirty(FlushSet(s)) >= 1
  {
    CountDirtyPositive(FlushSet(s), i);
  }
}
