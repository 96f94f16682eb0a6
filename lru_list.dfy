/**
  One set of the cache: its lines in LRU order, most recently used first.
  The doubly linked list of the program (head and tail pointers, prev and
  next links) is modelled by the sequence of its lines from head to tail.
 */
module LruList {
  import opened Wrappers

  /** A cache line: the tag it holds and whether it is dirty. */
  datatype Line = Line(tag: nat, dirty: bool)

  /** Some line of s holds tag. */
  predicate Holds(s: seq<Line>, tag: nat) {
    exists j :: 0 <= j < |s| && s[j].tag == tag
  }

  /** No two lines of s hold the same tag. */
  predicate DistinctTags(s: seq<Line>) {
    forall i, j :: 0 <= i < j < |s| ==> s[i].tag != s[j].tag
  }

  /** A well-formed set: no more lines than ways, tags pairwise distinct. */
  predicate SetOk(s: seq<Line>, assoc: nat) {
    |s| <= assoc && DistinctTags(s)
  }

  /**
    Linking item in at the head: it becomes the head, the old lines follow
    in order, and it is also the tail when the list was empty.
   */
  function Insert(s: seq<Line>, item: Line): (r: seq<Line>)
    ensures |r| == |s| + 1 && r[0] == item && r[1..] == s
    ensures r[|r| - 1] == if s == [] then item else s[|s| - 1]
  {
    [item] + s
  }

  /**
    Unlinking the line at position k: the others keep their order, the
    next line becomes the head when k was the head, the previous line
    becomes the tail when k was the tail, and exactly one copy of s[k] goes.
   */
  function Delete(s: seq<Line>, k: nat): (r: seq<Line>)
    requires k < |s|
    ensures |r| == |s| - 1
    ensures forall j :: 0 <= j < k ==> r[j] == s[j]
    ensures forall j :: k <= j < |r| ==> r[j] == s[j + 1]
    ensures k == 0 && |s| > 1 ==> r[0] == s[1]
    ensures k == |s| - 1 && k > 0 ==> r[|r| - 1] == s[k - 1]
    ensures multiset(r) + multiset{s[k]} == multiset(s)
  {
    assert s == s[..k] + [s[k]] + s[k + 1..];
    s[..k] + s[k + 1..]
  }

  /** The hit path: unlink the found line and link it in again at the head. */
  function MoveToFront(s: seq<Line>, k: nat): (r: seq<Line>)
    requires k < |s|
  {
    Insert(Delete(s, k), s[k])
  }

  /**
    The scan of a set for a tag, as a function: the position of the first
    line holding tag, or None when no line holds it.
   */
  function Find(s: seq<Line>, tag: nat): (r: Option<nat>)
    ensures r.Some? ==> r.value < |s| && s[r.value].tag == tag &&
                        forall j :: 0 <= j < r.value ==> s[j].tag != tag
    ensures r.None? <==> !Holds(s, tag)
  {
    if s == [] then None
    else if s[0].tag == tag then Some(0)
    else match Find(s[1..], tag)
      case None => None
      case Some(k) => assert s[1..][k] == s[k + 1]; Some(k + 1)
  }

  /**
    Walks the set from the head, stopping at the first line that holds
    tag; found is false when the walk falls off the tail.
   */
  method FindLine(s: seq<Line>, tag: nat) returns (found: bool, k: nat)
    ensures found == Find(s, tag).Some?
    ensures found ==> k == Find(s, tag).value
  {
    found, k := false, 0;
    while k < |s|
      invariant k <= |s|
      invariant forall j :: 0 <= j < k ==> s[j].tag != tag
    {
      if s[k].tag == tag {
        found := true;
        return;
      }
      k := k + 1;
    }
  }

  /** Links item in at the head of list i of an array of lists. */
  method InsertAt(lists: array<seq<Line>>, i: nat, item: Line)
    requires i < lists.Length
    modifies lists
    ensures lists[..] == old(lists[..])[i := Insert(old(lists[i]), item)]
  {
    lists[i] := Insert(lists[i], item);
  }

  /** Unlinks the line at position k of list i of an array of lists. */
  method DeleteAt(lists: array<seq<Line>>, i: nat, k: nat)
    requires i < lists.Length && k < |lists[i]|
    modifies lists
    ensures lists[..] == old(lists[..])[i := Delete(old(lists[i]), k)]
  {
    lists[i] := Delete(lists[i], k);
  }

  // ---------------------------------------------------------------------
  // Properties of the list primitives

  /** Linking in a line whose tag is absent keeps the tags distinct. */
  lemma InsertKeepsDistinct(s: seq<Line>, item: Line)
    requires DistinctTags(s) && !Holds(s, item.tag)
    ensures DistinctTags(Insert(s, item))
  {
    var r := Insert(s, item);
    forall i, j | 0 <= i < j < |r| ensures r[i].tag != r[j].tag {
      if i == 0 {
        assert r[j] == s[j - 1];
      } else {
        assert r[i] == s[i - 1] && r[j] == s[j - 1];
      }
    }
  }

  /** Unlinking a line keeps the remaining tags distinct, and its tag is gone. */
  lemma DeleteKeepsDistinct(s: seq<Line>, k: nat)
    requires k < |s| && DistinctTags(s)
    ensures DistinctTags(Delete(s, k)) && !Holds(Delete(s, k), s[k].tag)
  {
    var r := Delete(s, k);
    forall i, j | 0 <= i < j < |r| ensures r[i].tag != r[j].tag {
      var i' := if i < k then i else i + 1;
      var j' := if j < k then j else j + 1;
      assert r[i] == s[i'] && r[j] == s[j'];
    }
    forall j | 0 <= j < |r| ensures r[j].tag != s[k].tag {
      var j' := if j < k then j else j + 1;
      assert r[j] == s[j'];
    }
  }

  /**
    Moving a line to the front keeps the set's lines (as a multiset), its
    length and the distinctness of its tags, and puts that line at the head.
   */
  lemma MoveToFrontKeepsLines(s: seq<Line>, k: nat)
    requires k < |s|
    ensures var r := MoveToFront(s, k);
      |r| == |s| && r[0] == s[k] && multiset(r) == multiset(s) &&
      (DistinctTags(s) ==> DistinctTags(r))
  {
    var r := MoveToFront(s, k);
    assert multiset(r) == multiset{s[k]} + multiset(Delete(s, k));
    if DistinctTags(s) {
      DeleteKeepsDistinct(s, k);
      InsertKeepsDistinct(Delete(s, k), s[k]);
    }
  }

  /** A line at the head is already most recent: moving it changes nothing. */
  lemma MoveHeadIsIdentity(s: seq<Line>)
    requires |s| >= 1
    ensures MoveToFront(s, 0) == s
  {
    assert MoveToFront(s, 0) == [s[0]] + s[1..];
  }
}
