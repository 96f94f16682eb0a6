/**
  What one access does to the set it maps to: the three classifiers
  (data load, instruction fetch, data store) as functions of the set's
  lines, the tag and the write policy, and the statistics they bump.
 */
module Access {
  import opened Wrappers
  import opened LruList

  /** The statistics of one reference stream (instruction or data). */
  datatype Stats = Stats(
    accesses: nat,
    misses: nat,
    replacements: nat,
    demandFetches: nat,
    copiesBack: nat)

  const NoStats := Stats(0, 0, 0, 0, 0)

  /**
    The configuration the classifiers consult: the number of ways, the
    write policy (write-back or write-through), the allocation policy
    (write-allocate or no-write-allocate) and the words per block, which
    the program computes as block_size >> 2.
   */
  datatype Policy = Policy(assoc: nat, writeBack: bool, writeAlloc: bool, words: nat)

  /**
    What an access did to its set: the set's new lines, whether it was a
    miss, whether it evicted the LRU line, the words fetched from memory
    and the words copied back to memory.
   */
  datatype Outcome = Outcome(
    lines: seq<Line>,
    miss: bool,
    replaced: bool,
    fetched: nat,
    copiedBack: nat)

  /** The least recently used line: the tail. */
  function Victim(s: seq<Line>): Line
    requires s != []
  {
    s[|s| - 1]
  }

  /** The set with its tail unlinked. */
  function WithoutVictim(s: seq<Line>): seq<Line>
    requires s != []
  {
    Delete(s, |s| - 1)
  }

  /** One word written through to memory unless the policy is write-back. */
  function WriteThroughWord(p: Policy): nat {
    if p.writeBack then 0 else 1
  }

  /**
    A data load or an instruction fetch. An empty set is filled without a
    scan. Otherwise the set is scanned: a hit moves the line to the head
    when the set has more than one line; a miss links a clean line in at
    the head, first evicting the tail when the set already has assoc lines,
    and a dirty victim is written back (a whole block) under write-back.
   */
  function Load(p: Policy, s: seq<Line>, tag: nat): Outcome {
    var newLine := Line(tag, false);
    if s == [] then
      Outcome(Insert(s, newLine), true, false, p.words, 0)
    else match Find(s, tag)
      case Some(k) =>
        Outcome(if |s| > 1 then MoveToFront(s, k) else s, false, false, 0, 0)
      case None =>
        if |s| < p.assoc then
          Outcome(Insert(s, newLine), true, false, p.words, 0)
        else
          Outcome(Insert(WithoutVictim(s), newLine), true, true, p.words,
                  if p.writeBack && Victim(s).dirty then p.words else 0)
  }

  /**
    The found line of a store hit, now at the head: dirty under
    write-back, clean (and written through) under write-through.
   */
  function MarkHead(s: seq<Line>, writeBack: bool): seq<Line>
    requires s != []
  {
    s[0 := s[0].(dirty := writeBack)]
  }

  /** Marking a line just linked in at the head is linking it in with that dirty bit. */
  lemma MarkInsertedHead(s: seq<Line>, item: Line, dirty: bool)
    ensures MarkHead(Insert(s, item), dirty) == Insert(s, item.(dirty := dirty))
  {
  }

  /** A store to a line the set already holds, at position k. */
  function StoreHit(p: Policy, s: seq<Line>, k: nat): Outcome
    requires k < |s|
  {
    Outcome(MarkHead(if |s| > 1 then MoveToFront(s, k) else s, p.writeBack),
            false, false, 0, WriteThroughWord(p))
  }

  /**
    A data store. Under write-allocate it behaves like a load that also
    writes: the new line is dirty under write-back, except after a dirty
    victim was written back, when it is left clean; under write-through one
    word goes to memory. Under no-write-allocate a miss leaves the set
    alone and writes one word to memory, plus one more under write-through.
   */
  function Store(p: Policy, s: seq<Line>, tag: nat): Outcome {
    if p.writeAlloc then
      if s == [] then
        Outcome(Insert(s, Line(tag, p.writeBack)), true, false, p.words, WriteThroughWord(p))
      else match Find(s, tag)
        case Some(k) => StoreHit(p, s, k)
        case None =>
          if |s| < p.assoc then
            Outcome(Insert(s, Line(tag, p.writeBack)), true, false, p.words, WriteThroughWord(p))
          else
            var victimDirty := Victim(s).dirty;
            Outcome(Insert(WithoutVictim(s), Line(tag, p.writeBack && !victimDirty)),
                    true, true, p.words,
                    (if p.writeBack && victimDirty then p.words else 0) + WriteThroughWord(p))
    else match Find(s, tag)
      case Some(k) => StoreHit(p, s, k)
      case None => Outcome(s, true, false, 0, 1 + WriteThroughWord(p))
  }

  /** The accessing stream's counters after an access with outcome o. */
  function Charge(st: Stats, o: Outcome): Stats {
    Stats(st.accesses + 1,
          st.misses + (if o.miss then 1 else 0),
          st.replacements + (if o.replaced then 1 else 0),
          st.demandFetches + o.fetched,
          st.copiesBack)
  }

  /** The data stream's counters with n more words copied back. */
  function AddCopies(st: Stats, n: nat): Stats {
    st.(copiesBack := st.copiesBack + n)
  }

  /** Counters that can be reached: no more replacements than misses, no more misses than accesses. */
  predicate StatsOk(st: Stats) {
    st.replacements <= st.misses <= st.accesses
  }

  // ---------------------------------------------------------------------
  // Loads and instruction fetches

  /** A load misses exactly when no line of the set holds the tag. */
  lemma LoadMissIffAbsent(p: Policy, s: seq<Line>, tag: nat)
    ensures Load(p, s, tag).miss <==> !Holds(s, tag)
  {
  }

  /** After a load the accessed tag is at the head of the set. */
  lemma LoadPutsTagAtHead(p: Policy, s: seq<Line>, tag: nat)
    ensures var o := Load(p, s, tag); o.lines != [] && o.lines[0].tag == tag
  {
    var f := Find(s, tag);
    if s != [] && f.Some? {
      if |s| > 1 {
        MoveToFrontKeepsLines(s, f.value);
      }
    }
  }

  /**
    A load hit keeps the set's lines (only their order may change) and
    moves no data: no fetch, no copy-back, no replacement.
   */
  lemma LoadHitKeepsLines(p: Policy, s: seq<Line>, tag: nat)
    requires Holds(s, tag)
    ensures var o := Load(p, s, tag);
      !o.miss && !o.replaced && o.fetched == 0 && o.copiedBack == 0 &&
      multiset(o.lines) == multiset(s)
  {
    var k := Find(s, tag).value;
    MoveToFrontKeepsLines(s, k);
  }

  /**
    A load miss fetches a block into a clean line at the head. If the set
    had room the old lines follow unchanged and the set grows by one;
    otherwise the tail is evicted (a replacement), the rest follow, and a
    block is copied back exactly when write-back is on and the victim was
    dirty.
   */
  lemma LoadMissFills(p: Policy, s: seq<Line>, tag: nat)
    requires !Holds(s, tag)
    ensures var o := Load(p, s, tag);
      o.miss && o.fetched == p.words && o.lines[0] == Line(tag, false) &&
      o.replaced == (|s| > 0 && |s| >= p.assoc) &&
      (!o.replaced ==> o.lines[1..] == s && o.copiedBack == 0) &&
      (o.replaced ==> o.lines[1..] == s[..|s| - 1] &&
                      o.copiedBack == (if p.writeBack && s[|s| - 1].dirty then p.words else 0))
  {
  }

  /** A load keeps a well-formed set well formed: within its ways, tags distinct. */
  lemma LoadKeepsSetOk(p: Policy, s: seq<Line>, tag: nat)
    requires p.assoc >= 1 && SetOk(s, p.assoc)
    ensures SetOk(Load(p, s, tag).lines, p.assoc)
  {
    var f := Find(s, tag);
    if s == [] {
    } else if f.Some? {
      MoveToFrontKeepsLines(s, f.value);
    } else if |s| < p.assoc {
      InsertKeepsDistinct(s, Line(tag, false));
    } else {
      AbsentAfterEviction(s, tag);
      DeleteKeepsDistinct(s, |s| - 1);
      InsertKeepsDistinct(WithoutVictim(s), Line(tag, false));
    }
  }

  /** Evicting the tail cannot bring back a tag the set did not hold. */
  lemma AbsentAfterEviction(s: seq<Line>, tag: nat)
    requires s != [] && !Holds(s, tag)
    ensures !Holds(WithoutVictim(s), tag)
  {
    var r := WithoutVictim(s);
    forall j | 0 <= j < |r| ensures r[j].tag != tag {
      assert r[j] == s[j];
    }
  }

  /**
    The number of lines changes only on a miss into a set with room,
    where it grows by one; a full set evicts before it inserts.
   */
  lemma LoadOccupancy(p: Policy, s: seq<Line>, tag: nat)
    requires |s| <= p.assoc
    ensures var o := Load(p, s, tag);
      |o.lines| == if o.miss && !o.replaced then |s| + 1 else |s|
  {
    var f := Find(s, tag);
    if s != [] && f.Some? && |s| > 1 {
      MoveToFrontKeepsLines(s, f.value);
    }
  }

  // ---------------------------------------------------------------------
  // Stores

  /**
    A store hit (under either allocation policy) keeps the set's tags,
    leaves the stored line at the head, dirty under write-back and clean
    under write-through, writes one word through under write-through and
    fetches nothing.
   */
  lemma StoreHitMarksLine(p: Policy, s: seq<Line>, tag: nat)
    requires Holds(s, tag)
    ensures var o := Store(p, s, tag);
      !o.miss && !o.replaced && o.fetched == 0 &&
      o.copiedBack == (if p.writeBack then 0 else 1) &&
      |o.lines| == |s| && o.lines[0] == Line(tag, p.writeBack) &&
      multiset(o.lines[1..]) + multiset{Line(tag, s[Find(s, tag).value].dirty)} == multiset(s)
  {
    var k := Find(s, tag).value;
    var moved := if |s| > 1 then MoveToFront(s, k) else s;
    MoveToFrontKeepsLines(s, k);
    if |s| == 1 {
      MoveHeadIsIdentity(s);
    }
    assert moved[0] == s[k] && multiset(moved) == multiset(s);
    assert moved == [moved[0]] + moved[1..];
    assert Store(p, s, tag).lines[1..] == moved[1..];
  }

  /**
    A store miss under no-write-allocate leaves the set untouched, counts
    a miss, fetches nothing, and copies one word back plus one more under
    write-through.
   */
  lemma StoreNoAllocateMiss(p: Policy, s: seq<Line>, tag: nat)
    requires !p.writeAlloc && !Holds(s, tag)
    ensures var o := Store(p, s, tag);
      o.lines == s && o.miss && !o.replaced && o.fetched == 0 &&
      o.copiedBack == (if p.writeBack then 1 else 2)
  {
  }

  /**
    A store miss under write-allocate fetches the block into a line at the
    head, evicting the tail of a full set. The new line is dirty under
    write-back unless a dirty victim was just written back; write-through
    adds one word to the copies back.
   */
  lemma StoreAllocateMiss(p: Policy, s: seq<Line>, tag: nat)
    requires p.writeAlloc && !Holds(s, tag)
    ensures var o := Store(p, s, tag);
      var victimDirty := o.replaced && s[|s| - 1].dirty;
      o.miss && o.fetched == p.words &&
      o.replaced == (|s| > 0 && |s| >= p.assoc) &&
      o.lines[0] == Line(tag, p.writeBack && !victimDirty) &&
      o.lines[1..] == (if o.replaced then s[..|s| - 1] else s) &&
      o.copiedBack == (if p.writeBack && victimDirty then p.words else 0) +
                      (if p.writeBack then 0 else 1)
  {
  }

  /**
    A write-back, write-allocate store that misses a full set whose tail is
    dirty evicts the tail and copies it back as a block, and the line it
    just wrote is left clean; the older lines follow in order.
   */
  lemma StoreAfterDirtyVictimIsClean(p: Policy, s: seq<Line>, tag: nat)
    requires p.writeBack && p.writeAlloc && 1 <= p.assoc <= |s|
    requires !Holds(s, tag) && s[|s| - 1].dirty
    ensures var o := Store(p, s, tag);
      o.lines == [Line(tag, false)] + s[..|s| - 1] &&
      o.miss && o.replaced && o.fetched == p.words && o.copiedBack == p.words
  {
    assert Find(s, tag).None?;
    assert WithoutVictim(s) == s[..|s| - 1];
  }

  /** A store keeps a well-formed set well formed. */
  lemma StoreKeepsSetOk(p: Policy, s: seq<Line>, tag: nat)
    requires p.assoc >= 1 && SetOk(s, p.assoc)
    ensures SetOk(Store(p, s, tag).lines, p.assoc)
  {
    var f := Find(s, tag);
    if f.Some? {
      StoreHitKeepsSetOk(p, s, f.value);
    } else if p.writeAlloc && s != [] && |s| >= p.assoc {
      AbsentAfterEviction(s, tag);
      DeleteKeepsDistinct(s, |s| - 1);
      InsertKeepsDistinct(WithoutVictim(s), Line(tag, p.writeBack && !Victim(s).dirty));
    } else if p.writeAlloc {
      InsertKeepsDistinct(s, Line(tag, p.writeBack));
    }
  }

  lemma StoreHitKeepsSetOk(p: Policy, s: seq<Line>, k: nat)
    requires k < |s| && SetOk(s, p.assoc)
    ensures SetOk(StoreHit(p, s, k).lines, p.assoc)
  {
    MoveToFrontKeepsLines(s, k);
    var moved := if |s| > 1 then MoveToFront(s, k) else s;
    MarkKeepsDistinct(moved, p.writeBack);
  }

  /** Changing a dirty bit changes no tag. */
  lemma MarkKeepsDistinct(s: seq<Line>, writeBack: bool)
    requires s != [] && DistinctTags(s)
    ensures DistinctTags(MarkHead(s, writeBack)) && |MarkHead(s, writeBack)| == |s|
  {
    var r := MarkHead(s, writeBack);
    forall i, j | 0 <= i < j < |r| ensures r[i].tag != r[j].tag {
      assert r[i].tag == s[i].tag && r[j].tag == s[j].tag;
    }
  }

  /** A store misses exactly when no line of the set holds the tag. */
  lemma StoreMissIffAbsent(p: Policy, s: seq<Line>, tag: nat)
    ensures Store(p, s, tag).miss <==> !Holds(s, tag)
  {
  }

  /**
    The number of lines changes only on an allocating miss into a set with
    room, where it grows by one.
   */
  lemma StoreOccupancy(p: Policy, s: seq<Line>, tag: nat)
    requires |s| <= p.assoc
    ensures var o := Store(p, s, tag);
      |o.lines| == if o.miss && !o.replaced && p.writeAlloc then |s| + 1 else |s|
  {
    var f := Find(s, tag);
    if f.Some? && |s| > 1 {
      MoveToFrontKeepsLines(s, f.value);
    }
  }

  // ---------------------------------------------------------------------
  // Counters

  /**
    Charging an access adds exactly one access and at most one miss to the
    stream, so reachable counters stay reachable as long as a replacement
    is always a miss.
   */
  lemma ChargeKeepsStatsOk(st: Stats, o: Outcome)
    requires StatsOk(st) && (o.replaced ==> o.miss)
    ensures var st' := Charge(st, o);
      st'.accesses == st.accesses + 1 && st.misses <= st'.misses <= st.misses + 1 &&
      StatsOk(st')
  {
  }

  /** Loads and stores only replace on a miss. */
  lemma ReplacementIsMiss(p: Policy, s: seq<Line>, tag: nat)
    ensures Load(p, s, tag).replaced ==> Load(p, s, tag).miss
    ensures Store(p, s, tag).replaced ==> Store(p, s, tag).miss
  {
  }
}
