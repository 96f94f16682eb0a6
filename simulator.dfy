/**
  The simulator as the program runs it: the caches' set lists and
  occupancy counters in arrays updated in place, the two statistics
  records, and the operations that build the caches, classify one
  reference and flush. In unified mode the data side uses the very same
  arrays as the instruction side. Every operation is proved to perform
  the corresponding transition of the value model in CacheModel.
 */
module Simulator {
  import opened Bits
  import opened Geometry
  import opened LruList
  import opened Access
  import opened Flush
  import opened Config
  import opened CacheModel

  /**
    Decodes addr for one cache and reads how many lines its set holds
    (the occupancy the classifiers call the hit hint).
   */
  method FetchInfo(g: CacheGeometry, blockSize: nat, contents: array<int>, addr: Addr)
    returns (tag: nat, idx: nat, h: int)
    requires g.nSets >= 1 && contents.Length == g.nSets
    ensures Decoded(tag, idx) == Decode(g, blockSize, addr)
    ensures idx < contents.Length && h == contents[idx]
  {
    var d := Decode(g, blockSize, addr);
    tag, idx := d.tag, d.index;
    h := contents[idx];
  }

  /** The length of each set's list: what the occupancy counters must hold. */
  function Lengths(sets: seq<seq<Line>>): seq<int> {
    seq(|sets|, i requires 0 <= i < |sets| => |sets[i]|)
  }

  /** Replacing one set's list changes only that set's length. */
  lemma LengthsUpdate(sets: seq<seq<Line>>, idx: nat, lines: seq<Line>)
    requires idx < |sets|
    ensures Lengths(sets[idx := lines]) == Lengths(sets)[idx := |lines|]
  {
  }

  /**
    The counters of the accessing stream after an access with outcome o,
    before the access itself is counted (the classifiers count it last).
   */
  function Tally(st: Stats, o: Outcome): Stats {
    Charge(st, o).(accesses := st.accesses)
  }

  /**
    The hit path of the classifiers: the found line, at position k, is
    unlinked and linked in again at the head, when the set holds more than
    one line (h is its occupancy).
   */
  method Promote(lists: array<seq<Line>>, idx: nat, h: int, k: nat)
    requires idx < lists.Length && k < |lists[idx]| && h == |lists[idx]|
    modifies lists
    ensures lists[..] == old(lists[..])[idx := if h > 1 then MoveToFront(old(lists[idx]), k) else old(lists[idx])]
    ensures Lengths(lists[..]) == Lengths(old(lists[..]))
  {
    if h > 1 {
      var line := lists[idx][k];
      DeleteAt(lists, idx, k);
      InsertAt(lists, idx, line);
      LengthsUpdate(old(lists[..]), idx, lists[idx]);
    }
  }

  /** A miss into a set with room: the new line is linked in at the head and counted. */
  method Fill(lists: array<seq<Line>>, contents: array<int>, idx: nat, line: Line)
    requires idx < lists.Length && idx < contents.Length
    modifies lists, contents
    ensures lists[..] == old(lists[..])[idx := Insert(old(lists[idx]), line)]
    ensures contents[..] == old(contents[..])[idx := old(contents[idx]) + 1]
    ensures old(contents[..]) == Lengths(old(lists[..])) ==> contents[..] == Lengths(lists[..])
  {
    InsertAt(lists, idx, line);
    contents[idx] := contents[idx] + 1;
  }

  /**
    A miss into a full set: the tail is unlinked and the new line linked in
    at the head; the occupancy stays. Returns the victim's dirty bit.
   */
  method Replace(lists: array<seq<Line>>, idx: nat, line: Line) returns (victimDirty: bool)
    requires idx < lists.Length && lists[idx] != []
    modifies lists
    ensures victimDirty == Victim(old(lists[idx])).dirty
    ensures lists[..] == old(lists[..])[idx := Insert(WithoutVictim(old(lists[idx])), line)]
    ensures Lengths(lists[..]) == Lengths(old(lists[..]))
  {
    var victim := |lists[idx]| - 1;
    victimDirty := lists[idx][victim].dirty;
    DeleteAt(lists, idx, victim);
    InsertAt(lists, idx, line);
  }

  /** Sets the dirty bit of the head line of set idx. */
  method SetHeadDirty(lists: array<seq<Line>>, idx: nat, dirty: bool)
    requires idx < lists.Length && lists[idx] != []
    modifies lists
    ensures lists[..] == old(lists[..])[idx := MarkHead(old(lists[idx]), dirty)]
    ensures Lengths(lists[..]) == Lengths(old(lists[..]))
  {
    lists[idx] := MarkHead(lists[idx], dirty);
  }

  /**
    A load miss into a set with room: a clean line is linked in at the
    head and counted, and its block is fetched.
   */
  method LoadFill(p: Policy, lists: array<seq<Line>>, contents: array<int>,
                  idx: nat, tag: nat, counters: Stats)
    returns (charged: Stats)
    requires idx < lists.Length == contents.Length
    requires contents[..] == Lengths(lists[..])
    modifies lists, contents
    ensures lists[..] == old(lists[..])[idx := Insert(old(lists[idx]), Line(tag, false))]
    ensures contents[..] == Lengths(lists[..])
    ensures charged == counters.(misses := counters.misses + 1,
                                 demandFetches := counters.demandFetches + p.words)
  {
    Fill(lists, contents, idx, Line(tag, false));
    charged := counters;
    charged := charged.(demandFetches := charged.demandFetches + p.words);
    charged := charged.(misses := charged.misses + 1);
  }

  /**
    The scan of a non-empty set for a load or a fetch: a hit is moved to
    the head, a miss fills a free way or replaces the tail, and a dirty
    victim's block is written back under write-back.
   */
  method LoadScan(p: Policy, lists: array<seq<Line>>, contents: array<int>,
                  h: int, idx: nat, tag: nat, counters: Stats)
    returns (charged: Stats, copies: nat)
    requires idx < lists.Length == contents.Length && h == |lists[idx]| && h != 0
    requires contents[..] == Lengths(lists[..])
    modifies lists, contents
    ensures lists[..] == old(lists[..])[idx := Load(p, old(lists[idx]), tag).lines]
    ensures contents[..] == Lengths(lists[..])
    ensures charged == Tally(counters, Load(p, old(lists[idx]), tag))
    ensures copies == Load(p, old(lists[idx]), tag).copiedBack
  {
    ghost var s := lists[idx];
    ghost var o := Load(p, s, tag);
    charged, copies := counters, 0;
    var found, k := FindLine(lists[idx], tag);
    if found {
      assert o == Outcome(if h > 1 then MoveToFront(s, k) else s, false, false, 0, 0);
      Promote(lists, idx, h, k);
    } else if h < p.assoc {
      assert o == Outcome(Insert(s, Line(tag, false)), true, false, p.words, 0);
      charged := LoadFill(p, lists, contents, idx, tag, counters);
    } else {
      assert o == Outcome(Insert(WithoutVictim(s), Line(tag, false)), true, true, p.words,
                          if p.writeBack && Victim(s).dirty then p.words else 0);
      var oldDirty := Replace(lists, idx, Line(tag, false));
      if p.writeBack && oldDirty {
        copies := copies + p.words;
      }
      charged := charged.(demandFetches := charged.demandFetches + p.words,
                          replacements := charged.replacements + 1,
                          misses := charged.misses + 1);
    }
  }

  /**
    The body of a data load or an instruction fetch on one cache: set idx
    of lists, whose occupancy h is read from contents, is scanned when it
    is not empty, and an empty set is filled. counters are the accessing
    stream's; charged is them after the access, and copies the words a
    dirty victim writes back.
   */
  method LoadSet(p: Policy, lists: array<seq<Line>>, contents: array<int>,
                 h: int, idx: nat, tag: nat, counters: Stats)
    returns (charged: Stats, copies: nat)
    requires idx < lists.Length == contents.Length && h == contents[idx]
    requires contents[..] == Lengths(lists[..])
    modifies lists, contents
    ensures lists[..] == old(lists[..])[idx := Load(p, old(lists[idx]), tag).lines]
    ensures contents[..] == Lengths(lists[..])
    ensures charged == Charge(counters, Load(p, old(lists[idx]), tag))
    ensures copies == Load(p, old(lists[idx]), tag).copiedBack
  {
    ghost var s := lists[idx];
    assert h == |s| by {
      assert contents[..][idx] == Lengths(lists[..])[idx];
    }
    if h != 0 {
      charged, copies := LoadScan(p, lists, contents, h, idx, tag, counters);
    } else {
      assert Load(p, s, tag) == Outcome(Insert(s, Line(tag, false)), true, false, p.words, 0);
      charged := LoadFill(p, lists, contents, idx, tag, counters);
      copies := 0;
    }
    charged := charged.(accesses := charged.accesses + 1);
  }

  /**
    The hit path of a store: the found line, at position k, moves to the
    head (when the set has more than one line) and becomes dirty under
    write-back, or stays clean and writes one word through under
    write-through; copies is the words written.
   */
  method StoreHitSet(p: Policy, lists: array<seq<Line>>, idx: nat, h: int, k: nat)
    returns (copies: nat)
    requires idx < lists.Length && k < |lists[idx]| && h == |lists[idx]|
    modifies lists
    ensures var o := StoreHit(p, old(lists[idx]), k);
      lists[..] == old(lists[..])[idx := o.lines] && copies == o.copiedBack
    ensures Lengths(lists[..]) == Lengths(old(lists[..]))
  {
    Promote(lists, idx, h, k);
    copies := 0;
    if p.writeBack {
      SetHeadDirty(lists, idx, true);
    } else {
      copies := copies + 1;
      SetHeadDirty(lists, idx, false);
    }
  }

  /**
    A write-allocated store miss into a set with room: a line is linked in
    at the head and counted, dirty under write-back; one word goes through
    under write-through.
   */
  method StoreFill(p: Policy, lists: array<seq<Line>>, contents: array<int>,
                   idx: nat, tag: nat, counters: Stats)
    returns (charged: Stats, copies: nat)
    requires idx < lists.Length == contents.Length
    requires contents[..] == Lengths(lists[..])
    modifies lists, contents
    ensures lists[..] == old(lists[..])[idx := Insert(old(lists[idx]), Line(tag, p.writeBack))]
    ensures contents[..] == Lengths(lists[..])
    ensures charged == counters.(misses := counters.misses + 1,
                                 demandFetches := counters.demandFetches + p.words)
    ensures copies == WriteThroughWord(p)
  {
    Fill(lists, contents, idx, Line(tag, false));
    if p.writeBack {
      SetHeadDirty(lists, idx, true);
      MarkInsertedHead(old(lists[idx]), Line(tag, false), true);
    }
    charged, copies := counters, 0;
    charged := charged.(demandFetches := charged.demandFetches + p.words);
    if !p.writeBack {
      copies := copies + 1;
    }
    charged := charged.(misses := charged.misses + 1);
  }

  /**
    A write-allocated store miss into a full set: the tail is evicted, its
    block written back when dirty under write-back, and a line linked in
    at the head, dirty under write-back unless the victim was written
    back; one word goes through under write-through.
   */
  method StoreReplace(p: Policy, lists: array<seq<Line>>, idx: nat, tag: nat, counters: Stats)
    returns (charged: Stats, copies: nat)
    requires idx < lists.Length && lists[idx] != []
    modifies lists
    ensures var s := old(lists[idx]);
      lists[..] == old(lists[..])[idx := Insert(WithoutVictim(s), Line(tag, p.writeBack && !Victim(s).dirty))]
    ensures Lengths(lists[..]) == Lengths(old(lists[..]))
    ensures charged == counters.(misses := counters.misses + 1,
                                 replacements := counters.replacements + 1,
                                 demandFetches := counters.demandFetches + p.words)
    ensures copies == (if p.writeBack && Victim(old(lists[idx])).dirty then p.words else 0) +
                      WriteThroughWord(p)
  {
    ghost var s := lists[idx];
    charged, copies := counters, 0;
    var oldDirty := Replace(lists, idx, Line(tag, false));
    if p.writeBack && oldDirty {
      copies := copies + p.words;
    } else if p.writeBack {
      SetHeadDirty(lists, idx, true);
      MarkInsertedHead(WithoutVictim(s), Line(tag, false), true);
    }
    charged := charged.(demandFetches := charged.demandFetches + p.words,
                        replacements := charged.replacements + 1);
    if !p.writeBack {
      copies := copies + 1;
    }
    charged := charged.(misses := charged.misses + 1);
  }

  /**
    A write-allocated store miss into a non-empty set: a free way is
    filled, or the tail is replaced when the set is full.
   */
  method StoreMiss(p: Policy, lists: array<seq<Line>>, contents: array<int>,
                   h: int, idx: nat, tag: nat, counters: Stats)
    returns (charged: Stats, copies: nat)
    requires p.writeAlloc
    requires idx < lists.Length == contents.Length && h == |lists[idx]| && h != 0
    requires contents[..] == Lengths(lists[..]) && Find(lists[idx], tag).None?
    modifies lists, contents
    ensures lists[..] == old(lists[..])[idx := Store(p, old(lists[idx]), tag).lines]
    ensures contents[..] == Lengths(lists[..])
    ensures charged == Tally(counters, Store(p, old(lists[idx]), tag))
    ensures copies == Store(p, old(lists[idx]), tag).copiedBack
  {
    ghost var s := lists[idx];
    if h < p.assoc {
      assert Store(p, s, tag) == Outcome(Insert(s, Line(tag, p.writeBack)), true, false, p.words,
                                         WriteThroughWord(p));
      charged, copies := StoreFill(p, lists, contents, idx, tag, counters);
    } else {
      assert Store(p, s, tag) ==
             Outcome(Insert(WithoutVictim(s), Line(tag, p.writeBack && !Victim(s).dirty)),
                     true, true, p.words,
                     (if p.writeBack && Victim(s).dirty then p.words else 0) + WriteThroughWord(p));
      charged, copies := StoreReplace(p, lists, idx, tag, counters);
    }
  }

  /**
    The scan of a non-empty set for a write-allocated store: a hit is the
    store hit path, a miss fills a free way or replaces the tail.
   */
  method StoreScan(p: Policy, lists: array<seq<Line>>, contents: array<int>,
                   h: int, idx: nat, tag: nat, counters: Stats)
    returns (charged: Stats, copies: nat)
    requires p.writeAlloc
    requires idx < lists.Length == contents.Length && h == |lists[idx]| && h != 0
    requires contents[..] == Lengths(lists[..])
    modifies lists, contents
    ensures lists[..] == old(lists[..])[idx := Store(p, old(lists[idx]), tag).lines]
    ensures contents[..] == Lengths(lists[..])
    ensures charged == Tally(counters, Store(p, old(lists[idx]), tag))
    ensures copies == Store(p, old(lists[idx]), tag).copiedBack
  {
    ghost var s := lists[idx];
    var found, k := FindLine(lists[idx], tag);
    if found {
      assert Store(p, s, tag) == StoreHit(p, s, k);
      charged := counters;
      copies := StoreHitSet(p, lists, idx, h, k);
    } else {
      charged, copies := StoreMiss(p, lists, contents, h, idx, tag, counters);
    }
  }

  /**
    A store without write-allocate: the set is scanned; a hit is the store
    hit path, and a miss leaves the set alone and writes the word to
    memory, plus one more word under write-through.
   */
  method StoreAround(p: Policy, lists: array<seq<Line>>, h: int, idx: nat, tag: nat,
                     counters: Stats)
    returns (charged: Stats, copies: nat)
    requires !p.writeAlloc
    requires idx < lists.Length && h == |lists[idx]|
    modifies lists
    ensures lists[..] == old(lists[..])[idx := Store(p, old(lists[idx]), tag).lines]
    ensures Lengths(lists[..]) == Lengths(old(lists[..]))
    ensures charged == Tally(counters, Store(p, old(lists[idx]), tag))
    ensures copies == Store(p, old(lists[idx]), tag).copiedBack
  {
    ghost var s := lists[idx];
    charged, copies := counters, 0;
    var found, k := FindLine(lists[idx], tag);
    if found {
      assert Store(p, s, tag) == StoreHit(p, s, k);
      copies := StoreHitSet(p, lists, idx, h, k);
    } else {
      assert Store(p, s, tag) == Outcome(s, true, false, 0, 1 + WriteThroughWord(p));
      copies := copies + 1;
      if !p.writeBack {
        copies := copies + 1;
      }
      charged := charged.(misses := charged.misses + 1);
      assert lists[..] == old(lists[..]);
    }
  }

  /**
    The body of a data store on one cache: under write-allocate set idx
    (occupancy h) is scanned when not empty and an empty set is filled;
    without write-allocate the store goes around a missing line. counters
    are the data stream's; charged is them after the access, and copies
    the words written back or through.
   */
  method StoreSet(p: Policy, lists: array<seq<Line>>, contents: array<int>,
                  h: int, idx: nat, tag: nat, counters: Stats)
    returns (charged: Stats, copies: nat)
    requires idx < lists.Length == contents.Length && h == contents[idx]
    requires contents[..] == Lengths(lists[..])
    modifies lists, contents
    ensures lists[..] == old(lists[..])[idx := Store(p, old(lists[idx]), tag).lines]
    ensures contents[..] == Lengths(lists[..])
    ensures charged == Charge(counters, Store(p, old(lists[idx]), tag))
    ensures copies == Store(p, old(lists[idx]), tag).copiedBack
  {
    ghost var s := lists[idx];
    assert h == |s| by {
      assert contents[..][idx] == Lengths(lists[..])[idx];
    }
    if p.writeAlloc {
      if h != 0 {
        charged, copies := StoreScan(p, lists, contents, h, idx, tag, counters);
      } else {
        assert Store(p, s, tag) == Outcome(Insert(s, Line(tag, p.writeBack)), true, false, p.words,
                                           WriteThroughWord(p));
        charged, copies := StoreFill(p, lists, contents, idx, tag, counters);
      }
    } else {
      charged, copies := StoreAround(p, lists, h, idx, tag, counters);
    }
    charged := charged.(accesses := charged.accesses + 1);
  }

  /**
    The walk of one set from head to tail: each dirty line met costs a
    block of copies back to the data counters, and the set's head line
    (not the line met) is made clean.
   */
  method FlushWalk(s: seq<Line>, words: nat, counters: Stats)
    returns (cur: seq<Line>, after: Stats)
    ensures cur == FlushSet(s)
    ensures after == AddCopies(counters, words * CountDirty(s))
  {
    cur, after := s, counters;
    var j := 0;
    while j < |cur|
      invariant j <= |s| == |cur|
      invariant cur == if j == 0 then s else FlushSet(s)
      invariant after == AddCopies(counters, words * CountDirty(s[..j]))
    {
      assert s[..j + 1][..j] == s[..j];
      if cur[j].dirty {
        Distribute(CountDirty(s[..j]), 1, words);
        after := after.(copiesBack := after.copiesBack + words);
        cur := cur[0 := cur[0].(dirty := false)];
      }
      j := j + 1;
    }
    assert s[..j] == s;
  }

  /** Walks every set of lists in turn, charging the copies to counters. */
  method FlushLists(lists: array<seq<Line>>, words: nat, counters: Stats) returns (after: Stats)
    modifies lists
    ensures lists[..] == FlushSets(old(lists[..]))
    ensures after == AddCopies(counters, words * DirtyLines(old(lists[..])))
  {
    ghost var sets := lists[..];
    after := counters;
    for i := 0 to lists.Length
      invariant forall j :: 0 <= j < i ==> lists[j] == FlushSet(sets[j])
      invariant forall j :: i <= j < lists.Length ==> lists[j] == sets[j]
      invariant after == AddCopies(counters, words * DirtyLines(sets[..i]))
    {
      ghost var done, here := DirtyLines(sets[..i]), CountDirty(sets[i]);
      assert DirtyLines(sets[..i + 1]) == done + here by {
        assert sets[..i + 1][..i] == sets[..i];
      }
      DistributeLeft(words, done, here);
      var cur;
      cur, after := FlushWalk(lists[i], words, after);
      lists[i] := cur;
    }
    assert sets[..lists.Length] == sets;
  }

  /** n empty set lists and their occupancy counters, all zero. */
  method EmptySets(n: nat) returns (lists: array<seq<Line>>, counts: array<int>)
    ensures fresh(lists) && fresh(counts)
    ensures lists[..] == seq(n, _ => []) && counts[..] == Lengths(lists[..])
  {
    lists := new seq<Line>[n](_ => []);
    counts := new int[n](_ => 0);
  }

  class Simulator {
    /** Configuration and geometries, fixed when the caches are built. */
    const setup: Setup
    /** The instruction (or unified) cache's set lists, most recent line first. */
    const isets: array<seq<Line>>
    /** The data cache's set lists: the same array as isets when unified. */
    const dsets: array<seq<Line>>
    /** The number of lines in each instruction (or unified) set. */
    const icontents: array<int>
    /** The number of lines in each data set: the same array as icontents when unified. */
    const dcontents: array<int>
    var inst: Stats
    var data: Stats

    ghost function Abstract(): State
      reads this, isets, dsets
    {
      State(isets[..], dsets[..], inst, data)
    }

    /**
      The arrays hold a state satisfying the model's invariant; each
      occupancy counter equals the length of its set's list; unified
      caches share their arrays and split caches do not.
     */
    ghost predicate Valid()
      reads this, isets, dsets, icontents, dcontents
    {
      Inv(setup, Abstract()) &&
      icontents.Length == isets.Length && dcontents.Length == dsets.Length &&
      (setup.split ==> isets != dsets && icontents != dcontents) &&
      (!setup.split ==> isets == dsets && icontents == dcontents) &&
      icontents[..] == Lengths(isets[..]) && dcontents[..] == Lengths(dsets[..])
    }

    /**
      Builds the caches from the settings: every set empty, every counter
      zero; in unified mode the data side aliases the instruction side.
     */
    constructor (c: Settings)
      requires SettingsOk(c)
      ensures Valid() && setup == Init(c) && Abstract() == InitState(setup)
      ensures fresh(isets) && fresh(dsets) && fresh(icontents) && fresh(dcontents)
    {
      var m := Init(c);
      InitOk(c);
      setup := m;
      var lists, counts := EmptySets(m.icache.nSets);
      isets, icontents := lists, counts;
      if c.split {
        var dlists, dcounts := EmptySets(m.dcache.nSets);
        dsets, dcontents := dlists, dcounts;
      } else {
        dsets, dcontents := lists, counts;
      }
      inst, data := NoStats, NoStats;
    }

    /** A data load of tag into data set idx, whose occupancy is h. */
    method CalcDataLoadRefs(h: int, idx: nat, tag: nat)
      requires Valid() && idx < dsets.Length && h == dcontents[idx]
      modifies this, dsets, dcontents
      ensures Valid()
      ensures Abstract() == DataLoad(setup, old(Abstract()), idx, tag)
    {
      ghost var st := Abstract();
      var charged, copies := LoadSet(setup.policy, dsets, dcontents, h, idx, tag, data);
      data := AddCopies(charged, copies);
      DataLoadKeepsInv(setup, st, idx, tag);
    }

    /**
      An instruction fetch of tag into instruction set idx, whose occupancy
      is h; a dirty victim's copy-back goes to the data statistics.
     */
    method CalcInsLoadRefs(h: int, idx: nat, tag: nat)
      requires Valid() && idx < isets.Length && h == icontents[idx]
      modifies this, isets, icontents
      ensures Valid()
      ensures Abstract() == InstLoad(setup, old(Abstract()), idx, tag)
    {
      ghost var st := Abstract();
      var charged, copies := LoadSet(setup.policy, isets, icontents, h, idx, tag, inst);
      inst := charged;
      data := AddCopies(data, copies);
      InstLoadKeepsInv(setup, st, idx, tag);
    }

    /** A data store of tag into data set idx, whose occupancy is h. */
    method CalcDataStoreRefs(h: int, idx: nat, tag: nat)
      requires Valid() && idx < dsets.Length && h == dcontents[idx]
      modifies this, dsets, dcontents
      ensures Valid()
      ensures Abstract() == DataStore(setup, old(Abstract()), idx, tag)
    {
      ghost var st := Abstract();
      var charged, copies := StoreSet(setup.policy, dsets, dcontents, h, idx, tag, data);
      data := AddCopies(charged, copies);
      DataStoreKeepsInv(setup, st, idx, tag);
    }

    /**
      One reference: decodes the address (the data side reuses the
      instruction side's decoding when unified) and dispatches on the
      access type.
     */
    method PerformAccess(addr: Addr, kind: nat)
      requires Valid()
      modifies this, isets, dsets, icontents, dcontents
      ensures Valid()
      ensures Abstract() == Step(setup, old(Abstract()), addr, kind)
    {
      var uTag, uIdx, uHit := FetchInfo(setup.icache, setup.blockSize, icontents, addr);
      var dTag, dIdx, dHit;
      if setup.split {
        dTag, dIdx, dHit := FetchInfo(setup.dcache, setup.blockSize, dcontents, addr);
      } else {
        dTag, dIdx, dHit := uTag, uIdx, uHit;
      }
      if kind == 0 {
        CalcDataLoadRefs(dHit, dIdx, dTag);
      } else if kind == 1 {
        CalcDataStoreRefs(dHit, dIdx, dTag);
      } else if kind == 2 {
        CalcInsLoadRefs(uHit, uIdx, uTag);
      }
    }

    /**
      Walks every set of one cache from head to tail; each dirty line met
      costs a block of copies back, and the set's head line is made clean.
     */
    method FlushHelper(lists: array<seq<Line>>)
      requires Valid() && (lists == isets || lists == dsets)
      modifies this, lists
      ensures Valid()
      ensures lists[..] == FlushSets(old(lists[..]))
      ensures inst == old(inst)
      ensures data == AddCopies(old(data), setup.policy.words * DirtyLines(old(lists[..])))
    {
      ghost var sets := lists[..];
      data := FlushLists(lists, setup.policy.words, data);
      FlushSetsKeepShape(sets, |sets|, setup.policy.assoc);
      assert Lengths(lists[..]) == Lengths(sets);
    }

    /**
      A flush: the instruction (or unified) cache's sets are walked, then
      the data cache's sets, which are the same sets when unified.
     */
    method Flush()
      requires Valid()
      modifies this, isets, dsets
      ensures Valid()
      ensures Abstract() == FlushAll(setup, old(Abstract()))
    {
      FlushHelper(isets);
      FlushHelper(dsets);
    }
  }
}
