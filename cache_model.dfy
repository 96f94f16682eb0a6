/**
  The whole simulated memory system as a value: the instruction (or
  unified) cache's sets, the data cache's sets, and the instruction and
  data statistics. In unified mode the data side shares the instruction
  side's sets, so both components are always equal. One reference and a
  flush are functions of this state; the imperative simulator is proved
  to follow them.
 */
module CacheModel {
  import opened Bits
  import opened Geometry
  import opened LruList
  import opened Access
  import opened Flush
  import opened Config

  /**
    The fixed part, decided when the caches are built: whether they are
    split, the block size, the policy, and the geometry of the
    instruction (or unified) cache and of the data cache.
   */
  datatype Setup = Setup(
    split: bool,
    blockSize: nat,
    policy: Policy,
    icache: CacheGeometry,
    dcache: CacheGeometry)

  /** The changing part: the sets of both caches, most recent line first, and the statistics. */
  datatype State = State(
    isets: seq<seq<Line>>,
    dsets: seq<seq<Line>>,
    inst: Stats,
    data: Stats)

  /**
    Settings the caches can be built from: a power-of-two block size, at
    least one way, and each cache size (the unified size, or the
    instruction and data sizes when split) holding at least one set.
   */
  predicate SettingsOk(c: Settings) {
    if c.split then ValidShape(c.isize, c.blockSize, c.assoc) && ValidShape(c.dsize, c.blockSize, c.assoc)
    else ValidShape(c.usize, c.blockSize, c.assoc)
  }

  /**
    Building the caches: each geometry comes from its cache size; in
    unified mode both are derived from the unified size.
   */
  function Init(c: Settings): Setup
    requires SettingsOk(c)
  {
    var isize := if c.split then c.isize else c.usize;
    var dsize := if c.split then c.dsize else c.usize;
    Setup(c.split, c.blockSize as nat,
          Policy(c.assoc as nat, c.writeBack, c.writeAlloc, c.blockSize / 4),
          InitCacheHelper(isize, c.blockSize, c.assoc),
          InitCacheHelper(dsize, c.blockSize, c.assoc))
  }

  /** Empty sets, zeroed statistics. */
  function InitState(m: Setup): State {
    State(seq(m.icache.nSets, _ => []), seq(m.dcache.nSets, _ => []), NoStats, NoStats)
  }

  /** Geometries consistent with the block size and associativity; one geometry in unified mode. */
  predicate SetupOk(m: Setup) {
    Consistent(m.icache, m.blockSize) && Consistent(m.dcache, m.blockSize) &&
    m.icache.associativity == m.policy.assoc && m.dcache.associativity == m.policy.assoc &&
    (!m.split ==> m.dcache == m.icache)
  }

  /** n well-formed sets. */
  predicate SetsOk(sets: seq<seq<Line>>, n: nat, assoc: nat) {
    |sets| == n && forall i :: 0 <= i < |sets| ==> SetOk(sets[i], assoc)
  }

  /**
    The invariant of the simulator: one list per set, none longer than the
    associativity, tags distinct within a set, the data side equal to the
    instruction side in unified mode, and sensible counters.
   */
  predicate Inv(m: Setup, st: State) {
    SetupOk(m) &&
    SetsOk(st.isets, m.icache.nSets, m.policy.assoc) &&
    SetsOk(st.dsets, m.dcache.nSets, m.policy.assoc) &&
    (!m.split ==> st.dsets == st.isets) &&
    StatsOk(st.inst) && StatsOk(st.data)
  }

  /** Replaces data set idx; in unified mode that is the shared set. */
  function WithData(m: Setup, st: State, idx: nat, lines: seq<Line>): State
    requires idx < |st.dsets| && (!m.split ==> st.dsets == st.isets)
  {
    st.(isets := if m.split then st.isets else st.isets[idx := lines],
        dsets := st.dsets[idx := lines])
  }

  /** Replaces instruction set idx; in unified mode that is the shared set. */
  function WithInst(m: Setup, st: State, idx: nat, lines: seq<Line>): State
    requires idx < |st.isets| && (!m.split ==> st.dsets == st.isets)
  {
    st.(isets := st.isets[idx := lines],
        dsets := if m.split then st.dsets else st.dsets[idx := lines])
  }

  /** A data load of tag into data set idx, charged to the data statistics. */
  function DataLoad(m: Setup, st: State, idx: nat, tag: nat): State
    requires Inv(m, st) && idx < |st.dsets|
  {
    var o := Load(m.policy, st.dsets[idx], tag);
    WithData(m, st, idx, o.lines).(data := AddCopies(Charge(st.data, o), o.copiedBack))
  }

  /**
    An instruction fetch of tag into instruction set idx, charged to the
    instruction statistics, except that a dirty victim's copy-back is
    charged to the data statistics.
   */
  function InstLoad(m: Setup, st: State, idx: nat, tag: nat): State
    requires Inv(m, st) && idx < |st.isets|
  {
    var o := Load(m.policy, st.isets[idx], tag);
    WithInst(m, st, idx, o.lines).(inst := Charge(st.inst, o),
                                   data := AddCopies(st.data, o.copiedBack))
  }

  /** A data store of tag into data set idx, charged to the data statistics. */
  function DataStore(m: Setup, st: State, idx: nat, tag: nat): State
    requires Inv(m, st) && idx < |st.dsets|
  {
    var o := Store(m.policy, st.dsets[idx], tag);
    WithData(m, st, idx, o.lines).(data := AddCopies(Charge(st.data, o), o.copiedBack))
  }

  /** The decoding of addr on the data side: its own cache when split, the shared one otherwise. */
  function DataDecode(m: Setup, addr: Addr): Decoded
    requires m.icache.nSets >= 1 && m.dcache.nSets >= 1
  {
    if m.split then Decode(m.dcache, m.blockSize, addr) else Decode(m.icache, m.blockSize, addr)
  }

  /**
    One reference of the trace: 0 is a data load, 1 a data store, 2 an
    instruction fetch; any other type changes nothing.
   */
  function Step(m: Setup, st: State, addr: Addr, kind: nat): State
    requires Inv(m, st)
  {
    var i := Decode(m.icache, m.blockSize, addr);
    var d := DataDecode(m, addr);
    if kind == 0 then DataLoad(m, st, d.index, d.tag)
    else if kind == 1 then DataStore(m, st, d.index, d.tag)
    else if kind == 2 then InstLoad(m, st, i.index, i.tag)
    else st
  }

  /**
    A flush: the instruction (or unified) cache's sets are walked, then the
    data cache's sets, which in unified mode are the same sets walked a
    second time. Every dirty line met costs a block, charged to the data
    statistics.
   */
  function FlushAll(m: Setup, st: State): State {
    var isets := FlushSets(st.isets);
    var dBefore := if m.split then st.dsets else isets;
    var dsets := FlushSets(dBefore);
    var words := m.policy.words * DirtyLines(st.isets) + m.policy.words * DirtyLines(dBefore);
    State(if m.split then isets else dsets, dsets, st.inst, AddCopies(st.data, words))
  }

  // ---------------------------------------------------------------------
  // Building the caches

  /**
    Building the caches from usable settings gives a consistent setup with
    at least one set per cache, whose empty start state satisfies the
    invariant; in unified mode the two geometries coincide.
   */
  lemma InitOk(c: Settings)
    requires SettingsOk(c)
    ensures var m := Init(c);
      SetupOk(m) && m.icache.nSets >= 1 && m.dcache.nSets >= 1 &&
      m.split == c.split && Inv(m, InitState(m))
  {
    var isize := if c.split then c.isize else c.usize;
    var dsize := if c.split then c.dsize else c.usize;
    InitCacheHelperGeometry(isize, c.blockSize, c.assoc);
    InitCacheHelperGeometry(dsize, c.blockSize, c.assoc);
  }

  // ---------------------------------------------------------------------
  // The invariant is kept

  lemma WithDataKeepsSets(m: Setup, st: State, idx: nat, lines: seq<Line>)
    requires Inv(m, st) && idx < |st.dsets| && SetOk(lines, m.policy.assoc)
    ensures var st' := WithData(m, st, idx, lines);
      SetsOk(st'.isets, m.icache.nSets, m.policy.assoc) &&
      SetsOk(st'.dsets, m.dcache.nSets, m.policy.assoc) &&
      (!m.split ==> st'.dsets == st'.isets)
  {
  }

  lemma WithInstKeepsSets(m: Setup, st: State, idx: nat, lines: seq<Line>)
    requires Inv(m, st) && idx < |st.isets| && SetOk(lines, m.policy.assoc)
    ensures var st' := WithInst(m, st, idx, lines);
      SetsOk(st'.isets, m.icache.nSets, m.policy.assoc) &&
      SetsOk(st'.dsets, m.dcache.nSets, m.policy.assoc) &&
      (!m.split ==> st'.dsets == st'.isets)
  {
  }

  lemma DataLoadKeepsInv(m: Setup, st: State, idx: nat, tag: nat)
    requires Inv(m, st) && idx < |st.dsets|
    ensures Inv(m, DataLoad(m, st, idx, tag))
  {
    var o := Load(m.policy, st.dsets[idx], tag);
    LoadKeepsSetOk(m.policy, st.dsets[idx], tag);
    WithDataKeepsSets(m, st, idx, o.lines);
    ReplacementIsMiss(m.policy, st.dsets[idx], tag);
    ChargeKeepsStatsOk(st.data, o);
  }

  lemma InstLoadKeepsInv(m: Setup, st: State, idx: nat, tag: nat)
    requires Inv(m, st) && idx < |st.isets|
    ensures Inv(m, InstLoad(m, st, idx, tag))
  {
    var o := Load(m.policy, st.isets[idx], tag);
    LoadKeepsSetOk(m.policy, st.isets[idx], tag);
    WithInstKeepsSets(m, st, idx, o.lines);
    ReplacementIsMiss(m.policy, st.isets[idx], tag);
    ChargeKeepsStatsOk(st.inst, o);
  }

  lemma DataStoreKeepsInv(m: Setup, st: State, idx: nat, tag: nat)
    requires Inv(m, st) && idx < |st.dsets|
    ensures Inv(m, DataStore(m, st, idx, tag))
  {
    var o := Store(m.policy, st.dsets[idx], tag);
    StoreKeepsSetOk(m.policy, st.dsets[idx], tag);
    WithDataKeepsSets(m, st, idx, o.lines);
    ReplacementIsMiss(m.policy, st.dsets[idx], tag);
    ChargeKeepsStatsOk(st.data, o);
  }

  /** Every reference keeps the invariant: occupancy bounded, tags distinct, misses <= accesses. */
  lemma StepKeepsInv(m: Setup, st: State, addr: Addr, kind: nat)
    requires Inv(m, st)
    ensures Inv(m, Step(m, st, addr, kind))
  {
    var i := Decode(m.icache, m.blockSize, addr);
    var d := DataDecode(m, addr);
    if kind == 0 {
      DataLoadKeepsInv(m, st, d.index, d.tag);
    } else if kind == 1 {
      DataStoreKeepsInv(m, st, d.index, d.tag);
    } else if kind == 2 {
      InstLoadKeepsInv(m, st, i.index, i.tag);
    }
  }

  /** A flush keeps the invariant: it changes dirty bits only. */
  lemma FlushKeepsInv(m: Setup, st: State)
    requires Inv(m, st)
    ensures Inv(m, FlushAll(m, st))
  {
    var st' := FlushAll(m, st);
    forall i | 0 <= i < |st.isets| ensures SetOk(FlushSets(st.isets)[i], m.policy.assoc) {
      FlushSetKeepsTags(st.isets[i], m.policy.assoc);
    }
    forall i | 0 <= i < |st'.dsets| ensures SetOk(st'.dsets[i], m.policy.assoc) {
      var dBefore := if m.split then st.dsets else FlushSets(st.isets);
      FlushSetKeepsTags(dBefore[i], m.policy.assoc);
    }
  }

  // ---------------------------------------------------------------------
  // Accounting

  /**
    A data load or store adds one data access and at most one data miss
    and leaves the instruction statistics alone; an instruction fetch adds
    one instruction access and at most one instruction miss, and touches
    the data statistics only through copies back; any other access type
    changes nothing at all.
   */
  lemma StepAccounting(m: Setup, st: State, addr: Addr, kind: nat)
    requires Inv(m, st)
    ensures var st' := Step(m, st, addr, kind);
      (kind == 0 || kind == 1 ==>
        st'.data.accesses == st.data.accesses + 1 &&
        st.data.misses <= st'.data.misses <= st.data.misses + 1 &&
        st'.inst == st.inst) &&
      (kind == 2 ==>
        st'.inst.accesses == st.inst.accesses + 1 &&
        st.inst.misses <= st'.inst.misses <= st.inst.misses + 1 &&
        st'.data == st.data.(copiesBack := st'.data.copiesBack) &&
        st'.data.copiesBack >= st.data.copiesBack) &&
      (kind > 2 ==> st' == st)
  {
  }

  /** Every counter of b is at least the same counter of a. */
  predicate NoLess(a: Stats, b: Stats) {
    a.accesses <= b.accesses && a.misses <= b.misses && a.replacements <= b.replacements &&
    a.demandFetches <= b.demandFetches && a.copiesBack <= b.copiesBack
  }

  /** No reference ever decreases a counter of either stream. */
  lemma StepNeverDecreases(m: Setup, st: State, addr: Addr, kind: nat)
    requires Inv(m, st)
    ensures var st' := Step(m, st, addr, kind);
      NoLess(st.inst, st'.inst) && NoLess(st.data, st'.data)
  {
    var i := Decode(m.icache, m.blockSize, addr);
    var d := DataDecode(m, addr);
    if kind == 0 {
      assert Step(m, st, addr, kind) == DataLoad(m, st, d.index, d.tag);
    } else if kind == 1 {
      assert Step(m, st, addr, kind) == DataStore(m, st, d.index, d.tag);
    } else if kind == 2 {
      assert Step(m, st, addr, kind) == InstLoad(m, st, i.index, i.tag);
    }
  }

  /** A flush never decreases a counter either: it only adds copies back to the data stream. */
  lemma FlushNeverDecreases(m: Setup, st: State)
    ensures NoLess(st.inst, FlushAll(m, st).inst) && NoLess(st.data, FlushAll(m, st).data)
  {
    var dBefore := if m.split then st.dsets else FlushSets(st.isets);
    MulLeft(0, m.policy.words, DirtyLines(st.isets));
    MulLeft(0, m.policy.words, DirtyLines(dBefore));
  }

  /** The line an access leaves at the head of its set holds the accessed tag. */
  lemma HeadAfterAccess(m: Setup, st: State, addr: Addr, kind: nat)
    requires Inv(m, st)
    requires kind == 0 || kind == 2 || (kind == 1 && m.policy.writeAlloc)
    ensures var d := if kind == 2 then Decode(m.icache, m.blockSize, addr) else DataDecode(m, addr);
      var st' := Step(m, st, addr, kind);
      var sets := if kind == 2 then st'.isets else st'.dsets;
      d.index < |sets| && sets[d.index] != [] && sets[d.index][0].tag == d.tag
  {
    var i := Decode(m.icache, m.blockSize, addr);
    var d := DataDecode(m, addr);
    if kind == 0 {
      LoadPutsTagAtHead(m.policy, st.dsets[d.index], d.tag);
    } else if kind == 2 {
      LoadPutsTagAtHead(m.policy, st.isets[i.index], i.tag);
    } else {
      StorePutsTagAtHead(m.policy, st.dsets[d.index], d.tag);
    }
  }

  /** Under write-allocate a store, like a load, leaves the stored tag at the head. */
  lemma StorePutsTagAtHead(p: Policy, s: seq<Line>, tag: nat)
    requires p.writeAlloc
    ensures var o := Store(p, s, tag); o.lines != [] && o.lines[0].tag == tag
  {
    if Holds(s, tag) {
      StoreHitMarksLine(p, s, tag);
    } else {
      StoreAllocateMiss(p, s, tag);
    }
  }

  /**
    Temporal locality: right after a load, a fetch, or an allocating store
    of an address, any access to the same block by the same stream (or by
    either stream when the cache is unified) hits.
   */
  lemma ReaccessHits(m: Setup, st: State, a: Addr, b: Addr, first: nat, second: nat)
    requires Inv(m, st)
    requires first == 0 || first == 2 || (first == 1 && m.policy.writeAlloc)
    requires second <= 2 && (m.split ==> (first == 2) == (second == 2))
    requires a / m.blockSize == b / m.blockSize
    ensures Inv(m, Step(m, st, a, first))
    ensures var st1 := Step(m, st, a, first);
      var st2 := Step(m, st1, b, second);
      if second == 2 then st2.inst.misses == st1.inst.misses
      else st2.data.misses == st1.data.misses
  {
    var st1 := Step(m, st, a, first);
    StepKeepsInv(m, st, a, first);
    HeadAfterAccess(m, st, a, first);
    SameBlockSameDecode(m.icache, m.blockSize, a, b);
    SameBlockSameDecode(m.dcache, m.blockSize, a, b);
    HitOnHeadTag(m, st1, b, second);
  }

  /** An access whose tag heads its set hits. */
  lemma HitOnHeadTag(m: Setup, st: State, addr: Addr, kind: nat)
    requires Inv(m, st) && kind <= 2
    requires var d := if kind == 2 then Decode(m.icache, m.blockSize, addr) else DataDecode(m, addr);
      var sets := if kind == 2 then st.isets else st.dsets;
      sets[d.index] != [] && sets[d.index][0].tag == d.tag
    ensures var st' := Step(m, st, addr, kind);
      if kind == 2 then st'.inst.misses == st.inst.misses
      else st'.data.misses == st.data.misses
  {
    var i := Decode(m.icache, m.blockSize, addr);
    var d := DataDecode(m, addr);
    if kind == 2 {
      LoadMissIffAbsent(m.policy, st.isets[i.index], i.tag);
    } else {
      LoadMissIffAbsent(m.policy, st.dsets[d.index], d.tag);
      StoreMissIffAbsent(m.policy, st.dsets[d.index], d.tag);
    }
  }

  // ---------------------------------------------------------------------
  // Flush

  /**
    After a flush no set of either cache has a dirty head line, the
    statistics other than the data copies back are unchanged, and with
    split caches each dirty line costs exactly one block.
   */
  lemma FlushCleansHeads(m: Setup, st: State)
    requires Inv(m, st)
    ensures var st' := FlushAll(m, st);
      (forall i :: 0 <= i < |st'.isets| && st'.isets[i] != [] ==> !st'.isets[i][0].dirty) &&
      (forall i :: 0 <= i < |st'.dsets| && st'.dsets[i] != [] ==> !st'.dsets[i][0].dirty) &&
      st'.inst == st.inst && st'.data == st.data.(copiesBack := st'.data.copiesBack) &&
      (m.split ==> st'.data.copiesBack ==
                   st.data.copiesBack + m.policy.words * DirtyLines(st.isets) +
                   m.policy.words * DirtyLines(st.dsets))
  {
  }

  /** A flush keeps every set's length and well-formedness. */
  lemma FlushSetsKeepShape(sets: seq<seq<Line>>, n: nat, assoc: nat)
    ensures forall i :: 0 <= i < |sets| ==> |FlushSets(sets)[i]| == |sets[i]|
    ensures SetsOk(sets, n, assoc) ==> SetsOk(FlushSets(sets), n, assoc)
  {
    forall i | 0 <= i < |sets|
      ensures |FlushSets(sets)[i]| == |sets[i]|
      ensures SetOk(sets[i], assoc) ==> SetOk(FlushSets(sets)[i], assoc)
    {
      FlushSetKeepsTags(sets[i], assoc);
    }
  }

  /**
    In unified mode the shared sets are walked twice: every dirty line is
    counted twice, except dirty head lines, which the first walk cleaned.
   */
  lemma UnifiedFlushCountsTwice(m: Setup, st: State)
    requires !m.split
    ensures DirtyHeads(st.isets) <= DirtyLines(st.isets)
    ensures FlushAll(m, st).data.copiesBack ==
            st.data.copiesBack + m.policy.words * (2 * DirtyLines(st.isets) - DirtyHeads(st.isets))
  {
    DirtyLinesAfterFlush(st.isets);
    var d, h := DirtyLines(st.isets), DirtyHeads(st.isets);
    DistributeLeft(m.policy.words, d, d - h);
  }
}
