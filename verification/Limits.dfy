/** Shortest runs on which a hypothesis of the theorems is needed: each breaks a promise that holds
    exactly under the condition named in the lemma it refers to. */
module Limits {
  import opened MmuTypes
  import opened BlockManagers
  import opened BlockDirectories
  import opened ChunkPools
  import opened Contexts
  import opened Tiering
  import opened Api
  import opened Invariants
  import opened Paging
  import opened Steps
  import opened Lifecycle
  import opened Sharing
  import opened Batches
  import opened MapEffects
  import opened Refinement
  import opened Runs
  import opened Exactness
  import opened Clients
  import opened Isolation
  import opened Teardown

  /** Two blocks of one byte each. */
  const TINY := Config(2, 2, 2, 1, 1)

  /** Context 0 owns one block. */
  ghost function Started(os: Os): (s: Mmu)
    ensures Wf(s)
  {
    AllocateBlocks(CreateContext(Initial(TINY, os), 0), 0, 1).mmu
  }

  lemma StartedRun(os: Os)
    ensures Started(os) == Run(Initial(TINY, os), [Create(0), Grow(0, 1)])
  {
    hide CreateContext, AllocateBlocks, Initial, Wf;
    InitialCfg(TINY, os);
    var s := Initial(TINY, os);
    assert [Create(0)][..0] == [];
    assert Run(s, [Create(0)]) == CreateContext(s, 0);
    assert [Create(0), Grow(0, 1)][..1] == [Create(0)];
  }

  lemma EmptyFacts(os: Os)
    ensures var s := CreateContext(Initial(TINY, os), 0);
      && Good(s) && Views(s) == map[0 := []]
      && s == Mmu(TINY, FreshLedger(2), seq(2, i => DefaultMeta()), FreshPool(2), FreshPool(2), 0, 0, [], map[0 := []], os)
      && s.ledger.free == [1, 0] && s.ledger.refs == [0, 0]
  {
    StartSound(TINY, os);
    InitialCfg(TINY, os);
    CreateRefines(Initial(TINY, os), 0);
    hide PoolOk, Ledger.Valid, BlocksOk, HistoryOk, CountsOk, TablesOk, BoundsOk, Conserved, Views;
  }

  lemma StartedFacts(os: Os)
    ensures var s := Started(os);
      && Good(s) && s.cfg == TINY && s.os == os && Views(s) == map[0 := [Some(Zeros(1))]]
      && s.tables == map[0 := [0]] && s.ledger.refs == [1, 0] && s.ledger.free == [1]
      && s.l1 == FreshPool(2) && s.l2 == FreshPool(2)
      && |s.metas| == 2 && s.metas[0].resident && s.metas[0].pins == 0
  {
    hide PoolOk, Ledger.Valid, BlocksOk, HistoryOk, CountsOk, TablesOk, BoundsOk, Conserved, Views, Allocate,
         AllocateBlocks, FreshPool;
    EmptyFacts(os);
    var s := CreateContext(Initial(TINY, os), 0);
    AllocateRefines(s, 0, 1);
    assert [] + seq(1, i => Some(Zeros(1))) == [Some(Zeros(1))];
    AllocateShape(s, 0, 1);
    ExtendedEffect(s, 0, 1);
    var u := Extended(s, 0, 1);
    assert NextFree(s.ledger.free, 0) == [];
    assert NextFree(s.ledger.free, 1) == [0];
    assert [0][..0] == [];
    assert RegisterEach(u, [0]) == RegisterFreshBlock(u, 0);
    RegisterShape(u, 0);
    TakeFreeOne(s.ledger, s.tables[0]);
    assert s.tables[0 := s.tables[0] + [0]] == map[0 := [0]];
  }

  lemma TakeFreeOne(ledger: Ledger, table: seq<int>)
    requires ledger.Valid() && ledger.free == [1, 0] && ledger.refs == [0, 0]
    ensures var a := Allocate(ledger, table, 1);
      a.ledger.refs == [1, 0] && a.ledger.free == [1]
  {
    assert TakeFree(ledger, 0) == ledger;
    assert TakeFree(ledger, 1) == ledger.Allocated();
    assert [1, 0][..1] == [1];
  }

  /** Growing by two with one block left fails and leaves an entry for a block nobody owns
      (StepConserves says when). */
  lemma FailedGrowBreaksCounts(os: Os)
    ensures var s := Run(Initial(TINY, os), [Create(0), Grow(0, 1), Grow(0, 2)]);
      Core(s) && !Conserved(s.ledger, s.tables)
  {
    hide Core, Wf, Conserved, AllocateBlocks, Started;
    var actions := [Create(0), Grow(0, 1), Grow(0, 2)];
    assert actions[..2] == [Create(0), Grow(0, 1)];
    StartedRun(os);
    StartedFacts(os);
    InitialCore(TINY, os);
    RunCore(Initial(TINY, os), actions);
    StepConserves(Started(os), Grow(0, 2));
  }

  /** Resolving a mapped and an unmapped block fails but has written one route
      (FailedResolveLeavesOutput says when). */
  lemma FailedResolveWrites(os: Os)
    ensures var (status, written) := ResolveBatch(Started(os), 0, [0, 7]);
      status == Unallocated && |written| == 1
  {
    hide Wf, Conserved, Started, Resolve, BlocksOk, HistoryOk, CountsOk, TablesOk, BoundsOk;
    StartedFacts(os);
    var s := Started(os);
    ResolvesExactly(s, 0, 0);
    UnmappedUnallocated(s, 0, 7);
    ResolveEachExactly(s, 0, [0, 7]);
  }

  lemma UnmappedUnallocated(s: Mmu, h: Handle, l: nat)
    requires h in s.tables && |s.tables[h]| <= l <= INT_MAX
    ensures Resolve(s, h, l).status == Unallocated
  {
  }

  /** The block of context 0 mapped for writing, with its first byte set to 1, and then shared. */
  ghost function MappedBy(os: Os): (r: Mapped)
    ensures Wf(r.mmu)
  {
    MapLogicalBlock(Started(os), 0, 0, MAP_WRITE)
  }

  lemma MappedFacts(os: Os)
    requires os.Grants()
    ensures var r := MappedBy(os);
      var t := r.mmu;
      && r.status.Ok? && r.mapped.block == 0 && r.mapped.frame == t.l1.owner[0] != NONE
      && Good(t) && t.cfg == TINY && t.os == os.Asked() && Views(t) == map[0 := [Some(Zeros(1))]]
      && t.tables == map[0 := [0]] && t.ledger.refs == [1, 0] && t.ledger.free == [1] && t.l2 == FreshPool(2)
      && |t.metas| == 2 && t.metas[0].pins == 1 && r.mapped.logical == 0
  {
    hide PoolOk, Ledger.Valid, BlocksOk, HistoryOk, CountsOk, TablesOk, BoundsOk, Conserved, Views,
         PrepareBlockForWrite, MapResident, Started, FreshPool, Resolve;
    StartedFacts(os);
    var s := Started(os);
    ResolvesExactly(s, 0, 0);
    SoleIsNotShared(s, 0, 0);
    PrepareIdle(s, 0, 0);
    assert MapLogicalBlock(s, 0, 0, MAP_WRITE) == MapResident(s, 0, 0, MAP_WRITE);
    MapRefines(s, 0, 0, MAP_WRITE);
    MapStep(s, 0, 0, MAP_WRITE);
    FirstMap(s);
  }

  lemma SoleIsNotShared(s: Mmu, h: Handle, l: nat)
    requires Core(s) && h in s.tables && l < |s.tables[h]| && s.Has(s.tables[h][l]) && s.ledger.refs[s.tables[h][l]] == 1
    ensures !CopiesOnWrite(s, h, l) && !IsShared(s, h, l)
  {
    hide PoolOk, BlocksOk, HistoryOk, CountsOk, TablesOk, BoundsOk;
  }

  /** Mapping the only block for the first time asks for the first chunk. */
  lemma FirstMap(s: Mmu)
    requires Good(s) && s.cfg == TINY && s.os.Grants() && Resolve(s, 0, 0).status.Ok?
    requires s.tables == map[0 := [0]] && s.ledger.refs == [1, 0] && s.l1 == FreshPool(2) && s.metas[0].resident
    ensures var r := MapResident(s, 0, 0, MAP_WRITE);
      var t := r.mmu;
      && r.status.Ok? && r.mapped.block == 0 && r.mapped.frame == t.l1.owner[0] != NONE
      && t.cfg == s.cfg && t.os == s.os.Asked() && t.tables == s.tables && t.ledger == s.ledger && t.l2 == s.l2
  {
    hide PoolOk, Ledger.Valid, BlocksOk, HistoryOk, CountsOk, TablesOk, BoundsOk, Conserved, Reclaim;
    ResolveLive(s, 0, 0);
    ReclaimIdle(s, s.cfg.blocks);
    LiveBlock(s, 0);
    var u := Revisited(s, 0);
    assert EnsureResidentInL1(s, 0) == Outcome(Ok, u);
    assert s.l1.owner[0] == NONE && s.l1.free == [];
  }

  lemma LiveBlock(s: Mmu, p: int)
    requires Core(s) && s.Has(p) && s.ledger.refs[p] > 0
    ensures s.metas[p].live
  {
    assert BlockOk(s, p);
  }

  /** After the fork both contexts show the byte that context 0 wrote through its mapping. */
  ghost function Forked(os: Os): (s: Mmu)
    ensures Wf(s)
  {
    Step(MappedBy(os).mmu, Fork(0, 1)).mmu
  }

  lemma ForkedFacts(os: Os)
    requires os.Grants()
    ensures var s := Forked(os);
      && Good(s) && s.cfg == TINY && s.os == os.Asked()
      && s.tables == map[0 := [0], 1 := [0]] && |s.ledger.refs| == 2 && s.ledger.refs[0] == 2 && s.ledger.free == [1]
      && MappedBy(os).mapped.frame == s.l1.owner[0] != NONE && s.l2 == FreshPool(2)
      && Views(s) == map[0 := [Some(Zeros(1))], 1 := [Some(Zeros(1))]]
  {
    hide PoolOk, BlocksOk, HistoryOk, CountsOk, TablesOk, BoundsOk, Conserved, Views, MappedBy, FreshPool;
    MappedFacts(os);
    var t := MappedBy(os).mmu;
    assert 1 !in t.tables;
    ForkRefines(t, 0, 1);
    RetainEachCounts(t.ledger, [0], 0);
    assert multiset([0])[0] == 1;
  }

  /** A mapping made before a fork cannot be undone once the block was copied: the call is refused
      and the pin stays (UnmapEffect says when). */
  lemma StalePinStays(os: Os)
    requires os.Grants()
    ensures var s := Forked(os);
      var m := MappedBy(os).mapped;
      var t := PrepareBlockForWrite(s, 0, 0).mmu;
      && Releases(s, 0, m)
      && UnmapLogicalBlock(t, 0, m).mmu == t && |t.metas| == 2 && t.metas[0].pins == 1
  {
    hide Core, Wf, Conserved, MappedBy, Forked, FreshPool, Views, PrepareBlockForWrite, UnmapLogicalBlock, Releases;
    MappedFacts(os);
    ForkedFacts(os);
    PinKept(os);
    var s := Forked(os);
    CoreWf(s);
    SharedResolves(s);
    StaleMapping(s, 0, 0, MappedBy(os).mapped);
    PrepareStep(s, 0, 0);
    WfSizes(PrepareBlockForWrite(s, 0, 0).mmu);
  }

  lemma PinKept(os: Os)
    requires os.Grants()
    ensures |Forked(os).metas| == 2 && Forked(os).metas[0].pins == 1
  {
    hide Core, Wf, Conserved, MappedBy, FreshPool, Views;
    MappedFacts(os);
  }

  lemma SharedResolves(s: Mmu)
    requires Good(s) && s.cfg == TINY && s.tables == map[0 := [0], 1 := [0]] && s.ledger.refs[0] == 2 && s.ledger.free == [1]
    ensures CopiesOnWrite(s, 0, 0) && Resolve(s, 0, 0).route.block == 0
  {
    hide PoolOk, Ledger.Valid, HistoryOk, CountsOk, TablesOk, BoundsOk, Conserved;
    assert BlockOk(s, 0);
  }

  /** A store through a write mapping made before a fork reaches the other context as well
      (WriteIsolatedExactly says when). */
  lemma WriteAcrossForkLeaks(os: Os)
    requires os.Grants()
    ensures var s := Forked(os);
      var t := HostWrite(s, MappedBy(os).mapped.frame, 0, 1);
      && Views(s) == map[0 := [Some([0])], 1 := [Some([0])]]
      && Views(t) == map[0 := [Some([1])], 1 := [Some([1])]]
      && Good(t)
  {
    hide Core, Wf, Conserved, MappedBy, Forked, HostWrite, FreshPool, Content, Written, Views;
    ForkedFacts(os);
    var s := Forked(os);
    CoreWf(s);
    HostWriteViews(s, 0, 0, 1);
    assert Zeros(1) == [0];
    SharedByte(s);
  }

  lemma SharedByte(s: Mmu)
    requires Wf(s) && s.cfg == TINY && s.tables == map[0 := [0], 1 := [0]] && Views(s) == map[0 := [Some([0])], 1 := [Some([0])]]
    ensures (map h | h in s.tables :: Written(s, s.tables[h], 0, 0, 1)) == map[0 := [Some([1])], 1 := [Some([1])]]
  {
    hide Wf, Content;
    assert Views(s)[0] == ViewOf(s, s.tables[0]);
    assert ViewOf(s, s.tables[0])[0] == Some(Content(s, 0));
    assert WithByte([0], 0, 1) == [1];
    assert Written(s, [0], 0, 0, 1) == [Some([1])];
  }

  /** After the fork context 0 gets a block of its own; its old mapping still points at the other. */
  ghost function CopiedAway(os: Os): (s: Mmu)
    ensures Wf(s)
  {
    PrepareBlockForWrite(Forked(os), 0, 0).mmu
  }

  lemma CopiedAwayFacts(os: Os)
    requires os.Grants() && os.Asked().Grants()
    ensures var s := CopiedAway(os);
      && Good(s) && s.cfg == TINY && s.tables == map[0 := [1], 1 := [0]]
      && |s.ledger.refs| == 2 && s.ledger.refs[0] == 1
      && Views(s) == map[0 := [Some([0])], 1 := [Some([0])]]
      && MappedBy(os).mapped.frame == s.l1.owner[0] != NONE
      && MappedBy(os).mapped.block == 0 && MappedBy(os).mapped.logical == 0
  {
    hide Core, Wf, Conserved, MappedBy, Forked, Views, PrepareBlockForWrite, CopiesOnWrite;
    var s := Forked(os);
    ForkedFacts(os);
    MappedFacts(os);
    PinKept(os);
    CoreWf(s);
    SharedResolves(s);
    PrepareRefines(s, 0, 0);
    PrepareStep(s, 0, 0);
    CloneFailsExactly(s, 0, 0);
    PrepareContract(s, 0, 0);
    WfSizes(CopiedAway(os));
    assert PrepareBlockForWrite(s, 0, 0).block == 1;
    assert [0][0 := 1] == [1];
    assert s.tables[0 := s.tables[0][0 := 1]] == map[0 := [1], 1 := [0]];
    assert Zeros(1) == [0];
  }

  /** One owner is not enough: a store through a mapping that no longer names its block shows in the
      other context and not in its own (WriteIsolatedExactly says when). */
  lemma StaleWriteLeaks(os: Os)
    requires os.Grants() && os.Asked().Grants()
    ensures var s := CopiedAway(os);
      var m := MappedBy(os).mapped;
      && m.block == 0 && |s.ledger.refs| == 2 && s.ledger.refs[0] == 1 && !Names(s, 0, m)
      && Views(s) == map[0 := [Some([0])], 1 := [Some([0])]]
      && Views(HostWrite(s, m.frame, 0, 1)) == map[0 := [Some([0])], 1 := [Some([1])]]
  {
    hide Core, Wf, Conserved, MappedBy, CopiedAway, HostWrite, Content, Written, Views;
    CopiedAwayFacts(os);
    var s := CopiedAway(os);
    HostWriteViews(s, 0, 0, 1);
    SplitByte(s);
  }

  lemma SplitByte(s: Mmu)
    requires Wf(s) && s.cfg == TINY && s.tables == map[0 := [1], 1 := [0]]
    requires Views(s) == map[0 := [Some([0])], 1 := [Some([0])]]
    ensures (map h | h in s.tables :: Written(s, s.tables[h], 0, 0, 1)) == map[0 := [Some([0])], 1 := [Some([1])]]
  {
    hide Wf, Content;
    assert Views(s)[0] == ViewOf(s, s.tables[0]) && Views(s)[1] == ViewOf(s, s.tables[1]);
    assert ViewOf(s, s.tables[1])[0] == Some(Content(s, 0)) && ViewOf(s, s.tables[0])[0] == Some(Content(s, 1));
    assert WithByte([0], 0, 1) == [1];
    assert Written(s, [0], 0, 0, 1) == [Some([1])];
    assert Written(s, [1], 0, 0, 1) == [Some([0])];
  }

  ghost function WrittenAfterFork(os: Os): (s: Mmu)
    ensures Wf(s)
  {
    HostWrite(Forked(os), MappedBy(os).mapped.frame, 0, 1)
  }

  /** With the second chunk refused, a copy-on-write after that loses what the block held: the
      caller gets an error and its view reads as zeros (PrepareKeepsViewsExactly says when). */
  lemma FailedCloneLosesBytes(os: Os)
    requires os.Grants() && !os.Asked().Grants()
    ensures var s := WrittenAfterFork(os);
      var r := PrepareBlockForWrite(s, 1, 0);
      && Views(s) == map[0 := [Some([1])], 1 := [Some([1])]]
      && !r.status.Ok? && Views(r.mmu) == map[0 := [Some([1])], 1 := [Some([0])]]
  {
    hide Core, Wf, Conserved, MappedBy, Forked, HostWrite, Views, PrepareBlockForWrite, Content, FreshPool;
    ForkedFacts(os);
    WriteAcrossForkLeaks(os);
    var s := WrittenAfterFork(os);
    HostWriteEffect(Forked(os), MappedBy(os).mapped.frame, 0, 1);
    SharedCopies(s);
    PrepareRefines(s, 1, 0);
    ZeroedSlot(Views(s), s.cfg.blockSize);
  }

  lemma ZeroedSlot(v: Store, bs: nat)
    requires bs == 1 && v == map[0 := [Some([1])], 1 := [Some([1])]]
    ensures v[1 := v[1][0 := Some(Zeros(bs))]] == map[0 := [Some([1])], 1 := [Some([0])]]
  {
    assert Zeros(1) == [0];
    assert v[1][0 := Some([0])] == [Some([0])];
  }

  lemma SharedCopies(s: Mmu)
    requires Good(s) && s.cfg == TINY && s.tables == map[0 := [0], 1 := [0]] && s.ledger.refs[0] == 2 && s.ledger.free == [1]
    requires s.l2 == FreshPool(2) && !s.os.Grants()
    ensures CloneFails(s, 1, 0)
  {
    hide PoolOk, Ledger.Valid, HistoryOk, CountsOk, TablesOk, BoundsOk, Conserved;
    assert BlockOk(s, 0);
  }

  /** Unmapping what nobody mapped is not refused (UnmapFailsExactly says when it is). */
  lemma UnmapWithoutMapping(os: Os)
    ensures var s := Started(os);
      && |s.metas| == 2 && s.metas[0].pins == 0
      && UnmapLogicalBlock(s, 0, MappedBlock(NONE, 1, 0, 0, MAP_READ)).status.Ok?
  {
    hide Core, Wf, Conserved, Started, Views, Resolve, UnmapLogicalBlock, L2Exhausted;
    StartedFacts(os);
    var s := Started(os);
    CoreWf(s);
    ResolvesExactly(s, 0, 0);
    OnlyBlock(s);
    UnmapFailsExactly(s, 0, MappedBlock(NONE, 1, 0, 0, MAP_READ));
  }

  lemma OnlyBlock(s: Mmu)
    requires s.tables == map[0 := [0]] && Resolve(s, 0, 0).status.Ok?
    ensures Resolve(s, 0, 0).route.block == 0
  {
  }

  /** A second holder maps the block of context 0. */
  ghost function MappedTwice(os: Os): (r: Mapped)
    ensures Wf(r.mmu)
  {
    MapLogicalBlock(MappedBy(os).mmu, 0, 0, MAP_READ)
  }

  /** Undoing the second mapping twice succeeds both times and takes the pin of the first. */
  lemma SecondUnmapTakesOtherPin(os: Os)
    requires os.Grants() && os.Generous()
    ensures var s, m := MappedTwice(os).mmu, MappedTwice(os).mapped;
      var t := UnmapLogicalBlock(s, 0, m).mmu;
      var u := UnmapLogicalBlock(t, 0, m);
      && |s.metas| == |u.mmu.metas| == 2 && s.metas[0].pins == 2
      && u.status.Ok? && u.mmu.metas[0].pins == 0
  {
    hide Core, Wf, Conserved, MappedBy, Views, Resolve, UnmapLogicalBlock, L2Exhausted, MapLogicalBlock, Jammed,
         FramesKept, SharingStep, FreshPool;
    MappedFacts(os);
    var t := MappedBy(os).mmu;
    CoreWf(t);
    WfSizes(t);
    ResolvesExactly(t, 0, 0);
    OnlyBlock(t);
    PinnedFramed(t, 0);
    MapFailsExactly(t, 0, 0, MAP_READ);
    MapStep(t, 0, 0, MAP_READ);
    var s := MappedTwice(os);
    WfSizes(s.mmu);
    MappedOnly(s.mmu, s.mapped);
    UnmapTwice(s.mmu, 0, s.mapped);
  }

  lemma MappedOnly(s: Mmu, m: MappedBlock)
    requires Core(s) && MappedAt(s, 0, 0, MAP_READ, m) && s.tables == map[0 := [0]]
    ensures Releases(s, 0, m) && m.block == 0 && !HasWrite(m.flags)
  {
    hide Core, Wf;
    CoreWf(s);
    ResolveLive(s, 0, 0);
  }

  /** A run that allocates, maps and writes. */
  ghost function WritingRun(os: Os): seq<Action> {
    [Create(0), Grow(0, 1), MapOne(0, 0, MAP_WRITE), Write(0, MappedBy(os).mapped, 0, 1)]
  }

  /** The hypotheses of the main theorem are met by it. */
  lemma WritingRunIsWellBehaved(os: Os)
    requires os.Grants()
    ensures var c := Client(Initial(TINY, os), []);
      WellBehaved(c, WritingRun(os)) && Plentiful(c, WritingRun(os))
  {
    hide Core, Wf, Conserved, MappedBy, Started, Initial, CreateContext, AllocateBlocks, MapLogicalBlock,
         FreshPool, Views, ClientRun, ClientStep, WellBehaved, Plentiful;
    var c := Client(Initial(TINY, os), []);
    InitialCfg(TINY, os);
    NoAction(c);
    Longer(c, [], Create(0));
    CreatedClient(os);
    EmptyFacts(os);
    Longer(c, [] + [Create(0)], Grow(0, 1));
    GrownClient(os);
    Longer(c, [] + [Create(0)] + [Grow(0, 1)], MapOne(0, 0, MAP_WRITE));
    MappedFacts(os);
    MappedClient(os);
    var m := MappedBy(os).mapped;
    assert Granted(0, [m])[0] == Grant(0, m, true);
    Longer(c, [] + [Create(0)] + [Grow(0, 1)] + [MapOne(0, 0, MAP_WRITE)], Write(0, m, 0, 1));
    assert WritingRun(os) == [] + [Create(0)] + [Grow(0, 1)] + [MapOne(0, 0, MAP_WRITE)] + [Write(0, m, 0, 1)];
  }

  lemma NoAction(c: Client)
    requires Wf(c.mmu)
    ensures WellBehaved(c, []) && Plentiful(c, []) && ClientRun(c, []) == c
  {
    hide Wf;
  }

  /** One more step that is allowed and fits. */
  lemma Longer(c: Client, actions: seq<Action>, a: Action)
    requires Wf(c.mmu) && WellBehaved(c, actions) && Plentiful(c, actions)
    requires Allowed(ClientRun(c, actions), a) && Fits(ClientRun(c, actions).mmu, a)
    ensures WellBehaved(c, actions + [a]) && Plentiful(c, actions + [a])
    ensures ClientRun(c, actions + [a]) == ClientStep(ClientRun(c, actions), a)
  {
    hide Wf, Allowed, Fits, ClientStep;
    assert (actions + [a])[..|actions|] == actions;
  }

  lemma CreatedClient(os: Os)
    ensures ClientStep(Client(Initial(TINY, os), []), Create(0)) == Client(CreateContext(Initial(TINY, os), 0), [])
  {
    hide Core, Wf, Initial, CreateContext;
    InitialCfg(TINY, os);
  }

  lemma GrownClient(os: Os)
    ensures ClientStep(Client(CreateContext(Initial(TINY, os), 0), []), Grow(0, 1)) == Client(Started(os), [])
  {
    hide Core, Wf, Initial, CreateContext, AllocateBlocks;
  }

  lemma MappedClient(os: Os)
    requires MappedBy(os).status.Ok?
    ensures ClientStep(Client(Started(os), []), MapOne(0, 0, MAP_WRITE)).grants == Granted(0, [MappedBy(os).mapped])
    ensures HasWrite(MappedBy(os).mapped.flags)
  {
    hide Core, Wf, Started, MapResident, PrepareBlockForWrite, Resolve;
    StartedFacts(os);
    MapStep(Started(os), 0, 0, MAP_WRITE);
  }
}
