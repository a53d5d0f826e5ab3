/** Laws over whole runs that need no well-behaved client: conservation of reference counts, pin
    safety, and the way everything is given back in the end. */
module Teardown {
  import opened MmuTypes
  import opened BlockManagers
  import opened BlockDirectories
  import opened ChunkPools
  import opened Contexts
  import opened Tiering
  import opened Api
  import opened Invariants
  import opened Steps
  import opened Lifecycle
  import opened Sharing
  import opened Batches
  import opened Refinement
  import opened Runs

  /** The step does not allocate some blocks and then run out. */
  ghost predicate NoPartialGrow(s: Mmu, a: Action) {
    a.Grow? ==> a.h !in s.tables || a.num > INT_MAX || a.num <= |s.ledger.free| || s.ledger.free == []
  }

  ghost predicate NoPartialGrows(s: Mmu, actions: seq<Action>)
    requires Wf(s)
  {
    actions == [] ||
    (NoPartialGrows(s, actions[..|actions| - 1]) &&
     NoPartialGrow(Run(s, actions[..|actions| - 1]), actions[|actions| - 1]))
  }

  /** A step keeps the reference counts conserved exactly when it is not an allocation that runs
      out half way. */
  lemma StepConserves(s: Mmu, a: Action)
    requires Good(s)
    ensures Good(Step(s, a).mmu) <==> NoPartialGrow(s, a)
  {
    hide PoolOk, Ledger.Valid, BlocksOk, HistoryOk, CountsOk, TablesOk, BoundsOk, Conserved, Views, NextFree;
    hide CreateContext, DestroyContext, ForkContext, AllocateBlocks, ReleaseLogicalBlock, PrepareBlockForWrite,
         MapLogicalBlock, MapEach, UnmapLogicalBlock, UnmapLogicalBlocks, HostWrite;
    match a
    case Create(h) => if h !in s.tables { CreateRefines(s, h); }
    case Destroy(h) => DestroyGood(s, h);
    case Fork(h, child) => if child !in s.tables { ForkGood(s, h, child); }
    case Grow(h, num) => GrowConserves(s, h, num);
    case Shrink(h, l) => ReleaseRefines(s, h, l);
    case Prepare(h, l) => PrepareRefines(s, h, l);
    case MapOne(h, l, flags) => MapRefines(s, h, l, flags);
    case MapMany(h, ls, flags) =>
      MapEachGood(s, h, ls, flags);
      UnmapManyGood(MapEach(s, h, ls, flags).mmu, h, MapEach(s, h, ls, flags).done);
    case Unmap(h, m) => UnmapRefines(s, h, m);
    case UnmapMany(h, ms) => UnmapManyGood(s, h, ms);
    case Write(h, m, offset, value) => HostWriteEffect(s, m.frame, offset, value);
  }

  lemma DestroyGood(s: Mmu, h: Handle)
    requires Good(s)
    ensures Good(DestroyContext(s, h))
  {
    hide PoolOk, Ledger.Valid, BlocksOk, HistoryOk, CountsOk, TablesOk, BoundsOk, Conserved, Views;
    if h in s.tables {
      DestroyRefines(s, h);
    }
  }

  lemma ForkGood(s: Mmu, h: Handle, child: Handle)
    requires Good(s) && child !in s.tables
    ensures Good(ForkContext(s, h, child).mmu)
  {
    hide PoolOk, Ledger.Valid, BlocksOk, HistoryOk, CountsOk, TablesOk, BoundsOk, Conserved, Views;
    if h in s.tables {
      ForkRefines(s, h, child);
    }
  }

  lemma GrowConserves(s: Mmu, h: Handle, num: nat)
    requires Good(s)
    ensures Good(AllocateBlocks(s, h, num).mmu) <==> NoPartialGrow(s, Grow(h, num))
  {
    hide PoolOk, Ledger.Valid, BlocksOk, HistoryOk, CountsOk, TablesOk, BoundsOk, Conserved, Views, NextFree;
    AllocateCore(s, h, num);
    if h in s.tables && num <= INT_MAX {
      if num <= |s.ledger.free| {
        hide AllocateBlocks;
        AllocateRefines(s, h, num);
      } else {
        hide AllocateBlocks;
        FailedAllocationConserves(s, h, num);
      }
    }
  }

  lemma {:induction false} MapEachGood(s: Mmu, h: Handle, ls: seq<nat>, flags: nat)
    requires Good(s)
    ensures Good(MapEach(s, h, ls, flags).mmu)
  {
    hide PoolOk, Ledger.Valid, BlocksOk, HistoryOk, CountsOk, TablesOk, BoundsOk, Conserved, Views, MapLogicalBlock;
    if ls != [] {
      MapEachGood(s, h, ls[..|ls| - 1], flags);
      MapRefines(MapEach(s, h, ls[..|ls| - 1], flags).mmu, h, ls[|ls| - 1], flags);
    }
  }

  lemma {:induction false} UnmapManyGood(s: Mmu, h: Handle, ms: seq<MappedBlock>)
    requires Good(s)
    ensures Good(UnmapLogicalBlocks(s, h, ms).mmu)
  {
    hide PoolOk, Ledger.Valid, BlocksOk, HistoryOk, CountsOk, TablesOk, BoundsOk, Conserved, Views, UnmapLogicalBlock;
    if ms != [] {
      UnmapManyGood(s, h, ms[..|ms| - 1]);
      UnmapRefines(UnmapLogicalBlocks(s, h, ms[..|ms| - 1]).mmu, h, ms[|ms| - 1]);
    }
  }

  /** Reference counts equal the occurrences in the page tables after every run in which no
      allocation runs out half way. */
  lemma {:induction false} RunConserves(s: Mmu, actions: seq<Action>)
    requires Good(s) && NoPartialGrows(s, actions)
    ensures Good(Run(s, actions))
  {
    hide PoolOk, Ledger.Valid, BlocksOk, HistoryOk, CountsOk, TablesOk, BoundsOk, Conserved, Step, NoPartialGrow;
    if actions != [] {
      RunConserves(s, actions[..|actions| - 1]);
      StepConserves(Run(s, actions[..|actions| - 1]), actions[|actions| - 1]);
    }
  }

  /** A pinned block is live, resident and framed, and no step that leaves it owned moves it. */
  lemma StepPinSafe(s: Mmu, a: Action, p: int)
    requires Core(s) && s.Has(p) && s.metas[p].pins > 0
    ensures s.metas[p].live && s.metas[p].resident && s.l1.owner[p] != NONE && s.ledger.refs[p] > 0
    ensures var t := Step(s, a).mmu;
      t.cfg == s.cfg && (t.ledger.refs[p] > 0 ==> t.l1.owner[p] == s.l1.owner[p])
  {
    hide Core, Wf;
    CoreWf(s);
    WfSizes(s);
    WfSizes(Step(s, a).mmu);
    PinnedFramed(s, p);
    StepCfg(s, a);
    hide DestroyContext, AllocateBlocks, ReleaseLogicalBlock, PrepareBlockForWrite, MapLogicalBlock, MapEach,
         UnmapLogicalBlock, UnmapLogicalBlocks;
    match a
    case Create(h) =>
    case Destroy(h) =>
      if h in s.tables {
        DestroyEffect(s, h);
        assert Survives(s, DestroyContext(s, h), p);
      } else {
        DestroyNothing(s, h);
      }
    case Fork(h, child) =>
    case Grow(h, num) => GrowPinSafe(s, h, num, p);
    case Shrink(h, l) =>
      ReleaseEffect(s, h, l);
      assert ReleaseLogicalBlock(s, h, l).status.Ok? ==> Survives(s, ReleaseLogicalBlock(s, h, l).mmu, p);
    case Prepare(h, l) => PrepareStep(s, h, l);
    case MapOne(h, l, flags) => MapStep(s, h, l, flags);
    case MapMany(h, ls, flags) =>
      MapEachPins(s, h, ls, flags);
      UnmapManyKeepsL1(MapEach(s, h, ls, flags).mmu, h, MapEach(s, h, ls, flags).done);
    case Unmap(h, m) => UnmapKeepsL1(s, h, m);
    case UnmapMany(h, ms) => UnmapManyKeepsL1(s, h, ms);
    case Write(h, m, offset, value) =>
  }

  lemma PinnedFramed(s: Mmu, p: int)
    requires Core(s) && s.Has(p) && s.metas[p].pins > 0
    ensures s.metas[p].live && s.metas[p].resident && s.l1.owner[p] != NONE && s.ledger.refs[p] > 0
  {
    assert BlockOk(s, p);
  }

  lemma {:induction false} UnmapManyKeepsL1(s: Mmu, h: Handle, ms: seq<MappedBlock>)
    requires Wf(s)
    ensures UnmapLogicalBlocks(s, h, ms).mmu.l1 == s.l1
  {
    hide Wf, UnmapLogicalBlock;
    if ms != [] {
      UnmapManyKeepsL1(s, h, ms[..|ms| - 1]);
      UnmapKeepsL1(UnmapLogicalBlocks(s, h, ms[..|ms| - 1]).mmu, h, ms[|ms| - 1]);
    }
  }

  lemma GrowPinSafe(s: Mmu, h: Handle, num: nat, p: int)
    requires Core(s) && s.Has(p) && s.ledger.refs[p] > 0
    ensures var t := AllocateBlocks(s, h, num).mmu;
      t.cfg == s.cfg && t.l1.owner[p] == s.l1.owner[p]
  {
    hide PoolOk, Ledger.Valid, BlocksOk, HistoryOk, CountsOk, TablesOk, BoundsOk, NextFree;
    GrowCfg(s, h, num);
    if h in s.tables && num <= INT_MAX {
      hide AllocateBlocks;
      if num <= |s.ledger.free| {
        AllocateEffect(s, h, num);
        GrownKeeps(s, AllocateBlocks(s, h, num).mmu, h, NextFree(s.ledger.free, num), p);
      } else {
        AllocateFails(s, h, num);
        assert SameAt(s, AllocateBlocks(s, h, num).mmu, p);
      }
    }
  }

  lemma GrownKeeps(s: Mmu, t: Mmu, h: Handle, blocks: seq<int>, p: int)
    requires Wf(s) && Wf(t) && Grown(s, t, h, blocks) && s.Has(p) && s.ledger.refs[p] > 0
    ensures t.l1.owner[p] == s.l1.owner[p]
  {
    hide PoolOk, Ledger.Valid, Content;
    assert p !in blocks;
    assert SameAt(s, t, p);
  }

  /** Pin safety: while a block stays pinned, a pointer to its frame stays a pointer to its storage,
      whatever anybody does. */
  lemma {:induction false} RunPinSafe(s: Mmu, actions: seq<Action>, p: int)
    requires Core(s) && s.Has(p)
    requires forall k :: 0 <= k <= |actions| ==> PinnedIn(Run(s, actions[..k]), p)
    ensures var t := Run(s, actions);
      p < |t.l1.owner| && t.l1.owner[p] == s.l1.owner[p] != NONE
  {
    hide PoolOk, Ledger.Valid, BlocksOk, HistoryOk, CountsOk, TablesOk, BoundsOk, Step;
    assert actions[..|actions|] == actions;
    assert PinnedIn(Run(s, actions[..0]), p);
    StepPinSafe(s, Destroy(0), p);
    if actions != [] {
      var before := actions[..|actions| - 1];
      forall k | 0 <= k <= |before|
        ensures PinnedIn(Run(s, before[..k]), p)
      {
        assert before[..k] == actions[..k];
      }
      RunPinSafe(s, before, p);
      RunCore(s, before);
      RunCfg(s, before);
      assert before[..|before|] == before;
      StepPinSafe(Run(s, before), actions[|actions| - 1], p);
      RunCore(s, actions);
      PinnedFramed(Run(s, actions), p);
    }
  }

  ghost predicate PinnedIn(s: Mmu, p: int) {
    0 <= p < |s.metas| && s.metas[p].pins > 0
  }

  /** A mapping made before a copy-on-write of its logical block can no longer be undone: the pin
      stays on the old block. */
  lemma StaleMapping(s: Mmu, h: Handle, l: nat, m: MappedBlock)
    requires Core(s) && CopiesOnWrite(s, h, l) && m.logical == l && m.block == Resolve(s, h, l).route.block
    ensures Releases(s, h, m)
    ensures var t := PrepareBlockForWrite(s, h, l).mmu;
      !Releases(t, h, m) && UnmapLogicalBlock(t, h, m).mmu == t
      && s.Has(m.block) && t.metas[m.block].pins == s.metas[m.block].pins
  {
    hide PoolOk, Ledger.Valid, BlocksOk, HistoryOk, CountsOk, TablesOk, BoundsOk, PrepareBlockForWrite,
         CopiesOnWrite, Content, UnmapLogicalBlock;
    ResolvesToBlock(s, h, l);
    CopyEffect(s, h, l);
    PrepareStep(s, h, l);
    var t := PrepareBlockForWrite(s, h, l).mmu;
    UnmapEffect(t, h, m);
  }

  lemma ResolvesToBlock(s: Mmu, h: Handle, l: nat)
    requires Core(s) && CopiesOnWrite(s, h, l)
    ensures Resolve(s, h, l).status.Ok? && s.ledger.Has(Resolve(s, h, l).route.block)
  {
    ResolveLive(s, h, l);
  }

  /** A distinct list of numbers below `n` that contains them all has length `n`. */
  lemma {:induction false} CoversAll(list: seq<int>, n: nat)
    requires Distinct(list) && forall i :: 0 <= i < |list| ==> 0 <= list[i] < n
    requires forall p :: 0 <= p < n ==> p in list
    ensures |list| == n
  {
    if n > 0 {
      assert n - 1 in list;
      var i :| 0 <= i < |list| && list[i] == n - 1;
      RemoveAtLaws(list, i);
      CoversAll(RemoveAt(list, i), n - 1);
    } else {
      NeedsRoom(list, n);
    }
  }

  lemma NeedsRoom(list: seq<int>, n: int)
    requires forall i :: 0 <= i < |list| ==> 0 <= list[i] < n
    ensures list == [] || n > 0
  {
    assert list != [] ==> 0 <= list[0] < n;
  }

  /** Without contexts everything has been given back. */
  lemma EmptyIsQuiescent(s: Mmu)
    requires Good(s) && s.tables == map[]
    ensures |s.ledger.free| == s.cfg.blocks && Distinct(s.ledger.free)
    ensures forall p :: s.Has(p) ==> s.ledger.refs[p] == 0 && s.metas[p] == DefaultMeta()
                                     && s.l1.owner[p] == NONE && s.l2.owner[p] == NONE
    ensures s.residents == 0 && s.l1.committed == 0 && s.l2.committed == 0
  {
    forall p | s.Has(p)
      ensures s.ledger.refs[p] == 0 && s.metas[p] == DefaultMeta() && s.l1.owner[p] == NONE && s.l2.owner[p] == NONE
    {
      assert s.ledger.refs[p] == Occurrences(s.tables, p);
      assert BlockOk(s, p);
    }
    CoversAll(s.ledger.free, s.cfg.blocks);
    hide BlocksOk, HistoryOk, TablesOk, BoundsOk, Ledger.Valid, Conserved;
    CountBounds(s.metas, IsResident);
    CountBounds(s.l1.owner, IsFrame);
    CountBounds(s.l2.owner, IsFrame);
  }

  /** Destroying one context takes away exactly its own references: a block is freed, down to default
      metadata, when nobody else refers to it, and otherwise loses as many owners as the context
      had entries for it. */
  lemma DestroyReleasesExactly(s: Mmu, h: Handle, p: int)
    requires Good(s) && h in s.tables && s.Has(p)
    ensures var t := DestroyContext(s, h);
      && |t.metas| == |t.ledger.refs| == s.cfg.blocks
      && t.ledger.refs[p] == s.ledger.refs[p] - multiset(s.tables[h])[p] >= 0
      && (t.ledger.refs[p] == 0 <==> t.metas[p] == DefaultMeta())
      && (p in t.ledger.free <==> Occurrences(s.tables - {h}, p) == 0)
  {
    DestroyEffect(s, h);
    DropConserves(s.ledger, s.tables, h);
    OccurrencesSplit(s.tables, h, p);
    hide DestroyContext, PoolOk, HistoryOk, CountsOk, TablesOk, BoundsOk, Occurrences;
    var t := DestroyContext(s, h);
    assert BlockOk(t, p);
    FreeIsUnowned(t.ledger, p);
  }

  /** The blocks it frees are handed out again in the reverse order of their last entries, before those
      that were free already. */
  lemma DestroyFreesInOrder(s: Mmu, h: Handle)
    requires Good(s) && h in s.tables
    ensures var free := DestroyContext(s, h).ledger.free;
      s.ledger.free <= free && ByLastMention(s.tables[h], free[|s.ledger.free|..])
  {
    hide PoolOk, BlocksOk, HistoryOk, CountsOk, TablesOk, BoundsOk, DestroyContext, Occurrences, ByLastMention;
    DestroyEffect(s, h);
    forall p | s.ledger.Has(p)
      ensures s.ledger.refs[p] >= multiset(s.tables[h])[p]
    {
      OccurrencesSplit(s.tables, h, p);
    }
    FreedInOrder(s.ledger, s.tables[h]);
  }

  lemma FreeIsUnowned(ledger: Ledger, p: int)
    requires ledger.Valid() && ledger.Has(p)
    ensures p in ledger.free <==> ledger.refs[p] == 0
  {
  }

  ghost function DestroyEach(hs: seq<Handle>): seq<Action> {
    seq(|hs|, i requires 0 <= i < |hs| => Destroy(hs[i]))
  }

  lemma {:induction false} DestroyEachEffect(s: Mmu, hs: seq<Handle>)
    requires Good(s)
    ensures var t := Run(s, DestroyEach(hs));
      && Good(t) && t.cfg == s.cfg
      && (forall g :: g in t.tables <==> g in s.tables && g !in hs)
      && (forall g :: g in t.tables ==> Views(t)[g] == Views(s)[g])
  {
    hide PoolOk, Ledger.Valid, BlocksOk, HistoryOk, CountsOk, TablesOk, BoundsOk, Conserved, DestroyContext, ViewOf;
    if hs != [] {
      var hs0, h := hs[..|hs| - 1], hs[|hs| - 1];
      DestroyEachEffect(s, hs0);
      var u := Run(s, DestroyEach(hs0));
      assert DestroyEach(hs)[..|hs| - 1] == DestroyEach(hs0);
      assert Run(s, DestroyEach(hs)) == DestroyContext(u, h);
      assert hs == hs0 + [h];
      if h in u.tables {
        DestroyRefines(u, h);
        DestroyEffect(u, h);
      } else {
        DestroyNothing(u, h);
      }
    }
  }

  /** Destroying every context, in any order and whatever is pinned, gives everything back. */
  lemma TeardownRestores(s: Mmu, hs: seq<Handle>)
    requires Good(s) && forall h :: h in s.tables ==> h in hs
    ensures var t := Run(s, DestroyEach(hs));
      && t.tables == map[]
      && |t.ledger.free| == s.cfg.blocks && Distinct(t.ledger.free)
      && |t.metas| == s.cfg.blocks && (forall p :: s.Has(p) ==> t.metas[p] == DefaultMeta())
      && t.residents == 0 && t.l1.committed == 0 && t.l2.committed == 0
  {
    hide PoolOk, Ledger.Valid, BlocksOk, HistoryOk, CountsOk, TablesOk, BoundsOk, Conserved, Run, ViewOf;
    DestroyEachEffect(s, hs);
    EmptyIsQuiescent(Run(s, DestroyEach(hs)));
  }

  /** The batch resolver writes exactly the routes of the longest resolvable prefix. */
  lemma {:induction false} ResolveEachExactly(s: Mmu, h: Handle, ls: seq<nat>)
    ensures var (status, written) := ResolveEach(s, h, ls);
      && |written| <= |ls|
      && (forall i :: 0 <= i < |written| ==> Resolve(s, h, ls[i]) == Resolved(Ok, written[i]))
      && (status.Ok? <==> |written| == |ls|)
      && (!status.Ok? ==> status == Resolve(s, h, ls[|written|]).status)
  {
    hide Resolve;
    if ls != [] {
      var ls0 := ls[..|ls| - 1];
      assert forall i :: 0 <= i < |ls0| ==> ls0[i] == ls[i];
      ResolveEachExactly(s, h, ls0);
    }
  }

  /** The header promises that a failing batch leaves the output array alone; it does so exactly
      when the very first block fails to resolve (or the context is unknown). */
  lemma FailedResolveLeavesOutput(s: Mmu, h: Handle, ls: seq<nat>)
    requires !ResolveBatch(s, h, ls).0.Ok?
    ensures ResolveBatch(s, h, ls).1 == [] <==> (h !in s.tables || !Resolve(s, h, ls[0]).status.Ok?)
  {
    ResolveEachExactly(s, h, ls);
  }
}
