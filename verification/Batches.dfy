/** Mapping and unmapping as pins on blocks, and the rollback of a failed batch. */
module Batches {
  import opened MmuTypes
  import opened BlockManagers
  import opened ChunkPools
  import opened Contexts
  import opened Tiering
  import opened Api
  import opened Invariants
  import opened Paging
  import opened Steps

  /** One more pin on `p` and no other change of pins; with `p` NONE no change at all. */
  ghost predicate PinsUp(s: Mmu, t: Mmu, p: int)
    requires Wf(s) && Wf(t) && t.cfg == s.cfg
  {
    forall x :: s.Has(x) ==> t.metas[x].pins == s.metas[x].pins + if x == p then 1 else 0
  }

  /** Pin safety: the frame of a pinned block does not move. */
  ghost predicate FramesKept(s: Mmu, t: Mmu)
    requires Wf(s) && Wf(t) && t.cfg == s.cfg
  {
    forall x :: s.Has(x) && s.metas[x].pins > 0 ==> t.l1.owner[x] == s.l1.owner[x]
  }

  /** Either ownership is as before or `(h, l)` got a block of its own. */
  ghost predicate SharingStep(s: Mmu, t: Mmu, h: Handle, l: nat)
    requires Wf(s) && Wf(t)
  {
    || (t.tables == s.tables && t.ledger == s.ledger)
    || (CopiesOnWrite(s, h, l) &&
        var p, q := Resolve(s, h, l).route.block, NextBlock(s);
        && s.Has(p) && s.Has(q) && p != q && h in s.tables && l < |s.tables[h]| && s.tables[h][l] == p
        && s.ledger.refs[p] > 1 && s.ledger.refs[q] == 0
        && t.tables == s.tables[h := s.tables[h][l := q]]
        && t.ledger.refs == s.ledger.refs[q := 1][p := s.ledger.refs[p] - 1])
  }

  /** The mapping returned by a successful call. */
  ghost predicate MappedAt(t: Mmu, h: Handle, l: nat, flags: nat, m: MappedBlock)
    requires Wf(t)
  {
    && t.Has(m.block) && t.ledger.refs[m.block] > 0
    && m == MappedBlock(t.l1.owner[m.block], t.cfg.blockSize, m.block, l, flags)
    && Releases(t, h, m)
    && (HasWrite(flags) ==> t.ledger.refs[m.block] == 1)
  }

  /** What a prepare call does to pins, frames and ownership. */
  ghost predicate PrepareDone(s: Mmu, t: Mmu, h: Handle, l: nat, ok: bool, block: int)
    requires Wf(s) && Wf(t)
  {
    && t.cfg == s.cfg && PinsUp(s, t, NONE) && FramesKept(s, t) && SharingStep(s, t, h, l)
    && (ok ==>
          && h in t.tables && l < |t.tables[h]|
          && t.tables[h][l] == block && t.Has(block) && t.ledger.refs[block] == 1)
  }

  lemma PrepareStep(s: Mmu, h: Handle, l: nat)
    requires Core(s)
    ensures var r := PrepareBlockForWrite(s, h, l);
      Core(r.mmu) && PrepareDone(s, r.mmu, h, l, r.status.Ok?, r.block)
  {
    hide PoolOk, Ledger.Valid, BlocksOk, HistoryOk, CountsOk, TablesOk, BoundsOk, PrepareBlockForWrite,
         CopiesOnWrite, Copied, PrepareDone, Resolve;
    if CopiesOnWrite(s, h, l) {
      CopyEffect(s, h, l);
      var r := PrepareBlockForWrite(s, h, l);
      CopiedDone(s, r.mmu, h, l, r.status.Ok?, r.block);
    } else {
      PrepareIdleDone(s, h, l);
    }
  }

  lemma CopiedDone(s: Mmu, t: Mmu, h: Handle, l: nat, ok: bool, block: int)
    requires Wf(s) && Wf(t) && CopiesOnWrite(s, h, l)
    requires Copied(s, t, h, l, Resolve(s, h, l).route.block, NextBlock(s), ok) && (ok ==> block == NextBlock(s))
    ensures PrepareDone(s, t, h, l, ok, block)
  {
    hide PoolOk, Ledger.Valid, CopiesOnWrite, Content, L1Page, L2Page, Resolve;
    forall x | s.Has(x)
      ensures t.metas[x].pins == s.metas[x].pins
      ensures s.metas[x].pins > 0 ==> t.l1.owner[x] == s.l1.owner[x]
    {
      assert x != NextBlock(s) ==> SameAt(s, t, x);
    }
  }

  lemma PrepareIdleDone(s: Mmu, h: Handle, l: nat)
    requires Core(s) && !CopiesOnWrite(s, h, l)
    ensures var r := PrepareBlockForWrite(s, h, l);
      Core(r.mmu) && PrepareDone(s, r.mmu, h, l, r.status.Ok?, r.block)
  {
    hide PoolOk, Ledger.Valid, BlocksOk, HistoryOk, CountsOk, TablesOk, BoundsOk, PrepareBlockForWrite,
         CopiesOnWrite, Resolve;
    PrepareIdle(s, h, l);
    if Resolve(s, h, l).status.Ok? {
      ResolveLive(s, h, l);
    }
  }

  lemma MapResidentStep(s: Mmu, h: Handle, l: nat, flags: nat)
    requires Core(s)
    requires HasWrite(flags) ==> h in s.tables && l < |s.tables[h]| && s.Has(s.tables[h][l]) && s.ledger.refs[s.tables[h][l]] == 1
    ensures var r := MapResident(s, h, l, flags);
      && Core(r.mmu) && r.mmu.cfg == s.cfg && r.mmu.tables == s.tables && r.mmu.ledger == s.ledger
      && PinsUp(s, r.mmu, if r.status.Ok? then r.mapped.block else NONE) && FramesKept(s, r.mmu)
      && (r.status.Ok? ==> MappedAt(r.mmu, h, l, flags, r.mapped))
  {
    hide PoolOk, Ledger.Valid, BlocksOk, HistoryOk, CountsOk, TablesOk, BoundsOk, MapResident, Content, Resolve,
         Repinned, Transparent, MappedAt, HasWrite;
    MapResidentEffect(s, h, l, flags);
    var r := MapResident(s, h, l, flags);
    var p := Resolve(s, h, l).route.block;
    if r.status.Ok? {
      RepinnedPins(s, r.mmu, p);
      MappedResident(s, r.mmu, h, l, flags, r.mapped);
    } else {
      TransparentPins(s, r.mmu);
    }
  }

  lemma RepinnedPins(s: Mmu, t: Mmu, p: int)
    requires Wf(s) && Wf(t) && s.Has(p) && Repinned(s, t, p, s.metas[p].pins + 1)
    ensures t.cfg == s.cfg && PinsUp(s, t, p) && FramesKept(s, t) && t.tables == s.tables && t.ledger == s.ledger
  {
    hide PoolOk, Ledger.Valid, Content;
    forall x | s.Has(x)
      ensures t.metas[x].pins == s.metas[x].pins + if x == p then 1 else 0
      ensures s.metas[x].pins > 0 ==> t.l1.owner[x] == s.l1.owner[x]
    {
      assert x != p ==> Unnoticed(s, t, x);
    }
  }

  lemma TransparentPins(s: Mmu, t: Mmu)
    requires Wf(s) && Wf(t) && Transparent(s, t)
    ensures t.cfg == s.cfg && PinsUp(s, t, NONE) && FramesKept(s, t) && t.tables == s.tables && t.ledger == s.ledger
  {
    hide PoolOk, Ledger.Valid, Content;
    forall x | s.Has(x)
      ensures t.metas[x].pins == s.metas[x].pins
      ensures s.metas[x].pins > 0 ==> t.l1.owner[x] == s.l1.owner[x]
    {
      assert Unnoticed(s, t, x);
    }
  }

  lemma MappedResident(s: Mmu, t: Mmu, h: Handle, l: nat, flags: nat, m: MappedBlock)
    requires Core(s) && Core(t) && t.cfg == s.cfg && t.tables == s.tables && t.ledger == s.ledger
    requires Resolve(s, h, l).status.Ok? && m.block == Resolve(s, h, l).route.block && t.Has(m.block)
    requires m == MappedBlock(t.l1.owner[m.block], t.cfg.blockSize, m.block, l, flags)
    requires HasWrite(flags) ==> h in s.tables && l < |s.tables[h]| && s.Has(s.tables[h][l]) && s.ledger.refs[s.tables[h][l]] == 1
    ensures MappedAt(t, h, l, flags, m)
  {
    hide PoolOk, Ledger.Valid, BlocksOk, HistoryOk, CountsOk, TablesOk, BoundsOk, Resolve, HasWrite;
    ResolveLive(s, h, l);
    StillResolves(s, t, h, l);
  }

  /** Resolution depends on the tables and on who is owned. */
  lemma StillResolves(s: Mmu, t: Mmu, h: Handle, l: nat)
    requires Core(s) && Core(t) && t.cfg == s.cfg && Resolve(s, h, l).status.Ok?
    requires h in t.tables && Entry(t.tables[h], l) == Entry(s.tables[h], l)
    requires var p := Resolve(s, h, l).route.block; 0 <= p < |t.ledger.refs| && t.ledger.refs[p] > 0
    ensures Resolve(t, h, l).status.Ok? && Resolve(t, h, l).route.block == Resolve(s, h, l).route.block
  {
    hide PoolOk, HistoryOk, CountsOk, BoundsOk, TablesOk;
    var p := Resolve(s, h, l).route.block;
    assert BlockOk(t, p);
  }

  /** The effect of one map call on pins, frames and ownership, on success and on failure. */
  lemma MapStep(s: Mmu, h: Handle, l: nat, flags: nat)
    requires Core(s)
    ensures var r := MapLogicalBlock(s, h, l, flags);
      && Core(r.mmu) && r.mmu.cfg == s.cfg
      && PinsUp(s, r.mmu, if r.status.Ok? then r.mapped.block else NONE)
      && FramesKept(s, r.mmu)
      && SharingStep(s, r.mmu, h, l)
      && (!HasWrite(flags) ==> r.mmu.tables == s.tables && r.mmu.ledger == s.ledger)
      && (r.status.Ok? ==> MappedAt(r.mmu, h, l, flags, r.mapped))
  {
    hide PoolOk, Ledger.Valid, BlocksOk, HistoryOk, CountsOk, TablesOk, BoundsOk, MapResident,
         PrepareBlockForWrite, Resolve, MappedAt, SharingStep, HasWrite, ValidFlags;
    if ValidFlags(flags) && h in s.tables && l <= INT_MAX {
      if HasWrite(flags) {
        PrepareStep(s, h, l);
        var u := PrepareBlockForWrite(s, h, l);
        if u.status.Ok? {
          MapResidentStep(u.mmu, h, l, flags);
          SharingStepThen(s, u.mmu, MapResident(u.mmu, h, l, flags).mmu, h, l);
        }
      } else {
        MapResidentStep(s, h, l, flags);
        SharingStepNone(s, MapResident(s, h, l, flags).mmu, h, l);
      }
    } else {
      SharingStepNone(s, s, h, l);
    }
  }

  lemma SharingStepThen(s: Mmu, u: Mmu, t: Mmu, h: Handle, l: nat)
    requires Wf(s) && Wf(u) && Wf(t) && SharingStep(s, u, h, l) && t.tables == u.tables && t.ledger == u.ledger
    ensures SharingStep(s, t, h, l)
  {
  }

  lemma SharingStepNone(s: Mmu, t: Mmu, h: Handle, l: nat)
    requires Wf(s) && Wf(t) && t.tables == s.tables && t.ledger == s.ledger
    ensures SharingStep(s, t, h, l)
  {
  }

  /** A mapping that can be undone stays so across any other map call, provided a write mapping is
      to a block with one owner. */
  lemma MapKeepsRelease(s: Mmu, h: Handle, l: nat, flags: nat, m: MappedBlock)
    requires Core(s) && Releases(s, h, m) && (HasWrite(flags) ==> s.ledger.refs[m.block] == 1)
    ensures var t := MapLogicalBlock(s, h, l, flags).mmu;
      Wf(t) && t.cfg == s.cfg && Releases(t, h, m) && t.ledger.refs[m.block] == s.ledger.refs[m.block]
  {
    hide PoolOk, Ledger.Valid, BlocksOk, HistoryOk, CountsOk, TablesOk, BoundsOk, MapLogicalBlock, Resolve,
         HasWrite, SharingStep;
    MapStep(s, h, l, flags);
    var t := MapLogicalBlock(s, h, l, flags).mmu;
    if t.tables == s.tables && t.ledger == s.ledger {
      ResolveLive(s, h, m.logical);
      StillResolves(s, t, h, m.logical);
    } else {
      SharingKeepsRelease(s, t, h, l, m);
    }
  }

  lemma SharingKeepsRelease(s: Mmu, t: Mmu, h: Handle, l: nat, m: MappedBlock)
    requires Core(s) && Core(t) && t.cfg == s.cfg && SharingStep(s, t, h, l)
    requires Releases(s, h, m) && s.ledger.refs[m.block] == 1
    ensures Releases(t, h, m) && t.ledger.refs[m.block] == s.ledger.refs[m.block]
  {
    hide PoolOk, Ledger.Valid, BlocksOk, HistoryOk, CountsOk, TablesOk, BoundsOk, Resolve, CopiesOnWrite;
    ResolveLive(s, h, m.logical);
    StillResolves(s, t, h, m.logical);
  }

  /** The effect of one unmap call on pins. */
  lemma UnmapStep(s: Mmu, h: Handle, m: MappedBlock)
    requires Core(s)
    ensures var t := UnmapLogicalBlock(s, h, m).mmu;
      && Core(t) && t.cfg == s.cfg && t.tables == s.tables && t.ledger == s.ledger
      && t.l1 == s.l1
      && (!Releases(s, h, m) ==> t == s)
      && (Releases(s, h, m) ==>
            && s.Has(m.block) && s.ledger.refs[m.block] > 0
            && (forall x :: s.Has(x) ==>
                  t.metas[x].pins == if x == m.block then Less(s.metas[x].pins) else s.metas[x].pins))
  {
    UnmapEffect(s, h, m);
    UnmapKeepsL1(s, h, m);
    hide PoolOk, Ledger.Valid, BlocksOk, HistoryOk, CountsOk, TablesOk, BoundsOk, UnmapLogicalBlock, Content, Resolve;
    var t := UnmapLogicalBlock(s, h, m).mmu;
    if Releases(s, h, m) {
      ResolveLive(s, h, m.logical);
      forall x | s.Has(x)
        ensures t.metas[x].pins == if x == m.block then Less(s.metas[x].pins) else s.metas[x].pins
      {
        assert x != m.block ==> Unnoticed(s, t, x);
      }
    }
  }

  lemma UnmapKeepsL1(s: Mmu, h: Handle, m: MappedBlock)
    requires Wf(s)
    ensures UnmapLogicalBlock(s, h, m).mmu.l1 == s.l1
  {
    hide PoolOk, Ledger.Valid, Resolve, AcquireL2, HasWrite;
  }

  lemma UnmapKeepsRelease(s: Mmu, h: Handle, m: MappedBlock, n: MappedBlock)
    requires Core(s) && Releases(s, h, n)
    ensures var t := UnmapLogicalBlock(s, h, m).mmu;
      Wf(t) && Releases(t, h, n)
  {
    UnmapStep(s, h, m);
    ResolveLive(s, h, n.logical);
    hide PoolOk, Ledger.Valid, BlocksOk, HistoryOk, CountsOk, TablesOk, BoundsOk, UnmapLogicalBlock, Resolve;
    StillResolves(s, UnmapLogicalBlock(s, h, m).mmu, h, n.logical);
  }

  /** How many of the mappings are of block `p`. */
  ghost function MappingsOf(ms: seq<MappedBlock>, p: int): nat {
    if ms == [] then 0
    else MappingsOf(ms[..|ms| - 1], p) + if ms[|ms| - 1].block == p then 1 else 0
  }

  ghost predicate AllRelease(s: Mmu, h: Handle, ms: seq<MappedBlock>) {
    forall j :: 0 <= j < |ms| ==> Releases(s, h, ms[j])
  }

  /** Every mapping made so far counts as one pin and can be undone. */
  lemma {:induction false} MapEachPins(s: Mmu, h: Handle, ls: seq<nat>, flags: nat)
    requires Core(s)
    ensures var b := MapEach(s, h, ls, flags);
      && Core(b.mmu) && b.mmu.cfg == s.cfg && FramesKept(s, b.mmu)
      && (forall p :: s.Has(p) ==> b.mmu.metas[p].pins == s.metas[p].pins + MappingsOf(b.done, p))
      && AllRelease(b.mmu, h, b.done)
      && (HasWrite(flags) ==> forall j :: 0 <= j < |b.done| ==>
            b.mmu.ledger.Has(b.done[j].block) && b.mmu.ledger.refs[b.done[j].block] == 1)
      && (b.status.Ok? ==> |b.done| == |ls|)
  {
    hide Core, Wf, MapLogicalBlock, Releases, HasWrite;
    CoreWf(s);
    WfSizes(s);
    if ls != [] {
      var ls0, l := ls[..|ls| - 1], ls[|ls| - 1];
      MapEachPins(s, h, ls0, flags);
      var b := MapEach(s, h, ls0, flags);
      if b.status.Ok? {
        CoreWf(b.mmu);
        var r := MapLogicalBlock(b.mmu, h, l, flags);
        var done := if r.status.Ok? then b.done + [r.mapped] else b.done;
        MapEachStep(b.mmu, h, l, flags, b.done);
        assert MapEach(s, h, ls, flags) == Batch(r.status, r.mmu, done);
        if r.status.Ok? {
          assert done[..|done| - 1] == b.done;
        }
        FramesKeptThen(s, b.mmu, r.mmu);
      }
    }
  }

  lemma FramesKeptThen(s: Mmu, t: Mmu, u: Mmu)
    requires Wf(s) && Wf(t) && Wf(u) && s.cfg == t.cfg == u.cfg && FramesKept(s, t) && FramesKept(t, u)
    requires forall p :: s.Has(p) && s.metas[p].pins > 0 ==> t.metas[p].pins > 0
    ensures FramesKept(s, u)
  {
    hide PoolOk, Ledger.Valid;
  }

  lemma ReleasesHas(s: Mmu, h: Handle, m: MappedBlock)
    requires Releases(s, h, m)
    ensures s.ledger.Has(m.block)
  {
  }

  lemma MapEachStep(s: Mmu, h: Handle, l: nat, flags: nat, done: seq<MappedBlock>)
    requires Core(s) && AllRelease(s, h, done)
    requires HasWrite(flags) ==> forall j :: 0 <= j < |done| ==>
               s.ledger.Has(done[j].block) && s.ledger.refs[done[j].block] == 1
    ensures var r := MapLogicalBlock(s, h, l, flags);
      var done' := if r.status.Ok? then done + [r.mapped] else done;
      && Core(r.mmu) && r.mmu.cfg == s.cfg && FramesKept(s, r.mmu)
      && PinsUp(s, r.mmu, if r.status.Ok? then r.mapped.block else NONE)
      && AllRelease(r.mmu, h, done')
      && (HasWrite(flags) ==> forall j :: 0 <= j < |done'| ==>
            r.mmu.ledger.Has(done'[j].block) && r.mmu.ledger.refs[done'[j].block] == 1)
  {
    hide PoolOk, Ledger.Valid, BlocksOk, HistoryOk, CountsOk, TablesOk, BoundsOk, MapLogicalBlock, HasWrite,
         Releases, SharingStep, PinsUp, FramesKept;
    MapStep(s, h, l, flags);
    var r := MapLogicalBlock(s, h, l, flags);
    forall j | 0 <= j < |done|
      ensures Releases(r.mmu, h, done[j])
      ensures s.ledger.Has(done[j].block) && r.mmu.ledger.refs[done[j].block] == s.ledger.refs[done[j].block]
    {
      ReleasesHas(s, h, done[j]);
      MapKeepsRelease(s, h, l, flags, done[j]);
    }
  }

  /** Undoing mappings that can all be undone takes back exactly their pins. */
  lemma {:induction false} UnmapAllPins(s: Mmu, h: Handle, ms: seq<MappedBlock>)
    requires Core(s) && AllRelease(s, h, ms)
    requires forall p :: s.Has(p) ==> s.metas[p].pins >= MappingsOf(ms, p)
    ensures var t := UnmapLogicalBlocks(s, h, ms).mmu;
      && Core(t) && t.cfg == s.cfg && t.tables == s.tables && t.ledger == s.ledger && t.l1 == s.l1
      && (forall p :: s.Has(p) ==> t.metas[p].pins == s.metas[p].pins - MappingsOf(ms, p))
      && (forall n :: Releases(s, h, n) ==> Releases(t, h, n))
  {
    hide PoolOk, Ledger.Valid, BlocksOk, HistoryOk, CountsOk, TablesOk, BoundsOk, UnmapLogicalBlock, Releases;
    if ms != [] {
      var ms0, m := ms[..|ms| - 1], ms[|ms| - 1];
      assert forall p :: MappingsOf(ms, p) == MappingsOf(ms0, p) + if m.block == p then 1 else 0;
      UnmapAllPins(s, h, ms0);
      var u := UnmapLogicalBlocks(s, h, ms0).mmu;
      assert Releases(s, h, m);
      UnmapStep(u, h, m);
      var t := UnmapLogicalBlock(u, h, m).mmu;
      forall n | Releases(s, h, n)
        ensures Releases(t, h, n)
      {
        UnmapKeepsRelease(u, h, m, n);
      }
    }
  }

  /** A failed batch leaves every pin count as it found it, whatever the list, even when undoing
      the mappings reports errors. */
  lemma BatchRollback(s: Mmu, h: Handle, ls: seq<nat>, flags: nat)
    requires Core(s)
    ensures var r := MapLogicalBlocks(s, h, ls, flags);
      && Core(r.mmu) && r.mmu.cfg == s.cfg
      && (forall p :: s.Has(p) ==>
            r.mmu.metas[p].pins == s.metas[p].pins + if r.status.Ok? then MappingsOf(r.done, p) else 0)
  {
    hide PoolOk, Ledger.Valid, BlocksOk, HistoryOk, CountsOk, TablesOk, BoundsOk, MapEach, UnmapLogicalBlocks,
         Releases;
    MapEachPins(s, h, ls, flags);
    var b := MapEach(s, h, ls, flags);
    if !b.status.Ok? {
      UnmapAllPins(b.mmu, h, b.done);
    }
  }
}
