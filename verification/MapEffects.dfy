/** What a mapping and its undoing leave behind: pins, recency, and the copy in L2. */
module MapEffects {
  import opened MmuTypes
  import opened BlockManagers
  import opened ChunkPools
  import opened Tiering
  import opened Api
  import opened Invariants
  import opened Paging
  import opened Steps
  import opened Batches
  import opened Lru

  lemma PrepareClock(s: Mmu, h: Handle, l: nat)
    requires Core(s)
    ensures SameClock(s, PrepareBlockForWrite(s, h, l).mmu)
  {
    hide Core, Wf, PrepareBlockForWrite, CopiesOnWrite, Resolve;
    CoreWf(s);
    if CopiesOnWrite(s, h, l) {
      CopyEffect(s, h, l);
    } else {
      PrepareIdle(s, h, l);
    }
  }

  lemma PinnedClock(s: Mmu, p: int, l: nat, flags: nat)
    requires Wf(s) && s.Has(p)
    ensures var r := Pinned(s, p, l, flags);
      r.mmu.touches == if r.status.Ok? then s.touches + [p] else s.touches
  {
    hide PoolOk, Ledger.Valid, AcquireL1;
  }

  lemma MapResidentClock(s: Mmu, h: Handle, l: nat, flags: nat)
    requires Core(s)
    ensures var r := MapResident(s, h, l, flags);
      r.status.Ok? ==> r.mmu.touches == s.touches + [r.mapped.block, r.mapped.block]
  {
    hide Core, Wf, Resolve, EnsureResidentInL1, Pinned;
    CoreWf(s);
    var route := Resolve(s, h, l);
    if route.status.Ok? {
      var p := route.route.block;
      ResolveLive(s, h, l);
      EnsureResidentEffect(s, p);
      var t := EnsureResidentInL1(s, p);
      if t.status.Ok? {
        TransparentOwned(s, t.mmu);
        PinnedClock(t.mmu, p, l, flags);
        PinnedEffect(t.mmu, p, l, flags);
        assert s.touches + [p] + [p] == s.touches + [p, p];
      }
    }
  }

  lemma TransparentOwned(s: Mmu, t: Mmu)
    requires Wf(s) && Wf(t) && Transparent(s, t)
    ensures t.cfg == s.cfg && t.ledger == s.ledger
  {
    hide PoolOk, Ledger.Valid, Unnoticed;
  }

  /** A successful map touches its block, which becomes the most recently used one. */
  lemma MappedIsMostRecent(s: Mmu, h: Handle, l: nat, flags: nat)
    requires Core(s) && MapLogicalBlock(s, h, l, flags).status.Ok?
    ensures var r := MapLogicalBlock(s, h, l, flags);
      var recency := Recency(r.mmu.touches);
      && r.mmu.touches == s.touches + [r.mapped.block, r.mapped.block]
      && recency != [] && recency[|recency| - 1] == r.mapped.block
  {
    hide Core, Wf, PrepareBlockForWrite, MapResident, HasWrite, ValidFlags;
    CoreWf(s);
    if HasWrite(flags) {
      PrepareClock(s, h, l);
      PrepareStep(s, h, l);
      MapResidentClock(PrepareBlockForWrite(s, h, l).mmu, h, l, flags);
    } else {
      MapResidentClock(s, h, l, flags);
    }
  }

  /** Undoing a mapping writes a written block back: afterwards L2 holds what readers see and the
      block is clean. If L2 has no page for it the call fails and the block stays dirty. */
  lemma UnmapWritesBack(s: Mmu, h: Handle, m: MappedBlock)
    requires Core(s) && Releases(s, h, m)
    ensures var r := UnmapLogicalBlock(s, h, m);
      var p, t, write := m.block, r.mmu, HasWrite(m.flags) && s.Has(m.block) && s.metas[m.block].resident;
      && s.Has(p) && t.cfg == s.cfg
      && (r.status.Ok? <==> !write || AcquireL2(s, p).status.Ok?)
      && (write && r.status.Ok? ==> L2Page(t, p) == Some(Content(s, p)) && !t.metas[p].dirty)
      && (HasWrite(m.flags) && !(write && r.status.Ok?) ==> t.metas[p].dirty)
      && (!HasWrite(m.flags) ==> t.l2 == s.l2 && t.metas[p].dirty == s.metas[p].dirty)
      && t.touches == (if r.status.Ok? then s.touches + [p] else s.touches)
  {
    hide Core, Wf, HasWrite, Unpinned, AcquireL2, L2Page, Content;
    CoreWf(s);
    WfSizes(s);
    ResolveLive(s, h, m.logical);
    ResolvedKnown(s, h, m.logical);
    assert UnmapLogicalBlock(s, h, m) == Unpinned(s, m.block, HasWrite(m.flags));
    UnpinnedWritesBack(s, m.block, HasWrite(m.flags));
  }

  lemma UnpinnedWritesBack(s: Mmu, p: int, write: bool)
    requires Wf(s) && s.Has(p)
    ensures var r := Unpinned(s, p, write);
      var t, back := r.mmu, write && s.metas[p].resident;
      && t.cfg == s.cfg
      && (r.status.Ok? <==> !back || AcquireL2(s, p).status.Ok?)
      && (back && r.status.Ok? ==> L2Page(t, p) == Some(Content(s, p)) && !t.metas[p].dirty)
      && (write && !(back && r.status.Ok?) ==> t.metas[p].dirty)
      && (!write ==> t.l2 == s.l2 && t.metas[p].dirty == s.metas[p].dirty)
      && t.touches == (if r.status.Ok? then s.touches + [p] else s.touches)
  {
    hide PoolOk, Ledger.Valid, AcquireL2, SyncL1ToL2, SameElsewhere, PageAt;
    var s1 := PinDropped(s, p, write);
    if write && s.metas[p].resident {
      SyncL1ToL2Effect(s1, p);
      assert AcquireL2(s1, p) == AcquireL2(s, p) by {
        PinDroppedPools(s, p, write);
      }
    }
  }

  lemma PinDroppedPools(s: Mmu, p: int, write: bool)
    requires Wf(s) && s.Has(p)
    ensures AcquireL2(PinDropped(s, p, write), p) == AcquireL2(s, p)
  {
    hide PoolOk, Ledger.Valid, Acquire;
  }

  /** The write-back of the mapping needs an L2 page that is not to be had. */
  predicate WriteBackStuck(s: Mmu, m: MappedBlock) {
    && HasWrite(m.flags)
    && 0 <= m.block < |s.metas| && s.metas[m.block].resident
    && 0 <= m.block < |s.l2.owner| && s.l2.owner[m.block] == NONE && L2Exhausted(s)
  }

  /** Unmapping is refused exactly when the mapping no longer names the block behind its logical block
      or its write-back is stuck. Whether anything is mapped plays no part. */
  lemma UnmapFailsExactly(s: Mmu, h: Handle, m: MappedBlock)
    requires Core(s)
    ensures !UnmapLogicalBlock(s, h, m).status.Ok? <==> !Releases(s, h, m) || WriteBackStuck(s, m)
  {
    hide Core, Wf, HasWrite, Releases, UnmapLogicalBlock, L2Page, Content, Exhausted;
    CoreWf(s);
    WfSizes(s);
    if Releases(s, h, m) {
      ReleasesHas(s, h, m);
      UnmapWritesBack(s, h, m);
      AcquireL2FailsExactly(s, m.block);
    } else {
      UnmapEffect(s, h, m);
    }
  }

  lemma AcquireL2FailsExactly(s: Mmu, p: int)
    requires Wf(s) && s.Has(p)
    ensures p < |s.l2.owner|
    ensures !AcquireL2(s, p).status.Ok? <==> s.l2.owner[p] == NONE && L2Exhausted(s)
  {
    hide PoolOk, Ledger.Valid, Exhausted;
    AcquireFailsExactly(s.l2, s.cfg.blockSize, s.cfg.l2Blocks, s.cfg.chunkBlocks, s.os, p);
  }

  /** Unmapping the same mapping again is not refused for that: it takes another pin, if one is left. */
  lemma UnmapTwice(s: Mmu, h: Handle, m: MappedBlock)
    requires Core(s) && Releases(s, h, m)
    ensures var t := UnmapLogicalBlock(s, h, m).mmu;
      var u := UnmapLogicalBlock(t, h, m);
      && Wf(t) && Releases(t, h, m) && s.Has(m.block)
      && |s.metas| == |t.metas| == |u.mmu.metas| == s.cfg.blocks
      && t.metas[m.block].pins == Less(s.metas[m.block].pins)
      && u.mmu.metas[m.block].pins == Less(Less(s.metas[m.block].pins))
      && (!HasWrite(m.flags) ==> u.status.Ok?)
  {
    hide Core, Wf, HasWrite, Releases, UnmapLogicalBlock, L2Exhausted;
    CoreWf(s);
    UnmapStep(s, h, m);
    UnmapKeepsRelease(s, h, m, m);
    var t := UnmapLogicalBlock(s, h, m).mmu;
    UnmapStep(t, h, m);
    UnmapFailsExactly(t, h, m);
    WfSizes(s);
    WfSizes(t);
    WfSizes(UnmapLogicalBlock(t, h, m).mmu);
  }

  /** Unmapping undoes mapping: every pin count is as it was before the two calls, and the unmap of
      a read mapping cannot fail. */
  lemma UnmapUndoesMap(s: Mmu, h: Handle, l: nat, flags: nat)
    requires Core(s) && MapLogicalBlock(s, h, l, flags).status.Ok?
    ensures var r := MapLogicalBlock(s, h, l, flags);
      var u := UnmapLogicalBlock(r.mmu, h, r.mapped);
      && u.mmu.cfg == s.cfg && |u.mmu.metas| == |s.metas|
      && (forall p :: s.Has(p) ==> u.mmu.metas[p].pins == s.metas[p].pins)
      && (!HasWrite(flags) ==> u.status.Ok?)
  {
    hide Core, Wf, MapLogicalBlock, UnmapLogicalBlock, HasWrite, Releases, SharingStep, FramesKept, L2Page,
         Content, AcquireL2;
    CoreWf(s);
    WfSizes(s);
    MapStep(s, h, l, flags);
    var r := MapLogicalBlock(s, h, l, flags);
    UnmapStep(r.mmu, h, r.mapped);
    UnmapWritesBack(r.mmu, h, r.mapped);
    WfSizes(r.mmu);
    WfSizes(UnmapLogicalBlock(r.mmu, h, r.mapped).mmu);
  }
}
