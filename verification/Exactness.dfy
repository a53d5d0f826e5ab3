/** When mapping fails. With as many L2 blocks as physical blocks and an operating system that
    grants chunks, running out of L2 pages is impossible, and a map of a live logical block fails
    only for want of a free block to copy to or of an unpinned block to evict. */
module Exactness {
  import opened MmuTypes
  import opened BlockManagers
  import opened BlockDirectories
  import opened ChunkPools
  import opened Tiering
  import opened Api
  import opened Invariants
  import opened Paging
  import opened Steps
  import opened Refinement

  /** The automatic L2 size, and no refusal still to come. */
  ghost predicate Ample(s: Mmu) {
    s.cfg.l2Blocks == s.cfg.blocks && s.os.Generous()
  }

  /** Pigeonhole: every block has its own owner slot, so an unlent frame or a chunk is left. */
  lemma AmpleL2(s: Mmu, p: int)
    requires Wf(s) && s.Has(p) && Ample(s)
    ensures AcquireL2(s, p).status.Ok?
  {
    hide PoolOk;
    AcquireSucceeds(s.l2, s.cfg.blockSize, s.cfg.l2Blocks, s.cfg.chunkBlocks, s.os, p);
  }

  lemma AmpleL1(s: Mmu, p: int)
    requires Wf(s) && s.Has(p) && Ample(s)
    ensures AcquireL1(s, p).status.Ok?
  {
    hide PoolOk;
    AcquireSucceeds(s.l1, s.cfg.blockSize, 0, s.cfg.chunkBlocks, s.os, p);
  }

  /** Nobody can be evicted to make room. */
  ghost predicate Jammed(s: Mmu)
    requires Wf(s)
  {
    && s.residents >= s.cfg.residentLimit
    && forall q :: s.Has(q) && s.metas[q].resident ==> s.metas[q].pins > 0
  }

  lemma MakeRoomExactly(s: Mmu, p: int)
    requires Core(s) && Ample(s) && s.Has(p) && !s.metas[p].resident
    ensures MakeRoom(s, p).status.Ok? <==> !Jammed(s)
  {
    hide PoolOk, Ledger.Valid, HistoryOk, TablesOk, BoundsOk, MakeRoom, MoveBlockToL2, AcquireL2;
    MakeRoomOnce(s, p);
    var v := Victim(s.metas, p, s.cfg.blocks);
    forall q | s.Has(q) && s.metas[q].resident
      ensures s.metas[q].live
    {
      assert BlockOk(s, q);
    }
    if v != NONE {
      MoveBlockEffect(s, v);
      AmpleL2(s, v);
      hide Victim;
      assert Evictable(s.metas[v]);
    }
  }

  lemma SyncL2ToL1Succeeds(s: Mmu, p: int)
    requires Wf(s) && s.Has(p) && Ample(s)
    ensures SyncL2ToL1(s, p).status.Ok?
  {
    AmpleL1(s, p);
    hide PoolOk, Ledger.Valid, AcquireL1;
  }

  lemma EnsureResidentExactly(s: Mmu, p: int)
    requires Core(s) && Ample(s) && s.Has(p) && s.ledger.refs[p] > 0
    ensures EnsureResidentInL1(s, p).status.Ok? <==> s.metas[p].resident || !Jammed(s)
  {
    hide PoolOk, Ledger.Valid, HistoryOk, BoundsOk, TablesOk, CountsOk, MakeRoom, SyncL2ToL1, Reclaim,
         Transparent, SameAt, L1Page, L2Page, Jammed;
    ReclaimIdle(s, s.cfg.blocks);
    assert BlockOk(s, p);
    if !s.metas[p].resident {
      MakeRoomExactly(s, p);
      MakeRoomEffect(s, p);
      var room := MakeRoom(s, p);
      if room.status.Ok? {
        TransparentAmple(s, room.mmu);
        SyncL2ToL1Succeeds(room.mmu, p);
      }
    }
  }

  lemma TransparentAmple(s: Mmu, t: Mmu)
    requires Wf(s) && Wf(t) && Transparent(s, t) && Ample(s)
    ensures Ample(t)
  {
    hide PoolOk, Ledger.Valid, Unnoticed;
  }

  lemma MapResidentExactly(s: Mmu, h: Handle, l: nat, flags: nat)
    requires Core(s) && Ample(s) && Resolve(s, h, l).status.Ok?
    ensures var p := Resolve(s, h, l).route.block;
      s.Has(p) && (MapResident(s, h, l, flags).status.Ok? <==> s.metas[p].resident || !Jammed(s))
  {
    ResolveLive(s, h, l);
    hide PoolOk, Ledger.Valid, BlocksOk, HistoryOk, CountsOk, TablesOk, BoundsOk, EnsureResidentInL1, Resolve,
         Pinned, Jammed, Transparent;
    var p := Resolve(s, h, l).route.block;
    EnsureResidentExactly(s, p);
    EnsureResidentEffect(s, p);
    var r := EnsureResidentInL1(s, p);
    if r.status.Ok? {
      TransparentAmple(s, r.mmu);
      AmpleL1(r.mmu, p);
      TransparentLedger(s, r.mmu);
      PinnedEffect(r.mmu, p, l, flags);
    }
  }

  lemma TransparentLedger(s: Mmu, t: Mmu)
    requires Wf(s) && Wf(t) && Transparent(s, t)
    ensures t.ledger == s.ledger && t.tables == s.tables && t.cfg == s.cfg
  {
    hide PoolOk, Ledger.Valid, Unnoticed;
  }

  /** No clone fails, so the views survive every call without further hypotheses. */
  lemma AmpleCloneSucceeds(s: Mmu, h: Handle, l: nat)
    requires Core(s) && Ample(s)
    ensures !CloneFails(s, h, l)
  {
    hide PoolOk, BlocksOk, HistoryOk, CountsOk, TablesOk, BoundsOk, Resolve;
    if CopiesOnWrite(s, h, l) {
      CloneFailsExactly(s, h, l);
      assert s.ledger.refs[NextBlock(s)] == 0;
      AcquireSucceeds(s.l2, s.cfg.blockSize, s.cfg.l2Blocks, s.cfg.chunkBlocks, s.os, NextBlock(s));
    }
  }

  /** Mapping a live logical block fails exactly when a shared block must be copied and no block is
      free, or the block is not resident (a copy never is) and everything resident is pinned. */
  lemma MapFailsExactly(s: Mmu, h: Handle, l: nat, flags: nat)
    requires Core(s) && Ample(s) && ValidFlags(flags) && Resolve(s, h, l).status.Ok?
    ensures var p := Resolve(s, h, l).route.block;
      var copies := HasWrite(flags) && IsShared(s, h, l);
      s.Has(p) &&
      (!MapLogicalBlock(s, h, l, flags).status.Ok? <==>
        (copies && s.ledger.free == []) || ((copies || !s.metas[p].resident) && Jammed(s)))
  {
    hide PoolOk, Ledger.Valid, BlocksOk, HistoryOk, CountsOk, TablesOk, BoundsOk, MapResident,
         PrepareBlockForWrite, Jammed, HasWrite, ValidFlags;
    ResolveLive(s, h, l);
    ResolveNeeds(s, h, l);
    if HasWrite(flags) && CopiesOnWrite(s, h, l) {
      hide Resolve, IsShared, CopiesOnWrite;
      CopyMapsExactly(s, h, l, flags);
    } else if HasWrite(flags) {
      PrepareIdle(s, h, l);
      if PrepareBlockForWrite(s, h, l).status.Ok? {
        MapResidentExactly(s, h, l, flags);
      }
    } else {
      MapResidentExactly(s, h, l, flags);
    }
  }

  lemma ResolveNeeds(s: Mmu, h: Handle, l: nat)
    ensures Resolve(s, h, l).status.Ok? ==> h in s.tables && l <= INT_MAX
  {
  }

  lemma CopyResolves(s: Mmu, h: Handle, l: nat)
    requires CopiesOnWrite(s, h, l)
    ensures Resolve(s, h, l).status.Ok?
  {
  }

  lemma CopyMapsExactly(s: Mmu, h: Handle, l: nat, flags: nat)
    requires Core(s) && Ample(s) && CopiesOnWrite(s, h, l)
    ensures var u := PrepareBlockForWrite(s, h, l);
      u.status.Ok? && (MapResident(u.mmu, h, l, flags).status.Ok? <==> !Jammed(s))
  {
    hide PoolOk, Ledger.Valid, BlocksOk, HistoryOk, CountsOk, TablesOk, BoundsOk, MapResident,
         PrepareBlockForWrite, Resolve, Jammed, CopiesOnWrite, L2Exhausted;
    CopyEffect(s, h, l);
    AmpleCloneSucceeds(s, h, l);
    CloneFailsExactly(s, h, l);
    CopyResolves(s, h, l);
    var u := PrepareBlockForWrite(s, h, l);
    var p, q := Resolve(s, h, l).route.block, NextBlock(s);
    CopiedAmple(s, u.mmu, h, l, p, q);
    CopiedResolves(s, u.mmu, h, l, p, q);
    MapResidentExactly(u.mmu, h, l, flags);
  }

  lemma CopiedAmple(s: Mmu, t: Mmu, h: Handle, l: nat, p: int, q: int)
    requires Core(s) && Core(t) && Copied(s, t, h, l, p, q, true) && Ample(s)
    ensures Ample(t) && (Jammed(t) <==> Jammed(s))
  {
    hide PoolOk, Ledger.Valid, HistoryOk, TablesOk, BoundsOk, Content, L1Page, L2Page;
    assert BlockOk(s, q);
    assert s.metas[q].resident == t.metas[q].resident == false;
    forall x | s.Has(x) && x != q
      ensures t.metas[x] == s.metas[x]
    {
      assert SameAt(s, t, x);
    }
    CountImplies(s.metas, IsResident, t.metas, IsResident);
    CountImplies(t.metas, IsResident, s.metas, IsResident);
  }

  lemma CopiedResolves(s: Mmu, t: Mmu, h: Handle, l: nat, p: int, q: int)
    requires Core(s) && Core(t) && Copied(s, t, h, l, p, q, true) && Resolve(s, h, l).status.Ok?
    ensures Resolve(t, h, l).status.Ok? && Resolve(t, h, l).route.block == q && !t.metas[q].resident
  {
    hide PoolOk, HistoryOk, CountsOk, TablesOk, BoundsOk, Content, SameAt;
    assert BlockOk(t, q);
  }
}
