/** Paging is transparent: moving blocks between L1 and L2, evicting and reclaiming never change
    what any block contains, and keep the invariant on success and on every error exit. */
module Paging {
  import opened MmuTypes
  import opened BlockManagers
  import opened BlockDirectories
  import opened ChunkPools
  import opened Tiering
  import opened Invariants

  /** Everything outside the block store is as before. */
  ghost predicate SameSharing(s: Mmu, t: Mmu) {
    && t.cfg == s.cfg && t.ledger == s.ledger && t.tables == s.tables
    && (t.os == s.os || (t.os.denied == s.os.denied && t.os.noise == s.os.noise && t.os.requests >= s.os.requests))
  }

  ghost predicate SameClock(s: Mmu, t: Mmu) {
    t.epoch == s.epoch && t.touches == s.touches
  }

  lemma AcquireL2Effect(s: Mmu, p: int)
    requires Wf(s) && s.Has(p)
    ensures var a := AcquireL2(s, p);
      && PoolOk(a.pool, s.cfg.blockSize) && |a.pool.owner| == s.cfg.blocks
      && (a.os == s.os || a.os == s.os.Asked())
      && (|s.l2.mem| <= s.cfg.l2Blocks ==> |a.pool.mem| <= s.cfg.l2Blocks)
      && (!a.status.Ok? ==> a.pool == s.l2)
      && (a.status.Ok? ==>
            && a.pool.owner[p] != NONE
            && forall q :: q != p ==> PageAt(a.pool, s.cfg.blockSize, q) == L2Page(s, q))
  {
    hide PoolOk;
    var a := AcquireL2(s, p);
    assert a.status.Ok? ==> PageAt(a.pool, s.cfg.blockSize, p).Some?;
    if |s.l2.mem| <= s.cfg.l2Blocks {
      AcquireBounded(s.l2, s.cfg.blockSize, s.cfg.l2Blocks, s.cfg.chunkBlocks, s.os, p);
    }
  }

  lemma AcquireL1Effect(s: Mmu, p: int)
    requires Wf(s) && s.Has(p)
    ensures var a := AcquireL1(s, p);
      && PoolOk(a.pool, s.cfg.blockSize) && |a.pool.owner| == s.cfg.blocks
      && (a.os == s.os || a.os == s.os.Asked())
      && (!a.status.Ok? ==> a.pool == s.l1)
      && (a.status.Ok? ==>
            && a.pool.owner[p] != NONE
            && PageAt(a.pool, s.cfg.blockSize, p) == Some(OrZeros(L1Page(s, p), s.cfg.blockSize))
            && forall q :: q != p ==> PageAt(a.pool, s.cfg.blockSize, q) == L1Page(s, q))
      && forall q :: 0 <= q < s.cfg.blocks && (q != p || s.l1.owner[q] != NONE) ==> a.pool.owner[q] == s.l1.owner[q]
  {
    hide PoolOk;
    var a := AcquireL1(s, p);
    assert a.status.Ok? ==> PageAt(a.pool, s.cfg.blockSize, p).Some?;
    AcquireKeepsFrames(s.l1, s.cfg.blockSize, 0, s.cfg.chunkBlocks, s.os, p);
  }

  lemma FilledL2Effect(s: Mmu, p: int, bytes: Page)
    requires Wf(s) && s.Has(p) && |bytes| == s.cfg.blockSize
    ensures var r := FilledL2(s, p, bytes);
      var t := r.mmu;
      && SameSharing(s, t) && SameClock(s, t) && SameElsewhere(s, t, p)
      && t.l1 == s.l1 && t.residents == s.residents
      && (|s.l2.mem| <= s.cfg.l2Blocks ==> |t.l2.mem| <= s.cfg.l2Blocks)
      && r.status == AcquireL2(s, p).status
      && (!r.status.Ok? ==> t == s.(os := t.os))
      && (r.status.Ok? ==>
            && L2Page(t, p) == Some(bytes)
            && t.metas == s.metas[p := s.metas[p].(backed := true, l2Slot := p)])
  {
    hide PoolOk, Ledger.Valid, AcquireL2;
    AcquireL2Effect(s, p);
    var a := AcquireL2(s, p);
    if a.status.Ok? {
      StoredOk(a.pool, s.cfg.blockSize, p, bytes);
    }
  }

  lemma FilledL1Effect(s: Mmu, p: int, bytes: Page)
    requires Wf(s) && s.Has(p) && |bytes| == s.cfg.blockSize
    ensures var r := FilledL1(s, p, bytes);
      var t := r.mmu;
      && SameSharing(s, t) && SameClock(s, t) && SameElsewhere(s, t, p)
      && t.l2 == s.l2 && t.residents == s.residents && t.metas == s.metas
      && (BoundsOk(s.(l1 := AcquireL1(s, p).pool)) ==> BoundsOk(t))
      && r.status == AcquireL1(s, p).status
      && (!r.status.Ok? ==> t == s.(os := t.os))
      && (r.status.Ok? ==> L1Page(t, p) == Some(bytes))
  {
    hide PoolOk, Ledger.Valid, AcquireL1;
    AcquireL1Effect(s, p);
    var a := AcquireL1(s, p);
    if a.status.Ok? {
      StoredOk(a.pool, s.cfg.blockSize, p, bytes);
    }
  }

  lemma SyncL1ToL2Effect(s: Mmu, p: int)
    requires Wf(s) && s.Has(p)
    ensures var r := SyncL1ToL2(s, p);
      var t := r.mmu;
      && SameSharing(s, t) && SameClock(s, t) && SameElsewhere(s, t, p)
      && t.l1 == s.l1 && t.residents == s.residents
      && (|s.l2.mem| <= s.cfg.l2Blocks ==> |t.l2.mem| <= s.cfg.l2Blocks)
      && r.status == AcquireL2(s, p).status
      && (!r.status.Ok? ==> t == s.(os := t.os))
      && (r.status.Ok? ==>
            && L2Page(t, p) == Some(OrZeros(L1Page(s, p), s.cfg.blockSize))
            && t.metas == s.metas[p := s.metas[p].(backed := true, l2Slot := p)])
  {
    hide PoolOk, Ledger.Valid, AcquireL2, FilledL2, L1Page, SameElsewhere;
    PageSize(s.l1, s.cfg.blockSize, p);
    L1PageSize(s, p);
    FilledL2Effect(s, p, OrZeros(L1Page(s, p), s.cfg.blockSize));
  }

  lemma L1PageSize(s: Mmu, p: int)
    requires Wf(s)
    ensures |OrZeros(L1Page(s, p), s.cfg.blockSize)| == |OrZeros(L2Page(s, p), s.cfg.blockSize)| == s.cfg.blockSize
  {
    hide PoolOk, Ledger.Valid;
    PageSize(s.l1, s.cfg.blockSize, p);
    PageSize(s.l2, s.cfg.blockSize, p);
  }

  lemma SyncL2ToL1Effect(s: Mmu, p: int)
    requires Wf(s) && s.Has(p)
    ensures var r := SyncL2ToL1(s, p);
      var t := r.mmu;
      && SameSharing(s, t) && SameClock(s, t) && SameElsewhere(s, t, p)
      && t.l2 == s.l2 && t.residents == s.residents
      && (BoundsOk(s.(l1 := AcquireL1(s, p).pool)) ==> BoundsOk(t))
      && r.status == AcquireL1(s, p).status
      && (!r.status.Ok? ==> t == s.(os := t.os))
      && (r.status.Ok? ==>
            && L1Page(t, p) == Some(OrZeros(L2Page(s, p), s.cfg.blockSize))
            && t.metas == s.metas[p := s.metas[p].(l1Frame := p)])
  {
    hide PoolOk, Ledger.Valid, AcquireL1, FilledL1;
    L1PageSize(s, p);
    FilledL1Effect(s, p, OrZeros(L2Page(s, p), s.cfg.blockSize));
  }

  lemma ForgetEffect(s: Mmu, p: int)
    requires Wf(s) && s.Has(p)
    ensures var t := Forget(s, p);
      && SameSharing(s, t) && SameClock(s, t) && SameElsewhere(s, t, p)
      && L1Page(t, p).None? && L2Page(t, p).None? && t.metas == s.metas[p := DefaultMeta()]
      && t.residents == (if s.metas[p].resident && s.residents > 0 then s.residents - 1 else s.residents)
      && t.l1.chunks == s.l1.chunks && |t.l1.mem| == |s.l1.mem| && |t.l2.mem| == |s.l2.mem|
  {
    hide PoolOk, Ledger.Valid;
    ReturnedOk(s.l1, s.cfg.blockSize, p);
    ReturnedOk(s.l2, s.cfg.blockSize, p);
  }

  /** `t` is `s` after the unowned blocks below `k` were forgotten: the others keep their state. */
  ghost predicate Reclaimed(s: Mmu, t: Mmu, k: nat)
    requires Wf(s) && Wf(t) && t.cfg == s.cfg && k <= s.cfg.blocks
  {
    && (forall p :: s.Has(p) && (s.ledger.refs[p] > 0 || p >= k) ==> SameAt(s, t, p))
    && (forall p :: s.Has(p) && s.ledger.refs[p] == 0 && p < k ==> BlockOk(t, p))
  }

  ghost predicate AllButBlocks(s: Mmu) {
    Wf(s) && HistoryOk(s) && CountsOk(s) && TablesOk(s) && BoundsOk(s)
  }

  /** Reclaiming forgets exactly the unowned blocks. */
  lemma {:induction false} ReclaimEffect(s: Mmu, k: nat)
    requires AllButBlocks(s) && k <= s.cfg.blocks
    ensures var t := Reclaim(s, k);
      && SameSharing(s, t) && SameClock(s, t) && AllButBlocks(t) && Reclaimed(s, t, k)
  {
    hide PoolOk, Ledger.Valid, Reclaimed, Forget, HistoryOk, CountsOk, TablesOk, BoundsOk;
    if k == 0 {
      ReclaimedNone(s);
    } else {
      ReclaimEffect(s, k - 1);
      var u := Reclaim(s, k - 1);
      if u.ledger.refs[k - 1] == 0 {
        ForgetStep(s, u, k - 1);
      } else {
        ReclaimedSkip(s, u, k - 1);
      }
    }
  }

  lemma ReclaimedNone(s: Mmu)
    requires AllButBlocks(s)
    ensures Reclaimed(s, s, 0)
  {
  }

  lemma ReclaimedSkip(s: Mmu, u: Mmu, p: nat)
    requires Wf(s) && Wf(u) && u.cfg == s.cfg && p < s.cfg.blocks && u.ledger == s.ledger
    requires Reclaimed(s, u, p) && u.ledger.refs[p] != 0
    ensures Reclaimed(s, u, p + 1)
  {
    assert s.ledger.refs[p] > 0;
  }

  lemma ForgetKeepsRest(u: Mmu, p: nat)
    requires AllButBlocks(u) && u.Has(p)
    ensures AllButBlocks(Forget(u, p))
  {
    hide PoolOk, Ledger.Valid, Forget;
    ForgetEffect(u, p);
    var t := Forget(u, p);
    ResidentsAfter(u.metas, p, DefaultMeta());
    HistorySame(u, t);
  }

  lemma ForgetStep(s: Mmu, u: Mmu, p: nat)
    requires Wf(s) && AllButBlocks(u) && u.cfg == s.cfg && p < s.cfg.blocks && SameSharing(s, u) && SameClock(s, u)
    requires Reclaimed(s, u, p) && u.ledger.refs[p] == 0
    ensures var t := Forget(u, p);
      && SameSharing(s, t) && SameClock(s, t) && AllButBlocks(t) && Reclaimed(s, t, p + 1)
  {
    ForgetEffect(u, p);
    ForgetKeepsRest(u, p);
    hide PoolOk, Ledger.Valid, Forget, HistoryOk, CountsOk, TablesOk, BoundsOk, Reclaimed, SameElsewhere,
         L1Page, L2Page;
    ForgetReclaims(s, u, Forget(u, p), p);
  }

  lemma ForgetReclaims(s: Mmu, u: Mmu, t: Mmu, p: nat)
    requires Wf(s) && Wf(u) && Wf(t) && u.cfg == s.cfg == t.cfg && p < s.cfg.blocks
    requires Reclaimed(s, u, p) && SameElsewhere(u, t, p) && u.ledger == s.ledger == t.ledger
    requires s.ledger.refs[p] == 0 && BlockOk(t, p)
    ensures Reclaimed(s, t, p + 1)
  {
    hide PoolOk, Ledger.Valid, BlockOk, L1Page, L2Page;
    forall q | s.Has(q) && s.ledger.refs[q] == 0 && q < p + 1
      ensures BlockOk(t, q)
    {
      if q != p {
        BlockOkCarries(u, t, q);
      }
    }
    forall q | s.Has(q) && (s.ledger.refs[q] > 0 || q >= p + 1)
      ensures SameAt(s, t, q)
    {
      assert SameAt(s, u, q) && SameAt(u, t, q);
    }
  }

  /** Between API calls there is nothing to reclaim. */
  lemma {:induction false} ReclaimIdle(s: Mmu, k: nat)
    requires Wf(s) && BlocksOk(s) && k <= s.cfg.blocks
    ensures Reclaim(s, k) == s
  {
    hide PoolOk, Ledger.Valid, Forget, BlockOk;
    if k > 0 {
      ReclaimIdle(s, k - 1);
      if s.ledger.refs[k - 1] == 0 {
        ForgetIdle(s, k - 1);
      }
    }
  }

  lemma ForgetIdle(s: Mmu, p: nat)
    requires Wf(s) && s.Has(p) && BlockOk(s, p) && s.ledger.refs[p] == 0
    ensures Forget(s, p) == s
  {
    assert s.metas == s.metas[p := DefaultMeta()];
  }

  /** A step that readers and mapping holders cannot notice: ownership, contents, pins and dirty flags
      are unchanged, and pinned blocks stay in their frames. */
  ghost predicate Transparent(s: Mmu, t: Mmu)
    requires Wf(s) && Wf(t)
  {
    && SameSharing(s, t)
    && forall p :: s.Has(p) ==> Unnoticed(s, t, p)
  }

  ghost predicate Unnoticed(s: Mmu, t: Mmu, p: int)
    requires Wf(s) && Wf(t) && t.cfg == s.cfg && s.Has(p)
  {
    && Content(t, p) == Content(s, p)
    && t.metas[p].pins == s.metas[p].pins && t.metas[p].dirty == s.metas[p].dirty
    && (s.metas[p].pins > 0 ==> t.l1.owner[p] == s.l1.owner[p])
  }

  lemma TransparentTrans(s: Mmu, t: Mmu, u: Mmu)
    requires Wf(s) && Wf(t) && Wf(u) && Transparent(s, t) && Transparent(t, u)
    ensures Transparent(s, u)
  {
    hide PoolOk, Ledger.Valid, Content;
    forall p | s.Has(p)
      ensures Unnoticed(s, u, p)
    {
      assert Unnoticed(s, t, p) && Unnoticed(t, u, p);
    }
  }

  lemma TransparentByParts(s: Mmu, t: Mmu, p: int)
    requires Wf(s) && Wf(t) && SameSharing(s, t) && SameElsewhere(s, t, p) && (s.Has(p) ==> Unnoticed(s, t, p))
    ensures Transparent(s, t)
  {
    hide PoolOk, Ledger.Valid, L1Page, L2Page;
    forall q | s.Has(q)
      ensures Unnoticed(s, t, q)
    {
      assert q != p ==> SameAt(s, t, q);
    }
  }

  /** Only the operating system's counter moved. */
  lemma OnlyOs(s: Mmu, t: Mmu)
    requires Core(s) && SameSharing(s, t) && t == s.(os := t.os)
    ensures Core(t) && Transparent(s, t)
  {
    hide PoolOk, Ledger.Valid, HistoryOk, CountsOk, TablesOk, BoundsOk, BlockOk;
    forall p | s.Has(p)
      ensures BlockOk(t, p) && Unnoticed(s, t, p)
    {
      assert BlockOk(s, p);
      BlockOkCarries(s, t, p);
    }
    OnlyOsRest(s, t);
  }

  lemma OnlyOsRest(s: Mmu, t: Mmu)
    requires Core(s) && t == s.(os := t.os)
    ensures Wf(t) && HistoryOk(t) && CountsOk(t) && TablesOk(t) && BoundsOk(t)
  {
    hide PoolOk, Ledger.Valid, BlockOk;
  }

  /** Evicting an unpinned resident block. */
  lemma MoveBlockEffect(s: Mmu, p: int)
    requires Core(s) && s.Has(p) && Evictable(s.metas[p])
    ensures var r := MoveBlockToL2(s, p);
      var t := r.mmu;
      && Core(t) && Transparent(s, t) && SameClock(s, t) && SameElsewhere(s, t, p)
      && (r.status.Ok? ==> t.residents == s.residents - 1 && !t.metas[p].resident)
      && (!r.status.Ok? ==> t == s.(os := t.os) && r.status == AcquireL2(s, p).status)
  {
    assert BlockOk(s, p);
    SyncL1ToL2Effect(s, p);
    var u := SyncL1ToL2(s, p);
    if u.status.Ok? {
      MoveSynced(s, u.mmu, p);
    } else {
      OnlyOs(s, u.mmu);
    }
  }

  /** The second half of an eviction, once the bytes are in L2. */
  lemma MoveSynced(s: Mmu, u: Mmu, p: int)
    requires Core(s) && s.Has(p) && Evictable(s.metas[p]) && s.ledger.refs[p] > 0
    requires SyncL1ToL2(s, p) == Outcome(Ok, u)
    requires Wf(u) && SameSharing(s, u) && SameClock(s, u) && SameElsewhere(s, u, p)
    requires u.l1 == s.l1 && u.residents == s.residents && |u.l2.mem| <= s.cfg.l2Blocks
    requires L2Page(u, p) == Some(OrZeros(L1Page(s, p), s.cfg.blockSize))
    requires u.metas == s.metas[p := s.metas[p].(backed := true, l2Slot := p)]
    ensures var r := MoveBlockToL2(s, p);
      var t := r.mmu;
      && r.status.Ok?
      && Core(t) && Transparent(s, t) && SameClock(s, t) && SameElsewhere(s, t, p)
      && t.residents == s.residents - 1 && !t.metas[p].resident
  {
    hide PoolOk, Ledger.Valid, SyncL1ToL2, MoveBlockToL2;
    MoveShape(s, u, p);
    var t := MoveBlockToL2(s, p).mmu;
    assert BlockOk(s, p);
    ReturnedOk(u.l1, s.cfg.blockSize, p);
    ResidentsAfter(s.metas, p, t.metas[p]);
    assert t.metas == s.metas[p := t.metas[p]];
    HistorySame(s, t);
    BlocksOkByParts(s, t, p);
    TransparentByParts(s, t, p);
  }

  lemma MoveShape(s: Mmu, u: Mmu, p: int)
    requires Wf(s) && s.Has(p) && s.metas[p].live && s.metas[p].resident
    requires SyncL1ToL2(s, p) == Outcome(Ok, u) && u.cfg == s.cfg && |u.metas| == |s.metas|
    ensures MoveBlockToL2(s, p) ==
            Outcome(Ok, u.(residents := if u.residents > 0 then u.residents - 1 else u.residents,
                           l1 := Returned(u.l1, p),
                           metas := u.metas[p := u.metas[p].(resident := false, l1Frame := NONE, tier := L2)]))
  {
    hide PoolOk, Ledger.Valid, SyncL1ToL2;
  }

  /** The eviction loop runs at most once: there is room, or nobody can be evicted, or the one
      victim is moved out. */
  lemma MakeRoomOnce(s: Mmu, p: int)
    requires Core(s)
    ensures MakeRoom(s, p) ==
            if s.residents < s.cfg.residentLimit then Outcome(Ok, s)
            else if Victim(s.metas, p, s.cfg.blocks) == NONE then Outcome(OutOfMemory, s)
            else MoveBlockToL2(s, Victim(s.metas, p, s.cfg.blocks))
  {
    hide PoolOk, Ledger.Valid, BlockOk, HistoryOk, BoundsOk, TablesOk, Victim;
    var v := Victim(s.metas, p, s.cfg.blocks);
    if s.residents >= s.cfg.residentLimit && v != NONE {
      MoveBlockEffect(s, v);
      var moved := MoveBlockToL2(s, v);
      hide MoveBlockToL2;
      if moved.status.Ok? {
        assert MakeRoom(s, p) == MakeRoom(moved.mmu, p);
        assert MakeRoom(moved.mmu, p) == Outcome(Ok, moved.mmu);
      }
    }
  }

  lemma MakeRoomEffect(s: Mmu, p: int)
    requires Core(s) && s.Has(p) && !s.metas[p].resident
    ensures var r := MakeRoom(s, p);
      var t := r.mmu;
      && Core(t) && Transparent(s, t) && SameClock(s, t) && SameAt(s, t, p)
      && (r.status.Ok? ==> t.residents < t.cfg.residentLimit)
  {
    hide PoolOk, Ledger.Valid, BlockOk, HistoryOk, BoundsOk, TablesOk, Victim, MakeRoom, MoveBlockToL2;
    MakeRoomOnce(s, p);
    var v := Victim(s.metas, p, s.cfg.blocks);
    TransparentByParts(s, s, p);
    if s.residents >= s.cfg.residentLimit && v != NONE {
      MoveBlockEffect(s, v);
    }
  }

  /** A touch is transparent. */
  lemma TouchEffect(s: Mmu, p: int, m: Meta)
    requires Core(s) && s.Has(p) && s.ledger.refs[p] > 0
    requires m == s.metas[p] || (s.metas[p].resident && m == s.metas[p].(tier := L1))
    ensures var t := Touched(s.(metas := s.metas[p := m]), p);
      && Core(t) && Transparent(s, t) && SameElsewhere(s, t, p)
      && t.metas[p] == m.(epoch := s.epoch + 1)
  {
    hide PoolOk, Ledger.Valid;
    var u := s.(metas := s.metas[p := m]);
    var t := Touched(u, p);
    assert BlockOk(s, p);
    HistorySame(s, u);
    HistoryTouched(u, p);
    ResidentsAfter(s.metas, p, t.metas[p]);
    assert t.metas == s.metas[p := t.metas[p]];
    BlocksOkByParts(s, t, p);
    TransparentByParts(s, t, p);
  }

  /** Bringing a block in once there is room for it. */
  lemma BringInEffect(s: Mmu, p: int)
    requires Core(s) && s.Has(p) && s.ledger.refs[p] > 0
    requires !s.metas[p].resident && s.residents < s.cfg.residentLimit
    ensures var synced := SyncL2ToL1(s, p);
      var u := synced.mmu;
      && (!synced.status.Ok? ==> Core(u) && Transparent(s, u) && SameClock(s, u))
      && (synced.status.Ok? ==>
            var t := Promoted(u, p);
            Core(t) && Transparent(s, t) && t.metas[p].resident && t.touches == s.touches + [p])
  {
    hide PoolOk, Ledger.Valid, BlockOk, HistoryOk, CountsOk, TablesOk, SyncL2ToL1, AcquireL1, Transparent;
    SyncL2ToL1Effect(s, p);
    L1StaysBounded(s, p);
    var synced := SyncL2ToL1(s, p);
    if synced.status.Ok? {
      BroughtIn(s, synced.mmu, p);
    } else {
      OnlyOs(s, synced.mmu);
    }
  }

  lemma BroughtIn(s: Mmu, u: Mmu, p: int)
    requires Core(s) && s.Has(p) && s.ledger.refs[p] > 0
    requires !s.metas[p].resident && s.residents < s.cfg.residentLimit
    requires Wf(u) && SameSharing(s, u) && SameClock(s, u) && SameElsewhere(s, u, p)
    requires u.l2 == s.l2 && u.residents == s.residents && BoundsOk(u)
    requires L1Page(u, p) == Some(OrZeros(L2Page(s, p), s.cfg.blockSize))
    requires u.metas == s.metas[p := s.metas[p].(l1Frame := p)]
    ensures var t := Promoted(u, p);
      Core(t) && Transparent(s, t) && t.metas[p].resident && t.touches == s.touches + [p]
  {
    hide PoolOk, Ledger.Valid;
    assert BlockOk(s, p);
    var w := u.(residents := u.residents + 1,
                metas := u.metas[p := u.metas[p].(resident := true, l1Frame := p, tier := L1)]);
    HistorySame(s, w);
    HistoryTouched(w, p);
    var t := Touched(w, p);
    assert t.metas == s.metas[p := t.metas[p]];
    ResidentsAfter(s.metas, p, t.metas[p]);
    BlocksOkByParts(s, t, p);
    TransparentByParts(s, t, p);
  }

  /** Paging is transparent on success and on every error exit. */
  lemma EnsureResidentEffect(s: Mmu, p: int)
    requires Core(s) && s.Has(p) && s.ledger.refs[p] > 0
    ensures var r := EnsureResidentInL1(s, p);
      var t := r.mmu;
      && Core(t) && Transparent(s, t)
      && (r.status.Ok? ==> t.metas[p].resident && t.touches == s.touches + [p])
      && (!r.status.Ok? ==> SameClock(s, t))
  {
    hide PoolOk, Ledger.Valid, HistoryOk, BoundsOk, TablesOk, MakeRoom, SyncL2ToL1, Reclaim, Transparent,
         SameAt, L1Page, L2Page;
    ReclaimIdle(s, s.cfg.blocks);
    assert BlockOk(s, p);
    if s.metas[p].resident {
      TouchEffect(s, p, s.metas[p].(tier := L1));
      TouchThenTier(s, p);
    } else {
      MakeRoomEffect(s, p);
      var room := MakeRoom(s, p);
      if room.status.Ok? {
        SameAtOwned(s, room.mmu, p);
        BringInEffect(room.mmu, p);
        var synced := SyncL2ToL1(room.mmu, p);
        TransparentTrans(s, room.mmu, EnsureResidentInL1(s, p).mmu);
      }
    }
  }

  lemma TouchThenTier(s: Mmu, p: int)
    requires 0 <= p < |s.metas|
    ensures var t := Touched(s, p);
      t.(metas := t.metas[p := t.metas[p].(tier := L1)]) == Touched(s.(metas := s.metas[p := s.metas[p].(tier := L1)]), p)
  {
    var t := Touched(s, p);
    assert t.metas[p := t.metas[p].(tier := L1)] == Touched(s.(metas := s.metas[p := s.metas[p].(tier := L1)]), p).metas;
  }

  lemma SameAtOwned(s: Mmu, t: Mmu, p: int)
    requires Wf(s) && Wf(t) && t.cfg == s.cfg && s.Has(p) && SameAt(s, t, p)
    ensures t.metas[p] == s.metas[p] && (t.ledger.refs[p] == 0 <==> s.ledger.refs[p] == 0)
  {
  }
}
