/** What each API call does to the invariant and to the contents of the blocks. */
module Steps {
  import opened MmuTypes
  import opened BlockManagers
  import opened BlockDirectories
  import opened ChunkPools
  import opened Contexts
  import opened Tiering
  import opened Api
  import opened Invariants
  import opened Paging

  /** The call will have to give `(h, l)` a block of its own. */
  predicate IsShared(s: Mmu, h: Handle, l: nat) {
    var route := Resolve(s, h, l);
    route.status.Ok? && s.ledger.RefCount(route.route.block) > 1
  }

  /** A route leads to a live block. */
  lemma ResolveLive(s: Mmu, h: Handle, l: nat)
    requires Core(s) && Resolve(s, h, l).status.Ok?
    ensures var p := Resolve(s, h, l).route.block;
      s.Has(p) && s.ledger.refs[p] > 0 && h in s.tables && l < |s.tables[h]| && s.tables[h][l] == p
  {
    hide PoolOk, HistoryOk, CountsOk, BoundsOk;
    var p := Resolve(s, h, l).route.block;
    assert BlockOk(s, p);
  }

  /** The state a copy-on-write leaves before the bytes are cloned: `p` lost an owner to `q`. */
  ghost predicate Switched(s: Mmu, u: Mmu, h: Handle, l: nat, p: int, q: int)
    requires Wf(s)
  {
    && s.Has(p) && s.Has(q) && p != q
    && h in s.tables && l < |s.tables[h]| && s.tables[h][l] == p
    && s.ledger.refs[p] > 1 && s.ledger.refs[q] == 0
    && u == s.(ledger := u.ledger, tables := s.tables[h := s.tables[h][l := q]],
               metas := s.metas[q := FreshMeta().(tier := L2)])
    && u.ledger.Valid()
    && u.ledger.refs == s.ledger.refs[q := 1][p := s.ledger.refs[p] - 1]
    && s.ledger.free != [] && u.ledger.free == s.ledger.free[..|s.ledger.free| - 1]
  }

  lemma SwitchedBlocks(s: Mmu, u: Mmu, h: Handle, l: nat, p: int, q: int)
    requires Core(s) && Switched(s, u, h, l, p, q)
    ensures Core(u)
    ensures forall x :: s.Has(x) && x != q ==> Content(u, x) == Content(s, x) && SameAt(s, u, x)
    ensures Content(u, q) == Zeros(s.cfg.blockSize) && L1Page(u, q).None? && L2Page(u, q).None?
  {
    hide PoolOk, Ledger.Valid;
    assert BlockOk(s, q) && BlockOk(s, p);
    HistorySame(s, u);
    ResidentsAfter(s.metas, q, u.metas[q]);
    forall x | s.Has(x) && x != q
      ensures SameAt(s, u, x) && Content(u, x) == Content(s, x)
    {
      assert BlockOk(s, x);
      BlockOkCarries(s, u, x);
    }
    BlocksOkByParts(s, u, q);
  }

  /** Cloning reads what a reader of the source block would see. */
  lemma CloneReads(s: Mmu, p: int)
    requires Core(s) && s.Has(p) && s.ledger.refs[p] > 0
    ensures OrZeros(CloneSource(s, p, s.metas[p].tier), s.cfg.blockSize) == Content(s, p)
  {
    hide PoolOk, Ledger.Valid, HistoryOk, CountsOk, TablesOk, BoundsOk;
    assert BlockOk(s, p);
  }

  lemma CloneEffect(u: Mmu, p: int, q: int)
    requires Core(u) && u.Has(p) && u.Has(q) && p != q && u.ledger.refs[p] > 0 && u.ledger.refs[q] > 0
    requires !u.metas[q].resident
    ensures var r := CloneBlockDataForCow(u, p, u.metas[p].tier, q);
      var t := r.mmu;
      && Core(t) && SameSharing(u, t) && SameClock(u, t) && SameElsewhere(u, t, q)
      && r.status == AcquireL2(u, q).status
      && t.metas[q].pins == u.metas[q].pins && t.metas[q].dirty == u.metas[q].dirty
      && !t.metas[q].resident
      && Content(t, q) == (if r.status.Ok? then Content(u, p) else Content(u, q))
      && (t.os == u.os || t.os == u.os.Asked())
  {
    hide PoolOk, Ledger.Valid, BlocksOk, HistoryOk, CountsOk, TablesOk, BoundsOk, CloneSource, Content,
         FilledL2, AcquireL2, SameElsewhere;
    CloneReads(u, p);
    ContentSize(u, p);
    FilledL2Os(u, q, Content(u, p));
    CloneShape(u, p, q);
    var t := CloneBlockDataForCow(u, p, u.metas[p].tier, q).mmu;
    CloneInstalled(u, q, Content(u, p));
  }

  lemma ContentSize(u: Mmu, p: int)
    requires Wf(u) && u.Has(p)
    ensures |Content(u, p)| == u.cfg.blockSize
  {
    L1PageSize(u, p);
  }

  lemma FilledL2Os(u: Mmu, q: int, bytes: Page)
    requires Wf(u) && u.Has(q) && |bytes| == u.cfg.blockSize
    ensures var t := FilledL2(u, q, bytes).mmu; t.os == u.os || t.os == u.os.Asked()
  {
    hide PoolOk, Ledger.Valid;
  }

  /** Cloning into a block without an L1 frame is filling its L2 page. */
  lemma CloneShape(u: Mmu, p: int, q: int)
    requires Core(u) && u.Has(p) && u.Has(q) && u.ledger.refs[p] > 0 && !u.metas[q].resident && u.ledger.refs[q] > 0
    requires |Content(u, p)| == u.cfg.blockSize
    ensures CloneBlockDataForCow(u, p, u.metas[p].tier, q) == FilledL2(u, q, Content(u, p))
  {
    CloneReads(u, p);
    UnframedIdle(u, q);
    FilledL2Effect(u, q, Content(u, p));
    hide PoolOk, Ledger.Valid, BlocksOk, HistoryOk, CountsOk, TablesOk, BoundsOk, CloneSource, Content,
         FilledL2, AcquireL2, SameElsewhere;
  }

  lemma UnframedIdle(u: Mmu, q: int)
    requires Core(u) && u.Has(q) && u.ledger.refs[q] > 0 && !u.metas[q].resident
    ensures Returned(u.l1, q) == u.l1
  {
    assert BlockOk(u, q);
  }

  /** Filling the L2 page of a block that is not resident. */
  lemma CloneInstalled(u: Mmu, q: int, bytes: Page)
    requires Core(u) && u.Has(q) && u.ledger.refs[q] > 0 && !u.metas[q].resident && |bytes| == u.cfg.blockSize
    ensures var r := FilledL2(u, q, bytes);
      var t := r.mmu;
      && Core(t) && SameSharing(u, t) && SameClock(u, t) && SameElsewhere(u, t, q)
      && r.status == AcquireL2(u, q).status
      && t.metas[q].pins == u.metas[q].pins && t.metas[q].dirty == u.metas[q].dirty && !t.metas[q].resident
      && Content(t, q) == (if r.status.Ok? then bytes else Content(u, q))
  {
    hide PoolOk, Ledger.Valid, FilledL2, AcquireL2;
    assert BlockOk(u, q);
    FilledL2Effect(u, q, bytes);
    var r := FilledL2(u, q, bytes);
    if r.status.Ok? {
      ResidentsAfter(u.metas, q, r.mmu.metas[q]);
      HistorySame(u, r.mmu);
      BlocksOkByParts(u, r.mmu, q);
    } else {
      OnlyOs(u, r.mmu);
      OnlyOsSame(u, r.mmu, q);
    }
  }

  lemma OnlyOsSame(s: Mmu, t: Mmu, q: int)
    requires Wf(s) && Wf(t) && t == s.(os := t.os) && s.Has(q)
    ensures SameElsewhere(s, t, q) && Content(t, q) == Content(s, q) && t.metas == s.metas
  {
    hide PoolOk, Ledger.Valid;
  }

  /** The block the next copy-on-write will take. */
  function NextBlock(s: Mmu): int {
    if s.ledger.free == [] then NONE else s.ledger.free[|s.ledger.free| - 1]
  }

  predicate CopiesOnWrite(s: Mmu, h: Handle, l: nat) {
    IsShared(s, h, l) && s.ledger.free != []
  }

  /** `(h, l)` moved from the shared block `p` to the unowned block `q`, whose contents are those
      of `p`, or zeros if the clone failed; nobody else notices. */
  ghost predicate Copied(s: Mmu, t: Mmu, h: Handle, l: nat, p: int, q: int, ok: bool)
    requires Wf(s) && Wf(t)
  {
    && t.cfg == s.cfg && SameClock(s, t)
    && (t.os == s.os || t.os == s.os.Asked())
    && s.Has(p) && s.Has(q) && p != q
    && h in s.tables && l < |s.tables[h]| && s.tables[h][l] == p
    && s.ledger.refs[p] > 1 && s.ledger.refs[q] == 0
    && t.tables == s.tables[h := s.tables[h][l := q]]
    && t.ledger.refs == s.ledger.refs[q := 1][p := s.ledger.refs[p] - 1]
    && s.ledger.free != [] && t.ledger.free == s.ledger.free[..|s.ledger.free| - 1]
    && t.metas[q].pins == s.metas[q].pins == 0 && !t.metas[q].dirty && !t.metas[q].resident
    && (forall x :: s.Has(x) && x != q ==> SameAt(s, t, x) && Content(t, x) == Content(s, x))
    && Content(t, q) == (if ok then Content(s, p) else Zeros(s.cfg.blockSize))
  }

  lemma SwitchedByPrepare(s: Mmu, h: Handle, l: nat)
    requires Core(s) && CopiesOnWrite(s, h, l)
    ensures var p, q := Resolve(s, h, l).route.block, NextBlock(s);
      var a := PrepareWrite(s.ledger, s.tables[h], l);
      var u := WithMeta(s.(ledger := a.ledger, tables := s.tables[h := a.table]), q, FreshMeta().(tier := L2));
      && a.status.Ok? && a.blocks == [q]
      && Switched(s, u, h, l, p, q)
      && (s.metas[p].tier == Resolve(s, h, l).route.tier)
  {
    ResolveLive(s, h, l);
    hide PoolOk, BlockOk, HistoryOk, CountsOk, TablesOk, BoundsOk;
    var p, q := Resolve(s, h, l).route.block, NextBlock(s);
    var a := PrepareWrite(s.ledger, s.tables[h], l);
    assert s.ledger.refs[q] == 0;
  }

  lemma CopyEffect(s: Mmu, h: Handle, l: nat)
    requires Core(s) && CopiesOnWrite(s, h, l)
    ensures var p, q := Resolve(s, h, l).route.block, NextBlock(s);
      var r := PrepareBlockForWrite(s, h, l);
      && Core(r.mmu)
      && Copied(s, r.mmu, h, l, p, q, r.status.Ok?)
      && r.block == (if r.status.Ok? then q else NONE)
      && r.status == Acquire(s.l2, s.cfg.blockSize, s.cfg.l2Blocks, s.cfg.chunkBlocks, s.os, q).status
  {
    ResolveLive(s, h, l);
    SwitchedByPrepare(s, h, l);
    var p, q := Resolve(s, h, l).route.block, NextBlock(s);
    var a := PrepareWrite(s.ledger, s.tables[h], l);
    var u := WithMeta(s.(ledger := a.ledger, tables := s.tables[h := a.table]), q, FreshMeta().(tier := L2));
    SwitchedBlocks(s, u, h, l, p, q);
    FreeBlockIdle(s, q);
    hide PoolOk, Ledger.Valid, BlockOk, HistoryOk, CountsOk, TablesOk, BoundsOk, Content, L1Page, L2Page,
         PrepareWrite;
    CloneEffect(u, p, q);
    var r := CloneBlockDataForCow(u, p, u.metas[p].tier, q);
    assert PrepareBlockForWrite(s, h, l) == Prepared(r.status, r.mmu, if r.status.Ok? then q else NONE);
    CopiedFrom(s, u, r.mmu, h, l, p, q, r.status.Ok?);
  }

  lemma FreeBlockIdle(s: Mmu, q: int)
    requires Core(s) && s.Has(q) && s.ledger.refs[q] == 0
    ensures s.metas[q] == DefaultMeta()
  {
    assert BlockOk(s, q);
  }

  lemma CopiedFrom(s: Mmu, u: Mmu, t: Mmu, h: Handle, l: nat, p: int, q: int, ok: bool)
    requires Wf(s) && Wf(u) && Wf(t) && Switched(s, u, h, l, p, q) && s.metas[q] == DefaultMeta()
    requires forall x :: s.Has(x) && x != q ==> Content(u, x) == Content(s, x) && SameAt(s, u, x)
    requires Content(u, q) == Zeros(s.cfg.blockSize)
    requires SameSharing(u, t) && SameClock(u, t) && SameElsewhere(u, t, q) && (t.os == s.os || t.os == s.os.Asked())
    requires t.metas[q].pins == u.metas[q].pins && t.metas[q].dirty == u.metas[q].dirty && !t.metas[q].resident
    requires Content(t, q) == (if ok then Content(u, p) else Content(u, q))
    ensures Copied(s, t, h, l, p, q, ok)
  {
    hide PoolOk, Ledger.Valid;
    forall x | s.Has(x) && x != q
      ensures SameAt(s, t, x) && Content(t, x) == Content(s, x)
    {
      assert SameAt(s, u, x) && SameAt(u, t, x);
    }
  }

  /** Without a copy, preparing a block for writing changes nothing. */
  lemma PrepareIdle(s: Mmu, h: Handle, l: nat)
    requires Core(s) && !CopiesOnWrite(s, h, l)
    ensures var r := PrepareBlockForWrite(s, h, l);
      && r.mmu == s
      && (r.status.Ok? <==> Resolve(s, h, l).status.Ok? && !IsShared(s, h, l))
      && (r.status.Ok? ==> r.block == Resolve(s, h, l).route.block && s.ledger.RefCount(r.block) == 1)
      && r.status == (if IsShared(s, h, l) then OutOfMemory else Resolve(s, h, l).status)
  {
    if Resolve(s, h, l).status.Ok? {
      ResolveLive(s, h, l);
      hide PoolOk, BlockOk, HistoryOk, CountsOk, TablesOk, BoundsOk;
      assert s.tables == s.tables[h := s.tables[h]];
    }
  }

  /** Only the pin count of `p` changed, to `pins`; contents are as before and pinned blocks stay
      in their frames. */
  ghost predicate Repinned(s: Mmu, t: Mmu, p: int, pins: nat)
    requires Wf(s) && Wf(t)
  {
    && SameSharing(s, t) && s.Has(p)
    && t.metas[p].pins == pins
    && (forall x :: s.Has(x) && x != p ==> Unnoticed(s, t, x))
    && Content(t, p) == Content(s, p)
    && (s.metas[p].pins > 0 ==> t.l1.owner[p] == s.l1.owner[p])
  }

  lemma RepinnedAfter(s: Mmu, t: Mmu, u: Mmu, p: int, pins: nat)
    requires Wf(s) && Wf(t) && Wf(u) && Transparent(s, t) && Repinned(t, u, p, pins)
    ensures Repinned(s, u, p, pins)
  {
    hide PoolOk, Ledger.Valid, Content;
    assert Unnoticed(s, t, p);
    forall x | s.Has(x) && x != p
      ensures Unnoticed(s, u, x)
    {
      assert Unnoticed(s, t, x) && Unnoticed(t, u, x);
    }
  }

  lemma RepinnedThen(s: Mmu, t: Mmu, u: Mmu, p: int, pins: nat)
    requires Wf(s) && Wf(t) && Wf(u) && Repinned(s, t, p, pins) && Transparent(t, u)
    requires pins == 0 ==> u.l1.owner[p] == t.l1.owner[p]
    ensures Repinned(s, u, p, pins)
  {
    hide PoolOk, Ledger.Valid, Content;
    assert Unnoticed(t, u, p);
    forall x | s.Has(x) && x != p
      ensures Unnoticed(s, u, x)
    {
      assert Unnoticed(s, t, x) && Unnoticed(t, u, x);
    }
  }

  /** Bookkeeping of one live block: pins and the dirty flag, and possibly a touch. */
  lemma BookkeepingEffect(s: Mmu, p: int, m: Meta)
    requires Core(s) && s.Has(p) && s.ledger.refs[p] > 0
    requires m == s.metas[p].(pins := m.pins, dirty := m.dirty) && (m.pins > 0 ==> L1Page(s, p).Some?)
    ensures var t := s.(metas := s.metas[p := m]);
      Core(t) && Repinned(s, t, p, m.pins) && SameElsewhere(s, t, p)
    ensures var t := Touched(s.(metas := s.metas[p := m]), p);
      Core(t) && Repinned(s, t, p, m.pins)
  {
    hide PoolOk, Ledger.Valid;
    var t := s.(metas := s.metas[p := m]);
    assert BlockOk(s, p);
    HistorySame(s, t);
    ResidentsAfter(s.metas, p, m);
    BlocksOkByParts(s, t, p);
    ElsewhereUnnoticed(s, t, p);
    TouchEffect(t, p, m);
    assert t.metas[p := m] == t.metas;
    RepinnedThen(s, t, Touched(t, p), p, m.pins);
  }

  lemma ElsewhereUnnoticed(s: Mmu, t: Mmu, p: int)
    requires Wf(s) && Wf(t) && t.cfg == s.cfg && SameElsewhere(s, t, p)
    ensures forall x :: s.Has(x) && x != p ==> Unnoticed(s, t, x)
  {
    hide PoolOk, Ledger.Valid, L1Page, L2Page;
    forall x | s.Has(x) && x != p
      ensures Unnoticed(s, t, x)
    {
      assert SameAt(s, t, x);
    }
  }

  /** Giving a resident block its L1 frame. */
  lemma FrameEffect(s: Mmu, p: int)
    requires Core(s) && s.Has(p) && s.ledger.refs[p] > 0 && s.metas[p].resident
    ensures var a := AcquireL1(s, p);
      var t := s.(l1 := a.pool, os := a.os);
      && Core(t) && Transparent(s, t) && SameElsewhere(s, t, p) && t.metas == s.metas
      && (a.status.Ok? ==> L1Page(t, p).Some?)
  {
    assert BlockOk(s, p);
    AcquireL1Effect(s, p);
    L1StaysBounded(s, p);
    hide PoolOk, Ledger.Valid, AcquireL1;
    var a := AcquireL1(s, p);
    var t := s.(l1 := a.pool, os := a.os);
    if a.status.Ok? {
      HistorySame(s, t);
      BlocksOkByParts(s, t, p);
      TransparentByParts(s, t, p);
    } else {
      OnlyOs(s, t);
      OnlyOsSame(s, t, p);
    }
  }

  lemma PinnedEffect(s: Mmu, p: int, l: nat, flags: nat)
    requires Core(s) && s.Has(p) && s.ledger.refs[p] > 0 && s.metas[p].resident
    ensures var r := Pinned(s, p, l, flags);
      var t := r.mmu;
      && Core(t)
      && (!r.status.Ok? ==> Transparent(s, t))
      && (r.status.Ok? ==>
            && Repinned(s, t, p, s.metas[p].pins + 1)
            && r.mapped == MappedBlock(t.l1.owner[p], s.cfg.blockSize, p, l, flags))
      && r.status == AcquireL1(s, p).status
  {
    hide Core, Wf, AcquireL1, L1Page, L2Page, Repinned, Transparent, SameElsewhere, Content;
    CoreWf(s);
    WfSizes(s);
    FrameEffect(s, p);
    var a := AcquireL1(s, p);
    var t := s.(l1 := a.pool, os := a.os);
    CoreWf(t);
    if a.status.Ok? {
      var m := t.metas[p];
      BookkeepingEffect(t, p, m.(pins := m.pins + 1));
      RepinnedAfter(s, t, Pinned(s, p, l, flags).mmu, p, m.pins + 1);
    }
  }

  /** Writing a resident block back to L2. */
  lemma WriteBackEffect(s: Mmu, p: int)
    requires Core(s) && s.Has(p) && s.ledger.refs[p] > 0 && s.metas[p].resident
    ensures var r := SyncL1ToL2(s, p);
      var t := r.mmu;
      && Core(t) && Transparent(s, t) && t.l1 == s.l1
      && t.metas[p].resident && t.metas[p].pins == s.metas[p].pins
      && r.status == AcquireL2(s, p).status
  {
    hide PoolOk, Ledger.Valid, SyncL1ToL2, AcquireL2;
    assert BlockOk(s, p);
    SyncL1ToL2Effect(s, p);
    var r := SyncL1ToL2(s, p);
    if r.status.Ok? {
      ResidentsAfter(s.metas, p, r.mmu.metas[p]);
      HistorySame(s, r.mmu);
      BlocksOkByParts(s, r.mmu, p);
      TransparentByParts(s, r.mmu, p);
    } else {
      OnlyOs(s, r.mmu);
    }
  }

  function Less(pins: nat): nat {
    if pins > 0 then pins - 1 else 0
  }

  /** Writing back and marking clean. */
  lemma WrittenBackEffect(s: Mmu, p: int)
    requires Core(s) && s.Has(p) && s.ledger.refs[p] > 0 && s.metas[p].resident
    ensures var r := WrittenBack(s, p);
      var t := r.mmu;
      Core(t) && Repinned(s, t, p, s.metas[p].pins) && t.l1.owner[p] == s.l1.owner[p] && t.metas[p].pins == s.metas[p].pins
  {
    hide PoolOk, Ledger.Valid, BlocksOk, HistoryOk, CountsOk, TablesOk, BoundsOk, L1Page, L2Page, Repinned,
         Transparent, Content, SyncL1ToL2;
    WriteBackEffect(s, p);
    var t := SyncL1ToL2(s, p).mmu;
    RepinnedSelf(s, t, p);
    if SyncL1ToL2(s, p).status.Ok? {
      FramedIfPinned(t, p);
      BookkeepingEffect(t, p, t.metas[p].(dirty := false));
      RepinnedAfter(s, t, WrittenBack(s, p).mmu, p, s.metas[p].pins);
    }
  }

  lemma FramedIfPinned(s: Mmu, p: int)
    requires Core(s) && s.Has(p) && s.ledger.refs[p] > 0
    ensures s.metas[p].pins > 0 ==> L1Page(s, p).Some?
  {
    assert BlockOk(s, p);
  }

  lemma RepinnedSelf(s: Mmu, t: Mmu, p: int)
    requires Wf(s) && Wf(t) && Transparent(s, t) && s.Has(p)
    ensures Repinned(s, t, p, s.metas[p].pins) && SameSharing(s, t)
  {
    hide PoolOk, Ledger.Valid, Content;
    assert Unnoticed(s, t, p);
  }

  lemma UnpinnedEffect(s: Mmu, p: int, write: bool)
    requires Core(s) && s.Has(p) && s.ledger.refs[p] > 0
    ensures var t := Unpinned(s, p, write).mmu;
      Core(t) && Repinned(s, t, p, Less(s.metas[p].pins)) && t.l1.owner[p] == s.l1.owner[p]
  {
    hide PoolOk, Ledger.Valid, BlocksOk, HistoryOk, CountsOk, TablesOk, BoundsOk, L1Page, L2Page, WrittenBack;
    FramedIfPinned(s, p);
    var m := s.metas[p].(pins := Less(s.metas[p].pins), dirty := s.metas[p].dirty || write);
    BookkeepingEffect(s, p, m);
    var s1 := PinDropped(s, p, write);
    if write && m.resident {
      WrittenBackEffect(s1, p);
      var t := WrittenBack(s1, p).mmu;
      RepinnedTrans(s, s1, t, p);
      if WrittenBack(s1, p).status.Ok? {
        TouchedUnpinned(s, t, p);
      }
    }
  }

  lemma TouchedUnpinned(s: Mmu, t: Mmu, p: int)
    requires Wf(s) && Core(t) && t.cfg == s.cfg && s.Has(p) && t.ledger.refs[p] > 0
    requires Repinned(s, t, p, t.metas[p].pins) && t.l1.owner[p] == s.l1.owner[p]
    ensures var u := Touched(t, p);
      Core(u) && Repinned(s, u, p, t.metas[p].pins) && u.l1.owner[p] == s.l1.owner[p]
  {
    hide PoolOk, Ledger.Valid, BlocksOk, HistoryOk, CountsOk, TablesOk, BoundsOk, L1Page, L2Page, Content;
    FramedIfPinned(t, p);
    BookkeepingEffect(t, p, t.metas[p]);
    assert t.metas[p := t.metas[p]] == t.metas;
    assert t.(metas := t.metas) == t;
    RepinnedTrans(s, t, Touched(t, p), p);
  }

  lemma RepinnedTrans(s: Mmu, t: Mmu, u: Mmu, p: int)
    requires Wf(s) && Wf(t) && Wf(u) && t.cfg == s.cfg && s.Has(p)
    requires Repinned(s, t, p, t.metas[p].pins) && Repinned(t, u, p, t.metas[p].pins)
    requires u.l1.owner[p] == t.l1.owner[p]
    ensures Repinned(s, u, p, t.metas[p].pins)
  {
    hide PoolOk, Ledger.Valid, Content;
    forall x | s.Has(x) && x != p
      ensures Unnoticed(s, u, x)
    {
      assert Unnoticed(s, t, x) && Unnoticed(t, u, x);
    }
  }

  lemma UnmapEffect(s: Mmu, h: Handle, mapped: MappedBlock)
    requires Core(s)
    ensures var r := UnmapLogicalBlock(s, h, mapped);
      && Core(r.mmu)
      && (Releases(s, h, mapped) ==>
            && Repinned(s, r.mmu, mapped.block, Less(s.metas[mapped.block].pins))
            && r.mmu.l1.owner[mapped.block] == s.l1.owner[mapped.block])
      && (!Releases(s, h, mapped) ==> r.mmu == s && !r.status.Ok?)
  {
    if Releases(s, h, mapped) {
      ResolveLive(s, h, mapped.logical);
      UnpinnedEffect(s, mapped.block, HasWrite(mapped.flags));
    }
  }

  /** The mapping still names the block behind its logical block, so unmapping it reaches the pin. */
  predicate Releases(s: Mmu, h: Handle, mapped: MappedBlock) {
    var route := Resolve(s, h, mapped.logical);
    s.ledger.Has(mapped.block) && route.status.Ok? && route.route.block == mapped.block
  }

  lemma TransparentAt(s: Mmu, t: Mmu, p: int)
    requires Wf(s) && Wf(t) && Transparent(s, t) && s.Has(p)
    ensures SameSharing(s, t) && t.metas[p].pins == s.metas[p].pins
  {
    hide PoolOk, Ledger.Valid, Content;
    assert Unnoticed(s, t, p);
  }

  lemma MapResidentEffect(s: Mmu, h: Handle, l: nat, flags: nat)
    requires Core(s)
    ensures var r := MapResident(s, h, l, flags);
      var p := Resolve(s, h, l).route.block;
      && Core(r.mmu)
      && (!r.status.Ok? ==> Transparent(s, r.mmu))
      && (r.status.Ok? ==>
            && Resolve(s, h, l).status.Ok? && s.Has(p)
            && Repinned(s, r.mmu, p, s.metas[p].pins + 1)
            && r.mapped == MappedBlock(r.mmu.l1.owner[p], s.cfg.blockSize, p, l, flags))
  {
    hide PoolOk, Ledger.Valid, BlocksOk, HistoryOk, CountsOk, TablesOk, BoundsOk, L1Page, L2Page, Repinned,
         Transparent, Content, EnsureResidentInL1, Pinned, Resolve;
    var route := Resolve(s, h, l);
    if route.status.Ok? {
      var p := route.route.block;
      ResolveLive(s, h, l);
      EnsureResidentEffect(s, p);
      var t := EnsureResidentInL1(s, p);
      if t.status.Ok? {
        TransparentAt(s, t.mmu, p);
        PinnedEffect(t.mmu, p, l, flags);
        var u := Pinned(t.mmu, p, l, flags);
        if u.status.Ok? {
          RepinnedAfter(s, t.mmu, u.mmu, p, s.metas[p].pins + 1);
        } else {
          TransparentTrans(s, t.mmu, u.mmu);
        }
      }
    } else {
      TransparentByParts(s, s, NONE);
    }
  }
}
