/** Creating, forking, growing, shrinking and destroying contexts: the invariant is kept on every
    path, including failed allocations, and blocks that stay owned keep their contents. */
module Lifecycle {
  import opened MmuTypes
  import opened BlockManagers
  import opened BlockDirectories
  import opened ChunkPools
  import opened Contexts
  import opened Tiering
  import opened Api
  import opened Invariants
  import opened Paging
  import opened Steps

  lemma InitialCore(cfg: Config, os: Os)
    requires ConfigOk(cfg)
    ensures Core(Initial(cfg, os))
  {
    var s := Initial(cfg, os);
    CountBounds(s.metas, IsResident);
    hide PoolOk, Ledger.Valid;
  }

  lemma CreateCore(s: Mmu, h: Handle)
    requires Core(s) && h !in s.tables
    ensures Core(CreateContext(s, h))
    ensures forall p :: s.Has(p) ==> SameAt(s, CreateContext(s, h), p)
  {
    hide PoolOk, Ledger.Valid;
    LedgerChange(s, CreateContext(s, h));
  }

  /** Ownership may change as long as no block is born or orphaned. */
  lemma LedgerChange(s: Mmu, t: Mmu)
    requires Core(s) && t == s.(ledger := t.ledger, tables := t.tables)
    requires t.ledger.Valid() && |t.ledger.refs| == s.cfg.blocks && TablesOk(t)
    requires forall p :: s.Has(p) ==> (t.ledger.refs[p] == 0 <==> s.ledger.refs[p] == 0)
    ensures Core(t)
    ensures forall p :: s.Has(p) ==> SameAt(s, t, p) && Content(t, p) == Content(s, p)
  {
    hide PoolOk, Ledger.Valid;
    LedgerChangeRest(s, t);
    forall p | s.Has(p)
      ensures SameAt(s, t, p) && BlockOk(t, p) && Content(t, p) == Content(s, p)
    {
      assert BlockOk(s, p);
      BlockOkCarries(s, t, p);
    }
  }

  lemma LedgerChangeRest(s: Mmu, t: Mmu)
    requires AllButBlocks(s) && t == s.(ledger := t.ledger, tables := t.tables)
    requires t.ledger.Valid() && |t.ledger.refs| == s.cfg.blocks && TablesOk(t)
    ensures AllButBlocks(t)
  {
    hide PoolOk, Ledger.Valid, TablesOk;
  }

  lemma ForkCore(s: Mmu, src: Handle, h: Handle)
    requires Core(s) && h !in s.tables
    ensures var t := ForkContext(s, src, h).mmu;
      Core(t) && forall p :: s.Has(p) ==> SameAt(s, t, p) && Content(t, p) == Content(s, p)
  {
    hide PoolOk, BlockOk, HistoryOk, CountsOk, BoundsOk;
    if src in s.tables {
      var t := ForkContext(s, src, h).mmu;
      forall p | s.Has(p)
        ensures t.ledger.refs[p] == 0 <==> s.ledger.refs[p] == 0
      {
        RetainEachCounts(s.ledger, s.tables[src], p);
      }
      hide Ledger.Valid;
      LedgerChange(s, t);
    } else {
      hide Ledger.Valid;
      LedgerChange(s, s);
    }
  }

  /** A block that was just taken from the free list and not yet registered. */
  ghost predicate Unregistered(s: Mmu, p: int)
    requires Wf(s)
  {
    s.Has(p) && s.ledger.refs[p] > 0 && s.metas[p] == DefaultMeta() && L1Page(s, p).None? && L2Page(s, p).None?
  }

  ghost predicate Registered(s: Mmu, p: int)
    requires Wf(s)
  {
    && s.Has(p) && BlockOk(s, p)
    && s.metas[p].live && s.metas[p].pins == 0 && !s.metas[p].dirty && Content(s, p) == Zeros(s.cfg.blockSize)
  }

  /** A fresh block takes a resident slot, without a frame, if one is left. */
  lemma RegisterShape(s: Mmu, p: int)
    requires Wf(s) && Unregistered(s, p)
    ensures RegisterFreshBlock(s, p) ==
            if s.residents < s.cfg.residentLimit then
              Touched(s.(residents := s.residents + 1,
                         metas := s.metas[p := FreshMeta().(resident := true, l1Frame := p)]), p)
            else s.(metas := s.metas[p := FreshMeta().(tier := L2)])
  {
    hide PoolOk, Ledger.Valid;
    var t := RegisterFreshBlock(s, p);
    assert Returned(s.l1, p) == s.l1 && Returned(s.l2, p) == s.l2;
    if s.residents < s.cfg.residentLimit {
      assert t.metas == s.metas[p := FreshMeta().(resident := true, l1Frame := p, epoch := s.epoch + 1)];
    } else {
      assert t.metas == s.metas[p := FreshMeta().(tier := L2)];
    }
  }

  lemma RegisterEffect(s: Mmu, p: int)
    requires AllButBlocks(s) && Unregistered(s, p)
    ensures var t := RegisterFreshBlock(s, p);
      AllButBlocks(t) && SameSharing(s, t) && SameElsewhere(s, t, p) && Registered(t, p)
  {
    hide PoolOk, Ledger.Valid, RegisterFreshBlock, HistoryOk, CountsOk, TablesOk, BoundsOk;
    RegisterShape(s, p);
    RegisterHistory(s, p);
    RegisterCounts(s, p);
    assert RegisterFreshBlock(s, p).metas == s.metas[p := RegisterFreshBlock(s, p).metas[p]];
  }

  lemma RegisterCounts(s: Mmu, p: int)
    requires AllButBlocks(s) && Unregistered(s, p)
    ensures var t := RegisterFreshBlock(s, p); CountsOk(t) && TablesOk(t) && BoundsOk(t)
  {
    hide PoolOk, Ledger.Valid, RegisterFreshBlock, HistoryOk, L1Page, L2Page;
    RegisterShape(s, p);
    var t := RegisterFreshBlock(s, p);
    ResidentsAfter(s.metas, p, t.metas[p]);
    assert t.metas == s.metas[p := t.metas[p]];
  }

  lemma RegisterHistory(s: Mmu, p: int)
    requires AllButBlocks(s) && Unregistered(s, p)
    ensures HistoryOk(RegisterFreshBlock(s, p))
  {
    hide PoolOk, Ledger.Valid, CountsOk, TablesOk, BoundsOk, L1Page, L2Page;
    var t := RegisterFreshBlock(s, p);
    var u := s.(metas := s.metas[p := t.metas[p].(epoch := 0)]);
    HistorySame(s, u);
    HistoryTouched(u, p);
    assert t.metas == u.metas || t.metas == Touched(u, p).metas;
  }

  ghost predicate Distinct(blocks: seq<int>) {
    forall i, j :: 0 <= i < j < |blocks| ==> blocks[i] != blocks[j]
  }

  lemma {:induction false} RegisterEachEffect(s: Mmu, blocks: seq<int>)
    requires AllButBlocks(s) && Distinct(blocks)
    requires forall i :: 0 <= i < |blocks| ==> Unregistered(s, blocks[i])
    ensures var t := RegisterEach(s, blocks);
      && AllButBlocks(t) && SameSharing(s, t)
      && (forall i :: 0 <= i < |blocks| ==> Registered(t, blocks[i]))
      && (forall p :: s.Has(p) && p !in blocks ==> SameAt(s, t, p))
  {
    hide PoolOk, Ledger.Valid, HistoryOk, CountsOk, TablesOk, BoundsOk, RegisterFreshBlock, L1Page, L2Page,
         BlockOk, Content;
    if blocks != [] {
      var rest, p := blocks[..|blocks| - 1], blocks[|blocks| - 1];
      forall i | 0 <= i < |rest|
        ensures Unregistered(s, rest[i])
      {
        assert Unregistered(s, blocks[i]);
      }
      RegisterEachEffect(s, rest);
      var u := RegisterEach(s, rest);
      assert SameAt(s, u, p) && Unregistered(s, p);
      RegisterEffect(u, p);
      var t := RegisterFreshBlock(u, p);
      forall i | 0 <= i < |blocks|
        ensures Registered(t, blocks[i])
      {
        if i < |rest| {
          assert Registered(u, rest[i]) && SameAt(u, t, rest[i]);
          BlockOkCarries(u, t, rest[i]);
        }
      }
      forall q | s.Has(q) && q !in blocks
        ensures SameAt(s, t, q)
      {
        assert SameAt(s, u, q) && SameAt(u, t, q);
      }
    }
  }

  /** The blocks a successful allocation hands out: distinct, unowned before, owned once after. */
  lemma AllocatedBlocks(ledger: Ledger, table: seq<int>, num: nat)
    requires ledger.Valid() && num <= |ledger.free|
    ensures var a := Allocate(ledger, table, num);
      && Distinct(a.blocks) && |a.blocks| == num
      && (forall i :: 0 <= i < |a.blocks| ==> ledger.Has(a.blocks[i]) && ledger.refs[a.blocks[i]] == 0)
      && (forall p :: ledger.Has(p) ==> a.ledger.refs[p] == if p in a.blocks then 1 else ledger.refs[p])
  {
    forall p | ledger.Has(p)
      ensures Allocate(ledger, table, num).ledger.refs[p]
           == if p in NextFree(ledger.free, num) then 1 else ledger.refs[p]
    {
      TakeFreeCounts(ledger, num, p);
    }
  }

  lemma AllocateTablesOk(s: Mmu, h: Handle, num: nat)
    requires Wf(s) && TablesOk(s) && h in s.tables
    ensures var a := Allocate(s.ledger, s.tables[h], num);
      TablesOk(s.(ledger := a.ledger, tables := s.tables[h := a.table]))
  {
    hide PoolOk;
    var a := Allocate(s.ledger, s.tables[h], num);
    assert InRange(s.tables[h], s.cfg.blocks);
    assert InRange(a.table, s.cfg.blocks);
  }

  /** The state after a successful allocation: only the new blocks differ, and they hold zeros. */
  ghost predicate Grown(s: Mmu, t: Mmu, h: Handle, blocks: seq<int>)
    requires Wf(s) && Wf(t)
  {
    && t.cfg == s.cfg && h in s.tables && t.tables == s.tables[h := s.tables[h] + blocks]
    && Distinct(blocks)
    && (forall i :: 0 <= i < |blocks| ==> Registered(t, blocks[i]) && s.ledger.refs[blocks[i]] == 0)
    && (forall p :: s.Has(p) ==> t.ledger.refs[p] == if p in blocks then 1 else s.ledger.refs[p])
    && (forall p :: s.Has(p) && p !in blocks ==> SameAt(s, t, p) && Content(t, p) == Content(s, p))
  }

  /** The context and the manager after a successful allocation, before registration. */
  ghost function Extended(s: Mmu, h: Handle, num: nat): Mmu
    requires Wf(s) && h in s.tables
  {
    var a := Allocate(s.ledger, s.tables[h], num);
    s.(ledger := a.ledger, tables := s.tables[h := a.table])
  }

  lemma ExtendedEffect(s: Mmu, h: Handle, num: nat)
    requires Core(s) && h in s.tables && num <= |s.ledger.free|
    ensures var u := Extended(s, h, num);
      var blocks := NextFree(s.ledger.free, num);
      && AllButBlocks(u) && u == s.(ledger := u.ledger, tables := s.tables[h := s.tables[h] + blocks])
      && Distinct(blocks)
      && (forall i :: 0 <= i < |blocks| ==> Unregistered(u, blocks[i]) && s.ledger.refs[blocks[i]] == 0)
      && (forall p :: s.Has(p) ==> u.ledger.refs[p] == if p in blocks then 1 else s.ledger.refs[p])
  {
    hide PoolOk, Ledger.Valid, Allocate, NextFree, BlocksOk, HistoryOk, CountsOk, TablesOk, BoundsOk;
    AllocatedBlocks(s.ledger, s.tables[h], num);
    AllocateTablesOk(s, h, num);
    AllocateBlocksFields(s.ledger, s.tables[h], num);
    var u := Extended(s, h, num);
    var blocks := NextFree(s.ledger.free, num);
    LedgerChangeRest(s, u);
    forall i | 0 <= i < |blocks|
      ensures Unregistered(u, blocks[i]) && s.ledger.refs[blocks[i]] == 0
    {
      FreeIsDefault(s, blocks[i]);
    }
  }

  lemma AllocateShape(s: Mmu, h: Handle, num: nat)
    requires Core(s) && h in s.tables && num <= INT_MAX && num <= |s.ledger.free|
    ensures AllocateBlocks(s, h, num) == Outcome(Ok, RegisterEach(Extended(s, h, num), NextFree(s.ledger.free, num)))
    ensures Extended(s, h, num).ledger.free == s.ledger.free[..|s.ledger.free| - num]
  {
    ReclaimIdle(s, s.cfg.blocks);
    AllocateBlocksFields(s.ledger, s.tables[h], num);
    hide PoolOk, Ledger.Valid, Allocate, NextFree, Reclaim, RegisterEach, BlockOk, HistoryOk, CountsOk,
         TablesOk, BoundsOk;
  }

  lemma GrownByRegistering(s: Mmu, u: Mmu, h: Handle, blocks: seq<int>)
    requires Core(s) && h in s.tables && AllButBlocks(u)
    requires u == s.(ledger := u.ledger, tables := s.tables[h := s.tables[h] + blocks]) && Distinct(blocks)
    requires forall i :: 0 <= i < |blocks| ==> Unregistered(u, blocks[i]) && s.ledger.refs[blocks[i]] == 0
    requires forall p :: s.Has(p) ==> u.ledger.refs[p] == if p in blocks then 1 else s.ledger.refs[p]
    ensures var t := RegisterEach(u, blocks);
      Core(t) && Grown(s, t, h, blocks)
  {
    hide PoolOk, Ledger.Valid, RegisterEach, BlockOk, HistoryOk, CountsOk, TablesOk, BoundsOk, Content, L1Page,
         L2Page;
    RegisterEachEffect(u, blocks);
    GrownBlocks(s, u, RegisterEach(u, blocks), blocks);
  }

  lemma AllocateEffect(s: Mmu, h: Handle, num: nat)
    requires Core(s) && h in s.tables && num <= INT_MAX && num <= |s.ledger.free|
    ensures var r := AllocateBlocks(s, h, num);
      && r.status.Ok? && Core(r.mmu)
      && r.mmu.ledger.free == s.ledger.free[..|s.ledger.free| - num]
      && Grown(s, r.mmu, h, NextFree(s.ledger.free, num))
  {
    hide PoolOk, Ledger.Valid, Extended, AllocateBlocks, NextFree, RegisterEach, BlockOk, HistoryOk, CountsOk,
         TablesOk, BoundsOk, Grown;
    AllocateShape(s, h, num);
    ExtendedEffect(s, h, num);
    GrownByRegistering(s, Extended(s, h, num), h, NextFree(s.ledger.free, num));
  }

  lemma AllocateBlocksFields(ledger: Ledger, table: seq<int>, num: nat)
    requires ledger.Valid() && num <= |ledger.free|
    ensures var a := Allocate(ledger, table, num);
      && a.status.Ok? && a.blocks == NextFree(ledger.free, num) && a.table == table + a.blocks
      && a.ledger.free == ledger.free[..|ledger.free| - num]
  {
  }

  lemma FreeIsDefault(s: Mmu, p: int)
    requires Core(s) && s.Has(p) && s.ledger.refs[p] == 0
    ensures s.metas[p] == DefaultMeta() && L1Page(s, p).None? && L2Page(s, p).None?
  {
    assert BlockOk(s, p);
  }

  lemma GrownBlocks(s: Mmu, s1: Mmu, t: Mmu, blocks: seq<int>)
    requires Core(s) && Wf(s1) && s1 == s.(ledger := s1.ledger, tables := s1.tables)
    requires AllButBlocks(t) && SameSharing(s1, t)
    requires forall p :: s.Has(p) ==> s1.ledger.refs[p] == if p in blocks then 1 else s.ledger.refs[p]
    requires forall i :: 0 <= i < |blocks| ==> Registered(t, blocks[i])
    requires forall p :: s.Has(p) && p !in blocks ==> SameAt(s1, t, p)
    ensures Core(t)
    ensures forall p :: s.Has(p) && p !in blocks ==> SameAt(s, t, p) && Content(t, p) == Content(s, p)
  {
    hide PoolOk, Ledger.Valid, HistoryOk, CountsOk, TablesOk, BoundsOk;
    forall p | s.Has(p) && p !in blocks
      ensures SameAt(s, t, p) && BlockOk(t, p) && Content(t, p) == Content(s, p)
    {
      assert SameAt(s1, t, p) && BlockOk(s, p);
      BlockOkCarries(s, t, p);
    }
    forall p | s.Has(p)
      ensures BlockOk(t, p)
    {
      if p in blocks {
        var i :| 0 <= i < |blocks| && blocks[i] == p;
        assert Registered(t, blocks[i]);
      }
    }
  }

  /** A failed allocation frees the blocks again, which turns the free list round; otherwise only the
      page table keeps a trace of it. */
  lemma AllocateFails(s: Mmu, h: Handle, num: nat)
    requires Core(s) && h in s.tables && num <= INT_MAX && num > |s.ledger.free|
    ensures var r := AllocateBlocks(s, h, num);
      var t := r.mmu;
      && r.status == OutOfMemory && Core(t) && t.cfg == s.cfg
      && t.tables == s.tables[h := s.tables[h] + NextFree(s.ledger.free, |s.ledger.free|)]
      && t.ledger.refs == s.ledger.refs && Backwards(s.ledger.free, t.ledger.free)
      && forall p :: s.Has(p) ==> SameAt(s, t, p) && Content(t, p) == Content(s, p)
  {
    hide Core, Wf, Extended, AllocateBlocks, NextFree, Backwards, SameAt, Content;
    CoreWf(s);
    FailedShape(s, h, num);
    FailedExtension(s, h, num);
    LedgerChange(s, Extended(s, h, num));
  }

  lemma FailedShape(s: Mmu, h: Handle, num: nat)
    requires Core(s) && h in s.tables && num <= INT_MAX && num > |s.ledger.free|
    ensures AllocateBlocks(s, h, num) == Outcome(OutOfMemory, Extended(s, h, num))
  {
    ReclaimIdle(s, s.cfg.blocks);
    hide PoolOk, Ledger.Valid, NextFree, TakeFree, ReleaseEach, Reclaim, BlockOk, HistoryOk, CountsOk, TablesOk, BoundsOk;
  }

  lemma FailedExtension(s: Mmu, h: Handle, num: nat)
    requires Core(s) && h in s.tables && num <= INT_MAX && num > |s.ledger.free|
    ensures var u := Extended(s, h, num);
      && u == s.(ledger := u.ledger, tables := s.tables[h := s.tables[h] + NextFree(s.ledger.free, |s.ledger.free|)])
      && u.ledger.Valid() && |u.ledger.refs| == s.cfg.blocks && TablesOk(u)
      && u.ledger.refs == s.ledger.refs && Backwards(s.ledger.free, u.ledger.free)
  {
    FailedAllocationRestoresCounts(s.ledger, num);
    FailedAllocationReversesFree(s.ledger, num);
    AllocateTablesOk(s, h, num);
    hide PoolOk, Ledger.Valid, NextFree, TakeFree, ReleaseEach, BlocksOk, HistoryOk, CountsOk, TablesOk, BoundsOk,
         Backwards;
  }

  lemma AllocateCore(s: Mmu, h: Handle, num: nat)
    requires Core(s)
    ensures Core(AllocateBlocks(s, h, num).mmu)
  {
    if h in s.tables && num <= INT_MAX {
      if num <= |s.ledger.free| {
        AllocateEffect(s, h, num);
      } else {
        AllocateFails(s, h, num);
      }
    }
  }

  /** A block that is still owned afterwards is not disturbed by others being let go. */
  ghost predicate Survives(s: Mmu, t: Mmu, p: int)
    requires Wf(s) && Wf(t) && t.cfg == s.cfg && s.Has(p)
  {
    t.ledger.refs[p] > 0 ==> s.ledger.refs[p] > 0 && SameAt(s, t, p) && Content(t, p) == Content(s, p)
  }

  lemma DestroyEffect(s: Mmu, h: Handle)
    requires Core(s) && h in s.tables
    ensures var t := DestroyContext(s, h);
      && Core(t) && t.cfg == s.cfg && t.tables == s.tables - {h}
      && t.ledger == ReleaseEach(s.ledger, s.tables[h])
      && forall p :: s.Has(p) ==> Survives(s, t, p)
  {
    var u := Dropped(s, h);
    DroppedEffect(s, h);
    ReclaimEffect(u, s.cfg.blocks);
    hide PoolOk, Ledger.Valid, HistoryOk, CountsOk, TablesOk, BoundsOk, Reclaim, Dropped, BlockOk;
    var t := Reclaim(u, s.cfg.blocks);
    forall p | s.Has(p)
      ensures BlockOk(t, p) && Survives(s, t, p)
    {
      if u.ledger.refs[p] > 0 {
        assert SameAt(u, t, p) && SameAt(s, u, p) && BlockOk(s, p);
        BlockOkCarries(s, t, p);
      }
    }
  }

  lemma DestroyNothing(s: Mmu, h: Handle)
    requires Wf(s) && h !in s.tables
    ensures DestroyContext(s, h) == s
  {
  }

  lemma DroppedEffect(s: Mmu, h: Handle)
    requires Core(s) && h in s.tables
    ensures var u := Dropped(s, h);
      && AllButBlocks(u)
      && u.cfg == s.cfg && u.tables == s.tables - {h} && u.ledger == ReleaseEach(s.ledger, s.tables[h])
      && forall p :: s.Has(p) && u.ledger.refs[p] > 0 ==> s.ledger.refs[p] > 0 && SameAt(s, u, p)
  {
    var u := Dropped(s, h);
    forall p | s.Has(p)
      ensures u.ledger.refs[p] <= s.ledger.refs[p]
    {
      ReleaseEachCounts(s.ledger, s.tables[h], p);
    }
    hide PoolOk, Ledger.Valid, BlockOk;
    assert TablesOk(u);
    LedgerChangeRest(s, u);
  }

  lemma ReleaseEffect(s: Mmu, h: Handle, l: nat)
    requires Core(s)
    ensures var r := ReleaseLogicalBlock(s, h, l);
      var t := r.mmu;
      var p := Resolve(s, h, l).route.block;
      && Core(t) && t.cfg == s.cfg
      && (!r.status.Ok? ==> t == s && r.status == Resolve(s, h, l).status)
      && (r.status.Ok? ==>
            && Resolve(s, h, l).status.Ok? && s.Has(p) && s.ledger.refs[p] > 0
            && h in s.tables && l < |s.tables[h]| && s.tables[h][l] == p
            && t.tables == s.tables[h := s.tables[h][l := NONE]]
            && t.ledger == s.ledger.Released(p)
            && forall q :: s.Has(q) ==> Survives(s, t, q))
  {
    hide Core, Wf, Survives, Forget, TablesOk, Ledger.Valid;
    CoreWf(s);
    WfSizes(s);
    var route := Resolve(s, h, l);
    if route.status.Ok? {
      var p := route.route.block;
      ResolveLive(s, h, l);
      var u := s.(ledger := s.ledger.Released(p), tables := s.tables[h := s.tables[h][l := NONE]]);
      EntryCleared(s, u, h, l);
      ReleaseShape(s, u, h, l);
      if u.ledger.refs[p] == 0 {
        LetGo(s, u, p);
      } else {
        LedgerChange(s, u);
        SameSurvives(s, u);
      }
    }
  }

  lemma ReleaseShape(s: Mmu, u: Mmu, h: Handle, l: nat)
    requires Core(s) && Wf(u) && Resolve(s, h, l).status.Ok?
    requires var p := Resolve(s, h, l).route.block;
      h in s.tables && l < |s.tables[h]|
      && u == s.(ledger := s.ledger.Released(p), tables := s.tables[h := s.tables[h][l := NONE]])
    ensures var p := Resolve(s, h, l).route.block;
      s.Has(p) && ReleaseLogicalBlock(s, h, l) == Outcome(Ok, if u.ledger.refs[p] == 0 then Forget(u, p) else u)
  {
    ResolveLive(s, h, l);
    hide PoolOk, BlocksOk, HistoryOk, CountsOk, TablesOk, BoundsOk, Ledger.Valid, Forget;
  }

  lemma EntryCleared(s: Mmu, u: Mmu, h: Handle, l: nat)
    requires Core(s) && h in s.tables && l < |s.tables[h]| && s.Has(s.tables[h][l])
    requires u == s.(ledger := s.ledger.Released(s.tables[h][l]), tables := s.tables[h := s.tables[h][l := NONE]])
    ensures TablesOk(u) && Wf(u)
  {
    hide PoolOk, BlocksOk, HistoryOk, CountsOk, BoundsOk;
    assert InRange(s.tables[h], s.cfg.blocks);
    assert InRange(s.tables[h][l := NONE], s.cfg.blocks);
  }

  lemma SameSurvives(s: Mmu, t: Mmu)
    requires Wf(s) && Wf(t) && t.cfg == s.cfg
    requires forall p :: s.Has(p) ==> SameAt(s, t, p) && Content(t, p) == Content(s, p)
    ensures forall p :: s.Has(p) ==> Survives(s, t, p)
  {
    hide PoolOk, Content;
  }

  /** The last owner of `p` lets it go. */
  lemma LetGo(s: Mmu, u: Mmu, p: int)
    requires Core(s) && u == s.(ledger := u.ledger, tables := u.tables) && s.Has(p) && s.ledger.refs[p] > 0
    requires u.ledger.Valid() && u.ledger.refs == s.ledger.refs[p := 0] && TablesOk(u)
    ensures var t := Forget(u, p);
      && Core(t) && t.cfg == s.cfg && t.tables == u.tables && t.ledger == u.ledger
      && forall q :: s.Has(q) ==> Survives(s, t, q)
  {
    LedgerChangeRest(s, u);
    ForgetEffect(u, p);
    ForgetKeepsRest(u, p);
    hide PoolOk, Ledger.Valid, Forget, HistoryOk, CountsOk, TablesOk, BoundsOk;
    var t := Forget(u, p);
    forall q | s.Has(q)
      ensures BlockOk(t, q) && Survives(s, t, q)
    {
      if q != p {
        assert SameAt(u, t, q) && BlockOk(s, q);
        BlockOkCarries(s, t, q);
      }
    }
  }

  /** A host write through a frame reaches exactly the block that owns the frame. */
  lemma HostWriteEffect(s: Mmu, frame: int, offset: nat, value: Byte)
    requires Core(s)
    ensures var t := HostWrite(s, frame, offset, value);
      && Core(t) && t == s.(l1 := s.l1.(mem := t.l1.mem))
      && forall p :: s.Has(p) ==>
           Content(t, p) == if s.l1.owner[p] == frame != NONE then WithByte(Content(s, p), offset, value) else Content(s, p)
  {
    hide Ledger.Valid, TablesOk, CountsOk, HistoryOk;
    var t := HostWrite(s, frame, offset, value);
    forall p | s.Has(p)
      ensures BlockOk(t, p)
      ensures Content(t, p) == if s.l1.owner[p] == frame != NONE then WithByte(Content(s, p), offset, value) else Content(s, p)
    {
      assert BlockOk(s, p);
    }
    hide *;
    HostWriteRest(s, t);
  }

  lemma HostWriteRest(s: Mmu, t: Mmu)
    requires Core(s) && Wf(t) && t == s.(l1 := s.l1.(mem := t.l1.mem)) && |t.l1.mem| == |s.l1.mem|
    ensures HistoryOk(t) && CountsOk(t) && TablesOk(t) && BoundsOk(t)
  {
    hide PoolOk, Ledger.Valid, BlockOk;
  }
}
