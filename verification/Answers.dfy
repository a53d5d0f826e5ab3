/** What each call answers: its status, what it hands back, and who ends up resident. */
module Answers {
  import opened MmuTypes
  import opened BlockManagers
  import opened ChunkPools
  import opened Contexts
  import opened Tiering
  import opened Api
  import opened Invariants
  import opened Paging
  import opened Steps
  import opened Lifecycle
  import opened Batches
  import opened Refinement
  import opened Runs
  import opened Teardown
  import opened MapEffects

  /** How many of `num` new blocks find a resident slot. */
  function Slots(s: Mmu, num: nat): int {
    Min(num, s.cfg.residentLimit - s.residents)
  }

  /** `t` is `s` after `blocks` were placed: the first of them, as many as there were slots, are
      resident and were touched in order. */
  ghost predicate InOrder(s: Mmu, t: Mmu, blocks: seq<int>) {
    var k := Slots(s, |blocks|);
    && 0 <= k <= |blocks|
    && (forall i :: 0 <= i < |blocks| ==> 0 <= blocks[i] < |t.metas| && t.metas[blocks[i]].resident == (i < k))
    && t.touches == s.touches + blocks[..k]
    && t.residents == s.residents + k
  }

  lemma RegisterPlaces(s: Mmu, p: int)
    requires AllButBlocks(s) && Unregistered(s, p)
    ensures var t := RegisterFreshBlock(s, p);
      var room := s.residents < s.cfg.residentLimit;
      && |t.metas| == |s.metas| == s.cfg.blocks && t.metas == s.metas[p := t.metas[p]] && t.metas[p].resident == room
      && t.touches == (if room then s.touches + [p] else s.touches)
      && t.residents == (if room then s.residents + 1 else s.residents)
  {
    hide PoolOk, Ledger.Valid, HistoryOk, CountsOk, TablesOk, BoundsOk, RegisterFreshBlock, L1Page, L2Page;
    RegisterShape(s, p);
  }

  lemma InOrderOneMore(s: Mmu, u: Mmu, t: Mmu, blocks: seq<int>, p: int)
    requires InOrder(s, u, blocks) && p !in blocks && 0 <= p < |u.metas| == |t.metas| && u.cfg == s.cfg
    requires t.metas == u.metas[p := t.metas[p]] && t.metas[p].resident == (u.residents < u.cfg.residentLimit)
    requires t.touches == (if u.residents < u.cfg.residentLimit then u.touches + [p] else u.touches)
    requires t.residents == (if u.residents < u.cfg.residentLimit then u.residents + 1 else u.residents)
    ensures InOrder(s, t, blocks + [p])
  {
    var k := Slots(s, |blocks|);
    assert (blocks + [p])[..k] == blocks[..k];
    if k == |blocks| {
      assert blocks[..k] == blocks;
      assert (blocks + [p])[..k + 1] == blocks + [p];
      assert s.touches + (blocks + [p]) == s.touches + blocks + [p];
    }
  }

  lemma {:induction false} RegisterEachPlaces(s: Mmu, blocks: seq<int>)
    requires AllButBlocks(s) && Distinct(blocks)
    requires forall i :: 0 <= i < |blocks| ==> Unregistered(s, blocks[i])
    ensures InOrder(s, RegisterEach(s, blocks), blocks)
  {
    hide Wf, HistoryOk, CountsOk, RegisterFreshBlock, InOrder, Unregistered, AllButBlocks, Distinct;
    AllButCounts(s);
    if blocks == [] {
      NothingPlaced(s);
    } else {
      var rest, p := blocks[..|blocks| - 1], blocks[|blocks| - 1];
      NextUnregistered(s, blocks);
      RegisterEachPlaces(s, rest);
      var u := RegisterEach(s, rest);
      PlacedOneMore(s, u, rest, p);
      assert blocks == rest + [p];
    }
  }

  lemma PlacedOneMore(s: Mmu, u: Mmu, rest: seq<int>, p: int)
    requires AllButBlocks(u) && Unregistered(u, p) && u.cfg == s.cfg && InOrder(s, u, rest) && p !in rest
    ensures InOrder(s, RegisterFreshBlock(u, p), rest + [p])
  {
    hide PoolOk, Ledger.Valid, HistoryOk, CountsOk, TablesOk, BoundsOk, RegisterFreshBlock, InOrder, L1Page, L2Page;
    RegisterPlaces(u, p);
    InOrderOneMore(s, u, RegisterFreshBlock(u, p), rest, p);
  }

  lemma AllButCounts(s: Mmu)
    requires AllButBlocks(s)
    ensures Wf(s) && CountsOk(s)
  {
    hide PoolOk, Ledger.Valid, HistoryOk, CountsOk, TablesOk, BoundsOk;
  }

  /** Placing the others leaves the last block as it was. */
  lemma NextUnregistered(s: Mmu, blocks: seq<int>)
    requires blocks != [] && AllButBlocks(s) && Distinct(blocks)
    requires forall i :: 0 <= i < |blocks| ==> Unregistered(s, blocks[i])
    ensures var rest, p := blocks[..|blocks| - 1], blocks[|blocks| - 1];
      var u := RegisterEach(s, rest);
      && AllButBlocks(u) && u.Has(p) && Unregistered(u, p)
      && p !in rest && Distinct(rest) && forall i :: 0 <= i < |rest| ==> Unregistered(s, rest[i])
  {
    hide PoolOk, Ledger.Valid, HistoryOk, CountsOk, TablesOk, BoundsOk, RegisterEach, L1Page, L2Page, BlockOk,
         Registered;
    var rest, p := blocks[..|blocks| - 1], blocks[|blocks| - 1];
    forall i | 0 <= i < |rest|
      ensures Unregistered(s, rest[i])
    {
      assert Unregistered(s, blocks[i]);
    }
    RegisterEachEffect(s, rest);
    assert SameAt(s, RegisterEach(s, rest), p) && Unregistered(s, p);
  }

  lemma NothingPlaced(s: Mmu)
    requires CountsOk(s)
    ensures InOrder(s, s, [])
  {
    assert s.touches + [][..0] == s.touches;
  }

  /** The first of the new blocks take the resident slots that are left, and are touched in order; the
      others start in L2, untouched. */
  lemma AllocatePlaces(s: Mmu, h: Handle, num: nat)
    requires Core(s) && h in s.tables && num <= INT_MAX && num <= |s.ledger.free|
    ensures var t := AllocateBlocks(s, h, num).mmu;
      var blocks := NextFree(s.ledger.free, num);
      var k := Slots(s, num);
      && 0 <= k <= num && |t.metas| == s.cfg.blocks
      && (forall i :: 0 <= i < num ==> 0 <= blocks[i] < |t.metas| && t.metas[blocks[i]].resident == (i < k))
      && t.touches == s.touches + blocks[..k]
      && t.residents == s.residents + k
  {
    hide Core, Wf, Extended, AllocateBlocks, RegisterEach, Unregistered, AllButBlocks, Allocate;
    CoreWf(s);
    AllocateShape(s, h, num);
    ExtendedEffect(s, h, num);
    ExtendedFields(s, h, num);
    RegisterEachPlaces(Extended(s, h, num), NextFree(s.ledger.free, num));
    WfSizes(AllocateBlocks(s, h, num).mmu);
  }

  lemma ExtendedFields(s: Mmu, h: Handle, num: nat)
    requires Wf(s) && h in s.tables
    ensures var u := Extended(s, h, num);
      u.cfg == s.cfg && u.residents == s.residents && u.touches == s.touches
  {
    hide PoolOk, Ledger.Valid, Allocate;
  }

  /** What a page-table entry leads to: nothing, a dangling entry left by a failed allocation, or a block
      somebody owns. */
  lemma ResolveAnswers(s: Mmu, h: Handle, l: nat)
    requires Core(s)
    ensures var r := Resolve(s, h, l);
      && (r.status == BadHandle <==> h !in s.tables)
      && (r.status == InvalidArgument <==> h in s.tables && l > INT_MAX)
      && (r.status == Unallocated <==> h in s.tables && l <= INT_MAX && Entry(s.tables[h], l) == NONE)
      && (r.status == Internal <==>
            h in s.tables && l <= INT_MAX && l < |s.tables[h]| && s.Has(s.tables[h][l]) && s.ledger.refs[s.tables[h][l]] == 0)
      && (r.status.Ok? <==>
            h in s.tables && l <= INT_MAX && l < |s.tables[h]| && s.Has(s.tables[h][l]) && s.ledger.refs[s.tables[h][l]] > 0)
      && (r.status.Ok? ==> r.route.block == s.tables[h][l])
  {
    hide PoolOk, HistoryOk, CountsOk, BoundsOk;
    if h in s.tables && l < |s.tables[h]| {
      assert InRange(s.tables[h], s.cfg.blocks);
      if s.Has(s.tables[h][l]) {
        assert BlockOk(s, s.tables[h][l]);
      }
    }
  }

  /** The byte offset of a route is a whole number of blocks, and its tier says where the block is. */
  lemma RouteAnswers(s: Mmu, h: Handle, l: nat)
    requires Core(s) && Resolve(s, h, l).status.Ok?
    ensures var r := Resolve(s, h, l).route;
      && s.Has(r.block)
      && r.offset >= 0 && r.offset % s.cfg.blockSize == 0 && r.offset / s.cfg.blockSize == r.block
      && r.offset + s.cfg.blockSize <= s.cfg.blocks * s.cfg.blockSize
      && r.tier == if s.metas[r.block].resident then L1 else L2
  {
    ResolveLive(s, h, l);
    hide PoolOk, Ledger.Valid, HistoryOk, CountsOk, TablesOk, BoundsOk;
    var r := Resolve(s, h, l).route;
    assert BlockOk(s, r.block);
    assert r.offset == r.block * s.cfg.blockSize;
    Aligned(r.block, s.cfg.blockSize, s.cfg.blocks);
  }

  lemma Aligned(p: nat, bs: nat, blocks: nat)
    requires bs > 0 && p < blocks
    ensures p * bs % bs == 0 && p * bs / bs == p && p * bs + bs <= blocks * bs
  {
    assert (p + 1) * bs == p * bs + bs;
    Quotient(p * bs, bs, p);
    Monotone(p + 1, blocks, bs);
  }

  /** Routes to different blocks cover different bytes. */
  lemma RoutesDisjoint(s: Mmu, h: Handle, l: nat, g: Handle, j: nat)
    requires Core(s) && Resolve(s, h, l).status.Ok? && Resolve(s, g, j).status.Ok?
    requires Resolve(s, h, l).route.block < Resolve(s, g, j).route.block
    ensures Resolve(s, h, l).route.offset + s.cfg.blockSize <= Resolve(s, g, j).route.offset
  {
    RouteAnswers(s, h, l);
    ResolveLive(s, g, j);
    hide Core, PoolOk, Ledger.Valid;
    Aligned(Resolve(s, h, l).route.block, s.cfg.blockSize, Resolve(s, g, j).route.block);
  }

  /** The batch resolver writes the routes of the longest prefix that resolves, and returns OK if that is
      all, or else the status of the next block. For an unknown context it writes nothing. */
  lemma ResolveBatchAnswers(s: Mmu, h: Handle, ls: seq<nat>)
    ensures var (status, written) := ResolveBatch(s, h, ls);
      && (status == BadHandle <==> h !in s.tables)
      && (h !in s.tables ==> written == [])
      && (h in s.tables ==>
            && |written| <= |ls|
            && (forall i :: 0 <= i < |written| ==> Resolve(s, h, ls[i]) == Resolved(Ok, written[i]))
            && (status.Ok? <==> |written| == |ls|)
            && (!status.Ok? ==> status == Resolve(s, h, ls[|written|]).status))
  {
    if h in s.tables {
      ResolveEachExactly(s, h, ls);
      hide ResolveEach;
      KnownHandle(s, h);
    }
  }

  lemma KnownHandle(s: Mmu, h: Handle)
    requires h in s.tables
    ensures forall l :: Resolve(s, h, l).status != BadHandle
  {
  }

  lemma ForkAnswers(s: Mmu, src: Handle, h: Handle)
    requires Wf(s) && h !in s.tables
    ensures var r := ForkContext(s, src, h);
      && r.status == (if src in s.tables then Ok else BadHandle)
      && (src !in s.tables ==> r.mmu == s)
  {
    hide PoolOk, Ledger.Valid;
  }

  lemma AllocateAnswers(s: Mmu, h: Handle, num: nat)
    requires Core(s)
    ensures var r := AllocateBlocks(s, h, num);
      && r.status == (if h !in s.tables then BadHandle else if num > INT_MAX then InvalidArgument
                      else if num > |s.ledger.free| then OutOfMemory else Ok)
      && (r.status == BadHandle || r.status == InvalidArgument ==> r.mmu == s)
  {
    if h in s.tables && num <= INT_MAX {
      if num <= |s.ledger.free| {
        hide Core, Wf, AllocateBlocks, Grown;
        AllocateEffect(s, h, num);
      } else {
        hide Core, Wf, AllocateBlocks;
        AllocateFails(s, h, num);
      }
    }
  }

  /** Releasing answers what resolving would. */
  lemma ReleaseAnswers(s: Mmu, h: Handle, l: nat)
    requires Core(s)
    ensures ReleaseLogicalBlock(s, h, l).status == Resolve(s, h, l).status
  {
    hide Core, Wf, ReleaseLogicalBlock, Resolve, Survives;
    ReleaseEffect(s, h, l);
  }

  /** The block is shared, and no block or no L2 page for a copy is to be had. */
  predicate NoCopy(s: Mmu, h: Handle, l: nat) {
    IsShared(s, h, l) && (s.ledger.free == [] || L2Exhausted(s))
  }

  /** Preparing for a write answers what resolving would, unless a shared block must be copied and no
      block is free or L2 is exhausted. */
  lemma PrepareAnswers(s: Mmu, h: Handle, l: nat)
    requires Core(s)
    ensures PrepareBlockForWrite(s, h, l).status ==
            if NoCopy(s, h, l) then OutOfMemory else Resolve(s, h, l).status
  {
    hide Core, Wf, PrepareBlockForWrite, Resolve, L2Exhausted;
    if CopiesOnWrite(s, h, l) {
      hide IsShared, CopiesOnWrite;
      CloneFailsExactly(s, h, l);
    } else {
      PrepareIdle(s, h, l);
    }
  }

  /** The block that has to leave when `p` comes in: nobody if `p` is in already or there is room. */
  function Leaver(s: Mmu, p: int): int
    requires 0 <= p < |s.metas| == s.cfg.blocks
  {
    if s.metas[p].resident || s.residents < s.cfg.residentLimit then NONE else Victim(s.metas, p, s.cfg.blocks)
  }

  /** A resident slot is needed and cannot be had: everybody else is pinned, or the bytes of the one who
      has to leave find no L2 page. */
  predicate NoRoom(s: Mmu, p: int)
    requires 0 <= p < |s.metas| == s.cfg.blocks == |s.l2.owner|
  {
    && !s.metas[p].resident && s.residents >= s.cfg.residentLimit
    && (Leaver(s, p) == NONE || (s.l2.owner[Leaver(s, p)] == NONE && L2Exhausted(s)))
  }

  /** A frame is needed for a block that comes in and cannot be had: none is free, nobody leaves one
      behind, and the next chunk is refused; a chunk for L2 may have been asked for before. */
  predicate NoFrame(s: Mmu, p: int)
    requires 0 <= p < |s.metas| == s.cfg.blocks == |s.l1.owner| == |s.l2.owner|
  {
    var v := Leaver(s, p);
    && !s.metas[p].resident && s.l1.free == []
    && (v != NONE ==> s.l1.owner[v] == NONE)
    && !(if v != NONE && s.l2.owner[v] == NONE && s.l2.free == [] then s.os.Asked() else s.os).Grants()
  }

  /** Only the residence of `p` and of the one who leaves differs. */
  ghost predicate Moved(s: Mmu, t: Mmu, p: int, v: int) {
    |t.metas| == |s.metas| &&
    forall q :: 0 <= q < |s.metas| ==> t.metas[q].resident == (q == p || (q != v && s.metas[q].resident))
  }

  /** What an eviction does to the pools and the metadata. */
  lemma EvictionPools(s: Mmu, v: int)
    requires Core(s) && s.Has(v) && Evictable(s.metas[v])
    ensures var r := MoveBlockToL2(s, v);
      && r.status == (if s.l2.owner[v] == NONE && L2Exhausted(s) then OutOfMemory else Ok)
      && (r.status.Ok? ==>
            && |r.mmu.metas| == |s.metas| && r.mmu.metas == s.metas[v := r.mmu.metas[v]] && !r.mmu.metas[v].resident
            && r.mmu.l1 == Returned(s.l1, v)
            && r.mmu.os == (if s.l2.owner[v] == NONE && s.l2.free == [] then s.os.Asked() else s.os))
  {
    hide Core, Wf, AcquireL2, SyncL1ToL2, Exhausted, SameElsewhere, SameSharing, Returned, L2Page, L1Page, OrZeros;
    CoreWf(s);
    WfSizes(s);
    SyncL1ToL2Effect(s, v);
    SyncOs(s, v);
    AcquireL2Asks(s, v);
  }

  lemma SyncOs(s: Mmu, v: int)
    requires Wf(s) && s.Has(v)
    ensures SyncL1ToL2(s, v).mmu.os == AcquireL2(s, v).os
  {
    hide PoolOk, Ledger.Valid, AcquireL2, L1Page;
  }

  lemma AcquireL2Asks(s: Mmu, v: int)
    requires Wf(s) && s.Has(v)
    ensures v < |s.l2.owner|
    ensures AcquireL2(s, v).status == (if s.l2.owner[v] == NONE && L2Exhausted(s) then OutOfMemory else Ok)
    ensures AcquireL2(s, v).status.Ok? ==>
              AcquireL2(s, v).os == if s.l2.owner[v] == NONE && s.l2.free == [] then s.os.Asked() else s.os
  {
    hide PoolOk, Ledger.Valid, Acquire;
    AcquireFailsExactly(s.l2, s.cfg.blockSize, s.cfg.l2Blocks, s.cfg.chunkBlocks, s.os, v);
    AcquireAsksExactly(s.l2, s.cfg.blockSize, s.cfg.l2Blocks, s.cfg.chunkBlocks, s.os, v);
  }

  lemma AcquireL1Answers(s: Mmu, p: int)
    requires Wf(s) && s.Has(p)
    ensures p < |s.l1.owner|
    ensures AcquireL1(s, p).status ==
            if s.l1.owner[p] == NONE && s.l1.free == [] && !s.os.Grants() then OutOfMemory else Ok
  {
    hide PoolOk, Ledger.Valid, Acquire;
    AcquireFailsExactly(s.l1, s.cfg.blockSize, 0, s.cfg.chunkBlocks, s.os, p);
  }

  /** Making room fails exactly when there is none to be had; otherwise exactly one block leaves, or none
      if there was room. */
  lemma MakeRoomAnswers(s: Mmu, p: int)
    requires Core(s) && s.Has(p)
    ensures |s.metas| == |s.l1.owner| == |s.l2.owner| == s.cfg.blocks
    ensures !s.metas[p].resident ==>
              var r, v := MakeRoom(s, p), Leaver(s, p);
              && r.status == (if NoRoom(s, p) then OutOfMemory else Ok)
              && (r.status.Ok? ==>
                    && Moved(s, r.mmu, NONE, v) && r.mmu.metas[p] == s.metas[p]
                    && (v == NONE ==> r.mmu == s)
                    && (v != NONE ==>
                          && 0 <= v < s.cfg.blocks && r.mmu.l1 == Returned(s.l1, v)
                          && r.mmu.os == (if s.l2.owner[v] == NONE && s.l2.free == [] then s.os.Asked() else s.os)))
              && (!r.status.Ok? ==> Moved(s, r.mmu, NONE, NONE))
  {
    hide Core, Wf, Victim, MakeRoom, MoveBlockToL2, Returned, Evictable;
    CoreWf(s);
    WfSizes(s);
    if !s.metas[p].resident {
      MakeRoomOnce(s, p);
      var v := Leaver(s, p);
      if v != NONE {
        VictimEvictable(s, p);
        EvictionPools(s, v);
        MoveBlockEffect(s, v);
        var r := MoveBlockToL2(s, v);
      }
    }
  }

  lemma VictimEvictable(s: Mmu, p: int)
    requires |s.metas| == s.cfg.blocks && Victim(s.metas, p, s.cfg.blocks) != NONE
    ensures var v := Victim(s.metas, p, s.cfg.blocks);
      0 <= v < s.cfg.blocks && v != p && Evictable(s.metas[v])
  {
  }

  /** Copying a block in fails exactly when it gets no frame. */
  lemma FetchAnswers(s: Mmu, p: int)
    requires Core(s) && s.Has(p) && !s.metas[p].resident
    ensures var r := Fetched(s, p);
      && r.status == (if s.l1.free == [] && !s.os.Grants() then OutOfMemory else Ok)
      && Moved(s, r.mmu, if r.status.Ok? then p else NONE, NONE)
  {
    hide Core, Wf, AcquireL1, SyncL2ToL1, L1Page, L2Page, SameElsewhere, BoundsOk, SameSharing, OrZeros;
    CoreWf(s);
    WfSizes(s);
    UnframedOut(s, p);
    SyncL2ToL1Effect(s, p);
    AcquireL1Answers(s, p);
  }

  lemma UnframedOut(s: Mmu, p: int)
    requires Core(s) && s.Has(p) && !s.metas[p].resident
    ensures s.l1.owner[p] == NONE
  {
    assert BlockOk(s, p);
  }

  /** Making a block resident fails, for want of memory, exactly when it is not resident yet and no slot
      or no frame is to be had. On success it comes in and at most one block leaves; on failure at most
      that block has left. */
  lemma EnsureResidentAnswers(s: Mmu, p: int)
    requires Core(s) && s.Has(p) && s.ledger.refs[p] > 0
    ensures |s.metas| == |s.l1.owner| == |s.l2.owner| == s.cfg.blocks
    ensures var r := EnsureResidentInL1(s, p);
      && r.status == (if NoRoom(s, p) || NoFrame(s, p) then OutOfMemory else Ok)
      && Moved(s, r.mmu, if r.status.Ok? then p else NONE, if NoRoom(s, p) then NONE else Leaver(s, p))
  {
    hide Core, Wf, Victim, MakeRoom, Fetched, NoRoom, Reclaim, Leaver;
    CoreWf(s);
    WfSizes(s);
    AllBlocksOk(s);
    ReclaimIdle(s, s.cfg.blocks);
    LiveIfOwned(s, p);
    if s.metas[p].resident {
      NobodyLeaves(s, p);
    } else {
      MakeRoomAnswers(s, p);
      MakeRoomEffect(s, p);
      var room := MakeRoom(s, p);
      if room.status.Ok? {
        SameCfg(s, room.mmu);
        FetchAnswers(room.mmu, p);
        ReturnedFrames(s, p);
      }
    }
  }

  lemma AllBlocksOk(s: Mmu)
    requires Core(s)
    ensures BlocksOk(s)
  {
  }

  lemma LiveIfOwned(s: Mmu, p: int)
    requires Core(s) && s.Has(p) && s.ledger.refs[p] > 0
    ensures s.metas[p].live && 0 <= p < |s.ledger.refs|
  {
    assert BlockOk(s, p);
  }

  lemma NobodyLeaves(s: Mmu, p: int)
    requires 0 <= p < |s.metas| == s.cfg.blocks == |s.l2.owner| && s.metas[p].resident
    ensures Leaver(s, p) == NONE && !NoRoom(s, p)
  {
  }

  lemma SameCfg(s: Mmu, t: Mmu)
    requires Wf(s) && Wf(t) && Transparent(s, t)
    ensures t.cfg == s.cfg
  {
    hide Wf, Unnoticed;
  }

  /** Whoever leaves with a frame leaves it behind. */
  lemma ReturnedFrames(s: Mmu, p: int)
    requires Wf(s) && s.Has(p)
    ensures |s.metas| == |s.l1.owner| == s.cfg.blocks
    ensures var v := Leaver(s, p);
      v != NONE ==> 0 <= v < s.cfg.blocks && (Returned(s.l1, v).free == [] <==> s.l1.owner[v] == NONE && s.l1.free == [])
  {
    hide PoolOk, Ledger.Valid;
  }

  /** Mapping `p` is not possible now: it has a slot but no frame is to be had, or it cannot come in. */
  predicate Stuck(s: Mmu, p: int)
    requires 0 <= p < |s.metas| == s.cfg.blocks == |s.l1.owner| == |s.l2.owner|
  {
    if s.metas[p].resident then s.l1.owner[p] == NONE && s.l1.free == [] && !s.os.Grants()
    else NoRoom(s, p) || NoFrame(s, p)
  }

  /** The frame situation of a block that was made resident. */
  lemma EnsureResidentFrame(s: Mmu, p: int)
    requires Core(s) && s.Has(p) && s.ledger.refs[p] > 0
    ensures |s.metas| == |s.l1.owner| == s.cfg.blocks
    ensures var r := EnsureResidentInL1(s, p);
      r.status.Ok? ==>
        && |r.mmu.l1.owner| == s.cfg.blocks
        && (s.metas[p].resident ==> r.mmu.l1 == s.l1 && r.mmu.os == s.os)
        && (!s.metas[p].resident ==> r.mmu.l1.owner[p] != NONE)
  {
    hide Core, Wf, MakeRoom, Fetched, Reclaim;
    CoreWf(s);
    WfSizes(s);
    AllBlocksOk(s);
    ReclaimIdle(s, s.cfg.blocks);
    LiveIfOwned(s, p);
    if !s.metas[p].resident {
      MakeRoomEffect(s, p);
      var room := MakeRoom(s, p);
      if room.status.Ok? {
        SameCfg(s, room.mmu);
        FetchedFrame(room.mmu, p);
      }
    }
  }

  lemma FetchedFrame(s: Mmu, p: int)
    requires Wf(s) && s.Has(p)
    ensures var r := Fetched(s, p);
      |r.mmu.l1.owner| == s.cfg.blocks && (r.status.Ok? ==> r.mmu.l1.owner[p] != NONE)
  {
    hide Wf, SyncL2ToL1, OrZeros, AcquireL1, SameElsewhere, BoundsOk;
    WfSizes(Fetched(s, p).mmu);
    SyncL2ToL1Effect(s, p);
    WfSizes(SyncL2ToL1(s, p).mmu);
  }

  lemma PinnedAnswers(s: Mmu, p: int, l: nat, flags: nat)
    requires Wf(s) && s.Has(p)
    ensures |s.metas| == |s.l1.owner| == s.cfg.blocks
    ensures var r := Pinned(s, p, l, flags);
      && r.status == (if s.l1.owner[p] == NONE && s.l1.free == [] && !s.os.Grants() then OutOfMemory else Ok)
      && Moved(s, r.mmu, NONE, NONE) && r.mmu.metas[p].dirty == s.metas[p].dirty
      && (r.status.Ok? ==> r.mapped.block == p)
  {
    hide Wf, AcquireL1;
    WfSizes(s);
    AcquireL1Answers(s, p);
  }

  /** Once the block may be written, mapping fails, for want of memory, exactly when it is stuck. On
      success the block comes in and at most one other leaves. */
  lemma MapResidentAnswers(s: Mmu, h: Handle, l: nat, flags: nat)
    requires Core(s) && Resolve(s, h, l).status.Ok?
    ensures |s.metas| == |s.l1.owner| == |s.l2.owner| == s.cfg.blocks
    ensures var r, p := MapResident(s, h, l, flags), Resolve(s, h, l).route.block;
      && s.Has(p)
      && r.status == (if Stuck(s, p) then OutOfMemory else Ok)
      && (r.status.Ok? ==>
            r.mapped.block == p && Moved(s, r.mmu, p, Leaver(s, p)) && r.mmu.metas[p].dirty == s.metas[p].dirty)
  {
    hide Core, Wf, Resolve, EnsureResidentInL1, Pinned, NoRoom, NoFrame, Leaver;
    CoreWf(s);
    WfSizes(s);
    var p := Resolve(s, h, l).route.block;
    ResolveLive(s, h, l);
    EnsureResidentAnswers(s, p);
    EnsureResidentFrame(s, p);
    EnsureResidentEffect(s, p);
    var t := EnsureResidentInL1(s, p);
    NotCramped(s, p);
    if t.status.Ok? {
      SameCfg(s, t.mmu);
      SameDirt(s, t.mmu, p);
      PinnedAnswers(t.mmu, p, l, flags);
    }
  }

  lemma NotCramped(s: Mmu, p: int)
    requires 0 <= p < |s.metas| == s.cfg.blocks == |s.l1.owner| == |s.l2.owner|
    ensures s.metas[p].resident ==> !NoRoom(s, p) && !NoFrame(s, p)
  {
  }

  lemma SameDirt(s: Mmu, t: Mmu, p: int)
    requires Wf(s) && Wf(t) && Transparent(s, t) && s.Has(p)
    ensures |s.metas| == |t.metas| == s.cfg.blocks && t.metas[p].dirty == s.metas[p].dirty
  {
    hide PoolOk, Ledger.Valid, Content;
    assert Unnoticed(s, t, p);
  }

  /** The state in which the block is made resident: after the copy, if the mapping is for writing. */
  ghost function Writable(s: Mmu, h: Handle, l: nat, flags: nat): (r: Mmu)
    requires Wf(s)
    ensures Wf(r)
  {
    if HasWrite(flags) then PrepareBlockForWrite(s, h, l).mmu else s
  }

  /** The status of a map call, first reason first. */
  lemma MapAnswers(s: Mmu, h: Handle, l: nat, flags: nat)
    requires Core(s)
    ensures var r := MapLogicalBlock(s, h, l, flags);
      && (!ValidFlags(flags) ==> r.status == InvalidArgument && r.mmu == s)
      && (ValidFlags(flags) && !Resolve(s, h, l).status.Ok? ==> r.status == Resolve(s, h, l).status && r.mmu == s)
      && (ValidFlags(flags) && HasWrite(flags) && NoCopy(s, h, l) ==> r.status == OutOfMemory)
  {
    hide Core, Wf, PrepareBlockForWrite, EnsureResidentInL1, Pinned, L2Exhausted, HasWrite, ValidFlags;
    CoreWf(s);
    ResolveNeeds(s, h, l);
    PrepareAnswers(s, h, l);
    if !Resolve(s, h, l).status.Ok? {
      hide Resolve;
      PrepareIdle(s, h, l);
    }
  }

  /** With the copy done, if one was needed, mapping fails exactly when the block is stuck. */
  lemma MapReadyAnswers(s: Mmu, h: Handle, l: nat, flags: nat)
    requires Core(s) && ValidFlags(flags) && Resolve(s, h, l).status.Ok?
    requires !(HasWrite(flags) && NoCopy(s, h, l))
    ensures var r, u := MapLogicalBlock(s, h, l, flags), Writable(s, h, l, flags);
      var p := Resolve(u, h, l).route.block;
      && Core(u) && |u.metas| == |u.l1.owner| == |u.l2.owner| == u.cfg.blocks && u.Has(p)
      && r.status == (if Stuck(u, p) then OutOfMemory else Ok)
      && (r.status.Ok? ==>
            r.mapped.block == p && Moved(u, r.mmu, p, Leaver(u, p)) && r.mmu.metas[p].dirty == u.metas[p].dirty)
  {
    hide Core, Wf, PrepareBlockForWrite, MapResident, L2Exhausted, HasWrite, ValidFlags, Resolve, Stuck, Leaver, IsShared;
    CoreWf(s);
    ResolveNeeds(s, h, l);
    if HasWrite(flags) {
      PrepareAnswers(s, h, l);
      PrepareStep(s, h, l);
      PreparedResolves(s, h, l);
      MapResidentAnswers(PrepareBlockForWrite(s, h, l).mmu, h, l, flags);
    } else {
      MapResidentAnswers(s, h, l, flags);
    }
  }

  lemma ResolveNeeds(s: Mmu, h: Handle, l: nat)
    ensures Resolve(s, h, l).status.Ok? ==> h in s.tables && l <= INT_MAX
    ensures h !in s.tables ==> Resolve(s, h, l).status == BadHandle
    ensures h in s.tables && l > INT_MAX ==> Resolve(s, h, l).status == InvalidArgument
  {
  }

  lemma PreparedResolves(s: Mmu, h: Handle, l: nat)
    requires Core(s) && PrepareBlockForWrite(s, h, l).status.Ok? && l <= INT_MAX
    ensures Resolve(PrepareBlockForWrite(s, h, l).mmu, h, l).status.Ok?
  {
    hide PoolOk, HistoryOk, CountsOk, BoundsOk, PrepareBlockForWrite, FramesKept, SharingStep, PinsUp;
    PrepareStep(s, h, l);
    var t := PrepareBlockForWrite(s, h, l).mmu;
    assert BlockOk(t, t.tables[h][l]);
  }

  /** The status of an unmap call, first reason first. */
  lemma UnmapAnswers(s: Mmu, h: Handle, m: MappedBlock)
    requires Core(s)
    ensures UnmapLogicalBlock(s, h, m).status ==
            if h !in s.tables then BadHandle
            else if !s.Has(m.block) || m.logical > INT_MAX then InvalidArgument
            else if !Resolve(s, h, m.logical).status.Ok? then Resolve(s, h, m.logical).status
            else if Resolve(s, h, m.logical).route.block != m.block then BadHandle
            else if WriteBackStuck(s, m) then OutOfMemory
            else Ok
  {
    hide Core, Wf, Unpinned, HasWrite, L2Exhausted, Resolve;
    CoreWf(s);
    WfSizes(s);
    if Releases(s, h, m) {
      ResolveLive(s, h, m.logical);
      UnpinnedStatus(s, m.block, HasWrite(m.flags));
      ResolveNeeds(s, h, m.logical);
    }
  }

  lemma UnpinnedStatus(s: Mmu, p: int, write: bool)
    requires Wf(s) && s.Has(p)
    ensures |s.metas| == |s.l2.owner| == s.cfg.blocks
    ensures Unpinned(s, p, write).status ==
            if write && s.metas[p].resident && s.l2.owner[p] == NONE && L2Exhausted(s) then OutOfMemory else Ok
  {
    hide Wf, AcquireL2, L2Exhausted, SyncL1ToL2, OrZeros, SameElsewhere, SameSharing;
    WfSizes(s);
    var s1 := PinDropped(s, p, write);
    SyncL1ToL2Effect(s1, p);
    PinDroppedPools(s, p, write);
    AcquireL2Asks(s, p);
  }

  ghost function MapOnes(h: Handle, ls: seq<nat>, flags: nat): (r: seq<Action>)
    ensures |r| == |ls| && forall i :: 0 <= i < |ls| ==> r[i] == MapOne(h, ls[i], flags)
  {
    seq(|ls|, i requires 0 <= i < |ls| => MapOne(h, ls[i], flags))
  }

  ghost function Unmaps(h: Handle, ms: seq<MappedBlock>): (r: seq<Action>)
    ensures |r| == |ms| && forall i :: 0 <= i < |ms| ==> r[i] == Unmap(h, ms[i])
  {
    seq(|ms|, i requires 0 <= i < |ms| => Unmap(h, ms[i]))
  }

  /** The answer of the `i`th map when the list is mapped block by block. */
  ghost function MapAt(s: Mmu, h: Handle, ls: seq<nat>, flags: nat, i: nat): Mapped
    requires Wf(s) && i < |ls|
  {
    MapLogicalBlock(Run(s, MapOnes(h, ls[..i], flags)), h, ls[i], flags)
  }

  /** The answer of the `i`th unmap when the list is unmapped block by block. */
  ghost function UnmapAt(s: Mmu, h: Handle, ms: seq<MappedBlock>, i: nat): Outcome
    requires Wf(s) && i < |ms|
  {
    UnmapLogicalBlock(Run(s, Unmaps(h, ms[..i])), h, ms[i])
  }

  lemma MapAtPrefix(s: Mmu, h: Handle, ls: seq<nat>, flags: nat, n: nat, i: nat)
    requires Wf(s) && i < n <= |ls|
    ensures MapAt(s, h, ls[..n], flags, i) == MapAt(s, h, ls, flags, i)
  {
    hide Wf, Run, MapLogicalBlock;
    assert ls[..n][..i] == ls[..i];
  }

  lemma UnmapAtPrefix(s: Mmu, h: Handle, ms: seq<MappedBlock>, n: nat, i: nat)
    requires Wf(s) && i < n <= |ms|
    ensures UnmapAt(s, h, ms[..n], i) == UnmapAt(s, h, ms, i)
  {
    hide Wf, Run, UnmapLogicalBlock;
    assert ms[..n][..i] == ms[..i];
  }

  lemma RunLast(s: Mmu, before: seq<Action>, a: Action)
    requires Wf(s)
    ensures Run(s, before + [a]) == Step(Run(s, before), a).mmu
  {
    hide Wf, Step;
    assert (before + [a])[..|before|] == before;
  }

  lemma RunMapOnes(s: Mmu, h: Handle, ls: seq<nat>, flags: nat)
    requires Wf(s) && ls != []
    ensures Run(s, MapOnes(h, ls, flags)) == MapAt(s, h, ls, flags, |ls| - 1).mmu
  {
    hide Wf, MapLogicalBlock, Step, Run;
    var before, a := MapOnes(h, ls[..|ls| - 1], flags), MapOne(h, ls[|ls| - 1], flags);
    assert MapOnes(h, ls, flags) == before + [a];
    RunLast(s, before, a);
    StepIs(Run(s, before), a);
  }

  lemma RunUnmaps(s: Mmu, h: Handle, ms: seq<MappedBlock>)
    requires Wf(s) && ms != []
    ensures Run(s, Unmaps(h, ms)) == UnmapAt(s, h, ms, |ms| - 1).mmu
  {
    hide Wf, UnmapLogicalBlock, Step, Run;
    var before, a := Unmaps(h, ms[..|ms| - 1]), Unmap(h, ms[|ms| - 1]);
    assert Unmaps(h, ms) == before + [a];
    RunLast(s, before, a);
    StepIs(Run(s, before), a);
  }

  lemma StepIs(s: Mmu, a: Action)
    requires Wf(s)
    ensures a.MapOne? ==> Step(s, a).mmu == MapLogicalBlock(s, a.h, a.l, a.flags).mmu
    ensures a.Unmap? ==> Step(s, a).mmu == UnmapLogicalBlock(s, a.h, a.mapped).mmu
  {
    hide Wf, MapLogicalBlock, UnmapLogicalBlock;
  }

  /** Before the rollback a batch is the run of its single maps up to the first that fails; output `i` is
      the mapping that single map `i` returns. */
  lemma {:induction false} MapEachIsRun(s: Mmu, h: Handle, ls: seq<nat>, flags: nat)
    requires Wf(s)
    ensures var b := MapEach(s, h, ls, flags);
      && |b.done| <= |ls|
      && (forall i :: 0 <= i < |b.done| ==>
            MapAt(s, h, ls, flags, i).status.Ok? && b.done[i] == MapAt(s, h, ls, flags, i).mapped)
      && (b.status.Ok? <==> |b.done| == |ls|)
      && (b.status.Ok? ==> b.mmu == Run(s, MapOnes(h, ls, flags)))
      && (!b.status.Ok? ==>
            b.status == MapAt(s, h, ls, flags, |b.done|).status && b.mmu == MapAt(s, h, ls, flags, |b.done|).mmu)
  {
    hide Wf, MapLogicalBlock, Run, MapAt;
    if ls == [] {
      RunNothing(s, MapOnes(h, ls, flags));
    } else {
      var n := |ls| - 1;
      MapEachIsRun(s, h, ls[..n], flags);
      forall i | 0 <= i < n
        ensures MapAt(s, h, ls[..n], flags, i) == MapAt(s, h, ls, flags, i)
      {
        MapAtPrefix(s, h, ls, flags, n, i);
      }
      RunMapOnes(s, h, ls, flags);
      MapAtIs(s, h, ls, flags, n);
    }
  }

  lemma RunNothing(s: Mmu, actions: seq<Action>)
    requires Wf(s) && actions == []
    ensures Run(s, actions) == s
  {
    hide Wf;
  }

  lemma MapAtIs(s: Mmu, h: Handle, ls: seq<nat>, flags: nat, i: nat)
    requires Wf(s) && i < |ls|
    ensures MapAt(s, h, ls, flags, i) == MapLogicalBlock(Run(s, MapOnes(h, ls[..i], flags)), h, ls[i], flags)
  {
    hide Wf, MapLogicalBlock, Run;
  }

  /** A batch unmap is the run of its single unmaps, all of them; it answers OK if all do, and otherwise
      what the first that fails answers. */
  lemma {:induction false} UnmapBatchAnswers(s: Mmu, h: Handle, ms: seq<MappedBlock>)
    requires Wf(s)
    ensures var r := UnmapLogicalBlocks(s, h, ms);
      && r.mmu == Run(s, Unmaps(h, ms))
      && (r.status.Ok? <==> forall i :: 0 <= i < |ms| ==> UnmapAt(s, h, ms, i).status.Ok?)
      && (forall i :: 0 <= i < |ms| && !UnmapAt(s, h, ms, i).status.Ok?
                      && (forall j :: 0 <= j < i ==> UnmapAt(s, h, ms, j).status.Ok?) ==>
            r.status == UnmapAt(s, h, ms, i).status)
  {
    hide Wf, UnmapLogicalBlock, Run, UnmapAt;
    if ms == [] {
      RunNothing(s, Unmaps(h, ms));
    } else {
      var n := |ms| - 1;
      UnmapBatchAnswers(s, h, ms[..n]);
      forall i | 0 <= i < n
        ensures UnmapAt(s, h, ms[..n], i) == UnmapAt(s, h, ms, i)
      {
        UnmapAtPrefix(s, h, ms, n, i);
      }
      RunUnmaps(s, h, ms);
      UnmapAtIs(s, h, ms, n);
    }
  }

  lemma UnmapAtIs(s: Mmu, h: Handle, ms: seq<MappedBlock>, i: nat)
    requires Wf(s) && i < |ms|
    ensures UnmapAt(s, h, ms, i) == UnmapLogicalBlock(Run(s, Unmaps(h, ms[..i])), h, ms[i])
  {
    hide Wf, UnmapLogicalBlock, Run;
  }

  /** `m` is a usable mapping of logical block `l`: it names the block behind it, which is pinned, and
      its pointer is the frame of that block. */
  ghost predicate MapsTo(t: Mmu, h: Handle, l: nat, flags: nat, m: MappedBlock)
    requires Wf(t)
  {
    && Resolve(t, h, l).status.Ok? && t.Has(m.block) && m.block == Resolve(t, h, l).route.block
    && m == MappedBlock(t.l1.owner[m.block], t.cfg.blockSize, m.block, l, flags)
    && m.frame != NONE && t.metas[m.block].pins > 0
  }

  lemma MappedMapsTo(s: Mmu, h: Handle, l: nat, flags: nat)
    requires Core(s) && MapLogicalBlock(s, h, l, flags).status.Ok?
    ensures var r := MapLogicalBlock(s, h, l, flags); MapsTo(r.mmu, h, l, flags, r.mapped)
  {
    hide Core, Wf, MapLogicalBlock, Resolve, SharingStep, FramesKept, HasWrite;
    CoreWf(s);
    WfSizes(s);
    MapStep(s, h, l, flags);
    var r := MapLogicalBlock(s, h, l, flags);
    WfSizes(r.mmu);
    PinnedFramed(r.mmu, r.mapped.block);
  }

  lemma MapsToStays(s: Mmu, t: Mmu, h: Handle, l: nat, flags: nat, m: MappedBlock)
    requires Wf(s) && Wf(t) && t.cfg == s.cfg && MapsTo(s, h, l, flags, m)
    requires FramesKept(s, t) && Releases(t, h, m) && t.Has(m.block) && |t.metas| == t.cfg.blocks && t.metas[m.block].pins > 0
    ensures MapsTo(t, h, l, flags, m)
  {
    hide Wf, Resolve;
    WfSizes(s);
    WfSizes(t);
  }

  lemma {:induction false} MapEachMapsTo(s: Mmu, h: Handle, ls: seq<nat>, flags: nat)
    requires Core(s) && MapEach(s, h, ls, flags).status.Ok?
    ensures var b := MapEach(s, h, ls, flags);
      |b.done| == |ls| && forall i :: 0 <= i < |ls| ==> MapsTo(b.mmu, h, ls[i], flags, b.done[i])
  {
    hide Core, Wf, MapLogicalBlock, Releases, HasWrite, MapsTo, FramesKept, Resolve;
    CoreWf(s);
    if ls != [] {
      var n := |ls| - 1;
      MapEachPins(s, h, ls[..n], flags);
      MapEachPins(s, h, ls, flags);
      var b, c := MapEach(s, h, ls[..n], flags), MapEach(s, h, ls, flags);
      MapEachMapsTo(s, h, ls[..n], flags);
      MappedMapsTo(b.mmu, h, ls[n], flags);
      MapStep(b.mmu, h, ls[n], flags);
      forall i | 0 <= i < n
        ensures MapsTo(c.mmu, h, ls[i], flags, c.done[i])
      {
        assert MapsTo(b.mmu, h, ls[..n][i], flags, b.done[i]);
        assert Releases(c.mmu, h, c.done[i]);
        StillPinned(b.mmu, c.mmu, h, ls[i], flags, b.done[i], if c.status.Ok? then c.done[n].block else NONE);
        MapsToStays(b.mmu, c.mmu, h, ls[i], flags, b.done[i]);
      }
    }
  }

  lemma StillPinned(s: Mmu, t: Mmu, h: Handle, l: nat, flags: nat, m: MappedBlock, p: int)
    requires Wf(s) && Wf(t) && t.cfg == s.cfg && MapsTo(s, h, l, flags, m) && PinsUp(s, t, p)
    ensures t.Has(m.block) && |t.metas| == t.cfg.blocks && t.metas[m.block].pins > 0
  {
    hide Wf, Resolve;
    WfSizes(s);
    WfSizes(t);
  }

  /** A batch map that succeeds is the run of its single maps, and output `i` is a usable mapping of the
      `i`th block of the list. One that fails answers what the first single map that fails answers, and
      the mappings made before are then unmapped one by one. */
  lemma MapBatchAnswers(s: Mmu, h: Handle, ls: seq<nat>, flags: nat)
    requires Core(s)
    ensures var r := MapLogicalBlocks(s, h, ls, flags);
      && |r.done| <= |ls| && (r.status.Ok? <==> |r.done| == |ls|)
      && (forall i :: 0 <= i < |r.done| ==>
            MapAt(s, h, ls, flags, i).status.Ok? && r.done[i] == MapAt(s, h, ls, flags, i).mapped)
      && (r.status.Ok? ==>
            && r.mmu == Run(s, MapOnes(h, ls, flags))
            && forall i :: 0 <= i < |ls| ==> MapsTo(r.mmu, h, ls[i], flags, r.done[i]))
      && (!r.status.Ok? ==>
            && r.status == MapAt(s, h, ls, flags, |r.done|).status
            && r.mmu == Run(MapAt(s, h, ls, flags, |r.done|).mmu, Unmaps(h, r.done)))
  {
    hide Core, Wf, MapEach, UnmapLogicalBlocks, MapsTo, MapAt, Run;
    CoreWf(s);
    MapEachIsRun(s, h, ls, flags);
    var b := MapEach(s, h, ls, flags);
    if b.status.Ok? {
      MapEachMapsTo(s, h, ls, flags);
    } else {
      UnmapBatchAnswers(b.mmu, h, b.done);
    }
  }

  /** These calls touch no block. */
  lemma QuietClock(s: Mmu, a: Action)
    requires Core(s) && (a.Create? || a.Destroy? || a.Fork? || a.Shrink? || a.Prepare? || a.Write?)
    ensures SameClock(s, Step(s, a).mmu)
  {
    hide Core, Wf, Reclaim, Dropped, Forget, PrepareBlockForWrite, Release, Resolve, RetainEach;
    CoreWf(s);
    match a
    case Create(_) =>
    case Destroy(h) => if h in s.tables { DroppedClock(s, h); }
    case Fork(_, _) =>
    case Shrink(h, l) => ShrunkClock(s, h, l);
    case Prepare(h, l) => PrepareClock(s, h, l);
    case Write(_, _, _, _) =>
  }

  lemma DroppedClock(s: Mmu, h: Handle)
    requires Core(s) && h in s.tables
    ensures SameClock(s, DestroyContext(s, h))
  {
    DroppedEffect(s, h);
    ReclaimEffect(Dropped(s, h), s.cfg.blocks);
    hide Wf, Reclaim, AllButBlocks, Reclaimed, ReleaseEach;
  }

  lemma ShrunkClock(s: Mmu, h: Handle, l: nat)
    requires Core(s)
    ensures SameClock(s, ReleaseLogicalBlock(s, h, l).mmu)
  {
    hide Core, Wf, Forget, Resolve, Ledger.Released;
    CoreWf(s);
    WfSizes(s);
    if Resolve(s, h, l).status.Ok? {
      ResolveLive(s, h, l);
      var p := Resolve(s, h, l).route.block;
      var u := s.(ledger := s.ledger.Released(p), tables := s.tables[h := s.tables[h][l := NONE]]);
      EntryCleared(s, u, h, l);
      ReleaseShape(s, u, h, l);
      ForgetEffect(u, p);
    }
  }
}
