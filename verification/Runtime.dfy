/** The runtime object: every routine changes its fields, and the objects they name, exactly as the
    specification functions of Tiering and Api say. */
module Runtimes {
  import opened MmuTypes
  import opened BlockManagers
  import opened BlockDirectories
  import opened ChunkPools
  import opened Contexts
  import opened Tiering
  import opened Api

  class Runtime {
    const config: Config
    const allocator: BlockManager
    const directory: BlockDirectory
    const l1Pool: ChunkPool
    const l2Pool: ChunkPool
    const host: HostMemory
    var contexts: map<Handle, Context>
    var residentCount: nat
    var epoch: nat
    ghost var touches: seq<int>

    ghost function PageTables(): set<PageTable>
      reads this`contexts
    {
      set h | h in contexts :: contexts[h].pageTable
    }

    ghost function Tables(): map<Handle, seq<int>>
      reads this`contexts, PageTables()
    {
      map h | h in contexts :: contexts[h].pageTable.entries
    }

    ghost function Value(): Mmu
      reads this, allocator, directory, l1Pool, l2Pool, host, PageTables()
    {
      Mmu(config, allocator.Value(), directory.metas, l1Pool.Value(), l2Pool.Value(),
          residentCount, epoch, touches, Tables(), host.Value())
    }

    /** The parts of the object are distinct and belong together. */
    ghost predicate Shaped()
      reads this`contexts
    {
      && l1Pool != l2Pool
      && (forall h :: h in contexts ==> contexts[h].manager == allocator)
      && (forall g, h :: g in contexts && h in contexts && g != h ==> contexts[g].pageTable != contexts[h].pageTable)
    }

    ghost predicate Valid()
      reads this, allocator, directory, l1Pool, l2Pool, host, PageTables()
    {
      Shaped() && Wf(Value())
    }

    constructor (raw: Config, auto: nat, denied: set<nat>, noise: Byte)
      requires raw.blocks > 0 && raw.blockSize > 0
      ensures Value() == Initial(ResolveConfig(raw, auto), Os(denied, 0, noise))
      ensures Valid()
    {
      var limit := if raw.residentLimit == 0 then auto else raw.residentLimit;
      if limit == 0 || limit > raw.blocks {
        limit := raw.blocks;
      }
      var l2Blocks := raw.l2Blocks;
      if l2Blocks == 0 || l2Blocks > raw.blocks {
        l2Blocks := raw.blocks;
      }
      var chunkBlocks := raw.chunkBlocks;
      if chunkBlocks == 0 {
        chunkBlocks := DEFAULT_CHUNK_BLOCK_COUNT;
      }
      if chunkBlocks > raw.blocks {
        chunkBlocks := raw.blocks;
      }
      config := Config(raw.blocks, limit, l2Blocks, raw.blockSize, chunkBlocks);
      allocator := new BlockManager(raw.blocks);
      directory := new BlockDirectory(raw.blocks);
      l1Pool := new ChunkPool(raw.blocks);
      l2Pool := new ChunkPool(raw.blocks);
      host := new HostMemory(denied, noise);
      contexts, residentCount, epoch, touches := map[], 0, 0, [];
      new;
      hide PoolOk, Ledger.Valid, FreshLedger, FreshPool, ConfigOk;
      assert config == ResolveConfig(raw, auto);
      assert Tables() == map[];
      hide ResolveConfig;
    }

    method TouchBlock(block: int)
      requires Valid() && Value().Has(block)
      modifies this`epoch, this`touches, directory
      ensures Value() == Touched(old(Value()), block)
    {
      epoch := epoch + 1;
      touches := touches + [block];
      var _ := directory.SetLastAccessEpoch(block, epoch);
    }

    /** Assignment through the metadata pointer of a block. */
    method SetMeta(block: int, m: Meta)
      requires Valid() && Value().Has(block)
      modifies directory
      ensures var s := old(Value()); Value() == s.(metas := s.metas[block := m])
      ensures Valid()
    {
      hide PoolOk, Ledger.Valid;
      var _ := directory.Put(block, m);
    }

    method DropL1Page(block: int)
      requires Valid() && Value().Has(block)
      modifies l1Pool
      ensures var s := old(Value()); Value() == s.(l1 := Returned(s.l1, block))
      ensures Valid()
    {
      hide Ledger.Valid, PoolOk;
      ReturnedOk(l1Pool.Value(), config.blockSize, block);
      l1Pool.ReleasePage(block);
    }

    /** Give the block an L1 frame unless it has one. */
    method FrameBlock(block: int) returns (status: Status)
      requires Valid() && Value().Has(block)
      modifies l1Pool, host
      ensures var s := old(Value());
        var a := AcquireL1(s, block);
        status == a.status && Value() == s.(l1 := a.pool, os := a.os)
      ensures Valid() && (status.Ok? ==> l1Pool.ownerPages[block] != NONE)
    {
      hide PoolOk, Ledger.Valid, Acquire;
      status := l1Pool.AcquirePage(config.blockSize, 0, config.chunkBlocks, host, block);
    }

    /** Store `bytes` as the L2 page of the block. */
    method FillL2(block: int, bytes: Page) returns (status: Status)
      requires Valid() && Value().Has(block) && |bytes| == config.blockSize
      modifies l2Pool, host, directory
      ensures Outcome(status, Value()) == FilledL2(old(Value()), block, bytes)
      ensures Valid()
    {
      hide PoolOk, Ledger.Valid, Acquire;
      status := l2Pool.AcquirePage(config.blockSize, config.l2Blocks, config.chunkBlocks, host, block);
      if !status.Ok? {
        return status;
      }
      l2Pool.Store(config.blockSize, block, bytes);
      var _ := directory.SetHasL2Backing(block, true);
      var _ := directory.SetL2SlotId(block, block);
    }

    /** Store `bytes` as the L1 page of the block. */
    method FillL1(block: int, bytes: Page) returns (status: Status)
      requires Valid() && Value().Has(block) && |bytes| == config.blockSize
      modifies l1Pool, host
      ensures Outcome(status, Value()) == FilledL1(old(Value()), block, bytes)
      ensures Valid()
    {
      hide PoolOk, Ledger.Valid, Acquire;
      status := FrameBlock(block);
      if !status.Ok? {
        return status;
      }
      l1Pool.Store(config.blockSize, block, bytes);
    }

    method SyncL1ToL2(block: int) returns (status: Status)
      requires Valid() && Value().Has(block)
      modifies l2Pool, host, directory
      ensures Outcome(status, Value()) == Tiering.SyncL1ToL2(old(Value()), block)
    {
      l1Pool.RawPageIsPage(config.blockSize, block);
      PageSize(l1Pool.Value(), config.blockSize, block);
      hide PoolOk, Ledger.Valid, FilledL2;
      status := FillL2(block, OrZeros(l1Pool.RawPage(block), config.blockSize));
    }

    method SyncL2ToL1(block: int) returns (status: Status)
      requires Valid() && Value().Has(block)
      modifies l1Pool, host, directory
      ensures Outcome(status, Value()) == Tiering.SyncL2ToL1(old(Value()), block)
    {
      l2Pool.RawPageIsPage(config.blockSize, block);
      PageSize(l2Pool.Value(), config.blockSize, block);
      hide PoolOk, Ledger.Valid, FilledL1, PageAt, OrZeros;
      status := FillL1(block, OrZeros(l2Pool.RawPage(block), config.blockSize));
      if status.Ok? {
        NoteFrame(block);
      }
    }

    method NoteFrame(block: int)
      requires Valid() && Value().Has(block)
      modifies directory
      ensures var s := old(Value());
        Value() == s.(metas := s.metas[block := s.metas[block].(l1Frame := block)])
    {
      hide PoolOk, Ledger.Valid;
      var _ := directory.SetL1FrameId(block, block);
    }

    method ResetBlockData(block: int)
      requires Valid() && Value().Has(block)
      modifies l1Pool, l2Pool, directory
      ensures Value() == Tiering.ResetBlockData(old(Value()), block)
    {
      hide PoolOk, Ledger.Valid;
      l1Pool.ReleasePage(block);
      l2Pool.ReleasePage(block);
      var m := directory.metas[block];
      var _ := directory.Put(block, m.(resident := false, dirty := false, pins := 0, epoch := 0,
                                       l1Frame := NONE, l2Slot := NONE, backed := false));
    }

    method ReclaimUnusedResidentBlocks()
      requires Valid()
      modifies this`residentCount, l1Pool, l2Pool, directory
      ensures Value() == Reclaim(old(Value()), config.blocks)
      ensures Valid()
    {
      hide PoolOk, Ledger.Valid, Forget;
      for block := 0 to config.blocks
        invariant Valid() && Value() == Reclaim(old(Value()), block)
      {
        var refCount := allocator.RefCount(block);
        if refCount == 0 {
          ForgetBlock(block);
        }
      }
    }

    /** Uncount, reset and forget one unowned block. */
    method ForgetBlock(block: int)
      requires Valid() && Value().Has(block)
      modifies this`residentCount, l1Pool, l2Pool, directory
      ensures Value() == Forget(old(Value()), block)
      ensures Valid()
    {
      hide PoolOk, Ledger.Valid;
      if directory.metas[block].resident && residentCount > 0 {
        residentCount := residentCount - 1;
      }
      ResetBlockData(block);
      ResetMeta(block);
    }

    method ResetMeta(block: int)
      requires Valid() && Value().Has(block)
      modifies directory
      ensures Value() == WithMeta(old(Value()), block, DefaultMeta())
      ensures Valid()
    {
      hide PoolOk, Ledger.Valid;
      directory.Reset(block);
    }

    method PickEvictionCandidate(protected: int) returns (victim: int)
      requires Valid()
      ensures victim == Victim(directory.metas, protected, config.blocks)
      ensures Value() == old(Value())
    {
      hide PoolOk, Ledger.Valid;
      victim := NONE;
      for block := 0 to config.blocks
        invariant victim == Victim(directory.metas, protected, block)
      {
        var m := directory.metas[block];
        if m.live && m.resident && block != protected && m.pins == 0 {
          if victim == NONE || m.epoch < directory.metas[victim].epoch {
            victim := block;
          }
        }
      }
    }

    method MoveBlockToL2(block: int) returns (status: Status)
      requires Valid()
      modifies this`residentCount, l1Pool, l2Pool, host, directory
      ensures Outcome(status, Value()) == Tiering.MoveBlockToL2(old(Value()), block)
      ensures Valid()
    {
      hide PoolOk, Ledger.Valid, Tiering.SyncL1ToL2, Returned;
      if !allocator.IsValid(block) {
        return InvalidArgument;
      }
      if !directory.metas[block].live {
        return InvalidArgument;
      }
      if directory.metas[block].resident {
        status := SyncL1ToL2(block);
        if !status.Ok? {
          return status;
        }
        Demote(block);
      }
      DropL1Page(block);
      SetMeta(block, directory.metas[block].(tier := L2));
      assert directory.metas == Tiering.MoveBlockToL2(old(Value()), block).mmu.metas;
      return Ok;
    }

    /** The block no longer counts as resident. */
    method Demote(block: int)
      requires Valid() && Value().Has(block)
      modifies this`residentCount, directory
      ensures var s := old(Value());
        Value() == s.(residents := if s.residents > 0 then s.residents - 1 else s.residents,
                      metas := s.metas[block := s.metas[block].(resident := false, l1Frame := NONE)])
    {
      hide PoolOk, Ledger.Valid;
      var _ := directory.Put(block, directory.metas[block].(resident := false, l1Frame := NONE));
      if residentCount > 0 {
        residentCount := residentCount - 1;
      }
    }

    method EnsureResidentInL1(block: int) returns (status: Status)
      requires Valid()
      modifies this`residentCount, this`epoch, this`touches, l1Pool, l2Pool, host, directory
      ensures Outcome(status, Value()) == Tiering.EnsureResidentInL1(old(Value()), block)
      ensures Valid()
    {
      hide PoolOk, Ledger.Valid, Tiering.SyncL2ToL1, Reclaim, Tiering.MakeRoom;
      if !allocator.IsValid(block) {
        return InvalidArgument;
      }
      ReclaimUnusedResidentBlocks();
      if !directory.metas[block].live {
        return InvalidArgument;
      }
      if directory.metas[block].resident {
        TouchBlock(block);
        SetMeta(block, directory.metas[block].(tier := L1));
        return Ok;
      }
      status := MakeRoom(block);
      if !status.Ok? {
        return status;
      }
      status := SyncL2ToL1(block);
      if !status.Ok? {
        return status;
      }
      Promote(block);
      TouchBlock(block);
      return Ok;
    }

    /** The block now counts as resident. */
    method Promote(block: int)
      requires Valid() && Value().Has(block)
      modifies this`residentCount, directory
      ensures var s := old(Value());
        Value() == s.(residents := s.residents + 1,
                      metas := s.metas[block := s.metas[block].(resident := true, l1Frame := block, tier := L1)])
    {
      hide PoolOk, Ledger.Valid;
      var _ := directory.Put(block, directory.metas[block].(resident := true, l1Frame := block, tier := L1));
      residentCount := residentCount + 1;
    }

    /** The eviction loop of EnsureResidentInL1. */
    method MakeRoom(block: int) returns (status: Status)
      requires Valid()
      modifies this`residentCount, l1Pool, l2Pool, host, directory
      ensures Outcome(status, Value()) == Tiering.MakeRoom(old(Value()), block)
      ensures Valid()
    {
      hide PoolOk, Ledger.Valid, Tiering.MoveBlockToL2, Victim, Tiering.MakeRoom;
      MakeRoomUnrolled(Value(), block);
      while residentCount >= config.residentLimit
        invariant Valid() && Value().cfg == config
        invariant Tiering.MakeRoom(Value(), block) == Tiering.MakeRoom(old(Value()), block)
        invariant residentCount < config.residentLimit ==> Tiering.MakeRoom(Value(), block) == Outcome(Ok, Value())
        decreases residentCount
      {
        ghost var s := Value();
        MakeRoomUnrolled(s, block);
        var victim := PickEvictionCandidate(block);
        if victim < 0 {
          return OutOfMemory;
        }
        status := MoveBlockToL2(victim);
        if !status.Ok? {
          return status;
        }
        MakeRoomUnrolled(Value(), block);
      }
      return Ok;
    }

    method RegisterFreshBlock(block: int)
      requires Valid()
      modifies this`residentCount, this`epoch, this`touches, l1Pool, l2Pool, directory
      ensures Value() == Tiering.RegisterFreshBlock(old(Value()), block)
      ensures Valid()
    {
      hide PoolOk, Ledger.Valid, Tiering.ResetBlockData;
      var ok := directory.InitializeFreshBlock(block);
      if !ok {
        return;
      }
      ghost var blank := WithMeta(old(Value()), block, FreshMeta());
      assert Value() == blank;
      ResetBlockData(block);
      assert Value() == Tiering.ResetBlockData(blank, block);
      Place(block);
    }

    /** The block counts as resident, if it did not, and belongs to L1. */
    method TakeSlot(block: int)
      requires Valid() && Value().Has(block)
      modifies this`residentCount, directory
      ensures var s := old(Value());
        var u := if s.metas[block].resident then s
                 else s.(residents := s.residents + 1,
                         metas := s.metas[block := s.metas[block].(resident := true, l1Frame := block)]);
        Value() == u.(metas := u.metas[block := u.metas[block].(tier := L1)])
      ensures Valid()
    {
      hide PoolOk, Ledger.Valid;
      if !directory.metas[block].resident {
        var _ := directory.Put(block, directory.metas[block].(resident := true, l1Frame := block));
        residentCount := residentCount + 1;
      }
      var _ := directory.SetTier(block, L1);
    }

    /** Give the block a resident slot if one is left. */
    method Place(block: int)
      requires Valid() && Value().Has(block)
      modifies this`residentCount, this`epoch, this`touches, directory
      ensures Value() == Placed(old(Value()), block)
    {
      hide PoolOk, Ledger.Valid;
      if residentCount < config.residentLimit {
        TakeSlot(block);
        TouchBlock(block);
      } else {
        var _ := directory.Put(block, directory.metas[block].(resident := false, l1Frame := NONE, epoch := 0, tier := L2));
      }
    }

    /** The page a copy-on-write reads: the L1 page of a block whose tier is L1 if it has one, else
        the L2 page, else whatever L1 page there is. */
    function ReadForClone(src: int, srcTier: Tier): Option<Page>
      requires directory.IsValid(src)
      reads l1Pool, l2Pool, directory
    {
      var first := if srcTier == L1 && directory.metas[src].resident then l1Pool.RawPage(src) else None;
      var second := if first == None then l2Pool.RawPage(src) else first;
      if second == None then l1Pool.RawPage(src) else second
    }

    lemma ReadForCloneIsSource(src: int, srcTier: Tier)
      requires Valid() && Value().Has(src)
      ensures ReadForClone(src, srcTier) == CloneSource(Value(), src, srcTier)
    {
      l1Pool.RawPageIsPage(config.blockSize, src);
      l2Pool.RawPageIsPage(config.blockSize, src);
      hide PoolOk, Ledger.Valid, PageAt;
    }

    method CloneBlockDataForCow(src: int, srcTier: Tier, dst: int) returns (status: Status)
      requires Valid()
      modifies l1Pool, l2Pool, host, directory
      ensures Outcome(status, Value()) == Tiering.CloneBlockDataForCow(old(Value()), src, srcTier, dst)
      ensures Valid()
    {
      hide PoolOk, Ledger.Valid, FilledL2, FilledL1, Returned, CloneSource;
      if !allocator.IsValid(src) || !allocator.IsValid(dst) {
        return InvalidArgument;
      }
      var bs := config.blockSize;
      CloneSourceSize(Value(), src, srcTier);
      ReadForCloneIsSource(src, srcTier);
      var bytes := OrZeros(ReadForClone(src, srcTier), bs);
      status := FillL2(dst, bytes);
      if !status.Ok? {
        return status;
      }
      if directory.metas[dst].resident {
        status := FillL1(dst, bytes);
        return status;
      } else {
        DropL1Page(dst);
        return Ok;
      }
    }

    /** mmu_create_context; `h` is the address of the new context. */
    method CreateContext(h: Handle)
      requires Valid() && h !in contexts
      modifies this`contexts
      ensures Value() == Api.CreateContext(old(Value()), h)
      ensures Valid()
    {
      hide PoolOk, Ledger.Valid;
      var context := new Context(allocator);
      contexts := contexts[h := context];
      assert Tables() == old(Tables())[h := []];
    }

    method DestroyContext(h: Handle)
      requires Valid()
      modifies this`contexts, this`residentCount, allocator, l1Pool, l2Pool, directory
      ensures Value() == Api.DestroyContext(old(Value()), h)
      ensures Valid()
    {
      hide PoolOk, Ledger.Valid, Reclaim, ReleaseEach;
      if h in contexts {
        DropContext(h);
        ReclaimUnusedResidentBlocks();
      }
    }

    /** Erase the context, whose destructor releases its blocks. */
    method DropContext(h: Handle)
      requires Valid() && h in contexts
      modifies this`contexts, allocator
      ensures Value() == Dropped(old(Value()), h)
      ensures Valid()
    {
      hide PoolOk, Ledger.Valid, ReleaseEach;
      AllocatorValid();
      var context := contexts[h];
      context.ReleaseAllBlocks();
      contexts := contexts - {h};
      assert Tables() == old(Tables()) - {h};
    }

    lemma AllocatorValid()
      requires Valid()
      ensures allocator.Valid()
    {
    }

    method ForkContext(src: Handle, h: Handle) returns (status: Status)
      requires Valid() && h !in contexts
      modifies this`contexts, allocator
      ensures Outcome(status, Value()) == Api.ForkContext(old(Value()), src, h)
      ensures Valid()
    {
      hide PoolOk, Ledger.Valid, RetainEach;
      if src !in contexts {
        return BadHandle;
      }
      AllocatorValid();
      var child := contexts[src].Fork();
      contexts := contexts[h := child];
      assert Tables() == old(Tables())[h := old(Tables())[src]];
      return Ok;
    }

    /** Context::AllocateBlocks on the context of `h`. */
    method GrowTable(h: Handle, num: int) returns (status: Status, blocks: seq<int>)
      requires Valid() && h in contexts
      modifies allocator, contexts[h].pageTable
      ensures var s := old(Value());
        var a := Allocate(s.ledger, s.tables[h], num);
        && status == a.status && blocks == a.blocks
        && Value() == s.(ledger := a.ledger, tables := s.tables[h := a.table])
      ensures Valid()
    {
      hide PoolOk, Ledger.Valid, Allocate;
      AllocatorValid();
      ghost var s := Value();
      status, blocks := contexts[h].AllocateBlocks(num);
      assert Tables() == s.tables[h := contexts[h].pageTable.entries];
      assert Value() == s.(ledger := allocator.Value(), tables := Tables());
    }

    method AllocateBlocks(h: Handle, num: nat) returns (status: Status)
      requires Valid()
      modifies this`residentCount, this`epoch, this`touches, allocator, l1Pool, l2Pool, directory, PageTables()
      ensures Outcome(status, Value()) == Api.AllocateBlocks(old(Value()), h, num)
      ensures Valid()
    {
      hide PoolOk, Ledger.Valid, Allocate, Reclaim, RegisterEach;
      if h !in contexts {
        return BadHandle;
      }
      if num > INT_MAX {
        return InvalidArgument;
      }
      ReclaimUnusedResidentBlocks();
      ReclaimKeepsTables(old(Value()), config.blocks);
      var blocks;
      status, blocks := GrowTable(h, num);
      if !status.Ok? {
        return status;
      }
      RegisterBlocks(blocks);
      return Ok;
    }

    method RegisterBlocks(blocks: seq<int>)
      requires Valid()
      modifies this`residentCount, this`epoch, this`touches, l1Pool, l2Pool, directory
      ensures Value() == RegisterEach(old(Value()), blocks)
      ensures Valid()
    {
      hide PoolOk, Ledger.Valid, Tiering.RegisterFreshBlock;
      for i := 0 to |blocks|
        invariant Valid() && Value() == RegisterEach(old(Value()), blocks[..i])
      {
        assert blocks[..i + 1][..i] == blocks[..i];
        RegisterFreshBlock(blocks[i]);
      }
      assert blocks[..|blocks|] == blocks;
    }

    method ResolveRouting(h: Handle, l: nat) returns (status: Status, route: Route)
      requires Valid()
      ensures Resolved(status, route) == Resolve(Value(), h, l)
      ensures Value() == old(Value())
    {
      hide PoolOk, Ledger.Valid;
      route := NO_ROUTE;
      if h !in contexts {
        return BadHandle, route;
      }
      if l > INT_MAX {
        return InvalidArgument, route;
      }
      var entry := contexts[h].pageTable.Get(l);
      if entry.None? {
        return Unallocated, route;
      }
      if entry.value == NONE {
        return Unallocated, route;
      }
      if !directory.IsValid(entry.value) || !directory.metas[entry.value].live {
        return Internal, route;
      }
      return Ok, Route(directory.metas[entry.value].tier, entry.value, entry.value * config.blockSize);
    }

    /** `written` is the part of the output array filled in before the first failure. */
    method ResolveRoutingBatch(h: Handle, ls: seq<nat>) returns (status: Status, written: seq<Route>)
      requires Valid()
      ensures (status, written) == ResolveBatch(Value(), h, ls)
    {
      hide PoolOk, Ledger.Valid, Resolve;
      if h !in contexts {
        return BadHandle, [];
      }
      status, written := Ok, [];
      ghost var s := Value();
      for i := 0 to |ls|
        invariant Value() == s && status.Ok?
        invariant (status, written) == ResolveEach(s, h, ls[..i])
      {
        assert ls[..i + 1][..i] == ls[..i] && ls[..i + 1][i] == ls[i];
        var route;
        status, route := ResolveRouting(h, ls[i]);
        if !status.Ok? {
          ResolveEachStops(s, h, ls, i + 1);
          return status, written;
        }
        written := written + [route];
      }
      assert ls[..|ls|] == ls;
    }

    /** Context::ReleaseLogicalBlock on the context of `h`. */
    method ReleaseEntry(h: Handle, l: nat) returns (status: Status)
      requires Valid() && h in contexts
      modifies allocator, contexts[h].pageTable
      ensures var s := old(Value());
        var a := Release(s.ledger, s.tables[h], l);
        && status == a.status
        && Value() == s.(ledger := a.ledger, tables := s.tables[h := a.table])
      ensures Valid()
    {
      hide PoolOk, Ledger.Valid, Release;
      AllocatorValid();
      ghost var s := Value();
      status := contexts[h].ReleaseLogicalBlock(l);
      assert Tables() == s.tables[h := contexts[h].pageTable.entries];
      assert Value() == s.(ledger := allocator.Value(), tables := Tables());
    }

    method ReleaseLogicalBlock(h: Handle, l: nat) returns (status: Status)
      requires Valid()
      modifies this`residentCount, allocator, l1Pool, l2Pool, directory, PageTables()
      ensures Outcome(status, Value()) == Api.ReleaseLogicalBlock(old(Value()), h, l)
      ensures Valid()
    {
      hide PoolOk, Ledger.Valid, Forget, Resolve;
      ghost var s := Value();
      var route;
      status, route := ResolveRouting(h, l);
      if !status.Ok? {
        return status;
      }
      ResolvedKnown(s, h, l);
      ReleaseFails(s, h, l);
      status := ReleaseEntry(h, l);
      if !status.Ok? {
        return status;
      }
      if allocator.RefCount(route.block) == 0 {
        ForgetBlock(route.block);
      }
      return Ok;
    }

    /** Context::PrepareBlockForWrite on the context of `h`. */
    method SwitchEntry(h: Handle, l: nat) returns (status: Status, blocks: seq<int>)
      requires Valid() && h in contexts
      modifies allocator, contexts[h].pageTable
      ensures var s := old(Value());
        var a := PrepareWrite(s.ledger, s.tables[h], l);
        && status == a.status && blocks == a.blocks
        && Value() == s.(ledger := a.ledger, tables := s.tables[h := a.table])
      ensures Valid()
    {
      hide PoolOk, Ledger.Valid, PrepareWrite;
      AllocatorValid();
      ghost var s := Value();
      status, blocks := contexts[h].PrepareBlockForWrite(l);
      assert Tables() == s.tables[h := contexts[h].pageTable.entries];
      assert Value() == s.(ledger := allocator.Value(), tables := Tables());
    }

    method StartCopy(block: int)
      requires Valid() && Value().Has(block)
      modifies directory
      ensures Value() == WithMeta(old(Value()), block, FreshMeta().(tier := L2))
      ensures Valid()
    {
      hide PoolOk, Ledger.Valid;
      var _ := directory.InitializeFreshBlock(block);
      var _ := directory.SetTier(block, L2);
    }

    method PrepareBlockForWrite(h: Handle, l: nat) returns (status: Status, block: int)
      requires Valid()
      modifies allocator, l1Pool, l2Pool, host, directory, PageTables()
      ensures Prepared(status, Value(), block) == Api.PrepareBlockForWrite(old(Value()), h, l)
      ensures Valid()
    {
      hide PoolOk, Ledger.Valid, Tiering.CloneBlockDataForCow, Resolve;
      ghost var s := Value();
      var before;
      status, before := ResolveRouting(h, l);
      if !status.Ok? {
        return status, NONE;
      }
      ResolvedKnown(s, h, l);
      PrepareFails(s, h, l);
      var blocks;
      status, blocks := SwitchEntry(h, l);
      if !status.Ok? {
        return status, NONE;
      }
      block := blocks[0];
      if block != before.block {
        StartCopy(block);
        status := CloneBlockDataForCow(before.block, before.tier, block);
        if !status.Ok? {
          return status, NONE;
        }
      }
      return Ok, block;
    }

    method MapLogicalBlock(h: Handle, l: nat, flags: nat) returns (status: Status, mapped: MappedBlock)
      requires Valid()
      modifies this`residentCount, this`epoch, this`touches, allocator, l1Pool, l2Pool, host, directory, PageTables()
      ensures Mapped(status, Value(), mapped) == Api.MapLogicalBlock(old(Value()), h, l, flags)
      ensures Valid()
      ensures contexts == old(contexts)
    {
      hide PoolOk, Ledger.Valid, Api.PrepareBlockForWrite, Tiering.EnsureResidentInL1, Resolve, HasWrite,
           ValidFlags, Pinned;
      mapped := NO_MAPPING;
      if !ValidFlags(flags) {
        return InvalidArgument, mapped;
      }
      if h !in contexts {
        return BadHandle, mapped;
      }
      if l > INT_MAX {
        return InvalidArgument, mapped;
      }
      if HasWrite(flags) {
        var prepared;
        status, prepared := PrepareBlockForWrite(h, l);
        if !status.Ok? {
          return status, mapped;
        }
      }
      ghost var s := Value();
      var route;
      status, route := ResolveRouting(h, l);
      if !status.Ok? {
        return status, mapped;
      }
      ResolvedKnown(s, h, l);
      status := EnsureResidentInL1(route.block);
      if !status.Ok? {
        return status, mapped;
      }
      status, mapped := PinBlock(route.block, l, flags);
    }

    method CountPin(block: int)
      requires Valid() && Value().Has(block)
      modifies directory
      ensures var s := old(Value());
        var m := s.metas[block];
        Value() == s.(metas := s.metas[block := m.(pins := m.pins + 1)])
      ensures Valid()
    {
      hide PoolOk, Ledger.Valid;
      var _ := directory.IncrementPinCount(block);
    }

    /** Give a resident block its frame, pin it and describe the mapping. */
    method PinBlock(block: int, l: nat, flags: nat) returns (status: Status, mapped: MappedBlock)
      requires Valid() && Value().Has(block)
      modifies this`epoch, this`touches, l1Pool, host, directory
      ensures Mapped(status, Value(), mapped) == Pinned(old(Value()), block, l, flags)
      ensures Valid()
    {
      hide PoolOk, Ledger.Valid, AcquireL1;
      status := FrameBlock(block);
      if !status.Ok? {
        return status, NO_MAPPING;
      }
      CountPin(block);
      TouchBlock(block);
      mapped := MappedBlock(l1Pool.ownerPages[block], config.blockSize, block, l, flags);
    }

    method MapLogicalBlocks(h: Handle, ls: seq<nat>, flags: nat) returns (status: Status, mapped: seq<MappedBlock>)
      requires Valid()
      modifies this`residentCount, this`epoch, this`touches, allocator, l1Pool, l2Pool, host, directory, PageTables()
      ensures Batch(status, Value(), mapped) == Api.MapLogicalBlocks(old(Value()), h, ls, flags)
      ensures Valid()
    {
      hide PoolOk, Ledger.Valid, Api.MapLogicalBlock, Api.UnmapLogicalBlock;
      status, mapped := Ok, [];
      var i := 0;
      while i < |ls| && status.Ok?
        invariant 0 <= i <= |ls| && contexts == old(contexts)
        invariant Valid()
        invariant Batch(status, Value(), mapped) == MapEach(old(Value()), h, ls[..i], flags)
        invariant !status.Ok? ==> MapEach(old(Value()), h, ls, flags) == MapEach(old(Value()), h, ls[..i], flags)
        decreases |ls| - i, status.Ok?
      {
        assert ls[..i + 1][..i] == ls[..i] && ls[..i + 1][i] == ls[i];
        var block;
        status, block := MapLogicalBlock(h, ls[i], flags);
        if status.Ok? {
          mapped := mapped + [block];
        } else {
          MapEachStops(old(Value()), h, ls, flags, i + 1);
        }
        i := i + 1;
      }
      if !status.Ok? {
        var _ := UnmapLogicalBlocks(h, mapped);
      } else {
        assert ls[..i] == ls;
      }
    }

    method UnmapLogicalBlock(h: Handle, mapped: MappedBlock) returns (status: Status)
      requires Valid()
      modifies this`epoch, this`touches, l2Pool, host, directory
      ensures Outcome(status, Value()) == Api.UnmapLogicalBlock(old(Value()), h, mapped)
      ensures Valid()
    {
      hide PoolOk, Ledger.Valid, Unpinned, HasWrite;
      if h !in contexts {
        return BadHandle;
      }
      if !allocator.IsValid(mapped.block) {
        return InvalidArgument;
      }
      if mapped.logical > INT_MAX {
        return InvalidArgument;
      }
      ghost var s := Value();
      var route;
      status, route := ResolveRouting(h, mapped.logical);
      if !status.Ok? {
        return status;
      }
      if route.block != mapped.block {
        return BadHandle;
      }
      status := UnpinBlock(mapped.block, HasWrite(mapped.flags));
    }

    /** Take back a pin; a written block is marked dirty and, if resident, written back. */
    method UnpinBlock(block: int, write: bool) returns (status: Status)
      requires Valid() && Value().Has(block)
      modifies this`epoch, this`touches, l2Pool, host, directory
      ensures Outcome(status, Value()) == Unpinned(old(Value()), block, write)
      ensures Valid()
    {
      hide PoolOk, Ledger.Valid, WrittenBack, PinDropped;
      var resident := directory.metas[block].resident;
      DropPin(block, write);
      if write && resident {
        status := WriteBack(block);
        if !status.Ok? {
          return status;
        }
      }
      TouchBlock(block);
      return Ok;
    }

    method WriteBack(block: int) returns (status: Status)
      requires Valid() && Value().Has(block)
      modifies l2Pool, host, directory
      ensures Outcome(status, Value()) == WrittenBack(old(Value()), block)
      ensures Valid()
    {
      hide PoolOk, Ledger.Valid, Tiering.SyncL1ToL2;
      status := SyncL1ToL2(block);
      if status.Ok? {
        MarkDirty(block, false);
      }
    }

    method DropPin(block: int, write: bool)
      requires Valid() && Value().Has(block)
      modifies directory
      ensures Value() == PinDropped(old(Value()), block, write)
      ensures Valid()
    {
      hide PoolOk, Ledger.Valid;
      UncountPin(block);
      if write {
        MarkDirty(block, true);
      }
      assert directory.metas == PinDropped(old(Value()), block, write).metas;
    }

    method UncountPin(block: int)
      requires Valid() && Value().Has(block)
      modifies directory
      ensures var s := old(Value());
        var m := s.metas[block];
        Value() == s.(metas := s.metas[block := m.(pins := if m.pins > 0 then m.pins - 1 else 0)])
      ensures Valid()
    {
      hide PoolOk, Ledger.Valid;
      if directory.metas[block].pins > 0 {
        var _ := directory.DecrementPinCount(block);
      }
      assert directory.metas[block := directory.metas[block]] == directory.metas;
    }

    method MarkDirty(block: int, dirty: bool)
      requires Valid() && Value().Has(block)
      modifies directory
      ensures var s := old(Value());
        Value() == s.(metas := s.metas[block := s.metas[block].(dirty := dirty)])
      ensures Valid()
    {
      hide PoolOk, Ledger.Valid;
      var _ := directory.SetDirty(block, dirty);
    }

    method UnmapLogicalBlocks(h: Handle, ms: seq<MappedBlock>) returns (status: Status)
      requires Valid()
      modifies this`epoch, this`touches, l2Pool, host, directory
      ensures Outcome(status, Value()) == Api.UnmapLogicalBlocks(old(Value()), h, ms)
      ensures Valid()
    {
      hide PoolOk, Ledger.Valid, Api.UnmapLogicalBlock;
      status := Ok;
      for i := 0 to |ms|
        invariant Valid()
        invariant Outcome(status, Value()) == Api.UnmapLogicalBlocks(old(Value()), h, ms[..i])
      {
        assert ms[..i + 1][..i] == ms[..i] && ms[..i + 1][i] == ms[i];
        var unmapped := UnmapLogicalBlock(h, ms[i]);
        if !unmapped.Ok? && status.Ok? {
          status := unmapped;
        }
      }
      assert ms[..|ms|] == ms;
    }

    /** A store by the host through a pointer it was given. */
    method HostWrite(frame: int, offset: nat, value: Byte)
      requires Valid()
      modifies l1Pool
      ensures Value() == Api.HostWrite(old(Value()), frame, offset, value)
      ensures Valid()
    {
      hide Ledger.Valid;
      if 0 <= frame < |l1Pool.mem| && offset < config.blockSize {
        l1Pool.mem := l1Pool.mem[frame := WithByte(l1Pool.mem[frame], offset, value)];
      }
    }
  }

  /** sizeof(mmu_config_t). */
  const CONFIG_SIZE := 32

  /** mmu_init; `pages` and `pageSize` are what the host says about its free memory. */
  method Init(size: nat, version: nat, raw: Config, pages: int, pageSize: int, denied: set<nat>, noise: Byte)
    returns (status: Status, mmu: Runtime?)
    ensures status == VersionMismatch <==> size < 32 || version != 1
    ensures status.Ok? <==> size >= 32 && version == 1 && raw.blocks > 0 && raw.blockSize > 0
    ensures status in {Ok, VersionMismatch, InvalidArgument}
    ensures mmu != null <==> status.Ok?
    ensures mmu != null ==>
              && fresh(mmu) && mmu.Valid() && raw.blocks > 0 && raw.blockSize > 0
              && var auto := AutoResidentLimit(raw.blocks, raw.blockSize, AvailableBytes(pages, pageSize));
              mmu.Value() == Initial(ResolveConfig(raw, auto), Os(denied, 0, noise))
  {
    if size < CONFIG_SIZE || version != API_VERSION {
      return VersionMismatch, null;
    }
    if raw.blocks == 0 || raw.blockSize == 0 {
      return InvalidArgument, null;
    }
    var auto := AutoResidentLimit(raw.blocks, raw.blockSize, AvailableBytes(pages, pageSize));
    mmu := new Runtime(raw, auto, denied, noise);
    status := Ok;
  }
}
