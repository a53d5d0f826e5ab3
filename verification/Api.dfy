/** The public operations, each as a function from the state before to status and state after. */
module Api {
  import opened MmuTypes
  import opened BlockManagers
  import opened BlockDirectories
  import opened ChunkPools
  import opened Contexts
  import opened Tiering

  const MAP_READ := 1
  const MAP_WRITE := 2

  /** mmu_mapped_block_t; `frame` stands for host_ptr, the address of an L1 frame. */
  datatype MappedBlock = MappedBlock(frame: int, size: nat, block: int, logical: nat, flags: nat)

  datatype Route = Route(tier: Tier, block: int, offset: int)

  datatype Resolved = Resolved(status: Status, route: Route)

  datatype Prepared = Prepared(status: Status, mmu: Mmu, block: int)

  datatype Mapped = Mapped(status: Status, mmu: Mmu, mapped: MappedBlock)

  datatype Batch = Batch(status: Status, mmu: Mmu, done: seq<MappedBlock>)

  const NO_ROUTE := Route(L0, 0, 0)
  const NO_MAPPING := MappedBlock(NONE, 0, NONE, 0, 0)

  /** Flags are bits: `r` for reading, `w` for writing, the rest is not known. */
  lemma FlagBits(r: nat, w: nat, rest: nat)
    requires r <= 1 && w <= 1
    ensures HasWrite(r + 2 * w + 4 * rest) <==> w == 1
    ensures ValidFlags(r + 2 * w + 4 * rest) <==> rest == 0 && r + w > 0
  {
    Quotient(r + 2 * w + 4 * rest, 2, w + 2 * rest);
  }

  /** ValidateMapFlags: some of READ and WRITE, and nothing else. */
  predicate ValidFlags(flags: nat) {
    1 <= flags <= 3
  }

  predicate HasWrite(flags: nat) {
    (flags / MAP_WRITE) % 2 == 1
  }

  /** Context::ResolveRouting behind the handle and range checks of the API. */
  function Resolve(s: Mmu, h: Handle, l: nat): Resolved {
    if h !in s.tables then Resolved(BadHandle, NO_ROUTE)
    else if l > INT_MAX then Resolved(InvalidArgument, NO_ROUTE)
    else
      var p := Entry(s.tables[h], l);
      if p == NONE then Resolved(Unallocated, NO_ROUTE)
      else if !(0 <= p < |s.metas|) || !s.metas[p].live then Resolved(Internal, NO_ROUTE)
      else Resolved(Ok, Route(s.metas[p].tier, p, p * s.cfg.blockSize))
  }

  /** Free memory of the host from its two answers about pages; 0 when either is missing or the product
      does not fit 64 bits, which the source finds out by dividing. */
  function AvailableBytes(pages: int, pageSize: int): (r: nat)
    ensures r == if pages > 0 && pageSize > 0 && pages * pageSize < UINT64_RANGE then pages * pageSize else 0
  {
    if pages <= 0 || pageSize <= 0 then 0
    else
      FitsByDivision(pages, pageSize, UINT64_RANGE - 1);
      if pages > (UINT64_RANGE - 1) / pageSize then 0 else pages * pageSize
  }

  lemma FitsByDivision(a: nat, b: nat, max: nat)
    requires b > 0
    ensures a > max / b <==> a * b > max
  {
    var q := max / b;
    Quotient(max, b, q);
    Monotone(q + 1, a, b);
    Monotone(a, q, b);
  }

  /** As many blocks as fit into half of the free memory, at least one and at most all. */
  function AutoResidentLimit(blocks: nat, blockSize: nat, available: nat): (r: nat)
    requires blocks > 0 && blockSize > 0
    ensures 1 <= r <= blocks && (available == 0 ==> r == blocks)
  {
    if available == 0 then blocks
    else
      var fit := available / 2 / blockSize;
      if fit == 0 then 1 else if fit > blocks then blocks else fit
  }

  /** The limit is the largest that fits: it takes no more than half of the free memory unless it is
      one, and one block more would take more than half unless all blocks fit. */
  lemma AutoResidentLimitFits(blocks: nat, blockSize: nat, available: nat)
    requires blocks > 0 && blockSize > 0 && available > 0
    ensures var r := AutoResidentLimit(blocks, blockSize, available);
      && (r == 1 || r * blockSize <= available / 2)
      && (r == blocks || available / 2 < (r + 1) * blockSize)
  {
    var fit := available / 2 / blockSize;
    Quotient(available / 2, blockSize, fit);
    Monotone(blocks, fit, blockSize);
    Monotone(fit + 1, 2, blockSize);
  }

  /** mmu_init: the limits in force for the configured ones; `auto` is the probed resident limit. */
  function ResolveConfig(raw: Config, auto: nat): (r: Config)
    requires raw.blocks > 0 && raw.blockSize > 0
    ensures ConfigOk(r) && r.blocks == raw.blocks && r.blockSize == raw.blockSize
    ensures r.residentLimit ==
            var wanted := if raw.residentLimit == 0 then auto else raw.residentLimit;
            if 1 <= wanted <= raw.blocks then wanted else raw.blocks
    ensures r.l2Blocks == if 1 <= raw.l2Blocks <= raw.blocks then raw.l2Blocks else raw.blocks
    ensures r.chunkBlocks == Min(raw.blocks, if raw.chunkBlocks == 0 then 4096 else raw.chunkBlocks)
  {
    var limit := if raw.residentLimit == 0 then auto else raw.residentLimit;
    var chunk := if raw.chunkBlocks == 0 then DEFAULT_CHUNK_BLOCK_COUNT else raw.chunkBlocks;
    raw.(residentLimit := if limit == 0 || limit > raw.blocks then raw.blocks else limit,
         l2Blocks := if raw.l2Blocks == 0 || raw.l2Blocks > raw.blocks then raw.blocks else raw.l2Blocks,
         chunkBlocks := if chunk > raw.blocks then raw.blocks else chunk)
  }

  /** Limits in range are kept, and so resolving twice is resolving once, whatever is probed. */
  lemma ResolveConfigKeeps(raw: Config, auto: nat, again: nat)
    requires raw.blocks > 0 && raw.blockSize > 0
    ensures ResolveConfig(ResolveConfig(raw, auto), again) == ResolveConfig(raw, auto)
    ensures ConfigOk(raw) ==> ResolveConfig(raw, auto) == raw
  {
  }

  ghost function Initial(cfg: Config, os: Os): (r: Mmu)
    requires ConfigOk(cfg)
    ensures Wf(r)
  {
    FreshPoolOk(cfg.blocks, cfg.blockSize);
    Mmu(cfg, FreshLedger(cfg.blocks), seq(cfg.blocks, i => DefaultMeta()),
        FreshPool(cfg.blocks), FreshPool(cfg.blocks), 0, 0, [], map[], os)
  }

  ghost function CreateContext(s: Mmu, h: Handle): (r: Mmu)
    requires Wf(s) && h !in s.tables
    ensures Wf(r)
  {
    s.(tables := s.tables[h := []])
  }

  /** Dropping a context releases every block of its page table. */
  ghost function Dropped(s: Mmu, h: Handle): (r: Mmu)
    requires Wf(s) && h in s.tables
    ensures Wf(r) && r.cfg == s.cfg
  {
    s.(ledger := ReleaseEach(s.ledger, s.tables[h]), tables := s.tables - {h})
  }

  ghost function DestroyContext(s: Mmu, h: Handle): (r: Mmu)
    requires Wf(s)
    ensures Wf(r)
  {
    if h !in s.tables then s else Reclaim(Dropped(s, h), s.cfg.blocks)
  }

  ghost function ForkContext(s: Mmu, src: Handle, h: Handle): (r: Outcome)
    requires Wf(s) && h !in s.tables
    ensures Wf(r.mmu)
  {
    if src !in s.tables then Outcome(BadHandle, s)
    else Outcome(Ok, s.(ledger := RetainEach(s.ledger, s.tables[src]), tables := s.tables[h := s.tables[src]]))
  }

  ghost function RegisterEach(s: Mmu, blocks: seq<int>): (r: Mmu)
    requires Wf(s)
    ensures Wf(r) && r.cfg == s.cfg && r.ledger == s.ledger
  {
    if blocks == [] then s
    else RegisterFreshBlock(RegisterEach(s, blocks[..|blocks| - 1]), blocks[|blocks| - 1])
  }

  ghost function AllocateBlocks(s: Mmu, h: Handle, num: nat): (r: Outcome)
    requires Wf(s)
    ensures Wf(r.mmu)
  {
    if h !in s.tables then Outcome(BadHandle, s)
    else if num > INT_MAX then Outcome(InvalidArgument, s)
    else
      var s0 := Reclaim(s, s.cfg.blocks);
      ReclaimKeepsTables(s, s.cfg.blocks);
      var a := Allocate(s0.ledger, s0.tables[h], num);
      var s1 := s0.(ledger := a.ledger, tables := s0.tables[h := a.table]);
      if !a.status.Ok? then Outcome(a.status, s1)
      else
        Outcome(Ok, RegisterEach(s1, a.blocks))
  }

  lemma {:induction false} ReclaimKeepsTables(s: Mmu, k: nat)
    requires Wf(s) && k <= s.cfg.blocks
    ensures Reclaim(s, k).tables == s.tables
  {
    hide Wf;
    if k > 0 {
      ReclaimKeepsTables(s, k - 1);
    }
  }

  ghost function ReleaseLogicalBlock(s: Mmu, h: Handle, l: nat): (r: Outcome)
    requires Wf(s)
    ensures Wf(r.mmu)
  {
    var route := Resolve(s, h, l);
    if !route.status.Ok? then Outcome(route.status, s)
    else
      var p := route.route.block;
      var a := Release(s.ledger, s.tables[h], l);
      var s1 := s.(ledger := a.ledger, tables := s.tables[h := a.table]);
      if !a.status.Ok? then Outcome(a.status, s)
      else if s1.ledger.RefCount(p) == 0 then Outcome(Ok, Forget(s1, p))
      else Outcome(Ok, s1)
  }

  /** The page table is switched before the bytes are cloned. */
  ghost function PrepareBlockForWrite(s: Mmu, h: Handle, l: nat): (r: Prepared)
    requires Wf(s)
    ensures Wf(r.mmu) && r.mmu.cfg == s.cfg
  {
    var before := Resolve(s, h, l);
    if !before.status.Ok? then Prepared(before.status, s, NONE)
    else
      var a := PrepareWrite(s.ledger, s.tables[h], l);
      if !a.status.Ok? then Prepared(a.status, s, NONE)
      else
        var p, q := before.route.block, a.blocks[0];
        var s1 := s.(ledger := a.ledger, tables := s.tables[h := a.table]);
        if q == p then Prepared(Ok, s1, q)
        else
          var s2 := WithMeta(s1, q, FreshMeta().(tier := L2));
          var cloned := CloneBlockDataForCow(s2, p, before.route.tier, q);
          Prepared(cloned.status, cloned.mmu, if cloned.status.Ok? then q else NONE)
  }

  ghost function MapLogicalBlock(s: Mmu, h: Handle, l: nat, flags: nat): (r: Mapped)
    requires Wf(s)
    ensures Wf(r.mmu)
  {
    if !ValidFlags(flags) then Mapped(InvalidArgument, s, NO_MAPPING)
    else if h !in s.tables then Mapped(BadHandle, s, NO_MAPPING)
    else if l > INT_MAX then Mapped(InvalidArgument, s, NO_MAPPING)
    else
      var prepared := if HasWrite(flags) then PrepareBlockForWrite(s, h, l) else Prepared(Ok, s, NONE);
      if !prepared.status.Ok? then Mapped(prepared.status, prepared.mmu, NO_MAPPING)
      else MapResident(prepared.mmu, h, l, flags)
  }

  /** Mapping once the block may be written: make it resident, give it a frame, pin it. */
  ghost function MapResident(s: Mmu, h: Handle, l: nat, flags: nat): (r: Mapped)
    requires Wf(s)
    ensures Wf(r.mmu)
  {
    var route := Resolve(s, h, l);
    if !route.status.Ok? then Mapped(route.status, s, NO_MAPPING)
    else
      var p := route.route.block;
      var resident := EnsureResidentInL1(s, p);
      if !resident.status.Ok? then Mapped(resident.status, resident.mmu, NO_MAPPING)
      else Pinned(resident.mmu, p, l, flags)
  }

  ghost function Pinned(s: Mmu, p: int, l: nat, flags: nat): (r: Mapped)
    requires Wf(s) && s.Has(p)
    ensures Wf(r.mmu)
  {
    var a := AcquireL1(s, p);
    var t := s.(l1 := a.pool, os := a.os);
    if !a.status.Ok? then Mapped(a.status, t, NO_MAPPING)
    else
      var m := t.metas[p];
      Mapped(Ok, Touched(t.(metas := t.metas[p := m.(pins := m.pins + 1)]), p),
             MappedBlock(t.l1.owner[p], t.cfg.blockSize, p, l, flags))
  }

  ghost function UnmapLogicalBlock(s: Mmu, h: Handle, mapped: MappedBlock): (r: Outcome)
    requires Wf(s)
    ensures Wf(r.mmu)
  {
    if h !in s.tables then Outcome(BadHandle, s)
    else if !s.ledger.Has(mapped.block) then Outcome(InvalidArgument, s)
    else if mapped.logical > INT_MAX then Outcome(InvalidArgument, s)
    else
      var route := Resolve(s, h, mapped.logical);
      if !route.status.Ok? then Outcome(route.status, s)
      else if route.route.block != mapped.block then Outcome(BadHandle, s)
      else Unpinned(s, mapped.block, HasWrite(mapped.flags))
  }

  /** One pin less; a written block becomes dirty. */
  ghost function PinDropped(s: Mmu, p: int, write: bool): (r: Mmu)
    requires Wf(s) && s.Has(p)
    ensures Wf(r) && r.cfg == s.cfg
  {
    var m := s.metas[p];
    s.(metas := s.metas[p := m.(pins := if m.pins > 0 then m.pins - 1 else 0, dirty := m.dirty || write)])
  }

  ghost function Unpinned(s: Mmu, p: int, write: bool): (r: Outcome)
    requires Wf(s) && s.Has(p)
    ensures Wf(r.mmu)
  {
    var s1 := PinDropped(s, p, write);
    var back := if write && s.metas[p].resident then WrittenBack(s1, p) else Outcome(Ok, s1);
    if back.status.Ok? then Outcome(Ok, Touched(back.mmu, p)) else back
  }

  /** Copy a block to L2; it is then clean. */
  ghost function WrittenBack(s: Mmu, p: int): (r: Outcome)
    requires Wf(s) && s.Has(p)
    ensures Wf(r.mmu) && r.mmu.cfg == s.cfg
  {
    var synced := SyncL1ToL2(s, p);
    var t := synced.mmu;
    if synced.status.Ok? then Outcome(Ok, t.(metas := t.metas[p := t.metas[p].(dirty := false)])) else synced
  }

  /** Unmap every block in turn, remembering the first error. */
  ghost function UnmapLogicalBlocks(s: Mmu, h: Handle, ms: seq<MappedBlock>): (r: Outcome)
    requires Wf(s)
    ensures Wf(r.mmu)
  {
    if ms == [] then Outcome(Ok, s)
    else
      var before := UnmapLogicalBlocks(s, h, ms[..|ms| - 1]);
      var last := UnmapLogicalBlock(before.mmu, h, ms[|ms| - 1]);
      Outcome(if before.status.Ok? then last.status else before.status, last.mmu)
  }

  /** Map blocks in turn until one fails; `done` holds the mappings made. */
  ghost function MapEach(s: Mmu, h: Handle, ls: seq<nat>, flags: nat): (r: Batch)
    requires Wf(s)
    ensures Wf(r.mmu)
  {
    if ls == [] then Batch(Ok, s, [])
    else
      var before := MapEach(s, h, ls[..|ls| - 1], flags);
      if !before.status.Ok? then before
      else
        var last := MapLogicalBlock(before.mmu, h, ls[|ls| - 1], flags);
        Batch(last.status, last.mmu, if last.status.Ok? then before.done + [last.mapped] else before.done)
  }

  /** On failure the mappings already made are undone, ignoring errors on the way. */
  ghost function MapLogicalBlocks(s: Mmu, h: Handle, ls: seq<nat>, flags: nat): (r: Batch)
    requires Wf(s)
    ensures Wf(r.mmu)
  {
    var b := MapEach(s, h, ls, flags);
    if b.status.Ok? then b else b.(mmu := UnmapLogicalBlocks(b.mmu, h, b.done).mmu)
  }

  function WithByte(page: Page, offset: nat, value: Byte): (r: Page)
    ensures |r| == |page|
  {
    if offset < |page| then page[offset := value] else page
  }

  /** A store inside the page changes the byte at its offset and no other; outside it changes nothing. */
  lemma WithByteChanges(page: Page, offset: nat, value: Byte, i: nat)
    requires i < |page|
    ensures |WithByte(page, offset, value)| == |page|
    ensures WithByte(page, offset, value)[i] == if i == offset then value else page[i]
  {
  }

  /** The host stores one byte through a pointer into an L1 frame. */
  ghost function HostWrite(s: Mmu, frame: int, offset: nat, value: Byte): (r: Mmu)
    requires Wf(s)
    ensures Wf(r)
  {
    if 0 <= frame < |s.l1.mem| && offset < s.cfg.blockSize then
      s.(l1 := s.l1.(mem := s.l1.mem[frame := WithByte(s.l1.mem[frame], offset, value)]))
    else s
  }

  /** mmu_resolve_routing_batch: `written` is the prefix of the output array filled in. */
  function ResolveBatch(s: Mmu, h: Handle, ls: seq<nat>): (r: (Status, seq<Route>)) {
    if h !in s.tables then (BadHandle, [])
    else ResolveEach(s, h, ls)
  }

  function ResolveEach(s: Mmu, h: Handle, ls: seq<nat>): (r: (Status, seq<Route>)) {
    if ls == [] then (Ok, [])
    else
      var before := ResolveEach(s, h, ls[..|ls| - 1]);
      if !before.0.Ok? then before
      else
        var last := Resolve(s, h, ls[|ls| - 1]);
        (last.status, if last.status.Ok? then before.1 + [last.route] else before.1)
  }

  /** Nothing is written after the first failure. */
  lemma {:induction false} ResolveEachStops(s: Mmu, h: Handle, ls: seq<nat>, i: nat)
    requires i <= |ls| && !ResolveEach(s, h, ls[..i]).0.Ok?
    ensures ResolveEach(s, h, ls) == ResolveEach(s, h, ls[..i])
  {
    hide Resolve;
    if i == |ls| {
      assert ls[..i] == ls;
    } else {
      assert ls[..|ls| - 1][..i] == ls[..i];
      ResolveEachStops(s, h, ls[..|ls| - 1], i);
    }
  }

  /** Nothing is mapped after the first failure. */
  lemma {:induction false} MapEachStops(s: Mmu, h: Handle, ls: seq<nat>, flags: nat, i: nat)
    requires Wf(s) && i <= |ls| && !MapEach(s, h, ls[..i], flags).status.Ok?
    ensures MapEach(s, h, ls, flags) == MapEach(s, h, ls[..i], flags)
  {
    hide Wf, MapLogicalBlock;
    if i == |ls| {
      assert ls[..i] == ls;
    } else {
      assert ls[..|ls| - 1][..i] == ls[..i];
      MapEachStops(s, h, ls[..|ls| - 1], flags, i);
    }
  }

  lemma ResolvedKnown(s: Mmu, h: Handle, l: nat)
    requires Wf(s) && Resolve(s, h, l).status.Ok?
    ensures h in s.tables && s.Has(Resolve(s, h, l).route.block)
  {
  }

  /** When releasing fails nothing changes. */
  lemma ReleaseFails(s: Mmu, h: Handle, l: nat)
    requires Wf(s) && h in s.tables
    ensures var a := Release(s.ledger, s.tables[h], l);
      !a.status.Ok? ==> s == s.(ledger := a.ledger, tables := s.tables[h := a.table])
  {
    assert s.tables[h := s.tables[h]] == s.tables;
  }

  lemma PrepareFails(s: Mmu, h: Handle, l: nat)
    requires Wf(s) && h in s.tables
    ensures var a := PrepareWrite(s.ledger, s.tables[h], l);
      !a.status.Ok? ==> s == s.(ledger := a.ledger, tables := s.tables[h := a.table])
  {
    assert s.tables[h := s.tables[h]] == s.tables;
  }
}
