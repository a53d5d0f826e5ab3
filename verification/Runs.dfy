/** Runs of the memory manager: the invariant holds in every state between calls, whatever the
    calls, their arguments and their failures. */
module Runs {
  import opened MmuTypes
  import opened BlockManagers
  import opened ChunkPools
  import opened Tiering
  import opened Api
  import opened Invariants
  import opened Steps
  import opened Lifecycle
  import opened Batches

  /** One atomic step: an API call, or a store by the host into an L1 frame. Handles of new
      contexts are chosen by the memory allocator. */
  datatype Action =
    | Create(h: Handle)
    | Destroy(h: Handle)
    | Fork(h: Handle, child: Handle)
    | Grow(h: Handle, num: nat)
    | Shrink(h: Handle, l: nat)
    | Prepare(h: Handle, l: nat)
    | MapOne(h: Handle, l: nat, flags: nat)
    | MapMany(h: Handle, ls: seq<nat>, flags: nat)
    | Unmap(h: Handle, mapped: MappedBlock)
    | UnmapMany(h: Handle, ms: seq<MappedBlock>)
    | Write(h: Handle, mapped: MappedBlock, offset: nat, value: Byte)

  /** A new context never gets the handle of a live one; such a step does not happen. */
  ghost function Step(s: Mmu, a: Action): (r: Outcome)
    requires Wf(s)
    ensures Wf(r.mmu)
  {
    match a
    case Create(h) => if h in s.tables then Outcome(Internal, s) else Outcome(Ok, CreateContext(s, h))
    case Destroy(h) => Outcome(Ok, DestroyContext(s, h))
    case Fork(h, child) => if child in s.tables then Outcome(Internal, s) else ForkContext(s, h, child)
    case Grow(h, num) => AllocateBlocks(s, h, num)
    case Shrink(h, l) => ReleaseLogicalBlock(s, h, l)
    case Prepare(h, l) => var r := PrepareBlockForWrite(s, h, l); Outcome(r.status, r.mmu)
    case MapOne(h, l, flags) => var r := MapLogicalBlock(s, h, l, flags); Outcome(r.status, r.mmu)
    case MapMany(h, ls, flags) => var r := MapLogicalBlocks(s, h, ls, flags); Outcome(r.status, r.mmu)
    case Unmap(h, mapped) => UnmapLogicalBlock(s, h, mapped)
    case UnmapMany(h, ms) => UnmapLogicalBlocks(s, h, ms)
    case Write(h, mapped, offset, value) => Outcome(Ok, HostWrite(s, mapped.frame, offset, value))
  }

  ghost function Run(s: Mmu, actions: seq<Action>): (r: Mmu)
    requires Wf(s)
    ensures Wf(r)
  {
    if actions == [] then s
    else Step(Run(s, actions[..|actions| - 1]), actions[|actions| - 1]).mmu
  }

  lemma StepCore(s: Mmu, a: Action)
    requires Core(s)
    ensures Core(Step(s, a).mmu)
  {
    hide Core, Wf;
    hide CreateContext, DestroyContext, ForkContext, AllocateBlocks, ReleaseLogicalBlock, PrepareBlockForWrite,
         MapLogicalBlock, MapLogicalBlocks, UnmapLogicalBlock, UnmapLogicalBlocks, HostWrite;
    CoreWf(s);
    match a
    case Create(h) => if h !in s.tables { CreateCore(s, h); }
    case Destroy(h) => if h in s.tables { DestroyEffect(s, h); } else { DestroyNothing(s, h); }
    case Fork(h, child) => if child !in s.tables { ForkCore(s, h, child); }
    case Grow(h, num) => AllocateCore(s, h, num);
    case Shrink(h, l) => ReleaseEffect(s, h, l);
    case Prepare(h, l) => PrepareStep(s, h, l);
    case MapOne(h, l, flags) => MapStep(s, h, l, flags);
    case MapMany(h, ls, flags) => BatchRollback(s, h, ls, flags);
    case Unmap(h, mapped) => UnmapEffect(s, h, mapped);
    case UnmapMany(h, ms) => UnmapManyCore(s, h, ms);
    case Write(h, mapped, offset, value) => HostWriteEffect(s, mapped.frame, offset, value);
  }

  lemma {:induction false} UnmapManyCore(s: Mmu, h: Handle, ms: seq<MappedBlock>)
    requires Core(s)
    ensures Core(UnmapLogicalBlocks(s, h, ms).mmu)
  {
    hide PoolOk, Ledger.Valid, BlocksOk, HistoryOk, CountsOk, TablesOk, BoundsOk, UnmapLogicalBlock;
    if ms != [] {
      UnmapManyCore(s, h, ms[..|ms| - 1]);
      UnmapEffect(UnmapLogicalBlocks(s, h, ms[..|ms| - 1]).mmu, h, ms[|ms| - 1]);
    }
  }

  /** The invariant holds after every run, from any state that has it. */
  lemma {:induction false} RunCore(s: Mmu, actions: seq<Action>)
    requires Core(s)
    ensures Core(Run(s, actions))
  {
    hide PoolOk, Ledger.Valid, BlocksOk, HistoryOk, CountsOk, TablesOk, BoundsOk, Step;
    if actions != [] {
      RunCore(s, actions[..|actions| - 1]);
      StepCore(Run(s, actions[..|actions| - 1]), actions[|actions| - 1]);
    }
  }

  /** Memory bound over all runs: L2 never carves more frames than configured, and L1 never holds
      more chunks than the resident blocks need. */
  lemma RunBounded(cfg: Config, os: Os, actions: seq<Action>)
    requires ConfigOk(cfg)
    ensures var s := Run(Initial(cfg, os), actions);
      && s.cfg == cfg
      && Sum(s.l2.chunks) == |s.l2.mem| <= cfg.l2Blocks
      && |s.l1.chunks| <= (cfg.residentLimit + cfg.chunkBlocks - 1) / cfg.chunkBlocks
  {
    hide Initial, Run, PoolOk, Ledger.Valid, BlocksOk, HistoryOk, TablesOk, CountsOk;
    InitialCore(cfg, os);
    var s0 := Initial(cfg, os);
    assert s0.cfg == cfg by {
      InitialCfg(cfg, os);
    }
    RunCore(s0, actions);
    RunCfg(s0, actions);
    BoundedBy(Run(s0, actions));
  }

  lemma InitialCfg(cfg: Config, os: Os)
    requires ConfigOk(cfg)
    ensures Initial(cfg, os).cfg == cfg && Initial(cfg, os).os == os && Initial(cfg, os).tables == map[]
  {
  }

  lemma BoundedBy(s: Mmu)
    requires Core(s)
    ensures Sum(s.l2.chunks) == |s.l2.mem| <= s.cfg.l2Blocks
    ensures |s.l1.chunks| <= (s.cfg.residentLimit + s.cfg.chunkBlocks - 1) / s.cfg.chunkBlocks
  {
    hide BlocksOk, HistoryOk, TablesOk, CountsOk, Ledger.Valid;
    EqualChunks(s.l1.chunks, s.cfg.chunkBlocks);
    FewChunks(|s.l1.chunks|, s.cfg.chunkBlocks, s.cfg.residentLimit);
  }

  lemma {:induction false} EqualChunks(chunks: seq<nat>, size: nat)
    requires forall c :: 0 <= c < |chunks| ==> chunks[c] == size
    ensures Sum(chunks) == |chunks| * size
  {
    if chunks != [] {
      EqualChunks(chunks[..|chunks| - 1], size);
      assert |chunks| * size == (|chunks| - 1) * size + size;
    }
  }

  lemma FewChunks(n: nat, size: nat, limit: nat)
    requires size > 0 && n * size < limit + size
    ensures n <= (limit + size - 1) / size
  {
    var q := (limit + size - 1) / size;
    assert q * size > limit - 1;
    assert n > q ==> n * size >= (q + 1) * size;
  }

  lemma StepCfg(s: Mmu, a: Action)
    requires Core(s)
    ensures Step(s, a).mmu.cfg == s.cfg
  {
    hide PoolOk, Ledger.Valid, BlocksOk, HistoryOk, TablesOk, CountsOk, BoundsOk;
    match a
    case Create(h) =>
    case Destroy(h) => if h in s.tables { DestroyEffect(s, h); }
    case Fork(h, child) =>
    case Grow(h, num) => GrowCfg(s, h, num);
    case Shrink(h, l) => ReleaseEffect(s, h, l);
    case Prepare(h, l) => PrepareStep(s, h, l);
    case MapOne(h, l, flags) => MapStep(s, h, l, flags);
    case MapMany(h, ls, flags) => BatchRollback(s, h, ls, flags);
    case Unmap(h, mapped) => UnmapStep(s, h, mapped);
    case UnmapMany(h, ms) => UnmapManyCfg(s, h, ms);
    case Write(h, mapped, offset, value) =>
  }

  lemma GrowCfg(s: Mmu, h: Handle, num: nat)
    requires Wf(s)
    ensures AllocateBlocks(s, h, num).mmu.cfg == s.cfg
  {
    hide PoolOk, Ledger.Valid;
  }

  lemma {:induction false} UnmapManyCfg(s: Mmu, h: Handle, ms: seq<MappedBlock>)
    requires Core(s)
    ensures UnmapLogicalBlocks(s, h, ms).mmu.cfg == s.cfg
  {
    hide PoolOk, Ledger.Valid, BlocksOk, HistoryOk, CountsOk, TablesOk, BoundsOk, UnmapLogicalBlock;
    if ms != [] {
      UnmapManyCfg(s, h, ms[..|ms| - 1]);
      UnmapManyCore(s, h, ms[..|ms| - 1]);
      UnmapStep(UnmapLogicalBlocks(s, h, ms[..|ms| - 1]).mmu, h, ms[|ms| - 1]);
    }
  }

  lemma {:induction false} RunCfg(s: Mmu, actions: seq<Action>)
    requires Core(s)
    ensures Run(s, actions).cfg == s.cfg
  {
    hide PoolOk, Ledger.Valid, BlocksOk, HistoryOk, CountsOk, TablesOk, BoundsOk, Step;
    if actions != [] {
      RunCfg(s, actions[..|actions| - 1]);
      RunCore(s, actions[..|actions| - 1]);
      StepCfg(Run(s, actions[..|actions| - 1]), actions[|actions| - 1]);
    }
  }
}
