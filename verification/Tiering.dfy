/** The state of the memory manager and the movement of blocks between the L1 and L2 tiers.
    Each function is the specification of the routine of the same purpose in the runtime. */
module Tiering {
  import opened MmuTypes
  import opened BlockManagers
  import opened BlockDirectories
  import opened ChunkPools

  /** Limits after mmu_init resolved them. */
  datatype Config = Config(blocks: nat, residentLimit: nat, l2Blocks: nat, blockSize: nat, chunkBlocks: nat)

  predicate ConfigOk(cfg: Config) {
    && 1 <= cfg.residentLimit <= cfg.blocks
    && 1 <= cfg.l2Blocks <= cfg.blocks
    && 1 <= cfg.chunkBlocks <= cfg.blocks
    && 1 <= cfg.blockSize
  }

  /** The whole runtime as one value. `touches` is the history of TouchBlock calls; it has no
      counterpart in the source and nothing below reads it except to state what LRU means. */
  datatype Mmu = Mmu(
    cfg: Config,
    ledger: Ledger,
    metas: seq<Meta>,
    l1: Pool,
    l2: Pool,
    residents: nat,
    epoch: nat,
    touches: seq<int>,
    tables: map<Handle, seq<int>>,
    os: Os)
  {
    predicate Has(p: int) {
      0 <= p < cfg.blocks
    }
  }

  /** Every component is well formed and sized for the same set of blocks. */
  ghost predicate Wf(s: Mmu) {
    && ConfigOk(s.cfg)
    && s.ledger.Valid()
    && |s.ledger.refs| == s.cfg.blocks
    && |s.metas| == s.cfg.blocks
    && |s.l1.owner| == s.cfg.blocks
    && |s.l2.owner| == s.cfg.blocks
    && PoolOk(s.l1, s.cfg.blockSize)
    && PoolOk(s.l2, s.cfg.blockSize)
  }

  datatype Outcome = Outcome(status: Status, mmu: Mmu)

  ghost function L1Page(s: Mmu, p: int): Option<Page>
    requires Wf(s)
  {
    PageAt(s.l1, s.cfg.blockSize, p)
  }

  ghost function L2Page(s: Mmu, p: int): Option<Page>
    requires Wf(s)
  {
    PageAt(s.l2, s.cfg.blockSize, p)
  }

  /** CopyOrZero: an absent page reads as zeros. */
  function OrZeros(page: Option<Page>, bs: nat): Page {
    match page
    case Some(bytes) => bytes
    case None => Zeros(bs)
  }

  function WithMeta(s: Mmu, p: int, m: Meta): Mmu {
    s.(metas := Replaced(s.metas, p, m))
  }

  function Touched(s: Mmu, p: int): Mmu
    requires 0 <= p < |s.metas|
  {
    s.(epoch := s.epoch + 1,
       touches := s.touches + [p],
       metas := s.metas[p := s.metas[p].(epoch := s.epoch + 1)])
  }

  ghost function AcquireL1(s: Mmu, p: int): (r: Acquired)
    requires Wf(s)
  {
    Acquire(s.l1, s.cfg.blockSize, 0, s.cfg.chunkBlocks, s.os, p)
  }

  ghost function AcquireL2(s: Mmu, p: int): (r: Acquired)
    requires Wf(s)
  {
    Acquire(s.l2, s.cfg.blockSize, s.cfg.l2Blocks, s.cfg.chunkBlocks, s.os, p)
  }

  /** L2 has no page for a block that has none: it is at its limit, or all its frames are lent and the
      next chunk is refused. */
  predicate L2Exhausted(s: Mmu) {
    Exhausted(s.l2, s.cfg.l2Blocks, s.os)
  }

  lemma PageSize(pool: Pool, bs: nat, p: int)
    requires PoolOk(pool, bs)
    ensures |OrZeros(PageAt(pool, bs, p), bs)| == bs
  {
  }

  /** Store `bytes` as the L2 page of block `p`. */
  ghost function FilledL2(s: Mmu, p: int, bytes: Page): (r: Outcome)
    requires Wf(s) && s.Has(p) && |bytes| == s.cfg.blockSize
    ensures Wf(r.mmu)
  {
    var bs := s.cfg.blockSize;
    var a := AcquireL2(s, p);
    if !a.status.Ok? then Outcome(a.status, s.(os := a.os))
    else
      assert PageAt(a.pool, bs, p).Some?;
      StoredOk(a.pool, bs, p, bytes);
      Outcome(Ok, s.(os := a.os,
                     l2 := Stored(a.pool, bs, p, bytes),
                     metas := s.metas[p := s.metas[p].(backed := true, l2Slot := p)]))
  }

  /** Store `bytes` as the L1 page of block `p`. */
  ghost function FilledL1(s: Mmu, p: int, bytes: Page): (r: Outcome)
    requires Wf(s) && s.Has(p) && |bytes| == s.cfg.blockSize
    ensures Wf(r.mmu)
  {
    var bs := s.cfg.blockSize;
    var a := AcquireL1(s, p);
    if !a.status.Ok? then Outcome(a.status, s.(os := a.os))
    else
      assert PageAt(a.pool, bs, p).Some?;
      StoredOk(a.pool, bs, p, bytes);
      Outcome(Ok, s.(os := a.os, l1 := Stored(a.pool, bs, p, bytes)))
  }

  ghost function SyncL1ToL2(s: Mmu, p: int): (r: Outcome)
    requires Wf(s) && s.Has(p)
    ensures Wf(r.mmu)
  {
    PageSize(s.l1, s.cfg.blockSize, p);
    FilledL2(s, p, OrZeros(L1Page(s, p), s.cfg.blockSize))
  }

  ghost function SyncL2ToL1(s: Mmu, p: int): (r: Outcome)
    requires Wf(s) && s.Has(p)
    ensures Wf(r.mmu)
  {
    PageSize(s.l2, s.cfg.blockSize, p);
    var filled := FilledL1(s, p, OrZeros(L2Page(s, p), s.cfg.blockSize));
    var t := filled.mmu;
    if filled.status.Ok? then Outcome(Ok, t.(metas := t.metas[p := t.metas[p].(l1Frame := p)])) else filled
  }

  function ClearedMeta(m: Meta): Meta {
    m.(resident := false, dirty := false, pins := 0, epoch := 0, l1Frame := NONE, l2Slot := NONE, backed := false)
  }

  ghost function ResetBlockData(s: Mmu, p: int): (r: Mmu)
    requires Wf(s) && s.Has(p)
    ensures Wf(r)
  {
    ReturnedOk(s.l1, s.cfg.blockSize, p);
    ReturnedOk(s.l2, s.cfg.blockSize, p);
    s.(l1 := Returned(s.l1, p),
       l2 := Returned(s.l2, p),
       metas := s.metas[p := ClearedMeta(s.metas[p])])
  }

  /** Forget an unowned block: uncount it if resident, drop its frames and its metadata. */
  ghost function Forget(s: Mmu, p: int): (r: Mmu)
    requires Wf(s) && s.Has(p)
    ensures Wf(r)
  {
    var s1 := if s.metas[p].resident && s.residents > 0 then s.(residents := s.residents - 1) else s;
    var s2 := ResetBlockData(s1, p);
    WithMeta(s2, p, DefaultMeta())
  }

  /** ReclaimUnusedResidentBlocks over the first `k` blocks. */
  ghost function Reclaim(s: Mmu, k: nat): (r: Mmu)
    requires Wf(s) && k <= s.cfg.blocks
    ensures Wf(r) && r.cfg == s.cfg && r.ledger == s.ledger
  {
    if k == 0 then s
    else
      var s1 := Reclaim(s, k - 1);
      if s1.ledger.refs[k - 1] == 0 then Forget(s1, k - 1) else s1
  }

  predicate Evictable(m: Meta) {
    m.live && m.resident && m.pins == 0
  }

  /** PickEvictionCandidate among the first `k` blocks: the least recently touched one. */
  function Victim(metas: seq<Meta>, protected: int, k: nat): (v: int)
    requires k <= |metas|
    ensures NONE <= v < k
    ensures v != NONE ==> v != protected && Evictable(metas[v])
    ensures v == NONE <==> forall q :: 0 <= q < k && q != protected ==> !Evictable(metas[q])
    ensures v != NONE ==>
              forall q :: 0 <= q < k && q != protected && Evictable(metas[q]) ==> metas[v].epoch <= metas[q].epoch
  {
    if k == 0 then NONE
    else
      var v := Victim(metas, protected, k - 1);
      var m := metas[k - 1];
      if Evictable(m) && k - 1 != protected && (v == NONE || m.epoch < metas[v].epoch) then k - 1 else v
  }

  ghost function MoveBlockToL2(s: Mmu, p: int): (r: Outcome)
    requires Wf(s)
    ensures Wf(r.mmu) && r.mmu.cfg == s.cfg && r.mmu.ledger == s.ledger
    ensures r.status.Ok? ==> s.Has(p)
    ensures r.status.Ok? && s.metas[p].resident && s.residents > 0 ==> r.mmu.residents == s.residents - 1
  {
    if !s.ledger.Has(p) then Outcome(InvalidArgument, s)
    else if !s.metas[p].live then Outcome(InvalidArgument, s)
    else
      var synced := if s.metas[p].resident then SyncL1ToL2(s, p) else Outcome(Ok, s);
      if !synced.status.Ok? then synced
      else
        var t := synced.mmu;
        var m := t.metas[p];
        ReturnedOk(t.l1, t.cfg.blockSize, p);
        Outcome(Ok, t.(
          residents := if s.metas[p].resident && t.residents > 0 then t.residents - 1 else t.residents,
          l1 := Returned(t.l1, p),
          metas := t.metas[p := if s.metas[p].resident then m.(resident := false, l1Frame := NONE, tier := L2)
                                else m.(tier := L2)]))
  }

  /** Evict until a resident slot is free. */
  ghost function MakeRoom(s: Mmu, p: int): (r: Outcome)
    requires Wf(s)
    ensures Wf(r.mmu) && r.mmu.cfg == s.cfg && r.mmu.ledger == s.ledger
    ensures r.status.Ok? ==> r.mmu.residents < s.cfg.residentLimit
    decreases s.residents
  {
    if s.residents < s.cfg.residentLimit then Outcome(Ok, s)
    else
      var victim := Victim(s.metas, p, s.cfg.blocks);
      if victim == NONE then Outcome(OutOfMemory, s)
      else
        var moved := MoveBlockToL2(s, victim);
        if !moved.status.Ok? then moved else MakeRoom(moved.mmu, p)
  }

  /** One round of the eviction loop. */
  lemma MakeRoomUnrolled(s: Mmu, p: int)
    requires Wf(s)
    ensures var victim := Victim(s.metas, p, s.cfg.blocks);
      MakeRoom(s, p) ==
      if s.residents < s.cfg.residentLimit then Outcome(Ok, s)
      else if victim == NONE then Outcome(OutOfMemory, s)
      else
        var moved := MoveBlockToL2(s, victim);
        if moved.status.Ok? then MakeRoom(moved.mmu, p) else moved
  {
    hide PoolOk, Ledger.Valid, Victim, MoveBlockToL2;
  }

  /** The block now counts as resident, and was touched. */
  ghost function Promoted(t: Mmu, p: int): (r: Mmu)
    requires Wf(t) && t.Has(p)
    ensures Wf(r) && r.cfg == t.cfg && r.ledger == t.ledger
  {
    Touched(t.(residents := t.residents + 1,
               metas := t.metas[p := t.metas[p].(resident := true, l1Frame := p, tier := L1)]), p)
  }

  /** Copy a block in from L2 and count it as resident. */
  ghost function Fetched(s: Mmu, p: int): (r: Outcome)
    requires Wf(s) && s.Has(p)
    ensures Wf(r.mmu) && r.mmu.cfg == s.cfg && r.mmu.ledger == s.ledger
  {
    var synced := SyncL2ToL1(s, p);
    if synced.status.Ok? then Outcome(Ok, Promoted(synced.mmu, p)) else synced
  }

  /** A resident block is touched and belongs to L1. */
  ghost function Revisited(s: Mmu, p: int): (r: Mmu)
    requires Wf(s) && s.Has(p)
    ensures Wf(r) && r.cfg == s.cfg && r.ledger == s.ledger
  {
    var t := Touched(s, p);
    t.(metas := t.metas[p := t.metas[p].(tier := L1)])
  }

  ghost function EnsureResidentInL1(s: Mmu, p: int): (r: Outcome)
    requires Wf(s)
    ensures Wf(r.mmu) && r.mmu.cfg == s.cfg && r.mmu.ledger == s.ledger
  {
    if !s.ledger.Has(p) then Outcome(InvalidArgument, s)
    else
      var s0 := Reclaim(s, s.cfg.blocks);
      if !s0.metas[p].live then Outcome(InvalidArgument, s0)
      else if s0.metas[p].resident then Outcome(Ok, Revisited(s0, p))
      else
        var room := MakeRoom(s0, p);
        if room.status.Ok? then Fetched(room.mmu, p) else room
  }

  ghost function RegisterFreshBlock(s: Mmu, p: int): (r: Mmu)
    requires Wf(s)
    ensures Wf(r) && r.cfg == s.cfg && r.ledger == s.ledger
  {
    if !s.Has(p) then s else
    Placed(ResetBlockData(WithMeta(s, p, FreshMeta()), p), p)
  }

  /** A new block takes a resident slot, without a frame, if one is left. */
  ghost function Placed(t: Mmu, p: int): (r: Mmu)
    requires Wf(t) && t.Has(p)
    ensures Wf(r)
  {
    var m := t.metas[p];
    if t.residents < t.cfg.residentLimit then
      var u := if m.resident then t
               else t.(residents := t.residents + 1, metas := t.metas[p := m.(resident := true, l1Frame := p)]);
      Touched(u.(metas := u.metas[p := u.metas[p].(tier := L1)]), p)
    else
      t.(metas := t.metas[p := m.(resident := false, l1Frame := NONE, epoch := 0, tier := L2)])
  }

  /** Where CloneBlockDataForCow reads the source bytes from. */
  ghost function CloneSource(s: Mmu, src: int, srcTier: Tier): Option<Page>
    requires Wf(s) && s.Has(src)
  {
    if srcTier == L1 && s.metas[src].resident && L1Page(s, src).Some? then L1Page(s, src)
    else if L2Page(s, src).Some? then L2Page(s, src)
    else L1Page(s, src)
  }

  lemma CloneSourceSize(s: Mmu, src: int, srcTier: Tier)
    requires Wf(s) && s.Has(src)
    ensures |OrZeros(CloneSource(s, src, srcTier), s.cfg.blockSize)| == s.cfg.blockSize
  {
    PageSize(s.l1, s.cfg.blockSize, src);
    PageSize(s.l2, s.cfg.blockSize, src);
  }

  /** A resident copy gets the bytes in L1 too; another gives up its L1 frame. */
  ghost function Mirrored(s: Mmu, dst: int, bytes: Page): (r: Outcome)
    requires Wf(s) && s.Has(dst) && |bytes| == s.cfg.blockSize
    ensures Wf(r.mmu) && r.mmu.cfg == s.cfg && r.mmu.ledger == s.ledger
  {
    if s.metas[dst].resident then FilledL1(s, dst, bytes)
    else
      ReturnedOk(s.l1, s.cfg.blockSize, dst);
      Outcome(Ok, s.(l1 := Returned(s.l1, dst)))
  }

  ghost function CloneBlockDataForCow(s: Mmu, src: int, srcTier: Tier, dst: int): (r: Outcome)
    requires Wf(s)
    ensures Wf(r.mmu) && r.mmu.cfg == s.cfg && r.mmu.ledger == s.ledger
  {
    if !s.ledger.Has(src) || !s.ledger.Has(dst) then Outcome(InvalidArgument, s)
    else
      CloneSourceSize(s, src, srcTier);
      var bytes := OrZeros(CloneSource(s, src, srcTier), s.cfg.blockSize);
      var filled := FilledL2(s, dst, bytes);
      if filled.status.Ok? then Mirrored(filled.mmu, dst, bytes) else filled
  }
}
