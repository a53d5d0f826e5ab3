/** Lazily grown slab pools. A pool carves page frames out of chunks obtained from the
    operating system and lends at most one frame to each physical block. */
module ChunkPools {
  import opened MmuTypes

  /** The operating system's answers to chunk requests: request number `k` is refused when
      `k in denied`. `noise` stands for the bytes that happen to be in fresh memory. */
  datatype Os = Os(denied: set<nat>, requests: nat, noise: Byte) {
    predicate Grants() {
      requests !in denied
    }

    function Asked(): Os {
      this.(requests := requests + 1)
    }

    /** Every request from now on is granted. */
    ghost predicate Generous() {
      forall k :: k in denied ==> k < requests
    }
  }

  predicate IsFrame(f: int) {
    f != NONE
  }

  /** The value of a ChunkPool. A frame is the index of its page in `mem`; `owner[p]` is the frame
      lent to block `p`; `chunks` lists how many frames each chunk contributed. */
  datatype Pool = Pool(owner: seq<int>, free: seq<int>, committed: nat, chunks: seq<nat>, mem: seq<Page>)

  /** Slab ownership: lent frames are pairwise distinct and disjoint from the free frames, and
      together they are exactly the frames carved so far. */
  ghost predicate PoolOk(pool: Pool, bs: nat) {
    && Sum(pool.chunks) == |pool.mem|
    && (forall f :: 0 <= f < |pool.mem| ==> |pool.mem[f]| == bs)
    && (forall p :: 0 <= p < |pool.owner| ==> NONE <= pool.owner[p] < |pool.mem|)
    && (forall p, q :: 0 <= p < q < |pool.owner| && pool.owner[p] == pool.owner[q] ==> pool.owner[p] == NONE)
    && (forall i :: 0 <= i < |pool.free| ==> 0 <= pool.free[i] < |pool.mem| && pool.free[i] !in pool.owner)
    && (forall i, j :: 0 <= i < j < |pool.free| ==> pool.free[i] != pool.free[j])
    && (forall f :: 0 <= f < |pool.mem| ==> f in pool.owner || f in pool.free)
    && pool.committed == Count(pool.owner, IsFrame)
    && pool.committed + |pool.free| == |pool.mem|
  }

  /** The bytes stored for block `p`, if the pool lends it a frame. */
  ghost function PageAt(pool: Pool, bs: nat, p: int): Option<Page>
    requires PoolOk(pool, bs)
  {
    if 0 <= p < |pool.owner| && pool.owner[p] != NONE then Some(pool.mem[pool.owner[p]]) else None
  }

  function FreshPool(blocks: nat): Pool {
    Pool(seq(blocks, i => NONE), [], 0, [], [])
  }

  lemma FreshPoolOk(blocks: nat, bs: nat)
    ensures PoolOk(FreshPool(blocks), bs)
  {
    CountBounds(FreshPool(blocks).owner, IsFrame);
  }

  /** The size of a chunk, computed in 64 bits, does not wrap around for 32-bit counts and sizes, so that
      dividing it by the count gives the size back. */
  lemma ChunkBytesFit(blocks: nat, bs: nat)
    requires 0 < blocks < UINT32_RANGE && bs < UINT32_RANGE
    ensures blocks * bs % UINT64_RANGE / blocks == bs
  {
    assert blocks * bs <= blocks * UINT32_RANGE < UINT32_RANGE * UINT32_RANGE;
    assert blocks * bs % UINT64_RANGE == blocks * bs;
    Quotient(blocks * bs, blocks, bs);
  }

  /** The frames of a new chunk follow those carved before it. */
  function Carved(pool: Pool, bs: nat, blocks: nat, noise: Byte): Pool {
    pool.(chunks := pool.chunks + [blocks],
          free := pool.free + seq(blocks, i => |pool.mem| + i),
          mem := pool.mem + seq(blocks, i => seq(bs, k => noise)))
  }

  lemma CarvedOk(pool: Pool, bs: nat, blocks: nat, noise: Byte)
    requires PoolOk(pool, bs)
    ensures PoolOk(Carved(pool, bs, blocks, noise), bs)
    ensures forall p :: PageAt(Carved(pool, bs, blocks, noise), bs, p) == PageAt(pool, bs, p)
  {
    var r := Carved(pool, bs, blocks, noise);
    SumAppend(pool.chunks, blocks);
    forall f | 0 <= f < |r.mem|
      ensures f in r.owner || f in r.free
    {
      if f >= |pool.mem| {
        assert r.free[|pool.free| + f - |pool.mem|] == f;
      } else if f in pool.free {
        var i :| 0 <= i < |pool.free| && pool.free[i] == f;
        assert r.free[i] == f;
      }
    }
  }

  /** Lend the last free frame to block `p`, cleared. */
  function Lent(pool: Pool, bs: nat, p: nat): Pool
    requires PoolOk(pool, bs) && p < |pool.owner| && pool.free != []
  {
    var slot := pool.free[|pool.free| - 1];
    pool.(owner := pool.owner[p := slot],
          free := pool.free[..|pool.free| - 1],
          committed := pool.committed + 1,
          mem := pool.mem[slot := Zeros(bs)])
  }

  lemma LentOk(pool: Pool, bs: nat, p: nat)
    requires PoolOk(pool, bs) && p < |pool.owner| && pool.free != [] && pool.owner[p] == NONE
    ensures PoolOk(Lent(pool, bs, p), bs)
    ensures forall q :: PageAt(Lent(pool, bs, p), bs, q) == if q == p then Some(Zeros(bs)) else PageAt(pool, bs, q)
  {
    var r := Lent(pool, bs, p);
    CountUpdate(pool.owner, IsFrame, p, pool.free[|pool.free| - 1]);
    assert |pool.free| > 0 && r.owner[p] == pool.free[|pool.free| - 1];
    LentCovers(pool, bs, p);
  }

  /** Every frame is still lent or free. */
  lemma LentCovers(pool: Pool, bs: nat, p: nat)
    requires PoolOk(pool, bs) && p < |pool.owner| && pool.free != [] && pool.owner[p] == NONE
    ensures var r := Lent(pool, bs, p);
      forall f :: 0 <= f < |r.mem| ==> f in r.owner || f in r.free
  {
    var r := Lent(pool, bs, p);
    var slot := pool.free[|pool.free| - 1];
    assert r.owner[p] == slot;
    forall f | 0 <= f < |r.mem|
      ensures f in r.owner || f in r.free
    {
      if f in pool.owner {
        var q :| 0 <= q < |pool.owner| && pool.owner[q] == f;
        assert r.owner[q] == f;
      } else if f != slot {
        var i :| 0 <= i < |pool.free| && pool.free[i] == f;
        assert r.free[i] == f;
      }
    }
  }

  lemma FreeInRange(pool: Pool, bs: nat)
    requires PoolOk(pool, bs) && pool.free != []
    ensures 0 <= pool.free[|pool.free| - 1] < |pool.mem|
  {
  }

  /** Take back the frame of block `p`, if any. */
  function Returned(pool: Pool, p: int): Pool {
    if !(0 <= p < |pool.owner|) || pool.owner[p] == NONE then pool
    else pool.(owner := pool.owner[p := NONE],
               free := pool.free + [pool.owner[p]],
               committed := if pool.committed > 0 then pool.committed - 1 else 0)
  }

  lemma ReturnedOk(pool: Pool, bs: nat, p: int)
    requires PoolOk(pool, bs)
    ensures PoolOk(Returned(pool, p), bs)
    ensures forall q :: PageAt(Returned(pool, p), bs, q) == if q == p then None else PageAt(pool, bs, q)
  {
    if 0 <= p < |pool.owner| && pool.owner[p] != NONE {
      CountUpdate(pool.owner, IsFrame, p, NONE);
      CountBounds(pool.owner, IsFrame);
      assert IsFrame(pool.owner[p]);
      ReturnedCovers(pool, bs, p);
      ReturnedFree(pool, bs, p);
    }
  }

  /** The free frames, with the returned one, are distinct and lent to nobody. */
  lemma ReturnedFree(pool: Pool, bs: nat, p: nat)
    requires PoolOk(pool, bs) && p < |pool.owner| && pool.owner[p] != NONE
    ensures var r := Returned(pool, p);
      && (forall i :: 0 <= i < |r.free| ==> 0 <= r.free[i] < |r.mem| && r.free[i] !in r.owner)
      && (forall i, j :: 0 <= i < j < |r.free| ==> r.free[i] != r.free[j])
  {
    var r := Returned(pool, p);
    var slot := pool.owner[p];
    assert slot in pool.owner;
    forall f | f in r.owner
      ensures f == NONE || (f in pool.owner && f != slot)
    {
      var q :| 0 <= q < |r.owner| && r.owner[q] == f;
      assert q != p ==> pool.owner[q] == f;
    }
  }

  /** Every frame is still lent or free. */
  lemma ReturnedCovers(pool: Pool, bs: nat, p: nat)
    requires PoolOk(pool, bs) && p < |pool.owner| && pool.owner[p] != NONE
    ensures var r := Returned(pool, p);
      forall f :: 0 <= f < |r.mem| ==> f in r.owner || f in r.free
  {
    var r := Returned(pool, p);
    assert r.free[|pool.free|] == pool.owner[p];
    forall f | 0 <= f < |r.mem|
      ensures f in r.owner || f in r.free
    {
      if f in pool.owner {
        var q :| 0 <= q < |pool.owner| && pool.owner[q] == f;
        assert q != p ==> r.owner[q] == f;
      } else {
        var i :| 0 <= i < |pool.free| && pool.free[i] == f;
        assert r.free[i] == f;
      }
    }
  }

  /** Overwrite the page of block `p`. */
  function Stored(pool: Pool, bs: nat, p: nat, page: Page): Pool
    requires PoolOk(pool, bs) && p < |pool.owner| && pool.owner[p] != NONE
  {
    pool.(mem := pool.mem[pool.owner[p] := page])
  }

  lemma StoredOk(pool: Pool, bs: nat, p: nat, page: Page)
    requires PoolOk(pool, bs) && p < |pool.owner| && pool.owner[p] != NONE && |page| == bs
    ensures PoolOk(Stored(pool, bs, p, page), bs)
    ensures forall q :: PageAt(Stored(pool, bs, p, page), bs, q) == if q == p then Some(page) else PageAt(pool, bs, q)
    ensures |Stored(pool, bs, p, page).mem| == |pool.mem|
  {
  }

  /** Block `p` has a page, a cleared one if it had none; every other page is as before. */
  ghost predicate Grew(pool: Pool, pool': Pool, bs: nat, p: int)
    requires PoolOk(pool, bs) && PoolOk(pool', bs)
  {
    forall q :: PageAt(pool', bs, q) == (if q == p && PageAt(pool, bs, p).None? then Some(Zeros(bs)) else PageAt(pool, bs, q))
  }

  datatype Acquired = Acquired(status: Status, pool: Pool, os: Os)

  /** Number of frames the next chunk would contribute; `limit` 0 means no bound. */
  function ChunkSize(pool: Pool, limit: nat, chunk: nat): int {
    if limit > 0 && limit - pool.committed < chunk then limit - pool.committed else chunk
  }

  /** AcquirePage: give block `p` a cleared frame unless it has one already. */
  function Acquire(pool: Pool, bs: nat, limit: nat, chunk: nat, os: Os, p: int): (r: Acquired)
    requires PoolOk(pool, bs)
    ensures PoolOk(r.pool, bs) && |r.pool.owner| == |pool.owner|
    ensures !r.status.Ok? ==> r.pool == pool
    ensures r.status.Ok? ==> 0 <= p < |pool.owner|
    ensures r.status.Ok? ==> Grew(pool, r.pool, bs, p)
    ensures r.os == os || r.os == os.Asked()
  {
    if !(0 <= p < |pool.owner|) then Acquired(InvalidArgument, pool, os)
    else if pool.owner[p] != NONE then Acquired(Ok, pool, os)
    else if limit > 0 && pool.committed >= limit then Acquired(OutOfMemory, pool, os)
    else if pool.free != [] then
      LentOk(pool, bs, p);
      Acquired(Ok, Lent(pool, bs, p), os)
    else if chunk == 0 || bs == 0 then Acquired(InvalidArgument, pool, os)
    else if !os.Grants() then Acquired(OutOfMemory, pool, os.Asked())
    else
      CarvedOk(pool, bs, ChunkSize(pool, limit, chunk), os.noise);
      LentOk(Carved(pool, bs, ChunkSize(pool, limit, chunk), os.noise), bs, p);
      Acquired(Ok, Lent(Carved(pool, bs, ChunkSize(pool, limit, chunk), os.noise), bs, p), os.Asked())
  }

  /** A block that already has a frame keeps it; nobody else's frame changes. */
  lemma AcquireKeepsFrames(pool: Pool, bs: nat, limit: nat, chunk: nat, os: Os, p: int)
    requires PoolOk(pool, bs)
    ensures var r := Acquire(pool, bs, limit, chunk, os, p);
      forall q :: 0 <= q < |pool.owner| && (q != p || pool.owner[q] != NONE) ==> r.pool.owner[q] == pool.owner[q]
  {
  }

  /** Nothing to lend and nothing to be had: the pool is at its limit, or every frame is lent and the
      operating system refuses the next chunk. */
  predicate Exhausted(pool: Pool, limit: nat, os: Os) {
    (limit > 0 && pool.committed >= limit) || (pool.free == [] && !os.Grants())
  }

  /** Acquiring fails, for want of memory, exactly when the block has no frame yet and the pool is
      exhausted. */
  lemma AcquireFailsExactly(pool: Pool, bs: nat, limit: nat, chunk: nat, os: Os, p: int)
    requires PoolOk(pool, bs) && 0 <= p < |pool.owner| && bs > 0 && chunk > 0
    ensures Acquire(pool, bs, limit, chunk, os, p).status
         == if pool.owner[p] == NONE && Exhausted(pool, limit, os) then OutOfMemory else Ok
  {
  }

  /** A chunk must be requested: the block needs a frame, the pool is below its limit and has none. */
  predicate NeedsChunk(pool: Pool, limit: nat, p: int) {
    0 <= p < |pool.owner| && pool.owner[p] == NONE && !(limit > 0 && pool.committed >= limit) && pool.free == []
  }

  /** A chunk is requested exactly when it must be. It contributes as many frames as configured, or as
      are left below the limit if these are fewer. */
  lemma AcquireAsksExactly(pool: Pool, bs: nat, limit: nat, chunk: nat, os: Os, p: int)
    requires PoolOk(pool, bs) && bs > 0 && chunk > 0
    ensures var r := Acquire(pool, bs, limit, chunk, os, p);
      && r.os == (if NeedsChunk(pool, limit, p) then os.Asked() else os)
      && (NeedsChunk(pool, limit, p) && r.status.Ok? ==>
            exists size: nat ::
              && r.pool.chunks == pool.chunks + [size] && |r.pool.mem| == |pool.mem| + size
              && 0 < size <= chunk && (limit > 0 ==> pool.committed + size <= limit)
              && (size == chunk || pool.committed + size == limit))
      && (!(NeedsChunk(pool, limit, p) && r.status.Ok?) ==> r.pool.chunks == pool.chunks && |r.pool.mem| == |pool.mem|)
  {
    var r := Acquire(pool, bs, limit, chunk, os, p);
    if NeedsChunk(pool, limit, p) && r.status.Ok? {
      var size: nat := ChunkSize(pool, limit, chunk);
      assert r.pool.chunks == pool.chunks + [size] && |r.pool.mem| == |pool.mem| + size;
    }
  }

  /** The free frames are a stack: the frame given back last is lent first. */
  lemma ReturnedIsNext(pool: Pool, bs: nat, p: int, limit: nat, chunk: nat, os: Os, q: int)
    requires PoolOk(pool, bs) && 0 <= p < |pool.owner| && pool.owner[p] != NONE
    requires 0 <= q < |pool.owner| && (q == p || pool.owner[q] == NONE) && (limit > 0 ==> pool.committed <= limit)
    ensures PoolOk(Returned(pool, p), bs)
    ensures var r := Acquire(Returned(pool, p), bs, limit, chunk, os, q);
      r.status.Ok? && r.pool.owner[q] == pool.owner[p] && r.pool.free == pool.free
  {
    ReturnedOk(pool, bs, p);
    CountBounds(pool.owner, IsFrame);
    assert IsFrame(pool.owner[p]);
    var back := Returned(pool, p);
    assert back.free[..|back.free| - 1] == pool.free;
  }

  /** With room below the limit and a generous operating system, acquiring never fails. */
  lemma AcquireSucceeds(pool: Pool, bs: nat, limit: nat, chunk: nat, os: Os, p: int)
    requires PoolOk(pool, bs) && 0 <= p < |pool.owner| && bs > 0 && chunk > 0
    requires limit == 0 || limit >= |pool.owner|
    requires os.Generous()
    ensures Acquire(pool, bs, limit, chunk, os, p).status.Ok?
  {
    CountBounds(pool.owner, IsFrame);
  }

  /** A bounded pool never carves more frames than its limit. */
  lemma AcquireBounded(pool: Pool, bs: nat, limit: nat, chunk: nat, os: Os, p: int)
    requires PoolOk(pool, bs) && limit > 0 && |pool.mem| <= limit
    ensures |Acquire(pool, bs, limit, chunk, os, p).pool.mem| <= limit
  {
  }

  /** A chunk is carved only when every frame is lent. */
  lemma AcquireCarves(pool: Pool, bs: nat, chunk: nat, os: Os, p: int)
    requires PoolOk(pool, bs)
    ensures var r := Acquire(pool, bs, 0, chunk, os, p).pool;
      (r.chunks == pool.chunks && |r.mem| == |pool.mem|)
      || (r.chunks == pool.chunks + [chunk] && |r.mem| == |pool.mem| + chunk && |pool.mem| == Count(pool.owner, IsFrame))
  {
  }

  /** Where frame `f` lies: chunk `c`, position `k` within it. */
  function Locate(chunks: seq<nat>, f: nat): (r: (nat, nat))
    requires f < Sum(chunks)
    ensures r.0 < |chunks| && r.1 < chunks[r.0]
    ensures f == Sum(chunks[..r.0]) + r.1
  {
    var last := |chunks| - 1;
    if f >= Sum(chunks[..last]) then (last, f - Sum(chunks[..last]))
    else
      var r := Locate(chunks[..last], f);
      assert chunks[..last][..r.0] == chunks[..r.0];
      r
  }

  /** Offset, within its chunk, of byte `i` of the frame at position `k`. */
  function ByteOffset(k: nat, bs: nat, i: nat): nat {
    k * bs + i
  }

  /** Distinct frames never share a byte, and every byte of a frame lies inside its chunk. */
  lemma FramesDisjoint(chunks: seq<nat>, bs: nat, f: nat, g: nat, i: nat, j: nat)
    requires f < Sum(chunks) && g < Sum(chunks) && i < bs && j < bs
    ensures var (c, k) := Locate(chunks, f); ByteOffset(k, bs, i) < chunks[c] * bs
    ensures f != g ==>
              var (c, k) := Locate(chunks, f);
              var (d, l) := Locate(chunks, g);
              (c, ByteOffset(k, bs, i)) != (d, ByteOffset(l, bs, j))
  {
    var (c, k) := Locate(chunks, f);
    var (d, l) := Locate(chunks, g);
    Within(k, chunks[c], bs, i);
    if k < l {
      Within(k, l, bs, i);
    } else if l < k {
      Within(l, k, bs, j);
    }
  }

  lemma Within(k: nat, l: nat, bs: nat, i: nat)
    requires k < l && i < bs
    ensures k * bs + i < l * bs
  {
    assert (k + 1) * bs <= l * bs;
  }

  class HostMemory {
    const denied: set<nat>
    const noise: Byte
    var requests: nat

    constructor (denied: set<nat>, noise: Byte)
      ensures Value() == Os(denied, 0, noise)
    {
      this.denied, this.noise, requests := denied, noise, 0;
    }

    ghost function Value(): Os
      reads this
    {
      Os(denied, requests, noise)
    }

    method Request() returns (granted: bool)
      modifies this
      ensures granted == old(Value()).Grants() && Value() == old(Value()).Asked()
    {
      granted := requests !in denied;
      requests := requests + 1;
    }
  }

  class ChunkPool {
    var ownerPages: seq<int>
    var freeBlocks: seq<int>
    var committedPages: nat
    var chunks: seq<nat>
    var mem: seq<Page>

    constructor (blockCount: nat)
      ensures Value() == FreshPool(blockCount)
    {
      ownerPages := seq(blockCount, i => NONE);
      freeBlocks, committedPages, chunks, mem := [], 0, [], [];
    }

    ghost function Value(): Pool
      reads this
    {
      Pool(ownerPages, freeBlocks, committedPages, chunks, mem)
    }

    /** The bytes behind the page pointer of `block`, None for a null pointer. */
    function RawPage(block: int): Option<Page>
      reads this
    {
      if 0 <= block < |ownerPages| && 0 <= ownerPages[block] < |mem| then Some(mem[ownerPages[block]]) else None
    }

    lemma RawPageIsPage(bs: nat, block: int)
      requires PoolOk(Value(), bs)
      ensures RawPage(block) == PageAt(Value(), bs, block)
    {
    }

    method AllocateChunk(bs: nat, blocks: nat, host: HostMemory) returns (status: Status)
      modifies this, host
      ensures blocks == 0 || bs == 0 ==> status == InvalidArgument && unchanged(this) && unchanged(host)
      ensures blocks > 0 && bs > 0 ==>
                && host.Value() == old(host.Value()).Asked()
                && status == (if old(host.Value()).Grants() then Ok else OutOfMemory)
                && Value() == (if status.Ok? then Carved(old(Value()), bs, blocks, host.noise) else old(Value()))
    {
      if blocks == 0 || bs == 0 {
        return InvalidArgument;
      }
      var granted := host.Request();
      if !granted {
        return OutOfMemory;
      }
      ghost var was := Value();
      var base := |mem|;
      chunks := chunks + [blocks];
      mem := mem + seq(blocks, i => seq(bs, k => host.noise));
      for i := 0 to blocks
        invariant freeBlocks == was.free + seq(i, k => base + k)
        invariant ownerPages == was.owner && committedPages == was.committed
        invariant chunks == was.chunks + [blocks] && mem == was.mem + seq(blocks, i => seq(bs, k => host.noise))
        invariant host.Value() == old(host.Value()).Asked()
      {
        freeBlocks := freeBlocks + [base + i];
        assert seq(i + 1, k => base + k) == seq(i, k => base + k) + [base + i];
      }
      status := Ok;
      assert freeBlocks == Carved(was, bs, blocks, host.noise).free;
      assert mem == Carved(was, bs, blocks, host.noise).mem;
    }

    method AcquirePage(bs: nat, limit: nat, chunk: nat, host: HostMemory, block: int) returns (status: Status)
      requires PoolOk(Value(), bs)
      modifies this, host
      ensures Acquired(status, Value(), host.Value()) == Acquire(old(Value()), bs, limit, chunk, old(host.Value()), block)
      ensures PoolOk(Value(), bs) && |ownerPages| == |old(ownerPages)|
      ensures status.Ok? ==> 0 <= block < |ownerPages| && ownerPages[block] != NONE
    {
      hide PoolOk, PageAt, Grew;
      if block < 0 || block >= |ownerPages| {
        return InvalidArgument;
      }
      if ownerPages[block] != NONE {
        return Ok;
      }
      if limit > 0 && committedPages >= limit {
        return OutOfMemory;
      }
      if freeBlocks == [] {
        var blocks := chunk;
        if limit > 0 && limit - committedPages < blocks {
          blocks := limit - committedPages;
        }
        status := AllocateChunk(bs, blocks, host);
        if !status.Ok? {
          return status;
        }
        CarvedOk(old(Value()), bs, blocks, host.noise);
      }
      LendFrame(bs, block);
      return Ok;
    }

    /** Give the last free frame, cleared, to `block`. */
    method LendFrame(bs: nat, block: nat)
      requires PoolOk(Value(), bs) && block < |ownerPages| && freeBlocks != []
      modifies this
      ensures Value() == Lent(old(Value()), bs, block)
      ensures |ownerPages| == |old(ownerPages)| && ownerPages[block] != NONE
    {
      hide PoolOk;
      FreeInRange(Value(), bs);
      var slot := freeBlocks[|freeBlocks| - 1];
      freeBlocks := freeBlocks[..|freeBlocks| - 1];
      mem := mem[slot := Zeros(bs)];
      ownerPages := ownerPages[block := slot];
      committedPages := committedPages + 1;
    }

    method ReleasePage(block: int)
      modifies this
      ensures Value() == Returned(old(Value()), block)
    {
      if block < 0 || block >= |ownerPages| {
        return;
      }
      var slot := ownerPages[block];
      if slot != NONE {
        freeBlocks := freeBlocks + [slot];
        ownerPages := ownerPages[block := NONE];
        if committedPages > 0 {
          committedPages := committedPages - 1;
        }
      }
    }

    /** memcpy or memset over the page of `block`. */
    method Store(bs: nat, block: int, page: Page)
      requires PoolOk(Value(), bs) && 0 <= block < |ownerPages| && ownerPages[block] != NONE
      modifies this
      ensures Value() == Stored(old(Value()), bs, block, page)
    {
      mem := mem[ownerPages[block] := page];
    }
  }
}
