/** Contexts: page tables over the shared block manager, copy-on-write sharing and forking. */
module Contexts {
  import opened MmuTypes
  import opened BlockManagers

  /** Outcome of a context operation on the shared ledger and the context's own page table. */
  datatype Routed = Routed(status: Status, ledger: Ledger, table: seq<int>, blocks: seq<int>)

  /** A page-table entry is unallocated or names a block. */
  predicate InRange(table: seq<int>, total: int) {
    forall i :: 0 <= i < |table| ==> NONE <= table[i] < total
  }

  /** The entry of a logical block; NONE when out of bounds. */
  function Entry(table: seq<int>, i: int): int {
    if 0 <= i < |table| then table[i] else NONE
  }

  /** The next `k` blocks the free list will hand out, in order. */
  function NextFree(free: seq<int>, k: nat): (r: seq<int>)
    requires k <= |free|
    ensures |r| == k
    ensures forall i :: 0 <= i < k ==> r[i] == free[|free| - 1 - i]
  {
    if k == 0 then [] else NextFree(free, k - 1) + [free[|free| - k]]
  }

  function TakeFree(ledger: Ledger, k: nat): (r: Ledger)
    requires ledger.Valid() && k <= |ledger.free|
    ensures r.Valid() && |r.refs| == |ledger.refs| && r.free == ledger.free[..|ledger.free| - k]
  {
    if k == 0 then ledger else TakeFree(ledger, k - 1).Allocated()
  }

  /** Exactly the next `k` free blocks change owner, from nobody to one. */
  lemma {:induction false} TakeFreeCounts(ledger: Ledger, k: nat, p: int)
    requires ledger.Valid() && k <= |ledger.free| && ledger.Has(p)
    ensures TakeFree(ledger, k).refs[p] == if p in NextFree(ledger.free, k) then 1 else ledger.refs[p]
    ensures p in NextFree(ledger.free, k) ==> ledger.refs[p] == 0
  {
    hide Ledger.Valid;
    if k > 0 {
      TakeFreeCounts(ledger, k - 1, p);
      TakeStep(ledger, k - 1);
    }
  }

  lemma TakeStep(ledger: Ledger, k: nat)
    requires ledger.Valid() && k < |ledger.free|
    ensures TakeFree(ledger, k + 1) == TakeFree(ledger, k).Allocated()
    ensures NextFree(ledger.free, k + 1) == NextFree(ledger.free, k) + [TakeFree(ledger, k).free[|ledger.free| - k - 1]]
  {
    hide Ledger.Valid;
  }

  lemma AppendAssociative(a: seq<int>, b: seq<int>, c: seq<int>)
    ensures a + b + c == a + (b + c)
  {
  }

  /** Release the given blocks in order. */
  function ReleaseEach(ledger: Ledger, blocks: seq<int>): (r: Ledger)
    requires ledger.Valid()
    ensures r.Valid() && |r.refs| == |ledger.refs|
  {
    if blocks == [] then ledger
    else ReleaseEach(ledger, blocks[..|blocks| - 1]).Released(blocks[|blocks| - 1])
  }

  /** Retain the given blocks in order. */
  function RetainEach(ledger: Ledger, blocks: seq<int>): (r: Ledger)
    requires ledger.Valid()
    ensures r.Valid() && |r.refs| == |ledger.refs| && r.free == ledger.free
  {
    if blocks == [] then ledger
    else RetainEach(ledger, blocks[..|blocks| - 1]).Retained(blocks[|blocks| - 1])
  }

  /** A release per mention, as long as somebody still owns the block. */
  lemma {:induction false} ReleaseEachCounts(ledger: Ledger, blocks: seq<int>, p: int)
    requires ledger.Valid() && ledger.Has(p)
    ensures var r := ReleaseEach(ledger, blocks);
      r.refs[p] == if ledger.refs[p] >= multiset(blocks)[p] then ledger.refs[p] - multiset(blocks)[p] else 0
  {
    if blocks != [] {
      assert blocks == blocks[..|blocks| - 1] + [blocks[|blocks| - 1]];
      ReleaseEachCounts(ledger, blocks[..|blocks| - 1], p);
    }
  }

  /** A reference per mention, for blocks that somebody owns. */
  lemma {:induction false} RetainEachCounts(ledger: Ledger, blocks: seq<int>, p: int)
    requires ledger.Valid() && ledger.Has(p)
    ensures var r := RetainEach(ledger, blocks);
      r.refs[p] == if ledger.refs[p] > 0 then ledger.refs[p] + multiset(blocks)[p] else 0
  {
    if blocks != [] {
      assert blocks == blocks[..|blocks| - 1] + [blocks[|blocks| - 1]];
      RetainEachCounts(ledger, blocks[..|blocks| - 1], p);
    }
  }

  /** A failed allocation takes every free block, appends it, and then gives the blocks back but
      leaves the appended entries in the page table. */
  function Allocate(ledger: Ledger, table: seq<int>, num: int): (r: Routed)
    requires ledger.Valid()
    ensures r.ledger.Valid() && |r.ledger.refs| == |ledger.refs|
  {
    if num < 0 then Routed(InvalidArgument, ledger, table, [])
    else
      var k := Min(num, |ledger.free|);
      var blocks := NextFree(ledger.free, k);
      if num <= |ledger.free| then Routed(Ok, TakeFree(ledger, k), table + blocks, blocks)
      else Routed(OutOfMemory, ReleaseEach(TakeFree(ledger, k), blocks), table + blocks, [])
  }

  lemma FreeIsNext(ledger: Ledger, p: int)
    requires ledger.Valid() && ledger.Has(p)
    ensures ledger.refs[p] == 0 <==> p in NextFree(ledger.free, |ledger.free|)
  {
    var blocks := NextFree(ledger.free, |ledger.free|);
    if ledger.refs[p] == 0 {
      var i :| 0 <= i < |ledger.free| && ledger.free[i] == p;
      assert blocks[|blocks| - 1 - i] == p;
    }
  }

  /** The reference counts after a failed allocation are the ones before it. */
  lemma FailedAllocationRestoresCounts(ledger: Ledger, num: int)
    requires ledger.Valid() && num > |ledger.free|
    ensures Allocate(ledger, [], num).ledger.refs == ledger.refs
  {
    var r := Allocate(ledger, [], num);
    var blocks := NextFree(ledger.free, |ledger.free|);
    var taken := TakeFree(ledger, |ledger.free|);
    forall p | 0 <= p < |ledger.refs|
      ensures ReleaseEach(taken, blocks).refs[p] == ledger.refs[p]
    {
      TakeFreeCounts(ledger, |ledger.free|, p);
      ReleaseEachCounts(taken, blocks, p);
      FreeIsNext(ledger, p);
    }
  }

  /** A new manager hands out the blocks in ascending order. */
  lemma FreshHandsOut(total: nat, k: nat, i: nat)
    requires i < k <= total
    ensures NextFree(FreshLedger(total).free, k)[i] == i
  {
  }

  /** Blocks with a single owner go to the free list in the order in which they are released. */
  lemma ReleasedSole(ledger: Ledger, p: int)
    requires ledger.Valid() && ledger.Has(p) && ledger.refs[p] == 1
    ensures ledger.Released(p).free == ledger.free + [p]
    ensures forall q :: ledger.Has(q) && q != p ==> ledger.Released(p).Has(q) && ledger.Released(p).refs[q] == ledger.refs[q]
  {
  }

  lemma {:induction false} ReleaseEachSole(ledger: Ledger, blocks: seq<int>)
    requires ledger.Valid() && forall i, j :: 0 <= i < j < |blocks| ==> blocks[i] != blocks[j]
    requires forall i :: 0 <= i < |blocks| ==> ledger.Has(blocks[i]) && ledger.refs[blocks[i]] == 1
    ensures ReleaseEach(ledger, blocks).free == ledger.free + blocks
    ensures forall p :: ledger.Has(p) && p !in blocks ==> ReleaseEach(ledger, blocks).refs[p] == ledger.refs[p]
  {
    hide Ledger.Valid, Ledger.Released;
    if blocks == [] {
      assert ledger.free + blocks == ledger.free;
    } else {
      var rest, p := blocks[..|blocks| - 1], blocks[|blocks| - 1];
      ReleaseEachSole(ledger, rest);
      ReleasedSole(ReleaseEach(ledger, rest), p);
      assert blocks == rest + [p];
      assert p !in rest;
      assert ledger.free + rest + [p] == ledger.free + blocks;
    }
  }

  /** `b` is `a` read backwards. */
  ghost predicate Backwards(a: seq<int>, b: seq<int>) {
    |b| == |a| && forall i :: 0 <= i < |b| ==> b[i] == a[|a| - 1 - i]
  }

  /** A failed allocation turns the free list round. */
  lemma FailedAllocationReversesFree(ledger: Ledger, num: int)
    requires ledger.Valid() && num > |ledger.free|
    ensures Backwards(ledger.free, Allocate(ledger, [], num).ledger.free)
  {
    var blocks, taken := NextFree(ledger.free, |ledger.free|), TakeFree(ledger, |ledger.free|);
    hide Ledger.Valid, TakeFree, ReleaseEach, NextFree, Backwards, Ledger.Has;
    AllTaken(ledger, blocks, taken);
    ReleaseEachSole(taken, blocks);
    assert [] + blocks == blocks;
  }

  lemma AllTaken(ledger: Ledger, blocks: seq<int>, taken: Ledger)
    requires ledger.Valid()
    requires blocks == NextFree(ledger.free, |ledger.free|) && taken == TakeFree(ledger, |ledger.free|)
    ensures taken.free == [] && Backwards(ledger.free, blocks)
    ensures forall i, j :: 0 <= i < j < |blocks| ==> blocks[i] != blocks[j]
    ensures forall i :: 0 <= i < |blocks| ==> taken.Has(blocks[i]) && taken.refs[blocks[i]] == 1
  {
    hide TakeFree;
    forall i | 0 <= i < |blocks|
      ensures taken.Has(blocks[i]) && taken.refs[blocks[i]] == 1
    {
      TakeFreeCounts(ledger, |ledger.free|, blocks[i]);
    }
  }

  /** Position of the last mention of `p`. */
  function LastMention(blocks: seq<int>, p: int): (i: nat)
    requires p in blocks
    ensures i < |blocks| && blocks[i] == p && p !in blocks[i + 1..]
  {
    var last := |blocks| - 1;
    if blocks[last] == p then last
    else
      var i := LastMention(blocks[..last], p);
      assert blocks[i + 1..] == blocks[..last][i + 1..] + [blocks[last]];
      i
  }

  ghost predicate ByLastMention(blocks: seq<int>, list: seq<int>) {
    && (forall i :: 0 <= i < |list| ==> list[i] in blocks)
    && (forall i, j :: 0 <= i < j < |list| ==> LastMention(blocks, list[i]) < LastMention(blocks, list[j]))
  }

  /** Releasing a table frees blocks in the order of their last entries, after those already free. */
  lemma {:induction false} FreedInOrder(ledger: Ledger, blocks: seq<int>)
    requires ledger.Valid() && forall p :: ledger.Has(p) ==> ledger.refs[p] >= multiset(blocks)[p]
    ensures var free := ReleaseEach(ledger, blocks).free;
      ledger.free <= free && ByLastMention(blocks, free[|ledger.free|..])
  {
    hide Ledger.Valid, ByLastMention, Ledger.Released;
    if blocks == [] {
      NothingFreed(ledger);
    } else {
      var rest, p := blocks[..|blocks| - 1], blocks[|blocks| - 1];
      assert blocks == rest + [p];
      FreedInOrder(ledger, rest);
      if ledger.Has(p) {
        ReleaseEachCounts(ledger, rest, p);
      }
      FreedOneMore(ledger.free, ReleaseEach(ledger, rest), rest, p);
    }
  }

  lemma NothingFreed(ledger: Ledger)
    ensures ByLastMention([], ledger.free[|ledger.free|..])
  {
  }

  lemma FreedOneMore(free: seq<int>, before: Ledger, blocks: seq<int>, p: int)
    requires before.Valid() && free <= before.free && ByLastMention(blocks, before.free[|free|..])
    requires before.Has(p) ==> before.refs[p] > 0
    ensures free <= before.Released(p).free && ByLastMention(blocks + [p], before.Released(p).free[|free|..])
  {
    var list := before.free[|free|..];
    OwnedIsNotFree(before, p);
    hide Ledger.Valid, ByLastMention;
    assert p !in list;
    MentionedLater(blocks, p, list);
    assert (before.free + [p])[|free|..] == list + [p];
  }

  lemma OwnedIsNotFree(ledger: Ledger, p: int)
    requires ledger.Valid() && (ledger.Has(p) ==> ledger.refs[p] > 0)
    ensures p !in ledger.free
  {
  }

  lemma MentionedLater(blocks: seq<int>, p: int, list: seq<int>)
    requires ByLastMention(blocks, list)
    ensures p !in list ==> ByLastMention(blocks + [p], list) && ByLastMention(blocks + [p], list + [p])
  {
    if p !in list {
      assert (blocks + [p])[..|blocks|] == blocks;
      forall i | 0 <= i < |list|
        ensures list[i] in blocks + [p] && LastMention(blocks + [p], list[i]) == LastMention(blocks, list[i])
      {
        assert list[i] in blocks;
      }
    }
  }

  function Release(ledger: Ledger, table: seq<int>, i: int): (r: Routed)
    requires ledger.Valid()
    ensures r.ledger.Valid() && |r.ledger.refs| == |ledger.refs| && |r.table| == |table|
  {
    if Entry(table, i) == NONE then Routed(Unallocated, ledger, table, [])
    else if !ledger.CanShare(table[i]) then Routed(Internal, ledger, table, [])
    else Routed(Ok, ledger.Released(table[i]), table[i := NONE], [])
  }

  /** On success `blocks` holds the block that may be written. */
  function PrepareWrite(ledger: Ledger, table: seq<int>, i: int): (r: Routed)
    requires ledger.Valid()
    ensures r.ledger.Valid() && |r.ledger.refs| == |ledger.refs| && |r.table| == |table|
    ensures r.status.Ok? ==> |r.blocks| == 1 && 0 <= i < |table| && ledger.Has(table[i])
    ensures r.status.Ok? ==> r.ledger.Has(r.blocks[0]) && r.ledger.refs[r.blocks[0]] == 1
    ensures r.status.Ok? ==> r.table == table[i := r.blocks[0]]
    ensures r.status.Ok? && ledger.refs[table[i]] == 1 ==> r.ledger == ledger && r.table == table
    ensures r.status.Ok? && ledger.refs[table[i]] > 1 ==>
              && ledger.free != [] && r.blocks[0] == ledger.free[|ledger.free| - 1]
              && r.ledger.free == ledger.free[..|ledger.free| - 1]
              && ledger.refs[r.blocks[0]] == 0
              && r.ledger.refs == ledger.refs[r.blocks[0] := 1][table[i] := ledger.refs[table[i]] - 1]
    ensures !r.status.Ok? ==> r.ledger == ledger && r.table == table
  {
    if Entry(table, i) == NONE then Routed(Unallocated, ledger, table, [])
    else if ledger.RefCount(table[i]) <= 0 then Routed(Internal, ledger, table, [])
    else if ledger.RefCount(table[i]) == 1 then Routed(Ok, ledger, table, [table[i]])
    else if ledger.free == [] then Routed(OutOfMemory, ledger, table, [])
    else
      var block := ledger.free[|ledger.free| - 1];
      Routed(Ok, ledger.Allocated().Released(table[i]), table[i := block], [block])
  }

  function Remap(ledger: Ledger, table: seq<int>, i: int, block: int): (r: Routed)
    requires ledger.Valid()
    ensures r.ledger.Valid() && |r.ledger.refs| == |ledger.refs| && |r.table| == |table|
  {
    if !(0 <= i < |table|) then Routed(Unallocated, ledger, table, [])
    else if !ledger.Has(block) then Routed(InvalidArgument, ledger, table, [])
    else if table[i] == block then Routed(Ok, ledger, table, [])
    else if block !in ledger.free then Routed(OutOfMemory, ledger, table, [])
    else if table[i] == NONE then Routed(Ok, ledger.Claimed(block), table[i := block], [])
    else if !ledger.Claimed(block).CanShare(table[i]) then
      Routed(Internal, ledger.Claimed(block).Released(block), table, [])
    else Routed(Ok, ledger.Claimed(block).Released(table[i]), table[i := block], [])
  }

  /** Context::UpdateMapping can give entry `i` to another block: nobody owns that one, and the block there
      now, if there is one, can be released. */
  predicate CanRemap(ledger: Ledger, table: seq<int>, i: nat, block: int)
    requires i < |table| && ledger.Has(block) && (table[i] == NONE || ledger.Has(table[i]))
  {
    ledger.refs[block] == 0 && (table[i] == NONE || ledger.refs[table[i]] > 0)
  }

  /** The exact condition of each status of Context::UpdateMapping. */
  lemma RemapStatus(ledger: Ledger, table: seq<int>, i: int, block: int)
    requires ledger.Valid() && (0 <= i < |table| ==> table[i] == NONE || ledger.Has(table[i]))
    ensures Remap(ledger, table, i, block).status ==
            if !(0 <= i < |table|) then Unallocated
            else if !ledger.Has(block) then InvalidArgument
            else if table[i] == block || CanRemap(ledger, table, i, block) then Ok
            else if ledger.refs[block] > 0 then OutOfMemory
            else Internal
  {
    if ledger.Has(block) {
      FreeIfUnowned(ledger, block);
      hide Ledger.Valid;
    }
  }

  /** The entry changes, the new block gets an owner and the old one loses one; a refused call leaves the
      table and all reference counts alone. */
  lemma RemapMoves(ledger: Ledger, table: seq<int>, i: int, block: int)
    requires ledger.Valid() && 0 <= i < |table| && (table[i] == NONE || ledger.Has(table[i])) && ledger.Has(block)
    ensures var r := Remap(ledger, table, i, block);
      if table[i] == block then r.ledger == ledger && r.table == table
      else if CanRemap(ledger, table, i, block) then
        && r.table == table[i := block]
        && r.ledger.refs == if table[i] == NONE then ledger.refs[block := 1]
                            else ledger.refs[block := 1][table[i] := ledger.refs[table[i]] - 1]
      else r.table == table && r.ledger.refs == ledger.refs
  {
    FreeIfUnowned(ledger, block);
    hide Ledger.Valid, Ledger.Claimed, Ledger.Released;
    if ledger.refs[block] == 0 {
      ClaimedThen(ledger, block, block);
      ClaimedThen(ledger, block, table[i]);
    }
  }

  lemma ClaimedThen(ledger: Ledger, p: int, q: int)
    requires ledger.Valid() && p in ledger.free && ledger.Has(p) && (q == NONE || ledger.Has(q))
    ensures ledger.Claimed(p).refs == ledger.refs[p := 1]
    ensures ledger.Claimed(p).CanShare(q) <==> q == p || (q != NONE && ledger.refs[q] > 0)
    ensures ledger.Claimed(p).Released(p).refs == ledger.refs
    ensures q != NONE && q != p && ledger.refs[q] > 0 ==>
              ledger.Claimed(p).Released(q).refs == ledger.refs[p := 1][q := ledger.refs[q] - 1]
  {
    hide Ledger.Valid;
    assert ledger.Claimed(p).Released(p).refs == ledger.refs;
  }

  lemma FreeIfUnowned(ledger: Ledger, p: int)
    requires ledger.Valid() && ledger.Has(p)
    ensures p in ledger.free <==> ledger.refs[p] == 0
  {
  }

  class PageTable {
    var entries: seq<int>

    constructor ()
      ensures entries == []
    {
      entries := [];
    }

    method Append(block: int)
      modifies this
      ensures entries == old(entries) + [block]
    {
      entries := entries + [block];
    }

    function Get(i: int): (r: Option<int>)
      reads this
      ensures r.Some? <==> 0 <= i < |entries|
      ensures r.Some? ==> r.value == Entry(entries, i)
    {
      if i < 0 || i >= |entries| then None else Some(entries[i])
    }

    method Set(i: int, block: int) returns (ok: bool)
      modifies this
      ensures ok == (0 <= i < |old(entries)|)
      ensures entries == if ok then old(entries)[i := block] else old(entries)
    {
      if i < 0 || i >= |entries| {
        return false;
      }
      entries := entries[i := block];
      ok := true;
    }
  }

  class Context {
    const manager: BlockManager
    const pageTable: PageTable

    constructor (manager: BlockManager)
      ensures this.manager == manager && fresh(pageTable) && pageTable.entries == []
    {
      this.manager := manager;
      pageTable := new PageTable();
    }

    method AllocateBlocks(num: int) returns (status: Status, blocks: seq<int>)
      requires manager.Valid()
      modifies manager, pageTable
      ensures Routed(status, manager.Value(), pageTable.entries, blocks)
           == Allocate(old(manager.Value()), old(pageTable.entries), num)
    {
      if num < 0 {
        return InvalidArgument, [];
      }
      var ok;
      ok, blocks := TakeBlocks(num);
      if !ok {
        Rollback(blocks);
        return OutOfMemory, [];
      }
      return Ok, blocks;
    }

    /** Append up to `num` new blocks, stopping when the manager has none left. */
    method TakeBlocks(num: nat) returns (ok: bool, taken: seq<int>)
      requires manager.Valid()
      modifies manager, pageTable
      ensures ok == (num <= |old(manager.freeList)|)
      ensures var k := Min(num, |old(manager.freeList)|);
        && taken == NextFree(old(manager.freeList), k)
        && manager.Value() == TakeFree(old(manager.Value()), k)
      ensures pageTable.entries == old(pageTable.entries) + taken
    {
      hide Ledger.Valid;
      ghost var ledger, table := manager.Value(), pageTable.entries;
      taken := [];
      ok := true;
      var i := 0;
      while i < num && ok
        invariant 0 <= i <= num && |taken| <= |ledger.free|
        invariant if ok then |taken| == i else |taken| == |ledger.free| < num
        invariant taken == NextFree(ledger.free, |taken|)
        invariant manager.Value() == TakeFree(ledger, |taken|)
        invariant pageTable.entries == table + taken
        decreases num - i, ok
      {
        var block;
        ok, block := manager.Allocate();
        if ok {
          TakeStep(ledger, |taken|);
          AppendAssociative(table, taken, [block]);
          pageTable.Append(block);
          taken := taken + [block];
          i := i + 1;
        }
      }
    }

    method Rollback(blocks: seq<int>)
      requires manager.Valid()
      modifies manager
      ensures manager.Value() == ReleaseEach(old(manager.Value()), blocks)
    {
      ghost var ledger := manager.Value();
      for j := 0 to |blocks|
        invariant manager.Value() == ReleaseEach(ledger, blocks[..j])
      {
        assert blocks[..j + 1][..j] == blocks[..j];
        var _ := manager.Release(blocks[j]);
      }
      assert blocks[..|blocks|] == blocks;
    }

    method ReleaseLogicalBlock(i: int) returns (status: Status)
      requires manager.Valid()
      modifies manager, pageTable
      ensures Routed(status, manager.Value(), pageTable.entries, [])
           == Release(old(manager.Value()), old(pageTable.entries), i)
    {
      var entry := pageTable.Get(i);
      if entry.None? {
        return Unallocated;
      }
      if entry.value == NONE {
        return Unallocated;
      }
      var ok := manager.Release(entry.value);
      if !ok {
        return Internal;
      }
      var _ := pageTable.Set(i, NONE);
      return Ok;
    }

    method UpdateMapping(i: int, block: int) returns (status: Status)
      requires manager.Valid()
      modifies manager, pageTable
      ensures Routed(status, manager.Value(), pageTable.entries, [])
           == Remap(old(manager.Value()), old(pageTable.entries), i, block)
    {
      var current := pageTable.Get(i);
      if current.None? {
        return Unallocated;
      }
      if !manager.IsValid(block) {
        return InvalidArgument;
      }
      if current.value == block {
        return Ok;
      }
      var claimed := manager.AllocateSpecific(block);
      if !claimed {
        return OutOfMemory;
      }
      if current.value != NONE {
        var released := manager.Release(current.value);
        if !released {
          var _ := manager.Release(block);
          return Internal;
        }
      }
      var _ := pageTable.Set(i, block);
      return Ok;
    }

    method PrepareBlockForWrite(i: int) returns (status: Status, blocks: seq<int>)
      requires manager.Valid()
      modifies manager, pageTable
      ensures Routed(status, manager.Value(), pageTable.entries, blocks)
           == PrepareWrite(old(manager.Value()), old(pageTable.entries), i)
    {
      var entry := pageTable.Get(i);
      if entry.None? {
        return Unallocated, [];
      }
      if entry.value == NONE {
        return Unallocated, [];
      }
      var refCount := manager.RefCount(entry.value);
      if refCount <= 0 {
        return Internal, [];
      }
      if refCount == 1 {
        return Ok, [entry.value];
      }
      var ok, block := manager.Allocate();
      if !ok {
        return OutOfMemory, [];
      }
      var _ := manager.Release(entry.value);
      var _ := pageTable.Set(i, block);
      return Ok, [block];
    }

    method Fork() returns (child: Context)
      requires manager.Valid()
      modifies manager
      ensures fresh(child) && fresh(child.pageTable) && child.manager == manager
      ensures child.pageTable.entries == old(pageTable.entries)
      ensures manager.Value() == RetainEach(old(manager.Value()), old(pageTable.entries))
    {
      ghost var ledger := manager.Value();
      child := new Context(manager);
      var entries := pageTable.entries;
      for i := 0 to |entries|
        invariant manager.Value() == RetainEach(ledger, entries[..i])
        invariant child.pageTable.entries == entries[..i]
      {
        assert entries[..i + 1][..i] == entries[..i];
        assert entries[..i + 1] == entries[..i] + [entries[i]];
        if entries[i] != NONE {
          var _ := manager.Retain(entries[i]);
        }
        child.pageTable.Append(entries[i]);
      }
      assert entries[..|entries|] == entries;
    }

    method ReleaseAllBlocks()
      requires manager.Valid()
      modifies manager
      ensures manager.Value() == ReleaseEach(old(manager.Value()), pageTable.entries)
    {
      ghost var ledger := manager.Value();
      var entries := pageTable.entries;
      for i := 0 to |entries|
        invariant manager.Value() == ReleaseEach(ledger, entries[..i])
      {
        assert entries[..i + 1][..i] == entries[..i];
        if entries[i] != NONE {
          var _ := manager.Release(entries[i]);
        }
      }
      assert entries[..|entries|] == entries;
    }

    method AllocatedLogicalBlocks() returns (count: nat)
      ensures count == Count(pageTable.entries, IsAllocated)
    {
      count := 0;
      var entries := pageTable.entries;
      for i := 0 to |entries|
        invariant count == Count(entries[..i], IsAllocated)
      {
        assert entries[..i + 1][..i] == entries[..i];
        if entries[i] != NONE {
          count := count + 1;
        }
      }
      assert entries[..|entries|] == entries;
    }
  }

  predicate IsAllocated(entry: int) {
    entry != NONE
  }
}
