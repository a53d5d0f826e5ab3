/** Physical block allocator: a free list and a reference count per block. */
module BlockManagers {
  import opened MmuTypes

  /** The value of a BlockManager: `refs[p]` counts the owners of block `p`. */
  datatype Ledger = Ledger(refs: seq<int>, free: seq<int>) {
    predicate Has(p: int) {
      0 <= p < |refs|
    }

    /** The free list is a duplicate-free permutation of the blocks nobody owns. */
    ghost predicate Valid() {
      && (forall p :: 0 <= p < |refs| ==> refs[p] >= 0)
      && (forall i :: 0 <= i < |free| ==> 0 <= free[i] < |refs| && refs[free[i]] == 0)
      && (forall i, j :: 0 <= i < j < |free| ==> free[i] != free[j])
      && (forall p :: 0 <= p < |refs| && refs[p] == 0 ==> p in free)
    }

    function RefCount(p: int): int {
      if Has(p) then refs[p] else -1
    }

    /** Take the last free block. */
    function Allocated(): (r: Ledger)
      requires Valid() && free != []
      ensures r.Valid() && |r.refs| == |refs| && r.free == free[..|free| - 1]
      ensures refs[free[|free| - 1]] == 0 && r.refs == refs[free[|free| - 1] := 1]
    {
      var last := |free| - 1;
      assert forall p :: p in free && p != free[last] ==> p in free[..last];
      Ledger(refs[free[last] := 1], free[..last])
    }

    /** Take block `p` wherever it sits in the free list; `i` is its first position. */
    function Claimed(p: int): (r: Ledger)
      requires Valid() && p in free
      ensures r.Valid() && Has(p) && refs[p] == 0 && r.refs == refs[p := 1]
      ensures p !in r.free && multiset(r.free) + multiset{p} == multiset(free)
      ensures exists i :: 0 <= i < |free| && free[i] == p && r.free == RemoveAt(free, i)
    {
      var i := FirstIndex(free, p);
      RemoveAtLaws(free, i);
      Ledger(refs[p := 1], RemoveAt(free, i))
    }

    predicate CanShare(p: int) {
      Has(p) && refs[p] > 0
    }

    function Retained(p: int): (r: Ledger)
      requires Valid()
      ensures r.Valid() && |r.refs| == |refs|
      ensures r.refs == (if CanShare(p) then refs[p := refs[p] + 1] else refs)
      ensures r.free == free
    {
      if CanShare(p) then Ledger(refs[p := refs[p] + 1], free) else this
    }

    function Released(p: int): (r: Ledger)
      requires Valid()
      ensures r.Valid() && |r.refs| == |refs|
      ensures r.refs == (if CanShare(p) then refs[p := refs[p] - 1] else refs)
    {
      if !CanShare(p) then this
      else
        var refs' := refs[p := refs[p] - 1];
        if refs'[p] == 0 then
          assert forall q :: q in free + [p] <==> q in free || q == p;
          Ledger(refs', free + [p])
        else Ledger(refs', free)
    }
  }

  function RemoveAt(s: seq<int>, i: nat): seq<int>
    requires i < |s|
  {
    s[..i] + s[i + 1..]
  }

  lemma RemoveAtLaws(s: seq<int>, i: nat)
    requires i < |s|
    requires forall j, k :: 0 <= j < k < |s| ==> s[j] != s[k]
    ensures var t := RemoveAt(s, i);
      && |t| == |s| - 1
      && (forall j :: 0 <= j < |t| ==> t[j] == s[if j < i then j else j + 1])
      && (forall j, k :: 0 <= j < k < |t| ==> t[j] != t[k])
      && (forall q :: q in t <==> q in s && q != s[i])
      && multiset(t) + multiset{s[i]} == multiset(s)
  {
    var t := RemoveAt(s, i);
    assert s == s[..i] + [s[i]] + s[i + 1..];
    forall q | q in s && q != s[i]
      ensures q in t
    {
      var k :| 0 <= k < |s| && s[k] == q;
      assert t[if k < i then k else k - 1] == q;
    }
  }

  /** Position of the first occurrence of `p`. */
  function FirstIndex(s: seq<int>, p: int): (i: nat)
    requires p in s
    ensures i < |s| && s[i] == p && p !in s[..i]
  {
    if s[0] == p then 0
    else
      assert s == [s[0]] + s[1..];
      var k := FirstIndex(s[1..], p);
      assert s[..k + 1] == [s[0]] + s[1..][..k];
      k + 1
  }

  lemma {:induction false} FirstIndexUnique(s: seq<int>, p: int, i: nat)
    requires i < |s| && s[i] == p && p !in s[..i]
    ensures p in s && FirstIndex(s, p) == i
  {
    if i > 0 {
      assert s[0] in s[..i];
      assert s[..i] == [s[0]] + s[1..][..i - 1];
      FirstIndexUnique(s[1..], p, i - 1);
    }
  }

  /** A manager in which every block is free; block 0 is handed out first. */
  function FreshLedger(total: nat): (r: Ledger)
    ensures r.Valid() && |r.refs| == |r.free| == total
    ensures forall p :: 0 <= p < total ==> r.refs[p] == 0
  {
    var free := seq(total, i requires 0 <= i < total => total - 1 - i);
    var r := Ledger(seq(total, i => 0), free);
    assert r.Valid() by {
      forall p | 0 <= p < total
        ensures p in free
      {
        assert free[total - 1 - p] == p;
      }
    }
    r
  }

  /** The free list is a stack: a block given up by its last owner is the next to be handed out, and
      handing out a block and giving it up again changes nothing. */
  lemma ReleaseIsUndone(ledger: Ledger, p: int)
    requires ledger.Valid() && ledger.Has(p) && ledger.refs[p] == 1
    ensures ledger.Released(p).free != [] && ledger.Released(p).Allocated() == ledger
  {
    var r := ledger.Released(p);
    assert r.free[..|r.free| - 1] == ledger.free;
    assert r.refs[p := 1] == ledger.refs;
  }

  lemma AllocateIsUndone(ledger: Ledger)
    requires ledger.Valid() && ledger.free != []
    ensures ledger.Allocated().Released(ledger.free[|ledger.free| - 1]) == ledger
  {
    var p := ledger.free[|ledger.free| - 1];
    assert ledger.free[..|ledger.free| - 1] + [p] == ledger.free;
    assert ledger.Allocated().refs[p := 0] == ledger.refs;
  }

  class BlockManager {
    var refCounts: seq<int>
    var freeList: seq<int>

    ghost function Value(): Ledger
      reads this
    {
      Ledger(refCounts, freeList)
    }

    ghost predicate Valid()
      reads this
    {
      Value().Valid()
    }

    constructor (totalBlocks: nat)
      ensures Valid() && Value() == FreshLedger(totalBlocks)
    {
      refCounts := seq(totalBlocks, i => 0);
      var free: seq<int> := [];
      var i := totalBlocks - 1;
      while i >= 0
        invariant -1 <= i < totalBlocks
        invariant |free| == totalBlocks - 1 - i
        invariant forall k :: 0 <= k < |free| ==> free[k] == totalBlocks - 1 - k
      {
        free := free + [i];
        i := i - 1;
      }
      freeList := free;
      new;
      assert freeList == FreshLedger(totalBlocks).free;
      assert refCounts == FreshLedger(totalBlocks).refs;
    }

    method Allocate() returns (ok: bool, block: int)
      requires Valid()
      modifies this
      ensures Valid() && ok == (old(freeList) != [])
      ensures ok ==> block == old(freeList[|freeList| - 1]) && Value() == old(Value()).Allocated()
      ensures !ok ==> Value() == old(Value()) && block == NONE
    {
      if freeList == [] {
        return false, NONE;
      }
      ghost var was := Value();
      block := freeList[|freeList| - 1];
      freeList := freeList[..|freeList| - 1];
      refCounts := refCounts[block := 1];
      ok := true;
      assert Value() == was.Allocated();
    }

    method AllocateSpecific(block: int) returns (ok: bool)
      requires Valid()
      modifies this
      ensures Valid() && ok == (block in old(freeList))
      ensures Value() == if ok then old(Value()).Claimed(block) else old(Value())
    {
      if !IsValid(block) {
        return false;
      }
      var i := 0;
      while i < |freeList| && freeList[i] != block
        invariant 0 <= i <= |freeList|
        invariant block !in freeList[..i]
      {
        i := i + 1;
      }
      if i == |freeList| {
        return false;
      }
      ghost var was := Value();
      FirstIndexUnique(freeList, block, i);
      freeList := freeList[..i] + freeList[i + 1..];
      refCounts := refCounts[block := 1];
      ok := true;
      assert Value() == was.Claimed(block);
    }

    method Retain(block: int) returns (ok: bool)
      requires Valid()
      modifies this
      ensures Valid() && ok == old(Value()).CanShare(block)
      ensures Value() == old(Value()).Retained(block)
    {
      if !IsValid(block) {
        return false;
      }
      if refCounts[block] <= 0 {
        return false;
      }
      ghost var was := Value();
      refCounts := refCounts[block := refCounts[block] + 1];
      ok := true;
      assert Value() == was.Retained(block);
    }

    method Release(block: int) returns (ok: bool)
      requires Valid()
      modifies this
      ensures Valid() && ok == old(Value()).CanShare(block)
      ensures Value() == old(Value()).Released(block)
    {
      if !IsValid(block) {
        return false;
      }
      if refCounts[block] <= 0 {
        return false;
      }
      ghost var was := Value();
      refCounts := refCounts[block := refCounts[block] - 1];
      if refCounts[block] == 0 {
        freeList := freeList + [block];
      }
      ok := true;
      assert Value() == was.Released(block);
    }

    predicate IsValid(block: int)
      reads this
    {
      0 <= block < |refCounts|
    }

    function RefCount(block: int): int
      reads this
    {
      if IsValid(block) then refCounts[block] else -1
    }
  }
}
