/** The memory manager refines a store in which every context owns a private sequence of optional
    pages: one lemma per API call. */
module Refinement {
  import opened MmuTypes
  import opened BlockManagers
  import opened ChunkPools
  import opened Contexts
  import opened Tiering
  import opened Api
  import opened Invariants
  import opened Paging
  import opened Steps
  import opened Lifecycle
  import opened Sharing

  type View = seq<Option<Page>>
  type Store = map<Handle, View>

  /** What a page-table entry shows. */
  ghost function Slot(s: Mmu, entry: int): Option<Page>
    requires Wf(s)
  {
    if s.Has(entry) then Some(Content(s, entry)) else None
  }

  ghost function ViewOf(s: Mmu, table: seq<int>): View
    requires Wf(s)
  {
    seq(|table|, i requires 0 <= i < |table| => Slot(s, table[i]))
  }

  ghost function Views(s: Mmu): Store
    requires Wf(s)
  {
    map h | h in s.tables :: ViewOf(s, s.tables[h])
  }

  /** The invariant under which the refinement holds. */
  ghost predicate Good(s: Mmu) {
    Core(s) && Conserved(s.ledger, s.tables)
  }

  /** Blocks that some entry of `t` names show the same in both states. */
  ghost predicate ShowsSame(s: Mmu, t: Mmu)
    requires Wf(s) && Wf(t)
  {
    forall p :: t.Has(p) && t.ledger.refs[p] > 0 ==> Slot(t, p) == Slot(s, p)
  }

  lemma SameView(s: Mmu, t: Mmu, h: Handle)
    requires Wf(s) && Wf(t) && t.cfg == s.cfg && h in t.tables && Conserved(t.ledger, t.tables) && ShowsSame(s, t)
    ensures ViewOf(t, t.tables[h]) == ViewOf(s, t.tables[h])
  {
    hide PoolOk, Ledger.Valid, Content;
    forall i | 0 <= i < |t.tables[h]|
      ensures Slot(t, t.tables[h][i]) == Slot(s, t.tables[h][i])
    {
      if t.Has(t.tables[h][i]) {
        MappedIsOwned(t.ledger, t.tables, h, i);
      }
    }
  }

  /** With unchanged tables and blocks that show the same, the store is the same. */
  lemma SameViews(s: Mmu, t: Mmu)
    requires Wf(s) && Wf(t) && t.cfg == s.cfg && t.tables == s.tables
    requires Conserved(t.ledger, t.tables) && ShowsSame(s, t)
    ensures Views(t) == Views(s)
  {
    hide PoolOk, Ledger.Valid, ViewOf, Conserved, ShowsSame;
    forall h | h in t.tables
      ensures Views(t)[h] == Views(s)[h]
    {
      SameView(s, t, h);
    }
  }

  lemma TransparentRefines(s: Mmu, t: Mmu)
    requires Good(s) && Core(t) && Transparent(s, t)
    ensures Good(t) && Views(t) == Views(s)
  {
    hide PoolOk, Ledger.Valid, BlocksOk, HistoryOk, CountsOk, TablesOk, BoundsOk, Content;
    forall p | t.Has(p) && t.ledger.refs[p] > 0
      ensures Slot(t, p) == Slot(s, p)
    {
      assert Unnoticed(s, t, p);
    }
    SameViews(s, t);
  }

  lemma RepinnedRefines(s: Mmu, t: Mmu, p: int, pins: nat)
    requires Good(s) && Core(t) && Repinned(s, t, p, pins)
    ensures Good(t) && Views(t) == Views(s)
  {
    hide PoolOk, Ledger.Valid, BlocksOk, HistoryOk, CountsOk, TablesOk, BoundsOk, Content;
    forall x | t.Has(x) && t.ledger.refs[x] > 0
      ensures Slot(t, x) == Slot(s, x)
    {
      assert x != p ==> Unnoticed(s, t, x);
    }
    SameViews(s, t);
  }

  lemma CreateRefines(s: Mmu, h: Handle)
    requires Good(s) && h !in s.tables
    ensures var t := CreateContext(s, h);
      Good(t) && Views(t) == Views(s)[h := []]
  {
    var t := CreateContext(s, h);
    CreateCore(s, h);
    CreateConserves(s.ledger, s.tables, h);
    hide PoolOk, Ledger.Valid, BlocksOk, HistoryOk, CountsOk, TablesOk, BoundsOk, Content, ViewOf;
    OneTable(s, t, h);
    assert ViewOf(t, []) == [];
  }

  /** Only the table of `h` changed, and blocks show the same. */
  lemma OneTable(s: Mmu, t: Mmu, h: Handle)
    requires Wf(s) && Wf(t) && t.cfg == s.cfg && h in t.tables && t.tables == s.tables[h := t.tables[h]]
    requires Conserved(t.ledger, t.tables)
    requires forall p :: s.Has(p) && t.ledger.refs[p] > 0 && (s.ledger.refs[p] > 0) ==> Slot(t, p) == Slot(s, p)
    requires Conserved(s.ledger, s.tables)
    ensures Views(t) == Views(s)[h := ViewOf(t, t.tables[h])]
  {
    hide PoolOk, Ledger.Valid, ViewOf, Conserved, Slot;
    forall g | g in t.tables && g != h
      ensures Views(t)[g] == Views(s)[g]
    {
      OtherView(s, t, g);
    }
  }

  lemma OtherView(s: Mmu, t: Mmu, g: Handle)
    requires Wf(s) && Wf(t) && t.cfg == s.cfg && g in t.tables && g in s.tables && t.tables[g] == s.tables[g]
    requires Conserved(t.ledger, t.tables) && Conserved(s.ledger, s.tables)
    requires forall p :: s.Has(p) && t.ledger.refs[p] > 0 && s.ledger.refs[p] > 0 ==> Slot(t, p) == Slot(s, p)
    ensures ViewOf(t, t.tables[g]) == ViewOf(s, s.tables[g])
  {
    hide PoolOk, Ledger.Valid, Content;
    forall i | 0 <= i < |t.tables[g]|
      ensures Slot(t, t.tables[g][i]) == Slot(s, t.tables[g][i])
    {
      if t.Has(t.tables[g][i]) {
        MappedIsOwned(t.ledger, t.tables, g, i);
        MappedIsOwned(s.ledger, s.tables, g, i);
      }
    }
  }

  /** Fork is a deep copy. */
  lemma ForkRefines(s: Mmu, src: Handle, h: Handle)
    requires Good(s) && src in s.tables && h !in s.tables
    ensures var r := ForkContext(s, src, h);
      r.status.Ok? && Good(r.mmu) && Views(r.mmu) == Views(s)[h := Views(s)[src]]
  {
    var t := ForkContext(s, src, h).mmu;
    ForkCore(s, src, h);
    ForkConserves(s.ledger, s.tables, src, h);
    hide PoolOk, Ledger.Valid, BlocksOk, HistoryOk, CountsOk, TablesOk, BoundsOk, Content, ViewOf;
    OneTable(s, t, h);
    OtherView(s, t, src);
  }

  /** Destroying a context leaves every other context as it was. */
  lemma DestroyRefines(s: Mmu, h: Handle)
    requires Good(s) && h in s.tables
    ensures var t := DestroyContext(s, h);
      Good(t) && Views(t) == Views(s) - {h}
  {
    var t := DestroyContext(s, h);
    DestroyEffect(s, h);
    DropConserves(s.ledger, s.tables, h);
    hide PoolOk, Ledger.Valid, BlocksOk, HistoryOk, CountsOk, TablesOk, BoundsOk, Content, ViewOf, DestroyContext;
    forall g | g in t.tables
      ensures Views(t)[g] == Views(s)[g]
    {
      forall p | s.Has(p) && t.ledger.refs[p] > 0 && s.ledger.refs[p] > 0
        ensures Slot(t, p) == Slot(s, p)
      {
        assert Survives(s, t, p);
      }
      OtherView(s, t, g);
    }
  }

  /** A successful allocation appends zero pages. */
  lemma AllocateRefines(s: Mmu, h: Handle, num: nat)
    requires Good(s) && h in s.tables && num <= INT_MAX && num <= |s.ledger.free|
    ensures var r := AllocateBlocks(s, h, num);
      && r.status.Ok? && Good(r.mmu)
      && Views(r.mmu) == Views(s)[h := Views(s)[h] + seq(num, i => Some(Zeros(s.cfg.blockSize)))]
  {
    AllocateEffect(s, h, num);
    hide PoolOk, Ledger.Valid, BlocksOk, HistoryOk, CountsOk, TablesOk, BoundsOk, Content, AllocateBlocks,
         BlockOk, NextFree, Slot;
    var t := AllocateBlocks(s, h, num).mmu;
    var blocks := NextFree(s.ledger.free, num);
    GrownRefines(s, t, h, blocks);
  }

  lemma GrownRefines(s: Mmu, t: Mmu, h: Handle, blocks: seq<int>)
    requires Good(s) && Core(t) && Grown(s, t, h, blocks)
    ensures Good(t)
    ensures Views(t) == Views(s)[h := Views(s)[h] + seq(|blocks|, i => Some(Zeros(s.cfg.blockSize)))]
  {
    hide PoolOk, Ledger.Valid, BlocksOk, HistoryOk, CountsOk, TablesOk, BoundsOk, Content, BlockOk;
    forall p | p in blocks
      ensures s.Has(p) && s.ledger.refs[p] == 0
    {
      var i :| 0 <= i < |blocks| && blocks[i] == p;
      assert Registered(t, blocks[i]);
    }
    GrowConserves(s.ledger, t.ledger, s.tables, h, blocks);
    OneTable(s, t, h);
    GrownView(s, t, h, blocks);
  }

  lemma GrownView(s: Mmu, t: Mmu, h: Handle, blocks: seq<int>)
    requires Good(s) && Core(t) && Grown(s, t, h, blocks)
    ensures ViewOf(t, t.tables[h]) == ViewOf(s, s.tables[h]) + seq(|blocks|, i => Some(Zeros(s.cfg.blockSize)))
  {
    hide PoolOk, Ledger.Valid, BlocksOk, HistoryOk, CountsOk, TablesOk, BoundsOk, Content, BlockOk;
    var table := s.tables[h];
    forall i | 0 <= i < |t.tables[h]|
      ensures Slot(t, t.tables[h][i]) == if i < |table| then Slot(s, table[i]) else Some(Zeros(s.cfg.blockSize))
    {
      if i < |table| {
        if s.Has(table[i]) {
          MappedIsOwned(s.ledger, s.tables, h, i);
          assert table[i] !in blocks;
        }
      } else {
        assert Registered(t, blocks[i - |table|]);
      }
    }
  }

  /** Releasing empties one slot. */
  lemma ReleaseRefines(s: Mmu, h: Handle, l: nat)
    requires Good(s)
    ensures var r := ReleaseLogicalBlock(s, h, l);
      && Good(r.mmu)
      && (r.status.Ok? <==> h in s.tables && l <= INT_MAX && l < |Views(s)[h]| && Views(s)[h][l].Some?)
      && Views(r.mmu) == if r.status.Ok? then Views(s)[h := Views(s)[h][l := None]] else Views(s)
  {
    ReleaseEffect(s, h, l);
    ResolvesExactly(s, h, l);
    var r := ReleaseLogicalBlock(s, h, l);
    if r.status.Ok? {
      ReleaseConserves(s.ledger, s.tables, h, l);
      hide PoolOk, Ledger.Valid, BlocksOk, HistoryOk, CountsOk, TablesOk, BoundsOk, Content,
           ReleaseLogicalBlock, Resolve, ViewOf;
      ReleasedView(s, r.mmu, h, l);
    }
  }

  lemma ReleasedView(s: Mmu, t: Mmu, h: Handle, l: nat)
    requires Good(s) && Good(t) && t.cfg == s.cfg && h in s.tables && l < |s.tables[h]|
    requires t.tables == s.tables[h := s.tables[h][l := NONE]]
    requires forall q :: s.Has(q) ==> Survives(s, t, q)
    ensures Views(t) == Views(s)[h := Views(s)[h][l := None]]
  {
    hide PoolOk, Ledger.Valid, BlocksOk, HistoryOk, CountsOk, TablesOk, BoundsOk, Content, BlockOk;
    forall p | s.Has(p) && t.ledger.refs[p] > 0
      ensures Slot(t, p) == Slot(s, p)
    {
      assert Survives(s, t, p);
    }
    OneTable(s, t, h);
    SameView(s, t, h);
    assert ViewOf(s, t.tables[h]) == ViewOf(s, s.tables[h])[l := None];
  }

  /** A logical block resolves exactly when the store has a page there. */
  lemma ResolvesExactly(s: Mmu, h: Handle, l: nat)
    requires Good(s)
    ensures Resolve(s, h, l).status.Ok? <==> h in s.tables && l <= INT_MAX && l < |Views(s)[h]| && Views(s)[h][l].Some?
    ensures Resolve(s, h, l).status.Ok? ==> Views(s)[h][l] == Some(Content(s, Resolve(s, h, l).route.block))
  {
    hide PoolOk, HistoryOk, CountsOk, BoundsOk, Content;
    if h in s.tables && l < |s.tables[h]| && s.Has(s.tables[h][l]) {
      MappedIsOwned(s.ledger, s.tables, h, l);
      assert BlockOk(s, s.tables[h][l]);
    } else if h in s.tables && l < |s.tables[h]| {
      assert InRange(s.tables[h], s.cfg.blocks);
    }
  }

  /** A copy-on-write is invisible when the clone succeeds; otherwise the one slot reads as zeros. */
  lemma CopiedRefines(s: Mmu, t: Mmu, h: Handle, l: nat, p: int, q: int, ok: bool)
    requires Good(s) && Core(t) && Copied(s, t, h, l, p, q, ok)
    ensures Good(t) && h in Views(s) && l < |Views(s)[h]|
    ensures Views(t) == if ok then Views(s) else Views(s)[h := Views(s)[h][l := Some(Zeros(s.cfg.blockSize))]]
  {
    hide PoolOk, Ledger.Valid, BlocksOk, HistoryOk, CountsOk, TablesOk, BoundsOk, Content, BlockOk, SameAt;
    CopyConserves(s.ledger, t.ledger, s.tables, h, l, p, q);
    OneTable(s, t, h);
    CopiedView(s, t, h, l, p, q, ok);
    if ok {
      assert ViewOf(t, t.tables[h]) == ViewOf(s, s.tables[h])[l := Slot(s, p)];
      assert ViewOf(s, s.tables[h])[l := Slot(s, p)] == ViewOf(s, s.tables[h]);
      assert Views(s) == Views(s)[h := ViewOf(s, s.tables[h])];
    }
  }

  lemma CopiedView(s: Mmu, t: Mmu, h: Handle, l: nat, p: int, q: int, ok: bool)
    requires Good(s) && Core(t) && Copied(s, t, h, l, p, q, ok)
    ensures ViewOf(t, t.tables[h])
         == ViewOf(s, s.tables[h])[l := if ok then Slot(s, p) else Some(Zeros(s.cfg.blockSize))]
  {
    hide PoolOk, Ledger.Valid, BlocksOk, HistoryOk, CountsOk, TablesOk, BoundsOk, Content, BlockOk, SameAt;
    var table := s.tables[h];
    forall i | 0 <= i < |table| && i != l
      ensures Slot(t, t.tables[h][i]) == Slot(s, table[i])
    {
      if s.Has(table[i]) {
        MappedIsOwned(s.ledger, s.tables, h, i);
      }
    }
  }

  /** Preparing for a write changes no view, unless the clone fails; then it returns an error and
      the prepared slot, and nothing else, reads as zeros. */
  lemma PrepareRefines(s: Mmu, h: Handle, l: nat)
    requires Good(s)
    ensures var r := PrepareBlockForWrite(s, h, l);
      && Good(r.mmu)
      && (CloneFails(s, h, l) ==> !r.status.Ok? && h in s.tables && l < |Views(s)[h]|)
      && Views(r.mmu) == if CloneFails(s, h, l) then Views(s)[h := Views(s)[h][l := Some(Zeros(s.cfg.blockSize))]]
                         else Views(s)
  {
    if CopiesOnWrite(s, h, l) {
      CopyEffect(s, h, l);
      CloneFailsExactly(s, h, l);
      var r := PrepareBlockForWrite(s, h, l);
      hide PoolOk, Ledger.Valid, BlocksOk, HistoryOk, CountsOk, TablesOk, BoundsOk, PrepareBlockForWrite,
           Copied, Views;
      CopiedRefines(s, r.mmu, h, l, Resolve(s, h, l).route.block, NextBlock(s), r.status.Ok?);
    } else {
      PrepareIdle(s, h, l);
    }
  }

  /** `(h, l)` will be copied while L2 is exhausted. */
  predicate CloneFails(s: Mmu, h: Handle, l: nat) {
    CopiesOnWrite(s, h, l) && L2Exhausted(s)
  }

  /** A copy-on-write fails exactly when L2 is exhausted, for the block it takes has no L2 page. */
  lemma CloneFailsExactly(s: Mmu, h: Handle, l: nat)
    requires Core(s) && CopiesOnWrite(s, h, l)
    ensures PrepareBlockForWrite(s, h, l).status == if L2Exhausted(s) then OutOfMemory else Ok
    ensures Acquire(s.l2, s.cfg.blockSize, s.cfg.l2Blocks, s.cfg.chunkBlocks, s.os, NextBlock(s)).status
         == PrepareBlockForWrite(s, h, l).status
  {
    hide PoolOk, BlocksOk, HistoryOk, CountsOk, TablesOk, BoundsOk, PrepareBlockForWrite, Copied, Resolve, Exhausted;
    CopyEffect(s, h, l);
    var q := NextBlock(s);
    assert s.ledger.refs[q] == 0;
    Unpaged(s, q);
    AcquireFailsExactly(s.l2, s.cfg.blockSize, s.cfg.l2Blocks, s.cfg.chunkBlocks, s.os, q);
  }

  lemma Unpaged(s: Mmu, q: int)
    requires Core(s) && s.Has(q) && s.ledger.refs[q] == 0
    ensures s.l2.owner[q] == NONE
  {
    assert BlockOk(s, q);
  }

  /** The views survive exactly when no copy meets an exhausted L2 or there was nothing to lose. */
  lemma PrepareKeepsViewsExactly(s: Mmu, h: Handle, l: nat)
    requires Good(s)
    ensures Views(PrepareBlockForWrite(s, h, l).mmu) == Views(s) <==>
            (CloneFails(s, h, l) ==> Views(s)[h][l] == Some(Zeros(s.cfg.blockSize)))
  {
    hide PoolOk, Ledger.Valid, BlocksOk, HistoryOk, CountsOk, TablesOk, BoundsOk, PrepareBlockForWrite,
         CloneFails, ViewOf;
    PrepareRefines(s, h, l);
    if CloneFails(s, h, l) {
      var v, z := Views(s), Some(Zeros(s.cfg.blockSize));
      var w := v[h := v[h][l := z]];
      if v[h][l] == z {
        assert v[h][l := z] == v[h];
        assert w == v;
      } else {
        assert w[h][l] != v[h][l];
      }
    }
  }

  /** A successful prepare yields a block with a single owner that shows what the slot showed,
      replaces that one table entry, and takes one owner from a shared block. */
  lemma PrepareContract(s: Mmu, h: Handle, l: nat)
    requires Good(s) && PrepareBlockForWrite(s, h, l).status.Ok?
    ensures var r := PrepareBlockForWrite(s, h, l);
      var p := Resolve(s, h, l).route.block;
      && r.mmu.Has(r.block) && r.mmu.ledger.refs[r.block] == 1
      && h in s.tables && l < |s.tables[h]| && s.Has(p) && s.tables[h][l] == p
      && r.mmu.tables == s.tables[h := s.tables[h][l := r.block]]
      && Content(r.mmu, r.block) == Content(s, p)
      && (s.ledger.refs[p] == 1 ==> r.block == p && r.mmu == s)
      && (s.ledger.refs[p] > 1 ==> r.block != p && s.ledger.refs[r.block] == 0
                                   && r.mmu.ledger.refs[p] == s.ledger.refs[p] - 1)
      && (forall x :: s.Has(x) && x != p && x != r.block ==> r.mmu.ledger.refs[x] == s.ledger.refs[x])
  {
    hide PoolOk, Ledger.Valid, BlocksOk, HistoryOk, CountsOk, TablesOk, BoundsOk, PrepareBlockForWrite, Content,
         Resolve, CopiesOnWrite, Conserved, SameAt;
    if CopiesOnWrite(s, h, l) {
      CopyEffect(s, h, l);
    } else {
      PrepareIdle(s, h, l);
      ResolveLive(s, h, l);
      SoleOrShared(s, h, l);
      var p := Resolve(s, h, l).route.block;
      assert s.tables[h][l := p] == s.tables[h];
      assert s.tables[h := s.tables[h]] == s.tables;
    }
  }

  lemma SoleOrShared(s: Mmu, h: Handle, l: nat)
    requires Core(s) && Resolve(s, h, l).status.Ok? && !IsShared(s, h, l)
    ensures var p := Resolve(s, h, l).route.block; s.Has(p) && s.ledger.refs[p] == 1
  {
    ResolveLive(s, h, l);
  }

  /** Mapping shows no difference either, whether it succeeds or fails, unless a clone fails. */
  lemma MapRefines(s: Mmu, h: Handle, l: nat, flags: nat)
    requires Good(s)
    ensures var r := MapLogicalBlock(s, h, l, flags);
      && Good(r.mmu)
      && (MapLoses(s, h, l, flags) ==> !r.status.Ok? && h in s.tables && l < |Views(s)[h]|)
      && Views(r.mmu) == if MapLoses(s, h, l, flags) then Views(s)[h := Views(s)[h][l := Some(Zeros(s.cfg.blockSize))]]
                         else Views(s)
  {
    hide PoolOk, Ledger.Valid, BlocksOk, HistoryOk, CountsOk, TablesOk, BoundsOk, PrepareBlockForWrite,
         MapResident, Views, CloneFails, Resolve;
    if ValidFlags(flags) && h in s.tables && l <= INT_MAX {
      if HasWrite(flags) {
        PrepareRefines(s, h, l);
        var u := PrepareBlockForWrite(s, h, l);
        if u.status.Ok? {
          MapResidentRefines(u.mmu, h, l, flags);
        }
      } else {
        MapResidentRefines(s, h, l, flags);
      }
    } else {
      LossNeedsRoute(s, h, l, flags);
    }
  }

  lemma LossNeedsRoute(s: Mmu, h: Handle, l: nat, flags: nat)
    requires Wf(s)
    ensures MapLoses(s, h, l, flags) ==> ValidFlags(flags) && HasWrite(flags) && h in s.tables && l <= INT_MAX
  {
  }

  ghost predicate MapLoses(s: Mmu, h: Handle, l: nat, flags: nat)
    requires Wf(s)
  {
    ValidFlags(flags) && HasWrite(flags) && CloneFails(s, h, l)
  }

  lemma MapResidentRefines(s: Mmu, h: Handle, l: nat, flags: nat)
    requires Good(s)
    ensures var r := MapResident(s, h, l, flags);
      Good(r.mmu) && Views(r.mmu) == Views(s)
  {
    hide PoolOk, Ledger.Valid, BlocksOk, HistoryOk, CountsOk, TablesOk, BoundsOk, MapResident, Views, Resolve;
    MapResidentEffect(s, h, l, flags);
    var r := MapResident(s, h, l, flags);
    if r.status.Ok? {
      RepinnedRefines(s, r.mmu, Resolve(s, h, l).route.block, s.metas[Resolve(s, h, l).route.block].pins + 1);
    } else {
      TransparentRefines(s, r.mmu);
    }
  }

  lemma UnmapRefines(s: Mmu, h: Handle, mapped: MappedBlock)
    requires Good(s)
    ensures var r := UnmapLogicalBlock(s, h, mapped);
      Good(r.mmu) && Views(r.mmu) == Views(s)
  {
    hide PoolOk, Ledger.Valid, BlocksOk, HistoryOk, CountsOk, TablesOk, BoundsOk, UnmapLogicalBlock, Views, Resolve;
    UnmapEffect(s, h, mapped);
    if Releases(s, h, mapped) {
      RepinnedRefines(s, UnmapLogicalBlock(s, h, mapped).mmu, mapped.block, Less(s.metas[mapped.block].pins));
    }
  }

  /** Every slot that shows block `p` changes when a byte of `p` is stored, and no other. */
  ghost function Written(s: Mmu, table: seq<int>, p: int, offset: nat, value: Byte): View
    requires Wf(s)
  {
    seq(|table|, i requires 0 <= i < |table| =>
      if s.Has(table[i]) && table[i] == p then Some(WithByte(Content(s, p), offset, value)) else Slot(s, table[i]))
  }

  lemma HostWriteViews(s: Mmu, p: int, offset: nat, value: Byte)
    requires Good(s) && s.Has(p) && s.l1.owner[p] != NONE
    ensures var t := HostWrite(s, s.l1.owner[p], offset, value);
      && Good(t)
      && Views(t) == map h | h in s.tables :: Written(s, s.tables[h], p, offset, value)
  {
    HostWriteEffect(s, s.l1.owner[p], offset, value);
    var t := HostWrite(s, s.l1.owner[p], offset, value);
    hide Ledger.Valid, BlocksOk, HistoryOk, CountsOk, TablesOk, BoundsOk, Content, HostWrite;
    forall h | h in s.tables
      ensures Views(t)[h] == Written(s, s.tables[h], p, offset, value)
    {
      forall i | 0 <= i < |s.tables[h]|
        ensures Views(t)[h][i] == Written(s, s.tables[h], p, offset, value)[i]
      {
        assert Slot(t, s.tables[h][i]) == Written(s, s.tables[h], p, offset, value)[i];
      }
    }
  }

  /** A host write into a block with one owner changes the one slot that owns it. */
  lemma HostWriteRefines(s: Mmu, h: Handle, l: nat, offset: nat, value: Byte)
    requires Good(s) && h in s.tables && l < |s.tables[h]|
    requires var p := s.tables[h][l]; s.Has(p) && s.ledger.refs[p] == 1 && s.l1.owner[p] != NONE
    ensures var p := s.tables[h][l];
      var t := HostWrite(s, s.l1.owner[p], offset, value);
      && Good(t) && Views(s)[h][l].Some?
      && Views(t) == Views(s)[h := Views(s)[h][l := Some(WithByte(Views(s)[h][l].value, offset, value))]]
  {
    hide PoolOk, Ledger.Valid, BlocksOk, HistoryOk, CountsOk, TablesOk, BoundsOk, Content, HostWrite, Written,
         Conserved;
    var p := s.tables[h][l];
    HostWriteViews(s, p, offset, value);
    forall g | g in s.tables
      ensures Written(s, s.tables[g], p, offset, value)
           == if g == h then Views(s)[h][l := Some(WithByte(Content(s, p), offset, value))] else Views(s)[g]
    {
      WrittenView(s, h, l, g, offset, value);
    }
  }

  lemma WrittenView(s: Mmu, h: Handle, l: nat, g: Handle, offset: nat, value: Byte)
    requires Good(s) && h in s.tables && l < |s.tables[h]| && g in s.tables
    requires var p := s.tables[h][l]; s.Has(p) && s.ledger.refs[p] == 1
    ensures var p := s.tables[h][l];
      Written(s, s.tables[g], p, offset, value)
      == if g == h then ViewOf(s, s.tables[h])[l := Some(WithByte(Content(s, p), offset, value))] else ViewOf(s, s.tables[g])
  {
    hide PoolOk, Ledger.Valid, BlocksOk, HistoryOk, CountsOk, TablesOk, BoundsOk, Content, Conserved;
    var p := s.tables[h][l];
    forall j | 0 <= j < |s.tables[g]| && (g, j) != (h, l)
      ensures s.tables[g][j] != p
    {
      if s.tables[g][j] == p {
        SoleOwner(s.ledger, s.tables, h, l, g, j);
      }
    }
  }

  /** The mapping still names the block behind its logical block. */
  predicate Names(s: Mmu, h: Handle, m: MappedBlock) {
    h in s.tables && m.logical < |s.tables[h]| && s.tables[h][m.logical] == m.block
  }

  /** Every slot but `(h, l)` shows the same in both stores. */
  ghost predicate OthersKept(v: Store, w: Store, h: Handle, l: nat) {
    v.Keys == w.Keys
    && forall g, j :: g in v && 0 <= j && (g, j) != (h, l) ==>
         |v[g]| == |w[g]| && (j < |v[g]| ==> v[g][j] == w[g][j])
  }

  /** A store through the pointer of a mapping, to a byte that changes, is confined to the slot of the
      mapping exactly when its block has one owner and the mapping still names it. Otherwise some
      other slot shows the block. */
  lemma WriteIsolatedExactly(s: Mmu, h: Handle, m: MappedBlock, offset: nat, value: Byte)
    requires Good(s) && s.Has(m.block) && s.ledger.refs[m.block] > 0 && m.frame == s.l1.owner[m.block] != NONE
    requires WithByte(Content(s, m.block), offset, value) != Content(s, m.block)
    ensures var t := HostWrite(s, m.frame, offset, value);
      s.ledger.refs[m.block] == 1 && Names(s, h, m) <==> OthersKept(Views(s), Views(t), h, m.logical)
  {
    hide PoolOk, Ledger.Valid, BlocksOk, HistoryOk, CountsOk, TablesOk, BoundsOk, Content, HostWrite;
    var p := m.block;
    HostWriteViews(s, p, offset, value);
    if s.ledger.refs[p] == 1 && Names(s, h, m) {
      HostWriteRefines(s, h, m.logical, offset, value);
    } else {
      var g, j := ShownElsewhere(s, h, m);
      var t := HostWrite(s, m.frame, offset, value);
      assert Views(t)[g][j] == Written(s, s.tables[g], p, offset, value)[j];
      assert Views(t)[g][j] != Views(s)[g][j];
    }
  }

  lemma ShownElsewhere(s: Mmu, h: Handle, m: MappedBlock) returns (g: Handle, j: nat)
    requires Good(s) && s.Has(m.block) && s.ledger.refs[m.block] > 0
    requires !(s.ledger.refs[m.block] == 1 && Names(s, h, m))
    ensures g in s.tables && j < |s.tables[g]| && s.tables[g][j] == m.block && (g, j) != (h, m.logical)
  {
    hide PoolOk, Ledger.Valid, BlocksOk, HistoryOk, CountsOk, TablesOk, BoundsOk, Occurrences;
    if Names(s, h, m) {
      g, j := OtherOwner(s.ledger, s.tables, h, m.logical);
    } else {
      g, j := SomeMention(s.tables, m.block);
    }
  }

  /** A load through the pointer of a pinned mapping that still names its block reads what the view
      shows. */
  lemma LoadShowsView(s: Mmu, h: Handle, m: MappedBlock)
    requires Good(s) && Names(s, h, m) && s.Has(m.block)
    requires s.metas[m.block].pins > 0 && m.frame == s.l1.owner[m.block]
    ensures 0 <= m.frame < |s.l1.mem|
    ensures Views(s)[h][m.logical] == Some(s.l1.mem[m.frame])
  {
    hide Ledger.Valid, HistoryOk, CountsOk, TablesOk, BoundsOk, Conserved;
    assert BlockOk(s, m.block);
  }
}
