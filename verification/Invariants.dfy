/** What holds between API calls on every run, and how single-block steps keep it. */
module Invariants {
  import opened MmuTypes
  import opened BlockManagers
  import opened BlockDirectories
  import opened ChunkPools
  import opened Contexts
  import opened Tiering

  /** Directory, pools and reference counts agree about block `p`. */
  ghost predicate BlockOk(s: Mmu, p: int)
    requires Wf(s) && s.Has(p)
  {
    var m := s.metas[p];
    if s.ledger.refs[p] == 0 then
      m == DefaultMeta() && L1Page(s, p).None? && L2Page(s, p).None?
    else
      && m.live
      && m.tier == (if m.resident then L1 else L2)
      && m.l1Frame == (if m.resident then p else NONE)
      && (L1Page(s, p).Some? ==> m.resident)
      && m.backed == L2Page(s, p).Some?
      && m.l2Slot == (if m.backed then p else NONE)
      && (m.resident && L1Page(s, p).None? ==> OrZeros(L2Page(s, p), s.cfg.blockSize) == Zeros(s.cfg.blockSize))
      && (m.pins > 0 ==> L1Page(s, p).Some?)
      && (m.resident ==> m.epoch > 0)
  }

  /** `e` is the time of the last touch of `p` in the history, 0 if it was never touched since
      it was last handed out. */
  ghost predicate LastTouched(touches: seq<int>, p: int, e: nat) {
    && e <= |touches|
    && (e > 0 ==> touches[e - 1] == p && forall k :: e <= k < |touches| ==> touches[k] != p)
  }

  ghost predicate HistoryOk(s: Mmu) {
    && s.epoch == |s.touches|
    && forall p :: 0 <= p < |s.metas| ==> LastTouched(s.touches, p, s.metas[p].epoch)
  }

  ghost predicate CountsOk(s: Mmu) {
    && s.residents == Count(s.metas, IsResident)
    && s.residents <= s.cfg.residentLimit
  }

  ghost predicate TablesOk(s: Mmu) {
    forall h :: h in s.tables ==> InRange(s.tables[h], s.cfg.blocks)
  }

  /** L2 never carves more frames than configured; L1 carves whole chunks, and no more of them
      than it takes to hold the resident blocks. */
  ghost predicate BoundsOk(s: Mmu) {
    && |s.l2.mem| <= s.cfg.l2Blocks
    && |s.l1.mem| < s.cfg.residentLimit + s.cfg.chunkBlocks
    && (forall c :: 0 <= c < |s.l1.chunks| ==> s.l1.chunks[c] == s.cfg.chunkBlocks)
  }

  ghost predicate BlocksOk(s: Mmu)
    requires Wf(s)
  {
    forall p :: s.Has(p) ==> BlockOk(s, p)
  }

  /** The invariant of every run, whatever the arguments and whichever calls fail. */
  ghost predicate Core(s: Mmu) {
    Wf(s) && BlocksOk(s) && HistoryOk(s) && CountsOk(s) && TablesOk(s) && BoundsOk(s)
  }

  lemma CoreWf(s: Mmu)
    requires Core(s)
    ensures Wf(s)
  {
  }

  lemma WfSizes(s: Mmu)
    requires Wf(s)
    ensures |s.ledger.refs| == |s.metas| == |s.l1.owner| == |s.l2.owner| == s.cfg.blocks
  {
    hide PoolOk, Ledger.Valid;
  }

  /** The bytes a reader of block `p` would see. */
  ghost function Content(s: Mmu, p: int): Page
    requires Wf(s) && s.Has(p)
  {
    OrZeros(if s.metas[p].resident then L1Page(s, p) else L2Page(s, p), s.cfg.blockSize)
  }

  /** Nothing about block `q` differs between the two states, except how many owners it has. */
  ghost predicate SameAt(s: Mmu, t: Mmu, q: int)
    requires Wf(s) && Wf(t) && s.cfg == t.cfg && s.Has(q)
  {
    && (t.ledger.refs[q] == 0 <==> s.ledger.refs[q] == 0)
    && t.metas[q] == s.metas[q]
    && t.l1.owner[q] == s.l1.owner[q]
    && L1Page(t, q) == L1Page(s, q)
    && L2Page(t, q) == L2Page(s, q)
  }

  ghost predicate SameElsewhere(s: Mmu, t: Mmu, p: int)
    requires Wf(s) && Wf(t) && s.cfg == t.cfg
  {
    forall q :: s.Has(q) && q != p ==> SameAt(s, t, q)
  }

  lemma BlocksOkByParts(s: Mmu, t: Mmu, p: int)
    requires Wf(s) && Wf(t) && s.cfg == t.cfg && BlocksOk(s)
    requires SameElsewhere(s, t, p) && (s.Has(p) ==> BlockOk(t, p))
    ensures BlocksOk(t)
  {
    hide Wf, BlockOk, L1Page, L2Page;
    forall q | t.Has(q)
      ensures BlockOk(t, q)
    {
      if q != p {
        assert SameAt(s, t, q) && BlockOk(s, q);
        BlockOkCarries(s, t, q);
      }
    }
  }

  lemma BlockOkCarries(s: Mmu, t: Mmu, q: int)
    requires Wf(s) && Wf(t) && s.cfg == t.cfg && s.Has(q) && SameAt(s, t, q) && BlockOk(s, q)
    ensures BlockOk(t, q)
    ensures Content(t, q) == Content(s, q)
  {
    hide Wf, L1Page, L2Page;
  }

  /** Replacing one entry moves the number of residents by at most one. */
  lemma ResidentsAfter(metas: seq<Meta>, p: nat, m: Meta)
    requires p < |metas|
    ensures Count(metas[p := m], IsResident) ==
            Count(metas, IsResident) - (if metas[p].resident then 1 else 0) + (if m.resident then 1 else 0)
    ensures metas[p].resident ==> Count(metas, IsResident) > 0
  {
    CountUpdate(metas, IsResident, p, m);
    CountBounds(metas, IsResident);
  }

  /** A touch moves one block to the end of the history. */
  lemma HistoryTouched(s: Mmu, p: int)
    requires HistoryOk(s) && 0 <= p < |s.metas|
    ensures HistoryOk(Touched(s, p))
  {
  }

  lemma HistorySame(s: Mmu, t: Mmu)
    requires HistoryOk(s) && t.epoch == s.epoch && t.touches == s.touches && |t.metas| == |s.metas|
    requires forall q :: 0 <= q < |s.metas| ==> t.metas[q].epoch == s.metas[q].epoch || t.metas[q].epoch == 0
    ensures HistoryOk(t)
  {
  }

  /** With every L1 frame lent to a resident block, and a resident block or a resident slot
      without one, fewer frames are lent than the limit. */
  lemma FewL1Frames(s: Mmu, p: int)
    requires Wf(s) && BlocksOk(s) && CountsOk(s) && s.Has(p) && L1Page(s, p).None?
    requires s.metas[p].resident || s.residents < s.cfg.residentLimit
    ensures Count(s.l1.owner, IsFrame) < s.cfg.residentLimit
  {
    forall q | 0 <= q < |s.l1.owner| && IsFrame(s.l1.owner[q])
      ensures IsResident(s.metas[q])
    {
      assert BlockOk(s, q);
    }
    CountImplies(s.l1.owner, IsFrame, s.metas, IsResident);
    if s.metas[p].resident {
      assert !IsFrame(s.l1.owner[p]) && IsResident(s.metas[p]);
    }
  }

  lemma L1StaysBounded(s: Mmu, p: int)
    requires Wf(s) && BlocksOk(s) && CountsOk(s) && BoundsOk(s) && s.Has(p)
    requires s.metas[p].resident || s.residents < s.cfg.residentLimit
    ensures BoundsOk(s.(l1 := AcquireL1(s, p).pool))
  {
    hide BlockOk;
    if L1Page(s, p).None? {
      FewL1Frames(s, p);
      hide *;
      AcquireCarves(s.l1, s.cfg.blockSize, s.cfg.chunkBlocks, s.os, p);
    }
  }
}
