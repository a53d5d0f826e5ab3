/** Eviction is exactly least-recently-used over whole runs. */
module Lru {
  import opened MmuTypes
  import opened BlockDirectories
  import opened ChunkPools
  import opened Tiering
  import opened Api
  import opened Invariants
  import opened Paging
  import opened Lifecycle
  import opened Runs

  function Without(s: seq<int>, x: int): seq<int> {
    if s == [] then []
    else Without(s[..|s| - 1], x) + if s[|s| - 1] == x then [] else [s[|s| - 1]]
  }

  /** The blocks ever touched, least recently touched first: a touch moves its block to the end. */
  function Recency(touches: seq<int>): seq<int> {
    if touches == [] then []
    else Without(Recency(touches[..|touches| - 1]), touches[|touches| - 1]) + [touches[|touches| - 1]]
  }

  /** First block of the list that may be evicted. */
  function FirstEvictable(metas: seq<Meta>, protected: int, list: seq<int>): int {
    if list == [] then NONE
    else if 0 <= list[0] < |metas| && list[0] != protected && Evictable(metas[list[0]]) then list[0]
    else FirstEvictable(metas, protected, list[1..])
  }

  /** Time of the last touch of `p`, 0 if there is none. */
  function LastOf(touches: seq<int>, p: int): nat {
    if touches == [] then 0
    else if touches[|touches| - 1] == p then |touches|
    else LastOf(touches[..|touches| - 1], p)
  }

  lemma {:induction false} LastOfBound(touches: seq<int>, p: int)
    ensures LastOf(touches, p) <= |touches|
  {
    if touches != [] {
      LastOfBound(touches[..|touches| - 1], p);
    }
  }

  lemma {:induction false} LastTouchedIsLastOf(touches: seq<int>, p: int, e: nat)
    requires LastTouched(touches, p, e) && e > 0
    ensures LastOf(touches, p) == e
  {
    if touches[|touches| - 1] != p {
      LastTouchedIsLastOf(touches[..|touches| - 1], p, e);
    } else {
      assert e == |touches|;
    }
  }

  /** Increasing in the time of last touch. */
  ghost predicate Ordered(list: seq<int>, touches: seq<int>) {
    forall i, j :: 0 <= i < j < |list| ==> LastOf(touches, list[i]) < LastOf(touches, list[j])
  }

  lemma {:induction false} WithoutOrdered(list: seq<int>, touches: seq<int>, x: int)
    requires Ordered(list, touches)
    ensures Ordered(Without(list, x), touches)
    ensures forall y :: y in Without(list, x) <==> y in list && y != x
  {
    if list != [] {
      var list0 := list[..|list| - 1];
      WithoutOrdered(list0, touches, x);
      assert list == list0 + [list[|list| - 1]];
      forall y | y in list0
        ensures LastOf(touches, y) < LastOf(touches, list[|list| - 1])
      {
        var i :| 0 <= i < |list0| && list0[i] == y;
        assert list[i] == y;
      }
    }
  }

  /** The recency list holds the touched blocks, each once, in the order of their last touches. */
  lemma {:induction false} RecencyLaws(touches: seq<int>)
    ensures Ordered(Recency(touches), touches)
    ensures forall p :: p in Recency(touches) <==> LastOf(touches, p) > 0
  {
    hide Ordered;
    if touches == [] {
      NothingOrdered(touches);
    } else {
      RecencyLaws(touches[..|touches| - 1]);
      RecencyStep(touches[..|touches| - 1], touches[|touches| - 1], Recency(touches[..|touches| - 1]));
      assert touches == touches[..|touches| - 1] + [touches[|touches| - 1]];
    }
  }

  lemma NothingOrdered(touches: seq<int>)
    ensures Ordered([], touches)
  {
  }

  lemma LastOfSnoc(touches: seq<int>, x: int, p: int)
    ensures LastOf(touches + [x], p) == if p == x then |touches| + 1 else LastOf(touches, p)
  {
    assert (touches + [x])[..|touches|] == touches;
  }

  lemma RecencyStep(touches: seq<int>, x: int, list: seq<int>)
    requires Ordered(list, touches) && forall p :: p in list <==> LastOf(touches, p) > 0
    ensures var r := Without(list, x) + [x];
      Ordered(r, touches + [x]) && forall p :: p in r <==> LastOf(touches + [x], p) > 0
  {
    WithoutOrdered(list, touches, x);
    hide LastOf, Without;
    var rest := Without(list, x);
    forall p
      ensures LastOf(touches + [x], p) == if p == x then |touches| + 1 else LastOf(touches, p)
      ensures LastOf(touches, p) <= |touches|
    {
      LastOfSnoc(touches, x, p);
      LastOfBound(touches, p);
    }
    forall i | 0 <= i < |rest|
      ensures rest[i] != x
    {
      assert rest[i] in rest;
    }
  }

  /** No two touched blocks share an epoch, and the epoch orders blocks by their last touch. */
  lemma EpochsDistinct(s: Mmu, p: int, q: int)
    requires Core(s) && s.Has(p) && s.Has(q) && p != q && s.metas[p].epoch > 0
    ensures s.metas[p].epoch != s.metas[q].epoch
    ensures s.metas[p].epoch == LastOf(s.touches, p) <= s.epoch
  {
    hide PoolOk, BlocksOk, CountsOk, TablesOk, BoundsOk;
    LastTouchedIsLastOf(s.touches, p, s.metas[p].epoch);
  }

  lemma {:induction false} FirstEvictableLaws(metas: seq<Meta>, protected: int, list: seq<int>, touches: seq<int>)
    requires Ordered(list, touches)
    ensures var f := FirstEvictable(metas, protected, list);
      && (f == NONE ==> forall q :: q in list && 0 <= q < |metas| && q != protected ==> !Evictable(metas[q]))
      && (f != NONE ==> f in list && 0 <= f < |metas| && f != protected && Evictable(metas[f]))
      && (f != NONE ==> forall q :: q in list && 0 <= q < |metas| && q != protected && Evictable(metas[q]) ==>
            q == f || LastOf(touches, f) < LastOf(touches, q))
  {
    if list != [] {
      assert list == [list[0]] + list[1..];
      assert forall q :: q in list[1..] ==> LastOf(touches, list[0]) < LastOf(touches, q);
      FirstEvictableLaws(metas, protected, list[1..], touches);
    }
  }

  /** The victim is the first evictable block of the recency list, and there is none exactly when
      every other resident block is pinned. */
  lemma VictimIsLeastRecent(s: Mmu, protected: int)
    requires Core(s)
    ensures Victim(s.metas, protected, s.cfg.blocks) == FirstEvictable(s.metas, protected, Recency(s.touches))
    ensures Victim(s.metas, protected, s.cfg.blocks) == NONE <==>
            forall q :: s.Has(q) && s.metas[q].resident && q != protected ==> s.metas[q].pins > 0
  {
    var v := Victim(s.metas, protected, s.cfg.blocks);
    RecencyLaws(s.touches);
    FirstEvictableLaws(s.metas, protected, Recency(s.touches), s.touches);
    var f := FirstEvictable(s.metas, protected, Recency(s.touches));
    forall q | s.Has(q) && s.metas[q].resident
      ensures s.metas[q].live && q in Recency(s.touches) && LastOf(s.touches, q) == s.metas[q].epoch
    {
      ResidentTouched(s, q);
    }
    hide PoolOk, BlocksOk, CountsOk, TablesOk, BoundsOk, HistoryOk, Recency, FirstEvictable, LastOf, Victim;
    if v != NONE {
      assert Evictable(s.metas[v]) && f != NONE;
    }
  }

  lemma ResidentTouched(s: Mmu, q: int)
    requires Core(s) && s.Has(q) && s.metas[q].resident
    ensures s.metas[q].live && s.metas[q].epoch > 0 && LastOf(s.touches, q) == s.metas[q].epoch
    ensures q in Recency(s.touches)
  {
    hide PoolOk, CountsOk, TablesOk, BoundsOk;
    assert BlockOk(s, q);
    LastTouchedIsLastOf(s.touches, q, s.metas[q].epoch);
    RecencyLaws(s.touches);
  }

  /** In every reachable state, whoever must make room evicts the least recently used block. */
  lemma RunEvictsLru(cfg: Config, os: Os, actions: seq<Action>, p: int)
    requires ConfigOk(cfg)
    ensures var s := Run(Initial(cfg, os), actions);
      var v := FirstEvictable(s.metas, p, Recency(s.touches));
      && |s.touches| == s.epoch
      && (s.residents == s.cfg.residentLimit ==>
            MakeRoom(s, p) == if v == NONE then Outcome(OutOfMemory, s) else MoveBlockToL2(s, v))
  {
    hide Initial, Run, PoolOk, BlocksOk, TablesOk, BoundsOk, MakeRoom, MoveBlockToL2, Victim, FirstEvictable, Recency;
    InitialCore(cfg, os);
    RunCore(Initial(cfg, os), actions);
    var s := Run(Initial(cfg, os), actions);
    VictimIsLeastRecent(s, p);
    MakeRoomOnce(s, p);
  }
}
