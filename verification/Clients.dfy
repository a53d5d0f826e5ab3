/** Whole runs with their clients: who holds which mapping, what a well-behaved client does, and
    the theorem that such runs behave like contexts owning private pages. */
module Clients {
  import opened MmuTypes
  import opened BlockManagers
  import opened ChunkPools
  import opened Contexts
  import opened Tiering
  import opened Api
  import opened Invariants
  import opened Steps
  import opened Lifecycle
  import opened Sharing
  import opened Batches
  import opened Refinement
  import opened Runs

  /** A mapping a client of context `h` has not undone yet. It is exclusive if it is a write mapping
      and `h` was not forked since. */
  datatype Grant = Grant(h: Handle, mapped: MappedBlock, exclusive: bool) {
    predicate Is(h': Handle, m: MappedBlock) {
      h == h' && mapped == m
    }
  }

  datatype Client = Client(mmu: Mmu, grants: seq<Grant>)

  function GrantsOf(grants: seq<Grant>, p: int): nat {
    if grants == [] then 0
    else GrantsOf(grants[..|grants| - 1], p) + if grants[|grants| - 1].mapped.block == p then 1 else 0
  }

  predicate Holds(grants: seq<Grant>, h: Handle, m: MappedBlock) {
    exists i :: 0 <= i < |grants| && grants[i].Is(h, m)
  }

  /** Drop the last grant of mapping `m` of context `h`. */
  function RemoveGrant(grants: seq<Grant>, h: Handle, m: MappedBlock): seq<Grant> {
    if grants == [] then []
    else if grants[|grants| - 1].Is(h, m) then grants[..|grants| - 1]
    else RemoveGrant(grants[..|grants| - 1], h, m) + [grants[|grants| - 1]]
  }

  lemma {:induction false} RemoveGrantLaws(grants: seq<Grant>, h: Handle, m: MappedBlock, p: int)
    requires Holds(grants, h, m)
    ensures GrantsOf(RemoveGrant(grants, h, m), p) == GrantsOf(grants, p) - if m.block == p then 1 else 0
    ensures forall x :: x in RemoveGrant(grants, h, m) ==> x in grants
    ensures m.block == p ==> GrantsOf(grants, p) > 0
  {
    var grants0, last := grants[..|grants| - 1], grants[|grants| - 1];
    assert grants == grants0 + [last];
    if !last.Is(h, m) {
      var i :| 0 <= i < |grants| && grants[i].Is(h, m);
      assert grants0[i].Is(h, m);
      RemoveGrantLaws(grants0, h, m, p);
      var r := RemoveGrant(grants0, h, m) + [last];
      assert r[..|r| - 1] == RemoveGrant(grants0, h, m);
    }
  }

  /** The grants whose blocks somebody still owns; the others died with their blocks. */
  function StillOwned(grants: seq<Grant>, ledger: Ledger): seq<Grant> {
    if grants == [] then []
    else
      var last := grants[|grants| - 1];
      StillOwned(grants[..|grants| - 1], ledger) + if ledger.RefCount(last.mapped.block) > 0 then [last] else []
  }

  lemma {:induction false} StillOwnedCounts(grants: seq<Grant>, ledger: Ledger, p: int)
    ensures GrantsOf(StillOwned(grants, ledger), p) == if ledger.RefCount(p) > 0 then GrantsOf(grants, p) else 0
  {
    hide Ledger.RefCount;
    if grants != [] {
      StillOwnedCounts(grants[..|grants| - 1], ledger, p);
      StillOwnedCountsLast(grants[..|grants| - 1], grants[|grants| - 1], ledger, p);
      assert grants == grants[..|grants| - 1] + [grants[|grants| - 1]];
    }
  }

  lemma StillOwnedCountsLast(grants: seq<Grant>, g: Grant, ledger: Ledger, p: int)
    requires GrantsOf(StillOwned(grants, ledger), p) == if ledger.RefCount(p) > 0 then GrantsOf(grants, p) else 0
    ensures GrantsOf(StillOwned(grants + [g], ledger), p)
         == if ledger.RefCount(p) > 0 then GrantsOf(grants + [g], p) else 0
  {
    hide *;
    StillOwnedLast(grants, g, ledger);
    GrantsOfLast(StillOwned(grants, ledger), g, p);
    GrantsOfLast(grants, g, p);
  }

  lemma StillOwnedLast(grants: seq<Grant>, g: Grant, ledger: Ledger)
    ensures StillOwned(grants + [g], ledger)
         == if ledger.RefCount(g.mapped.block) > 0 then StillOwned(grants, ledger) + [g] else StillOwned(grants, ledger)
  {
    assert (grants + [g])[..|grants|] == grants;
  }

  lemma GrantsOfLast(grants: seq<Grant>, g: Grant, p: int)
    ensures GrantsOf(grants + [g], p) == GrantsOf(grants, p) + if g.mapped.block == p then 1 else 0
  {
    assert (grants + [g])[..|grants|] == grants;
  }

  lemma {:induction false} StillOwnedHeld(grants: seq<Grant>, ledger: Ledger, i: nat)
    requires i < |StillOwned(grants, ledger)|
    ensures var g := StillOwned(grants, ledger)[i]; g in grants && ledger.RefCount(g.mapped.block) > 0
  {
    var grants0, last := grants[..|grants| - 1], grants[|grants| - 1];
    assert grants == grants0 + [last];
    if i < |StillOwned(grants0, ledger)| {
      StillOwnedHeld(grants0, ledger, i);
    }
  }

  /** Forking `h` shares the blocks behind its mappings. */
  function Demoted(grants: seq<Grant>, h: Handle): seq<Grant> {
    seq(|grants|, i requires 0 <= i < |grants| => if grants[i].h == h then grants[i].(exclusive := false) else grants[i])
  }

  lemma {:induction false} DemotedCounts(grants: seq<Grant>, h: Handle, p: int)
    ensures GrantsOf(Demoted(grants, h), p) == GrantsOf(grants, p)
  {
    if grants != [] {
      DemotedCounts(grants[..|grants| - 1], h, p);
      assert Demoted(grants, h)[..|grants| - 1] == Demoted(grants[..|grants| - 1], h);
    }
  }

  lemma {:induction false} GrantsOfLaws(grants: seq<Grant>, p: int)
    ensures GrantsOf(grants, p) > 0 <==> exists i :: 0 <= i < |grants| && grants[i].mapped.block == p
  {
    if grants != [] {
      var grants0 := grants[..|grants| - 1];
      GrantsOfLaws(grants0, p);
      if i :| 0 <= i < |grants| && grants[i].mapped.block == p {
        assert i < |grants0| ==> grants0[i].mapped.block == p;
      }
      if j :| 0 <= j < |grants0| && grants0[j].mapped.block == p {
        assert grants[j].mapped.block == p;
      }
    }
  }

  lemma {:induction false} GrantsOfAppend(grants: seq<Grant>, h: Handle, ms: seq<MappedBlock>, p: int)
    ensures GrantsOf(grants + Granted(h, ms), p) == GrantsOf(grants, p) + MappingsOf(ms, p)
  {
    if ms == [] {
      assert grants + Granted(h, ms) == grants;
    } else {
      var ms0 := ms[..|ms| - 1];
      GrantsOfAppend(grants, h, ms0, p);
      var all := grants + Granted(h, ms);
      assert all[..|all| - 1] == grants + Granted(h, ms0);
    }
  }

  function Granted(h: Handle, ms: seq<MappedBlock>): seq<Grant> {
    seq(|ms|, i requires 0 <= i < |ms| => Grant(h, ms[i], HasWrite(ms[i].flags)))
  }

  ghost function ClientUnmap(c: Client, h: Handle, m: MappedBlock): (r: Client)
    requires Wf(c.mmu)
    ensures Wf(r.mmu)
  {
    Client(UnmapLogicalBlock(c.mmu, h, m).mmu,
           if Releases(c.mmu, h, m) then RemoveGrant(c.grants, h, m) else c.grants)
  }

  ghost function ClientUnmaps(c: Client, h: Handle, ms: seq<MappedBlock>): (r: Client)
    requires Wf(c.mmu)
    ensures Wf(r.mmu)
  {
    if ms == [] then c else ClientUnmap(ClientUnmaps(c, h, ms[..|ms| - 1]), h, ms[|ms| - 1])
  }

  ghost function ClientStep(c: Client, a: Action): (r: Client)
    requires Wf(c.mmu)
    ensures Wf(r.mmu)
  {
    var s, t := c.mmu, Step(c.mmu, a).mmu;
    match a
    case MapOne(h, l, flags) =>
      var r := MapLogicalBlock(s, h, l, flags);
      Client(t, if r.status.Ok? then c.grants + Granted(h, [r.mapped]) else c.grants)
    case MapMany(h, ls, flags) =>
      var r := MapLogicalBlocks(s, h, ls, flags);
      Client(t, if r.status.Ok? then c.grants + Granted(h, r.done) else c.grants)
    case Unmap(h, m) => ClientUnmap(c, h, m)
    case UnmapMany(h, ms) => ClientUnmaps(c, h, ms)
    case Destroy(_) => Client(t, StillOwned(c.grants, t.ledger))
    case Shrink(_, _) => Client(t, StillOwned(c.grants, t.ledger))
    case Fork(h, _) => Client(t, Demoted(c.grants, h))
    case _ => Client(t, c.grants)
  }

  ghost predicate MayUnmap(c: Client, h: Handle, m: MappedBlock) {
    Holds(c.grants, h, m) || !Releases(c.mmu, h, m)
  }

  ghost predicate MayUnmaps(c: Client, h: Handle, ms: seq<MappedBlock>)
    requires Wf(c.mmu)
  {
    ms == [] || (MayUnmaps(c, h, ms[..|ms| - 1]) && MayUnmap(ClientUnmaps(c, h, ms[..|ms| - 1]), h, ms[|ms| - 1]))
  }

  /** What a well-behaved client does: it undoes only mappings it was given, and stores only through
      write mappings that it has not undone, whose block was not freed, and whose context was not
      forked since. An allocation must not run out half way. */
  ghost predicate Allowed(c: Client, a: Action)
    requires Wf(c.mmu)
  {
    var s := c.mmu;
    match a
    case Create(h) => h !in s.tables
    case Fork(h, child) => child !in s.tables
    case Grow(h, num) => h !in s.tables || num > INT_MAX || num <= |s.ledger.free| || s.ledger.free == []
    case Unmap(h, m) => MayUnmap(c, h, m)
    case UnmapMany(h, ms) => MayUnmaps(c, h, ms)
    case Write(h, m, _, _) => Grant(h, m, true) in c.grants
    case _ => true
  }

  /** The mapping is sound: its pointer is the frame of its block, and an exclusive mapping is to a
      block that only its logical block owns. */
  ghost predicate GrantHolds(s: Mmu, g: Grant)
    requires Wf(s)
  {
    var m := g.mapped;
    && s.Has(m.block) && s.ledger.refs[m.block] > 0
    && m.frame == s.l1.owner[m.block]
    && (g.exclusive ==>
          && g.h in s.tables && m.logical < |s.tables[g.h]| && s.tables[g.h][m.logical] == m.block
          && s.ledger.refs[m.block] == 1)
  }

  ghost predicate AllHold(s: Mmu, grants: seq<Grant>)
    requires Wf(s)
  {
    forall i :: 0 <= i < |grants| ==> GrantHolds(s, grants[i])
  }

  ghost predicate PinsCounted(s: Mmu, grants: seq<Grant>)
    requires Wf(s)
  {
    forall p :: s.Has(p) ==> s.metas[p].pins == GrantsOf(grants, p)
  }

  /** The invariant of runs with well-behaved clients. Pins count the mappings held. */
  ghost predicate Sound(c: Client) {
    Good(c.mmu) && AllHold(c.mmu, c.grants) && PinsCounted(c.mmu, c.grants)
  }

  lemma GrantPinned(c: Client, i: nat)
    requires Sound(c) && i < |c.grants|
    ensures var p := c.grants[i].mapped.block;
      c.mmu.Has(p) && c.mmu.metas[p].pins > 0
  {
    hide PoolOk, Ledger.Valid, BlocksOk, HistoryOk, CountsOk, TablesOk, BoundsOk, Conserved;
    assert GrantHolds(c.mmu, c.grants[i]);
    GrantsOfLaws(c.grants, c.grants[i].mapped.block);
  }

  lemma UngrantedUnpinned(c: Client, p: int)
    requires Sound(c) && c.mmu.Has(p) && c.mmu.ledger.refs[p] == 0
    ensures GrantsOf(c.grants, p) == 0
  {
    hide PoolOk, Ledger.Valid, BlocksOk, HistoryOk, CountsOk, TablesOk, BoundsOk, Conserved;
    forall i | 0 <= i < |c.grants|
      ensures c.grants[i].mapped.block != p
    {
      assert GrantHolds(c.mmu, c.grants[i]);
    }
    GrantsOfLaws(c.grants, p);
  }

  /** Every mapping survives a map or prepare call. */
  lemma SharingKeepsGrants(c: Client, t: Mmu, h: Handle, l: nat)
    requires Sound(c) && Wf(t) && t.cfg == c.mmu.cfg && FramesKept(c.mmu, t) && SharingStep(c.mmu, t, h, l)
    ensures AllHold(t, c.grants)
  {
    hide PoolOk, Ledger.Valid, BlocksOk, HistoryOk, CountsOk, TablesOk, BoundsOk, Conserved, CopiesOnWrite,
         Resolve, HasWrite;
    forall i | 0 <= i < |c.grants|
      ensures GrantHolds(t, c.grants[i])
    {
      assert GrantHolds(c.mmu, c.grants[i]);
      GrantPinned(c, i);
    }
  }

  lemma PrepareSound(c: Client, h: Handle, l: nat)
    requires Sound(c)
    ensures Sound(Client(PrepareBlockForWrite(c.mmu, h, l).mmu, c.grants))
  {
    hide PoolOk, Ledger.Valid, BlocksOk, HistoryOk, CountsOk, TablesOk, BoundsOk, Conserved,
         PrepareBlockForWrite, SharingStep, GrantHolds;
    PrepareStep(c.mmu, h, l);
    PrepareRefines(c.mmu, h, l);
    SharingKeepsGrants(c, PrepareBlockForWrite(c.mmu, h, l).mmu, h, l);
  }

  lemma MapSound(c: Client, h: Handle, l: nat, flags: nat)
    requires Sound(c)
    ensures var r := MapLogicalBlock(c.mmu, h, l, flags);
      Sound(Client(r.mmu, if r.status.Ok? then c.grants + Granted(h, [r.mapped]) else c.grants))
  {
    hide PoolOk, Ledger.Valid, BlocksOk, HistoryOk, CountsOk, TablesOk, BoundsOk, Conserved, MapLogicalBlock,
         SharingStep, GrantHolds, MappedAt;
    MapStep(c.mmu, h, l, flags);
    MapRefines(c.mmu, h, l, flags);
    var r := MapLogicalBlock(c.mmu, h, l, flags);
    SharingKeepsGrants(c, r.mmu, h, l);
    if r.status.Ok? {
      MappedGrantHolds(r.mmu, h, l, flags, r.mapped);
      forall p | c.mmu.Has(p)
        ensures r.mmu.metas[p].pins == GrantsOf(c.grants + Granted(h, [r.mapped]), p)
      {
        GrantsOfAppend(c.grants, h, [r.mapped], p);
        assert MappingsOf([r.mapped], p) == if r.mapped.block == p then 1 else 0;
      }
    }
  }

  lemma MappedGrantHolds(t: Mmu, h: Handle, l: nat, flags: nat, m: MappedBlock)
    requires Core(t) && MappedAt(t, h, l, flags, m)
    ensures GrantHolds(t, Grant(h, m, HasWrite(m.flags)))
  {
    hide PoolOk, Ledger.Valid, BlocksOk, HistoryOk, CountsOk, TablesOk, BoundsOk, Resolve, HasWrite;
    ResolveLive(t, h, l);
  }

  lemma UnmapSound(c: Client, h: Handle, m: MappedBlock)
    requires Sound(c) && MayUnmap(c, h, m)
    ensures Sound(ClientUnmap(c, h, m)) && Views(ClientUnmap(c, h, m).mmu) == Views(c.mmu)
  {
    hide PoolOk, Ledger.Valid, BlocksOk, HistoryOk, CountsOk, TablesOk, BoundsOk, Conserved, UnmapLogicalBlock,
         Releases, HasWrite, Views;
    UnmapStep(c.mmu, h, m);
    UnmapRefines(c.mmu, h, m);
    if Releases(c.mmu, h, m) {
      UnmapReleaseSound(c, h, m);
    }
  }

  lemma UnmapReleaseSound(c: Client, h: Handle, m: MappedBlock)
    requires Sound(c) && Holds(c.grants, h, m) && Releases(c.mmu, h, m)
    ensures var t := UnmapLogicalBlock(c.mmu, h, m).mmu;
      var grants := RemoveGrant(c.grants, h, m);
      AllHold(t, grants) && PinsCounted(t, grants)
  {
    hide PoolOk, Ledger.Valid, BlocksOk, HistoryOk, CountsOk, TablesOk, BoundsOk, Conserved, UnmapLogicalBlock,
         Releases, HasWrite;
    UnmapStep(c.mmu, h, m);
    var t := UnmapLogicalBlock(c.mmu, h, m).mmu;
    var grants := RemoveGrant(c.grants, h, m);
    forall p | t.Has(p)
      ensures t.metas[p].pins == GrantsOf(grants, p)
    {
      RemoveGrantLaws(c.grants, h, m, p);
    }
    forall i | 0 <= i < |grants|
      ensures GrantHolds(t, grants[i])
    {
      RemoveGrantLaws(c.grants, h, m, 0);
      assert grants[i] in c.grants;
      var j :| 0 <= j < |c.grants| && c.grants[j] == grants[i];
      assert GrantHolds(c.mmu, c.grants[j]);
    }
  }

  lemma {:induction false} UnmapsSound(c: Client, h: Handle, ms: seq<MappedBlock>)
    requires Sound(c) && MayUnmaps(c, h, ms)
    ensures var d := ClientUnmaps(c, h, ms);
      && Sound(d) && Views(d.mmu) == Views(c.mmu)
      && d.mmu == UnmapLogicalBlocks(c.mmu, h, ms).mmu
  {
    hide PoolOk, Ledger.Valid, BlocksOk, HistoryOk, CountsOk, TablesOk, BoundsOk, Conserved, UnmapLogicalBlock,
         Releases, Views, AllHold, PinsCounted;
    if ms != [] {
      UnmapsSound(c, h, ms[..|ms| - 1]);
      UnmapSound(ClientUnmaps(c, h, ms[..|ms| - 1]), h, ms[|ms| - 1]);
    }
  }

  /** Mapping a list: the mappings made so far are sound alongside those held before, and the views
      are as before but for a slot whose clone failed. */
  lemma {:induction false} MapEachSound(c: Client, h: Handle, ls: seq<nat>, flags: nat)
    requires Sound(c)
    ensures var b := MapEach(c.mmu, h, ls, flags);
      && Sound(Client(b.mmu, c.grants + Granted(h, b.done)))
      && b.mmu.cfg == c.mmu.cfg
      && (BatchLost(c.mmu, h, ls, flags).Some? ==> !b.status.Ok?)
      && Views(b.mmu) == Lose(Views(c.mmu), c.mmu.cfg.blockSize, h, BatchLost(c.mmu, h, ls, flags))
  {
    hide PoolOk, Ledger.Valid, BlocksOk, HistoryOk, CountsOk, TablesOk, BoundsOk, Conserved, MapLogicalBlock,
         ViewOf, AllHold, PinsCounted, MapLoses;
    if ls == [] {
      assert c.grants + Granted(h, []) == c.grants;
    } else {
      var ls0, l := ls[..|ls| - 1], ls[|ls| - 1];
      MapEachSound(c, h, ls0, flags);
      var b := MapEach(c.mmu, h, ls0, flags);
      if b.status.Ok? {
        var d := Client(b.mmu, c.grants + Granted(h, b.done));
        MapSound(d, h, l, flags);
        MapRefines(b.mmu, h, l, flags);
        MapStepCfg(b.mmu, h, l, flags);
        var r := MapLogicalBlock(b.mmu, h, l, flags);
        if r.status.Ok? {
          assert d.grants + Granted(h, [r.mapped]) == c.grants + Granted(h, b.done + [r.mapped]);
        }
      }
    }
  }

  lemma MapStepCfg(s: Mmu, h: Handle, l: nat, flags: nat)
    requires Core(s)
    ensures MapLogicalBlock(s, h, l, flags).mmu.cfg == s.cfg
  {
    MapStep(s, h, l, flags);
  }

  /** The slot, if any, whose contents a batch loses to a failed clone. */
  ghost function BatchLost(s: Mmu, h: Handle, ls: seq<nat>, flags: nat): Option<nat>
    requires Wf(s)
  {
    if ls == [] then None
    else
      var before := MapEach(s, h, ls[..|ls| - 1], flags);
      if !before.status.Ok? then BatchLost(s, h, ls[..|ls| - 1], flags)
      else if MapLoses(before.mmu, h, ls[|ls| - 1], flags) then Some(ls[|ls| - 1])
      else None
  }

  /** The store after slot `lost` of context `h`, if there is one, was cleared. */
  ghost function Lose(v: Store, bs: nat, h: Handle, lost: Option<nat>): Store {
    if lost.Some? && h in v && lost.value < |v[h]| then v[h := v[h][lost.value := Some(Zeros(bs))]] else v
  }

  /** Undoing a batch keeps the mappings held before it. */
  lemma {:induction false} UnmapManyKeeps(s: Mmu, h: Handle, ms: seq<MappedBlock>, grants: seq<Grant>)
    requires Good(s) && AllHold(s, grants)
    ensures var t := UnmapLogicalBlocks(s, h, ms).mmu;
      Good(t) && AllHold(t, grants) && Views(t) == Views(s) && t.cfg == s.cfg
  {
    hide PoolOk, Ledger.Valid, BlocksOk, HistoryOk, CountsOk, TablesOk, BoundsOk, Conserved, UnmapLogicalBlock,
         Views, AllHold;
    if ms != [] {
      var u := UnmapLogicalBlocks(s, h, ms[..|ms| - 1]).mmu;
      UnmapManyKeeps(s, h, ms[..|ms| - 1], grants);
      UnmapRefines(u, h, ms[|ms| - 1]);
      UnmapStep(u, h, ms[|ms| - 1]);
      SameOwnersHold(u, UnmapLogicalBlock(u, h, ms[|ms| - 1]).mmu, grants);
    }
  }

  lemma SameOwnersHold(s: Mmu, t: Mmu, grants: seq<Grant>)
    requires Wf(s) && Wf(t) && AllHold(s, grants)
    requires t.cfg == s.cfg && t.ledger == s.ledger && t.tables == s.tables && t.l1.owner == s.l1.owner
    ensures AllHold(t, grants)
  {
    hide PoolOk, Ledger.Valid, HasWrite;
    forall i | 0 <= i < |grants|
      ensures GrantHolds(t, grants[i])
    {
      assert GrantHolds(s, grants[i]);
    }
  }

  lemma MapManySound(c: Client, h: Handle, ls: seq<nat>, flags: nat)
    requires Sound(c)
    ensures var r := MapLogicalBlocks(c.mmu, h, ls, flags);
      && Sound(Client(r.mmu, if r.status.Ok? then c.grants + Granted(h, r.done) else c.grants))
      && Views(r.mmu) == Lose(Views(c.mmu), c.mmu.cfg.blockSize, h, BatchLost(c.mmu, h, ls, flags))
  {
    hide PoolOk, Ledger.Valid, BlocksOk, HistoryOk, CountsOk, TablesOk, BoundsOk, Conserved, MapEach,
         UnmapLogicalBlocks, Views, AllHold, Lose, BatchLost;
    MapEachSound(c, h, ls, flags);
    var b := MapEach(c.mmu, h, ls, flags);
    if !b.status.Ok? {
      HoldPrefix(b.mmu, c.grants, Granted(h, b.done));
      UnmapManyKeeps(b.mmu, h, b.done, c.grants);
      BatchRollback(c.mmu, h, ls, flags);
    }
  }

  lemma HoldPrefix(s: Mmu, grants: seq<Grant>, more: seq<Grant>)
    requires Wf(s) && AllHold(s, grants + more)
    ensures AllHold(s, grants)
  {
    hide PoolOk, Ledger.Valid, GrantHolds;
    forall i | 0 <= i < |grants|
      ensures GrantHolds(s, grants[i])
    {
      assert (grants + more)[i] == grants[i];
    }
  }

  /** Pins across a step that moves no block that stays owned. */
  lemma SurvivorsPinned(c: Client, t: Mmu)
    requires Sound(c) && Core(t) && t.cfg == c.mmu.cfg
    requires forall p :: c.mmu.Has(p) ==> Survives(c.mmu, t, p)
    ensures PinsCounted(t, StillOwned(c.grants, t.ledger))
  {
    hide PoolOk, Ledger.Valid, HistoryOk, CountsOk, TablesOk, BoundsOk, Conserved, Content;
    forall p | t.Has(p)
      ensures t.metas[p].pins == GrantsOf(StillOwned(c.grants, t.ledger), p)
    {
      assert Survives(c.mmu, t, p);
      RefsNonNegative(t, p);
      StillOwnedCounts(c.grants, t.ledger, p);
      if t.ledger.refs[p] == 0 {
        assert BlockOk(t, p);
      }
    }
  }

  lemma RefsNonNegative(s: Mmu, p: int)
    requires Wf(s) && s.Has(p)
    ensures s.ledger.refs[p] >= 0
  {
  }

  lemma SurvivorHolds(c: Client, t: Mmu, i: nat)
    requires Sound(c) && Core(t) && t.cfg == c.mmu.cfg && i < |StillOwned(c.grants, t.ledger)|
    requires forall p :: c.mmu.Has(p) ==> Survives(c.mmu, t, p)
    ensures var g := StillOwned(c.grants, t.ledger)[i];
      var m := g.mapped;
      GrantHolds(c.mmu, g) && t.Has(m.block) && t.ledger.refs[m.block] > 0 && m.frame == t.l1.owner[m.block]
  {
    hide PoolOk, Ledger.Valid, BlocksOk, HistoryOk, CountsOk, TablesOk, BoundsOk, Conserved, Content;
    var g := StillOwned(c.grants, t.ledger)[i];
    StillOwnedHeld(c.grants, t.ledger, i);
    assert g in c.grants;
    var j :| 0 <= j < |c.grants| && c.grants[j] == g;
    assert GrantHolds(c.mmu, c.grants[j]);
    assert Survives(c.mmu, t, g.mapped.block);
  }

  /** With nothing freed no grant dies. */
  lemma {:induction false} AllStillOwned(s: Mmu, grants: seq<Grant>)
    requires Wf(s) && AllHold(s, grants)
    ensures StillOwned(grants, s.ledger) == grants
  {
    hide PoolOk, Ledger.Valid;
    if grants != [] {
      assert GrantHolds(s, grants[|grants| - 1]);
      assert grants == grants[..|grants| - 1] + [grants[|grants| - 1]];
      HoldPrefix(s, grants[..|grants| - 1], [grants[|grants| - 1]]);
      AllStillOwned(s, grants[..|grants| - 1]);
    }
  }

  lemma DestroySound(c: Client, h: Handle)
    requires Sound(c) && h in c.mmu.tables
    ensures var t := DestroyContext(c.mmu, h);
      Sound(Client(t, StillOwned(c.grants, t.ledger)))
  {
    hide PoolOk, Ledger.Valid, BlocksOk, HistoryOk, CountsOk, TablesOk, BoundsOk, Conserved, DestroyContext,
         GrantHolds, Survives, StillOwned;
    var s, t := c.mmu, DestroyContext(c.mmu, h);
    DestroyEffect(s, h);
    DestroyRefines(s, h);
    SurvivorsPinned(c, t);
    var grants := StillOwned(c.grants, t.ledger);
    forall i | 0 <= i < |grants|
      ensures GrantHolds(t, grants[i])
    {
      SurvivorHolds(c, t, i);
      DestroyedElsewhere(s, t, h, grants[i]);
    }
  }

  lemma DestroyedElsewhere(s: Mmu, t: Mmu, h: Handle, g: Grant)
    requires Wf(s) && Wf(t) && GrantHolds(s, g) && h in s.tables && t.cfg == s.cfg
    requires t.tables == s.tables - {h} && t.ledger == ReleaseEach(s.ledger, s.tables[h])
    requires t.Has(g.mapped.block) && t.ledger.refs[g.mapped.block] > 0 && g.mapped.frame == t.l1.owner[g.mapped.block]
    ensures GrantHolds(t, g)
  {
    hide PoolOk, Ledger.Valid, HasWrite;
    var p := g.mapped.block;
    ReleaseEachCounts(s.ledger, s.tables[h], p);
    if g.exclusive && g.h == h {
      Mentioned(s.tables[h], g.mapped.logical);
    }
  }

  lemma Mentioned(table: seq<int>, i: nat)
    requires i < |table|
    ensures multiset(table)[table[i]] > 0
  {
    assert table[i] in table;
  }

  lemma ShrinkSound(c: Client, h: Handle, l: nat)
    requires Sound(c)
    ensures var t := ReleaseLogicalBlock(c.mmu, h, l).mmu;
      Sound(Client(t, StillOwned(c.grants, t.ledger)))
  {
    hide PoolOk, Ledger.Valid, BlocksOk, HistoryOk, CountsOk, TablesOk, BoundsOk, Conserved,
         ReleaseLogicalBlock, GrantHolds, Survives, Resolve, StillOwned;
    ReleaseEffect(c.mmu, h, l);
    ReleaseRefines(c.mmu, h, l);
    var r := ReleaseLogicalBlock(c.mmu, h, l);
    if r.status.Ok? {
      SurvivorsPinned(c, r.mmu);
      var grants := StillOwned(c.grants, r.mmu.ledger);
      forall i | 0 <= i < |grants|
        ensures GrantHolds(r.mmu, grants[i])
      {
        SurvivorHolds(c, r.mmu, i);
        ShrunkElsewhere(c.mmu, r.mmu, h, l, grants[i]);
      }
    } else {
      AllStillOwned(c.mmu, c.grants);
    }
  }

  lemma ShrunkElsewhere(s: Mmu, t: Mmu, h: Handle, l: nat, g: Grant)
    requires Good(s) && Wf(t) && GrantHolds(s, g) && h in s.tables && l < |s.tables[h]| && s.Has(s.tables[h][l])
    requires t.cfg == s.cfg && t.tables == s.tables[h := s.tables[h][l := NONE]]
    requires t.ledger == s.ledger.Released(s.tables[h][l]) && s.ledger.refs[s.tables[h][l]] > 0
    requires t.Has(g.mapped.block) && t.ledger.refs[g.mapped.block] > 0 && g.mapped.frame == t.l1.owner[g.mapped.block]
    ensures GrantHolds(t, g)
  {
    hide PoolOk, Ledger.Valid, BlocksOk, HistoryOk, CountsOk, TablesOk, BoundsOk, Conserved, HasWrite;
  }

  lemma ForkSound(c: Client, h: Handle, child: Handle)
    requires Sound(c) && h in c.mmu.tables && child !in c.mmu.tables
    ensures Sound(Client(ForkContext(c.mmu, h, child).mmu, Demoted(c.grants, h)))
  {
    hide PoolOk, Ledger.Valid, BlocksOk, HistoryOk, CountsOk, TablesOk, BoundsOk, Content;
    var s, t := c.mmu, ForkContext(c.mmu, h, child).mmu;
    ForkCore(s, h, child);
    ForkRefines(s, h, child);
    var grants := Demoted(c.grants, h);
    forall i | 0 <= i < |grants|
      ensures GrantHolds(t, grants[i])
    {
      assert GrantHolds(s, c.grants[i]);
      ForkedElsewhere(s, t, h, child, grants[i]);
    }
    forall p | t.Has(p)
      ensures t.metas[p].pins == GrantsOf(grants, p)
    {
      assert SameAt(s, t, p);
      DemotedCounts(c.grants, h, p);
    }
  }

  lemma ForkedElsewhere(s: Mmu, t: Mmu, h: Handle, child: Handle, g: Grant)
    requires Good(s) && Wf(t) && GrantHolds(s, g) && h in s.tables && child !in s.tables
    requires t == ForkContext(s, h, child).mmu && !(g.h == h && g.exclusive)
    ensures GrantHolds(t, g)
  {
    hide PoolOk, Ledger.Valid, BlocksOk, HistoryOk, CountsOk, TablesOk, BoundsOk;
    var p := g.mapped.block;
    RetainEachCounts(s.ledger, s.tables[h], p);
    if g.exclusive && p in s.tables[h] {
      var j :| 0 <= j < |s.tables[h]| && s.tables[h][j] == p;
      SoleOwner(s.ledger, s.tables, g.h, g.mapped.logical, h, j);
    }
  }

  lemma GrowSound(c: Client, h: Handle, num: nat)
    requires Sound(c) && h in c.mmu.tables && num <= INT_MAX && num <= |c.mmu.ledger.free|
    ensures Sound(Client(AllocateBlocks(c.mmu, h, num).mmu, c.grants))
  {
    hide PoolOk, Ledger.Valid, BlocksOk, HistoryOk, CountsOk, TablesOk, BoundsOk, Conserved, AllocateBlocks,
         NextFree, Grown;
    AllocateEffect(c.mmu, h, num);
    AllocateRefines(c.mmu, h, num);
    GrownSound(c, AllocateBlocks(c.mmu, h, num).mmu, h, NextFree(c.mmu.ledger.free, num));
  }

  lemma GrownSound(c: Client, t: Mmu, h: Handle, blocks: seq<int>)
    requires Sound(c) && Core(t) && Grown(c.mmu, t, h, blocks)
    ensures AllHold(t, c.grants) && PinsCounted(t, c.grants)
  {
    hide PoolOk, Ledger.Valid, BlocksOk, HistoryOk, CountsOk, TablesOk, BoundsOk, Conserved, HasWrite, Content,
         BlockOk;
    var s := c.mmu;
    forall i | 0 <= i < |c.grants|
      ensures GrantHolds(t, c.grants[i])
    {
      assert GrantHolds(s, c.grants[i]);
      assert SameAt(s, t, c.grants[i].mapped.block);
    }
    forall p | t.Has(p)
      ensures t.metas[p].pins == GrantsOf(c.grants, p)
    {
      if p in blocks {
        var i :| 0 <= i < |blocks| && blocks[i] == p;
        assert Registered(t, blocks[i]);
        UngrantedUnpinned(c, p);
      } else {
        assert SameAt(s, t, p);
      }
    }
  }

  /** A step that changes neither ownership entries in use, nor metadata, nor frames. */
  lemma QuietSound(c: Client, t: Mmu)
    requires Sound(c) && Good(t) && t.cfg == c.mmu.cfg && t.metas == c.mmu.metas && t.l1.owner == c.mmu.l1.owner
    requires t.ledger.refs == c.mmu.ledger.refs
    requires forall h :: h in c.mmu.tables ==> h in t.tables && t.tables[h] == c.mmu.tables[h]
    ensures Sound(Client(t, c.grants))
  {
    hide PoolOk, Ledger.Valid, BlocksOk, HistoryOk, CountsOk, TablesOk, BoundsOk, Conserved, HasWrite;
    forall i | 0 <= i < |c.grants|
      ensures GrantHolds(t, c.grants[i])
    {
      assert GrantHolds(c.mmu, c.grants[i]);
    }
  }
}
