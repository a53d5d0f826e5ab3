/** The central theorem: runs with well-behaved clients are runs of a store in which each context
    owns a private sequence of optional pages. */
module Isolation {
  import opened MmuTypes
  import opened BlockManagers
  import opened ChunkPools
  import opened Contexts
  import opened Tiering
  import opened Api
  import opened Invariants
  import opened Steps
  import opened Lifecycle
  import opened Sharing
  import opened Batches
  import opened Refinement
  import opened Runs
  import opened Exactness
  import opened Clients
  import opened Answers

  /** One step of the store. Fork is a deep copy, growing appends zero pages, releasing empties a
      slot, a host store changes one byte of one page, and mapping and unmapping do nothing. The
      store does not know how much memory there is: `ok` says whether a request to grow succeeded,
      and `lost` names the slot whose contents a failed copy-on-write dropped. */
  ghost function StoreStep(v: Store, bs: nat, a: Action, ok: bool, lost: Option<nat>): Store {
    match a
    case Create(h) => v[h := []]
    case Destroy(h) => v - {h}
    case Fork(h, child) => if h in v then v[child := v[h]] else v
    case Grow(h, num) => if ok && h in v then v[h := v[h] + seq(num, i => Some(Zeros(bs)))] else v
    case Shrink(h, l) => if HasPage(v, h, l) && l <= INT_MAX then v[h := v[h][l := None]] else v
    case Prepare(h, _) => Lose(v, bs, h, lost)
    case MapOne(h, _, _) => Lose(v, bs, h, lost)
    case MapMany(h, _, _) => Lose(v, bs, h, lost)
    case Unmap(_, _) => v
    case UnmapMany(_, _) => v
    case Write(h, m, offset, value) =>
      if HasPage(v, h, m.logical) then
        v[h := v[h][m.logical := Some(WithByte(v[h][m.logical].value, offset, value))]]
      else v
  }

  ghost predicate HasPage(v: Store, h: Handle, l: nat) {
    h in v && l < |v[h]| && v[h][l].Some?
  }

  /** The slot that loses its contents in this step. */
  ghost function LostBy(s: Mmu, a: Action): Option<nat>
    requires Wf(s)
  {
    match a
    case Prepare(h, l) => if CloneFails(s, h, l) then Some(l) else None
    case MapOne(h, l, flags) => if MapLoses(s, h, l, flags) then Some(l) else None
    case MapMany(h, ls, flags) => BatchLost(s, h, ls, flags)
    case _ => None
  }

  ghost function ClientRun(c: Client, actions: seq<Action>): (r: Client)
    requires Wf(c.mmu)
    ensures Wf(r.mmu)
  {
    if actions == [] then c
    else ClientStep(ClientRun(c, actions[..|actions| - 1]), actions[|actions| - 1])
  }

  ghost predicate WellBehaved(c: Client, actions: seq<Action>)
    requires Wf(c.mmu)
  {
    actions == [] ||
    (WellBehaved(c, actions[..|actions| - 1]) && Allowed(ClientRun(c, actions[..|actions| - 1]), actions[|actions| - 1]))
  }

  /** The state a client sees is the state the memory manager is in. */
  lemma {:induction false} ClientRunIsRun(c: Client, actions: seq<Action>)
    requires Sound(c) && WellBehaved(c, actions)
    ensures Sound(ClientRun(c, actions)) && ClientRun(c, actions).mmu == Run(c.mmu, actions)
  {
    hide PoolOk, Ledger.Valid, BlocksOk, HistoryOk, CountsOk, TablesOk, BoundsOk, Conserved, Step, ClientStep,
         Allowed, AllHold, PinsCounted;
    if actions != [] {
      ClientRunIsRun(c, actions[..|actions| - 1]);
      StepIsolates(ClientRun(c, actions[..|actions| - 1]), actions[|actions| - 1]);
    }
  }

  lemma GrowIsolates(c: Client, h: Handle, num: nat)
    requires Sound(c) && Allowed(c, Grow(h, num))
    ensures var r := AllocateBlocks(c.mmu, h, num);
      && Sound(Client(r.mmu, c.grants))
      && Views(r.mmu) == StoreStep(Views(c.mmu), c.mmu.cfg.blockSize, Grow(h, num), r.status.Ok?, None)
      && (r.status.Ok? <==> h in c.mmu.tables && num <= INT_MAX && num <= |c.mmu.ledger.free|)
  {
    hide PoolOk, Ledger.Valid, BlocksOk, HistoryOk, CountsOk, TablesOk, BoundsOk, Conserved, NextFree, ViewOf,
         AllHold, PinsCounted;
    var s := c.mmu;
    if h in s.tables && num <= INT_MAX {
      if num <= |s.ledger.free| {
        hide AllocateBlocks;
        GrowSound(c, h, num);
        AllocateRefines(s, h, num);
      } else {
        hide AllocateBlocks;
        AllocateFails(s, h, num);
        FullGrowIsolates(c, h, num);
      }
    }
  }

  /** Growing when nothing is free at all. */
  lemma FullGrowIsolates(c: Client, h: Handle, num: nat)
    requires Sound(c) && h in c.mmu.tables && num <= INT_MAX && num > 0 && c.mmu.ledger.free == []
    ensures var t := AllocateBlocks(c.mmu, h, num).mmu;
      Sound(Client(t, c.grants)) && Views(t) == Views(c.mmu)
  {
    hide PoolOk, Ledger.Valid, BlocksOk, HistoryOk, CountsOk, TablesOk, BoundsOk, AllocateBlocks, AllHold,
         PinsCounted, Content, ViewOf;
    var s, t := c.mmu, AllocateBlocks(c.mmu, h, num).mmu;
    AllocateFails(s, h, num);
    assert s.tables[h] + NextFree(s.ledger.free, 0) == s.tables[h];
    assert t.tables == s.tables;
    forall p | s.Has(p)
      ensures t.metas[p] == s.metas[p] && t.l1.owner[p] == s.l1.owner[p] && Slot(t, p) == Slot(s, p)
    {
      assert SameAt(s, t, p);
    }
    assert t.metas == s.metas && t.l1.owner == s.l1.owner by {
      WfSizes(s);
      WfSizes(t);
    }
    QuietSound(c, t);
    SameViews(s, t);
  }

  lemma WriteIsolates(c: Client, h: Handle, m: MappedBlock, offset: nat, value: Byte)
    requires Sound(c) && Allowed(c, Write(h, m, offset, value))
    ensures var t := HostWrite(c.mmu, m.frame, offset, value);
      && Sound(Client(t, c.grants))
      && Views(t) == StoreStep(Views(c.mmu), c.mmu.cfg.blockSize, Write(h, m, offset, value), true, None)
  {
    hide PoolOk, Ledger.Valid, BlocksOk, HistoryOk, CountsOk, TablesOk, BoundsOk, AllHold, PinsCounted, Content,
         HasWrite, HostWrite, Conserved;
    var s, t := c.mmu, HostWrite(c.mmu, m.frame, offset, value);
    var i :| 0 <= i < |c.grants| && c.grants[i] == Grant(h, m, true);
    GrantPinned(c, i);
    HeldGrant(c, i);
    FrameOfPinned(s, m.block);
    HostWriteRefines(s, h, m.logical, offset, value);
    HostWriteEffect(s, m.frame, offset, value);
    QuietSound(c, t);
  }

  lemma HeldGrant(c: Client, i: nat)
    requires Sound(c) && i < |c.grants|
    ensures GrantHolds(c.mmu, c.grants[i])
  {
    hide PoolOk, Ledger.Valid, BlocksOk, HistoryOk, CountsOk, TablesOk, BoundsOk, Conserved, GrantHolds;
  }

  lemma FrameOfPinned(s: Mmu, p: int)
    requires Core(s) && s.Has(p) && s.metas[p].pins > 0
    ensures s.l1.owner[p] != NONE && s.metas[p].live && s.metas[p].resident && s.ledger.refs[p] > 0
  {
    assert BlockOk(s, p);
  }

  /** One step of the memory manager is one step of the store, and keeps mappings sound. */
  lemma StepIsolates(c: Client, a: Action)
    requires Sound(c) && Allowed(c, a)
    ensures var d := ClientStep(c, a);
      && Sound(d) && d.mmu == Step(c.mmu, a).mmu && d.mmu.cfg == c.mmu.cfg
      && Views(d.mmu) == StoreStep(Views(c.mmu), c.mmu.cfg.blockSize, a, Step(c.mmu, a).status.Ok?, LostBy(c.mmu, a))
  {
    hide PoolOk, Ledger.Valid, BlocksOk, HistoryOk, CountsOk, TablesOk, BoundsOk, Conserved, AllHold,
         PinsCounted, ViewOf, StillOwned, Demoted;
    hide CreateContext, DestroyContext, ForkContext, AllocateBlocks, ReleaseLogicalBlock, PrepareBlockForWrite,
         MapLogicalBlock, MapLogicalBlocks, UnmapLogicalBlock, UnmapLogicalBlocks, HostWrite;
    StepCfg(c.mmu, a);
    match a
    case Create(h) => CreateIsolates(c, h);
    case Destroy(h) => DestroyIsolates(c, h);
    case Fork(h, child) => ForkIsolates(c, h, child);
    case Grow(h, num) => GrowIsolates(c, h, num);
    case Shrink(h, l) => ShrinkSound(c, h, l); ReleaseRefines(c.mmu, h, l); SameDomain(c.mmu);
    case Prepare(h, l) => PrepareSound(c, h, l); PrepareRefines(c.mmu, h, l); SameDomain(c.mmu);
    case MapOne(h, l, flags) => MapSound(c, h, l, flags); MapRefines(c.mmu, h, l, flags); SameDomain(c.mmu);
    case MapMany(h, ls, flags) => MapManySound(c, h, ls, flags);
    case Unmap(h, m) => UnmapSound(c, h, m);
    case UnmapMany(h, ms) => UnmapsSound(c, h, ms);
    case Write(h, m, offset, value) => WriteIsolates(c, h, m, offset, value);
  }

  lemma SameDomain(s: Mmu)
    requires Wf(s)
    ensures forall h :: h in Views(s) <==> h in s.tables
  {
  }

  lemma CreateIsolates(c: Client, h: Handle)
    requires Sound(c) && h !in c.mmu.tables
    ensures var t := CreateContext(c.mmu, h);
      Sound(Client(t, c.grants)) && Views(t) == Views(c.mmu)[h := []]
  {
    hide PoolOk, Ledger.Valid, BlocksOk, HistoryOk, CountsOk, TablesOk, BoundsOk, Conserved, AllHold,
         PinsCounted, ViewOf;
    CreateRefines(c.mmu, h);
    QuietSound(c, CreateContext(c.mmu, h));
  }

  lemma DestroyIsolates(c: Client, h: Handle)
    requires Sound(c)
    ensures var t := DestroyContext(c.mmu, h);
      Sound(Client(t, StillOwned(c.grants, t.ledger))) && Views(t) == Views(c.mmu) - {h}
  {
    hide PoolOk, Ledger.Valid, BlocksOk, HistoryOk, CountsOk, TablesOk, BoundsOk, Conserved, AllHold,
         PinsCounted, ViewOf, StillOwned, Demoted;
    if h in c.mmu.tables {
      DestroySound(c, h);
      DestroyRefines(c.mmu, h);
    } else {
      DestroyNothing(c.mmu, h);
      AllStillOwned(c.mmu, c.grants);
      assert Views(c.mmu) - {h} == Views(c.mmu);
    }
  }

  lemma ForkIsolates(c: Client, h: Handle, child: Handle)
    requires Sound(c) && child !in c.mmu.tables
    ensures var t := ForkContext(c.mmu, h, child).mmu;
      && Sound(Client(t, Demoted(c.grants, h)))
      && Views(t) == if h in Views(c.mmu) then Views(c.mmu)[child := Views(c.mmu)[h]] else Views(c.mmu)
  {
    hide PoolOk, Ledger.Valid, BlocksOk, HistoryOk, CountsOk, TablesOk, BoundsOk, Conserved, ViewOf;
    if h in c.mmu.tables {
      ForkSound(c, h, child);
      ForkRefines(c.mmu, h, child);
    } else {
      ForkNothing(c, h);
    }
  }

  /** A context that does not exist has only mappings left over from an earlier life of its handle,
      and none of them is exclusive. */
  lemma ForkNothing(c: Client, h: Handle)
    requires Sound(c) && h !in c.mmu.tables
    ensures Demoted(c.grants, h) == c.grants
  {
    hide PoolOk, Ledger.Valid, BlocksOk, HistoryOk, CountsOk, TablesOk, BoundsOk, Conserved;
    forall i | 0 <= i < |c.grants|
      ensures Demoted(c.grants, h)[i] == c.grants[i]
    {
      assert GrantHolds(c.mmu, c.grants[i]);
    }
  }

  /** The run of the store alongside a run of the memory manager. */
  ghost function StoreRun(v: Store, c: Client, actions: seq<Action>): Store
    requires Wf(c.mmu)
  {
    if actions == [] then v
    else
      var s := ClientRun(c, actions[..|actions| - 1]).mmu;
      var a := actions[|actions| - 1];
      StoreStep(StoreRun(v, c, actions[..|actions| - 1]), c.mmu.cfg.blockSize, a, Step(s, a).status.Ok?, LostBy(s, a))
  }

  /** A client that loads through a mapping it holds reads what the store shows, as long as the mapping
      still names its block; an exclusive one always does. */
  ghost predicate LoadsShow(v: Store, d: Client) {
    forall i :: 0 <= i < |d.grants| ==> LoadShows(v, d.mmu, d.grants[i])
  }

  ghost predicate LoadShows(v: Store, s: Mmu, g: Grant) {
    && (g.exclusive ==> Names(s, g.h, g.mapped))
    && (Names(s, g.h, g.mapped) ==>
          && 0 <= g.mapped.frame < |s.l1.mem|
          && HasPage(v, g.h, g.mapped.logical)
          && v[g.h][g.mapped.logical].value == s.l1.mem[g.mapped.frame])
  }

  lemma SoundLoads(d: Client)
    requires Sound(d)
    ensures LoadsShow(Views(d.mmu), d)
  {
    hide PoolOk, Ledger.Valid, BlocksOk, HistoryOk, CountsOk, TablesOk, BoundsOk, Conserved, AllHold, PinsCounted;
    forall i | 0 <= i < |d.grants|
      ensures LoadShows(Views(d.mmu), d.mmu, d.grants[i])
    {
      var g := d.grants[i];
      HeldGrant(d, i);
      GrantPinned(d, i);
      if Names(d.mmu, g.h, g.mapped) {
        LoadShowsView(d.mmu, g.h, g.mapped);
      }
    }
  }

  /** What a client is granted by a step: for a map that succeeds one usable mapping per block of the
      list, in the order of the list, and nothing for one that fails. */
  ghost predicate Granting(c: Client, d: Client, a: Action)
    requires Wf(c.mmu) && Wf(d.mmu)
  {
    match a
    case MapOne(h, l, flags) => if Step(c.mmu, a).status.Ok? then GrantedFor(c, d, h, [l], flags) else d.grants == c.grants
    case MapMany(h, ls, flags) => if Step(c.mmu, a).status.Ok? then GrantedFor(c, d, h, ls, flags) else d.grants == c.grants
    case _ => true
  }

  ghost predicate GrantedFor(c: Client, d: Client, h: Handle, ls: seq<nat>, flags: nat)
    requires Wf(d.mmu)
  {
    && |d.grants| == |c.grants| + |ls| && c.grants <= d.grants
    && forall i :: 0 <= i < |ls| ==>
         var g := d.grants[|c.grants| + i];
         g.h == h && g.exclusive == HasWrite(flags) && MapsTo(d.mmu, h, ls[i], flags, g.mapped)
  }

  lemma StepGrants(c: Client, a: Action)
    requires Sound(c)
    ensures Granting(c, ClientStep(c, a), a)
  {
    hide Core, Wf, Conserved, AllHold, PinsCounted, MapLogicalBlock, MapLogicalBlocks, MapsTo, HasWrite, MapAt, Run;
    CoreWf(c.mmu);
    match a
    case MapOne(h, l, flags) =>
      if MapLogicalBlock(c.mmu, h, l, flags).status.Ok? {
        MappedMapsTo(c.mmu, h, l, flags);
        MapsToFlags(MapLogicalBlock(c.mmu, h, l, flags).mmu, h, l, flags, MapLogicalBlock(c.mmu, h, l, flags).mapped);
      }
    case MapMany(h, ls, flags) =>
      MapBatchAnswers(c.mmu, h, ls, flags);
      var r := MapLogicalBlocks(c.mmu, h, ls, flags);
      if r.status.Ok? {
        forall i | 0 <= i < |ls|
          ensures r.done[i].flags == flags
        {
          MapsToFlags(r.mmu, h, ls[i], flags, r.done[i]);
        }
      }
    case _ =>
  }

  lemma MapsToFlags(t: Mmu, h: Handle, l: nat, flags: nat, m: MappedBlock)
    requires Wf(t) && MapsTo(t, h, l, flags, m)
    ensures m.flags == flags && m.logical == l
  {
    hide Wf, Resolve;
    WfSizes(t);
  }

  /** Every step of the run grants so. */
  ghost predicate GrantsInOrder(c: Client, actions: seq<Action>)
    requires Wf(c.mmu)
  {
    actions == [] ||
    (GrantsInOrder(c, actions[..|actions| - 1]) &&
     Granting(ClientRun(c, actions[..|actions| - 1]), ClientRun(c, actions), actions[|actions| - 1]))
  }

  /** Refinement over whole runs. */
  lemma {:induction false} RunIsolates(c: Client, actions: seq<Action>)
    requires Sound(c) && WellBehaved(c, actions)
    ensures var d := ClientRun(c, actions);
      && Sound(d) && d.mmu.cfg == c.mmu.cfg
      && Views(d.mmu) == StoreRun(Views(c.mmu), c, actions)
      && LoadsShow(StoreRun(Views(c.mmu), c, actions), d)
      && GrantsInOrder(c, actions)
  {
    hide PoolOk, Ledger.Valid, BlocksOk, HistoryOk, CountsOk, TablesOk, BoundsOk, Conserved, Step, ClientStep,
         Allowed, AllHold, PinsCounted, StoreStep, LostBy, Views, LoadsShow, Granting;
    if actions != [] {
      RunIsolates(c, actions[..|actions| - 1]);
      StepIsolates(ClientRun(c, actions[..|actions| - 1]), actions[|actions| - 1]);
      StepGrants(ClientRun(c, actions[..|actions| - 1]), actions[|actions| - 1]);
    }
    SoundLoads(ClientRun(c, actions));
  }

  /** No step loses the contents of a slot, and no existing context is refused growth. */
  ghost predicate Undisturbed(c: Client, actions: seq<Action>)
    requires Wf(c.mmu)
  {
    actions == [] ||
    (Undisturbed(c, actions[..|actions| - 1]) &&
     Smooth(ClientRun(c, actions[..|actions| - 1]).mmu, actions[|actions| - 1]))
  }

  ghost predicate Smooth(s: Mmu, a: Action)
    requires Wf(s)
  {
    LostBy(s, a) == None && (a.Grow? && a.h in s.tables ==> Step(s, a).status.Ok?)
  }

  /** The store on its own. */
  ghost function PureRun(v: Store, bs: nat, actions: seq<Action>): Store {
    if actions == [] then v
    else StoreStep(PureRun(v, bs, actions[..|actions| - 1]), bs, actions[|actions| - 1], true, None)
  }

  /** From the start, whatever the limits and refusals, undisturbed runs show in each context private
      block arrays, and clients load from them. */
  lemma RunIsPrivate(cfg: Config, os: Os, actions: seq<Action>)
    requires ConfigOk(cfg)
    requires var c := Client(Initial(cfg, os), []);
      WellBehaved(c, actions) && Undisturbed(c, actions)
    ensures var s := Run(Initial(cfg, os), actions);
      var d := ClientRun(Client(Initial(cfg, os), []), actions);
      && Good(s) && d.mmu == s
      && Views(s) == PureRun(map[], cfg.blockSize, actions)
      && LoadsShow(PureRun(map[], cfg.blockSize, actions), d)
      && GrantsInOrder(Client(Initial(cfg, os), []), actions)
  {
    hide Initial, Core, Wf, Conserved, Run, ClientRun, WellBehaved, Undisturbed, StoreRun, PureRun, AllHold,
         PinsCounted, LoadsShow, Views, GrantsInOrder;
    var c := Client(Initial(cfg, os), []);
    StartSound(cfg, os);
    InitialCfg(cfg, os);
    RunIsolates(c, actions);
    ClientRunIsRun(c, actions);
    UndisturbedIsPure(c, actions);
  }

  lemma {:induction false} UndisturbedIsPure(c: Client, actions: seq<Action>)
    requires Sound(c) && WellBehaved(c, actions) && Undisturbed(c, actions)
    ensures StoreRun(Views(c.mmu), c, actions) == PureRun(Views(c.mmu), c.mmu.cfg.blockSize, actions)
  {
    hide PoolOk, Ledger.Valid, BlocksOk, HistoryOk, CountsOk, TablesOk, BoundsOk, Conserved, Step, ClientStep,
         Allowed, AllHold, PinsCounted, Views, LostBy, LoadsShow, StoreStep, Smooth;
    if actions != [] {
      var before, a := actions[..|actions| - 1], actions[|actions| - 1];
      UndisturbedIsPure(c, before);
      RunIsolates(c, before);
      var d := ClientRun(c, before);
      SmoothIsPure(d.mmu, c.mmu.cfg.blockSize, a);
    }
  }

  lemma SmoothIsPure(s: Mmu, bs: nat, a: Action)
    requires Wf(s) && Smooth(s, a)
    ensures StoreStep(Views(s), bs, a, Step(s, a).status.Ok?, LostBy(s, a)) == StoreStep(Views(s), bs, a, true, None)
  {
    hide Wf, Step, LostBy, ViewOf;
  }

  /** Nothing is refused and nothing runs out: with L2 of automatic size and no denied chunk it remains
      that every request of an existing context to grow finds enough free blocks. */
  ghost predicate Plentiful(c: Client, actions: seq<Action>)
    requires Wf(c.mmu)
  {
    actions == [] ||
    (Plentiful(c, actions[..|actions| - 1]) &&
     Fits(ClientRun(c, actions[..|actions| - 1]).mmu, actions[|actions| - 1]))
  }

  predicate Fits(s: Mmu, a: Action) {
    a.Grow? && a.h in s.tables ==> a.num <= INT_MAX && a.num <= |s.ledger.free|
  }

  /** Plentiful runs are undisturbed, and so private. */
  lemma {:induction false} PlentifulIsUndisturbed(c: Client, actions: seq<Action>)
    requires Sound(c) && WellBehaved(c, actions) && Plentiful(c, actions)
    requires c.mmu.cfg.l2Blocks == c.mmu.cfg.blocks && c.mmu.os.denied == {}
    ensures Undisturbed(c, actions)
    ensures ClientRun(c, actions).mmu.os.denied == {}
  {
    hide PoolOk, Ledger.Valid, BlocksOk, HistoryOk, CountsOk, TablesOk, BoundsOk, Conserved, Step, ClientStep,
         Allowed, AllHold, PinsCounted, Views, LostBy, LoadsShow, StoreStep, Fits;
    if actions != [] {
      var before, a := actions[..|actions| - 1], actions[|actions| - 1];
      PlentifulIsUndisturbed(c, before);
      RunIsolates(c, before);
      var d := ClientRun(c, before);
      StepIsolates(d, a);
      StepKeepsOs(d.mmu, a);
      NothingLost(d.mmu, a);
      FittingGrowSucceeds(d, a);
    }
  }

  lemma FittingGrowSucceeds(c: Client, a: Action)
    requires Sound(c) && Allowed(c, a) && Fits(c.mmu, a)
    ensures a.Grow? && a.h in c.mmu.tables ==> Step(c.mmu, a).status.Ok?
  {
    hide Core, Wf, Conserved, AllHold, PinsCounted, AllocateBlocks, StoreStep, Views, LostBy;
    CoreWf(c.mmu);
    if a.Grow? {
      GrowIsolates(c, a.h, a.num);
      GrowStatus(c.mmu, a);
    }
  }

  lemma GrowStatus(s: Mmu, a: Action)
    requires Wf(s) && a.Grow?
    ensures Step(s, a).status == AllocateBlocks(s, a.h, a.num).status
  {
    hide Wf, AllocateBlocks;
  }

  lemma StartSound(cfg: Config, os: Os)
    requires ConfigOk(cfg)
    ensures Sound(Client(Initial(cfg, os), [])) && Views(Initial(cfg, os)) == map[]
  {
    InitialCore(cfg, os);
    EmptyConserved(cfg.blocks);
    hide PoolOk, Ledger.Valid, BlocksOk, HistoryOk, CountsOk, TablesOk, BoundsOk, Conserved;
  }

  /** With ample L2 no slot is ever lost. */
  lemma NothingLost(s: Mmu, a: Action)
    requires Core(s) && s.cfg.l2Blocks == s.cfg.blocks && s.os.denied == {}
    ensures LostBy(s, a) == None
  {
    hide PoolOk, Ledger.Valid, BlocksOk, HistoryOk, CountsOk, TablesOk, BoundsOk, CloneFails;
    match a
    case Prepare(h, l) => AmpleCloneSucceeds(s, h, l);
    case MapOne(h, l, flags) => AmpleCloneSucceeds(s, h, l);
    case MapMany(h, ls, flags) => NothingLostInBatch(s, h, ls, flags);
    case _ =>
  }

  lemma {:induction false} NothingLostInBatch(s: Mmu, h: Handle, ls: seq<nat>, flags: nat)
    requires Core(s) && s.cfg.l2Blocks == s.cfg.blocks && s.os.denied == {}
    ensures BatchLost(s, h, ls, flags) == None
  {
    hide PoolOk, Ledger.Valid, BlocksOk, HistoryOk, CountsOk, TablesOk, BoundsOk, CloneFails, MapEach;
    if ls != [] {
      var ls0, l := ls[..|ls| - 1], ls[|ls| - 1];
      NothingLostInBatch(s, h, ls0, flags);
      MapEachPins(s, h, ls0, flags);
      MapEachOs(s, h, ls0, flags);
      AmpleCloneSucceeds(MapEach(s, h, ls0, flags).mmu, h, l);
    }
  }

  lemma PrepareOs(s: Mmu, h: Handle, l: nat)
    requires Core(s)
    ensures PrepareBlockForWrite(s, h, l).mmu.os.denied == s.os.denied
  {
    hide PoolOk, Ledger.Valid, BlocksOk, HistoryOk, CountsOk, TablesOk, BoundsOk, PrepareBlockForWrite,
         CopiesOnWrite, Content;
    if CopiesOnWrite(s, h, l) {
      CopyEffect(s, h, l);
    } else {
      PrepareIdle(s, h, l);
    }
  }

  lemma MapResidentOs(s: Mmu, h: Handle, l: nat, flags: nat)
    requires Core(s)
    ensures MapResident(s, h, l, flags).mmu.os.denied == s.os.denied
  {
    hide PoolOk, Ledger.Valid, BlocksOk, HistoryOk, CountsOk, TablesOk, BoundsOk, MapResident, Content, Resolve;
    MapResidentEffect(s, h, l, flags);
  }

  lemma MapOs(s: Mmu, h: Handle, l: nat, flags: nat)
    requires Core(s)
    ensures MapLogicalBlock(s, h, l, flags).mmu.os.denied == s.os.denied
  {
    hide PoolOk, Ledger.Valid, BlocksOk, HistoryOk, CountsOk, TablesOk, BoundsOk, PrepareBlockForWrite,
         MapResident, HasWrite, ValidFlags;
    if HasWrite(flags) {
      PrepareOs(s, h, l);
      PrepareStep(s, h, l);
      MapResidentOs(PrepareBlockForWrite(s, h, l).mmu, h, l, flags);
    } else {
      MapResidentOs(s, h, l, flags);
    }
  }

  lemma {:induction false} MapEachOs(s: Mmu, h: Handle, ls: seq<nat>, flags: nat)
    requires Core(s)
    ensures MapEach(s, h, ls, flags).mmu.os.denied == s.os.denied
  {
    hide PoolOk, Ledger.Valid, BlocksOk, HistoryOk, CountsOk, TablesOk, BoundsOk, MapLogicalBlock;
    if ls != [] {
      MapEachOs(s, h, ls[..|ls| - 1], flags);
      MapEachPins(s, h, ls[..|ls| - 1], flags);
      MapOs(MapEach(s, h, ls[..|ls| - 1], flags).mmu, h, ls[|ls| - 1], flags);
    }
  }

  lemma UnmapOs(s: Mmu, h: Handle, m: MappedBlock)
    requires Core(s)
    ensures UnmapLogicalBlock(s, h, m).mmu.os.denied == s.os.denied
  {
    hide PoolOk, Ledger.Valid, BlocksOk, HistoryOk, CountsOk, TablesOk, BoundsOk, UnmapLogicalBlock, Content,
         Releases;
    UnmapEffect(s, h, m);
  }

  lemma {:induction false} UnmapManyOs(s: Mmu, h: Handle, ms: seq<MappedBlock>)
    requires Core(s)
    ensures UnmapLogicalBlocks(s, h, ms).mmu.os.denied == s.os.denied
  {
    hide PoolOk, Ledger.Valid, BlocksOk, HistoryOk, CountsOk, TablesOk, BoundsOk, UnmapLogicalBlock;
    if ms != [] {
      UnmapManyOs(s, h, ms[..|ms| - 1]);
      UnmapManyCore(s, h, ms[..|ms| - 1]);
      UnmapOs(UnmapLogicalBlocks(s, h, ms[..|ms| - 1]).mmu, h, ms[|ms| - 1]);
    }
  }

  lemma {:induction false} ReclaimOs(s: Mmu, k: nat)
    requires Wf(s) && k <= s.cfg.blocks
    ensures Reclaim(s, k).os == s.os
  {
    hide Ledger.Valid, PoolOk;
    if k > 0 {
      ReclaimOs(s, k - 1);
    }
  }

  lemma {:induction false} RegisterEachOs(s: Mmu, blocks: seq<int>)
    requires Wf(s)
    ensures RegisterEach(s, blocks).os == s.os
  {
    hide Ledger.Valid, PoolOk;
    if blocks != [] {
      RegisterEachOs(s, blocks[..|blocks| - 1]);
    }
  }

  lemma GrowOs(s: Mmu, h: Handle, num: nat)
    requires Wf(s)
    ensures AllocateBlocks(s, h, num).mmu.os == s.os
  {
    ReclaimOs(s, s.cfg.blocks);
    hide Ledger.Valid, PoolOk, Allocate, Reclaim, RegisterEach;
    if h in s.tables {
      var s0 := Reclaim(s, s.cfg.blocks);
      ReclaimKeepsTables(s, s.cfg.blocks);
      var a := Allocate(s0.ledger, s0.tables[h], num);
      RegisterEachOs(s0.(ledger := a.ledger, tables := s0.tables[h := a.table]), a.blocks);
    }
  }

  /** The operating system's decisions are not the memory manager's. */
  lemma StepKeepsOs(s: Mmu, a: Action)
    requires Core(s)
    ensures Step(s, a).mmu.os.denied == s.os.denied
  {
    hide PoolOk, Ledger.Valid, BlocksOk, HistoryOk, CountsOk, TablesOk, BoundsOk;
    hide AllocateBlocks, PrepareBlockForWrite, MapLogicalBlock, MapEach, UnmapLogicalBlock, UnmapLogicalBlocks,
         Reclaim;
    match a
    case Create(h) =>
    case Destroy(h) => if h in s.tables { ReclaimOs(Dropped(s, h), s.cfg.blocks); }
    case Fork(h, child) =>
    case Grow(h, num) => GrowOs(s, h, num);
    case Shrink(h, l) =>
    case Prepare(h, l) => PrepareOs(s, h, l);
    case MapOne(h, l, flags) => MapOs(s, h, l, flags);
    case MapMany(h, ls, flags) =>
      MapEachOs(s, h, ls, flags);
      MapEachPins(s, h, ls, flags);
      UnmapManyOs(MapEach(s, h, ls, flags).mmu, h, MapEach(s, h, ls, flags).done);
    case Unmap(h, m) => UnmapOs(s, h, m);
    case UnmapMany(h, ms) => UnmapManyOs(s, h, ms);
    case Write(h, m, offset, value) =>
  }
}
