/** Reference counts are conserved: each counts the page-table entries that name its block. */
module Sharing {
  import opened MmuTypes
  import opened BlockManagers
  import opened ChunkPools
  import opened Contexts
  import opened Tiering
  import opened Api
  import opened Invariants
  import opened Lifecycle

  type Tables = map<Handle, seq<int>>

  /** Number of entries naming `p` over all page tables. */
  ghost function Occurrences(tables: Tables, p: int): nat
    decreases |tables|
  {
    if tables == map[] then 0
    else
      var h :| h in tables;
      multiset(tables[h])[p] + Occurrences(tables - {h}, p)
  }

  /** The order in which the tables are visited does not matter. */
  lemma {:induction false} OccurrencesSplit(tables: Tables, h: Handle, p: int)
    requires h in tables
    ensures Occurrences(tables, p) == multiset(tables[h])[p] + Occurrences(tables - {h}, p)
    decreases |tables|
  {
    var g :| g in tables && Occurrences(tables, p) == multiset(tables[g])[p] + Occurrences(tables - {g}, p);
    if g != h {
      OccurrencesSplit(tables - {g}, h, p);
      OccurrencesSplit(tables - {h}, g, p);
      assert tables - {g} - {h} == tables - {h} - {g};
    }
  }

  lemma OccurrencesSet(tables: Tables, h: Handle, table: seq<int>, p: int)
    ensures Occurrences(tables[h := table], p) ==
            Occurrences(tables, p) - (if h in tables then multiset(tables[h])[p] else 0) + multiset(table)[p]
  {
    var tables' := tables[h := table];
    OccurrencesSplit(tables', h, p);
    assert tables' - {h} == tables - {h};
    if h in tables {
      OccurrencesSplit(tables, h, p);
    } else {
      assert tables - {h} == tables;
    }
  }

  ghost predicate Conserved(ledger: Ledger, tables: Tables) {
    forall p :: 0 <= p < |ledger.refs| ==> ledger.refs[p] == Occurrences(tables, p)
  }

  /** Every mapped block is owned. */
  lemma MappedIsOwned(ledger: Ledger, tables: Tables, h: Handle, i: nat)
    requires Conserved(ledger, tables) && h in tables && i < |tables[h]| && ledger.Has(tables[h][i])
    ensures ledger.refs[tables[h][i]] > 0
  {
    OccurrencesSplit(tables, h, tables[h][i]);
  }

  /** A block with one owner is mapped at one place only. */
  lemma SoleOwner(ledger: Ledger, tables: Tables, h: Handle, i: nat, g: Handle, j: nat)
    requires Conserved(ledger, tables) && h in tables && i < |tables[h]| && g in tables && j < |tables[g]|
    requires tables[g][j] == tables[h][i] && ledger.Has(tables[h][i]) && ledger.refs[tables[h][i]] == 1
    ensures (g, j) == (h, i)
  {
    var p := tables[h][i];
    OccurrencesSplit(tables, h, p);
    if g != h {
      OccurrencesSplit(tables - {h}, g, p);
    } else if i != j {
      TwoMentions(tables[h], i, j);
    }
  }

  lemma TwoMentions(t: seq<int>, i: nat, j: nat)
    requires i < |t| && j < |t| && i != j && t[i] == t[j]
    ensures multiset(t)[t[i]] >= 2
  {
    var u := t[i := t[i] + 1];
    assert u[j] == t[i] && multiset(u)[t[i]] == multiset(t)[t[i]] - 1;
  }

  /** With more than one owner, some other entry names the block too. */
  lemma OtherOwner(ledger: Ledger, tables: Tables, h: Handle, i: nat) returns (g: Handle, j: nat)
    requires Conserved(ledger, tables) && h in tables && i < |tables[h]|
    requires ledger.Has(tables[h][i]) && ledger.refs[tables[h][i]] > 1
    ensures g in tables && j < |tables[g]| && tables[g][j] == tables[h][i] && (g, j) != (h, i)
  {
    var t, p := tables[h], tables[h][i];
    OccurrencesSplit(tables, h, p);
    if multiset(t)[p] > 1 {
      assert multiset(t[i := NONE])[p] == multiset(t)[p] - 1;
      assert p in t[i := NONE];
      j :| 0 <= j < |t| && t[i := NONE][j] == p;
      g := h;
    } else {
      g, j := SomeMention(tables - {h}, p);
    }
  }

  lemma {:induction false} SomeMention(tables: Tables, p: int) returns (g: Handle, j: nat)
    requires Occurrences(tables, p) > 0
    ensures g in tables && j < |tables[g]| && tables[g][j] == p
    decreases |tables|
  {
    g :| g in tables && Occurrences(tables, p) == multiset(tables[g])[p] + Occurrences(tables - {g}, p);
    if multiset(tables[g])[p] > 0 {
      assert p in tables[g];
      j :| 0 <= j < |tables[g]| && tables[g][j] == p;
    } else {
      g, j := SomeMention(tables - {g}, p);
    }
  }

  lemma EmptyConserved(n: nat)
    ensures Conserved(FreshLedger(n), map[])
  {
  }

  lemma CreateConserves(ledger: Ledger, tables: Tables, h: Handle)
    requires Conserved(ledger, tables) && h !in tables
    ensures Conserved(ledger, tables[h := []])
  {
    forall p | ledger.Has(p)
      ensures ledger.refs[p] == Occurrences(tables[h := []], p)
    {
      OccurrencesSet(tables, h, [], p);
    }
  }

  lemma ForkConserves(ledger: Ledger, tables: Tables, src: Handle, h: Handle)
    requires ledger.Valid() && Conserved(ledger, tables) && src in tables && h !in tables
    ensures Conserved(RetainEach(ledger, tables[src]), tables[h := tables[src]])
  {
    var r := RetainEach(ledger, tables[src]);
    forall p | ledger.Has(p)
      ensures r.refs[p] == Occurrences(tables[h := tables[src]], p)
    {
      RetainEachCounts(ledger, tables[src], p);
      OccurrencesSet(tables, h, tables[src], p);
      OccurrencesSplit(tables, src, p);
    }
  }

  lemma DropConserves(ledger: Ledger, tables: Tables, h: Handle)
    requires ledger.Valid() && Conserved(ledger, tables) && h in tables
    ensures Conserved(ReleaseEach(ledger, tables[h]), tables - {h})
  {
    var r := ReleaseEach(ledger, tables[h]);
    forall p | ledger.Has(p)
      ensures r.refs[p] == Occurrences(tables - {h}, p)
    {
      ReleaseEachCounts(ledger, tables[h], p);
      OccurrencesSplit(tables, h, p);
    }
  }

  lemma ReleaseConserves(ledger: Ledger, tables: Tables, h: Handle, i: nat)
    requires ledger.Valid() && Conserved(ledger, tables) && h in tables && i < |tables[h]| && ledger.CanShare(tables[h][i])
    ensures Conserved(ledger.Released(tables[h][i]), tables[h := tables[h][i := NONE]])
  {
    var r := ledger.Released(tables[h][i]);
    forall p | ledger.Has(p)
      ensures r.refs[p] == Occurrences(tables[h := tables[h][i := NONE]], p)
    {
      OccurrencesSet(tables, h, tables[h][i := NONE], p);
    }
  }

  lemma CopyConserves(ledger: Ledger, ledger': Ledger, tables: Tables, h: Handle, i: nat, p: int, q: int)
    requires Conserved(ledger, tables) && h in tables && i < |tables[h]| && tables[h][i] == p
    requires ledger.Has(p) && ledger.Has(q) && p != q && ledger.refs[q] == 0
    requires ledger'.refs == ledger.refs[q := 1][p := ledger.refs[p] - 1]
    ensures Conserved(ledger', tables[h := tables[h][i := q]])
  {
    forall x | ledger'.Has(x)
      ensures ledger'.refs[x] == Occurrences(tables[h := tables[h][i := q]], x)
    {
      OccurrencesSet(tables, h, tables[h][i := q], x);
    }
  }

  /** Context::UpdateMapping conserves the counts, including when it backs out. */
  lemma RemapConserves(ledger: Ledger, tables: Tables, h: Handle, i: int, block: int)
    requires ledger.Valid() && Conserved(ledger, tables) && h in tables && InRange(tables[h], |ledger.refs|)
    ensures var r := Remap(ledger, tables[h], i, block);
      && Conserved(r.ledger, tables[h := r.table])
      && (r.status.Ok? ==> 0 <= i < |tables[h]| && r.table == tables[h][i := block])
      && r.status != Internal
  {
    hide Ledger.Valid, Remap, Occurrences;
    assert tables[h := tables[h]] == tables;
    RemapStatus(ledger, tables[h], i, block);
    if 0 <= i < |tables[h]| && ledger.Has(block) {
      RemapMoves(ledger, tables[h], i, block);
      assert tables[h][i := tables[h][i]] == tables[h];
      if tables[h][i] != NONE {
        MappedIsOwned(ledger, tables, h, i);
      }
      if tables[h][i] != block && CanRemap(ledger, tables[h], i, block) {
        EntryMovesConserves(ledger, Remap(ledger, tables[h], i, block).ledger, tables, h, i, block);
      }
    } else {
      RemapRefused(ledger, tables[h], i, block);
    }
  }

  lemma RemapRefused(ledger: Ledger, table: seq<int>, i: int, block: int)
    requires ledger.Valid() && (!(0 <= i < |table|) || !ledger.Has(block))
    ensures Remap(ledger, table, i, block).ledger == ledger && Remap(ledger, table, i, block).table == table
  {
    hide Ledger.Valid;
  }

  /** An entry that moves to an unowned block takes its reference along. */
  lemma EntryMovesConserves(ledger: Ledger, ledger': Ledger, tables: Tables, h: Handle, i: nat, block: int)
    requires Conserved(ledger, tables) && h in tables && i < |tables[h]| && ledger.Has(block)
    requires tables[h][i] == NONE || (ledger.Has(tables[h][i]) && ledger.refs[tables[h][i]] > 0)
    requires tables[h][i] != block && ledger.refs[block] == 0
    requires ledger'.refs == if tables[h][i] == NONE then ledger.refs[block := 1]
                             else ledger.refs[block := 1][tables[h][i] := ledger.refs[tables[h][i]] - 1]
    ensures Conserved(ledger', tables[h := tables[h][i := block]])
  {
    forall x | ledger'.Has(x)
      ensures ledger'.refs[x] == Occurrences(tables[h := tables[h][i := block]], x)
    {
      OccurrencesSet(tables, h, tables[h][i := block], x);
    }
  }

  lemma {:induction false} DistinctMultiset(blocks: seq<int>, p: int)
    requires Distinct(blocks)
    ensures multiset(blocks)[p] == if p in blocks then 1 else 0
  {
    if blocks != [] {
      var rest := blocks[..|blocks| - 1];
      assert blocks == rest + [blocks[|blocks| - 1]];
      DistinctMultiset(rest, p);
    }
  }

  lemma GrowConserves(ledger: Ledger, ledger': Ledger, tables: Tables, h: Handle, blocks: seq<int>)
    requires Conserved(ledger, tables) && h in tables && Distinct(blocks) && |ledger'.refs| == |ledger.refs|
    requires forall p :: p in blocks ==> ledger.Has(p) && ledger.refs[p] == 0
    requires forall p :: ledger.Has(p) ==> ledger'.refs[p] == if p in blocks then 1 else ledger.refs[p]
    ensures Conserved(ledger', tables[h := tables[h] + blocks])
  {
    forall p | ledger.Has(p)
      ensures ledger'.refs[p] == Occurrences(tables[h := tables[h] + blocks], p)
    {
      OccurrencesSet(tables, h, tables[h] + blocks, p);
      DistinctMultiset(blocks, p);
    }
  }

  /** A failed allocation breaks the counts exactly when it had appended something. */
  lemma FailedAllocationConserves(s: Mmu, h: Handle, num: nat)
    requires Core(s) && Conserved(s.ledger, s.tables) && h in s.tables && num <= INT_MAX && num > |s.ledger.free|
    ensures var t := AllocateBlocks(s, h, num).mmu;
      Conserved(t.ledger, t.tables) <==> s.ledger.free == []
  {
    hide PoolOk, BlockOk, HistoryOk, CountsOk, TablesOk, BoundsOk, AllocateBlocks;
    AllocateFails(s, h, num);
    DanglingEntries(s.ledger, AllocateBlocks(s, h, num).mmu.ledger, s.tables, h);
  }

  lemma DanglingEntries(ledger: Ledger, ledger': Ledger, tables: Tables, h: Handle)
    requires ledger.Valid() && Conserved(ledger, tables) && h in tables && ledger'.refs == ledger.refs
    ensures Conserved(ledger', tables[h := tables[h] + NextFree(ledger.free, |ledger.free|)]) <==> ledger.free == []
  {
    var blocks := NextFree(ledger.free, |ledger.free|);
    var tables' := tables[h := tables[h] + blocks];
    if ledger.free == [] {
      assert tables[h] + blocks == tables[h];
      assert tables' == tables;
    } else {
      var p := blocks[0];
      assert p in blocks;
      OccurrencesSet(tables, h, tables[h] + blocks, p);
      assert ledger'.refs[p] != Occurrences(tables', p);
    }
  }
}
