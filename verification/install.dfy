/**
 * Putting compaction outputs into the state and taking the inputs out (src/compact.rs, `trigger_compaction`).
 * Whatever a controller does with its lists, the invariant is kept as long as exactly the inputs leave and the
 * outputs come in.
 */
module Install {
  import Blocks
  import opened Bytes
  import opened Compaction
  import opened Contents
  import EmptyTables
  import opened Keys
  import opened Mvcc
  import opened ReadPath
  import opened Runs
  import opened State

  function OutIds(outs: seq<Table>): (r: seq<nat>)
    ensures |r| == |outs| && forall i :: 0 <= i < |r| ==> r[i] == outs[i].id
  {
    seq(|outs|, i requires 0 <= i < |outs| => outs[i].id)
  }

  function OutRuns(outs: seq<Table>): (r: seq<Run<Key>>)
    ensures |r| == |outs| && forall i :: 0 <= i < |r| ==> r[i] == outs[i].entries
  {
    seq(|outs|, i requires 0 <= i < |outs| => outs[i].entries)
  }

  function TableMap(outs: seq<Table>): map<nat, Table> {
    if outs == [] then map[] else TableMap(outs[1..])[outs[0].id := outs[0]]
  }

  /** `sstables.insert` for every output. */
  function WithOutputs(s: LsmState, outs: seq<Table>): LsmState {
    s.(sstables := s.sstables + TableMap(outs))
  }

  lemma OutputsKeepLists(s: LsmState, outs: seq<Table>)
    ensures var r := WithOutputs(s, outs);
            r.memtable == s.memtable && r.imm == s.imm && r.l0 == s.l0 && r.levels == s.levels
  {
  }

  /** `sstables.remove` for every input. */
  function WithoutInputs(s: LsmState, removed: seq<nat>): LsmState {
    s.(sstables := s.sstables - set id | id in removed)
  }

  ghost predicate DistinctTables(outs: seq<Table>) {
    forall i, j :: 0 <= i < j < |outs| ==> outs[i].id != outs[j].id
  }

  lemma {:induction false} TableMapHas(outs: seq<Table>, x: nat)
    requires DistinctTables(outs)
    ensures x in TableMap(outs) <==> x in OutIds(outs)
    ensures x in TableMap(outs) ==> TableMap(outs)[x].id == x && TableMap(outs)[x] in outs
    ensures forall i :: 0 <= i < |outs| && outs[i].id == x ==> x in TableMap(outs) && TableMap(outs)[x] == outs[i]
  {
    if outs != [] {
      var rest := outs[1..];
      forall i | 0 <= i < |rest| ensures rest[i] == outs[i + 1] {}
      TableMapHas(rest, x);
      assert OutIds(outs) == [outs[0].id] + OutIds(rest);
    }
  }

  /** New tables have new ids, are sorted one after the other, and are sound. */
  ghost predicate OutsOk(hash: Bytes -> u32, s: LsmState, nextId: nat, outs: seq<Table>) {
    && DistinctTables(outs) && Sorted(KeyLess, Flatten(OutRuns(outs)))
    && forall i :: 0 <= i < |outs| ==> TableOk(hash, outs[i]) && outs[i].id !in AllIds(s) && outs[i].id < nextId
  }

  lemma {:induction false} OutIdsDistinct(outs: seq<Table>)
    requires DistinctTables(outs)
    ensures Distinct(OutIds(outs))
  {
    hide Distinct;
    if outs == [] {
      EmptyDistinct();
    } else {
      var rest := outs[1..];
      forall i | 0 <= i < |rest| ensures rest[i] == outs[i + 1] {}
      OutIdsDistinct(rest);
      assert OutIds(outs) == [outs[0].id] + OutIds(rest);
      DistinctCons(outs[0].id, OutIds(rest));
    }
  }

  lemma EmptyDistinct()
    ensures Distinct([])
  {
  }

  lemma OutputTables(hash: Bytes -> u32, s: LsmState, nextId: nat, outs: seq<Table>)
    requires OutsOk(hash, s, nextId, outs) && IdsOk(s, nextId)
    ensures var tables := WithOutputs(s, outs).sstables;
            && (forall x :: x in tables <==> x in s.sstables || x in OutIds(outs))
            && (forall x :: x in s.sstables ==> tables[x] == s.sstables[x] && x !in OutIds(outs))
            && (forall x :: x in OutIds(outs) ==> tables[x].id == x && TableOk(hash, tables[x]))
            && Known(tables, OutIds(outs)) && RunsOf(tables, OutIds(outs)) == OutRuns(outs)
            && SparseLevelOk(tables, OutIds(outs)) && Distinct(OutIds(outs))
  {
    hide KeyLess, TableOk, MemIds, LevelIds, Ordered, TableMap, Distinct, Sorted, FilledIds, Flatten;
    var tables := WithOutputs(s, outs).sstables;
    forall x ensures x in TableMap(outs) <==> x in OutIds(outs)
      ensures x in TableMap(outs) ==> TableMap(outs)[x].id == x && TableMap(outs)[x] in outs
    {
      TableMapHas(outs, x);
    }
    forall i | 0 <= i < |outs| ensures outs[i].id in TableMap(outs) && TableMap(outs)[outs[i].id] == outs[i] {
      TableMapHas(outs, outs[i].id);
    }
    OutIdsDistinct(outs);
    assert RunsOf(tables, OutIds(outs)) == OutRuns(outs);
    EmptyTables.SortedIsSparse(tables, OutIds(outs));
  }

  lemma InstalledIds(s: LsmState, s': LsmState, nextId: nat, removed: seq<nat>, added: seq<nat>)
    requires IdsOk(s, nextId) && Distinct(added)
    requires forall x :: x in added ==> x !in AllIds(s) && x < nextId
    requires s'.memtable == s.memtable && s'.imm == s.imm
    requires multiset(removed) <= multiset(SstIds(s))
    requires multiset(SstIds(s')) == multiset(SstIds(s)) - multiset(removed) + multiset(added)
    requires forall x :: x in s'.sstables <==> (x in s.sstables || x in added) && x !in removed
    requires forall x :: x in s'.sstables ==> s'.sstables[x].id == x
    ensures IdsOk(s', nextId)
  {
    hide MemIds, SstIds;
    var mems := [s.memtable.id] + MemIds(s.imm);
    AllIdsBag(s);
    AllIdsBag(s');
    forall x
      ensures multiset(AllIds(s'))[x] <= 1
      ensures x in SstIds(s') <==> (x in SstIds(s) || x in added) && x !in removed
      ensures x in AllIds(s') ==> x < nextId
    {
      assert multiset(AllIds(s))[x] <= 1 && multiset(added)[x] <= 1;
      assert x in AllIds(s) <==> x in multiset(AllIds(s));
      assert x in AllIds(s') <==> x in multiset(AllIds(s'));
      assert x in SstIds(s') <==> x in multiset(SstIds(s'));
      assert x in SstIds(s) <==> x in multiset(SstIds(s));
      assert x in removed <==> x in multiset(removed);
      assert x in added <==> x in multiset(added);
    }
  }

  lemma AllIdsBag(s: LsmState)
    ensures multiset(AllIds(s)) == multiset([s.memtable.id] + MemIds(s.imm)) + multiset(SstIds(s))
  {
  }

  /**
   * Whatever a compaction strategy does with the lists: if exactly the inputs leave and the outputs
   * come, and the new levels are in order, the whole invariant holds for the compacted contents.
   */
  lemma InstallKeepsInv(hash: Bytes -> u32, s: LsmState, nextId: nat, m: Store, bottom: bool, input: Run<Key>,
                        removed: seq<nat>, outs: seq<Table>, r: LsmState)
    requires Inv(hash, s, nextId, m) && OutsOk(hash, s, nextId, outs)
    requires r.memtable == s.memtable && r.imm == s.imm && r.sstables == WithOutputs(s, outs).sstables
    requires multiset(removed) <= multiset(SstIds(s))
    requires multiset(SstIds(r)) == multiset(SstIds(s)) - multiset(removed) + multiset(OutIds(outs))
    requires LevelsOk(r)
    requires Known(s.sstables, removed) && HoldsInputs(input, s.sstables, removed) && PartOf(m, input)
    requires Flatten(OutRuns(outs)) == Survivors(bottom, input)
    ensures Inv(hash, WithoutInputs(r, removed), nextId, AfterCompaction(m, bottom, input))
  {
    hide KeyLess, Sorted, Ordered, TableOk, SstIds, MemIds, LevelIds, Distinct, Flatten, Survivors, HoldsInputs,
      PartOf, TableMap, AfterCompaction, LevelOk, FilledIds, Storable;
    OutputTables(hash, s, nextId, outs);
    var s', added := WithoutInputs(r, removed), OutIds(outs);
    SameSstIds(r, s');
    assert forall x :: x in added ==> x !in AllIds(s) && x < nextId;
    InstalledIds(s, s', nextId, removed, added);
    SstIdsAreTables(s, nextId);
    KnownTransfer(r.sstables, s'.sstables, added, removed, s);
    ContentsAfter(s, s', m, bottom, input, removed, added);
    StillStorable(m, bottom, input);
    forall i | 0 <= i < |s'.levels| ensures SparseLevelOk(s'.sstables, s'.levels[i].ids) {
      assert SparseLevelOk(r.sstables, r.levels[i].ids);
      LevelIdsKept(s', nextId, i);
      EmptyTables.SparseTransfer(r.sstables, s'.sstables, s'.levels[i].ids);
    }
  }

  lemma StillStorable(m: Store, bottom: bool, input: Run<Key>)
    requires Storable(m)
    ensures Storable(AfterCompaction(m, bottom, input))
  {
    hide Blocks.Fits;
  }

  lemma SameSstIds(r: LsmState, s': LsmState)
    requires r.l0 == s'.l0 && r.levels == s'.levels
    ensures SstIds(r) == SstIds(s')
  {
  }

  lemma SstIdsAreTables(s: LsmState, nextId: nat)
    requires IdsOk(s, nextId)
    ensures Known(s.sstables, SstIds(s)) && Distinct(SstIds(s))
    ensures forall x :: x in s.sstables ==> x in AllIds(s)
  {
    hide MemIds, LevelIds;
    AllIdsBag(s);
    DistinctPart(SstIds(s), AllIds(s));
  }

  lemma KnownTransfer(t1: map<nat, Table>, t2: map<nat, Table>, added: seq<nat>, removed: seq<nat>, s: LsmState)
    requires Known(t1, added) && Known(s.sstables, removed) && forall x :: x in s.sstables ==> x !in added
    requires forall x :: x in t2 <==> x in t1 && x !in removed
    requires forall x :: x in t2 ==> t2[x] == t1[x]
    ensures Known(t2, added) && RunsOf(t2, added) == RunsOf(t1, added)
  {
  }

  lemma LevelIdsKept(s: LsmState, nextId: nat, i: nat)
    requires IdsOk(s, nextId) && i < |s.levels|
    ensures Known(s.sstables, s.levels[i].ids)
  {
    hide MemIds, Distinct;
    forall id | id in s.levels[i].ids ensures id in s.sstables {
      LevelIdsMember(s.levels, id);
    }
  }
}
