/**
 * The write, freeze and flush steps of src/lsm_storage.rs as functions on the engine's state, and what each of
 * them keeps: a write changes the stored map at its own key, a freeze and a flush change only where a version
 * is kept.
 */
module Steps {
  import Blocks
  import opened Bytes
  import opened Contents
  import EmptyTables
  import opened Keys
  import opened MemTables
  import opened Mvcc
  import opened Runs
  import opened State

  function PutRecord(s: LsmState, e: Entry<Key>): LsmState {
    s.(memtable := PutEntry(s.memtable, e.key, e.value))
  }

  /** `force_freeze_memtable`: the memtable becomes the newest immutable one. */
  function Freeze(s: LsmState, newId: nat): LsmState {
    s.(imm := [s.memtable] + s.imm, memtable := MemView(newId, [], 0))
  }

  /** The table built from the oldest immutable memtable takes over its id and its entries. */
  ghost predicate FlushTable(hash: Bytes -> u32, s: LsmState, t: Table) {
    && s.imm != []
    && t.id == s.imm[|s.imm| - 1].id && t.entries == s.imm[|s.imm| - 1].entries
    && TableOk(hash, t)
  }

  /** `force_flush_next_imm_memtable`: to the front of L0, or as a tier of its own. */
  function Flush(s: LsmState, t: Table, toL0: bool): LsmState
    requires s.imm != []
  {
    var s1 := s.(imm := s.imm[..|s.imm| - 1], sstables := s.sstables[t.id := t]);
    if toL0 then s1.(l0 := [t.id] + s.l0) else s1.(levels := [Level(t.id, [t.id])] + s.levels)
  }

  // ---------- writing ----------

  /** A version may be written if it is new, or replaces its own copy in the memtable. */
  ghost predicate Writable(s: LsmState, m: Store, k: Key) {
    k in m ==> Entry(k, m[k]) in s.memtable.entries
  }

  lemma PutKeepsInv(hash: Bytes -> u32, s: LsmState, nextId: nat, m: Store, e: Entry<Key>)
    requires Inv(hash, s, nextId, m) && Writable(s, m, e.key) && Blocks.Fits(e)
    ensures Inv(hash, PutRecord(s, e), nextId, m[e.key := e.value])
    ensures Entry(e.key, e.value) in PutRecord(s, e).memtable.entries
    ensures forall f :: f in s.memtable.entries && f.key != e.key ==> f in PutRecord(s, e).memtable.entries
  {
    hide KeyLess, LevelsOk, TablesOk, Bag, Sorted, PutEntry, Writable, LevelIds, MemIds, Blocks.Fits;
    var s' := PutRecord(s, e);
    PutMembers(s.memtable, e);
    PutEntryId(s.memtable, e);
    assert IdsOk(s', nextId);
    PutHolds(s, m, e);
    LevelsUnchanged(hash, s, s');
  }

  lemma PutEntryId(v: MemView, e: Entry<Key>)
    ensures PutEntry(v, e.key, e.value).id == v.id
  {
  }

  /** The new entry replaces the one with its key, if any. */
  lemma PutMembers(v: MemView, e: Entry<Key>)
    requires Sorted(KeyLess, v.entries)
    ensures Sorted(KeyLess, PutEntry(v, e.key, e.value).entries)
    ensures forall f :: f in PutEntry(v, e.key, e.value).entries <==> f == e || (f in v.entries && f.key != e.key)
  {
    hide KeyLess, Merge, Sorted;
    KeyOrderIsTotal();
    OneEntrySorted(e);
    MergeIsUnion(KeyLess, [e], v.entries);
    assert KeysOf([e]) == {e.key};
  }

  lemma OneEntrySorted(e: Entry<Key>)
    ensures Sorted(KeyLess, [e])
  {
  }

  lemma PutHolds(s: LsmState, m: Store, e: Entry<Key>)
    requires Known(s.sstables, SstIds(s)) && Holds(s, m) && Writable(s, m, e.key) && Sorted(KeyLess, s.memtable.entries)
    ensures Holds(PutRecord(s, e), m[e.key := e.value])
  {
    hide KeyLess, LevelIds, MemBag, TableBag, PutEntry, Sorted;
    var s', m' := PutRecord(s, e), m[e.key := e.value];
    PutMembers(s.memtable, e);
    forall f ensures Bag(s')[f] == if InStore(m', f) then 1 else 0 {
      SortedOnce(s.memtable.entries, f);
      SortedOnce(s'.memtable.entries, f);
      assert Bag(s)[f] == if InStore(m, f) then 1 else 0;
    }
  }

  lemma LevelsUnchanged(hash: Bytes -> u32, s: LsmState, s': LsmState)
    requires s'.levels == s.levels && s'.sstables == s.sstables
    ensures LevelsOk(s) ==> LevelsOk(s')
    ensures TablesOk(hash, s) ==> TablesOk(hash, s')
  {
  }

  // ---------- freezing ----------

  lemma FreezeKeepsInv(hash: Bytes -> u32, s: LsmState, nextId: nat, m: Store)
    requires Inv(hash, s, nextId, m) && s.memtable.entries != []
    ensures Inv(hash, Freeze(s, nextId), nextId + 1, m)
  {
    hide KeyLess, LevelsOk, TablesOk, IdsOk, Bag, Sorted, SstIds, Freeze, Storable;
    var s' := Freeze(s, nextId);
    FreezeLists(s, nextId);
    assert Known(s.sstables, SstIds(s)) by { IdsKnown(s, nextId); }
    LevelsUnchanged(hash, s, s');
  }

  lemma IdsKnown(s: LsmState, nextId: nat)
    requires IdsOk(s, nextId)
    ensures Known(s.sstables, SstIds(s))
  {
    hide AllIds, SstIds;
  }

  lemma FreezeLists(s: LsmState, nextId: nat)
    requires IdsOk(s, nextId) && MemsOk(s) && s.memtable.entries != []
    ensures var s' := Freeze(s, nextId);
            && s'.levels == s.levels && s'.sstables == s.sstables
            && SstIds(s') == SstIds(s) && Known(s.sstables, SstIds(s))
            && IdsOk(s', nextId + 1) && MemsOk(s') && Bag(s') == Bag(s)
  {
    hide KeyLess, LevelIds, MemBag, TableBag, MemIds, Sorted, Distinct;
    var s' := Freeze(s, nextId);
    MemsCons(s.memtable, s.imm);
    EmptySorted(KeyLess);
    assert AllIds(s') == [nextId] + AllIds(s);
    DistinctCons(nextId, AllIds(s));
    assert forall i :: 0 < i < |s'.imm| ==> s'.imm[i] == s.imm[i - 1];
  }

  lemma MemsCons(v: MemView, mems: seq<MemView>)
    ensures MemBag([v] + mems) == multiset(v.entries) + MemBag(mems)
    ensures MemIds([v] + mems) == [v.id] + MemIds(mems)
  {
    assert ([v] + mems)[1..] == mems;
  }

  // ---------- flushing ----------

  lemma {:induction false} MemsSnoc(mems: seq<MemView>)
    requires mems != []
    ensures var n := |mems| - 1;
            && MemBag(mems) == MemBag(mems[..n]) + multiset(mems[n].entries)
            && MemIds(mems) == MemIds(mems[..n]) + [mems[n].id]
  {
    hide MemBag, MemIds;
    var n := |mems| - 1;
    if n > 0 {
      var rest := mems[1..];
      MemsSnoc(rest);
      assert rest[..n - 1] == mems[..n][1..];
      MemsCons(mems[0], rest);
      MemsCons(mems[0], rest[..n - 1]);
      assert mems == [mems[0]] + rest && mems[..n] == [mems[0]] + rest[..n - 1];
    } else {
      MemsCons(mems[0], []);
      MemsNil();
      assert mems == [mems[0]] + [] && mems[..0] == [];
    }
  }

  lemma MemsNil()
    ensures MemBag([]) == multiset{} && MemIds([]) == []
  {
  }

  lemma FlushIds(s: LsmState, t: Table, toL0: bool)
    requires s.imm != [] && t.id == s.imm[|s.imm| - 1].id
    ensures multiset(SstIds(Flush(s, t, toL0))) == multiset(SstIds(s)) + multiset{t.id}
    ensures multiset(AllIds(Flush(s, t, toL0))) == multiset(AllIds(s))
  {
    hide LevelIds, MemIds;
    MemsSnoc(s.imm);
    var s' := Flush(s, t, toL0);
    if !toL0 {
      LevelIdsCons(Level(t.id, [t.id]), s.levels);
    }
    assert multiset(AllIds(s)) == multiset{s.memtable.id} + multiset(MemIds(s.imm)) + multiset(SstIds(s));
    assert multiset(AllIds(s')) == multiset{s'.memtable.id} + multiset(MemIds(s'.imm)) + multiset(SstIds(s'));
  }

  lemma FlushBag(s: LsmState, t: Table, toL0: bool)
    requires s.imm != [] && t.id == s.imm[|s.imm| - 1].id && t.entries == s.imm[|s.imm| - 1].entries
    requires Known(s.sstables, SstIds(s)) && t.id !in SstIds(s)
    ensures var s' := Flush(s, t, toL0); Known(s'.sstables, SstIds(s')) && Bag(s') == Bag(s)
  {
    hide LevelIds, MemIds, MemBag, TableBag, SstIds;
    var s' := Flush(s, t, toL0);
    MemsSnoc(s.imm);
    FlushIds(s, t, toL0);
    var ids := [t.id] + SstIds(s);
    assert multiset(ids) == multiset(SstIds(s'));
    TableBagPermutation(s'.sstables, ids, SstIds(s'));
    TableBagConcat(s'.sstables, [t.id], SstIds(s));
    TableBagAgree(s.sstables, s'.sstables, SstIds(s));
    TableBagOne(s'.sstables, t.id);
  }

  lemma TableBagOne(tables: map<nat, Table>, id: nat)
    requires id in tables
    ensures Known(tables, [id]) && TableBag(tables, [id]) == multiset(tables[id].entries)
  {
    assert [id][1..] == [];
  }

  /** A flush changes no content and uses no new id: the same versions move from memory to a table. */
  lemma FlushKeepsInv(hash: Bytes -> u32, s: LsmState, nextId: nat, m: Store, t: Table, toL0: bool)
    requires Inv(hash, s, nextId, m) && FlushTable(hash, s, t)
    ensures Inv(hash, Flush(s, t, toL0), nextId, m)
    ensures var r := Flush(s, t, toL0);
            forall id :: id in s.sstables ==> id in r.sstables && r.sstables[id] == s.sstables[id]
  {
    hide KeyLess, IdsOk, TablesOk, MemsOk, LevelsOk, SstIds, Bag, Flush, TableOk, Sorted, Storable;
    FlushIdsOk(s, nextId, t, toL0);
    FlushBag(s, t, toL0);
    FlushTablesOk(hash, s, t, toL0);
    FlushFilled(hash, s, t);
    FlushLevels(s, t, toL0);
  }

  lemma FlushFilled(hash: Bytes -> u32, s: LsmState, t: Table)
    requires FlushTable(hash, s, t) && MemsOk(s)
    ensures t.entries != [] && Sorted(KeyLess, t.entries)
  {
  }

  lemma FlushTablesOk(hash: Bytes -> u32, s: LsmState, t: Table, toL0: bool)
    requires TablesOk(hash, s) && MemsOk(s) && FlushTable(hash, s, t) && t.id !in s.sstables
    ensures TablesOk(hash, Flush(s, t, toL0)) && MemsOk(Flush(s, t, toL0))
    ensures var r := Flush(s, t, toL0);
            forall id :: id in s.sstables ==> id in r.sstables && r.sstables[id] == s.sstables[id]
  {
    hide KeyLess, TableOk, Sorted;
  }

  lemma FlushIdsOk(s: LsmState, nextId: nat, t: Table, toL0: bool)
    requires IdsOk(s, nextId) && s.imm != [] && t.id == s.imm[|s.imm| - 1].id
    ensures IdsOk(Flush(s, t, toL0), nextId)
    ensures t.id !in SstIds(s) && t.id !in s.sstables && Known(s.sstables, SstIds(s))
  {
    hide MemIds, SstIds;
    var s' := Flush(s, t, toL0);
    FlushIds(s, t, toL0);
    FlushedIdIsNew(s, nextId);
    SameIds(s, s');
    forall x ensures x in SstIds(s') <==> x in SstIds(s) || x == t.id {
      assert x in SstIds(s') <==> x in multiset(SstIds(s'));
      assert x in SstIds(s) <==> x in multiset(SstIds(s));
    }
  }

  lemma SameIds(s: LsmState, s': LsmState)
    requires multiset(AllIds(s')) == multiset(AllIds(s))
    ensures forall x :: x in AllIds(s') <==> x in AllIds(s)
    ensures Distinct(AllIds(s)) ==> Distinct(AllIds(s'))
  {
    hide AllIds;
    forall x ensures x in AllIds(s') <==> x in AllIds(s) {
      assert x in AllIds(s') <==> x in multiset(AllIds(s'));
      assert x in AllIds(s) <==> x in multiset(AllIds(s));
    }
  }

  lemma FlushedIdIsNew(s: LsmState, nextId: nat)
    requires s.imm != [] && IdsOk(s, nextId)
    ensures s.imm[|s.imm| - 1].id !in SstIds(s)
  {
    hide MemIds, SstIds;
    var id := s.imm[|s.imm| - 1].id;
    MemsSnoc(s.imm);
    assert multiset(AllIds(s)) == multiset{s.memtable.id} + multiset(MemIds(s.imm)) + multiset(SstIds(s));
    assert multiset(MemIds(s.imm)) == multiset(MemIds(s.imm[..|s.imm| - 1])) + multiset{id};
    assert multiset(AllIds(s))[id] <= 1;
    assert id in SstIds(s) ==> id in multiset(SstIds(s));
  }

  lemma FlushLevels(s: LsmState, t: Table, toL0: bool)
    requires LevelsOk(s) && s.imm != [] && t.id !in s.sstables && t.entries != [] && Sorted(KeyLess, t.entries)
    ensures LevelsOk(Flush(s, t, toL0))
  {
    hide KeyLess, Sorted, Ordered, LevelOk, FilledIds;
    var s' := Flush(s, t, toL0);
    forall i | 0 <= i < |s'.levels| ensures SparseLevelOk(s'.sstables, s'.levels[i].ids) {
      var j := if toL0 then i else i - 1;
      if j >= 0 {
        assert SparseLevelOk(s.sstables, s.levels[j].ids);
        EmptyTables.SparseTransfer(s.sstables, s'.sstables, s.levels[j].ids);
      } else {
        SingleLevel(s'.sstables, t.id);
        EmptyTables.FilledSparse(s'.sstables, [t.id]);
      }
    }
  }
}
