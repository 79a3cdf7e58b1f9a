/**
 * Tables without entries: compacting to the bottom can write them, and they stay in their level. They
 * hold nothing and disturb no order of the other tables, but opening one makes the engine panic: here is
 * exactly when.
 */
module EmptyTables {
  import opened Bytes
  import opened Common
  import opened Contents
  import opened Keys
  import opened Mvcc
  import opened ReadPath
  import opened Runs
  import opened State

  lemma FilledStep(tables: map<nat, Table>, ids: seq<nat>)
    requires Known(tables, ids)
    ensures ids == [] ==> FilledIds(tables, ids) == []
    ensures ids != [] ==>
      && Known(tables, ids[1..])
      && FilledIds(tables, ids) == (if tables[ids[0]].entries == [] then [] else [ids[0]]) + FilledIds(tables, ids[1..])
  {
  }

  lemma {:induction false} FilledMember(tables: map<nat, Table>, ids: seq<nat>, x: nat)
    requires Known(tables, ids)
    ensures x in FilledIds(tables, ids) <==> x in ids && tables[x].entries != []
    ensures multiset(FilledIds(tables, ids))[x] <= multiset(ids)[x]
  {
    if ids != [] {
      FilledMember(tables, ids[1..], x);
      assert ids == [ids[0]] + ids[1..];
    }
  }

  lemma FilledKnown(tables: map<nat, Table>, ids: seq<nat>)
    requires Known(tables, ids)
    ensures Known(tables, FilledIds(tables, ids)) && AllFilled(tables, FilledIds(tables, ids))
  {
    hide FilledIds;
    forall id | id in FilledIds(tables, ids) ensures id in tables && tables[id].entries != [] {
      FilledMember(tables, ids, id);
    }
  }

  lemma {:induction false} FilledAll(tables: map<nat, Table>, ids: seq<nat>)
    requires Known(tables, ids) && AllFilled(tables, ids)
    ensures FilledIds(tables, ids) == ids
  {
    if ids != [] {
      FilledAll(tables, ids[1..]);
    }
  }

  lemma {:induction false} FilledAgree(t1: map<nat, Table>, t2: map<nat, Table>, ids: seq<nat>)
    requires Known(t1, ids) && forall id :: id in ids ==> id in t2 && t2[id] == t1[id]
    ensures Known(t2, ids) && FilledIds(t1, ids) == FilledIds(t2, ids)
  {
    if ids != [] {
      FilledAgree(t1, t2, ids[1..]);
    }
  }

  lemma {:induction false} FilledConcat(tables: map<nat, Table>, a: seq<nat>, b: seq<nat>)
    requires Known(tables, a) && Known(tables, b)
    ensures Known(tables, a + b) && FilledIds(tables, a + b) == FilledIds(tables, a) + FilledIds(tables, b)
  {
    hide FilledIds;
    FilledStep(tables, a);
    if a == [] {
      assert a + b == b;
    } else {
      FilledConcat(tables, a[1..], b);
      FilledStep(tables, a + b);
      assert (a + b)[1..] == a[1..] + b;
    }
  }

  lemma {:induction false} FilledMinus(tables: map<nat, Table>, ids: seq<nat>, removed: seq<nat>)
    requires Known(tables, ids)
    ensures Known(tables, Minus(ids, removed))
    ensures FilledIds(tables, Minus(ids, removed)) == Minus(FilledIds(tables, ids), removed)
  {
    hide FilledIds;
    FilledStep(tables, ids);
    if ids != [] {
      var rest := ids[1..];
      FilledMinus(tables, rest, removed);
      var kept := Minus(rest, removed);
      if ids[0] in removed {
        assert [] + kept == kept;
      } else {
        FilledStep(tables, [ids[0]] + kept);
        assert ([ids[0]] + kept)[1..] == kept;
      }
      var filled := FilledIds(tables, rest);
      assert [] + filled == filled && ([ids[0]] + filled)[1..] == filled;
    }
  }

  /** A level keeps its sparse order when seen through a larger table map. */
  lemma SparseTransfer(t1: map<nat, Table>, t2: map<nat, Table>, ids: seq<nat>)
    requires SparseLevelOk(t1, ids) && forall id :: id in ids ==> id in t2 && t2[id] == t1[id]
    ensures SparseLevelOk(t2, ids)
  {
    hide KeyLess, Ordered, FilledIds;
    FilledAgree(t1, t2, ids);
    forall id | id in FilledIds(t1, ids) ensures id in ids {
      FilledMember(t1, ids, id);
    }
    assert RunsOf(t1, FilledIds(t1, ids)) == RunsOf(t2, FilledIds(t2, ids));
  }

  /** A level in sparse order without empty tables is in order. */
  lemma SparseFilled(tables: map<nat, Table>, ids: seq<nat>)
    requires SparseLevelOk(tables, ids) && AllFilled(tables, ids)
    ensures LevelOk(tables, ids)
  {
    hide KeyLess, Ordered, FilledIds;
    FilledAll(tables, ids);
  }

  lemma FilledSparse(tables: map<nat, Table>, ids: seq<nat>)
    requires LevelOk(tables, ids)
    ensures SparseLevelOk(tables, ids) && AllFilled(tables, ids)
  {
    hide KeyLess, FilledIds, Sorted;
    forall id | id in ids ensures tables[id].entries != [] {
      var i :| 0 <= i < |ids| && ids[i] == id;
      assert RunsOf(tables, ids)[i] != [];
    }
    FilledAll(tables, ids);
  }

  lemma FlattenRunsCons(tables: map<nat, Table>, id: nat, ids: seq<nat>)
    requires id in tables && Known(tables, ids)
    ensures Known(tables, [id] + ids)
    ensures Flatten(RunsOf(tables, [id] + ids)) == tables[id].entries + Flatten(RunsOf(tables, ids))
  {
    hide Flatten;
    assert RunsOf(tables, [id] + ids) == [tables[id].entries] + RunsOf(tables, ids);
    FlattenCons(tables[id].entries, RunsOf(tables, ids));
  }

  lemma {:induction false} FlattenFilled(tables: map<nat, Table>, ids: seq<nat>)
    requires Known(tables, ids)
    ensures Known(tables, FilledIds(tables, ids))
    ensures Flatten(RunsOf(tables, FilledIds(tables, ids))) == Flatten(RunsOf(tables, ids))
  {
    hide FilledIds, Flatten, RunsOf;
    FilledKnown(tables, ids);
    FilledStep(tables, ids);
    if ids != [] {
      var rest := ids[1..];
      FlattenFilled(tables, rest);
      FlattenRunsCons(tables, ids[0], rest);
      FlattenRunsCons(tables, ids[0], FilledIds(tables, rest));
      assert ids == [ids[0]] + rest;
      assert [] + FilledIds(tables, rest) == FilledIds(tables, rest);
      assert tables[ids[0]].entries == [] ==> [] + Flatten(RunsOf(tables, rest)) == Flatten(RunsOf(tables, rest));
    }
  }

  /** Tables whose entries, one after the other, are sorted form a level in sparse order. */
  lemma SortedIsSparse(tables: map<nat, Table>, ids: seq<nat>)
    requires Known(tables, ids) && Sorted(KeyLess, Flatten(RunsOf(tables, ids)))
    ensures SparseLevelOk(tables, ids)
  {
    hide KeyLess, Sorted, Flatten, FilledIds;
    FlattenFilled(tables, ids);
    FilledKnown(tables, ids);
    var runs: seq<Run<Key>> := RunsOf(tables, FilledIds(tables, ids));
    forall i | 0 <= i < |runs| ensures runs[i] != [] {
      assert FilledIds(tables, ids)[i] in FilledIds(tables, ids);
    }
    SortedFlattenOrdered(KeyLess, runs);
  }

  // ---------- opening a level ----------

  /** `check_sst_valid`. */
  predicate CheckSstValid(tables: map<nat, Table>, ids: seq<nat>)
    requires Known(tables, ids)
  {
    && (forall i :: 0 <= i < |ids| ==> !KeyLess(LastKey(tables[ids[i]]), FirstKey(tables[ids[i]])))
    && (forall i :: 0 < i < |ids| ==> KeyLess(LastKey(tables[ids[i - 1]]), FirstKey(tables[ids[i]])))
  }

  /** A level can be opened at its first table: the check passes, and reading the first block finds one. */
  predicate OpensAtFirst(tables: map<nat, Table>, ids: seq<nat>)
    requires Known(tables, ids)
  {
    CheckSstValid(tables, ids) && (ids != [] ==> tables[ids[0]].entries != [])
  }

  /** Every table that has entries has non-empty user keys. */
  ghost predicate Named(tables: map<nat, Table>, ids: seq<nat>) {
    forall id :: id in ids && id in tables ==> forall e :: e in tables[id].entries ==> e.key.user != []
  }

  /** Which table a seek opens: a partition point over the first keys. */
  function SeekIdx(tables: map<nat, Table>, ids: seq<nat>, key: Key): (i: nat)
    requires Known(tables, ids)
    ensures ids != [] ==> i < |ids|
  {
    var firsts := seq(|ids|, i requires 0 <= i < |ids| => FirstKey(tables[ids[i]]));
    var n := PartitionPoint(KeyLess, firsts, key);
    if n == 0 then 0 else n - 1
  }

  /** A level can be opened at a key. */
  predicate OpensAtKey(tables: map<nat, Table>, ids: seq<nat>, key: Key)
    requires Known(tables, ids)
  {
    CheckSstValid(tables, ids) && (ids != [] ==> tables[ids[SeekIdx(tables, ids, key)]].entries != [])
  }

  ghost predicate TablesNamed(tables: map<nat, Table>) {
    forall id :: id in tables ==> forall e :: e in tables[id].entries ==> e.key.user != []
  }

  lemma AllNamed(tables: map<nat, Table>, ids: seq<nat>)
    requires TablesNamed(tables)
    ensures Named(tables, ids)
  {
  }

  lemma PartsNamed(m: Store, tables: map<nat, Table>)
    requires Storable(m) && forall id :: id in tables ==> PartOf(m, tables[id].entries)
    ensures TablesNamed(tables)
  {
    hide KeyLess, Sorted;
    forall id, e | id in tables && e in tables[id].entries ensures e.key.user != [] {
      assert InStore(m, e);
      assert e == Entry(e.key, m[e.key]);
    }
  }

  lemma NothingBelowNoKey(t: Table)
    requires forall e :: e in t.entries ==> e.key.user != []
    ensures !KeyLess(LastKey(t), NO_KEY)
  {
    if t.entries != [] {
      assert t.entries[|t.entries| - 1] in t.entries;
    }
  }

  /** The check passes for tables in order, and only if no table behind the first is empty. */
  lemma CheckIff(tables: map<nat, Table>, ids: seq<nat>)
    requires SparseLevelOk(tables, ids) && Named(tables, ids)
    ensures AllFilled(tables, ids) ==> CheckSstValid(tables, ids)
    ensures CheckSstValid(tables, ids) && ids != [] && tables[ids[0]].entries != [] ==> AllFilled(tables, ids)
  {
    hide KeyLess, FilledIds, Sorted;
    if AllFilled(tables, ids) {
      SparseFilled(tables, ids);
      forall i | 0 <= i < |ids| ensures !KeyLess(LastKey(tables[ids[i]]), FirstKey(tables[ids[i]])) {
        assert RunsOf(tables, ids)[i] == tables[ids[i]].entries;
        FirstBeforeLast(tables[ids[i]]);
      }
      forall i | 0 < i < |ids| ensures KeyLess(LastKey(tables[ids[i - 1]]), FirstKey(tables[ids[i]])) {
        assert ids[i - 1] in ids && ids[i] in ids;
        assert RunsOf(tables, ids)[i] == tables[ids[i]].entries;
        assert RunsOf(tables, ids)[i - 1] == tables[ids[i - 1]].entries;
      }
    } else {
      var id :| id in ids && id in tables && tables[id].entries == [];
      var i :| 0 <= i < |ids| && ids[i] == id;
      if i > 0 {
        assert ids[i - 1] in ids;
        NothingBelowNoKey(tables[ids[i - 1]]);
      }
    }
  }

  /** A level can be opened at its first table if and only if none of its tables is empty. */
  lemma OpensIff(tables: map<nat, Table>, ids: seq<nat>)
    requires SparseLevelOk(tables, ids) && Named(tables, ids)
    ensures OpensAtFirst(tables, ids) <==> AllFilled(tables, ids)
    ensures OpensAtFirst(tables, ids) <==> LevelOk(tables, ids)
  {
    hide KeyLess, FilledIds, Ordered, CheckSstValid;
    CheckIff(tables, ids);
    HeadIsMember(ids);
    if LevelOk(tables, ids) {
      FilledSparse(tables, ids);
    }
    if AllFilled(tables, ids) {
      SparseFilled(tables, ids);
    }
  }

  /** Without empty tables a level can be opened at any key; opening it at the least key needs that, too. */
  lemma OpensAtKeyIff(tables: map<nat, Table>, ids: seq<nat>, key: Key)
    requires SparseLevelOk(tables, ids) && Named(tables, ids)
    ensures AllFilled(tables, ids) ==> OpensAtKey(tables, ids, key)
    ensures key == Key([], TS_RANGE_BEGIN) ==> (OpensAtKey(tables, ids, key) <==> AllFilled(tables, ids))
  {
    hide FilledIds, Ordered, CheckSstValid, SeekIdx, Sorted;
    CheckIff(tables, ids);
    HeadIsMember(ids);
    if ids != [] {
      assert ids[SeekIdx(tables, ids, key)] in ids;
      if key == Key([], TS_RANGE_BEGIN) {
        SeekEmptyKey(tables, ids);
      }
    }
  }

  /** No first key is below the empty key, so seeking it opens the first table. */
  lemma SeekEmptyKey(tables: map<nat, Table>, ids: seq<nat>)
    requires Known(tables, ids) && Named(tables, ids)
    ensures ids != [] ==> SeekIdx(tables, ids, Key([], TS_RANGE_BEGIN)) == 0
  {
    if ids != [] {
      var t := tables[ids[0]];
      assert ids[0] in ids;
      assert t.entries != [] ==> t.entries[0] in t.entries;
      assert KeyLess(Key([], TS_RANGE_BEGIN), FirstKey(t));
    }
  }

  lemma FirstBeforeLast(t: Table)
    requires Sorted(KeyLess, t.entries)
    ensures !KeyLess(LastKey(t), FirstKey(t))
  {
    hide KeyLess;
    KeyOrderIsTotal();
    assert |t.entries| > 1 ==> KeyLess(FirstKey(t), LastKey(t));
  }

  // ---------- which scans meet an empty table ----------

  /** `range_overlap` lets a table without entries pass. */
  predicate RangeMeetsEmpty(lower: Bound<Bytes>, upper: Bound<Bytes>) {
    RangeOverlap(lower, upper, NO_KEY, NO_KEY)
  }

  /** That is so exactly without a lower bound, or from the empty key on, unless the upper bound excludes even that. */
  lemma RangeMeetsEmptyIff(lower: Bound<Bytes>, upper: Bound<Bytes>)
    ensures RangeMeetsEmpty(lower, upper) <==>
            (lower == Unbounded || lower == Included([])) && upper != Excluded([])
  {
  }

  /** Some table that a scan of the state would open has no entries. */
  ghost predicate MeetsEmpty(s: LsmState, lower: Bound<Bytes>, upper: Bound<Bytes>) {
    RangeMeetsEmpty(lower, upper) && exists i :: 0 <= i < |s.levels| && !AllFilled(s.sstables, s.levels[i].ids)
  }
}
