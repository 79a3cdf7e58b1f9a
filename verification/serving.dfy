/**
 * How the sources of a read add up. A read opens iterators over some of the sources; `Offers` says
 * that what they will yield is sound and holds everything that the read asks for. Offers of several
 * sources are put together by merging.
 */
module Serving {
  import opened Bytes
  import opened Common
  import opened Compaction
  import opened EmptyTables
  import opened Keys
  import opened LeveledApply
  import opened LsmIter
  import opened MemTables
  import opened Mvcc
  import opened ReadPath
  import opened Runs
  import opened State

  predicate Asked(e: Entry<Key>, lower: Bound<Bytes>, upper: Bound<Bytes>) {
    AboveLower(e.key.user, lower) && BelowUpper(e.key.user, upper)
  }

  ghost predicate InSome(runs: seq<Run<Key>>, e: Entry<Key>) {
    exists i :: 0 <= i < |runs| && e in runs[i]
  }

  ghost predicate NothingAsked(r: Run<Key>, lower: Bound<Bytes>, upper: Bound<Bytes>) {
    forall e :: e in r ==> !Asked(e, lower, upper)
  }

  /** Iterators that will yield `offered` serve a read of everything between the bounds that is in `sources`. */
  ghost predicate Offers(m: Store, offered: seq<Run<Key>>, sources: seq<Run<Key>>,
                         lower: Bound<Bytes>, upper: Bound<Bytes>)
  {
    && PartsOf(m, offered)
    && (forall e :: InSome(offered, e) ==> AboveLower(e.key.user, lower))
    && (forall e :: InSome(sources, e) && Asked(e, lower, upper) ==> InSome(offered, e))
  }

  lemma InSomeSnoc(runs: seq<Run<Key>>, r: Run<Key>, e: Entry<Key>)
    ensures InSome(runs + [r], e) <==> InSome(runs, e) || e in r
  {
    var longer := runs + [r];
    assert longer[|runs|] == r;
    if i :| 0 <= i < |runs| && e in runs[i] {
      assert longer[i] == runs[i];
    }
  }

  /** A source may be passed over if it holds nothing that is asked for. */
  lemma Skip(m: Store, offered: seq<Run<Key>>, sources: seq<Run<Key>>, source: Run<Key>,
             lower: Bound<Bytes>, upper: Bound<Bytes>)
    requires Offers(m, offered, sources, lower, upper) && NothingAsked(source, lower, upper)
    ensures Offers(m, offered, sources + [source], lower, upper)
  {
    hide PartsOf, InSome, Asked, AboveLower;
    forall e ensures InSome(sources + [source], e) <==> InSome(sources, e) || e in source {
      InSomeSnoc(sources, source, e);
    }
  }

  /** Opening one more source. */
  lemma Open(m: Store, offered: seq<Run<Key>>, sources: seq<Run<Key>>, run: Run<Key>, source: Run<Key>,
             lower: Bound<Bytes>, upper: Bound<Bytes>)
    requires Offers(m, offered, sources, lower, upper) && PartOf(m, source) && ServesRange(run, source, lower, upper)
    ensures Offers(m, offered + [run], sources + [source], lower, upper)
  {
    hide InSome, AboveLower, BelowUpper, KeyLess;
    forall e ensures InSome(sources + [source], e) <==> InSome(sources, e) || e in source {
      InSomeSnoc(sources, source, e);
    }
    forall e ensures InSome(offered + [run], e) <==> InSome(offered, e) || e in run {
      InSomeSnoc(offered, run, e);
    }
    forall i | 0 <= i < |offered + [run]| ensures PartOf(m, (offered + [run])[i]) {}
  }

  lemma NothingYet(m: Store, lower: Bound<Bytes>, upper: Bound<Bytes>)
    ensures Offers(m, [], [], lower, upper)
  {
  }

  /** Merging all opened iterators into one. */
  lemma MergeOffers(m: Store, offered: seq<Run<Key>>, sources: seq<Run<Key>>, lower: Bound<Bytes>, upper: Bound<Bytes>)
    requires Offers(m, offered, sources, lower, upper)
    ensures AllSorted(KeyLess, offered) && Offers(m, [MergeAll(KeyLess, offered)], sources, lower, upper)
  {
    hide MergeAll, AboveLower, BelowUpper, KeyLess;
    MergeAllParts(m, offered);
    PartsSorted(m, offered);
    var merged := MergeAll(KeyLess, offered);
    forall e ensures InSome([merged], e) <==> InSome(offered, e) {
      assert [merged][0] == merged;
    }
  }

  lemma PartsSorted(m: Store, runs: seq<Run<Key>>)
    requires PartsOf(m, runs)
    ensures AllSorted(KeyLess, runs)
  {
    hide Sorted;
    forall i | 0 <= i < |runs| ensures Sorted(KeyLess, runs[i]) {
      assert PartOf(m, runs[i]);
    }
  }

  lemma JoinOffers(m: Store, a: Run<Key>, aSources: seq<Run<Key>>, b: Run<Key>, bSources: seq<Run<Key>>,
                   lower: Bound<Bytes>, upper: Bound<Bytes>)
    requires Offers(m, [a], aSources, lower, upper) && Offers(m, [b], bSources, lower, upper)
    ensures Sorted(KeyLess, a) && Sorted(KeyLess, b)
    ensures Offers(m, [Merge(KeyLess, a, b)], aSources + bSources, lower, upper)
  {
    hide Merge, AboveLower, BelowUpper, KeyLess, Sorted;
    assert PartOf(m, [a][0]) && PartOf(m, [b][0]);
    MergeParts(m, a, b);
    var ab := Merge(KeyLess, a, b);
    forall e ensures InSome([ab], e) <==> InSome([a], e) || InSome([b], e) {
      OnlyOne(ab, e);
      OnlyOne(a, e);
      OnlyOne(b, e);
    }
    forall e ensures InSome(aSources + bSources, e) ==> InSome(aSources, e) || InSome(bSources, e) {
      if i :| 0 <= i < |aSources + bSources| && e in (aSources + bSources)[i] {
        assert i < |aSources| ==> e in aSources[i];
        assert i >= |aSources| ==> e in bSources[i - |aSources|];
      }
    }
  }

  lemma OnlyOne(r: Run<Key>, e: Entry<Key>)
    ensures InSome([r], e) <==> e in r
  {
    assert [r][0] == r;
  }

  // ---------- the sources of a state ----------

  function MemRuns(mems: seq<MemView>): (r: seq<Run<Key>>)
    ensures |r| == |mems| && forall i :: 0 <= i < |r| ==> r[i] == mems[i].entries
  {
    seq(|mems|, i requires 0 <= i < |mems| => mems[i].entries)
  }

  ghost predicate LevelsKnown(tables: map<nat, Table>, levels: seq<Level>) {
    forall i :: 0 <= i < |levels| ==> Known(tables, levels[i].ids)
  }

  /** Every version that a state stores is in a memtable, an L0 table, or a level. */
  lemma EverySource(s: LsmState, m: Store, e: Entry<Key>)
    requires Known(s.sstables, SstIds(s)) && Holds(s, m)
    ensures Known(s.sstables, s.l0) && LevelsKnown(s.sstables, s.levels)
    ensures InStore(m, e) ==>
              || InSome([s.memtable.entries] + MemRuns(s.imm), e)
              || InSome(RunsOf(s.sstables, s.l0), e)
              || InSome(TierRuns(s.sstables, s.levels), e)
  {
    hide LevelIds, MemBag, TableBag;
    forall i, id | 0 <= i < |s.levels| && id in s.levels[i].ids ensures id in s.sstables {
      LevelIdsMember(s.levels, id);
    }
    SourcesExact(s, m, e);
    if InStore(m, e) {
      var mems := [s.memtable.entries] + MemRuns(s.imm);
      if e in s.memtable.entries {
        assert mems[0] == s.memtable.entries;
      } else if i :| 0 <= i < |s.imm| && e in s.imm[i].entries {
        assert mems[i + 1] == s.imm[i].entries;
      } else {
        var id :| id in SstIds(s) && e in s.sstables[id].entries;
        TableSource(s, id, e);
      }
    }
  }

  lemma TableSource(s: LsmState, id: nat, e: Entry<Key>)
    requires Known(s.sstables, s.l0) && LevelsKnown(s.sstables, s.levels)
    requires id in SstIds(s) && id in s.sstables && e in s.sstables[id].entries
    ensures InSome(RunsOf(s.sstables, s.l0), e) || InSome(TierRuns(s.sstables, s.levels), e)
  {
    hide LevelIds;
    if id in s.l0 {
      RunsOfMember(s.sstables, s.l0, e);
    } else {
      LevelIdsMember(s.levels, id);
      var i :| 0 <= i < |s.levels| && id in s.levels[i].ids;
      RunsOfMember(s.sstables, s.levels[i].ids, e);
      FlattenMember(RunsOf(s.sstables, s.levels[i].ids), e);
      assert e in TierRuns(s.sstables, s.levels)[i];
    }
  }

  /** Every source of a state holds entries of the store only. */
  lemma SourcesAreParts(hash: Bytes -> u32, s: LsmState, nextId: nat, m: Store)
    requires Inv(hash, s, nextId, m)
    ensures Known(s.sstables, SstIds(s)) && Known(s.sstables, s.l0) && LevelsKnown(s.sstables, s.levels)
    ensures PartOf(m, s.memtable.entries) && forall i :: 0 <= i < |s.imm| ==> PartOf(m, s.imm[i].entries)
    ensures forall id :: id in s.sstables ==> PartOf(m, s.sstables[id].entries) && TableOk(hash, s.sstables[id])
  {
    hide LevelIds, MemIds, Distinct, TableOk, MemBag, TableBag, KeyLess, LevelsOk, Sorted;
    assert Known(s.sstables, SstIds(s));
    forall i, id | 0 <= i < |s.levels| && id in s.levels[i].ids ensures id in s.sstables {
      LevelIdsMember(s.levels, id);
    }
    forall e ensures e in s.memtable.entries ==> InStore(m, e)
      ensures forall i :: 0 <= i < |s.imm| && e in s.imm[i].entries ==> InStore(m, e)
      ensures forall id :: id in s.sstables && e in s.sstables[id].entries ==> InStore(m, e)
    {
      SourcesExact(s, m, e);
    }
    forall id | id in s.sstables ensures Sorted(KeyLess, s.sstables[id].entries) {
      SortedTable(hash, s, id);
    }
  }

  lemma SortedTable(hash: Bytes -> u32, s: LsmState, id: nat)
    requires TablesOk(hash, s) && id in s.sstables
    ensures TableOk(hash, s.sstables[id]) && Sorted(KeyLess, s.sstables[id].entries)
  {
  }

  // ---------- one level ----------

  /** The tables of a level that a read keeps are still in order. */
  lemma KeepTable(tables: map<nat, Table>, ids: seq<nat>, kept: seq<nat>, i: nat)
    requires LevelOk(tables, ids) && i < |ids| && LevelOk(tables, kept)
    requires kept != [] ==> kept[|kept| - 1] in ids[..i]
    ensures LevelOk(tables, kept + [ids[i]])
  {
    hide KeyLess;
    var longer := kept + [ids[i]];
    var runs: seq<Run<Key>> := RunsOf(tables, longer);
    var n := |kept|;
    assert RunsOf(tables, ids)[i] == runs[n];
    if kept != [] {
      assert kept[n - 1] in ids[..i];
      var j :| 0 <= j < i && ids[..i][j] == kept[n - 1];
      OrderedBefore(tables, ids, j, i);
      LevelApart(tables, ids);
      assert kept[n - 1] in ids && ids[i] in ids;
    }
    forall k | 0 <= k < n ensures runs[k] == RunsOf(tables, kept)[k] {}
  }

  /** The same for a level with empty tables. */
  lemma KeepSparse(tables: map<nat, Table>, ids: seq<nat>, kept: seq<nat>, i: nat)
    requires SparseLevelOk(tables, ids) && i < |ids| && SparseLevelOk(tables, kept)
    requires forall id :: id in kept ==> id in ids[..i]
    ensures SparseLevelOk(tables, kept + [ids[i]])
  {
    hide KeyLess, FilledIds, LevelOk, Ordered;
    var before, here, after := ids[..i], [ids[i]], ids[i + 1..];
    assert ids == before + (here + after);
    Split(tables, before, here, after);
    FilledConcat(tables, kept, here);
    FilledStep(tables, here);
    FilledOne(tables, ids[i]);
    if tables[ids[i]].entries == [] {
      assert FilledIds(tables, kept) + [] == FilledIds(tables, kept);
    } else {
      var all, filled := FilledIds(tables, ids), FilledIds(tables, kept);
      var n := |FilledIds(tables, before)|;
      assert all[..n] == FilledIds(tables, before) && all[n] == ids[i];
      forall id | id in filled ensures id in all[..n] {
        FilledMember(tables, kept, id);
        FilledMember(tables, before, id);
      }
      assert filled != [] ==> filled[|filled| - 1] in filled;
      KeepTable(tables, all, filled, n);
    }
  }

  lemma FilledOne(tables: map<nat, Table>, id: nat)
    requires id in tables
    ensures Known(tables, [id]) && FilledIds(tables, [id]) == if tables[id].entries == [] then [] else [id]
  {
    assert [id][1..] == [];
  }

  lemma Split(tables: map<nat, Table>, a: seq<nat>, b: seq<nat>, c: seq<nat>)
    requires Known(tables, a + (b + c))
    ensures Known(tables, a) && Known(tables, b) && Known(tables, c)
    ensures FilledIds(tables, a + (b + c)) == FilledIds(tables, a) + (FilledIds(tables, b) + FilledIds(tables, c))
  {
    hide FilledIds;
    forall id | id in a || id in b || id in c ensures id in a + (b + c) {}
    FilledConcat(tables, b, c);
    FilledConcat(tables, a, b + c);
  }

  /** What is left of a level after passing over tables without anything asked still serves the read. */
  lemma KeptServes(m: Store, tables: map<nat, Table>, ids: seq<nat>, kept: seq<nat>, run: Run<Key>,
                   lower: Bound<Bytes>, upper: Bound<Bytes>)
    requires Known(tables, ids) && Known(tables, kept) && forall id :: id in kept ==> id in ids
    requires forall id :: id in ids && id !in kept ==> NothingAsked(tables[id].entries, lower, upper)
    requires ServesRange(run, ConcatRun(tables, kept), lower, upper)
    ensures ServesRange(run, ConcatRun(tables, ids), lower, upper)
  {
    hide Flatten, AboveLower, BelowUpper, Sorted, KeyLess;
    forall e ensures e in ConcatRun(tables, kept) <==> exists id :: id in kept && e in tables[id].entries
      ensures e in ConcatRun(tables, ids) <==> exists id :: id in ids && e in tables[id].entries
    {
      FlattenMember(RunsOf(tables, kept), e);
      RunsOfMember(tables, kept, e);
      FlattenMember(RunsOf(tables, ids), e);
      RunsOfMember(tables, ids, e);
    }
  }
}
