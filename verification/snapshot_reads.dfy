/**
 * `get_with_ts` and `scan_with_ts` of src/lsm_storage.rs on one snapshot of the state: opening the
 * sources that may matter, merging them, and filtering by the read timestamp.
 */
module SnapshotReads {
  import opened BloomFilter
  import opened Bytes
  import opened Common
  import opened Compaction
  import opened Concat
  import opened EmptyTables
  import opened Keys
  import opened KWayMerge
  import opened LsmIter
  import opened MemTables
  import opened Mvcc
  import opened ReadPath
  import opened Runs
  import opened Serving
  import opened State
  import opened TwoMerge

  // ---------- opening one source ----------

  /** The versions that a seek to the lower bound leaves. */
  ghost predicate FromLower(found: Run<Key>, r: Run<Key>, lower: Bound<Bytes>) {
    Sorted(KeyLess, found) && forall e :: e in found <==> e in r && AboveLower(e.key.user, lower)
  }

  lemma FromLowerServes(found: Run<Key>, r: Run<Key>, lower: Bound<Bytes>, upper: Bound<Bytes>)
    requires FromLower(found, r, lower)
    ensures ServesRange(found, r, lower, upper)
  {
  }

  /** An L0 table opened at the lower bound; an excluded key's versions are stepped over one by one. */
  method OpenTable(t: Table, lower: Bound<Bytes>) returns (iter: Run<Key>)
    requires Sorted(KeyLess, t.entries) && t.entries != []
    ensures FromLower(iter, t.entries, lower)
  {
    hide LowerBound, DropUser;
    match lower
    case Included(key) =>
      SeekServes(t.entries, key);
      iter := LowerBound(KeyLess, t.entries, Key(key, TS_RANGE_BEGIN));
    case Excluded(key) =>
      SeekAfterServes(t.entries, key);
      iter := LowerBound(KeyLess, t.entries, Key(key, TS_RANGE_BEGIN));
      iter := StepOver(iter, key);
    case Unbounded =>
      iter := t.entries;
  }

  method StepOver(r: Run<Key>, key: Bytes) returns (iter: Run<Key>)
    ensures iter == DropUser(r, key)
  {
    iter := r;
    while iter != [] && iter[0].key.user == key
      invariant DropUser(iter, key) == DropUser(r, key)
      decreases |iter|
    {
      iter := iter[1..];
    }
  }

  /** The kept tables of a level opened at the lower bound. */
  method OpenLevel(runs: seq<Run<Key>>, lower: Bound<Bytes>) returns (iter: SstConcatIterator<Key>)
    requires Ordered(KeyLess, runs)
    ensures fresh(iter) && iter.Valid() && FromLower(iter.Rest(), Flatten(runs), lower)
  {
    hide LowerBound, DropUser, Flatten, Ordered, KeyLess;
    KeyOrderIsTotal();
    OrderedFlatten(KeyLess, runs);
    if lower.Unbounded? {
      iter := new SstConcatIterator.SeekToFirst(KeyLess, runs);
    } else if lower.Included? {
      SeekServes(Flatten(runs), lower.key);
      iter := new SstConcatIterator.SeekToKey(KeyLess, runs, Key(lower.key, TS_RANGE_BEGIN));
    } else {
      var key := lower.key;
      SeekAfterServes(Flatten(runs), key);
      iter := new SstConcatIterator.SeekToKey(KeyLess, runs, Key(key, TS_RANGE_BEGIN));
      ghost var found := iter.Rest();
      while iter.IsValid() && iter.Head().key.user == key
        invariant iter.Valid() && DropUser(iter.Rest(), key) == DropUser(found, key)
        invariant iter.lt == KeyLess && iter.sstables == runs
        decreases |iter.Rest()|
      {
        DropUserStep(iter.Rest(), key);
        iter.Next();
      }
      DropUserStep(iter.Rest(), key);
    }
  }

  lemma DropUserStep(r: Run<Key>, key: Bytes)
    ensures r != [] && r[0].key.user == key ==> DropUser(r, key) == DropUser(r[1..], key)
    ensures !(r != [] && r[0].key.user == key) ==> DropUser(r, key) == r
  {
  }

  /** The memtables, newest first, each restricted to the bounds. */
  method OpenMemtables(s: LsmState, ghost m: Store, lower: Bound<Bytes>, upper: Bound<Bytes>)
    returns (iters: seq<Run<Key>>)
    requires Storable(m) && PartOf(m, s.memtable.entries)
    requires forall i :: 0 <= i < |s.imm| ==> PartOf(m, s.imm[i].entries)
    ensures Offers(m, iters, [s.memtable.entries] + MemRuns(s.imm), lower, upper)
  {
    hide Offers, PartOf, Range, MapBoundLower, MapBoundUpper, Yielded, Storable;
    NothingYet(m, lower, upper);
    MemtableServes(m, s.memtable, lower, upper);
    Open(m, [], [], MemScan(s.memtable, lower, upper), s.memtable.entries, lower, upper);
    iters := [MemScan(s.memtable, lower, upper)];
    ghost var sources := [s.memtable.entries];
    assert [] + iters == iters && [] + sources == sources;
    for i := 0 to |s.imm|
      invariant Offers(m, iters, sources, lower, upper)
      invariant sources == [s.memtable.entries] + MemRuns(s.imm)[..i]
    {
      MemtableServes(m, s.imm[i], lower, upper);
      Open(m, iters, sources, MemScan(s.imm[i], lower, upper), s.imm[i].entries, lower, upper);
      iters := iters + [MemScan(s.imm[i], lower, upper)];
      sources := sources + [s.imm[i].entries];
      assert MemRuns(s.imm)[..i + 1] == MemRuns(s.imm)[..i] + [s.imm[i].entries];
    }
    assert MemRuns(s.imm)[..|s.imm|] == MemRuns(s.imm);
  }

  /** `MemTable::scan`, as the iterator yields it. */
  function MemScan(v: MemView, lower: Bound<Bytes>, upper: Bound<Bytes>): Run<Key> {
    Yielded(Range(v.entries, MapBoundLower(lower), MapBoundUpper(upper)))
  }

  /** Without empty user keys a memtable iterator offers everything asked for. */
  lemma MemtableServes(m: Store, v: MemView, lower: Bound<Bytes>, upper: Bound<Bytes>)
    requires PartOf(m, v.entries) && Storable(m)
    ensures ServesRange(MemScan(v, lower, upper), v.entries, lower, upper)
  {
    hide KeyLess, Range, MapBoundLower, MapBoundUpper, AboveLower, BelowUpper;
    ScanMembers(v.entries, lower, upper);
    var found := Range(v.entries, MapBoundLower(lower), MapBoundUpper(upper));
    if found != [] {
      assert found[0] in found;
      assert found[0] == Entry(found[0].key, m[found[0].key]);
    }
  }

  // ---------- which tables matter ----------

  /** `keep_table` for a single key, `range_overlap` for a range. */
  datatype Wanted = Single(key: Bytes) | Between(lower: Bound<Bytes>, upper: Bound<Bytes>)

  function LowerOf(w: Wanted): Bound<Bytes> { if w.Single? then Included(w.key) else w.lower }

  function UpperOf(w: Wanted): Bound<Bytes> { if w.Single? then Included(w.key) else w.upper }

  /** Would the read open a table without entries? A filter over no keys rejects every single key. */
  predicate WantsEmpty(w: Wanted) {
    w.Between? && RangeMeetsEmpty(w.lower, w.upper)
  }

  /** A table that is passed over holds nothing that the read asks for. */
  method Keep(hash: Bytes -> u32, t: Table, w: Wanted) returns (keep: bool)
    requires TableOk(hash, t)
    ensures !keep ==> NothingAsked(t.entries, LowerOf(w), UpperOf(w))
    ensures t.entries == [] ==> (keep <==> WantsEmpty(w))
    ensures keep <==>
            match w
            case Single(key) =>
              && !Less(key, FirstKey(t).user) && !Less(LastKey(t).user, key)
              && (t.bloom.Some? ==> MayContainSpec(t.bloom.value, hash(key)))
            case Between(lower, upper) => AboveLower(LastKey(t).user, lower) && BelowUpper(FirstKey(t).user, upper)
  {
    hide KeyLess, Less, AllProbesSet;
    match w
    case Single(key) =>
      if KeyWithin(key, FirstKey(t), LastKey(t)) {
        keep := true;
        if t.bloom.Some? {
          keep := MayContain(t.bloom.value, hash(key));
        }
      } else {
        keep := false;
      }
      SingleKey(t, key);
    case Between(lower, upper) =>
      keep := RangeOverlap(lower, upper, FirstKey(t), LastKey(t));
      RangeOverlapIff(lower, upper, FirstKey(t), LastKey(t));
      forall e | e in t.entries && Asked(e, lower, upper) ensures keep {
        PrunedHasNothing(t.entries, lower, upper, e);
      }
  }

  lemma OnlyThatKey(user: Bytes, key: Bytes)
    ensures AboveLower(user, Included(key)) && BelowUpper(user, Included(key)) <==> user == key
  {
    hide Less;
    UserOrderIsTotal();
  }

  lemma SingleKey(t: Table, key: Bytes)
    requires Sorted(KeyLess, t.entries)
    ensures forall e :: e in t.entries ==>
              (Asked(e, Included(key), Included(key)) <==> e.key.user == key) &&
                KeyWithin(e.key.user, FirstKey(t), LastKey(t))
  {
    hide KeyLess, KeyWithin, AboveLower, BelowUpper;
    forall e | e in t.entries
      ensures (Asked(e, Included(key), Included(key)) <==> e.key.user == key) &&
                  KeyWithin(e.key.user, FirstKey(t), LastKey(t))
    {
      UserWithinTable(t.entries, e);
      OnlyThatKey(e.key.user, key);
    }
  }

  // ---------- opening all sources ----------

  /** What is known of the state that a snapshot shows. */
  ghost predicate Sound(hash: Bytes -> u32, s: LsmState, m: Store) {
    && Known(s.sstables, s.l0) && LevelsKnown(s.sstables, s.levels) && LevelsOk(s) && TablesNamed(s.sstables)
    && (forall id :: id in s.sstables ==> PartOf(m, s.sstables[id].entries) && TableOk(hash, s.sstables[id]))
  }

  /** L0 holds flushed memtables only, so none of its tables is empty. */
  method OpenL0(hash: Bytes -> u32, s: LsmState, ghost m: Store, w: Wanted) returns (iters: seq<Run<Key>>)
    requires Sound(hash, s, m) && AllFilled(s.sstables, s.l0)
    ensures Offers(m, iters, RunsOf(s.sstables, s.l0), LowerOf(w), UpperOf(w))
  {
    hide Offers, PartOf, TableOk, KeyLess, NothingAsked, ServesRange, FromLower, LevelsOk, LowerOf, UpperOf;
    NothingYet(m, LowerOf(w), UpperOf(w));
    iters := [];
    ghost var sources := [];
    for i := 0 to |s.l0|
      invariant Offers(m, iters, sources, LowerOf(w), UpperOf(w))
      invariant sources == RunsOf(s.sstables, s.l0)[..i]
    {
      assert s.l0[i] in s.l0;
      var table := s.sstables[s.l0[i]];
      var keep := Keep(hash, table, w);
      if keep {
        PartSorted(m, table.entries);
        var iter := OpenTable(table, LowerOf(w));
        FromLowerServes(iter, table.entries, LowerOf(w), UpperOf(w));
        Open(m, iters, sources, iter, table.entries, LowerOf(w), UpperOf(w));
        iters := iters + [iter];
      } else {
        Skip(m, iters, sources, table.entries, LowerOf(w), UpperOf(w));
      }
      sources := sources + [table.entries];
      assert RunsOf(s.sstables, s.l0)[..i + 1] == RunsOf(s.sstables, s.l0)[..i] + [table.entries];
    }
    assert RunsOf(s.sstables, s.l0)[..|s.l0|] == RunsOf(s.sstables, s.l0);
  }

  /** The tables of one level that may matter. */
  method KeepTables(hash: Bytes -> u32, s: LsmState, ids: seq<nat>, w: Wanted, ghost m: Store) returns (kept: seq<nat>)
    requires Sound(hash, s, m) && SparseLevelOk(s.sstables, ids)
    ensures SparseLevelOk(s.sstables, kept) && forall id :: id in kept ==> id in ids
    ensures forall id :: id in ids && id !in kept ==> NothingAsked(s.sstables[id].entries, LowerOf(w), UpperOf(w))
    ensures AllFilled(s.sstables, kept) <==> !(WantsEmpty(w) && !AllFilled(s.sstables, ids))
  {
    hide PartOf, TableOk, Ordered, KeyLess, NothingAsked, LevelsOk, LowerOf, UpperOf, FilledIds, LevelOk,
      WantsEmpty, TablesNamed;
    NoTables(s.sstables);
    kept := [];
    for i := 0 to |ids|
      invariant SparseLevelOk(s.sstables, kept) && forall id :: id in kept ==> id in ids[..i]
      invariant forall id :: id in ids[..i] && id !in kept ==>
                  NothingAsked(s.sstables[id].entries, LowerOf(w), UpperOf(w))
      invariant forall id :: id in ids[..i] && s.sstables[id].entries == [] ==> (id in kept <==> WantsEmpty(w))
    {
      assert ids[i] in ids && ids[..i + 1] == ids[..i] + [ids[i]];
      var keep := Keep(hash, s.sstables[ids[i]], w);
      if keep {
        KeepSparse(s.sstables, ids, kept, i);
        kept := kept + [ids[i]];
      }
    }
    assert ids[..|ids|] == ids;
  }

  lemma NoTables(tables: map<nat, Table>)
    ensures SparseLevelOk(tables, [])
  {
  }

  /** `create_and_seek_to_first` or `create_and_seek_to_key` gets past its check and finds a first block. */
  predicate CanOpenLevel(tables: map<nat, Table>, ids: seq<nat>, lower: Bound<Bytes>)
    requires Known(tables, ids)
  {
    if lower.Unbounded? then OpensAtFirst(tables, ids) else OpensAtKey(tables, ids, Key(lower.key, TS_RANGE_BEGIN))
  }

  lemma CanOpenIff(tables: map<nat, Table>, kept: seq<nat>, w: Wanted)
    requires SparseLevelOk(tables, kept) && TablesNamed(tables) && (AllFilled(tables, kept) || WantsEmpty(w))
    ensures CanOpenLevel(tables, kept, LowerOf(w)) <==> AllFilled(tables, kept)
    ensures AllFilled(tables, kept) ==> LevelOk(tables, kept)
  {
    hide KeyLess, FilledIds, OpensAtFirst, OpensAtKey, Less, LevelOk;
    AllNamed(tables, kept);
    var lower := LowerOf(w);
    if w.Between? {
      RangeMeetsEmptyIff(w.lower, w.upper);
    }
    if lower.Unbounded? {
      OpensIff(tables, kept);
    } else {
      OpensAtKeyIff(tables, kept, Key(lower.key, TS_RANGE_BEGIN));
    }
    if AllFilled(tables, kept) {
      SparseFilled(tables, kept);
    }
  }

  ghost predicate SomeEmpty(s: LsmState, n: nat)
    requires n <= |s.levels|
  {
    exists i :: 0 <= i < n && !AllFilled(s.sstables, s.levels[i].ids)
  }

  /** Opening the levels panics exactly when the read wants empty tables and there is one. */
  method OpenLevels(hash: Bytes -> u32, s: LsmState, ghost m: Store, w: Wanted) returns (ok: bool, iters: seq<Run<Key>>)
    requires Sound(hash, s, m)
    ensures ok <==> !(WantsEmpty(w) && SomeEmpty(s, |s.levels|))
    ensures ok ==> Offers(m, iters, TierRuns(s.sstables, s.levels), LowerOf(w), UpperOf(w))
  {
    hide Offers, PartOf, TableOk, KeyLess, NothingAsked, ServesRange, FromLower, LowerOf, UpperOf, Flatten, Ordered,
      FilledIds, LevelOk, WantsEmpty, AllFilled, CanOpenLevel, TablesNamed;
    NothingYet(m, LowerOf(w), UpperOf(w));
    iters, ok := [], true;
    ghost var sources := [];
    for i := 0 to |s.levels|
      invariant ok && (WantsEmpty(w) ==> !SomeEmpty(s, i))
      invariant Offers(m, iters, sources, LowerOf(w), UpperOf(w))
      invariant sources == TierRuns(s.sstables, s.levels)[..i]
    {
      var ids := s.levels[i].ids;
      assert SparseLevelOk(s.sstables, ids);
      var kept := KeepTables(hash, s, ids, w, m);
      CanOpenIff(s.sstables, kept, w);
      if !CanOpenLevel(s.sstables, kept, LowerOf(w)) {
        ok := false;
        return;
      }
      LevelIsOrdered(s.sstables, kept);
      var concat := OpenLevel(RunsOf(s.sstables, kept), LowerOf(w));
      FromLowerServes(concat.Rest(), ConcatRun(s.sstables, kept), LowerOf(w), UpperOf(w));
      KeptServes(m, s.sstables, ids, kept, concat.Rest(), LowerOf(w), UpperOf(w));
      LevelIsPart(hash, s, m, i);
      Open(m, iters, sources, concat.Rest(), ConcatRun(s.sstables, ids), LowerOf(w), UpperOf(w));
      iters := iters + [concat.Rest()];
      sources := sources + [ConcatRun(s.sstables, ids)];
      ghost var runs := TierRuns(s.sstables, s.levels);
      assert runs[..i + 1] == runs[..i] + [ConcatRun(s.sstables, ids)];
    }
    assert TierRuns(s.sstables, s.levels)[..|s.levels|] == TierRuns(s.sstables, s.levels);
  }

  lemma LevelIsOrdered(tables: map<nat, Table>, ids: seq<nat>)
    requires LevelOk(tables, ids)
    ensures Ordered(KeyLess, RunsOf(tables, ids))
  {
  }

  /** The entries of a level, with or without empty tables, are sorted entries of the store. */
  lemma LevelIsPart(hash: Bytes -> u32, s: LsmState, m: Store, i: nat)
    requires Sound(hash, s, m) && i < |s.levels|
    ensures PartOf(m, ConcatRun(s.sstables, s.levels[i].ids))
  {
    hide KeyLess, PartOf, TableOk, FilledIds, LevelOk, TablesNamed;
    var ids := s.levels[i].ids;
    assert SparseLevelOk(s.sstables, ids);
    TablesParts(hash, s, m);
    ConcatExact(m, s.sstables, FilledIds(s.sstables, ids));
    FlattenFilled(s.sstables, ids);
  }

  lemma TablesParts(hash: Bytes -> u32, s: LsmState, m: Store)
    requires Sound(hash, s, m)
    ensures TablesPartOf(m, s.sstables)
  {
  }

  /** Everything between the bounds that the store holds is in the merged run, and nothing below them. */
  ghost predicate AllAsked(m: Store, merged: Run<Key>, lower: Bound<Bytes>, upper: Bound<Bytes>) {
    && PartOf(m, merged)
    && (forall e :: e in merged ==> AboveLower(e.key.user, lower))
    && (forall e :: InStore(m, e) && Asked(e, lower, upper) ==> e in merged)
  }

  /**
   * All sources of the snapshot, opened and merged: memtables before L0 before the levels. Nothing comes
   * back exactly when opening a table without entries makes the engine panic.
   */
  method OpenAll(hash: Bytes -> u32, s: LsmState, w: Wanted, ghost nextId: nat, ghost m: Store)
    returns (r: Option<TwoMergeIterator<Key>>)
    requires Inv(hash, s, nextId, m) && AllFilled(s.sstables, s.l0)
    ensures r.None? <==> WantsEmpty(w) && SomeEmpty(s, |s.levels|)
    ensures r.Some? ==> fresh(r.value) && r.value.Valid() && r.value.lt == KeyLess
    ensures r.Some? ==> AllAsked(m, r.value.Rest(), LowerOf(w), UpperOf(w))
  {
    hide Inv, Offers, KeyLess, Merge, MergeAll, PartOf, TableOk, LevelsOk, AllAsked, LowerOf, UpperOf, Sorted,
      TotalOrder, WantsEmpty, SomeEmpty, TablesNamed;
    KeyOrderIsTotal();
    InvIsSound(hash, s, nextId, m);
    ghost var lower, upper := LowerOf(w), UpperOf(w);
    var memtableIters := OpenMemtables(s, m, LowerOf(w), UpperOf(w));
    ghost var memSources := [s.memtable.entries] + MemRuns(s.imm);
    MergeOffers(m, memtableIters, memSources, lower, upper);
    var memtableIter := new MergeIterator(KeyLess, memtableIters);
    var tableIters := OpenL0(hash, s, m, w);
    ghost var l0Sources := RunsOf(s.sstables, s.l0);
    MergeOffers(m, tableIters, l0Sources, lower, upper);
    var l0Iter := new MergeIterator(KeyLess, tableIters);
    JoinOffers(m, memtableIter.Rest(), memSources, l0Iter.Rest(), l0Sources, lower, upper);
    var memL0Iter := new TwoMergeIterator(KeyLess, memtableIter.Rest(), l0Iter.Rest());
    var ok, levelIters := OpenLevels(hash, s, m, w);
    if !ok {
      return None;
    }
    ghost var levelSources := TierRuns(s.sstables, s.levels);
    MergeOffers(m, levelIters, levelSources, lower, upper);
    var levelIter := new MergeIterator(KeyLess, levelIters);
    JoinOffers(m, memL0Iter.Rest(), memSources + l0Sources, levelIter.Rest(), levelSources, lower, upper);
    var iter := new TwoMergeIterator(KeyLess, memL0Iter.Rest(), levelIter.Rest());
    OffersAll(hash, s, nextId, m, iter.Rest(), lower, upper);
    return Some(iter);
  }

  lemma InvIsSound(hash: Bytes -> u32, s: LsmState, nextId: nat, m: Store)
    requires Inv(hash, s, nextId, m)
    ensures Sound(hash, s, m) && Storable(m)
    ensures PartOf(m, s.memtable.entries) && forall i :: 0 <= i < |s.imm| ==> PartOf(m, s.imm[i].entries)
  {
    hide PartOf, TableOk, LevelOk, IdsOk, Bag, SstIds, Sorted, FilledIds, Storable, TablesNamed;
    SourcesAreParts(hash, s, nextId, m);
    PartsNamed(m, s.sstables);
  }

  lemma OffersAll(hash: Bytes -> u32, s: LsmState, nextId: nat, m: Store, merged: Run<Key>,
                  lower: Bound<Bytes>, upper: Bound<Bytes>)
    requires Inv(hash, s, nextId, m) && Sound(hash, s, m)
    requires var mems, l0 := [s.memtable.entries] + MemRuns(s.imm), RunsOf(s.sstables, s.l0);
             Offers(m, [merged], mems + l0 + TierRuns(s.sstables, s.levels), lower, upper)
    ensures AllAsked(m, merged, lower, upper)
  {
    hide KeyLess, AboveLower, BelowUpper, TableOk, MemIds, LevelIds, LevelsOk, PartOf, ConcatRun, MemBag, TableBag,
      TierRuns, RunsOf, MemRuns, TablesOk, MemsOk, Distinct, Sorted;
    assert PartOf(m, [merged][0]);
    var a, b, d := [s.memtable.entries] + MemRuns(s.imm), RunsOf(s.sstables, s.l0), TierRuns(s.sstables, s.levels);
    forall e ensures e in merged <==> InSome([merged], e) {
      OnlyOne(merged, e);
    }
    forall e | InStore(m, e) && Asked(e, lower, upper) ensures e in merged {
      EverySource(s, m, e);
      InSomeConcat(a, b, e);
      InSomeConcat(a + b, d, e);
    }
  }

  lemma InSomeConcat(a: seq<Run<Key>>, b: seq<Run<Key>>, e: Entry<Key>)
    ensures InSome(a + b, e) <==> InSome(a, e) || InSome(b, e)
  {
    if i :| 0 <= i < |a| && e in a[i] { assert (a + b)[i] == a[i]; }
    if i :| 0 <= i < |b| && e in b[i] { assert (a + b)[|a| + i] == b[i]; }
    if i :| 0 <= i < |a + b| && e in (a + b)[i] {
      assert i < |a| ==> e in a[i];
      assert i >= |a| ==> e in b[i - |a|];
    }
  }

  // ---------- get_with_ts ----------

  function DropNewer(r: Run<Key>, user: Bytes, t: u64): Run<Key> {
    if r != [] && r[0].key.user == user && r[0].key.ts > t then DropNewer(r[1..], user, t) else r
  }

  /** After the versions of `user` that are too new comes the visible one, or another key. */
  lemma {:induction false} HeadAnswers(m: Store, r: Run<Key>, user: Bytes, t: u64)
    requires PartOf(m, r) && forall e :: e in r ==> !Less(e.key.user, user)
    requires forall x: u64, v :: x <= t && InStore(m, Entry(Key(user, x), v)) ==> Entry(Key(user, x), v) in r
    ensures var d := DropNewer(r, user, t);
            Read(m, user, t) == if d != [] && d[0].key.user == user && d[0].value != [] then Some(d[0].value) else None
  {
    hide Less;
    UserOrderIsTotal();
    KeyOrderIsTotal();
    if r != [] && r[0].key.user == user && r[0].key.ts > t {
      forall e ensures e in r[1..] ==> e in r {}
      forall x: u64, v | x <= t && InStore(m, Entry(Key(user, x), v)) ensures Entry(Key(user, x), v) in r[1..] {
        TailMembers(KeyLess, r, Entry(Key(user, x), v));
      }
      HeadAnswers(m, r[1..], user, t);
    } else {
      var n := Newest(m, user, t);
      HeadIsMember(r);
      assert r != [] && r[0].key.user == user ==> InStore(m, r[0]) && Key(user, r[0].key.ts) in m;
      if n.Some? {
        var e := Entry(Key(user, n.value), m[Key(user, n.value)]);
        assert e in r;
        TailMembers(KeyLess, r, e);
        assert r[0].key.user == user;
      }
    }
  }

  lemma AllAskedOfKey(m: Store, merged: Run<Key>, key: Bytes)
    requires AllAsked(m, merged, Included(key), Included(key))
    ensures forall e :: e in merged ==> !Less(e.key.user, key)
    ensures forall x: u64, v :: InStore(m, Entry(Key(key, x), v)) ==> Entry(Key(key, x), v) in merged
  {
    hide Less, PartOf;
    UserOrderIsTotal();
    forall x: u64, v | InStore(m, Entry(Key(key, x), v)) ensures Entry(Key(key, x), v) in merged {
      OnlyThatKey(key, key);
      assert Asked(Entry(Key(key, x), v), Included(key), Included(key));
    }
  }

  /** `get_with_ts` returns what the store says of the key at the timestamp. */
  method GetWithTs(hash: Bytes -> u32, snapshot: LsmState, key: Bytes, readTs: u64, ghost nextId: nat, ghost m: Store)
    returns (r: Option<Bytes>)
    requires Inv(hash, snapshot, nextId, m) && AllFilled(snapshot.sstables, snapshot.l0)
    ensures r == Read(m, key, readTs)
  {
    hide Inv, KeyLess, Less, PartOf, Merge, AllAsked, Read, SomeEmpty, AllFilled;
    var merge := OpenAll(hash, snapshot, Single(key), nextId, m);
    var iter := merge.value;
    AllAskedOfKey(m, iter.Rest(), key);
    HeadAnswers(m, iter.Rest(), key, readTs) by { AskedParts(m, iter.Rest(), key); }
    ghost var merged := iter.Rest();
    while iter.IsValid() && iter.Key().user == key && iter.Key().ts > readTs
      invariant iter.Valid() && DropNewer(iter.Rest(), key, readTs) == DropNewer(merged, key, readTs)
      decreases |iter.Rest()|
    {
      iter.Next();
    }
    if iter.IsValid() && iter.Key().user == key && iter.Value() != [] {
      return Some(iter.Value());
    }
    return None;
  }

  lemma AskedParts(m: Store, merged: Run<Key>, key: Bytes)
    requires AllAsked(m, merged, Included(key), Included(key))
    ensures PartOf(m, merged)
  {
  }

  // ---------- scan_with_ts ----------

  /**
   * Draining the returned iterator gives exactly the answer to the scan. There is none exactly when the
   * scan meets a table without entries, where the source panics.
   */
  method ScanWithTs(hash: Bytes -> u32, snapshot: LsmState, lower: Bound<Bytes>, upper: Bound<Bytes>, readTs: u64,
                    ghost nextId: nat, ghost m: Store) returns (r: Option<LsmIterator>)
    requires Inv(hash, snapshot, nextId, m) && AllFilled(snapshot.sstables, snapshot.l0)
    ensures r.None? <==> MeetsEmpty(snapshot, lower, upper)
    ensures r.Some? ==> fresh(r.value) && fresh(r.value.inner) && r.value.Valid()
    ensures r.Some? ==> IsScan(r.value.Rest(), m, lower, upper, readTs)
  {
    hide Inv, KeyLess, Less, Merge, Read, IsScan, TakeInRange, VisibleScan, Sorted, AllFilled;
    var merge := OpenAll(hash, snapshot, Between(lower, upper), nextId, m);
    if merge.None? {
      return None;
    }
    var iter := merge.value;
    AllAskedScan(m, iter.Rest(), lower, upper, readTs);
    var lsmIter := new LsmIterator(iter, upper, readTs);
    return Some(lsmIter);
  }

  lemma AllAskedScan(m: Store, merged: Run<Key>, lower: Bound<Bytes>, upper: Bound<Bytes>, t: u64)
    requires AllAsked(m, merged, lower, upper)
    ensures Sorted(KeyLess, merged) && IsScan(TakeInRange(VisibleScan(merged, t), upper), m, lower, upper, t)
  {
    hide KeyLess, Less, AboveLower, BelowUpper, IsScan, TakeInRange, VisibleScan, Sorted;
    ScanAnswers(m, merged, lower, upper, t);
    PartSorted(m, merged);
  }

  /** Two answers to one scan are the same. */
  lemma ScanIsUnique(a: Run<Bytes>, b: Run<Bytes>, m: Store, lower: Bound<Bytes>, upper: Bound<Bytes>, t: u64)
    requires IsScan(a, m, lower, upper, t) && IsScan(b, m, lower, upper, t)
    ensures a == b
  {
    hide Less, AboveLower, BelowUpper, Read;
    UserOrderIsTotal();
    forall e ensures e in a <==> e in b {
      assert e == Entry(e.key, e.value);
    }
    SortedUnique(Less, a, b);
  }

  /** Getting a key gives what scanning just that key gives. */
  lemma GetIsScanOfOneKey(r: Run<Bytes>, m: Store, key: Bytes, t: u64)
    requires IsScan(r, m, Included(key), Included(key), t)
    ensures r == match Read(m, key, t) case None => [] case Some(v) => [Entry(key, v)]
  {
    hide Less, AboveLower, BelowUpper, Read, Sorted;
    UserOrderIsTotal();
    var got: Run<Bytes> := match Read(m, key, t) case None => [] case Some(v) => [Entry(key, v)];
    forall e ensures e in r <==> e in got {
      OnlyThatKey(e.key, key);
      assert e == Entry(e.key, e.value);
    }
    ShortIsSorted(got);
    IsScanSorted(r, m, key, t);
    SortedUnique(Less, r, got);
  }

  lemma ShortIsSorted(r: Run<Bytes>)
    requires |r| <= 1
    ensures Sorted(Less, r)
  {
  }

  lemma IsScanSorted(r: Run<Bytes>, m: Store, key: Bytes, t: u64)
    requires IsScan(r, m, Included(key), Included(key), t)
    ensures Sorted(Less, r)
  {
  }
}
