/**
 * The state of the storage engine (src/lsm_storage.rs, `LsmStorageState`), and what it stores.
 * A table is taken as its sorted entries, its file size and its Bloom filter; the table format
 * modules show that a table file gives back exactly the entries it was built from.
 */
module State {
  import Blocks
  import opened BloomFilter
  import opened Bytes
  import opened Common
  import opened Keys
  import opened MemTables
  import opened Mvcc
  import opened Runs

  datatype Table = Table(id: nat, entries: Run<Key>, size: nat, bloom: Option<Bloom>)

  /** A level and its number, or a tier and its id. */
  datatype Level = Level(number: nat, ids: seq<nat>)

  datatype LsmState = LsmState(
    memtable: MemView, imm: seq<MemView>, l0: seq<nat>, levels: seq<Level>, sstables: map<nat, Table>)

  function LevelIds(levels: seq<Level>): seq<nat> {
    if levels == [] then [] else levels[0].ids + LevelIds(levels[1..])
  }

  /** Every table that a read may visit. */
  function SstIds(s: LsmState): seq<nat> {
    s.l0 + LevelIds(s.levels)
  }

  function MemIds(mems: seq<MemView>): seq<nat> {
    if mems == [] then [] else [mems[0].id] + MemIds(mems[1..])
  }

  /** Ids of memtables and tables come from one counter; a flushed table takes its memtable's id. */
  function AllIds(s: LsmState): seq<nat> {
    [s.memtable.id] + MemIds(s.imm) + SstIds(s)
  }

  predicate Known(tables: map<nat, Table>, ids: seq<nat>) {
    forall id :: id in ids ==> id in tables
  }

  /** No id occurs twice. */
  ghost predicate Distinct(ids: seq<nat>) {
    forall x :: multiset(ids)[x] <= 1
  }

  lemma DistinctPart(part: seq<nat>, ids: seq<nat>)
    requires multiset(part) <= multiset(ids) && Distinct(ids)
    ensures Distinct(part)
  {
    forall x ensures multiset(part)[x] <= 1 {
      assert multiset(ids)[x] <= 1;
    }
  }

  lemma DistinctCons(x: nat, ids: seq<nat>)
    requires Distinct(ids) && x !in ids
    ensures Distinct([x] + ids)
  {
    forall y ensures multiset([x] + ids)[y] <= 1 {
      assert multiset([x] + ids)[y] == (if y == x then 1 else 0) + multiset(ids)[y];
      assert x !in multiset(ids);
    }
  }

  function TableBag(tables: map<nat, Table>, ids: seq<nat>): multiset<Entry<Key>>
    requires Known(tables, ids)
  {
    if ids == [] then multiset{} else multiset(tables[ids[0]].entries) + TableBag(tables, ids[1..])
  }

  function MemBag(mems: seq<MemView>): multiset<Entry<Key>> {
    if mems == [] then multiset{} else multiset(mems[0].entries) + MemBag(mems[1..])
  }

  /** Every stored version, counted once for each source that holds it. */
  function Bag(s: LsmState): multiset<Entry<Key>>
    requires Known(s.sstables, SstIds(s))
  {
    multiset(s.memtable.entries) + MemBag(s.imm) + TableBag(s.sstables, SstIds(s))
  }

  // ---------- invariants ----------

  /** Sorted entries and a filter that knows them all; the filter of a table without entries rejects every hash. */
  ghost predicate TableOk(hash: Bytes -> u32, t: Table) {
    && Sorted(KeyLess, t.entries)
    && (t.bloom.Some? ==>
          t.bloom.value.filter != [] && forall e :: e in t.entries ==> MayContainSpec(t.bloom.value, hash(e.key.user)))
    && (t.entries == [] ==> t.bloom.Some? && RejectsAll(t.bloom.value))
  }

  ghost predicate RejectsAll(b: Bloom) {
    b.filter != [] && forall h: u32 :: !MayContainSpec(b, h)
  }

  /** What `first_key` and `last_key` answer for a table without entries. */
  const NO_KEY: Key := Key([], 0)

  function FirstKey(t: Table): Key { if t.entries == [] then NO_KEY else t.entries[0].key }

  function LastKey(t: Table): Key { if t.entries == [] then NO_KEY else Last(t.entries) }

  function RunsOf(tables: map<nat, Table>, ids: seq<nat>): (r: seq<Run<Key>>)
    requires Known(tables, ids)
    ensures |r| == |ids| && forall i :: 0 <= i < |ids| ==> r[i] == tables[ids[i]].entries
  {
    seq(|ids|, i requires 0 <= i < |ids| => tables[ids[i]].entries)
  }

  /** Ids in use are distinct, below the counter, and name exactly the tables at hand. */
  ghost predicate IdsOk(s: LsmState, nextId: nat) {
    && Distinct(AllIds(s))
    && (forall x :: x in AllIds(s) ==> x < nextId)
    && (forall x :: x in s.sstables <==> x in SstIds(s))
    && (forall x :: x in s.sstables ==> s.sstables[x].id == x)
  }

  ghost predicate TablesOk(hash: Bytes -> u32, s: LsmState) {
    forall x :: x in s.sstables ==> TableOk(hash, s.sstables[x])
  }

  ghost predicate MemsOk(s: LsmState) {
    && Sorted(KeyLess, s.memtable.entries)
    && forall i :: 0 <= i < |s.imm| ==> Sorted(KeyLess, s.imm[i].entries) && s.imm[i].entries != []
  }

  /** The tables of a level are in key order and do not overlap: `check_sst_valid` passes. */
  ghost predicate LevelOk(tables: map<nat, Table>, ids: seq<nat>) {
    Known(tables, ids) && Ordered(KeyLess, RunsOf(tables, ids))
  }

  /** The tables that have entries. */
  function FilledIds(tables: map<nat, Table>, ids: seq<nat>): seq<nat>
    requires Known(tables, ids)
  {
    if ids == [] then []
    else (if tables[ids[0]].entries == [] then [] else [ids[0]]) + FilledIds(tables, ids[1..])
  }

  predicate AllFilled(tables: map<nat, Table>, ids: seq<nat>) {
    forall id :: id in ids && id in tables ==> tables[id].entries != []
  }

  /** Apart from tables without entries, which compacting to the bottom can leave, the level is in order. */
  ghost predicate SparseLevelOk(tables: map<nat, Table>, ids: seq<nat>) {
    Known(tables, ids) && LevelOk(tables, FilledIds(tables, ids))
  }

  ghost predicate LevelsOk(s: LsmState) {
    forall i :: 0 <= i < |s.levels| ==> SparseLevelOk(s.sstables, s.levels[i].ids)
  }

  lemma EmptyLevel(tables: map<nat, Table>)
    ensures LevelOk(tables, [])
  {
  }

  lemma SingleLevel(tables: map<nat, Table>, id: nat)
    requires id in tables && tables[id].entries != [] && Sorted(KeyLess, tables[id].entries)
    ensures LevelOk(tables, [id])
  {
  }

  predicate InStore(m: Store, e: Entry<Key>) {
    e.key in m && m[e.key] == e.value
  }

  /** The state stores exactly `m`, each version in exactly one source. */
  ghost predicate Holds(s: LsmState, m: Store)
    requires Known(s.sstables, SstIds(s))
  {
    forall e :: Bag(s)[e] == if InStore(m, e) then 1 else 0
  }

  /** Every stored key is non-empty, and keys and values fit the 16-bit lengths of a block. */
  ghost predicate Storable(m: Store) {
    forall k :: k in m ==> Blocks.Fits(Entry(k, m[k]))
  }

  ghost predicate Inv(hash: Bytes -> u32, s: LsmState, nextId: nat, m: Store) {
    IdsOk(s, nextId) && TablesOk(hash, s) && MemsOk(s) && LevelsOk(s) && Holds(s, m) && Storable(m)
  }

  // ---------- bags ----------

  lemma {:induction false} TableBagMember(tables: map<nat, Table>, ids: seq<nat>, e: Entry<Key>)
    requires Known(tables, ids)
    ensures e in TableBag(tables, ids) <==> exists id :: id in ids && e in tables[id].entries
  {
    if ids != [] {
      TableBagMember(tables, ids[1..], e);
      assert ids == [ids[0]] + ids[1..];
    }
  }

  lemma {:induction false} MemBagMember(mems: seq<MemView>, e: Entry<Key>)
    ensures e in MemBag(mems) <==> exists i :: 0 <= i < |mems| && e in mems[i].entries
  {
    if mems != [] {
      MemBagMember(mems[1..], e);
      if i :| 0 <= i < |mems| && e in mems[i].entries {
        if i > 0 { assert mems[1..][i - 1] == mems[i]; }
      }
      if i :| 0 <= i < |mems[1..]| && e in mems[1..][i].entries {
        assert mems[i + 1] == mems[1..][i];
      }
    }
  }

  lemma {:induction false} TableBagConcat(tables: map<nat, Table>, a: seq<nat>, b: seq<nat>)
    requires Known(tables, a + b)
    ensures Known(tables, a) && Known(tables, b)
    ensures TableBag(tables, a + b) == TableBag(tables, a) + TableBag(tables, b)
  {
    forall id | id in a || id in b ensures id in a + b {}
    if a == [] {
      assert a + b == b;
    } else {
      assert (a + b)[1..] == a[1..] + b;
      TableBagConcat(tables, a[1..], b);
    }
  }

  function Without<T>(s: seq<T>, i: nat): (r: seq<T>)
    requires i < |s|
    ensures |r| == |s| - 1
  {
    s[..i] + s[i + 1..]
  }

  lemma MultisetWithout<T>(s: seq<T>, i: nat)
    requires i < |s|
    ensures multiset(Without(s, i)) == multiset(s) - multiset{s[i]}
  {
    assert s == s[..i] + ([s[i]] + s[i + 1..]);
    assert multiset(s) == multiset(s[..i]) + (multiset{s[i]} + multiset(s[i + 1..]));
  }

  lemma TableBagWithout(tables: map<nat, Table>, ids: seq<nat>, i: nat)
    requires i < |ids| && Known(tables, ids)
    ensures Known(tables, Without(ids, i))
    ensures TableBag(tables, ids) == multiset(tables[ids[i]].entries) + TableBag(tables, Without(ids, i))
  {
    var a, b := ids[..i], ids[i + 1..];
    assert ids == a + ([ids[i]] + b);
    TableBagConcat(tables, a, [ids[i]] + b);
    assert ([ids[i]] + b)[1..] == b;
    TableBagConcat(tables, a, b);
  }

  /** The contents depend on the bag of ids, not on their order. */
  lemma {:induction false} TableBagPermutation(tables: map<nat, Table>, a: seq<nat>, b: seq<nat>)
    requires multiset(a) == multiset(b)
    requires Known(tables, a)
    ensures Known(tables, b)
    ensures TableBag(tables, a) == TableBag(tables, b)
    decreases |a|
  {
    hide TableBag, Without;
    forall id | id in b ensures id in a { assert id in multiset(b); }
    if a == [] {
      assert |multiset(a)| == |multiset(b)|;
    } else {
      assert a[0] in multiset(b);
      var i :| 0 <= i < |b| && b[i] == a[0];
      MultisetWithout(b, i);
      MultisetWithout(a, 0);
      TableBagWithout(tables, b, i);
      TableBagWithout(tables, a, 0);
      TableBagPermutation(tables, Without(a, 0), Without(b, i));
    }
  }

  lemma {:induction false} TableBagAgree(t1: map<nat, Table>, t2: map<nat, Table>, ids: seq<nat>)
    requires forall id :: id in ids ==> id in t1 && id in t2 && t1[id] == t2[id]
    ensures TableBag(t1, ids) == TableBag(t2, ids)
  {
    if ids != [] {
      TableBagAgree(t1, t2, ids[1..]);
    }
  }

  /** Every source is consistent with the store, and every stored version is in some source. */
  lemma SourcesExact(s: LsmState, m: Store, e: Entry<Key>)
    requires Known(s.sstables, SstIds(s))
    requires Holds(s, m)
    ensures InStore(m, e) <==>
            || e in s.memtable.entries
            || (exists i :: 0 <= i < |s.imm| && e in s.imm[i].entries)
            || (exists id :: id in SstIds(s) && e in s.sstables[id].entries)
  {
    hide SstIds, MemBag, TableBag;
    TableBagMember(s.sstables, SstIds(s), e);
    MemBagMember(s.imm, e);
    assert Bag(s)[e] == if InStore(m, e) then 1 else 0;
    assert e in Bag(s) <==>
           e in multiset(s.memtable.entries) || e in MemBag(s.imm) || e in TableBag(s.sstables, SstIds(s));
  }

  lemma {:induction false} LevelIdsMember(levels: seq<Level>, x: nat)
    ensures x in LevelIds(levels) <==> exists i :: 0 <= i < |levels| && x in levels[i].ids
  {
    if levels != [] {
      LevelIdsMember(levels[1..], x);
      if i :| 0 <= i < |levels| && x in levels[i].ids {
        if i > 0 { assert levels[1..][i - 1] == levels[i]; }
      }
      if i :| 0 <= i < |levels[1..]| && x in levels[1..][i].ids {
        assert levels[i + 1] == levels[1..][i];
      }
    }
  }

  lemma LevelIdsCons(l: Level, levels: seq<Level>)
    ensures LevelIds([l] + levels) == l.ids + LevelIds(levels)
  {
    assert ([l] + levels)[1..] == levels;
  }

  /** Replacing one level replaces its ids in the list of all. */
  lemma {:induction false} LevelIdsUpdate(levels: seq<Level>, i: nat, l: Level)
    requires i < |levels|
    ensures multiset(levels[i].ids) <= multiset(LevelIds(levels))
    ensures multiset(LevelIds(levels[i := l])) == multiset(LevelIds(levels)) - multiset(levels[i].ids) + multiset(l.ids)
  {
    hide LevelIds;
    var first, rest := levels[0], levels[1..];
    assert levels == [first] + rest;
    LevelIdsCons(first, rest);
    if i == 0 {
      assert levels[0 := l] == [l] + rest;
      LevelIdsCons(l, rest);
    } else {
      LevelIdsUpdate(rest, i - 1, l);
      assert levels[i := l] == [first] + rest[i - 1 := l];
      LevelIdsCons(first, rest[i - 1 := l]);
      ReplaceBeside(multiset(first.ids), multiset(LevelIds(rest)), multiset(rest[i - 1].ids), multiset(l.ids));
    }
  }

  lemma ReplaceBeside(first: multiset<nat>, rest: multiset<nat>, removed: multiset<nat>, added: multiset<nat>)
    requires removed <= rest
    ensures first + (rest - removed + added) == first + rest - removed + added && removed <= first + rest
  {
  }

  lemma SstIdsBag(s: LsmState)
    ensures multiset(SstIds(s)) == multiset(s.l0) + multiset(LevelIds(s.levels))
  {
  }
}
