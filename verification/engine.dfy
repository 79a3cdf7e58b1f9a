/**
 * src/lsm_storage.rs and src/compact.rs: the storage engine as one object. Every method takes the
 * engine from one configuration of the transition system to the next ones, so it keeps its invariant.
 */
module Engine {
  import opened Batches
  import Blocks
  import opened Bytes
  import opened Common
  import opened Compaction
  import opened CompactionRuns
  import opened Compactor
  import opened Contents
  import opened EmptyTables
  import opened Install
  import opened Jobs
  import opened Keys
  import LeveledTermination
  import opened LsmIter
  import opened Machine
  import opened MachineProgress
  import opened MachineReads
  import opened MachineSafety
  import opened MemTables
  import opened Mvcc
  import opened ReadPath
  import opened Runs
  import opened Serving
  import SnapshotReads
  import opened State
  import opened Steps
  import TableBuilder
  import opened TableIter
  import opened Tables

  function Views(mems: seq<MemTable>): (r: seq<MemView>)
    reads mems
    ensures |r| == |mems| && forall i :: 0 <= i < |r| ==> r[i] == mems[i].View()
  {
    seq(|mems|, i requires 0 <= i < |mems| reads mems => mems[i].View())
  }

  lemma EntriesSnoc(batch: seq<Record>, i: nat, ts: u64)
    requires i < |batch|
    ensures EntriesOf(batch[..i + 1], ts) == EntriesOf(batch[..i], ts) + [EntryOf(batch[i], ts)]
  {
  }

  lemma OneRecord(r: Record, ts: u64)
    ensures forall user, before :: Overlaid(EntriesOf([r], ts), user, before) ==
              if user != r.user then before else if r.Del? || r.value == [] then None else Some(r.value)
  {
    var data := EntriesOf([r], ts);
    assert data[..0] == [];
    assert data[|data| - 1] == EntryOf(r, ts);
    forall user ensures LastWrite(data, user) == if user == r.user then Some(EntryOf(r, ts).value) else None {
      assert LastWrite([], user) == None;
    }
  }

  /** The bytes that a batch adds to a memtable: every key, an 8-byte timestamp, and every value. */
  function BatchBytes(batch: seq<Record>): nat {
    if batch == [] then 0
    else |batch[0].user| + 8 + (if batch[0].Put? then |batch[0].value| else 0) + BatchBytes(batch[1..])
  }

  lemma {:induction false} PutAllBytes(v: MemView, batch: seq<Record>, ts: u64)
    ensures PutAll(v, EntriesOf(batch, ts)).size == v.size + BatchBytes(batch)
    decreases |batch|
  {
    if batch != [] {
      var data := EntriesOf(batch, ts);
      assert data[1..] == EntriesOf(batch[1..], ts);
      PutAllBytes(PutEntry(v, data[0].key, data[0].value), batch[1..], ts);
    }
  }

  /** A memtable without entries has size 0. */
  ghost predicate Sized(v: MemView) {
    v.entries == [] ==> v.size == 0
  }

  lemma {:induction false} PutAllSized(v: MemView, data: seq<Entry<Key>>)
    requires Sized(v)
    ensures Sized(PutAll(v, data))
    decreases |data|
  {
    if data != [] {
      assert PutEntry(v, data[0].key, data[0].value).entries != [];
      PutAllSized(PutEntry(v, data[0].key, data[0].value), data[1..]);
    }
  }

  lemma {:induction false} RangeAll(r: Run<Key>)
    ensures Range(r, MapBoundLower(Unbounded), MapBoundUpper(Unbounded)) == r
  {
    if r != [] {
      RangeAll(r[1..]);
    }
  }

  /** `MemTable::flush` sees every entry. */
  lemma ScanAll(r: Run<Key>)
    requires Blocks.AllFit(r)
    ensures Yielded(Range(r, MapBoundLower(Unbounded), MapBoundUpper(Unbounded))) == r
  {
    RangeAll(r);
    assert r != [] ==> Blocks.Fits(r[0]);
  }

  lemma MemtableSorted(p: Params, c: Config)
    requires MachineInv(p, c)
    ensures Sorted(KeyLess, c.state.memtable.entries)
  {
    hide KeyLess, LevelsOk, TablesOk, IdsOk, JobOk, BatchOk, Shape, Bag;
  }

  /** The oldest immutable memtable can be written to a table. */
  lemma OldestMemtable(p: Params, c: Config)
    requires MachineInv(p, c) && c.state.imm != []
    ensures var r := c.state.imm[|c.state.imm| - 1].entries; Blocks.AllFit(r) && Sorted(KeyLess, r) && r != []
  {
    hide KeyLess, LevelsOk, TablesOk, IdsOk, JobOk, BatchOk, Shape, Sorted, Bag;
    SourcesAreParts(p.hash, c.state, c.nextId, c.contents);
    var r := c.state.imm[|c.state.imm| - 1].entries;
    assert PartOf(c.contents, r);
    PartFits(c.contents, r);
  }

  lemma PartFits(m: Store, r: Run<Key>)
    requires Storable(m) && PartOf(m, r)
    ensures Blocks.AllFit(r) && Sorted(KeyLess, r)
  {
    hide KeyLess, Blocks.Fits;
    forall i | 0 <= i < |r| ensures Blocks.Fits(r[i]) {
      assert r[i] in r;
      assert r[i] == Entry(r[i].key, m[r[i].key]);
    }
  }

  /** No reader of L0 meets a table without entries. */
  lemma L0Filled(p: Params, c: Config)
    requires MachineInv(p, c)
    ensures AllFilled(c.state.sstables, c.state.l0)
  {
    hide Inv, BatchOk, JobOk;
    if FlushToL0(p.st) {
      EmptiesHere(p.st, c.state);
    }
  }

  // ---------- the objects behind the tables ----------

  function SstMap(ssts: seq<SsTable>): map<nat, SsTable> {
    if ssts == [] then map[] else SstMap(ssts[1..])[ssts[0].id := ssts[0]]
  }

  ghost predicate MapsBacked(o: BuildOptions, sstables: map<nat, Table>, ssts: map<nat, SsTable>) {
    sstables.Keys == ssts.Keys && forall id :: id in sstables ==> Backed(o, sstables[id], ssts[id])
  }

  lemma {:induction false} OutputsBacked(o: BuildOptions, outs: seq<Table>, ssts: seq<SsTable>)
    requires AllBacked(o, outs, ssts)
    ensures MapsBacked(o, TableMap(outs), SstMap(ssts))
  {
    hide Backed;
    if outs != [] {
      assert Backed(o, outs[0], ssts[0]);
      OutputsBacked(o, outs[1..], ssts[1..]);
      SameId(o, outs[0], ssts[0]);
    }
  }

  lemma SameId(o: BuildOptions, t: Table, sst: SsTable)
    requires Backed(o, t, sst)
    ensures t.id == sst.id
  {
  }

  lemma InstalledBacked(o: BuildOptions, s: LsmState, ssts: map<nat, SsTable>, outs: seq<Table>, newSsts: seq<SsTable>,
                        firstId: nat, removed: seq<nat>)
    requires MapsBacked(o, s.sstables, ssts) && AllBacked(o, outs, newSsts) && GoodTables(o.hash, outs, firstId)
    requires (forall id :: id in s.sstables ==> id < firstId) && Known(s.sstables, removed)
    ensures var after := WithoutInputs(WithOutputs(s, outs), removed).sstables;
            MapsBacked(o, after, ssts + SstMap(newSsts) - set id | id in removed)
  {
    hide Backed, TableOk, TableMap, SstMap;
    OutputsBacked(o, outs, newSsts);
    var after := WithoutInputs(WithOutputs(s, outs), removed).sstables;
    forall i | 0 <= i < |outs| ensures outs[i].id in after && after[outs[i].id] == outs[i] {
      assert outs[i].id == firstId + i;
      TableMapHas(outs, outs[i].id);
    }
  }

  /** Tables at hand are named by their ids, which are below the counter. */
  lemma TableIds(p: Params, c: Config)
    requires MachineInv(p, c)
    ensures forall id :: id in c.state.sstables ==> id < c.nextId && c.state.sstables[id].id == id
  {
    hide KeyLess, LevelsOk, TablesOk, MemsOk, Bag, Storable, BatchOk, JobOk, Shape, Distinct;
    SstIdsAreTables(c.state, c.nextId);
  }

  /** The tables after a flush. */
  lemma FlushedBacked(o: BuildOptions, sstables: map<nat, Table>, ssts: map<nat, SsTable>, t: Table, sst: SsTable)
    requires MapsBacked(o, sstables, ssts) && Backed(o, t, sst)
    ensures MapsBacked(o, sstables[t.id := t], ssts[t.id := sst])
  {
    hide Backed;
    assert sstables[t.id := t][t.id] == t;
  }

  lemma IdsInOrder(hash: Bytes -> u32, outs: seq<Table>, firstId: nat)
    requires GoodTables(hash, outs, firstId)
    ensures forall i :: 0 <= i < |outs| ==> OutIds(outs)[i] == firstId + i
  {
    hide TableOk;
  }

  lemma NamedAt(r: Run<Key>, i: nat)
    requires Blocks.AllFit(r) && i < |r|
    ensures r[i].key.user != []
  {
    assert Blocks.Fits(r[i]);
  }

  class LsmStorageInner {
    const options: BuildOptions
    const strategy: Strategy
    var memtable: MemTable
    var immMemtables: seq<MemTable>
    var l0Sstables: seq<nat>
    var levels: seq<Level>
    /** The tables by id, as their entries and as the objects that hold their files. */
    var sstables: map<nat, Table>
    var ssts: map<nat, SsTable>
    var nextSstId: nat
    var commitTs: u64
    /** The plain map that the engine stands for. */
    ghost var contents: Store

    function P(): Params {
      Params(strategy, options.hash, Full(options.crc, options.blockSize, options.targetSstSize))
    }

    function View(): LsmState
      reads this, memtable, immMemtables
    {
      LsmState(memtable.View(), Views(immMemtables), l0Sstables, levels, sstables)
    }

    ghost function Configuration(): Config
      reads this, memtable, immMemtables
    {
      Config(View(), nextSstId, commitTs, contents, None, None)
    }

    /** Every table is backed by an object whose blocks hold the table's entries. */
    ghost predicate TablesBacked()
      reads this
    {
      MapsBacked(options, sstables, ssts)
    }

    ghost predicate Valid()
      reads this, memtable, immMemtables
    {
      && memtable !in immMemtables && 1 <= options.targetSstSize && options.blockSize <= Blocks.WIDTH
      && Sized(memtable.View()) && TablesBacked() && MachineInv(P(), Configuration())
    }

    constructor (options: BuildOptions, strategy: Strategy)
      requires SaneOptions(strategy) && 1 <= options.targetSstSize && options.blockSize <= Blocks.WIDTH
      ensures Valid() && Configuration() == Initial(strategy)
      ensures memtable.View() == MemView(0, [], 0) && immMemtables == [] && l0Sstables == [] && sstables == map[]
      ensures nextSstId == 1 && commitTs == 0 && contents == map[]
      ensures strategy.TieredStrategy? ==> levels == []
      ensures |levels| ==
              match strategy
              case LeveledStrategy(o) => o.maxLevels
              case SimpleStrategy(o) => o.maxLevels
              case TieredStrategy(_) => 0
              case NoCompaction => 1
      ensures forall i :: 0 <= i < |levels| ==> levels[i] == Level(i + 1, [])
    {
      hide MachineInv, Full;
      this.options, this.strategy := options, strategy;
      memtable := new MemTable(0);
      immMemtables, l0Sstables, levels, sstables, ssts := [], [], InitialLevels(strategy), map[], map[];
      nextSstId, commitTs, contents := 1, 0, map[];
      new;
      InitialInv(P());
    }

    // ---------- the files behind the tables ----------

    /** What the blocks of a table's file yield from its start is what the engine takes the table to hold. */
    method SeekTableToFirst(id: nat) returns (iter: SsTableIterator)
      requires Valid() && id in sstables && sstables[id].entries != []
      ensures fresh(iter) && fresh(iter.blkIter) && iter.Valid() && iter.Rest() == sstables[id].entries
    {
      hide MachineInv, Flatten, KeyLess, Ordered, Stores, TableBuilder.AllBlocks, Tables.Open;
      ghost var blocks := TableBuilder.AllBlocks(options.blockSize, sstables[id].entries);
      iter := new SsTableIterator.SeekToFirst(options.crc, ssts[id], blocks);
    }

    /** The same from a key on. */
    method SeekTableToKey(id: nat, key: Key) returns (iter: SsTableIterator)
      requires Valid() && id in sstables && sstables[id].entries != []
      ensures fresh(iter) && fresh(iter.blkIter) && iter.Valid()
      ensures iter.Rest() == LowerBound(KeyLess, sstables[id].entries, key)
    {
      hide MachineInv, Flatten, KeyLess, Ordered, Stores, TableBuilder.AllBlocks, Tables.Open, LowerBound;
      ghost var blocks := TableBuilder.AllBlocks(options.blockSize, sstables[id].entries);
      iter := new SsTableIterator.SeekToKey(options.crc, ssts[id], key, blocks);
    }

    /** Opening a table's file again gives the same filter and boundary keys, and blocks with the same entries. */
    lemma ReopenedTable(id: nat)
      requires Valid() && id in sstables && sstables[id].entries != [] && sstables[id].size < LIMIT
      ensures var t, r := sstables[id], Tables.Open(options.crc, id, ssts[id].file);
              && r.Ok? && r.value.bloom == t.bloom && r.value.firstKey == FirstKey(t) && r.value.lastKey == LastKey(t)
              && Stores(options.crc, r.value, TableBuilder.AllBlocks(options.blockSize, t.entries))
              && Flatten(TableBuilder.AllBlocks(options.blockSize, t.entries)) == t.entries
    {
      hide MachineInv, Flatten, KeyLess, Ordered, TableBuilder.AllBlocks, Tables.Open, MaxBoundaryTs;
      assert Backed(options, sstables[id], ssts[id]);
      TableIds(P(), Configuration());
    }

    // ---------- reading ----------

    method GetWithTs(key: Bytes, readTs: u64) returns (r: Option<Bytes>)
      requires Valid()
      ensures r == Read(contents, key, readTs)
    {
      hide Inv, Read, AllFilled, TablesBacked;
      L0Filled(P(), Configuration());
      r := SnapshotReads.GetWithTs(options.hash, View(), key, readTs, nextSstId, contents);
    }

    method Get(key: Bytes) returns (r: Option<Bytes>)
      requires Valid()
      ensures r == Read(contents, key, commitTs)
    {
      r := GetWithTs(key, commitTs);
    }

    /** Nothing comes back, because the engine panics, exactly when the scan meets a table without entries. */
    method ScanWithTs(lower: Bound<Bytes>, upper: Bound<Bytes>, readTs: u64) returns (r: Option<LsmIterator>)
      requires Valid()
      ensures r.None? <==> MeetsEmpty(View(), lower, upper)
      ensures r.Some? ==> fresh(r.value) && fresh(r.value.inner) && r.value.Valid()
      ensures r.Some? ==> IsScan(r.value.Rest(), contents, lower, upper, readTs)
    {
      hide Inv, IsScan, AllFilled, MeetsEmpty, TablesBacked;
      L0Filled(P(), Configuration());
      r := SnapshotReads.ScanWithTs(options.hash, View(), lower, upper, readTs, nextSstId, contents);
    }

    method Scan(lower: Bound<Bytes>, upper: Bound<Bytes>) returns (r: Option<LsmIterator>)
      requires Valid()
      ensures r.None? <==> MeetsEmpty(View(), lower, upper)
      ensures r.Some? ==> fresh(r.value) && fresh(r.value.inner) && r.value.Valid()
      ensures r.Some? ==> IsScan(r.value.Rest(), contents, lower, upper, commitTs)
    {
      hide MachineInv, IsScan, MeetsEmpty, TablesBacked;
      r := ScanWithTs(lower, upper, commitTs);
    }

    // ---------- writing ----------

    /**
     * The whole batch becomes visible at the next timestamp, the last record winning for a repeated
     * key; nothing changes at earlier timestamps.
     */
    method WriteBatch(batch: seq<Record>)
      requires Valid() && commitTs < MAX_TS && RecordsOk(batch)
      modifies this, memtable
      ensures Valid() && commitTs == old(commitTs) + 1
      ensures var freeze := old(memtable.approximateSize) + BatchBytes(batch) >= options.targetSstSize;
              Committed(old(Configuration()), batch, freeze, Configuration())
      ensures Visible(old(contents), contents, batch, commitTs)
    {
      hide MachineInv, PutAll, WriteAll, EntriesOf, KeyLess, Sorted, Full, Freeze, View, TablesBacked, Sized, Visible,
        RecordsOk;
      var ts := commitTs + 1;
      var data := StampBatch(batch, ts);
      MemtableSorted(P(), Configuration());
      SortedMemtable();
      var frozen := CommitRecords(data, ts);
      MemtableView();
      PutAllBytes(old(View()).memtable, batch, ts);
      CommitKeeps(P(), old(Configuration()), batch, frozen, Configuration());
    }

    lemma SortedMemtable()
      requires Sorted(KeyLess, View().memtable.entries)
      ensures Sorted(KeyLess, memtable.entries)
    {
    }

    twostate lemma MemtableView()
      ensures old(View()).memtable == old(memtable.View()) && old(memtable.View()).size == old(memtable.approximateSize)
    {
    }

    /** Puts the records, freezes the memtable if it has grown large enough, and publishes the timestamp. */
    method CommitRecords(data: seq<Entry<Key>>, ts: u64) returns (frozen: bool)
      requires memtable !in immMemtables && Sorted(KeyLess, memtable.entries) && Sized(memtable.View())
      requires 1 <= options.targetSstSize && TablesBacked()
      modifies this`memtable, this`immMemtables, this`nextSstId, this`commitTs, this`contents, memtable
      ensures var full := old(View()).(memtable := PutAll(old(View()).memtable, data));
              && View() == (if frozen then Freeze(full, old(nextSstId)) else full)
              && (frozen <==> full.memtable.size >= options.targetSstSize)
              && (frozen ==> full.memtable.entries != [])
      ensures nextSstId == (if frozen then old(nextSstId) + 1 else old(nextSstId)) && commitTs == ts
      ensures contents == WriteAll(old(contents), data) && Sized(memtable.View())
      ensures memtable !in immMemtables && TablesBacked()
    {
      hide PutAll, WriteAll, KeyLess, Sorted, Freeze, Views, MapsBacked;
      PutRecords(data);
      frozen := TryFreeze();
      commitTs := ts;
    }

    /** A put is visible to every read from then on; other keys read as before. */
    method Put(key: Bytes, value: Bytes)
      requires Valid() && commitTs < MAX_TS && 0 < |key| <= Blocks.WIDTH && |value| <= Blocks.WIDTH
      modifies this, memtable
      ensures Valid() && commitTs == old(commitTs) + 1
      ensures Read(contents, key, commitTs) == if value == [] then None else Some(value)
      ensures forall user :: user != key ==> Read(contents, user, commitTs) == Read(old(contents), user, old(commitTs))
    {
      hide MachineInv, Read, Committed, TablesBacked;
      OneRecord(Record.Put(key, value), commitTs + 1);
      WriteBatch([Record.Put(key, value)]);
    }

    /** A deletion hides the key. */
    method Delete(key: Bytes)
      requires Valid() && commitTs < MAX_TS && 0 < |key| <= Blocks.WIDTH
      modifies this, memtable
      ensures Valid() && commitTs == old(commitTs) + 1
      ensures Read(contents, key, commitTs) == None
      ensures forall user :: user != key ==> Read(contents, user, commitTs) == Read(old(contents), user, old(commitTs))
    {
      hide MachineInv, Read, Committed, TablesBacked;
      OneRecord(Del(key), commitTs + 1);
      WriteBatch([Del(key)]);
    }

    method PutRecords(data: seq<Entry<Key>>)
      requires memtable !in immMemtables && Sorted(KeyLess, memtable.entries) && Sized(memtable.View())
      modifies this`contents, memtable
      ensures View() == old(View()).(memtable := PutAll(old(View()).memtable, data))
      ensures contents == WriteAll(old(contents), data) && Sized(memtable.View())
    {
      hide PutAll, WriteAll, KeyLess, Sorted;
      PutAllSized(memtable.View(), data);
      memtable.PutBatch(data);
      contents := WriteAll(contents, data);
    }

    /** Deleting is putting an empty value; every record carries the timestamp of the batch. */
    static method StampBatch(batch: seq<Record>, ts: u64) returns (data: seq<Entry<Key>>)
      ensures data == EntriesOf(batch, ts)
    {
      data := [];
      for i := 0 to |batch|
        invariant data == EntriesOf(batch[..i], ts)
      {
        match batch[i] {
          case Put(k, v) => data := data + [Entry(Key(k, ts), v)];
          case Del(k) => data := data + [Entry(Key(k, ts), [])];
        }
        EntriesSnoc(batch, i, ts);
      }
      assert batch[..|batch|] == batch;
    }

    method TryFreeze() returns (frozen: bool)
      requires memtable !in immMemtables
      modifies this`memtable, this`immMemtables, this`nextSstId
      ensures memtable !in immMemtables
      ensures frozen <==> old(memtable.approximateSize) >= options.targetSstSize
      ensures frozen ==> View() == Freeze(old(View()), old(nextSstId)) && nextSstId == old(nextSstId) + 1
      ensures frozen ==> memtable.entries == [] && memtable.approximateSize == 0
      ensures !frozen ==> View() == old(View()) && nextSstId == old(nextSstId) && memtable == old(memtable)
    {
      var approxSize := memtable.approximateSize;
      frozen := approxSize >= options.targetSstSize;
      if frozen {
        ForceFreezeMemtable();
      }
    }

    /** The memtable becomes the newest immutable one; an empty one must not be frozen. */
    method ForceFreezeMemtable()
      requires memtable !in immMemtables
      modifies this`memtable, this`immMemtables, this`nextSstId
      ensures View() == Freeze(old(View()), old(nextSstId)) && nextSstId == old(nextSstId) + 1
      ensures immMemtables == [old(memtable)] + old(immMemtables) && memtable.id == old(nextSstId)
      ensures memtable !in immMemtables && memtable.entries == [] && memtable.approximateSize == 0
      ensures old(Valid() && memtable.entries != []) ==> Valid()
    {
      hide MachineInv, MapsBacked, Full;
      var oldMemTable := memtable;
      var memtableId := nextSstId;
      nextSstId := nextSstId + 1;
      immMemtables := [oldMemTable] + immMemtables;
      memtable := new MemTable(memtableId);
      assert Views(immMemtables) == [old(memtable.View())] + old(Views(immMemtables));
      if old(Valid() && memtable.entries != []) {
        StepKeepsInv(P(), old(Configuration()), FreezeMemtable, Configuration());
      }
    }

    // ---------- flushing ----------

    /** The oldest immutable memtable becomes a table with its id; what is stored stays the same. */
    method ForceFlushNextImmMemtable()
      requires Valid()
      modifies this
      ensures Valid() && contents == old(contents) && commitTs == old(commitTs) && nextSstId == old(nextSstId)
      ensures old(immMemtables) == [] ==> View() == old(View())
      ensures old(immMemtables) != [] ==>
                var n := |old(immMemtables)| - 1;
                var id := old(immMemtables)[n].id;
                && immMemtables == old(immMemtables)[..n]
                && id in sstables && sstables[id].entries == old(immMemtables[|immMemtables| - 1].entries)
                && if FlushToL0(strategy) then l0Sstables == [id] + old(l0Sstables) && levels == old(levels)
                   else levels == [Level(id, [id])] + old(levels) && l0Sstables == old(l0Sstables)
      ensures old(immMemtables) != [] ==>
                exists t ::
                  FlushTable(options.hash, old(View()), t) && View() == Flush(old(View()), t, FlushToL0(strategy))
    {
      hide MachineInv, TableOk, KeyLess, Sorted, Range, MapBoundLower, MapBoundUpper, Full, Backed, Blocks.AllFit,
        MapsBacked, Yielded, Flush;
      if immMemtables != [] {
        var mem := immMemtables[|immMemtables| - 1];
        OldestMemtable(P(), Configuration());
        assert mem.View() == View().imm[|immMemtables| - 1];
        ScanAll(mem.entries);
        var table, sst := BuildTable(mem.id, mem.Scan(Unbounded, Unbounded));
        InstallFlushed(table, sst);
        StepKeepsInv(P(), old(Configuration()), FlushOldest(table), Configuration());
      }
    }

    method InstallFlushed(table: Table, sst: SsTable)
      requires immMemtables != [] && table.id == immMemtables[|immMemtables| - 1].id
      requires TablesBacked() && Backed(options, table, sst)
      modifies this`immMemtables, this`l0Sstables, this`levels, this`sstables, this`ssts
      ensures View() == Flush(old(View()), table, FlushToL0(strategy))
      ensures immMemtables == old(immMemtables[..|immMemtables| - 1]) && sstables == old(sstables)[table.id := table]
      ensures if FlushToL0(strategy) then l0Sstables == [table.id] + old(l0Sstables) && levels == old(levels)
              else levels == [Level(table.id, [table.id])] + old(levels) && l0Sstables == old(l0Sstables)
      ensures TablesBacked()
    {
      hide Backed, MapsBacked;
      FlushedBacked(options, sstables, ssts, table, sst);
      immMemtables := immMemtables[..|immMemtables| - 1];
      if FlushToL0(strategy) {
        l0Sstables := [table.id] + l0Sstables;
      } else {
        levels := [Level(table.id, [table.id])] + levels;
      }
      sstables, ssts := sstables[table.id := table], ssts[table.id := sst];
      assert Views(immMemtables) == old(Views(immMemtables)[..|immMemtables| - 1]);
    }

    /** `MemTable::flush` into a fresh builder, and `build`. */
    method BuildTable(id: nat, entries: Run<Key>) returns (t: Table, sst: SsTable)
      requires Blocks.AllFit(entries) && Sorted(KeyLess, entries) && options.blockSize <= Blocks.WIDTH
      ensures t.id == id && t.entries == entries && TableOk(options.hash, t) && Backed(options, t, sst)
    {
      hide *;
      var builder := new TableBuilder.SsTableBuilder(options.crc, options.hash, options.blockSize);
      for i := 0 to |entries|
        invariant builder.Valid() && fresh(builder) && fresh(builder.builder) && builder.entries == entries[..i]
        invariant builder.crc == options.crc && builder.hash == options.hash && builder.blockSize == options.blockSize
      {
        NamedAt(entries, i);
        builder.Add(entries[i].key, entries[i].value);
        assert entries[..i + 1] == entries[..i] + [Entry(entries[i].key, entries[i].value)];
      }
      assert entries[..|entries|] == entries;
      t, sst := FinishTable(options, builder, entries, id);
    }

    // ---------- compacting ----------

    /** The controller's task for the current state. */
    method GenerateCompactionTask() returns (task: Option<Task>)
      requires Valid() && !strategy.NoCompaction?
      ensures forall t :: Generated(strategy, View(), t) <==> task == Some(t)
      ensures task.Some? ==> CanStart(P(), View(), task.value)
    {
      task := Generate(P(), Configuration(), View());
    }

    /** Merges the inputs of a task and writes the outputs; the state is left alone. */
    method Compact(task: Task) returns (outs: seq<Table>, newSsts: seq<SsTable>)
      requires Valid() && Readable(sstables, task)
      modifies this`nextSstId
      ensures nextSstId == old(nextSstId) + |outs| && GoodTables(options.hash, outs, old(nextSstId))
      ensures AllBacked(options, outs, newSsts) && CutAtTarget(options, outs, newSsts)
      ensures OutRuns(outs) == Outputs(P().full, ToBottom(task), CompactInput(sstables, task), None)
    {
      hide MachineInv, CompactInput, Outputs, Readable, Full, GoodTables, OutRuns, PartOf, TablesPartOf, Storable;
      TablesOfMachine(P(), Configuration());
      var input := OpenInput(sstables, task, contents);
      PartFits(contents, input);
      outs, newSsts, nextSstId := GenerateSstFromIter(options, input, ToBottom(task), nextSstId);
    }

    /**
     * Runs the generated task, if any. The stored map loses nothing but tombstones that a compaction
     * to the bottom drops, and every version stays in exactly one source. If the task reads a table
     * without entries the engine panics, with its state as it was.
     */
    method TriggerCompaction() returns (ok: bool)
      requires Valid() && !strategy.NoCompaction?
      modifies this
      ensures Valid()
      ensures (forall t :: !Generated(strategy, old(View()), t)) ==> ok && Configuration() == old(Configuration())
      ensures forall t :: Generated(strategy, old(View()), t) ==> (ok <==> AllFilled(old(sstables), InputIds(t)))
      ensures forall t :: Generated(strategy, old(View()), t) && ok ==>
                Compacts(P(), old(Configuration()), t, Configuration())
      ensures !ok ==> Configuration() == old(Configuration())
    {
      hide MachineInv, CanStart, Generated, Compacts, Outputs, CompactInput, Readable, OutRuns, Full,
        AfterCompaction, ListsAfter, GoodTables, WithOutputs, WithoutInputs, CanOpen, AllFilled, MapsBacked,
        AllBacked;
      ok := true;
      var task := GenerateCompactionTask();
      if task.Some? {
        TaskOpensIff(P(), Configuration(), task.value);
        TableIds(P(), Configuration());
        if !CanOpen(sstables, task.value) {
          return false;
        }
        ghost var c := old(Configuration());
        var outputSst, newSsts := Compact(task.value);
        var newState := WithOutputs(View(), outputSst);
        var applied, removedSsts := ApplyCompactionResult(P(), c, task.value, outputSst, newState);
        OutputsKeepLists(View(), outputSst);
        ListsKeepMemory(newState, task.value, OutIds(outputSst), applied);
        InstallState(applied, removedSsts, outputSst, newSsts, c.nextId);
        contents := AfterCompaction(contents, ToBottom(task.value), CompactInput(c.state.sstables, task.value));
        TaskDone(P(), c, task.value, outputSst, applied, Configuration());
      }
    }

    /** The lists and tables of the new state, without the tables that were compacted away. */
    method InstallState(applied: LsmState, removedSsts: seq<nat>, outs: seq<Table>, newSsts: seq<SsTable>,
                        ghost firstId: nat)
      requires applied.memtable == memtable.View() && applied.imm == Views(immMemtables)
      requires applied.sstables == WithOutputs(View(), outs).sstables
      requires TablesBacked() && AllBacked(options, outs, newSsts) && GoodTables(options.hash, outs, firstId)
      requires (forall id :: id in sstables ==> id < firstId) && Known(sstables, removedSsts)
      modifies this`l0Sstables, this`levels, this`sstables, this`ssts
      ensures View() == WithoutInputs(applied, removedSsts) && l0Sstables == applied.l0 && levels == applied.levels
      ensures TablesBacked()
    {
      hide AllBacked, GoodTables, TableMap, SstMap, Backed, MapsBacked;
      InstalledBacked(options, View(), ssts, outs, newSsts, firstId, removedSsts);
      l0Sstables, levels, sstables := applied.l0, applied.levels, applied.sstables;
      sstables := sstables - set id | id in removedSsts;
      ssts := ssts + SstMap(newSsts) - set id | id in removedSsts;
    }

    /** Compacts all of L0 and L1; with a single level that is everything on disk. */
    method ForceFullCompaction() returns (ok: bool)
      requires Valid() && FlushToL0(strategy) && |levels| == 1
      modifies this
      ensures Valid()
      ensures var task := ForceFull(old(l0Sstables), old(levels)[0].ids);
              && CanStart(P(), old(View()), task) && (ok <==> AllFilled(old(sstables), InputIds(task)))
              && if ok then Compacts(P(), old(Configuration()), task, Configuration())
                 else Configuration() == old(Configuration())
      ensures ok ==> l0Sstables == [] && |levels| == 1 && levels[0].number == 1
      ensures ok ==> nextSstId == old(nextSstId) + |levels[0].ids|
      ensures ok ==> forall i :: 0 <= i < |levels[0].ids| ==> levels[0].ids[i] == old(nextSstId) + i
    {
      hide MachineInv, CanStart, Compacts, Outputs, CompactInput, Readable, OutRuns, Full, AfterCompaction, CanOpen,
        AllFilled, MapsBacked, AllBacked, GoodTables, WithOutputs, WithoutInputs, Minus;
      SingleLevelStart(P(), Configuration());
      ghost var c := old(Configuration());
      var sstsToCompact := l0Sstables + levels[0].ids;
      var task := ForceFull(l0Sstables, levels[0].ids);
      TaskOpensIff(P(), c, task);
      TableIds(P(), c);
      if !CanOpen(sstables, task) {
        return false;
      }
      var outs, newSsts := Compact(task);
      var applied := WithOutputs(View(), outs);
      OutputsKeepLists(View(), outs);
      applied := applied.(l0 := Minus(applied.l0, sstsToCompact),
                          levels := applied.levels[0 := Level(1, OutIds(outs))]);
      LeveledTermination.MinusAll(l0Sstables, sstsToCompact);
      IdsInOrder(options.hash, outs, c.nextId);
      InstallState(applied, sstsToCompact, outs, newSsts, c.nextId);
      contents := AfterCompaction(contents, ToBottom(task), CompactInput(c.state.sstables, task));
      TaskDone(P(), c, task, outs, applied, Configuration());
      return true;
    }
  }
}
