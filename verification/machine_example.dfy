/**
 * Runs from the initial state that show what the transition system can do, with tables as the table builder
 * makes them: a compaction that brings a deleted value back, and one that writes a table without entries,
 * which later reads and compactions run into.
 */
module MachineExample {
  import opened Blocks
  import opened BloomFilter
  import opened Common
  import opened Compaction
  import opened Compactor
  import opened Contents
  import opened EmptyTables
  import opened Install
  import opened Jobs
  import opened Keys
  import opened Machine
  import opened MachineProgress
  import opened MachineReads
  import opened MachineSafety
  import opened MemTables
  import opened Mvcc
  import opened Runs
  import SimpleLeveled
  import opened State
  import opened Steps
  import opened TableBuilder
  import Tables

  /** Blocks of 4 KiB, tables of 1 MiB, and a hash that sends every key to bit 0 of its filter. */
  function Build(): BuildOptions {
    BuildOptions(_ => 0, _ => 0, 4096, 0x10_0000, 10, 1)
  }

  /** One level, compacted as soon as L0 has a table. */
  function ExampleParams(): Params {
    Params(SimpleStrategy(SimpleLeveled.Options(200, 1, 1)), Build().hash,
           Full(Build().crc, Build().blockSize, Build().targetSstSize))
  }

  // ---------- what the table builder makes of a few entries ----------

  /** Few enough entries for one block and for the smallest filter. */
  ghost predicate Few(r: Run<Key>) {
    |r| <= 2 && Sorted(KeyLess, r) && forall i :: 0 <= i < |r| ==> |r[i].key.user| == 1 && |r[i].value| <= 1
  }

  /** Bit 0 is set if there is any key. */
  function Filter(r: Run<Key>): Bloom {
    Bloom([if r == [] then 0 else 1, 0, 0, 0, 0, 0, 0, 0], 1)
  }

  lemma {:induction false} AllHashesZero(r: Run<Key>)
    ensures |Hashes(Build().hash, r)| == |r| && forall j :: 0 <= j < |r| ==> Hashes(Build().hash, r)[j] == 0
  {
    if r != [] {
      AllHashesZero(r[..|r| - 1]);
    }
  }

  lemma {:induction false} OneHasBitZero(offset: nat)
    ensures IsBitSet(1, offset) <==> offset == 0
  {
    if offset > 0 {
      ZeroHasNoBits(offset - 1);
    }
  }

  lemma FilterIsBuilt(r: Run<Key>)
    ensures IsFilterOf(Filter(r), Hashes(Build().hash, r))
  {
    var keys := Hashes(Build().hash, r);
    AllHashesZero(r);
    forall p | 0 <= p < 64 ensures GetBit(Filter(r).filter, p) <==> Marked(keys, 1, 64, p) {
      OneHasBitZero(p % 8);
      ZeroHasNoBits(p % 8);
      assert Probe(0, 0) == 0;
      if r != [] {
        assert keys[0] == 0 && (Hits(0, 1, 64, p) <==> p == 0);
      }
    }
  }

  /** A few entries stay in the open block, so the table is not full. */
  lemma FewAreNotFull(r: Run<Key>)
    requires Few(r)
    ensures !ExampleParams().full(r)
  {
    hide Data, EncodeEntry, KeyLess, Sorted;
    if |r| == 2 {
      var one := r[..1];
      assert one == [] + [r[0]] == [r[0]] && r == one + [r[1]];
      OneEntryData(r[0]);
      EncodeEntryLength([], r[0]);
      AddSnoc(Build().hash, 4096, [], r[0]);
      AddSnoc(Build().hash, 4096, one, r[1]);
    } else if |r| == 1 {
      assert r == [] + [r[0]];
      AddSnoc(Build().hash, 4096, [], r[0]);
    }
  }

  lemma OneEntryData(e: Entry<Key>)
    ensures Data([e]) == Data([]) + EncodeEntry([], e) && Data([]) == []
  {
    assert [e][..0] == [];
  }

  /** The object that `SsTableBuilder.Build` returns for the entries. */
  function BuiltSst(id: nat, r: Run<Key>): Tables.SsTable
    requires AllBuildable(4096, AllBlocks(4096, r))
  {
    var o, blocks := Build(), AllBlocks(4096, r);
    Tables.SsTable(Tables.FileBytes(o.crc, blocks, Filter(r)), Tables.Metas(o.crc, blocks),
                   |Tables.BlocksData(o.crc, blocks)|, id, if r == [] then NO_KEY else r[0].key,
                   if r == [] then NO_KEY else Last(r), Some(Filter(r)), MaxTs(r))
  }

  lemma BlocksAreBuildable(r: Run<Key>)
    ensures AllBuildable(4096, AllBlocks(4096, r))
  {
    hide Cut, Buildable;
    CutKeepsEntries(4096, r);
  }

  ghost function Built(id: nat, r: Run<Key>): (t: Table)
    ensures t.id == id && t.entries == r
  {
    BlocksAreBuildable(r);
    Table(id, r, |BuiltSst(id, r).file|, Some(Filter(r)))
  }

  /** The table is one that the engine makes: sound, and backed by its file. */
  lemma BuiltIsSound(id: nat, r: Run<Key>)
    requires Few(r)
    ensures AllBuildable(4096, AllBlocks(4096, r))
    ensures TableOk(ExampleParams().hash, Built(id, r)) && Backed(Build(), Built(id, r), BuiltSst(id, r))
  {
    hide KeyLess, Sorted, Hashes, IsFilterOf, MayContainSpec, Filter, SstHolds, Tables.FileBytes, Tables.Metas,
      Tables.BlocksData, AllBlocks, RejectsAll, AllBuildable;
    BlocksAreBuildable(r);
    FilterIsBuilt(r);
    FilterServes(Build().hash, r, Filter(r));
    if r == [] {
      NoHashes(Build().hash);
      EmptyFilterRejects(Filter(r));
    } else {
      FileOfTable(Build().crc, 4096, r, BuiltSst(id, r));
    }
  }

  lemma BuiltIsOk(id: nat, r: Run<Key>)
    requires Few(r)
    ensures TableOk(ExampleParams().hash, Built(id, r))
  {
    hide *;
    BuiltIsSound(id, r);
  }

  // ---------- reachable states ----------

  ghost predicate IsRunTo(p: Params, run: seq<Config>, steps: seq<Step>, c: Config) {
    IsRun(p, run, steps) && run[0] == Initial(p.st) && run[|steps|] == c
  }

  ghost predicate Reaches(p: Params, c: Config) {
    exists run, steps :: IsRunTo(p, run, steps, c)
  }

  lemma ReachInitial(p: Params)
    ensures Reaches(p, Initial(p.st))
  {
    hide Does;
    assert IsRunTo(p, [Initial(p.st)], [], Initial(p.st));
  }

  lemma ReachStep(p: Params, c: Config, step: Step, c': Config)
    requires Reaches(p, c) && Does(p, c, step, c')
    ensures Reaches(p, c')
  {
    hide Does;
    var run, steps :| IsRunTo(p, run, steps, c);
    assert IsRunTo(p, run + [c'], steps + [step], c');
  }

  lemma ReachedInv(p: Params, c: Config)
    requires SaneOptions(p.st) && Reaches(p, c)
    ensures MachineInv(p, c)
  {
    hide Does, MachineInv;
    var run, steps :| IsRunTo(p, run, steps, c);
    ReachableInv(p, run, steps);
  }

  // ---------- writing and flushing ----------

  /** A batch of one record, written and published. */
  function Wrote(c: Config, e: Entry<Key>): Config
    requires c.commitTs < MAX_TS
  {
    c.(state := PutRecord(c.state, e), contents := c.contents[e.key := e.value], commitTs := c.commitTs + 1)
  }

  lemma Write(p: Params, c: Config, r: Record) returns (c': Config)
    requires Reaches(p, c) && c.batch.None? && c.commitTs < MAX_TS && RecordOk(r)
    ensures Reaches(p, c') && c' == Wrote(c, EntryOf(r, c.commitTs + 1))
  {
    hide Reaches, PutRecord, EntryOf, RecordOk;
    var e := EntryOf(r, c.commitTs + 1);
    assert EntriesOf([r], c.commitTs + 1) == [e];
    var c1 := c.(batch := Some(Batch([e], [])));
    ReachStep(p, c, BeginBatch([r]), c1);
    var c2 := Wrote(c, e).(commitTs := c.commitTs, batch := Some(Batch([], [e])));
    assert [e][1..] == [] && [] + [e] == [e];
    ReachStep(p, c1, PutNext, c2);
    c' := Wrote(c, e);
    ReachStep(p, c2, Publish, c');
  }

  /** The only memtable frozen and flushed to L0. */
  lemma FreezeAndFlush(p: Params, c: Config) returns (c': Config)
    requires p == ExampleParams() && Reaches(p, c) && c.batch.None? && c.state.imm == [] && c.state.l0 == []
    requires c.state.memtable.entries != [] && Few(c.state.memtable.entries)
    ensures Reaches(p, c')
    ensures var id := c.state.memtable.id;
            var tables := c.state.sstables[id := Built(id, c.state.memtable.entries)];
            c' == c.(nextId := c.nextId + 1,
                     state := LsmState(MemView(c.nextId, [], 0), [], [id], c.state.levels, tables))
  {
    hide Reaches, KeyLess, Sorted, Few, Built, TableOk, ExampleParams, Full;
    FlushesToL0();
    var mem := c.state.memtable;
    BuiltIsOk(mem.id, mem.entries);
    var table := Built(mem.id, mem.entries);
    var c1 := c.(state := Freeze(c.state, c.nextId), nextId := c.nextId + 1);
    ReachStep(p, c, FreezeMemtable, c1);
    assert [mem] + [] == [mem] && [mem][..0] == [] && [table.id] + [] == [table.id];
    c' := c1.(state := Flush(c1.state, table, true));
    ReachStep(p, c1, FlushOldest(table), c');
  }

  lemma ExampleIsSane()
    ensures SaneOptions(ExampleParams().st)
  {
  }

  lemma FlushesToL0()
    ensures FlushToL0(ExampleParams().st)
  {
  }

  lemma OneIsFew(e: Entry<Key>)
    requires |e.key.user| == 1 && |e.value| <= 1
    ensures Few([e]) && Sorted(KeyLess, [e])
  {
    hide KeyLess;
  }

  // ---------- compacting L0 into an empty level ----------

  const TASK: Task := Simple(LevelTask(None, [0], 1, [], true))

  /** A state with one table of `r` in L0 and nothing below. */
  ghost predicate OneTable(c: Config, r: Run<Key>) {
    && c.state == LsmState(MemView(1, [], 0), [], [0], [Level(1, [])], map[0 := Built(0, r)])
    && c.nextId == 2 && c.batch.None? && c.job.None?
  }

  lemma InputOfTask(tables: map<nat, Table>, r: Run<Key>)
    requires tables == map[0 := Built(0, r)]
    ensures Readable(tables, TASK) && CompactInput(tables, TASK) == r
  {
    EmptyLevel(tables);
    var none: Run<Key>, noRuns: seq<Run<Key>> := [], [];
    assert RunsOf(tables, [0]) == [r] && RunsOf(tables, []) == noRuns;
    assert [r][1..] == noRuns && MergeAll(KeyLess, noRuns) == none;
    assert Merge(KeyLess, r, none) == r;
    assert MergeAll(KeyLess, [r]) == r;
    assert UpperRun(tables, None, [0]) == r;
    assert ConcatRun(tables, []) == none;
  }

  /** The task of that state starts, and writes one table of `out`. */
  lemma StartTask(p: Params, c: Config, r: Run<Key>, out: Run<Key>) returns (c': Config)
    requires p == ExampleParams() && Reaches(p, c) && OneTable(c, r)
    requires Few(out) && Outputs(p.full, true, r, None) == [out]
    ensures Reaches(p, c') && c' == c.(job := Some(Job(c.state, TASK, [Built(2, out)])), nextId := 3)
    ensures JobWritten(p, c'.job.value)
  {
    hide Reaches, KeyLess, TableOk, Outputs, CompactInput, Readable, Sorted, LevelsOk, Shape, Few, Built, ExampleParams,
      Full, CanStart, MachineInv;
    ExampleIsSane();
    ReachedInv(p, c);
    InputOfTask(c.state.sstables, r);
    StateIsUsable(p, c);
    TaskStarts(p, c.state);
    BuiltIsOk(2, out);
    var c1 := c.(job := Some(Job(c.state, TASK, [])));
    ReachStep(p, c, StartJob(TASK), c1);
    c' := c.(job := Some(Job(c.state, TASK, [Built(2, out)])), nextId := 3);
    assert [] + [Built(2, out)] == [Built(2, out)];
    assert RunsToWrite(p, c.state.sstables, TASK) == [out];
    ReachStep(p, c1, WriteOutput(Built(2, out)), c');
  }

  lemma StateIsUsable(p: Params, c: Config)
    requires MachineInv(p, c)
    ensures Shape(p.st, c.state) && LevelsOk(c.state)
  {
  }

  lemma TaskStarts(p: Params, s: LsmState)
    requires p == ExampleParams() && Shape(p.st, s) && LevelsOk(s)
    requires s.l0 == [0] && 0 in s.sstables && s.levels == [Level(1, [])]
    ensures CanStart(p, s, TASK)
  {
    hide LevelsOk;
  }

  // ---------- a deleted value comes back ----------

  const PUT: Entry<Key> := Entry(Key([1], 1), [7])
  const DELETED: Entry<Key> := Entry(Key([1], 2), [])

  /** Put, deletion, flush, and the generated compaction with its output written. */
  lemma PutDeleteCompact() returns (c: Config)
    ensures Reaches(ExampleParams(), c)
    ensures c.contents == map[PUT.key := PUT.value, DELETED.key := DELETED.value] && c.commitTs == 2 && c.batch.None?
    ensures c.job.Some? && c.job.value.task == TASK && JobWritten(ExampleParams(), c.job.value)
    ensures Readable(c.job.value.snapshot.sstables, TASK)
    ensures CompactInput(c.job.value.snapshot.sstables, TASK) == [DELETED, PUT]
  {
    hide Reaches, Sorted, Readable, CompactInput, Outputs, Built;
    var p := ExampleParams();
    ReachInitial(p);
    var c0 := Initial(p.st);
    var c1 := Write(p, c0, Put([1], [7]));
    var c2 := Write(p, c1, Del([1]));
    PutThenDeleted();
    var c3 := FreezeAndFlush(p, c2);
    assert OneTable(c3, [DELETED, PUT]);
    OneIsFew(PUT);
    OutputOfBoth();
    c := StartTask(p, c3, [DELETED, PUT], [PUT]);
    InputOfTask(c3.state.sstables, [DELETED, PUT]);
  }

  lemma PutThenDeleted()
    ensures var one := PutEntry(MemView(0, [], 0), PUT.key, PUT.value);
            PutEntry(one, DELETED.key, DELETED.value).entries == [DELETED, PUT]
    ensures Few([DELETED, PUT])
  {
    assert Merge(KeyLess, [PUT], []) == [PUT];
    var none: Run<Key> := [];
    assert [DELETED][1..] == none;
    assert Merge(KeyLess, [DELETED], [PUT]) == [DELETED] + Merge(KeyLess, none, [PUT]);
  }

  lemma OutputOfBoth()
    ensures Outputs(ExampleParams().full, true, [DELETED, PUT], None) == [[PUT]]
  {
    hide Full;
    var full, none: Run<Key> := ExampleParams().full, [];
    FewAreNotFull(none) by { EmptySorted(KeyLess); }
    OneIsFew(PUT);
    FewAreNotFull([PUT]);
    assert [DELETED, PUT][1..] == [PUT] && [PUT][1..] == none && none + none == none && none + [PUT] == [PUT];
    assert Outputs(full, true, none, Some([PUT])) == [[PUT]];
    assert Outputs(full, true, [PUT], Some(none)) == [[PUT]];
  }

  /** There is a reachable state whose next step brings a deleted value back to readers of a published timestamp. */
  lemma DeletedValueReturns()
    ensures exists c, c' ::
      && Reaches(ExampleParams(), c) && Does(ExampleParams(), c, FinishJob, c')
      && Resurrects(c, FinishJob, [1], c.commitTs)
      && Read(c.contents, [1], c.commitTs) == None && Read(c'.contents, [1], c.commitTs) == Some([7])
  {
    hide Reaches, Sorted, Readable, CompactInput, MachineInv, ExampleParams, Full, Finished, RunsToWrite;
    var p := ExampleParams();
    var c := PutDeleteCompact();
    ExampleIsSane();
    ReachedInv(p, c);
    FinishEnabled(p, c);
    var c' :| Does(p, c, FinishJob, c');
    var input: Run<Key> := [DELETED, PUT];
    DeletedKeyComesBack([1], [7]);
    assert c'.contents == AfterCompaction(c.contents, true, input);
    assert input[0] in input;
    assert Newest(c.contents, [1], 2) == Some(2);
    assert Uncovers(c.contents, input, [1], 2, 1);
  }

  // ---------- a table without entries ----------

  const GONE: Entry<Key> := Entry(Key([1], 1), [])

  /** The table that is made of nothing. */
  ghost function Empty(): (t: Table)
    ensures t.id == 2 && t.entries == []
  {
    Built(2, [])
  }

  lemma OutputOfGone()
    ensures Outputs(ExampleParams().full, true, [GONE], None) == [[]]
  {
    hide Full;
    var full, none: Run<Key> := ExampleParams().full, [];
    FewAreNotFull(none) by { EmptySorted(KeyLess); }
    assert [GONE][1..] == none && none + none == none;
    assert Outputs(full, true, none, Some(none)) == [none];
  }

  /** A deletion alone, flushed, and its compaction with the output written. */
  lemma DeleteStarts() returns (c: Config)
    ensures Reaches(ExampleParams(), c) && c.batch.None? && c.nextId == 3 && c.commitTs == 1
    ensures c.state == LsmState(MemView(1, [], 0), [], [0], [Level(1, [])], map[0 := Built(0, [GONE])])
    ensures c.job == Some(Job(c.state, TASK, [Empty()]))
    ensures JobWritten(ExampleParams(), Job(c.state, TASK, [Empty()]))
    ensures Readable(c.state.sstables, TASK) && CompactInput(c.state.sstables, TASK) == [GONE]
  {
    hide Reaches, Sorted, Readable, CompactInput, Outputs, TableOk, Built;
    var p := ExampleParams();
    ReachInitial(p);
    var c1 := Write(p, Initial(p.st), Del([1]));
    OneIsFew(GONE);
    assert Merge(KeyLess, [GONE], []) == [GONE];
    var c2 := FreezeAndFlush(p, c1);
    assert OneTable(c2, [GONE]);
    OutputOfGone();
    EmptySorted(KeyLess);
    c := StartTask(p, c2, [GONE], []);
    InputOfTask(c2.state.sstables, [GONE]);
  }

  /** There is a reachable state whose running compaction, as generated, writes a table without entries. */
  lemma EmptyTableWritten()
    ensures exists c, job :: Reaches(ExampleParams(), c) && c.job == Some(job) && HasEmpty(OutRuns(job.outs))
  {
    hide Reaches, Built, Empty, JobWritten, CompactInput, Readable;
    var c := DeleteStarts();
    var job := Job(c.state, TASK, [Empty()]);
    assert OutRuns(job.outs)[0] == [];
  }

  /** When it is done, the level has one table, without entries. */
  lemma DeleteCompact() returns (c: Config)
    ensures Reaches(ExampleParams(), c) && c.batch.None? && c.job.None? && c.nextId == 3 && c.commitTs == 1
    ensures c.state == LsmState(MemView(1, [], 0), [], [], [Level(1, [2])], map[2 := Empty()])
  {
    hide Reaches, Readable, CompactInput, Finished, JobWritten, Built, ExampleParams, Full, Empty;
    var p := ExampleParams();
    var c3 := DeleteStarts();
    var s' := FinishedEmpty(c3.state);
    c := c3.(state := s', job := None, contents := AfterCompaction(c3.contents, true, [GONE]));
    assert Does(p, c3, FinishJob, c);
    ReachStep(p, c3, FinishJob, c);
  }

  lemma FinishedEmpty(s: LsmState) returns (s': LsmState)
    requires s == LsmState(MemView(1, [], 0), [], [0], [Level(1, [])], map[0 := Built(0, [GONE])])
    ensures Finished(s, TASK, [Empty()], s')
    ensures s' == LsmState(MemView(1, [], 0), [], [], [Level(1, [2])], map[2 := Empty()])
  {
    hide Built, Empty;
    var none: seq<Table> := [];
    assert [Empty()][1..] == none;
    assert TableMap([Empty()]) == map[2 := Empty()];
    var s1 := WithOutputs(s, [Empty()]);
    assert OutIds([Empty()]) == [2];
    var t := TASK.levelTask;
    assert Minus([0], [0]) == [];
    var r := SimpleLeveled.Apply(s1, t, [2]);
    assert r.levels == [Level(1, [2])];
    assert ListsAfter(s1, TASK, OutIds([Empty()]), r);
    s' := WithoutInputs(r, InputIds(TASK));
  }

  /** There is a reachable state in which scanning everything panics. */
  lemma ScansMeetEmptyTable()
    ensures exists c :: Reaches(ExampleParams(), c) && MeetsEmpty(c.state, Unbounded, Unbounded)
  {
    hide Reaches, Built, Empty;
    var c := DeleteCompact();
    assert 2 in c.state.levels[0].ids && c.state.sstables[2].entries == [];
    assert !AllFilled(c.state.sstables, c.state.levels[0].ids);
  }

  /** One more write and flush, and the generated task reads that table: running it panics. */
  lemma CompactionMeetsEmptyTable()
    ensures exists c, task ::
      && Reaches(ExampleParams(), c) && c.job.None?
      && CanStart(ExampleParams(), c.state, task) && !CanOpen(c.state.sstables, task)
  {
    hide Reaches, Sorted, MachineInv, CanOpen, CanStart, ExampleParams, Full, Built, Few, KeyLess, TableOk;
    var p := ExampleParams();
    var c0 := DeleteCompact();
    var c1 := Write(p, c0, Put([2], [8]));
    var e := Entry(Key([2], 2), [8]);
    OneEntryPut(1, e);
    OneIsFew(e);
    var c := FreezeAndFlush(p, c1);
    ExampleIsSane();
    ReachedInv(p, c);
    StateIsUsable(p, c);
    var task := Simple(LevelTask(None, [1], 1, [2], true));
    NextTaskStarts(c.state);
    TaskOpensIff(p, c, task);
    assert ([1] + [2])[1] == 2;
    assert !AllFilled(c.state.sstables, InputIds(task));
  }

  lemma OneEntryPut(id: nat, e: Entry<Key>)
    ensures PutEntry(MemView(id, [], 0), e.key, e.value).entries == [e]
    ensures PutEntry(MemView(id, [], 0), e.key, e.value).id == id
  {
    assert Merge(KeyLess, [e], []) == [e];
  }

  lemma NextTaskStarts(s: LsmState)
    requires Shape(ExampleParams().st, s) && LevelsOk(s) && Known(s.sstables, s.l0)
    requires s.l0 == [1] && s.levels == [Level(1, [2])]
    ensures CanStart(ExampleParams(), s, Simple(LevelTask(None, [1], 1, [2], true)))
  {
    hide LevelsOk, Full;
  }
}
