/**
 * The engine as a transition system: batches written record by record and then published, freezes,
 * flushes, and compactions that are generated, write their outputs one by one and are applied, in any
 * interleaving. Its abstract state is the map `contents` from versioned keys to values.
 */
module Machine {
  import Blocks
  import opened Bytes
  import opened Common
  import opened Compaction
  import opened Contents
  import opened EmptyTables
  import opened Install
  import opened Jobs
  import opened Keys
  import opened MemTables
  import opened Mvcc
  import opened Runs
  import opened State
  import opened Steps

  /** The strategy, the hash of the Bloom filters, and when a table builder counts as full. */
  datatype Params = Params(st: Strategy, hash: Bytes -> u32, full: Run<Key> -> bool)

  /** A running compaction: its task, the state it was generated from, and the tables written so far. */
  datatype Job = Job(snapshot: LsmState, task: Task, outs: seq<Table>)

  /** Records of the batch in flight, still to be put and put already. */
  datatype Batch = Batch(pending: seq<Entry<Key>>, done: seq<Entry<Key>>)

  datatype Config = Config(
    state: LsmState, nextId: nat, commitTs: u64, contents: Store, batch: Option<Batch>, job: Option<Job>)

  /** `WriteBatchRecord`: deleting is putting an empty value. */
  datatype Record = Put(user: Bytes, value: Bytes) | Del(user: Bytes)

  datatype Step =
    | BeginBatch(records: seq<Record>)
    | PutNext
    | Publish
    | FreezeMemtable
    | FlushOldest(table: Table)
    | StartJob(task: Task)
    | WriteOutput(table: Table)
    | FinishJob

  const MAX_TS: u64 := 0xFFFF_FFFF_FFFF_FFFF

  lemma NoLaterTs(t: u64)
    ensures t <= MAX_TS
  {
  }

  function EntryOf(r: Record, ts: u64): Entry<Key> {
    match r
    case Put(user, value) => Entry(Key(user, ts), value)
    case Del(user) => Entry(Key(user, ts), [])
  }

  function EntriesOf(records: seq<Record>, ts: u64): seq<Entry<Key>> {
    seq(|records|, i requires 0 <= i < |records| => EntryOf(records[i], ts))
  }

  /** A record whose key is not empty and whose key and value fit the 16-bit lengths of a block. */
  ghost predicate RecordOk(r: Record) {
    Blocks.Fits(EntryOf(r, 0))
  }

  ghost predicate RecordsOk(records: seq<Record>) {
    forall i :: 0 <= i < |records| ==> RecordOk(records[i])
  }

  /** What the tables that a task writes will hold: all that the builders are given, cut when full. */
  ghost function RunsToWrite(p: Params, tables: map<nat, Table>, task: Task): seq<Run<Key>>
    requires Readable(tables, task)
  {
    Outputs(p.full, ToBottom(task), CompactInput(tables, task), None)
  }

  /** The outputs written so far hold the first runs. */
  ghost predicate OutputsSoFar(p: Params, tables: map<nat, Table>, task: Task, outs: seq<Table>) {
    && Readable(tables, task)
    && OutRuns(outs) <= RunsToWrite(p, tables, task)
    && DistinctTables(outs)
    && forall i :: 0 <= i < |outs| ==> TableOk(p.hash, outs[i])
  }

  /** All outputs have been written. */
  ghost predicate JobWritten(p: Params, j: Job) {
    && Readable(j.snapshot.sstables, j.task)
    && OutRuns(j.outs) == RunsToWrite(p, j.snapshot.sstables, j.task)
  }

  ghost predicate CanStart(p: Params, s: LsmState, task: Task) {
    && Shape(p.st, s) && LevelsOk(s) && Known(s.sstables, s.l0) && TaskFor(p.st, s, task)
  }

  ghost predicate Does(p: Params, c: Config, step: Step, c': Config) {
    match step
    case BeginBatch(records) =>
      && c.batch.None? && c.commitTs < MAX_TS && RecordsOk(records)
      && c' == c.(batch := Some(Batch(EntriesOf(records, c.commitTs + 1), [])))
    case PutNext =>
      && c.batch.Some? && c.batch.value.pending != []
      && var b := c.batch.value;
      && var e := b.pending[0];
      && c' == c.(state := PutRecord(c.state, e), contents := c.contents[e.key := e.value],
                  batch := Some(b.(pending := b.pending[1..], done := b.done + [e])))
    case Publish =>
      && c.batch.Some? && c.batch.value.pending == [] && c.commitTs < MAX_TS
      && c' == c.(commitTs := c.commitTs + 1, batch := None)
    case FreezeMemtable =>
      && (c.batch.Some? ==> c.batch.value.pending == []) && c.state.memtable.entries != []
      && c' == c.(state := Freeze(c.state, c.nextId), nextId := c.nextId + 1)
    case FlushOldest(table) =>
      && FlushTable(p.hash, c.state, table)
      && c' == c.(state := Flush(c.state, table, FlushToL0(p.st)))
    case StartJob(task) =>
      && c.job.None? && CanStart(p, c.state, task) && Readable(c.state.sstables, task)
      && c' == c.(job := Some(Job(c.state, task, [])))
    case WriteOutput(table) =>
      && c.job.Some?
      && var j := c.job.value;
      && Readable(j.snapshot.sstables, j.task)
      && var runs := RunsToWrite(p, j.snapshot.sstables, j.task);
      && |j.outs| < |runs| && table.entries == runs[|j.outs|] && table.id == c.nextId && TableOk(p.hash, table)
      && c' == c.(job := Some(j.(outs := j.outs + [table])), nextId := c.nextId + 1)
    case FinishJob =>
      && c.job.Some?
      && var j := c.job.value;
      && JobWritten(p, j)
      && Finished(c.state, j.task, j.outs, c'.state)
      && c' == c.(state := c'.state, job := None,
                  contents := AfterCompaction(c.contents, ToBottom(j.task), CompactInput(j.snapshot.sstables, j.task)))
  }

  // ---------- the invariant ----------

  /** The last record for `user`, if any. */
  function LastWrite(done: seq<Entry<Key>>, user: Bytes): Option<Bytes> {
    if done == [] then None
    else if done[|done| - 1].key.user == user then Some(done[|done| - 1].value)
    else LastWrite(done[..|done| - 1], user)
  }

  /** Versions newer than the published timestamp are exactly those of the batch in flight. */
  ghost predicate BatchOk(c: Config) {
    match c.batch
    case None => forall k :: k in c.contents ==> k.ts <= c.commitTs
    case Some(b) =>
      && c.commitTs < MAX_TS
      && (forall k :: k in c.contents ==> k.ts <= c.commitTs + 1)
      && (forall i :: 0 <= i < |b.pending| ==> b.pending[i].key.ts == c.commitTs + 1 && Blocks.Fits(b.pending[i]))
      && (b.pending != [] ==> InFlightInMemtable(c))
      && (forall user :: Key(user, c.commitTs + 1) in c.contents ==>
            LastWrite(b.done, user) == Some(c.contents[Key(user, c.commitTs + 1)]))
      && (forall user :: LastWrite(b.done, user).Some? && LastWrite(b.done, user) != Some([]) ==>
            Key(user, c.commitTs + 1) in c.contents)
  }

  ghost predicate InFlightInMemtable(c: Config)
    requires c.commitTs < MAX_TS
  {
    forall k :: k in c.contents && k.ts == c.commitTs + 1 ==> Entry(k, c.contents[k]) in c.state.memtable.entries
  }

  ghost predicate JobOk(p: Params, c: Config, j: Job) {
    && Known(j.snapshot.sstables, SstIds(j.snapshot)) && LevelsOk(j.snapshot) && SoundTables(j.snapshot.sstables)
    && CanStart(p, j.snapshot, j.task)
    && OutputsSoFar(p, j.snapshot.sstables, j.task, j.outs)
    && (forall i :: 0 <= i < |j.outs| ==> j.outs[i].id !in AllIds(c.state) && j.outs[i].id < c.nextId)
    && Extends(p.st, j.snapshot, c.state)
  }

  ghost predicate MachineInv(p: Params, c: Config) {
    && Inv(p.hash, c.state, c.nextId, c.contents) && Shape(p.st, c.state)
    && BatchOk(c) && (c.job.Some? ==> JobOk(p, c, c.job.value))
  }

  function InitialLevels(st: Strategy): seq<Level> {
    match st
    case LeveledStrategy(o) => seq(o.maxLevels, i requires 0 <= i < o.maxLevels => Level(i + 1, []))
    case SimpleStrategy(o) => seq(o.maxLevels, i requires 0 <= i < o.maxLevels => Level(i + 1, []))
    case TieredStrategy(_) => []
    case NoCompaction => [Level(1, [])]
  }

  /** `LsmStorageState::create`. */
  function Initial(st: Strategy): Config {
    Config(LsmState(MemView(0, [], 0), [], [], InitialLevels(st), map[]), 1, 0, map[], None, None)
  }

  ghost predicate SaneOptions(st: Strategy) {
    match st
    case LeveledStrategy(o) => 1 <= o.maxLevels && 1 <= o.levelSizeMultiplier
    case SimpleStrategy(o) => 1 <= o.maxLevels
    case TieredStrategy(o) => 1 <= o.numTiers && (o.maxMergeWidth.Some? ==> 1 <= o.maxMergeWidth.value)
    case NoCompaction => true
  }

  lemma {:induction false} NoIds(levels: seq<Level>)
    requires forall i :: 0 <= i < |levels| ==> levels[i].ids == []
    ensures LevelIds(levels) == []
  {
    if levels != [] {
      NoIds(levels[1..]);
    }
  }

  lemma InitialInv(p: Params)
    requires SaneOptions(p.st)
    ensures MachineInv(p, Initial(p.st))
  {
    hide KeyLess, Sorted, Distinct, LevelIds, MemIds, Shape, LevelOk, Bag, AllIds, SstIds;
    var c := Initial(p.st);
    InitialIds(p.st);
    InitialLevelsFit(p.st, c.state.sstables);
    EmptySorted(KeyLess);
  }

  lemma InitialIds(st: Strategy)
    ensures var s := Initial(st).state;
            SstIds(s) == [] && AllIds(s) == [0] && Distinct(AllIds(s)) && Bag(s) == multiset{}
  {
    NoIds(InitialLevels(st));
  }

  lemma InitialLevelsFit(st: Strategy, tables: map<nat, Table>)
    requires SaneOptions(st)
    ensures Shape(st, Initial(st).state)
    ensures forall i :: 0 <= i < |InitialLevels(st)| ==> SparseLevelOk(tables, InitialLevels(st)[i].ids)
  {
    hide LevelOk;
    EmptyLevel(tables);
    FilledSparse(tables, []);
  }
}
