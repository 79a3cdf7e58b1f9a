/** Every step of the engine keeps the invariant; so every run does. */
module MachineSafety {
  import opened Bytes
  import opened Common
  import opened Compaction
  import opened Contents
  import opened EmptyTables
  import opened Install
  import opened Jobs
  import opened Keys
  import LeveledApply
  import LeveledCompaction
  import opened Machine
  import opened Mvcc
  import opened ReadPath
  import opened Runs
  import SimpleLeveled
  import opened State
  import opened Steps
  import TieredCompaction

  // ---------- applying a job ----------

  lemma TablesArePart(hash: Bytes -> u32, s: LsmState, nextId: nat, m: Store)
    requires Inv(hash, s, nextId, m)
    ensures TablesPartOf(m, s.sstables) && SoundTables(s.sstables)
  {
    hide KeyLess, SstIds, MemIds, LevelsOk, MemsOk, Bag, Storable, TablesNamed;
    forall id | id in s.sstables ensures PartOf(m, s.sstables[id].entries) {
      assert TableOk(hash, s.sstables[id]);
      forall e | e in s.sstables[id].entries ensures InStore(m, e) {
        SourcesExact(s, m, e);
      }
    }
    PartsNamed(m, s.sstables);
  }

  /** The merged input of a job is the union of tables that are still there. */
  lemma JobInput(p: Params, c: Config, j: Job)
    requires Inv(p.hash, c.state, c.nextId, c.contents) && JobOk(p, c, j)
    ensures var input := CompactInput(j.snapshot.sstables, j.task);
            && Known(c.state.sstables, InputIds(j.task)) && HoldsInputs(input, c.state.sstables, InputIds(j.task))
            && PartOf(c.contents, input)
  {
    hide KeyLess, Sorted, SstIds, TableOk, LevelsOk, CompactInput, Readable, OutRuns, Outputs, TaskFor, Shape,
      InputIds;
    TablesArePart(p.hash, c.state, c.nextId, c.contents);
    CompactInputExact(c.contents, j.snapshot.sstables, j.task);
  }

  lemma SameRuns(t1: map<nat, Table>, t2: map<nat, Table>, ids: seq<nat>)
    requires Known(t1, ids) && forall id :: id in t1 ==> id in t2 && t2[id] == t1[id]
    ensures Known(t2, ids) && RunsOf(t1, ids) == RunsOf(t2, ids)
    ensures ConcatRun(t1, ids) == ConcatRun(t2, ids) && (LevelOk(t1, ids) ==> LevelOk(t2, ids))
  {
    hide KeyLess, Ordered, Flatten;
  }

  lemma SameInput(t1: map<nat, Table>, t2: map<nat, Table>, task: Task)
    requires Readable(t1, task) && forall id :: id in t1 ==> id in t2 && t2[id] == t1[id]
    ensures Readable(t2, task) && CompactInput(t1, task) == CompactInput(t2, task)
  {
    hide KeyLess, LevelOk, ConcatRun, Merge, MergeAll;
    match task
    case Leveled(t) =>
      SameRuns(t1, t2, t.upperIds);
      LevelKnown(t1, t.lowerIds);
      SameRuns(t1, t2, t.lowerIds);
    case Simple(t) =>
      SameRuns(t1, t2, t.upperIds);
      LevelKnown(t1, t.lowerIds);
      SameRuns(t1, t2, t.lowerIds);
    case Tiered(t) =>
      forall i | 0 <= i < |t.tiers|
        ensures Known(t2, t.tiers[i].ids) && LevelOk(t2, t.tiers[i].ids)
        ensures ConcatRun(t1, t.tiers[i].ids) == ConcatRun(t2, t.tiers[i].ids)
      {
        SameRuns(t1, t2, t.tiers[i].ids);
      }
      assert TierRuns(t1, t.tiers) == TierRuns(t2, t.tiers);
    case ForceFull(l0Ids, l1Ids) =>
      SameRuns(t1, t2, l0Ids);
      LevelKnown(t1, l1Ids);
      SameRuns(t1, t2, l1Ids);
  }

  lemma LevelKnown(tables: map<nat, Table>, ids: seq<nat>)
    requires LevelOk(tables, ids)
    ensures Known(tables, ids)
  {
  }

  /** Reading the inputs from any later state gives the same run: they stay until the job is done. */
  lemma LaterInput(p: Params, c: Config, j: Job)
    requires JobOk(p, c, j)
    ensures Readable(c.state.sstables, j.task)
    ensures CompactInput(c.state.sstables, j.task) == CompactInput(j.snapshot.sstables, j.task)
  {
    hide KeyLess, Readable, CompactInput, CanStart, SoundTables, LevelsOk, RunsToWrite, TableOk, AllIds, SstIds, Known;
    SameInput(j.snapshot.sstables, c.state.sstables, j.task);
  }

  lemma JobOutputs(p: Params, c: Config, j: Job)
    requires Inv(p.hash, c.state, c.nextId, c.contents) && JobOk(p, c, j) && JobWritten(p, j)
    ensures OutsOk(p.hash, c.state, c.nextId, j.outs)
    ensures Flatten(OutRuns(j.outs)) == Survivors(ToBottom(j.task), CompactInput(j.snapshot.sstables, j.task))
    ensures Widened(c.state, j.outs)
    ensures !ToBottom(j.task) ==> AllFilled(WithOutputs(c.state, j.outs).sstables, OutIds(j.outs))
    ensures SoundTables(WithOutputs(c.state, j.outs).sstables)
  {
    hide KeyLess, Sorted, SstIds, MemIds, CompactInput, Readable, Outputs, TaskFor, Shape, InputIds, Flatten,
      Survivors, Extends, Bag, LevelOk, Ordered, TableMap, Distinct, FilledIds, SoundTables;
    var input, bottom := CompactInput(j.snapshot.sstables, j.task), ToBottom(j.task);
    JobInput(p, c, j);
    OutputsFlatten(p.full, bottom, input, None);
    assert [] + Survivors(bottom, input) == Survivors(bottom, input);
    PartSorted(c.contents, input);
    SurvivorsMembers(bottom, input);
    OutputTables(p.hash, c.state, c.nextId, j.outs);
    SstIdsAreTables(c.state, c.nextId);
    if !bottom {
      UpperOutputsFilled(p.full, input, None);
      OutsFilled(c.state, j.outs);
    }
    OutsNamed(c.contents, input, bottom, j.outs);
    TablesArePart(p.hash, c.state, c.nextId, c.contents);
    WidenedSound(p.hash, c.state, j.outs);
  }

  lemma OutsFilled(s: LsmState, outs: seq<Table>)
    requires DistinctTables(outs) && forall i :: 0 <= i < |OutRuns(outs)| ==> OutRuns(outs)[i] != []
    ensures AllFilled(WithOutputs(s, outs).sstables, OutIds(outs))
  {
    hide TableMap;
    forall x | x in OutIds(outs) ensures x in TableMap(outs) && TableMap(outs)[x].entries != [] {
      TableMapHas(outs, x);
      var i :| 0 <= i < |outs| && outs[i].id == x;
      assert OutRuns(outs)[i] != [];
    }
  }

  /** Output entries are entries of the store. */
  lemma OutsNamed(m: Store, input: Run<Key>, bottom: bool, outs: seq<Table>)
    requires Storable(m) && PartOf(m, input) && Flatten(OutRuns(outs)) == Survivors(bottom, input)
    ensures forall i :: 0 <= i < |outs| ==> forall e :: e in outs[i].entries ==> e.key.user != []
  {
    hide KeyLess, Sorted, Flatten, Survivors;
    PartSorted(m, input);
    SurvivorsMembers(bottom, input);
    forall i, e | 0 <= i < |outs| && e in outs[i].entries ensures e.key.user != [] {
      FlattenMember(OutRuns(outs), e);
      assert e in OutRuns(outs)[i];
      assert InStore(m, e) && e == Entry(e.key, m[e.key]);
    }
  }

  lemma WidenedSound(hash: Bytes -> u32, s: LsmState, outs: seq<Table>)
    requires SoundTables(s.sstables) && forall i :: 0 <= i < |outs| ==> TableOk(hash, outs[i])
    requires forall i :: 0 <= i < |outs| ==> forall e :: e in outs[i].entries ==> e.key.user != []
    requires DistinctTables(outs)
    ensures SoundTables(WithOutputs(s, outs).sstables)
  {
    hide KeyLess, TableMap, RejectsAll;
    var tables := WithOutputs(s, outs).sstables;
    forall x | x in tables
      ensures Sorted(KeyLess, tables[x].entries) && forall e :: e in tables[x].entries ==> e.key.user != []
    {
      TableMapHas(outs, x);
      if x in TableMap(outs) {
        var i :| 0 <= i < |outs| && outs[i] == TableMap(outs)[x];
        assert TableOk(hash, outs[i]);
      }
    }
  }

  /** Output entries come from input tables. */
  lemma OutputsFromInputs(p: Params, c: Config, j: Job)
    requires Inv(p.hash, c.state, c.nextId, c.contents) && JobOk(p, c, j) && JobWritten(p, j) && j.task.Leveled?
    ensures Known(WithOutputs(c.state, j.outs).sstables, OutIds(j.outs))
    ensures var tables := WithOutputs(c.state, j.outs).sstables;
            LeveledApply.OutputsOk(c.state, j.task.levelTask, tables, FilledIds(tables, OutIds(j.outs)))
  {
    hide KeyLess, Sorted, SstIds, MemIds, CompactInput, Readable, Outputs, TaskFor, Shape, Flatten, Survivors,
      Extends, Bag, LevelOk, Ordered, TableMap, Distinct, TableOk, Inv, FilledIds, LevelsOk;
    JobInput(p, c, j);
    JobOutputs(p, c, j);
    var tables, input := WithOutputs(c.state, j.outs).sstables, CompactInput(j.snapshot.sstables, j.task);
    var output := FilledIds(tables, OutIds(j.outs));
    PartSorted(c.contents, input);
    SurvivorsMembers(ToBottom(j.task), input);
    forall x | x in output ensures x in OutIds(j.outs) {
      FilledMember(tables, OutIds(j.outs), x);
    }
    forall x, e | x in output && e in tables[x].entries
      ensures exists id :: id in InputIds(j.task) && id in c.state.sstables && e in c.state.sstables[id].entries
    {
      var i :| 0 <= i < |j.outs| && OutIds(j.outs)[i] == x;
      RunsOfOutputs(c.state, j.outs, i);
      FlattenMember(OutRuns(j.outs), e);
      assert e in OutRuns(j.outs)[i];
    }
  }

  lemma RunsOfOutputs(s: LsmState, outs: seq<Table>, i: nat)
    requires i < |outs| && DistinctTables(outs)
    ensures outs[i].id in WithOutputs(s, outs).sstables && WithOutputs(s, outs).sstables[outs[i].id] == outs[i]
  {
    TableMapHas(outs, outs[i].id);
  }

  /** For every strategy, applying a job replaces exactly its inputs and keeps the levels in order. */
  lemma JobLists(p: Params, c: Config, j: Job, r: LsmState)
    requires Inv(p.hash, c.state, c.nextId, c.contents) && Shape(p.st, c.state) && JobOk(p, c, j) && JobWritten(p, j)
    requires ListsAfter(WithOutputs(c.state, j.outs), j.task, OutIds(j.outs), r)
    ensures GoodLists(p.st, c.state, j.task, j.outs, r)
  {
    hide KeyLess, Sorted, SstIds, MemIds, CompactInput, Readable, Outputs, Inv, LevelOk, Ordered, OutputsSoFar,
      ListsAfter, Widened, GoodLists, LeveledCompaction.GenerateTask, SimpleLeveled.GenerateTask,
      TieredCompaction.GenerateTask, LeveledApply.OutputsOk, LeveledCompaction.TaskOk, SimpleLeveled.TaskOk,
      Extends, LevelsOk, SoundTables, FilledIds, AllFilled, EmptiesAtBottom, Known, LeveledApply.FilledTables;
    TablesArePart(p.hash, c.state, c.nextId, c.contents);
    JobOutputs(p, c, j);
    match j.task
    case Leveled(t) =>
      LeveledJob(p, c, j, t);
      OutputsFromInputs(p, c, j);
      LeveledLists(p.st, c.state, t, j.outs, r);
    case Simple(t) =>
      SimpleLeveled.GenerateSound(p.st.simple, j.snapshot);
      SimpleTaskPersists(p.st, j.snapshot, c.state, t);
      SameLevelCount(p.st, j.snapshot, c.state);
      SimpleLists(p.st, c.state, t, j.outs, r);
    case Tiered(t) =>
      TieredLists(p.st, c.state, t, j.outs, r);
    case ForceFull(l0Ids, l1Ids) =>
      FullTaskPersists(p.st, j.snapshot, c.state);
      ForceFullLists(p.st, c.state, l0Ids, l1Ids, j.outs, r);
  }

  lemma SameLevelCount(st: Strategy, snap: LsmState, s: LsmState)
    requires FlushToL0(st) && Extends(st, snap, s)
    ensures |s.levels| == |snap.levels|
  {
  }

  /** What a leveled job says of the state it was started in still holds of every later one. */
  lemma LeveledJob(p: Params, c: Config, j: Job, t: LevelTask)
    requires JobOk(p, c, j) && j.task == Leveled(t) && p.st.LeveledStrategy?
    ensures LeveledCompaction.TaskOk(c.state, t) && LeveledApply.FilledTables(c.state.sstables, t.upperIds)
    ensures t.isLowerLevelBottomLevel <==> t.lowerLevel == |c.state.levels|
  {
    hide KeyLess, Sorted, SstIds, OutputsSoFar, LeveledCompaction.GenerateTask, LeveledCompaction.TaskOk, Extends,
      SoundTables, LevelOk, AllFilled, LevelsOk, EmptiesAtBottom;
    LeveledCompaction.GenerateSound(p.st.leveled, j.snapshot);
    LeveledTaskPersists(p.st, j.snapshot, c.state, t);
    LeveledInputs(p.st, j.snapshot, t);
    SameLevelCount(p.st, j.snapshot, c.state);
    FilledLater(p.st, j.snapshot, c.state, t.upperIds);
  }

  lemma FilledLater(st: Strategy, snap: LsmState, s: LsmState, ids: seq<nat>)
    requires Extends(st, snap, s) && Known(snap.sstables, ids) && LeveledApply.FilledTables(snap.sstables, ids)
    ensures Known(s.sstables, ids) && LeveledApply.FilledTables(s.sstables, ids)
  {
    hide KeyLess, Sorted;
  }

  lemma FullTaskPersists(st: Strategy, snap: LsmState, s: LsmState)
    requires FlushToL0(st) && Extends(st, snap, s)
    ensures multiset(snap.l0) <= multiset(s.l0) && snap.levels == s.levels
  {
    SuffixBag(snap.l0, s.l0);
  }

  lemma FinishKeepsInv(p: Params, c: Config, c': Config)
    requires MachineInv(p, c) && Does(p, c, FinishJob, c')
    ensures MachineInv(p, c')
  {
    hide KeyLess, Sorted, SstIds, MemIds, CompactInput, Readable, Outputs, Inv, LevelsOk, OutputsSoFar, ListsAfter,
      Shape, JobOk, HoldsInputs, PartOf, OutsOk, Flatten, Survivors, OutRuns, AfterCompaction, WithOutputs;
    var j := c.job.value;
    var input := CompactInput(j.snapshot.sstables, j.task);
    var r :| ListsAfter(WithOutputs(c.state, j.outs), j.task, OutIds(j.outs), r) &&
      c'.state == WithoutInputs(r, InputIds(j.task));
    JobLists(p, c, j, r);
    JobInput(p, c, j);
    JobOutputs(p, c, j);
    InstallKeepsInv(p.hash, c.state, c.nextId, c.contents, ToBottom(j.task), input, InputIds(j.task), j.outs, r);
    FewerTables(r, InputIds(j.task));
    ShapeOfLists(p.st, r, c'.state);
    BatchAfterJob(c, c', ToBottom(j.task), input);
  }

  lemma FewerTables(r: LsmState, removed: seq<nat>)
    ensures var s := WithoutInputs(r, removed);
            forall x :: x in s.sstables ==> x in r.sstables && s.sstables[x] == r.sstables[x]
  {
  }

  lemma ShapeOfLists(st: Strategy, r: LsmState, s: LsmState)
    requires Shape(st, r) && r.l0 == s.l0 && r.levels == s.levels
    requires forall x :: x in s.sstables ==> x in r.sstables && s.sstables[x] == r.sstables[x]
    ensures Shape(st, s)
  {
  }

  lemma BatchAfterJob(c: Config, c': Config, bottom: bool, input: Run<Key>)
    requires BatchOk(c) && c'.contents == AfterCompaction(c.contents, bottom, input)
    requires c'.commitTs == c.commitTs && c'.state.memtable == c.state.memtable
    requires c'.batch == c.batch
    ensures BatchOk(c')
  {
    assert forall k :: k in c'.contents ==> k in c.contents && c'.contents[k] == c.contents[k];
    assert !bottom ==> c'.contents == c.contents;
  }

  // ---------- the other steps ----------

  lemma ExtendsMore(st: Strategy, snap: LsmState, s: LsmState, s': LsmState)
    requires Extends(st, snap, s)
    requires forall id :: id in s.sstables ==> id in s'.sstables && s'.sstables[id] == s.sstables[id]
    requires if FlushToL0(st) then s'.levels == s.levels && IsSuffix(s.l0, s'.l0)
             else s'.l0 == s.l0 && IsSuffix(s.levels, s'.levels)
    ensures Extends(st, snap, s')
  {
    if FlushToL0(st) {
      SuffixTransitive(snap.l0, s.l0, s'.l0);
    } else {
      SuffixTransitive(snap.levels, s.levels, s'.levels);
    }
  }

  lemma SuffixTransitive<T>(a: seq<T>, b: seq<T>, c: seq<T>)
    requires IsSuffix(a, b) && IsSuffix(b, c)
    ensures IsSuffix(a, c)
  {
    assert c[|c| - |a|..] == c[|c| - |b|..][|b| - |a|..];
  }

  lemma PutKeepsMachine(p: Params, c: Config, c': Config)
    requires MachineInv(p, c) && Does(p, c, PutNext, c')
    ensures MachineInv(p, c')
  {
    hide KeyLess, Sorted, Inv, JobOk, LastWrite, PutRecord, Shape;
    var e := c.batch.value.pending[0];
    PutKeepsInv(p.hash, c.state, c.nextId, c.contents, e);
    LastWriteSnoc(c.batch.value.done, e);
    PutKeepsLists(p, c, c');
    if c.job.Some? {
      JobContinues(p, c, c.job.value, c');
    }
  }

  lemma PutKeepsLists(p: Params, c: Config, c': Config)
    requires exists e :: c'.state == PutRecord(c.state, e)
    ensures c'.state.sstables == c.state.sstables && c'.state.l0 == c.state.l0 && c'.state.levels == c.state.levels
    ensures AllIds(c'.state) == AllIds(c.state) && (Shape(p.st, c.state) ==> Shape(p.st, c'.state))
  {
  }

  /** A job goes on while memtables are written, frozen and flushed. */
  lemma JobContinues(p: Params, c: Config, j: Job, c': Config)
    requires JobOk(p, c, j) && c.nextId <= c'.nextId
    requires forall id :: id in AllIds(c'.state) ==> id in AllIds(c.state) || c.nextId <= id
    requires forall id :: id in c.state.sstables ==>
               id in c'.state.sstables && c'.state.sstables[id] == c.state.sstables[id]
    requires if FlushToL0(p.st) then c'.state.levels == c.state.levels && IsSuffix(c.state.l0, c'.state.l0)
             else c'.state.l0 == c.state.l0 && IsSuffix(c.state.levels, c'.state.levels)
    ensures JobOk(p, c', j)
  {
    hide KeyLess, LevelsOk, OutputsSoFar, SoundTables, CanStart, AllIds, SstIds, Extends, IsSuffix, Known;
    ExtendsMore(p.st, j.snapshot, c.state, c'.state);
  }

  lemma LastWriteSnoc(done: seq<Entry<Key>>, e: Entry<Key>)
    ensures forall user ::
              LastWrite(done + [e], user) == if e.key.user == user then Some(e.value) else LastWrite(done, user)
  {
    assert (done + [e])[..|done|] == done;
  }

  lemma BeginKeepsMachine(p: Params, c: Config, records: seq<Record>, c': Config)
    requires MachineInv(p, c) && Does(p, c, BeginBatch(records), c')
    ensures MachineInv(p, c')
  {
    hide Inv, JobOk, Shape;
    SameJob(p, c, c');
  }

  /** Nothing that a job depends on has changed. */
  lemma SameJob(p: Params, c: Config, c': Config)
    requires c.state == c'.state && c.nextId == c'.nextId
    ensures forall j :: JobOk(p, c, j) ==> JobOk(p, c', j)
  {
  }

  lemma PublishKeepsMachine(p: Params, c: Config, c': Config)
    requires MachineInv(p, c) && Does(p, c, Publish, c')
    ensures MachineInv(p, c')
  {
    hide Inv, JobOk, Shape;
    SameJob(p, c, c');
  }

  lemma FreezeKeepsMachine(p: Params, c: Config, c': Config)
    requires MachineInv(p, c) && Does(p, c, FreezeMemtable, c')
    ensures MachineInv(p, c')
  {
    hide KeyLess, Sorted, Inv, JobOk, LastWrite, Freeze, Shape;
    FreezeKeepsInv(p.hash, c.state, c.nextId, c.contents);
    FreezeKeepsLists(p, c, c');
    if c.job.Some? {
      JobContinues(p, c, c.job.value, c');
    }
  }

  lemma FreezeKeepsLists(p: Params, c: Config, c': Config)
    requires c'.state == Freeze(c.state, c.nextId)
    ensures c'.state.sstables == c.state.sstables && c'.state.l0 == c.state.l0 && c'.state.levels == c.state.levels
    ensures AllIds(c'.state) == [c.nextId] + AllIds(c.state) && (Shape(p.st, c.state) ==> Shape(p.st, c'.state))
  {
    hide LevelIds, MemIds;
    MemsCons(c.state.memtable, c.state.imm);
  }

  lemma FlushKeepsMachine(p: Params, c: Config, table: Table, c': Config)
    requires MachineInv(p, c) && Does(p, c, FlushOldest(table), c')
    ensures MachineInv(p, c')
  {
    hide KeyLess, Sorted, Inv, JobOk, BatchOk, Flush, Shape, AllIds, SstIds, FlushTable, Distinct, IsSuffix;
    FlushedId(p.hash, c.state, table);
    FlushKeepsInv(p.hash, c.state, c.nextId, c.contents, table, FlushToL0(p.st));
    FlushIds(c.state, table, FlushToL0(p.st));
    SameIds(c.state, c'.state);
    FlushedFilled(p.hash, c.state, c.nextId, c.contents, table);
    FlushKeepsLists(p, c, table, c');
    SameBatch(c, c');
    if c.job.Some? {
      JobContinues(p, c, c.job.value, c');
    }
  }

  lemma SameBatch(c: Config, c': Config)
    requires c'.contents == c.contents && c'.commitTs == c.commitTs && c'.batch == c.batch
    requires c'.state.memtable == c.state.memtable
    ensures BatchOk(c) ==> BatchOk(c')
  {
    hide LastWrite;
  }

  lemma FlushedId(hash: Bytes -> u32, s: LsmState, table: Table)
    requires FlushTable(hash, s, table)
    ensures s.imm != [] && table.id == s.imm[|s.imm| - 1].id
  {
    hide TableOk;
  }

  lemma FlushedFilled(hash: Bytes -> u32, s: LsmState, nextId: nat, m: Store, table: Table)
    requires Inv(hash, s, nextId, m) && FlushTable(hash, s, table)
    ensures table.entries != []
  {
    hide TableOk, IdsOk, TablesOk, LevelsOk, Holds, Storable, KeyLess;
  }

  lemma FlushKeepsLists(p: Params, c: Config, table: Table, c': Config)
    requires c.state.imm != [] && c'.state == Flush(c.state, table, FlushToL0(p.st)) && table.entries != []
    ensures if FlushToL0(p.st) then c'.state.levels == c.state.levels && IsSuffix(c.state.l0, c'.state.l0)
            else c'.state.l0 == c.state.l0 && IsSuffix(c.state.levels, c'.state.levels)
    ensures c'.state.memtable == c.state.memtable && (Shape(p.st, c.state) ==> Shape(p.st, c'.state))
  {
  }

  lemma StartKeepsMachine(p: Params, c: Config, task: Task, c': Config)
    requires MachineInv(p, c) && Does(p, c, StartJob(task), c')
    ensures MachineInv(p, c')
  {
    hide KeyLess, Sorted, LevelIds, MemIds, LevelsOk, CanStart, Distinct, TableOk, RunsToWrite, Readable, SoundTables;
    TablesArePart(p.hash, c.state, c.nextId, c.contents);
    SstIdsAreTables(c.state, c.nextId);
    assert OutRuns([]) == [];
  }

  /** Writing the next output of a job takes an id that nothing uses. */
  lemma WriteKeepsMachine(p: Params, c: Config, table: Table, c': Config)
    requires MachineInv(p, c) && Does(p, c, WriteOutput(table), c')
    ensures MachineInv(p, c')
  {
    hide KeyLess, Sorted, SstIds, MemIds, LevelsOk, TablesOk, MemsOk, Bag, Storable, CanStart, Distinct, TableOk,
      RunsToWrite, Readable, SoundTables, Extends, Shape, BatchOk;
    var outs, runs := c.job.value.outs, RunsToWrite(p, c.job.value.snapshot.sstables, c.job.value.task);
    OneMoreOutput(outs, table, runs);
    SameButCounter(p, c, c');
  }

  lemma OneMoreOutput(outs: seq<Table>, table: Table, runs: seq<Run<Key>>)
    requires OutRuns(outs) <= runs && |outs| < |runs| && table.entries == runs[|outs|]
    ensures OutRuns(outs + [table]) <= runs
  {
    assert OutRuns(outs + [table]) == OutRuns(outs) + [table.entries];
  }

  lemma SameButCounter(p: Params, c: Config, c': Config)
    requires Inv(p.hash, c.state, c.nextId, c.contents)
    requires c'.state == c.state && c'.contents == c.contents && c'.nextId == c.nextId + 1
    requires c'.commitTs == c.commitTs && c'.batch == c.batch
    ensures Inv(p.hash, c'.state, c'.nextId, c'.contents) && (BatchOk(c) ==> BatchOk(c'))
    ensures forall x :: x in AllIds(c.state) ==> x < c.nextId
  {
    hide KeyLess, LevelsOk, TablesOk, MemsOk, Holds, Storable, Distinct, SstIds, MemIds, LastWrite;
  }

  /** Every step keeps the invariant. */
  lemma StepKeepsInv(p: Params, c: Config, step: Step, c': Config)
    requires MachineInv(p, c) && Does(p, c, step, c')
    ensures MachineInv(p, c')
  {
    hide MachineInv, Does;
    match step
    case BeginBatch(records) => BeginKeepsMachine(p, c, records, c');
    case PutNext => PutKeepsMachine(p, c, c');
    case Publish => PublishKeepsMachine(p, c, c');
    case FreezeMemtable => FreezeKeepsMachine(p, c, c');
    case FlushOldest(table) => FlushKeepsMachine(p, c, table, c');
    case StartJob(task) => StartKeepsMachine(p, c, task, c');
    case WriteOutput(table) => WriteKeepsMachine(p, c, table, c');
    case FinishJob => FinishKeepsInv(p, c, c');
  }

  ghost predicate IsRun(p: Params, run: seq<Config>, steps: seq<Step>) {
    |run| == |steps| + 1 && forall i :: 0 <= i < |steps| ==> Does(p, run[i], steps[i], run[i + 1])
  }

  /** In every reachable state the invariant holds: each version written is in exactly one source. */
  lemma {:induction false} RunKeepsInv(p: Params, run: seq<Config>, steps: seq<Step>, i: nat)
    requires IsRun(p, run, steps) && MachineInv(p, run[0]) && i < |run|
    ensures MachineInv(p, run[i])
  {
    hide MachineInv, Does;
    if i > 0 {
      RunKeepsInv(p, run, steps, i - 1);
      StepKeepsInv(p, run[i - 1], steps[i - 1], run[i]);
    }
  }

  lemma ReachableInv(p: Params, run: seq<Config>, steps: seq<Step>)
    requires SaneOptions(p.st) && IsRun(p, run, steps) && run[0] == Initial(p.st)
    ensures forall i :: 0 <= i < |run| ==> MachineInv(p, run[i])
  {
    hide MachineInv, Does;
    InitialInv(p);
    forall i | 0 <= i < |run| ensures MachineInv(p, run[i]) {
      RunKeepsInv(p, run, steps, i);
    }
  }
}
