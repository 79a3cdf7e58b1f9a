/** One compaction task from generation to installation, without other steps in between. */
module CompactionRuns {
  import Blocks
  import opened Common
  import opened Compaction
  import opened Compactor
  import opened Contents
  import opened Install
  import opened Jobs
  import opened Keys
  import LeveledApply
  import LeveledCompaction
  import opened Machine
  import opened MachineProgress
  import opened MachineSafety
  import opened Runs
  import SimpleLeveled
  import opened State
  import TieredCompaction

  /** Ids from the counter, in order. */
  ghost predicate NextIds(nextId: nat, nextId': nat, outs: seq<Table>) {
    nextId' == nextId + |outs| && forall i :: 0 <= i < |outs| ==> outs[i].id == nextId + i
  }

  /** What running one task to its end does. */
  ghost predicate Compacts(p: Params, c: Config, task: Task, c': Config) {
    && Readable(c.state.sstables, task)
    && c'.contents == AfterCompaction(c.contents, ToBottom(task), CompactInput(c.state.sstables, task))
    && c'.commitTs == c.commitTs && c'.batch == c.batch && c'.job == c.job
    && exists outs ::
         && OutRuns(outs) == Outputs(p.full, ToBottom(task), CompactInput(c.state.sstables, task), None)
         && NextIds(c.nextId, c'.nextId, outs)
         && Finished(c.state, task, outs, c'.state)
  }

  /** The tables hold entries of the stored map, which a block can hold. */
  lemma TablesOfMachine(p: Params, c: Config)
    requires MachineInv(p, c)
    ensures TablesPartOf(c.contents, c.state.sstables) && Storable(c.contents)
  {
    hide KeyLess, LevelsOk, JobOk, BatchOk, Shape, TablesOk, MemsOk, IdsOk, Bag, Blocks.Fits;
    TablesArePart(p.hash, c.state, c.nextId, c.contents);
  }

  // ---------- generating ----------

  method Generate(p: Params, ghost c: Config, s: LsmState) returns (task: Option<Task>)
    requires MachineInv(p, c) && c.state == s && !p.st.NoCompaction?
    ensures forall t :: Generated(p.st, s, t) <==> task == Some(t)
    ensures task.Some? ==> CanStart(p, s, task.value)
  {
    hide Inv, JobOk, BatchOk, LeveledCompaction.GenerateTask, SimpleLeveled.GenerateTask,
      TieredCompaction.GenerateTask, LevelIds, KeyLess, SparseLevelOk;
    ReadyToGenerate(p, c);
    task := None;
    match p.st
    case LeveledStrategy(o) =>
      LeveledShaped(p, c);
      var t := LeveledCompaction.GenerateCompactionTask(o, s);
      if t.Some? {
        task := Some(Leveled(t.value));
      }
    case SimpleStrategy(o) =>
      var t := SimpleLeveled.GenerateCompactionTask(o, s);
      if t.Some? {
        task := Some(Simple(t.value));
      }
    case TieredStrategy(o) =>
      var t := TieredCompaction.GenerateCompactionTask(o, s);
      if t.Some? {
        task := Some(Tiered(t.value));
      }
  }

  /** What every controller may rely on. */
  lemma ReadyToGenerate(p: Params, c: Config)
    requires MachineInv(p, c)
    ensures LevelsOk(c.state) && Known(c.state.sstables, c.state.l0) && Shape(p.st, c.state)
  {
    hide KeyLess, SparseLevelOk, JobOk, BatchOk, Shape, MemIds, LevelIds, TablesOk, Distinct, Storable;
    SstIdsAreTables(c.state, c.nextId);
  }

  lemma LeveledShaped(p: Params, c: Config)
    requires MachineInv(p, c) && p.st.LeveledStrategy?
    ensures LeveledCompaction.Shaped(p.st.leveled, c.state)
  {
    hide KeyLess, JobOk, BatchOk, MemIds, LevelIds, TablesOk, Distinct, LevelOk, Inv;
    ReadyToGenerate(p, c);
    forall i | 0 <= i < |c.state.levels| ensures Known(c.state.sstables, c.state.levels[i].ids) {
      assert SparseLevelOk(c.state.sstables, c.state.levels[i].ids);
    }
  }

  /** With a single level below L0 a full compaction can be forced at any time. */
  lemma SingleLevelStart(p: Params, c: Config)
    requires MachineInv(p, c) && FlushToL0(p.st) && |c.state.levels| == 1
    ensures CanStart(p, c.state, ForceFull(c.state.l0, c.state.levels[0].ids))
  {
    hide Inv, JobOk, BatchOk, LevelIds, KeyLess;
    ReadyToGenerate(p, c);
  }

  // ---------- applying ----------

  /** Outputs just written with new ids for a task of the current state. */
  ghost predicate FreshOutputs(p: Params, c: Config, task: Task, outs: seq<Table>) {
    && MachineInv(p, c) && c.job.None? && CanStart(p, c.state, task) && Readable(c.state.sstables, task)
    && OutRuns(outs) == Outputs(p.full, ToBottom(task), CompactInput(c.state.sstables, task), None)
    && GoodTables(p.hash, outs, c.nextId)
  }

  /** The configuration with the task as a running job that has written `outs`. */
  function Started(c: Config, task: Task, outs: seq<Table>): Config {
    c.(job := Some(Job(c.state, task, outs)), nextId := c.nextId + |outs|)
  }

  /** Starting the job and writing its outputs one after the other are steps of the machine. */
  lemma {:induction false} JobWrites(p: Params, c: Config, task: Task, outs: seq<Table>, n: nat)
    requires FreshOutputs(p, c, task, outs) && n <= |outs|
    ensures MachineInv(p, Started(c, task, outs[..n]))
  {
    hide MachineInv, TableOk, KeyLess, CompactInput, Outputs, Readable, CanStart;
    var c1 := Started(c, task, outs[..n]);
    if n == 0 {
      assert Does(p, c, StartJob(task), c1);
      StepKeepsInv(p, c, StartJob(task), c1);
    } else {
      JobWrites(p, c, task, outs, n - 1);
      var c0, t := Started(c, task, outs[..n - 1]), outs[n - 1];
      assert outs[..n] == outs[..n - 1] + [t];
      assert OutRuns(outs)[n - 1] == t.entries;
      assert Does(p, c0, WriteOutput(t), c1);
      StepKeepsInv(p, c0, WriteOutput(t), c1);
    }
  }

  lemma JobStarted(p: Params, c: Config, task: Task, outs: seq<Table>)
    requires FreshOutputs(p, c, task, outs)
    ensures MachineInv(p, Started(c, task, outs)) && JobWritten(p, Job(c.state, task, outs))
    ensures NextIds(c.nextId, c.nextId + |outs|, outs)
  {
    hide MachineInv, TableOk, KeyLess, CompactInput, Outputs, Readable, CanStart;
    JobWrites(p, c, task, outs, |outs|);
    assert outs[..|outs|] == outs;
  }

  /** No controller touches the memtables or the tables. */
  lemma ListsKeepMemory(s: LsmState, task: Task, output: seq<nat>, r: LsmState)
    requires ListsAfter(s, task, output, r)
    ensures r.memtable == s.memtable && r.imm == s.imm && r.sstables == s.sstables
  {
    hide KeyLess, Minus, LeveledApply.NewLower;
  }

  /** Adding the outputs changes no table at hand and no list. */
  lemma OutputsExtend(p: Params, c: Config, j: Job)
    requires Inv(p.hash, c.state, c.nextId, c.contents) && JobOk(p, c, j) && JobWritten(p, j)
    ensures Extends(p.st, c.state, WithOutputs(c.state, j.outs)) && Distinct(SstIds(WithOutputs(c.state, j.outs)))
  {
    hide KeyLess, CompactInput, Outputs, Readable, CanStart, OutRuns, LevelIds, TableMap, Distinct, OutsOk, Flatten,
      Survivors, Inv, JobOk, LevelsOk, SparseLevelOk, SoundTables;
    JobOutputs(p, c, j);
    OutputsKeepLists(c.state, j.outs);
  }

  /** `apply_compaction_result` of the configured controller. */
  method ApplyCompactionResult(p: Params, ghost c: Config, task: Task, outs: seq<Table>, newState: LsmState)
    returns (r: LsmState, removedSsts: seq<nat>)
    requires FreshOutputs(p, c, task, outs) && newState == WithOutputs(c.state, outs) && Generated(p.st, c.state, task)
    ensures ListsAfter(newState, task, OutIds(outs), r) && removedSsts == InputIds(task)
  {
    hide KeyLess, Inv, JobOk, JobWritten, BatchOk, LevelIds, Distinct, FreshOutputs, SstIds, Started, WithOutputs,
      Extends, LeveledCompaction.GenerateTask, SimpleLeveled.GenerateTask, TieredCompaction.GenerateTask,
      LeveledApply.CanApply, LeveledCompaction.TaskOk, TieredCompaction.Sits, LeveledApply.Apply,
      SimpleLeveled.TaskOk;
    ghost var c1, j := Started(c, task, outs), Job(c.state, task, outs);
    StartedJob(p, c, task, outs);
    OutputsKeepLists(c.state, outs);
    OutputsExtend(p, c1, j);
    match task
    case Leveled(t) =>
      LeveledCanApply(p, c1, j, t);
      LeveledJob(p, c1, j, t);
      LeveledTaskPersists(p.st, c.state, newState, t);
      r, removedSsts := LeveledApply.ApplyCompactionResult(newState, t, OutIds(outs));
    case Simple(t) =>
      SimpleReady(p, c.state, t);
      r, removedSsts := SimpleLeveled.ApplyCompactionResult(newState, t, OutIds(outs));
    case Tiered(t) =>
      ghost var newer, older := TiersInPlace(p, c1, j, t);
      r, removedSsts := TieredCompaction.ApplyCompactionResult(newState, t, OutIds(outs), newer, older);
      assert r == TieredCompaction.Applied(newState, newer, older, OutIds(outs));
  }

  lemma StartedJob(p: Params, c: Config, task: Task, outs: seq<Table>)
    requires FreshOutputs(p, c, task, outs)
    ensures var c1, j := Started(c, task, outs), Job(c.state, task, outs);
            && Inv(p.hash, c1.state, c1.nextId, c1.contents) && Shape(p.st, c1.state) && JobOk(p, c1, j)
            && JobWritten(p, j) && c1.state == c.state
  {
    hide FreshOutputs, Inv, Shape, JobOk, BatchOk, JobWritten;
    JobStarted(p, c, task, outs);
  }

  lemma SimpleReady(p: Params, s: LsmState, t: LevelTask)
    requires p.st.SimpleStrategy? && Shape(p.st, s) && Generated(p.st, s, Simple(t))
    ensures forall s1: LsmState :: s1.levels == s.levels ==> SimpleLeveled.CanApply(s1, t)
  {
    hide SimpleLeveled.GenerateTask;
    SimpleLeveled.GenerateSound(p.st.simple, s);
  }

  // ---------- the whole task ----------

  /** Generated, compacted, applied, installed: one job of the machine, started and finished. */
  lemma TaskDone(p: Params, c: Config, task: Task, outs: seq<Table>, r: LsmState, c': Config)
    requires FreshOutputs(p, c, task, outs) && c.batch.None?
    requires ListsAfter(WithOutputs(c.state, outs), task, OutIds(outs), r)
    requires c'.state == WithoutInputs(r, InputIds(task)) && c'.nextId == c.nextId + |outs|
    requires c'.contents == AfterCompaction(c.contents, ToBottom(task), CompactInput(c.state.sstables, task))
    requires c'.commitTs == c.commitTs && c'.batch == None && c'.job == None
    ensures Compacts(p, c, task, c') && MachineInv(p, c')
  {
    hide CompactInput, Outputs, MachineInv, CanStart, Readable, OutRuns, ListsAfter, WithOutputs, WithoutInputs,
      GoodTables, AfterCompaction, NextIds;
    JobStarted(p, c, task, outs);
    assert Finished(c.state, task, outs, c'.state);
    assert Does(p, Started(c, task, outs), FinishJob, c');
    StepKeepsInv(p, Started(c, task, outs), FinishJob, c');
  }
}
