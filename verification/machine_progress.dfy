/**
 * When a compaction gets stuck: opening its tables panics exactly if one is empty; after that it can
 * always be finished, whatever happens in between.
 */
module MachineProgress {
  import opened Common
  import opened Compaction
  import opened Contents
  import opened EmptyTables
  import opened Install
  import opened Jobs
  import opened Keys
  import LeveledApply
  import LeveledCompaction
  import opened Machine
  import opened MachineSafety
  import opened Runs
  import SimpleLeveled
  import opened State
  import TieredCompaction

  /** Opening the inputs of a compaction finds no empty table and a valid order: `compact` does not panic. */
  predicate CanOpen(tables: map<nat, Table>, task: Task) {
    match task
    case Leveled(t) => LevelsOpen(tables, t.upperLevel, t.upperIds, t.lowerIds)
    case Simple(t) => LevelsOpen(tables, t.upperLevel, t.upperIds, t.lowerIds)
    case Tiered(t) =>
      forall i :: 0 <= i < |t.tiers| ==> Known(tables, t.tiers[i].ids) && OpensAtFirst(tables, t.tiers[i].ids)
    case ForceFull(l0Ids, l1Ids) => LevelsOpen(tables, None, l0Ids, l1Ids)
  }

  predicate LevelsOpen(tables: map<nat, Table>, upper: Option<nat>, upperIds: seq<nat>, lowerIds: seq<nat>) {
    && Known(tables, upperIds) && Known(tables, lowerIds) && OpensAtFirst(tables, lowerIds)
    && if upper.None? then AllFilled(tables, upperIds) else OpensAtFirst(tables, upperIds)
  }

  /**
   * In every reachable state the tables that a task names exist. Running it panics if and only if one of
   * them is empty, which never happens to a leveled task.
   */
  lemma TaskOpensIff(p: Params, c: Config, task: Task)
    requires MachineInv(p, c) && CanStart(p, c.state, task)
    ensures Known(c.state.sstables, InputIds(task))
    ensures CanOpen(c.state.sstables, task) <==> AllFilled(c.state.sstables, InputIds(task))
    ensures Readable(c.state.sstables, task) <==> AllFilled(c.state.sstables, InputIds(task))
    ensures task.Leveled? ==> AllFilled(c.state.sstables, InputIds(task))
  {
    hide TaskFor, Shape, LevelsOk, SstIds, TableOk, Readable, JobOk, BatchOk, Distinct, SoundTables, CanOpen,
      InputIds, AllFilled;
    TablesArePart(p.hash, c.state, c.nextId, c.contents);
    SstIdsAreTables(c.state, c.nextId);
    TaskIsReadable(p.st, c.state, task);
    SoundNamed(c.state.sstables);
    TaskOpens(p.st, c.state, task);
  }

  lemma TaskOpens(st: Strategy, s: LsmState, task: Task)
    requires Shape(st, s) && LevelsOk(s) && Known(s.sstables, SstIds(s)) && SoundTables(s.sstables)
    requires Known(s.sstables, s.l0) && TaskFor(st, s, task)
    ensures CanOpen(s.sstables, task) <==> Readable(s.sstables, task)
    ensures Known(s.sstables, InputIds(task))
  {
    hide KeyLess, LeveledCompaction.GenerateTask, SimpleLeveled.GenerateTask, TieredCompaction.GenerateTask, SstIds,
      LevelIds, LevelOk, SparseLevelOk, SoundTables, OpensAtFirst, FilledIds;
    match task
    case Leveled(t) =>
      LeveledInputs(st, s, t);
      LeveledCompaction.GenerateSound(st.leveled, s);
      OrderedOpens(s.sstables, t.lowerIds);
      if t.upperLevel.Some? {
        OrderedOpens(s.sstables, t.upperIds);
      }
    case Simple(t) =>
      SimpleLeveled.GenerateSound(st.simple, s);
      LevelOpens(s, t.lowerLevel - 1);
      if t.upperLevel.Some? {
        LevelOpens(s, t.upperLevel.value - 1);
      }
    case Tiered(t) =>
      TieredShaped(st, s);
      TieredCompaction.TaskIsPrefix(st.tiered, s);
      forall i | 0 <= i < |t.tiers|
        ensures Known(s.sstables, t.tiers[i].ids)
        ensures OpensAtFirst(s.sstables, t.tiers[i].ids) <==> LevelOk(s.sstables, t.tiers[i].ids)
      {
        assert t.tiers[i] == s.levels[i];
        LevelOpens(s, i);
      }
      forall x | x in LevelIds(t.tiers) ensures x in s.sstables {
        LevelIdsMember(t.tiers, x);
      }
    case ForceFull(l0Ids, l1Ids) =>
      EmptiesHere(st, s);
      LevelOpens(s, 0);
  }

  lemma LevelOpens(s: LsmState, i: nat)
    requires LevelsOk(s) && SoundTables(s.sstables) && i < |s.levels|
    ensures Known(s.sstables, s.levels[i].ids)
    ensures OpensAtFirst(s.sstables, s.levels[i].ids) <==> LevelOk(s.sstables, s.levels[i].ids)
  {
    hide KeyLess, LevelOk, FilledIds, OpensAtFirst, SoundTables;
    assert SparseLevelOk(s.sstables, s.levels[i].ids);
    SoundNamed(s.sstables);
    AllNamed(s.sstables, s.levels[i].ids);
    OpensIff(s.sstables, s.levels[i].ids);
  }

  lemma OrderedOpens(tables: map<nat, Table>, ids: seq<nat>)
    requires SoundTables(tables) && LevelOk(tables, ids)
    ensures Known(tables, ids) && OpensAtFirst(tables, ids)
  {
    hide KeyLess, FilledIds, OpensAtFirst, SoundTables, Ordered;
    SoundNamed(tables);
    AllNamed(tables, ids);
    FilledSparse(tables, ids);
    OpensIff(tables, ids);
  }

  lemma {:induction false} OutputsSome(full: Run<Key> -> bool, bottom: bool, input: Run<Key>, open: Option<Run<Key>>)
    requires input != [] || open.Some?
    ensures Outputs(full, bottom, input, open) != []
    decreases |input|
  {
    if input != [] {
      var run := (if open.Some? then open.value else []) + (if bottom && input[0].value == [] then [] else [input[0]]);
      if !full(run) {
        OutputsSome(full, bottom, input[1..], Some(run));
      }
    }
  }

  /** A tiered compaction always writes a table: its first input table has an entry. */
  lemma TieredHasOutput(p: Params, c: Config, j: Job)
    requires Inv(p.hash, c.state, c.nextId, c.contents) && JobOk(p, c, j) && JobWritten(p, j)
    requires j.task.Tiered? && p.st.TieredStrategy?
    ensures j.outs != []
  {
    hide KeyLess, SstIds, MemIds, LevelsOk, CompactInput, Readable, OutRuns, Outputs, Inv, Distinct,
      TieredCompaction.GenerateTask;
    var input, tiers := CompactInput(j.snapshot.sstables, j.task), j.task.tieredTask.tiers;
    JobInput(p, c, j);
    TieredShaped(p.st, j.snapshot);
    TieredCompaction.TaskIsPrefix(p.st.tiered, j.snapshot);
    assert tiers[0] == j.snapshot.levels[0];
    var id := tiers[0].ids[0];
    LevelIdsMember(tiers, id);
    assert id in InputIds(j.task);
    FirstTierFilled(j.snapshot.sstables, j.task);
    assert c.state.sstables[id] == j.snapshot.sstables[id];
    var e := c.state.sstables[id].entries[0];
    assert e in c.state.sstables[id].entries;
    assert e in input;
    OutputsSome(p.full, ToBottom(j.task), input, None);
  }

  lemma FirstTierFilled(tables: map<nat, Table>, task: Task)
    requires task.Tiered? && Readable(tables, task) && task.tieredTask.tiers != []
    ensures AllFilled(tables, task.tieredTask.tiers[0].ids) && Known(tables, task.tieredTask.tiers[0].ids)
  {
    hide KeyLess;
    FilledSparse(tables, task.tieredTask.tiers[0].ids);
  }

  /** Tiers are named by their first table, so no two tiers have the same name. */
  lemma {:induction false} TierNamesDistinct(levels: seq<Level>)
    requires forall i :: 0 <= i < |levels| ==> levels[i].ids != [] && levels[i].number == levels[i].ids[0]
    requires Distinct(LevelIds(levels))
    ensures TieredCompaction.DistinctTiers(levels)
  {
    if levels != [] {
      var rest, first := levels[1..], levels[0].ids;
      forall i | 0 <= i < |rest| ensures rest[i] == levels[i + 1] {}
      assert multiset(LevelIds(levels)) == multiset(first) + multiset(LevelIds(rest));
      DistinctPart(LevelIds(rest), LevelIds(levels));
      TierNamesDistinct(rest);
      forall j | 0 < j < |levels| ensures levels[0].number != levels[j].number {
        assert rest[j - 1] == levels[j] && levels[j].number in rest[j - 1].ids;
        LevelIdsMember(rest, levels[j].number);
        assert levels[j].number in multiset(LevelIds(rest));
        assert multiset(LevelIds(levels))[levels[j].number] <= 1;
        assert levels[0].number in multiset(first);
      }
    }
  }

  /** The lists that applying a job leaves; `ListsAfter` asks for every condition that the code asserts. */
  lemma ListsExist(p: Params, c: Config, j: Job) returns (r: LsmState)
    requires Inv(p.hash, c.state, c.nextId, c.contents) && Shape(p.st, c.state) && JobOk(p, c, j) && JobWritten(p, j)
    ensures ListsAfter(WithOutputs(c.state, j.outs), j.task, OutIds(j.outs), r)
  {
    hide KeyLess, SstIds, Inv, OutputsSoFar, LeveledCompaction.GenerateTask, SimpleLeveled.GenerateTask,
      TieredCompaction.GenerateTask, LevelsOk, SoundTables, Extends, Widened, WithOutputs, TableMap,
      LeveledApply.CanApply, Known, TieredCompaction.Sits;
    JobOutputs(p, c, j);
    OutputsKeepLists(c.state, j.outs);
    var s1 := WithOutputs(c.state, j.outs);
    match j.task
    case Leveled(t) =>
      LeveledCanApply(p, c, j, t);
      r := LeveledApply.Apply(s1, t, OutIds(j.outs));
    case Simple(t) =>
      SimpleLeveled.GenerateSound(p.st.simple, j.snapshot);
      SimpleTaskPersists(p.st, j.snapshot, c.state, t);
      r := SimpleLeveled.Apply(s1, t, OutIds(j.outs));
    case Tiered(t) =>
      var newer, older := TiersInPlace(p, c, j, t);
      r := TieredCompaction.Applied(s1, newer, older, OutIds(j.outs));
    case ForceFull(l0Ids, l1Ids) =>
      r := s1.(l0 := Minus(s1.l0, l0Ids + l1Ids), levels := s1.levels[0 := Level(1, OutIds(j.outs))]);
  }

  lemma LeveledCanApply(p: Params, c: Config, j: Job, t: LevelTask)
    requires Inv(p.hash, c.state, c.nextId, c.contents) && Shape(p.st, c.state) && JobOk(p, c, j) && JobWritten(p, j)
    requires j.task == Leveled(t) && p.st.LeveledStrategy?
    ensures LeveledApply.CanApply(WithOutputs(c.state, j.outs), t, OutIds(j.outs))
  {
    hide KeyLess, SstIds, Inv, JobOk, LevelIds, Distinct, TableMap, LevelOk, FilledIds, SoundTables, OutsOk, Shape,
      LeveledCompaction.OverlappingSsts, LeveledCompaction.UpperIds, LeveledApply.FilledTables, Flatten, Survivors,
      CompactInput;
    JobOutputs(p, c, j);
    LeveledJob(p, c, j, t);
    LowerKnown(WithOutputs(c.state, j.outs).sstables, c.state.levels[t.lowerLevel - 1].ids, t.lowerIds, OutIds(j.outs));
  }

  /** The tiers of the task are still in a row, behind those flushed since. */
  lemma TiersInPlace(p: Params, c: Config, j: Job, t: TieredTask) returns (newer: seq<Level>, older: seq<Level>)
    requires Inv(p.hash, c.state, c.nextId, c.contents) && Shape(p.st, c.state) && JobOk(p, c, j) && JobWritten(p, j)
    requires j.task == Tiered(t) && p.st.TieredStrategy?
    ensures TieredCompaction.Sits(c.state.levels, newer, t.tiers, older) && j.outs != []
  {
    hide KeyLess, SstIds, Inv, OutputsSoFar, TieredCompaction.GenerateTask, LevelsOk, SoundTables, LevelIds, Distinct,
      TieredCompaction.DistinctTiers;
    TieredHasOutput(p, c, j);
    TieredShaped(p.st, j.snapshot);
    TieredCompaction.TaskIsPrefix(p.st.tiered, j.snapshot);
    var levels, snap := c.state.levels, j.snapshot.levels;
    newer, older := levels[..|levels| - |snap|], snap[|t.tiers|..];
    InARow(levels, snap, t.tiers);
    InvDistinct(p, c);
    TierNames(p.st, c.state);
  }

  lemma InARow(levels: seq<Level>, snap: seq<Level>, tiers: seq<Level>)
    requires IsSuffix(snap, levels) && tiers <= snap
    ensures levels == levels[..|levels| - |snap|] + tiers + snap[|tiers|..]
  {
    assert snap == tiers + snap[|tiers|..];
  }

  lemma InvDistinct(p: Params, c: Config)
    requires Inv(p.hash, c.state, c.nextId, c.contents)
    ensures Distinct(SstIds(c.state))
  {
    hide KeyLess, LevelsOk, TablesOk, MemsOk, Holds, SstIds, MemIds, Distinct;
    SstIdsAreTables(c.state, c.nextId);
  }

  lemma LowerKnown(tables: map<nat, Table>, lower: seq<nat>, removed: seq<nat>, added: seq<nat>)
    requires Known(tables, lower) && Known(tables, added)
    ensures Known(tables, Minus(lower, removed) + added)
  {
    forall id | id in Minus(lower, removed) ensures id in lower {
      MinusCount(lower, removed, id);
      assert id in multiset(Minus(lower, removed));
    }
  }

  lemma TierNames(st: Strategy, s: LsmState)
    requires st.TieredStrategy? && Shape(st, s) && Distinct(SstIds(s))
    ensures TieredCompaction.DistinctTiers(s.levels)
  {
    SstIdsBag(s);
    DistinctPart(LevelIds(s.levels), SstIds(s));
    TierNamesDistinct(s.levels);
  }

  /** In every reachable state a compaction whose outputs are all written can be applied. */
  lemma FinishEnabled(p: Params, c: Config)
    requires MachineInv(p, c) && c.job.Some? && JobWritten(p, c.job.value)
    ensures exists c' :: Does(p, c, FinishJob, c')
  {
    hide Inv, Shape, JobOk, ListsAfter, CompactInput, RunsToWrite, AfterCompaction, TaskFor;
    var j := c.job.value;
    var r := ListsExist(p, c, j);
    var s' := WithoutInputs(r, InputIds(j.task));
    var c' := c.(state := s', job := None,
                 contents := AfterCompaction(c.contents, ToBottom(j.task), CompactInput(j.snapshot.sstables, j.task)));
    assert Finished(c.state, j.task, j.outs, s');
    assert Does(p, c, FinishJob, c');
  }

  /** What a running job has still to write. */
  ghost function LeftToWrite(p: Params, j: Job): nat
    requires Readable(j.snapshot.sstables, j.task)
  {
    var all := |RunsToWrite(p, j.snapshot.sstables, j.task)|;
    if |j.outs| <= all then all - |j.outs| else 0
  }

  /** A job that is not done writing can write its next output, and then has one less left. */
  lemma WriteEnabled(p: Params, c: Config, table: Table)
    requires MachineInv(p, c) && c.job.Some? && !JobWritten(p, c.job.value)
    requires TableOk(p.hash, table) && table.id == c.nextId
    ensures Readable(c.job.value.snapshot.sstables, c.job.value.task)
    ensures var runs := RunsToWrite(p, c.job.value.snapshot.sstables, c.job.value.task);
            && |c.job.value.outs| < |runs|
            && (table.entries == runs[|c.job.value.outs|] ==>
                  exists c' ::
                    && Does(p, c, WriteOutput(table), c') && c'.job.Some?
                    && Readable(c'.job.value.snapshot.sstables, c'.job.value.task)
                    && LeftToWrite(p, c'.job.value) < LeftToWrite(p, c.job.value))
  {
    hide Inv, Shape, BatchOk, CanStart, RunsToWrite, TableOk, SoundTables, LevelsOk, Extends, AllIds, Known, Readable;
    var j := c.job.value;
    var runs := RunsToWrite(p, j.snapshot.sstables, j.task);
    assert OutRuns(j.outs) == runs[..|j.outs|];
    assert runs[..|runs|] == runs;
    if table.entries == runs[|j.outs|] {
      var c' := c.(job := Some(j.(outs := j.outs + [table])), nextId := c.nextId + 1);
      assert Does(p, c, WriteOutput(table), c');
    }
  }
}
