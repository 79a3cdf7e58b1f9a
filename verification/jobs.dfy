/**
 * Compaction as a job: a task is generated from one state, its outputs are built from what that state holds,
 * and applied to a later one, after any number of writes, freezes and flushes.
 */
module Jobs {
  import opened Common
  import opened Compaction
  import opened Contents
  import opened EmptyTables
  import opened Install
  import opened Keys
  import LeveledApply
  import LeveledCompaction
  import opened Runs
  import SimpleLeveled
  import opened State
  import TieredCompaction

  datatype Strategy =
    | LeveledStrategy(leveled: LeveledCompaction.Options)
    | SimpleStrategy(simple: SimpleLeveled.Options)
    | TieredStrategy(tiered: TieredCompaction.Options)
    | NoCompaction

  predicate FlushToL0(st: Strategy) { !st.TieredStrategy? }

  /** Tables without entries lie in the last level only. */
  ghost predicate EmptiesAtBottom(s: LsmState) {
    && AllFilled(s.sstables, s.l0)
    && forall i :: 0 <= i < |s.levels| - 1 ==> AllFilled(s.sstables, s.levels[i].ids)
  }

  /** What the engine sets up for a strategy and every step keeps. */
  ghost predicate Shape(st: Strategy, s: LsmState) {
    match st
    case LeveledStrategy(o) => 1 <= o.maxLevels == |s.levels| && 1 <= o.levelSizeMultiplier && EmptiesAtBottom(s)
    case SimpleStrategy(o) => SimpleLeveled.Shaped(o, s) && EmptiesAtBottom(s)
    case TieredStrategy(o) =>
      && 1 <= o.numTiers && (o.maxMergeWidth.Some? ==> 1 <= o.maxMergeWidth.value) && s.l0 == []
      && forall i :: 0 <= i < |s.levels| ==> s.levels[i].ids != [] && s.levels[i].number == s.levels[i].ids[0]
    case NoCompaction => |s.levels| == 1 && EmptiesAtBottom(s)
  }

  /** The task that the controller generates. */
  ghost predicate Generated(st: Strategy, s: LsmState, task: Task)
    requires Shape(st, s)
  {
    match st
    case LeveledStrategy(o) =>
      && LeveledCompaction.Shaped(o, s) && task.Leveled?
      && LeveledCompaction.GenerateTask(o, s) == Some(task.levelTask)
    case SimpleStrategy(o) => task.Simple? && SimpleLeveled.GenerateTask(o, s) == Some(task.levelTask)
    case TieredStrategy(o) => task.Tiered? && TieredCompaction.GenerateTask(o, s) == Some(task.tieredTask)
    case NoCompaction => false
  }

  /** The task of a forced full compaction, for an engine with a single level below L0. */
  ghost predicate Forced(st: Strategy, s: LsmState, task: Task) {
    FlushToL0(st) && |s.levels| == 1 && task == ForceFull(s.l0, s.levels[0].ids)
  }

  ghost predicate TaskFor(st: Strategy, s: LsmState, task: Task)
    requires Shape(st, s)
  {
    Generated(st, s, task) || Forced(st, s, task)
  }

  ghost predicate IsSuffix<T>(a: seq<T>, b: seq<T>) {
    |a| <= |b| && b[|b| - |a|..] == a
  }

  /** `s` is `snap` after writes, freezes and flushes. */
  ghost predicate Extends(st: Strategy, snap: LsmState, s: LsmState) {
    && (forall id :: id in snap.sstables ==> id in s.sstables && s.sstables[id] == snap.sstables[id])
    && (if FlushToL0(st) then s.levels == snap.levels && IsSuffix(snap.l0, s.l0)
        else s.l0 == snap.l0 && IsSuffix(snap.levels, s.levels))
  }

  /** The lists after applying a task; `s` already holds the outputs. */
  ghost predicate ListsAfter(s: LsmState, task: Task, output: seq<nat>, r: LsmState) {
    match task
    case Leveled(t) => LeveledApply.CanApply(s, t, output) && r == LeveledApply.Apply(s, t, output)
    case Simple(t) => SimpleLeveled.CanApply(s, t) && r == SimpleLeveled.Apply(s, t, output)
    case Tiered(t) =>
      output != [] && exists newer, older ::
        TieredCompaction.Sits(s.levels, newer, t.tiers, older) && r == TieredCompaction.Applied(s, newer, older, output)
    case ForceFull(l0Ids, l1Ids) =>
      s.levels != [] && r == s.(l0 := Minus(s.l0, l0Ids + l1Ids), levels := s.levels[0 := Level(1, output)])
  }

  /** The state after applying a task with outputs `outs`. */
  ghost predicate Finished(s: LsmState, task: Task, outs: seq<Table>, s': LsmState) {
    exists r :: ListsAfter(WithOutputs(s, outs), task, OutIds(outs), r) && s' == WithoutInputs(r, InputIds(task))
  }

  /** What a strategy owes: the inputs are exactly what leaves, and the new levels are in order. */
  ghost predicate GoodLists(st: Strategy, s: LsmState, task: Task, outs: seq<Table>, r: LsmState) {
    && r.memtable == s.memtable && r.imm == s.imm && r.sstables == WithOutputs(s, outs).sstables
    && multiset(InputIds(task)) <= multiset(SstIds(s))
    && multiset(SstIds(r)) == multiset(SstIds(s)) - multiset(InputIds(task)) + multiset(OutIds(outs))
    && LevelsOk(r) && Shape(st, r)
  }

  /** Tables and levels of `s` seen through the table map with the outputs added. */
  ghost predicate Widened(s: LsmState, outs: seq<Table>) {
    var tables := WithOutputs(s, outs).sstables;
    && (forall x :: x in s.sstables ==> x in tables && tables[x] == s.sstables[x])
    && Known(tables, OutIds(outs)) && SparseLevelOk(tables, OutIds(outs))
    && Distinct(OutIds(outs)) && (forall x :: x in OutIds(outs) ==> x !in s.sstables)
    && Distinct(SstIds(s)) && Known(s.sstables, SstIds(s)) && LevelsOk(s)
  }

  lemma WidenedLevel(s: LsmState, outs: seq<Table>, i: nat)
    requires Widened(s, outs) && i < |s.levels|
    ensures SparseLevelOk(s.sstables, s.levels[i].ids) && SparseLevelOk(WithOutputs(s, outs).sstables, s.levels[i].ids)
  {
    hide KeyLess, Ordered, TableMap, LevelIds, LevelOk, FilledIds, Distinct;
    assert SparseLevelOk(s.sstables, s.levels[i].ids);
    SparseTransfer(s.sstables, WithOutputs(s, outs).sstables, s.levels[i].ids);
  }

  lemma MinusFilled(tables: map<nat, Table>, ids: seq<nat>, removed: seq<nat>)
    requires SparseLevelOk(tables, ids)
    ensures SparseLevelOk(tables, Minus(ids, removed))
  {
    hide LevelOk, FilledIds;
    FilledMinus(tables, ids, removed);
    LeveledApply.MinusLevel(tables, FilledIds(tables, ids), removed);
  }

  ghost predicate OnlyFrom(ids: seq<nat>, before: seq<nat>, added: seq<nat>) {
    forall x :: x in ids ==> x in before || x in added
  }

  /** Only the lower level receives outputs, and outside the last level they all have entries. */
  lemma EmptiesStay(s: LsmState, outs: seq<Table>, r: LsmState, j: nat)
    requires Widened(s, outs) && EmptiesAtBottom(s) && r.sstables == WithOutputs(s, outs).sstables
    requires j < |r.levels| == |s.levels|
    requires j < |s.levels| - 1 ==> AllFilled(r.sstables, OutIds(outs))
    requires OnlyFrom(r.l0, s.l0, [])
    requires forall i :: 0 <= i < |s.levels| ==>
               OnlyFrom(r.levels[i].ids, s.levels[i].ids, if i == j then OutIds(outs) else [])
    ensures EmptiesAtBottom(r)
  {
    hide SparseLevelOk, LevelIds, Distinct, TableMap, LevelsOk;
    forall x | x in r.l0 ensures x in s.sstables && r.sstables[x].entries != [] {
      assert x in SstIds(s);
    }
    forall i, x | 0 <= i < |r.levels| - 1 && x in r.levels[i].ids && x in r.sstables
      ensures r.sstables[x].entries != []
    {
      assert OnlyFrom(r.levels[i].ids, s.levels[i].ids, if i == j then OutIds(outs) else []);
      if x in s.levels[i].ids {
        LevelIdsMember(s.levels, x);
        assert x in SstIds(s);
        assert AllFilled(s.sstables, s.levels[i].ids);
      } else {
        assert AllFilled(r.sstables, OutIds(outs));
      }
    }
  }

  // ---------- leveled ----------

  lemma LeveledLists(st: Strategy, s: LsmState, t: LevelTask, outs: seq<Table>, r: LsmState)
    requires st.LeveledStrategy? && Shape(st, s) && Widened(s, outs)
    requires SoundTables(s.sstables) && SoundTables(WithOutputs(s, outs).sstables)
    requires LeveledCompaction.TaskOk(s, t) && LeveledApply.FilledTables(s.sstables, t.upperIds)
    requires t.lowerLevel < |s.levels| ==> AllFilled(WithOutputs(s, outs).sstables, OutIds(outs))
    requires var tables := WithOutputs(s, outs).sstables;
             LeveledApply.OutputsOk(s, t, tables, FilledIds(tables, OutIds(outs)))
    requires ListsAfter(WithOutputs(s, outs), Leveled(t), OutIds(outs), r)
    ensures GoodLists(st, s, Leveled(t), outs, r)
  {
    hide KeyLess, Ordered, TableMap, LevelIds, LeveledCompaction.OverlappingSsts, LeveledApply.SortByFirst, Minus,
      Distinct, SstIds, LevelOk, LeveledApply.OutputsOk, FilledIds, SoundTables, EmptiesAtBottom, OnlyFrom;
    var s1, j := WithOutputs(s, outs), t.lowerLevel - 1;
    LeveledApply.ApplyConservesIds(s, s1, t, OutIds(outs));
    LeveledApply.ListsDistinct(s, t);
    WidenedLevel(s, outs, j);
    SoundNamed(s.sstables);
    SoundNamed(s1.sstables);
    LeveledApply.LowerLevelStaysSparse(s, s1, t, OutIds(outs));
    forall i | 0 <= i < |r.levels| ensures SparseLevelOk(r.sstables, r.levels[i].ids) {
      WidenedLevel(s, outs, i);
      MinusFilled(s1.sstables, s.levels[i].ids, t.upperIds);
    }
    LeveledMembers(s, s1, t, OutIds(outs), r);
    EmptiesStay(s, outs, r, j);
  }

  lemma LeveledMembers(s: LsmState, s1: LsmState, t: LevelTask, output: seq<nat>, r: LsmState)
    requires s1.l0 == s.l0 && s1.levels == s.levels
    requires LeveledApply.CanApply(s1, t, output) && r == LeveledApply.Apply(s1, t, output)
    ensures OnlyFrom(r.l0, s.l0, []) && |r.levels| == |s.levels|
    ensures forall i :: 0 <= i < |s.levels| ==>
      OnlyFrom(r.levels[i].ids, s.levels[i].ids, if i == t.lowerLevel - 1 then output else [])
  {
    hide LeveledApply.SortByFirst, Minus;
    var j := t.lowerLevel - 1;
    var all := Minus(s.levels[j].ids, t.lowerIds) + output;
    LeveledApply.SameMembers(LeveledApply.SortByFirst(s1.sstables, all), all);
    forall ids, removed, x ensures x in Minus(ids, removed) ==> x in ids {
      LeveledApply.MinusMember(ids, removed, x);
    }
  }

  /** Sorted tables with non-empty user keys. */
  ghost predicate SoundTables(tables: map<nat, Table>) {
    TablesNamed(tables) && forall x :: x in tables ==> Sorted(KeyLess, tables[x].entries)
  }

  lemma SoundNamed(tables: map<nat, Table>)
    requires SoundTables(tables)
    ensures TablesNamed(tables)
  {
  }

  lemma SoundFilled(tables: map<nat, Table>, ids: seq<nat>)
    requires SoundTables(tables) && Known(tables, ids) && AllFilled(tables, ids)
    ensures LeveledApply.FilledTables(tables, ids)
  {
  }

  // ---------- simple ----------

  lemma SimpleLists(st: Strategy, s: LsmState, t: LevelTask, outs: seq<Table>, r: LsmState)
    requires st.SimpleStrategy? && Shape(st, s) && Widened(s, outs) && SimpleLeveled.TaskOk(s, t)
    requires t.lowerLevel < |s.levels| ==> AllFilled(WithOutputs(s, outs).sstables, OutIds(outs))
    requires ListsAfter(WithOutputs(s, outs), Simple(t), OutIds(outs), r)
    ensures GoodLists(st, s, Simple(t), outs, r)
  {
    hide KeyLess, TableMap, LevelIds, Minus, Distinct, SstIds, LevelOk, FilledIds, EmptiesAtBottom;
    var s1, output := WithOutputs(s, outs), OutIds(outs);
    SimpleLeveled.ApplyConservesIds(s, t, output);
    SameLists(SimpleLeveled.Apply(s, t, output), r);
    EmptyLevel(r.sstables);
    FilledSparse(r.sstables, []);
    forall i | 0 <= i < |r.levels| ensures SparseLevelOk(r.sstables, r.levels[i].ids) {
      WidenedLevel(s, outs, i);
    }
    forall ids, removed, x ensures x in Minus(ids, removed) ==> x in ids {
      LeveledApply.MinusMember(ids, removed, x);
    }
    EmptiesStay(s, outs, r, t.lowerLevel - 1);
  }

  lemma SameLists(a: LsmState, b: LsmState)
    requires a.l0 == b.l0 && a.levels == b.levels
    ensures SstIds(a) == SstIds(b)
  {
  }

  // ---------- tiered ----------

  lemma TieredLists(st: Strategy, s: LsmState, t: TieredTask, outs: seq<Table>, r: LsmState)
    requires st.TieredStrategy? && Shape(st, s) && Widened(s, outs)
    requires ListsAfter(WithOutputs(s, outs), Tiered(t), OutIds(outs), r)
    ensures GoodLists(st, s, Tiered(t), outs, r)
  {
    hide KeyLess, TableMap, LevelIds, Distinct, SstIds, LevelOk, FilledIds;
    var s1, output := WithOutputs(s, outs), OutIds(outs);
    var newer, older :|
      && TieredCompaction.Sits(s1.levels, newer, t.tiers, older)
      && r == TieredCompaction.Applied(s1, newer, older, output);
    TieredCompaction.ApplyConservesIds(s, newer, t.tiers, older, output);
    SameLists(TieredCompaction.Applied(s, newer, older, output), r);
    forall i | 0 <= i < |r.levels|
      ensures SparseLevelOk(r.sstables, r.levels[i].ids)
      ensures r.levels[i].ids != [] && r.levels[i].number == r.levels[i].ids[0]
    {
      if i != |newer| {
        var j := if i < |newer| then i else i - 1 + |t.tiers|;
        assert r.levels[i] == s.levels[j];
        WidenedLevel(s, outs, j);
      }
    }
  }

  // ---------- forced full compaction ----------

  lemma ForceFullLists(st: Strategy, s: LsmState, l0Ids: seq<nat>, l1Ids: seq<nat>, outs: seq<Table>, r: LsmState)
    requires FlushToL0(st) && |s.levels| == 1 && Shape(st, s) && Widened(s, outs)
    requires multiset(l0Ids) <= multiset(s.l0) && l1Ids == s.levels[0].ids
    requires ListsAfter(WithOutputs(s, outs), ForceFull(l0Ids, l1Ids), OutIds(outs), r)
    ensures GoodLists(st, s, ForceFull(l0Ids, l1Ids), outs, r)
  {
    hide KeyLess, TableMap, LevelIds, Distinct, SstIds, LevelOk, Minus, FilledIds, EmptiesAtBottom;
    ForceFullIds(s, l0Ids, l1Ids, OutIds(outs), r);
    forall ids, removed, x ensures x in Minus(ids, removed) ==> x in ids {
      LeveledApply.MinusMember(ids, removed, x);
    }
    EmptiesHere(st, s);
    EmptiesStay(s, outs, r, 0);
  }

  lemma EmptiesHere(st: Strategy, s: LsmState)
    requires FlushToL0(st) && Shape(st, s)
    ensures EmptiesAtBottom(s)
  {
  }

  lemma ForceFullIds(s: LsmState, l0Ids: seq<nat>, l1Ids: seq<nat>, added: seq<nat>, r: LsmState)
    requires |s.levels| == 1 && l1Ids == s.levels[0].ids && multiset(l0Ids) <= multiset(s.l0) && Distinct(SstIds(s))
    requires r.l0 == Minus(s.l0, l0Ids + l1Ids) && r.levels == s.levels[0 := Level(1, added)]
    ensures multiset(l0Ids + l1Ids) <= multiset(SstIds(s))
    ensures multiset(SstIds(r)) == multiset(SstIds(s)) - multiset(l0Ids + l1Ids) + multiset(added)
  {
    hide LevelIds, Distinct, SstIds, Minus;
    SstIdsBag(s);
    SstIdsBag(r);
    LevelIdsUpdate(s.levels, 0, Level(1, added));
    MinusBoth(s, l0Ids, l1Ids);
    var lower := multiset(LevelIds(s.levels));
    SimpleLeveled.Exchange(multiset(s.l0), multiset(l0Ids), lower, multiset(l1Ids), multiset(added));
  }

  /** No table is both in L0 and in L1, so removing both lists from L0 removes the first. */
  lemma MinusBoth(s: LsmState, l0Ids: seq<nat>, l1Ids: seq<nat>)
    requires Distinct(SstIds(s)) && |s.levels| == 1 && l1Ids == s.levels[0].ids && multiset(l0Ids) <= multiset(s.l0)
    ensures multiset(Minus(s.l0, l0Ids + l1Ids)) == multiset(s.l0) - multiset(l0Ids)
  {
    hide LevelIds, SstIds, Minus;
    SstIdsBag(s);
    LevelIdsUpdate(s.levels, 0, s.levels[0]);
    forall x: nat ensures multiset(Minus(s.l0, l0Ids + l1Ids))[x] == (multiset(s.l0) - multiset(l0Ids))[x] {
      MinusCount(s.l0, l0Ids + l1Ids, x);
      assert multiset(SstIds(s))[x] <= 1;
      assert x in l0Ids <==> x in multiset(l0Ids);
      assert x in l1Ids <==> x in multiset(l1Ids);
    }
  }

  // ---------- from the generated task to the state it is applied to ----------

  lemma {:induction false} OverlappingLevel(tables: map<nat, Table>, level: seq<nat>, begin: Key, end: Key)
    requires LevelOk(tables, level)
    ensures LevelOk(tables, LeveledCompaction.Overlapping(tables, level, begin, end))
  {
    hide KeyLess, LeveledCompaction.Overlaps;
    if level == [] {
      EmptyLevel(tables);
    } else {
      var rest := level[1..];
      KeyOrderIsTotal();
      OrderedSplit(KeyLess, RunsOf(tables, level), 1);
      assert RunsOf(tables, level)[1..] == RunsOf(tables, rest);
      OverlappingLevel(tables, rest, begin, end);
      var kept := LeveledCompaction.Overlapping(tables, rest, begin, end);
      forall x | x in kept ensures x in rest {
        LeveledCompaction.OverlappingMember(tables, rest, begin, end, x);
      }
      LeveledApply.PrependLevel(tables, level, kept);
    }
  }

  /** The inputs of a leveled task all have entries: upper tables always do, and an empty one overlaps nothing. */
  lemma LeveledInputs(st: Strategy, s: LsmState, t: LevelTask)
    requires st.LeveledStrategy? && Shape(st, s) && LevelsOk(s) && SoundTables(s.sstables)
    requires Known(s.sstables, s.l0) && Generated(st, s, Leveled(t))
    ensures LeveledApply.FilledTables(s.sstables, t.upperIds) && LevelTaskReadable(s.sstables, t)
    ensures AllFilled(s.sstables, t.upperIds + t.lowerIds)
  {
    hide KeyLess, LeveledCompaction.GenerateTask, LeveledCompaction.Target, LeveledCompaction.MinFirst,
      LeveledCompaction.MaxLast, LeveledCompaction.Overlapping, FilledIds, LevelOk, Sorted;
    LeveledCompaction.GenerateSound(st.leveled, s);
    var level := s.levels[t.lowerLevel - 1].ids;
    var begin := LeveledCompaction.MinFirst(s.sstables, t.upperIds);
    var end := LeveledCompaction.MaxLast(s.sstables, t.upperIds);
    assert SparseLevelOk(s.sstables, level);
    forall x | x in t.upperIds ensures s.sstables[x].entries != [] {
      assert x in multiset(LeveledCompaction.UpperIds(s, t.upperLevel));
      assert x in LeveledCompaction.UpperIds(s, t.upperLevel);
    }
    SoundFilled(s.sstables, t.upperIds);
    AllNamed(s.sstables, t.upperIds);
    LeveledApply.HullNamed(s.sstables, t.upperIds);
    LeveledApply.OverlappingFilled(s.sstables, level, begin, end);
    OverlappingLevel(s.sstables, FilledIds(s.sstables, level), begin, end);
    FilledSparse(s.sstables, t.lowerIds);
    if t.upperLevel.Some? {
      assert t.upperIds == [t.upperIds[0]];
      SingleLevel(s.sstables, t.upperIds[0]);
    }
  }

  /**
   * Which tasks leave out tombstones: those for the last level, tiered ones unless a ratio triggered them, and
   * forced ones.
   */
  lemma ReachesBottomIff(st: Strategy, s: LsmState, task: Task)
    requires Shape(st, s) && TaskFor(st, s, task)
    ensures ToBottom(task) <==>
            match task
            case Leveled(t) => t.lowerLevel == |s.levels|
            case Simple(t) => t.lowerLevel == |s.levels|
            case Tiered(t) =>
              || TieredCompaction.TooAmplified(st.tiered, s.levels)
              || forall i: nat :: !TieredCompaction.RatioBreaks(st.tiered, s.levels, i)
            case ForceFull(_, _) => true
  {
    hide LeveledCompaction.GenerateTask, SimpleLeveled.GenerateTask, TieredCompaction.GenerateTask,
      TieredCompaction.TooAmplified, TieredCompaction.RatioBreaks, EmptiesAtBottom;
    match task
    case Leveled(t) => LeveledCompaction.GenerateSound(st.leveled, s);
    case Simple(t) => SimpleLeveled.GenerateSound(st.simple, s);
    case Tiered(t) =>
      TieredShaped(st, s);
      TieredCompaction.TaskCases(st.tiered, s);
      TieredCompaction.SomeBreaksFirst(st.tiered, s.levels);
    case ForceFull(_, _) =>
  }

  /** A task can be read if and only if none of its tables is empty; a leveled task always can. */
  lemma TaskIsReadable(st: Strategy, s: LsmState, task: Task)
    requires Shape(st, s) && LevelsOk(s) && Known(s.sstables, SstIds(s)) && SoundTables(s.sstables)
    requires Known(s.sstables, s.l0) && TaskFor(st, s, task)
    ensures Readable(s.sstables, task) <==> AllFilled(s.sstables, InputIds(task))
    ensures task.Leveled? ==> Readable(s.sstables, task)
  {
    hide KeyLess, LeveledCompaction.GenerateTask, SimpleLeveled.GenerateTask, TieredCompaction.GenerateTask, SstIds,
      LevelIds, LevelOk, SparseLevelOk, SoundTables;
    match task
    case Leveled(t) => LeveledInputs(st, s, t);
    case Simple(t) =>
      SimpleLeveled.GenerateSound(st.simple, s);
      LevelReadable(s, t.lowerLevel - 1);
      if t.upperLevel.Some? {
        LevelReadable(s, t.upperLevel.value - 1);
      }
    case Tiered(t) => TiersReadable(st, s, t);
    case ForceFull(l0Ids, l1Ids) =>
      EmptiesHere(st, s);
      LevelReadable(s, 0);
  }

  lemma LevelReadable(s: LsmState, i: nat)
    requires LevelsOk(s) && i < |s.levels|
    ensures Known(s.sstables, s.levels[i].ids)
    ensures LevelOk(s.sstables, s.levels[i].ids) <==> AllFilled(s.sstables, s.levels[i].ids)
  {
    hide KeyLess, LevelOk, FilledIds;
    var ids := s.levels[i].ids;
    assert SparseLevelOk(s.sstables, ids);
    if AllFilled(s.sstables, ids) {
      SparseFilled(s.sstables, ids);
    }
    if LevelOk(s.sstables, ids) {
      FilledSparse(s.sstables, ids);
    }
  }

  lemma TiersReadable(st: Strategy, s: LsmState, t: TieredTask)
    requires st.TieredStrategy? && Shape(st, s) && LevelsOk(s) && Generated(st, s, Tiered(t))
    ensures TiersOk(s.sstables, t.tiers) <==> AllFilled(s.sstables, LevelIds(t.tiers))
  {
    hide KeyLess, TieredCompaction.GenerateTask, LevelIds, LevelOk, SparseLevelOk;
    TieredShaped(st, s);
    TieredCompaction.TaskIsPrefix(st.tiered, s);
    forall i | 0 <= i < |t.tiers|
      ensures Known(s.sstables, t.tiers[i].ids)
      ensures LevelOk(s.sstables, t.tiers[i].ids) <==> AllFilled(s.sstables, t.tiers[i].ids)
    {
      assert t.tiers[i] == s.levels[i];
      LevelReadable(s, i);
    }
    forall x ensures x in LevelIds(t.tiers) <==> exists i :: 0 <= i < |t.tiers| && x in t.tiers[i].ids {
      LevelIdsMember(t.tiers, x);
    }
  }

  lemma TieredShaped(st: Strategy, s: LsmState)
    requires st.TieredStrategy? && Shape(st, s)
    ensures TieredCompaction.Shaped(st.tiered, s)
  {
  }

  lemma {:induction false} HullAgrees(t1: map<nat, Table>, t2: map<nat, Table>, ids: seq<nat>)
    requires Known(t1, ids) && ids != [] && forall x :: x in t1 ==> x in t2 && t2[x] == t1[x]
    ensures Known(t2, ids)
    ensures LeveledCompaction.MinFirst(t1, ids) == LeveledCompaction.MinFirst(t2, ids)
    ensures LeveledCompaction.MaxLast(t1, ids) == LeveledCompaction.MaxLast(t2, ids)
  {
    hide KeyLess, FirstKey, LastKey;
    if |ids| > 1 {
      HullAgrees(t1, t2, ids[1..]);
    }
  }

  lemma {:induction false} OverlappingAgrees(
    t1: map<nat, Table>, t2: map<nat, Table>, level: seq<nat>, begin: Key, end: Key)
    requires Known(t1, level) && forall x :: x in t1 ==> x in t2 && t2[x] == t1[x]
    ensures Known(t2, level)
    ensures LeveledCompaction.Overlapping(t1, level, begin, end) == LeveledCompaction.Overlapping(t2, level, begin, end)
  {
    hide KeyLess, LeveledCompaction.Overlaps;
    if level != [] {
      OverlappingAgrees(t1, t2, level[1..], begin, end);
    }
  }

  lemma SuffixBag<T>(a: seq<T>, b: seq<T>)
    requires IsSuffix(a, b)
    ensures multiset(a) <= multiset(b)
  {
    assert b == b[..|b| - |a|] + a;
  }

  /** What a leveled task says of the state it was generated from still holds of every later one. */
  lemma LeveledTaskPersists(st: Strategy, snap: LsmState, s: LsmState, t: LevelTask)
    requires st.LeveledStrategy? && Extends(st, snap, s) && LeveledCompaction.TaskOk(snap, t)
    ensures LeveledCompaction.TaskOk(s, t)
  {
    hide KeyLess, LeveledCompaction.MinFirst, LeveledCompaction.MaxLast, LeveledCompaction.Overlapping;
    HullAgrees(snap.sstables, s.sstables, t.upperIds);
    var begin := LeveledCompaction.MinFirst(s.sstables, t.upperIds);
    var end := LeveledCompaction.MaxLast(s.sstables, t.upperIds);
    OverlappingAgrees(snap.sstables, s.sstables, snap.levels[t.lowerLevel - 1].ids, begin, end);
    SuffixBag(snap.l0, s.l0);
  }

  lemma SimpleTaskPersists(st: Strategy, snap: LsmState, s: LsmState, t: LevelTask)
    requires st.SimpleStrategy? && Extends(st, snap, s) && SimpleLeveled.TaskOk(snap, t)
    ensures SimpleLeveled.TaskOk(s, t)
  {
    SuffixBag(snap.l0, s.l0);
  }
}
