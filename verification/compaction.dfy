/** src/compact.rs: what a compaction task reads, what it writes, and what that does to the store. */
module Compaction {
  import opened Common
  import opened Keys
  import opened Mvcc
  import opened ReadPath
  import opened Runs
  import opened State

  /** A task of either leveled strategy; no upper level means L0. */
  datatype LevelTask = LevelTask(
    upperLevel: Option<nat>, upperIds: seq<nat>, lowerLevel: nat, lowerIds: seq<nat>, isLowerLevelBottomLevel: bool)

  datatype TieredTask = TieredTask(tiers: seq<Level>, bottomTierIncluded: bool)

  datatype Task =
    | Leveled(levelTask: LevelTask)
    | Simple(levelTask: LevelTask)
    | Tiered(tieredTask: TieredTask)
    | ForceFull(l0Ids: seq<nat>, l1Ids: seq<nat>)

  predicate ToBottom(task: Task) {
    match task
    case Leveled(t) => t.isLowerLevelBottomLevel
    case Simple(t) => t.isLowerLevelBottomLevel
    case Tiered(t) => t.bottomTierIncluded
    case ForceFull(_, _) => true
  }

  function InputIds(task: Task): seq<nat> {
    match task
    case Leveled(t) => t.upperIds + t.lowerIds
    case Simple(t) => t.upperIds + t.lowerIds
    case Tiered(t) => LevelIds(t.tiers)
    case ForceFull(l0Ids, l1Ids) => l0Ids + l1Ids
  }

  ghost predicate LevelTaskReadable(tables: map<nat, Table>, t: LevelTask) {
    && Known(tables, t.upperIds)
    && (t.upperLevel.Some? ==> LevelOk(tables, t.upperIds))
    && LevelOk(tables, t.lowerIds)
  }

  ghost predicate TiersOk(tables: map<nat, Table>, tiers: seq<Level>) {
    forall i :: 0 <= i < |tiers| ==> Known(tables, tiers[i].ids) && LevelOk(tables, tiers[i].ids)
  }

  /** Every input exists, and the inputs read through a concatenating iterator are a level in order. */
  ghost predicate Readable(tables: map<nat, Table>, task: Task) {
    match task
    case Leveled(t) => LevelTaskReadable(tables, t)
    case Simple(t) => LevelTaskReadable(tables, t)
    case Tiered(t) => TiersOk(tables, t.tiers)
    case ForceFull(l0Ids, l1Ids) => Known(tables, l0Ids) && LevelOk(tables, l1Ids)
  }

  function ConcatRun(tables: map<nat, Table>, ids: seq<nat>): Run<Key>
    requires Known(tables, ids)
  {
    Flatten(RunsOf(tables, ids))
  }

  function TierRuns(tables: map<nat, Table>, tiers: seq<Level>): (r: seq<Run<Key>>)
    requires forall i :: 0 <= i < |tiers| ==> Known(tables, tiers[i].ids)
    ensures |r| == |tiers| && forall i :: 0 <= i < |r| ==> r[i] == ConcatRun(tables, tiers[i].ids)
  {
    seq(|tiers|, i requires 0 <= i < |tiers| => ConcatRun(tables, tiers[i].ids))
  }

  function UpperRun(tables: map<nat, Table>, upper: Option<nat>, ids: seq<nat>): Run<Key>
    requires Known(tables, ids)
  {
    if upper.None? then MergeAll(KeyLess, RunsOf(tables, ids)) else ConcatRun(tables, ids)
  }

  /** The merged input of a task: newer sources win, and only the newest copy of a key is kept. */
  function CompactInput(tables: map<nat, Table>, task: Task): Run<Key>
    requires Readable(tables, task)
  {
    match task
    case Leveled(t) => Merge(KeyLess, UpperRun(tables, t.upperLevel, t.upperIds), ConcatRun(tables, t.lowerIds))
    case Simple(t) => Merge(KeyLess, UpperRun(tables, t.upperLevel, t.upperIds), ConcatRun(tables, t.lowerIds))
    case Tiered(t) => MergeAll(KeyLess, TierRuns(tables, t.tiers))
    case ForceFull(l0Ids, l1Ids) => Merge(KeyLess, UpperRun(tables, None, l0Ids), ConcatRun(tables, l1Ids))
  }

  // ---------- the merged input holds exactly the entries of the input tables ----------

  ghost predicate TablesPartOf(m: Store, tables: map<nat, Table>) {
    forall id :: id in tables ==> PartOf(m, tables[id].entries)
  }

  ghost predicate HoldsInputs(r: Run<Key>, tables: map<nat, Table>, ids: seq<nat>)
    requires Known(tables, ids)
  {
    forall e :: e in r <==> exists id :: id in ids && e in tables[id].entries
  }

  lemma ConcatExact(m: Store, tables: map<nat, Table>, ids: seq<nat>)
    requires TablesPartOf(m, tables) && LevelOk(tables, ids)
    ensures PartOf(m, ConcatRun(tables, ids)) && HoldsInputs(ConcatRun(tables, ids), tables, ids)
  {
    hide KeyLess, Flatten;
    KeyOrderIsTotal();
    var runs := RunsOf(tables, ids);
    OrderedFlatten(KeyLess, runs);
    forall e ensures e in Flatten(runs) <==> exists id :: id in ids && e in tables[id].entries {
      FlattenMember(runs, e);
      RunsOfMember(tables, ids, e);
    }
  }

  lemma RunsOfMember(tables: map<nat, Table>, ids: seq<nat>, e: Entry<Key>)
    requires Known(tables, ids)
    ensures var runs := RunsOf(tables, ids);
            (exists i :: 0 <= i < |runs| && e in runs[i]) <==> (exists id :: id in ids && e in tables[id].entries)
  {
    var runs := RunsOf(tables, ids);
    if id :| id in ids && e in tables[id].entries {
      var i :| 0 <= i < |ids| && ids[i] == id;
      assert e in runs[i];
    }
    if i :| 0 <= i < |runs| && e in runs[i] {
      assert ids[i] in ids && e in tables[ids[i]].entries;
    }
  }

  lemma MergeAllExact(m: Store, tables: map<nat, Table>, ids: seq<nat>)
    requires TablesPartOf(m, tables) && Known(tables, ids)
    ensures PartOf(m, MergeAll(KeyLess, RunsOf(tables, ids)))
    ensures HoldsInputs(MergeAll(KeyLess, RunsOf(tables, ids)), tables, ids)
  {
    hide KeyLess, MergeAll, PartOf;
    var runs := RunsOf(tables, ids);
    forall i | 0 <= i < |runs| ensures PartOf(m, runs[i]) {
      assert ids[i] in ids;
    }
    MergeAllParts(m, runs);
    forall e ensures e in MergeAll(KeyLess, runs) <==> exists id :: id in ids && e in tables[id].entries {
      RunsOfMember(tables, ids, e);
    }
  }

  lemma UpperExact(m: Store, tables: map<nat, Table>, upper: Option<nat>, ids: seq<nat>)
    requires TablesPartOf(m, tables) && Known(tables, ids)
    requires upper.Some? ==> LevelOk(tables, ids)
    ensures PartOf(m, UpperRun(tables, upper, ids)) && HoldsInputs(UpperRun(tables, upper, ids), tables, ids)
  {
    hide KeyLess, MergeAll, PartOf, ConcatRun;
    if upper.None? {
      MergeAllExact(m, tables, ids);
    } else {
      ConcatExact(m, tables, ids);
    }
  }

  lemma TwoLevelsExact(m: Store, tables: map<nat, Table>, upper: Option<nat>, upperIds: seq<nat>, lowerIds: seq<nat>)
    requires TablesPartOf(m, tables) && Known(tables, upperIds)
    requires upper.Some? ==> LevelOk(tables, upperIds)
    requires LevelOk(tables, lowerIds)
    ensures var r := Merge(KeyLess, UpperRun(tables, upper, upperIds), ConcatRun(tables, lowerIds));
            PartOf(m, r) && HoldsInputs(r, tables, upperIds + lowerIds)
  {
    hide KeyLess, Merge, PartOf, ConcatRun, UpperRun;
    UpperExact(m, tables, upper, upperIds);
    ConcatExact(m, tables, lowerIds);
    MergeParts(m, UpperRun(tables, upper, upperIds), ConcatRun(tables, lowerIds));
  }

  lemma TiersExact(m: Store, tables: map<nat, Table>, tiers: seq<Level>)
    requires TablesPartOf(m, tables) && TiersOk(tables, tiers)
    ensures Known(tables, LevelIds(tiers))
    ensures PartOf(m, MergeAll(KeyLess, TierRuns(tables, tiers)))
    ensures HoldsInputs(MergeAll(KeyLess, TierRuns(tables, tiers)), tables, LevelIds(tiers))
  {
    hide KeyLess, MergeAll, PartOf, ConcatRun;
    var runs := TierRuns(tables, tiers);
    forall i | 0 <= i < |runs| ensures PartOf(m, runs[i]) {
      ConcatExact(m, tables, tiers[i].ids);
    }
    MergeAllParts(m, runs);
    forall id | id in LevelIds(tiers) ensures id in tables {
      LevelIdsMember(tiers, id);
    }
    forall e ensures e in MergeAll(KeyLess, runs) <==> exists id :: id in LevelIds(tiers) && e in tables[id].entries {
      if i :| 0 <= i < |runs| && e in runs[i] {
        ConcatExact(m, tables, tiers[i].ids);
        var id :| id in tiers[i].ids && e in tables[id].entries;
        LevelIdsMember(tiers, id);
      }
      if id :| id in LevelIds(tiers) && e in tables[id].entries {
        LevelIdsMember(tiers, id);
        var i :| 0 <= i < |tiers| && id in tiers[i].ids;
        ConcatExact(m, tables, tiers[i].ids);
        assert e in runs[i];
      }
    }
  }

  /** For every kind of task the merged input is the union of the input tables. */
  lemma CompactInputExact(m: Store, tables: map<nat, Table>, task: Task)
    requires TablesPartOf(m, tables) && Readable(tables, task)
    ensures Known(tables, InputIds(task))
    ensures PartOf(m, CompactInput(tables, task)) && HoldsInputs(CompactInput(tables, task), tables, InputIds(task))
  {
    hide KeyLess, Merge, MergeAll, PartOf, ConcatRun, UpperRun, HoldsInputs, TablesPartOf;
    match task
    case Leveled(t) => TwoLevelsExact(m, tables, t.upperLevel, t.upperIds, t.lowerIds);
    case Simple(t) => TwoLevelsExact(m, tables, t.upperLevel, t.upperIds, t.lowerIds);
    case Tiered(t) => TiersExact(m, tables, t.tiers);
    case ForceFull(l0Ids, l1Ids) => TwoLevelsExact(m, tables, None, l0Ids, l1Ids);
  }

  // ---------- compact_generate_sst_from_iter ----------

  /** What the builder receives: compacting to the bottom leaves out empty values. */
  function Survivors(bottom: bool, r: Run<Key>): Run<Key> {
    if r == [] then []
    else (if bottom && r[0].value == [] then [] else [r[0]]) + Survivors(bottom, r[1..])
  }

  /**
   * The output runs, with `open` the content of the builder at hand. A builder is made for the next
   * entry even if that entry is then left out, and is finished as soon as it is full.
   */
  function Outputs(full: Run<Key> -> bool, bottom: bool, input: Run<Key>, open: Option<Run<Key>>): seq<Run<Key>>
    decreases |input|
  {
    if input == [] then (if open.Some? then [open.value] else [])
    else
      var run := (if open.Some? then open.value else []) + (if bottom && input[0].value == [] then [] else [input[0]]);
      if full(run) then [run] + Outputs(full, bottom, input[1..], None)
      else Outputs(full, bottom, input[1..], Some(run))
  }

  /** Whatever the cutting rule, the outputs in order are the surviving input. */
  lemma {:induction false} OutputsFlatten(full: Run<Key> -> bool, bottom: bool, input: Run<Key>, open: Option<Run<Key>>)
    ensures Flatten(Outputs(full, bottom, input, open)) ==
            (if open.Some? then open.value else []) + Survivors(bottom, input)
    decreases |input|
  {
    hide Flatten, Survivors;
    var held := if open.Some? then open.value else [];
    SurvivorsStep(bottom, input);
    if input == [] {
      FlattenCons(held, []);
      assert [held] + [] == [held] && held + [] == held;
    } else {
      var kept, rest := if bottom && input[0].value == [] then [] else [input[0]], input[1..];
      var run := held + kept;
      if full(run) {
        OutputsFlatten(full, bottom, rest, None);
        FlattenCons(run, Outputs(full, bottom, rest, None));
        assert [] + Survivors(bottom, rest) == Survivors(bottom, rest);
      } else {
        OutputsFlatten(full, bottom, rest, Some(run));
      }
      Associative(held, kept, Survivors(bottom, rest));
    }
  }

  lemma Associative<T>(a: seq<T>, b: seq<T>, c: seq<T>)
    ensures a + b + c == a + (b + c)
  {
  }

  lemma SurvivorsStep(bottom: bool, r: Run<Key>)
    ensures r == [] ==> Survivors(bottom, r) == []
    ensures r != [] ==>
      Survivors(bottom, r) == (if bottom && r[0].value == [] then [] else [r[0]]) + Survivors(bottom, r[1..])
  {
  }

  lemma {:induction false} SurvivorsMembers(bottom: bool, r: Run<Key>)
    requires Sorted(KeyLess, r)
    ensures Sorted(KeyLess, Survivors(bottom, r))
    ensures forall e :: e in Survivors(bottom, r) <==> e in r && !(bottom && e.value == [])
    ensures !bottom ==> Survivors(bottom, r) == r
  {
    hide KeyLess;
    KeyOrderIsTotal();
    if r != [] {
      SurvivorsMembers(bottom, r[1..]);
      forall e | e in r[1..] ensures KeyLess(r[0].key, e.key) {
        TailMembers(KeyLess, r, e);
      }
      assert r == [r[0]] + r[1..];
      SortedConcat(KeyLess, [r[0]], Survivors(bottom, r[1..]));
    }
  }

  /** Above the bottom nothing is left out, so no table without entries is written. */
  lemma {:induction false} UpperOutputsFilled(full: Run<Key> -> bool, input: Run<Key>, open: Option<Run<Key>>)
    requires open.Some? ==> open.value != []
    ensures forall i :: 0 <= i < |Outputs(full, false, input, open)| ==> Outputs(full, false, input, open)[i] != []
    decreases |input|
  {
    if input != [] {
      var run := (if open.Some? then open.value else []) + [input[0]];
      UpperOutputsFilled(full, input[1..], if full(run) then None else Some(run));
    }
  }

  /** No run that is not the whole of `run` is full yet. */
  ghost predicate NotYetFull(full: Run<Key> -> bool, run: Run<Key>) {
    forall n :: 0 <= n < |run| ==> !full(run[..n])
  }

  lemma StillNotFull(full: Run<Key> -> bool, run: Run<Key>, kept: Run<Key>)
    requires NotYetFull(full, run) && !full(run) && |kept| <= 1
    ensures NotYetFull(full, run + kept)
  {
    forall n | 0 <= n < |run + kept| ensures !full((run + kept)[..n]) {
      assert (run + kept)[..n] == if n < |run| then run[..n] else run;
    }
  }

  /** Every run but the last is full, and none would have been full with fewer of its entries. */
  ghost predicate CutWhenFull(full: Run<Key> -> bool, runs: seq<Run<Key>>) {
    && (forall i :: 0 <= i < |runs| - 1 ==> full(runs[i]))
    && (forall i :: 0 <= i < |runs| ==> NotYetFull(full, runs[i]))
  }

  lemma CutFirst(full: Run<Key> -> bool, run: Run<Key>, later: seq<Run<Key>>)
    requires full(run) && NotYetFull(full, run) && CutWhenFull(full, later)
    ensures CutWhenFull(full, [run] + later)
  {
    hide NotYetFull;
    var runs := [run] + later;
    forall i | 0 < i < |runs| ensures runs[i] == later[i - 1] {}
  }

  /** Tables are cut exactly when they are full. */
  lemma {:induction false} OutputsAreCut(full: Run<Key> -> bool, bottom: bool, input: Run<Key>, open: Option<Run<Key>>)
    requires !full([]) && (open.Some? ==> NotYetFull(full, open.value) && !full(open.value))
    ensures CutWhenFull(full, Outputs(full, bottom, input, open))
    decreases |input|
  {
    hide NotYetFull, CutWhenFull;
    if input == [] {
      CutOnly(full, open);
    } else {
      var held := if open.Some? then open.value else [];
      var kept := if bottom && input[0].value == [] then [] else [input[0]];
      EmptyNotYetFull(full);
      StillNotFull(full, held, kept);
      if full(held + kept) {
        OutputsAreCut(full, bottom, input[1..], None);
        CutFirst(full, held + kept, Outputs(full, bottom, input[1..], None));
      } else {
        OutputsAreCut(full, bottom, input[1..], Some(held + kept));
      }
    }
  }

  lemma CutOnly(full: Run<Key> -> bool, open: Option<Run<Key>>)
    requires open.Some? ==> NotYetFull(full, open.value)
    ensures CutWhenFull(full, if open.Some? then [open.value] else [])
  {
    hide NotYetFull;
  }

  lemma EmptyNotYetFull(full: Run<Key> -> bool)
    ensures NotYetFull(full, [])
  {
  }

  /** The builder at hand after reading `input`: none right after a cut. */
  function Pending(full: Run<Key> -> bool, bottom: bool, input: Run<Key>, open: Option<Run<Key>>): Option<Run<Key>>
    decreases |input|
  {
    if input == [] then open
    else
      var run := (if open.Some? then open.value else []) + (if bottom && input[0].value == [] then [] else [input[0]]);
      Pending(full, bottom, input[1..], if full(run) then None else Some(run))
  }

  ghost predicate OnlyTombstones(input: Run<Key>) {
    forall i :: 0 <= i < |input| ==> input[i].value == []
  }

  /** From position `n` on, where no builder is at hand, there are only tombstones. */
  ghost predicate TrailingTombstones(full: Run<Key> -> bool, input: Run<Key>, open: Option<Run<Key>>, n: nat) {
    n < |input| && Pending(full, true, input[..n], open) == None && OnlyTombstones(input[n..])
  }

  ghost predicate SomeTrailing(full: Run<Key> -> bool, input: Run<Key>, open: Option<Run<Key>>) {
    exists n :: TrailingTombstones(full, input, open, n)
  }

  ghost predicate HasEmpty(runs: seq<Run<Key>>) {
    exists i :: 0 <= i < |runs| && runs[i] == []
  }

  lemma HasEmptyCons(run: Run<Key>, runs: seq<Run<Key>>)
    ensures HasEmpty([run] + runs) <==> run == [] || HasEmpty(runs)
  {
    var all := [run] + runs;
    assert all[0] == run;
    if i :| 0 <= i < |runs| && runs[i] == [] {
      assert all[i + 1] == [];
    }
    if i :| 0 <= i < |all| && all[i] == [] {
      assert i > 0 ==> runs[i - 1] == [];
    }
  }

  /** The builder at hand after one more entry. */
  function NextOpen(full: Run<Key> -> bool, bottom: bool, e: Entry<Key>, open: Option<Run<Key>>): Option<Run<Key>> {
    var run := (if open.Some? then open.value else []) + (if bottom && e.value == [] then [] else [e]);
    if full(run) then None else Some(run)
  }

  lemma TrailingShift(full: Run<Key> -> bool, input: Run<Key>, open: Option<Run<Key>>, n: nat)
    requires input != []
    ensures TrailingTombstones(full, input, open, n + 1) <==>
            TrailingTombstones(full, input[1..], NextOpen(full, true, input[0], open), n)
  {
    if n + 1 < |input| {
      assert input[..n + 1][1..] == input[1..][..n];
      assert input[n + 1..] == input[1..][n..];
    }
  }

  lemma TrailingStep(full: Run<Key> -> bool, input: Run<Key>, open: Option<Run<Key>>)
    requires input != []
    ensures SomeTrailing(full, input, open) <==>
            || (open == None && OnlyTombstones(input))
            || SomeTrailing(full, input[1..], NextOpen(full, true, input[0], open))
  {
    hide TrailingTombstones, NextOpen, OnlyTombstones;
    TrailingStart(full, input, open);
    var rest, next := input[1..], NextOpen(full, true, input[0], open);
    if n: nat :| TrailingTombstones(full, input, open, n) {
      if n > 0 {
        TrailingShift(full, input, open, n - 1);
      }
    }
    if n: nat :| TrailingTombstones(full, rest, next, n) {
      TrailingShift(full, input, open, n);
    }
  }

  lemma TrailingStart(full: Run<Key> -> bool, input: Run<Key>, open: Option<Run<Key>>)
    requires input != []
    ensures TrailingTombstones(full, input, open, 0) <==> open == None && OnlyTombstones(input)
  {
    assert input[..0] == [] && input[0..] == input;
  }

  lemma OutputsCons(full: Run<Key> -> bool, bottom: bool, input: Run<Key>, open: Option<Run<Key>>)
    requires input != []
    ensures var kept := if bottom && input[0].value == [] then [] else [input[0]];
            var run := (if open.Some? then open.value else []) + kept;
            Outputs(full, bottom, input, open) ==
              (if full(run) then [run] else [])
                + Outputs(full, bottom, input[1..], NextOpen(full, bottom, input[0], open))
    ensures OnlyTombstones(input) <==> input[0].value == [] && OnlyTombstones(input[1..])
  {
    var run := (if open.Some? then open.value else []) + (if bottom && input[0].value == [] then [] else [input[0]]);
    if !full(run) {
      assert [] + Outputs(full, bottom, input[1..], Some(run)) == Outputs(full, bottom, input[1..], Some(run));
    }
    assert forall i :: 0 < i < |input| ==> input[i] == input[1..][i - 1];
  }

  /**
   * A table without entries is written exactly when compacting to the bottom and, from some cut (or
   * the start) on, the rest of the merged input is tombstones only. (An empty builder is not full.)
   */
  lemma {:induction false} EmptyOutputIff(full: Run<Key> -> bool, bottom: bool, input: Run<Key>, open: Option<Run<Key>>)
    requires !full([])
    ensures HasEmpty(Outputs(full, bottom, input, open)) <==>
            || (open == Some([]) && (input == [] || (bottom && OnlyTombstones(input))))
            || (bottom && SomeTrailing(full, input, open))
    decreases |input|
  {
    hide Outputs, OnlyTombstones, SomeTrailing, HasEmpty;
    if input == [] {
      NoInput(full, bottom, open);
    } else {
      var run := (if open.Some? then open.value else []) + (if bottom && input[0].value == [] then [] else [input[0]]);
      var rest, next := input[1..], NextOpen(full, bottom, input[0], open);
      EmptyOutputIff(full, bottom, rest, next);
      OutputsCons(full, bottom, input, open);
      HasEmptyCons(run, Outputs(full, bottom, rest, next));
      assert [] + Outputs(full, bottom, rest, next) == Outputs(full, bottom, rest, next);
      NoTombstones();
      if bottom {
        TrailingStep(full, input, open);
        TrailingNone(full, rest, next);
      }
    }
  }

  lemma NoTombstones()
    ensures OnlyTombstones([])
  {
  }

  lemma TrailingNone(full: Run<Key> -> bool, input: Run<Key>, open: Option<Run<Key>>)
    ensures input == [] ==> !SomeTrailing(full, input, open)
  {
  }

  lemma NoInput(full: Run<Key> -> bool, bottom: bool, open: Option<Run<Key>>)
    ensures HasEmpty(Outputs(full, bottom, [], open)) <==> open == Some([])
    ensures !SomeTrailing(full, [], open)
  {
    if open.Some? {
      assert Outputs(full, bottom, [], open)[0] == open.value;
    }
  }
}
