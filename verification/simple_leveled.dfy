/** src/compact/simple_leveled.rs: whole-level compaction triggered by file counts. */
module SimpleLeveled {
  import opened Common
  import opened Compaction
  import opened Contents
  import opened LeveledTermination
  import opened State

  datatype Options = Options(sizeRatioPercent: nat, level0FileNumCompactionTrigger: nat, maxLevels: nat)

  /** Levels are numbered from 1, and there is at least one. */
  ghost predicate Shaped(o: Options, s: LsmState) {
    1 <= o.maxLevels == |s.levels| && forall i :: 0 <= i < |s.levels| ==> s.levels[i].number == i + 1
  }

  /** Lower file count in percent of the upper file count, rounded down, against the threshold. */
  predicate CompactionRequired(o: Options, upperNumFiles: nat, lowerNumFiles: nat) {
    upperNumFiles != 0 && lowerNumFiles * 100 / upperNumFiles < o.sizeRatioPercent
  }

  predicate RequiredAt(o: Options, s: LsmState, i: nat)
    requires i + 1 < |s.levels|
  {
    CompactionRequired(o, |s.levels[i].ids|, |s.levels[i + 1].ids|)
  }

  function FirstRequired(o: Options, s: LsmState, i: nat): (r: Option<nat>)
    requires i < |s.levels|
    ensures r.Some? ==> i <= r.value < |s.levels| - 1 && RequiredAt(o, s, r.value)
    ensures r.Some? ==> forall j :: i <= j < r.value ==> !RequiredAt(o, s, j)
    ensures r.None? ==> forall j :: i <= j < |s.levels| - 1 ==> !RequiredAt(o, s, j)
    decreases |s.levels| - i
  {
    if i == |s.levels| - 1 then None
    else if RequiredAt(o, s, i) then Some(i)
    else FirstRequired(o, s, i + 1)
  }

  function LevelTaskAt(s: LsmState, i: nat): LevelTask
    requires i + 1 < |s.levels|
  {
    var upper, lower := s.levels[i], s.levels[i + 1];
    LevelTask(Some(upper.number), upper.ids, lower.number, lower.ids, |s.levels| == lower.number)
  }

  function GenerateTask(o: Options, s: LsmState): Option<LevelTask>
    requires s.levels != []
  {
    if |s.l0| >= o.level0FileNumCompactionTrigger then
      Some(LevelTask(None, s.l0, 1, s.levels[0].ids, |s.levels| == 1))
    else match FirstRequired(o, s, 0)
      case None => None
      case Some(i) => Some(LevelTaskAt(s, i))
  }

  method GenerateCompactionTask(o: Options, s: LsmState) returns (r: Option<LevelTask>)
    requires s.levels != []
    ensures r == GenerateTask(o, s)
  {
    if |s.l0| >= o.level0FileNumCompactionTrigger {
      return Some(LevelTask(None, s.l0, 1, s.levels[0].ids, |s.levels| == 1));
    }
    var maxLevel := |s.levels|;
    for i := 0 to maxLevel - 1
      invariant FirstRequired(o, s, 0) == FirstRequired(o, s, i)
    {
      if CompactionRequired(o, |s.levels[i].ids|, |s.levels[i + 1].ids|) {
        return Some(LevelTaskAt(s, i));
      }
    }
    return None;
  }

  ghost predicate CanApply(s: LsmState, t: LevelTask) {
    && s.levels != []
    && (t.upperLevel.Some? ==> 1 <= t.upperLevel.value <= |s.levels| && 1 <= t.lowerLevel <= |s.levels|)
  }

  /** L0 loses the compacted tables and L1 is replaced; or the upper level is emptied and the lower replaced. */
  function Apply(s: LsmState, t: LevelTask, output: seq<nat>): LsmState
    requires CanApply(s, t)
  {
    if t.upperLevel.None? then
      s.(l0 := Minus(s.l0, t.upperIds), levels := s.levels[0 := Level(1, output)])
    else
      var u, l := t.upperLevel.value, t.lowerLevel;
      s.(levels := s.levels[u - 1 := Level(u, [])][l - 1 := Level(l, output)])
  }

  method ApplyCompactionResult(s: LsmState, t: LevelTask, output: seq<nat>) returns (r: LsmState, removedSsts: seq<nat>)
    requires CanApply(s, t)
    ensures r == Apply(s, t, output) && removedSsts == t.upperIds + t.lowerIds
  {
    r, removedSsts := s, [];
    if t.upperLevel.None? {
      var l0: seq<nat> := [];
      for i := 0 to |s.l0|
        invariant l0 + Minus(s.l0[i..], t.upperIds) == Minus(s.l0, t.upperIds)
      {
        assert s.l0[i..][1..] == s.l0[i + 1..];
        if s.l0[i] !in t.upperIds {
          l0 := l0 + [s.l0[i]];
        }
      }
      r := r.(l0 := l0);
      r := r.(levels := r.levels[0 := Level(1, output)]);
    } else {
      var upperLevel, lowerLevel := t.upperLevel.value, t.lowerLevel;
      r := r.(levels := r.levels[upperLevel - 1 := Level(upperLevel, [])]);
      r := r.(levels := r.levels[lowerLevel - 1 := Level(lowerLevel, output)]);
    }
    removedSsts := removedSsts + t.upperIds;
    removedSsts := removedSsts + t.lowerIds;
  }

  /** Where the tables go: L0 loses the inputs or the upper level is emptied, and the lower level is the output. */
  lemma ApplyPlaces(s: LsmState, t: LevelTask, output: seq<nat>)
    requires CanApply(s, t) && (t.upperLevel.Some? ==> t.lowerLevel == t.upperLevel.value + 1)
    ensures var r := Apply(s, t, output);
            && |r.levels| == |s.levels|
            && match t.upperLevel
               case None =>
                 && (forall x :: x in r.l0 <==> x in s.l0 && x !in t.upperIds)
                 && r.levels[0] == Level(1, output) && forall i :: 0 < i < |s.levels| ==> r.levels[i] == s.levels[i]
               case Some(u) =>
                 && r.l0 == s.l0 && r.levels[u - 1] == Level(u, []) && r.levels[u] == Level(u + 1, output)
                 && forall i :: 0 <= i < |s.levels| && i != u - 1 && i != u ==> r.levels[i] == s.levels[i]
  {
    forall x ensures x in Minus(s.l0, t.upperIds) <==> x in s.l0 && x !in t.upperIds {
      MinusCount(s.l0, t.upperIds, x);
      assert x in multiset(Minus(s.l0, t.upperIds)) <==> x in Minus(s.l0, t.upperIds);
      assert x in multiset(s.l0) <==> x in s.l0;
    }
  }

  // ---------- conservation of ids ----------

  /** The task takes tables of L0 with all of L1, or two whole neighbouring levels. */
  ghost predicate TaskOk(s: LsmState, t: LevelTask) {
    && 1 <= t.lowerLevel <= |s.levels| && t.lowerIds == s.levels[t.lowerLevel - 1].ids
    && (match t.upperLevel
        case None => t.lowerLevel == 1 && multiset(t.upperIds) <= multiset(s.l0)
        case Some(u) => 1 <= u && t.lowerLevel == u + 1 && t.upperIds == s.levels[u - 1].ids)
  }

  lemma GenerateSound(o: Options, s: LsmState)
    requires Shaped(o, s) && GenerateTask(o, s).Some?
    ensures var t := GenerateTask(o, s).value;
            && TaskOk(s, t) && (t.isLowerLevelBottomLevel <==> t.lowerLevel == |s.levels|)
            && (t.upperLevel.None? <==> |s.l0| >= o.level0FileNumCompactionTrigger)
            && (t.upperLevel.None? ==> t.upperIds == s.l0)
            && (t.upperLevel.Some? ==>
                  && !InRatio(o, s, t.upperLevel.value - 1)
                  && forall i :: 0 <= i < t.upperLevel.value - 1 ==> InRatio(o, s, i))
  {
    AllRequiredIff(o, s);
  }

  /** Exactly the task's inputs leave, exactly the outputs come. */
  lemma ApplyConservesIds(s: LsmState, t: LevelTask, output: seq<nat>)
    requires TaskOk(s, t) && Distinct(SstIds(s))
    ensures CanApply(s, t)
    ensures multiset(t.upperIds + t.lowerIds) <= multiset(SstIds(s))
    ensures multiset(SstIds(Apply(s, t, output))) ==
            multiset(SstIds(s)) - multiset(t.upperIds + t.lowerIds) + multiset(output)
  {
    hide Minus, LevelIds, Distinct, SstIds;
    var s' := Apply(s, t, output);
    SstIdsBag(s);
    SstIdsBag(s');
    if t.upperLevel.None? {
      LevelIdsUpdate(s.levels, 0, Level(1, output));
      DistinctPart(s.l0, SstIds(s));
      MinusExact(s.l0, t.upperIds);
      var lower := multiset(LevelIds(s.levels));
      Exchange(multiset(s.l0), multiset(t.upperIds), lower, multiset(t.lowerIds), multiset(output));
    } else {
      TwoLevelsReplaced(s.levels, t.upperLevel.value - 1, output);
    }
  }

  lemma Exchange(a: multiset<nat>, u: multiset<nat>, b: multiset<nat>, l: multiset<nat>, added: multiset<nat>)
    requires u <= a && l <= b
    ensures u + l <= a + b && (a - u) + (b - l + added) == a + b - (u + l) + added
  {
  }

  lemma TwoLevelsReplaced(levels: seq<Level>, i: nat, output: seq<nat>)
    requires i + 1 < |levels|
    ensures var both := multiset(levels[i].ids) + multiset(levels[i + 1].ids);
            && both <= multiset(LevelIds(levels))
            && multiset(LevelIds(levels[i := Level(i + 1, [])][i + 1 := Level(i + 2, output)])) ==
               multiset(LevelIds(levels)) - both + multiset(output)
  {
    hide LevelIds;
    var emptied := levels[i := Level(i + 1, [])];
    LevelIdsUpdate(levels, i, Level(i + 1, []));
    LevelIdsUpdate(emptied, i + 1, Level(i + 2, output));
    assert emptied[i + 1] == levels[i + 1];
  }

  // ---------- convergence ----------

  ghost predicate AtRest(o: Options, s: LsmState) {
    |s.l0| < o.level0FileNumCompactionTrigger && LevelsAtRest(o, s)
  }

  /** No level that has files has more of them than the ratio allows over the level below. */
  ghost predicate LevelsAtRest(o: Options, s: LsmState) {
    forall i :: 0 <= i < |s.levels| - 1 ==> InRatio(o, s, i)
  }

  /** The level is empty, or the next one has at least the given percentage of its file count. */
  predicate InRatio(o: Options, s: LsmState, i: nat)
    requires i + 1 < |s.levels|
  {
    s.levels[i].ids == [] || |s.levels[i + 1].ids| * 100 >= o.sizeRatioPercent * |s.levels[i].ids|
  }

  /** Comparing the quotient rounded down is comparing the products. */
  lemma RequiredIff(o: Options, s: LsmState, i: nat)
    requires i + 1 < |s.levels|
    ensures RequiredAt(o, s, i) <==> !InRatio(o, s, i)
  {
    var upper, lower := |s.levels[i].ids|, |s.levels[i + 1].ids| * 100;
    if upper != 0 {
      QuotientBelow(lower, upper, o.sizeRatioPercent);
    }
  }

  lemma QuotientBelow(a: nat, b: nat, c: nat)
    requires 1 <= b
    ensures a / b < c <==> a < c * b
  {
    var q, r := a / b, a % b;
    assert a == b * q + r;
    if q < c {
      assert b * (q + 1) <= b * c;
    } else {
      assert b * c <= b * q;
    }
  }

  lemma AllRequiredIff(o: Options, s: LsmState)
    ensures forall i :: 0 <= i < |s.levels| - 1 ==> (RequiredAt(o, s, i) <==> !InRatio(o, s, i))
  {
    forall i | 0 <= i < |s.levels| - 1 ensures RequiredAt(o, s, i) <==> !InRatio(o, s, i) {
      RequiredIff(o, s, i);
    }
  }

  /** No task exactly when L0 is below its trigger and every non-empty upper level meets the ratio. */
  lemma NoTaskIff(o: Options, s: LsmState)
    requires Shaped(o, s)
    ensures GenerateTask(o, s).None? <==>
            && |s.l0| < o.level0FileNumCompactionTrigger
            && forall i :: 0 <= i < |s.levels| - 1 ==>
                 s.levels[i].ids == [] || |s.levels[i + 1].ids| * 100 >= o.sizeRatioPercent * |s.levels[i].ids|
  {
    forall i | 0 <= i < |s.levels| - 1
      ensures RequiredAt(o, s, i) <==>
              s.levels[i].ids != [] && |s.levels[i + 1].ids| * 100 < o.sizeRatioPercent * |s.levels[i].ids|
    {
      RequiredIff(o, s, i);
    }
  }

  /** With trigger 0 there always is a task. */
  lemma ZeroTriggerNeverRests(o: Options, s: LsmState)
    requires Shaped(o, s) && o.level0FileNumCompactionTrigger == 0
    ensures GenerateTask(o, s).Some?
  {
  }

  /** `s'` has the lists that applying the generated task leaves, with some output. */
  ghost predicate StepsTo(o: Options, s: LsmState, s': LsmState)
    requires Shaped(o, s)
  {
    && GenerateTask(o, s).Some?
    && exists output ::
         var r := Apply(s, GenerateTask(o, s).value, output);
         s'.l0 == r.l0 && s'.levels == r.levels
  }

  /** The state after `k` tasks of a cascade: levels above `k` are empty, and only the pair at `k` may be off. */
  ghost predicate Cascading(o: Options, s: LsmState, k: nat) {
    && Shaped(o, s) && k < |s.levels| && |s.l0| < o.level0FileNumCompactionTrigger
    && (forall i :: 0 <= i < k ==> s.levels[i].ids == [])
    && (forall i :: 0 <= i < |s.levels| - 1 && i != k ==> InRatio(o, s, i))
  }

  lemma FirstStep(o: Options, s: LsmState, s': LsmState)
    requires Shaped(o, s) && LevelsAtRest(o, s) && 1 <= o.level0FileNumCompactionTrigger
    requires StepsTo(o, s, s')
    ensures Cascading(o, s', 0)
  {
    MinusAll(s.l0, s.l0);
    GenerateSound(o, s);
    forall i | 0 < i < |s'.levels| - 1 ensures InRatio(o, s', i) {
      assert InRatio(o, s, i);
    }
  }

  lemma CascadeStep(o: Options, s: LsmState, k: nat, s': LsmState)
    requires Cascading(o, s, k) && StepsTo(o, s, s')
    ensures Cascading(o, s', k + 1)
  {
    GenerateSound(o, s);
    var t := GenerateTask(o, s).value;
    assert !InRatio(o, s, t.upperLevel.value - 1);
    assert t.upperLevel == Some(k + 1);
    forall i | 0 <= i < |s'.levels| - 1 && i != k + 1 ensures InRatio(o, s', i) {
      if i > k { assert InRatio(o, s, i); }
    }
  }

  /** A run of compactions that goes on as long as there are tasks. */
  ghost predicate Runs(o: Options, run: nat -> LsmState) {
    forall i: nat :: Shaped(o, run(i)) && (GenerateTask(o, run(i)).Some? ==> Follows(o, run, i))
  }

  ghost predicate Follows(o: Options, run: nat -> LsmState, i: nat) {
    Shaped(o, run(i)) && StepsTo(o, run(i), run(i + 1))
  }

  lemma {:induction false} CascadeEnds(o: Options, run: nat -> LsmState, i: nat, k: nat)
    requires Runs(o, run) && Cascading(o, run(i), k)
    ensures exists j: nat :: j <= i + o.maxLevels - 1 - k && GenerateTask(o, run(j)).None?
    decreases o.maxLevels - k
  {
    hide GenerateTask, StepsTo;
    if GenerateTask(o, run(i)).Some? {
      assert Follows(o, run, i);
      CascadeFits(o, run(i), k);
      CascadeStep(o, run(i), k, run(i + 1));
      CascadeEnds(o, run, i + 1, k + 1);
    }
  }

  lemma CascadeFits(o: Options, s: LsmState, k: nat)
    requires Cascading(o, s, k) && GenerateTask(o, s).Some?
    ensures k + 1 < |s.levels|
  {
  }

  /**
   * If all levels were at rest before new tables reached L0, at most `maxLevels` tasks run, whatever
   * they output, and then everything is at rest.
   */
  lemma SimpleConverges(o: Options, run: nat -> LsmState)
    requires Runs(o, run) && LevelsAtRest(o, run(0)) && 1 <= o.level0FileNumCompactionTrigger
    ensures exists j: nat :: j <= o.maxLevels && AtRest(o, run(j))
  {
    hide GenerateTask, StepsTo;
    var j: nat := 0;
    if GenerateTask(o, run(0)).Some? {
      assert Follows(o, run, 0);
      FirstStep(o, run(0), run(1));
      CascadeEnds(o, run, 1, 0);
      j :| j <= 1 + o.maxLevels - 1 - 0 && GenerateTask(o, run(j)).None?;
    }
    NoTaskIff(o, run(j));
  }
}
