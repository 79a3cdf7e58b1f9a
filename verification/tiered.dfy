/**
 * src/compact/tiered.rs: tiered compaction. Tiers are ordered from newest to oldest, L0 is unused, and
 * sizes are file counts. Ratios are compared exactly.
 */
module TieredCompaction {
  import opened Common
  import opened Compaction
  import opened State

  datatype Options = Options(
    numTiers: nat, maxSizeAmplificationPercent: nat, sizeRatio: nat, minMergeWidth: nat, maxMergeWidth: Option<nat>)

  /** L0 is empty and no tier is. */
  ghost predicate Shaped(o: Options, s: LsmState) {
    && s.l0 == [] && 1 <= o.numTiers
    && forall i :: 0 <= i < |s.levels| ==> s.levels[i].ids != []
  }

  function FilesIn(levels: seq<Level>, n: nat): nat
    requires n <= |levels|
  {
    if n == 0 then 0 else FilesIn(levels, n - 1) + |levels[n - 1].ids|
  }

  /** All tiers but the last, in percent of the last. */
  predicate AmplificationTriggers(o: Options, levels: seq<Level>)
    requires levels != []
  {
    FilesIn(levels, |levels| - 1) * 100 >= o.maxSizeAmplificationPercent * |levels[|levels| - 1].ids|
  }

  predicate RatioTriggersAt(o: Options, levels: seq<Level>, i: nat)
    requires i + 1 < |levels|
  {
    |levels[i + 1].ids| * 100 > FilesIn(levels, i + 1) * (100 + o.sizeRatio) && i + 1 >= o.minMergeWidth
  }

  function FirstRatio(o: Options, levels: seq<Level>, i: nat): (r: Option<nat>)
    requires i < |levels|
    ensures r.Some? ==> i <= r.value < |levels| - 1 && RatioTriggersAt(o, levels, r.value)
    ensures r.Some? ==> forall j :: i <= j < r.value ==> !RatioTriggersAt(o, levels, j)
    ensures r.None? ==> forall j :: i <= j < |levels| - 1 ==> !RatioTriggersAt(o, levels, j)
    decreases |levels| - i
  {
    if i == |levels| - 1 then None
    else if RatioTriggersAt(o, levels, i) then Some(i)
    else FirstRatio(o, levels, i + 1)
  }

  function TiersToTake(o: Options, levels: seq<Level>): nat {
    if o.maxMergeWidth.None? then |levels| else Min(|levels|, o.maxMergeWidth.value)
  }

  function GenerateTask(o: Options, s: LsmState): Option<TieredTask>
    requires 1 <= o.numTiers
  {
    if |s.levels| < o.numTiers then None
    else if AmplificationTriggers(o, s.levels) then Some(TieredTask(s.levels, true))
    else match FirstRatio(o, s.levels, 0)
      case Some(i) => Some(TieredTask(s.levels[..i + 1], false))
      case None =>
        var n := TiersToTake(o, s.levels);
        Some(TieredTask(s.levels[..n], |s.levels| >= n))
  }

  method GenerateCompactionTask(o: Options, s: LsmState) returns (r: Option<TieredTask>)
    requires Shaped(o, s)
    ensures r == GenerateTask(o, s)
  {
    if |s.levels| < o.numTiers {
      return None;
    }
    var size := 0;
    for id := 0 to |s.levels| - 1
      invariant size == FilesIn(s.levels, id)
    {
      size := size + |s.levels[id].ids|;
    }
    if size * 100 >= o.maxSizeAmplificationPercent * |s.levels[|s.levels| - 1].ids| {
      return Some(TieredTask(s.levels, true));
    }
    size := 0;
    for id := 0 to |s.levels| - 1
      invariant size == FilesIn(s.levels, id)
      invariant FirstRatio(o, s.levels, 0) == FirstRatio(o, s.levels, id)
    {
      size := size + |s.levels[id].ids|;
      var nextLevelSize := |s.levels[id + 1].ids|;
      if nextLevelSize * 100 > size * (100 + o.sizeRatio) && id + 1 >= o.minMergeWidth {
        return Some(TieredTask(s.levels[..id + 1], false));
      }
    }
    var numTiersToTake := if o.maxMergeWidth.None? then |s.levels| else Min(|s.levels|, o.maxMergeWidth.value);
    return Some(TieredTask(s.levels[..numTiersToTake], |s.levels| >= numTiersToTake));
  }

  /** A task always takes the newest tiers. */
  lemma TaskIsPrefix(o: Options, s: LsmState)
    requires Shaped(o, s) && GenerateTask(o, s).Some?
    ensures GenerateTask(o, s).value.tiers <= s.levels
    ensures (o.maxMergeWidth.Some? ==> 1 <= o.maxMergeWidth.value) ==> GenerateTask(o, s).value.tiers != []
  {
  }

  // ---------- the three kinds of task ----------

  /** How many files the first `n` tiers have. */
  function FileCount(levels: seq<Level>, n: nat): nat
    requires n <= |levels|
  {
    |LevelIds(levels[..n])|
  }

  lemma {:induction false} FilesAreCounted(levels: seq<Level>, n: nat)
    requires n <= |levels|
    ensures FilesIn(levels, n) == FileCount(levels, n)
  {
    if n > 0 {
      FilesAreCounted(levels, n - 1);
      LevelIdsConcat(levels[..n - 1], [levels[n - 1]]);
      assert levels[..n] == levels[..n - 1] + [levels[n - 1]];
      LevelIdsCons(levels[n - 1], []);
      assert [levels[n - 1]] + [] == [levels[n - 1]];
      NoLevels();
    }
  }

  /** All tiers but the last have at least the given percentage of its files. */
  predicate TooAmplified(o: Options, levels: seq<Level>)
    requires levels != []
  {
    var n := |levels| - 1;
    FileCount(levels, n) * 100 >= o.maxSizeAmplificationPercent * |levels[n].ids|
  }

  /** Tier `i + 1` has too many files for those before it, and they are enough to merge. */
  predicate RatioBreaks(o: Options, levels: seq<Level>, i: nat) {
    && i + 1 < |levels| && o.minMergeWidth <= i + 1
    && |levels[i + 1].ids| * 100 > FileCount(levels, i + 1) * (100 + o.sizeRatio)
  }

  lemma TriggersAre(o: Options, levels: seq<Level>)
    requires levels != []
    ensures AmplificationTriggers(o, levels) <==> TooAmplified(o, levels)
    ensures forall i :: 0 <= i < |levels| - 1 ==> (RatioTriggersAt(o, levels, i) <==> RatioBreaks(o, levels, i))
  {
    hide FilesIn, FileCount;
    FilesAreCounted(levels, |levels| - 1);
    forall i | 0 <= i < |levels| - 1 ensures RatioTriggersAt(o, levels, i) <==> RatioBreaks(o, levels, i) {
      FilesAreCounted(levels, i + 1);
    }
  }

  /**
   * There is a task exactly from `numTiers` tiers on: for all tiers, to the bottom, if they are too amplified;
   * else for the tiers before the first one that breaks the ratio, not to the bottom; else for as many as the
   * width allows, said to reach the bottom.
   */
  lemma TaskCases(o: Options, s: LsmState)
    requires Shaped(o, s)
    ensures GenerateTask(o, s).None? <==> |s.levels| < o.numTiers
    ensures o.numTiers <= |s.levels| ==>
              var task, levels := GenerateTask(o, s).value, s.levels;
              && (TooAmplified(o, levels) ==> task == TieredTask(levels, true))
              && (forall i: nat ::
                    !TooAmplified(o, levels) && RatioBreaks(o, levels, i)
                    && (forall j :: 0 <= j < i ==> !RatioBreaks(o, levels, j)) ==>
                      task == TieredTask(levels[..i + 1], false))
              && (!TooAmplified(o, levels) && (forall i: nat :: !RatioBreaks(o, levels, i)) ==>
                    if o.maxMergeWidth.None? || |levels| <= o.maxMergeWidth.value then task == TieredTask(levels, true)
                    else task == TieredTask(levels[..o.maxMergeWidth.value], true))
  {
    hide AmplificationTriggers, RatioTriggersAt, TooAmplified, RatioBreaks;
    if o.numTiers <= |s.levels| {
      TriggersAre(o, s.levels);
      BreaksWithin(o, s.levels);
      assert s.levels[..|s.levels|] == s.levels;
    }
  }

  lemma BreaksWithin(o: Options, levels: seq<Level>)
    ensures forall i: nat :: RatioBreaks(o, levels, i) ==> i < |levels| - 1
  {
  }

  /** If some tier breaks the ratio, one of them is the first. */
  lemma SomeBreaksFirst(o: Options, levels: seq<Level>)
    ensures (exists i: nat :: RatioBreaks(o, levels, i)) ==>
              exists i: nat :: RatioBreaks(o, levels, i) && forall j :: 0 <= j < i ==> !RatioBreaks(o, levels, j)
  {
    hide RatioBreaks;
    if i: nat :| RatioBreaks(o, levels, i) {
      var first := FirstBreak(o, levels, i);
    }
  }

  lemma {:induction false} FirstBreak(o: Options, levels: seq<Level>, i: nat) returns (first: nat)
    requires RatioBreaks(o, levels, i)
    ensures RatioBreaks(o, levels, first) && forall j :: 0 <= j < first ==> !RatioBreaks(o, levels, j)
  {
    hide RatioBreaks;
    if j: nat :| j < i && RatioBreaks(o, levels, j) {
      first := FirstBreak(o, levels, j);
    } else {
      first := i;
    }
  }

  /**
   * The bottom flag is set although older tiers stay behind exactly when the tiers are not too amplified, none
   * breaks the ratio, and the merge width is below their number: then tombstones are dropped too early.
   */
  lemma BottomFlagWrongIff(o: Options, s: LsmState)
    requires Shaped(o, s) && GenerateTask(o, s).Some?
    ensures var t := GenerateTask(o, s).value;
            t.bottomTierIncluded && t.tiers != s.levels <==>
            && !TooAmplified(o, s.levels) && (forall i: nat :: !RatioBreaks(o, s.levels, i))
            && o.maxMergeWidth.Some? && o.maxMergeWidth.value < |s.levels|
    ensures var t := GenerateTask(o, s).value;
            !t.bottomTierIncluded ==> t.tiers != s.levels
  {
    hide AmplificationTriggers, RatioTriggersAt, TooAmplified, RatioBreaks;
    TriggersAre(o, s.levels);
    BreaksWithin(o, s.levels);
    var t := GenerateTask(o, s).value;
    assert |t.tiers| < |s.levels| ==> t.tiers != s.levels;
  }

  /** Three tiers of one file each, at most two merged at a time: the flag is set with one tier left out. */
  lemma BottomFlagExample()
    ensures var o := Options(3, 1000, 0, 2, Some(2));
            var levels := [Level(3, [3]), Level(2, [2]), Level(1, [1])];
            forall s: LsmState :: s.l0 == [] && s.levels == levels ==>
              GenerateTask(o, s) == Some(TieredTask(levels[..2], true))
  {
    var o := Options(3, 1000, 0, 2, Some(2));
    var levels := [Level(3, [3]), Level(2, [2]), Level(1, [1])];
    assert FilesIn(levels, 1) == 1 && FilesIn(levels, 2) == 2;
    assert !RatioTriggersAt(o, levels, 0) && !RatioTriggersAt(o, levels, 1);
    assert FirstRatio(o, levels, 0) == None;
  }

  // ---------- apply_compaction_result ----------

  function TierMap(tiers: seq<Level>): map<nat, seq<nat>> {
    if tiers == [] then map[] else TierMap(tiers[1..])[tiers[0].number := tiers[0].ids]
  }

  /** Tier ids are distinct. */
  ghost predicate DistinctTiers(levels: seq<Level>) {
    forall i, j :: 0 <= i < j < |levels| ==> levels[i].number != levels[j].number
  }

  lemma {:induction false} TierMapHas(tiers: seq<Level>, n: nat)
    ensures n in TierMap(tiers) <==> exists i :: 0 <= i < |tiers| && tiers[i].number == n
  {
    if tiers != [] {
      var rest := tiers[1..];
      TierMapHas(rest, n);
      if i :| 0 <= i < |rest| && rest[i].number == n { assert tiers[i + 1].number == n; }
      if i :| 0 <= i < |tiers| && tiers[i].number == n {
        assert i > 0 ==> rest[i - 1].number == n;
      }
    }
  }

  lemma TierMapPop(tiers: seq<Level>)
    requires DistinctTiers(tiers) && tiers != []
    ensures tiers[0].number in TierMap(tiers) && TierMap(tiers)[tiers[0].number] == tiers[0].ids
    ensures TierMap(tiers) - {tiers[0].number} == TierMap(tiers[1..])
  {
    TierMapHas(tiers[1..], tiers[0].number);
  }

  /** The tiers that a task names are still there, in a row, behind tiers flushed in the meantime. */
  ghost predicate Sits(levels: seq<Level>, newer: seq<Level>, taken: seq<Level>, older: seq<Level>) {
    levels == newer + taken + older && taken != [] && DistinctTiers(levels)
  }

  /** The tiers still to be removed when the pass has reached index `i`. */
  ghost function StillTaken(levels: seq<Level>, a: nat, b: nat, i: nat): seq<Level>
    requires a <= b <= |levels|
  {
    if i <= a then levels[a..b] else if i <= b then levels[i..b] else []
  }

  lemma PassStep(levels: seq<Level>, a: nat, b: nat, i: nat)
    requires a < b <= |levels| && i < |levels| && DistinctTiers(levels)
    ensures levels[i].number in TierMap(StillTaken(levels, a, b, i)) <==> a <= i < b
    ensures a <= i < b ==>
              && TierMap(StillTaken(levels, a, b, i))[levels[i].number] == levels[i].ids
              && TierMap(StillTaken(levels, a, b, i)) - {levels[i].number} == TierMap(StillTaken(levels, a, b, i + 1))
              && LevelIds(StillTaken(levels, a, b, i)) == levels[i].ids + LevelIds(StillTaken(levels, a, b, i + 1))
    ensures !(a <= i < b) ==> StillTaken(levels, a, b, i) == StillTaken(levels, a, b, i + 1)
    ensures TierMap(StillTaken(levels, a, b, i + 1)) == map[] <==> b <= i + 1
  {
    var now, next := StillTaken(levels, a, b, i), StillTaken(levels, a, b, i + 1);
    TierMapHas(now, levels[i].number);
    if a <= i < b {
      assert now[0] == levels[i] && now[1..] == next;
      TierMapPop(now);
    }
    if next != [] {
      TierMapHas(next, next[0].number);
    }
  }

  /** The new list when the pass has reached index `i`. */
  ghost function Passed(levels: seq<Level>, a: nat, b: nat, added: Level, i: nat): seq<Level>
    requires a < b <= |levels| && i <= |levels|
  {
    if i <= a then levels[..i] else if i < b then levels[..a] else levels[..a] + [added] + levels[b..i]
  }

  lemma PassedStep(levels: seq<Level>, a: nat, b: nat, added: Level, i: nat)
    requires a < b <= |levels| && i < |levels|
    ensures Passed(levels, a, b, added, 0) == []
    ensures var kept := Passed(levels, a, b, added, i) + (if a <= i < b then [] else [levels[i]]);
            Passed(levels, a, b, added, i + 1) == if i + 1 == b then kept + [added] else kept
  {
    var before := Passed(levels, a, b, added, i);
    assert before + [] == before;
    if i + 1 == b {
      assert levels[b..b] == [] && levels[..a] + [added] + [] == levels[..a] + [added];
    } else if b <= i {
      assert levels[b..i + 1] == levels[b..i] + [levels[i]];
    } else if i < a {
      assert levels[..i + 1] == levels[..i] + [levels[i]];
    }
  }

  /** Where the pass over the tiers stands at index `i`; `all` are the files of the tiers to remove. */
  ghost predicate InPass(levels: seq<Level>, a: nat, b: nat, added: Level, all: seq<nat>, i: nat,
                         tierToRemove: map<nat, seq<nat>>, filesToRemove: seq<nat>, passed: seq<Level>, isAdded: bool)
  {
    && a < b <= |levels| && i <= |levels| && DistinctTiers(levels)
    && tierToRemove == TierMap(StillTaken(levels, a, b, i))
    && filesToRemove + LevelIds(StillTaken(levels, a, b, i)) == all
    && isAdded == (i >= b) && passed == Passed(levels, a, b, added, i)
  }

  /** One turn: a tier to remove is found unchanged and left out, and the last of them is replaced. */
  lemma PassAdvance(levels: seq<Level>, a: nat, b: nat, added: Level, all: seq<nat>, i: nat,
                    tierToRemove: map<nat, seq<nat>>, filesToRemove: seq<nat>, passed: seq<Level>, isAdded: bool)
    requires InPass(levels, a, b, added, all, i, tierToRemove, filesToRemove, passed, isAdded) && i < |levels|
    ensures var tier := levels[i];
            var found := tier.number in tierToRemove;
            var rest := if found then tierToRemove - {tier.number} else tierToRemove;
            var files := if found then filesToRemove + tier.ids else filesToRemove;
            var kept := if found then passed else passed + [tier];
            var last := rest == map[] && !isAdded;
            && (found ==> tierToRemove[tier.number] == tier.ids)
            && InPass(levels, a, b, added, all, i + 1, rest, files, if last then kept + [added] else kept,
                      isAdded || last)
  {
    hide TierMap, LevelIds, DistinctTiers, StillTaken, Passed;
    PassStep(levels, a, b, i);
    PassedStep(levels, a, b, added, i);
    Associative(filesToRemove, levels[i].ids, LevelIds(StillTaken(levels, a, b, i + 1)));
    assert passed + [] == passed;
  }

  /**
   * One pass over the tiers, with a map of tiers to remove that must be found unchanged; the compacted
   * tier is put where the last of them was.
   */
  method ApplyCompactionResult(
    s: LsmState, t: TieredTask, output: seq<nat>, ghost newer: seq<Level>, ghost older: seq<Level>)
    returns (r: LsmState, filesToRemove: seq<nat>)
    requires s.l0 == [] && Sits(s.levels, newer, t.tiers, older) && output != []
    ensures r == s.(levels := newer + [Level(output[0], output)] + older)
    ensures filesToRemove == LevelIds(t.tiers)
  {
    hide TierMap, LevelIds, DistinctTiers, InPass;
    ghost var a, b := |newer|, |newer| + |t.tiers|;
    ghost var added, all := Level(output[0], output), LevelIds(t.tiers);
    PassBegins(s.levels, newer, t.tiers, older, added);
    var tierToRemove: map<nat, seq<nat>> := TierMap(t.tiers);
    var levels: seq<Level> := [];
    var newTierAdded := false;
    filesToRemove := [];
    for i := 0 to |s.levels|
      invariant InPass(s.levels, a, b, added, all, i, tierToRemove, filesToRemove, levels, newTierAdded)
    {
      PassAdvance(s.levels, a, b, added, all, i, tierToRemove, filesToRemove, levels, newTierAdded);
      var tier := s.levels[i];
      if tier.number in tierToRemove {
        assert tierToRemove[tier.number] == tier.ids;
        tierToRemove := tierToRemove - {tier.number};
        filesToRemove := filesToRemove + tier.ids;
      } else {
        levels := levels + [tier];
      }
      if tierToRemove == map[] && !newTierAdded {
        newTierAdded := true;
        levels := levels + [Level(output[0], output)];
      }
    }
    PassEnds(s.levels, newer, t.tiers, older, added, tierToRemove, filesToRemove, levels, newTierAdded);
    r := s.(levels := levels);
  }

  lemma PassBegins(levels: seq<Level>, newer: seq<Level>, taken: seq<Level>, older: seq<Level>, added: Level)
    requires Sits(levels, newer, taken, older)
    ensures InPass(levels, |newer|, |newer| + |taken|, added, LevelIds(taken), 0, TierMap(taken), [], [], false)
  {
    hide TierMap, LevelIds, DistinctTiers;
    PassStart(levels, newer, taken, older);
    PassedStep(levels, |newer|, |newer| + |taken|, added, 0);
    assert [] + LevelIds(taken) == LevelIds(taken);
  }

  lemma PassEnds(levels: seq<Level>, newer: seq<Level>, taken: seq<Level>, older: seq<Level>, added: Level,
                 tierToRemove: map<nat, seq<nat>>, filesToRemove: seq<nat>, passed: seq<Level>, isAdded: bool)
    requires levels == newer + taken + older
    requires InPass(levels, |newer|, |newer| + |taken|, added, LevelIds(taken), |levels|, tierToRemove, filesToRemove,
                    passed, isAdded)
    ensures passed == newer + [added] + older && filesToRemove == LevelIds(taken)
  {
    hide TierMap, LevelIds, DistinctTiers, Passed;
    PassStart(levels, newer, taken, older);
    PassedAll(levels, newer, taken, older, added);
    assert filesToRemove + [] == filesToRemove;
  }

  lemma PassedAll(levels: seq<Level>, newer: seq<Level>, taken: seq<Level>, older: seq<Level>, added: Level)
    requires levels == newer + taken + older && taken != []
    ensures Passed(levels, |newer|, |newer| + |taken|, added, |levels|) == newer + [added] + older
  {
    assert levels[..|newer|] == newer && levels[|newer| + |taken|..|levels|] == older;
  }

  lemma PassStart(levels: seq<Level>, newer: seq<Level>, taken: seq<Level>, older: seq<Level>)
    requires levels == newer + taken + older
    ensures var a, b := |newer|, |newer| + |taken|;
            && StillTaken(levels, a, b, 0) == taken && levels[..a] == newer && levels[b..] == older
            && (a < b ==> LevelIds(StillTaken(levels, a, b, |levels|)) == [])
  {
    assert levels[|newer|..|newer| + |taken|] == taken;
  }

  /** The lists after a compaction. */
  function Applied(s: LsmState, newer: seq<Level>, older: seq<Level>, output: seq<nat>): LsmState
    requires output != []
  {
    s.(levels := newer + [Level(output[0], output)] + older)
  }

  lemma {:induction false} LevelIdsConcat(a: seq<Level>, b: seq<Level>)
    ensures LevelIds(a + b) == LevelIds(a) + LevelIds(b)
  {
    hide LevelIds;
    if a == [] {
      assert a + b == b;
      NoLevels();
    } else {
      LevelIdsConcat(a[1..], b);
      assert a == [a[0]] + a[1..] && a + b == [a[0]] + (a[1..] + b);
      LevelIdsCons(a[0], a[1..]);
      LevelIdsCons(a[0], a[1..] + b);
    }
  }

  lemma NoLevels()
    ensures LevelIds([]) == []
  {
  }

  /** Exactly the taken tiers' files leave, exactly the outputs come. */
  lemma ApplyConservesIds(s: LsmState, newer: seq<Level>, taken: seq<Level>, older: seq<Level>, output: seq<nat>)
    requires s.l0 == [] && s.levels == newer + taken + older && output != []
    ensures multiset(LevelIds(taken)) <= multiset(SstIds(s))
    ensures multiset(SstIds(Applied(s, newer, older, output))) ==
            multiset(SstIds(s)) - multiset(LevelIds(taken)) + multiset(output)
  {
    hide LevelIds;
    LevelIdsConcat(newer + taken, older);
    LevelIdsConcat(newer, taken);
    var added := [Level(output[0], output)];
    LevelIdsConcat(newer + added, older);
    LevelIdsConcat(newer, added);
    assert added == added + [];
    LevelIdsCons(added[0], []);
    NoLevels();
  }

  /** Every width is at least two, so that merging always merges something. */
  ghost predicate WidthsMerge(o: Options) {
    2 <= o.numTiers && 2 <= o.minMergeWidth && (o.maxMergeWidth.Some? ==> 2 <= o.maxMergeWidth.value)
  }

  /** One compaction after a flush from below the bound brings the number of tiers below it again. */
  lemma TaskRestoresBound(o: Options, s: LsmState, older: seq<Level>, output: seq<nat>)
    requires Shaped(o, s) && output != [] && GenerateTask(o, s).Some?
    requires WidthsMerge(o)
    requires |s.levels| <= o.numTiers && s.levels == GenerateTask(o, s).value.tiers + older
    ensures |Applied(s, [], older, output).levels| < o.numTiers
  {
  }

  ghost predicate Compacted(o: Options, s: LsmState, older: seq<Level>, output: seq<nat>, s': LsmState)
    requires Shaped(o, s)
  {
    && GenerateTask(o, s).Some? && output != [] && s.levels == GenerateTask(o, s).value.tiers + older
    && s' == Applied(s, [], older, output)
  }

  /** `s'` is `s` after the generated task, whatever it put out. */
  ghost predicate StepsTo(o: Options, s: LsmState, s': LsmState)
    requires Shaped(o, s)
  {
    exists older, output :: Compacted(o, s, older, output, s')
  }

  lemma TaskLowersTiers(o: Options, s: LsmState, s': LsmState)
    requires Shaped(o, s) && WidthsMerge(o) && StepsTo(o, s, s')
    ensures |s'.levels| < |s.levels| && o.numTiers <= |s.levels|
  {
    hide AmplificationTriggers, FilesIn, FirstRatio;
    var older, output :| Compacted(o, s, older, output, s');
    assert s'.levels == [Level(output[0], output)] + older;
  }

  ghost predicate Runs(o: Options, run: nat -> LsmState) {
    && (forall i: nat :: Shaped(o, run(i)))
    && (forall i: nat :: GenerateTask(o, run(i)).Some? ==> StepsTo(o, run(i), run(i + 1)))
  }

  lemma {:induction false} RestsFrom(o: Options, run: nat -> LsmState, i: nat) returns (j: nat)
    requires Runs(o, run) && WidthsMerge(o)
    ensures i <= j && GenerateTask(o, run(j)).None?
    ensures j > i ==> j - i + o.numTiers <= |run(i).levels| + 1
    decreases |run(i).levels|
  {
    hide GenerateTask, StepsTo;
    if GenerateTask(o, run(i)).None? {
      j := i;
    } else {
      TaskLowersTiers(o, run(i), run(i + 1));
      j := RestsFrom(o, run, i + 1);
    }
  }

  /**
   * Without new flushes, and from any number of tiers, tiered compaction comes to rest: after at most one
   * task for each tier from the bound on.
   */
  lemma TieredConverges(o: Options, run: nat -> LsmState)
    requires Runs(o, run) && WidthsMerge(o)
    ensures exists j: nat :: (j == 0 || j + o.numTiers <= |run(0).levels| + 1) && GenerateTask(o, run(j)).None?
  {
    hide GenerateTask, StepsTo;
    var j := RestsFrom(o, run, 0);
    assert j == 0 || j + o.numTiers <= |run(0).levels| + 1;
  }
}
