/**
 * src/compact/leveled.rs: leveled compaction with dynamic level sizes and partial compaction.
 * Level numbers start at 1; level i is `levels[i - 1]`. Size ratios are compared exactly.
 */
module LeveledCompaction {
  import opened Common
  import opened Compaction
  import opened Keys
  import opened State

  datatype Options = Options(
    levelSizeMultiplier: nat, level0FileNumCompactionTrigger: nat, maxLevels: nat, baseLevelSizeMb: nat)
  {
    function BaseBytes(): (r: nat)
      ensures r == 0x10_0000 * baseLevelSizeMb
    {
      baseLevelSizeMb * 1024 * 1024
    }
  }

  /** What the engine sets up: as many levels as configured, and a multiplier to divide by. */
  ghost predicate Shaped(o: Options, s: LsmState) {
    && 1 <= o.maxLevels == |s.levels| && 1 <= o.levelSizeMultiplier
    && Known(s.sstables, s.l0) && forall i :: 0 <= i < |s.levels| ==> Known(s.sstables, s.levels[i].ids)
  }

  // ---------- sizes ----------

  function SizeOf(tables: map<nat, Table>, ids: seq<nat>): nat
    requires Known(tables, ids)
  {
    if ids == [] then 0 else tables[ids[0]].size + SizeOf(tables, ids[1..])
  }

  /** The size of a level is the sum of the file sizes of its tables. */
  lemma {:induction false} SizesAddUp(tables: map<nat, Table>, a: seq<nat>, b: seq<nat>)
    requires Known(tables, a) && Known(tables, b)
    ensures SizeOf(tables, []) == 0
    ensures forall id :: id in tables ==> SizeOf(tables, [id]) == tables[id].size
    ensures Known(tables, a + b) && SizeOf(tables, a + b) == SizeOf(tables, a) + SizeOf(tables, b)
  {
    forall id | id in tables ensures SizeOf(tables, [id]) == tables[id].size {
      assert [id][1..] == [];
    }
    if a == [] {
      assert a + b == b;
    } else {
      assert (a + b)[1..] == a[1..] + b;
      SizesAddUp(tables, a[1..], b);
    }
  }

  function RealSizes(s: LsmState): (r: seq<nat>)
    requires forall i :: 0 <= i < |s.levels| ==> Known(s.sstables, s.levels[i].ids)
    ensures |r| == |s.levels| && forall i :: 0 <= i < |r| ==> r[i] == SizeOf(s.sstables, s.levels[i].ids)
  {
    seq(|s.levels|, i requires 0 <= i < |s.levels| => SizeOf(s.sstables, s.levels[i].ids))
  }

  /** The target of level index `i`: at the bottom its real size or the base size; above, a share of the level below. */
  function Target(o: Options, sizes: seq<nat>, i: nat): nat
    requires i < |sizes| && 1 <= o.levelSizeMultiplier
    decreases |sizes| - i
  {
    if i == |sizes| - 1 then Max(sizes[i], o.BaseBytes())
    else
      var below := Target(o, sizes, i + 1);
      if below > o.BaseBytes() then below / o.levelSizeMultiplier else 0
  }

  /** The first level with a positive target, or the bottom level. */
  function BaseFrom(o: Options, sizes: seq<nat>, i: nat): (b: nat)
    requires i < |sizes| && 1 <= o.levelSizeMultiplier
    ensures i < b <= |sizes|
    decreases |sizes| - i
  {
    if i == |sizes| - 1 || Target(o, sizes, i) > 0 then i + 1 else BaseFrom(o, sizes, i + 1)
  }

  lemma {:induction false} TargetZeroAbove(o: Options, sizes: seq<nat>, i: nat, j: nat)
    requires i <= j < |sizes| && 1 <= o.levelSizeMultiplier && Target(o, sizes, j) == 0
    ensures Target(o, sizes, i) == 0
    decreases j - i
  {
    if i < j {
      TargetZeroAbove(o, sizes, i + 1, j);
    }
  }

  lemma {:induction false} BaseFromIsFirst(o: Options, sizes: seq<nat>, i: nat, j: nat)
    requires i <= j < |sizes| - 1 && 1 <= o.levelSizeMultiplier
    ensures j + 1 < BaseFrom(o, sizes, i) ==> Target(o, sizes, j) == 0
    ensures j + 1 == BaseFrom(o, sizes, i) ==> Target(o, sizes, j) > 0
    decreases j - i
  {
    if i < j && Target(o, sizes, i) == 0 {
      BaseFromIsFirst(o, sizes, i + 1, j);
    }
  }

  /**
   * With a non-zero bottom target the levels with a positive target are exactly those from the base
   * level to the bottom, and each target above the bottom is the floor quotient of the one below.
   */
  lemma TargetsShape(o: Options, sizes: seq<nat>, i: nat)
    requires i < |sizes| && 1 <= o.levelSizeMultiplier && Target(o, sizes, |sizes| - 1) > 0
    ensures Target(o, sizes, i) > 0 <==> BaseFrom(o, sizes, 0) <= i + 1
    ensures i + 1 < |sizes| && Target(o, sizes, i) > 0 ==>
              Target(o, sizes, i) == Target(o, sizes, i + 1) / o.levelSizeMultiplier
  {
    var b := BaseFrom(o, sizes, 0);
    if i < |sizes| - 1 {
      BaseFromIsFirst(o, sizes, 0, i);
      if b <= i && Target(o, sizes, i) == 0 {
        TargetZeroAbove(o, sizes, b - 1, i);
        BaseFromIsFirst(o, sizes, 0, b - 1);
      }
    }
  }

  // ---------- which level to compact ----------

  predicate Oversized(o: Options, sizes: seq<nat>, i: nat)
    requires i < |sizes| && 1 <= o.levelSizeMultiplier
  {
    0 < Target(o, sizes, i) < sizes[i]
  }

  /** Among levels with index below `n`, the one with the greatest size ratio; the lower level on a tie. */
  function Pick(o: Options, sizes: seq<nat>, n: nat): (r: Option<nat>)
    requires n <= |sizes| && 1 <= o.levelSizeMultiplier
    ensures r.Some? ==> r.value < n && Oversized(o, sizes, r.value)
  {
    if n == 0 then None
    else
      var best := Pick(o, sizes, n - 1);
      if Oversized(o, sizes, n - 1)
         && (best.None? || sizes[best.value] * Target(o, sizes, n - 1) <= sizes[n - 1] * Target(o, sizes, best.value))
      then Some(n - 1)
      else best
  }

  /** The bottom level is never larger than its own target, so it is never the upper level of a task. */
  lemma BottomNeverPicked(o: Options, sizes: seq<nat>, n: nat)
    requires 1 <= |sizes| && n <= |sizes| && 1 <= o.levelSizeMultiplier
    ensures Pick(o, sizes, n).Some? ==> Pick(o, sizes, n).value < |sizes| - 1
  {
  }

  /** What is picked has the greatest ratio above one, and the deepest level of equals is picked. */
  lemma {:induction false} PickIsGreatest(o: Options, sizes: seq<nat>, n: nat, i: nat)
    requires i < n <= |sizes| && 1 <= o.levelSizeMultiplier && Oversized(o, sizes, i)
    ensures Pick(o, sizes, n).Some?
    ensures var p := Pick(o, sizes, n).value;
            && sizes[i] * Target(o, sizes, p) <= sizes[p] * Target(o, sizes, i)
            && (p < i ==> sizes[i] * Target(o, sizes, p) < sizes[p] * Target(o, sizes, i))
  {
    if i < n - 1 {
      PickIsGreatest(o, sizes, n - 1, i);
      var q := Pick(o, sizes, n - 1).value;
      var p := Pick(o, sizes, n).value;
      if p != q {
        RatioTransitive(sizes[i], Target(o, sizes, i), sizes[q], Target(o, sizes, q), sizes[p], Target(o, sizes, p));
      }
    } else if Pick(o, sizes, n - 1).Some? {
      var q := Pick(o, sizes, n - 1).value;
    }
  }

  lemma RatioTransitive(a: nat, ta: nat, b: nat, tb: nat, c: nat, tc: nat)
    requires 0 < ta && 0 < tb && 0 < tc && a * tb <= b * ta && b * tc <= c * tb
    ensures a * tc <= c * ta
  {
    assert (a * tb) * tc <= (b * ta) * tc;
    assert (b * tc) * ta <= (c * tb) * ta;
    assert (a * tc) * tb <= (c * ta) * tb;
  }

  // ---------- overlapping tables ----------

  function MinFirst(tables: map<nat, Table>, ids: seq<nat>): Key
    requires Known(tables, ids) && ids != []
  {
    var f := FirstKey(tables[ids[0]]);
    if |ids| == 1 then f
    else
      var r := MinFirst(tables, ids[1..]);
      if KeyLess(r, f) then r else f
  }

  function MaxLast(tables: map<nat, Table>, ids: seq<nat>): Key
    requires Known(tables, ids) && ids != []
  {
    var f := LastKey(tables[ids[0]]);
    if |ids| == 1 then f
    else
      var r := MaxLast(tables, ids[1..]);
      if KeyLess(f, r) then r else f
  }

  predicate Overlaps(t: Table, begin: Key, end: Key) {
    !KeyLess(LastKey(t), begin) && !KeyLess(end, FirstKey(t))
  }

  function Overlapping(tables: map<nat, Table>, level: seq<nat>, begin: Key, end: Key): seq<nat>
    requires Known(tables, level)
  {
    if level == [] then []
    else
      (if Overlaps(tables[level[0]], begin, end) then [level[0]] else []) + Overlapping(tables, level[1..], begin, end)
  }

  function OverlappingSsts(s: LsmState, ids: seq<nat>, inLevel: nat): seq<nat>
    requires 1 <= inLevel <= |s.levels| && ids != []
    requires Known(s.sstables, ids) && Known(s.sstables, s.levels[inLevel - 1].ids)
  {
    Overlapping(s.sstables, s.levels[inLevel - 1].ids, MinFirst(s.sstables, ids), MaxLast(s.sstables, ids))
  }

  lemma {:induction false} HullBounds(tables: map<nat, Table>, ids: seq<nat>, id: nat)
    requires Known(tables, ids) && id in ids
    ensures !KeyLess(FirstKey(tables[id]), MinFirst(tables, ids)) && !KeyLess(MaxLast(tables, ids), LastKey(tables[id]))
  {
    hide KeyLess;
    KeyOrderIsTotal();
    if |ids| > 1 && id in ids[1..] {
      HullBounds(tables, ids[1..], id);
    } else {
      assert id == ids[0];
    }
  }

  /** The hull begins with one of the tables and ends with one of them. */
  lemma {:induction false} HullReached(tables: map<nat, Table>, ids: seq<nat>) returns (a: nat, b: nat)
    requires Known(tables, ids) && ids != []
    ensures a in ids && FirstKey(tables[a]) == MinFirst(tables, ids)
    ensures b in ids && LastKey(tables[b]) == MaxLast(tables, ids)
  {
    hide KeyLess;
    if |ids| == 1 {
      a, b := ids[0], ids[0];
    } else {
      a, b := HullReached(tables, ids[1..]);
      a := if KeyLess(MinFirst(tables, ids[1..]), FirstKey(tables[ids[0]])) then a else ids[0];
      b := if KeyLess(LastKey(tables[ids[0]]), MaxLast(tables, ids[1..])) then b else ids[0];
    }
  }

  /** Table `x` does not end before all of the tables begin, nor begin after all of them end. */
  ghost predicate Meets(tables: map<nat, Table>, ids: seq<nat>, x: nat)
    requires Known(tables, ids) && x in tables
  {
    && (exists a :: a in ids && !KeyLess(LastKey(tables[x]), FirstKey(tables[a])))
    && (exists b :: b in ids && !KeyLess(LastKey(tables[b]), FirstKey(tables[x])))
  }

  /** Selected are exactly the tables of the level that meet the given ones. */
  lemma SelectedIff(s: LsmState, ids: seq<nat>, inLevel: nat, x: nat)
    requires 1 <= inLevel <= |s.levels| && ids != []
    requires Known(s.sstables, ids) && Known(s.sstables, s.levels[inLevel - 1].ids)
    ensures x in OverlappingSsts(s, ids, inLevel) <==>
            x in s.levels[inLevel - 1].ids && x in s.sstables && Meets(s.sstables, ids, x)
  {
    hide KeyLess, MinFirst, MaxLast, FirstKey, LastKey;
    KeyOrderIsTotal();
    var begin, end := MinFirst(s.sstables, ids), MaxLast(s.sstables, ids);
    OverlappingMember(s.sstables, s.levels[inLevel - 1].ids, begin, end, x);
    var a, b := HullReached(s.sstables, ids);
    forall id | id in ids
      ensures !KeyLess(FirstKey(s.sstables[id]), begin) && !KeyLess(end, LastKey(s.sstables[id]))
    {
      HullBounds(s.sstables, ids, id);
    }
  }

  lemma {:induction false} OverlappingMember(tables: map<nat, Table>, level: seq<nat>, begin: Key, end: Key, x: nat)
    requires Known(tables, level)
    ensures x in Overlapping(tables, level, begin, end) <==> x in level && Overlaps(tables[x], begin, end)
    ensures multiset(Overlapping(tables, level, begin, end)) <= multiset(level)
  {
    if level != [] {
      OverlappingMember(tables, level[1..], begin, end, x);
      assert level == [level[0]] + level[1..];
    }
  }

  lemma OverlappingStep(tables: map<nat, Table>, level: seq<nat>, i: nat, begin: Key, end: Key)
    requires Known(tables, level) && i < |level|
    ensures Known(tables, level[i..]) && Known(tables, level[i + 1..]) && level[i] in tables
    ensures Overlapping(tables, level[i..], begin, end) ==
            (if Overlaps(tables[level[i]], begin, end) then [level[i]] else [])
              + Overlapping(tables, level[i + 1..], begin, end)
  {
    hide Overlaps;
    forall id | id in level[i..] ensures id in level {}
    assert level[i..][1..] == level[i + 1..];
  }

  lemma OverlappingEnd(tables: map<nat, Table>, level: seq<nat>, begin: Key, end: Key)
    ensures Known(tables, level[|level|..]) && Overlapping(tables, level[|level|..], begin, end) == []
  {
  }

  /** `find_overlapping_ssts`. */
  method FindOverlappingSsts(s: LsmState, ids: seq<nat>, inLevel: nat) returns (r: seq<nat>)
    requires 1 <= inLevel <= |s.levels| && ids != []
    requires Known(s.sstables, ids) && Known(s.sstables, s.levels[inLevel - 1].ids)
    ensures r == OverlappingSsts(s, ids, inLevel)
  {
    hide KeyLess, Overlaps, MinFirst, MaxLast, Overlapping, Known;
    var begin, end := Hull(s.sstables, ids);
    var level := s.levels[inLevel - 1].ids;
    r := [];
    assert level[0..] == level;
    for i := 0 to |level|
      invariant Known(s.sstables, level[i..])
      invariant r + Overlapping(s.sstables, level[i..], begin, end) == Overlapping(s.sstables, level, begin, end)
    {
      OverlappingStep(s.sstables, level, i, begin, end);
      if Overlaps(s.sstables[level[i]], begin, end) {
        r := r + [level[i]];
      }
    }
    OverlappingEnd(s.sstables, level, begin, end);
  }

  /** The smallest first key and the greatest last key. */
  method Hull(tables: map<nat, Table>, ids: seq<nat>) returns (begin: Key, end: Key)
    requires ids != [] && Known(tables, ids)
    ensures begin == MinFirst(tables, ids) && end == MaxLast(tables, ids)
  {
    hide KeyLess;
    KeyOrderIsTotal();
    var n := |ids| - 1;
    begin, end := FirstKey(tables[ids[n]]), LastKey(tables[ids[n]]);
    while n > 0
      invariant 0 <= n < |ids|
      invariant begin == MinFirst(tables, ids[n..]) && end == MaxLast(tables, ids[n..])
    {
      n := n - 1;
      assert ids[n..][1..] == ids[n + 1..];
      var t := tables[ids[n]];
      if !KeyLess(begin, FirstKey(t)) {
        begin := FirstKey(t);
      }
      if !KeyLess(LastKey(t), end) {
        end := LastKey(t);
      }
    }
    assert ids[0..] == ids;
  }

  // ---------- generate_compaction_task ----------

  function MinId(ids: seq<nat>): (m: nat)
    requires ids != []
    ensures m in ids && forall i :: 0 <= i < |ids| ==> m <= ids[i]
  {
    if |ids| == 1 then ids[0]
    else
      var r := MinId(ids[1..]);
      if r < ids[0] then r else ids[0]
  }

  lemma {:induction false} SizeNeedsTable(tables: map<nat, Table>, ids: seq<nat>)
    requires Known(tables, ids) && SizeOf(tables, ids) > 0
    ensures ids != []
  {
  }

  function GenerateTask(o: Options, s: LsmState): Option<LevelTask>
    requires Shaped(o, s)
  {
    var sizes := RealSizes(s);
    if |s.l0| > o.level0FileNumCompactionTrigger then
      var base := BaseFrom(o, sizes, 0);
      Some(LevelTask(None, s.l0, base, OverlappingSsts(s, s.l0, base), base == o.maxLevels))
    else match Pick(o, sizes, o.maxLevels)
      case None => None
      case Some(i) =>
        BottomNeverPicked(o, sizes, o.maxLevels);
        SizeNeedsTable(s.sstables, s.levels[i].ids);
        var sst := MinId(s.levels[i].ids);
        assert Known(s.sstables, s.levels[i + 1].ids) && Known(s.sstables, [sst]);
        Some(LevelTask(Some(i + 1), [sst], i + 2, OverlappingSsts(s, [sst], i + 2), i + 2 == o.maxLevels))
  }

  lemma BottomTarget(o: Options, sizes: seq<nat>)
    requires 1 <= o.levelSizeMultiplier && sizes != []
    ensures var n := |sizes| - 1; Target(o, sizes, n) == Max(sizes[n], o.BaseBytes()) && BaseFrom(o, sizes, n) == n + 1
  {
  }

  lemma TargetStep(o: Options, sizes: seq<nat>, i: nat)
    requires 1 <= o.levelSizeMultiplier && i + 1 < |sizes|
    ensures var below := Target(o, sizes, i + 1);
            Target(o, sizes, i) == if below > o.BaseBytes() then below / o.levelSizeMultiplier else 0
    ensures BaseFrom(o, sizes, i) == if Target(o, sizes, i) > 0 then i + 1 else BaseFrom(o, sizes, i + 1)
  {
  }

  /** Target sizes from the bottom up, and the base level. */
  method ComputeTargets(o: Options, sizes: seq<nat>) returns (target: seq<nat>, baseLevel: nat)
    requires 1 <= o.levelSizeMultiplier && sizes != []
    ensures |target| == |sizes| && forall j :: 0 <= j < |sizes| ==> target[j] == Target(o, sizes, j)
    ensures baseLevel == BaseFrom(o, sizes, 0)
  {
    hide Target, BaseFrom;
    var maxLevel := |sizes|;
    BottomTarget(o, sizes);
    target := seq(maxLevel, _ => 0);
    target := target[maxLevel - 1 := Max(sizes[maxLevel - 1], o.BaseBytes())];
    baseLevel := maxLevel;
    var i := maxLevel - 1;
    while i > 0
      invariant 0 <= i < maxLevel && |target| == maxLevel
      invariant forall j :: i <= j < maxLevel ==> target[j] == Target(o, sizes, j)
      invariant forall j :: 0 <= j < i ==> target[j] == 0
      invariant baseLevel == BaseFrom(o, sizes, i)
    {
      i := i - 1;
      TargetStep(o, sizes, i);
      var nextLevelSize := target[i + 1];
      var thisLevelSize := nextLevelSize / o.levelSizeMultiplier;
      if nextLevelSize > o.BaseBytes() {
        target := target[i := thisLevelSize];
      }
      if target[i] > 0 {
        baseLevel := i + 1;
      }
    }
  }

  /** The head of the priority list sorted by ratio, then by level, both descending. */
  method FirstPriority(o: Options, sizes: seq<nat>, target: seq<nat>) returns (best: Option<nat>)
    requires 1 <= o.levelSizeMultiplier && |target| == |sizes|
    requires forall j :: 0 <= j < |sizes| ==> target[j] == Target(o, sizes, j)
    ensures best == Pick(o, sizes, |sizes|)
  {
    hide Target;
    best := None;
    for level := 0 to |sizes|
      invariant best == Pick(o, sizes, level)
    {
      if target[level] != 0 && sizes[level] > target[level] {
        if best.None? || sizes[best.value] * target[level] <= sizes[level] * target[best.value] {
          best := Some(level);
        }
      }
    }
  }

  /** The L0 check comes first; otherwise the level with the greatest ratio above one gives up its oldest table. */
  method GenerateCompactionTask(o: Options, s: LsmState) returns (r: Option<LevelTask>)
    requires Shaped(o, s)
    ensures r == GenerateTask(o, s)
  {
    hide Target, BaseFrom, Pick, OverlappingSsts;
    var sizes := RealSizes(s);
    var maxLevel := o.maxLevels;
    var target, baseLevel := ComputeTargets(o, sizes);
    if |s.l0| > o.level0FileNumCompactionTrigger {
      var overlap := FindOverlappingSsts(s, s.l0, baseLevel);
      return Some(LevelTask(None, s.l0, baseLevel, overlap, baseLevel == maxLevel));
    }
    var best := FirstPriority(o, sizes, target);
    if best.None? {
      return None;
    }
    var i := best.value;
    BottomNeverPicked(o, sizes, maxLevel);
    SizeNeedsTable(s.sstables, s.levels[i].ids);
    var selected := MinId(s.levels[i].ids);
    assert Known(s.sstables, s.levels[i + 1].ids) && Known(s.sstables, [selected]);
    var overlap := FindOverlappingSsts(s, [selected], i + 2);
    return Some(LevelTask(Some(i + 1), [selected], i + 2, overlap, i + 2 == maxLevel));
  }

  /** The lists that a task takes tables from. */
  function UpperIds(s: LsmState, upper: Option<nat>): seq<nat>
    requires upper.Some? ==> 1 <= upper.value <= |s.levels|
  {
    if upper.None? then s.l0 else s.levels[upper.value - 1].ids
  }

  /**
   * A task names existing upper files, at least one, a lower level directly or further below, and exactly
   * the overlapping lower files.
   */
  ghost predicate TaskOk(s: LsmState, t: LevelTask) {
    && (t.upperLevel.Some? ==> 1 <= t.upperLevel.value && t.lowerLevel == t.upperLevel.value + 1)
    && 1 <= t.lowerLevel <= |s.levels|
    && t.upperIds != [] && Known(s.sstables, t.upperIds) && Known(s.sstables, s.levels[t.lowerLevel - 1].ids)
    && multiset(t.upperIds) <= multiset(UpperIds(s, t.upperLevel))
    && t.lowerIds == OverlappingSsts(s, t.upperIds, t.lowerLevel)
  }

  /** The first level with a positive target, or else the bottom. */
  ghost predicate IsBaseLevel(o: Options, s: LsmState, level: nat)
    requires Shaped(o, s) && 1 <= level <= |s.levels|
  {
    && (level < |s.levels| ==> Target(o, RealSizes(s), level - 1) > 0)
    && forall i :: 0 <= i < level - 1 ==> Target(o, RealSizes(s), i) == 0
  }

  /** The level is above its target, no other has a greater ratio of real to target size, no deeper one an equal one. */
  ghost predicate IsFirstPriority(o: Options, s: LsmState, level: nat)
    requires Shaped(o, s) && 1 <= level <= |s.levels|
  {
    var sizes, p := RealSizes(s), level - 1;
    && 0 < Target(o, sizes, p) < sizes[p]
    && forall i :: 0 <= i < |s.levels| && 0 < Target(o, sizes, i) < sizes[i] ==>
         && sizes[i] * Target(o, sizes, p) <= sizes[p] * Target(o, sizes, i)
         && (p < i ==> sizes[i] * Target(o, sizes, p) < sizes[p] * Target(o, sizes, i))
  }

  ghost predicate IsLeast(m: nat, ids: seq<nat>) {
    m in ids && forall id :: id in ids ==> m <= id
  }

  lemma BaseIsFirst(o: Options, s: LsmState)
    requires Shaped(o, s)
    ensures IsBaseLevel(o, s, BaseFrom(o, RealSizes(s), 0))
  {
    hide Target, BaseFrom;
    var sizes := RealSizes(s);
    forall i | 0 <= i < |sizes| - 1
      ensures i + 1 < BaseFrom(o, sizes, 0) ==> Target(o, sizes, i) == 0
      ensures i + 1 == BaseFrom(o, sizes, 0) ==> Target(o, sizes, i) > 0
    {
      BaseFromIsFirst(o, sizes, 0, i);
    }
  }

  lemma PickIsFirstPriority(o: Options, s: LsmState)
    requires Shaped(o, s) && Pick(o, RealSizes(s), o.maxLevels).Some?
    ensures IsFirstPriority(o, s, Pick(o, RealSizes(s), o.maxLevels).value + 1)
  {
    hide Target, Pick;
    var sizes := RealSizes(s);
    forall i | 0 <= i < |s.levels| && Oversized(o, sizes, i)
      ensures var p := Pick(o, sizes, o.maxLevels).value;
              && sizes[i] * Target(o, sizes, p) <= sizes[p] * Target(o, sizes, i)
              && (p < i ==> sizes[i] * Target(o, sizes, p) < sizes[p] * Target(o, sizes, i))
    {
      PickIsGreatest(o, sizes, o.maxLevels, i);
    }
  }

  /**
   * What the controller chooses: above its trigger all of L0, into the base level; else the table with the
   * least id of the level with the first priority, into the next one. It takes the tables that meet these.
   */
  lemma GenerateChoice(o: Options, s: LsmState, x: nat)
    requires Shaped(o, s) && GenerateTask(o, s).Some?
    ensures var t := GenerateTask(o, s).value;
            && 1 <= t.lowerLevel <= |s.levels| && Known(s.sstables, t.upperIds)
            && (t.upperLevel.None? <==> |s.l0| > o.level0FileNumCompactionTrigger)
            && (match t.upperLevel
                case None => t.upperIds == s.l0 && IsBaseLevel(o, s, t.lowerLevel)
                case Some(u) =>
                  && 1 <= u && t.lowerLevel == u + 1 && IsFirstPriority(o, s, u)
                  && |t.upperIds| == 1 && IsLeast(t.upperIds[0], s.levels[u - 1].ids))
            && (x in t.lowerIds <==>
                x in s.levels[t.lowerLevel - 1].ids && x in s.sstables && Meets(s.sstables, t.upperIds, x))
  {
    hide Target, OverlappingSsts, BaseFrom, Pick, IsBaseLevel, IsFirstPriority, Meets;
    var sizes := RealSizes(s);
    if |s.l0| > o.level0FileNumCompactionTrigger {
      BaseIsFirst(o, s);
    } else {
      var i := Pick(o, sizes, o.maxLevels).value;
      PickIsFirstPriority(o, s);
      BottomNeverPicked(o, sizes, o.maxLevels);
      SizeNeedsTable(s.sstables, s.levels[i].ids);
    }
    var t := GenerateTask(o, s).value;
    if x in s.sstables {
      SelectedIff(s, t.upperIds, t.lowerLevel, x);
    } else {
      GenerateSound(o, s);
      OverlappingOnlyOf(s, t.upperIds, t.lowerLevel, x);
    }
  }

  lemma OverlappingOnlyOf(s: LsmState, ids: seq<nat>, inLevel: nat, x: nat)
    requires 1 <= inLevel <= |s.levels| && ids != []
    requires Known(s.sstables, ids) && Known(s.sstables, s.levels[inLevel - 1].ids)
    ensures x in OverlappingSsts(s, ids, inLevel) ==> x in s.sstables
  {
    OverlappingMember(s.sstables, s.levels[inLevel - 1].ids, MinFirst(s.sstables, ids), MaxLast(s.sstables, ids), x);
  }

  lemma GenerateSound(o: Options, s: LsmState)
    requires Shaped(o, s) && GenerateTask(o, s).Some?
    ensures var t := GenerateTask(o, s).value;
            && TaskOk(s, t)
            && (t.isLowerLevelBottomLevel <==> t.lowerLevel == o.maxLevels)
            && (t.upperLevel.None? ==> t.upperIds == s.l0 && |s.l0| > o.level0FileNumCompactionTrigger)
            && (t.upperLevel.Some? ==> |t.upperIds| == 1)
            && (Target(o, RealSizes(s), o.maxLevels - 1) > 0 ==> Target(o, RealSizes(s), t.lowerLevel - 1) > 0)
  {
    hide Target, OverlappingSsts, BaseFrom, Pick, RealSizes;
    var sizes := RealSizes(s);
    if |s.l0| > o.level0FileNumCompactionTrigger {
      if Target(o, sizes, o.maxLevels - 1) > 0 {
        LowerHasTarget(o, sizes, BaseFrom(o, sizes, 0) - 1);
      }
    } else {
      var i := Pick(o, sizes, o.maxLevels).value;
      BottomNeverPicked(o, sizes, o.maxLevels);
      if Target(o, sizes, o.maxLevels - 1) > 0 {
        LowerHasTarget(o, sizes, i + 1);
      }
      SizeNeedsTable(s.sstables, s.levels[i].ids);
      var sst := MinId(s.levels[i].ids);
      assert sst in multiset(s.levels[i].ids);
    }
  }

  /** From the base level on, and below any level with a target, there are targets if there is one at the bottom. */
  lemma LowerHasTarget(o: Options, sizes: seq<nat>, i: nat)
    requires i < |sizes| && 1 <= o.levelSizeMultiplier && Target(o, sizes, |sizes| - 1) > 0
    ensures BaseFrom(o, sizes, 0) <= i + 1 || (i > 0 && Target(o, sizes, i - 1) > 0) ==> Target(o, sizes, i) > 0
  {
    hide Target, BaseFrom;
    TargetsShape(o, sizes, i);
    if i > 0 {
      TargetsShape(o, sizes, i - 1);
    }
  }

  /**
   * L0 is compacted straight into the bottom level if and only if there is no other, or the bottom level
   * is at most of base size, or too small to give the level above it a positive target.
   */
  lemma L0TaskIsBottomIff(o: Options, s: LsmState)
    requires Shaped(o, s) && |s.l0| > o.level0FileNumCompactionTrigger
    ensures var r, size := GenerateTask(o, s), RealSizes(s)[o.maxLevels - 1];
            && r.Some? && r.value.upperLevel.None?
            && (r.value.isLowerLevelBottomLevel <==>
                o.maxLevels == 1 || size <= o.BaseBytes() || size < o.levelSizeMultiplier)
  {
    hide OverlappingSsts, Pick, BaseFrom;
    var sizes, n := RealSizes(s), o.maxLevels;
    if n > 1 {
      BaseFromIsFirst(o, sizes, 0, n - 2);
      TargetAboveBottom(o, sizes);
      var b := BaseFrom(o, sizes, 0);
      if b < n {
        BaseFromIsFirst(o, sizes, 0, b - 1);
        if Target(o, sizes, n - 2) == 0 {
          TargetZeroAbove(o, sizes, b - 1, n - 2);
        }
      }
    }
  }

  lemma TargetAboveBottom(o: Options, sizes: seq<nat>)
    requires 2 <= |sizes| && 1 <= o.levelSizeMultiplier
    ensures var last := sizes[|sizes| - 1];
            Target(o, sizes, |sizes| - 2) > 0 <==> last > o.BaseBytes() && last >= o.levelSizeMultiplier
  {
    var last := sizes[|sizes| - 1];
    assert Target(o, sizes, |sizes| - 1) == Max(last, o.BaseBytes());
    Quotient(last, o.levelSizeMultiplier);
  }

  lemma Quotient(a: nat, b: nat)
    requires 1 <= b
    ensures a / b > 0 <==> a >= b
  {
    assert a == a / b * b + a % b;
  }
}
