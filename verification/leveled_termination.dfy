/**
 * Leveled compaction without new flushes comes to rest: every task, whatever it outputs, makes the
 * vector of table counts (L0, L1, ..., bottom) lexicographically smaller.
 */
module LeveledTermination {
  import opened Contents
  import opened LeveledApply
  import opened LeveledCompaction
  import opened State

  // ---------- the lexicographic order on vectors of one length is well-founded ----------

  ghost predicate SmallerAt(a: seq<nat>, b: seq<nat>, i: nat) {
    |a| == |b| && i < |a| && a[..i] == b[..i] && a[i] < b[i]
  }

  ghost predicate LexLess(a: seq<nat>, b: seq<nat>) {
    exists i: nat :: SmallerAt(a, b, i)
  }

  lemma LexLessCases(a: seq<nat>, b: seq<nat>)
    requires |a| == |b| > 0
    ensures LexLess(a, b) <==> a[0] < b[0] || (a[0] == b[0] && LexLess(a[1..], b[1..]))
  {
    if i: nat :| SmallerAt(a, b, i) {
      if i > 0 {
        assert a[0] == a[..i][0] == b[..i][0] == b[0];
        assert a[1..][..i - 1] == a[..i][1..] && b[1..][..i - 1] == b[..i][1..];
        assert SmallerAt(a[1..], b[1..], i - 1);
      }
    }
    if a[0] < b[0] {
      assert SmallerAt(a, b, 0);
    }
    if a[0] == b[0] && LexLess(a[1..], b[1..]) {
      var i: nat :| SmallerAt(a[1..], b[1..], i);
      assert a[..i + 1] == [a[0]] + a[1..][..i] && b[..i + 1] == [b[0]] + b[1..][..i];
      assert SmallerAt(a, b, i + 1);
    }
  }

  function Tails(f: nat -> seq<nat>, start: nat): nat -> seq<nat> {
    (i: nat) => if f(start + i) == [] then [] else f(start + i)[1..]
  }

  ghost predicate Falls(f: nat -> seq<nat>, i: nat) {
    LexLess(f(i + 1), f(i))
  }

  lemma {:induction false} HeadsStay(n: nat, f: nat -> seq<nat>, start: nat, i: nat)
    requires n > 0 && forall j: nat :: |f(j)| == n
    requires forall j: nat :: start <= j ==> Falls(f, j)
    requires forall j: nat :: start <= j ==> f(start)[0] <= f(j)[0]
    ensures f(start + i)[0] == f(start)[0]
  {
    if i > 0 {
      HeadsStay(n, f, start, i - 1);
      assert Falls(f, start + i - 1);
      LexLessCases(f(start + i), f(start + i - 1));
    }
  }

  /** While the heads stay the same, the tails fall. */
  lemma TailsFall(n: nat, f: nat -> seq<nat>, start: nat, k: nat)
    requires n > 0 && forall j: nat :: |f(j)| == n
    requires forall j: nat :: start <= j ==> Falls(f, j)
    requires forall j: nat :: start <= j ==> f(start)[0] <= f(j)[0]
    ensures Falls(Tails(f, start), k)
  {
    hide LexLess;
    HeadsStay(n, f, start, k);
    HeadsStay(n, f, start, k + 1);
    LexLessCases(f(start + k + 1), f(start + k));
    assert start + (k + 1) == start + k + 1;
    assert Falls(f, start + k);
  }

  /** No infinite sequence of vectors falls forever. */
  lemma {:induction false} NoInfiniteDescent(n: nat, f: nat -> seq<nat>, start: nat)
    requires forall i: nat :: |f(i)| == n
    ensures exists i: nat :: start <= i && !Falls(f, i)
    decreases n, if n == 0 then 0 else f(start)[0]
  {
    hide Falls;
    if n == 0 {
      EmptyNeverFalls(f, start);
    } else if i: nat :| start <= i && f(i)[0] < f(start)[0] {
      NoInfiniteDescent(n, f, i);
    } else if forall j: nat :: start <= j ==> Falls(f, j) {
      var g := Tails(f, start);
      forall k: nat ensures Falls(g, k) {
        TailsFall(n, f, start, k);
      }
      NoInfiniteDescent(n - 1, g, 0);
    }
  }

  lemma EmptyNeverFalls(f: nat -> seq<nat>, i: nat)
    requires f(i) == []
    ensures !Falls(f, i)
  {
  }

  // ---------- compaction steps ----------

  function Counts(s: LsmState): seq<nat> {
    [|s.l0|] + seq(|s.levels|, i requires 0 <= i < |s.levels| => |s.levels[i].ids|)
  }

  /** `s'` has the lists that applying the generated task with some output leaves. */
  ghost predicate Compacted(o: Options, s: LsmState, s1: LsmState, output: seq<nat>, s': LsmState)
    requires Shaped(o, s)
  {
    && GenerateTask(o, s).Some?
    && var t := GenerateTask(o, s).value;
    && s1.l0 == s.l0 && s1.levels == s.levels && CanApply(s1, t, output)
    && s'.l0 == Apply(s1, t, output).l0 && s'.levels == Apply(s1, t, output).levels
  }

  lemma {:induction false} MinusShorter(ids: seq<nat>, removed: seq<nat>, x: nat)
    ensures |Minus(ids, removed)| <= |ids|
    ensures x in ids && x in removed ==> |Minus(ids, removed)| < |ids|
  {
    if ids != [] {
      MinusShorter(ids[1..], removed, x);
      assert ids == [ids[0]] + ids[1..];
    }
  }

  lemma {:induction false} MinusAll(ids: seq<nat>, removed: seq<nat>)
    requires forall x :: x in ids ==> x in removed
    ensures Minus(ids, removed) == []
  {
    if ids != [] {
      MinusAll(ids[1..], removed);
    }
  }

  lemma L0Shrinks(s: LsmState, s': LsmState)
    requires s.l0 != [] && s'.l0 == Minus(s.l0, s.l0) && |s'.levels| == |s.levels|
    ensures LexLess(Counts(s'), Counts(s))
  {
    hide Minus;
    MinusAll(s.l0, s.l0);
    assert SmallerAt(Counts(s'), Counts(s), 0);
  }

  /** Only levels from the upper one on change, and the upper one loses a table. */
  lemma UpperShrinks(s: LsmState, s': LsmState, u: nat, taken: seq<nat>, id: nat)
    requires s'.l0 == s.l0 && |s'.levels| == |s.levels| && 1 <= u <= |s.levels|
    requires forall i :: 0 <= i < u - 1 ==> s'.levels[i] == s.levels[i]
    requires s'.levels[u - 1].ids == Minus(s.levels[u - 1].ids, taken)
    requires id in taken && id in s.levels[u - 1].ids
    ensures LexLess(Counts(s'), Counts(s))
  {
    hide Minus;
    MinusShorter(s.levels[u - 1].ids, taken, id);
    assert Counts(s')[..u] == Counts(s)[..u];
    assert SmallerAt(Counts(s'), Counts(s), u);
  }

  /** Every task, with any output whatsoever, makes the counts smaller. */
  lemma TaskShrinks(o: Options, s: LsmState, s1: LsmState, output: seq<nat>, s': LsmState)
    requires Shaped(o, s) && Compacted(o, s, s1, output, s')
    ensures LexLess(Counts(s'), Counts(s))
  {
    hide GenerateTask, NewLower, OverlappingSsts, Minus, Target, Known, Shaped, LexLess, Counts;
    GenerateSound(o, s);
    var t := GenerateTask(o, s).value;
    if t.upperLevel.None? {
      L0Shrinks(s, s');
    } else {
      var id := t.upperIds[0];
      assert id in multiset(t.upperIds);
      assert id in multiset(s.levels[t.upperLevel.value - 1].ids);
      UpperShrinks(s, s', t.upperLevel.value, t.upperIds, id);
    }
  }

  ghost predicate StepsTo(o: Options, s: LsmState, s': LsmState)
    requires Shaped(o, s)
  {
    exists s1, output :: Compacted(o, s, s1, output, s')
  }

  /** However long compaction goes on, some state of the run has no task. */
  lemma LeveledConverges(o: Options, run: nat -> LsmState)
    requires forall i: nat :: Shaped(o, run(i))
    requires forall i: nat :: GenerateTask(o, run(i)).Some? ==> StepsTo(o, run(i), run(i + 1))
    ensures exists i: nat :: GenerateTask(o, run(i)).None?
  {
    hide GenerateTask;
    var f := (i: nat) => Counts(run(i));
    NoInfiniteDescent(o.maxLevels + 1, f, 0);
    var i: nat :| !Falls(f, i);
    if GenerateTask(o, run(i)).Some? {
      var s1, output :| Compacted(o, run(i), s1, output, run(i + 1));
      TaskShrinks(o, run(i), s1, output, run(i + 1));
    }
  }

  /** At rest means: L0 is not above its trigger and no level is above its positive target. */
  lemma NoTaskIff(o: Options, s: LsmState)
    requires Shaped(o, s)
    ensures GenerateTask(o, s).None? <==>
            && |s.l0| <= o.level0FileNumCompactionTrigger
            && forall i :: 0 <= i < o.maxLevels ==>
                 Target(o, RealSizes(s), i) == 0 || RealSizes(s)[i] <= Target(o, RealSizes(s), i)
  {
    hide Target, OverlappingSsts, BaseFrom;
    var sizes := RealSizes(s);
    forall i | 0 <= i < o.maxLevels && Target(o, sizes, i) != 0 && sizes[i] > Target(o, sizes, i)
      ensures Pick(o, sizes, o.maxLevels).Some?
    {
      assert Oversized(o, sizes, i);
      PickIsGreatest(o, sizes, o.maxLevels, i);
    }
    var picked := Pick(o, sizes, o.maxLevels);
    assert picked.Some? ==> Oversized(o, sizes, picked.value);
  }
}
