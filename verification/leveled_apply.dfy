/**
 * `apply_compaction_result` of src/compact/leveled.rs: inputs leave their lists, outputs join the lower
 * level, and the lower level is sorted by first key. The level stays in order without overlaps.
 */
module LeveledApply {
  import opened Compaction
  import opened Contents
  import opened EmptyTables
  import opened Keys
  import opened LeveledCompaction
  import opened Runs
  import opened State

  // ---------- sorting by first key ----------

  function InsertByFirst(tables: map<nat, Table>, x: nat, ids: seq<nat>): seq<nat>
    requires Known(tables, ids) && x in tables
  {
    if ids == [] || !KeyLess(FirstKey(tables[ids[0]]), FirstKey(tables[x])) then [x] + ids
    else [ids[0]] + InsertByFirst(tables, x, ids[1..])
  }

  lemma {:induction false} InsertKeepsIds(tables: map<nat, Table>, x: nat, ids: seq<nat>)
    requires Known(tables, ids) && x in tables
    ensures multiset(InsertByFirst(tables, x, ids)) == multiset([x] + ids)
  {
    hide KeyLess;
    if ids != [] && KeyLess(FirstKey(tables[ids[0]]), FirstKey(tables[x])) {
      InsertKeepsIds(tables, x, ids[1..]);
      assert ids == [ids[0]] + ids[1..];
    }
  }

  /** A stable sort by first key. */
  function SortByFirst(tables: map<nat, Table>, ids: seq<nat>): (r: seq<nat>)
    requires Known(tables, ids)
    ensures multiset(r) == multiset(ids)
  {
    if ids == [] then []
    else
      var rest := SortByFirst(tables, ids[1..]);
      SameMembers(rest, ids[1..]);
      InsertKeepsIds(tables, ids[0], rest);
      assert ids == [ids[0]] + ids[1..];
      InsertByFirst(tables, ids[0], rest)
  }

  lemma SameMembers<T>(a: seq<T>, b: seq<T>)
    requires multiset(a) == multiset(b)
    ensures forall x :: x in a <==> x in b
  {
    forall x ensures x in a <==> x in b {
      assert x in multiset(a) <==> x in multiset(b);
    }
  }

  ghost predicate Ascending(tables: map<nat, Table>, ids: seq<nat>)
    requires Known(tables, ids)
  {
    forall i :: 0 < i < |ids| ==> !KeyLess(FirstKey(tables[ids[i]]), FirstKey(tables[ids[i - 1]]))
  }

  lemma {:induction false} InsertAscending(tables: map<nat, Table>, x: nat, ids: seq<nat>)
    requires Known(tables, ids) && x in tables && Ascending(tables, ids)
    ensures Known(tables, InsertByFirst(tables, x, ids)) && Ascending(tables, InsertByFirst(tables, x, ids))
    ensures ids != [] ==> InsertByFirst(tables, x, ids)[0] in [x, ids[0]]
  {
    hide KeyLess, FirstKey;
    KeyOrderIsTotal();
    if ids != [] && KeyLess(FirstKey(tables[ids[0]]), FirstKey(tables[x])) {
      var rest := ids[1..];
      assert Ascending(tables, rest);
      InsertAscending(tables, x, rest);
    }
  }

  lemma {:induction false} SortAscending(tables: map<nat, Table>, ids: seq<nat>)
    requires Known(tables, ids)
    ensures Known(tables, SortByFirst(tables, ids)) && Ascending(tables, SortByFirst(tables, ids))
  {
    hide KeyLess, InsertByFirst;
    SameMembers(SortByFirst(tables, ids), ids);
    if ids != [] {
      SortAscending(tables, ids[1..]);
      InsertAscending(tables, ids[0], SortByFirst(tables, ids[1..]));
    }
  }

  // ---------- tables that do not overlap ----------

  ghost predicate Before(tables: map<nat, Table>, x: nat, y: nat)
    requires x in tables && y in tables
  {
    KeyLess(LastKey(tables[x]), FirstKey(tables[y]))
  }

  ghost predicate PairwiseApart(tables: map<nat, Table>, ids: seq<nat>)
    requires Known(tables, ids)
  {
    forall x, y :: x in ids && y in ids && x != y ==> Before(tables, x, y) || Before(tables, y, x)
  }

  ghost predicate FilledTables(tables: map<nat, Table>, ids: seq<nat>)
    requires Known(tables, ids)
  {
    forall x :: x in ids ==> tables[x].entries != [] && Sorted(KeyLess, tables[x].entries)
  }

  lemma {:induction false} OrderedBefore(tables: map<nat, Table>, ids: seq<nat>, i: nat, j: nat)
    requires LevelOk(tables, ids) && i < j < |ids|
    ensures Before(tables, ids[i], ids[j])
    decreases j - i
  {
    hide KeyLess;
    KeyOrderIsTotal();
    var runs: seq<Run<Key>> := RunsOf(tables, ids);
    assert KeyLess(Last(runs[j - 1]), runs[j][0].key);
    if i < j - 1 {
      OrderedBefore(tables, ids, i, j - 1);
      assert Sorted(KeyLess, runs[j - 1]);
      FirstBeforeLast(tables[ids[j - 1]]);
    }
  }

  lemma LevelApart(tables: map<nat, Table>, ids: seq<nat>)
    requires LevelOk(tables, ids)
    ensures PairwiseApart(tables, ids) && FilledTables(tables, ids)
  {
    hide KeyLess;
    forall x, y | x in ids && y in ids && x != y ensures Before(tables, x, y) || Before(tables, y, x) {
      var i :| 0 <= i < |ids| && ids[i] == x;
      var j :| 0 <= j < |ids| && ids[j] == y;
      if i < j {
        OrderedBefore(tables, ids, i, j);
      } else {
        OrderedBefore(tables, ids, j, i);
      }
    }
    forall x | x in ids ensures tables[x].entries != [] && Sorted(KeyLess, tables[x].entries) {
      var i :| 0 <= i < |ids| && ids[i] == x;
      assert RunsOf(tables, ids)[i] == tables[x].entries;
    }
  }

  /** Distinct tables without overlaps, ascending by first key, form a level in order. */
  lemma ApartAscendingIsLevel(tables: map<nat, Table>, ids: seq<nat>)
    requires Known(tables, ids) && FilledTables(tables, ids) && PairwiseApart(tables, ids) && Ascending(tables, ids)
    requires Distinct(ids)
    ensures LevelOk(tables, ids)
  {
    hide KeyLess;
    KeyOrderIsTotal();
    var runs: seq<Run<Key>> := RunsOf(tables, ids);
    forall i | 0 <= i < |runs| ensures runs[i] != [] && Sorted(KeyLess, runs[i]) {
      assert ids[i] in ids;
    }
    forall i | 0 < i < |runs| ensures KeyLess(Last(runs[i - 1]), runs[i][0].key) {
      var x, y := ids[i - 1], ids[i];
      assert x in ids && y in ids;
      DistinctNeighbours(ids, i);
      FirstBeforeLast(tables[y]);
      assert Before(tables, x, y) || Before(tables, y, x);
    }
  }

  lemma DistinctNeighbours(ids: seq<nat>, i: nat)
    requires 0 < i < |ids| && Distinct(ids)
    ensures ids[i - 1] != ids[i]
  {
    assert ids == ids[..i - 1] + ([ids[i - 1]] + ([ids[i]] + ids[i + 1..]));
    var rest := multiset(ids[i + 1..]);
    assert multiset(ids) == multiset(ids[..i - 1]) + (multiset{ids[i - 1]} + (multiset{ids[i]} + rest));
    assert multiset(ids)[ids[i]] <= 1;
  }

  lemma MinusMember(ids: seq<nat>, removed: seq<nat>, x: nat)
    ensures x in Minus(ids, removed) <==> x in ids && x !in removed
  {
    MinusCount(ids, removed, x);
    assert x in Minus(ids, removed) <==> x in multiset(Minus(ids, removed));
    assert x in ids <==> x in multiset(ids);
  }

  lemma LevelTail(tables: map<nat, Table>, ids: seq<nat>)
    requires LevelOk(tables, ids) && ids != []
    ensures LevelOk(tables, ids[1..])
  {
    hide KeyLess;
    KeyOrderIsTotal();
    OrderedSplit(KeyLess, RunsOf(tables, ids), 1);
    assert RunsOf(tables, ids)[1..] == RunsOf(tables, ids[1..]);
  }

  /** Taking tables out of a level leaves a level in order. */
  lemma {:induction false} MinusLevel(tables: map<nat, Table>, ids: seq<nat>, removed: seq<nat>)
    requires LevelOk(tables, ids)
    ensures LevelOk(tables, Minus(ids, removed))
  {
    hide LevelOk;
    if ids != [] {
      LevelTail(tables, ids);
      MinusLevel(tables, ids[1..], removed);
      forall x | x in Minus(ids[1..], removed) ensures x in ids[1..] {
        MinusMember(ids[1..], removed, x);
      }
      PrependLevel(tables, ids, Minus(ids[1..], removed));
      assert [] + Minus(ids[1..], removed) == Minus(ids[1..], removed);
    }
  }

  lemma PrependLevel(tables: map<nat, Table>, ids: seq<nat>, kept: seq<nat>)
    requires LevelOk(tables, ids) && ids != [] && LevelOk(tables, kept)
    requires forall x :: x in kept ==> x in ids[1..]
    ensures LevelOk(tables, [ids[0]] + kept)
  {
    hide KeyLess;
    var longer := [ids[0]] + kept;
    var runs: seq<Run<Key>> := RunsOf(tables, longer);
    if kept != [] {
      assert kept[0] in ids[1..];
      var j :| 0 <= j < |ids[1..]| && ids[1..][j] == kept[0];
      OrderedBefore(tables, ids, 0, j + 1);
      assert RunsOf(tables, kept)[0] == runs[1];
      assert KeyLess(Last(runs[0]), runs[1][0].key) by { LevelApart(tables, ids); LevelApart(tables, kept); }
    }
    forall i | 0 < i < |runs| ensures KeyLess(Last(runs[i - 1]), runs[i][0].key) {
      if i > 1 {
        assert runs[i - 1] == RunsOf(tables, kept)[i - 2] && runs[i] == RunsOf(tables, kept)[i - 1];
      }
    }
    forall i | 0 <= i < |runs| ensures runs[i] != [] && Sorted(KeyLess, runs[i]) {
      if i > 0 { assert runs[i] == RunsOf(tables, kept)[i - 1]; } else { assert runs[0] == RunsOf(tables, ids)[0]; }
    }
  }

  // ---------- apply_compaction_result ----------

  function TakeUpper(s: LsmState, t: LevelTask): LsmState
    requires t.upperLevel.Some? ==> 1 <= t.upperLevel.value <= |s.levels|
  {
    if t.upperLevel.None? then s.(l0 := Minus(s.l0, t.upperIds))
    else
      var i := t.upperLevel.value - 1;
      s.(levels := s.levels[i := s.levels[i].(ids := Minus(s.levels[i].ids, t.upperIds))])
  }

  function NewLower(s: LsmState, t: LevelTask, output: seq<nat>): seq<nat>
    requires 1 <= t.lowerLevel <= |s.levels|
    requires Known(s.sstables, Minus(s.levels[t.lowerLevel - 1].ids, t.lowerIds) + output)
  {
    SortByFirst(s.sstables, Minus(s.levels[t.lowerLevel - 1].ids, t.lowerIds) + output)
  }

  ghost predicate CanApply(s: LsmState, t: LevelTask, output: seq<nat>) {
    && (t.upperLevel.Some? ==> 1 <= t.upperLevel.value < t.lowerLevel)
    && 1 <= t.lowerLevel <= |s.levels|
    && Known(s.sstables, Minus(s.levels[t.lowerLevel - 1].ids, t.lowerIds) + output)
  }

  /** The new lists; `sstables` still holds inputs and outputs. */
  function Apply(s: LsmState, t: LevelTask, output: seq<nat>): LsmState
    requires CanApply(s, t, output)
  {
    var i := t.lowerLevel - 1;
    var s1 := TakeUpper(s, t);
    s1.(levels := s1.levels[i := s.levels[i].(ids := NewLower(s, t, output))])
  }

  /** `filter_map` over a list while the hash set of removed ids is emptied. */
  method RetainOthers(ids: seq<nat>, removed: seq<nat>) returns (kept: seq<nat>)
    requires multiset(removed) <= multiset(ids) && Distinct(ids)
    ensures kept == Minus(ids, removed)
  {
    hide Minus, Distinct;
    kept := [];
    var pending := set x | x in removed;
    StillPendingStart(ids, removed);
    for i := 0 to |ids|
      invariant kept + Minus(ids[i..], removed) == Minus(ids, removed)
      invariant pending == StillPending(ids, removed, i)
    {
      RetainStep(ids, removed, i);
      if ids[i] in pending {
        pending := pending - {ids[i]};
      } else {
        kept := kept + [ids[i]];
      }
    }
    RetainEnd(ids, removed);
    assert pending == {};
  }

  ghost function StillPending(ids: seq<nat>, removed: seq<nat>, i: nat): set<nat>
    requires i <= |ids|
  {
    set x | x in removed && x in ids[i..]
  }

  lemma StillPendingStart(ids: seq<nat>, removed: seq<nat>)
    requires multiset(removed) <= multiset(ids)
    ensures StillPending(ids, removed, 0) == (set x | x in removed)
    ensures [] + Minus(ids[0..], removed) == Minus(ids, removed)
  {
    assert ids[0..] == ids;
    forall x | x in removed ensures x in ids {
      assert x in multiset(removed);
      assert x in multiset(ids);
    }
  }

  lemma RetainStep(ids: seq<nat>, removed: seq<nat>, i: nat)
    requires i < |ids| && Distinct(ids)
    ensures ids[i] in StillPending(ids, removed, i) <==> ids[i] in removed
    ensures StillPending(ids, removed, i + 1) == StillPending(ids, removed, i) - {ids[i]}
    ensures Minus(ids[i..], removed) == (if ids[i] in removed then [] else [ids[i]]) + Minus(ids[i + 1..], removed)
  {
    OnceOnly(ids, i);
    assert ids[i..] == [ids[i]] + ids[i + 1..];
  }

  lemma RetainEnd(ids: seq<nat>, removed: seq<nat>)
    ensures StillPending(ids, removed, |ids|) == {} && Minus(ids[|ids|..], removed) == []
  {
  }

  lemma OnceOnly(ids: seq<nat>, i: nat)
    requires i < |ids| && Distinct(ids)
    ensures ids[i] !in ids[i + 1..]
  {
    assert ids == ids[..i] + ([ids[i]] + ids[i + 1..]);
    assert multiset(ids) == multiset(ids[..i]) + (multiset{ids[i]} + multiset(ids[i + 1..]));
    assert multiset(ids)[ids[i]] <= 1;
    assert ids[i] !in multiset(ids[i + 1..]);
  }

  /** Where the tables go: the upper list loses the inputs, the lower one, sorted, loses them and gets the outputs. */
  lemma ApplyPlaces(s: LsmState, t: LevelTask, output: seq<nat>)
    requires CanApply(s, t, output)
    ensures var r, l := Apply(s, t, output), t.lowerLevel - 1;
            && |r.levels| == |s.levels| && r.levels[l].number == s.levels[l].number
            && (forall x :: x in r.levels[l].ids <==> (x in s.levels[l].ids && x !in t.lowerIds) || x in output)
            && Known(s.sstables, r.levels[l].ids) && Ascending(s.sstables, r.levels[l].ids)
            && match t.upperLevel
               case None =>
                 && (forall x :: x in r.l0 <==> x in s.l0 && x !in t.upperIds)
                 && forall i :: 0 <= i < |s.levels| && i != l ==> r.levels[i] == s.levels[i]
               case Some(u) =>
                 && r.l0 == s.l0 && r.levels[u - 1].number == s.levels[u - 1].number
                 && (forall x :: x in r.levels[u - 1].ids <==> x in s.levels[u - 1].ids && x !in t.upperIds)
                 && forall i :: 0 <= i < |s.levels| && i != l && i != u - 1 ==> r.levels[i] == s.levels[i]
  {
    hide SortByFirst, Minus, Ascending;
    var lower := s.levels[t.lowerLevel - 1].ids;
    var all := Minus(lower, t.lowerIds) + output;
    SortAscending(s.sstables, all);
    SameMembers(SortByFirst(s.sstables, all), all);
    forall ids, removed, x ensures x in Minus(ids, removed) <==> x in ids && x !in removed {
      MinusMember(ids, removed, x);
    }
  }

  method ApplyCompactionResult(s: LsmState, t: LevelTask, output: seq<nat>)
    returns (r: LsmState, filesToRemove: seq<nat>)
    requires CanApply(s, t, output) && TaskOk(s, t) && Distinct(SstIds(s))
    ensures r == Apply(s, t, output) && filesToRemove == t.upperIds + t.lowerIds
  {
    hide SortByFirst, OverlappingSsts, Minus, Distinct, SstIds, Known;
    ListsDistinct(s, t);
    r := s;
    if t.upperLevel.Some? {
      var i := t.upperLevel.value - 1;
      var newUpper := RetainOthers(s.levels[i].ids, t.upperIds);
      r := r.(levels := r.levels[i := r.levels[i].(ids := newUpper)]);
    } else {
      var newL0 := RetainOthers(s.l0, t.upperIds);
      r := r.(l0 := newL0);
    }
    filesToRemove := t.upperIds;
    filesToRemove := filesToRemove + t.lowerIds;
    var j := t.lowerLevel - 1;
    assert r.levels[j] == s.levels[j];
    var newLower := RetainOthers(r.levels[j].ids, t.lowerIds);
    newLower := newLower + output;
    newLower := SortByFirst(s.sstables, newLower);
    r := r.(levels := r.levels[j := r.levels[j].(ids := newLower)]);
  }

  /** The lists that a task touches hold distinct ids, and the task's ids are among them. */
  lemma ListsDistinct(s: LsmState, t: LevelTask)
    requires TaskOk(s, t) && Distinct(SstIds(s))
    ensures Distinct(UpperIds(s, t.upperLevel))
    ensures Distinct(s.levels[t.lowerLevel - 1].ids)
    ensures multiset(t.lowerIds) <= multiset(s.levels[t.lowerLevel - 1].ids)
  {
    hide MinFirst, MaxLast, LevelIds, Distinct, Overlapping;
    var j := t.lowerLevel - 1;
    LevelIdsUpdate(s.levels, j, s.levels[j]);
    if t.upperLevel.Some? {
      LevelIdsUpdate(s.levels, t.upperLevel.value - 1, s.levels[j]);
    }
    assert multiset(SstIds(s)) == multiset(s.l0) + multiset(LevelIds(s.levels));
    DistinctPart(UpperIds(s, t.upperLevel), SstIds(s));
    DistinctPart(s.levels[j].ids, SstIds(s));
    var begin, end := MinFirst(s.sstables, t.upperIds), MaxLast(s.sstables, t.upperIds);
    OverlappingMember(s.sstables, s.levels[j].ids, begin, end, 0);
  }

  /** Conservation of ids: exactly the task's inputs leave, exactly the outputs come. */
  lemma ApplyConservesIds(s: LsmState, s1: LsmState, t: LevelTask, output: seq<nat>)
    requires TaskOk(s, t) && Distinct(SstIds(s))
    requires s1.l0 == s.l0 && s1.levels == s.levels && CanApply(s1, t, output)
    ensures multiset(t.upperIds + t.lowerIds) <= multiset(SstIds(s))
    ensures multiset(SstIds(Apply(s1, t, output))) ==
            multiset(SstIds(s)) - multiset(t.upperIds + t.lowerIds) + multiset(output)
  {
    hide SortByFirst, OverlappingSsts, Minus, LevelIds, Distinct, SstIds, Known;
    ListsDistinct(s, t);
    var j, lower := t.lowerLevel - 1, s.levels[t.lowerLevel - 1].ids;
    var s2, s3 := TakeUpper(s1, t), Apply(s1, t, output);
    TakeUpperIds(s1, t);
    assert s2.levels[j] == s.levels[j];
    var newLower := NewLower(s1, t, output);
    LevelIdsUpdate(s2.levels, j, s.levels[j].(ids := newLower));
    MinusExact(lower, t.lowerIds);
    assert multiset(newLower) == multiset(lower) - multiset(t.lowerIds) + multiset(output);
    LowerBesideUpper(s, t);
    SstIdsBag(s);
    SstIdsBag(s1);
    SstIdsBag(s2);
    SstIdsBag(s3);
    SumOfParts(multiset(s2.l0), multiset(LevelIds(s2.levels)), multiset(lower), multiset(newLower));
    Exchange(multiset(SstIds(s)), multiset(t.upperIds), multiset(lower), multiset(t.lowerIds), multiset(output));
  }

  lemma SumOfParts(a: multiset<nat>, b: multiset<nat>, l: multiset<nat>, n: multiset<nat>)
    requires l <= b
    ensures a + (b - l + n) == a + b - l + n
  {
  }

  lemma Exchange(all: multiset<nat>, u: multiset<nat>, l: multiset<nat>, taken: multiset<nat>, added: multiset<nat>)
    requires u + l <= all && taken <= l
    ensures u + taken <= all
    ensures all - u - l + (l - taken + added) == all - (u + taken) + added
  {
  }

  lemma TakeUpperIds(s: LsmState, t: LevelTask)
    requires t.upperLevel.Some? ==> 1 <= t.upperLevel.value <= |s.levels|
    requires multiset(t.upperIds) <= multiset(UpperIds(s, t.upperLevel)) && Distinct(UpperIds(s, t.upperLevel))
    ensures multiset(SstIds(TakeUpper(s, t))) == multiset(SstIds(s)) - multiset(t.upperIds)
  {
    hide Minus, LevelIds, Distinct, SstIds;
    MinusExact(UpperIds(s, t.upperLevel), t.upperIds);
    SstIdsBag(s);
    SstIdsBag(TakeUpper(s, t));
    var rest, upper, taken := multiset(LevelIds(s.levels)), multiset(UpperIds(s, t.upperLevel)), multiset(t.upperIds);
    if t.upperLevel.Some? {
      var i := t.upperLevel.value - 1;
      LevelIdsUpdate(s.levels, i, s.levels[i].(ids := Minus(s.levels[i].ids, t.upperIds)));
      TakeFromPart(rest, upper, taken);
      TakeFromSum(multiset(s.l0), rest, taken);
    } else {
      TakeFromSum(rest, upper, taken);
    }
  }

  lemma TakeFromPart(all: multiset<nat>, part: multiset<nat>, taken: multiset<nat>)
    requires taken <= part <= all
    ensures all - part + (part - taken) == all - taken && taken <= all
  {
  }

  lemma TakeFromSum(a: multiset<nat>, b: multiset<nat>, taken: multiset<nat>)
    requires taken <= b
    ensures a + (b - taken) == a + b - taken && (b - taken) + a == b + a - taken
  {
  }

  lemma LowerBesideUpper(s: LsmState, t: LevelTask)
    requires TaskOk(s, t)
    ensures multiset(t.upperIds) + multiset(s.levels[t.lowerLevel - 1].ids) <= multiset(SstIds(s))
  {
    hide LevelIds, OverlappingSsts;
    var j := t.lowerLevel - 1;
    LevelIdsUpdate(s.levels, j, s.levels[j]);
    if t.upperLevel.Some? {
      var empty := s.levels[j].(ids := []);
      LevelIdsUpdate(s.levels, j, empty);
      LevelIdsUpdate(s.levels[j := empty], t.upperLevel.value - 1, empty);
    }
  }

  // ---------- the lower level stays in order ----------

  /** A table of the lower level that does not overlap the upper inputs lies on one side of every input entry. */
  lemma UntouchedIsAside(s: LsmState, t: LevelTask, x: nat)
    requires TaskOk(s, t) && LevelOk(s.sstables, s.levels[t.lowerLevel - 1].ids) && FilledTables(s.sstables, t.upperIds)
    requires x in s.levels[t.lowerLevel - 1].ids && x !in t.lowerIds
    ensures || (forall id, e :: id in t.upperIds + t.lowerIds && id in s.sstables && e in s.sstables[id].entries ==>
                KeyLess(LastKey(s.sstables[x]), e.key))
            || (forall id, e :: id in t.upperIds + t.lowerIds && id in s.sstables && e in s.sstables[id].entries ==>
                KeyLess(e.key, FirstKey(s.sstables[x])))
  {
    hide KeyLess, FirstKey, LastKey, MinFirst, MaxLast, Overlapping;
    KeyOrderIsTotal();
    var lower, tables := s.levels[t.lowerLevel - 1].ids, s.sstables;
    var begin, end := MinFirst(tables, t.upperIds), MaxLast(tables, t.upperIds);
    LevelApart(tables, lower);
    OverlappingMember(tables, lower, begin, end, x);
    assert KeyLess(LastKey(tables[x]), begin) || KeyLess(end, FirstKey(tables[x]));
    forall id, e | id in t.upperIds + t.lowerIds && id in tables && e in tables[id].entries
      ensures KeyLess(LastKey(tables[x]), begin) ==> KeyLess(LastKey(tables[x]), e.key)
      ensures KeyLess(end, FirstKey(tables[x])) ==> KeyLess(e.key, FirstKey(tables[x]))
    {
      if id in t.upperIds {
        HullBounds(tables, t.upperIds, id);
        EntryWithin(tables[id], e);
      } else {
        OverlappingMember(tables, lower, begin, end, id);
        EntryWithin(tables[id], e);
        FirstBeforeLast(tables[x]);
        FirstBeforeLast(tables[id]);
        assert Before(tables, x, id) || Before(tables, id, x);
      }
    }
  }

  lemma EntryWithin(t: Table, e: Entry<Key>)
    requires Sorted(KeyLess, t.entries) && e in t.entries
    ensures !KeyLess(e.key, FirstKey(t)) && !KeyLess(LastKey(t), e.key)
  {
    hide KeyLess;
    KeyOrderIsTotal();
    var i :| 0 <= i < |t.entries| && t.entries[i] == e;
    assert i == 0 || KeyLess(FirstKey(t), e.key);
    assert i == |t.entries| - 1 || KeyLess(e.key, LastKey(t));
  }

  /** The outputs hold, in order, entries of the inputs only. */
  ghost predicate OutputsOk(s: LsmState, t: LevelTask, tables: map<nat, Table>, output: seq<nat>) {
    && LevelOk(tables, output)
    && (forall id :: id in output ==> id !in s.sstables)
    && (forall x, e :: x in output && e in tables[x].entries ==>
          exists id :: id in t.upperIds + t.lowerIds && id in s.sstables && e in s.sstables[id].entries)
    && forall id :: id in s.sstables ==> id in tables && tables[id] == s.sstables[id]
  }

  /**
   * Partial compaction keeps the lower level sorted with disjoint ranges: the untouched tables and
   * the outputs, sorted by first key, each end before the next one begins.
   */
  lemma LowerLevelStaysOrdered(s: LsmState, s1: LsmState, t: LevelTask, output: seq<nat>)
    requires TaskOk(s, t) && LevelOk(s.sstables, s.levels[t.lowerLevel - 1].ids) && FilledTables(s.sstables, t.upperIds)
    requires s1.levels == s.levels && OutputsOk(s, t, s1.sstables, output)
    requires Distinct(s.levels[t.lowerLevel - 1].ids)
    requires Distinct(output)
    ensures Known(s1.sstables, Minus(s.levels[t.lowerLevel - 1].ids, t.lowerIds) + output)
    ensures LevelOk(s1.sstables, NewLower(s1, t, output))
  {
    hide KeyLess, SortByFirst, OverlappingSsts, UpperIds, Minus, Ordered, OutputsOk, PairwiseApart, FilledTables,
      Ascending, Distinct;
    var lower, tables := s.levels[t.lowerLevel - 1].ids, s1.sstables;
    var all := Minus(lower, t.lowerIds) + output;
    KeptAndOutputs(s, t, tables, output);
    KeptAndOutputsDistinct(s, t, tables, output);
    SortAscending(tables, all);
    SortedTables(tables, all, SortByFirst(tables, all));
    ApartAscendingIsLevel(tables, SortByFirst(tables, all));
  }

  /** The tables of the new lower level, in any order, do not overlap. */
  lemma KeptAndOutputs(s: LsmState, t: LevelTask, tables: map<nat, Table>, output: seq<nat>)
    requires TaskOk(s, t) && LevelOk(s.sstables, s.levels[t.lowerLevel - 1].ids) && FilledTables(s.sstables, t.upperIds)
    requires OutputsOk(s, t, tables, output)
    ensures var all := Minus(s.levels[t.lowerLevel - 1].ids, t.lowerIds) + output;
            Known(tables, all) && PairwiseApart(tables, all) && FilledTables(tables, all)
  {
    hide KeyLess, FirstKey, LastKey, OverlappingSsts, UpperIds, Minus, Sorted, Ordered;
    var lower := s.levels[t.lowerLevel - 1].ids;
    var kept := Minus(lower, t.lowerIds);
    LevelTransfer(s.sstables, tables, lower);
    MinusLevel(tables, lower, t.lowerIds);
    LevelApart(tables, kept);
    LevelApart(tables, output);
    forall x, y | x in kept && y in output ensures Before(tables, x, y) || Before(tables, y, x) {
      MinusMember(lower, t.lowerIds, x);
      UntouchedIsAside(s, t, x);
      assert x in s.sstables;
      OutputEnds(tables, y);
    }
  }

  lemma KeptAndOutputsDistinct(s: LsmState, t: LevelTask, tables: map<nat, Table>, output: seq<nat>)
    requires 1 <= t.lowerLevel <= |s.levels| && Known(s.sstables, s.levels[t.lowerLevel - 1].ids)
    requires OutputsOk(s, t, tables, output) && Distinct(s.levels[t.lowerLevel - 1].ids) && Distinct(output)
    ensures Distinct(Minus(s.levels[t.lowerLevel - 1].ids, t.lowerIds) + output)
  {
    hide Minus, LevelOk;
    var lower := s.levels[t.lowerLevel - 1].ids;
    var kept := Minus(lower, t.lowerIds);
    forall x ensures multiset(kept + output)[x] <= 1 {
      MinusCount(lower, t.lowerIds, x);
      assert multiset(lower)[x] <= 1 && multiset(output)[x] <= 1;
      assert x in lower <==> x in multiset(lower);
      assert x in output <==> x in multiset(output);
      assert multiset(kept + output)[x] == multiset(kept)[x] + multiset(output)[x];
    }
  }

  /** Sorting changes neither which tables there are nor that they are distinct. */
  lemma SortedTables(tables: map<nat, Table>, all: seq<nat>, sorted: seq<nat>)
    requires Known(tables, all) && PairwiseApart(tables, all) && FilledTables(tables, all) && Distinct(all)
    requires multiset(sorted) == multiset(all)
    ensures Known(tables, sorted) && PairwiseApart(tables, sorted) && FilledTables(tables, sorted) && Distinct(sorted)
  {
    hide KeyLess, Before, Sorted;
    SameMembers(sorted, all);
  }

  lemma OutputEnds(tables: map<nat, Table>, y: nat)
    requires y in tables && tables[y].entries != []
    ensures exists e, f :: e in tables[y].entries && f in tables[y].entries && FirstKey(tables[y]) == e.key &&
                LastKey(tables[y]) == f.key
  {
    var es := tables[y].entries;
    assert es[0] in es && es[|es| - 1] in es;
  }

  lemma LevelTransfer(t1: map<nat, Table>, t2: map<nat, Table>, ids: seq<nat>)
    requires LevelOk(t1, ids) && forall id :: id in ids ==> id in t2 && t2[id] == t1[id]
    ensures LevelOk(t2, ids)
  {
    assert RunsOf(t1, ids) == RunsOf(t2, ids);
  }

  // ---------- levels with tables that have no entries ----------

  /** Sorting puts tables without entries first and leaves the others in the order that they have alone. */
  lemma {:induction false} FilledInsert(tables: map<nat, Table>, x: nat, ids: seq<nat>)
    requires Known(tables, ids) && x in tables && Named(tables, [x])
    ensures Known(tables, InsertByFirst(tables, x, ids)) && Known(tables, FilledIds(tables, ids))
    ensures FilledIds(tables, InsertByFirst(tables, x, ids)) ==
            if tables[x].entries == [] then FilledIds(tables, ids) else InsertByFirst(tables, x, FilledIds(tables, ids))
  {
    hide FilledIds, KeyLess;
    InsertKeepsIds(tables, x, ids);
    SameMembers(InsertByFirst(tables, x, ids), [x] + ids);
    FilledKnown(tables, ids);
    FilledStep(tables, ids);
    NoKeyFirst(tables[x]);
    if ids == [] || !KeyLess(FirstKey(tables[ids[0]]), FirstKey(tables[x])) {
      FilledStep(tables, [x] + ids);
      assert ([x] + ids)[1..] == ids && [] + FilledIds(tables, ids) == FilledIds(tables, ids);
    } else {
      var rest, longer := ids[1..], [ids[0]] + InsertByFirst(tables, x, ids[1..]);
      FilledInsert(tables, x, rest);
      FilledStep(tables, longer);
      assert longer[1..] == InsertByFirst(tables, x, rest);
      assert [] + FilledIds(tables, rest) == FilledIds(tables, rest);
      assert ([ids[0]] + FilledIds(tables, rest))[1..] == FilledIds(tables, rest);
      assert [] + FilledIds(tables, longer[1..]) == FilledIds(tables, longer[1..]);
    }
  }

  lemma NoKeyFirst(t: Table)
    requires forall e :: e in t.entries ==> e.key.user != []
    ensures t.entries != [] ==> KeyLess(NO_KEY, FirstKey(t))
  {
    if t.entries != [] {
      assert t.entries[0] in t.entries;
    }
  }

  lemma {:induction false} FilledSort(tables: map<nat, Table>, ids: seq<nat>)
    requires Known(tables, ids) && Named(tables, ids)
    ensures Known(tables, SortByFirst(tables, ids)) && Known(tables, FilledIds(tables, ids))
    ensures FilledIds(tables, SortByFirst(tables, ids)) == SortByFirst(tables, FilledIds(tables, ids))
  {
    hide FilledIds, KeyLess, InsertByFirst;
    SameMembers(SortByFirst(tables, ids), ids);
    FilledKnown(tables, ids);
    FilledStep(tables, ids);
    if ids != [] {
      var rest := ids[1..];
      FilledSort(tables, rest);
      FilledKnown(tables, rest);
      SameMembers(SortByFirst(tables, rest), rest);
      FilledInsert(tables, ids[0], SortByFirst(tables, rest));
      assert ([ids[0]] + FilledIds(tables, rest))[1..] == FilledIds(tables, rest);
      assert [] + FilledIds(tables, rest) == FilledIds(tables, rest);
    }
  }

  lemma {:induction false} HullNamed(tables: map<nat, Table>, ids: seq<nat>)
    requires Known(tables, ids) && ids != [] && AllFilled(tables, ids) && Named(tables, ids)
    ensures MinFirst(tables, ids).user != []
  {
    NoKeyFirst(tables[ids[0]]);
    if |ids| > 1 {
      HullNamed(tables, ids[1..]);
    }
  }

  /** A table without entries overlaps nothing. */
  lemma {:induction false} OverlappingFilled(tables: map<nat, Table>, level: seq<nat>, begin: Key, end: Key)
    requires Known(tables, level) && begin.user != []
    ensures Known(tables, FilledIds(tables, level))
    ensures Overlapping(tables, FilledIds(tables, level), begin, end) == Overlapping(tables, level, begin, end)
  {
    hide FilledIds;
    FilledStep(tables, level);
    FilledKnown(tables, level);
    if level != [] {
      var rest := level[1..];
      OverlappingFilled(tables, rest, begin, end);
      FilledKnown(tables, rest);
      var filled := FilledIds(tables, rest);
      assert ([level[0]] + filled)[1..] == filled && [] + filled == filled;
      EmptyOverlapsNothing(tables[level[0]], begin, end);
      assert [] + Overlapping(tables, rest, begin, end) == Overlapping(tables, rest, begin, end);
    }
  }

  lemma EmptyOverlapsNothing(t: Table, begin: Key, end: Key)
    requires begin.user != []
    ensures t.entries == [] ==> !Overlaps(t, begin, end)
  {
  }

  /** The state with the empty tables of the lower level taken away. */
  function Dense(s: LsmState, t: LevelTask): LsmState
    requires 1 <= t.lowerLevel <= |s.levels| && Known(s.sstables, s.levels[t.lowerLevel - 1].ids)
  {
    var j := t.lowerLevel - 1;
    s.(levels := s.levels[j := s.levels[j].(ids := FilledIds(s.sstables, s.levels[j].ids))])
  }

  /** For the task those tables might as well not be there. */
  lemma DenseTask(s: LsmState, t: LevelTask)
    requires TaskOk(s, t) && AllFilled(s.sstables, t.upperIds) && Named(s.sstables, t.upperIds)
    ensures TaskOk(Dense(s, t), t)
  {
    hide FilledIds, Overlapping, MinFirst, MaxLast, KeyLess;
    var lower := s.levels[t.lowerLevel - 1].ids;
    FilledKnown(s.sstables, lower);
    HullNamed(s.sstables, t.upperIds);
    OverlappingFilled(s.sstables, lower, MinFirst(s.sstables, t.upperIds), MaxLast(s.sstables, t.upperIds));
  }

  lemma {:induction false} FilledDistinct(tables: map<nat, Table>, ids: seq<nat>)
    requires Known(tables, ids) && Distinct(ids)
    ensures Distinct(FilledIds(tables, ids))
  {
    hide FilledIds;
    forall x ensures multiset(FilledIds(tables, ids))[x] <= 1 {
      assert multiset(ids)[x] <= 1;
      if x in multiset(FilledIds(tables, ids)) {
        FilledMember(tables, ids, x);
      }
    }
  }

  /** The lower level stays in order apart from tables without entries, whether old ones or new ones. */
  lemma LowerLevelStaysSparse(s: LsmState, s1: LsmState, t: LevelTask, output: seq<nat>)
    requires TaskOk(s, t) && SparseLevelOk(s.sstables, s.levels[t.lowerLevel - 1].ids)
    requires FilledTables(s.sstables, t.upperIds)
    requires s1.levels == s.levels && Known(s1.sstables, output)
    requires OutputsOk(s, t, s1.sstables, FilledIds(s1.sstables, output))
    requires TablesNamed(s.sstables) && TablesNamed(s1.sstables)
    requires Distinct(s.levels[t.lowerLevel - 1].ids) && Distinct(output)
    ensures Known(s1.sstables, Minus(s.levels[t.lowerLevel - 1].ids, t.lowerIds) + output)
    ensures SparseLevelOk(s1.sstables, NewLower(s1, t, output))
  {
    hide KeyLess, SortByFirst, OverlappingSsts, UpperIds, Minus, Ordered, PairwiseApart, Ascending, Distinct,
      FilledIds, Sorted, LevelOk;
    var lower, tables, filledOut := s.levels[t.lowerLevel - 1].ids, s1.sstables, FilledIds(s1.sstables, output);
    var d := Dense(s, t);
    var d1 := s1.(levels := d.levels);
    UpperFilled(s, t);
    DenseTask(s, t);
    FilledDistinct(s.sstables, lower);
    FilledDistinct(tables, output);
    FilledAgree(s.sstables, tables, lower);
    LowerLevelStaysOrdered(d, d1, t, filledOut);
    FilledMinus(tables, lower, t.lowerIds);
    FilledConcat(tables, Minus(lower, t.lowerIds), output);
    AllNamed(tables, Minus(lower, t.lowerIds) + output);
    FilledSort(tables, Minus(lower, t.lowerIds) + output);
  }

  lemma UpperFilled(s: LsmState, t: LevelTask)
    requires Known(s.sstables, t.upperIds) && FilledTables(s.sstables, t.upperIds)
    requires TablesNamed(s.sstables)
    ensures AllFilled(s.sstables, t.upperIds) && Named(s.sstables, t.upperIds)
  {
    hide KeyLess, Named;
    AllNamed(s.sstables, t.upperIds);
  }
}
