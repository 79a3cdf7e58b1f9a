/** What a compaction does to the stored map, and exactly which reads it changes by leaving out tombstones. */
module Contents {
  import opened Bytes
  import opened Common
  import opened Compaction
  import opened Keys
  import opened Mvcc
  import opened ReadPath
  import opened Runs
  import opened State

  /** The compacted-away tombstones are gone, everything else stays. */
  function AfterCompaction(m: Store, bottom: bool, input: Run<Key>): Store {
    map k | k in m && !(bottom && m[k] == [] && Entry(k, []) in input) :: m[k]
  }

  // ---------- reads ----------

  /** A version that a compaction of `input` to the bottom leaves out. */
  ghost predicate Dropped(m: Store, input: Run<Key>, k: Key) {
    k in m && m[k] == [] && Entry(k, []) in input
  }

  /** Under the dropped tombstone at `ts`, past further dropped ones, lies a value at `x`. */
  ghost predicate Uncovers(m: Store, input: Run<Key>, user: Bytes, ts: u64, x: u64) {
    && x < ts && Dropped(m, input, Key(user, ts))
    && Key(user, x) in m && m[Key(user, x)] != []
    && forall y: u64 :: x < y < ts && Key(user, y) in m ==> Dropped(m, input, Key(user, y))
  }

  lemma AfterHas(m: Store, input: Run<Key>, k: Key)
    ensures k in AfterCompaction(m, true, input) <==> k in m && !Dropped(m, input, k)
    ensures k in AfterCompaction(m, true, input) ==> AfterCompaction(m, true, input)[k] == m[k]
  {
  }

  lemma DroppedIsUncovered(m: Store, input: Run<Key>, user: Bytes, t: u64, ts: u64)
    requires Newest(m, user, t) == Some(ts) && Dropped(m, input, Key(user, ts))
    ensures Read(AfterCompaction(m, true, input), user, t) != None <==> exists x: u64 :: Uncovers(m, input, user, ts, x)
  {
    hide Newest, AfterCompaction;
    var after := AfterCompaction(m, true, input);
    forall k ensures k in after <==> k in m && !Dropped(m, input, k)
      ensures k in after ==> after[k] == m[k]
    {
      AfterHas(m, input, k);
    }
    var n := Newest(after, user, t);
    if n.Some? {
      assert Key(user, n.value) in m && n.value < ts;
      if after[Key(user, n.value)] != [] {
        assert Uncovers(m, input, user, ts, n.value);
      }
    }
    if x: u64 :| Uncovers(m, input, user, ts, x) {
      assert Key(user, x) in after;
      assert n == Some(x);
    }
  }

  /** A bottom compaction changes a read exactly when its visible version is a dropped tombstone over a value. */
  lemma BottomReadChangesIff(m: Store, input: Run<Key>, user: Bytes, t: u64)
    ensures Read(AfterCompaction(m, true, input), user, t) != Read(m, user, t) <==>
            var n := Newest(m, user, t);
            n.Some? && exists x: u64 :: Uncovers(m, input, user, n.value, x)
  {
    hide Newest, AfterCompaction;
    var after := AfterCompaction(m, true, input);
    var n, n' := Newest(m, user, t), Newest(after, user, t);
    if n.Some? && Dropped(m, input, Key(user, n.value)) {
      DroppedIsUncovered(m, input, user, t, n.value);
    } else {
      if n'.Some? {
        AfterHas(m, input, Key(user, n'.value));
      }
      if n.Some? {
        AfterHas(m, input, Key(user, n.value));
      }
      assert n == n';
    }
  }

  ghost predicate NeverUncovers(m: Store, input: Run<Key>) {
    forall user, ts: u64, x: u64 :: !Uncovers(m, input, user, ts, x)
  }

  /** No read at all changes exactly when no dropped tombstone covers a value. */
  lemma BottomPreservesReadsIff(m: Store, input: Run<Key>)
    ensures (forall user, t: u64 :: Read(AfterCompaction(m, true, input), user, t) == Read(m, user, t)) <==>
            NeverUncovers(m, input)
  {
    forall user, t: u64
      ensures Read(AfterCompaction(m, true, input), user, t) != Read(m, user, t) <==>
              var n := Newest(m, user, t);
              n.Some? && exists x: u64 :: Uncovers(m, input, user, n.value, x)
    {
      BottomReadChangesIff(m, input, user, t);
    }
    if user, ts: u64, x: u64 :| Uncovers(m, input, user, ts, x) {
      assert Newest(m, user, ts) == Some(ts);
      assert Read(AfterCompaction(m, true, input), user, ts) != Read(m, user, ts);
    }
  }

  /** Any other compaction leaves the map, and so every read, as it was. */
  lemma UpperPreservesStore(m: Store, input: Run<Key>)
    ensures AfterCompaction(m, false, input) == m
  {
  }

  /** Deleting a key and compacting its tombstone to the bottom brings the old value back. */
  lemma DeletedKeyComesBack(user: Bytes, v: Bytes)
    requires v != []
    ensures var m: Store := map[Key(user, 2) := [], Key(user, 1) := v];
            var input: Run<Key> := [Entry(Key(user, 2), []), Entry(Key(user, 1), v)];
            Read(m, user, 2) == None && Read(AfterCompaction(m, true, input), user, 2) == Some(v)
  {
    var m: Store := map[Key(user, 2) := [], Key(user, 1) := v];
    var input: Run<Key> := [Entry(Key(user, 2), []), Entry(Key(user, 1), v)];
    assert input[0] in input;
    assert Key(user, 2) !in AfterCompaction(m, true, input);
    assert Key(user, 1) in AfterCompaction(m, true, input);
  }

  // ---------- contents ----------

  /** `ids.retain(|id| !removed.contains(id))`. */
  function Minus(ids: seq<nat>, removed: seq<nat>): seq<nat> {
    if ids == [] then []
    else (if ids[0] in removed then [] else [ids[0]]) + Minus(ids[1..], removed)
  }

  lemma {:induction false} MinusCount(ids: seq<nat>, removed: seq<nat>, x: nat)
    ensures multiset(Minus(ids, removed))[x] == if x in removed then 0 else multiset(ids)[x]
  {
    if ids != [] {
      MinusCount(ids[1..], removed, x);
      assert ids == [ids[0]] + ids[1..];
    }
  }

  /** Removing distinct members of a list of distinct ids removes exactly them. */
  lemma MinusExact(ids: seq<nat>, removed: seq<nat>)
    requires multiset(removed) <= multiset(ids)
    requires Distinct(ids)
    ensures multiset(Minus(ids, removed)) == multiset(ids) - multiset(removed)
  {
    forall x: nat ensures multiset(Minus(ids, removed))[x] == (multiset(ids) - multiset(removed))[x] {
      MinusCount(ids, removed, x);
      assert x in removed <==> x in multiset(removed);
    }
  }

  lemma {:induction false} SortedOnce(r: Run<Key>, e: Entry<Key>)
    requires Sorted(KeyLess, r)
    ensures multiset(r)[e] == if e in r then 1 else 0
  {
    hide KeyLess;
    KeyOrderIsTotal();
    if r != [] {
      SortedOnce(r[1..], e);
      assert r == [r[0]] + r[1..];
      TailMembers(KeyLess, r, r[0]);
    }
  }

  lemma FlattenBag(tables: map<nat, Table>, ids: seq<nat>)
    requires Known(tables, ids)
    ensures TableBag(tables, ids) == multiset(Flatten(RunsOf(tables, ids)))
  {
    if ids != [] {
      FlattenBag(tables, ids[1..]);
      assert RunsOf(tables, ids)[1..] == RunsOf(tables, ids[1..]);
    }
  }

  /** How many sources hold `e` after the tables `removed` were replaced by the tables `added`. */
  lemma BagAfter(s: LsmState, s': LsmState, removed: seq<nat>, added: seq<nat>)
    requires Known(s.sstables, SstIds(s)) && Distinct(SstIds(s))
    requires s'.memtable == s.memtable && s'.imm == s.imm
    requires multiset(removed) <= multiset(SstIds(s))
    requires multiset(SstIds(s')) == multiset(SstIds(s)) - multiset(removed) + multiset(added)
    requires forall id :: id in SstIds(s) && id !in removed ==> id in s'.sstables && s'.sstables[id] == s.sstables[id]
    requires Known(s'.sstables, added)
    ensures Known(s'.sstables, SstIds(s')) && Known(s.sstables, removed)
    ensures Bag(s') == Bag(s) - TableBag(s.sstables, removed) + TableBag(s'.sstables, added)
    ensures TableBag(s.sstables, removed) <= TableBag(s.sstables, SstIds(s))
  {
    hide SstIds, TableBag, MemBag;
    var all, all' := SstIds(s), SstIds(s');
    var keep := KeptIds(all, removed, all', added);
    TableBagPermutation(s.sstables, all, keep + removed);
    TableBagConcat(s.sstables, keep, removed);
    forall id | id in keep + added ensures id in s'.sstables {}
    TableBagPermutation(s'.sstables, keep + added, all');
    TableBagConcat(s'.sstables, keep, added);
    TableBagAgree(s.sstables, s'.sstables, keep);
  }

  lemma KeptIds(all: seq<nat>, removed: seq<nat>, all': seq<nat>, added: seq<nat>) returns (keep: seq<nat>)
    requires multiset(removed) <= multiset(all) && Distinct(all)
    requires multiset(all') == multiset(all) - multiset(removed) + multiset(added)
    ensures multiset(all) == multiset(keep + removed) && multiset(keep + added) == multiset(all')
    ensures forall id :: id in keep ==> id in all && id !in removed
  {
    keep := Minus(all, removed);
    MinusExact(all, removed);
    forall id | id in keep ensures id in all && id !in removed {
      MinusCount(all, removed, id);
      assert id in multiset(keep);
    }
  }

  /**
   * Replacing the input tables by tables that hold, in order, the surviving merged input leaves every
   * version in exactly one source, and stores the map without the dropped tombstones.
   */
  lemma ContentsAfter(s: LsmState, s': LsmState, m: Store, bottom: bool, input: Run<Key>, removed: seq<nat>,
                      added: seq<nat>)
    requires Known(s.sstables, SstIds(s)) && Holds(s, m) && Distinct(SstIds(s))
    requires s'.memtable == s.memtable && s'.imm == s.imm
    requires multiset(removed) <= multiset(SstIds(s))
    requires multiset(SstIds(s')) == multiset(SstIds(s)) - multiset(removed) + multiset(added)
    requires forall id :: id in SstIds(s) && id !in removed ==> id in s'.sstables && s'.sstables[id] == s.sstables[id]
    requires Known(s.sstables, removed) && HoldsInputs(input, s.sstables, removed) && PartOf(m, input)
    requires Known(s'.sstables, added) && Flatten(RunsOf(s'.sstables, added)) == Survivors(bottom, input)
    ensures Known(s'.sstables, SstIds(s')) && Holds(s', AfterCompaction(m, bottom, input))
  {
    hide SstIds, TableBag, MemBag, Flatten, Survivors, KeyLess, Sorted;
    BagAfter(s, s', removed, added);
    FlattenBag(s'.sstables, added);
    SurvivorsMembers(bottom, input);
    var after := AfterCompaction(m, bottom, input);
    forall e ensures Bag(s')[e] == if InStore(after, e) then 1 else 0 {
      TableBagMember(s.sstables, removed, e);
      SortedOnce(Survivors(bottom, input), e);
      assert Bag(s)[e] == if InStore(m, e) then 1 else 0;
      assert TableBag(s.sstables, removed)[e] <= TableBag(s.sstables, SstIds(s))[e] <= Bag(s)[e];
      assert e in input <==> e in TableBag(s.sstables, removed);
      assert InStore(after, e) <==> InStore(m, e) && !(bottom && e.value == [] && e in input);
    }
  }

  /** So any compaction that does not reach the bottom leaves the state holding the same map. */
  lemma UpperKeepsContents(s: LsmState, s': LsmState, m: Store, input: Run<Key>, removed: seq<nat>, added: seq<nat>)
    requires Known(s.sstables, SstIds(s)) && Holds(s, m) && Distinct(SstIds(s))
    requires s'.memtable == s.memtable && s'.imm == s.imm
    requires multiset(removed) <= multiset(SstIds(s))
    requires multiset(SstIds(s')) == multiset(SstIds(s)) - multiset(removed) + multiset(added)
    requires forall id :: id in SstIds(s) && id !in removed ==> id in s'.sstables && s'.sstables[id] == s.sstables[id]
    requires Known(s.sstables, removed) && HoldsInputs(input, s.sstables, removed) && PartOf(m, input)
    requires Known(s'.sstables, added) && Flatten(RunsOf(s'.sstables, added)) == input
    ensures Known(s'.sstables, SstIds(s')) && Holds(s', m)
  {
    hide SstIds, TableBag, MemBag, Flatten, KeyLess, Sorted, HoldsInputs, Holds;
    PartSorted(m, input);
    SurvivorsMembers(false, input);
    ContentsAfter(s, s', m, false, input, removed, added);
    UpperPreservesStore(m, input);
  }
}
