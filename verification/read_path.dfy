/**
 * Why merging all sources answers reads: every source holds entries of the store only, and the
 * parts of sources that a read skips hold nothing that it asks for.
 */
module ReadPath {
  import opened Bytes
  import opened Common
  import opened Keys
  import opened LsmIter
  import opened Mvcc
  import opened Runs
  import opened State

  /** A sorted run of entries of the store. */
  ghost predicate PartOf(m: Store, r: Run<Key>) {
    Sorted(KeyLess, r) && forall e :: e in r ==> InStore(m, e)
  }

  ghost predicate PartsOf(m: Store, runs: seq<Run<Key>>) {
    forall i :: 0 <= i < |runs| ==> PartOf(m, runs[i])
  }

  /** Sources that agree with one store never compete, so merging two is plain union. */
  lemma MergeParts(m: Store, a: Run<Key>, b: Run<Key>)
    requires PartOf(m, a) && PartOf(m, b)
    ensures PartOf(m, Merge(KeyLess, a, b))
    ensures forall e :: e in Merge(KeyLess, a, b) <==> e in a || e in b
  {
    hide KeyLess, Merge;
    KeyOrderIsTotal();
    MergeIsUnion(KeyLess, a, b);
    forall e | e in b && e.key in KeysOf(a) ensures e in a {
      var f :| f in a && f.key == e.key;
      assert InStore(m, e) && InStore(m, f);
    }
  }

  lemma {:induction false} MergeAllParts(m: Store, runs: seq<Run<Key>>)
    requires PartsOf(m, runs)
    ensures PartOf(m, MergeAll(KeyLess, runs))
    ensures forall e :: e in MergeAll(KeyLess, runs) <==> exists i :: 0 <= i < |runs| && e in runs[i]
  {
    hide KeyLess, Merge, PartOf;
    if runs == [] {
      EmptyPart(m);
    } else {
      var rest := runs[1..];
      forall i | 0 <= i < |rest| ensures rest[i] == runs[i + 1] {}
      MergeAllParts(m, rest);
      MergeParts(m, runs[0], MergeAll(KeyLess, rest));
      forall e ensures e in MergeAll(KeyLess, runs) <==> exists i :: 0 <= i < |runs| && e in runs[i] {
        if i :| 0 <= i < |rest| && e in rest[i] {
          assert e in runs[i + 1];
        }
        if i :| 0 <= i < |runs| && e in runs[i] {
          assert i > 0 ==> e in rest[i - 1];
        }
      }
    }
  }

  lemma PartSorted(m: Store, r: Run<Key>)
    requires PartOf(m, r)
    ensures Sorted(KeyLess, r)
  {
  }

  lemma EmptyPart(m: Store)
    ensures PartOf(m, [])
  {
  }

  /** What an iterator over one source must offer to a read of the keys selected by `lower` and `upper`. */
  ghost predicate ServesRange(offered: Run<Key>, source: Run<Key>, lower: Bound<Bytes>, upper: Bound<Bytes>) {
    && Sorted(KeyLess, offered)
    && (forall e :: e in offered ==> e in source && AboveLower(e.key.user, lower))
    && (forall e :: e in source && AboveLower(e.key.user, lower) && BelowUpper(e.key.user, upper) ==> e in offered)
  }

  /** The answer a scan must give. */
  ghost predicate IsScan(r: Run<Bytes>, m: Store, lower: Bound<Bytes>, upper: Bound<Bytes>, t: u64) {
    && Sorted(Less, r)
    && forall user, v :: Entry(user, v) in r <==>
         AboveLower(user, lower) && BelowUpper(user, upper) && Read(m, user, t) == Some(v)
  }

  /** A merged run that holds every version of every selected key answers the scan. */
  lemma ScanAnswers(m: Store, merged: Run<Key>, lower: Bound<Bytes>, upper: Bound<Bytes>, t: u64)
    requires PartOf(m, merged)
    requires forall e :: e in merged ==> AboveLower(e.key.user, lower)
    requires forall e :: InStore(m, e) && AboveLower(e.key.user, lower) && BelowUpper(e.key.user, upper) ==> e in merged
    ensures IsScan(TakeInRange(VisibleScan(merged, t), upper), m, lower, upper, t)
  {
    hide KeyLess, Less, VisibleScan, TakeInRange, AboveLower, BelowUpper, Read, MapOf;
    UserOrderIsTotal();
    KeyOrderIsTotal();
    VisibleScanReads(merged, t);
    VisibleScanSorted(merged, t);
    var seen := VisibleScan(merged, t);
    TakeInRangeMembers(seen, upper);
    forall user, v
      ensures Entry(user, v) in TakeInRange(seen, upper) <==>
              AboveLower(user, lower) && BelowUpper(user, upper) && Read(m, user, t) == Some(v)
    {
      if BelowUpper(user, upper) {
        if AboveLower(user, lower) {
          forall x: u64, w ensures Entry(Key(user, x), w) in merged <==> InStore(m, Entry(Key(user, x), w)) {}
          CoverReads(merged, m, user, t);
        } else {
          assert Entry(user, v) !in seen;
        }
      }
    }
  }

  // ---------- pruning ----------

  /** `range_overlap`: may the table hold a user key within the bounds? */
  predicate RangeOverlap(lower: Bound<Bytes>, upper: Bound<Bytes>, begin: Key, end: Key) {
    && (match upper
        case Excluded(key) => Less(begin.user, key)
        case Included(key) => !Less(key, begin.user)
        case Unbounded => true)
    && (match lower
        case Excluded(key) => Less(key, end.user)
        case Included(key) => !Less(end.user, key)
        case Unbounded => true)
  }

  /** It may exactly if its last key is not before the bounds and its first key not behind them. */
  lemma RangeOverlapIff(lower: Bound<Bytes>, upper: Bound<Bytes>, begin: Key, end: Key)
    ensures RangeOverlap(lower, upper, begin, end) <==> AboveLower(end.user, lower) && BelowUpper(begin.user, upper)
  {
    hide Less;
    UserOrderIsTotal();
  }

  predicate KeyWithin(user: Bytes, begin: Key, end: Key) {
    !Less(user, begin.user) && !Less(end.user, user)
  }

  lemma UserWithinTable(r: Run<Key>, e: Entry<Key>)
    requires Sorted(KeyLess, r) && e in r
    ensures KeyWithin(e.key.user, r[0].key, Last(r))
  {
    hide Less;
    UserOrderIsTotal();
    var i :| 0 <= i < |r| && r[i] == e;
    assert i == 0 || KeyLess(r[0].key, e.key);
    assert i == |r| - 1 || KeyLess(e.key, Last(r));
  }

  /** A table skipped by `range_overlap` holds no key within the bounds. */
  lemma PrunedHasNothing(r: Run<Key>, lower: Bound<Bytes>, upper: Bound<Bytes>, e: Entry<Key>)
    requires Sorted(KeyLess, r) && e in r
    requires AboveLower(e.key.user, lower) && BelowUpper(e.key.user, upper)
    ensures RangeOverlap(lower, upper, r[0].key, Last(r))
  {
    hide Less;
    UserOrderIsTotal();
    UserWithinTable(r, e);
  }

  // ---------- seeking ----------

  /** Dropping what lies below `(key, u64::MAX)` keeps exactly the user keys from `key` on. */
  lemma SeekServes(r: Run<Key>, key: Bytes)
    requires Sorted(KeyLess, r)
    ensures Sorted(KeyLess, LowerBound(KeyLess, r, Key(key, TS_RANGE_BEGIN)))
    ensures forall e :: e in LowerBound(KeyLess, r, Key(key, TS_RANGE_BEGIN)) <==>
              e in r && AboveLower(e.key.user, Included(key))
  {
    hide Less, LowerBound;
    UserOrderIsTotal();
    KeyOrderIsTotal();
    LowerBoundMembers(KeyLess, r, Key(key, TS_RANGE_BEGIN));
  }

  lemma SeekAfterServes(r: Run<Key>, key: Bytes)
    requires Sorted(KeyLess, r)
    ensures var found := DropUser(LowerBound(KeyLess, r, Key(key, TS_RANGE_BEGIN)), key);
            Sorted(KeyLess, found) && forall e :: e in found <==> e in r && AboveLower(e.key.user, Excluded(key))
  {
    hide Less, LowerBound;
    UserOrderIsTotal();
    KeyOrderIsTotal();
    SeekServes(r, key);
    DropUserMembers(LowerBound(KeyLess, r, Key(key, TS_RANGE_BEGIN)), key);
  }
}
