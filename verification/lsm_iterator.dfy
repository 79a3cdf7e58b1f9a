/** src/lsm_iterator.rs: the snapshot filter over the merged versions of all sources. */
module LsmIter {
  import opened Bytes
  import opened Common
  import opened Keys
  import opened Mvcc
  import opened Runs
  import opened TwoMerge

  predicate BelowUpper(user: Bytes, upper: Bound<Bytes>) {
    match upper
    case Included(b) => Less(user, b) || user == b
    case Excluded(b) => Less(user, b)
    case Unbounded => true
  }

  predicate AboveLower(user: Bytes, lower: Bound<Bytes>) {
    match lower
    case Included(b) => Less(b, user) || user == b
    case Excluded(b) => Less(b, user)
    case Unbounded => true
  }

  /** The iterator reports itself invalid from the first key beyond the end bound on. */
  function TakeInRange(r: Run<Bytes>, upper: Bound<Bytes>): Run<Bytes> {
    if r != [] && BelowUpper(r[0].key, upper) then [r[0]] + TakeInRange(r[1..], upper) else []
  }

  lemma {:induction false} TakeInRangeMembers(r: Run<Bytes>, upper: Bound<Bytes>)
    requires TotalOrder(Less) && Sorted(Less, r)
    ensures Sorted(Less, TakeInRange(r, upper))
    ensures forall e :: e in TakeInRange(r, upper) <==> e in r && BelowUpper(e.key, upper)
  {
    if r != [] {
      TakeInRangeMembers(r[1..], upper);
      forall e | e in r[1..] ensures Less(r[0].key, e.key) {
        TailMembers(Less, r, e);
      }
      if BelowUpper(r[0].key, upper) {
        SortedConcat(Less, [r[0]], TakeInRange(r[1..], upper));
      }
      assert r == [r[0]] + r[1..];
    }
  }

  lemma TakeInRangeAdvance(r: Run<Bytes>, upper: Bound<Bytes>)
    requires TotalOrder(Less) && Sorted(Less, r)
    ensures TakeInRange(Advance(r), upper) == Advance(TakeInRange(r, upper))
  {
    if |r| > 1 {
      assert Less(r[0].key, r[1].key);
    }
  }

  class LsmIterator {
    const inner: TwoMergeIterator<Key>
    const endBound: Bound<Bytes>
    const readTimestamp: u64
    var prevKey: Option<Bytes>

    ghost predicate Consistent()
      reads this, inner
    {
      inner.Valid() && inner.lt == KeyLess && TotalOrder(Less) && Sorted(KeyLess, inner.Rest())
    }

    /** The inner iterator stands at a version that the snapshot shows. */
    ghost predicate AtVisible()
      reads this, inner
    {
      inner.Rest() != [] ==> inner.Rest()[0].key.ts <= readTimestamp && inner.Rest()[0].value != []
    }

    ghost predicate Valid()
      reads this, inner
    {
      Consistent() && AtVisible() && (inner.Rest() != [] ==> prevKey == Some(inner.Rest()[0].key.user))
    }

    /** What the iterator has still to yield. */
    function Rest(): Run<Bytes>
      reads this, inner
    {
      TakeInRange(VisibleScan(inner.Rest(), readTimestamp), endBound)
    }

    /** The keys still to come are ascending, once each. */
    lemma RestSorted()
      requires Valid()
      ensures Sorted(Less, Rest())
    {
      VisibleScanReads(inner.Rest(), readTimestamp);
      TakeInRangeMembers(VisibleScan(inner.Rest(), readTimestamp), endBound);
    }

    constructor (iter: TwoMergeIterator<Key>, endBound: Bound<Bytes>, readTs: u64)
      requires iter.Valid() && iter.lt == KeyLess && Sorted(KeyLess, iter.Rest())
      modifies iter
      ensures Valid() && inner == iter && this.endBound == endBound && readTimestamp == readTs
      ensures Rest() == TakeInRange(VisibleScan(old(iter.Rest()), readTs), endBound)
    {
      inner, this.endBound, readTimestamp, prevKey := iter, endBound, readTs, None;
      new;
      UserOrderIsTotal();
      SkipTombstone();
      if inner.IsValid() {
        prevKey := Some(inner.Key().user);
      }
    }

    /** Passes versions that are too new, and every version of a key whose visible version is a tombstone. */
    method SkipTombstone()
      requires Consistent()
      modifies inner
      ensures Consistent() && AtVisible()
      ensures VisibleScan(inner.Rest(), readTimestamp) == VisibleScan(old(inner.Rest()), readTimestamp)
    {
      while true
        invariant Consistent()
        invariant VisibleScan(inner.Rest(), readTimestamp) == VisibleScan(old(inner.Rest()), readTimestamp)
        decreases |inner.Rest()|
      {
        while inner.IsValid() && inner.Key().ts > readTimestamp
          invariant Consistent()
          invariant VisibleScan(inner.Rest(), readTimestamp) == VisibleScan(old(inner.Rest()), readTimestamp)
          decreases |inner.Rest()|
        {
          inner.Next();
        }
        if !inner.IsValid() {
          break;
        }
        if inner.Value() != [] {
          break;
        }
        var tombKey := inner.Key().user;
        SkipUser(Some(tombKey));
      }
    }

    /** Passes every remaining version of the given user key. */
    method SkipUser(user: Option<Bytes>)
      requires Consistent()
      modifies inner
      ensures Consistent()
      ensures inner.Rest() == if user.Some? then DropUser(old(inner.Rest()), user.value) else old(inner.Rest())
    {
      while inner.IsValid() && user == Some(inner.Key().user)
        invariant Consistent()
        invariant user.None? ==> inner.Rest() == old(inner.Rest())
        invariant user.Some? ==> DropUser(inner.Rest(), user.value) == DropUser(old(inner.Rest()), user.value)
        decreases |inner.Rest()|
      {
        inner.Next();
      }
    }

    predicate InRange()
      reads this, inner
      requires inner.Valid() && inner.IsValid()
    {
      BelowUpper(inner.Key().user, endBound)
    }

    predicate IsValid()
      reads this, inner
      requires Valid()
      ensures IsValid() <==> Rest() != []
    {
      inner.IsValid() && InRange()
    }

    function Head(): (e: Entry<Bytes>)
      reads this, inner
      requires Valid() && IsValid()
      ensures e == Rest()[0]
    {
      Entry(inner.Key().user, inner.Value())
    }

    method Next()
      requires Valid()
      modifies this, inner
      ensures Valid() && Rest() == Advance(old(Rest()))
    {
      ghost var before := VisibleScan(inner.Rest(), readTimestamp);
      VisibleScanReads(inner.Rest(), readTimestamp);
      TakeInRangeAdvance(before, endBound);
      SkipUser(prevKey);
      assert VisibleScan(inner.Rest(), readTimestamp) == Advance(before);
      SkipTombstone();
      if inner.IsValid() {
        prevKey := Some(inner.Key().user);
      }
    }
  }
}
