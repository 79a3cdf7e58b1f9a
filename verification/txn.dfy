/** src/mvcc/txn.rs: a transaction reads a snapshot of the engine through its own uncommitted writes. */
module Txn {
  import opened Bytes
  import Blocks
  import opened Common
  import opened EmptyTables
  import opened Engine
  import opened Keys
  import opened LsmIter
  import opened Mvcc
  import opened ReadPath
  import opened Runs
  import opened SnapshotReads
  import opened State
  import opened TwoMerge

  predicate InBounds(user: Bytes, lower: Bound<Bytes>, upper: Bound<Bytes>) {
    AboveLower(user, lower) && BelowUpper(user, upper)
  }

  /** `SkipMap::get`. */
  function Lookup(local: Run<Bytes>, user: Bytes): Option<Bytes> {
    if local == [] then None
    else if local[0].key == user then Some(local[0].value)
    else Lookup(local[1..], user)
  }

  /** `SkipMap::range`. */
  function LocalRange(local: Run<Bytes>, lower: Bound<Bytes>, upper: Bound<Bytes>): Run<Bytes> {
    if local == [] then []
    else (if InBounds(local[0].key, lower, upper) then [local[0]] else []) + LocalRange(local[1..], lower, upper)
  }

  lemma {:induction false} LookupFinds(local: Run<Bytes>, user: Bytes)
    requires TotalOrder(Less) && Sorted(Less, local)
    ensures forall v :: Lookup(local, user) == Some(v) <==> Entry(user, v) in local
    ensures Lookup(local, user).None? <==> user !in KeysOf(local)
  {
    hide Less;
    if local != [] {
      LookupFinds(local[1..], user);
      forall e ensures e in local[1..] <==> e in local && e != local[0]
        ensures e in local[1..] ==> Less(local[0].key, e.key)
      {
        TailMembers(Less, local, e);
      }
      assert local[0] in local;
    }
  }

  lemma {:induction false} LocalRangeMembers(local: Run<Bytes>, lower: Bound<Bytes>, upper: Bound<Bytes>)
    requires TotalOrder(Less) && Sorted(Less, local)
    ensures Sorted(Less, LocalRange(local, lower, upper))
    ensures forall e :: e in LocalRange(local, lower, upper) <==> e in local && InBounds(e.key, lower, upper)
  {
    hide Less, InBounds;
    if local != [] {
      LocalRangeMembers(local[1..], lower, upper);
      forall e | e in local[1..] ensures Less(local[0].key, e.key) {
        TailMembers(Less, local, e);
      }
      assert local == [local[0]] + local[1..];
      SortedConcat(Less, [local[0]], LocalRange(local[1..], lower, upper));
    }
  }

  // ---------- the overlay ----------

  /** The snapshot at `t` with the local writes laid over it; a local empty value is a deletion. */
  function OverlayRead(local: Run<Bytes>, m: Store, user: Bytes, t: u64): Option<Bytes> {
    match Lookup(local, user)
    case Some(v) => if v == [] then None else Some(v)
    case None => Read(m, user, t)
  }

  /** What draining a transaction's scan must give. */
  ghost predicate IsOverlayScan(r: Run<Bytes>, local: Run<Bytes>, m: Store,
                                lower: Bound<Bytes>, upper: Bound<Bytes>, t: u64)
  {
    && Sorted(Less, r)
    && forall user, v :: Entry(user, v) in r <==>
         InBounds(user, lower, upper) && OverlayRead(local, m, user, t) == Some(v)
  }

  /** Entries that are not deletions. */
  function NonDeleted(r: Run<Bytes>): Run<Bytes> {
    if r == [] then [] else (if r[0].value == [] then [] else [r[0]]) + NonDeleted(r[1..])
  }

  lemma {:induction false} NonDeletedMembers(r: Run<Bytes>)
    requires TotalOrder(Less) && Sorted(Less, r)
    ensures Sorted(Less, NonDeleted(r))
    ensures forall e :: e in NonDeleted(r) <==> e in r && e.value != []
  {
    hide Less;
    if r != [] {
      NonDeletedMembers(r[1..]);
      forall e | e in r[1..] ensures Less(r[0].key, e.key) {
        TailMembers(Less, r, e);
      }
      assert r == [r[0]] + r[1..];
      SortedConcat(Less, [r[0]], NonDeleted(r[1..]));
    }
  }

  lemma ReadIsNeverEmpty(m: Store, user: Bytes, t: u64)
    ensures Read(m, user, t) != Some([])
  {
  }

  // ---------- which local writes a scan shows ----------

  /** `TxnLocalIterator` takes an empty key, which would be the first, for its end. */
  function LocalYielded(r: Run<Bytes>): Run<Bytes> {
    if r != [] && r[0].key == [] then [] else r
  }

  /** A local write of the empty key lies within the bounds of a scan, and hides all local writes from it. */
  predicate HidesLocal(local: Run<Bytes>, lower: Bound<Bytes>, upper: Bound<Bytes>) {
    Lookup(local, []).Some? && InBounds([], lower, upper)
  }

  /** The local writes that a scan lays over the snapshot. */
  function Shown(local: Run<Bytes>, lower: Bound<Bytes>, upper: Bound<Bytes>): Run<Bytes> {
    if HidesLocal(local, lower, upper) then [] else local
  }

  lemma YieldedIsShown(local: Run<Bytes>, lower: Bound<Bytes>, upper: Bound<Bytes>)
    requires Sorted(Less, local)
    ensures LocalYielded(LocalRange(local, lower, upper)) == LocalRange(Shown(local, lower, upper), lower, upper)
    ensures Sorted(Less, Shown(local, lower, upper))
  {
    hide InBounds, LocalRange, Lookup, Sorted;
    UserOrderIsTotal();
    var mine := LocalRange(local, lower, upper);
    LocalRangeMembers(local, lower, upper);
    LookupFinds(local, []);
    HeadIsMember(mine);
    assert mine != [] ==>
      && mine[0] in local && mine[0] == Entry(mine[0].key, mine[0].value)
      && InBounds(mine[0].key, lower, upper);
    if HidesLocal(local, lower, upper) {
      var e := Entry([], Lookup(local, []).value);
      assert e in mine;
      EmptyFirst(mine, e);
      NoneInRange(lower, upper);
      EmptySorted(Less);
    }
  }

  lemma EmptyFirst(r: Run<Bytes>, e: Entry<Bytes>)
    requires Sorted(Less, r) && e in r && e.key == []
    ensures r[0].key == []
  {
    var i :| 0 <= i < |r| && r[i] == e;
    assert i > 0 ==> Less(r[0].key, r[i].key);
  }

  lemma NoneInRange(lower: Bound<Bytes>, upper: Bound<Bytes>)
    ensures LocalRange([], lower, upper) == []
  {
  }

  /** Merging the shown local writes over a snapshot scan and leaving out deletions is the overlay. */
  lemma MergedIsOverlay(local: Run<Bytes>, snapshot: Run<Bytes>, m: Store,
                        lower: Bound<Bytes>, upper: Bound<Bytes>, t: u64)
    requires Sorted(Less, local) && IsScan(snapshot, m, lower, upper, t)
    ensures var mine := LocalYielded(LocalRange(local, lower, upper));
            && Sorted(Less, mine) && Sorted(Less, snapshot)
            && IsOverlayScan(NonDeleted(Merge(Less, mine, snapshot)), Shown(local, lower, upper), m, lower, upper, t)
  {
    hide Less, AboveLower, BelowUpper, Read, Merge, NonDeleted, LocalRange, Lookup, LocalYielded, Shown,
      IsOverlayScan, Sorted;
    YieldedIsShown(local, lower, upper);
    OverlayOf(Shown(local, lower, upper), snapshot, m, lower, upper, t);
  }

  lemma OverlayOf(local: Run<Bytes>, snapshot: Run<Bytes>, m: Store, lower: Bound<Bytes>, upper: Bound<Bytes>, t: u64)
    requires Sorted(Less, local) && IsScan(snapshot, m, lower, upper, t)
    ensures Sorted(Less, LocalRange(local, lower, upper)) && Sorted(Less, snapshot)
    ensures IsOverlayScan(NonDeleted(Merge(Less, LocalRange(local, lower, upper), snapshot)), local, m, lower, upper, t)
  {
    hide Less, AboveLower, BelowUpper, Read, Merge, NonDeleted, LocalRange, Lookup;
    UserOrderIsTotal();
    var mine := LocalRange(local, lower, upper);
    LocalRangeMembers(local, lower, upper);
    MergeIsUnion(Less, mine, snapshot);
    var all := Merge(Less, mine, snapshot);
    NonDeletedMembers(all);
    forall user, v
      ensures Entry(user, v) in NonDeleted(all) <==>
              InBounds(user, lower, upper) && OverlayRead(local, m, user, t) == Some(v)
    {
      LookupFinds(local, user);
      ReadIsNeverEmpty(m, user, t);
      KeyInRange(local, lower, upper, user);
    }
  }

  lemma KeyInRange(local: Run<Bytes>, lower: Bound<Bytes>, upper: Bound<Bytes>, user: Bytes)
    requires forall e :: e in LocalRange(local, lower, upper) <==> e in local && InBounds(e.key, lower, upper)
    ensures user in KeysOf(LocalRange(local, lower, upper)) <==> user in KeysOf(local) && InBounds(user, lower, upper)
  {
    hide InBounds, LocalRange;
    if user in KeysOf(local) {
      var e :| e in local && e.key == user;
      assert InBounds(user, lower, upper) ==> e in LocalRange(local, lower, upper);
    }
  }

  /** What the snapshot says of a written key is what was written. */
  ghost predicate Repeats(e: Entry<Bytes>, m: Store, t: u64) {
    Read(m, e.key, t) == if e.value == [] then None else Some(e.value)
  }

  /**
   * A scan shows the snapshot under all local writes if and only if the empty key is not written
   * within its bounds, or every local write within them repeats what the snapshot says.
   */
  lemma ScanShowsAllIff(r: Run<Bytes>, local: Run<Bytes>, m: Store, lower: Bound<Bytes>, upper: Bound<Bytes>, t: u64)
    requires Sorted(Less, local) && IsOverlayScan(r, Shown(local, lower, upper), m, lower, upper, t)
    ensures IsOverlayScan(r, local, m, lower, upper, t) <==>
            || !HidesLocal(local, lower, upper)
            || forall e :: e in local && InBounds(e.key, lower, upper) ==> Repeats(e, m, t)
  {
    hide Less, InBounds, Read, Lookup, Sorted;
    UserOrderIsTotal();
    if HidesLocal(local, lower, upper) {
      forall user ensures OverlayRead([], m, user, t) == Read(m, user, t) {
        NothingFound(user);
      }
      forall e | e in local ensures OverlayRead(local, m, e.key, t) == if e.value == [] then None else Some(e.value) {
        LookupFinds(local, e.key);
        assert e == Entry(e.key, e.value);
      }
      forall user
        ensures OverlayRead(local, m, user, t) == Read(m, user, t) || Entry(user, Lookup(local, user).value) in local
      {
        LookupFinds(local, user);
      }
      if IsOverlayScan(r, local, m, lower, upper, t) {
        forall e | e in local && InBounds(e.key, lower, upper) ensures Repeats(e, m, t) {
          SameAnswer(OverlayRead(local, m, e.key, t), Read(m, e.key, t), r, e.key);
        }
      }
    }
  }

  lemma NothingFound(user: Bytes)
    ensures Lookup([], user) == None
  {
  }

  lemma SameAnswer(a: Option<Bytes>, b: Option<Bytes>, r: Run<Bytes>, user: Bytes)
    requires forall v :: Entry(user, v) in r <==> a == Some(v)
    requires forall v :: Entry(user, v) in r <==> b == Some(v)
    ensures a == b
  {
    if a.Some? {
      assert Entry(user, a.value) in r;
    } else if b.Some? {
      assert Entry(user, b.value) in r;
    }
  }

  /** After putting the empty key and another one, a get sees the other write and an unbounded scan shows nothing. */
  lemma EmptyKeyExample(x: Bytes, y: Bytes, t: u64)
    requires y != []
    ensures var local := Inserted(Inserted([], [], x), [1], y);
            && OverlayRead(local, map[], [1], t) == Some(y)
            && Shown(local, Unbounded, Unbounded) == []
            && IsOverlayScan([], Shown(local, Unbounded, Unbounded), map[], Unbounded, Unbounded, t)
  {
    EmptySorted(Less);
    InsertedLookup([], [], x);
    InsertedLookup(Inserted([], [], x), [1], y);
    forall user ensures OverlayRead([], map[], user, t) == None {
      assert Newest(map[], user, t) == None;
    }
  }

  /**
   * `Transaction::get` and a scan of that one key agree, whatever the local writes; but a scan never
   * shows the empty key.
   */
  lemma GetAgreesWithScan(r: Run<Bytes>, local: Run<Bytes>, m: Store, key: Bytes, t: u64)
    requires Storable(m)
    requires IsOverlayScan(r, Shown(local, Included(key), Included(key)), m, Included(key), Included(key), t)
    ensures r == if key == [] then []
                 else match OverlayRead(local, m, key, t) case None => [] case Some(v) => [Entry(key, v)]
  {
    hide Less, AboveLower, BelowUpper, OverlayRead, Sorted, Lookup;
    UserOrderIsTotal();
    OnlyThatKey([], key);
    if key == [] {
      EmptyKeyUnread(local, m, t);
    }
    var shown := Shown(local, Included(key), Included(key));
    var got: Run<Bytes> := match OverlayRead(shown, m, key, t) case None => [] case Some(v) => [Entry(key, v)];
    forall e ensures e in r <==> e in got {
      OnlyThatKey(e.key, key);
      assert e == Entry(e.key, e.value);
    }
    ShortIsSorted(got);
    SortedUnique(Less, r, got);
  }

  /** The engine stores no empty key. */
  lemma EmptyKeyUnread(local: Run<Bytes>, m: Store, t: u64)
    requires Storable(m)
    ensures Read(m, [], t) == None && OverlayRead([], m, [], t) == None
    ensures Lookup(local, []).None? ==> OverlayRead(local, m, [], t) == None
  {
    hide Newest;
    assert forall k :: k in m ==> Blocks.Fits(Entry(k, m[k]));
  }

  // ---------- iterating ----------

  class TxnIterator {
    const iter: TwoMergeIterator<Bytes>

    ghost predicate Consistent()
      reads this, iter
    {
      iter.Valid() && iter.lt == Less && Sorted(Less, iter.Rest())
    }

    ghost predicate Valid()
      reads this, iter
    {
      Consistent() && (iter.Rest() != [] ==> iter.Rest()[0].value != [])
    }

    /** What the iterator has still to yield. */
    function Rest(): Run<Bytes>
      reads this, iter
    {
      NonDeleted(iter.Rest())
    }

    constructor (iter: TwoMergeIterator<Bytes>)
      requires iter.Valid() && iter.lt == Less
      modifies iter
      ensures Valid() && this.iter == iter && Rest() == NonDeleted(old(iter.Rest()))
    {
      this.iter := iter;
      new;
      MergeIsUnion(Less, iter.a, iter.b);
      MoveToNonDelete();
    }

    /** Passes every entry with the current key. */
    method SkipKey()
      requires Consistent()
      modifies iter
      ensures Consistent() && iter.Rest() == Advance(old(iter.Rest()))
    {
      if iter.IsValid() {
        var key := iter.Key();
        ghost var before := iter.Rest();
        OnlyOneEntry(before);
        while iter.IsValid() && iter.Key() == key
          invariant Consistent() && (iter.Rest() == before || iter.Rest() == Advance(before))
          decreases |iter.Rest()|
        {
          iter.Next();
        }
      }
    }

    method MoveToNonDelete()
      requires Consistent()
      modifies iter
      ensures Valid() && NonDeleted(iter.Rest()) == NonDeleted(old(iter.Rest()))
    {
      while iter.IsValid() && iter.Value() == []
        invariant Consistent() && NonDeleted(iter.Rest()) == NonDeleted(old(iter.Rest()))
        decreases |iter.Rest()|
      {
        SkipKey();
      }
    }

    predicate IsValid()
      reads this, iter
      requires Valid()
      ensures IsValid() <==> Rest() != []
    {
      iter.IsValid()
    }

    function Head(): (e: Entry<Bytes>)
      reads this, iter
      requires Valid() && IsValid()
      ensures e == Rest()[0]
    {
      Entry(iter.Key(), iter.Value())
    }

    method Next()
      requires Valid()
      modifies iter
      ensures Valid() && Rest() == Advance(old(Rest()))
    {
      SkipKey();
      MoveToNonDelete();
    }
  }

  lemma OnlyOneEntry(r: Run<Bytes>)
    requires Sorted(Less, r) && r != []
    ensures Sorted(Less, r[1..]) && (|r| > 1 ==> r[1].key != r[0].key)
  {
    UserOrderIsTotal();
    if |r| > 1 {
      assert Less(r[0].key, r[1].key);
    }
  }

  // ---------- the transaction ----------

  class Transaction {
    const readTs: u64
    const inner: LsmStorageInner
    var localStorage: Run<Bytes>

    ghost predicate Valid()
      reads this
    {
      Sorted(Less, localStorage)
    }

    constructor (inner: LsmStorageInner, readTs: u64)
      ensures Valid() && this.inner == inner && this.readTs == readTs && localStorage == []
    {
      this.inner, this.readTs, localStorage := inner, readTs, [];
    }

    method Put(key: Bytes, value: Bytes)
      requires Valid()
      modifies this
      ensures Valid()
      ensures forall user ::
                Lookup(localStorage, user) == if user == key then Some(value) else Lookup(old(localStorage), user)
    {
      localStorage := Inserted(localStorage, key, value);
      InsertedLookup(old(localStorage), key, value);
    }

    method Delete(key: Bytes)
      requires Valid()
      modifies this
      ensures Valid()
      ensures forall user ::
                Lookup(localStorage, user) == if user == key then Some([]) else Lookup(old(localStorage), user)
    {
      localStorage := Inserted(localStorage, key, []);
      InsertedLookup(old(localStorage), key, []);
    }

    /** Own writes first, then the snapshot. */
    method Get(key: Bytes) returns (r: Option<Bytes>)
      requires Valid() && inner.Valid()
      ensures r == OverlayRead(localStorage, inner.contents, key, readTs)
    {
      var entry := Lookup(localStorage, key);
      if entry.Some? {
        if entry.value == [] {
          return None;
        }
        return Some(entry.value);
      }
      r := inner.GetWithTs(key, readTs);
    }

    /**
     * Draining the iterator gives the snapshot with the shown local writes laid over it, within the
     * bounds. There is none exactly when scanning the snapshot panics.
     */
    method Scan(lower: Bound<Bytes>, upper: Bound<Bytes>) returns (r: Option<TxnIterator>)
      requires Valid() && inner.Valid()
      ensures r.None? <==> MeetsEmpty(inner.View(), lower, upper)
      ensures r.Some? ==> fresh(r.value) && fresh(r.value.iter) && r.value.Valid()
      ensures r.Some? ==>
                IsOverlayScan(r.value.Rest(), Shown(localStorage, lower, upper), inner.contents, lower, upper, readTs)
    {
      assert Sorted(Less, localStorage);
      hide *;
      var lsmIter := inner.ScanWithTs(lower, upper, readTs);
      if lsmIter.None? {
        return None;
      }
      lsmIter.value.RestSorted();
      var iter := OverLocal(localStorage, lsmIter.value.Rest(), lower, upper);
      MergedIsOverlay(localStorage, lsmIter.value.Rest(), inner.contents, lower, upper, readTs);
      return Some(iter);
    }

    /** The local writes within the bounds, as far as their iterator yields them, merged before the snapshot. */
    static method OverLocal(local: Run<Bytes>, snapshot: Run<Bytes>, lower: Bound<Bytes>, upper: Bound<Bytes>)
      returns (r: TxnIterator)
      requires Sorted(Less, local) && Sorted(Less, snapshot)
      ensures fresh(r) && fresh(r.iter) && r.Valid()
      ensures r.Rest() == NonDeleted(Merge(Less, LocalYielded(LocalRange(local, lower, upper)), snapshot))
    {
      hide Less, LocalYielded, LocalRange, Sorted;
      UserOrderIsTotal();
      YieldedIsShown(local, lower, upper);
      LocalRangeMembers(Shown(local, lower, upper), lower, upper);
      var merged := new TwoMergeIterator(Less, LocalYielded(LocalRange(local, lower, upper)), snapshot);
      r := new TxnIterator(merged);
    }
  }

  /** `SkipMap::insert`. */
  function Inserted(local: Run<Bytes>, key: Bytes, value: Bytes): Run<Bytes> {
    Merge(Less, [Entry(key, value)], local)
  }

  lemma InsertedLookup(local: Run<Bytes>, key: Bytes, value: Bytes)
    requires Sorted(Less, local)
    ensures Sorted(Less, Inserted(local, key, value))
    ensures forall user ::
              Lookup(Inserted(local, key, value), user) == if user == key then Some(value) else Lookup(local, user)
  {
    hide Less, Lookup, Merge;
    UserOrderIsTotal();
    var one := [Entry(key, value)];
    MergeIsUnion(Less, one, local);
    assert KeysOf(one) == {key};
    forall user
      ensures Lookup(Inserted(local, key, value), user) == if user == key then Some(value) else Lookup(local, user)
    {
      LookupFinds(local, user);
      LookupFinds(Inserted(local, key, value), user);
      if user == key {
        assert Entry(key, value) in one;
      } else {
        var a, b := Lookup(Inserted(local, key, value), user), Lookup(local, user);
        if a.Some? {
          assert Entry(user, a.value) in local;
        }
        if b.Some? {
          assert Entry(user, b.value) in local;
        }
      }
    }
  }
}
