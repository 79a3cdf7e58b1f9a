/**
 * The meaning of a read. The store is a plain map from versioned key to value; an empty value is a
 * tombstone. A read of a user key at a timestamp sees the newest version that is not too new.
 */
module Mvcc {
  import opened Bytes
  import opened Common
  import opened Keys
  import opened Runs

  type Store = map<Key, Bytes>

  /** The timestamp of the newest version of `user` at or below `t`. */
  function Newest(m: Store, user: Bytes, t: u64): (r: Option<u64>)
    ensures r.Some? ==> r.value <= t && Key(user, r.value) in m
    ensures r.Some? ==> forall x: u64 :: r.value < x <= t ==> Key(user, x) !in m
    ensures r.None? ==> forall x: u64 :: x <= t ==> Key(user, x) !in m
    decreases t
  {
    if Key(user, t) in m then Some(t) else if t == 0 then None else Newest(m, user, t - 1)
  }

  function Read(m: Store, user: Bytes, t: u64): Option<Bytes> {
    match Newest(m, user, t)
    case None => None
    case Some(ts) => if m[Key(user, ts)] == [] then None else Some(m[Key(user, ts)])
  }

  ghost predicate SameVersions(m: Store, n: Store, user: Bytes, t: u64) {
    forall x: u64 :: x <= t ==>
      (Key(user, x) in m <==> Key(user, x) in n) && (Key(user, x) in m ==> m[Key(user, x)] == n[Key(user, x)])
  }

  /** A read depends only on the versions of its own key that are not too new. */
  lemma ReadAgrees(m: Store, n: Store, user: Bytes, t: u64)
    requires SameVersions(m, n, user, t)
    ensures Newest(m, user, t) == Newest(n, user, t)
    ensures Read(m, user, t) == Read(n, user, t)
  {
    var a, b := Newest(m, user, t), Newest(n, user, t);
    if a.Some? {
      assert Key(user, a.value) in n;
    }
    if b.Some? {
      assert Key(user, b.value) in m;
    }
  }

  function MapOf(r: Run<Key>): Store {
    if r == [] then map[] else MapOf(r[1..])[r[0].key := r[0].value]
  }

  lemma {:induction false} MapOfSorted(r: Run<Key>, k: Key, v: Bytes)
    requires TotalOrder(KeyLess) && Sorted(KeyLess, r)
    ensures Entry(k, v) in r <==> k in MapOf(r) && MapOf(r)[k] == v
    decreases r
  {
    if r != [] {
      MapOfSorted(r[1..], k, v);
      TailMembers(KeyLess, r, Entry(k, v));
      if k == r[0].key && Entry(k, v) in r {
        SortedFunctional(KeyLess, r, Entry(k, v), r[0]);
      }
    }
  }

  /** The sorted run `r` holds exactly the versions of `user` that the store `m` holds. */
  ghost predicate Covers(r: Run<Key>, m: Store, user: Bytes) {
    forall x: u64, v :: Entry(Key(user, x), v) in r <==> Key(user, x) in m && m[Key(user, x)] == v
  }

  lemma CoverReads(r: Run<Key>, m: Store, user: Bytes, t: u64)
    requires TotalOrder(KeyLess) && Sorted(KeyLess, r) && Covers(r, m, user)
    ensures Read(MapOf(r), user, t) == Read(m, user, t)
  {
    forall x: u64 | x <= t
      ensures Key(user, x) in MapOf(r) <==> Key(user, x) in m
      ensures Key(user, x) in m ==> MapOf(r)[Key(user, x)] == m[Key(user, x)]
    {
      var k := Key(user, x);
      if k in m {
        MapOfSorted(r, k, m[k]);
      }
      if k in MapOf(r) {
        MapOfSorted(r, k, MapOf(r)[k]);
      }
    }
    ReadAgrees(MapOf(r), m, user, t);
  }

  // ---------- what a snapshot scan yields from the merged versions ----------

  function DropUser(r: Run<Key>, user: Bytes): (s: Run<Key>)
    ensures |s| <= |r|
  {
    if r != [] && r[0].key.user == user then DropUser(r[1..], user) else r
  }

  /** One entry for each user key whose newest visible version is not a tombstone. */
  function VisibleScan(r: Run<Key>, t: u64): Run<Bytes>
    decreases |r|
  {
    if r == [] then []
    else if r[0].key.ts > t then VisibleScan(r[1..], t)
    else
      var rest := VisibleScan(DropUser(r[1..], r[0].key.user), t);
      if r[0].value == [] then rest else [Entry(r[0].key.user, r[0].value)] + rest
  }

  /** In a sorted run the versions of the first user key are a prefix. */
  lemma {:induction false} DropUserMembers(r: Run<Key>, user: Bytes)
    requires TotalOrder(KeyLess) && TotalOrder(Less) && Sorted(KeyLess, r)
    requires forall e :: e in r ==> e.key.user == user || Less(user, e.key.user)
    ensures Sorted(KeyLess, DropUser(r, user))
    ensures forall e :: e in DropUser(r, user) <==> e in r && e.key.user != user
  {
    if r != [] && r[0].key.user == user {
      DropUserMembers(r[1..], user);
    } else {
      forall e | e in r ensures e.key.user != user {
        var i :| 0 <= i < |r| && r[i] == e;
        assert i == 0 || KeyLess(r[0].key, e.key);
      }
    }
  }

  lemma HeadIsFirst(r: Run<Key>)
    requires TotalOrder(KeyLess) && Sorted(KeyLess, r) && r != []
    ensures forall e :: e in r[1..] ==> KeyLess(r[0].key, e.key)
  {
    forall e | e in r[1..] ensures KeyLess(r[0].key, e.key) {
      TailMembers(KeyLess, r, e);
    }
  }

  lemma HeadIsNewest(r: Run<Key>, t: u64)
    requires TotalOrder(KeyLess) && TotalOrder(Less) && Sorted(KeyLess, r) && r != [] && r[0].key.ts <= t
    ensures Newest(MapOf(r), r[0].key.user, t) == Some(r[0].key.ts)
    ensures MapOf(r)[r[0].key] == r[0].value
  {
    var k0, m := r[0].key, MapOf(r);
    forall x: u64 | Key(k0.user, x) in m ensures x <= k0.ts {
      if x != k0.ts {
        MapOfSorted(r, Key(k0.user, x), m[Key(k0.user, x)]);
        TailMembers(KeyLess, r, Entry(Key(k0.user, x), m[Key(k0.user, x)]));
      }
    }
    assert Key(k0.user, k0.ts) in m;
  }

  lemma NoVersionNoRead(r: Run<Key>, user: Bytes, t: u64)
    requires TotalOrder(KeyLess) && Sorted(KeyLess, r)
    requires forall e :: e in r ==> e.key.user != user
    ensures Read(MapOf(r), user, t) == None
  {
    var n := Newest(MapOf(r), user, t);
    if n.Some? {
      MapOfSorted(r, Key(user, n.value), MapOf(r)[Key(user, n.value)]);
    }
  }

  lemma {:induction false} VisibleScanMember(r: Run<Key>, t: u64, user: Bytes, v: Bytes)
    requires TotalOrder(KeyLess) && TotalOrder(Less) && Sorted(KeyLess, r)
    ensures Entry(user, v) in VisibleScan(r, t) <==> Read(MapOf(r), user, t) == Some(v)
    decreases |r|
  {
    if r != [] {
      var k0, m := r[0].key, MapOf(r);
      HeadIsFirst(r);
      if k0.ts > t {
        VisibleScanMember(r[1..], t, user, v);
        ReadAgrees(m, MapOf(r[1..]), user, t);
      } else {
        var rest := DropUser(r[1..], k0.user);
        DropUserMembers(r[1..], k0.user);
        VisibleScanMember(rest, t, user, v);
        if user == k0.user {
          HeadIsNewest(r, t);
          NoVersionNoRead(rest, user, t);
        } else {
          forall x: u64, w ensures Entry(Key(user, x), w) in rest <==> Key(user, x) in m && m[Key(user, x)] == w {
            MapOfSorted(r, Key(user, x), w);
            TailMembers(KeyLess, r, Entry(Key(user, x), w));
          }
          CoverReads(rest, m, user, t);
        }
      }
    }
  }

  lemma {:induction false} VisibleScanSorted(r: Run<Key>, t: u64)
    requires TotalOrder(KeyLess) && TotalOrder(Less) && Sorted(KeyLess, r)
    ensures Sorted(Less, VisibleScan(r, t))
    ensures forall e :: e in VisibleScan(r, t) ==> exists f :: f in r && f.key.user == e.key
    decreases |r|
  {
    if r != [] {
      HeadIsFirst(r);
      if r[0].key.ts > t {
        VisibleScanSorted(r[1..], t);
      } else {
        var rest := DropUser(r[1..], r[0].key.user);
        DropUserMembers(r[1..], r[0].key.user);
        VisibleScanSorted(rest, t);
        forall e | e in VisibleScan(rest, t) ensures Less(r[0].key.user, e.key) {}
        if r[0].value != [] {
          SortedConcat(Less, [Entry(r[0].key.user, r[0].value)], VisibleScan(rest, t));
        }
        assert r[0] in r;
      }
    }
  }

  /** Scanning the merged versions: ascending user keys, once each, with the value a read returns. */
  lemma VisibleScanReads(r: Run<Key>, t: u64)
    requires Sorted(KeyLess, r)
    ensures Sorted(Less, VisibleScan(r, t))
    ensures forall user, v :: Entry(user, v) in VisibleScan(r, t) <==> Read(MapOf(r), user, t) == Some(v)
  {
    KeyOrderIsTotal();
    UserOrderIsTotal();
    VisibleScanSorted(r, t);
    forall user, v ensures Entry(user, v) in VisibleScan(r, t) <==> Read(MapOf(r), user, t) == Some(v) {
      VisibleScanMember(r, t, user, v);
    }
  }
}
