/**
 * Runs: the strictly ascending entry sequences that every iterator yields, over any key order.
 * An iterator is identified with the run it has still to yield; its head is the current entry.
 */
module Runs {
  import opened Bytes

  datatype Entry<K> = Entry(key: K, value: Bytes)

  type Run<K> = seq<Entry<K>>

  ghost predicate TotalOrder<K(!new)>(lt: (K, K) -> bool) {
    && (forall a :: !lt(a, a))
    && (forall a, b :: lt(a, b) || a == b || lt(b, a))
    && (forall a, b, c :: lt(a, b) && lt(b, c) ==> lt(a, c))
  }

  ghost predicate Sorted<K>(lt: (K, K) -> bool, r: Run<K>) {
    forall i, j :: 0 <= i < j < |r| ==> lt(r[i].key, r[j].key)
  }

  lemma EmptySorted<K>(lt: (K, K) -> bool)
    ensures Sorted(lt, [])
  {
  }

  ghost function KeysOf<K>(r: Run<K>): set<K> {
    set e | e in r :: e.key
  }

  lemma HeadIsMember<T>(s: seq<T>)
    ensures s == [] || s[0] in s
  {
  }

  /** A sorted run is determined by its set of entries. */
  lemma {:induction false} SortedUnique<K(!new)>(lt: (K, K) -> bool, a: Run<K>, b: Run<K>)
    requires TotalOrder(lt) && Sorted(lt, a) && Sorted(lt, b)
    requires forall e :: e in a <==> e in b
    ensures a == b
  {
    if a == [] {
      HeadIsMember(b);
    } else {
      assert a[0] in a && a[0] in b;
      assert b != [];
      assert b[0] in b && b[0] in a;
      assert a[0] == b[0];
      forall e ensures e in a[1..] <==> e in b[1..] {
        TailMembers(lt, a, e);
        TailMembers(lt, b, e);
      }
      SortedUnique(lt, a[1..], b[1..]);
      assert a == [a[0]] + a[1..] && b == [b[0]] + b[1..];
    }
  }

  lemma TailMembers<K(!new)>(lt: (K, K) -> bool, r: Run<K>, e: Entry<K>)
    requires TotalOrder(lt) && Sorted(lt, r) && r != []
    ensures e in r[1..] <==> e in r && e != r[0]
    ensures e in r[1..] ==> lt(r[0].key, e.key)
  {
    if e in r && e != r[0] {
      var i :| 0 <= i < |r| && r[i] == e;
      assert r[1..][i - 1] == e;
    }
  }

  /** In a sorted run a key has one value. */
  lemma SortedFunctional<K(!new)>(lt: (K, K) -> bool, r: Run<K>, e: Entry<K>, f: Entry<K>)
    requires TotalOrder(lt) && Sorted(lt, r) && e in r && f in r && e.key == f.key
    ensures e == f
  {
    var i :| 0 <= i < |r| && r[i] == e;
    var j :| 0 <= j < |r| && r[j] == f;
  }

  /** Concatenation of sorted runs that follow one another. */
  lemma SortedConcat<K(!new)>(lt: (K, K) -> bool, a: Run<K>, b: Run<K>)
    requires TotalOrder(lt) && Sorted(lt, a) && Sorted(lt, b)
    requires forall e, f :: e in a && f in b ==> lt(e.key, f.key)
    ensures Sorted(lt, a + b)
  {
    var s := a + b;
    forall i, j | 0 <= i < j < |s| ensures lt(s[i].key, s[j].key) {
      if i < |a| <= j {
        assert s[i] in a && s[j] in b;
      }
    }
  }

  // ---------- the two-way, left-biased merge ----------

  function Merge<K(==)>(lt: (K, K) -> bool, a: Run<K>, b: Run<K>): Run<K>
    decreases |a| + |b|
  {
    if a == [] then b
    else if b == [] then a
    else if lt(b[0].key, a[0].key) then [b[0]] + Merge(lt, a, b[1..])
    else if a[0].key == b[0].key then [a[0]] + Merge(lt, a[1..], b[1..])
    else [a[0]] + Merge(lt, a[1..], b)
  }

  /** Membership, pointwise in the entry so that it can be used by recursion. */
  lemma {:induction false} MergeMember<K(!new)>(lt: (K, K) -> bool, a: Run<K>, b: Run<K>, e: Entry<K>)
    requires TotalOrder(lt) && Sorted(lt, a) && Sorted(lt, b)
    ensures e in Merge(lt, a, b) <==> e in a || (e in b && e.key !in KeysOf(a))
    decreases |a| + |b|
  {
    if a == [] {
    } else if b == [] {
    } else if lt(b[0].key, a[0].key) {
      MergeMember(lt, a, b[1..], e);
      TailMembers(lt, b, e);
      if b[0].key in KeysOf(a) {
        var f :| f in a && f.key == b[0].key;
        TailMembers(lt, a, f);
      }
    } else {
      var b' := if a[0].key == b[0].key then b[1..] else b;
      MergeMember(lt, a[1..], b', e);
      TailMembers(lt, a, e);
      TailMembers(lt, b, e);
      assert a[0] in a;
      if e in b' {
        assert lt(a[0].key, e.key);
        if e.key in KeysOf(a) {
          var f :| f in a && f.key == e.key;
          TailMembers(lt, a, f);
        }
      }
    }
  }

  /** The merge of two sorted runs is sorted, and is the left-biased union of their entries. */
  lemma {:induction false} MergeIsUnion<K(!new)>(lt: (K, K) -> bool, a: Run<K>, b: Run<K>)
    requires TotalOrder(lt) && Sorted(lt, a) && Sorted(lt, b)
    ensures Sorted(lt, Merge(lt, a, b))
    ensures forall e :: e in Merge(lt, a, b) <==> e in a || (e in b && e.key !in KeysOf(a))
    decreases |a| + |b|
  {
    forall e ensures e in Merge(lt, a, b) <==> e in a || (e in b && e.key !in KeysOf(a)) {
      MergeMember(lt, a, b, e);
    }
    if a != [] && b != [] {
      var m := Merge(lt, a, b);
      var a', b' := a, b;
      if lt(b[0].key, a[0].key) {
        b' := b[1..];
      } else {
        a', b' := a[1..], if a[0].key == b[0].key then b[1..] else b;
      }
      MergeIsUnion(lt, a', b');
      forall f | f in m[1..] ensures lt(m[0].key, f.key) {
        TailMembers(lt, a, f);
        TailMembers(lt, b, f);
      }
      assert m == [m[0]] + m[1..];
      SortedConcat(lt, [m[0]], m[1..]);
    }
  }

  // ---------- the k-way merge: the lowest index wins ----------

  function MergeAll<K(==)>(lt: (K, K) -> bool, runs: seq<Run<K>>): Run<K> {
    if runs == [] then [] else Merge(lt, runs[0], MergeAll(lt, runs[1..]))
  }

  ghost predicate AllSorted<K>(lt: (K, K) -> bool, runs: seq<Run<K>>) {
    forall i :: 0 <= i < |runs| ==> Sorted(lt, runs[i])
  }

  /** `e` is the entry of the lowest-index run that holds its key. */
  ghost predicate Wins<K>(runs: seq<Run<K>>, i: nat, e: Entry<K>) {
    i < |runs| && e in runs[i] && forall j :: 0 <= j < i ==> e.key !in KeysOf(runs[j])
  }

  lemma {:induction false} MergeAllMember<K(!new)>(lt: (K, K) -> bool, runs: seq<Run<K>>, e: Entry<K>)
    requires TotalOrder(lt) && AllSorted(lt, runs)
    ensures e in MergeAll(lt, runs) <==> exists i: nat :: Wins(runs, i, e)
  {
    if runs != [] {
      var rest := runs[1..];
      forall i | 0 <= i < |rest| ensures Sorted(lt, rest[i]) { assert rest[i] == runs[i + 1]; }
      MergeAllMember(lt, rest, e);
      MergeAllSorted(lt, rest);
      MergeIsUnion(lt, runs[0], MergeAll(lt, rest));
      if e in runs[0] {
        assert Wins(runs, 0, e);
      } else {
        if e in MergeAll(lt, runs) {
          var i: nat :| Wins(rest, i, e);
          forall j | 0 <= j < i + 1 ensures e.key !in KeysOf(runs[j]) {
            if j > 0 { assert runs[j] == rest[j - 1]; }
          }
          assert Wins(runs, i + 1, e);
        }
        if i: nat :| Wins(runs, i, e) {
          assert i > 0;
          forall j | 0 <= j < i - 1 ensures e.key !in KeysOf(rest[j]) {
            assert rest[j] == runs[j + 1];
          }
          assert Wins(rest, i - 1, e);
          assert e.key !in KeysOf(runs[0]);
        }
      }
    }
  }

  lemma {:induction false} MergeAllSorted<K(!new)>(lt: (K, K) -> bool, runs: seq<Run<K>>)
    requires TotalOrder(lt) && AllSorted(lt, runs)
    ensures Sorted(lt, MergeAll(lt, runs))
  {
    if runs != [] {
      forall i | 0 <= i < |runs[1..]| ensures Sorted(lt, runs[1..][i]) { assert runs[1..][i] == runs[i + 1]; }
      MergeAllSorted(lt, runs[1..]);
      MergeIsUnion(lt, runs[0], MergeAll(lt, runs[1..]));
    }
  }

  /** The merge of sorted runs is the strictly ascending union, lowest index winning. */
  lemma MergeAllIsUnion<K(!new)>(lt: (K, K) -> bool, runs: seq<Run<K>>)
    requires TotalOrder(lt) && AllSorted(lt, runs)
    ensures Sorted(lt, MergeAll(lt, runs))
    ensures forall e :: e in MergeAll(lt, runs) <==> exists i: nat :: Wins(runs, i, e)
  {
    forall e ensures e in MergeAll(lt, runs) <==> exists i: nat :: Wins(runs, i, e) {
      MergeAllMember(lt, runs, e);
    }
    MergeAllSorted(lt, runs);
  }

  lemma MergeAssociative<K(!new)>(lt: (K, K) -> bool, a: Run<K>, b: Run<K>, c: Run<K>)
    requires TotalOrder(lt) && Sorted(lt, a) && Sorted(lt, b) && Sorted(lt, c)
    ensures Merge(lt, Merge(lt, a, b), c) == Merge(lt, a, Merge(lt, b, c))
  {
    hide Merge, Sorted;
    var ab, bc := Merge(lt, a, b), Merge(lt, b, c);
    MergeIsUnion(lt, a, b);
    MergeIsUnion(lt, b, c);
    MergeIsUnion(lt, ab, c);
    MergeIsUnion(lt, a, bc);
    assert KeysOf(ab) == KeysOf(a) + KeysOf(b) by {
      forall k | k in KeysOf(b) && k !in KeysOf(a) ensures k in KeysOf(ab) {
        var e :| e in b && e.key == k;
        assert e in ab;
      }
    }
    SortedUnique(lt, Merge(lt, ab, c), Merge(lt, a, bc));
  }

  /** However merging iterators are nested, as long as the order of the inputs is kept, they yield one merge of all. */
  lemma {:induction false} MergeAllConcat<K(!new)>(lt: (K, K) -> bool, a: seq<Run<K>>, b: seq<Run<K>>)
    requires TotalOrder(lt) && AllSorted(lt, a) && AllSorted(lt, b)
    ensures Merge(lt, MergeAll(lt, a), MergeAll(lt, b)) == MergeAll(lt, a + b)
  {
    hide Merge, Sorted, TotalOrder;
    if a == [] {
      assert a + b == b;
      MergeNothing(lt, MergeAll(lt, b));
    } else {
      var rest := a[1..];
      assert AllSorted(lt, rest) by {
        forall i | 0 <= i < |rest| ensures Sorted(lt, rest[i]) { assert rest[i] == a[i + 1]; }
      }
      assert (a + b)[0] == a[0] && (a + b)[1..] == rest + b;
      MergeAllConcat(lt, rest, b);
      MergeAllSorted(lt, rest);
      MergeAllSorted(lt, b);
      MergeAssociative(lt, a[0], MergeAll(lt, rest), MergeAll(lt, b));
    }
  }

  lemma MergeNothing<K>(lt: (K, K) -> bool, r: Run<K>)
    ensures Merge(lt, [], r) == r
  {
  }

  // ---------- positions ----------

  function Flatten<K>(runs: seq<Run<K>>): Run<K> {
    if runs == [] then [] else runs[0] + Flatten(runs[1..])
  }

  lemma {:induction false} FlattenConcat<K>(a: seq<Run<K>>, b: seq<Run<K>>)
    ensures Flatten(a + b) == Flatten(a) + Flatten(b)
  {
    hide Flatten;
    if a == [] {
      FlattenCons([], b);
      assert a + b == b;
    } else {
      var tail := a[1..] + b;
      FlattenConcat(a[1..], b);
      assert a + b == [a[0]] + tail;
      FlattenCons(a[0], tail);
      FlattenCons(a[0], a[1..]);
      assert a == [a[0]] + a[1..];
    }
  }

  lemma FlattenCons<K>(r: Run<K>, runs: seq<Run<K>>)
    ensures Flatten([r] + runs) == r + Flatten(runs)
    ensures Flatten<K>([]) == []
  {
    assert ([r] + runs)[1..] == runs;
  }

  lemma {:induction false} FlattenMember<K(!new)>(runs: seq<Run<K>>, e: Entry<K>)
    ensures e in Flatten(runs) <==> exists i :: 0 <= i < |runs| && e in runs[i]
  {
    if runs != [] {
      FlattenMember(runs[1..], e);
      if i :| 0 <= i < |runs[1..]| && e in runs[1..][i] {
        assert e in runs[i + 1];
      }
      if i :| 0 <= i < |runs| && e in runs[i] {
        if i > 0 { assert runs[1..][i - 1] == runs[i]; }
      }
    }
  }

  /** A linear search for the first entry whose key is not below `k`: what every seek must find. */
  function LowerBound<K>(lt: (K, K) -> bool, r: Run<K>, k: K): Run<K> {
    if r != [] && lt(r[0].key, k) then LowerBound(lt, r[1..], k) else r
  }

  /** Any split into smaller and not-smaller entries is the lower bound. */
  lemma {:induction false} LowerBoundAt<K(!new)>(lt: (K, K) -> bool, r: Run<K>, k: K, n: nat)
    requires n <= |r|
    requires forall i :: 0 <= i < n ==> lt(r[i].key, k)
    requires n < |r| ==> !lt(r[n].key, k)
    ensures LowerBound(lt, r, k) == r[n..]
    decreases n
  {
    if n > 0 {
      assert r[1..][n - 1..] == r[n..];
      LowerBoundAt(lt, r[1..], k, n - 1);
    }
  }

  lemma {:induction false} LowerBoundSuffix<K(!new)>(lt: (K, K) -> bool, r: Run<K>, k: K) returns (n: nat)
    ensures n <= |r| && LowerBound(lt, r, k) == r[n..]
    ensures forall i :: 0 <= i < n ==> lt(r[i].key, k)
    ensures n < |r| ==> !lt(r[n].key, k)
  {
    if r != [] && lt(r[0].key, k) {
      var m := LowerBoundSuffix(lt, r[1..], k);
      n := m + 1;
      forall i | 0 <= i < n ensures lt(r[i].key, k) {
        if i > 0 { assert r[i] == r[1..][i - 1]; }
      }
    } else {
      n := 0;
    }
  }

  /** The lower bound of a sorted run holds exactly its entries at or above the key. */
  lemma LowerBoundMembers<K(!new)>(lt: (K, K) -> bool, r: Run<K>, k: K)
    requires TotalOrder(lt) && Sorted(lt, r)
    ensures Sorted(lt, LowerBound(lt, r, k))
    ensures forall e :: e in LowerBound(lt, r, k) <==> e in r && !lt(e.key, k)
  {
    var n := LowerBoundSuffix(lt, r, k);
    forall e ensures e in r[n..] <==> e in r && !lt(e.key, k) {
      if e in r && !lt(e.key, k) {
        var i :| 0 <= i < |r| && r[i] == e;
        assert r[n..][i - n] == e;
      }
    }
  }

  // ---------- consecutive runs: the blocks of a table, the tables of a level ----------

  function Last<K>(r: Run<K>): K
    requires r != []
  {
    r[|r| - 1].key
  }

  /** Non-empty sorted runs, each ending before the next one begins. */
  ghost predicate Ordered<K>(lt: (K, K) -> bool, runs: seq<Run<K>>) {
    && (forall i :: 0 <= i < |runs| ==> runs[i] != [] && Sorted(lt, runs[i]))
    && (forall i :: 0 < i < |runs| ==> lt(Last(runs[i - 1]), runs[i][0].key))
  }

  lemma SortedJoin<K(!new)>(lt: (K, K) -> bool, a: Run<K>, b: Run<K>)
    requires TotalOrder(lt) && Sorted(lt, a) && Sorted(lt, b) && a != [] && b != []
    requires lt(Last(a), b[0].key)
    ensures Sorted(lt, a + b)
  {
    forall e, f | e in a && f in b ensures lt(e.key, f.key) {
      var p :| 0 <= p < |a| && a[p] == e;
      var q :| 0 <= q < |b| && b[q] == f;
      assert p == |a| - 1 || lt(e.key, Last(a));
      assert q == 0 || lt(b[0].key, f.key);
    }
    SortedConcat(lt, a, b);
  }

  lemma {:induction false} OrderedFlatten<K(!new)>(lt: (K, K) -> bool, runs: seq<Run<K>>)
    requires TotalOrder(lt) && Ordered(lt, runs)
    ensures Sorted(lt, Flatten(runs))
    ensures runs != [] ==> Flatten(runs) != [] && Flatten(runs)[0] == runs[0][0]
    ensures runs != [] ==> Last(Flatten(runs)) == Last(runs[|runs| - 1])
  {
    if runs != [] {
      var rest := runs[1..];
      forall i | 0 <= i < |rest| ensures rest[i] == runs[i + 1] {}
      OrderedFlatten(lt, rest);
      if rest != [] {
        SortedJoin(lt, runs[0], Flatten(rest));
      } else {
        assert Flatten(runs) == runs[0];
      }
    }
  }

  lemma {:induction false} SortedFlattenOrdered<K(!new)>(lt: (K, K) -> bool, runs: seq<Run<K>>)
    requires forall i :: 0 <= i < |runs| ==> runs[i] != []
    requires Sorted(lt, Flatten(runs))
    ensures Ordered(lt, runs)
  {
    if runs != [] {
      var all, rest := Flatten(runs), Flatten(runs[1..]);
      assert forall i :: 0 <= i < |runs[0]| ==> all[i] == runs[0][i];
      assert forall i :: 0 <= i < |rest| ==> all[|runs[0]| + i] == rest[i];
      SortedFlattenOrdered(lt, runs[1..]);
      if |runs| > 1 {
        assert rest == runs[1..][0] + Flatten(runs[1..][1..]);
        assert rest[0] == runs[1][0];
        assert lt(all[|runs[0]| - 1].key, all[|runs[0]|].key);
      }
      forall i | 0 < i < |runs| ensures lt(Last(runs[i - 1]), runs[i][0].key) {
        if i > 1 {
          assert runs[1..][i - 2] == runs[i - 1] && runs[1..][i - 1] == runs[i];
        }
      }
      forall i | 0 <= i < |runs| ensures Sorted(lt, runs[i]) {
        if i > 0 { assert runs[1..][i - 1] == runs[i]; }
      }
    }
  }

  lemma OrderedSplit<K(!new)>(lt: (K, K) -> bool, runs: seq<Run<K>>, n: nat)
    requires TotalOrder(lt) && Ordered(lt, runs) && n <= |runs|
    ensures Ordered(lt, runs[..n]) && Ordered(lt, runs[n..])
  {
    hide TotalOrder, Sorted;
    forall i | 0 <= i < |runs[n..]| ensures runs[n..][i] == runs[n + i] {}
    forall i | 0 <= i < n ensures runs[..n][i] == runs[i] {}
  }

  lemma FlattenAt<K>(runs: seq<Run<K>>, i: nat)
    requires i < |runs|
    ensures Flatten(runs) == Flatten(runs[..i]) + (runs[i] + Flatten(runs[i + 1..]))
  {
    assert runs == runs[..i] + runs[i..];
    FlattenConcat(runs[..i], runs[i..]);
    assert runs[i..][1..] == runs[i + 1..];
  }

  /** `slice::partition_point(|first| first <= key)`: how many leading first keys are not above `key`. */
  function PartitionPoint<K>(lt: (K, K) -> bool, firsts: seq<K>, key: K): (n: nat)
    ensures n <= |firsts|
    ensures forall i :: 0 <= i < n ==> !lt(key, firsts[i])
    ensures n < |firsts| ==> lt(key, firsts[n])
  {
    if firsts != [] && !lt(key, firsts[0]) then
      var m := PartitionPoint(lt, firsts[1..], key);
      assert forall i :: 0 < i < m + 1 ==> firsts[i] == firsts[1..][i - 1];
      m + 1
    else
      0
  }

  function Firsts<K>(runs: seq<Run<K>>): (s: seq<K>)
    requires forall i :: 0 <= i < |runs| ==> runs[i] != []
    ensures |s| == |runs| && forall i :: 0 <= i < |s| ==> s[i] == runs[i][0].key
  {
    seq(|runs|, i requires 0 <= i < |runs| => runs[i][0].key)
  }

  /** `partition_point(..).saturating_sub(1)`: the run that may contain `key`. */
  function FindIdx<K>(lt: (K, K) -> bool, runs: seq<Run<K>>, key: K): nat
    requires forall i :: 0 <= i < |runs| ==> runs[i] != []
  {
    var n := PartitionPoint(lt, Firsts(runs), key);
    if n == 0 then 0 else n - 1
  }

  lemma {:induction false} LowerBoundSkip<K>(lt: (K, K) -> bool, a: Run<K>, b: Run<K>, k: K)
    requires forall e :: e in a ==> lt(e.key, k)
    ensures LowerBound(lt, a + b, k) == LowerBound(lt, b, k)
  {
    if a == [] {
      assert a + b == b;
    } else {
      assert (a + b)[1..] == a[1..] + b;
      LowerBoundSkip(lt, a[1..], b, k);
    }
  }

  lemma {:induction false} LowerBoundKeep<K>(lt: (K, K) -> bool, a: Run<K>, b: Run<K>, k: K)
    requires b != [] ==> !lt(b[0].key, k)
    ensures LowerBound(lt, a + b, k) == LowerBound(lt, a, k) + b
  {
    if a == [] {
      assert a + b == b;
    } else if lt(a[0].key, k) {
      assert (a + b)[1..] == a[1..] + b;
      LowerBoundKeep(lt, a[1..], b, k);
    }
  }

  lemma FindIdxPlace<K(!new)>(lt: (K, K) -> bool, runs: seq<Run<K>>, key: K)
    requires TotalOrder(lt) && Ordered(lt, runs) && runs != []
    ensures var i := FindIdx(lt, runs, key);
            && i < |runs|
            && (i > 0 ==> !lt(key, runs[i][0].key))
            && (i + 1 < |runs| ==> lt(key, runs[i + 1][0].key))
  {
    if 1 < |runs| && PartitionPoint(lt, Firsts(runs), key) == 0 {
      assert lt(key, Firsts(runs)[0]);
      assert |runs[0]| == 1 || lt(runs[0][0].key, Last(runs[0]));
      assert lt(Last(runs[0]), runs[1][0].key);
    }
  }

  lemma LaterRunsNotBelow<K(!new)>(lt: (K, K) -> bool, runs: seq<Run<K>>, i: nat, key: K)
    requires TotalOrder(lt) && Ordered(lt, runs) && i <= |runs| && (i < |runs| ==> lt(key, runs[i][0].key))
    ensures Flatten(runs[i..]) != [] ==> !lt(Flatten(runs[i..])[0].key, key)
  {
    OrderedSplit(lt, runs, i);
    OrderedFlatten(lt, runs[i..]);
  }

  lemma EarlierRunsBelow<K(!new)>(lt: (K, K) -> bool, runs: seq<Run<K>>, i: nat, key: K, e: Entry<K>)
    requires TotalOrder(lt) && Ordered(lt, runs) && i < |runs| && e in Flatten(runs[..i])
    requires i > 0 ==> !lt(key, runs[i][0].key)
    ensures lt(e.key, key)
  {
    OrderedSplit(lt, runs, i);
    OrderedFlatten(lt, runs[..i]);
    var before := Flatten(runs[..i]);
    var p :| 0 <= p < |before| && before[p] == e;
    assert runs[..i][i - 1] == runs[i - 1];
    assert p == |before| - 1 || lt(e.key, Last(before));
  }

  /** Searching one run and falling through to the following ones is a search of the whole. */
  lemma LowerBoundFlatten<K(!new)>(lt: (K, K) -> bool, runs: seq<Run<K>>, key: K)
    requires TotalOrder(lt) && Ordered(lt, runs) && runs != []
    ensures var i := FindIdx(lt, runs, key);
            i < |runs| && LowerBound(lt, Flatten(runs), key) == LowerBound(lt, runs[i], key) + Flatten(runs[i + 1..])
  {
    hide Flatten, LowerBound, FindIdx, Sorted, TotalOrder, Last;
    var i := FindIdx(lt, runs, key);
    FindIdxPlace(lt, runs, key);
    var before, here, after := Flatten(runs[..i]), runs[i], Flatten(runs[i + 1..]);
    FlattenAt(runs, i);
    forall e | e in before ensures lt(e.key, key) {
      EarlierRunsBelow(lt, runs, i, key, e);
    }
    LaterRunsNotBelow(lt, runs, i + 1, key);
    LowerBoundSkip(lt, before, here + after, key);
    LowerBoundKeep(lt, here, after, key);
  }
}
