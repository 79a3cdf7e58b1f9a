/** src/iterators/merge_iterator.rs: the heap-based merge of any number of iterators. */
module KWayMerge {
  import opened Bytes
  import opened Common
  import opened Runs
  import opened TwoMerge

  datatype HeapWrapper<K> = HeapWrapper(index: nat, iter: Run<K>)

  /** No other element of the heap comes before `w`: smaller key first, then smaller index. */
  ghost predicate Least<K>(lt: (K, K) -> bool, heap: seq<Run<K>>, w: HeapWrapper<K>) {
    && w.index < |heap| && w.iter != []
    && forall j :: 0 <= j < |heap| && j != w.index && heap[j] != [] ==>
         lt(w.iter[0].key, heap[j][0].key) || (w.iter[0].key == heap[j][0].key && w.index < j)
  }

  function TotalLength<K>(heap: seq<Run<K>>): nat {
    if heap == [] then 0 else |heap[0]| + TotalLength(heap[1..])
  }

  lemma {:induction false} TotalLengthUpdate<K>(heap: seq<Run<K>>, i: nat, r: Run<K>)
    requires i < |heap|
    ensures TotalLength(heap[i := r]) == TotalLength(heap) - |heap[i]| + |r|
  {
    if i == 0 {
      assert heap[0 := r][1..] == heap[1..];
    } else {
      TotalLengthUpdate(heap[1..], i - 1, r);
      assert heap[i := r][1..] == heap[1..][i - 1 := r];
    }
  }

  // ---------- removing one key from the front of every run ----------

  function DropKey<K(==)>(k: K, r: Run<K>): Run<K> {
    if r != [] && r[0].key == k then r[1..] else r
  }

  function DropKeyAll<K(==)>(k: K, runs: seq<Run<K>>): seq<Run<K>> {
    seq(|runs|, i requires 0 <= i < |runs| => DropKey(k, runs[i]))
  }

  ghost predicate HeadsFrom<K>(lt: (K, K) -> bool, k: K, runs: seq<Run<K>>) {
    forall i :: 0 <= i < |runs| && runs[i] != [] ==> !lt(runs[i][0].key, k)
  }

  /** When no head is below `k`, dropping `k` commutes with the k-way merge. */
  lemma {:induction false} MergeAllDropKey<K(!new)>(lt: (K, K) -> bool, k: K, runs: seq<Run<K>>)
    requires TotalOrder(lt) && AllSorted(lt, runs) && HeadsFrom(lt, k, runs)
    ensures MergeAll(lt, DropKeyAll(k, runs)) == DropKey(k, MergeAll(lt, runs))
    ensures MergeAll(lt, runs) != [] ==> !lt(MergeAll(lt, runs)[0].key, k)
    ensures (exists i :: 0 <= i < |runs| && runs[i] != [] && runs[i][0].key == k) ==>
              MergeAll(lt, runs) != [] && MergeAll(lt, runs)[0].key == k
  {
    if runs != [] {
      var rest := runs[1..];
      forall i | 0 <= i < |rest| ensures rest[i] == runs[i + 1] {}
      MergeAllDropKey(lt, k, rest);
      assert DropKeyAll(k, runs)[1..] == DropKeyAll(k, rest);
      if i :| 0 <= i < |runs| && runs[i] != [] && runs[i][0].key == k {
        if i > 0 { assert rest[i - 1] == runs[i]; }
      }
    }
  }

  lemma AdvanceSlot<K(!new)>(lt: (K, K) -> bool, k: K, heap: seq<Run<K>>, i: nat)
    requires TotalOrder(lt) && AllSorted(lt, heap) && HeadsFrom(lt, k, heap)
    requires i < |heap| && heap[i] != [] && heap[i][0].key == k
    ensures var advanced := heap[i := heap[i][1..]];
            && AllSorted(lt, advanced) && HeadsFrom(lt, k, advanced)
            && DropKeyAll(k, advanced) == DropKeyAll(k, heap)
            && TotalLength(advanced) < TotalLength(heap)
  {
    var advanced := heap[i := heap[i][1..]];
    TotalLengthUpdate(heap, i, heap[i][1..]);
    forall j | 0 <= j < |heap| ensures DropKey(k, advanced[j]) == DropKey(k, heap[j]) {}
  }

  lemma NothingToDrop<K(!new)>(lt: (K, K) -> bool, k: K, heap: seq<Run<K>>, w: HeapWrapper<K>)
    requires TotalOrder(lt) && HeadsFrom(lt, k, heap)
    requires Least(lt, heap, w) && heap[w.index] == w.iter && w.iter[0].key != k
    ensures DropKeyAll(k, heap) == heap
  {
  }

  lemma {:induction false} MergeAllEmpty<K>(lt: (K, K) -> bool, runs: seq<Run<K>>)
    requires forall i :: 0 <= i < |runs| ==> runs[i] == []
    ensures MergeAll(lt, runs) == []
    ensures forall k: K :: DropKeyAll(k, runs) == runs
  {
    if runs != [] {
      MergeAllEmpty(lt, runs[1..]);
    }
    forall k: K ensures DropKeyAll(k, runs) == runs {}
  }

  /** `BinaryHeap::pop`: the element with the smallest key, and among those the smallest index. */
  method PopHeap<K(==,!new)>(lt: (K, K) -> bool, heap: seq<Run<K>>) returns (w: Option<HeapWrapper<K>>)
    requires TotalOrder(lt)
    ensures w.None? <==> forall j :: 0 <= j < |heap| ==> heap[j] == []
    ensures w.Some? ==> Least(lt, heap, w.value) && heap[w.value.index] == w.value.iter
  {
    w := None;
    for i := 0 to |heap|
      invariant w.None? ==> forall j :: 0 <= j < i ==> heap[j] == []
      invariant w.Some? ==> w.value.index < i && w.value.iter == heap[w.value.index] != []
      invariant w.Some? ==> Least(lt, heap[..i], w.value)
    {
      if heap[i] != [] && (w.None? || lt(heap[i][0].key, w.value.iter[0].key)) {
        w := Some(HeapWrapper(i, heap[i]));
      }
    }
    assert heap[..|heap|] == heap;
  }

  /**
   * Heap elements carry distinct indices, so the heap is kept as one slot per index; the empty run
   * marks an index that is not in the heap (only valid iterators are ever pushed).
   */
  class MergeIterator<K(==,!new)> {
    const lt: (K, K) -> bool
    var heap: seq<Run<K>>
    var current: Option<HeapWrapper<K>>

    ghost predicate Valid()
      reads this
    {
      && TotalOrder(lt) && AllSorted(lt, heap)
      && (current.None? ==> forall j :: 0 <= j < |heap| ==> heap[j] == [])
      && (current.Some? ==>
            && Least(lt, heap, current.value) && heap[current.value.index] == []
            && Sorted(lt, current.value.iter))
    }

    /** What the iterator has still to yield. */
    function Rest(): Run<K>
      reads this
      requires current.Some? ==> current.value.index < |heap|
    {
      if current.None? then [] else MergeAll(lt, heap[current.value.index := current.value.iter])
    }

    constructor (lt: (K, K) -> bool, iters: seq<Run<K>>)
      requires TotalOrder(lt) && AllSorted(lt, iters)
      ensures Valid() && this.lt == lt && Rest() == MergeAll(lt, iters)
    {
      this.lt, heap, current := lt, iters, None;
      new;
      current := PopHeap(lt, heap);
      if current.Some? {
        heap := heap[current.value.index := []];
        assert heap[current.value.index := current.value.iter] == iters;
      } else {
        MergeAllEmpty(lt, iters);
      }
    }

    predicate IsValid()
      reads this
      requires Valid()
      ensures IsValid() <==> Rest() != []
    {
      if current.Some? then
        Head();
        true
      else
        false
    }

    /** The current element is the head of the merge. */
    lemma Head()
      requires Valid() && current.Some?
      ensures Rest() != [] && Rest()[0].key == current.value.iter[0].key
      ensures Rest()[0] == current.value.iter[0]
    {
      var cur := current.value;
      var all := heap[cur.index := cur.iter];
      MergeAllDropKey(lt, cur.iter[0].key, all);
      assert all[cur.index] == cur.iter;
      MergeAllIsUnion(lt, all);
      assert Rest()[0] in Rest();
      var i: nat :| Wins(all, i, Rest()[0]);
      var e := Rest()[0];
      assert cur.iter[0] in all[cur.index];
      var p :| 0 <= p < |all[i]| && all[i][p] == e;
      assert i <= cur.index;
      SortedFunctional(lt, cur.iter, e, cur.iter[0]);
    }

    function Key(): (k: K)
      reads this
      requires Valid() && IsValid()
      ensures k == Rest()[0].key
    {
      Head();
      current.value.iter[0].key
    }

    function Value(): (v: Bytes)
      reads this
      requires Valid() && IsValid()
      ensures v == Rest()[0].value
    {
      Head();
      current.value.iter[0].value
    }

    /** Advances every iterator that stands at the previous key, and takes the next least one. */
    method Next()
      requires Valid()
      modifies this
      ensures Valid() && Rest() == Advance(old(Rest()))
    {
      hide MergeAll, DropKeyAll, TotalLength;
      if current.None? {
        return;
      }
      var cur := current.value;
      var prevKey := cur.iter[0].key;
      ghost var all := heap[cur.index := cur.iter];
      ghost var target := DropKeyAll(prevKey, all);
      MergeAllDropKey(lt, prevKey, all);
      assert MergeAll(lt, target) == Advance(old(Rest())) by { assert all[cur.index] == cur.iter; }
      AdvanceSlot(lt, prevKey, all, cur.index);
      assert all[cur.index := cur.iter[1..]] == heap[cur.index := cur.iter[1..]];
      heap, current := heap[cur.index := cur.iter[1..]], None;
      while true
        invariant current.None? && AllSorted(lt, heap) && HeadsFrom(lt, prevKey, heap)
        invariant DropKeyAll(prevKey, heap) == target
        decreases TotalLength(heap)
      {
        var top := PopHeap(lt, heap);
        if top.None? {
          MergeAllEmpty(lt, heap);
          return;
        }
        var w := top.value;
        if w.iter[0].key == prevKey {
          AdvanceSlot(lt, prevKey, heap, w.index);
          heap := heap[w.index := w.iter[1..]];
        } else {
          NothingToDrop(lt, prevKey, heap, w);
          assert heap[w.index := []][w.index := w.iter] == heap;
          heap, current := heap[w.index := []], Some(w);
          return;
        }
      }
    }
  }
}
