/**
 * src/iterators/concat_iterator.rs: the tables of one sorted level, opened one at a time.
 * A table stands for its entries; seeking inside one is the business of the table iterator.
 */
module Concat {
  import opened Common
  import opened Runs
  import opened TwoMerge

  class SstConcatIterator<K(==,!new)> {
    const lt: (K, K) -> bool
    var current: Option<Run<K>>
    var nextSstIdx: nat
    const sstables: seq<Run<K>>

    /** Between calls the current table iterator, if any, is valid. */
    ghost predicate Valid()
      reads this
    {
      Consistent() && (current.Some? ==> current.value != [])
    }

    ghost predicate Consistent()
      reads this
    {
      TotalOrder(lt) && nextSstIdx <= |sstables| && (current.None? ==> nextSstIdx == |sstables|)
    }

    /** What the iterator has still to yield. */
    function Rest(): Run<K>
      reads this
      requires nextSstIdx <= |sstables|
    {
      (if current.Some? then current.value else []) + Flatten(sstables[nextSstIdx..])
    }

    constructor SeekToFirst(lt: (K, K) -> bool, sstables: seq<Run<K>>)
      requires TotalOrder(lt) && Ordered(lt, sstables)
      ensures Valid() && this.lt == lt && this.sstables == sstables && Rest() == Flatten(sstables)
    {
      this.lt, this.sstables := lt, sstables;
      if sstables == [] {
        current, nextSstIdx := None, 0;
      } else {
        current, nextSstIdx := Some(sstables[0]), 1;
      }
      new;
      MoveUntilValid();
    }

    /** Partition point over the first keys, a seek in that table, and fall-through, as one lower bound. */
    constructor SeekToKey(lt: (K, K) -> bool, sstables: seq<Run<K>>, key: K)
      requires TotalOrder(lt) && Ordered(lt, sstables)
      ensures Valid() && this.lt == lt && this.sstables == sstables && Rest() == LowerBound(lt, Flatten(sstables), key)
    {
      this.lt, this.sstables := lt, sstables;
      var idx := FindIdx(lt, sstables, key);
      if idx >= |sstables| {
        current, nextSstIdx := None, |sstables|;
      } else {
        current, nextSstIdx := Some(LowerBound(lt, sstables[idx], key)), idx + 1;
      }
      new;
      if sstables != [] {
        LowerBoundFlatten(lt, sstables, key);
      }
      MoveUntilValid();
    }

    method MoveUntilValid()
      requires Consistent() && Ordered(lt, sstables)
      modifies this
      ensures Valid() && Rest() == old(Rest())
    {
      while current.Some? && current.value == []
        invariant Consistent() && Rest() == old(Rest())
        decreases |sstables| - nextSstIdx, current.Some?
      {
        if nextSstIdx >= |sstables| {
          current := None;
        } else {
          current := Some(sstables[nextSstIdx]);
          nextSstIdx := nextSstIdx + 1;
        }
      }
    }

    predicate IsValid()
      reads this
      requires Valid()
      ensures IsValid() <==> Rest() != []
    {
      current.Some?
    }

    function Head(): (e: Entry<K>)
      reads this
      requires Valid() && IsValid()
      ensures e == Rest()[0]
    {
      current.value[0]
    }

    method Next()
      requires Valid() && Ordered(lt, sstables)
      modifies this
      ensures Valid() && Rest() == Advance(old(Rest()))
    {
      if current.None? {
        return;
      }
      current := Some(current.value[1..]);
      MoveUntilValid();
    }
  }
}
