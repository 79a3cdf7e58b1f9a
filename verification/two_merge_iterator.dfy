/** src/iterators/two_merge_iterator.rs: two iterators merged into one, A preferred on equal keys. */
module TwoMerge {
  import opened Bytes
  import opened Runs

  /** Moving an exhausted iterator leaves it exhausted. */
  function Advance<K>(r: Run<K>): Run<K> {
    if r == [] then [] else r[1..]
  }

  class TwoMergeIterator<K(==,!new)> {
    const lt: (K, K) -> bool
    var a: Run<K>
    var b: Run<K>

    ghost predicate Valid()
      reads this
    {
      TotalOrder(lt) && Sorted(lt, a) && Sorted(lt, b)
    }

    /** What the iterator has still to yield. */
    function Rest(): Run<K>
      reads this
    {
      Merge(lt, a, b)
    }

    constructor (lt: (K, K) -> bool, a: Run<K>, b: Run<K>)
      requires TotalOrder(lt) && Sorted(lt, a) && Sorted(lt, b)
      ensures Valid() && this.lt == lt && Rest() == Merge(lt, a, b)
    {
      this.lt, this.a, this.b := lt, a, b;
    }

    predicate IsValid()
      reads this
      ensures IsValid() <==> Rest() != []
    {
      a != [] || b != []
    }

    predicate AtA()
      reads this
      requires IsValid()
    {
      if b == [] then true
      else if a == [] then false
      else lt(a[0].key, b[0].key) || a[0].key == b[0].key
    }

    function Key(): (k: K)
      reads this
      requires Valid() && IsValid()
      ensures k == Rest()[0].key
    {
      if AtA() then a[0].key else b[0].key
    }

    function Value(): (v: Bytes)
      reads this
      requires Valid() && IsValid()
      ensures v == Rest()[0].value
    {
      if AtA() then a[0].value else b[0].value
    }

    method Next()
      requires Valid()
      modifies this
      ensures Valid() && Rest() == Advance(old(Rest()))
    {
      if b == [] {
        a := Advance(a);
      } else if a == [] {
        b := Advance(b);
      } else if lt(a[0].key, b[0].key) {
        a := a[1..];
      } else if lt(b[0].key, a[0].key) {
        b := b[1..];
      } else {
        a, b := a[1..], b[1..];
      }
    }
  }
}
