/**
 * src/mem_table.rs: the sorted in-memory table of versions. The skip map is kept as its sorted
 * content; inserting into it is the left-biased merge with one new entry.
 */
module MemTables {
  import opened Bytes
  import opened Common
  import opened Keys
  import opened LsmIter
  import opened Runs

  /** Bounds on user keys widened to every version of the bounding key, or to none of them. */
  function MapBoundLower(bound: Bound<Bytes>): Bound<Key> {
    match bound
    case Included(x) => Included(Key(x, TS_RANGE_BEGIN))
    case Excluded(x) => Excluded(Key(x, TS_RANGE_END))
    case Unbounded => Unbounded
  }

  function MapBoundUpper(bound: Bound<Bytes>): Bound<Key> {
    match bound
    case Included(x) => Included(Key(x, TS_RANGE_END))
    case Excluded(x) => Excluded(Key(x, TS_RANGE_BEGIN))
    case Unbounded => Unbounded
  }

  predicate InRange(k: Key, lower: Bound<Key>, upper: Bound<Key>) {
    && (match lower
        case Included(b) => !KeyLess(k, b)
        case Excluded(b) => KeyLess(b, k)
        case Unbounded => true)
    && (match upper
        case Included(b) => !KeyLess(b, k)
        case Excluded(b) => KeyLess(k, b)
        case Unbounded => true)
  }

  /** `SkipMap::range`. */
  function Range(r: Run<Key>, lower: Bound<Key>, upper: Bound<Key>): Run<Key> {
    if r == [] then []
    else (if InRange(r[0].key, lower, upper) then [r[0]] else []) + Range(r[1..], lower, upper)
  }

  lemma {:induction false} RangeMembers(r: Run<Key>, lower: Bound<Key>, upper: Bound<Key>)
    requires TotalOrder(KeyLess) && Sorted(KeyLess, r)
    ensures Sorted(KeyLess, Range(r, lower, upper))
    ensures forall e :: e in Range(r, lower, upper) <==> e in r && InRange(e.key, lower, upper)
  {
    if r != [] {
      RangeMembers(r[1..], lower, upper);
      forall e | e in r[1..] ensures KeyLess(r[0].key, e.key) {
        TailMembers(KeyLess, r, e);
      }
      SortedConcat(KeyLess, [r[0]], Range(r[1..], lower, upper));
      assert r == [r[0]] + r[1..];
    }
  }

  /** The widened bounds select a version exactly when its user key lies within the original bounds. */
  lemma MapBoundsExact(k: Key, lower: Bound<Bytes>, upper: Bound<Bytes>)
    ensures InRange(k, MapBoundLower(lower), MapBoundUpper(upper)) <==>
            AboveLower(k.user, lower) && BelowUpper(k.user, upper)
  {
    hide Less;
    UserOrderIsTotal();
  }

  /** A memtable scan yields, in order, every version of every user key within the bounds. */
  lemma ScanMembers(r: Run<Key>, lower: Bound<Bytes>, upper: Bound<Bytes>)
    requires Sorted(KeyLess, r)
    ensures Sorted(KeyLess, Range(r, MapBoundLower(lower), MapBoundUpper(upper)))
    ensures forall e :: e in Range(r, MapBoundLower(lower), MapBoundUpper(upper)) <==>
              e in r && AboveLower(e.key.user, lower) && BelowUpper(e.key.user, upper)
  {
    hide KeyLess, InRange, AboveLower, BelowUpper, Range;
    KeyOrderIsTotal();
    RangeMembers(r, MapBoundLower(lower), MapBoundUpper(upper));
    forall e: Entry<Key>
      ensures InRange(e.key, MapBoundLower(lower), MapBoundUpper(upper)) <==>
              AboveLower(e.key.user, lower) && BelowUpper(e.key.user, upper)
    {
      MapBoundsExact(e.key, lower, upper);
    }
  }

  /** `MemTableIterator` takes an empty user key, which would be the first, for the end. */
  function Yielded(r: Run<Key>): Run<Key> {
    if r != [] && r[0].key.user == [] then [] else r
  }

  /** A memtable as a value: what a snapshot of the engine's state shows of it. */
  datatype MemView = MemView(id: nat, entries: Run<Key>, size: nat)

  function PutEntry(v: MemView, k: Key, value: Bytes): MemView {
    v.(entries := Merge(KeyLess, [Entry(k, value)], v.entries), size := v.size + |k.user| + 8 + |value|)
  }

  function PutAll(v: MemView, data: seq<Entry<Key>>): MemView
    decreases |data|
  {
    if data == [] then v else PutAll(PutEntry(v, data[0].key, data[0].value), data[1..])
  }

  class MemTable {
    const id: nat
    var entries: Run<Key>
    var approximateSize: nat

    ghost predicate Valid()
      reads this
    {
      Sorted(KeyLess, entries)
    }

    function View(): MemView
      reads this
    {
      MemView(id, entries, approximateSize)
    }

    constructor (id: nat)
      ensures Valid() && View() == MemView(id, [], 0)
    {
      this.id, entries, approximateSize := id, [], 0;
    }

    method Put(key: Key, value: Bytes)
      requires Valid()
      modifies this
      ensures Valid() && View() == PutEntry(old(View()), key, value)
      ensures forall e :: e in entries <==> e == Entry(key, value) || (e in old(entries) && e.key != key)
      ensures approximateSize == old(approximateSize) + |key.user| + 8 + |value|
    {
      KeyOrderIsTotal();
      MergeIsUnion(KeyLess, [Entry(key, value)], entries);
      assert KeysOf([Entry(key, value)]) == {key};
      entries := Merge(KeyLess, [Entry(key, value)], entries);
      approximateSize := approximateSize + |key.user| + 8 + |value|;
    }

    method PutBatch(data: seq<Entry<Key>>)
      requires Valid()
      modifies this
      ensures Valid() && View() == PutAll(old(View()), data)
    {
      for i := 0 to |data|
        invariant Valid() && PutAll(View(), data[i..]) == PutAll(old(View()), data)
      {
        assert data[i..][1..] == data[i + 1..];
        Put(data[i].key, data[i].value);
      }
    }

    function Scan(lower: Bound<Bytes>, upper: Bound<Bytes>): Run<Key>
      reads this
    {
      Yielded(Range(entries, MapBoundLower(lower), MapBoundUpper(upper)))
    }

    predicate IsEmpty()
      reads this
    {
      entries == []
    }
  }
}
