/** src/block/iterator.rs: decoding and searching the entries of one block. */
module BlockIter {
  import opened Blocks
  import opened Bytes
  import opened Common
  import opened Keys
  import opened Runs
  import opened TwoMerge

  /** The block holds the entries `es`, and no field of it was truncated. */
  ghost predicate Encodes(b: Block, es: Run<Key>) {
    && es != [] && b == BlockOf(es) && AllFit(es)
    && forall i :: 0 <= i < |es| ==> Start(es, i) <= WIDTH
  }

  lemma BuildableEncodes(blockSize: nat, es: Run<Key>)
    requires blockSize <= WIDTH && Buildable(blockSize, es) && AllFit(es) && es != []
    ensures Encodes(BlockOf(es), es)
  {
    NoTruncation(blockSize, es);
  }

  lemma EncodesAt(b: Block, es: Run<Key>, i: nat)
    requires Encodes(b, es) && i < |es|
    ensures b.data == Data(es) && |b.offsets| == |es| && b.offsets[i] == Start(es, i)
    ensures Fits(es[0]) && Fits(es[i])
  {
    hide Data, Offsets, Start, Fits;
    OffsetAt(es, i);
  }

  lemma StartAt(es: Run<Key>, i: nat)
    requires i <= |es|
    ensures Start(es, i) == |Data(es[..i])|
    ensures i == 0 ==> Data(es[..i]) == []
  {
  }

  /** The bytes at the offset of entry `i` begin with its encoding. */
  lemma EntryBytes(b: Block, es: Run<Key>, i: nat) returns (rest: Bytes)
    requires Encodes(b, es) && i < |es|
    ensures b.offsets[i] <= |b.data| && (i == 0 ==> b.offsets[i] == 0)
    ensures b.data[b.offsets[i]..] == EncodeEntry(BaseKey(es[..i]), es[i]) + rest
  {
    hide *;
    EncodesAt(b, es, i);
    OffsetAt(es, i);
    DataPrefix(es, i);
    StartAt(es, i);
    var before, here, through := Data(es[..i]), EncodeEntry(BaseKey(es[..i]), es[i]), Data(es[..i + 1]);
    rest := b.data[|through|..];
    assert b.data == before + (here + rest);
  }

  /** An entry is compressed against the first key of its block, the first entry not at all. */
  lemma EntryParts(es: Run<Key>, i: nat) returns (overlap: u16, suffix: Bytes)
    requires i < |es| && Fits(es[0]) && Fits(es[i])
    ensures EncodeEntry(BaseKey(es[..i]), es[i]) == EncodeParts(overlap, suffix, es[i].key.ts, es[i].value)
    ensures overlap <= |es[0].key.user| && es[0].key.user[..overlap] + suffix == es[i].key.user
    ensures |suffix| <= WIDTH && |es[i].value| <= WIDTH && (i == 0 ==> overlap == 0)
  {
    hide EncodeParts;
    var base, user := BaseKey(es[..i]), es[i].key.user;
    overlap := ComputeOverlap(base, user);
    suffix := user[overlap..];
    assert es[0].key.user[..overlap] == user[..overlap];
  }

  /** Decoding at the offset of entry `i` gives entry `i`. */
  lemma EntryDecodes(b: Block, es: Run<Key>, i: nat)
    requires Encodes(b, es) && i < |es|
    ensures b.offsets[i] <= |b.data|
    ensures DecodeEntry(es[0].key.user, b.data[b.offsets[i]..]) == Some(es[i])
    ensures i == 0 ==> b.offsets[i] == 0 && 2 <= |b.data| && GetU16(b.data) == 0
  {
    hide *;
    EncodesAt(b, es, i);
    var rest := EntryBytes(b, es, i);
    var overlap, suffix := EntryParts(es, i);
    DecodeParts(es[0].key.user, overlap, suffix, es[i].key.ts, es[i].value, rest);
    PartsRead(overlap, suffix, es[i].key.ts, es[i].value, rest);
    DropDrop(b.data, 0, 0);
    assert i == 0 ==> b.data[0..] == b.data;
  }

  /** `Block::get_first_key`. */
  lemma FirstKeyFields(b: Block, es: Run<Key>)
    requires es != [] && Encodes(b, es)
    ensures 4 <= |b.data|
    ensures var n: nat := GetU16(b.data[2..]);
            4 + n + 8 <= |b.data| && es[0].key == Key(b.data[4..4 + n], GetU64(b.data[4 + n..]))
  {
    hide GetU16, GetU64, Encodes;
    EntryDecodes(b, es, 0);
    assert b.data[0..] == b.data;
  }

  class BlockIterator {
    const block: Block
    var key: Key
    var valueRange: (nat, nat)
    var idx: nat
    var firstKey: Key
    ghost const es: Run<Key>

    ghost predicate Consistent()
      reads this
    {
      Encodes(block, es) && firstKey == es[0].key && (key.user != [] ==> AtEntry(idx))
    }

    ghost predicate AtEntry(i: nat)
      reads this
      requires es != []
    {
      && i < |es| && key == es[i].key
      && valueRange.0 <= valueRange.1 <= |block.data| && block.data[valueRange.0..valueRange.1] == es[i].value
    }

    /** An invalid iterator stands at or behind the last entry, so that moving it keeps it invalid. */
    ghost predicate Valid()
      reads this
    {
      Consistent() && (key.user == [] ==> idx + 1 >= |es|)
    }

    /** What the iterator has still to yield. */
    ghost function Rest(): Run<Key>
      reads this
      requires Consistent()
    {
      if key.user == [] then [] else es[idx..]
    }

    /** `BlockIterator::new`: the first key is read from the block itself. */
    constructor (block: Block, ghost es: Run<Key>)
      requires es != [] && Encodes(block, es)
      ensures Encodes(this.block, this.es) && firstKey == this.es[0].key
      ensures this.block == block && this.es == es && key.user == []
    {
      hide *;
      FirstKeyFields(block, es);
      this.block, this.es := block, es;
      key, valueRange, idx := Key([], 0), (0, 0), 0;
      var keyLen: nat := GetU16(block.data[2..]);
      firstKey := Key(block.data[4..4 + keyLen], GetU64(block.data[4 + keyLen..]));
    }

    predicate IsValid()
      reads this
      requires Valid()
      ensures IsValid() <==> Rest() != []
    {
      key.user != []
    }

    function Head(): (e: Entry<Key>)
      reads this
      requires Valid() && IsValid()
      ensures e == Rest()[0]
    {
      Entry(key, block.data[valueRange.0..valueRange.1])
    }

    method SeekToFirst()
      requires Consistent()
      modifies this
      ensures Valid() && Rest() == es
    {
      SeekTo(0);
    }

    method Next()
      requires Valid()
      modifies this
      ensures Valid() && Rest() == Advance(old(Rest()))
    {
      idx := idx + 1;
      key := key.(user := []);
      SeekTo(idx);
    }

    method SeekTo(i: nat)
      requires Consistent()
      modifies this
      ensures Consistent()
      ensures i < |es| ==> idx == i && key.user != [] && Rest() == es[i..]
      ensures i >= |es| ==> idx == old(idx) && key.user == [] && Rest() == []
    {
      if i >= |block.offsets| {
        key := key.(user := []);
        valueRange := (0, 0);
        return;
      }
      SeekToOffset(block.offsets[i], i);
      idx := i;
      assert Fits(es[i]);
    }

    method SeekToOffset(offset: nat, ghost i: nat)
      requires Encodes(block, es) && firstKey == es[0].key && i < |es| && offset == block.offsets[i]
      modifies this`key, this`valueRange
      ensures key == es[i].key
      ensures valueRange.0 <= valueRange.1 <= |block.data| && block.data[valueRange.0..valueRange.1] == es[i].value
    {
      hide GetU16, GetU64, Encodes;
      EntryDecodes(block, es, i);
      var entry := block.data[offset..];
      ghost var all := entry;
      var overlapLen := GetU16(entry);
      entry := entry[2..];
      var keySuffixLen: nat := GetU16(entry);
      DropDrop(all, 2, 2);
      entry := entry[2..];
      SliceOfDrop(all, 4, 0, keySuffixLen);
      var keySuffix := entry[..keySuffixLen];
      DropDrop(all, 4, keySuffixLen);
      entry := entry[keySuffixLen..];
      key := Key(firstKey.user[..overlapLen] + keySuffix, GetU64(entry));
      DropDrop(all, 4 + keySuffixLen, 8);
      entry := entry[8..];
      var valueLen: nat := GetU16(entry);
      SliceOfDrop(block.data, offset, 14 + keySuffixLen, 14 + keySuffixLen + valueLen);
      var valueOffsetBegin: nat := offset + 2 + 2 + keySuffixLen + 8 + 2;
      valueRange := (valueOffsetBegin, valueOffsetBegin + valueLen);
    }

    /** Binary search; it ends at the first entry that is not below the key. */
    method SeekToKey(target: Key)
      requires Consistent() && Sorted(KeyLess, es)
      modifies this
      ensures Valid() && Rest() == LowerBound(KeyLess, es, target)
    {
      hide Less, Encodes;
      KeyOrderIsTotal();
      var start: nat, end: nat := 0, |block.offsets|;
      assert end == |es| > 0 by { CountOf(block, es); }
      while start < end
        invariant Consistent() && start <= end <= |es|
        invariant forall i :: 0 <= i < start ==> KeyLess(es[i].key, target)
        invariant end < |es| ==> KeyLess(target, es[end].key)
        invariant start == |es| ==> idx + 1 == |es|
      {
        var mid := (start + end) / 2;
        SeekTo(mid);
        if KeyLess(key, target) {
          start := mid + 1;
        } else if KeyLess(target, key) {
          end := mid;
        } else {
          assert es[mid].key == target;
          LowerBoundAt(KeyLess, es, target, mid);
          return;
        }
      }
      LowerBoundAt(KeyLess, es, target, start);
      SeekTo(start);
    }

    static lemma CountOf(block: Block, es: Run<Key>)
      requires Encodes(block, es)
      ensures |block.offsets| == |es| > 0
    {
    }
  }

  /**
   * Building, encoding, decoding and iterating give back the added entries: for block sizes below
   * 2^16 and keys and values of at most 65535 bytes nothing is lost or truncated, and a block of two
   * or more entries takes at most block size + 6 bytes.
   */
  lemma BlockRoundTrip(crc: Bytes -> u32, blockSize: nat, es: Run<Key>, d: Block)
    requires blockSize <= WIDTH && Buildable(blockSize, es) && AllFit(es) && es != []
    ensures Decodable(EncodeBlock(crc, BlockOf(es)))
    ensures IsDecodingOf(d, EncodeBlock(crc, BlockOf(es))) <==> d == BlockOf(es)
    ensures Encodes(BlockOf(es), es)
    ensures 2 <= |es| ==> |EncodeBlock(crc, BlockOf(es))| <= blockSize + 6
  {
    var b, s := BlockOf(es), EncodeBlock(crc, BlockOf(es));
    BuildableEncodes(blockSize, es);
    NoTruncation(blockSize, es);
    DecodeEncodeBlock(crc, b);
    if IsDecodingOf(d, s) {
      DecodingIsUnique(b, d, s);
    }
    GetPutU32(crc(b.data), []);
  }
}
