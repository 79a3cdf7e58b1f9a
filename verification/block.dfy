/** src/block.rs and src/block/builder.rs: prefix-compressed blocks, in big-endian integers. */
module Blocks {
  import opened Bytes
  import opened Common
  import opened Keys
  import opened Runs

  datatype Block = Block(data: Bytes, offsets: seq<u16>)

  const WIDTH: nat := 0xFFFF

  lemma FitsU16Iff(x: nat)
    ensures AsU16(x) == x <==> x <= WIDTH
  {
  }

  /** The length of the longest common prefix. */
  function ComputeOverlap(first: Bytes, key: Bytes): (n: nat)
    ensures n <= |first| && n <= |key| && first[..n] == key[..n]
    ensures n < |first| && n < |key| ==> first[n] != key[n]
  {
    if first != [] && key != [] && first[0] == key[0] then
      var m := ComputeOverlap(first[1..], key[1..]);
      assert first[..m + 1] == [first[0]] + first[1..][..m] && key[..m + 1] == [key[0]] + key[1..][..m];
      m + 1
    else
      0
  }

  /**
   * An entry is u16 overlap with the block's first key, u16 length of the rest of the key, that rest,
   * u64 timestamp, u16 value length, value; `as u16` keeps the low bits.
   */
  function EncodeParts(overlap: u16, suffix: Bytes, ts: u64, value: Bytes): Bytes {
    PutU16(overlap) + PutU16(AsU16(|suffix|)) + suffix + PutU64(ts) + PutU16(AsU16(|value|)) + value
  }

  function EncodeEntry(first: Bytes, e: Entry<Key>): Bytes {
    var overlap := ComputeOverlap(first, e.key.user);
    EncodeParts(AsU16(overlap), e.key.user[overlap..], e.key.ts, e.value)
  }

  lemma EncodeEntryLength(first: Bytes, e: Entry<Key>)
    ensures |EncodeEntry(first, e)| == 14 + |e.key.user| - ComputeOverlap(first, e.key.user) + |e.value|
  {
    GetPutU64(e.key.ts, []);
  }

  /** The key that later entries are compressed against; the first entry is not compressed. */
  function BaseKey(es: Run<Key>): Bytes {
    if es == [] then [] else es[0].key.user
  }

  /** The data section and the offsets written for a sequence of accepted entries. */
  function Data(es: Run<Key>): Bytes
    decreases |es|
  {
    if es == [] then []
    else
      var init := es[..|es| - 1];
      Data(init) + EncodeEntry(BaseKey(init), es[|es| - 1])
  }

  function Offsets(es: Run<Key>): (s: seq<u16>)
    ensures |s| == |es|
    decreases |es|
  {
    if es == [] then []
    else
      var init := es[..|es| - 1];
      Offsets(init) + [AsU16(|Data(init)|)]
  }

  function BlockOf(es: Run<Key>): Block {
    Block(Data(es), Offsets(es))
  }

  function EstimatedSize(es: Run<Key>): nat {
    2 + 2 * |es| + |Data(es)|
  }

  /** The size check of `add`: the first entry always fits, later ones only within the block size. */
  predicate Accepts(blockSize: nat, es: Run<Key>, e: Entry<Key>) {
    es == [] || EstimatedSize(es) + (|e.key.user| + 8) + |e.value| + 6 <= blockSize
  }

  ghost predicate AcceptsAt(blockSize: nat, es: Run<Key>, i: nat)
    requires i < |es|
  {
    Accepts(blockSize, es[..i], es[i])
  }

  /** A sequence that `add` accepted entry by entry. */
  ghost predicate Buildable(blockSize: nat, es: Run<Key>) {
    forall i :: 0 <= i < |es| ==> AcceptsAt(blockSize, es, i)
  }

  /** Where entry `i` starts. */
  function Start(es: Run<Key>, i: nat): nat
    requires i <= |es|
  {
    |Data(es[..i])|
  }

  lemma BuildableSnoc(blockSize: nat, es: Run<Key>, e: Entry<Key>)
    requires Buildable(blockSize, es) && Accepts(blockSize, es, e)
    ensures Buildable(blockSize, es + [e])
    ensures Data(es + [e]) == Data(es) + EncodeEntry(BaseKey(es), e)
    ensures Offsets(es + [e]) == Offsets(es) + [AsU16(|Data(es)|)]
  {
    hide EncodeEntry, AsU16, EstimatedSize;
    var longer := es + [e];
    assert longer[..|es|] == es;
    forall i | 0 <= i < |longer| ensures AcceptsAt(blockSize, longer, i) {
      if i < |es| { assert longer[..i] == es[..i] && AcceptsAt(blockSize, es, i); }
    }
  }

  lemma EncodeEntryAppends(data: Bytes, first: Bytes, e: Entry<Key>)
    ensures var o := ComputeOverlap(first, e.key.user);
            data + EncodeEntry(first, e) ==
            data + PutU16(AsU16(o)) + PutU16(AsU16(|e.key.user| - o)) + e.key.user[o..] + PutU64(e.key.ts)
              + PutU16(AsU16(|e.value|)) + e.value
  {
    hide PutU16, PutU64, AsU16;
  }

  ghost predicate Fits(e: Entry<Key>) {
    0 < |e.key.user| <= WIDTH && |e.value| <= WIDTH
  }

  ghost predicate AllFit(es: Run<Key>) {
    forall i :: 0 <= i < |es| ==> Fits(es[i])
  }

  class BlockBuilder {
    var offsets: seq<u16>
    var data: Bytes
    const blockSize: nat
    var firstKey: Key
    ghost var entries: Run<Key>

    ghost predicate Valid()
      reads this
    {
      && data == Data(entries) && offsets == Offsets(entries)
      && Buildable(blockSize, entries)
      && firstKey.user == BaseKey(entries) && (entries != [] ==> firstKey == entries[0].key && firstKey.user != [])
    }

    constructor (blockSize: nat)
      ensures Valid() && entries == [] && this.blockSize == blockSize
    {
      offsets, data, this.blockSize, firstKey, entries := [], [], blockSize, Key([], 0), [];
    }

    function Estimated(): nat
      reads this
    {
      2 + |offsets| * 2 + |data|
    }

    predicate IsEmpty()
      reads this
    {
      offsets == []
    }

    /** Adds an entry, or answers false when a non-empty block would grow beyond the block size. */
    method Add(key: Key, value: Bytes) returns (added: bool)
      requires Valid() && key.user != []
      modifies this
      ensures Valid()
      ensures added <==> Accepts(blockSize, old(entries), Entry(key, value))
      ensures entries == if added then old(entries) + [Entry(key, value)] else old(entries)
    {
      hide PutU16, PutU64, AsU16, EncodeEntry, Data, Offsets, Buildable;
      if Estimated() + (|key.user| + 8) + |value| + 2 * 3 > blockSize && !IsEmpty() {
        return false;
      }
      BuildableSnoc(blockSize, entries, Entry(key, value));
      offsets := offsets + [AsU16(|data|)];
      var overlap := ComputeOverlap(firstKey.user, key.user);
      data := data + PutU16(AsU16(overlap));
      data := data + PutU16(AsU16(|key.user| - overlap));
      data := data + key.user[overlap..];
      data := data + PutU64(key.ts);
      data := data + PutU16(AsU16(|value|));
      data := data + value;
      EncodeEntryAppends(old(data), firstKey.user, Entry(key, value));
      if firstKey.user == [] {
        firstKey := key;
      }
      entries := entries + [Entry(key, value)];
      return true;
    }

    function Build(): (b: Block)
      reads this
      requires Valid()
      ensures b == BlockOf(entries)
    {
      Block(data, offsets)
    }
  }

  // ---------- no field of an accepted block is truncated ----------

  lemma DataPrefix(es: Run<Key>, i: nat)
    requires i < |es|
    ensures Data(es[..i + 1]) == Data(es[..i]) + EncodeEntry(BaseKey(es[..i]), es[i])
    ensures Offsets(es[..i + 1]) == Offsets(es[..i]) + [AsU16(|Data(es[..i])|)]
  {
    assert es[..i + 1][..i] == es[..i];
  }

  /** For block sizes below 2^16, every offset and the entry count survive the narrowing to u16. */
  lemma NoTruncation(blockSize: nat, es: Run<Key>)
    requires blockSize <= WIDTH && Buildable(blockSize, es)
    ensures forall i :: 0 <= i < |es| ==> Start(es, i) <= WIDTH
    ensures 2 <= |es| ==> EstimatedSize(es) <= blockSize + 2
    ensures |es| <= WIDTH
  {
    forall i | 0 <= i < |es| ensures Start(es, i) <= WIDTH {
      assert AcceptsAt(blockSize, es, i);
    }
    if 2 <= |es| {
      var n := |es| - 1;
      assert AcceptsAt(blockSize, es, n);
      DataPrefix(es, n);
      EncodeEntryLength(BaseKey(es[..n]), es[n]);
      assert es[..n + 1] == es;
    }
  }

  lemma {:induction false} OffsetAt(es: Run<Key>, i: nat)
    requires i < |es|
    ensures Offsets(es)[i] == AsU16(Start(es, i))
    ensures Data(es[..i + 1]) <= Data(es)
    decreases |es|
  {
    hide EncodeEntry, AsU16;
    var init := es[..|es| - 1];
    DataPrefix(es, |es| - 1);
    assert es[..|es|] == es;
    if i < |es| - 1 {
      OffsetAt(init, i);
      assert init[..i] == es[..i] && init[..i + 1] == es[..i + 1];
    }
  }

  // ---------- Block::encode and Block::decode ----------

  function PutOffsets(offsets: seq<u16>): (s: Bytes)
    ensures |s| == 2 * |offsets|
  {
    if offsets == [] then [] else PutOffsets(offsets[..|offsets| - 1]) + PutU16(offsets[|offsets| - 1])
  }

  /** An encoded block is data, u32 checksum of the data, u16 offsets, u16 number of entries. */
  function EncodeBlock(crc: Bytes -> u32, b: Block): Bytes {
    b.data + PutU32(crc(b.data)) + PutOffsets(b.offsets) + PutU16(AsU16(|b.offsets|))
  }

  method Encode(crc: Bytes -> u32, b: Block) returns (encoded: Bytes)
    ensures encoded == EncodeBlock(crc, b)
  {
    encoded := b.data + PutU32(crc(b.data));
    ghost var head := encoded;
    for i := 0 to |b.offsets|
      invariant encoded == head + PutOffsets(b.offsets[..i])
    {
      assert b.offsets[..i + 1][..i] == b.offsets[..i];
      encoded := encoded + PutU16(b.offsets[i]);
    }
    assert b.offsets[..|b.offsets|] == b.offsets;
    encoded := encoded + PutU16(AsU16(|b.offsets|));
  }

  /** The slices taken by `decode` exist; otherwise the source panics. */
  predicate Decodable(s: Bytes) {
    2 <= |s| && 2 + 2 * GetU16(s[|s| - 2..]) + 4 <= |s|
  }

  ghost predicate IsDecodingOf(b: Block, s: Bytes)
    requires Decodable(s)
  {
    var n := GetU16(s[|s| - 2..]);
    var start := |s| - 2 - 2 * n;
    && b.data == s[..start - 4] && |b.offsets| == n
    && forall i :: 0 <= i < n ==> b.offsets[i] == GetU16(s[start + 2 * i..])
  }

  method Decode(s: Bytes) returns (b: Block)
    requires Decodable(s)
    ensures IsDecodingOf(b, s)
  {
    var numEntries: nat := GetU16(s[|s| - 2..]);
    var offsetStart := |s| - 2 - 2 * numEntries;
    var tmp := s[offsetStart..|s| - 2];
    var offsets: seq<u16> := [];
    var i := 0;
    while i < |tmp|
      invariant i <= |tmp| && i == 2 * |offsets|
      invariant forall j :: 0 <= j < |offsets| ==> offsets[j] == GetU16(s[offsetStart + 2 * j..])
    {
      offsets := offsets + [GetU16([tmp[i], tmp[i + 1]])];
      i := i + 2;
    }
    b := Block(s[..offsetStart - 4], offsets);
  }

  lemma {:induction false} OffsetInPlace(offsets: seq<u16>, i: nat)
    requires i < |offsets|
    ensures PutOffsets(offsets)[2 * i..2 * i + 2] == PutU16(offsets[i])
    decreases |offsets|
  {
    if i < |offsets| - 1 {
      OffsetInPlace(offsets[..|offsets| - 1], i);
    }
  }

  /** Where the four parts of an encoded block lie. */
  lemma BlockLayout(data: Bytes, sum: Bytes, offs: Bytes, count: Bytes, s: Bytes)
    requires |sum| == 4 && |count| == 2 && s == data + sum + offs + count
    ensures var start := |s| - 2 - |offs|;
            && 4 <= start && s[|s| - 2..] == count && s[..start - 4] == data
            && forall j :: 0 <= j < |offs| ==> s[start + j] == offs[j]
  {
  }

  lemma OffsetRead(offsets: seq<u16>, s: Bytes, start: nat, i: nat)
    requires i < |offsets| && start + 2 * |offsets| <= |s|
    requires forall j :: 0 <= j < 2 * |offsets| ==> s[start + j] == PutOffsets(offsets)[j]
    ensures GetU16(s[start + 2 * i..]) == offsets[i]
  {
    OffsetInPlace(offsets, i);
    hide PutOffsets;
    var two := PutOffsets(offsets)[2 * i..2 * i + 2];
    assert s[start + 2 * i] == two[0] && s[start + 2 * i + 1] == two[1];
  }

  lemma DecodingIsUnique(b: Block, d: Block, s: Bytes)
    requires Decodable(s) && IsDecodingOf(b, s) && IsDecodingOf(d, s)
    ensures b == d
  {
    hide GetU16;
    assert b.offsets == d.offsets;
  }

  /** Decoding what was encoded gives the same block, as long as its entry count fits u16. */
  lemma DecodeEncodeBlock(crc: Bytes -> u32, b: Block)
    requires |b.offsets| <= WIDTH
    ensures Decodable(EncodeBlock(crc, b)) && IsDecodingOf(b, EncodeBlock(crc, b))
  {
    var n := |b.offsets|;
    var s := EncodeBlock(crc, b);
    var offs := PutOffsets(b.offsets);
    hide PutOffsets, PutU32, GetU32;
    var sum := crc(b.data);
    GetPutU32(sum, []);
    BlockLayout(b.data, PutU32(sum), offs, PutU16(n), s);
    assert GetU16(s[|s| - 2..]) == n;
    hide GetU16, PutU16;
    forall i | 0 <= i < n ensures GetU16(s[|s| - 2 - 2 * n + 2 * i..]) == b.offsets[i] {
      OffsetRead(b.offsets, s, |s| - 2 - 2 * n, i);
    }
  }

  /** Data, checksum of the data, the offsets in turn, and their number, all big-endian. */
  lemma EncodedBlockLayout(crc: Bytes -> u32, b: Block, i: nat)
    requires |b.offsets| <= WIDTH && i < |b.offsets|
    ensures var s, d, n := EncodeBlock(crc, b), |b.data|, |b.offsets|;
            && |s| == d + 4 + 2 * n + 2
            && s[..d] == b.data && Big(s[d..d + 4]) == crc(b.data)
            && Big(s[d + 4 + 2 * i..d + 4 + 2 * i + 2]) == b.offsets[i] && Big(s[d + 4 + 2 * n..]) == n
  {
    hide PutU32, PutU16, PutOffsets, Big;
    var s, d, n := EncodeBlock(crc, b), |b.data|, |b.offsets|;
    PutIsBigEndian(n, crc(b.data), 0);
    PutIsBigEndian(b.offsets[i], 0, 0);
    OffsetInPlace(b.offsets, i);
    assert s[d..d + 4] == PutU32(crc(b.data)) && s[d + 4 + 2 * n..] == PutU16(n);
    assert s[d + 4..d + 4 + 2 * n] == PutOffsets(b.offsets);
    SliceOfDrop(s, d + 4, 2 * i, 2 * i + 2);
    assert s[d + 4 + 2 * i..d + 4 + 2 * i + 2] == PutOffsets(b.offsets)[2 * i..2 * i + 2];
  }

  /** An encoded entry as its bytes: two lengths, the rest of the key, the timestamp, a length, the value. */
  lemma EncodedEntryLayout(first: Bytes, e: Entry<Key>)
    requires |e.key.user| <= WIDTH && |e.value| <= WIDTH
    ensures var s, o := EncodeEntry(first, e), ComputeOverlap(first, e.key.user);
            var n, m := |e.key.user| - o, |e.value|;
            && |s| == 14 + n + m
            && Big(s[..2]) == o && Big(s[2..4]) == n && s[4..4 + n] == e.key.user[o..]
            && Big(s[4 + n..12 + n]) == e.key.ts && Big(s[12 + n..14 + n]) == m && s[14 + n..] == e.value
  {
    hide PutU16, PutU64, Big, ComputeOverlap;
    var s, o := EncodeEntry(first, e), ComputeOverlap(first, e.key.user);
    var n, m := |e.key.user| - o, |e.value|;
    PutIsBigEndian(o, 0, e.key.ts);
    PutIsBigEndian(n, 0, 0);
    PutIsBigEndian(m, 0, 0);
    PartSlices(PutU16(o), PutU16(n), e.key.user[o..], PutU64(e.key.ts), PutU16(m), e.value, s);
  }

  lemma PartSlices(a: Bytes, b: Bytes, c: Bytes, d: Bytes, e: Bytes, f: Bytes, s: Bytes)
    requires |a| == |b| == |e| == 2 && |d| == 8 && s == a + b + c + d + e + f
    ensures var n := |c|;
            && |s| == 14 + n + |f| && s[..2] == a && s[2..4] == b && s[4..4 + n] == c
            && s[4 + n..12 + n] == d && s[12 + n..14 + n] == e && s[14 + n..] == f
  {
  }

  /**
   * An entry goes into a block that has others if and only if the encoded block, with the entry's key in
   * full, would be at most six bytes above the block size.
   */
  lemma AcceptsIff(crc: Bytes -> u32, blockSize: nat, es: Run<Key>, e: Entry<Key>)
    requires es != []
    ensures Accepts(blockSize, es, e) <==>
            |EncodeBlock(crc, BlockOf(es + [e]))| + ComputeOverlap(BaseKey(es), e.key.user) <= blockSize + 6
  {
    hide PutU32, EncodeEntry, ComputeOverlap, Data, Offsets, BaseKey;
    DataPrefix(es + [e], |es|);
    assert (es + [e])[..|es|] == es && (es + [e])[..|es| + 1] == es + [e];
    EncodeEntryLength(BaseKey(es), e);
    PutIsBigEndian(0, crc(Data(es + [e])), 0);
  }

  // ---------- decoding one entry ----------

  /** `seek_to_offset` and `value` on a buffer; None where the source would slice out of bounds. */
  function DecodeEntry(first: Bytes, s: Bytes): Option<Entry<Key>> {
    if |s| < 4 then None
    else
      var overlap, suffixLen := GetU16(s), GetU16(s[2..]);
      if overlap > |first| || |s| < 14 + suffixLen then None
      else
        var user := first[..overlap] + s[4..4 + suffixLen];
        var valueLen := GetU16(s[12 + suffixLen..]);
        if |s| < 14 + suffixLen + valueLen then None
        else Some(Entry(Key(user, GetU64(s[4 + suffixLen..])), s[14 + suffixLen..14 + suffixLen + valueLen]))
  }

  /** Where the six parts of an encoded entry lie. */
  lemma PartsLayout(a: Bytes, b: Bytes, c: Bytes, d: Bytes, e: Bytes, f: Bytes, rest: Bytes, s: Bytes)
    requires |a| == |b| == |e| == 2 && |d| == 8
    requires s == a + b + c + d + e + f + rest
    ensures var n, m := |c|, |f|;
            && |s| == 14 + n + m + |rest|
            && s == a + s[2..] && s[2..] == b + s[4..] && s[4..4 + n] == c
            && s[4 + n..] == d + s[12 + n..] && s[12 + n..] == e + s[14 + n..] && s[14 + n..14 + n + m] == f
  {
  }

  lemma PartsRead(overlap: u16, suffix: Bytes, ts: u64, value: Bytes, rest: Bytes)
    ensures var s := EncodeParts(overlap, suffix, ts, value) + rest;
            var n, m := |suffix|, |value|;
            && |s| == 14 + n + m + |rest|
            && GetU16(s) == overlap && GetU16(s[2..]) == AsU16(n) && s[4..4 + n] == suffix
            && GetU64(s[4 + n..]) == ts && GetU16(s[12 + n..]) == AsU16(m) && s[14 + n..14 + n + m] == value
  {
    var s := EncodeParts(overlap, suffix, ts, value) + rest;
    var n := |suffix|;
    GetPutU64(ts, s[12 + n..]);
    PartsLayout(PutU16(overlap), PutU16(AsU16(n)), suffix, PutU64(ts), PutU16(AsU16(|value|)), value, rest, s);
    GetPutU16(overlap, s[2..]);
    GetPutU16(AsU16(n), s[4..]);
    GetPutU16(AsU16(|value|), s[14 + n..]);
  }

  lemma DecodeParts(first: Bytes, overlap: u16, suffix: Bytes, ts: u64, value: Bytes, rest: Bytes)
    requires overlap <= |first| && |suffix| <= WIDTH && |value| <= WIDTH
    ensures DecodeEntry(first, EncodeParts(overlap, suffix, ts, value) + rest) ==
            Some(Entry(Key(first[..overlap] + suffix, ts), value))
  {
    hide GetU16, GetU64, PutU16, PutU64, EncodeParts;
    PartsRead(overlap, suffix, ts, value, rest);
  }

  /** Whatever is decoded from an encoded entry has the truncated lengths. */
  lemma DecodedLengths(first: Bytes, overlap: u16, suffix: Bytes, ts: u64, value: Bytes)
    ensures var d := DecodeEntry(first, EncodeParts(overlap, suffix, ts, value));
            d.Some? ==> |d.value.key.user| == overlap + AsU16(|suffix|) &&
                        (|suffix| <= WIDTH ==> |d.value.value| == AsU16(|value|))
  {
    hide GetU16, GetU64, EncodeParts;
    var s := EncodeParts(overlap, suffix, ts, value);
    assert s + [] == s;
    PartsRead(overlap, suffix, ts, value, []);
  }

  /** An entry survives its encoding exactly when its three lengths fit u16. */
  lemma EntryRoundTripIff(first: Bytes, e: Entry<Key>)
    ensures DecodeEntry(first, EncodeEntry(first, e)) == Some(e) <==>
            var overlap := ComputeOverlap(first, e.key.user);
            overlap <= WIDTH && |e.key.user| - overlap <= WIDTH && |e.value| <= WIDTH
  {
    hide DecodeEntry, EncodeParts, ComputeOverlap;
    var overlap := ComputeOverlap(first, e.key.user);
    var suffix := e.key.user[overlap..];
    if overlap <= WIDTH && |suffix| <= WIDTH && |e.value| <= WIDTH {
      DecodeParts(first, overlap, suffix, e.key.ts, e.value, []);
      assert EncodeEntry(first, e) + [] == EncodeEntry(first, e);
      assert first[..overlap] + suffix == e.key.user;
    } else {
      DecodedLengths(first, AsU16(overlap), suffix, e.key.ts, e.value);
    }
  }

  /** A value of 65536 bytes is read back as the empty value, so the key as deleted. */
  lemma LongValueExample(user: Bytes, ts: u64, value: Bytes)
    requires |user| <= WIDTH && |value| == WIDTH + 1
    ensures DecodeEntry([], EncodeEntry([], Entry(Key(user, ts), value))) == Some(Entry(Key(user, ts), []))
  {
    hide GetU16, GetU64, EncodeParts;
    var s := EncodeParts(0, user, ts, value);
    assert user[0..] == user && s + [] == s;
    PartsRead(0, user, ts, value, []);
    assert AsU16(|value|) == 0 && ComputeOverlap([], user) == 0;
    assert EncodeEntry([], Entry(Key(user, ts), value)) == s;
    var none: Bytes := [];
    assert none[..0] + s[4..4 + |user|] == user && s[14 + |user|..14 + |user|] == [];
  }
}
