/** src/table.rs: the layout of a table file, with the checksum function as a parameter. */
module Tables {
  import opened BlockIter
  import opened Blocks
  import opened BloomFilter
  import opened Bytes
  import opened Common
  import opened Keys
  import opened Runs

  datatype BlockMeta = BlockMeta(offset: nat, firstKey: Key, lastKey: Key)

  datatype SsTable = SsTable(
    file: Bytes, blockMeta: seq<BlockMeta>, blockMetaOffset: nat, id: nat,
    firstKey: Key, lastKey: Key, bloom: Option<Bloom>, maxTs: u64)

  type Crc = Bytes -> u32

  const LIMIT: nat := 0x1_0000_0000

  lemma FitsU32Iff(x: nat)
    ensures AsU32(x) == x <==> x < LIMIT
  {
  }

  // ---------- block metas ----------

  function PutKey(k: Key): Bytes {
    PutU16(AsU16(|k.user|)) + k.user + PutU64(k.ts)
  }

  function TakeKey(s: Bytes): Option<(Key, Bytes)> {
    if |s| < 2 || |s| < 10 + GetU16(s) then None
    else
      var n: nat := GetU16(s);
      Some((Key(s[2..2 + n], GetU64(s[2 + n..])), s[10 + n..]))
  }

  lemma KeyLayout(a: Bytes, user: Bytes, d: Bytes, rest: Bytes, s: Bytes)
    requires |a| == 2 && |d| == 8 && s == a + user + d + rest
    ensures var n := |user|;
            && |s| == 10 + n + |rest| && s == a + s[2..] && s[2..2 + n] == user
            && s[2 + n..] == d + rest && s[10 + n..] == rest
  {
  }

  lemma TakePutKey(k: Key, rest: Bytes)
    requires |k.user| <= WIDTH
    ensures TakeKey(PutKey(k) + rest) == Some((k, rest))
  {
    hide PutU16, PutU64, GetU16, GetU64;
    var s := PutKey(k) + rest;
    GetPutU64(k.ts, rest);
    PutU16Length(|k.user|);
    KeyLayout(PutU16(|k.user|), k.user, PutU64(k.ts), rest, s);
    GetPutU16(|k.user|, s[2..]);
  }

  lemma PutU16Length(x: u16)
    ensures |PutU16(x)| == 2
  {
  }

  function PutMeta(m: BlockMeta): Bytes {
    PutU32(AsU32(m.offset)) + PutKey(m.firstKey) + PutKey(m.lastKey)
  }

  function TakeMeta(s: Bytes): Option<(BlockMeta, Bytes)> {
    if |s| < 4 then None
    else match TakeKey(s[4..])
      case None => None
      case Some(first) => match TakeKey(first.1)
        case None => None
        case Some(last) => Some((BlockMeta(GetU32(s), first.0, last.0), last.1))
  }

  ghost predicate MetaFits(m: BlockMeta) {
    m.offset < LIMIT && |m.firstKey.user| <= WIDTH && |m.lastKey.user| <= WIDTH
  }

  lemma TakePutMeta(m: BlockMeta, rest: Bytes)
    requires MetaFits(m)
    ensures TakeMeta(PutMeta(m) + rest) == Some((m, rest))
  {
    hide PutU32, GetU32, PutKey, TakeKey;
    var afterFirst := PutKey(m.lastKey) + rest;
    var afterOffset := PutKey(m.firstKey) + afterFirst;
    TakePutKey(m.firstKey, afterFirst);
    TakePutKey(m.lastKey, rest);
    GetPutU32(m.offset, afterOffset);
    assert PutMeta(m) + rest == PutU32(m.offset) + afterOffset;
  }

  function PutMetas(ms: seq<BlockMeta>): Bytes {
    if ms == [] then [] else PutMeta(ms[0]) + PutMetas(ms[1..])
  }

  function TakeMetas(n: nat, s: Bytes): Option<seq<BlockMeta>> {
    if n == 0 then Some([])
    else match TakeMeta(s)
      case None => None
      case Some(first) => match TakeMetas(n - 1, first.1)
        case None => None
        case Some(others) => Some([first.0] + others)
  }

  lemma {:induction false} TakePutMetas(ms: seq<BlockMeta>, rest: Bytes)
    requires forall i :: 0 <= i < |ms| ==> MetaFits(ms[i])
    ensures TakeMetas(|ms|, PutMetas(ms) + rest) == Some(ms)
  {
    hide PutMeta, TakeMeta, MetaFits;
    if ms != [] {
      TakePutMeta(ms[0], PutMetas(ms[1..]) + rest);
      assert PutMetas(ms) + rest == PutMeta(ms[0]) + (PutMetas(ms[1..]) + rest);
      TakePutMetas(ms[1..], rest);
      assert ms == [ms[0]] + ms[1..];
    }
  }

  function EncodeMetas(crc: Crc, ms: seq<BlockMeta>): Bytes {
    var body := PutU32(AsU32(|ms|)) + PutMetas(ms);
    body + PutU32(crc(body))
  }

  method EncodeBlockMeta(crc: Crc, ms: seq<BlockMeta>, buf: Bytes) returns (r: Bytes)
    ensures r == buf + EncodeMetas(crc, ms)
  {
    hide PutU32, PutKey;
    var start := |buf|;
    r := buf + PutU32(AsU32(|ms|));
    ghost var head := PutU32(AsU32(|ms|));
    for i := 0 to |ms|
      invariant r + PutMetas(ms[i..]) == buf + (head + PutMetas(ms))
      invariant start <= |r| && r[..start] == buf
    {
      assert ms[i..][1..] == ms[i + 1..];
      ghost var before := r;
      r := r + PutU32(AsU32(ms[i].offset));
      r := r + PutKey(ms[i].firstKey);
      r := r + PutKey(ms[i].lastKey);
      assert r == before + PutMeta(ms[i]);
      assert before + (PutMeta(ms[i]) + PutMetas(ms[i + 1..])) == r + PutMetas(ms[i + 1..]);
    }
    assert ms[|ms|..] == [];
    assert r == buf + (head + PutMetas(ms));
    assert r[start..] == head + PutMetas(ms);
    r := r + PutU32(crc(r[start..]));
  }

  function DecodeMetas(crc: Crc, buf: Bytes): Result<seq<BlockMeta>> {
    if |buf| < 8 then Err("out of bounds")
    else
      var dataLen := |buf| - 4;
      if crc(buf[..dataLen]) != GetU32(buf[dataLen..]) then Err("block meta checksum mismatch")
      else match TakeMetas(GetU32(buf), buf[4..dataLen])
        case None => Err("out of bounds")
        case Some(ms) => Ok(ms)
  }

  /** `decode_block_meta`, reading one meta at a time from the front of the buffer. */
  method DecodeBlockMeta(crc: Crc, buf: Bytes) returns (r: Result<seq<BlockMeta>>)
    ensures r == DecodeMetas(crc, buf)
  {
    hide GetU32, TakeMeta;
    if |buf| < 8 {
      return Err("out of bounds");
    }
    var dataLen := |buf| - 4;
    if crc(buf[..dataLen]) != GetU32(buf[dataLen..]) {
      return Err("block meta checksum mismatch");
    }
    var reader := buf[4..dataLen];
    var numBlocks: nat := GetU32(buf);
    var bm: seq<BlockMeta> := [];
    ghost var all := TakeMetas(numBlocks, reader);
    for i := 0 to numBlocks
      invariant all == Prepended(bm, TakeMetas(numBlocks - i, reader))
    {
      var m := TakeMeta(reader);
      if m.None? {
        return Err("out of bounds");
      }
      ghost var others := TakeMetas(numBlocks - i - 1, m.value.1);
      if others.Some? {
        assert bm + ([m.value.0] + others.value) == bm + [m.value.0] + others.value;
      }
      bm := bm + [m.value.0];
      reader := m.value.1;
    }
    return Ok(bm);
  }

  ghost function Prepended(bm: seq<BlockMeta>, others: Option<seq<BlockMeta>>): (r: Option<seq<BlockMeta>>)
    ensures bm == [] ==> r == others
    ensures others == Some([]) ==> r == Some(bm)
  {
    if others.None? then None else
      assert others.value == [] ==> bm + others.value == bm;
      assert bm == [] ==> bm + others.value == others.value;
      Some(bm + others.value)
  }

  lemma MetasRoundTrip(crc: Crc, ms: seq<BlockMeta>)
    requires |ms| < LIMIT && forall i :: 0 <= i < |ms| ==> MetaFits(ms[i])
    ensures DecodeMetas(crc, EncodeMetas(crc, ms)) == Ok(ms)
  {
    hide PutU32, GetU32, PutMetas, TakeMetas;
    var body := PutU32(|ms|) + PutMetas(ms);
    var buf := EncodeMetas(crc, ms);
    GetPutU32(|ms|, PutMetas(ms) + PutU32(crc(body)));
    GetPutU32(crc(body), []);
    assert buf == PutU32(|ms|) + (PutMetas(ms) + PutU32(crc(body)));
    assert buf[..|buf| - 4] == body && buf[|buf| - 4..] == PutU32(crc(body)) + [];
    TakePutMetas(ms, []);
    assert PutMetas(ms) + [] == PutMetas(ms) == buf[4..|buf| - 4];
  }

  /** An encoded meta as its bytes: the block's offset, then length, bytes and timestamp of both keys. */
  lemma EncodedMeta(m: BlockMeta)
    requires MetaFits(m)
    ensures var s, a, b := PutMeta(m), |m.firstKey.user|, |m.lastKey.user|;
            && |s| == 24 + a + b && Big(s[..4]) == m.offset
            && Big(s[4..6]) == a && s[6..6 + a] == m.firstKey.user && Big(s[6 + a..14 + a]) == m.firstKey.ts
            && Big(s[14 + a..16 + a]) == b && s[16 + a..16 + a + b] == m.lastKey.user
            && Big(s[16 + a + b..]) == m.lastKey.ts
  {
    hide PutU16, PutU32, PutU64, Big;
    var s, a, b := PutMeta(m), |m.firstKey.user|, |m.lastKey.user|;
    PutIsBigEndian(a, m.offset, m.firstKey.ts);
    PutIsBigEndian(b, 0, m.lastKey.ts);
    assert s[..4] == PutU32(m.offset) && s[4..6] == PutU16(a) && s[6 + a..14 + a] == PutU64(m.firstKey.ts);
    assert s[14 + a..16 + a] == PutU16(b) && s[16 + a + b..] == PutU64(m.lastKey.ts);
  }

  lemma {:induction false} MetaPlace(ms: seq<BlockMeta>, i: nat)
    requires i < |ms|
    ensures PutMetas(ms) == PutMetas(ms[..i]) + (PutMeta(ms[i]) + PutMetas(ms[i + 1..]))
  {
    hide PutMeta;
    if i == 0 {
      assert PutMetas(ms[..0]) == [];
    } else {
      MetaPlace(ms[1..], i - 1);
      assert ms[1..][..i - 1] == ms[..i][1..] && ms[1..][i..] == ms[i + 1..];
    }
  }

  /** The encoded metas: their number, each of them in turn, and the checksum of all that. */
  lemma EncodedMetas(crc: Crc, ms: seq<BlockMeta>)
    requires |ms| < LIMIT
    ensures var s := EncodeMetas(crc, ms);
            && |s| == 8 + |PutMetas(ms)| && Big(s[..4]) == |ms|
            && s[4..|s| - 4] == PutMetas(ms) && Big(s[|s| - 4..]) == crc(s[..|s| - 4])
  {
    hide PutU32, PutMetas, Big;
    var s, body := EncodeMetas(crc, ms), PutU32(|ms|) + PutMetas(ms);
    PutIsBigEndian(0, |ms|, 0);
    PutIsBigEndian(0, crc(body), 0);
    assert s[..4] == PutU32(|ms|) && s[..|s| - 4] == body && s[|s| - 4..] == PutU32(crc(body));
  }

  /** Metas that are not followed by the checksum of all before it are not decoded. */
  lemma MetasChecked(crc: Crc, buf: Bytes)
    requires 8 <= |buf| && Big(buf[|buf| - 4..]) != crc(buf[..|buf| - 4])
    ensures DecodeMetas(crc, buf) == Err("block meta checksum mismatch")
  {
    GetIsBigEndian(buf[|buf| - 4..]);
    assert buf[|buf| - 4..][..4] == buf[|buf| - 4..];
  }

  // ---------- the data section ----------

  function EncodeChecked(crc: Crc, es: Run<Key>): Bytes {
    var encoded := EncodeBlock(crc, BlockOf(es));
    encoded + PutU32(crc(encoded))
  }

  function BlocksData(crc: Crc, blocks: seq<Run<Key>>): Bytes {
    if blocks == [] then []
    else BlocksData(crc, blocks[..|blocks| - 1]) + EncodeChecked(crc, blocks[|blocks| - 1])
  }

  /** Every meta holds the true offset, first key and last key of its block. */
  function Metas(crc: Crc, blocks: seq<Run<Key>>): (ms: seq<BlockMeta>)
    requires forall i :: 0 <= i < |blocks| ==> blocks[i] != []
    ensures |ms| == |blocks|
  {
    if blocks == [] then []
    else
      var init, es := blocks[..|blocks| - 1], blocks[|blocks| - 1];
      Metas(crc, init) + [BlockMeta(|BlocksData(crc, init)|, es[0].key, Last(es))]
  }

  function BlockStart(crc: Crc, blocks: seq<Run<Key>>, i: nat): nat
    requires i <= |blocks|
  {
    |BlocksData(crc, blocks[..i])|
  }

  lemma {:induction false} MetaAt(crc: Crc, blocks: seq<Run<Key>>, i: nat)
    requires forall j :: 0 <= j < |blocks| ==> blocks[j] != []
    requires i < |blocks|
    ensures Metas(crc, blocks)[i] == BlockMeta(BlockStart(crc, blocks, i), blocks[i][0].key, Last(blocks[i]))
    decreases |blocks|
  {
    hide BlocksData;
    var init := blocks[..|blocks| - 1];
    if i < |blocks| - 1 {
      MetaAt(crc, init, i);
      assert init[..i] == blocks[..i];
    }
  }

  lemma {:induction false} BlockPlace(crc: Crc, blocks: seq<Run<Key>>, i: nat) returns (rest: Bytes)
    requires i < |blocks|
    ensures BlocksData(crc, blocks) == BlocksData(crc, blocks[..i]) + EncodeChecked(crc, blocks[i]) + rest
    ensures BlockStart(crc, blocks, i + 1) == BlockStart(crc, blocks, i) + |EncodeChecked(crc, blocks[i])|
    decreases |blocks|
  {
    hide EncodeChecked;
    assert blocks[..i + 1][..i] == blocks[..i];
    var init := blocks[..|blocks| - 1];
    if i < |blocks| - 1 {
      var r := BlockPlace(crc, init, i);
      assert init[..i] == blocks[..i];
      rest := r + EncodeChecked(crc, blocks[|blocks| - 1]);
    } else {
      assert blocks[..i] == init;
      rest := [];
    }
  }

  /** The table's data section and metas are those of `blocks`, and every block survives its encoding. */
  ghost predicate Stores(crc: Crc, t: SsTable, blocks: seq<Run<Key>>) {
    && blocks != []
    && (forall i :: 0 <= i < |blocks| ==>
          blocks[i] != [] && |blocks[i]| <= WIDTH && Encodes(BlockOf(blocks[i]), blocks[i]))
    && t.blockMeta == Metas(crc, blocks)
    && t.blockMetaOffset == |BlocksData(crc, blocks)|
    && BlocksData(crc, blocks) <= t.file
  }

  /** Where `read_block` looks for block `i`. */
  function BlockRange(t: SsTable, i: nat): (nat, int)
    requires i < |t.blockMeta|
  {
    (t.blockMeta[i].offset, if i + 1 < |t.blockMeta| then t.blockMeta[i + 1].offset else t.blockMetaOffset)
  }

  lemma MiddleSlice(a: Bytes, b: Bytes, c: Bytes, s: Bytes, file: Bytes)
    requires s == a + b + c && s <= file
    ensures |a| + |b| <= |file| && file[|a|..|a| + |b|] == b
  {
    assert s[|a|..|a| + |b|] == b;
  }

  lemma RangeOfBlock(crc: Crc, t: SsTable, blocks: seq<Run<Key>>, i: nat)
    requires Stores(crc, t, blocks) && i < |blocks|
    ensures i < |t.blockMeta| && BlockRange(t, i) == (BlockStart(crc, blocks, i), BlockStart(crc, blocks, i + 1))
    ensures BlocksData(crc, blocks) <= t.file
  {
    hide Stores, Metas, BlocksData;
    StoredMetas(crc, t, blocks);
    MetaAt(crc, blocks, i);
    if i + 1 < |blocks| {
      MetaAt(crc, blocks, i + 1);
    } else {
      assert blocks[..i + 1] == blocks;
    }
  }

  lemma StoredMetas(crc: Crc, t: SsTable, blocks: seq<Run<Key>>)
    requires Stores(crc, t, blocks)
    ensures forall i :: 0 <= i < |blocks| ==> blocks[i] != []
    ensures t.blockMeta == Metas(crc, blocks) && t.blockMetaOffset == |BlocksData(crc, blocks)|
    ensures BlocksData(crc, blocks) <= t.file
  {
  }

  lemma StoredBytes(crc: Crc, t: SsTable, blocks: seq<Run<Key>>, i: nat)
    requires Stores(crc, t, blocks) && i < |blocks|
    ensures i < |t.blockMeta|
    ensures var (lo, hi) := BlockRange(t, i);
            lo <= hi <= |t.file| && t.file[lo..hi] == EncodeChecked(crc, blocks[i])
  {
    hide Stores, BlockRange, BlocksData, EncodeChecked;
    RangeOfBlock(crc, t, blocks, i);
    var rest := BlockPlace(crc, blocks, i);
    var before, here, data := BlocksData(crc, blocks[..i]), EncodeChecked(crc, blocks[i]), BlocksData(crc, blocks);
    MiddleSlice(before, here, rest, data, t.file);
  }

  /** The slice that `read_block` takes exists, and decoding it does not run out of bounds if its checksum is right. */
  ghost predicate BlockInPlace(crc: Crc, t: SsTable, i: nat) {
    && i < |t.blockMeta|
    && var (lo, hi) := BlockRange(t, i);
    && lo + 4 <= hi <= |t.file|
    && (Big(t.file[hi - 4..hi]) == crc(t.file[lo..hi - 4]) ==> Decodable(t.file[lo..hi - 4]))
  }

  /** A wrong checksum is an error; otherwise the slice in front of the checksum is decoded. */
  ghost predicate ReadsAs(crc: Crc, t: SsTable, i: nat, r: Result<Block>)
    requires BlockInPlace(crc, t, i)
  {
    var (lo, hi) := BlockRange(t, i);
    if Big(t.file[hi - 4..hi]) != crc(t.file[lo..hi - 4]) then r == Err("block checksum mismatch")
    else r.Ok? && IsDecodingOf(r.value, t.file[lo..hi - 4])
  }

  /** `read_block`: slice, check the checksum, decode. */
  method ReadBlock(crc: Crc, t: SsTable, i: nat) returns (r: Result<Block>)
    requires BlockInPlace(crc, t, i)
    ensures ReadsAs(crc, t, i, r)
  {
    hide BlockRange, Decodable, IsDecodingOf, Big, GetU32;
    var (offset, end) := BlockRange(t, i);
    var raw := t.file[offset..end];
    var blockLen := |raw| - 4;
    assert raw[..blockLen] == t.file[offset..end - 4] && raw[blockLen..] == t.file[end - 4..end];
    GetIsBigEndian(raw[blockLen..]);
    assert raw[blockLen..][..4] == raw[blockLen..];
    if crc(raw[..blockLen]) != GetU32(raw[blockLen..]) {
      return Err("block checksum mismatch");
    }
    var block := Blocks.Decode(raw[..blockLen]);
    return Ok(block);
  }

  lemma StoredSlice(crc: Crc, t: SsTable, blocks: seq<Run<Key>>, i: nat)
    requires Stores(crc, t, blocks) && i < |blocks|
    ensures i < |t.blockMeta|
    ensures var (lo, hi) := BlockRange(t, i);
            var encoded := EncodeBlock(crc, BlockOf(blocks[i]));
            && lo + 4 <= hi <= |t.file|
            && t.file[lo..hi - 4] == encoded && Big(t.file[hi - 4..hi]) == crc(encoded)
            && Decodable(encoded) && IsDecodingOf(BlockOf(blocks[i]), encoded)
  {
    hide PutU32, BlockOf, EncodeBlock, Stores, BlockRange, Decodable, IsDecodingOf, Big;
    StoredBytes(crc, t, blocks, i);
    BlockCount(crc, t, blocks, i);
    var (lo, hi) := BlockRange(t, i);
    var encoded := EncodeBlock(crc, BlockOf(blocks[i]));
    PutIsBigEndian(0, crc(encoded), 0);
    var slice := t.file[lo..hi];
    assert slice == encoded + PutU32(crc(encoded));
    assert |slice| == hi - lo && slice[..hi - lo - 4] == encoded && slice[hi - lo - 4..] == PutU32(crc(encoded));
    assert t.file[lo..hi - 4] == slice[..hi - lo - 4] && t.file[hi - 4..hi] == slice[hi - lo - 4..];
    DecodeEncodeBlock(crc, BlockOf(blocks[i]));
  }

  lemma StoredInPlace(crc: Crc, t: SsTable, blocks: seq<Run<Key>>, i: nat)
    requires Stores(crc, t, blocks) && i < |blocks|
    ensures BlockInPlace(crc, t, i)
  {
    hide BlockOf, EncodeBlock, Stores, BlockRange, Decodable, IsDecodingOf, Big;
    StoredSlice(crc, t, blocks, i);
  }

  /** Every block of a stored table is read as the block that was stored. */
  lemma StoredBlockReads(crc: Crc, t: SsTable, blocks: seq<Run<Key>>, i: nat, r: Result<Block>)
    requires Stores(crc, t, blocks) && i < |blocks| && BlockInPlace(crc, t, i) && ReadsAs(crc, t, i, r)
    ensures r == Ok(BlockOf(blocks[i]))
  {
    hide BlockOf, EncodeBlock, Stores, BlockRange, Decodable, IsDecodingOf, Big;
    StoredSlice(crc, t, blocks, i);
    DecodingIsUnique(BlockOf(blocks[i]), r.value, EncodeBlock(crc, BlockOf(blocks[i])));
  }

  lemma BlockCount(crc: Crc, t: SsTable, blocks: seq<Run<Key>>, i: nat)
    requires Stores(crc, t, blocks) && i < |blocks|
    ensures |t.blockMeta| == |blocks| && |BlockOf(blocks[i]).offsets| == |blocks[i]| <= WIDTH
  {
  }

  /** `find_block_idx`: a partition point over the first keys in the metas. */
  function FindBlockIdx(t: SsTable, key: Key): nat {
    var firsts := seq(|t.blockMeta|, i requires 0 <= i < |t.blockMeta| => t.blockMeta[i].firstKey);
    var n := PartitionPoint(KeyLess, firsts, key);
    if n == 0 then 0 else n - 1
  }

  lemma FindBlockIdxPlace(crc: Crc, t: SsTable, blocks: seq<Run<Key>>, key: Key)
    requires Stores(crc, t, blocks)
    ensures FindBlockIdx(t, key) == FindIdx(KeyLess, blocks, key)
  {
    hide Metas, BlocksData, Encodes, PartitionPoint;
    var a := seq(|t.blockMeta|, i requires 0 <= i < |t.blockMeta| => t.blockMeta[i].firstKey);
    forall i | 0 <= i < |blocks| ensures a[i] == Firsts(blocks)[i] {
      MetaAt(crc, blocks, i);
    }
    assert a == Firsts(blocks);
  }

  // ---------- the whole file ----------

  /**
   * Blocks, each followed by its u32 checksum | block metas | u32 offset of the metas
   * | u32 length of the Bloom filter | Bloom filter | u32 offset of that length.
   */
  function FileBytes(crc: Crc, blocks: seq<Run<Key>>, bloom: Bloom): Bytes
    requires forall i :: 0 <= i < |blocks| ==> blocks[i] != []
  {
    var data := BlocksData(crc, blocks);
    var withMetas := data + EncodeMetas(crc, Metas(crc, blocks)) + PutU32(AsU32(|data|));
    var encodedBloom := BloomFilter.Encode(crc, bloom);
    withMetas + PutU32(AsU32(|encodedBloom|)) + encodedBloom + PutU32(AsU32(|withMetas|))
  }

  /** Where everything is in a file: its six sections from the front, the offsets and the length big-endian. */
  lemma FileFormat(crc: Crc, blocks: seq<Run<Key>>, bloom: Bloom)
    requires forall i :: 0 <= i < |blocks| ==> blocks[i] != []
    ensures var file, d := FileBytes(crc, blocks, bloom), |BlocksData(crc, blocks)|;
            var metas, filter := EncodeMetas(crc, Metas(crc, blocks)), BloomFilter.Encode(crc, bloom);
            var at := d + |metas| + 4;
            && |file| == at + 4 + |filter| + 4
            && file[..d] == BlocksData(crc, blocks) && file[d..at - 4] == metas && Big(file[at - 4..at]) == AsU32(d)
            && Big(file[at..at + 4]) == AsU32(|filter|) && file[at + 4..at + 4 + |filter|] == filter
            && Big(file[at + 4 + |filter|..]) == AsU32(at)
  {
    hide PutU32, Big, EncodeMetas, BloomFilter.Encode, BlocksData, Metas;
    var file, d := FileBytes(crc, blocks, bloom), |BlocksData(crc, blocks)|;
    var metas, filter := EncodeMetas(crc, Metas(crc, blocks)), BloomFilter.Encode(crc, bloom);
    var at := d + |metas| + 4;
    PutIsBigEndian(0, AsU32(d), 0);
    PutIsBigEndian(0, AsU32(|filter|), 0);
    PutIsBigEndian(0, AsU32(at), 0);
    assert file[at - 4..at] == PutU32(AsU32(d)) && file[at..at + 4] == PutU32(AsU32(|filter|));
    assert file[at + 4 + |filter|..] == PutU32(AsU32(at));
  }

  /** Every block is encoded behind the blocks before it, and followed by the checksum of its encoding. */
  lemma BlockInData(crc: Crc, blocks: seq<Run<Key>>, i: nat)
    requires i < |blocks|
    ensures var data, encoded := BlocksData(crc, blocks), EncodeBlock(crc, BlockOf(blocks[i]));
            var from := BlockStart(crc, blocks, i);
            var to := from + |encoded|;
            && to + 4 == BlockStart(crc, blocks, i + 1) <= |data|
            && data[from..to] == encoded && Big(data[to..to + 4]) == crc(encoded)
  {
    hide PutU32, Big, EncodeBlock, BlocksData;
    var encoded := EncodeBlock(crc, BlockOf(blocks[i]));
    var rest := BlockPlace(crc, blocks, i);
    PutIsBigEndian(0, crc(encoded), 0);
    var from := BlockStart(crc, blocks, i);
    var data := BlocksData(crc, blocks);
    assert data == BlocksData(crc, blocks[..i]) + (encoded + PutU32(crc(encoded))) + rest;
    assert data[from + |encoded|..from + |encoded| + 4] == PutU32(crc(encoded));
  }

  /** The data section is in front, whatever the size of the file. */
  lemma DataInFile(crc: Crc, blocks: seq<Run<Key>>, bloom: Bloom)
    requires forall i :: 0 <= i < |blocks| ==> blocks[i] != []
    ensures BlocksData(crc, blocks) <= FileBytes(crc, blocks, bloom)
  {
    hide BlocksData, Metas, EncodeMetas, PutU32, BloomFilter.Encode;
  }

  function MaxBoundaryTs(ms: seq<BlockMeta>): u64 {
    if ms == [] then 0
    else
      var m := MaxBoundaryTs(ms[1..]);
      var a: u64 := if ms[0].firstKey.ts > ms[0].lastKey.ts then ms[0].firstKey.ts else ms[0].lastKey.ts;
      if a > m then a else m
  }

  /** Where the source would slice out of bounds and panic, there is an error. */
  function Open(crc: Crc, id: nat, file: Bytes): Result<SsTable> {
    var n := |file|;
    if n < 4 then Err("out of bounds")
    else
      var bloomStart: nat := GetU32(file[n - 4..]);
      if !(4 <= bloomStart && bloomStart + 8 <= n) then Err("out of bounds")
      else
        var metaOffset: nat := GetU32(file[bloomStart - 4..bloomStart]);
        if metaOffset > bloomStart - 4 then Err("out of bounds")
        else match DecodeMetas(crc, file[metaOffset..bloomStart - 4])
          case Err(e) => Err(e)
          case Ok(ms) =>
            var blob := file[bloomStart..n - 4];
            var bloomLen: nat := GetU32(blob);
            if bloomLen < 5 || 4 + bloomLen > |blob| then Err("out of bounds")
            else match BloomFilter.Decode(crc, blob[4..4 + bloomLen])
              case Err(e) => Err(e)
              case Ok(bloom) =>
                if ms == [] then Err("out of bounds")
                else
                  var (first, last) := (ms[0].firstKey, ms[|ms| - 1].lastKey);
                  Ok(SsTable(file, ms, metaOffset, id, first, last, Some(bloom), MaxBoundaryTs(ms)))
  }

  /** Where the six sections of a file lie. */
  lemma FileLayout(data: Bytes, metas: Bytes, a: Bytes, b: Bytes, bloom: Bytes, c: Bytes, file: Bytes)
    requires |a| == |b| == |c| == 4 && file == data + metas + a + b + bloom + c
    ensures var start := |data| + |metas| + 4;
            && |file| == start + 8 + |bloom|
            && file[|file| - 4..] == c && file[start - 4..start] == a
            && file[|data|..start - 4] == metas
            && file[start..|file| - 4] == b + bloom && file[start..|file| - 4][4..4 + |bloom|] == bloom
            && data <= file
  {
    var start := |data| + |metas| + 4;
    assert file[start..|file| - 4] == b + bloom;
  }

  /** Opening the built bytes gives back metas, offset, first and last key, and Bloom filter. */
  lemma OpenFileBytes(crc: Crc, id: nat, blocks: seq<Run<Key>>, bloom: Bloom)
    requires blocks != [] && forall i :: 0 <= i < |blocks| ==> blocks[i] != [] && AllFit(blocks[i])
    requires |FileBytes(crc, blocks, bloom)| < LIMIT
    ensures var file, ms := FileBytes(crc, blocks, bloom), Metas(crc, blocks);
            && Open(crc, id, file) == Ok(SsTable(file, ms, |BlocksData(crc, blocks)|, id,
                 blocks[0][0].key, Last(blocks[|blocks| - 1]), Some(bloom), MaxBoundaryTs(ms)))
            && BlocksData(crc, blocks) <= file
  {
    var file, ms, data := FileBytes(crc, blocks, bloom), Metas(crc, blocks), BlocksData(crc, blocks);
    var metas, encodedBloom := EncodeMetas(crc, ms), BloomFilter.Encode(crc, bloom);
    MetasFit(crc, blocks, bloom);
    MetaAt(crc, blocks, 0);
    MetaAt(crc, blocks, |blocks| - 1);
    OpenLayout(crc, id, data, ms, bloom, file);
  }

  lemma OpenLayout(crc: Crc, id: nat, data: Bytes, ms: seq<BlockMeta>, bloom: Bloom, file: Bytes)
    requires ms != [] && |ms| < LIMIT && forall i :: 0 <= i < |ms| ==> MetaFits(ms[i])
    requires |file| < LIMIT
    requires var withMetas := data + EncodeMetas(crc, ms) + PutU32(AsU32(|data|));
             var encodedBloom := BloomFilter.Encode(crc, bloom);
             file == withMetas + PutU32(AsU32(|encodedBloom|)) + encodedBloom + PutU32(AsU32(|withMetas|))
    ensures Open(crc, id, file) == Ok(SsTable(file, ms, |data|, id, ms[0].firstKey, ms[|ms| - 1].lastKey,
                Some(bloom), MaxBoundaryTs(ms)))
    ensures data <= file
  {
    hide PutU32, GetU32, EncodeMetas, DecodeMetas, BloomFilter.Encode, BloomFilter.Decode, MaxBoundaryTs, MetaFits,
      Open;
    var metas, encodedBloom := EncodeMetas(crc, ms), BloomFilter.Encode(crc, bloom);
    var start := |data| + |metas| + 4;
    var a, b, c := PutU32(AsU32(|data|)), PutU32(AsU32(|encodedBloom|)), PutU32(AsU32(start));
    PutU32Length(AsU32(|data|));
    PutU32Length(AsU32(|encodedBloom|));
    PutU32Length(AsU32(start));
    FileLayout(data, metas, a, b, encodedBloom, c, file);
    MetasRoundTrip(crc, ms);
    DecodeEncode(crc, bloom);
    GetPutU32(|data|, []);
    GetPutU32(|encodedBloom|, encodedBloom);
    GetPutU32(start, []);
    assert a + [] == a && c + [] == c;
    OpenSections(crc, id, file, |data|, ms, start, encodedBloom, bloom);
  }

  /** What `open` makes of a file with its sections in place. */
  lemma OpenSections(crc: Crc, id: nat, file: Bytes, metaOffset: nat, ms: seq<BlockMeta>, start: nat,
    encodedBloom: Bytes, bloom: Bloom)
    requires metaOffset + 4 <= start && |file| == start + 8 + |encodedBloom| && 5 <= |encodedBloom| && ms != []
    requires GetU32(file[|file| - 4..]) == start && GetU32(file[start - 4..start]) == metaOffset
    requires DecodeMetas(crc, file[metaOffset..start - 4]) == Ok(ms)
    requires GetU32(file[start..|file| - 4]) == |encodedBloom|
    requires file[start..|file| - 4][4..4 + |encodedBloom|] == encodedBloom
    requires BloomFilter.Decode(crc, encodedBloom) == Ok(bloom)
    ensures Open(crc, id, file) ==
            Ok(SsTable(file, ms, metaOffset, id, ms[0].firstKey, ms[|ms| - 1].lastKey, Some(bloom), MaxBoundaryTs(ms)))
  {
    hide GetU32, DecodeMetas, BloomFilter.Decode, MaxBoundaryTs;
  }

  lemma PutU32Length(x: u32)
    ensures |PutU32(x)| == 4
  {
  }

  lemma MetasFit(crc: Crc, blocks: seq<Run<Key>>, bloom: Bloom)
    requires forall i :: 0 <= i < |blocks| ==> blocks[i] != [] && AllFit(blocks[i])
    requires |FileBytes(crc, blocks, bloom)| < LIMIT
    ensures |blocks| < LIMIT
    ensures forall i :: 0 <= i < |blocks| ==> MetaFits(Metas(crc, blocks)[i])
  {
    hide EncodeMetas, BloomFilter.Encode, PutU32, Metas;
    BlocksDataLength(crc, blocks);
    forall i | 0 <= i < |blocks| ensures MetaFits(Metas(crc, blocks)[i]) {
      MetaAt(crc, blocks, i);
      var rest := BlockPlace(crc, blocks, i);
      assert Fits(blocks[i][0]) && Fits(blocks[i][|blocks[i]| - 1]);
    }
  }

  lemma {:induction false} BlocksDataLength(crc: Crc, blocks: seq<Run<Key>>)
    ensures |BlocksData(crc, blocks)| >= |blocks|
  {
    if blocks != [] {
      BlocksDataLength(crc, blocks[..|blocks| - 1]);
      PutU32Length(crc(EncodeBlock(crc, BlockOf(blocks[|blocks| - 1]))));
    }
  }
}
