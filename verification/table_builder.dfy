/** src/table/builder.rs: cutting a run of entries into blocks and laying out the table file. */
module TableBuilder {
  import opened BlockIter
  import opened Blocks
  import opened BloomFilter
  import opened Bytes
  import opened Common
  import opened Keys
  import opened Runs
  import opened Tables

  /** The finished blocks and the open one after adding `es`: a block ends when it refuses an entry. */
  function Cut(blockSize: nat, es: Run<Key>): (seq<Run<Key>>, Run<Key>)
    decreases |es|
  {
    if es == [] then ([], [])
    else
      var (blocks, open) := Cut(blockSize, es[..|es| - 1]);
      var e := es[|es| - 1];
      if Accepts(blockSize, open, e) then (blocks, open + [e]) else (blocks + [open], [e])
  }

  function AllBlocks(blockSize: nat, es: Run<Key>): seq<Run<Key>> {
    var (blocks, open) := Cut(blockSize, es);
    if open == [] then blocks else blocks + [open]
  }

  /** What `estimated_size` answers after adding `es`: the finished blocks only. */
  function EstimatedTableSize(crc: Crc, blockSize: nat, es: Run<Key>): nat {
    |BlocksData(crc, Cut(blockSize, es).0)|
  }

  ghost predicate AllBuildable(blockSize: nat, blocks: seq<Run<Key>>) {
    forall i :: 0 <= i < |blocks| ==> blocks[i] != [] && Buildable(blockSize, blocks[i])
  }

  lemma {:induction false} CutKeepsEntries(blockSize: nat, es: Run<Key>)
    ensures var (blocks, open) := Cut(blockSize, es);
            && AllBuildable(blockSize, blocks) && Buildable(blockSize, open)
            && (es != [] ==> open != [])
            && Flatten(blocks) + open == es
    decreases |es|
  {
    hide Accepts, Buildable, Data, Offsets, EncodeEntry, Flatten;
    FlattenCons<Key>([], []);
    if es == [] {
      BuildableEmpty(blockSize);
    } else {
      var init, e := es[..|es| - 1], es[|es| - 1];
      CutKeepsEntries(blockSize, init);
      var (blocks, open) := Cut(blockSize, init);
      assert es == init + [e];
      if Accepts(blockSize, open, e) {
        BuildableSnoc(blockSize, open, e);
      } else {
        BuildableEmpty(blockSize);
        AcceptsFirst(blockSize, e);
        BuildableSnoc(blockSize, [], e);
        assert [] + [e] == [e];
        FlattenConcat(blocks, [open]);
        FlattenCons(open, []);
        assert [open] + [] == [open];
        assert open != [] by { AcceptsFirst(blockSize, e); }
      }
    }
  }

  lemma BuildableEmpty(blockSize: nat)
    ensures Buildable(blockSize, [])
  {
  }

  lemma AcceptsFirst(blockSize: nat, e: Entry<Key>)
    ensures Accepts(blockSize, [], e)
  {
  }

  /** A block ends only where it refuses the next entry. */
  lemma {:induction false} CutOnlyWhenRefused(blockSize: nat, es: Run<Key>, i: nat)
    requires i + 1 < |AllBlocks(blockSize, es)|
    ensures AllBlocks(blockSize, es)[i + 1] != []
    ensures !Accepts(blockSize, AllBlocks(blockSize, es)[i], AllBlocks(blockSize, es)[i + 1][0])
    decreases |es|
  {
    hide Accepts, Buildable;
    CutKeepsEntries(blockSize, es);
    var init, e := es[..|es| - 1], es[|es| - 1];
    var (blocks, open) := Cut(blockSize, init);
    var all := AllBlocks(blockSize, init);
    CutKeepsEntries(blockSize, init);
    AcceptsFirst(blockSize, e);
    if i + 1 < |all| {
      CutOnlyWhenRefused(blockSize, init, i);
      assert AllBlocks(blockSize, es)[i + 1][0] == all[i + 1][0];
    }
  }

  /** Where the last block of a table of these entries begins: behind the bytes of all blocks before it. */
  function LastBlockOffset(crc: Crc, blockSize: nat, es: Run<Key>): nat {
    var blocks := AllBlocks(blockSize, es);
    if blocks == [] then 0 else BlockStart(crc, blocks, |blocks| - 1)
  }

  /** That is what the builder takes for the size of the table so far. */
  lemma EstimateIsOffset(crc: Crc, blockSize: nat, es: Run<Key>)
    ensures EstimatedTableSize(crc, blockSize, es) == LastBlockOffset(crc, blockSize, es)
  {
    hide Accepts, Buildable, Cut;
    CutKeepsEntries(blockSize, es);
    var (closed, open) := Cut(blockSize, es);
    if es != [] {
      assert (closed + [open])[..|closed|] == closed;
    } else {
      NothingCut(blockSize);
    }
  }

  lemma NothingCut(blockSize: nat)
    ensures Cut(blockSize, []) == ([], [])
  {
  }

  lemma {:induction false} HashAt(hash: Bytes -> u32, es: Run<Key>, i: nat)
    requires i < |es|
    ensures |Hashes(hash, es)| == |es| && Hashes(hash, es)[i] == hash(es[i].key.user)
    decreases |es|
  {
    if i < |es| - 1 {
      HashAt(hash, es[..|es| - 1], i);
    } else if i > 0 {
      HashAt(hash, es[..|es| - 1], 0);
    }
  }

  function Hashes(hash: Bytes -> u32, es: Run<Key>): seq<u32> {
    if es == [] then [] else Hashes(hash, es[..|es| - 1]) + [hash(es[|es| - 1].key.user)]
  }

  lemma HashCount(hash: Bytes -> u32, es: Run<Key>)
    ensures |Hashes(hash, es)| == |es|
  {
    if es != [] {
      HashAt(hash, es, 0);
    }
  }

  function MaxTs(es: Run<Key>): u64
    decreases |es|
  {
    if es == [] then 0
    else
      var m := MaxTs(es[..|es| - 1]);
      if es[|es| - 1].key.ts > m then es[|es| - 1].key.ts else m
  }

  lemma AddSnoc(hash: Bytes -> u32, blockSize: nat, es: Run<Key>, e: Entry<Key>)
    ensures var (blocks, open) := Cut(blockSize, es);
            Cut(blockSize, es + [e]) ==
            if Accepts(blockSize, open, e) then (blocks, open + [e]) else (blocks + [open], [e])
    ensures Accepts(blockSize, [], e)
    ensures Hashes(hash, es + [e]) == Hashes(hash, es) + [hash(e.key.user)]
    ensures MaxTs(es + [e]) == if e.key.ts > MaxTs(es) then e.key.ts else MaxTs(es)
    ensures AllBuildable(blockSize, Cut(blockSize, es).0)
  {
    hide Accepts, Buildable;
    AcceptsFirst(blockSize, e);
    CutKeepsEntries(blockSize, es);
    assert (es + [e])[..|es|] == es;
  }

  lemma LastSnoc(es: Run<Key>, e: Entry<Key>)
    ensures Last(es + [e]) == e.key
  {
  }

  class SsTableBuilder {
    const crc: Crc
    const hash: Bytes -> u32
    const blockSize: nat
    var builder: BlockBuilder
    var firstKey: Key
    var lastKey: Key
    var data: Bytes
    var meta: seq<BlockMeta>
    var keyHashes: seq<u32>
    var maxTs: u64
    ghost var blocks: seq<Run<Key>>
    ghost var entries: Run<Key>

    ghost predicate Valid()
      reads this, builder
    {
      && builder.Valid() && builder.blockSize == blockSize
      && (blocks, builder.entries) == Cut(blockSize, entries)
      && AllBuildable(blockSize, blocks)
      && data == BlocksData(crc, blocks) && meta == Metas(crc, blocks)
      && keyHashes == Hashes(hash, entries) && maxTs == MaxTs(entries)
      && (entries == [] ==> builder.entries == [] && firstKey.user == [])
      && (entries != [] ==> builder.entries != [] && firstKey == entries[0].key && firstKey.user != [])
      && (entries != [] ==> lastKey == Last(entries) == Last(builder.entries))
    }

    constructor (crc: Crc, hash: Bytes -> u32, blockSize: nat)
      ensures Valid() && fresh(builder) && entries == []
      ensures this.crc == crc && this.hash == hash && this.blockSize == blockSize
    {
      this.crc, this.hash, this.blockSize := crc, hash, blockSize;
      builder := new BlockBuilder(blockSize);
      firstKey, lastKey, data, meta, keyHashes, maxTs := Key([], 0), Key([], 0), [], [], [], 0;
      blocks, entries := [], [];
    }

    method Add(key: Key, value: Bytes)
      requires Valid() && key.user != []
      modifies this, builder
      ensures Valid() && (builder == old(builder) || fresh(builder))
      ensures entries == old(entries) + [Entry(key, value)]
    {
      hide Buildable, Accepts, BlocksData, Metas, Data, Offsets, Cut, Hashes, MaxTs, BlockBuilder.Valid,
        AllBuildable, Last;
      ghost var e := Entry(key, value);
      LastSnoc(entries, e);
      LastSnoc(builder.entries, e);
      LastSnoc([], e);
      AddSnoc(hash, blockSize, entries, e);
      maxTs := if key.ts > maxTs then key.ts else maxTs;
      keyHashes := keyHashes + [hash(key.user)];
      if firstKey.user == [] {
        firstKey := key;
      }
      var isAdded := builder.Add(key, value);
      if isAdded {
        lastKey := key;
      } else {
        var oldBuilder := builder;
        builder := new BlockBuilder(blockSize);
        CloseBlock(oldBuilder);
        isAdded := builder.Add(key, value);
        assert builder.entries == [e];
        lastKey := key;
      }
      entries := entries + [e];
    }

    /** Appends the meta and the checked encoding of a finished block. */
    method CloseBlock(finished: BlockBuilder)
      requires finished.Valid() && finished.blockSize == blockSize && finished.entries != []
      requires lastKey == Last(finished.entries)
      requires AllBuildable(blockSize, blocks) && data == BlocksData(crc, blocks) && meta == Metas(crc, blocks)
      modifies this`data, this`meta, this`blocks
      ensures blocks == old(blocks) + [finished.entries]
      ensures AllBuildable(blockSize, blocks) && data == BlocksData(crc, blocks) && meta == Metas(crc, blocks)
    {
      hide EncodeBlock, PutU32, Data, Offsets;
      ghost var longer := blocks + [finished.entries];
      assert longer[..|blocks|] == blocks;
      meta := meta + [BlockMeta(|data|, finished.firstKey, lastKey)];
      var block := finished.Build();
      var encoded := Blocks.Encode(crc, block);
      var checksum := crc(encoded);
      data := data + encoded;
      data := data + PutU32(checksum);
      assert data == old(data) + (encoded + PutU32(checksum));
      blocks := longer;
    }

    function EstimatedSize(): (n: nat)
      reads this, builder
      requires Valid()
      ensures n == EstimatedTableSize(crc, blockSize, entries)
    {
      |data|
    }

    /** Closes the last block and writes metas, Bloom filter and the two trailing offsets. */
    method Build(id: nat, bitsPerKey: nat, hashFunctions: nat) returns (t: SsTable)
      requires Valid()
      modifies this
      ensures t.bloom.Some? && IsFilterOf(t.bloom.value, Hashes(hash, entries)) && entries == old(entries)
      ensures t.bloom.value.k == if hashFunctions < 1 then 1 else if hashFunctions > 30 then 30 else hashFunctions
      ensures |t.bloom.value.filter| == (Max(|entries| * bitsPerKey, 64) + 7) / 8
      ensures AllBuildable(blockSize, AllBlocks(blockSize, entries))
      ensures var all := AllBlocks(blockSize, entries);
              t == SsTable(FileBytes(crc, all, t.bloom.value), Metas(crc, all), |BlocksData(crc, all)|, id,
                           firstKey, lastKey, t.bloom, MaxTs(entries))
      ensures entries != [] ==> firstKey == entries[0].key && lastKey == Last(entries)
    {
      hide Buildable, BlocksData, Metas, EncodeMetas, PutU32, IsFilterOf, BloomFilter.Encode;
      if !builder.IsEmpty() {
        CloseBlock(builder);
      }
      var blockMetaOffset := |data|;
      var file := EncodeBlockMeta(crc, meta, data);
      file := file + PutU32(AsU32(blockMetaOffset));
      HashCount(hash, entries);
      var bloom := BuildFromKeyHashes(keyHashes, bitsPerKey, hashFunctions);
      var encodedBloom := BloomFilter.Encode(crc, bloom);
      var bloomOffset := |file|;
      file := file + PutU32(AsU32(|encodedBloom|));
      file := file + encodedBloom;
      file := file + PutU32(AsU32(bloomOffset));
      t := SsTable(file, meta, blockMetaOffset, id, firstKey, lastKey, Some(bloom), maxTs);
    }
  }

  // ---------- what was built is what is read back ----------

  lemma FlattenFits(blocks: seq<Run<Key>>, i: nat)
    requires i < |blocks| && AllFit(Flatten(blocks))
    ensures AllFit(blocks[i])
  {
    var all := Flatten(blocks);
    forall j | 0 <= j < |blocks[i]| ensures Fits(blocks[i][j]) {
      FlattenMember(blocks, blocks[i][j]);
      assert blocks[i][j] in all;
    }
  }

  /** The blocks, in order, hold exactly the added entries, and each survives its encoding. */
  lemma AllBlocksHold(blockSize: nat, es: Run<Key>)
    requires blockSize <= WIDTH && AllFit(es) && es != []
    ensures var blocks := AllBlocks(blockSize, es);
            && Flatten(blocks) == es && blocks != []
            && forall i :: 0 <= i < |blocks| ==>
                 blocks[i] != [] && AllFit(blocks[i]) && |blocks[i]| <= WIDTH && Encodes(BlockOf(blocks[i]), blocks[i])
  {
    hide Buildable, Encodes, BlockOf, Cut;
    CutKeepsEntries(blockSize, es);
    var (closed, open) := Cut(blockSize, es);
    var blocks := closed + [open];
    FlattenConcat(closed, [open]);
    FlattenCons(open, []);
    assert [open] + [] == [open] && open + [] == open;
    assert Flatten(blocks) == es;
    forall i | 0 <= i < |blocks|
      ensures AllFit(blocks[i]) && |blocks[i]| <= WIDTH && Encodes(BlockOf(blocks[i]), blocks[i])
    {
      var b := blocks[i];
      FlattenFits(blocks, i);
      NoTruncation(blockSize, b);
      BuildableEncodes(blockSize, b);
    }
  }

  /**
   * The built table stores its entries: metas hold true offsets and keys, and every block can be read
   * back. Opening the file, if its offsets fit 32 bits, gives the same table but for `max_ts`.
   */
  lemma SstRoundTrip(crc: Crc, blockSize: nat, es: Run<Key>, t: SsTable)
    requires blockSize <= WIDTH && es != [] && AllFit(es) && Sorted(KeyLess, es)
    requires t.bloom.Some? && AllBuildable(blockSize, AllBlocks(blockSize, es))
    requires var all := AllBlocks(blockSize, es);
             t == SsTable(FileBytes(crc, all, t.bloom.value), Metas(crc, all), |BlocksData(crc, all)|, t.id,
                          es[0].key, Last(es), t.bloom, MaxTs(es))
    ensures Stores(crc, t, AllBlocks(blockSize, es)) && Ordered(KeyLess, AllBlocks(blockSize, es))
    ensures Flatten(AllBlocks(blockSize, es)) == es
    ensures |t.file| < LIMIT ==> Open(crc, t.id, t.file) == Ok(t.(maxTs := MaxBoundaryTs(t.blockMeta)))
  {
    hide Open, FileBytes, BlocksData, Metas, Encodes, AllBlocks, BlockOf, MaxTs, MaxBoundaryTs, KeyLess;
    var all := AllBlocks(blockSize, es);
    AllBlocksHold(blockSize, es);
    DataInFile(crc, all, t.bloom.value);
    if |t.file| < LIMIT {
      OpenFileBytes(crc, t.id, all, t.bloom.value);
    }
    SortedFlattenOrdered(KeyLess, all);
    KeyOrderIsTotal();
    OrderedFlatten(KeyLess, all);
  }

  lemma {:induction false} MaxTsBounds(es: Run<Key>, e: Entry<Key>)
    requires e in es
    ensures e.key.ts <= MaxTs(es)
    decreases |es|
  {
    var init := es[..|es| - 1];
    if e != es[|es| - 1] {
      assert es == init + [es[|es| - 1]];
      MaxTsBounds(init, e);
    }
  }

  lemma {:induction false} MaxTsIsReached(es: Run<Key>)
    ensures if es == [] then MaxTs(es) == 0 else exists i :: 0 <= i < |es| && es[i].key.ts == MaxTs(es)
    decreases |es|
  {
    if es != [] {
      var init := es[..|es| - 1];
      MaxTsIsReached(init);
      assert es[|es| - 1].key.ts == MaxTs(es) || MaxTs(es) == MaxTs(init);
      if init != [] {
        var i :| 0 <= i < |init| && init[i].key.ts == MaxTs(init);
        assert es[i] == init[i];
      }
    }
  }

  lemma {:induction false} MaxBoundaryTsBounds(ms: seq<BlockMeta>, newest: u64)
    requires forall i :: 0 <= i < |ms| ==> ms[i].firstKey.ts <= newest && ms[i].lastKey.ts <= newest
    ensures MaxBoundaryTs(ms) <= newest
    ensures ms != [] ==>
      (MaxBoundaryTs(ms) == newest <==>
       exists i :: 0 <= i < |ms| && (ms[i].firstKey.ts == newest || ms[i].lastKey.ts == newest))
  {
    if ms != [] {
      MaxBoundaryTsBounds(ms[1..], newest);
      if i :| 0 <= i < |ms| && (ms[i].firstKey.ts == newest || ms[i].lastKey.ts == newest) {
        if i > 0 { assert ms[1..][i - 1] == ms[i]; }
      }
    }
  }

  /**
   * A reopened table takes its `max_ts` from block boundaries only: it never exceeds the newest
   * timestamp, and equals it exactly when some block begins or ends with a newest entry.
   */
  lemma ReopenedMaxTs(crc: Crc, blockSize: nat, es: Run<Key>)
    requires blockSize <= WIDTH && es != [] && AllFit(es)
    requires forall i :: 0 <= i < |AllBlocks(blockSize, es)| ==> AllBlocks(blockSize, es)[i] != []
    ensures var blocks, newest := AllBlocks(blockSize, es), MaxTs(es);
            && MaxBoundaryTs(Metas(crc, blocks)) <= newest
            && (MaxBoundaryTs(Metas(crc, blocks)) == newest <==>
                exists i :: 0 <= i < |blocks| && (blocks[i][0].key.ts == newest || Last(blocks[i]).ts == newest))
  {
    hide AllBlocks, Metas, MaxTs, MaxBoundaryTs, Encodes, BlockOf, AllFit, BlocksData;
    var blocks: seq<Run<Key>> := AllBlocks(blockSize, es);
    var newest, ms := MaxTs(es), Metas(crc, blocks);
    AllBlocksHold(blockSize, es);
    forall i | 0 <= i < |blocks|
      ensures ms[i].firstKey == blocks[i][0].key && ms[i].lastKey == Last(blocks[i])
      ensures ms[i].firstKey.ts <= newest && ms[i].lastKey.ts <= newest
    {
      MetaAt(crc, blocks, i);
      FlattenMember(blocks, blocks[i][0]);
      FlattenMember(blocks, blocks[i][|blocks[i]| - 1]);
      MaxTsBounds(es, blocks[i][0]);
      MaxTsBounds(es, blocks[i][|blocks[i]| - 1]);
    }
    MaxBoundaryTsBounds(ms, newest);
  }

  /** Three entries with the newest one in the middle of their block: reopened, the table looks older than it is. */
  lemma ReopenedMaxTsExample(crc: Crc, a: byte, b: byte, c: byte)
    ensures var es: Run<Key> := [Entry(Key([1], 1), [a]), Entry(Key([2], 2), [b]), Entry(Key([3], 1), [c])];
            && AllBlocks(4096, es) == [es]
            && MaxTs(es) == 2 && MaxBoundaryTs(Metas(crc, AllBlocks(4096, es))) == 1
  {
    hide Data, Offsets, EncodeEntry, BlocksData;
    var x, y, z := Entry(Key([1], 1), [a]), Entry(Key([2], 2), [b]), Entry(Key([3], 1), [c]);
    var es: Run<Key> := [x, y, z];
    var hash: Bytes -> u32 := _ => 0;
    assert [] + [x] == [x] && [x] + [y] == [x, y] && [x, y] + [z] == es;
    SmallData([x, y]);
    SmallData([x]);
    AddSnoc(hash, 4096, [], x);
    AddSnoc(hash, 4096, [x], y);
    AddSnoc(hash, 4096, [x, y], z);
    assert AllBlocks(4096, es) == [es];
    MetaAt(crc, [es], 0);
    assert MaxBoundaryTs(Metas(crc, [es])[1..]) == 0;
  }

  lemma {:induction false} SmallData(es: Run<Key>)
    requires forall i :: 0 <= i < |es| ==> |es[i].key.user| == 1 && |es[i].value| == 1
    ensures |Data(es)| <= 16 * |es|
    decreases |es|
  {
    if es != [] {
      var init := es[..|es| - 1];
      SmallData(init);
      EncodeEntryLength(BaseKey(init), es[|es| - 1]);
    }
  }
}
