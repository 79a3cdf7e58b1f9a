/**
 * src/table/iterator.rs: iterating a table block by block, and seeking through its block index. The
 * iterator is specified by the entries that it has still to yield, those of the current block and of all
 * blocks behind it, which are ghost.
 */
module TableIter {
  import opened BlockIter
  import opened Blocks
  import opened Keys
  import opened Runs
  import opened Tables
  import opened TwoMerge

  class SsTableIterator {
    const crc: Crc
    const table: SsTable
    var blkIter: BlockIterator
    var blkIdx: nat
    ghost const blocks: seq<Run<Key>>

    ghost predicate Consistent() {
      Stores(crc, table, blocks) && Ordered(KeyLess, blocks)
    }

    /** Between calls an invalid block iterator means that all blocks are exhausted. */
    ghost predicate Valid()
      reads this, blkIter
    {
      && Consistent() && blkIter.Valid()
      && (blkIdx < |blocks| ==> blkIter.es == blocks[blkIdx])
      && (blkIdx < |blocks| <==> blkIter.key.user != [])
    }

    /** What the iterator has still to yield. */
    ghost function Rest(): Run<Key>
      reads this, blkIter
      requires blkIter.Consistent()
    {
      blkIter.Rest() + Later()
    }

    /** The entries of the blocks behind the current one. */
    ghost function Later(): Run<Key>
      reads this
    {
      if blkIdx < |blocks| then Flatten(blocks[blkIdx + 1..]) else []
    }

    lemma Parts()
      requires blkIter.Consistent()
      ensures Rest() == blkIter.Rest() + Later()
    {
    }

    lemma Known()
      requires Valid()
      ensures Consistent() && blkIter.Valid() && blkIter.Consistent()
      ensures if blkIdx < |blocks| then blkIter.es == blocks[blkIdx] && blkIter.Rest() != []
              else blkIter.Rest() == [] == Later()
    {
      hide Stores, Encodes, Ordered, Flatten, BlockIterator.AtEntry;
      assert blkIter.IsValid() <==> blkIdx < |blocks|;
    }

    lemma Opened()
      requires Stores(crc, table, blocks) && Ordered(KeyLess, blocks) && blkIdx < |blocks|
      requires blkIter.Valid()
      ensures Consistent() && blkIter.Consistent() && Rest() == blkIter.Rest() + Flatten(blocks[blkIdx + 1..])
    {
      hide Stores, Encodes, Ordered, Flatten, BlockIterator.AtEntry;
    }

    constructor SeekToFirst(crc: Crc, table: SsTable, ghost blocks: seq<Run<Key>>)
      requires Stores(crc, table, blocks) && Ordered(KeyLess, blocks)
      ensures Valid() && fresh(blkIter) && Rest() == Flatten(blocks)
    {
      hide Stores, Encodes, Ordered, Flatten, KeyLess, BlockIterator.AtEntry;
      StoredBlock(crc, table, blocks, 0);
      FlattenFrom(blocks, 0);
      this.crc, this.table, this.blocks := crc, table, blocks;
      blkIdx := 0;
      var first := OpenBlock(crc, table, 0, blocks);
      blkIter := first;
      assert blocks[0..] == blocks;
    }

    /** Seeking finds the first entry not below the key in the whole table. */
    constructor SeekToKey(crc: Crc, table: SsTable, key: Key, ghost blocks: seq<Run<Key>>)
      requires Stores(crc, table, blocks) && Ordered(KeyLess, blocks)
      ensures Valid() && fresh(blkIter) && Rest() == LowerBound(KeyLess, Flatten(blocks), key)
    {
      hide *;
      KeyOrderIsTotal();
      StoredBlock(crc, table, blocks, 0);
      FindBlockIdxPlace(crc, table, blocks, key);
      LowerBoundFlatten(KeyLess, blocks, key);
      this.crc, this.table, this.blocks := crc, table, blocks;
      var idx := FindBlockIdx(table, key);
      blkIdx := idx;
      var found := SeekBlock(crc, table, idx, key, blocks);
      blkIter := found;
      new;
      Opened();
      NextBlockIfExhausted();
    }

    lemma AtBlock()
      requires Consistent() && blkIter.Valid() && blkIter.IsValid() && blkIdx < |blocks| && blkIter.es == blocks[blkIdx]
      ensures Valid() && blkIter.Consistent()
    {
      hide Stores, Encodes, Ordered, BlockIterator.AtEntry;
    }

    lemma AtEnd()
      requires Consistent() && blkIter.Valid() && !blkIter.IsValid()
      ensures blkIter.Consistent() && blkIter.Rest() == [] && Rest() == Later()
      ensures |blocks| <= blkIdx ==> Valid() && Later() == []
    {
      hide Stores, Encodes, Ordered, Flatten, BlockIterator.AtEntry;
    }

    /** Everything behind the current block is the next block and everything behind that. */
    lemma LaterStep(i: nat)
      requires Consistent() && i < |blocks|
      ensures |table.blockMeta| == |blocks| && Stores(crc, table, blocks)
      ensures Flatten(blocks[i + 1..]) == if i + 1 < |blocks| then blocks[i + 1] + Flatten(blocks[i + 2..]) else []
    {
      hide Stores, Ordered, Flatten;
      StoredBlock(crc, table, blocks, i);
      FlattenFrom(blocks, i + 1);
    }

    lemma StoredCount()
      requires Consistent()
      ensures |table.blockMeta| == |blocks|
    {
      hide Stores, Ordered;
      StoredBlock(crc, table, blocks, 0);
    }

    /** Falls through to the first entry of the following block. */
    method NextBlockIfExhausted()
      requires Consistent() && blkIter.Valid()
      requires if blkIdx < |blocks| then blkIter.es == blocks[blkIdx] else !blkIter.IsValid()
      modifies this
      ensures Valid() && Rest() == old(Rest()) && (blkIter == old(blkIter) || fresh(blkIter))
    {
      hide *;
      if !blkIter.IsValid() {
        AtEnd();
        StoredCount();
        LaterIs();
        if blkIdx < |blocks| {
          LaterStep(blkIdx);
        }
        blkIdx := blkIdx + 1;
        if blkIdx < |table.blockMeta| {
          blkIter := OpenBlock(crc, table, blkIdx, blocks);
          AtBlock();
          Parts();
          LaterIs();
        } else {
          AtEnd();
        }
      } else {
        AtBlock();
      }
    }

    lemma LaterIs()
      ensures Later() == if blkIdx < |blocks| then Flatten(blocks[blkIdx + 1..]) else []
    {
    }

    /** `BlockIterator::create_and_seek_to_first(table.read_block_cached(i))`. */
    static method OpenBlock(crc: Crc, table: SsTable, i: nat, ghost blocks: seq<Run<Key>>) returns (it: BlockIterator)
      requires Stores(crc, table, blocks) && i < |blocks|
      ensures fresh(it) && it.Valid() && it.IsValid() && it.es == blocks[i] && it.Rest() == blocks[i]
    {
      hide Stores, Encodes, KeyLess, Ordered, BlockIterator.AtEntry;
      StoredBlock(crc, table, blocks, i);
      StoredInPlace(crc, table, blocks, i);
      var block := ReadBlock(crc, table, i);
      StoredBlockReads(crc, table, blocks, i, block);
      it := new BlockIterator(block.value, blocks[i]);
      it.SeekToFirst();
    }

    static method SeekBlock(crc: Crc, table: SsTable, i: nat, key: Key, ghost blocks: seq<Run<Key>>)
      returns (it: BlockIterator)
      requires Stores(crc, table, blocks) && Ordered(KeyLess, blocks) && i < |blocks|
      ensures fresh(it) && it.Valid() && it.es == blocks[i] && it.Rest() == LowerBound(KeyLess, blocks[i], key)
    {
      hide Stores, Encodes, KeyLess, LowerBound, BlockIterator.AtEntry, Sorted;
      StoredBlock(crc, table, blocks, i);
      StoredInPlace(crc, table, blocks, i);
      var block := ReadBlock(crc, table, i);
      StoredBlockReads(crc, table, blocks, i, block);
      it := new BlockIterator(block.value, blocks[i]);
      it.SeekToKey(key);
    }

    predicate IsValid()
      reads this, blkIter
      requires Valid()
      ensures IsValid() <==> Rest() != []
    {
      blkIter.IsValid()
    }

    function Head(): (e: Entry<Key>)
      reads this, blkIter
      requires Valid() && IsValid()
      ensures e == Rest()[0]
    {
      blkIter.Head()
    }

    method Next()
      requires Valid()
      modifies this, blkIter
      ensures Valid() && Rest() == Advance(old(Rest())) && (blkIter == old(blkIter) || fresh(blkIter))
    {
      hide *;
      Known();
      Parts();
      AdvanceFront(blkIter.Rest(), Later());
      blkIter.Next();
      StillConsistent(blkIter);
      Parts();
      NextBlockIfExhausted();
    }
  }

  lemma StillConsistent(it: BlockIterator)
    requires it.Valid()
    ensures it.Consistent()
  {
    hide Encodes, BlockIterator.AtEntry;
  }

  lemma AdvanceFront(a: Run<Key>, b: Run<Key>)
    ensures (a == [] ==> b == []) ==> Advance(a + b) == Advance(a) + b
    ensures a == [] ==> Advance(a) == []
  {
  }

  lemma FlattenFrom(blocks: seq<Run<Key>>, i: nat)
    ensures i < |blocks| ==> Flatten(blocks[i..]) == blocks[i] + Flatten(blocks[i + 1..])
    ensures i == |blocks| ==> Flatten(blocks[i..]) == []
  {
    if i < |blocks| {
      assert blocks[i..][1..] == blocks[i + 1..];
    }
  }

  lemma StoredBlock(crc: Crc, t: SsTable, blocks: seq<Run<Key>>, i: nat)
    requires Stores(crc, t, blocks)
    ensures blocks != [] && |t.blockMeta| == |blocks|
    ensures i < |blocks| ==> blocks[i] != [] && Encodes(BlockOf(blocks[i]), blocks[i])
  {
    hide Encodes, BlocksData, BlockOf;
  }
}
