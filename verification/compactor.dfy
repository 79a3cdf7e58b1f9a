/**
 * src/compact.rs, `compact` and `compact_generate_sst_from_iter`: opening the inputs of a task, and
 * writing what they merge to into tables through the table builder.
 */
module Compactor {
  import Blocks
  import opened BloomFilter
  import opened Bytes
  import opened Common
  import opened Compaction
  import opened Concat
  import opened Install
  import opened Keys
  import opened KWayMerge
  import opened Mvcc
  import opened ReadPath
  import opened Runs
  import opened State
  import opened TableBuilder
  import Tables
  import opened TwoMerge

  // ---------- inputs ----------

  method OpenUpper(tables: map<nat, Table>, upper: Option<nat>, ids: seq<nat>, ghost m: Store) returns (iter: Run<Key>)
    requires TablesPartOf(m, tables) && Known(tables, ids) && (upper.Some? ==> LevelOk(tables, ids))
    ensures iter == UpperRun(tables, upper, ids) && PartOf(m, iter)
  {
    hide KeyLess, MergeAll, PartOf, ConcatRun, Ordered, Sorted;
    KeyOrderIsTotal();
    UpperExact(m, tables, upper, ids);
    if upper.None? {
      InputsSorted(m, tables, ids);
      var l0Iters := RunsOf(tables, ids);
      var merged := new MergeIterator(KeyLess, l0Iters);
      iter := merged.Rest();
    } else {
      iter := OpenConcat(tables, ids);
    }
  }

  lemma InputsSorted(m: Store, tables: map<nat, Table>, ids: seq<nat>)
    requires TablesPartOf(m, tables) && Known(tables, ids)
    ensures AllSorted(KeyLess, RunsOf(tables, ids))
  {
    hide KeyLess;
    forall i | 0 <= i < |ids| ensures Sorted(KeyLess, RunsOf(tables, ids)[i]) {
      assert ids[i] in ids;
    }
  }

  method OpenConcat(tables: map<nat, Table>, ids: seq<nat>) returns (iter: Run<Key>)
    requires LevelOk(tables, ids)
    ensures iter == ConcatRun(tables, ids)
  {
    hide KeyLess, Ordered, Flatten;
    KeyOrderIsTotal();
    var runs := RunsOf(tables, ids);
    var concat := new SstConcatIterator.SeekToFirst(KeyLess, runs);
    iter := concat.Rest();
  }

  method OpenTiers(tables: map<nat, Table>, tiers: seq<Level>, ghost m: Store) returns (iter: Run<Key>)
    requires TablesPartOf(m, tables) && TiersOk(tables, tiers)
    ensures iter == MergeAll(KeyLess, TierRuns(tables, tiers))
  {
    hide KeyLess, MergeAll, ConcatRun, Ordered, PartOf, Sorted, HoldsInputs, LevelOk;
    KeyOrderIsTotal();
    var iters: seq<Run<Key>> := [];
    for i := 0 to |tiers|
      invariant iters == TierRuns(tables, tiers)[..i]
    {
      var it := OpenConcat(tables, tiers[i].ids);
      iters := iters + [it];
    }
    assert iters == TierRuns(tables, tiers);
    TierRunsSorted(m, tables, tiers);
    var merged := new MergeIterator(KeyLess, iters);
    iter := merged.Rest();
  }

  lemma TierRunsSorted(m: Store, tables: map<nat, Table>, tiers: seq<Level>)
    requires TablesPartOf(m, tables) && TiersOk(tables, tiers)
    ensures AllSorted(KeyLess, TierRuns(tables, tiers))
  {
    hide KeyLess, ConcatRun, Sorted;
    forall i | 0 <= i < |tiers| ensures Sorted(KeyLess, TierRuns(tables, tiers)[i]) {
      ConcatExact(m, tables, tiers[i].ids);
    }
  }

  /** The merged iterator that `compact` drains, for every kind of task. */
  method OpenInput(tables: map<nat, Table>, task: Task, ghost m: Store) returns (iter: Run<Key>)
    requires TablesPartOf(m, tables) && Readable(tables, task)
    ensures iter == CompactInput(tables, task) && PartOf(m, iter)
  {
    hide KeyLess, MergeAll, Merge, PartOf, ConcatRun, UpperRun, LevelOk, TablesPartOf, HoldsInputs;
    CompactInputExact(m, tables, task);
    if task.Tiered? {
      iter := OpenTiers(tables, task.tieredTask.tiers, m);
    } else {
      var upper, upperIds, lowerIds;
      match task {
        case Leveled(t) => upper, upperIds, lowerIds := t.upperLevel, t.upperIds, t.lowerIds;
        case Simple(t) => upper, upperIds, lowerIds := t.upperLevel, t.upperIds, t.lowerIds;
        case ForceFull(l0Ids, l1Ids) => upper, upperIds, lowerIds := None, l0Ids, l1Ids;
      }
      KeyOrderIsTotal();
      var upperIter := OpenUpper(tables, upper, upperIds, m);
      var lowerIter := OpenConcat(tables, lowerIds);
      PartSorted(m, upperIter);
      ConcatExact(m, tables, lowerIds);
      PartSorted(m, lowerIter);
      var merged := new TwoMergeIterator(KeyLess, upperIter, lowerIter);
      iter := merged.Rest();
    }
  }

  // ---------- outputs ----------

  lemma {:induction false} HashesHave(hash: Bytes -> u32, r: Run<Key>, e: Entry<Key>)
    requires e in r
    ensures hash(e.key.user) in Hashes(hash, r)
  {
    var n := |r| - 1;
    if e != r[n] {
      assert r == r[..n] + [r[n]];
      HashesHave(hash, r[..n], e);
    }
  }

  lemma FilterServes(hash: Bytes -> u32, r: Run<Key>, bloom: Bloom)
    requires IsFilterOf(bloom, Hashes(hash, r))
    ensures bloom.filter != [] && forall e :: e in r ==> MayContainSpec(bloom, hash(e.key.user))
  {
    hide Hashes, MayContainSpec;
    forall e | e in r ensures MayContainSpec(bloom, hash(e.key.user)) {
      HashesHave(hash, r, e);
      NoFalseNegatives(bloom, Hashes(hash, r), hash(e.key.user));
    }
  }

  /** A filter over no keys rejects every hash. */
  lemma EmptyFilterRejects(bloom: Bloom)
    requires IsFilterOf(bloom, [])
    ensures RejectsAll(bloom)
  {
    forall h: u32 ensures !MayContainSpec(bloom, h) {
      assert !GetBit(bloom.filter, Probe(h, 0) % (8 * |bloom.filter|));
    }
  }

  /** The blocks hold exactly the entries `run`; opening the file, if 32-bit offsets do, gives the same table again. */
  ghost predicate SstHolds(crc: Bytes -> u32, blockSize: nat, sst: Tables.SsTable, run: Run<Key>) {
    && Tables.Stores(crc, sst, AllBlocks(blockSize, run))
    && Ordered(KeyLess, AllBlocks(blockSize, run)) && Flatten(AllBlocks(blockSize, run)) == run
    && (|sst.file| < Tables.LIMIT ==>
          Tables.Open(crc, sst.id, sst.file) == Ok(sst.(maxTs := Tables.MaxBoundaryTs(sst.blockMeta))))
  }

  /** A table of the engine and the object behind it. */
  ghost predicate Backed(o: BuildOptions, t: Table, sst: Tables.SsTable) {
    && t.id == sst.id && t.size == |sst.file| && t.bloom == sst.bloom
    && (t.entries != [] ==>
          FirstKey(t) == sst.firstKey && LastKey(t) == sst.lastKey && SstHolds(o.crc, o.blockSize, sst, t.entries))
  }

  /** Closing a builder: the table holds what was added, its filter knows every key, and so does its file. */
  method FinishTable(o: BuildOptions, builder: SsTableBuilder, run: Run<Key>, id: nat)
    returns (t: Table, sst: Tables.SsTable)
    requires builder.Valid() && builder.entries == run && Sorted(KeyLess, run)
    requires builder.crc == o.crc && builder.hash == o.hash && builder.blockSize == o.blockSize
    modifies builder
    ensures t.id == id && t.entries == run && TableOk(o.hash, t)
    ensures o.blockSize <= Blocks.WIDTH && Blocks.AllFit(run) ==> Backed(o, t, sst)
  {
    hide Hashes, MayContainSpec, IsFilterOf, KeyLess, Sorted, SstHolds, RejectsAll;
    sst := builder.Build(id, o.bitsPerKey, o.hashFunctions);
    FilterServes(o.hash, run, sst.bloom.value);
    if run == [] {
      NoHashes(o.hash);
      EmptyFilterRejects(sst.bloom.value);
    }
    t := Table(id, run, |sst.file|, sst.bloom);
    if run != [] && o.blockSize <= Blocks.WIDTH && Blocks.AllFit(run) {
      FileOfTable(o.crc, o.blockSize, run, sst);
    }
  }

  lemma NoHashes(hash: Bytes -> u32)
    ensures Hashes(hash, []) == []
  {
  }

  lemma FileOfTable(crc: Bytes -> u32, blockSize: nat, run: Run<Key>, sst: Tables.SsTable)
    requires run != [] && Sorted(KeyLess, run) && Blocks.AllFit(run)
    requires blockSize <= Blocks.WIDTH
    requires sst.bloom.Some? && AllBuildable(blockSize, AllBlocks(blockSize, run))
    requires var all := AllBlocks(blockSize, run);
             sst == Tables.SsTable(Tables.FileBytes(crc, all, sst.bloom.value), Tables.Metas(crc, all),
                                   |Tables.BlocksData(crc, all)|, sst.id, run[0].key, Last(run), sst.bloom, MaxTs(run))
    ensures SstHolds(crc, blockSize, sst, run)
  {
    hide KeyLess, Sorted, Tables.Open, Tables.Metas, Tables.BlocksData, Cut;
    SstRoundTrip(crc, blockSize, run, sst);
  }

  /** A table builder is full when its finished blocks reach the target size. */
  function Full(crc: Bytes -> u32, blockSize: nat, targetSstSize: nat): Run<Key> -> bool {
    r => EstimatedTableSize(crc, blockSize, r) >= targetSstSize
  }

  datatype BuildOptions = BuildOptions(
    crc: Bytes -> u32, hash: Bytes -> u32, blockSize: nat, targetSstSize: nat, bitsPerKey: nat, hashFunctions: nat)

  ghost predicate GoodTables(hash: Bytes -> u32, outs: seq<Table>, firstId: nat) {
    forall i :: 0 <= i < |outs| ==> outs[i].id == firstId + i && TableOk(hash, outs[i])
  }

  ghost predicate AllBacked(o: BuildOptions, outs: seq<Table>, ssts: seq<Tables.SsTable>) {
    |ssts| == |outs| && forall i :: 0 <= i < |outs| ==> Backed(o, outs[i], ssts[i])
  }

  /** Where the last block of the table begins in its file. */
  function LastBlock(sst: Tables.SsTable): nat {
    if sst.blockMeta == [] then 0 else sst.blockMeta[|sst.blockMeta| - 1].offset
  }

  /**
   * Every table but the last has reached the target size, in bytes in front of its last block, and none would
   * have with fewer of its entries.
   */
  ghost predicate CutAtTarget(o: BuildOptions, outs: seq<Table>, ssts: seq<Tables.SsTable>) {
    && |ssts| == |outs|
    && (forall i :: 0 <= i < |outs| - 1 ==> LastBlock(ssts[i]) >= o.targetSstSize)
    && (forall i, n :: 0 <= i < |outs| && 0 <= n < |outs[i].entries| ==>
          LastBlockOffset(o.crc, o.blockSize, outs[i].entries[..n]) < o.targetSstSize)
  }

  lemma LastBlockOfTable(o: BuildOptions, t: Table, sst: Tables.SsTable)
    requires Backed(o, t, sst) && t.entries != []
    ensures LastBlock(sst) == LastBlockOffset(o.crc, o.blockSize, t.entries)
  {
    hide AllBlocks, Tables.Metas, Tables.BlocksData, Tables.Open, Ordered, KeyLess, Flatten;
    var blocks := AllBlocks(o.blockSize, t.entries);
    Tables.StoredMetas(o.crc, sst, blocks);
    Tables.MetaAt(o.crc, blocks, |blocks| - 1);
  }

  lemma CutByFull(o: BuildOptions, bottom: bool, input: Run<Key>, outs: seq<Table>, ssts: seq<Tables.SsTable>)
    requires 1 <= o.targetSstSize && AllBacked(o, outs, ssts)
    requires OutRuns(outs) == Outputs(Full(o.crc, o.blockSize, o.targetSstSize), bottom, input, None)
    ensures CutAtTarget(o, outs, ssts)
  {
    hide Outputs, EstimatedTableSize, LastBlockOffset, Backed, LastBlock, NotYetFull, CutWhenFull;
    var full := Full(o.crc, o.blockSize, o.targetSstSize);
    forall r ensures full(r) <==> LastBlockOffset(o.crc, o.blockSize, r) >= o.targetSstSize {
      EstimateIsOffset(o.crc, o.blockSize, r);
    }
    NothingBuilt(o);
    OutputsAreCut(full, bottom, input, None);
    RunsAreCut(full, OutRuns(outs));
    forall i | 0 <= i < |outs| - 1 ensures LastBlock(ssts[i]) >= o.targetSstSize {
      assert full(OutRuns(outs)[i]) && Backed(o, outs[i], ssts[i]);
      NotFullOfNothing(o, outs[i]);
      LastBlockOfTable(o, outs[i], ssts[i]);
    }
    forall i, n | 0 <= i < |outs| && 0 <= n < |outs[i].entries|
      ensures LastBlockOffset(o.crc, o.blockSize, outs[i].entries[..n]) < o.targetSstSize
    {
      assert !full(OutRuns(outs)[i][..n]);
    }
  }

  lemma RunsAreCut(full: Run<Key> -> bool, runs: seq<Run<Key>>)
    requires CutWhenFull(full, runs)
    ensures forall i :: 0 <= i < |runs| - 1 ==> full(runs[i])
    ensures forall i, n :: 0 <= i < |runs| && 0 <= n < |runs[i]| ==> !full(runs[i][..n])
  {
    forall i, n | 0 <= i < |runs| && 0 <= n < |runs[i]| ensures !full(runs[i][..n]) {
      assert NotYetFull(full, runs[i]);
    }
  }

  lemma NotFullOfNothing(o: BuildOptions, t: Table)
    requires LastBlockOffset(o.crc, o.blockSize, t.entries) >= o.targetSstSize >= 1
    ensures t.entries != []
  {
    NothingCut(o.blockSize);
  }

  lemma NothingBuilt(o: BuildOptions)
    ensures LastBlockOffset(o.crc, o.blockSize, []) == 0
  {
    NothingCut(o.blockSize);
  }

  lemma OutRunsSnoc(outs: seq<Table>, t: Table)
    ensures OutRuns(outs + [t]) == OutRuns(outs) + [t.entries]
  {
  }

  lemma OutputsStep(full: Run<Key> -> bool, bottom: bool, input: Run<Key>, open: Option<Run<Key>>)
    requires input != []
    ensures var kept := if bottom && input[0].value == [] then [] else [input[0]];
            var run := (if open.Some? then open.value else []) + kept;
            Outputs(full, bottom, input, open) ==
            if full(run) then [run] + Outputs(full, bottom, input[1..], None)
            else Outputs(full, bottom, input[1..], Some(run))
  {
  }

  lemma SortedStep(run: Run<Key>, input: Run<Key>)
    requires input != [] && Sorted(KeyLess, run + input)
    ensures Sorted(KeyLess, run + input[1..]) && Sorted(KeyLess, run + [input[0]] + input[1..])
    ensures Sorted(KeyLess, input[1..])
  {
    hide KeyLess;
    var all, less := run + input, run + input[1..];
    assert run + [input[0]] + input[1..] == all;
    forall i, j | 0 <= i < j < |less| ensures KeyLess(less[i].key, less[j].key) {
      var i', j' := if i < |run| then i else i + 1, if j < |run| then j else j + 1;
      assert less[i] == all[i'] && less[j] == all[j'];
    }
    forall i, j | 0 <= i < j < |input[1..]| ensures KeyLess(input[1..][i].key, input[1..][j].key) {
      assert input[1..][i] == all[|run| + 1 + i] && input[1..][j] == all[|run| + 1 + j];
    }
  }

  lemma SortedPrefix(run: Run<Key>, rest: Run<Key>)
    requires Sorted(KeyLess, run + rest)
    ensures Sorted(KeyLess, run)
  {
    hide KeyLess;
    forall i, j | 0 <= i < j < |run| ensures KeyLess(run[i].key, run[j].key) {
      assert (run + rest)[i] == run[i] && (run + rest)[j] == run[j];
    }
  }

  /** What one turn of the loop below relies on. */
  lemma NextEntry(o: BuildOptions, bottom: bool, run: Run<Key>, input: Run<Key>, open: Option<Run<Key>>)
    requires input != [] && Sorted(KeyLess, run + input) && run == if open.Some? then open.value else []
    ensures var full := Full(o.crc, o.blockSize, o.targetSstSize);
            var longer := if bottom && input[0].value == [] then run else run + [input[0]];
            && Sorted(KeyLess, longer) && Sorted(KeyLess, longer + input[1..]) && Sorted(KeyLess, [] + input[1..])
            && Outputs(full, bottom, input, open) ==
               if EstimatedTableSize(o.crc, o.blockSize, longer) >= o.targetSstSize
               then [longer] + Outputs(full, bottom, input[1..], None)
               else Outputs(full, bottom, input[1..], Some(longer))
  {
    hide KeyLess, Outputs, EstimatedTableSize, Sorted;
    OutputsStep(Full(o.crc, o.blockSize, o.targetSstSize), bottom, input, open);
    SortedStep(run, input);
    var longer := run + (if bottom && input[0].value == [] then [] else [input[0]]);
    assert run + [] == run && [] + input[1..] == input[1..];
    SortedPrefix(longer, input[1..]);
  }

  lemma OneMoreTable(o: BuildOptions, outs: seq<Table>, ssts: seq<Tables.SsTable>, firstId: nat, t: Table,
                     sst: Tables.SsTable, all: seq<Run<Key>>, later: seq<Run<Key>>)
    requires GoodTables(o.hash, outs, firstId) && t.id == firstId + |outs| && TableOk(o.hash, t)
    requires AllBacked(o, outs, ssts) && Backed(o, t, sst)
    ensures GoodTables(o.hash, outs + [t], firstId) && AllBacked(o, outs + [t], ssts + [sst])
    ensures OutRuns(outs) + ([t.entries] + later) == all ==> OutRuns(outs + [t]) + later == all
  {
    hide TableOk, Backed;
    OutRunsSnoc(outs, t);
  }

  lemma FitsStep(run: Run<Key>, input: Run<Key>)
    requires Blocks.AllFit(run) && Blocks.AllFit(input)
    ensures input != [] ==> Blocks.AllFit(run + [input[0]]) && Blocks.AllFit(input[1..]) && input[0].key.user != []
  {
  }

  /** Drains the merged input into builders; ids are taken from the counter in order. */
  method GenerateSstFromIter(o: BuildOptions, input: Run<Key>, compactToBottom: bool, firstId: nat)
    returns (newSst: seq<Table>, ssts: seq<Tables.SsTable>, nextId: nat)
    requires Sorted(KeyLess, input) && Blocks.AllFit(input) && o.blockSize <= Blocks.WIDTH
    ensures nextId == firstId + |newSst| && GoodTables(o.hash, newSst, firstId) && AllBacked(o, newSst, ssts)
    ensures OutRuns(newSst) == Outputs(Full(o.crc, o.blockSize, o.targetSstSize), compactToBottom, input, None)
    ensures 1 <= o.targetSstSize ==> CutAtTarget(o, newSst, ssts)
  {
    hide *;
    ghost var full := Full(o.crc, o.blockSize, o.targetSstSize);
    ghost var all := Outputs(full, compactToBottom, input, None);
    var builder: SsTableBuilder? := null;
    var run: Run<Key> := [];
    var iter := input;
    newSst, ssts, nextId := [], [], firstId;
    assert [] + input == input;
    NoRuns(o, firstId);
    while iter != []
      invariant nextId == firstId + |newSst| && GoodTables(o.hash, newSst, firstId) && AllBacked(o, newSst, ssts)
      invariant Sorted(KeyLess, run + iter) && Blocks.AllFit(iter) && Blocks.AllFit(run)
      invariant builder == null ==> run == []
      invariant builder != null ==>
                  builder.Valid() && builder.entries == run && fresh(builder) && fresh(builder.builder)
      invariant builder != null ==> builder.crc == o.crc && builder.hash == o.hash && builder.blockSize == o.blockSize
      invariant all ==
                OutRuns(newSst) + Outputs(full, compactToBottom, iter, if builder == null then None else Some(run))
      decreases |iter|
    {
      NextEntry(o, compactToBottom, run, iter, if builder == null then None else Some(run));
      FitsStep(run, iter);
      if builder == null {
        builder := new SsTableBuilder(o.crc, o.hash, o.blockSize);
      }
      if compactToBottom {
        if iter[0].value != [] {
          builder.Add(iter[0].key, iter[0].value);
          run := run + [iter[0]];
        }
      } else {
        builder.Add(iter[0].key, iter[0].value);
        run := run + [iter[0]];
      }
      iter := iter[1..];
      if builder.EstimatedSize() >= o.targetSstSize {
        var t, sst := FinishTable(o, builder, run, nextId);
        OneMoreTable(o, newSst, ssts, firstId, t, sst, all, Outputs(full, compactToBottom, iter, None));
        builder := null;
        newSst, ssts := newSst + [t], ssts + [sst];
        nextId, run := nextId + 1, [];
      }
    }
    assert run + iter == run;
    LastOutput(full, compactToBottom, if builder == null then None else Some(run));
    if builder != null {
      var t, sst := FinishTable(o, builder, run, nextId);
      OneMoreTable(o, newSst, ssts, firstId, t, sst, all, []);
      newSst, ssts := newSst + [t], ssts + [sst];
      nextId := nextId + 1;
    }
    if 1 <= o.targetSstSize {
      CutByFull(o, compactToBottom, input, newSst, ssts);
    }
  }

  lemma NoRuns(o: BuildOptions, firstId: nat)
    ensures GoodTables(o.hash, [], firstId) && AllBacked(o, [], []) && Blocks.AllFit([])
    ensures OutRuns([]) == [] && forall s: seq<Run<Key>> :: [] + s == s
  {
  }

  lemma LastOutput(full: Run<Key> -> bool, bottom: bool, open: Option<Run<Key>>)
    ensures Outputs(full, bottom, [], open) == if open.Some? then [open.value] else []
  {
  }
}
