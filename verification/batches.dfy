/** The records of one batch, put one after the other: what the machine has reached after the last. */
module Batches {
  import opened Bytes
  import opened Common
  import opened Keys
  import opened Machine
  import opened MachineReads
  import opened MachineSafety
  import opened MemTables
  import opened Mvcc
  import opened Runs
  import opened Steps

  function WriteAll(m: Store, data: seq<Entry<Key>>): Store
    decreases |data|
  {
    if data == [] then m else WriteAll(m[data[0].key := data[0].value], data[1..])
  }

  function Put1(c: Config): Config
    requires c.batch.Some? && c.batch.value.pending != []
  {
    var b := c.batch.value;
    var e := b.pending[0];
    c.(state := PutRecord(c.state, e), contents := c.contents[e.key := e.value],
       batch := Some(b.(pending := b.pending[1..], done := b.done + [e])))
  }

  /** The configuration after all pending records. */
  function PutPending(c: Config): Config
    requires c.batch.Some?
  {
    var b := c.batch.value;
    c.(state := c.state.(memtable := PutAll(c.state.memtable, b.pending)), contents := WriteAll(c.contents, b.pending),
       batch := Some(b.(pending := [], done := b.done + b.pending)))
  }

  lemma PutPendingStep(c: Config)
    requires c.batch.Some? && c.batch.value.pending != []
    ensures PutPending(Put1(c)) == PutPending(c)
  {
    hide PutEntry;
    var b := c.batch.value;
    assert b.done + [b.pending[0]] + b.pending[1..] == b.done + b.pending;
  }

  /** Every record put so far is still stored, or a later one for its key. */
  ghost predicate NothingLost(c: Config) {
    && c.batch.Some? && c.commitTs < MAX_TS
    && forall user :: LastWrite(c.batch.value.done, user).Some? ==> Key(user, c.commitTs + 1) in c.contents
  }

  lemma PutLosesNothing(p: Params, c: Config)
    requires MachineInv(p, c) && NothingLost(c) && c.batch.value.pending != []
    ensures NothingLost(Put1(c))
  {
    hide MachineInv, LastWrite, PutRecord;
    PutTime(p, c);
    LastWriteSnoc(c.batch.value.done, c.batch.value.pending[0]);
  }

  lemma LosesNoDeletion(c: Config, user: Bytes)
    requires NothingLost(c)
    ensures !LosesDeletion(c, user)
  {
    hide LastWrite, Read;
  }

  lemma SameBatchLost(c: Config, c': Config)
    requires c'.batch == c.batch && c'.commitTs == c.commitTs && c'.contents == c.contents
    ensures NothingLost(c) ==> NothingLost(c')
  {
    hide LastWrite;
  }

  lemma NothingPut(c: Config)
    requires c.batch.Some? && c.batch.value.done == [] && c.commitTs < MAX_TS
    ensures NothingLost(c)
  {
  }

  /** Putting all pending records keeps the invariant, and readers of published timestamps do not notice. */
  lemma {:induction false} PutPendingKeeps(p: Params, c: Config)
    requires MachineInv(p, c) && c.batch.Some?
    ensures MachineInv(p, PutPending(c))
    ensures forall user, t: u64 :: t <= c.commitTs ==>
              Read(PutPending(c).contents, user, t) == Read(c.contents, user, t)
    ensures NothingLost(c) ==> NothingLost(PutPending(c))
    decreases |c.batch.value.pending|
  {
    hide MachineInv, Read, PutPending, NothingLost;
    var b := c.batch.value;
    if b.pending == [] {
      PutNothing(c);
    } else {
      var c1 := Put1(c);
      assert Does(p, c, PutNext, c1) by { hide *; DoesPut(p, c); }
      StepKeepsInv(p, c, PutNext, c1);
      if NothingLost(c) {
        PutLosesNothing(p, c);
      }
      PutPendingKeeps(p, c1);
      PutPendingStep(c);
      forall user, t: u64 | t <= c.commitTs ensures Read(c1.contents, user, t) == Read(c.contents, user, t) {
        ReadChangesIff(p, c, PutNext, c1, user, t);
      }
    }
  }

  lemma PutNothing(c: Config)
    requires c.batch.Some? && c.batch.value.pending == []
    ensures PutPending(c) == c
  {
    var b := c.batch.value;
    assert b.done + [] == b.done;
  }

  lemma DoesPut(p: Params, c: Config)
    requires c.batch.Some? && c.batch.value.pending != []
    ensures Does(p, c, PutNext, Put1(c))
  {
  }

  /** A whole batch, from a quiet state to the published timestamp, possibly freezing the memtable on the way. */
  ghost predicate Committed(c: Config, records: seq<Record>, freeze: bool, c': Config)
    requires c.commitTs < MAX_TS
  {
    var data := EntriesOf(records, c.commitTs + 1);
    var full := c.state.(memtable := PutAll(c.state.memtable, data));
    && c'.state == (if freeze then Freeze(full, c.nextId) else full)
    && c'.nextId == (if freeze then c.nextId + 1 else c.nextId)
    && c'.commitTs == c.commitTs + 1 && c'.contents == WriteAll(c.contents, data) && c'.batch == None && c'.job == c.job
  }

  /** At timestamp `ts` readers see every record, the last one for a repeated key; below, what they saw before. */
  ghost predicate Visible(before: Store, after: Store, records: seq<Record>, ts: u64)
    requires 0 < ts
  {
    && (forall user :: Read(after, user, ts) == Overlaid(EntriesOf(records, ts), user, Read(before, user, ts - 1)))
    && (forall user, t: u64 :: t < ts ==> Read(after, user, t) == Read(before, user, t))
  }

  lemma CommitKeeps(p: Params, c: Config, records: seq<Record>, freeze: bool, c': Config)
    requires MachineInv(p, c) && c.batch.None? && c.commitTs < MAX_TS && Committed(c, records, freeze, c')
    requires RecordsOk(records)
    requires freeze ==> PutAll(c.state.memtable, EntriesOf(records, c.commitTs + 1)).entries != []
    ensures MachineInv(p, c')
    ensures Visible(c.contents, c'.contents, records, c'.commitTs)
  {
    hide MachineInv, Read, PutAll, WriteAll, EntriesOf, LastWrite, Overlaid, NothingLost, LosesDeletion;
    var data := EntriesOf(records, c.commitTs + 1);
    var c1 := c.(batch := Some(Batch(data, [])));
    StepKeepsInv(p, c, BeginBatch(records), c1);
    NothingPut(c1);
    PutPendingKeeps(p, c1);
    assert [] + data == data;
    var c2 := PutPending(c1);
    var c3 := if freeze then c2.(state := Freeze(c2.state, c2.nextId), nextId := c2.nextId + 1) else c2;
    if freeze {
      StepKeepsInv(p, c2, FreezeMemtable, c3);
    }
    assert NothingLost(c3) by { SameBatchLost(c2, c3); }
    StepKeepsInv(p, c3, Publish, c');
    forall user
      ensures Read(c'.contents, user, c'.commitTs) == Overlaid(data, user, Read(c.contents, user, c.commitTs))
    {
      LosesNoDeletion(c3, user);
      PublishShowsBatch(p, c3, c', user);
      assert Read(c3.contents, user, c.commitTs) == Read(c.contents, user, c.commitTs);
    }
    forall user, t: u64 | t <= c.commitTs ensures Read(c'.contents, user, t) == Read(c.contents, user, t) {
      assert c'.contents == c2.contents;
    }
  }
}
