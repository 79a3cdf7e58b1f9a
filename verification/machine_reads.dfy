/**
 * What readers may rely on over whole runs: the map of all writes, stable snapshots, atomic batches,
 * exactly as long as no compaction brings an old value back.
 */
module MachineReads {
  import opened Bytes
  import opened Common
  import opened Compaction
  import opened Contents
  import opened Jobs
  import opened Keys
  import opened LsmIter
  import opened Machine
  import opened MachineSafety
  import opened Mvcc
  import opened ReadPath
  import opened Runs
  import opened State
  import opened Steps

  // ---------- one step ----------

  /** The step applies a compaction to the bottom. */
  ghost predicate IsBottomFinish(c: Config, step: Step) {
    step.FinishJob? && c.job.Some? && ToBottom(c.job.value.task)
  }

  /** The step removes a tombstone that a reader of `user` at `t` sees, and an older value lies below. */
  ghost predicate Resurrects(c: Config, step: Step, user: Bytes, t: u64) {
    && IsBottomFinish(c, step)
    && var j := c.job.value;
    && Readable(j.snapshot.sstables, j.task)
    && var n := Newest(c.contents, user, t);
    && n.Some? && exists x: u64 :: Uncovers(c.contents, CompactInput(j.snapshot.sstables, j.task), user, n.value, x)
  }

  /** Then the read was without result, and now has one. */
  lemma ResurrectsFromNone(p: Params, c: Config, step: Step, c': Config, user: Bytes, t: u64)
    requires Does(p, c, step, c') && Resurrects(c, step, user, t)
    ensures Read(c.contents, user, t) == None && Read(c'.contents, user, t).Some?
  {
    hide Newest, Finished, CompactInput, AfterCompaction, RunsToWrite;
    BottomReadChangesIff(c.contents, CompactInput(c.job.value.snapshot.sstables, c.job.value.task), user, t);
  }

  /** Applying a compaction changes any read, also at a timestamp to come, exactly when it resurrects a value. */
  lemma FinishReadIff(p: Params, c: Config, c': Config, user: Bytes, t: u64)
    requires Does(p, c, FinishJob, c')
    ensures Read(c'.contents, user, t) != Read(c.contents, user, t) <==> Resurrects(c, FinishJob, user, t)
  {
    hide AfterCompaction, Uncovers, CompactInput, Read, Newest, RunsToWrite, Finished;
    var j := c.job.value;
    var input := CompactInput(j.snapshot.sstables, j.task);
    if ToBottom(j.task) {
      BottomReadChangesIff(c.contents, input, user, t);
    } else {
      UpperPreservesStore(c.contents, input);
    }
  }

  /** A read at a published timestamp changes in a step exactly when a compaction resurrects an old value. */
  lemma ReadChangesIff(p: Params, c: Config, step: Step, c': Config, user: Bytes, t: u64)
    requires MachineInv(p, c) && Does(p, c, step, c') && t <= c.commitTs
    ensures Read(c'.contents, user, t) != Read(c.contents, user, t) <==> Resurrects(c, step, user, t)
  {
    hide Inv, JobOk, Shape, AfterCompaction, Uncovers, CompactInput, Read, Newest, RunsToWrite, Finished, FlushTable,
      CanStart, InFlightInMemtable, LastWrite;
    match step
    case PutNext =>
      assert c.batch.value.pending[0].key.ts == c.commitTs + 1;
      ReadAgrees(c.contents, c'.contents, user, t);
    case FinishJob => FinishReadIff(p, c, c', user, t);
    case _ =>
  }

  // ---------- snapshots ----------

  ghost predicate NoResurrection(run: seq<Config>, steps: seq<Step>, from: nat, to: nat, user: Bytes, t: u64)
    requires to <= |steps| && to <= |run|
  {
    forall k :: from <= k < to ==> !Resurrects(run[k], steps[k], user, t)
  }

  lemma {:induction false} TimeGrows(p: Params, run: seq<Config>, steps: seq<Step>, i: nat, j: nat)
    requires IsRun(p, run, steps) && i <= j < |run|
    ensures run[i].commitTs <= run[j].commitTs
  {
    hide Finished, FlushTable, CanStart, RunsToWrite, AfterCompaction;
    if i < j {
      TimeGrows(p, run, steps, i, j - 1);
      assert Does(p, run[j - 1], steps[j - 1], run[j]);
    }
  }

  /**
   * Whatever happens after a timestamp is published, a read at it stays as it is, unless and until a
   * compaction resurrects an old value: then a read without result has one, and keeps it.
   */
  lemma {:induction false} SnapshotReadsAreStable(
    p: Params, run: seq<Config>, steps: seq<Step>, i: nat, j: nat, user: Bytes, t: u64)
    requires IsRun(p, run, steps) && MachineInv(p, run[0]) && i <= j < |run| && t <= run[i].commitTs
    ensures Read(run[j].contents, user, t) == Read(run[i].contents, user, t) <==>
            NoResurrection(run, steps, i, j, user, t)
    ensures !NoResurrection(run, steps, i, j, user, t) ==>
              Read(run[i].contents, user, t) == None && Read(run[j].contents, user, t).Some?
  {
    hide Does, MachineInv, Read, Resurrects;
    if i < j {
      SnapshotReadsAreStable(p, run, steps, i, j - 1, user, t);
      TimeGrows(p, run, steps, i, j - 1);
      RunKeepsInv(p, run, steps, j - 1);
      assert Does(p, run[j - 1], steps[j - 1], run[j]);
      ReadChangesIff(p, run[j - 1], steps[j - 1], run[j], user, t);
      if Resurrects(run[j - 1], steps[j - 1], user, t) {
        ResurrectsFromNone(p, run[j - 1], steps[j - 1], run[j], user, t);
      }
    }
  }

  /** The answer to a scan of one map is the answer to it of another exactly if all reads within the bounds agree. */
  lemma SameScanIff(r: Run<Bytes>, m: Store, m': Store, lower: Bound<Bytes>, upper: Bound<Bytes>, t: u64)
    requires IsScan(r, m, lower, upper, t)
    ensures IsScan(r, m', lower, upper, t) <==>
            forall user :: AboveLower(user, lower) && BelowUpper(user, upper) ==> Read(m', user, t) == Read(m, user, t)
  {
    hide Read, AboveLower, BelowUpper, Sorted, Less;
    if IsScan(r, m', lower, upper, t) {
      forall user | AboveLower(user, lower) && BelowUpper(user, upper) ensures Read(m', user, t) == Read(m, user, t) {
        var a, b := Read(m, user, t), Read(m', user, t);
        assert a.Some? ==> Entry(user, a.value) in r;
        assert b.Some? ==> Entry(user, b.value) in r;
      }
    }
  }

  /** The answer to a scan at a published timestamp stays so exactly if no key within the bounds is resurrected. */
  lemma SnapshotScansAreStable(
    p: Params, run: seq<Config>, steps: seq<Step>, i: nat, j: nat,
    r: Run<Bytes>, lower: Bound<Bytes>, upper: Bound<Bytes>, t: u64)
    requires IsRun(p, run, steps) && MachineInv(p, run[0]) && i <= j < |run| && t <= run[i].commitTs
    requires IsScan(r, run[i].contents, lower, upper, t)
    ensures IsScan(r, run[j].contents, lower, upper, t) <==>
            forall user :: AboveLower(user, lower) && BelowUpper(user, upper) ==>
              NoResurrection(run, steps, i, j, user, t)
  {
    hide Does, MachineInv, Read, NoResurrection, AboveLower, BelowUpper, IsScan;
    SameScanIff(r, run[i].contents, run[j].contents, lower, upper, t);
    forall user
      ensures Read(run[j].contents, user, t) == Read(run[i].contents, user, t) <==>
              NoResurrection(run, steps, i, j, user, t)
    {
      SnapshotReadsAreStable(p, run, steps, i, j, user, t);
    }
  }

  // ---------- all writes ----------

  /** What the step is about to put. */
  ghost function PutOf(c: Config, step: Step): Option<Entry<Key>> {
    if step.PutNext? && c.batch.Some? && c.batch.value.pending != [] then Some(c.batch.value.pending[0]) else None
  }

  /** The map `w` after what the step puts. */
  ghost function After(w: Store, c: Config, step: Step): Store {
    var put := PutOf(c, step);
    if put.Some? then w[put.value.key := put.value.value] else w
  }

  /** The map of a run at `from`, with everything that the steps from there to `n` put. */
  ghost function Written(run: seq<Config>, steps: seq<Step>, from: nat, n: nat): Store
    requires from <= n <= |steps| && n < |run|
  {
    if n == from then run[from].contents
    else
      After(Written(run, steps, from, n - 1), run[n - 1], steps[n - 1])
  }

  /** The step writes a version that a reader of `user` at `t` sees at once. */
  ghost predicate Puts(c: Config, step: Step, user: Bytes, t: u64) {
    var put := PutOf(c, step);
    put.Some? && put.value.key.user == user && put.value.key.ts <= t
  }

  ghost predicate ResurrectsLast(run: seq<Config>, steps: seq<Step>, k: nat, n: nat, user: Bytes, t: u64)
    requires n <= |steps| && n <= |run|
  {
    k < n && Resurrects(run[k], steps[k], user, t) && forall l :: k < l < n ==> !Puts(run[l], steps[l], user, t)
  }

  /** Some step resurrects an old value for a reader of `user` at `t`, who is not given a new one since. */
  ghost predicate Stale(run: seq<Config>, steps: seq<Step>, from: nat, n: nat, user: Bytes, t: u64)
    requires n <= |steps| && n <= |run|
  {
    exists k :: from <= k < n && ResurrectsLast(run, steps, k, n, user, t)
  }

  lemma StaleStep(run: seq<Config>, steps: seq<Step>, from: nat, n: nat, user: Bytes, t: u64)
    requires from < n <= |steps| && n <= |run|
    ensures Stale(run, steps, from, n, user, t) <==>
            || Resurrects(run[n - 1], steps[n - 1], user, t)
            || (Stale(run, steps, from, n - 1, user, t) && !Puts(run[n - 1], steps[n - 1], user, t))
  {
    hide Resurrects, Puts;
    var last := n - 1;
    if k :| from <= k < last && ResurrectsLast(run, steps, k, last, user, t) {
      assert !Puts(run[last], steps[last], user, t) ==> ResurrectsLast(run, steps, k, n, user, t);
    }
    if k :| from <= k < n && ResurrectsLast(run, steps, k, n, user, t) {
      assert k < last ==> ResurrectsLast(run, steps, k, last, user, t);
    }
    assert Resurrects(run[last], steps[last], user, t) ==> ResurrectsLast(run, steps, last, n, user, t);
  }

  /** No version in the map is newer than the batch in flight, or else the published timestamp. */
  ghost predicate NotAhead(m: Store, c: Config) {
    forall k :: k in m ==> k.ts as int <= c.commitTs as int + (if c.batch.Some? then 1 else 0)
  }

  lemma {:induction false} WrittenNotAhead(p: Params, run: seq<Config>, steps: seq<Step>, from: nat, n: nat)
    requires IsRun(p, run, steps) && MachineInv(p, run[0]) && from <= n < |run|
    ensures NotAhead(Written(run, steps, from, n), run[n]) && NotAhead(run[n].contents, run[n])
  {
    hide Does, MachineInv, NotAhead;
    RunKeepsInv(p, run, steps, n);
    StoredNotAhead(p, run[n]);
    if from < n {
      WrittenNotAhead(p, run, steps, from, n - 1);
      RunKeepsInv(p, run, steps, n - 1);
      StillNotAhead(p, run[n - 1], steps[n - 1], run[n], Written(run, steps, from, n - 1));
    }
  }

  lemma StoredNotAhead(p: Params, c: Config)
    requires MachineInv(p, c)
    ensures NotAhead(c.contents, c)
  {
    hide Inv, JobOk, Shape, LastWrite, InFlightInMemtable;
  }

  lemma StillNotAhead(p: Params, c: Config, step: Step, c': Config, w: Store)
    requires MachineInv(p, c) && Does(p, c, step, c') && NotAhead(w, c)
    ensures NotAhead(After(w, c, step), c')
  {
    hide Inv, JobOk, Shape, Finished, FlushTable, CanStart, RunsToWrite, AfterCompaction, CompactInput, EntriesOf,
      LastWrite, InFlightInMemtable, PutRecord, Freeze, Flush, TableOk, Readable, RecordsOk;
  }

  /** Putting a version that no other is newer than: its readers see it, all others read as before. */
  lemma ReadAfterPut(m: Store, e: Entry<Key>, user: Bytes, t: u64)
    requires forall k :: k in m ==> k.ts <= e.key.ts
    ensures Read(m[e.key := e.value], user, t) ==
            if e.key.user == user && e.key.ts <= t then (if e.value == [] then None else Some(e.value))
            else Read(m, user, t)
  {
    var after := m[e.key := e.value];
    if e.key.user == user && e.key.ts <= t {
      assert Newest(after, user, t) == Some(e.key.ts) by {
        assert Key(user, e.key.ts) in after;
      }
    } else {
      ReadAgrees(m, after, user, t);
    }
  }

  /**
   * Refinement, for every run and every read: what a reader is given is what the map of all writes
   * says, if and only if no value that a compaction resurrected for the reader is still the newest.
   */
  lemma {:induction false} ReadsAreWrites(
    p: Params, run: seq<Config>, steps: seq<Step>, from: nat, n: nat, user: Bytes, t: u64)
    requires IsRun(p, run, steps) && MachineInv(p, run[0]) && from <= n < |run|
    ensures Read(run[n].contents, user, t) == Read(Written(run, steps, from, n), user, t) <==>
            !Stale(run, steps, from, n, user, t)
    ensures Stale(run, steps, from, n, user, t) ==>
              Read(run[n].contents, user, t).Some? && Read(Written(run, steps, from, n), user, t) == None
  {
    hide Does, MachineInv, Read, Resurrects, Stale, NotAhead, Puts, After;
    if from < n {
      ReadsAreWrites(p, run, steps, from, n - 1, user, t);
      StaleStep(run, steps, from, n, user, t);
      RunKeepsInv(p, run, steps, n - 1);
      WrittenNotAhead(p, run, steps, from, n - 1);
      ReadsAfterStep(p, run[n - 1], steps[n - 1], run[n], Written(run, steps, from, n - 1), user, t);
    } else {
      NeverStale(run, steps, n, user, t);
    }
  }

  /** The same for scans: the answer is that of the map of all writes exactly if no read within the bounds is stale. */
  lemma ScansAreWrites(
    p: Params, run: seq<Config>, steps: seq<Step>, from: nat, n: nat,
    r: Run<Bytes>, lower: Bound<Bytes>, upper: Bound<Bytes>, t: u64)
    requires IsRun(p, run, steps) && MachineInv(p, run[0]) && from <= n < |run|
    requires IsScan(r, Written(run, steps, from, n), lower, upper, t)
    ensures IsScan(r, run[n].contents, lower, upper, t) <==>
            forall user :: AboveLower(user, lower) && BelowUpper(user, upper) ==> !Stale(run, steps, from, n, user, t)
  {
    hide Does, MachineInv, Read, Stale, AboveLower, BelowUpper, IsScan, Written;
    SameScanIff(r, Written(run, steps, from, n), run[n].contents, lower, upper, t);
    forall user
      ensures Read(run[n].contents, user, t) == Read(Written(run, steps, from, n), user, t) <==>
              !Stale(run, steps, from, n, user, t)
    {
      ReadsAreWrites(p, run, steps, from, n, user, t);
    }
  }

  /** What one step does to a read, and to the same read of a map that the step's record goes into, too. */
  lemma ReadsAfterStep(p: Params, c: Config, step: Step, c': Config, w: Store, user: Bytes, t: u64)
    requires MachineInv(p, c) && Does(p, c, step, c') && NotAhead(w, c) && NotAhead(c.contents, c)
    ensures var now, written := Read(c'.contents, user, t), Read(After(w, c, step), user, t);
            if Puts(c, step, user, t) then now == written && !Resurrects(c, step, user, t)
            else
              && written == Read(w, user, t)
              && (now != Read(c.contents, user, t) <==> Resurrects(c, step, user, t))
              && (Resurrects(c, step, user, t) ==> now.Some? && Read(c.contents, user, t) == None)
  {
    hide MachineInv, Finished, FlushTable, CanStart, RunsToWrite, AfterCompaction, CompactInput, EntriesOf, PutRecord,
      Freeze, Flush, Read, NotAhead, TableOk, Readable, RecordsOk, Newest, Uncovers;
    if step.PutNext? {
      NewestPut(p, c, w);
      NewestPut(p, c, c.contents);
      ReadAfterPut(c.contents, c.batch.value.pending[0], user, t);
      ReadAfterPut(w, c.batch.value.pending[0], user, t);
    } else if step.FinishJob? {
      FinishReadIff(p, c, c', user, t);
      if Resurrects(c, step, user, t) {
        ResurrectsFromNone(p, c, step, c', user, t);
      }
    }
  }

  lemma NewestPut(p: Params, c: Config, m: Store)
    requires MachineInv(p, c) && NotAhead(m, c) && c.batch.Some? && c.batch.value.pending != []
    ensures forall k :: k in m ==> k.ts <= c.batch.value.pending[0].key.ts
  {
    hide Inv, JobOk, Shape, LastWrite, InFlightInMemtable;
  }

  lemma NeverStale(run: seq<Config>, steps: seq<Step>, n: nat, user: Bytes, t: u64)
    requires n <= |steps| && n <= |run|
    ensures !Stale(run, steps, n, n, user, t)
  {
  }

  // ---------- what is stored ----------

  /** The step leaves out a tombstone. */
  ghost predicate Drops(c: Config, step: Step, k: Key) {
    && IsBottomFinish(c, step)
    && Readable(c.job.value.snapshot.sstables, c.job.value.task)
    && Dropped(c.contents, CompactInput(c.job.value.snapshot.sstables, c.job.value.task), k)
  }

  ghost predicate PutsKey(c: Config, step: Step, k: Key) {
    PutOf(c, step).Some? && PutOf(c, step).value.key == k
  }

  ghost predicate DropsLast(run: seq<Config>, steps: seq<Step>, l: nat, n: nat, k: Key)
    requires n <= |steps| && n <= |run|
  {
    l < n && Drops(run[l], steps[l], k) && forall i :: l < i < n ==> !PutsKey(run[i], steps[i], k)
  }

  /** The version was left out, as a tombstone, by a compaction to the bottom, and not put again. */
  ghost predicate Gone(run: seq<Config>, steps: seq<Step>, from: nat, n: nat, k: Key)
    requires n <= |steps| && n <= |run|
  {
    exists l :: from <= l < n && DropsLast(run, steps, l, n, k)
  }

  lemma GoneStep(run: seq<Config>, steps: seq<Step>, from: nat, n: nat, k: Key)
    requires from < n <= |steps| && n <= |run|
    ensures Gone(run, steps, from, n, k) <==>
            || Drops(run[n - 1], steps[n - 1], k)
            || (Gone(run, steps, from, n - 1, k) && !PutsKey(run[n - 1], steps[n - 1], k))
  {
    hide Drops, PutsKey;
    var last := n - 1;
    if l :| from <= l < last && DropsLast(run, steps, l, last, k) {
      assert !PutsKey(run[last], steps[last], k) ==> DropsLast(run, steps, l, n, k);
    }
    if l :| from <= l < n && DropsLast(run, steps, l, n, k) {
      assert l < last ==> DropsLast(run, steps, l, last, k);
    }
    assert Drops(run[last], steps[last], k) ==> DropsLast(run, steps, last, n, k);
  }

  /** Exactly the versions put and not gone are stored, each as it was last put; only tombstones go. */
  lemma {:induction false} StoredIff(p: Params, run: seq<Config>, steps: seq<Step>, from: nat, n: nat, k: Key)
    requires IsRun(p, run, steps) && from <= n < |run|
    ensures var m, w := run[n].contents, Written(run, steps, from, n);
            && (k in m <==> k in w && !Gone(run, steps, from, n, k))
            && (k in m ==> m[k] == w[k])
            && (Gone(run, steps, from, n, k) ==> k in w && w[k] == [])
  {
    hide Does, Gone, Drops, PutsKey, After;
    if from < n {
      StoredIff(p, run, steps, from, n - 1, k);
      GoneStep(run, steps, from, n, k);
      StoredAfterStep(p, run[n - 1], steps[n - 1], run[n], Written(run, steps, from, n - 1), k);
    } else {
      NeverGone(run, steps, n, k);
    }
  }

  /** What one step does to one version in the stored map, and in a map that the step's record goes into, too. */
  lemma StoredAfterStep(p: Params, c: Config, step: Step, c': Config, w: Store, k: Key)
    requires Does(p, c, step, c')
    ensures var m, m', w' := c.contents, c'.contents, After(w, c, step);
            if PutsKey(c, step, k) then k in m' && k in w' && m'[k] == w'[k] && !Drops(c, step, k)
            else
              && (k in w' <==> k in w) && (k in w ==> w'[k] == w[k])
              && (k in m' <==> k in m && !Drops(c, step, k)) && (k in m' ==> m'[k] == m[k])
              && (Drops(c, step, k) ==> k in m && m[k] == [])
  {
    hide Finished, FlushTable, CanStart, RunsToWrite, AfterCompaction, CompactInput, EntriesOf, PutRecord, Freeze,
      Flush, Dropped, TableOk, Readable, RecordsOk;
    if step.FinishJob? {
      DroppedIsStored(p, c, c', k);
    }
  }

  lemma NeverGone(run: seq<Config>, steps: seq<Step>, n: nat, k: Key)
    requires n <= |steps| && n <= |run|
    ensures !Gone(run, steps, n, n, k)
  {
  }

  lemma DroppedIsStored(p: Params, c: Config, c': Config, k: Key)
    requires Does(p, c, FinishJob, c')
    ensures Drops(c, FinishJob, k) ==> k in c.contents && c.contents[k] == []
    ensures k in c'.contents <==> k in c.contents && !Drops(c, FinishJob, k)
    ensures k in c'.contents ==> c'.contents[k] == c.contents[k]
  {
    hide Finished, CompactInput, AfterCompaction, RunsToWrite;
    var input := CompactInput(c.job.value.snapshot.sstables, c.job.value.task);
    AfterHas(c.contents, input, k);
    UpperPreservesStore(c.contents, input);
  }

  /** What is left of all writes of the first `n` steps. */
  ghost function Remaining(run: seq<Config>, steps: seq<Step>, n: nat): Store
    requires n <= |steps| && n < |run|
  {
    map k | k in Written(run, steps, 0, n) && !Gone(run, steps, 0, n, k) :: Written(run, steps, 0, n)[k]
  }

  /**
   * In every reachable state, each version ever put that has not gone is in exactly one memtable or
   * table, and nothing else is.
   */
  lemma ReachableStateHoldsWrites(p: Params, run: seq<Config>, steps: seq<Step>, n: nat)
    requires SaneOptions(p.st) && IsRun(p, run, steps) && run[0] == Initial(p.st) && n < |run|
    ensures Inv(p.hash, run[n].state, run[n].nextId, Remaining(run, steps, n))
  {
    hide Inv, Does, Gone, Written;
    ReachableInv(p, run, steps);
    assert MachineInv(p, run[n]);
    forall k
      ensures k in run[n].contents <==> k in Written(run, steps, 0, n) && !Gone(run, steps, 0, n, k)
      ensures k in run[n].contents ==> run[n].contents[k] == Written(run, steps, 0, n)[k]
    {
      StoredIff(p, run, steps, 0, n, k);
    }
    assert run[n].contents == Remaining(run, steps, n);
  }

  /** The stored map is the map of all writes, version by version, if and only if none has gone. */
  lemma ContentsAreWrites(p: Params, run: seq<Config>, steps: seq<Step>, n: nat)
    requires IsRun(p, run, steps) && n < |run|
    ensures run[n].contents == Written(run, steps, 0, n) <==> forall k :: !Gone(run, steps, 0, n, k)
  {
    hide Does, Gone, Written;
    forall k
      ensures k in run[n].contents <==> k in Written(run, steps, 0, n) && !Gone(run, steps, 0, n, k)
      ensures k in run[n].contents ==> run[n].contents[k] == Written(run, steps, 0, n)[k]
      ensures Gone(run, steps, 0, n, k) ==> k in Written(run, steps, 0, n)
    {
      StoredIff(p, run, steps, 0, n, k);
    }
  }

  ghost predicate NoBottomFinish(run: seq<Config>, steps: seq<Step>, from: nat, to: nat) {
    to <= |steps| && to < |run| && forall i :: from <= i < to ==> !IsBottomFinish(run[i], steps[i])
  }

  /** In particular this is so, and no read is stale, without compactions to the bottom. */
  lemma {:induction false} UpperRunsAreExact(p: Params, run: seq<Config>, steps: seq<Step>, n: nat)
    requires IsRun(p, run, steps) && n < |run| && NoBottomFinish(run, steps, 0, n)
    ensures run[n].contents == Written(run, steps, 0, n)
    ensures forall user, t: u64 :: !Stale(run, steps, 0, n, user, t)
  {
    hide Does, Written;
    ContentsAreWrites(p, run, steps, n);
  }

  /** In every run nothing but tombstones is ever lost, and nothing is made up. */
  lemma {:induction false} OnlyTombstonesVanish(p: Params, run: seq<Config>, steps: seq<Step>, n: nat, k: Key)
    requires IsRun(p, run, steps) && n < |run|
    ensures var m, w := run[n].contents, Written(run, steps, 0, n);
            && (k in m ==> k in w && w[k] == m[k])
            && (k in w && k !in m ==> w[k] == [])
  {
    hide Does, Written, Gone;
    StoredIff(p, run, steps, 0, n, k);
  }

  // ---------- batches ----------

  /** What a reader sees of `user` once a batch is laid over a store read as `before`. */
  function Overlaid(batch: seq<Entry<Key>>, user: Bytes, before: Option<Bytes>): Option<Bytes> {
    match LastWrite(batch, user)
    case None => before
    case Some(v) => if v == [] then None else Some(v)
  }

  /** The batch deletes `user`, its tombstone has been compacted away before publication, and a value lies below. */
  ghost predicate LosesDeletion(c: Config, user: Bytes)
    requires c.batch.Some? && c.commitTs < MAX_TS
  {
    && LastWrite(c.batch.value.done, user) == Some([]) && Key(user, c.commitTs + 1) !in c.contents
    && Read(c.contents, user, c.commitTs) != None
  }

  /** Publishing shows the whole batch, except for a deletion that a compaction has overtaken. */
  lemma PublishShowsBatch(p: Params, c: Config, c': Config, user: Bytes)
    requires MachineInv(p, c) && Does(p, c, Publish, c')
    ensures (Read(c'.contents, user, c'.commitTs) ==
             Overlaid(c.batch.value.done, user, Read(c.contents, user, c.commitTs))) <==> !LosesDeletion(c, user)
  {
    hide Inv, JobOk, Shape, InFlightInMemtable, LastWrite;
    var b, ts := c.batch.value, c.commitTs + 1;
    var last := LastWrite(b.done, user);
    assert Key(user, ts) in c.contents ==> last == Some(c.contents[Key(user, ts)]);
    assert last.Some? && last != Some([]) ==> Key(user, ts) in c.contents;
    if Key(user, ts) in c.contents {
      assert Newest(c.contents, user, ts) == Some(ts);
    } else {
      assert Newest(c.contents, user, ts) == Newest(c.contents, user, c.commitTs);
    }
  }

  /** From its first record to its publication a batch is in flight, at one timestamp, in order. */
  ghost predicate InFlight(c: Config, ts: u64, all: seq<Entry<Key>>) {
    c.batch.Some? && c.commitTs < MAX_TS && c.commitTs == ts && c.batch.value.done + c.batch.value.pending == all
  }

  ghost predicate NoPublish(steps: seq<Step>, from: nat, to: nat) {
    to <= |steps| && forall i :: from <= i < to ==> !steps[i].Publish?
  }

  /** Until it is published a batch stays in flight. */
  lemma {:induction false} BatchStaysInFlight(
    p: Params, run: seq<Config>, steps: seq<Step>, i: nat, j: nat, records: seq<Record>)
    requires IsRun(p, run, steps) && i < j <= |steps| && steps[i] == BeginBatch(records) && NoPublish(steps, i, j)
    ensures run[i].commitTs < MAX_TS && InFlight(run[j], run[i].commitTs, EntriesOf(records, run[i].commitTs + 1))
  {
    hide Finished, FlushTable, CanStart, RunsToWrite, AfterCompaction, CompactInput, EntriesOf;
    assert Does(p, run[i], steps[i], run[i + 1]);
    if j == i + 1 {
      assert [] + EntriesOf(records, run[i].commitTs + 1) == EntriesOf(records, run[i].commitTs + 1);
    } else {
      BatchStaysInFlight(p, run, steps, i, j - 1, records);
      assert Does(p, run[j - 1], steps[j - 1], run[j]);
      if steps[j - 1].PutNext? {
        var b := run[j - 1].batch.value;
        assert b.done + b.pending == b.done + [b.pending[0]] + b.pending[1..];
      }
    }
  }

  /** Reading the writes since the batch began, at its timestamp, gives the records put so far over what was there. */
  lemma {:induction false} WritesOfBatch(
    p: Params, run: seq<Config>, steps: seq<Step>, i: nat, j: nat, records: seq<Record>, user: Bytes)
    requires IsRun(p, run, steps) && MachineInv(p, run[0]) && i < j <= |steps|
    requires steps[i] == BeginBatch(records) && NoPublish(steps, i, j)
    ensures run[i].commitTs < MAX_TS && run[j].batch.Some?
    ensures Read(Written(run, steps, i, j), user, run[i].commitTs + 1) ==
            Overlaid(run[j].batch.value.done, user, Read(run[i].contents, user, run[i].commitTs))
  {
    hide Does, MachineInv, EntriesOf, Read, LastWrite, Overlaid, NotAhead, After;
    BatchStaysInFlight(p, run, steps, i, j, records);
    RunKeepsInv(p, run, steps, j - 1);
    if j == i + 1 {
      NothingWritten(p, run[i], steps[i], run[j], user);
      assert Written(run, steps, i, i) == run[i].contents;
    } else {
      WritesOfBatch(p, run, steps, i, j - 1, records, user);
      BatchStaysInFlight(p, run, steps, i, j - 1, records);
      WrittenNotAhead(p, run, steps, i, j - 1);
      BatchStep(p, run[j - 1], steps[j - 1], run[j], Written(run, steps, i, j - 1), user,
                Read(run[i].contents, user, run[i].commitTs));
    }
  }

  /** One more step of a batch in flight: a record goes over the map as it goes over the records before. */
  lemma BatchStep(p: Params, c: Config, step: Step, c': Config, w: Store, user: Bytes, before: Option<Bytes>)
    requires MachineInv(p, c) && Does(p, c, step, c') && c.batch.Some? && c'.batch.Some? && c.commitTs < MAX_TS
    requires NotAhead(w, c) && Read(w, user, c.commitTs + 1) == Overlaid(c.batch.value.done, user, before)
    ensures Read(After(w, c, step), user, c.commitTs + 1) == Overlaid(c'.batch.value.done, user, before)
  {
    hide MachineInv, Finished, FlushTable, CanStart, RunsToWrite, AfterCompaction, CompactInput, Read, LastWrite,
      NotAhead, PutRecord, Freeze, Flush, TableOk, EntriesOf, Readable, RecordsOk;
    if step.PutNext? {
      var b := c.batch.value;
      NewestPut(p, c, w);
      PutTime(p, c);
      ReadAfterPut(w, b.pending[0], user, c.commitTs + 1);
      LastWriteSnoc(b.done, b.pending[0]);
    }
  }

  lemma PutTime(p: Params, c: Config)
    requires MachineInv(p, c) && c.batch.Some? && c.batch.value.pending != []
    ensures c.commitTs < MAX_TS && c.batch.value.pending[0].key.ts == c.commitTs + 1
  {
    hide Inv, JobOk, Shape, LastWrite, InFlightInMemtable;
  }

  /** When a batch begins the next timestamp reads like the published one. */
  lemma NothingWritten(p: Params, c: Config, step: Step, c': Config, user: Bytes)
    requires MachineInv(p, c) && Does(p, c, step, c') && step.BeginBatch?
    ensures c.commitTs < MAX_TS && c'.batch.Some? && After(c.contents, c, step) == c.contents
    ensures Read(c.contents, user, c.commitTs + 1) ==
            Overlaid(c'.batch.value.done, user, Read(c.contents, user, c.commitTs))
  {
    hide Inv, JobOk, Shape, EntriesOf, RecordsOk;
    assert Key(user, c.commitTs + 1) !in c.contents;
  }

  /**
   * Atomicity. A batch begun at `i` and published at `j`, with anything in between: until then a reader
   * of a published timestamp notices it not at all, and any change exactly by resurrection; afterwards
   * a reader sees every record, the last one for a repeated key, if and only if no resurrected value is
   * still the newest.
   */
  lemma BatchIsAtomic(p: Params, run: seq<Config>, steps: seq<Step>, i: nat, j: nat, records: seq<Record>, user: Bytes)
    requires IsRun(p, run, steps) && MachineInv(p, run[0]) && i < j < |steps|
    requires steps[i] == BeginBatch(records) && steps[j] == Publish && NoPublish(steps, i, j)
    ensures run[i].commitTs < MAX_TS && run[j + 1].commitTs == run[i].commitTs + 1
    ensures forall k, t: u64 :: i <= k <= j && t <= run[i].commitTs ==>
              && run[k].commitTs == run[i].commitTs
              && (Read(run[k].contents, user, t) == Read(run[i].contents, user, t) <==>
                  NoResurrection(run, steps, i, k, user, t))
    ensures var ts := run[j + 1].commitTs;
            Read(run[j + 1].contents, user, ts) ==
            Overlaid(EntriesOf(records, ts), user, Read(run[i].contents, user, run[i].commitTs)) <==>
            !Stale(run, steps, i, j, user, ts)
  {
    hide Inv, JobOk, BatchOk, Shape, Read, Finished, FlushTable, CanStart, RunsToWrite, AfterCompaction, CompactInput,
      EntriesOf, LastWrite, Overlaid, NoResurrection, Stale, Written, TableOk;
    forall k, t: u64 | i <= k <= j && t <= run[i].commitTs
      ensures run[k].commitTs == run[i].commitTs
      ensures Read(run[k].contents, user, t) == Read(run[i].contents, user, t) <==>
              NoResurrection(run, steps, i, k, user, t)
    {
      if i < k {
        BatchStaysInFlight(p, run, steps, i, k, records);
      }
      SnapshotReadsAreStable(p, run, steps, i, k, user, t);
    }
    BatchStaysInFlight(p, run, steps, i, j, records);
    assert Does(p, run[j], steps[j], run[j + 1]);
    var b := run[j].batch.value;
    assert b.done + [] == b.done;
    WritesOfBatch(p, run, steps, i, j, records, user);
    ReadsAreWrites(p, run, steps, i, j, user, run[i].commitTs + 1);
  }

  ghost predicate IsLastWrite(batch: seq<Entry<Key>>, user: Bytes, i: nat) {
    i < |batch| && batch[i].key.user == user && forall j :: i < j < |batch| ==> batch[j].key.user != user
  }

  /** `LastWrite` finds the record with the greatest index for its user key. */
  lemma {:induction false} LastWriteIsLast(batch: seq<Entry<Key>>, user: Bytes, i: nat)
    requires IsLastWrite(batch, user, i)
    ensures LastWrite(batch, user) == Some(batch[i].value)
  {
    var n := |batch| - 1;
    if i < n {
      assert batch[n].key.user != user;
      LastWriteIsLast(batch[..n], user, i);
    }
  }
}
