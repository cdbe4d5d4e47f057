/** worker.js: the download with bounded retry, the worker's `processTask`,
    and one iteration of the `processQueue` polling loop. */
module Worker {
  import opened Wrappers
  import opened ImageTask
  import opened Processing

  /** The retry budget and delay of the call in `processTask`. */
  const Retries: nat := 3
  const RetryDelay: nat := 2000
  /** The argument of the one `processQueue` call. */
  const BatchSize: nat := 5

  /** What `fetchImageWithRetry` ends with: the settled attempt, the number
      of attempts made and the milliseconds spent waiting between them. */
  datatype Fetched = Fetched(outcome: Attempt, attempts: nat, waited: nat)

  /** `fetchImageWithRetry(url, retries, delay)` against a network whose
      k-th attempt settles as `network[k]`: it returns the first response,
      or, after `retries` retries, rethrows the last error. */
  function FetchImageWithRetry(network: seq<Attempt>, retries: nat, delay: nat): (r: Fetched)
    requires retries < |network|
    ensures 1 <= r.attempts <= retries + 1
    ensures r.outcome == network[r.attempts - 1]
    ensures forall k :: 0 <= k < r.attempts - 1 ==> network[k].Threw?
    ensures r.outcome.Threw? ==> r.attempts == retries + 1
    ensures r.waited == (r.attempts - 1) * delay
    decreases retries
  {
    match network[0]
    case Responded(_) => Fetched(network[0], 1, 0)
    case Threw(_) =>
      if retries > 0 then
        var rest := FetchImageWithRetry(network[1..], retries - 1, delay);
        Fetched(rest.outcome, rest.attempts + 1, rest.waited + delay)
      else
        Fetched(network[0], 1, 0)
  }

  /** When the first k attempts throw and attempt k + 1 responds, with k
      within the budget, that response is returned after k + 1 attempts. */
  lemma FirstResponseReturned(network: seq<Attempt>, retries: nat, delay: nat, k: nat)
    requires k <= retries < |network|
    requires forall j :: 0 <= j < k ==> network[j].Threw?
    requires network[k].Responded?
    ensures FetchImageWithRetry(network, retries, delay) == Fetched(network[k], k + 1, k * delay)
  {
  }

  /** When every attempt in the budget throws, exactly `retries + 1`
      attempts are made, the last error is thrown, and the delay is waited
      only between attempts. */
  lemma LastErrorThrown(network: seq<Attempt>, retries: nat, delay: nat)
    requires retries < |network|
    requires forall j :: 0 <= j <= retries ==> network[j].Threw?
    ensures FetchImageWithRetry(network, retries, delay) == Fetched(network[retries], retries + 1, retries * delay)
  {
  }

  /** The oracles for one task run by the worker: the network answers at
      least as many attempts as the retry budget allows, sharp's outcome,
      and the clock reading when the task settles. */
  datatype Conditions = Conditions(network: seq<Attempt>, writeError: Option<string>, clock: int)
  type RetryConditions = c: Conditions | Retries < |c.network|
    witness Conditions([Threw(""), Threw(""), Threw(""), Threw("")], None, 0)

  /** The download result `processTask` acts on. */
  function Download(c: RetryConditions): Attempt {
    FetchImageWithRetry(c.network, Retries, RetryDelay).outcome
  }

  /** The record the worker's `processTask` leaves for `t`. */
  function Outcome(t: TaskRecord, c: RetryConditions, dir: string): TaskRecord {
    Finish(t, Download(c), c.writeError, c.clock, dir)
  }

  /** The worker never propagates a download failure: a task whose every
      attempt throws fails with the last attempt's message. */
  lemma ExhaustedFails(t: TaskRecord, c: RetryConditions, dir: string)
    requires forall j :: 0 <= j <= Retries ==> c.network[j].Threw?
    ensures Outcome(t, c, dir).status == Failed
    ensures Outcome(t, c, dir).errorMessage == Some(c.network[Retries].message)
  {
    LastErrorThrown(c.network, Retries, RetryDelay);
  }

  /** The worker's `processTask`. */
  method ProcessTask(doc: TaskDocument, c: RetryConditions, out: OutputDirectory, store: Collection)
    requires store.Valid() && doc.id < |store.records|
    modifies doc, out, store
    ensures doc.Snapshot() == Outcome(old(doc.Snapshot()), c, out.path)
    ensures out.files == Written(old(out.files), old(doc.Snapshot()), Download(c), c.writeError, out.path)
    ensures store.Valid()
    ensures store.records == old(store.records)[doc.id := Persist(old(store.records)[doc.id], doc.Snapshot())]
  {
    var response := FetchImageWithRetry(c.network, Retries, RetryDelay);
    Execute(doc, response.outcome, c.writeError, c.clock, out, store);
  }

  /** The collection after the tasks in `batch` have been processed. */
  function Step(records: seq<TaskRecord>, batch: seq<Id>, env: Id -> RetryConditions, dir: string): (r: seq<TaskRecord>)
    ensures |r| == |records|
    ensures forall i :: 0 <= i < |records| && i !in batch ==> r[i] == records[i]
    ensures forall i :: 0 <= i < |records| && i in batch ==>
      && IsTerminal(r[i]) && r[i].updatedAt == env(i).clock
      && (r[i].status == Success <==> Succeeds(Download(env(i)), env(i).writeError))
      && r[i].(status := records[i].status, outputPath := records[i].outputPath,
               errorMessage := records[i].errorMessage, updatedAt := records[i].updatedAt) == records[i]
  {
    seq(|records|, i requires 0 <= i < |records| => if i in batch then Outcome(records[i], env(i), dir) else records[i])
  }

  /** The output directory after the tasks in `batch` have been processed,
      in order. */
  function FilesAfter(files: map<string, Image>, records: seq<TaskRecord>, batch: seq<Id>, env: Id -> RetryConditions, dir: string): map<string, Image>
    requires forall j :: 0 <= j < |batch| ==> batch[j] < |records|
  {
    if batch == [] then files
    else
      var n := |batch| - 1;
      var id := batch[n];
      Written(FilesAfter(files, records, batch[..n], env, dir), records[id], Download(env(id)), env(id).writeError, dir)
  }

  /** A batch member that succeeded has its rendered image at its own
      output path once the batch is done: no other member's write lands
      there. */
  lemma {:induction false} FilesAfterHoldsSuccess(files: map<string, Image>, records: seq<TaskRecord>, batch: seq<Id>,
                                                  env: Id -> RetryConditions, dir: string, j: nat)
    requires Numbered(records)
    requires forall k :: 0 <= k < |batch| ==> batch[k] < |records|
    requires forall k, k' :: 0 <= k < k' < |batch| ==> batch[k] < batch[k']
    requires j < |batch| && Succeeds(Download(env(batch[j])), env(batch[j]).writeError)
    ensures var f := FilesAfter(files, records, batch, env, dir);
      && OutputPath(dir, batch[j]) in f
      && f[OutputPath(dir, batch[j])] == Image(Download(env(batch[j])).response.data, PlanFor(records[batch[j]]))
  {
    var n := |batch| - 1;
    if j < n {
      FilesAfterHoldsSuccess(files, records, batch[..n], env, dir, j);
      OutputPathInjective(dir, batch[n], batch[j]);
    }
  }

  /** A path that is no succeeding member's output path is left as it
      was. */
  lemma {:induction false} FilesAfterElsewhere(files: map<string, Image>, records: seq<TaskRecord>, batch: seq<Id>,
                                               env: Id -> RetryConditions, dir: string, p: string)
    requires Numbered(records)
    requires forall k :: 0 <= k < |batch| ==> batch[k] < |records|
    requires forall k :: 0 <= k < |batch| && Succeeds(Download(env(batch[k])), env(batch[k]).writeError) ==> p != OutputPath(dir, batch[k])
    ensures var f := FilesAfter(files, records, batch, env, dir);
      (p in f <==> p in files) && (p in files ==> f[p] == files[p])
  {
    if batch != [] {
      FilesAfterElsewhere(files, records, batch[..|batch| - 1], env, dir, p);
    }
  }

  /** Processing one more batch member updates only that member's record. */
  lemma StepOneMore(records: seq<TaskRecord>, batch: seq<Id>, k: nat, env: Id -> RetryConditions, dir: string)
    requires k < |batch| && batch[k] < |records| && batch[k] !in batch[..k]
    ensures Step(records, batch[..k + 1], env, dir)
         == Step(records, batch[..k], env, dir)[batch[k] := Outcome(records[batch[k]], env(batch[k]), dir)]
  {
    var a := Step(records, batch[..k + 1], env, dir);
    var b := Step(records, batch[..k], env, dir)[batch[k] := Outcome(records[batch[k]], env(batch[k]), dir)];
    forall i | 0 <= i < |records|
      ensures a[i] == b[i]
    {
      assert i in batch[..k + 1] <==> i in batch[..k] || i == batch[k];
    }
  }

  /** One iteration of the `processQueue` loop: poll up to `batchSize`
      pending records and process them one at a time, in order; an empty
      poll only waits. */
  method PollOnce(store: Collection, out: OutputDirectory, batchSize: nat, env: Id -> RetryConditions) returns (batch: seq<Id>)
    requires store.Valid()
    modifies store, out
    ensures store.Valid()
    ensures batch == Polled(old(store.records), batchSize)
    ensures forall j :: 0 <= j < |batch| ==> batch[j] < |old(store.records)|
    ensures store.records == Step(old(store.records), batch, env, out.path)
    ensures out.files == FilesAfter(old(out.files), old(store.records), batch, env, out.path)
  {
    PolledPending(store.records, batchSize);
    var tasks := store.FindPending(batchSize);
    batch := Polled(store.records, batchSize);
    if |tasks| == 0 {
      // The five-second idle wait changes nothing.
      return;
    }
    RunBatch(tasks, batch, env, out, store);
  }

  /** The inner `for` loop of `processQueue`: the worker's `processTask` on
      each polled document in turn. */
  method RunBatch(tasks: seq<TaskDocument>, batch: seq<Id>, env: Id -> RetryConditions, out: OutputDirectory, store: Collection)
    requires store.Valid() && |tasks| == |batch|
    requires forall j :: 0 <= j < |batch| ==> batch[j] < |store.records|
    requires forall j, j' :: 0 <= j < j' < |batch| ==> batch[j] < batch[j']
    requires forall j :: 0 <= j < |tasks| ==> tasks[j].Snapshot() == store.records[batch[j]]
    modifies out, store, set j | 0 <= j < |tasks| :: tasks[j]
    ensures store.Valid()
    ensures store.records == Step(old(store.records), batch, env, out.path)
    ensures out.files == FilesAfter(old(out.files), old(store.records), batch, env, out.path)
  {
    ghost var polled := store.records;
    var k := 0;
    while k < |tasks|
      invariant 0 <= k <= |tasks|
      invariant store.Valid() && |store.records| == |polled|
      invariant forall j :: k <= j < |tasks| ==> tasks[j].Snapshot() == polled[batch[j]]
      invariant store.records == Step(polled, batch[..k], env, out.path)
      invariant out.files == FilesAfter(old(out.files), polled, batch[..k], env, out.path)
    {
      var id := batch[k];
      assert id !in batch[..k];
      PersistFinish(polled[id], Download(env(id)), env(id).writeError, env(id).clock, out.path);
      StepOneMore(polled, batch, k, env, out.path);
      assert batch[..k + 1][..k] == batch[..k];
      ProcessTask(tasks[k], env(id), out, store);
      k := k + 1;
    }
    assert batch[..k] == batch;
  }
}

/** What the dispatch loop guarantees over repeated iterations, when no new
    task is inserted and every save succeeds. */
module Dispatch {
  import opened ImageTask
  import opened Processing
  import opened Worker

  /** The records still pending. */
  function PendingSet(records: seq<TaskRecord>): set<Id> {
    set i | 0 <= i < |records| && records[i].status == Pending
  }

  /** The collection after one iteration of the polling loop. */
  function Iteration(records: seq<TaskRecord>, batchSize: nat, env: Id -> RetryConditions, dir: string): seq<TaskRecord> {
    Step(records, Polled(records, batchSize), env, dir)
  }

  /** The collection after `n` iterations. */
  function Iterations(records: seq<TaskRecord>, batchSize: nat, env: Id -> RetryConditions, dir: string, n: nat): seq<TaskRecord>
    decreases n
  {
    if n == 0 then records else Iterations(Iteration(records, batchSize, env, dir), batchSize, env, dir, n - 1)
  }

  /** The ids a batch names, as a set. */
  function Members(s: seq<Id>): set<Id> {
    if s == [] then {} else Members(s[..|s| - 1]) + {s[|s| - 1]}
  }

  lemma {:induction false} MembersAre(s: seq<Id>)
    ensures forall x :: x in Members(s) <==> x in s
  {
    if s != [] {
      var n := |s| - 1;
      MembersAre(s[..n]);
      assert s == s[..n] + [s[n]];
    }
  }

  lemma {:induction false} MembersOfIncreasing(s: seq<Id>)
    requires forall j, k :: 0 <= j < k < |s| ==> s[j] < s[k]
    ensures |Members(s)| == |s|
  {
    if s != [] {
      var n := |s| - 1;
      var prefix := s[..n];
      assert forall j :: 0 <= j < n ==> prefix[j] == s[j];
      MembersOfIncreasing(prefix);
      MembersAre(prefix);
      assert s[n] !in prefix;
      assert s[n] !in Members(prefix);
    }
  }

  /** An empty poll leaves the collection as it was. */
  lemma EmptyPollChangesNothing(records: seq<TaskRecord>, batchSize: nat, env: Id -> RetryConditions, dir: string)
    requires Polled(records, batchSize) == []
    ensures Iteration(records, batchSize, env, dir) == records
  {
  }

  /** An iteration never touches a record that was not pending when it
      polled, so a terminal status is final under the dispatch loop. */
  lemma TerminalUntouched(records: seq<TaskRecord>, batchSize: nat, env: Id -> RetryConditions, dir: string, i: nat)
    requires i < |records| && IsTerminal(records[i])
    ensures Iteration(records, batchSize, env, dir)[i] == records[i]
  {
    PolledPending(records, batchSize);
    assert i !in Polled(records, batchSize);
  }

  /** Processing a batch of in-range ids settles every member and removes
      exactly the members from the pending records. */
  lemma StepPending(records: seq<TaskRecord>, batch: seq<Id>, env: Id -> RetryConditions, dir: string)
    requires forall j :: 0 <= j < |batch| ==> batch[j] < |records|
    ensures forall x :: x in batch ==> x < |records| && IsTerminal(Step(records, batch, env, dir)[x])
    ensures PendingSet(Step(records, batch, env, dir)) == PendingSet(records) - Members(batch)
  {
    var after := Step(records, batch, env, dir);
    MembersAre(batch);
    forall x | x in batch
      ensures x < |records| && IsTerminal(after[x])
    {
      var j :| 0 <= j < |batch| && batch[j] == x;
    }
    forall x
      ensures x in PendingSet(after) <==> x in PendingSet(records) && x !in batch
    {
      if 0 <= x < |records| && x !in batch {
        assert after[x] == records[x];
      }
    }
  }

  /** After an iteration the pending records are the old ones less the
      polled ones, and every polled record is terminal. */
  lemma IterationPending(records: seq<TaskRecord>, batchSize: nat, env: Id -> RetryConditions, dir: string)
    ensures forall x :: x in Polled(records, batchSize) ==> x < |records| && IsTerminal(Iteration(records, batchSize, env, dir)[x])
    ensures PendingSet(Iteration(records, batchSize, env, dir)) == PendingSet(records) - Members(Polled(records, batchSize))
    ensures Members(Polled(records, batchSize)) <= PendingSet(records)
  {
    var batch := Polled(records, batchSize);
    PolledPending(records, batchSize);
    StepPending(records, batch, env, dir);
    MembersAre(batch);
  }

  lemma RemoveSubset(whole: set<Id>, part: set<Id>)
    requires part <= whole
    ensures |whole - part| == |whole| - |part|
  {
    assert whole == (whole - part) + part;
  }

  /** Each iteration removes exactly the polled records from the pending
      ones. */
  lemma IterationSettlesBatch(records: seq<TaskRecord>, batchSize: nat, env: Id -> RetryConditions, dir: string)
    ensures |PendingSet(Iteration(records, batchSize, env, dir))| == |PendingSet(records)| - |Polled(records, batchSize)|
  {
    PolledPending(records, batchSize);
    MembersOfIncreasing(Polled(records, batchSize));
    IterationPending(records, batchSize, env, dir);
    RemoveSubset(PendingSet(records), Members(Polled(records, batchSize)));
  }

  /** `PendingIds` names each pending record once. */
  lemma PendingCount(records: seq<TaskRecord>)
    ensures |PendingIds(records)| == |PendingSet(records)|
  {
    var ids := PendingIds(records);
    PendingIdsExact(records);
    MembersOfIncreasing(ids);
    MembersAre(ids);
    assert Members(ids) == PendingSet(records);
  }

  /** `processQueue(5)`: while more than five records are pending an
      iteration settles exactly five of them, and an iteration that finds
      five or fewer settles them all. */
  lemma ProcessQueueSettlesBatchSize(records: seq<TaskRecord>, env: Id -> RetryConditions, dir: string)
    ensures var before := |PendingSet(records)|;
      var after := |PendingSet(Iteration(records, BatchSize, env, dir))|;
      && (before > BatchSize ==> after == before - BatchSize)
      && (before <= BatchSize ==> after == 0)
  {
    PendingCount(records);
    IterationSettlesBatch(records, BatchSize, env, dir);
  }

  /** A poll is empty exactly when no record is pending. */
  lemma PolledEmpty(records: seq<TaskRecord>, batchSize: nat)
    ensures Polled(records, batchSize) == [] <==> PendingSet(records) == {}
  {
    PolledPending(records, batchSize);
    var ids := Polled(records, batchSize);
    if ids != [] {
      assert ids[0] in PendingSet(records);
    }
    if PendingSet(records) != {} {
      var x :| x in PendingSet(records);
      assert records[x].status == Pending;
    }
  }

  /** With nothing inserted, as many iterations as there are pending
      records bring the loop to an empty poll. */
  lemma {:induction false} Drains(records: seq<TaskRecord>, batchSize: nat, env: Id -> RetryConditions, dir: string, n: nat)
    requires |PendingSet(records)| <= n
    ensures Polled(Iterations(records, batchSize, env, dir, n), batchSize) == []
    decreases n
  {
    PolledEmpty(records, batchSize);
    if n > 0 {
      var next := Iteration(records, batchSize, env, dir);
      assert Iterations(records, batchSize, env, dir, n) == Iterations(next, batchSize, env, dir, n - 1);
      if Polled(records, batchSize) == [] {
        EmptyPollChangesNothing(records, batchSize, env, dir);
        assert next == records;
      } else {
        IterationSettlesBatch(records, batchSize, env, dir);
        assert |PendingSet(next)| < |PendingSet(records)|;
      }
      Drains(next, batchSize, env, dir, n - 1);
    }
  }
}
