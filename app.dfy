/** app.js: the request handlers `/process-images` and `/summary`, and its
    own single-attempt copy of `processTask`. Express itself is not
    modelled: each handler is a method from the parsed request body to the
    reply it sends. */
module App {
  import opened Wrappers
  import opened ImageTask
  import opened Processing
  import Worker

  /** The JSON replies the two handlers send, with their HTTP status. */
  datatype Reply =
    | Accepted(message: string, taskIds: seq<Id>)              // 200 from /process-images
    | Counts(total: nat, successes: nat, failures: nat)         // 200 from /summary
    | BadRequest(error: string)                                 // 400
    | ServerError(error: string, details: Option<string>)      // 500

  /** app.js's `processTask`: a single `axios.get`, which settles as
      `fetched`, and no retry. */
  method ProcessTask(doc: TaskDocument, fetched: Attempt, writeError: Option<string>, now: int, out: OutputDirectory, store: Collection)
    requires store.Valid() && doc.id < |store.records|
    modifies doc, out, store
    ensures doc.Snapshot() == Finish(old(doc.Snapshot()), fetched, writeError, now, out.path)
    ensures out.files == Written(old(out.files), old(doc.Snapshot()), fetched, writeError, out.path)
    ensures store.Valid()
    ensures store.records == old(store.records)[doc.id := Persist(old(store.records)[doc.id], doc.Snapshot())]
  {
    Execute(doc, fetched, writeError, now, out, store);
  }

  /** The worker's copy differs from this one only by retrying: whatever
      this copy settles as success, the worker settles identically. */
  lemma RetryOnlyRescues(t: TaskRecord, c: Worker.RetryConditions, dir: string)
    ensures Finish(t, c.network[0], c.writeError, c.clock, dir).status == Success
        ==> Worker.Outcome(t, c, dir) == Finish(t, c.network[0], c.writeError, c.clock, dir)
  {
    if c.network[0].Responded? {
      Worker.FirstResponseReturned(c.network, Worker.Retries, Worker.RetryDelay, 0);
    }
  }

  /** The case the retry exists for: the first k attempts throw and
      attempt k + 1, within the budget, answers 200 and sharp succeeds. The
      worker then settles the task as success, where this copy fails it with
      the first error's message. */
  lemma RetryRescues(t: TaskRecord, c: Worker.RetryConditions, dir: string, k: nat)
    requires 1 <= k <= Worker.Retries
    requires forall j :: 0 <= j < k ==> c.network[j].Threw?
    requires c.network[k].Responded? && c.network[k].response.status == 200 && c.writeError.None?
    ensures Worker.Outcome(t, c, dir).status == Success
    ensures Worker.Outcome(t, c, dir).outputPath == Some(OutputPath(dir, t.id))
    ensures Finish(t, c.network[0], c.writeError, c.clock, dir).status == Failed
    ensures Finish(t, c.network[0], c.writeError, c.clock, dir).errorMessage == Some(c.network[0].message)
  {
    Worker.FirstResponseReturned(c.network, Worker.Retries, Worker.RetryDelay, k);
  }

  // ---------------------------------------------------------------------
  // POST /process-images

  /** The body fields the handler reads. `imageUrls` is None when it is
      missing or not an array; an element is None when it is null. The
      three options are None when absent or null. */
  datatype IntakeRequest = IntakeRequest(
    imageUrls: Option<seq<Option<string>>>,
    resizeWidth: Option<int>,
    resizeHeight: Option<int>,
    grayscale: Option<bool>)

  const NoUrls := "Provide an array of image URLs"
  const TasksAdded := "Tasks added and processing started"
  const AddFailed := "Failed to add tasks"

  /** `value || null` on a number. */
  function OrNull(n: Option<int>): (r: Option<int>)
    ensures r.Some? <==> Truthy(n)
    ensures r.Some? ==> r == n
  {
    if Truthy(n) then n else None
  }

  /** `value || false` on a boolean. */
  function OrFalse(b: Option<bool>): (r: bool)
    ensures r <==> b == Some(true)
  {
    b.Some? && b.value
  }

  /** The handler's validation and its `imageUrls.map`: one draft per url,
      in order, all carrying the same coerced transform options. */
  function Drafts(req: IntakeRequest): (r: Result<seq<Draft>, string>)
    ensures r.Err? <==> req.imageUrls.None? || req.imageUrls.value == []
    ensures r.Err? ==> r.error == NoUrls
    ensures r.Ok? ==> |r.value| == |req.imageUrls.value|
    ensures r.Ok? ==> forall j :: 0 <= j < |r.value| ==>
      r.value[j] == Draft(req.imageUrls.value[j], OrNull(req.resizeWidth), OrNull(req.resizeHeight), OrFalse(req.grayscale))
  {
    match req.imageUrls
    case None => Err(NoUrls)
    case Some(urls) =>
      if urls == [] then Err(NoUrls)
      else Ok(seq(|urls|, j requires 0 <= j < |urls| =>
                Draft(urls[j], OrNull(req.resizeWidth), OrNull(req.resizeHeight), OrFalse(req.grayscale))))
  }

  /** The ids of inserted records, in insertion order. */
  function Ids(records: seq<TaskRecord>): (ids: seq<Id>)
    ensures |ids| == |records| && forall j :: 0 <= j < |ids| ==> ids[j] == records[j].id
  {
    seq(|records|, j requires 0 <= j < |records| => records[j].id)
  }

  /** An accepted request creates, from `first` on, one fresh record per
      url, in order, with the url and the shared coerced transform; a
      falsy width or height becomes null, a falsy grayscale false. */
  lemma IntakeRecords(req: IntakeRequest, first: Id, now: int, j: nat)
    requires Drafts(req).Ok? && AllHaveUrls(Drafts(req).value)
    requires j < |req.imageUrls.value|
    ensures var r := CreateAll(Drafts(req).value, first, now)[j];
      && IsFresh(r) && r.id == first + j && Some(r.url) == req.imageUrls.value[j]
      && r.resizeWidth == OrNull(req.resizeWidth) && r.resizeHeight == OrNull(req.resizeHeight)
      && r.grayscale == OrFalse(req.grayscale)
      && r.createdAt == now && r.updatedAt == now
  {
    var d := Drafts(req).value;
    assert Create(d[j], first + j, now) == Ok(CreateAll(d, first, now)[j]);
  }

  /** The `/process-images` handler. The fire-and-forget `processTask` of
      each inserted record is not part of this model. */
  method ProcessImages(store: Collection, req: IntakeRequest, now: int) returns (reply: Reply)
    requires store.Valid()
    modifies store
    ensures store.Valid()
    ensures reply.Accepted? || reply.BadRequest? || reply.ServerError?
    ensures reply.BadRequest? <==> Drafts(req).Err?
    ensures reply.BadRequest? ==> reply.error == NoUrls
    ensures reply.ServerError? <==> Drafts(req).Ok? && !AllHaveUrls(Drafts(req).value)
    ensures reply.ServerError? ==> reply == ServerError(AddFailed, Some(UrlRequired))
    ensures !reply.Accepted? ==> store.records == old(store.records)
    ensures reply.Accepted? ==>
      && reply.message == TasksAdded
      && store.records == old(store.records) + CreateAll(Drafts(req).value, |old(store.records)|, now)
      && reply.taskIds == Ids(store.records[|old(store.records)|..])
  {
    var drafts := Drafts(req);
    if drafts.Err? {
      return BadRequest(drafts.error);
    }
    var result := store.InsertMany(drafts.value, now);
    match result {
      case Err(e) =>
        reply := ServerError(AddFailed, Some(e));
      case Ok(inserted) =>
        assert store.records[|old(store.records)|..] == inserted;
        reply := Accepted(TasksAdded, Ids(inserted));
    }
  }

  /** The reply to an accepted request names exactly the new records, in
      order: the k-th id is the k-th inserted record's. */
  lemma AcceptedIdsAreNewRecords(old_records: seq<TaskRecord>, req: IntakeRequest, now: int)
    requires Numbered(old_records) && Drafts(req).Ok? && AllHaveUrls(Drafts(req).value)
    ensures var created := CreateAll(Drafts(req).value, |old_records|, now);
      && Numbered(old_records + created)
      && Ids(created) == seq(|req.imageUrls.value|, j => |old_records| + j)
  {
    var d := Drafts(req).value;
    var created := CreateAll(d, |old_records|, now);
    forall j | 0 <= j < |created|
      ensures created[j].id == |old_records| + j
    {
      assert Create(d[j], |old_records| + j, now) == Ok(created[j]);
    }
  }

  // ---------------------------------------------------------------------
  // POST /summary

  const MsPerDay := 86_400_000
  /** The largest magnitude of a JavaScript Date's time value. */
  const MaxTime := 8_640_000_000_000_000

  /** A valid JavaScript Date, as milliseconds since the epoch (UTC). */
  type TimeValue = t: int | -MaxTime <= t <= MaxTime

  /** A date field of the body: absent (or falsy), or given, with what
      `new Date(value)` made of it (None for an Invalid Date). */
  datatype DateArg = Absent | Given(parsed: Option<TimeValue>)

  /** `setUTCHours(0, 0, 0, 0)`: the first millisecond of t's UTC day. */
  function StartOfUtcDay(t: TimeValue): (r: TimeValue)
    ensures r <= t < r + MsPerDay && r % MsPerDay == 0
  {
    var r := t - t % MsPerDay;
    assert -MaxTime == MsPerDay * -100_000_000;
    DayMultiplesBelow(r, t, -100_000_000);
    r
  }

  /** Between a multiple of a day and a time at least as late, the start of
      that time's day lies no earlier. */
  lemma DayMultiplesBelow(r: int, t: int, k: int)
    requires r == t - t % MsPerDay && MsPerDay * k <= t
    ensures MsPerDay * k <= r
  {
    var q := t / MsPerDay;
    assert t == MsPerDay * q + t % MsPerDay;
    assert MsPerDay * k < MsPerDay * (q + 1);
    assert k <= q;
  }

  /** `setUTCHours(23, 59, 59, 999)`: the last millisecond of t's UTC day,
      or an Invalid Date when that lies beyond the largest time value,
      which happens for the largest time value only. */
  function EndOfUtcDay(t: TimeValue): (r: Option<TimeValue>)
    ensures r.Some? ==> r.value == StartOfUtcDay(t) + MsPerDay - 1 && t <= r.value
    ensures r.None? <==> t == MaxTime
  {
    var e := StartOfUtcDay(t) + MsPerDay - 1;
    if e <= MaxTime then Some(e)
    else
      assert MaxTime == MsPerDay * 100_000_000;
      DayMultiplesBelow(StartOfUtcDay(t), t, 100_000_000);
      None
  }

  /** The `createdAt` bounds of the query filter, both inclusive. */
  datatype Filter = Filter(from: Option<int>, to: Option<int>)

  predicate Matches(t: TaskRecord, f: Filter, status: Option<Status>) {
    && (f.from.Some? ==> f.from.value <= t.createdAt)
    && (f.to.Some? ==> t.createdAt <= f.to.value)
    && (status.Some? ==> t.status == status.value)
  }

  /** `{ ...filter, status }` narrows the date filter by the status and
      nothing else, and the empty filter matches every record. */
  lemma MatchesSpread(t: TaskRecord, f: Filter, s: Status)
    ensures Matches(t, f, Some(s)) <==> Matches(t, f, None) && t.status == s
    ensures Matches(t, Filter(None, None), None)
  {
  }

  /** `countDocuments(filter)`, with the status condition when given. */
  function Count(records: seq<TaskRecord>, f: Filter, status: Option<Status>): (n: nat)
    ensures n <= |records|
  {
    if records == [] then 0
    else (if Matches(records[0], f, status) then 1 else 0) + Count(records[1..], f, status)
  }

  /** What the handler makes of the two dates: the filter, or the reply
      that ends the request first. */
  function SummaryFilter(dateFrom: DateArg, dateTo: DateArg): (r: Result<Filter, Reply>)
    ensures dateFrom == Given(None) ==> r == Err(BadRequest("Invalid dateFrom format"))
    ensures dateFrom != Given(None) && dateTo == Given(None) ==> r == Err(BadRequest("Invalid dateTo format"))
    ensures r.Err? && r.error.ServerError? <==> dateFrom != Given(None) && dateTo == Given(Some(MaxTime))
    ensures r.Err? ==> dateFrom == Given(None) || dateTo == Given(None) || dateTo == Given(Some(MaxTime))
    ensures r.Ok? ==> (r.value.from.Some? <==> dateFrom.Given?) && (r.value.to.Some? <==> dateTo.Given?)
    ensures r.Ok? && dateFrom.Given? ==> r.value.from == Some(StartOfUtcDay(dateFrom.parsed.value))
    ensures r.Ok? && dateTo.Given? ==> r.value.to == Some(StartOfUtcDay(dateTo.parsed.value) + MsPerDay - 1)
  {
    if dateFrom == Given(None) then Err(BadRequest("Invalid dateFrom format"))
    else if dateTo == Given(None) then Err(BadRequest("Invalid dateTo format"))
    else
      var from := if dateFrom.Given? then Some(StartOfUtcDay(dateFrom.parsed.value) as int) else None;
      if dateTo.Absent? then Ok(Filter(from, None))
      else
        match EndOfUtcDay(dateTo.parsed.value)
        case None => Err(ServerError("Failed to fetch summary", None))
        case Some(e) => Ok(Filter(from, Some(e as int)))
  }

  /** Every record in the filter has exactly one status, so the per-status
      counts add up to the total. */
  lemma {:induction false} CountPartition(records: seq<TaskRecord>, f: Filter)
    ensures Count(records, f, None)
         == Count(records, f, Some(Pending)) + Count(records, f, Some(Success)) + Count(records, f, Some(Failed))
  {
    if records != [] {
      CountPartition(records[1..], f);
    }
  }

  /** Without dates every record counts. */
  lemma {:induction false} CountUnfiltered(records: seq<TaskRecord>)
    ensures Count(records, Filter(None, None), None) == |records|
  {
    if records != [] {
      CountUnfiltered(records[1..]);
    }
  }

  /** When every record was created before the lower bound, nothing counts. */
  lemma {:induction false} CountAllBefore(records: seq<TaskRecord>, f: Filter, status: Option<Status>)
    requires f.from.Some? && forall i :: 0 <= i < |records| ==> records[i].createdAt < f.from.value
    ensures Count(records, f, status) == 0
  {
    if records != [] {
      CountAllBefore(records[1..], f, status);
    }
  }

  /** The `/summary` handler: it builds the filter step by step, checking
      `dateFrom` before `dateTo`, then counts three times over it. */
  method Summary(store: Collection, dateFrom: DateArg, dateTo: DateArg) returns (reply: Reply)
    ensures reply.Counts? || reply.BadRequest? || reply.ServerError?
    ensures SummaryFilter(dateFrom, dateTo).Err? ==> reply == SummaryFilter(dateFrom, dateTo).error
    ensures SummaryFilter(dateFrom, dateTo).Ok? ==> reply.Counts?
    ensures reply.Counts? ==>
      var f := SummaryFilter(dateFrom, dateTo).value;
      && reply.total == Count(store.records, f, None)
      && reply.successes == Count(store.records, f, Some(Success))
      && reply.failures == Count(store.records, f, Some(Failed))
    ensures reply.Counts? ==> reply.successes + reply.failures <= reply.total <= |store.records|
    ensures dateFrom.Absent? && dateTo.Absent? ==> reply.Counts? && reply.total == |store.records|
  {
    var from: Option<int> := None;
    var to: Option<int> := None;
    if dateFrom.Given? || dateTo.Given? {
      if dateFrom.Given? {
        if dateFrom.parsed.None? {
          return BadRequest("Invalid dateFrom format");
        }
        from := Some(StartOfUtcDay(dateFrom.parsed.value));
      }
      if dateTo.Given? {
        if dateTo.parsed.None? {
          return BadRequest("Invalid dateTo format");
        }
        var end := EndOfUtcDay(dateTo.parsed.value);
        if end.None? {
          // Mongoose cannot cast an Invalid Date, so the count rejects.
          return ServerError("Failed to fetch summary", None);
        }
        to := Some(end.value);
      }
    }
    var filter := Filter(from, to);
    assert SummaryFilter(dateFrom, dateTo) == Ok(filter);
    CountPartition(store.records, filter);
    if dateFrom.Absent? && dateTo.Absent? {
      CountUnfiltered(store.records);
    }
    reply := Counts(Count(store.records, filter, None), Count(store.records, filter, Some(Success)),
                    Count(store.records, filter, Some(Failed)));
  }
}
