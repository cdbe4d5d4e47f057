# images_processor — a Dafny model of the job lifecycle

The system takes batches of image URLs over HTTP and stores one `ImageTask`
record per URL, starting as `pending`. A worker polls for pending records in
batches. For each record it downloads the image (retrying failed
downloads), optionally resizes it and turns it grayscale with sharp, writes
`output/<id>.jpg`, and settles the record as `success` or `failed`. A
summary endpoint counts the records created within a date range, by status.

This project models that lifecycle and the bookkeeping around it:

- `wrappers.dfy` — `Option` (a nullable schema field) and `Result`.
- `decimal.dfy` — decimal rendering of numbers, with the inverse reading and injectivity. It is exactly how `${response.status}` prints. For `${task._id}` it is a stand-in: a real ObjectId prints as 24 hex digits, and the model relies only on distinct ids printing differently.
- `image_task.dfy` — module `ImageTask`, the schema in `models/ImageTask.js`:
  - the record and its defaults (`Create`);
  - the Mongoose document that `processTask` mutates in place (class `TaskDocument`);
  - the collection (class `Collection`) with `insertMany`, `find({status:'pending'}).limit(n)` and `save`.
- `processing.dfy` — module `Processing`, the body that both copies of `processTask` share once the download has settled:
  - which sharp operations are requested (`PlanFor`);
  - the output path;
  - the terminal transition (`Finish`) and the method that performs it on a document (`Execute`).
- `worker.dfy` — module `Worker` (`fetchImageWithRetry`, the worker's `processTask`, one iteration of `processQueue`). Also module `Dispatch`: what repeated iterations guarantee, ending in the draining lemma.
- `app.dfy` — module `App`: app.js's single-attempt `processTask`, the `/process-images` handler and the `/summary` handler.

Oracles replace what the model cannot see:

- The network is a sequence of per-attempt outcomes. Each attempt either resolves with a response (status and bytes) or throws an error message.
- sharp's decode, transform, encode and file write are one outcome: success, or an error message.
- The clock reading at which a task settles is given per task.
- `new Date(string)` is a given parse result: an optional time value.

Each per-task oracle is fixed for its task (`Worker.RetryConditions`). This is sound because the dispatch loop processes a task at most once.

Record ids are assigned in insertion order, so a record's id is also its position in the collection (`ImageTask.Numbered`). The store's "natural" order is taken to be insertion order.

Notes on what the code does, which the model follows:

- **Non-2xx responses.** axios rejects a non-2xx response before `processTask` inspects the status. So in the oracle a 404 is an attempt that throws, with axios's message, and the worker retries it. A response that reaches `processTask` has a 2xx status (`Processing.SuccessfulStatus`). The message `Failed to download image. Status: <code>` arises only for a 2xx status other than 200, and such a response is not retried.
- **Attempt count.** The worker calls `fetchImageWithRetry(url, 3, 2000)`, `retries = 3` means up to 4 attempts: the first one and three retries.
- **Re-processing.** `processTask` never re-checks the status, so calling it on a settled task overwrites the result. Only the dispatch loop guarantees that a terminal record stays unchanged, because it polls pending records only (`Dispatch.TerminalUntouched`).
- **Limit 0.** `limit(0)` means "no limit" in MongoDB. `Polled` models that, so a batch size of 0 polls every pending record.
- **Latest valid date as `dateTo`.** For the largest valid JavaScript time value, `setUTCHours(23, 59, 59, 999)` yields an Invalid Date. Mongoose cannot cast that, so `/summary` answers 500 rather than counting (`App.EndOfUtcDay`, `App.SummaryFilter`).

## Model

| member | source | states |
|---|---|---|
| `ImageTask.Create` | models/ImageTask.js:3-13 | A draft without a url (missing, null or empty) fails validation with Mongoose's "Path `url` is required" message. Otherwise the record has the given id, url and transform, status `Pending`, null `outputPath` and `errorMessage`, and `createdAt == updatedAt == now`. |
| `ImageTask.PendingIdsExact` | worker.js:65 | Lists exactly the pending records' ids: every pending record is listed, each listed id is a pending record, in strictly increasing (collection) order. |
| `ImageTask.Polled` | worker.js:65 | `find({status:'pending'}).limit(limit)`: a prefix of the pending ids in collection order, at most `limit` long when the limit is positive, and all pending ids when the limit is 0 or not reached. |
| `ImageTask.PolledPending` | worker.js:65 | A poll returns at most `limit` ids (all pending ids when the limit is 0). Each is pending at poll time, in collection order. The poll is empty exactly when no record is pending. |
| `ImageTask.CreateAll` | app.js:72 | The records `insertMany` builds: one per draft, in order, the j-th being `Create` of the j-th draft with id `first + j`. |
| `ImageTask.Persist` | worker.js:46-56 | What `save()` writes: the document's status, outputPath, errorMessage and updatedAt; id, url, createdAt and the transform fields stay as stored. |
| `ImageTask.Collection.InsertMany` | app.js:72 | Inserts every draft, numbered after the existing records, or, if any draft lacks a url, inserts none and fails with the validation message. |
| `ImageTask.Collection.FindPending` | worker.js:65 | Returns one fresh document per polled id, in order, each describing that record. |
| `ImageTask.Collection.Save` | worker.js:46-56 | Writes the document's status, outputPath, errorMessage and updatedAt into its own record only. |
| `Decimal.Show` | app.js:24 | The decimal text of a number: non-empty, all digits, no leading zero. |
| `Decimal.ValueOfShow` | app.js:24 | Reading the decimal text back gives the number. |
| `Decimal.ShowInjective` | app.js:28 | Different numbers render differently. |
| `Processing.PlanFor` | app.js:31-36 | Resize is requested iff both width and height are truthy, with those dimensions. Grayscale is requested iff the flag is true. |
| `Processing.OutputPathInjective` | app.js:28 | Distinct task ids give distinct output paths `<dir>/<id>.jpg`. |
| `Processing.DownloadError` | worker.js:31-32 | The message thrown for a status other than 200 starts with `Failed to download image. Status: ` and continues with the status. |
| `Processing.DownloadErrorReadsBack` | worker.js:32 | The text after the prefix is all digits and reads back as the status. |
| `Processing.DownloadErrorInjective` | app.js:23-24 | Different statuses give different download-error messages. |
| `Processing.Finish` | app.js:19-53 | The record always ends terminal with `updatedAt` refreshed. It succeeds iff the download gave status 200 and sharp wrote the file, and then `outputPath` is the task's own path. A thrown error fails with its message. A non-200 status fails with `Failed to download image. Status: <code>`. A sharp error fails with sharp's message. No other field changes. |
| `Processing.FinishFromFresh` | app.js:41-50 | From a fresh record, `outputPath` is set exactly on success and `errorMessage` exactly on failure. |
| `Processing.Written` | app.js:28-38 | On success the task's path holds the downloaded bytes under the requested plan. Every other existing file is kept as it was, and no path other than the task's own appears. On failure, including a non-200 status, the task's path keeps its old contents too. |
| `Processing.PersistFinish` | app.js:41-51 | Saving a finished document over the record it was loaded from stores exactly the finished record. |
| `Processing.Execute` | app.js:23-53 | The document becomes `Finish` of its old state, the output directory becomes `Written`, and only the document's own record in the collection changes. |
| `App.ProcessTask` | app.js:18-54 | With a single download attempt, the document, file and record change as `Execute` states. |
| `App.RetryOnlyRescues` | worker.js:26-33 | A task the single-attempt copy settles as success is settled identically by the worker. |
| `App.RetryRescues` | worker.js:12-29 | If the first k attempts throw (1 <= k <= 3) and attempt k + 1 answers 200 and sharp succeeds, the worker settles the task as success at its output path. The single-attempt copy fails it with the first error's message. |
| `App.OrNull` | app.js:67-68 | `value \|\| null`: a falsy width or height (null, absent, 0) becomes null; any other value is kept. |
| `App.OrFalse` | app.js:69 | `grayscale \|\| false` is true exactly when grayscale was given as true. |
| `App.Drafts` | app.js:59-70 | Rejects a missing, non-array or empty `imageUrls` with the 400 message. Otherwise gives exactly one draft per url, in order, all sharing the coerced transform options. |
| `App.Ids` | app.js:77 | `result.map((t) => t._id)`: one id per inserted record, in the same order. |
| `App.IntakeRecords` | app.js:65-72 | The j-th inserted record is fresh, has id `first + j`, the j-th url and the shared coerced transform, and was created and updated at `now`. |
| `App.ProcessImages` | app.js:56-81 | A 400 reply exactly when validation fails. A 500 reply exactly when some url is missing. Neither inserts anything. Otherwise the new records are appended in order and the reply lists their ids in the same order. |
| `App.AcceptedIdsAreNewRecords` | app.js:72-77 | The reply's ids are consecutive positions after the existing records, one per url, and the collection stays numbered. |
| `App.StartOfUtcDay` | app.js:100 | The start of t's UTC day: a multiple of a day, at most t, within a day of t, and still a valid time value. |
| `App.EndOfUtcDay` | app.js:111 | The last millisecond of t's UTC day, at least t; an Invalid Date exactly when t is the largest time value. |
| `App.MatchesSpread` | app.js:118-120 | The filter `Matches` states: `{ ...filter, status }` adds the status condition to the same date bounds and nothing else, and the empty filter matches every record. |
| `App.Count` | app.js:118-120 | A count never exceeds the number of records. |
| `App.SummaryFilter` | app.js:90-115 | An unparsable `dateFrom` gives 400 `Invalid dateFrom format`, checked before `dateTo`. An unparsable `dateTo` gives 400 `Invalid dateTo format`. The latest valid `dateTo` gives 500. No other input fails. Otherwise each given date contributes its inclusive bound: the start of its UTC day for `dateFrom`, the end (start + 86399999) for `dateTo`. An absent date contributes no bound. |
| `App.CountPartition` | app.js:118-120 | Over one filter, the total is the sum of the pending, success and failed counts. |
| `App.CountUnfiltered` | app.js:87-90 | Without dates every record counts toward the total. |
| `App.CountAllBefore` | app.js:93-101 | When every record was created before the lower bound, every count is 0. |
| `App.Summary` | app.js:83-127 | Replies with the filter's error, or with the three counts over the same filter. `successes + failures <= total <= records`. Without dates the total is the number of records. |
| `Worker.FetchImageWithRetry` | worker.js:12-24 | Makes between 1 and `retries + 1` attempts. Every attempt before the last threw. The result is the last attempt's outcome, and a thrown result means all `retries + 1` attempts threw. The delay is waited once between consecutive attempts, never after the last. |
| `Worker.FirstResponseReturned` | worker.js:13-19 | If the first k attempts throw (k <= retries) and attempt k + 1 responds, that response is returned after k + 1 attempts and k delays. |
| `Worker.LastErrorThrown` | worker.js:15-22 | If every attempt throws, exactly `retries + 1` attempts are made and the last attempt's error is thrown. |
| `Worker.ExhaustedFails` | worker.js:26-60 | When all four attempts throw, the worker settles the task `failed` with the last error's message. |
| `Worker.ProcessTask` | worker.js:26-60 | After `fetchImageWithRetry(url, 3, 2000)`, the document, file and record change as `Execute` states for the retried download. |
| `Worker.Step` | worker.js:73-75 | After a batch every record keeps its length and position. Each member ends terminal, with `updatedAt` at its clock reading and success exactly when its retried download and sharp step succeed, and only its four mutable fields change. Every other record is unchanged. |
| `Worker.FilesAfterHoldsSuccess` | worker.js:73-75 | After a batch, each succeeding member's rendered image is at its own path, whatever the other members wrote. |
| `Worker.FilesAfterElsewhere` | worker.js:73-75 | After a batch, every path that is no succeeding member's output path is as it was. |
| `Worker.StepOneMore` | worker.js:74 | Processing the next batch member changes only that member's record. |
| `Worker.RunBatch` | worker.js:73-75 | The polled documents are processed one at a time, in order. The collection and output directory end as `Step` and `FilesAfter` state. |
| `Worker.PollOnce` | worker.js:63-77 | One loop iteration polls `Polled(records, batchSize)`. An empty poll changes nothing. Otherwise the collection ends as `Step` and the directory as `FilesAfter` of that batch. |
| `Dispatch.EmptyPollChangesNothing` | worker.js:67-71 | An iteration whose poll is empty leaves the collection unchanged. |
| `Dispatch.TerminalUntouched` | worker.js:65 | An iteration never changes a record that was terminal when it polled. |
| `Dispatch.StepPending` | worker.js:73-75 | Processing a batch settles every member and removes exactly the members from the pending records. |
| `Dispatch.IterationPending` | worker.js:65-75 | After an iteration every polled record is terminal. The pending records are the old pending ones less the polled ones. |
| `Dispatch.IterationSettlesBatch` | worker.js:65-75 | Each iteration reduces the number of pending records by exactly the batch size it polled. |
| `Dispatch.PendingCount` | worker.js:65 | The poll query names each pending record exactly once. |
| `Dispatch.ProcessQueueSettlesBatchSize` | worker.js:79 | With `processQueue(5)`, an iteration settles exactly five records while more than five are pending, and settles all of them otherwise. |
| `Dispatch.PolledEmpty` | worker.js:65-67 | A poll is empty exactly when no record is pending. |
| `Dispatch.Drains` | worker.js:64-76 | With no new inserts, after as many iterations as there are pending records, the poll is empty. |

## Left out

- Express setup, routing, JSON body parsing and `app.listen`. Each handler is a method from the parsed body to its reply.
- The MongoDB connection and its `process.exit` (config/mongoose.config.js is not part of this model). The collection is a sequence of records.
- Mongoose's `find`, `insertMany`, `countDocuments` and `save` internals. Saves are assumed to succeed: a failing `save` inside the `catch` block is an unhandled rejection in the source and is not modelled. A store failure in either handler is modelled only where the model can name its cause: a missing url on insert, and an Invalid Date in the summary filter.
- `ImageTask.Collection.Save`: Mongoose writes only the paths that were modified. The model writes the four paths that `processTask` assigns, which is the same for a document loaded from the record it saves.
- `ImageTask.Create`: the schema also accepts explicit values for `status`, `outputPath`, `errorMessage` and the dates. The only caller never passes them, so they are not modelled. `status` has no enum in the schema; the model uses the three values the system writes.
- `ImageTask.Collection.InsertMany`: all records of one batch get the same creation time. Mongoose evaluates the `Date.now` default per document and per path.
- `ImageTask.Create`: `createdAt` and `updatedAt` are one clock reading. Mongoose calls `Date.now` once for each of the two paths, so they can differ by a millisecond.
- The axios request itself, its 30 s timeout and its non-2xx rejection are part of the network oracle.
- sharp's decoding, resizing, grayscale and JPEG encoding, and the file write. Only the requested plan and whether the step succeeded are modelled. A failed step is taken to leave no file behind.
- Output-directory creation at load time. It is filesystem work; the directory exists from the start (`Processing.OutputDirectory`).
- The `setTimeout` waits. The retry waits are a counter of milliseconds; the 5 s idle wait is a no-op.
- `new Date(string)` parsing. It is the given result of `App.DateArg`.
- The fire-and-forget `result.forEach(task => processTask(task))` in `/process-images`, and its race with the worker loop. This is concurrency; `App.ProcessTask` models the function it calls.
- The unbounded `while (true)` loop. `Worker.PollOnce` is one iteration, and `Dispatch.Iterations` composes iterations for the draining lemma.
- Console logging.
- JavaScript coercions of unexpected body types (a string width, non-integer widths or heights such as 100.5, a non-boolean grayscale, NaN) and the 24-hex-digit text of a real ObjectId. Ids print as decimal numbers; the model relies only on distinct ids printing differently.
