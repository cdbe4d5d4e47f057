/** The `ImageTask` schema (models/ImageTask.js): the persisted job record,
    the defaults a new record receives, the in-memory document that the
    processing code mutates before saving it, and the collection that holds
    the records in insertion order. */
module ImageTask {
  import opened Wrappers

  /** A record's `_id`. The collection assigns them in insertion order, so a
      record's id is also its position in the collection. */
  type Id = nat

  /** The three values the system ever stores in `status`. */
  datatype Status = Pending | Success | Failed

  datatype TaskRecord = TaskRecord(
    id: Id,
    url: string,
    status: Status,
    outputPath: Option<string>,
    errorMessage: Option<string>,
    resizeWidth: Option<int>,
    resizeHeight: Option<int>,
    grayscale: bool,
    createdAt: int,
    updatedAt: int)

  /** The fields a caller hands to `insertMany`; `url` may be missing. */
  datatype Draft = Draft(url: Option<string>, resizeWidth: Option<int>, resizeHeight: Option<int>, grayscale: bool)

  /** Mongoose's message when the required `url` path is missing. */
  const UrlRequired := "ImageTask validation failed: url: Path `url` is required."

  /** Mongoose's `required` check on a String path rejects a missing, null
      or empty value. */
  predicate HasUrl(d: Draft) {
    d.url.Some? && d.url.value != ""
  }

  predicate IsTerminal(t: TaskRecord) {
    t.status != Pending
  }

  /** A freshly created record: pending, with neither result field set. */
  predicate IsFresh(t: TaskRecord) {
    t.status == Pending && t.outputPath == None && t.errorMessage == None
  }

  /** Builds the record `id` from a draft at time `now`, applying the
      schema's defaults; fails validation when the draft has no url. */
  function Create(d: Draft, id: Id, now: int): (r: Result<TaskRecord, string>)
    ensures r.Err? <==> !HasUrl(d)
    ensures r.Err? ==> r.error == UrlRequired
    ensures r.Ok? ==> IsFresh(r.value) && r.value.id == id && Some(r.value.url) == d.url
    ensures r.Ok? ==> r.value.resizeWidth == d.resizeWidth && r.value.resizeHeight == d.resizeHeight
    ensures r.Ok? ==> r.value.grayscale == d.grayscale
    ensures r.Ok? ==> r.value.createdAt == now && r.value.updatedAt == now
  {
    if !HasUrl(d) then Err(UrlRequired)
    else Ok(TaskRecord(id, d.url.value, Pending, None, None, d.resizeWidth, d.resizeHeight, d.grayscale, now, now))
  }

  predicate AllHaveUrls(drafts: seq<Draft>) {
    forall j :: 0 <= j < |drafts| ==> HasUrl(drafts[j])
  }

  /** The records an accepted batch of drafts becomes, numbered from `first`. */
  function CreateAll(drafts: seq<Draft>, first: Id, now: int): (rs: seq<TaskRecord>)
    requires AllHaveUrls(drafts)
    ensures |rs| == |drafts|
    ensures forall j :: 0 <= j < |rs| ==> Create(drafts[j], first + j, now) == Ok(rs[j])
  {
    seq(|drafts|, j requires 0 <= j < |drafts| => Create(drafts[j], first + j, now).value)
  }

  /** What `save()` writes for a document loaded from `stored`: the four
      paths the processing code assigns. */
  function Persist(stored: TaskRecord, doc: TaskRecord): (r: TaskRecord)
    ensures r.id == stored.id && r.url == stored.url && r.createdAt == stored.createdAt
    ensures r.status == doc.status && r.updatedAt == doc.updatedAt
    ensures r.outputPath == doc.outputPath && r.errorMessage == doc.errorMessage
    ensures (stored.resizeWidth, stored.resizeHeight, stored.grayscale) == (r.resizeWidth, r.resizeHeight, r.grayscale)
  {
    stored.(status := doc.status, outputPath := doc.outputPath, errorMessage := doc.errorMessage, updatedAt := doc.updatedAt)
  }

  /** Each record's id is its position in the collection. */
  predicate Numbered(records: seq<TaskRecord>) {
    forall i :: 0 <= i < |records| ==> records[i].id == i
  }

  /** The ids of the pending records, in collection order. */
  function PendingIds(records: seq<TaskRecord>): seq<Id> {
    if records == [] then []
    else
      var n := |records| - 1;
      PendingIds(records[..n]) + if records[n].status == Pending then [n] else []
  }

  /** `PendingIds` lists exactly the pending records, in collection order. */
  lemma {:induction false} PendingIdsExact(records: seq<TaskRecord>)
    ensures forall j :: 0 <= j < |PendingIds(records)| ==>
      PendingIds(records)[j] < |records| && records[PendingIds(records)[j]].status == Pending
    ensures forall j, k :: 0 <= j < k < |PendingIds(records)| ==> PendingIds(records)[j] < PendingIds(records)[k]
    ensures forall i :: 0 <= i < |records| && records[i].status == Pending ==> i in PendingIds(records)
  {
    if records != [] {
      var n := |records| - 1;
      var prefix, last := PendingIds(records[..n]), if records[n].status == Pending then [n] else [];
      PendingIdsExact(records[..n]);
      assert PendingIds(records) == prefix + last;
      forall j | 0 <= j < |prefix|
        ensures prefix[j] < n && records[prefix[j]].status == Pending
      {
        assert prefix[j] < |records[..n]| && records[..n][prefix[j]].status == Pending;
      }
      forall i | 0 <= i < n && records[i].status == Pending
        ensures i in prefix
      {
        assert records[..n][i] == records[i];
      }
    }
  }

  /** The result of `find({status: 'pending'}).limit(limit)`: the first
      `limit` pending records in collection order, where a limit of 0 means
      no limit. */
  function Polled(records: seq<TaskRecord>, limit: nat): (ids: seq<Id>)
    ensures ids <= PendingIds(records)
    ensures limit > 0 ==> |ids| <= limit
    ensures limit == 0 || |ids| < limit ==> ids == PendingIds(records)
  {
    var ids := PendingIds(records);
    if limit == 0 || |ids| <= limit then ids else ids[..limit]
  }

  /** A poll returns at most `limit` records (all of them when the limit is
      0), each pending at poll time, in collection order, and comes back
      empty exactly when nothing is pending. */
  lemma PolledPending(records: seq<TaskRecord>, limit: nat)
    ensures var ids := Polled(records, limit);
      && (limit > 0 ==> |ids| <= limit)
      && (limit == 0 ==> ids == PendingIds(records))
      && (forall j :: 0 <= j < |ids| ==> ids[j] < |records| && records[ids[j]].status == Pending)
      && (forall j, k :: 0 <= j < k < |ids| ==> ids[j] < ids[k])
      && (ids == [] <==> forall i :: 0 <= i < |records| ==> records[i].status != Pending)
  {
    PendingIdsExact(records);
    var all := PendingIds(records);
    if all != [] {
      assert all[0] in Polled(records, limit);
    }
  }

  /** The document Mongoose hydrates from a record: the fields that the
      processing code assigns are mutable, the others are read only. */
  class TaskDocument {
    const id: Id
    const url: string
    var status: Status
    var outputPath: Option<string>
    var errorMessage: Option<string>
    const resizeWidth: Option<int>
    const resizeHeight: Option<int>
    const grayscale: bool
    const createdAt: int
    var updatedAt: int

    /** The record this document currently describes. */
    function Snapshot(): TaskRecord
      reads this
    {
      TaskRecord(id, url, status, outputPath, errorMessage, resizeWidth, resizeHeight, grayscale, createdAt, updatedAt)
    }

    constructor Hydrate(r: TaskRecord)
      ensures Snapshot() == r
    {
      id, url, status, outputPath, errorMessage := r.id, r.url, r.status, r.outputPath, r.errorMessage;
      resizeWidth, resizeHeight, grayscale := r.resizeWidth, r.resizeHeight, r.grayscale;
      createdAt, updatedAt := r.createdAt, r.updatedAt;
    }
  }

  /** The `ImageTask` collection: the records in insertion order. */
  class Collection {
    var records: seq<TaskRecord>

    ghost predicate Valid()
      reads this
    {
      Numbered(records)
    }

    constructor ()
      ensures Valid() && records == []
    {
      records := [];
    }

    /** `insertMany(drafts)`: validates every draft first, and either inserts
        them all, with ids following the existing records, or none. */
    method InsertMany(drafts: seq<Draft>, now: int) returns (r: Result<seq<TaskRecord>, string>)
      requires Valid()
      modifies this
      ensures Valid()
      ensures r.Err? <==> !AllHaveUrls(drafts)
      ensures r.Err? ==> r.error == UrlRequired && records == old(records)
      ensures r.Ok? ==> r.value == CreateAll(drafts, |old(records)|, now) && records == old(records) + r.value
    {
      if !AllHaveUrls(drafts) {
        return Err(UrlRequired);
      }
      var inserted := CreateAll(drafts, |records|, now);
      records := records + inserted;
      r := Ok(inserted);
    }

    /** `find({status: 'pending'}).limit(limit)`: a fresh document for each
        polled record, in order. */
    method FindPending(limit: nat) returns (docs: seq<TaskDocument>)
      requires Valid()
      ensures |docs| == |Polled(records, limit)|
      ensures forall j :: 0 <= j < |docs| ==> fresh(docs[j])
      ensures forall j :: 0 <= j < |docs| ==>
        Polled(records, limit)[j] < |records| && docs[j].Snapshot() == records[Polled(records, limit)[j]]
    {
      var rs := records;
      var ids := Polled(rs, limit);
      PolledPending(rs, limit);
      docs := [];
      var k := 0;
      while k < |ids|
        invariant 0 <= k <= |ids| && |docs| == k
        invariant forall j :: 0 <= j < k ==> fresh(docs[j]) && docs[j].Snapshot() == rs[ids[j]]
      {
        var doc := new TaskDocument.Hydrate(rs[ids[k]]);
        docs := docs + [doc];
        k := k + 1;
      }
    }

    /** `doc.save()` on a document loaded from this collection. */
    method Save(doc: TaskDocument)
      requires Valid() && doc.id < |records|
      modifies this
      ensures Valid()
      ensures records == old(records)[doc.id := Persist(old(records)[doc.id], doc.Snapshot())]
    {
      records := records[doc.id := Persist(records[doc.id], doc.Snapshot())];
    }
  }
}
