/** The body shared by the two copies of `processTask` (app.js and
    worker.js): once the download has produced a response or an error, the
    task is rendered and written, and its document moves to a terminal
    status and is saved. The network and the sharp pipeline are oracles. */
module Processing {
  import opened Wrappers
  import opened ImageTask
  import Decimal

  /** The statuses with which `axios.get` resolves: it rejects every
      status outside 2xx before `processTask` sees the response. */
  type SuccessfulStatus = s: nat | 200 <= s < 300 witness 200

  /** The HTTP response of one download attempt. */
  datatype Response = Response(status: SuccessfulStatus, data: seq<bv8>)

  /** What one `axios.get` does: resolve with a response or reject with an
      error, whose `message` is kept. */
  datatype Attempt = Responded(response: Response) | Threw(message: string)

  datatype Resize = Resize(width: int, height: int)

  /** The sharp operations requested for a task, before JPEG encoding. */
  datatype Plan = Plan(resize: Option<Resize>, grayscale: bool)

  /** The image a successful task leaves behind: the downloaded bytes put
      through the plan and encoded as JPEG. */
  datatype Image = Image(source: seq<bv8>, plan: Plan)

  /** JavaScript truthiness of a stored number: null and 0 are falsy. */
  predicate Truthy(n: Option<int>) {
    n.Some? && n.value != 0
  }

  /** Which operations the task asks for. */
  function PlanFor(t: TaskRecord): (p: Plan)
    ensures p.resize.Some? <==> Truthy(t.resizeWidth) && Truthy(t.resizeHeight)
    ensures p.resize.Some? ==> p.resize.value == Resize(t.resizeWidth.value, t.resizeHeight.value)
    ensures p.grayscale <==> t.grayscale
  {
    var resize := if Truthy(t.resizeWidth) && Truthy(t.resizeHeight)
                  then Some(Resize(t.resizeWidth.value, t.resizeHeight.value)) else None;
    Plan(resize, t.grayscale)
  }

  /** `path.join(OUTPUT_DIR, `${id}.jpg`)`. */
  function OutputPath(dir: string, id: Id): string {
    dir + "/" + Decimal.Show(id) + ".jpg"
  }

  /** Distinct tasks write distinct files. */
  lemma OutputPathInjective(dir: string, a: Id, b: Id)
    ensures OutputPath(dir, a) == OutputPath(dir, b) ==> a == b
  {
    if OutputPath(dir, a) == OutputPath(dir, b) {
      var p := OutputPath(dir, a);
      var lo, hiA, hiB := |dir| + 1, |p| - 4, |OutputPath(dir, b)| - 4;
      assert p[lo..hiA] == Decimal.Show(a);
      assert OutputPath(dir, b)[lo..hiB] == Decimal.Show(b);
      Decimal.ShowInjective(a, b);
    }
  }

  const DownloadErrorPrefix := "Failed to download image. Status: "

  /** The error `processTask` throws for a response other than 200. */
  function DownloadError(status: SuccessfulStatus): (m: string)
    ensures |m| > |DownloadErrorPrefix| && m[..|DownloadErrorPrefix|] == DownloadErrorPrefix
  {
    DownloadErrorPrefix + Decimal.Show(status)
  }

  /** The text after the prefix is the status's digits, and reads back as
      the status. */
  lemma DownloadErrorReadsBack(status: SuccessfulStatus)
    ensures var m := DownloadError(status);
      Decimal.AllDigits(m[|DownloadErrorPrefix|..]) && Decimal.Value(m[|DownloadErrorPrefix|..]) == status
  {
    assert DownloadError(status)[|DownloadErrorPrefix|..] == Decimal.Show(status);
    Decimal.ValueOfShow(status);
  }

  /** The message names the status: different statuses give different
      messages. */
  lemma DownloadErrorInjective(a: SuccessfulStatus, b: SuccessfulStatus)
    ensures DownloadError(a) == DownloadError(b) ==> a == b
  {
    if DownloadError(a) == DownloadError(b) {
      var k := |DownloadErrorPrefix|;
      assert DownloadError(a)[k..] == Decimal.Show(a);
      assert DownloadError(b)[k..] == Decimal.Show(b);
      Decimal.ShowInjective(a, b);
    }
  }

  /** True when the download gave a 200 response and sharp wrote the file. */
  predicate Succeeds(fetched: Attempt, writeError: Option<string>) {
    fetched.Responded? && fetched.response.status == 200 && writeError.None?
  }

  /** The terminal record `processTask` leaves: `t` after the download gave
      `fetched`, sharp reported `writeError`, at clock reading `now`. */
  function Finish(t: TaskRecord, fetched: Attempt, writeError: Option<string>, now: int, dir: string): (r: TaskRecord)
    ensures IsTerminal(r) && r.updatedAt == now
    ensures r.status == Success <==> Succeeds(fetched, writeError)
    ensures r.status == Success ==> r.outputPath == Some(OutputPath(dir, t.id)) && r.errorMessage == t.errorMessage
    ensures r.status == Failed ==> r.outputPath == t.outputPath
    ensures fetched.Threw? ==> r.errorMessage == Some(fetched.message)
    ensures fetched.Responded? && fetched.response.status != 200 ==> r.errorMessage == Some(DownloadError(fetched.response.status))
    ensures fetched.Responded? && fetched.response.status == 200 && writeError.Some? ==> r.errorMessage == writeError
    ensures r.(status := t.status, outputPath := t.outputPath, errorMessage := t.errorMessage, updatedAt := t.updatedAt) == t
  {
    match fetched
    case Threw(m) => t.(status := Failed, errorMessage := Some(m), updatedAt := now)
    case Responded(resp) =>
      if resp.status != 200 then t.(status := Failed, errorMessage := Some(DownloadError(resp.status)), updatedAt := now)
      else if writeError.Some? then t.(status := Failed, errorMessage := writeError, updatedAt := now)
      else t.(status := Success, outputPath := Some(OutputPath(dir, t.id)), updatedAt := now)
  }

  /** A fresh record ends with exactly one of `outputPath` and
      `errorMessage` set. */
  lemma FinishFromFresh(t: TaskRecord, fetched: Attempt, writeError: Option<string>, now: int, dir: string)
    requires IsFresh(t)
    ensures var r := Finish(t, fetched, writeError, now, dir);
      (r.outputPath.Some? <==> r.status == Success) && (r.errorMessage.Some? <==> r.status == Failed)
  {
  }

  /** The output directory after the task: the rendered image at the
      task's path when it succeeded, nothing new otherwise. */
  function Written(files: map<string, Image>, t: TaskRecord, fetched: Attempt, writeError: Option<string>, dir: string): (f: map<string, Image>)
    ensures Succeeds(fetched, writeError) ==>
      OutputPath(dir, t.id) in f && f[OutputPath(dir, t.id)] == Image(fetched.response.data, PlanFor(t))
    ensures forall p :: p in files && p != OutputPath(dir, t.id) ==> p in f && f[p] == files[p]
    ensures forall p :: p in f ==> p in files || (Succeeds(fetched, writeError) && p == OutputPath(dir, t.id))
    ensures !Succeeds(fetched, writeError) && OutputPath(dir, t.id) in files ==>
      OutputPath(dir, t.id) in f && f[OutputPath(dir, t.id)] == files[OutputPath(dir, t.id)]
  {
    if Succeeds(fetched, writeError) then files[OutputPath(dir, t.id) := Image(fetched.response.data, PlanFor(t))] else files
  }

  /** Saving a finished document over the record it was loaded from stores
      exactly the finished record. */
  lemma PersistFinish(t: TaskRecord, fetched: Attempt, writeError: Option<string>, now: int, dir: string)
    ensures Persist(t, Finish(t, fetched, writeError, now, dir)) == Finish(t, fetched, writeError, now, dir)
  {
  }

  /** The output directory: its path and the files written into it. */
  class OutputDirectory {
    const path: string
    var files: map<string, Image>

    constructor (path: string)
      ensures this.path == path && files == map[]
    {
      this.path := path;
      files := map[];
    }
  }

  /** The common body of `processTask` after the download: render and
      write the image, then set the terminal fields on the document and save
      it. No exception leaves this body. */
  method Execute(doc: TaskDocument, fetched: Attempt, writeError: Option<string>, now: int, out: OutputDirectory, store: Collection)
    requires store.Valid() && doc.id < |store.records|
    modifies doc, out, store
    ensures doc.Snapshot() == Finish(old(doc.Snapshot()), fetched, writeError, now, out.path)
    ensures out.files == Written(old(out.files), old(doc.Snapshot()), fetched, writeError, out.path)
    ensures store.Valid()
    ensures store.records == old(store.records)[doc.id := Persist(old(store.records)[doc.id], doc.Snapshot())]
  {
    var error: Option<string> := None;
    var path := OutputPath(out.path, doc.id);
    match fetched {
      case Threw(m) =>
        error := Some(m);
      case Responded(resp) =>
        if resp.status != 200 {
          error := Some(DownloadError(resp.status));
        } else {
          var plan := PlanFor(doc.Snapshot());
          if writeError.Some? {
            error := writeError;
          } else {
            out.files := out.files[path := Image(resp.data, plan)];
          }
        }
    }
    if error.None? {
      doc.status := Success;
      doc.outputPath := Some(path);
    } else {
      doc.status := Failed;
      doc.errorMessage := error;
    }
    doc.updatedAt := now;
    store.Save(doc);
  }
}
