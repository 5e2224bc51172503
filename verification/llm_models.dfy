/** `LlmModelManager`: the catalogue of MLX language models, where each is
    stored, how the model list reports them, and the download queue. The
    file system is a pair of oracles (does a path exist, how large is a
    directory); the download itself is the sequence of events its helper
    process produces. */
module LlmModels {
  import opened Wrappers
  import opened Text
  import opened Json
  import opened Downloads
  import Paths

  datatype Entry = Entry(
    id: string,
    repoId: string,
    displayName: string,
    description: string,
    sizeEstimate: string,
    qualityTier: string)

  /** The catalogue, from basic to best quality. */
  const CATALOG: seq<Entry> := [
    Entry("llama-3.2-3b-4bit", "mlx-community/Llama-3.2-3B-Instruct-4bit", "Llama 3.2 3B (Q4)",
          "Fast and lightweight. Good for quick tasks.", "~2 GB", "basic"),
    Entry("qwen3-4b-4bit", "mlx-community/Qwen3-4B-4bit", "Qwen 3 4B (Q4)",
          "Compact and efficient. Good balance for smaller machines.", "~3 GB", "good"),
    Entry("qwen3-8b-4bit", "mlx-community/Qwen3-8B-4bit", "Qwen 3 8B (Q4)",
          "Great quality, balanced performance. Recommended.", "~5 GB", "great"),
    Entry("qwen3-14b-4bit", "mlx-community/Qwen3-14B-4bit", "Qwen 3 14B (Q4)",
          "Highest quality. Needs 16GB+ RAM.", "~9 GB", "best")
  ]

  /** `catalog_entry`: the first entry with this id. */
  function CatalogEntry(id: string): (r: Option<Entry>)
    ensures r.Some? ==> r.value in CATALOG && r.value.id == id
    ensures r.None? <==> forall i :: 0 <= i < |CATALOG| ==> CATALOG[i].id != id
  {
    FirstWithId(CATALOG, id)
  }

  function FirstWithId(entries: seq<Entry>, id: string): (r: Option<Entry>)
    ensures r.Some? ==> r.value in entries && r.value.id == id
    ensures r.None? <==> forall i :: 0 <= i < |entries| ==> entries[i].id != id
  {
    if |entries| == 0 then None
    else if entries[0].id == id then Some(entries[0])
    else FirstWithId(entries[1..], id)
  }

  /** The directory a catalogue model is stored in: the last '/'-separated
      piece of its repository id. */
  function DirName(e: Entry): (r: string)
    ensures '/' !in r
  {
    var pieces := Split(e.repoId, '/');
    pieces[|pieces| - 1]
  }

  /** `model_path`: catalogue models live under their repository's last
      piece, any other id under itself. */
  function ModelPath(modelsDir: string, id: string): (r: string)
    ensures CatalogEntry(id).Some? ==> r == Paths.Join(modelsDir, DirName(CatalogEntry(id).value))
    ensures CatalogEntry(id).None? ==> r == Paths.Join(modelsDir, id)
  {
    match CatalogEntry(id)
    case Some(e) => Paths.Join(modelsDir, DirName(e))
    case None => Paths.Join(modelsDir, id)
  }

  /** What is on disk for a model: downloaded when its directory holds a
      config.json, sized by the directory (0 when that fails). */
  function OnDisk(modelsDir: string, id: string, present: string -> bool, dirSize: string -> Option<nat>): (s: Status)
    ensures s.Downloaded? || s.NotDownloaded?
    ensures s.Downloaded? <==> present(ModelPath(modelsDir, id)) && present(Paths.Join(ModelPath(modelsDir, id), "config.json"))
    ensures s.Downloaded? ==> s.sizeBytes == dirSize(ModelPath(modelsDir, id)).GetOr(0)
  {
    var path := ModelPath(modelsDir, id);
    if present(path) && present(Paths.Join(path, "config.json")) then Downloaded(dirSize(path).GetOr(0))
    else NotDownloaded
  }

  datatype Info = Info(
    id: string,
    displayName: string,
    repoId: string,
    description: string,
    sizeEstimate: string,
    qualityTier: string,
    status: Status)

  /** `list_models`: one entry per catalogue model, in catalogue order. */
  function ListModels(modelsDir: string, q: Queue, present: string -> bool, dirSize: string -> Option<nat>): (r: seq<Info>)
    ensures |r| == |CATALOG|
    ensures forall i :: 0 <= i < |r| ==>
      && r[i].id == CATALOG[i].id && r[i].repoId == CATALOG[i].repoId
      && r[i].displayName == CATALOG[i].displayName && r[i].qualityTier == CATALOG[i].qualityTier
      && r[i].status == StatusOf(q, CATALOG[i].id, OnDisk(modelsDir, CATALOG[i].id, present, dirSize))
  {
    seq(|CATALOG|, i requires 0 <= i < |CATALOG| =>
      var e := CATALOG[i];
      Info(e.id, e.displayName, e.repoId, e.description, e.sizeEstimate, e.qualityTier,
           StatusOf(q, e.id, OnDisk(modelsDir, e.id, present, dirSize))))
  }

  /** The precedence the model list applies: a download in progress, then
      a recorded error, then config.json on disk. */
  lemma {:induction false} ListPrecedence(modelsDir: string, q: Queue, present: string -> bool, dirSize: string -> Option<nat>, i: nat)
    requires i < |CATALOG|
    ensures var s := ListModels(modelsDir, q, present, dirSize)[i].status;
      var id := CATALOG[i].id;
      && (s.Downloading? <==> id in q.active)
      && (s.Error? <==> id !in q.active && id in q.errors)
      && (s.Downloaded? <==>
            (&& id !in q.active && id !in q.errors
             && present(ModelPath(modelsDir, id)) && present(Paths.Join(ModelPath(modelsDir, id), "config.json"))))
  {
  }

  // ---------------------------------------------------------------------
  // Starting a download
  // ---------------------------------------------------------------------

  datatype Step = Step(result: Result<()>, queue: Queue)

  /** What starting a download depends on besides the queue: finding the
      sidecar script (its path or the not-found message) and creating the
      downloads directory when it is missing (the error, if any). */
  datatype Prep = Prep(sidecar: Result<string>, mkdirError: Option<string>)

  function UnknownModel(id: string): (r: string)
    ensures StartsWith(r, "Unknown model: ") && EndsWith(r, id)
    ensures |r| == |"Unknown model: "| + |id|
  {
    "Unknown model: " + id
  }

  /** `download_model` as written: the model is queued before the sidecar
      script is looked up and the downloads directory created, and a
      failure of either returns without taking it out again. */
  function StartDownloadAsWritten(q: Queue, id: string, prep: Prep): (r: Step)
    ensures Enqueue(q, id, CatalogEntry(id).Some?, UnknownModel(id)).Err? ==>
      r == Step(Err(Enqueue(q, id, CatalogEntry(id).Some?, UnknownModel(id)).error), q)
    ensures r.result.Ok? <==> CatalogEntry(id).Some? && id !in q.active && prep.sidecar.Ok? && prep.mkdirError.None?
    ensures CatalogEntry(id).Some? && id !in q.active ==> id in r.queue.active
  {
    match Enqueue(q, id, CatalogEntry(id).Some?, UnknownModel(id))
    case Err(e) => Step(Err(e), q)
    case Ok(queued) =>
      if prep.sidecar.Err? then Step(Err(prep.sidecar.error), queued)
      else if prep.mkdirError.Some? then
        Step(Err("Failed to create downloads directory: " + prep.mkdirError.value), queued)
      else Step(Ok(()), queued)
  }

  /** A start that fails after queueing leaves the model listed as
      downloading with no task behind it, and every later attempt is
      refused until the user cancels. */
  lemma {:induction false} FailedStartStaysQueued(q: Queue, id: string, message: string, onDisk: Status)
    requires CatalogEntry(id).Some? && id !in q.active && !onDisk.Downloading?
    ensures var r := StartDownloadAsWritten(q, id, Prep(Err(message), None));
      && r.result == Err(message)
      && StatusOf(r.queue, id, onDisk) == Downloading(0.0)
      && StartDownloadAsWritten(r.queue, id, Prep(Ok("server.py"), None)).result
           == Err("Model " + id + " is already being downloaded")
  {
  }

  /** `download_model` with the queue entry taken out again when the
      preparation fails: a failed start changes nothing. */
  function StartDownload(q: Queue, id: string, prep: Prep): (r: Step)
    ensures r.result.Ok? <==> CatalogEntry(id).Some? && id !in q.active && prep.sidecar.Ok? && prep.mkdirError.None?
    ensures r.result.Err? ==> r.queue == q
    ensures r.result.Ok? ==> Enqueue(q, id, true, UnknownModel(id)) == Ok(r.queue)
    ensures r.result.Err? ==> r.result == StartDownloadAsWritten(q, id, prep).result
  {
    var written := StartDownloadAsWritten(q, id, prep);
    if written.result.Err? then Step(written.result, q) else written
  }

  /** After a failed start the model can be downloaded again. */
  lemma {:induction false} FailedStartRetryable(q: Queue, id: string, message: string)
    requires CatalogEntry(id).Some? && id !in q.active
    ensures StartDownload(q, id, Prep(Err(message), None)).queue == q
    ensures StartDownload(q, id, Prep(Ok("server.py"), None)).result.Ok?
  {
  }

  // ---------------------------------------------------------------------
  // The download task
  // ---------------------------------------------------------------------

  /** What reading the helper's output yields next. */
  datatype ReadEvent = Got(line: string) | Eof | ReadFailed(message: string) | CancelRequested

  const NO_RESPONSE: string := "Download process ended without response"

  /** The verdict one output line carries, if any: blank lines, lines that
      are not JSON and progress or other lines carry none. */
  function LineVerdict(parse: Parser, line: string): (r: Option<Result<()>>)
    ensures IsBlank(line) ==> r.None?
    ensures r == Some(Ok(())) ==> parse(Trim(line)).Ok? && Get(parse(Trim(line)).value, "success") == Some(Bool(true))
  {
    var t := Trim(line);
    TrimEmptyIffBlank(line);
    if t == "" then None
    else
      match parse(t)
      case Err(_) => None
      case Ok(j) =>
        var kind := GetStr(j, "type").GetOr("");
        if kind == "response" then
          if Get(j, "success") == Some(Bool(true)) then Some(Ok(()))
          else Some(Err(GetStr(j, "error").GetOr("Unknown error")))
        else if kind == "error" then Some(Err(GetStr(j, "error").GetOr("Unknown error")))
        else None
  }

  function EventVerdict(parse: Parser, e: ReadEvent): (r: Option<Result<()>>)
    ensures !e.Got? ==> r.Some? && r.value.Err?
  {
    match e
    case Got(line) => LineVerdict(parse, line)
    case Eof => Some(Err(NO_RESPONSE))
    case ReadFailed(m) => Some(Err("Failed to read download output: " + m))
    case CancelRequested => Some(Err(CANCELLED))
  }

  /** The read loop: the first event that carries a verdict decides; an
      output that ends without one is an error. */
  function Verdict(parse: Parser, events: seq<ReadEvent>): (r: Result<()>)
    ensures (forall i :: 0 <= i < |events| ==> EventVerdict(parse, events[i]).None?) ==> r == Err(NO_RESPONSE)
  {
    if |events| == 0 then Err(NO_RESPONSE)
    else
      match EventVerdict(parse, events[0])
      case Some(v) => v
      case None =>
        assert forall i :: 0 <= i < |events| - 1 ==> events[1..][i] == events[i + 1];
        Verdict(parse, events[1..])
  }

  /** The first deciding event is the verdict, whatever follows it. */
  lemma {:induction false} VerdictIsFirstDecision(parse: Parser, events: seq<ReadEvent>, k: nat)
    requires k < |events| && EventVerdict(parse, events[k]).Some?
    requires forall i :: 0 <= i < k ==> EventVerdict(parse, events[i]).None?
    ensures Verdict(parse, events) == EventVerdict(parse, events[k]).value
    decreases k
  {
    if k > 0 {
      var rest := events[1..];
      assert EventVerdict(parse, events[0]).None?;
      assert Verdict(parse, events) == Verdict(parse, rest);
      assert rest[k - 1] == events[k];
      forall i | 0 <= i < k - 1 ensures EventVerdict(parse, rest[i]).None? {
        assert rest[i] == events[i + 1];
      }
      VerdictIsFirstDecision(parse, rest, k - 1);
    }
  }

  /** Writing the command to the helper's input. */
  datatype Write = Written | CommandFailed(e: string) | NewlineFailed(e: string) | FlushFailed(e: string)

  /** Everything the download task meets: spawning the helper, writing the
      command, the output events, and the files at the end. */
  datatype Run = Run(
    spawnError: Option<string>,
    write: Write,
    events: seq<ReadEvent>,
    configPresent: bool,
    finalExists: bool,
    removeError: Option<string>,
    renameError: Option<string>)

  /** `download_task`: the outcome of one download. */
  function Task(parse: Parser, run: Run): (r: Result<()>)
    ensures r.Ok? <==>
      && run.spawnError.None? && run.write.Written? && Verdict(parse, run.events).Ok?
      && run.configPresent && !(run.finalExists && run.removeError.Some?) && run.renameError.None?
    ensures run.spawnError.None? && run.write.Written? && Verdict(parse, run.events).Err? ==>
      r == Verdict(parse, run.events)
    ensures run.spawnError.None? && run.write.Written? && Verdict(parse, run.events).Ok? && !run.configPresent ==>
      r == Err("Downloaded model is missing config.json")
  {
    if run.spawnError.Some? then Err("Failed to spawn MLX download process: " + run.spawnError.value)
    else match run.write
      case CommandFailed(e) => Err("Failed to write download command: " + e)
      case NewlineFailed(e) => Err("Failed to write newline: " + e)
      case FlushFailed(e) => Err("Failed to flush stdin: " + e)
      case Written =>
        var v := Verdict(parse, run.events);
        if v.Err? then v
        else if !run.configPresent then Err("Downloaded model is missing config.json")
        else if run.finalExists && run.removeError.Some? then
          Err("Failed to remove existing model directory: " + run.removeError.value)
        else if run.renameError.Some? then Err("Failed to move model to final location: " + run.renameError.value)
        else Ok(())
  }

  /** The spawned task's completion: the language-model manager does not
      record a cancellation as an error. */
  function Complete(q: Queue, id: string, parse: Parser, run: Run): (r: Queue)
    ensures id !in r.active
    ensures Task(parse, run).Ok? ==> id !in r.errors
    ensures Task(parse, run) == Err(CANCELLED) ==> r.errors == q.errors
    ensures Task(parse, run).Err? && Task(parse, run).error != CANCELLED ==>
      id in r.errors && r.errors[id] == Task(parse, run).error
  {
    Finish(q, id, Task(parse, run), false)
  }

  /** `cancel_download`. */
  function CancelDownload(q: Queue, id: string): (r: Result<Queue>)
    ensures r.Ok? <==> id in q.active
    ensures r.Ok? ==> id !in r.value.active && r.value.errors == q.errors
  {
    Cancel(q, id)
  }

  /** `delete_model`: by the model's path. */
  function DeleteModel(q: Queue, modelsDir: string, id: string, present: string -> bool, removal: Option<string>): (r: Result<Queue>)
    ensures !present(ModelPath(modelsDir, id)) ==> r == Err("Model " + id + " is not downloaded")
    ensures r.Ok? ==> id !in r.value.errors && r.value.active == q.active
  {
    Delete(q, id, present(ModelPath(modelsDir, id)), removal)
  }

  /** A download cancelled by the user ends with its model listed by what
      is on disk, not as failed. */
  lemma {:induction false} CancelledDownloadNotAnError(q: Queue, id: string, parse: Parser, run: Run, onDisk: Status)
    requires id in q.active && id !in q.errors && !onDisk.Downloading?
    requires run.spawnError.None? && run.write.Written? && |run.events| > 0 && run.events[0] == CancelRequested
    ensures CancelDownload(q, id).Ok?
    ensures StatusOf(Complete(CancelDownload(q, id).value, id, parse, run), id, onDisk) == onDisk
  {
    VerdictIsFirstDecision(parse, run.events, 0);
  }
}
