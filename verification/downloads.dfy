/** The download bookkeeping both model managers share: the models being
    downloaded, each with its progress, and the last error of each model.
    Progress is a percentage the download task reports; only its presence
    matters here. */
module Downloads {
  import opened Wrappers

  /** `ModelStatus`, as the model lists report it. */
  datatype Status =
    | Downloaded(sizeBytes: nat)
    | Downloading(progress: real)
    | Error(message: string)
    | NotDownloaded

  datatype Queue = Queue(active: map<string, real>, errors: map<string, string>)

  const IDLE: Queue := Queue(map[], map[])

  /** The error a download task ends with when it is cancelled. */
  const CANCELLED: string := "Download cancelled"

  /** A model's listed status: a running download wins over a recorded
      error, which wins over what is on disk. */
  function StatusOf(q: Queue, id: string, onDisk: Status): (s: Status)
    requires !onDisk.Downloading?
    ensures s.Downloading? <==> id in q.active
    ensures s.Downloading? ==> s.progress == q.active[id]
    ensures id !in q.active && id in q.errors ==> s == Error(q.errors[id])
    ensures id !in q.active && id !in q.errors ==> s == onDisk
  {
    if id in q.active then Downloading(q.active[id])
    else if id in q.errors then Error(q.errors[id])
    else onDisk
  }

  /** `download_model` up to the spawn: refuse unknown models and models
      already downloading, else enqueue at progress 0. */
  function Enqueue(q: Queue, id: string, known: bool, unknownError: string): (r: Result<Queue>)
    ensures !known ==> r == Err(unknownError)
    ensures known && id in q.active ==> r == Err("Model " + id + " is already being downloaded")
    ensures r.Ok? <==> known && id !in q.active
    ensures r.Ok? ==> r.value.active.Keys == q.active.Keys + {id} && r.value.active[id] == 0.0
    ensures r.Ok? ==> r.value.errors == q.errors
    ensures r.Ok? ==> forall k :: k in q.active ==> r.value.active[k] == q.active[k]
  {
    if !known then Err(unknownError)
    else if id in q.active then Err("Model " + id + " is already being downloaded")
    else Ok(q.(active := q.active[id := 0.0]))
  }

  /** A progress report: only a download still in the queue is updated. */
  function Report(q: Queue, id: string, progress: real): (r: Queue)
    ensures r.active.Keys == q.active.Keys && r.errors == q.errors
    ensures id in q.active ==> r.active[id] == progress
    ensures forall k :: k in q.active && k != id ==> r.active[k] == q.active[k]
  {
    if id in q.active then q.(active := q.active[id := progress]) else q
  }

  /** The end of a download task: the model leaves the queue; success
      clears its error and failure records it, except a cancellation when
      the manager does not record those. */
  function Finish(q: Queue, id: string, outcome: Result<()>, recordCancelled: bool): (r: Queue)
    ensures id !in r.active
    ensures forall k :: k != id ==> (k in r.active <==> k in q.active)
    ensures forall k :: k in q.active && k != id ==> r.active[k] == q.active[k]
    ensures outcome.Ok? ==> id !in r.errors
    ensures outcome.Err? && (recordCancelled || outcome.error != CANCELLED) ==>
      id in r.errors && r.errors[id] == outcome.error
    ensures outcome.Err? && !recordCancelled && outcome.error == CANCELLED ==> r.errors == q.errors
    ensures forall k :: k != id ==> (k in r.errors <==> k in q.errors)
    ensures forall k :: k in q.errors && k != id ==> r.errors[k] == q.errors[k]
  {
    var active := q.active - {id};
    match outcome
    case Ok(_) => Queue(active, q.errors - {id})
    case Err(e) =>
      if recordCancelled || e != CANCELLED then Queue(active, q.errors[id := e])
      else Queue(active, q.errors)
  }

  /** `cancel_download`: only a queued model can be cancelled; it leaves
      the queue at once, and its error state is untouched. */
  function Cancel(q: Queue, id: string): (r: Result<Queue>)
    ensures r.Err? <==> id !in q.active
    ensures r.Err? ==> r.error == "Model " + id + " is not being downloaded"
    ensures r.Ok? ==> r.value.active.Keys == q.active.Keys - {id} && r.value.errors == q.errors
  {
    if id !in q.active then Err("Model " + id + " is not being downloaded")
    else Ok(q.(active := q.active - {id}))
  }

  /** `delete_model`: a model not on disk is an error, so is a failed
      removal; a deletion clears the model's error. */
  function Delete(q: Queue, id: string, onDisk: bool, removal: Option<string>): (r: Result<Queue>)
    ensures !onDisk ==> r == Err("Model " + id + " is not downloaded")
    ensures onDisk && removal.Some? ==> r == Err("Failed to delete model: " + removal.value)
    ensures r.Ok? <==> onDisk && removal.None?
    ensures r.Ok? ==> r.value.active == q.active && id !in r.value.errors
    ensures r.Ok? ==> forall k :: k != id ==> (k in r.value.errors <==> k in q.errors)
  {
    if !onDisk then Err("Model " + id + " is not downloaded")
    else if removal.Some? then Err("Failed to delete model: " + removal.value)
    else Ok(q.(errors := q.errors - {id}))
  }

  /** A download that is enqueued and completes leaves the queue as it was,
      with the model's old error cleared. */
  lemma {:induction false} EnqueueFinishRestores(q: Queue, id: string, recordCancelled: bool, msg: string)
    requires Enqueue(q, id, true, msg).Ok?
    ensures var r := Finish(Enqueue(q, id, true, msg).value, id, Ok(()), recordCancelled);
      r.active == q.active && r.errors == q.errors - {id}
  {
  }

  /** A cancelled download is listed by what is on disk when the manager
      ignores cancellations, and as the cancellation error otherwise. */
  lemma {:induction false} CancelledStatus(q: Queue, id: string, recordCancelled: bool, msg: string, onDisk: Status)
    requires !onDisk.Downloading? && id !in q.errors
    requires Enqueue(q, id, true, msg).Ok?
    ensures var started := Enqueue(q, id, true, msg).value;
      && Cancel(started, id).Ok?
      && var done := Finish(Cancel(started, id).value, id, Err(CANCELLED), recordCancelled);
      StatusOf(done, id, onDisk) == (if recordCancelled then Error(CANCELLED) else onDisk)
  {
    var started := Enqueue(q, id, true, msg).value;
    var cancelled := Cancel(started, id).value;
    assert id !in cancelled.errors;
  }

  /** A cancelled download whose task is still winding down when the same
      model is downloaded again: the old task's completion takes the new
      download out of the queue, so the model is no longer listed as
      downloading although its new task still runs. */
  lemma {:induction false} StaleFinishDropsRestart(q: Queue, id: string, recordCancelled: bool, msg: string, onDisk: Status)
    requires !onDisk.Downloading?
    requires Enqueue(q, id, true, msg).Ok?
    ensures var first := Enqueue(q, id, true, msg).value;
      && Cancel(first, id).Ok?
      && Enqueue(Cancel(first, id).value, id, true, msg).Ok?
      && var restarted := Enqueue(Cancel(first, id).value, id, true, msg).value;
      && StatusOf(restarted, id, onDisk).Downloading?
      && !StatusOf(Finish(restarted, id, Err(CANCELLED), recordCancelled), id, onDisk).Downloading?
  {
    var first := Enqueue(q, id, true, msg).value;
    var cancelled := Cancel(first, id).value;
    assert id !in cancelled.active;
  }
}
