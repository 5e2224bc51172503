/** The Whisper `ModelManager`: the four supported GGML model files, their
    listed status, the GGML file check, and the download queue. The file
    system and the HTTP download are described by what they yield. */
module WhisperModels {
  import opened Wrappers
  import opened Text
  import opened Utf8
  import opened LittleEndian
  import opened Downloads
  import Paths

  const SUPPORTED: seq<string> := ["ggml-tiny.en.bin", "ggml-base.en.bin", "ggml-small.en.bin", "ggml-medium.en.bin"]

  /** The first four bytes of every GGML file, read as a little-endian
      `u32`. */
  const GGML_MAGIC: nat := 0x67676d6c
  const MIN_GGML_SIZE: nat := 1_048_576
  const HF_BASE_URL: string := "https://huggingface.co/ggerganov/whisper.cpp/resolve/main"

  /** What a model file on disk looks like: whether it exists, and its
      size or the metadata error. */
  datatype File = File(present: bool, metadata: Result<nat>)

  /** A file's status when no download or error is recorded for it. */
  function OnDisk(f: File): (s: Status)
    ensures s.Downloaded? <==> f.present && f.metadata.Ok?
    ensures s.Downloaded? ==> s.sizeBytes == f.metadata.value
    ensures s.NotDownloaded? <==> !f.present
    ensures s.Error? ==> s.message == "Failed to read file metadata: " + f.metadata.error
  {
    if !f.present then NotDownloaded
    else match f.metadata
      case Ok(size) => Downloaded(size)
      case Err(e) => Error("Failed to read file metadata: " + e)
  }

  datatype Info = Info(filename: string, status: Status)

  /** `list_models`: the supported names in order, each with its status. */
  function ListModels(modelsDir: string, q: Queue, files: string -> File): (r: seq<Info>)
    ensures |r| == |SUPPORTED|
    ensures forall i :: 0 <= i < |r| ==>
      && r[i].filename == SUPPORTED[i]
      && r[i].status == StatusOf(q, SUPPORTED[i], OnDisk(files(Paths.Join(modelsDir, SUPPORTED[i]))))
  {
    seq(|SUPPORTED|, i requires 0 <= i < |SUPPORTED| =>
      Info(SUPPORTED[i], StatusOf(q, SUPPORTED[i], OnDisk(files(Paths.Join(modelsDir, SUPPORTED[i]))))))
  }

  /** A downloaded file as the check reads it: its size or the metadata
      error, whether it opens, and its first four bytes or the read error. */
  datatype Ggml = Ggml(metadata: Result<nat>, openError: Option<string>, head: Result<seq<byte>>)

  /** `validate_ggml_file`: at least 1 MiB and the GGML magic number. */
  function ValidateGgml(f: Ggml): (r: Result<()>)
    requires f.head.Ok? ==> |f.head.value| == 4
    ensures r.Ok? <==>
      && f.metadata.Ok? && f.metadata.value >= MIN_GGML_SIZE && f.openError.None?
      && f.head.Ok? && ReadU32(f.head.value) == GGML_MAGIC
    ensures f.metadata.Ok? && f.metadata.value < MIN_GGML_SIZE ==>
      r == Err("File too small: " + NatToString(f.metadata.value) + " bytes (minimum 1048576 bytes)")
  {
    if f.metadata.Err? then Err("Failed to read file metadata: " + f.metadata.error)
    else if f.metadata.value < MIN_GGML_SIZE then
      Err("File too small: " + NatToString(f.metadata.value) + " bytes (minimum 1048576 bytes)")
    else if f.openError.Some? then Err("Failed to open file: " + f.openError.value)
    else if f.head.Err? then Err("Failed to read magic number: " + f.head.error)
    else if ReadU32(f.head.value) != GGML_MAGIC then
      Err("Invalid GGML magic number: 0x" + Hex8(ReadU32(f.head.value)) + " (expected 0x67676d6c)")
    else Ok(())
  }

  /** The magic number is the bytes "lmgg": a large enough file passes the
      check exactly when it starts with them. */
  lemma {:induction false} MagicBytes(head: seq<byte>)
    requires |head| == 4
    ensures ReadU32(head) == GGML_MAGIC <==> head == [0x6c, 0x6d, 0x67, 0x67]
  {
    if ReadU32(head) == GGML_MAGIC {
      U32Injective(head);
    }
  }

  /** `download_url`. */
  function DownloadUrl(name: string): (r: string)
    ensures StartsWith(r, HF_BASE_URL + "/") && EndsWith(r, name)
    ensures |r| == |HF_BASE_URL| + 1 + |name|
  {
    HF_BASE_URL + "/" + name
  }

  /** `download_model` up to the spawn. */
  function StartDownload(q: Queue, name: string): (r: Result<Queue>)
    ensures name !in SUPPORTED ==> r == Err("Unsupported model: " + name)
    ensures r.Ok? <==> name in SUPPORTED && name !in q.active
    ensures r.Ok? ==> StatusOf(r.value, name, NotDownloaded) == Downloading(0.0)
  {
    Enqueue(q, name, name in SUPPORTED, "Unsupported model: " + name)
  }

  /** One step of the response stream: whether cancellation was requested
      before it, then the chunk (its length or the read error) and the
      outcome of writing it. */
  datatype Chunk = Chunk(cancelled: bool, data: Result<nat>, writeError: Option<string>)

  /** The body loop: the first cancelled, unreadable or unwritable chunk
      ends the download. */
  function Stream(chunks: seq<Chunk>): (r: Result<()>)
    ensures r.Ok? <==> forall i :: 0 <= i < |chunks| ==>
      !chunks[i].cancelled && chunks[i].data.Ok? && chunks[i].writeError.None?
    ensures |chunks| > 0 && chunks[0].cancelled ==> r == Err(CANCELLED)
  {
    if |chunks| == 0 then Ok(())
    else if chunks[0].cancelled then Err(CANCELLED)
    else if chunks[0].data.Err? then Err("Failed to read chunk: " + chunks[0].data.error)
    else if chunks[0].writeError.Some? then Err("Failed to write chunk: " + chunks[0].writeError.value)
    else
      assert forall i :: 0 <= i < |chunks| - 1 ==> chunks[1..][i] == chunks[i + 1];
      Stream(chunks[1..])
  }

  /** Everything one HTTP download meets. `status` is the response status
      when it is not a success. */
  datatype Fetch = Fetch(
    sendError: Option<string>,
    badStatus: Option<string>,
    createError: Option<string>,
    chunks: seq<Chunk>,
    flushError: Option<string>,
    file: Ggml,
    renameError: Option<string>)

  /** `download_task`. */
  function Task(f: Fetch): (r: Result<()>)
    requires f.file.head.Ok? ==> |f.file.head.value| == 4
    ensures r.Ok? <==>
      && f.sendError.None? && f.badStatus.None? && f.createError.None? && Stream(f.chunks).Ok?
      && f.flushError.None? && ValidateGgml(f.file).Ok? && f.renameError.None?
    ensures f.sendError.None? && f.badStatus.None? && f.createError.None? && Stream(f.chunks).Ok?
            && f.flushError.None? && ValidateGgml(f.file).Err? ==>
      r == Err("Invalid GGML file: " + ValidateGgml(f.file).error)
  {
    if f.sendError.Some? then Err("Failed to start download: " + f.sendError.value)
    else if f.badStatus.Some? then Err("HTTP error: " + f.badStatus.value)
    else if f.createError.Some? then Err("Failed to create temp file: " + f.createError.value)
    else if Stream(f.chunks).Err? then Stream(f.chunks)
    else if f.flushError.Some? then Err("Failed to flush file: " + f.flushError.value)
    else if ValidateGgml(f.file).Err? then Err("Invalid GGML file: " + ValidateGgml(f.file).error)
    else if f.renameError.Some? then Err("Failed to move file to final location: " + f.renameError.value)
    else Ok(())
  }

  /** The spawned task's completion: every failure is recorded, a
      cancellation included. */
  function Complete(q: Queue, name: string, f: Fetch): (r: Queue)
    requires f.file.head.Ok? ==> |f.file.head.value| == 4
    ensures name !in r.active
    ensures Task(f).Ok? ==> name !in r.errors
    ensures Task(f).Err? ==> name in r.errors && r.errors[name] == Task(f).error
  {
    Finish(q, name, Task(f), true)
  }

  /** A download the user cancels is listed afterwards as failed with
      "Download cancelled". */
  lemma {:induction false} CancelledDownloadIsAnError(q: Queue, name: string, f: Fetch, file: File)
    requires name in q.active
    requires f.sendError.None? && f.badStatus.None? && f.createError.None?
    requires |f.chunks| > 0 && f.chunks[0].cancelled
    requires f.file.head.Ok? ==> |f.file.head.value| == 4
    ensures Cancel(q, name).Ok?
    ensures StatusOf(Complete(Cancel(q, name).value, name, f), name, OnDisk(file)) == Error(CANCELLED)
  {
  }

  /** `cancel_download`. */
  function CancelDownload(q: Queue, name: string): (r: Result<Queue>)
    ensures r.Ok? <==> name in q.active
    ensures r.Ok? ==> name !in r.value.active && r.value.errors == q.errors
  {
    Cancel(q, name)
  }

  /** `delete_model`: by the file's path under the models directory. */
  function DeleteModel(q: Queue, modelsDir: string, name: string, files: string -> File, removal: Option<string>): (r: Result<Queue>)
    ensures !files(Paths.Join(modelsDir, name)).present ==> r == Err("Model " + name + " is not downloaded")
    ensures r.Ok? ==> name !in r.value.errors && r.value.active == q.active
  {
    Delete(q, name, files(Paths.Join(modelsDir, name)).present, removal)
  }
}
