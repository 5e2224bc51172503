/** The MLX provider (intelligence/mlx_provider.rs): the Rust client of the
    sidecar protocol that `MlxServer` serves.

    The sidecar process is an oracle: `Sidecar.transfer(n)` is what happens
    when the n-th command is written and one line is read back (the line
    itself, or a write/read timeout or I/O failure). JSON syntax is the
    `parse` oracle; a reply that parses but does not fit the reply record
    fails with the deserializer's message, `mismatch`. The provider state
    records every command it sends. */
module MlxProvider {
  import opened Wrappers
  import opened Text
  import opened Utf8
  import opened Json
  import opened IntelProvider
  import opened TagList
  import Paths
  import ChunkSplit
  import MlxServer

  /** Byte budget per chunk sent to an MLX model. */
  const MAX_CONTENT_CHARS: nat := 15000

  // ---------------------------------------------------------------------
  // Commands
  // ---------------------------------------------------------------------

  datatype Request = Request(
    command: string,
    modelPath: Option<string>,
    content: Option<string>,
    repoId: Option<string>,
    destination: Option<string>,
    audioPath: Option<string>,
    capabilities: Option<seq<string>>,
    context: Option<string>)

  /** A command with no arguments. */
  function Bare(command: string): Request {
    Request(command, None, None, None, None, None, None, None)
  }

  function StrOf(o: Option<string>): Option<Json> {
    if o.Some? then Some(Str(o.value)) else None
  }

  /** The value a command field is serialized with, if any. */
  function Argument(q: Request, key: string): Option<Json> {
    if key == "command" then Some(Str(q.command))
    else if key == "model_path" then StrOf(q.modelPath)
    else if key == "content" then StrOf(q.content)
    else if key == "repo_id" then StrOf(q.repoId)
    else if key == "destination" then StrOf(q.destination)
    else if key == "audio_path" then StrOf(q.audioPath)
    else if key == "capabilities" then
      (if q.capabilities.Some? then Some(StrArray(q.capabilities.value)) else None)
    else if key == "context" then StrOf(q.context)
    else None
  }

  /** The serialized command: absent arguments are left out of the object. */
  function ToJson(q: Request): (j: Json)
    ensures j.Obj? && j.fields.Keys <= REQUEST_KEYS
    ensures Get(j, "command") == Some(Str(q.command))
    ensures Get(j, "model_path") == StrOf(q.modelPath)
    ensures Get(j, "content") == StrOf(q.content)
    ensures Get(j, "repo_id") == StrOf(q.repoId)
    ensures Get(j, "destination") == StrOf(q.destination)
    ensures Get(j, "audio_path") == StrOf(q.audioPath)
    ensures Get(j, "context") == StrOf(q.context)
    ensures q.capabilities.Some? ==> Get(j, "capabilities") == Some(StrArray(q.capabilities.value))
    ensures q.capabilities.None? ==> Get(j, "capabilities").None?
  {
    Obj(map k | k in REQUEST_KEYS && Argument(q, k).Some? :: Argument(q, k).value)
  }

  const REQUEST_KEYS: set<string> :=
    {"command", "model_path", "content", "repo_id", "destination", "audio_path", "capabilities", "context"}

  // ---------------------------------------------------------------------
  // Replies
  // ---------------------------------------------------------------------

  /** The reply record the client deserializes each line into. */
  datatype Reply = Reply(
    kind: string,
    command: Option<string>,
    available: Option<bool>,
    success: Option<bool>,
    modelName: Option<string>,
    tags: Option<seq<string>>,
    summary: Option<string>,
    error: Option<string>,
    paramCount: Option<nat>,
    language: Option<string>,
    transcript: Option<string>,
    capabilities: Option<seq<string>>,
    newContent: Option<string>,
    updatedSummary: Option<string>,
    keyPoints: Option<seq<string>>,
    decisions: Option<seq<string>>,
    actionItems: Option<seq<string>>,
    openQuestions: Option<seq<string>>,
    suggestedQuestions: Option<seq<Json>>,
    keyConcepts: Option<seq<Json>>)

  const U64_LIMIT: int := 0x1_0000_0000_0000_0000

  function AsBool(j: Json): (r: Option<bool>)
    ensures r.Some? <==> j.Bool?
  {
    if j.Bool? then Some(j.b) else None
  }

  /** A `u64`: an integer in range (a JSON float never is). */
  function AsCount(j: Json): (r: Option<nat>)
    ensures r.Some? <==> j.Int? && 0 <= j.i < U64_LIMIT
  {
    if j.Int? && 0 <= j.i < U64_LIMIT then Some(j.i as nat) else None
  }

  /** An optional field: `Some(None)` when it is missing or null,
      `Some(Some(x))` when it reads as `x`, `None` when it has the wrong
      type and deserialization fails. */
  function Optional<T>(j: Json, key: string, read: Json -> Option<T>): (r: Option<Option<T>>)
    ensures r == Some(None) <==> Get(j, key).None? || Get(j, key) == Some(Null)
    ensures r.None? <==> Get(j, key).Some? && Get(j, key) != Some(Null) && read(Get(j, key).value).None?
    ensures r.Some? && r.value.Some? ==> Get(j, key).Some? && read(Get(j, key).value) == r.value
  {
    match Get(j, key)
    case None => Some(None)
    case Some(v) =>
      if v.Null? then Some(None)
      else
        match read(v)
        case None => None
        case Some(x) => Some(Some(x))
  }

  /** A field value the reply record accepts for a field read by `read`. */
  predicate Fits<T>(j: Json, key: string, read: Json -> Option<T>) {
    Optional(j, key, read).Some?
  }

  const TEXT_FIELDS: set<string> :=
    {"_command", "model_name", "summary", "error", "language", "transcript", "new_content", "updated_summary"}
  const LIST_FIELDS: set<string> :=
    {"tags", "capabilities", "key_points", "decisions", "action_items", "open_questions"}
  const VALUE_LIST_FIELDS: set<string> := {"suggested_questions", "key_concepts"}

  /** Every known field has a type the record accepts; unknown fields are
      ignored. */
  predicate WellTyped(j: Json) {
    && (forall k :: k in TEXT_FIELDS ==> Fits(j, k, AsStr))
    && (forall k :: k in LIST_FIELDS ==> Fits(j, k, AsStringArray))
    && (forall k :: k in VALUE_LIST_FIELDS ==> Fits(j, k, AsArray))
    && Fits(j, "available", AsBool) && Fits(j, "success", AsBool)
    && Fits(j, "_param_count", AsCount)
  }

  /** The value of an optional field of a record that decoded. */
  function Read<T>(j: Json, key: string, read: Json -> Option<T>): Option<T>
    requires Fits(j, key, read)
  {
    Optional(j, key, read).value
  }

  /** Deserialization of one reply object: "type" must be a string and the
      known fields must have their types; missing or null fields are
      absent, unknown ones ignored. */
  function DecodeReply(j: Json): (r: Option<Reply>)
    ensures r.Some? <==> j.Obj? && GetStr(j, "type").Some? && WellTyped(j)
    ensures r.Some? ==> r.value.kind == GetStr(j, "type").value && r.value.error == GetStr(j, "error")
  {
    if !j.Obj? || GetStr(j, "type").None? || !WellTyped(j) then None
    else
      assert "error" in TEXT_FIELDS;
      Some(Reply(
        GetStr(j, "type").value,
        Read(j, "_command", AsStr),
        Read(j, "available", AsBool),
        Read(j, "success", AsBool),
        Read(j, "model_name", AsStr),
        Read(j, "tags", AsStringArray),
        Read(j, "summary", AsStr),
        Read(j, "error", AsStr),
        Read(j, "_param_count", AsCount),
        Read(j, "language", AsStr),
        Read(j, "transcript", AsStr),
        Read(j, "capabilities", AsStringArray),
        Read(j, "new_content", AsStr),
        Read(j, "updated_summary", AsStr),
        Read(j, "key_points", AsStringArray),
        Read(j, "decisions", AsStringArray),
        Read(j, "action_items", AsStringArray),
        Read(j, "open_questions", AsStringArray),
        Read(j, "suggested_questions", AsArray),
        Read(j, "key_concepts", AsArray)))
  }

  // ---------------------------------------------------------------------
  // The sidecar link
  // ---------------------------------------------------------------------

  /** What writing one command and reading one line produced. */
  datatype Transfer =
    | Line(text: string)
    | WriteTimedOut
    | WriteFailed(message: string)
    | ReadTimedOut
    | ReadFailed(message: string)

  datatype Sidecar = Sidecar(transfer: nat -> Transfer, parse: Parser, mismatch: Json -> string)

  /** The provider's state: the loaded model's name, the availability found
      at start-up, and the commands sent so far. */
  datatype Provider = Provider(modelName: Option<string>, availability: Availability, sent: seq<Request>)

  datatype Step<T> = Step(result: Result<T>, provider: Provider)

  const BROKEN_PIPE := "Sidecar closed connection (broken pipe)"

  /** `send_command` with a timeout of `secs` seconds for the write and for
      the read. An empty read is end of stream. */
  function Send(sc: Sidecar, p: Provider, q: Request, secs: nat): (r: Step<Reply>)
    ensures r.provider == p.(sent := p.sent + [q])
    ensures sc.transfer(|p.sent|) == Line("") ==> r.result == Err(BROKEN_PIPE)
    ensures sc.transfer(|p.sent|) == WriteTimedOut ==>
      r.result == Err("Command write timeout (" + NatToString(secs) + "s) for '" + q.command + "'")
    ensures r.result.Ok? <==>
      && sc.transfer(|p.sent|).Line? && sc.transfer(|p.sent|).text != ""
      && sc.parse(sc.transfer(|p.sent|).text).Ok?
      && DecodeReply(sc.parse(sc.transfer(|p.sent|).text).value).Some?
    ensures r.result.Ok? ==> r.result.value == DecodeReply(sc.parse(sc.transfer(|p.sent|).text).value).value
  {
    var p' := p.(sent := p.sent + [q]);
    match sc.transfer(|p.sent|)
    case WriteTimedOut =>
      Step(Err("Command write timeout (" + NatToString(secs) + "s) for '" + q.command + "'"), p')
    case WriteFailed(e) => Step(Err("Failed to write command: " + e), p')
    case ReadTimedOut =>
      Step(Err("Command read timeout (" + NatToString(secs) + "s) for '" + q.command
               + "'. Try a shorter audio file or increase timeout."), p')
    case ReadFailed(e) => Step(Err("Failed to read response: " + e), p')
    case Line(text) =>
      if text == "" then Step(Err(BROKEN_PIPE), p')
      else
        match sc.parse(text)
        case Err(e) => Step(Err("Failed to parse response: " + e), p')
        case Ok(j) =>
          match DecodeReply(j)
          case None => Step(Err("Failed to parse response: " + sc.mismatch(j)), p')
          case Some(reply) => Step(Ok(reply), p')
  }

  /** Sends a command and reads its reply with `handle`; the provider state
      is only extended by the command. */
  function Exchange<T>(sc: Sidecar, p: Provider, q: Request, secs: nat, handle: Reply -> Result<T>): (r: Step<T>)
    ensures r.provider == p.(sent := p.sent + [q])
    ensures Send(sc, p, q, secs).result.Err? ==> r.result == Err(Send(sc, p, q, secs).result.error)
    ensures Send(sc, p, q, secs).result.Ok? ==> r.result == handle(Send(sc, p, q, secs).result.value)
  {
    var s := Send(sc, p, q, secs);
    match s.result
    case Err(e) => Step(Err(e), s.provider)
    case Ok(reply) => Step(handle(reply), s.provider)
  }

  // ---------------------------------------------------------------------
  // Availability and model loading
  // ---------------------------------------------------------------------

  /** The availability a reply reports: an error reply is unavailable with
      its message; any other reply is available iff it says so, with no
      reason. */
  function AvailabilityFrom(reply: Reply): (a: Availability)
    ensures reply.kind == "error" ==> !a.available && a.reason == reply.error
    ensures reply.kind != "error" ==> (a.available <==> reply.available == Some(true)) && a.reason.None?
  {
    if reply.kind == "error" then Availability(false, reply.error)
    else Availability(reply.available.GetOr(false), None)
  }

  function CheckAvailabilityInternal(sc: Sidecar, p: Provider): (r: Step<Availability>)
    ensures r.provider == p.(sent := p.sent + [Bare("check-availability")])
  {
    Exchange(sc, p, Bare("check-availability"), 15, (reply: Reply) => Ok(AvailabilityFrom(reply)))
  }

  const TEXT_MODELS: set<string> :=
    {"llama-3.2-3b-instruct-4bit", "qwen3-4b-4bit", "qwen3-8b-4bit", "qwen3-14b-4bit"}
  const OMNI_MODELS: set<string> := {"qwen2.5-omni-3b-mlx-8bit", "qwen2.5-omni-7b-mlx-4bit"}

  const TEXT_ONLY: seq<string> := ["text"]
  const AUDIO_AND_TEXT: seq<string> := ["audio", "text"]

  /** `lookup_capabilities`: the catalogue entry for a model directory name,
      compared in lower case; unknown names that mention both "qwen" and
      "omni" are taken to be multimodal, and everything else text-only. */
  function LookupCapabilities(dir: string): (r: seq<string>)
    ensures r == TEXT_ONLY || r == AUDIO_AND_TEXT
    ensures Lower(dir) in TEXT_MODELS ==> r == TEXT_ONLY
    ensures Lower(dir) in OMNI_MODELS ==> r == AUDIO_AND_TEXT
    ensures Lower(dir) !in TEXT_MODELS ==>
      (r == AUDIO_AND_TEXT <==>
       Lower(dir) in OMNI_MODELS || (Contains(Lower(dir), "qwen") && Contains(Lower(dir), "omni")))
  {
    var name := Lower(dir);
    if name in TEXT_MODELS then TEXT_ONLY
    else if name in OMNI_MODELS then AUDIO_AND_TEXT
    else if Contains(name, "qwen") && Contains(name, "omni") then AUDIO_AND_TEXT
    else TEXT_ONLY
  }

  /** The load command for a model directory named `name`. */
  function LoadRequest(path: string, name: string): Request {
    Bare("load-model").(modelPath := Some(path), capabilities := Some(LookupCapabilities(name)))
  }

  /** How a load reply is read: the new model name on success. */
  function LoadedName(reply: Reply): (r: Result<Option<string>>)
    ensures r.Ok? <==> reply.kind != "error" && reply.success == Some(true)
    ensures r.Ok? ==> r.value == reply.modelName
    ensures reply.kind == "error" ==> r == Err(reply.error.GetOr("Failed to load model"))
    ensures reply.kind != "error" && reply.success != Some(true) ==> r == Err("Model load failed")
  {
    if reply.kind == "error" then Err(reply.error.GetOr("Failed to load model"))
    else if !reply.success.GetOr(false) then Err("Model load failed")
    else Ok(reply.modelName)
  }

  /** `load_model_internal`: a path without a file name is refused before
      anything is sent; otherwise one load command is sent, and only a
      successful reply replaces the model name. */
  function LoadModelInternal(sc: Sidecar, p: Provider, path: string): (r: Step<()>)
    ensures Paths.FileName(path).None? ==> r == Step(Err("Invalid model path"), p)
    ensures Paths.FileName(path).Some? ==>
      r.provider.sent == p.sent + [LoadRequest(path, Paths.FileName(path).value)]
    ensures r.result.Err? ==> r.provider.modelName == p.modelName
    ensures r.provider.availability == p.availability
    ensures r.result.Ok? ==>
      var reply := Send(sc, p, LoadRequest(path, Paths.FileName(path).value), 60).result;
      && Paths.FileName(path).Some? && reply.Ok? && LoadedName(reply.value).Ok?
      && r.provider.modelName == reply.value.modelName
  {
    match Paths.FileName(path)
    case None => Step(Err("Invalid model path"), p)
    case Some(name) =>
      var s := Exchange(sc, p, LoadRequest(path, name), 60, LoadedName);
      match s.result
      case Err(e) => Step(Err(e), s.provider)
      case Ok(newName) => Step(Ok(()), s.provider.(modelName := newName))
  }

  /** `switch_model`: loads, and on failure puts the previous name back. */
  function SwitchModel(sc: Sidecar, p: Provider, path: string): (r: Step<()>)
    ensures r.result.Err? ==> r.provider.modelName == p.modelName
    ensures r.result == LoadModelInternal(sc, p, path).result
  {
    var previous := p.modelName;
    var s := LoadModelInternal(sc, p, path);
    match s.result
    case Ok(_) => s
    case Err(e) => Step(Err(e), s.provider.(modelName := previous))
  }

  /** The rollback of `switch_model` never changes anything: a failed load
      has already left the name alone. */
  lemma {:induction false} SwitchModelRollbackRedundant(sc: Sidecar, p: Provider, path: string)
    ensures SwitchModel(sc, p, path) == LoadModelInternal(sc, p, path)
  {
  }

  // ---------------------------------------------------------------------
  // Start-up
  // ---------------------------------------------------------------------

  /** What `python --version` showed. */
  datatype PythonCheck =
    | PythonOk
    | PythonNotFound
    | PythonUnrunnable(message: string)
    | PythonFailed(stderr: string)

  /** The environment of a start-up: the interpreter check, whether the
      sidecar script was found (and the development path, as printed, that
      was tried last), whether the process spawned, and which of the two
      fifteen-second start-up timeouts fire. */
  datatype Launch = Launch(
    python: PythonCheck,
    scriptFound: bool,
    devPathShown: string,
    spawnError: Option<string>,
    availabilityTimedOut: bool,
    loadTimedOut: bool)

  const INITIAL: Provider := Provider(None, Availability(false, None), [])

  /** What follows the interpreter path when it is not found. */
  const PYTHON_HINT: string := "'. Please install Python 3.10+ or " + "update the python_path in settings."

  /** The start of the message for a sidecar script found in neither place;
      the development path follows it. */
  const NO_SCRIPT: string :=
    "MLX sidecar script not found. Checked:\n"
    + "  - Contents/Resources/sidecars/mlx-server/server.py\n"
    + "  - "

  /** The reason shown when the sidecar gives none. */
  const UNKNOWN_REASON: string := "Unknown reason"

  /** The start-up error for an unavailable sidecar. */
  function UnavailableError(reason: Option<string>): (e: string)
    ensures var why := reason.GetOr(UNKNOWN_REASON);
      && ((Contains(why, "mlx") || Contains(why, "import")) ==>
           e == "MLX dependencies not installed: " + why + ". Please install mlx and mlx-lm: pip install mlx mlx-lm")
      && (!Contains(why, "mlx") && !Contains(why, "import") ==> e == "MLX not available: " + why)
  {
    var why := reason.GetOr(UNKNOWN_REASON);
    if Contains(why, "mlx") || Contains(why, "import") then
      "MLX dependencies not installed: " + why + ". Please install mlx and mlx-lm: pip install mlx mlx-lm"
    else "MLX not available: " + why
  }

  /** The second half of `MlxProvider::new`, once the sidecar runs: ask
      for availability (kept in the state), refuse an unavailable sidecar,
      then load the model. */
  function Start(l: Launch, sc: Sidecar, modelPath: string): (r: Result<Provider>)
    ensures r.Ok? ==> !l.availabilityTimedOut && !l.loadTimedOut && r.value.availability.available
    ensures r.Ok? ==>
      var checked := CheckAvailabilityInternal(sc, INITIAL);
      && checked.result == Ok(r.value.availability)
      && LoadModelInternal(sc, checked.provider.(availability := r.value.availability), modelPath) == Step(Ok(()), r.value)
    ensures !l.availabilityTimedOut && CheckAvailabilityInternal(sc, INITIAL).result.Ok?
            && !CheckAvailabilityInternal(sc, INITIAL).result.value.available ==>
      r == Err(UnavailableError(CheckAvailabilityInternal(sc, INITIAL).result.value.reason))
  {
    if l.availabilityTimedOut then
      Err(("MLX availability check timeout (15s). " + "The sidecar may be unresponsive."))
    else
      var c := CheckAvailabilityInternal(sc, INITIAL);
      match c.result
      case Err(e) => Err(e)
      case Ok(a) =>
        if !a.available then Err(UnavailableError(a.reason))
        else if l.loadTimedOut then Err("MLX model load timeout (15s)")
        else
          var loaded := LoadModelInternal(sc, c.provider.(availability := a), modelPath);
          if loaded.result.Err? then Err(loaded.result.error)
          else Ok(loaded.provider)
  }

  /** `MlxProvider::new`: check the interpreter, find and spawn the sidecar,
      then start it. */
  function New(l: Launch, sc: Sidecar, modelPath: string, python: string): (r: Result<Provider>)
    ensures l.python == PythonNotFound ==>
      r == Err("Python not found at '" + python + PYTHON_HINT)
    ensures r.Ok? ==> l.python == PythonOk && l.scriptFound && l.spawnError.None? && r == Start(l, sc, modelPath)
  {
    match l.python
    case PythonNotFound =>
      Err("Python not found at '" + python + PYTHON_HINT)
    case PythonUnrunnable(e) => Err("Failed to check Python version: " + e)
    case PythonFailed(e) => Err("Python check failed: " + e)
    case PythonOk =>
      if !l.scriptFound then
        Err(NO_SCRIPT + l.devPathShown)
      else if l.spawnError.Some? then
        Err(("Failed to spawn MLX sidecar (Python " + "found but spawn failed): ") + l.spawnError.value)
      else Start(l, sc, modelPath)
  }

  /** `shutdown`: sends the command and ignores whatever comes back. */
  function Shutdown(sc: Sidecar, p: Provider): (r: Provider)
    ensures r == p.(sent := p.sent + [Bare("shutdown")])
  {
    Send(sc, p, Bare("shutdown"), 5).provider
  }

  // ---------------------------------------------------------------------
  // Per-chunk requests
  // ---------------------------------------------------------------------

  /** Tags from a reply: an error reply carries its message; the list must
      be present and non-empty. */
  function TagsFrom(reply: Reply): (r: Result<seq<string>>)
    ensures r.Ok? <==> reply.kind != "error" && reply.tags.Some? && |reply.tags.value| > 0
    ensures r.Ok? ==> r.value == reply.tags.value
    ensures reply.kind == "error" ==> r == Err(reply.error.GetOr("Tag generation failed"))
    ensures reply.kind != "error" && reply.tags.None? ==> r == Err("No tags in response")
    ensures reply.kind != "error" && reply.tags == Some([]) ==> r == Err("Model returned no tags")
  {
    if reply.kind == "error" then Err(reply.error.GetOr("Tag generation failed"))
    else if reply.tags.None? then Err("No tags in response")
    else if |reply.tags.value| == 0 then Err("Model returned no tags")
    else Ok(reply.tags.value)
  }

  /** A summary from a reply: present and non-empty. */
  function SummaryFrom(reply: Reply): (r: Result<string>)
    ensures r.Ok? <==> reply.kind != "error" && reply.summary.Some? && reply.summary.value != ""
    ensures r.Ok? ==> r.value == reply.summary.value
    ensures reply.kind == "error" ==> r == Err(reply.error.GetOr("Summarization failed"))
    ensures reply.kind != "error" && reply.summary.None? ==> r == Err("No summary in response")
    ensures reply.kind != "error" && reply.summary == Some("") ==> r == Err("Model returned empty summary")
  {
    if reply.kind == "error" then Err(reply.error.GetOr("Summarization failed"))
    else if reply.summary.None? then Err("No summary in response")
    else if reply.summary.value == "" then Err("Model returned empty summary")
    else Ok(reply.summary.value)
  }

  function TagsRequest(content: string): Request {
    Bare("generate-tags").(content := Some(content))
  }

  function SummaryRequest(content: string): Request {
    Bare("summarize").(content := Some(content))
  }

  function GenerateTagsChunk(sc: Sidecar, p: Provider, content: string): (r: Step<seq<string>>)
    ensures r.provider == p.(sent := p.sent + [TagsRequest(content)])
    ensures r.result.Ok? ==> |r.result.value| > 0
  {
    Exchange(sc, p, TagsRequest(content), 60, TagsFrom)
  }

  function SummarizeChunk(sc: Sidecar, p: Provider, content: string): (r: Step<string>)
    ensures r.provider == p.(sent := p.sent + [SummaryRequest(content)])
    ensures r.result.Ok? ==> r.result.value != ""
  {
    Exchange(sc, p, SummaryRequest(content), 60, SummaryFrom)
  }

  /** A transcript from a reply: language and transcript must both be
      present (either may be empty). */
  function TranscriptFrom(reply: Reply): (r: Result<Transcript>)
    ensures r.Ok? <==> reply.kind != "error" && reply.language.Some? && reply.transcript.Some?
    ensures r.Ok? ==> r.value == Transcript(reply.language.value, reply.transcript.value)
    ensures reply.kind == "error" ==> r == Err(reply.error.GetOr("Transcript generation failed"))
    ensures reply.kind != "error" && reply.language.None? ==> r == Err("No language in response")
    ensures reply.kind != "error" && reply.language.Some? && reply.transcript.None? ==>
      r == Err("No transcript in response")
  {
    if reply.kind == "error" then Err(reply.error.GetOr("Transcript generation failed"))
    else if reply.language.None? then Err("No language in response")
    else if reply.transcript.None? then Err("No transcript in response")
    else Ok(Transcript(reply.language.value, reply.transcript.value))
  }

  function GenerateTranscriptInternal(sc: Sidecar, p: Provider, audioPath: string): (r: Step<Transcript>)
    ensures r.provider == p.(sent := p.sent + [Bare("generate-transcript").(audioPath := Some(audioPath))])
  {
    Exchange(sc, p, Bare("generate-transcript").(audioPath := Some(audioPath)), 600, TranscriptFrom)
  }

  /** A suggested question needs both a string "question" and a string
      "reason". */
  function QuestionOf(v: Json): (r: Option<Question>)
    ensures r.Some? <==> GetStr(v, "question").Some? && GetStr(v, "reason").Some?
    ensures r.Some? ==> r.value == Question(GetStr(v, "question").value, GetStr(v, "reason").value)
  {
    if GetStr(v, "question").Some? && GetStr(v, "reason").Some? then
      Some(Question(GetStr(v, "question").value, GetStr(v, "reason").value))
    else None
  }

  /** A key concept needs both a string "term" and a string "context". */
  function ConceptOf(v: Json): (r: Option<Concept>)
    ensures r.Some? <==> GetStr(v, "term").Some? && GetStr(v, "context").Some?
    ensures r.Some? ==> r.value == Concept(GetStr(v, "term").value, GetStr(v, "context").value)
  {
    if GetStr(v, "term").Some? && GetStr(v, "context").Some? then
      Some(Concept(GetStr(v, "term").value, GetStr(v, "context").value))
    else None
  }

  /** A Co-Pilot cycle from a reply: every missing field is empty, and the
      questions and concepts missing a field are dropped. */
  function CycleFrom(reply: Reply): (r: Result<CycleResult>)
    ensures reply.kind == "error" <==> r.Err?
    ensures r.Err? ==> r.error == reply.error.GetOr("Co-Pilot analysis failed")
    ensures r.Ok? ==>
      && r.value.newContent == reply.newContent.GetOr("")
      && r.value.updatedSummary == reply.updatedSummary.GetOr("")
      && r.value.keyPoints == reply.keyPoints.GetOr([])
      && r.value.decisions == reply.decisions.GetOr([])
      && r.value.actionItems == reply.actionItems.GetOr([])
      && r.value.openQuestions == reply.openQuestions.GetOr([])
      && |r.value.suggestedQuestions| <= |reply.suggestedQuestions.GetOr([])|
      && |r.value.keyConcepts| <= |reply.keyConcepts.GetOr([])|
      && (forall k :: 0 <= k < |reply.suggestedQuestions.GetOr([])| ==>
            var v := reply.suggestedQuestions.GetOr([])[k];
            QuestionOf(v).Some? ==> QuestionOf(v).value in r.value.suggestedQuestions)
      && (forall k :: 0 <= k < |reply.keyConcepts.GetOr([])| ==>
            var v := reply.keyConcepts.GetOr([])[k];
            ConceptOf(v).Some? ==> ConceptOf(v).value in r.value.keyConcepts)
      && (forall i :: 0 <= i < |r.value.suggestedQuestions| ==>
            exists k :: 0 <= k < |reply.suggestedQuestions.GetOr([])|
              && QuestionOf(reply.suggestedQuestions.GetOr([])[k]) == Some(r.value.suggestedQuestions[i]))
      && (forall i :: 0 <= i < |r.value.keyConcepts| ==>
            exists k :: 0 <= k < |reply.keyConcepts.GetOr([])|
              && ConceptOf(reply.keyConcepts.GetOr([])[k]) == Some(r.value.keyConcepts[i]))
  {
    if reply.kind == "error" then Err(reply.error.GetOr("Co-Pilot analysis failed"))
    else
      var qs := reply.suggestedQuestions.GetOr([]);
      var cs := reply.keyConcepts.GetOr([]);
      var questions := FilterMap(qs, QuestionOf);
      var concepts := FilterMap(cs, ConceptOf);
      Ok(CycleResult(reply.newContent.GetOr(""), reply.updatedSummary.GetOr(""),
                     reply.keyPoints.GetOr([]), reply.decisions.GetOr([]),
                     reply.actionItems.GetOr([]), reply.openQuestions.GetOr([]),
                     questions, concepts))
  }

  function CopilotRequest(audioPath: string, context: string): Request {
    Bare("copilot-analyze").(audioPath := Some(audioPath), context := Some(context))
  }

  function CopilotAnalyzeInternal(sc: Sidecar, p: Provider, audioPath: string, context: string): (r: Step<CycleResult>)
    ensures r.provider == p.(sent := p.sent + [CopilotRequest(audioPath, context)])
  {
    Exchange(sc, p, CopilotRequest(audioPath, context), 120, CycleFrom)
  }

  // ---------------------------------------------------------------------
  // Chunked content
  // ---------------------------------------------------------------------

  /** Decodes each chunk of valid UTF-8. */
  function DecodeChunks(chunks: seq<seq<byte>>): (r: seq<string>)
    requires forall i :: 0 <= i < |chunks| ==> Valid(chunks[i])
    ensures |r| == |chunks| && forall i :: 0 <= i < |r| ==> Encode(r[i]) == chunks[i]
  {
    seq(|chunks|, i requires 0 <= i < |chunks| => Decode(chunks[i]))
  }

  /** Decoding chunk by chunk decodes the whole. */
  lemma {:induction false} DecodeChunksConcat(chunks: seq<seq<byte>>)
    requires forall i :: 0 <= i < |chunks| ==> Valid(chunks[i])
    ensures Valid(Concat(chunks)) && Concat(DecodeChunks(chunks)) == Decode(Concat(chunks))
  {
    if |chunks| > 0 {
      var t := chunks[1..];
      DecodeChunksConcat(t);
      var r := DecodeChunks(chunks);
      assert forall i :: 0 <= i < |t| ==> r[i + 1] == DecodeChunks(t)[i];
      assert r[1..] == DecodeChunks(t);
      DecodeAppend(chunks[0], Concat(t));
    }
  }

  /** The text chunks of `split_content`: each fits the budget in bytes, and
      together they are the content. */
  function Chunks(content: string): (r: seq<string>)
    ensures |r| >= 1 && Concat(r) == content
    ensures ByteLen(content) <= MAX_CONTENT_CHARS <==> r == [content]
    ensures forall i :: 0 <= i < |r| ==> ByteLen(r[i]) <= MAX_CONTENT_CHARS
  {
    EncodeValid(content);
    var bytes := ChunkSplit.SplitContent(Encode(content), MAX_CONTENT_CHARS);
    var r := DecodeChunks(bytes);
    DecodeChunksConcat(bytes);
    DecodeEncode(content);
    assert ByteLen(content) > MAX_CONTENT_CHARS ==> |r| >= 2;
    r
  }

  /** Every chunk in turn; a failed chunk contributes nothing and does not
      stop the others. */
  function ChunkTags(sc: Sidecar, p: Provider, chunks: seq<string>): (r: (seq<string>, Provider))
    ensures r.1.sent == p.sent + TagsRequests(chunks)
    ensures r.1.modelName == p.modelName && r.1.availability == p.availability
    decreases |chunks|
  {
    if |chunks| == 0 then ([], p)
    else
      var t := GenerateTagsChunk(sc, p, chunks[0]);
      var rest := ChunkTags(sc, t.provider, chunks[1..]);
      AppendAssoc(p.sent, [TagsRequest(chunks[0])], TagsRequests(chunks[1..]));
      ((if t.result.Ok? then t.result.value else []) + rest.0, rest.1)
  }

  function TagsRequests(chunks: seq<string>): (r: seq<Request>)
    ensures |r| == |chunks| && forall i :: 0 <= i < |r| ==> r[i] == TagsRequest(chunks[i])
  {
    if |chunks| == 0 then [] else [TagsRequest(chunks[0])] + TagsRequests(chunks[1..])
  }

  /** `generate_tags`: content that fits is one request; otherwise the tags
      of all chunks are merged, ignoring case, and capped at five. */
  function GenerateTags(sc: Sidecar, p: Provider, content: string): (r: Step<seq<string>>)
    ensures r.result.Ok? ==> |r.result.value| > 0
    ensures ByteLen(content) <= MAX_CONTENT_CHARS ==> r == GenerateTagsChunk(sc, p, content)
    ensures ByteLen(content) > MAX_CONTENT_CHARS ==>
      var all := ChunkTags(sc, p, Chunks(content));
      && r == Step(MergeTags(all.0), all.1)
      && r.provider.sent == p.sent + TagsRequests(Chunks(content))
  {
    var chunks := Chunks(content);
    if |chunks| == 1 then
      GenerateTagsChunk(sc, p, content)
    else
      var all := ChunkTags(sc, p, chunks);
      Step(MergeTags(all.0), all.1)
  }

  /** The chunked path: the result is at most five distinct tags, each from
      some chunk, and an error only when every chunk failed or came back
      empty. */
  lemma {:induction false} ChunkedTagsMerged(sc: Sidecar, p: Provider, content: string)
    requires ByteLen(content) > MAX_CONTENT_CHARS
    ensures var all := ChunkTags(sc, p, Chunks(content)).0;
      var r := GenerateTags(sc, p, content).result;
      && (r.Err? <==> |all| == 0)
      && (r.Err? ==> r.error == "No tags generated from any content chunk")
      && (r.Ok? ==> |r.value| <= MAX_TAGS && DistinctIgnoreCase(r.value)
                    && forall i :: 0 <= i < |r.value| ==> r.value[i] in all)
      && (r.Ok? ==> r.value == Take(FirstOccurrences(all), MAX_TAGS))
  {
  }

  function SummaryRequests(chunks: seq<string>): (r: seq<Request>)
    ensures |r| == |chunks| && forall i :: 0 <= i < |r| ==> r[i] == SummaryRequest(chunks[i])
  {
    if |chunks| == 0 then [] else [SummaryRequest(chunks[0])] + SummaryRequests(chunks[1..])
  }

  /** Every chunk summarized in turn; failed chunks are skipped. */
  function ChunkSummaries(sc: Sidecar, p: Provider, chunks: seq<string>): (r: (seq<string>, Provider))
    ensures r.1.sent == p.sent + SummaryRequests(chunks)
    ensures r.1.modelName == p.modelName && r.1.availability == p.availability
    ensures |r.0| <= |chunks| && forall i :: 0 <= i < |r.0| ==> r.0[i] != ""
    decreases |chunks|
  {
    if |chunks| == 0 then ([], p)
    else
      var s := SummarizeChunk(sc, p, chunks[0]);
      var rest := ChunkSummaries(sc, s.provider, chunks[1..]);
      AppendAssoc(p.sent, [SummaryRequest(chunks[0])], SummaryRequests(chunks[1..]));
      ((if s.result.Ok? then [s.result.value] else []) + rest.0, rest.1)
  }

  /** `summarize`: content that fits is one request. Otherwise no surviving
      chunk is an error, a single survivor is the answer, and several are
      summarized once more from their newline-joined text, falling back to
      the first chunk summary when that fails. */
  function Summarize(sc: Sidecar, p: Provider, content: string): (r: Step<string>)
    ensures r.result.Ok? ==> r.result.value != ""
    ensures ByteLen(content) <= MAX_CONTENT_CHARS ==> r == SummarizeChunk(sc, p, content)
    ensures ByteLen(content) > MAX_CONTENT_CHARS ==>
      var all := ChunkSummaries(sc, p, Chunks(content));
      var parts := all.0;
      && (|parts| == 0 <==> r.result == Err("No summaries generated from any content chunk"))
      && (|parts| == 1 ==> r == Step(Ok(parts[0]), all.1))
      && (|parts| >= 2 ==>
            var combined := SummarizeChunk(sc, all.1, Join(parts, "\n"));
            && r.provider == combined.provider
            && (combined.result.Err? ==> r.result == Ok(parts[0]))
            && (combined.result.Ok? ==> r.result == combined.result))
  {
    var chunks := Chunks(content);
    if |chunks| == 1 then
      SummarizeChunk(sc, p, content)
    else
      var all := ChunkSummaries(sc, p, chunks);
      var parts := all.0;
      if |parts| == 0 then Step(Err("No summaries generated from any content chunk"), all.1)
      else if |parts| == 1 then Step(Ok(parts[0]), all.1)
      else
        var combined := SummarizeChunk(sc, all.1, Join(parts, "\n"));
        if combined.result.Ok? then combined else Step(Ok(parts[0]), combined.provider)
  }


  // ---------------------------------------------------------------------
  // Client and server together
  // ---------------------------------------------------------------------

  /** A path with a file name is not empty. */
  lemma {:induction false} FileNameNotEmpty(path: string)
    requires Paths.FileName(path).Some?
    ensures path != ""
  {
    Paths.EmptyHasNoFileName();
  }

  /** The load command the client builds reaches the server's loader with
      the path as a string and the catalogue capabilities as a list. */
  lemma {:induction false} LoadRequestReachesLoader(b: MlxServer.Backend, s: MlxServer.Session, path: string)
    requires Paths.FileName(path).Some?
    ensures var name := Paths.FileName(path).value;
      MlxServer.HandleCommand(b, s, ToJson(LoadRequest(path, name)))
        == MlxServer.LoadModel(b, s, Str(path), StrArray(LookupCapabilities(name)))
  {
    FileNameNotEmpty(path);
    var name := Paths.FileName(path).value;
    var j := ToJson(LoadRequest(path, name));
    assert j.Obj? && MlxServer.CommandOf(j) == Str("load-model");
    assert MlxServer.Field(j, "model_path") == Str(path) && !Falsy(Str(path));
    assert MlxServer.Field(j, "capabilities") == StrArray(LookupCapabilities(name));
  }

  /** The server reports a failed MLX check on a "response" line, where the
      client never reads the error: the client sees an unavailable sidecar
      without a reason. */
  lemma {:induction false} AvailabilityReplyDropsReason(b: MlxServer.Backend)
    ensures DecodeReply(MlxServer.CheckAvailability(b)).Some?
    ensures AvailabilityFrom(DecodeReply(MlxServer.CheckAvailability(b)).value)
              == Availability(b.mlxCheck.None?, None)
  {
    AvailabilityLineWellTyped(b);
  }

  /** A value the reply record accepts under `key`. */
  predicate ValueFits(key: string, v: Json) {
    || v.Null?
    || (&& (key in TEXT_FIELDS ==> v.Str?)
        && (key in LIST_FIELDS ==> v.Arr? && AllStrings(v.items))
        && (key in VALUE_LIST_FIELDS ==> v.Arr?)
        && (key == "available" || key == "success" ==> v.Bool?)
        && (key == "_param_count" ==> AsCount(v).Some?))
  }

  /** An object decodes when each of its values fits its key. */
  lemma {:induction false} WellTypedByValues(j: Json)
    requires j.Obj? && forall k :: k in j.fields ==> ValueFits(k, j.fields[k])
    ensures WellTyped(j)
  {
    forall k | k in TEXT_FIELDS ensures Fits(j, k, AsStr) {
      if k in j.fields { assert ValueFits(k, j.fields[k]); }
    }
    forall k | k in LIST_FIELDS ensures Fits(j, k, AsStringArray) {
      if k in j.fields { assert ValueFits(k, j.fields[k]); }
    }
    forall k | k in VALUE_LIST_FIELDS ensures Fits(j, k, AsArray) {
      if k in j.fields { assert ValueFits(k, j.fields[k]); }
    }
    if "available" in j.fields { assert ValueFits("available", j.fields["available"]); }
    if "success" in j.fields { assert ValueFits("success", j.fields["success"]); }
    if "_param_count" in j.fields { assert ValueFits("_param_count", j.fields["_param_count"]); }
  }

  lemma {:induction false} AvailabilityLineWellTyped(b: MlxServer.Backend)
    ensures WellTyped(MlxServer.CheckAvailability(b))
  {
    var line := MlxServer.CheckAvailability(b);
    forall k | k in line.fields ensures ValueFits(k, line.fields[k]) {
      assert k == "available" || k == "type" || k == "command" || k == "error";
      ReplyKeysFit(k, line.fields[k]);
    }
    WellTypedByValues(line);
  }

  /** The four keys of an availability line take the values the line gives
      them. */
  lemma {:induction false} ReplyKeysFit(k: string, v: Json)
    requires ((k == "type" || k == "command" || k == "error") && v.Str?) || (k == "available" && v.Bool?)
    ensures ValueFits(k, v)
  {
    assert k !in LIST_FIELDS && k !in VALUE_LIST_FIELDS;
  }

  /** Consequently start-up against a server whose MLX check fails always
      reports an unknown reason, never the missing-dependency hint. */
  lemma {:induction false} StartupHidesUnavailableReason(l: Launch, sc: Sidecar, modelPath: string, b: MlxServer.Backend, line: string)
    requires !l.availabilityTimedOut && b.mlxCheck.Some?
    requires sc.transfer(0) == Line(line) && line != ""
    requires sc.parse(line) == Ok(MlxServer.CheckAvailability(b))
    ensures Start(l, sc, modelPath) == Err("MLX not available: " + UNKNOWN_REASON)
  {
    CheckSeesNoReason(sc, b, line);
    UnknownReasonError();
  }

  /** The client's availability check against that line. */
  lemma {:induction false} CheckSeesNoReason(sc: Sidecar, b: MlxServer.Backend, line: string)
    requires b.mlxCheck.Some?
    requires sc.transfer(0) == Line(line) && line != ""
    requires sc.parse(line) == Ok(MlxServer.CheckAvailability(b))
    ensures CheckAvailabilityInternal(sc, INITIAL).result == Ok(Availability(false, None))
  {
    AvailabilityReplyDropsReason(b);
    var reply := DecodeReply(MlxServer.CheckAvailability(b)).value;
    assert Send(sc, INITIAL, Bare("check-availability"), 15).result == Ok(reply);
  }

  /** Without a reason the start-up error carries no installation hint. */
  lemma {:induction false} UnknownReasonError()
    ensures UnavailableError(None) == "MLX not available: " + UNKNOWN_REASON
  {
    UnknownReasonHasNoHint();
  }

  lemma {:induction false} UnknownReasonHasNoHint()
    ensures !Contains(UNKNOWN_REASON, "mlx") && !Contains(UNKNOWN_REASON, "import")
  {
    AbsentNotContained(UNKNOWN_REASON, "mlx", 'x');
    AbsentNotContained(UNKNOWN_REASON, "import", 'p');
  }

  /** Every error line of the server decodes, and its message is what the
      client reports. */
  lemma {:induction false} ServerFailureDecodes(command: string, message: string)
    ensures var r := DecodeReply(MlxServer.Failure(command, message));
      && r.Some? && r.value.kind == "error" && r.value.error == Some(message)
      && TagsFrom(r.value) == Err(message) && SummaryFrom(r.value) == Err(message)
  {
    var line := MlxServer.Failure(command, message);
    forall k | k in line.fields ensures ValueFits(k, line.fields[k]) {
      assert k in {"type", "command", "error"};
    }
    WellTypedByValues(line);
  }

  /** A tag list the server sends is the list the client reads. */
  lemma {:induction false} ServerTagListDecodes(tags: seq<string>)
    ensures var r := DecodeReply(MlxServer.Success("generate-tags", map["tags" := StrArray(tags)]));
      && r.Some? && r.value.kind == "response" && r.value.tags == Some(tags)
  {
    var line := MlxServer.Success("generate-tags", map["tags" := StrArray(tags)]);
    forall k | k in line.fields ensures ValueFits(k, line.fields[k]) {
      assert k in {"type", "command", "tags"};
    }
    WellTypedByValues(line);
    StrArrayRoundTrip(tags);
    assert "tags" in LIST_FIELDS;
  }

  /** Whatever the server answers to generate-tags, the client reads it:
      an error with the server's message, or the server's tag list, which
      is refused only when empty. */
  lemma {:induction false} ServerTagsReachClient(b: MlxServer.Backend, s: MlxServer.Session, content: Json)
    ensures var line := MlxServer.GenerateTags(b, s, content);
      var r := DecodeReply(line);
      && r.Some?
      && (MlxServer.ErrorOf(line).Some? ==> TagsFrom(r.value) == Err(MlxServer.ErrorOf(line).value))
      && (MlxServer.ErrorOf(line).None? ==>
            var tags := AsStringArray(line.fields["tags"]).value;
            && |tags| <= MlxServer.MAX_SERVER_TAGS
            && TagsFrom(r.value) == (if tags == [] then Err("Model returned no tags") else Ok(tags)))
  {
    match s.model
    case None =>
      ServerFailureDecodes("generate-tags", MlxServer.NO_MODEL);
    case Some(h) =>
      match MlxServer.ContentExcerpt(content, b.show)
      case None =>
        ServerFailureDecodes("generate-tags", b.pyError);
      case Some(excerpt) =>
        var g := b.generate(h, MlxServer.Generation(MlxServer.LmGenerate, MlxServer.PlainPrompt(MlxServer.TagsPrompt(excerpt)), 200, None));
        match g
        case Err(e) =>
          ServerFailureDecodes("generate-tags", e);
        case Ok(text) =>
          var tags := TagList.Take(MlxServer.ParseTags(b.parse, b.show, text), MlxServer.MAX_SERVER_TAGS);
          StrArrayRoundTrip(tags);
          ServerTagListDecodes(tags);
  }
}
