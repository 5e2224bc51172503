/** The MLX sidecar (sidecars/mlx-server/server.py): a line-oriented JSON
    command server that holds at most one loaded model and answers one
    reply line per command line.

    Everything the server gets from libraries (the MLX runtime, the model
    loaders, text generation, audio decoding, the JSON parser, the model
    download and Python's `str()` of composite values) is a field of
    `Backend`. The protocol logic around those calls is modelled exactly. */
module MlxServer {
  import opened Wrappers
  import opened Text
  import opened Json
  import TagList

  // ---------------------------------------------------------------------
  // Server state and backend
  // ---------------------------------------------------------------------

  /** A loaded model together with its tokenizer. */
  datatype Handle = Handle(id: nat)

  /** `MLXServer`'s fields: the model/tokenizer pair, the model name (the
      last path segment it was loaded from) and the capability list the
      client declared, which decides the loader and gates the audio
      commands. */
  datatype Session = Session(model: Option<Handle>, modelName: Option<string>, capabilities: Json)

  /** The state of a freshly started server. */
  const INITIAL: Session := Session(None, None, Arr([]))

  datatype Engine = LmGenerate | OmniGenerate

  /** The sampling settings of a chat turn. */
  datatype Sampling = Sampling(repetitionPenalty: real, repetitionContext: nat, temperature: real, topP: real)

  const CHAT_SAMPLING: Sampling := Sampling(1.2, 64, 0.7, 0.9)

  datatype Prompt =
    | PlainPrompt(text: string)
    | ChatPrompt(turns: seq<Turn>)
    | AudioPrompt(instruction: string, audioPath: string)

  /** One `{role, content}` chat message, values as the client sent them. */
  datatype Turn = Turn(role: Json, content: Json)

  /** One call into the generator. */
  datatype Generation = Generation(engine: Engine, prompt: Prompt, maxTokens: nat, sampling: Option<Sampling>)

  datatype Backend = Backend(
    /** `None` when a trial MLX array operation works, else its error. */
    mlxCheck: Option<string>,
    /** mlx-lm-omni (its loader and generator) is importable. */
    omni: bool,
    /** `None` when the audio libraries import, else the import error. */
    audioDeps: Option<string>,
    loadText: Json -> Result<Handle>,
    loadOmni: Json -> Result<Handle>,
    generate: (Handle, Generation) -> Result<string>,
    /** `os.path.exists`. */
    fileExists: Json -> bool,
    /** Decoding an audio file at 16 kHz mono: the number of samples. */
    decode: string -> Result<nat>,
    /** Reading a raw PCM file: its size in bytes. */
    pcmBytes: string -> Result<nat>,
    paramCount: Handle -> Result<nat>,
    parse: Parser,
    /** The Hugging Face snapshot download: `None` on success. */
    download: (Json, Json) -> Option<string>,
    /** Python's `str()` of a float, list or dict. */
    show: Json -> string,
    /** The message of a type or attribute error raised by the server code
        itself on a value of the wrong JSON type. */
    pyError: string,
    traceback: string)

  // ---------------------------------------------------------------------
  // Python text conventions
  // ---------------------------------------------------------------------

  /** The characters Python's `str.strip()` removes (`str.isspace`): the
      Unicode white space plus the four information separators. */
  predicate IsPySpace(c: char) {
    IsWhitespace(c) || ('\U{001C}' <= c <= '\U{001F}')
  }

  /** Python `str.strip()`. */
  function PyStrip(s: string): string {
    StripBy(s, IsPySpace)
  }

  function IntToString(i: int): (r: string)
    ensures i >= 0 ==> r == NatToString(i)
    ensures i < 0 ==> r == "-" + NatToString(-i)
  {
    if i < 0 then "-" + NatToString(-i) else NatToString(i)
  }

  /** Python `str(value)` of a JSON value. */
  function PyStr(j: Json, show: Json -> string): (r: string)
    ensures j.Str? ==> r == j.s
  {
    match j
    case Str(s) => s
    case Null => "None"
    case Bool(b) => if b then "True" else "False"
    case Int(i) => IntToString(i)
    case _ => show(j)
  }

  /** Python's `"audio" in capabilities`: membership in a list, a key of a
      dict, a substring of a string; `None` where Python raises. */
  function HasAudio(caps: Json): (r: Option<bool>)
    ensures caps.Arr? ==> r == Some(Str("audio") in caps.items)
    ensures r.None? <==> !(caps.Arr? || caps.Obj? || caps.Str?)
  {
    match caps
    case Arr(items) => Some(Str("audio") in items)
    case Obj(fields) => Some("audio" in fields)
    case Str(s) => Some(Contains(s, "audio"))
    case _ => None
  }

  // ---------------------------------------------------------------------
  // Reply lines
  // ---------------------------------------------------------------------

  function Success(command: string, fields: map<string, Json>): (r: Json)
    ensures r.Obj? && "type" in r.fields && r.fields["type"] == Str("response")
    ensures "command" in r.fields && r.fields["command"] == Str(command)
    ensures forall k :: k in fields && k != "type" && k != "command" ==> k in r.fields && r.fields[k] == fields[k]
  {
    Obj(fields + map["type" := Str("response"), "command" := Str(command)])
  }

  function Failure(command: string, message: string): (r: Json)
    ensures ErrorOf(r) == Some(message) && "command" in r.fields && r.fields["command"] == Str(command)
  {
    Obj(map["type" := Str("error"), "command" := Str(command), "error" := Str(message)])
  }

  /** The message of an error line. */
  function ErrorOf(j: Json): (r: Option<string>)
    ensures r.Some? ==> j.Obj? && "type" in j.fields && j.fields["type"] == Str("error")
                        && "error" in j.fields && j.fields["error"] == Str(r.value)
  {
    if j.Obj? && "type" in j.fields && j.fields["type"] == Str("error")
       && "error" in j.fields && j.fields["error"].Str?
    then Some(j.fields["error"].s)
    else None
  }

  /** Every line the server writes is an object tagged "response", or an
      error line with a message. */
  predicate WellFormed(j: Json) {
    j.Obj? && "type" in j.fields
    && (j.fields["type"] == Str("response") || ErrorOf(j).Some?)
  }

  /** What a command handler does with its reply: return it for the loop to
      print, print it itself (and return nothing), or raise. */
  datatype Outcome = Reply(line: Json) | Emitted(line: Json) | Raised(message: string)

  predicate WellFormedOutcome(o: Outcome) {
    (o.Reply? || o.Emitted?) ==> WellFormed(o.line)
  }

  datatype Handled = Handled(outcome: Outcome, session: Session)

  const NO_MODEL := "No model loaded"

  const NO_OMNI_LOAD := "mlx-lm-omni not installed. Install " + "it to load multimodal models."
  const NO_OMNI_AUDIO := "mlx-lm-omni not installed. Install " + "it to enable audio transcription."
  const NO_OMNI_COPILOT := "mlx-lm-omni not installed. Install " + "it to enable Co-Pilot analysis."

  // ---------------------------------------------------------------------
  // check-availability, load-model, model-info
  // ---------------------------------------------------------------------

  function CheckAvailability(b: Backend): (r: Json)
    ensures WellFormed(r) && r.fields["type"] == Str("response")
    ensures "available" in r.fields && r.fields["available"] == Bool(b.mlxCheck.None?)
    ensures b.mlxCheck.Some? ==> "error" in r.fields && r.fields["error"] == Str(b.mlxCheck.value)
  {
    match b.mlxCheck
    case None => Success("check-availability", map["available" := Bool(true)])
    case Some(e) => Success("check-availability", map["available" := Bool(false), "error" := Str(e)])
  }

  /** The capability list a load stores: the declared one, or `["text"]`
      when none was sent. */
  function DeclaredCapabilities(caps: Json): (r: Json)
    ensures caps.Null? ==> r == Arr([Str("text")]) && HasAudio(r) == Some(false)
    ensures !caps.Null? ==> r == caps
  {
    if caps.Null? then Arr([Str("text")]) else caps
  }

  /** `model_path.split("/")[-1]`. */
  function LastSegment(path: string): (r: string)
    ensures '/' !in r
    ensures EndsWith(path, r)
  {
    var parts := Split(path, '/');
    SplitJoin(path, '/');
    JoinEndsWithLast(parts, "/");
    parts[|parts| - 1]
  }

  /** A join ends with its last part. */
  lemma {:induction false} JoinEndsWithLast(parts: seq<string>, sep: string)
    requires |parts| >= 1
    ensures EndsWith(Join(parts, sep), parts[|parts| - 1])
  {
    if |parts| > 1 {
      JoinEndsWithLast(parts[1..], sep);
      var j := Join(parts[1..], sep);
      assert Join(parts, sep) == (parts[0] + sep) + j;
    }
  }

  /** `load_model`: the capabilities are stored first, whatever happens
      next; "audio" selects the omni loader, which must be installed; the
      model is replaced only by a successful load, and the name is then the
      last path segment. */
  function LoadModel(b: Backend, s: Session, path: Json, caps: Json): (r: Handled)
    ensures r.outcome.Reply? && WellFormed(r.outcome.line)
    ensures r.session.capabilities == DeclaredCapabilities(caps)
    ensures HasAudio(DeclaredCapabilities(caps)) == Some(true) && !b.omni ==>
      r == Handled(Reply(Failure("load-model", NO_OMNI_LOAD)),
                   s.(capabilities := caps))
    ensures ErrorOf(r.outcome.line).None? <==>
      (path.Str? && match HasAudio(DeclaredCapabilities(caps))
                    case Some(true) => b.omni && b.loadOmni(path).Ok?
                    case Some(false) => b.loadText(path).Ok?
                    case None => false)
    ensures ErrorOf(r.outcome.line).None? ==>
      && r.session.model.Some?
      && r.session.modelName == Some(LastSegment(path.s))
      && r.outcome.line.Obj? && "model_name" in r.outcome.line.fields
      && r.outcome.line.fields["model_name"] == Str(LastSegment(path.s))
      && "capabilities" in r.outcome.line.fields
      && r.outcome.line.fields["capabilities"] == DeclaredCapabilities(caps)
    ensures ErrorOf(r.outcome.line).Some? && path.Str? ==>
      r.session.model == s.model && r.session.modelName == s.modelName
  {
    var stored := DeclaredCapabilities(caps);
    var s1 := s.(capabilities := stored);
    match HasAudio(stored)
    case None => Handled(Reply(Failure("load-model", b.pyError)), s1)
    case Some(audio) =>
      if audio && !b.omni then
        Handled(Reply(Failure("load-model", NO_OMNI_LOAD)), s1)
      else
        var loaded := if audio then b.loadOmni(path) else b.loadText(path);
        match loaded
        case Err(e) => Handled(Reply(Failure("load-model", e)), s1)
        case Ok(h) =>
          var s2 := s1.(model := Some(h));
          if !path.Str? then
            // the name cannot be taken from a non-string path, but the model is already replaced
            Handled(Reply(Failure("load-model", b.pyError)), s2)
          else
            var name := LastSegment(path.s);
            Handled(Reply(Success("load-model", map["success" := Bool(true), "model_name" := Str(name),
                                                   "capabilities" := stored])),
                    s2.(modelName := Some(name)))
  }

  function ModelInfo(b: Backend, s: Session): (r: Json)
    ensures WellFormed(r)
    ensures s.model.None? ==> ErrorOf(r) == Some(NO_MODEL)
    ensures s.model.Some? && b.paramCount(s.model.value).Ok? ==>
      && r.fields["type"] == Str("response")
      && "param_count" in r.fields && r.fields["param_count"] == Int(b.paramCount(s.model.value).value)
      && "model_name" in r.fields && r.fields["model_name"] == (if s.modelName.Some? then Str(s.modelName.value) else Null)
  {
    match s.model
    case None => Failure("model-info", NO_MODEL)
    case Some(h) =>
      match b.paramCount(h)
      case Err(e) => Failure("model-info", e)
      case Ok(n) =>
        Success("model-info", map["model_name" := if s.modelName.Some? then Str(s.modelName.value) else Null,
                                  "param_count" := Int(n)])
  }

  // ---------------------------------------------------------------------
  // generate-tags and summarize
  // ---------------------------------------------------------------------

  /** Longest content prefix put into a prompt. */
  const PROMPT_CONTENT_LIMIT: nat := 2000
  const MAX_SERVER_TAGS: nat := 5

  /** `content[:2000]` as the prompt shows it: the first 2000 characters of a
      string, Python's `str()` of the first 2000 elements of a list; any
      other value cannot be sliced. */
  function ContentExcerpt(content: Json, show: Json -> string): (r: Option<string>)
    ensures content.Str? ==> r == Some(TagList.Take(content.s, PROMPT_CONTENT_LIMIT))
    ensures r.Some? <==> content.Str? || content.Arr?
  {
    match content
    case Str(s) => Some(TagList.Take(s, PROMPT_CONTENT_LIMIT))
    case Arr(items) => Some(show(Arr(TagList.Take(items, PROMPT_CONTENT_LIMIT))))
    case _ => None
  }

  function TagsPrompt(excerpt: string): (r: string)
    ensures At(r, |TAGS_HEAD|, excerpt) && StartsWith(r, TAGS_HEAD)
  {
    assert (TAGS_HEAD + excerpt + "\n\nTags:")[|TAGS_HEAD|..|TAGS_HEAD| + |excerpt|] == excerpt;
    TAGS_HEAD + excerpt + "\n\nTags:"
  }

  const TAGS_HEAD :=
    "Generate 3-5 relevant tags for this "
    + "content. Return ONLY a JSON array "
    + "of strings, nothing else.\n\n"
    + "Content: "

  function SummaryPrompt(excerpt: string): (r: string)
    ensures At(r, |SUMMARY_HEAD|, excerpt) && StartsWith(r, SUMMARY_HEAD)
  {
    assert (SUMMARY_HEAD + excerpt + "\n\nSummary:")[|SUMMARY_HEAD|..|SUMMARY_HEAD| + |excerpt|] == excerpt;
    SUMMARY_HEAD + excerpt + "\n\nSummary:"
  }

  const SUMMARY_HEAD :=
    "Summarize this content in 2-3 sentences. "
    + "Be concise and factual.\n\n"
    + "Content: "

  /** The first bracketed span of the text, as the non-greedy, dot-all
      search `\[.*?\]` finds it: from the first '[' to the first ']' after
      it. A later '[' cannot start a match when the first one has no ']'
      after it. */
  function BracketSpan(text: string): (r: Option<string>)
    ensures r.Some? ==> |r.value| >= 2 && r.value[0] == '[' && r.value[|r.value| - 1] == ']'
    ensures r.Some? ==> ']' !in r.value[1..|r.value| - 1]
    ensures r.None? ==> !Contains(text, "[") || forall j :: Find(text, "[").value < j ==> !At(text, j, "]")
  {
    match Find(text, "[")
    case None => None
    case Some(i) =>
      match FindFrom(text, "]", i + 1)
      case None => None
      case Some(j) =>
        var span := text[i..j + 1];
        AtIndex(text, i, "[", 0);
        AtIndex(text, j, "]", 0);
        NotAtNotIn(text, i + 1, j, ']');
        assert span[1..|span| - 1] == text[i + 1..j];
        Some(span)
  }

  /** Python's `strip()` is idempotent. */
  lemma {:induction false} PyStripStable(s: string)
    ensures PyStrip(PyStrip(s)) == PyStrip(s)
  {
    StripByIdempotent(s, IsPySpace);
  }

  /** `[str(t).strip() for t in tags if str(t).strip()]`. */
  function ElementTags(items: seq<Json>, show: Json -> string): (r: seq<string>)
    ensures |r| <= |items|
    ensures forall k :: 0 <= k < |r| ==> r[k] != [] && r[k] == PyStrip(r[k])
  {
    if |items| == 0 then []
    else
      var t := PyStrip(PyStr(items[0], show));
      var rest := ElementTags(items[1..], show);
      if t == [] then rest
      else
        PyStripStable(PyStr(items[0], show));
        [t] + rest
  }

  /** Stripping only removes characters: every character of the result
      occurs in the input. */
  lemma {:induction false} StripKeepsChars(s: string, drop: char -> bool)
    ensures forall c :: c in StripBy(s, drop) ==> c in s
  {
    StripBySlice(s, drop);
  }

  /** One fallback piece: stripped of whitespace, then of quotes. */
  function CleanPiece(p: string): (r: string)
    ensures forall c :: c in r ==> c in p
  {
    StripKeepsChars(p, IsPySpace);
    StripKeepsChars(PyStrip(p), InSet({'"', '\''}));
    StripChars(PyStrip(p), {'"', '\''})
  }

  function CleanPieces(pieces: seq<string>): (r: seq<string>)
    ensures |r| == |pieces|
    ensures forall k :: 0 <= k < |r| ==> r[k] == CleanPiece(pieces[k])
  {
    seq(|pieces|, k requires 0 <= k < |pieces| => CleanPiece(pieces[k]))
  }

  /** The fallback reading of a reply: brackets stripped from both ends,
      newlines treated as commas, each piece stripped of whitespace and then
      of quotes, empty pieces dropped. */
  function FallbackTags(text: string): (r: seq<string>)
    ensures forall k :: 0 <= k < |r| ==> r[k] != [] && ',' !in r[k] && '\n' !in r[k]
  {
    var flat := ReplaceChar(StripChars(text, {'[', ']'}), '\n', ',');
    assert '\n' !in flat;
    var pieces := Split(flat, ',');
    var cleaned := CleanPieces(pieces);
    assert forall k :: 0 <= k < |cleaned| ==> ',' !in cleaned[k] && '\n' !in cleaned[k] by {
      forall k | 0 <= k < |cleaned| ensures ',' !in cleaned[k] && '\n' !in cleaned[k] {
        SplitPiecesFrom(flat, ',', k);
      }
    }
    NonEmpty(cleaned)
  }

  /** Every character of a split piece occurs in the split string. */
  lemma {:induction false} SplitPiecesFrom(s: string, c: char, k: nat)
    requires k < |Split(s, c)|
    ensures forall x :: x in Split(s, c)[k] ==> x in s
    decreases |s|
  {
    var f := Find(s, [c]);
    if f.Some? {
      if k > 0 {
        SplitPiecesFrom(s[f.value + 1..], c, k - 1);
      }
    }
  }

  /** `_parse_tags`: the JSON array found in the reply when it parses, the
      comma-separated fallback otherwise. Never fails, and never yields an
      empty tag. */
  function ParseTags(parse: Parser, show: Json -> string, reply: string): (r: seq<string>)
    ensures forall k :: 0 <= k < |r| ==> r[k] != []
    ensures var text := PyStrip(reply); var span := BracketSpan(text);
      if span.Some? && parse(span.value).Ok? && parse(span.value).value.Arr?
      then r == ElementTags(parse(span.value).value.items, show)
      else r == FallbackTags(text) && forall k :: 0 <= k < |r| ==> ',' !in r[k]
  {
    var text := PyStrip(reply);
    var span := BracketSpan(text);
    if span.Some? && parse(span.value).Ok? && parse(span.value).value.Arr? then
      ElementTags(parse(span.value).value.items, show)
    else
      FallbackTags(text)
  }

  /** Clean string elements (non-empty, already stripped) are read back
      as themselves. */
  lemma {:induction false} ElementTagsOfClean(tags: seq<string>, show: Json -> string)
    requires forall k :: 0 <= k < |tags| ==> tags[k] != [] && PyStrip(tags[k]) == tags[k]
    ensures ElementTags(StrArray(tags).items, show) == tags
    decreases |tags|
  {
    if |tags| > 0 {
      var items := StrArray(tags).items;
      assert items[1..] == StrArray(tags[1..]).items;
      ElementTagsOfClean(tags[1..], show);
      assert tags == [tags[0]] + tags[1..];
    }
  }

  /** A bracketed text with no ']' inside is its own first bracketed span. */
  lemma {:induction false} BracketSpanWhole(inner: string)
    requires ']' !in inner
    ensures BracketSpan("[" + inner + "]") == Some("[" + inner + "]")
  {
    var reply := "[" + inner + "]";
    var n := |reply|;
    FindIsFirst(reply, '[', 0);
    assert At(reply, n - 1, "]") by { assert reply[n - 1..n] == "]"; }
    forall j | 1 <= j < n - 1 ensures !At(reply, j, "]") {
      assert reply[j..j + 1] == [inner[j - 1]];
    }
    assert FindFrom(reply, "]", 1) == Some(n - 1);
    assert reply[0..n] == reply;
  }

  /** A reply that is exactly a bracketed JSON array of clean string tags
      reads back as those tags: the bracket search takes the whole reply,
      and `json.loads` of it (the parser's side of the round trip) gives
      the array. */
  lemma {:induction false} ParseTagsReadsArray(parse: Parser, show: Json -> string, inner: string, tags: seq<string>)
    requires ']' !in inner
    requires parse("[" + inner + "]") == Ok(StrArray(tags))
    requires forall k :: 0 <= k < |tags| ==> tags[k] != [] && PyStrip(tags[k]) == tags[k]
    ensures ParseTags(parse, show, "[" + inner + "]") == tags
  {
    var reply := "[" + inner + "]";
    StripByKeeps(reply, IsPySpace);
    BracketSpanWhole(inner);
    ElementTagsOfClean(tags, show);
  }

  /** `generate_tags`: at most five tags, all non-empty. */
  function GenerateTags(b: Backend, s: Session, content: Json): (r: Json)
    ensures WellFormed(r)
    ensures s.model.None? ==> ErrorOf(r) == Some(NO_MODEL)
    ensures ErrorOf(r).None? ==>
      && s.model.Some? && ContentExcerpt(content, b.show).Some?
      && var g := b.generate(s.model.value, Generation(LmGenerate, PlainPrompt(TagsPrompt(ContentExcerpt(content, b.show).value)), 200, None));
      && g.Ok?
      && "tags" in r.fields && r.fields["tags"] == StrArray(TagList.Take(ParseTags(b.parse, b.show, g.value), MAX_SERVER_TAGS))
      && |r.fields["tags"].items| <= MAX_SERVER_TAGS
  {
    match s.model
    case None => Failure("generate-tags", NO_MODEL)
    case Some(h) =>
      match ContentExcerpt(content, b.show)
      case None => Failure("generate-tags", b.pyError)
      case Some(excerpt) =>
        match b.generate(h, Generation(LmGenerate, PlainPrompt(TagsPrompt(excerpt)), 200, None))
        case Err(e) => Failure("generate-tags", e)
        case Ok(text) =>
          Success("generate-tags", map["tags" := StrArray(TagList.Take(ParseTags(b.parse, b.show, text), MAX_SERVER_TAGS))])
  }

  /** `summarize`: the generated text, stripped. */
  function Summarize(b: Backend, s: Session, content: Json): (r: Json)
    ensures WellFormed(r)
    ensures s.model.None? ==> ErrorOf(r) == Some(NO_MODEL)
    ensures ErrorOf(r).None? ==>
      && s.model.Some? && ContentExcerpt(content, b.show).Some?
      && var g := b.generate(s.model.value, Generation(LmGenerate, PlainPrompt(SummaryPrompt(ContentExcerpt(content, b.show).value)), 150, None));
      && g.Ok? && "summary" in r.fields && r.fields["summary"] == Str(PyStrip(g.value))
  {
    match s.model
    case None => Failure("summarize", NO_MODEL)
    case Some(h) =>
      match ContentExcerpt(content, b.show)
      case None => Failure("summarize", b.pyError)
      case Some(excerpt) =>
        match b.generate(h, Generation(LmGenerate, PlainPrompt(SummaryPrompt(excerpt)), 150, None))
        case Err(e) => Failure("summarize", e)
        case Ok(text) => Success("summarize", map["summary" := Str(PyStrip(text))])
  }

  // ---------------------------------------------------------------------
  // chat
  // ---------------------------------------------------------------------

  /** The conversation `[{"role": m["role"], "content": m["content"]} for m
      in messages]`; `None` where indexing a message raises. */
  function Conversation(messages: Json): (r: Option<seq<Turn>>)
    ensures r.Some? <==> messages.Arr? && forall k :: 0 <= k < |messages.items| ==>
      messages.items[k].Obj? && "role" in messages.items[k].fields && "content" in messages.items[k].fields
    ensures r.Some? ==> |r.value| == |messages.items| && forall k :: 0 <= k < |r.value| ==>
      r.value[k] == Turn(messages.items[k].fields["role"], messages.items[k].fields["content"])
  {
    if messages.Arr? && forall k :: 0 <= k < |messages.items| ==>
      messages.items[k].Obj? && "role" in messages.items[k].fields && "content" in messages.items[k].fields
    then
      Some(seq(|messages.items|, k requires 0 <= k < |messages.items| =>
        Turn(messages.items[k].fields["role"], messages.items[k].fields["content"])))
    else None
  }

  function Chat(b: Backend, s: Session, messages: Json): (r: Json)
    ensures WellFormed(r)
    ensures s.model.None? ==> ErrorOf(r) == Some(NO_MODEL)
    ensures s.model.Some? && Falsy(messages) ==> ErrorOf(r) == Some("No messages provided")
    ensures ErrorOf(r).None? ==>
      && s.model.Some? && Conversation(messages).Some?
      && var g := b.generate(s.model.value, Generation(LmGenerate, ChatPrompt(Conversation(messages).value), 512, Some(CHAT_SAMPLING)));
      && g.Ok? && "response" in r.fields && r.fields["response"] == Str(PyStrip(g.value))
  {
    if s.model.None? then Failure("chat", NO_MODEL)
    else if Falsy(messages) then Failure("chat", "No messages provided")
    else
      match Conversation(messages)
      case None => Failure("chat", b.pyError)
      case Some(turns) =>
        match b.generate(s.model.value, Generation(LmGenerate, ChatPrompt(turns), 512, Some(CHAT_SAMPLING)))
        case Err(e) => Failure("chat", e)
        case Ok(text) => Success("chat", map["response" := Str(PyStrip(text))])
  }

  // ---------------------------------------------------------------------
  // Audio commands
  // ---------------------------------------------------------------------

  const FENCE := "```"

  /** The lines of a reply that are not code-fence lines. */
  function DropFenceLines(lines: seq<string>): (r: seq<string>)
    ensures |r| <= |lines|
    ensures forall k :: 0 <= k < |r| ==> r[k] in lines && !StartsWith(PyStrip(r[k]), FENCE)
    ensures forall l :: l in lines && !StartsWith(PyStrip(l), FENCE) ==> l in r
  {
    if |lines| == 0 then []
    else if StartsWith(PyStrip(lines[0]), FENCE) then DropFenceLines(lines[1..])
    else [lines[0]] + DropFenceLines(lines[1..])
  }

  /** A reply wrapped in a Markdown code fence loses every line that starts
      (after whitespace) with the fence; any other reply is kept. */
  function StripFence(text: string): (r: string)
    ensures !StartsWith(text, FENCE) ==> r == text
    ensures StartsWith(text, FENCE) ==> r == PyStrip(Join(DropFenceLines(Split(text, '\n')), "\n"))
  {
    if StartsWith(text, FENCE) then PyStrip(Join(DropFenceLines(Split(text, '\n')), "\n")) else text
  }

  /** Dropping fence lines works line by line. */
  lemma {:induction false} DropFenceLinesAppend(x: seq<string>, y: seq<string>)
    ensures DropFenceLines(x + y) == DropFenceLines(x) + DropFenceLines(y)
    decreases |x|
  {
    if |x| == 0 {
      assert x + y == y;
    } else {
      assert (x + y)[0] == x[0] && (x + y)[1..] == x[1..] + y;
      DropFenceLinesAppend(x[1..], y);
      var h := if StartsWith(PyStrip(x[0]), FENCE) then [] else [x[0]];
      AppendAssoc(h, DropFenceLines(x[1..]), DropFenceLines(y));
    }
  }

  /** Lines none of which is a fence line are all kept. */
  lemma {:induction false} DropFenceLinesKeeps(ls: seq<string>)
    requires forall k :: 0 <= k < |ls| ==> !StartsWith(PyStrip(ls[k]), FENCE)
    ensures DropFenceLines(ls) == ls
    decreases |ls|
  {
    if |ls| > 0 {
      DropFenceLinesKeeps(ls[1..]);
      assert ls == [ls[0]] + ls[1..];
    }
  }

  /** The opening and closing lines of a fenced JSON block are fence
      lines of one line each. */
  lemma FenceLines()
    ensures Split(FENCE + "json", '\n') == [FENCE + "json"] && StartsWith(PyStrip(FENCE + "json"), FENCE)
    ensures Split(FENCE, '\n') == [FENCE] && StartsWith(PyStrip(FENCE), FENCE)
  {
    var open := FENCE + "json";
    SplitWithoutSeparator(open, '\n');
    SplitWithoutSeparator(FENCE, '\n');
    StripByKeeps(open, IsPySpace);
    StripByKeeps(FENCE, IsPySpace);
    assert open[..|FENCE|] == FENCE;
  }

  /** A reply wrapped as a fenced JSON block, whose own lines hold no fence,
      comes back as its body, stripped. */
  lemma {:induction false} StripFenceUnwraps(body: string)
    requires forall k :: 0 <= k < |Split(body, '\n')| ==> !StartsWith(PyStrip(Split(body, '\n')[k]), FENCE)
    ensures StripFence(FENCE + "json\n" + body + "\n" + FENCE) == PyStrip(body)
  {
    var open, close := FENCE + "json", FENCE;
    var text := FENCE + "json\n" + body + "\n" + FENCE;
    assert text == open + ['\n'] + (body + ['\n'] + close);
    assert StartsWith(text, FENCE) by { assert text[..|FENCE|] == FENCE; }
    FenceLines();
    SplitAppend(open, '\n', body + ['\n'] + close);
    SplitAppend(body, '\n', close);
    var lines := Split(body, '\n');
    DropFenceLinesAppend([open], lines + [close]);
    DropFenceLinesAppend(lines, [close]);
    DropFenceLinesKeeps(lines);
    assert DropFenceLines([open]) == [] && DropFenceLines([close]) == [];
    assert [] + (lines + []) == lines;
    SplitJoin(body, '\n');
  }

  const TRANSCRIBE_PROMPT :=
    "Detect the language spoken. Transcribe word for word in "
    + "the detected language. Do NOT translate. Respond in JSON: "
    + "{\"language\": \"...\", \"transcript\": \"...\"}"

  /** The sample count of an audio file: decoded for `.wav`, two bytes per
      sample for `.pcm` (a file with an odd size cannot be viewed as 16-bit
      samples); `None` for any other extension. */
  function TranscriptSamples(b: Backend, path: string): (r: Option<Result<nat>>)
    ensures r.None? <==> !EndsWith(path, ".wav") && !EndsWith(path, ".pcm")
    ensures EndsWith(path, ".wav") ==> r == Some(b.decode(path))
  {
    if EndsWith(path, ".wav") then Some(b.decode(path))
    else if EndsWith(path, ".pcm") then
      Some(match b.pcmBytes(path)
           case Err(e) => Err(e)
           case Ok(n) => if n % 2 == 0 then Ok(n / 2) else Err(b.pyError))
    else None
  }

  /** The reply built from the transcription model's text: the JSON object
      it contains when it parses (language defaulting to "unknown", the
      transcript to the whole text), the whole text in an unknown language
      otherwise. */
  function TranscriptReply(b: Backend, text: string): (r: Json)
    ensures WellFormed(r)
    ensures var t := StripFence(PyStrip(text));
      b.parse(t).Err? ==> r == Success("generate-transcript", map["language" := Str("unknown"), "transcript" := Str(PyStrip(t))])
    ensures var t := StripFence(PyStrip(text));
      b.parse(t).Ok? && !b.parse(t).value.Obj? ==> ErrorOf(r) == Some("Transcription failed: " + b.pyError)
  {
    var t := StripFence(PyStrip(text));
    match b.parse(t)
    case Err(_) => Success("generate-transcript", map["language" := Str("unknown"), "transcript" := Str(PyStrip(t))])
    case Ok(v) =>
      if !v.Obj? then Failure("generate-transcript", "Transcription failed: " + b.pyError)
      else
        var language := Get(v, "language").GetOr(Str("unknown"));
        var transcript := Get(v, "transcript").GetOr(Str(t));
        if !transcript.Str? then Failure("generate-transcript", "Transcription failed: " + b.pyError)
        else Success("generate-transcript", map["language" := language, "transcript" := Str(PyStrip(transcript.s))])
  }

  /** `generate_transcript`. The capability gate sits outside the handler's
      error handling: capabilities Python cannot search raise out of it. */
  function GenerateTranscript(b: Backend, s: Session, path: Json): (r: Outcome)
    ensures WellFormedOutcome(r) && !r.Emitted?
    ensures s.model.None? ==> r == Reply(Failure("generate-transcript", NO_MODEL))
    ensures r.Raised? <==> s.model.Some? && HasAudio(s.capabilities).None?
    ensures s.model.Some? && HasAudio(s.capabilities) == Some(false) ==>
      r == Reply(Failure("generate-transcript", "Loaded model does not support audio transcription"))
    ensures r.Reply? && ErrorOf(r.line).None? ==>
      s.model.Some? && HasAudio(s.capabilities) == Some(true) && b.omni && path.Str? && b.fileExists(path)
  {
    if s.model.None? then Reply(Failure("generate-transcript", NO_MODEL))
    else
      match HasAudio(s.capabilities)
      case None => Raised(b.pyError)
      case Some(false) => Reply(Failure("generate-transcript", "Loaded model does not support audio transcription"))
      case Some(true) =>
        if !b.omni then Reply(Failure("generate-transcript", NO_OMNI_AUDIO))
        else if b.audioDeps.Some? then Reply(Failure("generate-transcript", "Missing audio dependencies: " + b.audioDeps.value))
        else if !b.fileExists(path) then Reply(Failure("generate-transcript", "Audio file not found: " + PyStr(path, b.show)))
        else if !path.Str? then Reply(Failure("generate-transcript", "Transcription failed: " + b.pyError))
        else
          match TranscriptSamples(b, path.s)
          case None => Reply(Failure("generate-transcript", "Unsupported audio format: " + path.s))
          case Some(Err(e)) => Reply(Failure("generate-transcript", "Transcription failed: " + e))
          case Some(Ok(n)) =>
            if n == 0 then
              Reply(Success("generate-transcript", map["language" := Str("unknown"), "transcript" := Str("")]))
            else
              match b.generate(s.model.value, Generation(LmGenerate, AudioPrompt(TRANSCRIBE_PROMPT, path.s), 2000, None))
              case Err(e) => Reply(Failure("generate-transcript", "Transcription failed: " + e))
              case Ok(text) => Reply(TranscriptReply(b, text))
  }

  const ANALYSIS_FIELDS :=
    "{\"new_content\": \"...\", \"updated_summary\": "
    + "\"...\", \"key_points\": "
    + "[...], \"decisions\": [...], \"action_items\": "
    + "[...], \"open_questions\": "
    + "[...], \"suggested_questions\": [{\"question\": "
    + "\"...\", \"reason\": "
    + "\"...\"}], \"key_concepts\": [{\"term\": "
    + "\"...\", \"context\": \"...\"}]}"

  const CONTINUE_HEAD := "Previous conversation summary:\n"

  /** The continuation text between the context and the field list. */
  const CONTINUE_STEPS :=
    "\n\nAnalyze the new audio segment and provide:\n"
    + "1. What new content was discussed\n"
    + "2. Updated summary of the entire conversation so far\n"
    + "3. Key points mentioned\n"
    + "4. Any decisions made\n"
    + "5. Action items identified\n"
    + "6. Open questions raised\n"
    + "7. Suggested questions to ask next (with reasons)\n"
    + "8. Key concepts (technical terms, names, topics) with brief "
    + "context\n\nRespond in JSON format with these exact fields:\n"

  const FIRST_CYCLE_PROMPT :=
    "This is the start of a conversation. Analyze the audio "
    + "and provide:\n1. What was discussed\n"
    + "2. Summary of the conversation\n"
    + "3. Key points mentioned\n"
    + "4. Any decisions made\n"
    + "5. Action items identified\n"
    + "6. Open questions raised\n"
    + "7. Suggested questions to ask next (with reasons)\n"
    + "8. Key concepts (technical terms, names, topics) with brief "
    + "context\n\nRespond in JSON format with these exact fields:\n" + ANALYSIS_FIELDS

  /** The Co-Pilot instruction: the first-cycle text for an empty running
      context, otherwise the continuation text with the context embedded
      verbatim after its heading. */
  function CopilotPrompt(context: Json, show: Json -> string): (r: string)
    ensures Falsy(context) ==> r == FIRST_CYCLE_PROMPT
    ensures !Falsy(context) ==>
      StartsWith(r, CONTINUE_HEAD) && At(r, |CONTINUE_HEAD|, PyStr(context, show))
      && EndsWith(r, ANALYSIS_FIELDS)
  {
    if Falsy(context) then FIRST_CYCLE_PROMPT
    else
      var c := PyStr(context, show);
      var tail := CONTINUE_STEPS + ANALYSIS_FIELDS;
      Framed(CONTINUE_HEAD, c, tail);
      Framed(CONTINUE_HEAD + c, CONTINUE_STEPS, ANALYSIS_FIELDS);
      AppendAssoc(CONTINUE_HEAD + c, CONTINUE_STEPS, ANALYSIS_FIELDS);
      CONTINUE_HEAD + c + tail
  }

  /** The six list-valued fields of an analysis. */
  const LIST_FIELDS: set<string> :=
    {"key_points", "decisions", "action_items", "open_questions", "suggested_questions", "key_concepts"}

  /** The list fields read from `source`, each defaulting to an empty
      list. */
  function ListFields(source: Json): (r: map<string, Json>)
    ensures r.Keys == LIST_FIELDS
    ensures forall k :: k in r ==> r[k] == Get(source, k).GetOr(Arr([]))
  {
    map k | k in LIST_FIELDS :: Get(source, k).GetOr(Arr([]))
  }

  /** An analysis reply: the two text fields as given, the list fields read
      from `source` and defaulting to empty lists. */
  function Analysis(newContent: Json, summary: Json, source: Json): (r: Json)
    ensures WellFormed(r) && r.fields["type"] == Str("response")
    ensures "new_content" in r.fields && r.fields["new_content"] == newContent
    ensures "updated_summary" in r.fields && r.fields["updated_summary"] == summary
    ensures forall k :: k in LIST_FIELDS ==> k in r.fields && r.fields[k] == Get(source, k).GetOr(Arr([]))
  {
    ListFieldsDistinct();
    Success("copilot-analyze", ListFields(source) + map["new_content" := newContent, "updated_summary" := summary])
  }

  /** No list field shares its name with a field every analysis sets. */
  lemma {:induction false} ListFieldsDistinct()
    ensures forall k :: k in LIST_FIELDS ==>
      k != "type" && k != "command" && k != "new_content" && k != "updated_summary"
  {
    forall k | k in LIST_FIELDS
      ensures k != "type" && k != "command" && k != "new_content" && k != "updated_summary"
    {
      assert k[0] in "kdaos";
    }
  }

  /** The analysis read from the model's text: every field of the parsed
      object with its default; the raw text as both the new content and the
      summary when it does not parse. */
  function AnalysisReply(b: Backend, text: string): (r: Json)
    ensures WellFormed(r)
    ensures var t := StripFence(PyStrip(text));
      b.parse(t).Err? ==> r == Analysis(Str(t), Str(t), Obj(map[]))
    ensures var t := StripFence(PyStrip(text));
      b.parse(t).Ok? && b.parse(t).value.Obj? ==>
        var v := b.parse(t).value;
        r == Analysis(Get(v, "new_content").GetOr(Str("")), Get(v, "updated_summary").GetOr(Str("")), v)
  {
    var t := StripFence(PyStrip(text));
    match b.parse(t)
    case Err(_) => Analysis(Str(t), Str(t), Obj(map[]))
    case Ok(v) =>
      if !v.Obj? then Failure("copilot-analyze", "Co-Pilot analysis failed: " + b.pyError)
      else Analysis(Get(v, "new_content").GetOr(Str("")), Get(v, "updated_summary").GetOr(Str("")), v)
  }

  /** `copilot_analyze`. Silence keeps the running summary unchanged. */
  function CopilotAnalyze(b: Backend, s: Session, path: Json, context: Json): (r: Outcome)
    ensures WellFormedOutcome(r) && !r.Emitted?
    ensures s.model.None? ==> r == Reply(Failure("copilot-analyze", NO_MODEL))
    ensures r.Raised? <==> s.model.Some? && HasAudio(s.capabilities).None?
    ensures s.model.Some? && HasAudio(s.capabilities) == Some(false) ==>
      r == Reply(Failure("copilot-analyze", "Model does not support audio analysis"))
    ensures (s.model.Some? && HasAudio(s.capabilities) == Some(true) && b.omni && b.audioDeps.None?
             && b.fileExists(path) && path.Str? && b.decode(path.s) == Ok(0)) ==>
      r == Reply(Analysis(Str(""), context, Obj(map[])))
    ensures (r.Reply? && ErrorOf(r.line).None? && s.model.Some? && path.Str? && b.decode(path.s) != Ok(0)) ==>
      b.generate(s.model.value, Generation(OmniGenerate, AudioPrompt(CopilotPrompt(context, b.show), path.s), 2000, None)).Ok?
  {
    if s.model.None? then Reply(Failure("copilot-analyze", NO_MODEL))
    else
      match HasAudio(s.capabilities)
      case None => Raised(b.pyError)
      case Some(false) => Reply(Failure("copilot-analyze", "Model does not support audio analysis"))
      case Some(true) =>
        if !b.omni then Reply(Failure("copilot-analyze", NO_OMNI_COPILOT))
        else if b.audioDeps.Some? then Reply(Failure("copilot-analyze", "Missing audio dependencies: " + b.audioDeps.value))
        else if !b.fileExists(path) then Reply(Failure("copilot-analyze", "Audio file not found: " + PyStr(path, b.show)))
        else if !path.Str? then Reply(Failure("copilot-analyze", "Co-Pilot analysis failed: " + b.pyError))
        else
          match b.decode(path.s)
          case Err(e) => Reply(Failure("copilot-analyze", "Co-Pilot analysis failed: " + e))
          case Ok(n) =>
            if n == 0 then Reply(Analysis(Str(""), context, Obj(map[])))
            else
              match b.generate(s.model.value, Generation(OmniGenerate, AudioPrompt(CopilotPrompt(context, b.show), path.s), 2000, None))
              case Err(e) => Reply(Failure("copilot-analyze", "Co-Pilot analysis failed: " + e))
              case Ok(text) => Reply(AnalysisReply(b, text))
  }

  // ---------------------------------------------------------------------
  // download-model
  // ---------------------------------------------------------------------

  /** `download_model`: prints exactly one line of its own, the completion
      or the failure, and returns nothing. */
  function DownloadModel(b: Backend, repo: Json, destination: Json): (r: Outcome)
    ensures r.Emitted? && WellFormed(r.line)
    ensures b.download(repo, destination).None? <==> ErrorOf(r.line).None?
    ensures b.download(repo, destination).None? ==>
      r.line.Obj? && "destination" in r.line.fields && r.line.fields["destination"] == destination
  {
    match b.download(repo, destination)
    case None => Emitted(Success("download-model", map["success" := Bool(true), "destination" := destination]))
    case Some(e) => Emitted(Failure("download-model", e))
  }

  // ---------------------------------------------------------------------
  // Dispatch
  // ---------------------------------------------------------------------

  /** `data.get(key)` on a request object. */
  function Field(data: Json, key: string): Json {
    Get(data, key).GetOr(Null)
  }

  function CommandOf(data: Json): Json {
    Field(data, "command")
  }

  function Missing(command: string, message: string): Outcome {
    Reply(Failure(command, message))
  }

  function UnknownCommand(command: Json, show: Json -> string): (r: Json)
    ensures WellFormed(r) && "command" !in r.fields
    ensures ErrorOf(r) == Some("Unknown command: " + PyStr(command, show))
  {
    Obj(map["type" := Str("error"), "error" := Str("Unknown command: " + PyStr(command, show))])
  }

  /** The commands `handle_command` knows, each with the request fields it
      requires to be truthy and the error it answers when one is not. */
  const GATES: map<string, (seq<string>, string)> := map[
    "check-availability" := ([], ""),
    "load-model" := (["model_path"], "Missing model_path"),
    "generate-tags" := (["content"], "Missing content"),
    "summarize" := (["content"], "Missing content"),
    "chat" := (["messages"], "Missing messages"),
    "generate-transcript" := (["audio_path"], "Missing audio_path"),
    "copilot-analyze" := (["audio_path"], "Missing audio_path"),
    "download-model" := (["repo_id", "destination"], "Missing repo_id or destination"),
    "model-info" := ([], ""),
    "shutdown" := ([], "")
  ]

  /** Some field the command requires is missing or falsy. */
  predicate Gated(data: Json, command: string)
    requires command in GATES
  {
    exists k :: 0 <= k < |GATES[command].0| && Falsy(Field(data, GATES[command].0[k]))
  }

  /** `handle_command`: routes on the "command" field after checking the
      required fields with Python truthiness. Only load-model changes the
      session. */
  function HandleCommand(b: Backend, s: Session, data: Json): (r: Handled)
    ensures WellFormedOutcome(r.outcome)
    ensures CommandOf(data) != Str("load-model") ==> r.session == s
    ensures !data.Obj? ==> r.outcome == Raised(b.pyError)
    ensures r.outcome.Emitted? ==> CommandOf(data) == Str("download-model")
    ensures data.Obj? && CommandOf(data) == Str("load-model") && Falsy(Field(data, "model_path")) ==>
      r == Handled(Missing("load-model", "Missing model_path"), s)
    ensures data.Obj? && CommandOf(data) == Str("load-model") && !Falsy(Field(data, "model_path")) ==>
      r == LoadModel(b, s, Field(data, "model_path"), Field(data, "capabilities"))
    ensures data.Obj? && CommandOf(data) == Str("shutdown") ==>
      r.outcome == Reply(Success("shutdown", map["success" := Bool(true)]))
    ensures data.Obj? && CommandOf(data) == Str("generate-tags") && Falsy(Field(data, "content")) ==>
      r == Handled(Missing("generate-tags", "Missing content"), s)
    ensures data.Obj? && CommandOf(data) == Str("summarize") && Falsy(Field(data, "content")) ==>
      r == Handled(Missing("summarize", "Missing content"), s)
    ensures data.Obj? && CommandOf(data) == Str("chat") && Falsy(Field(data, "messages")) ==>
      r == Handled(Missing("chat", "Missing messages"), s)
    ensures data.Obj? && CommandOf(data) == Str("generate-transcript") && Falsy(Field(data, "audio_path")) ==>
      r == Handled(Missing("generate-transcript", "Missing audio_path"), s)
    ensures data.Obj? && CommandOf(data) == Str("copilot-analyze") && Falsy(Field(data, "audio_path")) ==>
      r == Handled(Missing("copilot-analyze", "Missing audio_path"), s)
    ensures data.Obj? && CommandOf(data) == Str("download-model")
            && (Falsy(Field(data, "repo_id")) || Falsy(Field(data, "destination"))) ==>
      r == Handled(Missing("download-model", "Missing repo_id or destination"), s)
    ensures data.Obj? && !(CommandOf(data).Str? && CommandOf(data).s in GATES) ==>
      r == Handled(Reply(UnknownCommand(CommandOf(data), b.show)), s)
  {
    if !data.Obj? then Handled(Raised(b.pyError), s)
    else
      var command := CommandOf(data);
      if command == Str("check-availability") then Handled(Reply(CheckAvailability(b)), s)
      else if command == Str("load-model") then
        if Falsy(Field(data, "model_path")) then Handled(Missing("load-model", "Missing model_path"), s)
        else LoadModel(b, s, Field(data, "model_path"), Field(data, "capabilities"))
      else if command == Str("generate-tags") then
        if Falsy(Field(data, "content")) then Handled(Missing("generate-tags", "Missing content"), s)
        else Handled(Reply(GenerateTags(b, s, Field(data, "content"))), s)
      else if command == Str("summarize") then
        if Falsy(Field(data, "content")) then Handled(Missing("summarize", "Missing content"), s)
        else Handled(Reply(Summarize(b, s, Field(data, "content"))), s)
      else if command == Str("chat") then
        if Falsy(Field(data, "messages")) then Handled(Missing("chat", "Missing messages"), s)
        else Handled(Reply(Chat(b, s, Field(data, "messages"))), s)
      else if command == Str("generate-transcript") then
        if Falsy(Field(data, "audio_path")) then Handled(Missing("generate-transcript", "Missing audio_path"), s)
        else Handled(GenerateTranscript(b, s, Field(data, "audio_path")), s)
      else if command == Str("copilot-analyze") then
        if Falsy(Field(data, "audio_path")) then Handled(Missing("copilot-analyze", "Missing audio_path"), s)
        else Handled(CopilotAnalyze(b, s, Field(data, "audio_path"), Get(data, "context").GetOr(Str(""))), s)
      else if command == Str("download-model") then
        if Falsy(Field(data, "repo_id")) || Falsy(Field(data, "destination")) then
          Handled(Missing("download-model", "Missing repo_id or destination"), s)
        else Handled(DownloadModel(b, Field(data, "repo_id"), Field(data, "destination")), s)
      else if command == Str("model-info") then Handled(Reply(ModelInfo(b, s)), s)
      else if command == Str("shutdown") then Handled(Reply(Success("shutdown", map["success" := Bool(true)])), s)
      else Handled(Reply(UnknownCommand(command, b.show)), s)
  }

  /** Every known command whose required field is missing or falsy is
      answered with its own error line, naming the command, and leaves the
      session alone; an unknown command is answered with an error line
      that names no command. */
  lemma {:induction false} GatedCommandsAnswerMissing(b: Backend, s: Session, data: Json, command: string)
    requires data.Obj? && CommandOf(data) == Str(command)
    ensures command in GATES && Gated(data, command) ==>
      && HandleCommand(b, s, data).session == s
      && HandleCommand(b, s, data).outcome.Reply?
      && ErrorOf(HandleCommand(b, s, data).outcome.line) == Some(GATES[command].1)
      && "command" in HandleCommand(b, s, data).outcome.line.fields
      && HandleCommand(b, s, data).outcome.line.fields["command"] == Str(command)
    ensures command !in GATES ==>
      && HandleCommand(b, s, data).session == s
      && HandleCommand(b, s, data).outcome.Reply?
      && ErrorOf(HandleCommand(b, s, data).outcome.line) == Some("Unknown command: " + command)
      && "command" !in HandleCommand(b, s, data).outcome.line.fields
  {
    if command in GATES && Gated(data, command) {
      var k :| 0 <= k < |GATES[command].0| && Falsy(Field(data, GATES[command].0[k]));
      if command == "download-model" {
        assert k == 0 || k == 1;
      }
    }
  }

  // ---------------------------------------------------------------------
  // The read loop
  // ---------------------------------------------------------------------

  /** What one input line produces: the lines written, the new session, and
      whether the loop stops. */
  datatype Served = Served(lines: seq<Json>, session: Session, stop: bool)

  function InvalidJson(message: string): (r: Json)
    ensures ErrorOf(r) == Some("Invalid JSON: " + message) && "command" !in r.fields
  {
    Obj(map["type" := Str("error"), "error" := Str("Invalid JSON: " + message)])
  }

  function Unexpected(message: string, traceback: string): (r: Json)
    ensures ErrorOf(r) == Some("Unexpected error: " + message)
    ensures "traceback" in r.fields && r.fields["traceback"] == Str(traceback)
  {
    Obj(map["type" := Str("error"), "error" := Str("Unexpected error: " + message), "traceback" := Str(traceback)])
  }

  /** Serving one parsed request: its single output line (the handler's
      reply, the line it printed, or the exception report), and whether the
      loop stops. */
  function ServeRequest(b: Backend, s: Session, data: Json): (r: Served)
    ensures |r.lines| == 1 && WellFormed(r.lines[0])
    ensures r.session == HandleCommand(b, s, data).session
    ensures r.stop <==> data.Obj? && CommandOf(data) == Str("shutdown")
  {
    var h := HandleCommand(b, s, data);
    match h.outcome
    case Reply(j) => Served([j], h.session, data.Obj? && CommandOf(data) == Str("shutdown"))
    case Emitted(j) => Served([j], h.session, false)
    case Raised(m) => Served([Unexpected(m, b.traceback)], h.session, false)
  }

  /** One iteration of `run`: blank lines are skipped, unparsable lines get
      one error line, and the loop stops after answering a shutdown. */
  function ServeLine(b: Backend, s: Session, line: string): (r: Served)
    ensures PyStrip(line) == [] ==> r == Served([], s, false)
    ensures PyStrip(line) != [] && b.parse(PyStrip(line)).Err? ==>
      r == Served([InvalidJson(b.parse(PyStrip(line)).error)], s, false)
    ensures PyStrip(line) != [] && b.parse(PyStrip(line)).Ok? ==>
      r == ServeRequest(b, s, b.parse(PyStrip(line)).value)
    ensures |r.lines| <= 1 && forall k :: 0 <= k < |r.lines| ==> WellFormed(r.lines[k])
  {
    var t := PyStrip(line);
    if t == [] then Served([], s, false)
    else
      match b.parse(t)
      case Err(e) => Served([InvalidJson(e)], s, false)
      case Ok(data) => ServeRequest(b, s, data)
  }

  /** Everything the server writes for its input lines, and its final
      state. */
  datatype Ran = Ran(output: seq<Json>, session: Session, stopped: bool)

  /** `run`: serves lines in order until one asks for shutdown. */
  function Run(b: Backend, s: Session, lines: seq<string>): (r: Ran)
    ensures |r.output| <= |lines|
    ensures forall k :: 0 <= k < |r.output| ==> WellFormed(r.output[k])
    ensures r.stopped ==> |lines| > 0
    decreases |lines|
  {
    if |lines| == 0 then Ran([], s, false)
    else
      var st := ServeLine(b, s, lines[0]);
      if st.stop then Ran(st.lines, st.session, true)
      else
        var rest := Run(b, st.session, lines[1..]);
        Ran(st.lines + rest.output, rest.session, rest.stopped)
  }

  /** The request a line carries, if any. */
  predicate IsLoadLine(b: Backend, line: string) {
    var t := PyStrip(line);
    t != [] && b.parse(t).Ok? && CommandOf(b.parse(t).value) == Str("load-model")
  }

  /** Only load-model requests change the server's state. */
  lemma {:induction false} RunKeepsSession(b: Backend, s: Session, lines: seq<string>)
    requires forall k :: 0 <= k < |lines| ==> !IsLoadLine(b, lines[k])
    ensures Run(b, s, lines).session == s
    decreases |lines|
  {
    if |lines| > 0 {
      var st := ServeLine(b, s, lines[0]);
      assert !IsLoadLine(b, lines[0]);
      assert st.session == s;
      if !st.stop {
        RunKeepsSession(b, s, lines[1..]);
      }
    }
  }

  /** Blank lines are skipped without output. */
  lemma {:induction false} RunSkipsBlank(b: Backend, s: Session, line: string, rest: seq<string>)
    requires PyStrip(line) == []
    ensures Run(b, s, [line] + rest) == Run(b, s, rest)
  {
    assert ([line] + rest)[1..] == rest;
  }

  /** A shutdown request is acknowledged and ends the loop: later lines are
      never read. */
  lemma {:induction false} RunStopsAtShutdown(b: Backend, s: Session, line: string, rest: seq<string>)
    requires PyStrip(line) != [] && b.parse(PyStrip(line)).Ok?
    requires b.parse(PyStrip(line)).value.Obj? && CommandOf(b.parse(PyStrip(line)).value) == Str("shutdown")
    ensures Run(b, s, [line] + rest) == Ran([Success("shutdown", map["success" := Bool(true)])], s, true)
  {
  }

  /** An unparsable line gets one error line and the loop goes on. */
  lemma {:induction false} RunContinuesAfterInvalidJson(b: Backend, s: Session, line: string, rest: seq<string>)
    requires PyStrip(line) != [] && b.parse(PyStrip(line)).Err?
    ensures Run(b, s, [line] + rest).output == [InvalidJson(b.parse(PyStrip(line)).error)] + Run(b, s, rest).output
  {
    assert ([line] + rest)[1..] == rest;
  }

  /** The stored capabilities outlive a failed load: after an audio model
      fails to load over a loaded text model, the text model stays loaded
      while the audio commands pass their capability gate. */
  lemma {:induction false} FailedAudioLoadOpensAudioGate(b: Backend, s: Session, path: string, caps: Json)
    requires s.model.Some? && b.omni && b.loadOmni(Str(path)).Err?
    requires caps.Arr? && Str("audio") in caps.items
    ensures var after := LoadModel(b, s, Str(path), caps).session;
      && after.model == s.model
      && HasAudio(after.capabilities) == Some(true)
  {
  }
}
