/** Application settings: their shape, defaults and validation, how they
    are read back from their JSON file, and the settings manager's rule
    that the in-memory copy changes only after the file was written.

    `f32` values are reals (the rounding to single precision is not
    modelled); the file system's outcomes and the JSON printer and parser
    are parameters. */
module SettingsManager {
  import opened Wrappers
  import opened Text
  import opened Json

  datatype TranscriptionSettings = TranscriptionSettings(
    vadEnabled: bool,
    vadThreshold: real,
    voskEnabled: bool,
    whisperEnabled: bool,
    whisperModel: string,
    transcriptionEngine: string,
    whisperkitModel: string,
    windowDuration: real)

  datatype BrowserSettings = BrowserSettings(observerEnabled: bool)

  datatype Settings = Settings(transcription: TranscriptionSettings, browser: BrowserSettings)

  // ---------------------------------------------------------------------
  // Defaults
  // ---------------------------------------------------------------------

  const DEFAULT_ENGINE: string := "whisper-rs"
  const DEFAULT_WHISPERKIT_MODEL: string := "openai_whisper-large-v3_turbo"
  const DEFAULT_WINDOW_DURATION: real := 3.0

  const DEFAULT_TRANSCRIPTION: TranscriptionSettings :=
    TranscriptionSettings(true, 0.3, true, true, "ggml-base.en.bin",
      DEFAULT_ENGINE, DEFAULT_WHISPERKIT_MODEL, DEFAULT_WINDOW_DURATION)

  const DEFAULT_BROWSER: BrowserSettings := BrowserSettings(true)

  const DEFAULT: Settings := Settings(DEFAULT_TRANSCRIPTION, DEFAULT_BROWSER)

  // ---------------------------------------------------------------------
  // Validation
  // ---------------------------------------------------------------------

  const EMPTY_MODEL: string := "Whisper model name cannot be empty"

  /** `validate`: the checks in order, each with its own message; `show`
      is how a float is displayed. */
  function Validate(s: Settings, show: real -> string): (r: Result<()>)
    ensures r.Ok? <==>
      && 0.0 <= s.transcription.vadThreshold <= 1.0
      && !IsBlank(s.transcription.whisperModel)
      && 1.0 <= s.transcription.windowDuration <= 10.0
      && s.transcription.transcriptionEngine in {"whisper-rs", "whisperkit"}
    ensures !(0.0 <= s.transcription.vadThreshold <= 1.0) ==>
      r == Err("VAD threshold must be between 0.0 and 1.0, got " + show(s.transcription.vadThreshold))
    ensures 0.0 <= s.transcription.vadThreshold <= 1.0 && IsBlank(s.transcription.whisperModel) ==>
      r == Err(EMPTY_MODEL)
  {
    var t := s.transcription;
    if t.vadThreshold < 0.0 || t.vadThreshold > 1.0 then
      Err("VAD threshold must be between 0.0 and 1.0, got " + show(t.vadThreshold))
    else if IsBlank(t.whisperModel) then
      Err(EMPTY_MODEL)
    else if t.windowDuration < 1.0 || t.windowDuration > 10.0 then
      Err("Window duration must be between 1.0 and 10.0 seconds, got " + show(t.windowDuration))
    else if t.transcriptionEngine != "whisper-rs" && t.transcriptionEngine != "whisperkit" then
      Err(("Transcription engine must be 'whisper-rs' "
           + "or 'whisperkit', got '") + t.transcriptionEngine + "'")
    else
      Ok(())
  }

  /** The defaults pass validation. */
  lemma {:induction false} DefaultValid(show: real -> string)
    ensures Validate(DEFAULT, show) == Ok(())
  {
    assert !IsWhitespace('g');
    assert !IsBlank(DEFAULT_TRANSCRIPTION.whisperModel) by {
      assert DEFAULT_TRANSCRIPTION.whisperModel[0] == 'g';
    }
  }

  // ---------------------------------------------------------------------
  // The JSON form
  // ---------------------------------------------------------------------

  /** Serialization: every field under its snake-case name. */
  function Encode(s: Settings): (j: Json)
    ensures j.Obj? && j.fields.Keys == {"transcription", "browser"}
  {
    Obj(map["transcription" := EncodeTranscription(s.transcription),
            "browser" := Obj(map["observer_enabled" := Bool(s.browser.observerEnabled)])])
  }

  function EncodeTranscription(t: TranscriptionSettings): (j: Json)
    ensures j.Obj? && "whisper_model" in j.fields && j.fields["whisper_model"] == Str(t.whisperModel)
  {
    Obj(map[
      "vad_enabled" := Bool(t.vadEnabled),
      "vad_threshold" := Float(t.vadThreshold),
      "vosk_enabled" := Bool(t.voskEnabled),
      "whisper_enabled" := Bool(t.whisperEnabled),
      "whisper_model" := Str(t.whisperModel),
      "transcription_engine" := Str(t.transcriptionEngine),
      "whisperkit_model" := Str(t.whisperkitModel),
      "window_duration" := Float(t.windowDuration)])
  }

  /** A JSON number read as a float: integers are accepted too. */
  function AsReal(j: Json): (r: Option<real>)
    ensures r.Some? <==> j.Float? || j.Int?
  {
    match j
    case Float(x) => Some(x)
    case Int(i) => Some(i as real)
    case _ => None
  }

  function AsBool(j: Json): (r: Option<bool>)
    ensures r.Some? <==> j.Bool?
  {
    if j.Bool? then Some(j.b) else None
  }

  /** A required field of the given shape. */
  function Field<T>(fields: map<string, Json>, key: string, read: Json -> Option<T>): (r: Option<T>)
    ensures r.Some? ==> key in fields && read(fields[key]) == r
  {
    if key in fields then read(fields[key]) else None
  }

  /** A field with a serde default: absent gives the default, present must
      have the right shape. */
  function Defaulted<T>(fields: map<string, Json>, key: string, read: Json -> Option<T>, default: T): (r: Option<T>)
    ensures key !in fields ==> r == Some(default)
    ensures key in fields ==> r == read(fields[key])
  {
    if key in fields then read(fields[key]) else Some(default)
  }

  function DecodeTranscription(j: Json): (r: Option<TranscriptionSettings>)
    ensures r.Some? ==> j.Obj? && "whisper_model" in j.fields && j.fields["whisper_model"] == Str(r.value.whisperModel)
    ensures j.Obj? && "transcription_engine" !in j.fields && r.Some? ==> r.value.transcriptionEngine == DEFAULT_ENGINE
  {
    if !j.Obj? then None
    else
      var f := j.fields;
      var vadEnabled :- Field(f, "vad_enabled", AsBool);
      var vadThreshold :- Field(f, "vad_threshold", AsReal);
      var voskEnabled :- Field(f, "vosk_enabled", AsBool);
      var whisperEnabled :- Field(f, "whisper_enabled", AsBool);
      var whisperModel :- Field(f, "whisper_model", AsStr);
      var engine :- Defaulted(f, "transcription_engine", AsStr, DEFAULT_ENGINE);
      var kitModel :- Defaulted(f, "whisperkit_model", AsStr, DEFAULT_WHISPERKIT_MODEL);
      var window :- Defaulted(f, "window_duration", AsReal, DEFAULT_WINDOW_DURATION);
      Some(TranscriptionSettings(vadEnabled, vadThreshold, voskEnabled, whisperEnabled, whisperModel,
        engine, kitModel, window))
  }

  function DecodeBrowser(j: Json): (r: Option<BrowserSettings>)
    ensures r.Some? <==> j.Obj? && "observer_enabled" in j.fields && j.fields["observer_enabled"].Bool?
  {
    if !j.Obj? then None
    else
      var on :- Field(j.fields, "observer_enabled", AsBool);
      Some(BrowserSettings(on))
  }

  /** Deserialization: unknown keys are ignored, `browser` defaults when
      absent. */
  function Decode(j: Json): (r: Option<Settings>)
    ensures r.Some? ==> j.Obj? && "transcription" in j.fields
    ensures j.Obj? && "browser" !in j.fields && r.Some? ==> r.value.browser == DEFAULT_BROWSER
  {
    if !j.Obj? then None
    else
      var t :- Field(j.fields, "transcription", DecodeTranscription);
      var b :- Defaulted(j.fields, "browser", DecodeBrowser, DEFAULT_BROWSER);
      Some(Settings(t, b))
  }

  /** Whatever is written reads back as the same settings. */
  lemma {:induction false} DecodeEncode(s: Settings)
    ensures Decode(Encode(s)) == Some(s)
  {
    var j := Encode(s);
    TranscriptionRoundTrip(s.transcription);
    assert j.fields["transcription"] == EncodeTranscription(s.transcription);
    assert DecodeBrowser(j.fields["browser"]) == Some(s.browser);
  }

  /** The transcription section reads back as written. */
  lemma {:induction false} TranscriptionRoundTrip(t: TranscriptionSettings)
    ensures DecodeTranscription(EncodeTranscription(t)) == Some(t)
  {
  }

  /** A file written before the engine fields existed still loads: the
      five original fields are kept and the newer ones take their
      defaults. */
  lemma {:induction false} OldFileGetsDefaults(vadEnabled: bool, threshold: real, vosk: bool, whisper: bool, model: string)
    ensures var j := Obj(map["transcription" := Obj(map[
                       "vad_enabled" := Bool(vadEnabled), "vad_threshold" := Float(threshold),
                       "vosk_enabled" := Bool(vosk), "whisper_enabled" := Bool(whisper),
                       "whisper_model" := Str(model)])]);
      Decode(j) == Some(Settings(
        TranscriptionSettings(vadEnabled, threshold, vosk, whisper, model,
          DEFAULT_ENGINE, DEFAULT_WHISPERKIT_MODEL, DEFAULT_WINDOW_DURATION),
        DEFAULT_BROWSER))
  {
  }

  // ---------------------------------------------------------------------
  // The manager
  // ---------------------------------------------------------------------

  /** The in-memory settings and the settings file's text, if it exists. */
  datatype Manager = Manager(current: Settings, file: Option<string>)

  /** What the file system does with the temporary file: the write and the
      rename onto the settings path. */
  datatype Writes = Writes(write: Result<()>, rename: Result<()>)

  /** `save_to_file`: the pretty JSON is written to a temporary file which
      is then renamed over the settings file; the file changes only if both
      steps succeed. */
  function SaveToFile(file: Option<string>, s: Settings, render: Json -> string, io: Writes): (r: (Result<()>, Option<string>))
    ensures r.0.Ok? <==> io.write.Ok? && io.rename.Ok?
    ensures r.0.Ok? ==> r.1 == Some(render(Encode(s)))
    ensures r.0.Err? ==> r.1 == file
  {
    if io.write.Err? then (Err("Failed to write temporary settings file: " + io.write.error), file)
    else if io.rename.Err? then (Err("Failed to rename settings file: " + io.rename.error), file)
    else (Ok(()), Some(render(Encode(s))))
  }

  /** `load_from_file`: a read error fails; text that does not parse as
      settings gives the defaults. */
  function LoadFromFile(read: Result<string>, parse: Parser): (r: Result<Settings>)
    ensures r.Err? <==> read.Err?
    ensures r.Err? ==> r.error == "Failed to read settings file: " + read.error
    ensures read.Ok? && parse(read.value).Err? ==> r == Ok(DEFAULT)
    ensures read.Ok? && parse(read.value).Ok? && Decode(parse(read.value).value).None? ==> r == Ok(DEFAULT)
  {
    var text :- (if read.Err? then Err("Failed to read settings file: " + read.error) else Ok(read.value));
    match parse(text)
    case Err(_) => Ok(DEFAULT)
    case Ok(j) => Ok(Decode(j).GetOr(DEFAULT))
  }

  /** `update`: validate, persist, and only then replace the in-memory
      copy. */
  function Update(m: Manager, s: Settings, show: real -> string, render: Json -> string, io: Writes): (r: (Result<()>, Manager))
    ensures r.0.Ok? <==> Validate(s, show).Ok? && io.write.Ok? && io.rename.Ok?
    ensures r.0.Err? ==> r.1 == m
    ensures r.0.Ok? ==> r.1 == Manager(s, Some(render(Encode(s))))
  {
    match Validate(s, show)
    case Err(e) => (Err(e), m)
    case Ok(_) =>
      var (saved, file) := SaveToFile(m.file, s, render, io);
      if saved.Err? then (Err(saved.error), m)
      else (Ok(()), Manager(s, file))
  }

  /** Settings stored by a successful update load back unchanged, given a
      parser that reads the printer's output. */
  lemma {:induction false} UpdateThenLoad(m: Manager, s: Settings, show: real -> string, render: Json -> string, io: Writes, parse: Parser)
    requires Update(m, s, show, render, io).0.Ok?
    requires parse(render(Encode(s))) == Ok(Encode(s))
    ensures var m' := Update(m, s, show, render, io).1;
      m'.file.Some? && LoadFromFile(Ok(m'.file.value), parse) == Ok(m'.current)
  {
    DecodeEncode(s);
  }

  /** `new_with_path`: create the parent directory if missing, then load
      the existing file or write the defaults to a new one. */
  function NewWithPath(parentExists: bool, mkdir: Result<()>, existing: Option<Result<string>>,
                       parse: Parser, render: Json -> string, io: Writes): (r: Result<Manager>)
    ensures !parentExists && mkdir.Err? ==> r == Err("Failed to create settings directory: " + mkdir.error)
    ensures (parentExists || mkdir.Ok?) && existing.Some? ==>
      (r.Ok? <==> existing.value.Ok?) && (r.Ok? ==> r.value.current == LoadFromFile(existing.value, parse).value)
    ensures (parentExists || mkdir.Ok?) && existing.None? ==>
      (r.Ok? <==> io.write.Ok? && io.rename.Ok?)
      && (r.Ok? ==> r.value == Manager(DEFAULT, Some(render(Encode(DEFAULT)))))
  {
    if !parentExists && mkdir.Err? then Err("Failed to create settings directory: " + mkdir.error)
    else
      match existing
      case Some(read) =>
        var s :- LoadFromFile(read, parse);
        Ok(Manager(s, Some(read.value)))
      case None =>
        var (saved, file) := SaveToFile(None, DEFAULT, render, io);
        if saved.Err? then Err(saved.error) else Ok(Manager(DEFAULT, file))
  }

  /** A manager starts with settings that are either read from its file or
      the defaults; a fresh file holds the defaults and reloads as them. */
  lemma {:induction false} NewManagerSettings(parentExists: bool, mkdir: Result<()>, existing: Option<Result<string>>,
                           parse: Parser, render: Json -> string, io: Writes)
    requires NewWithPath(parentExists, mkdir, existing, parse, render, io).Ok?
    requires parse(render(Encode(DEFAULT))) == Ok(Encode(DEFAULT))
    ensures var m := NewWithPath(parentExists, mkdir, existing, parse, render, io).value;
      m.file.Some? && LoadFromFile(Ok(m.file.value), parse) == Ok(m.current)
  {
    DecodeEncode(DEFAULT);
  }
}
