/** `WhisperKitProvider`: transcription through a local `whisperkit-cli`
    server. The platform probes, the server process and the HTTP exchange
    are parameters; what is modelled is the order of the availability
    checks, the provider's state, the request's WAV body and the gates in
    front of a transcription. */
module WhisperKit {
  import opened Wrappers
  import opened Text
  import opened Utf8
  import opened LittleEndian
  import Wav
  import Paths
  import Transcription

  const NAME: string := "whisperkit"
  const NEEDS_ARM: string := "WhisperKit requires Apple Silicon (arm64)"
  const NEEDS_MACOS_14: string := "WhisperKit requires macOS 14.0 or later"
  const NO_CLI: string := "whisperkit-cli not found. Install " + "with: brew install whisperkit-cli"
  const NOT_INITIALIZED: string := "WhisperKit server not initialized. Call initialize() first."

  /** Where downloaded models live: these two directories joined in turn
      under the home directory. */
  const MODELS_ROOT: string := ".jarvis/models/whisperkit"
  const MODELS_SUBDIR: string := "models/argmaxinc/whisperkit-" + "coreml"

  /** The directory of the model `name` under `home`. */
  function ModelPath(home: string, name: string): (r: string)
    ensures StartsWith(r, home) && EndsWith(r, name)
  {
    var root := Paths.Join(home, MODELS_ROOT);
    var p := Paths.Join(Paths.Join(root, MODELS_SUBDIR), name);
    p
  }

  /** The Homebrew locations tried before `which`. */
  const HOMEBREW_PATHS: seq<string> := ["/opt/homebrew/bin/whisperkit-cli", "/usr/local/bin/whisperkit-cli"]

  /** What the availability probes see: the architecture and OS names, the
      output of a successful `sw_vers -productVersion`, which paths exist,
      and the output of a successful `which whisperkit-cli`. */
  datatype Platform = Platform(
    arch: string,
    os: string,
    swVers: Option<string>,
    present: string -> bool,
    which: Option<string>)

  /** `is_macos_14_or_later`: the major version before the first '.' must
      parse as a `u32` of at least 14. */
  function IsMacos14OrLater(p: Platform): (r: bool)
    ensures p.os != "macos" || p.swVers.None? ==> !r
  {
    && p.os == "macos"
    && p.swVers.Some?
    && var major := ParseUnsigned(Split(Trim(p.swVers.value), '.')[0], U32_LIMIT);
       major.Some? && major.value >= 14
  }

  /** Only the major number before the first '.' of the trimmed
      `sw_vers` output decides. */
  lemma {:induction false} MajorVersionDecides(p: Platform, major: string, rest: string)
    requires p.os == "macos"
    requires major != [] && '.' !in major && !IsWhitespace(major[0])
    requires rest != [] && !IsWhitespace(rest[|rest| - 1])
    requires p.swVers == Some(major + ['.'] + rest + "\n")
    ensures IsMacos14OrLater(p) <==>
      var m := ParseUnsigned(major, U32_LIMIT); m.Some? && m.value >= 14
  {
    var v := major + ['.'] + rest;
    TrimLine(v);
    SplitCons(major, '.', rest);
  }

  /** macOS 14.2.1 is accepted. */
  lemma {:induction false} Macos14Accepted(p: Platform)
    requires p.os == "macos" && p.swVers == Some("14.2.1\n")
    ensures IsMacos14OrLater(p)
  {
    assert "14" + ['.'] + "2.1" + "\n" == "14.2.1\n";
    MajorVersionDecides(p, "14", "2.1");
    assert DigitsValue("14") == 14 by { assert "14"[..1] == "1"; assert "1"[..0] == ""; }
    assert AllDigits("14");
    assert ParseUnsigned("14", U32_LIMIT) == Some(14);
  }

  /** macOS 13.6 is refused. */
  lemma {:induction false} Macos13Refused(p: Platform)
    requires p.os == "macos" && p.swVers == Some("13.6\n")
    ensures !IsMacos14OrLater(p)
  {
    assert "13" + ['.'] + "6" + "\n" == "13.6\n";
    MajorVersionDecides(p, "13", "6");
    assert DigitsValue("13") == 13 by { assert "13"[..1] == "1"; assert "1"[..0] == ""; }
  }

  /** `find_cli`: the first Homebrew path that exists, else the trimmed
      non-empty output of `which`. */
  function FindCli(p: Platform): (r: Option<string>)
    ensures p.present(HOMEBREW_PATHS[0]) ==> r == Some(HOMEBREW_PATHS[0])
    ensures !p.present(HOMEBREW_PATHS[0]) && p.present(HOMEBREW_PATHS[1]) ==> r == Some(HOMEBREW_PATHS[1])
    ensures r.Some? ==> r.value != []
    ensures r.None? <==>
      !p.present(HOMEBREW_PATHS[0]) && !p.present(HOMEBREW_PATHS[1]) && (p.which.None? || Trim(p.which.value) == [])
  {
    if p.present(HOMEBREW_PATHS[0]) then Some(HOMEBREW_PATHS[0])
    else if p.present(HOMEBREW_PATHS[1]) then Some(HOMEBREW_PATHS[1])
    else if p.which.Some? && Trim(p.which.value) != [] then Some(Trim(p.which.value))
    else None
  }

  datatype Availability = Availability(available: bool, reason: Option<string>, cliPath: Option<string>)

  /** `check_availability`: architecture first, then the OS version, then
      the command-line tool. */
  function CheckAvailability(p: Platform): (a: Availability)
    ensures p.arch != "aarch64" ==> a == Availability(false, Some(NEEDS_ARM), None)
    ensures p.arch == "aarch64" && !IsMacos14OrLater(p) ==> a == Availability(false, Some(NEEDS_MACOS_14), None)
    ensures a.available <==> p.arch == "aarch64" && IsMacos14OrLater(p) && FindCli(p).Some?
    ensures a.available ==> a.reason.None? && a.cliPath == FindCli(p)
  {
    if p.arch != "aarch64" then Availability(false, Some(NEEDS_ARM), None)
    else if !IsMacos14OrLater(p) then Availability(false, Some(NEEDS_MACOS_14), None)
    else
      match FindCli(p)
      case Some(path) => Availability(true, None, Some(path))
      case None => Availability(false, Some(NO_CLI), None)
  }

  /** An unavailable provider always says why, in a non-empty reason. */
  lemma {:induction false} UnavailableHasReason(p: Platform)
    ensures var a := CheckAvailability(p);
      !a.available <==> a.reason.Some? && a.reason.value != []
  {
  }

  /** The provider: whether the server process runs, its port, the tool's
      path, the model, the availability verdict and whether an HTTP client
      has been built. */
  datatype Provider = Provider(
    serverRunning: bool,
    port: Option<nat>,
    cliPath: Option<string>,
    modelName: string,
    available: bool,
    reason: Option<string>,
    client: bool)

  /** `new`: probe availability; nothing runs yet. */
  function New(modelName: string, p: Platform): (r: Provider)
    ensures !r.serverRunning && r.port.None? && !r.client
    ensures r.available == CheckAvailability(p).available && r.reason == CheckAvailability(p).reason
  {
    var a := CheckAvailability(p);
    Provider(false, None, a.cliPath, modelName, a.available, a.reason, false)
  }

  /** How starting the server goes: the port the system hands out (or the
      error), the spawn error, whether building the HTTP client fails, and
      whether the health check answers within 30 seconds. */
  datatype Server = Server(port: Result<nat>, spawnError: Option<string>, clientError: Option<string>, healthy: bool)

  datatype Step = Step(result: Result<()>, provider: Provider)

  /** `start_server`. */
  function StartServer(pr: Provider, s: Server): (r: Step)
    ensures r.result.Ok? ==> s.port.Ok? && r.provider.serverRunning && r.provider.port == Some(s.port.value) && r.provider.client
  {
    if pr.serverRunning then Step(Err("Server already running"), pr)
    else if pr.cliPath.None? then Step(Err("whisperkit-cli path not available"), pr)
    else if s.port.Err? then Step(Err(s.port.error), pr)
    else if s.spawnError.Some? then Step(Err("Failed to spawn whisperkit-cli: " + s.spawnError.value), pr)
    else
      var running := pr.(serverRunning := true, port := Some(s.port.value));
      if s.clientError.Some? then Step(Err(s.clientError.value), running)
      else Step(Ok(()), running.(client := true))
  }

  /** `initialize`: refuse when unavailable or when the model is missing
      under `<home>/.jarvis/models/whisperkit/models/argmaxinc/whisperkit-coreml`,
      then start the server and wait for its health check. */
  function Initialize(pr: Provider, home: Option<string>, present: string -> bool, s: Server): (r: Step)
    ensures !pr.available ==> r == Step(Err("WhisperKit is not available: " + pr.reason.GetOr("unknown reason")), pr)
    ensures r.result.Ok? ==> r.provider.client && r.provider.port.Some?
  {
    if !pr.available then Step(Err("WhisperKit is not available: " + pr.reason.GetOr("unknown reason")), pr)
    else if home.None? then Step(Err("Failed to get home directory"), pr)
    else
      var modelPath := ModelPath(home.value, pr.modelName);
      if !present(modelPath) then Step(Err("WhisperKit model not found: " + modelPath + ". Download it first."), pr)
      else
        var started := StartServer(pr, s);
        if started.result.Err? then started
        else if !s.healthy then Step(Err("Server health check timeout after 30 seconds"), started.provider)
        else started
  }

  /** A server that starts but never answers its health check fails the
      initialisation and still leaves the client and port in place, so a
      later transcription is not refused as uninitialised. */
  lemma {:induction false} UnhealthyServerKeepsClient(pr: Provider, home: string, present: string -> bool, s: Server)
    requires pr.available && !pr.serverRunning && pr.cliPath.Some?
    requires present(ModelPath(home, pr.modelName))
    requires s.port.Ok? && s.spawnError.None? && s.clientError.None? && !s.healthy
    ensures var r := Initialize(pr, Some(home), present, s);
      r.result.Err? && r.provider.client && r.provider.port == Some(s.port.value)
  {
  }

  /** `audio_to_wav` on samples already quantised to 16 bits (the `f32`
      clamping and scaling is not modelled). The data size is the byte
      count cast to `u32`; the sums wrap as `u32` arithmetic does in a
      release build. */
  function AudioToWav(samples: seq<int>, rate: nat): (w: seq<byte>)
    requires forall i :: 0 <= i < |samples| ==> IsI16(samples[i])
    requires rate < U32_LIMIT
    ensures |w| == Wav.HEADER_SIZE + 2 * |samples|
    ensures w[..Wav.HEADER_SIZE] == Wav.Layout(WrappedFields(2 * |samples|, rate))
    ensures w[Wav.HEADER_SIZE..] == EncodeSamples(samples)
  {
    var pcm := EncodeSamples(samples);
    var h := Wav.Layout(WrappedFields(|pcm|, rate));
    assert (h + pcm)[..Wav.HEADER_SIZE] == h;
    h + pcm
  }

  /** The header fields for `byteCount` bytes at `rate`, each computed in
      wrapping `u32` arithmetic. */
  function WrappedFields(byteCount: nat, rate: nat): (f: Wav.Fields)
    requires rate < U32_LIMIT
    ensures Wav.Fits(f)
    ensures byteCount <= Wav.MAX_DATA_SIZE && 2 * rate < U32_LIMIT ==> f == Wav.Canonical(byteCount, rate)
  {
    var dataSize := byteCount % U32_LIMIT;
    Wav.Fields((dataSize + 36) % U32_LIMIT, rate, (2 * rate) % U32_LIMIT, dataSize)
  }

  /** Below the `u32` limits the body starts with the canonical header for
      its payload, so the header's data size is the payload length. */
  lemma {:induction false} AudioToWavHeader(samples: seq<int>, rate: nat)
    requires forall i :: 0 <= i < |samples| ==> IsI16(samples[i])
    requires rate < U32_LIMIT
    requires 2 * |samples| <= Wav.MAX_DATA_SIZE && 2 * rate < U32_LIMIT
    ensures Wav.ParseHeader(AudioToWav(samples, rate)) == Some(Wav.Fields(2 * |samples| + 36, rate, 2 * rate, 2 * |samples|))
  {
    var w := AudioToWav(samples, rate);
    var f := WrappedFields(2 * |samples|, rate);
    Wav.LayoutRoundTrip(f);
    Wav.ParseHeaderPrefix(w);
  }

  /** The request body decodes back to the samples it was made from. */
  lemma {:induction false} WavSamplesRoundTrip(samples: seq<int>, rate: nat)
    requires forall i :: 0 <= i < |samples| ==> IsI16(samples[i])
    requires rate < U32_LIMIT
    ensures DecodeSamples(AudioToWav(samples, rate)[Wav.HEADER_SIZE..]) == samples
  {
    SamplesRoundTrip(samples);
  }

  /** A segment as the server returns it, its times already in
      milliseconds. */
  datatype RawSegment = RawSegment(text: string, startMs: int, endMs: int)

  /** `transcribe`: refuse without a client or a port, else post the WAV
      body with the model name and mark every returned segment final. */
  function Transcribe(pr: Provider, samples: seq<int>, post: (string, nat, seq<byte>) -> Result<seq<RawSegment>>)
    : (r: Result<seq<Transcription.Segment>>)
    requires forall i :: 0 <= i < |samples| ==> IsI16(samples[i])
    ensures !pr.client ==> r == Err(NOT_INITIALIZED)
    ensures pr.client && pr.port.None? ==> r == Err("Server port not set")
    ensures r.Ok? ==> (
      && pr.client && pr.port.Some?
      && var raw := post(pr.modelName, pr.port.value, AudioToWav(samples, Wav.SAMPLE_RATE));
      && raw.Ok? && |r.value| == |raw.value|
      && forall i :: 0 <= i < |r.value| ==>
           r.value[i] == Transcription.Segment(raw.value[i].text, raw.value[i].startMs, raw.value[i].endMs, true))
  {
    if !pr.client then Err(NOT_INITIALIZED)
    else if pr.port.None? then Err("Server port not set")
    else
      var raw :- post(pr.modelName, pr.port.value, AudioToWav(samples, Wav.SAMPLE_RATE));
      Ok(seq(|raw|, i requires 0 <= i < |raw| => Transcription.Segment(raw[i].text, raw[i].startMs, raw[i].endMs, true)))
  }

  /** A freshly created provider refuses to transcribe. */
  lemma {:induction false} NewProviderNotInitialized(modelName: string, p: Platform, samples: seq<int>,
                                  post: (string, nat, seq<byte>) -> Result<seq<RawSegment>>)
    requires forall i :: 0 <= i < |samples| ==> IsI16(samples[i])
    ensures Transcribe(New(modelName, p), samples, post) == Err(NOT_INITIALIZED)
  {
  }
}
