/** The shared transcription types: segments, the configuration and its
    validation. Durations are `f32` seconds in the source and reals here;
    only their ordering matters, and the `{}` rendering of a float is a
    parameter. */
module Transcription {
  import opened Wrappers
  import opened Text
  import Paths

  /** `TranscriptionSegment`: text with start and end in milliseconds and
      whether it is final. */
  datatype Segment = Segment(text: string, startMs: int, endMs: int, isFinal: bool)

  /** `segments_overlap`: the open time intervals intersect. */
  function SegmentsOverlap(a: Segment, b: Segment): (r: bool)
    ensures a.endMs <= b.startMs || b.endMs <= a.startMs ==> !r
    ensures a.startMs <= b.startMs < a.endMs && b.startMs < b.endMs ==> r
  {
    a.startMs < b.endMs && b.startMs < a.endMs
  }

  /** Overlap is symmetric, and segments that only share an end point do
      not overlap. */
  lemma {:induction false} OverlapSymmetric(a: Segment, b: Segment)
    ensures SegmentsOverlap(a, b) <==> SegmentsOverlap(b, a)
    ensures a.endMs == b.startMs ==> !SegmentsOverlap(a, b)
  {
  }

  /** The millisecond `t` lies in the half-open interval [start, end). */
  predicate Covers(s: Segment, t: int) {
    s.startMs <= t < s.endMs
  }

  /** Two non-empty segments overlap exactly when some millisecond lies in
      both. */
  lemma {:induction false} OverlapIffCommonInstant(a: Segment, b: Segment)
    requires a.startMs < a.endMs && b.startMs < b.endMs
    ensures SegmentsOverlap(a, b) <==>
      exists t :: Covers(a, t) && Covers(b, t)
  {
    if SegmentsOverlap(a, b) {
      var t := if a.startMs < b.startMs then b.startMs else a.startMs;
      assert Covers(a, t) && Covers(b, t);
    }
  }

  /** `TranscriptionConfig`. */
  datatype Config = Config(
    windowSecs: real,
    overlapSecs: real,
    whisperModelPath: string,
    vadModelPath: string,
    voskModelPath: string,
    whisperThreads: Option<nat>)

  const DEFAULT_WINDOW: real := 3.0
  const DEFAULT_OVERLAP: real := 0.5
  const USIZE_LIMIT: nat := 0x1_0000_0000_0000_0000

  /** `from_env`: each model path from its environment variable, else a
      file under `<home>/.jarvis/models`; the thread count only when it
      parses as a `usize`. */
  function FromEnv(home: string, env: string -> Option<string>): (c: Config)
    ensures c.windowSecs == DEFAULT_WINDOW && c.overlapSecs == DEFAULT_OVERLAP
    ensures env("JARVIS_WHISPER_MODEL").None? ==> c.whisperModelPath == Paths.Join(Paths.Join(home, ".jarvis/models"), "ggml-base.en.bin")
    ensures env("JARVIS_WHISPER_MODEL").Some? ==> c.whisperModelPath == env("JARVIS_WHISPER_MODEL").value
    ensures c.whisperThreads.Some? <==>
      env("JARVIS_WHISPER_THREADS").Some? && ParseUnsigned(env("JARVIS_WHISPER_THREADS").value, USIZE_LIMIT).Some?
  {
    var models := Paths.Join(home, ".jarvis/models");
    var threads := match env("JARVIS_WHISPER_THREADS")
      case None => None
      case Some(s) => ParseUnsigned(s, USIZE_LIMIT);
    Config(
      DEFAULT_WINDOW, DEFAULT_OVERLAP,
      env("JARVIS_WHISPER_MODEL").GetOr(Paths.Join(models, "ggml-base.en.bin")),
      env("JARVIS_VAD_MODEL").GetOr(Paths.Join(models, "silero_vad.onnx")),
      env("JARVIS_VOSK_MODEL").GetOr(Paths.Join(models, "vosk-model-small-en-us-0.15")),
      threads)
  }

  /** `validate`: the window must be 2 to 30 seconds, the overlap shorter
      than the window. */
  function Validate(c: Config, show: real -> string): (r: Result<()>)
    ensures r.Ok? <==> 2.0 <= c.windowSecs <= 30.0 && c.overlapSecs < c.windowSecs
    ensures !(2.0 <= c.windowSecs <= 30.0) ==>
      r == Err("Window duration must be between 2 and 30 seconds, got " + show(c.windowSecs))
  {
    if c.windowSecs < 2.0 || c.windowSecs > 30.0 then
      Err("Window duration must be between 2 and 30 seconds, got " + show(c.windowSecs))
    else if c.overlapSecs >= c.windowSecs then
      Err("Overlap duration (" + show(c.overlapSecs) + ") must be less than window duration (" + show(c.windowSecs) + ")")
    else Ok(())
  }

  /** The default configuration is valid whatever the environment says. */
  lemma {:induction false} DefaultsValid(home: string, env: string -> Option<string>, show: real -> string)
    ensures Validate(FromEnv(home, env), show).Ok?
  {
  }

  /** `TranscriptionStatus`. */
  datatype Status = Idle | Active | Error | Disabled
}
