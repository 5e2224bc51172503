/** `RecordingManager`: one recording at a time, through the JarvisListen
    sidecar. The state is the child process, the file being written and the
    audio-router task; the sidecar's stderr lines and its termination come
    in as events and go out as frontend events. */
module Recording {
  import opened Wrappers
  import opened Text
  import Paths
  import Files

  /** The manager's state: the sidecar's process id, the output file and
      whether an audio-router task is held. */
  datatype State = State(child: Option<nat>, filepath: Option<string>, routerTask: bool)

  /** What the frontend is told. */
  datatype Event =
    | RecordingStarted(filename: string)
    | PermissionError(message: string)
    | SidecarError(message: string)
    | SidecarCrashed(code: Option<int>)
    | RecordingStopped

  /** The child and the file are recorded together. */
  predicate Consistent(s: State) {
    s.child.Some? <==> s.filepath.Some?
  }

  /** `new`. */
  const Idle: State := State(None, None, false)

  /** `is_recording`. */
  function IsRecording(s: State): (r: bool)
    ensures Consistent(s) ==> (r <==> s.filepath.Some?)
    ensures s == Idle ==> !r
  {
    s.child.Some?
  }

  /** A local time as `chrono` breaks it down. */
  datatype Time = Time(year: nat, month: nat, day: nat, hour: nat, minute: nat, second: nat)

  predicate ValidTime(t: Time) {
    1 <= t.month <= 12 && 1 <= t.day <= 31 && t.hour < 24 && t.minute < 60 && t.second < 61
  }

  function TwoDigits(n: nat): (r: string)
    requires n < 100
    ensures |r| == 2 && AllDigits(r) && DigitsValue(r) == n
    ensures '.' !in r && '/' !in r && '\\' !in r
  {
    var r := [DigitChar(n / 10), DigitChar(n % 10)];
    assert r[..1] == [DigitChar(n / 10)] && r[..1][..0] == [];
    assert DigitsValue(r[..1]) == n / 10;
    r
  }

  /** `%Y`: four digits, zero-padded; a later year is written in full
      after a '+'. */
  function Year(y: nat): (r: string)
    ensures y <= 9999 ==> |r| == 4 && AllDigits(r) && DigitsValue(r) == y
    ensures '.' !in r && '/' !in r && '\\' !in r
  {
    if y <= 9999 then
      var r := TwoDigits(y / 100) + TwoDigits(y % 100);
      assert r[..2] == TwoDigits(y / 100) && r[..3][..2] == r[..2];
      assert DigitsValue(r[..3]) == DigitsValue(r[..2]) * 10 + (r[2] as int - '0' as int);
      r
    else "+" + NatToString(y)
  }

  /** `now.format("%Y%m%d_%H%M%S.pcm")`. */
  function StampedName(t: Time): (r: string)
    requires ValidTime(t)
    ensures EndsWith(r, ".pcm") && |r| > 4
    ensures '/' !in r && '\\' !in r && !Contains(r, "..")
    ensures t.year <= 9999 ==> |r| == 19 && r[8] == '_'
  {
    var digits := Year(t.year) + TwoDigits(t.month) + TwoDigits(t.day) + "_"
      + TwoDigits(t.hour) + TwoDigits(t.minute) + TwoDigits(t.second);
    var r := digits + ".pcm";
    assert r[|r| - 4..] == ".pcm";
    NoDoubleDot(digits);
    r
  }

  /** A dot-free stem followed by ".pcm" has no "..". */
  lemma {:induction false} NoDoubleDot(stem: string)
    requires '.' !in stem
    ensures !Contains(stem + ".pcm", "..")
  {
    var r := stem + ".pcm";
    forall j | 0 <= j < |r| - 1 ensures !At(r, j, "..") {
      assert r[j..j + 2] == [r[j], r[j + 1]];
      if j < |stem| { assert r[j] == stem[j]; }
      else { assert r[j + 1] == ".pcm"[j + 1 - |stem|]; }
    }
  }

  /** `generate_timestamped_path`. */
  function TimestampedPath(dir: string, t: Time): (p: string)
    requires ValidTime(t)
    ensures Paths.FileName(p) == Some(StampedName(t))
  {
    Paths.FileNameOfJoin(dir, StampedName(t));
    Paths.Join(dir, StampedName(t))
  }

  /** A new recording's file is one the recordings listing keeps and the
      deletion checks accept, and it is named directly in the directory. */
  lemma {:induction false} StampedNameListedAndDeletable(dir: string, t: Time, disk: Files.Disk)
    requires ValidTime(t)
    ensures Paths.Extension(TimestampedPath(dir, t)) == Some("pcm")
    ensures Files.DeleteRecording(dir, StampedName(t), disk).Ok? <==>
      var p := Paths.Join(dir, StampedName(t));
      disk.present(p) && disk.isFile(p) && disk.removeError(p).None?
  {
    var name := StampedName(t);
    Files.PcmNames(name);
  }

  /** How setting up the recording ends, past the concurrency check: the
      audio router's FIFO, the sidecar command and its spawn (giving the
      process id). */
  datatype Launch = Launch(router: Result<()>, command: Result<()>, spawn: Result<nat>)

  /** A call's result, the state after it and the events it emits. */
  datatype Step<T> = Step(result: Result<T>, state: State, events: seq<Event>)

  /** `start_recording`. */
  function StartRecording(s: State, dir: string, now: Time, l: Launch): (r: Step<string>)
    requires ValidTime(now)
    ensures IsRecording(s) ==> r == Step(Err("A recording is already in progress"), s, [])
    ensures r.result.Err? ==> r.state == s && r.events == []
    ensures r.result.Ok? <==> !IsRecording(s) && l.router.Ok? && l.command.Ok? && l.spawn.Ok?
    ensures r.result.Ok? ==>
      && r.result.value == StampedName(now)
      && r.state == State(Some(l.spawn.value), Some(TimestampedPath(dir, now)), true)
      && r.events == [RecordingStarted(r.result.value)]
  {
    if IsRecording(s) then Step(Err("A recording is already in progress"), s, [])
    else
      var path := TimestampedPath(dir, now);
      var filename := Paths.FileName(path).value;
      if l.router.Err? then Step(Err("Failed to create AudioRouter: " + l.router.error), s, [])
      else if l.command.Err? then Step(Err("Failed to get sidecar command: " + l.command.error), s, [])
      else if l.spawn.Err? then Step(Err("Failed to spawn sidecar process: " + l.spawn.error), s, [])
      else Step(Ok(filename), State(Some(l.spawn.value), Some(path), true), [RecordingStarted(filename)])
  }

  /** `stop_recording` up to sending SIGTERM; waiting for the exit runs in
      the background. The child and the file are taken before anything can
      fail, so every outcome leaves the manager idle. */
  function StopRecording(s: State, sigterm: Result<()>): (r: Step<()>)
    ensures !IsRecording(r.state)
    ensures Consistent(s) ==> r.state.filepath.None?
    ensures !IsRecording(s) ==> r.result == Err("No recording in progress") && r.state == s
    ensures r.result.Ok? <==> IsRecording(s) && s.filepath.Some? && sigterm.Ok?
    ensures r.events == []
  {
    if s.child.None? then Step(Err("No recording in progress"), s, [])
    else if s.filepath.None? then Step(Err("No recording filepath found"), s.(child := None), [])
    else
      var taken := State(None, None, false);
      if sigterm.Err? then Step(Err("Failed to send SIGTERM to process: " + sigterm.error), taken, [])
      else Step(Ok(()), taken, [])
  }

  /** Starting and then stopping returns the manager to where it was. */
  lemma {:induction false} StartThenStopIsIdle(dir: string, now: Time, l: Launch)
    requires ValidTime(now) && l.router.Ok? && l.command.Ok? && l.spawn.Ok?
    ensures var started := StartRecording(Idle, dir, now, l);
      started.result.Ok? && StopRecording(started.state, Ok(())) == Step(Ok(()), Idle, [])
  {
  }

  /** How a stderr line is handled. */
  datatype Kind = Permission | Failure | LogOnly

  /** The classification in `monitor_events`: permission problems first,
      then other errors; everything else is only logged. */
  function Classify(line: string): (k: Kind)
    ensures k == Permission <==>
      (StartsWith(line, "Error: ") && (Contains(Lower(line), "permission") || Contains(Lower(line), "screen recording")))
      || (StartsWith(line, "Warning: ") && Contains(Lower(line), "permission denied"))
    ensures k == Failure <==> StartsWith(line, "Error: ") && k != Permission
  {
    var lower := Lower(line);
    var permission :=
      (StartsWith(line, "Error: ") && (Contains(lower, "permission") || Contains(lower, "screen recording")))
      || (StartsWith(line, "Warning: ") && Contains(lower, "permission denied"));
    if permission then Permission
    else if StartsWith(line, "Error: ") then Failure
    else LogOnly
  }

  /** A line without either prefix is never shown to the user, whatever it
      says. */
  lemma {:induction false} UnprefixedLinesOnlyLogged(line: string)
    requires !StartsWith(line, "Error: ") && !StartsWith(line, "Warning: ")
    ensures Classify(line) == LogOnly
  {
  }

  /** A warning that does not report a denied permission is only logged,
      even when it names the microphone or permissions in other words. */
  lemma {:induction false} WarningsWithoutDenialLogged(line: string)
    requires StartsWith(line, "Warning: ") && !Contains(Lower(line), "permission denied")
    ensures Classify(line) == LogOnly
  {
    assert line[0] == 'W';
  }

  /** The events a stderr line produces. */
  function OnStderr(line: string): (es: seq<Event>)
    ensures |es| <= 1
    ensures es == [] <==> Classify(line) == LogOnly
    ensures Classify(line) == Permission ==> es == [PermissionError(line)]
    ensures Classify(line) == Failure ==> es == [SidecarError(line)]
  {
    match Classify(line)
    case Permission => [PermissionError(line)]
    case Failure => [SidecarError(line)]
    case LogOnly => []
  }

  /** The `Terminated` event: a child still on record means the sidecar
      went away on its own, so the state is cleared and the exit code
      decides between a crash and a stop. */
  function OnTerminated(s: State, code: Option<int>): (r: (State, seq<Event>))
    ensures !IsRecording(s) ==> r == (s, [])
    ensures IsRecording(s) ==> !IsRecording(r.0) && r.0.filepath.None? && r.0.routerTask == s.routerTask
    ensures IsRecording(s) && code != Some(0) ==> r.1 == [SidecarCrashed(code)]
    ensures IsRecording(s) && code == Some(0) ==> r.1 == [RecordingStopped]
  {
    if s.child.None? then (s, [])
    else
      var cleared := s.(child := None, filepath := None);
      if code != Some(0) then (cleared, [SidecarCrashed(code)]) else (cleared, [RecordingStopped])
  }

  /** After a requested stop, the sidecar's termination emits nothing. */
  lemma {:induction false} StopThenTerminateSilent(s: State, sigterm: Result<()>, code: Option<int>)
    ensures OnTerminated(StopRecording(s, sigterm).state, code).1 == []
  {
  }
}
