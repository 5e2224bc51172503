/** `VenvManager`: the Python virtual environment the MLX sidecar runs in.
    A marker file in the environment holds the hash of the requirements it
    was built from; the environment is ready while that hash is current.
    SHA-256 is a parameter; the three set-up commands are described by how
    they end. */
module Venv {
  import opened Wrappers
  import opened Text
  import opened Utf8
  import Paths

  datatype Status = NotCreated | Ready | NeedsUpdate

  const MARKER_FILE: string := ".jarvis-setup-complete"
  const UNKNOWN_HASH: string := "unknown"

  /** The environment directory and the requirements file as the manager
      finds them: `marker` is absent when the file is missing, and holds
      the read error or the text otherwise. */
  datatype Disk = Disk(
    dirExists: bool,
    marker: Option<Result<string>>,
    pythonExists: bool,
    requirements: Option<seq<byte>>)

  /** `requirements_hash`: the hex SHA-256 of the requirements file, or
      "unknown" when it cannot be read. */
  function RequirementsHash(d: Disk, sha: seq<byte> -> string): (h: string)
    ensures d.requirements.None? ==> h == UNKNOWN_HASH
    ensures d.requirements.Some? ==> h == sha(d.requirements.value)
  {
    match d.requirements
    case None => UNKNOWN_HASH
    case Some(bytes) => sha(bytes)
  }

  /** `status`: not created without a readable marker, ready when the
      stored hash (trimmed) is the current one, out of date otherwise. */
  function StatusOf(d: Disk, sha: seq<byte> -> string): (s: Status)
    ensures s == NotCreated <==> d.marker.None? || d.marker.value.Err?
    ensures s == Ready <==> d.marker.Some? && d.marker.value.Ok? && Trim(d.marker.value.value) == RequirementsHash(d, sha)
  {
    match d.marker
    case None => NotCreated
    case Some(Err(_)) => NotCreated
    case Some(Ok(stored)) => if Trim(stored) == RequirementsHash(d, sha) then Ready else NeedsUpdate
  }

  function VenvPython(venvDir: string): string {
    Paths.Join(venvDir, "bin/python3")
  }

  /** `resolve_python_path`: the environment's interpreter only when the
      environment is ready and the interpreter exists. */
  function ResolvePythonPath(d: Disk, sha: seq<byte> -> string, venvDir: string, base: string): (r: string)
    ensures StatusOf(d, sha) == Ready && d.pythonExists ==> r == VenvPython(venvDir)
    ensures !(StatusOf(d, sha) == Ready && d.pythonExists) ==> r == base
  {
    if StatusOf(d, sha) == Ready && d.pythonExists then VenvPython(venvDir) else base
  }

  /** How one set-up command ended: it could not be started, or it exited
      with success or failure and its standard error. */
  datatype Exec = SpawnFailed(message: string) | Exited(success: bool, stderr: string)

  predicate Succeeded(e: Exec) {
    e.Exited? && e.success
  }

  function ExecError(e: Exec, spawnPrefix: string, failPrefix: string): (r: Option<string>)
    ensures r.None? <==> Succeeded(e)
    ensures e.SpawnFailed? ==> r == Some(spawnPrefix + e.message)
    ensures e.Exited? && !e.success ==> r == Some(failPrefix + e.stderr)
  {
    match e
    case SpawnFailed(m) => Some(spawnPrefix + m)
    case Exited(ok, stderr) => if ok then None else Some(failPrefix + stderr)
  }

  /** Everything `setup` meets. */
  datatype Run = Run(parentError: Option<string>, venv: Exec, pip: Exec, validate: Exec, markerError: Option<string>)

  /** The first failing phase's error, if any: parent directory, venv
      creation, dependency installation, validation. */
  function PhaseError(run: Run): (r: Option<string>)
    ensures r.None? <==>
      run.parentError.None? && Succeeded(run.venv) && Succeeded(run.pip) && Succeeded(run.validate)
  {
    if run.parentError.Some? then Some("Failed to create venv parent directory: " + run.parentError.value)
    else if ExecError(run.venv, "Failed to create venv: ", "Venv creation failed: ").Some? then
      ExecError(run.venv, "Failed to create venv: ", "Venv creation failed: ")
    else if ExecError(run.pip, "Failed to run pip install: ", "pip install failed: ").Some? then
      ExecError(run.pip, "Failed to run pip install: ", "pip install failed: ")
    else ExecError(run.validate, "Validation command failed: ", "MLX validation failed: ")
  }

  /** How `setup` ends: success, an error, or a panic. */
  datatype Outcome = Done | Failed(message: string) | Panicked

  datatype Ended = Ended(outcome: Outcome, disk: Disk)

  /** `setup` as written: after the marker is written, the log line slices
      the first 16 bytes of the hash, which panics for a hash shorter than
      that (the hex digest is ASCII, so bytes and characters agree). A
      finished set-up has created the directory and its interpreter. */
  function SetupAsWritten(d: Disk, sha: seq<byte> -> string, run: Run): (r: Ended)
    ensures PhaseError(run).Some? ==> r == Ended(Failed(PhaseError(run).value), d)
    ensures PhaseError(run).None? && run.markerError.Some? ==>
      r == Ended(Failed("Failed to write marker file: " + run.markerError.value), d)
    ensures PhaseError(run).None? && run.markerError.None? ==>
      r.disk == Installed(d, RequirementsHash(d, sha))
    ensures r.outcome == Panicked <==>
      PhaseError(run).None? && run.markerError.None? && |RequirementsHash(d, sha)| < 16
  {
    if PhaseError(run).Some? then Ended(Failed(PhaseError(run).value), d)
    else if run.markerError.Some? then Ended(Failed("Failed to write marker file: " + run.markerError.value), d)
    else
      var hash := RequirementsHash(d, sha);
      if |hash| < 16 then Ended(Panicked, Installed(d, hash)) else Ended(Done, Installed(d, hash))
  }

  /** The environment once created, installed and marked with `hash`. */
  function Installed(d: Disk, hash: string): (r: Disk)
    ensures r.dirExists && r.pythonExists && r.marker == Some(Ok(hash))
    ensures r.requirements == d.requirements
  {
    d.(dirExists := true, pythonExists := true, marker := Some(Ok(hash)))
  }

  /** With an unreadable requirements file every phase can succeed and set
      up still panics, after leaving a marker that reads "unknown" behind. */
  lemma {:induction false} UnknownHashPanics(d: Disk, sha: seq<byte> -> string, run: Run)
    requires d.requirements.None? && PhaseError(run).None? && run.markerError.None?
    ensures SetupAsWritten(d, sha, run).outcome == Panicked
    ensures SetupAsWritten(d, sha, run).disk.marker == Some(Ok(UNKNOWN_HASH))
  {
  }

  predicate IsHexChar(c: char) {
    '0' <= c <= '9' || 'a' <= c <= 'f'
  }

  /** A SHA-256 digest in lower-case hex: 64 hex digits. */
  predicate IsHexDigest(h: string) {
    |h| == 64 && forall i :: 0 <= i < |h| ==> IsHexChar(h[i])
  }

  ghost predicate HexDigests(sha: seq<byte> -> string) {
    forall b: seq<byte> :: IsHexDigest(sha(b))
  }

  /** A readable requirements file never reaches the panic. */
  lemma {:induction false} ReadableRequirementsDoNotPanic(d: Disk, sha: seq<byte> -> string, run: Run)
    requires HexDigests(sha) && d.requirements.Some?
    ensures SetupAsWritten(d, sha, run).outcome != Panicked
  {
    assert |sha(d.requirements.value)| == 64;
  }

  /** `setup` with the log line showing at most the first 16 characters of
      the hash: it succeeds exactly when every phase and the marker write
      do. */
  function Setup(d: Disk, sha: seq<byte> -> string, run: Run): (r: Ended)
    ensures r.outcome != Panicked
    ensures r.outcome == Done <==> PhaseError(run).None? && run.markerError.None?
    ensures r.outcome.Failed? ==> r.disk == d
    ensures r.outcome == Done ==> r.disk == Installed(d, RequirementsHash(d, sha))
  {
    var written := SetupAsWritten(d, sha, run);
    if written.outcome == Panicked then Ended(Done, written.disk) else written
  }

  /** A finished set-up reports the environment ready, and the sidecar then
      runs on the environment's interpreter. */
  lemma {:induction false} SetupMakesReady(d: Disk, sha: seq<byte> -> string, run: Run, venvDir: string, base: string)
    requires HexDigests(sha)
    requires Setup(d, sha, run).outcome == Done
    ensures StatusOf(Setup(d, sha, run).disk, sha) == Ready
    ensures ResolvePythonPath(Setup(d, sha, run).disk, sha, venvDir, base) == VenvPython(venvDir)
  {
    var after := Setup(d, sha, run).disk;
    HashTrimmed(d, sha);
    assert after == Installed(d, RequirementsHash(d, sha));
    assert RequirementsHash(after, sha) == RequirementsHash(d, sha);
  }

  /** The stored hash has no surrounding white space, so the status check
      reads it back unchanged. */
  lemma {:induction false} HashTrimmed(d: Disk, sha: seq<byte> -> string)
    requires HexDigests(sha)
    ensures Trim(RequirementsHash(d, sha)) == RequirementsHash(d, sha)
  {
    var h := RequirementsHash(d, sha);
    if d.requirements.Some? {
      assert IsHexDigest(sha(d.requirements.value));
      assert IsHexChar(h[0]) && IsHexChar(h[63]);
    }
    TrimIdentity(h);
  }

  /** `reset`: remove the directory if it exists. */
  function Reset(d: Disk, removeError: Option<string>): (r: Result<Disk>)
    ensures !d.dirExists ==> r == Ok(d)
    ensures d.dirExists && removeError.Some? ==> r == Err("Failed to remove venv: " + removeError.value)
    ensures d.dirExists && removeError.None? ==> r.Ok? && forall sha :: StatusOf(r.value, sha) == NotCreated
  {
    if !d.dirExists then Ok(d)
    else if removeError.Some? then Err("Failed to remove venv: " + removeError.value)
    else Ok(Disk(false, None, false, d.requirements))
  }
}
