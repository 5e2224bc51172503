/** `FileManager`: the recordings directory. A listing keeps the `.pcm`
    files, newest first; deleting checks the name before it touches the
    disk. The file system is a record of what each call returns. */
module Files {
  import opened Wrappers
  import opened Text
  import Paths

  /** A second of 16 kHz mono 16-bit audio is 32000 bytes. */
  const BYTES_PER_SECOND: nat := 32000

  /** `RecordingMetadata`. */
  datatype Recording = Recording(filename: string, sizeBytes: nat, createdAt: nat, durationSeconds: real)

  /** What `fs::metadata` gives for a file: its size, and its creation time
      in whole seconds from the Unix epoch (negative when before it), or
      the error of reading that time. */
  datatype Meta = Meta(size: nat, created: Result<int>)

  /** A directory entry: its path (an error when the entry itself cannot be
      read) and what reading its metadata returns. */
  datatype Entry = Entry(path: Result<string>, meta: Result<Meta>)

  /** The message of `SystemTimeError` for a time before the epoch. */
  const BEFORE_EPOCH: string := "second time provided was later than self"

  /** `FileManager::new`: `<data dir>/com.jarvis.app/recordings`, created if
      missing. */
  function New(dataDir: Option<string>, createError: Option<string>): (r: Result<string>)
    ensures dataDir.None? ==> r == Err("Failed to determine app data directory")
    ensures dataDir.Some? && createError.Some? ==> r == Err("Failed to create recordings directory: " + createError.value)
    ensures r.Ok? <==> dataDir.Some? && createError.None?
    ensures r.Ok? ==> Paths.FileName(r.value) == Some("recordings")
  {
    match dataDir
    case None => Err("Failed to determine app data directory")
    case Some(d) =>
      var dir := Paths.Join(Paths.Join(d, "com.jarvis.app"), "recordings");
      Paths.FileNameOfJoin(Paths.Join(d, "com.jarvis.app"), "recordings");
      if createError.Some? then Err("Failed to create recordings directory: " + createError.value)
      else Ok(dir)
  }

  /** `calculate_duration`: seconds of audio in a file of that size. */
  function CalculateDuration(sizeBytes: nat): (secs: real)
    ensures secs * BYTES_PER_SECOND as real == sizeBytes as real
    ensures secs >= 0.0
  {
    sizeBytes as real / BYTES_PER_SECOND as real
  }

  /** An entry the listing keeps: its path reads and has extension "pcm". */
  predicate IsPcm(e: Entry) {
    e.path.Ok? && Paths.Extension(e.path.value) == Some("pcm")
  }

  /** The loop of `list_recordings`, in directory order, stopping at the
      first error. */
  function Collect(entries: seq<Entry>): (r: Result<seq<Recording>>)
    ensures r.Ok? ==> |r.value| == |Filter(entries, IsPcm)|
    ensures r.Ok? ==> forall k :: 0 <= k < |r.value| ==>
      Paths.NameExtension(r.value[k].filename) == Some("pcm")
      && r.value[k].durationSeconds == CalculateDuration(r.value[k].sizeBytes)
  {
    if |entries| == 0 then Ok([])
    else
      var rest := entries[1..];
      assert entries == [entries[0]] + rest;
      var e := entries[0];
      match e.path
      case Err(msg) => Err("Failed to read directory entry: " + msg)
      case Ok(path) =>
        if Paths.Extension(path) != Some("pcm") then Collect(rest)
        else
          var name := Paths.FileName(path).value;
          match e.meta
          case Err(msg) => Err("Failed to read metadata for " + Paths.Debug(path) + ": " + msg)
          case Ok(m) =>
            match m.created
            case Err(msg) => Err("Failed to get creation time for " + Paths.Debug(path) + ": " + msg)
            case Ok(t) =>
              if t < 0 then Err("Invalid creation time for " + Paths.Debug(path) + ": " + BEFORE_EPOCH)
              else
                var tail :- Collect(rest);
                Ok([Recording(name, m.size, t, CalculateDuration(m.size))] + tail)
  }

  predicate NewestFirst(rs: seq<Recording>) {
    forall i, j :: 0 <= i < j < |rs| ==> rs[i].createdAt >= rs[j].createdAt
  }

  /** Puts `x` into a newest-first list after every recording at least as
      new, so that recordings created in the same second keep their order
      (`sort_by` is stable). */
  function Insert(sorted: seq<Recording>, x: Recording): (r: seq<Recording>)
    ensures multiset(r) == multiset(sorted) + multiset{x}
  {
    if |sorted| == 0 then [x]
    else if sorted[0].createdAt >= x.createdAt then
      assert sorted == [sorted[0]] + sorted[1..];
      [sorted[0]] + Insert(sorted[1..], x)
    else [x] + sorted
  }

  lemma {:induction false} InsertNewestFirst(sorted: seq<Recording>, x: Recording)
    requires NewestFirst(sorted)
    ensures NewestFirst(Insert(sorted, x))
  {
    if |sorted| > 0 && sorted[0].createdAt >= x.createdAt {
      var tail := Insert(sorted[1..], x);
      InsertNewestFirst(sorted[1..], x);
      forall j | 0 <= j < |tail| ensures sorted[0].createdAt >= tail[j].createdAt {
        assert tail[j] in multiset(tail);
        assert tail[j] == x || tail[j] in multiset(sorted[1..]);
      }
    }
  }

  /** `recordings.sort_by(|a, b| b.created_at.cmp(&a.created_at))`. */
  function SortNewestFirst(rs: seq<Recording>): (r: seq<Recording>)
    ensures multiset(r) == multiset(rs)
    ensures NewestFirst(r)
  {
    if |rs| == 0 then []
    else
      assert rs == rs[..|rs| - 1] + [rs[|rs| - 1]];
      InsertNewestFirst(SortNewestFirst(rs[..|rs| - 1]), rs[|rs| - 1]);
      Insert(SortNewestFirst(rs[..|rs| - 1]), rs[|rs| - 1])
  }

  /** `list_recordings`. */
  function ListRecordings(dir: Result<seq<Entry>>): (r: Result<seq<Recording>>)
    ensures dir.Err? ==> r == Err("Failed to read recordings directory: " + dir.error)
  {
    match dir
    case Err(msg) => Err("Failed to read recordings directory: " + msg)
    case Ok(entries) =>
      var found :- Collect(entries);
      Ok(SortNewestFirst(found))
  }

  /** A listing holds one recording per `.pcm` entry, each a `.pcm` file,
      newest first, and is a reordering of the entries in directory order. */
  lemma {:induction false} ListedPcmNewestFirst(entries: seq<Entry>)
    requires ListRecordings(Ok(entries)).Ok?
    ensures var r := ListRecordings(Ok(entries)).value;
      && |r| == |Filter(entries, IsPcm)|
      && NewestFirst(r)
      && multiset(r) == multiset(Collect(entries).value)
      && forall k :: 0 <= k < |r| ==> Paths.NameExtension(r[k].filename) == Some("pcm")
  {
    var c := Collect(entries).value;
    var r := SortNewestFirst(c);
    assert |r| == |multiset(r)| == |multiset(c)| == |c|;
    forall k | 0 <= k < |r| ensures Paths.NameExtension(r[k].filename) == Some("pcm") {
      assert r[k] in multiset(c);
    }
  }

  /** A file is a `.pcm` recording exactly when its name ends in ".pcm"
      after at least one other character; ".pcm" alone is not one. */
  lemma {:induction false} PcmNames(name: string)
    ensures Paths.NameExtension(name) == Some("pcm") <==> EndsWith(name, ".pcm") && |name| > 4
    ensures Paths.NameExtension(".pcm").None?
  {
    Paths.NameExtensionIff(name, "pcm");
    assert ".pcm"[1] != '.' && ".pcm"[2] != '.' && ".pcm"[3] != '.';
  }

  /** A name that could leave the directory. */
  predicate Traverses(name: string) {
    '/' in name || '\\' in name || Contains(name, "..")
  }

  /** What the file system answers about the joined path. */
  datatype Disk = Disk(present: string -> bool, isFile: string -> bool, removeError: string -> Option<string>)

  /** `delete_recording`: the checks in order, then the removal. */
  function DeleteRecording(dir: string, name: string, disk: Disk): (r: Result<()>)
    ensures name == [] ==> r == Err("Filename cannot be empty")
    ensures name != [] && Traverses(name) ==>
      r == Err("Invalid filename '" + name + "': path traversal not allowed")
    ensures r.Ok? <==>
      && name != [] && !Traverses(name)
      && disk.present(Paths.Join(dir, name)) && disk.isFile(Paths.Join(dir, name))
      && disk.removeError(Paths.Join(dir, name)).None?
  {
    if name == [] then Err("Filename cannot be empty")
    else if '/' in name || '\\' in name || Contains(name, "..") then
      Err("Invalid filename '" + name + "': path traversal not allowed")
    else
      var path := Paths.Join(dir, name);
      if !disk.present(path) then Err("Recording '" + name + "' not found in recordings directory")
      else if !disk.isFile(path) then Err("Path '" + name + "' is not a file")
      else match disk.removeError(path)
        case Some(e) => Err("Failed to delete recording '" + name + "' at " + Paths.Debug(path) + ": " + e)
        case None => Ok(())
  }

  /** A traversing or empty name is refused the same way whatever is on
      disk: the file system is not consulted. */
  lemma {:induction false} RejectedBeforeDisk(dir: string, name: string, disk: Disk, other: Disk)
    requires name == [] || Traverses(name)
    ensures DeleteRecording(dir, name, disk) == DeleteRecording(dir, name, other)
    ensures DeleteRecording(dir, name, disk).Err?
  {
  }

  /** A name that passes the checks and is not "." names a file directly
      inside the recordings directory. */
  lemma {:induction false} AcceptedNameStaysInDir(dir: string, name: string)
    requires name != [] && !Traverses(name) && name != "."
    ensures Paths.FileName(Paths.Join(dir, name)) == Some(name)
  {
    if name == ".." { assert At(name, 0, ".."); }
    Paths.FileNameOfJoin(dir, name);
  }
}
