/** Slash-separated file-system paths as `std::path::Path` reads them:
    empty components (repeated or trailing separators) and "." components
    carry no name. */
module Paths {
  import opened Wrappers
  import opened Text

  /** The named components of a path, in order. */
  function Components(path: string): (r: seq<string>)
    ensures forall i :: 0 <= i < |r| ==> r[i] != "" && r[i] != "." && '/' !in r[i]
  {
    Named(Split(path, '/'))
  }

  function Named(parts: seq<string>): (r: seq<string>)
    requires forall i :: 0 <= i < |parts| ==> '/' !in parts[i]
    ensures |r| <= |parts|
    ensures forall i :: 0 <= i < |r| ==> r[i] != "" && r[i] != "." && '/' !in r[i] && r[i] in parts
  {
    if |parts| == 0 then []
    else if parts[0] == "" || parts[0] == "." then Named(parts[1..])
    else [parts[0]] + Named(parts[1..])
  }

  /** `Path::file_name`: the last component, absent for the root, an empty
      path, or a path ending in "..". */
  function FileName(path: string): (r: Option<string>)
    ensures r.Some? ==> r.value != "" && r.value != "." && r.value != ".." && '/' !in r.value
    ensures r.Some? <==> |Components(path)| > 0 && Components(path)[|Components(path)| - 1] != ".."
  {
    var cs := Components(path);
    if |cs| == 0 || cs[|cs| - 1] == ".." then None else Some(cs[|cs| - 1])
  }

  /** `Path::join` of a directory and a relative name. */
  function Join(dir: string, name: string): (r: string)
    ensures StartsWith(r, dir) && EndsWith(r, name)
  {
    if |dir| > 0 && dir[|dir| - 1] == '/' then dir + name else dir + "/" + name
  }

  /** A path's file name after joining a plain name to a directory is that
      name. */
  lemma {:induction false} FileNameOfJoin(dir: string, name: string)
    requires name != "" && name != "." && name != ".." && '/' !in name
    ensures FileName(Join(dir, name)) == Some(name)
  {
    var p := Join(dir, name);
    if |dir| > 0 && dir[|dir| - 1] == '/' {
      var prefix := dir[..|dir| - 1];
      assert dir == prefix + "/";
      assert p == prefix + "/" + name;
      SplitLastPiece(prefix, name);
    } else {
      SplitLastPiece(dir, name);
    }
    NamedLast(Split(p, '/'), name);
  }

  /** Splitting `a + "/" + b` where `b` has no separator ends with `b`. */
  lemma {:induction false} SplitLastPiece(a: string, b: string)
    requires '/' !in b
    ensures var ps := Split(a + "/" + b, '/'); |ps| >= 2 && ps[|ps| - 1] == b
    decreases |a|
  {
    var s := a + "/" + b;
    var k := Find(s, ['/']);
    assert At(s, |a|, ['/']) by { assert s[|a|..|a| + 1] == ['/']; }
    assert k.Some? && k.value <= |a|;
    var rest := s[k.value + 1..];
    if k.value == |a| {
      assert rest == b;
      SplitWithoutSeparator(b, '/');
    } else {
      var a' := a[k.value + 1..];
      assert rest == a' + "/" + b;
      SplitLastPiece(a', b);
    }
  }

  /** When the last piece is a name, it is the last named component. */
  lemma {:induction false} NamedLast(parts: seq<string>, name: string)
    requires forall i :: 0 <= i < |parts| ==> '/' !in parts[i]
    requires |parts| >= 1 && parts[|parts| - 1] == name && name != "" && name != "."
    ensures var r := Named(parts); |r| >= 1 && r[|r| - 1] == name
    decreases |parts|
  {
    if |parts| > 1 {
      NamedLast(parts[1..], name);
    }
  }

  /** The empty path has no file name. */
  lemma {:induction false} EmptyHasNoFileName()
    ensures FileName("").None?
  {
    SplitWithoutSeparator("", '/');
  }
  /** `Path::extension` of a file name: the text after its last '.', absent
      when there is no '.' past the first character (".bashrc" has none). */
  function NameExtension(name: string): (r: Option<string>)
    ensures r.Some? ==> '.' !in r.value && EndsWith(name, "." + r.value) && |r.value| + 1 < |name|
    ensures r.None? <==> forall i :: 0 < i < |name| ==> name[i] != '.'
  {
    match RFind(name, ['.'])
    case None =>
      assert forall i :: 0 <= i < |name| ==> name[i] != '.' by {
        forall i | 0 <= i < |name| ensures name[i] != '.' {
          assert name[i] == '.' ==> At(name, i, ['.']);
        }
      }
      None
    case Some(i) =>
      if i == 0 then
        assert forall j :: 0 < j < |name| ==> name[j] != '.' by {
          forall j | 0 < j < |name| ensures name[j] != '.' {
            assert name[j] == '.' ==> At(name, j, ['.']);
          }
        }
        None
      else
        var e := name[i + 1..];
        assert name[i] == '.' by { assert name[i..i + 1] == ['.']; }
        assert '.' !in e by {
          forall k | 0 <= k < |e| ensures e[k] != '.' {
            assert e[k] == '.' ==> At(name, i + 1 + k, ['.']);
          }
        }
        assert name[|name| - |"." + e|..] == "." + e;
        Some(e)
  }

  /** `Path::extension` of a path: that of its file name. */
  function Extension(path: string): Option<string> {
    match FileName(path)
    case None => None
    case Some(name) => NameExtension(name)
  }

  /** A name has extension `ext` (itself dot-free) exactly when it ends in
      "." + `ext` with something before the dot. */
  lemma {:induction false} NameExtensionIff(name: string, ext: string)
    requires '.' !in ext
    ensures NameExtension(name) == Some(ext) <==> EndsWith(name, "." + ext) && |ext| + 1 < |name|
  {
    if EndsWith(name, "." + ext) && |ext| + 1 < |name| {
      var d := |name| - |ext| - 1;
      assert name[d..] == "." + ext;
      assert name[d] == '.';
      assert At(name, d, ['.']) by { assert name[d..d + 1] == ['.']; }
      forall k | d < k < |name| ensures !At(name, k, ['.']) {
        assert name[k] == ext[k - d - 1];
      }
      var i := RFind(name, ['.']);
      assert i == Some(d);
      assert name[d + 1..] == ext;
    }
  }

  /** `{:?}` of a path: the path in double quotes (quotes and backslashes
      inside are not escaped here). */
  function Debug(path: string): (r: string)
    ensures |r| == |path| + 2 && r[1..|r| - 1] == path
  {
    "\"" + path + "\""
  }
}
