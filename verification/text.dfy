/** String and sequence helpers shared by the model.

    Strings are `seq<char>` (Unicode scalar values, as in Rust's `char` and
    Python's code points). The search functions are generic so that they
    serve both character strings and UTF-8 byte strings. */
module Text {
  import opened Wrappers

  // ---------------------------------------------------------------------
  // Occurrences of a pattern
  // ---------------------------------------------------------------------

  /** `p` occurs in `s` starting at index `i`. */
  predicate At<T(==)>(s: seq<T>, i: int, p: seq<T>) {
    0 <= i && i + |p| <= |s| && s[i..i + |p|] == p
  }

  /** An element of an occurrence is the pattern's element. */
  lemma {:induction false} AtIndex<T>(s: seq<T>, i: int, p: seq<T>, k: nat)
    requires At(s, i, p) && k < |p|
    ensures s[i + k] == p[k]
  {
    assert s[i..i + |p|][k] == s[i + k];
  }

  /** An occurrence, if there is one, has the pattern's elements. */
  lemma {:induction false} AtImplies<T>(s: seq<T>, i: int, p: seq<T>, k: nat)
    ensures At(s, i, p) && k < |p| ==> s[i + k] == p[k]
  {
    if At(s, i, p) && k < |p| {
      AtIndex(s, i, p, k);
    }
  }

  /** No occurrence of the element `c` between `a` and `b` means `c` is not
      in that slice. */
  lemma {:induction false} NotAtNotIn<T>(s: seq<T>, a: nat, b: nat, c: T)
    requires a <= b <= |s| && forall k :: a <= k < b ==> !At(s, k, [c])
    ensures c !in s[a..b]
  {
    forall k | a <= k < b ensures s[k] != c {
      assert At(s, k, [s[k]]) by { assert s[k..k + 1] == [s[k]]; }
    }
    assert forall m :: 0 <= m < b - a ==> s[a..b][m] == s[a + m];
  }

  /** The first occurrence of `p` in `s` at an index `>= i` (Rust `find`). */
  function FindFrom<T(==)>(s: seq<T>, p: seq<T>, i: nat): (r: Option<nat>)
    decreases |s| - i
    ensures r.Some? ==> i <= r.value && At(s, r.value, p)
    ensures r.Some? ==> forall j :: i <= j < r.value ==> !At(s, j, p)
    ensures r.None? ==> forall j :: i <= j ==> !At(s, j, p)
  {
    if i + |p| > |s| then None
    else if At(s, i, p) then Some(i)
    else FindFrom(s, p, i + 1)
  }

  function Find<T(==)>(s: seq<T>, p: seq<T>): (r: Option<nat>)
    ensures r.Some? ==> At(s, r.value, p) && forall j :: 0 <= j < r.value ==> !At(s, j, p)
    ensures r.None? ==> forall j :: !At(s, j, p)
  {
    FindFrom(s, p, 0)
  }

  /** `find` of a single element gives its first position. */
  lemma {:induction false} FindIsFirst<T>(s: seq<T>, c: T, k: nat)
    requires k < |s| && s[k] == c && forall j :: 0 <= j < k ==> s[j] != c
    ensures Find(s, [c]) == Some(k)
  {
    assert At(s, k, [c]) by { assert s[k..k + 1] == [c]; }
    var r := Find(s, [c]);
    AtIndex(s, r.value, [c], 0);
  }

  /** The last occurrence of `p` in `s` at an index `<= i`. */
  function RFindAtOrBelow<T(==)>(s: seq<T>, p: seq<T>, i: int): (r: Option<nat>)
    decreases i + 1
    ensures r.Some? ==> r.value <= i && At(s, r.value, p)
    ensures r.Some? ==> forall j :: r.value < j <= i ==> !At(s, j, p)
    ensures r.None? ==> forall j :: j <= i ==> !At(s, j, p)
  {
    if i < 0 then None
    else if At(s, i, p) then Some(i)
    else RFindAtOrBelow(s, p, i - 1)
  }

  /** The last occurrence of `p` in `s` (Rust `rfind`). */
  function RFind<T(==)>(s: seq<T>, p: seq<T>): (r: Option<nat>)
    ensures r.Some? ==> At(s, r.value, p) && forall j :: r.value < j ==> !At(s, j, p)
    ensures r.None? ==> forall j :: !At(s, j, p)
  {
    RFindAtOrBelow(s, p, |s| - |p|)
  }

  /** `rfind` of a single element gives its last position. */
  lemma {:induction false} RFindIsLast<T>(s: seq<T>, c: T, k: nat)
    requires k < |s| && s[k] == c && forall j :: k < j < |s| ==> s[j] != c
    ensures RFind(s, [c]) == Some(k)
  {
    assert At(s, k, [c]) by { assert s[k..k + 1] == [c]; }
    var r := RFind(s, [c]);
    AtIndex(s, r.value, [c], 0);
  }


  predicate Contains<T(==)>(s: seq<T>, p: seq<T>) {
    Find(s, p).Some?
  }

  lemma {:induction false} ContainsAt<T>(s: seq<T>, p: seq<T>, i: int)
    requires At(s, i, p)
    ensures Contains(s, p)
  {
  }

  lemma {:induction false} ContainsMiddle<T>(a: seq<T>, x: seq<T>, b: seq<T>)
    ensures Contains(a + x + b, x)
  {
    assert (a + x + b)[|a|..|a| + |x|] == x;
    ContainsAt(a + x + b, x, |a|);
  }

  /** A pattern holding an element the text lacks does not occur in it. */
  lemma {:induction false} AbsentNotContained<T>(s: seq<T>, p: seq<T>, c: T)
    requires c in p && c !in s
    ensures !Contains(s, p)
  {
    forall j | 0 <= j && j + |p| <= |s| ensures !At(s, j, p) {
      assert c !in s[j..j + |p|];
    }
  }

  /** An occurrence of a pattern is an occurrence of each of its prefixes. */
  lemma {:induction false} AtPrefix<T>(s: seq<T>, i: int, p: seq<T>, n: nat)
    requires At(s, i, p) && n <= |p|
    ensures At(s, i, p[..n])
  {
    assert s[i..i + n] == s[i..i + |p|][..n];
  }

  predicate StartsWith<T(==)>(s: seq<T>, p: seq<T>) {
    |p| <= |s| && s[..|p|] == p
  }

  predicate EndsWith<T(==)>(s: seq<T>, p: seq<T>) {
    |p| <= |s| && s[|s| - |p|..] == p
  }

  /** `s` with one leading `p` removed, when present (Rust `strip_prefix`). */
  function StripPrefix<T(==)>(s: seq<T>, p: seq<T>): (r: Option<seq<T>>)
    ensures r.Some? <==> StartsWith(s, p)
    ensures r.Some? ==> p + r.value == s
  {
    if StartsWith(s, p) then Some(s[|p|..]) else None
  }

  /** `s` with every leading copy of `p` removed (Rust `trim_start_matches`). */
  function TrimStartMatches<T(==)>(s: seq<T>, p: seq<T>): (r: seq<T>)
    ensures EndsWith(s, r)
    ensures p != [] ==> !StartsWith(r, p)
    ensures p == [] || !StartsWith(s, p) ==> r == s
    decreases |s|
  {
    if p != [] && StartsWith(s, p) then
      var r := TrimStartMatches(s[|p|..], p);
      assert s[|s| - |r|..] == s[|p|..][|s| - |p| - |r|..];
      r
    else s
  }

  /** `s` with every trailing copy of `p` removed (Rust `trim_end_matches`). */
  function TrimEndMatches<T(==)>(s: seq<T>, p: seq<T>): (r: seq<T>)
    ensures StartsWith(s, r)
    ensures p != [] ==> !EndsWith(r, p)
    ensures p == [] || !EndsWith(s, p) ==> r == s
    decreases |s|
  {
    if p != [] && EndsWith(s, p) then
      var r := TrimEndMatches(s[..|s| - |p|], p);
      assert s[..|r|] == s[..|s| - |p|][..|r|];
      r
    else s
  }

  /** One leading `p` in front of a text that does not start with `p` is
      removed, and nothing more. */
  lemma {:induction false} TrimStartOnce<T>(p: seq<T>, t: seq<T>)
    requires p != [] && !StartsWith(t, p)
    ensures TrimStartMatches(p + t, p) == t
  {
    assert StartsWith(p + t, p);
    assert (p + t)[|p|..] == t;
  }

  /** One trailing `p` after a text that does not end with `p` is removed,
      and nothing more. */
  lemma {:induction false} TrimEndOnce<T>(t: seq<T>, p: seq<T>)
    requires p != [] && !EndsWith(t, p)
    ensures TrimEndMatches(t + p, p) == t
  {
    assert EndsWith(t + p, p);
    assert (t + p)[..|t|] == t;
  }

  /** `s` with one trailing `p` removed, when present (Rust `strip_suffix`). */
  function StripSuffix<T(==)>(s: seq<T>, p: seq<T>): (r: Option<seq<T>>)
    ensures r.Some? <==> EndsWith(s, p)
    ensures r.Some? ==> r.value + p == s
  {
    if EndsWith(s, p) then Some(s[..|s| - |p|]) else None
  }

  // ---------------------------------------------------------------------
  // Whitespace and trimming
  // ---------------------------------------------------------------------

  /** The Unicode White_Space property, as used by Rust's `trim`. */
  predicate IsWhitespace(c: char) {
    c == ' ' || c == '\t' || c == '\n' || c == '\r' || c == '\U{000B}' || c == '\U{000C}'
    || c == '\U{0085}' || c == '\U{00A0}' || c == '\U{1680}'
    || ('\U{2000}' <= c <= '\U{200A}')
    || c == '\U{2028}' || c == '\U{2029}' || c == '\U{202F}' || c == '\U{205F}' || c == '\U{3000}'
  }

  /** Removes the leading characters for which `drop` holds. */
  function StripStartBy(s: string, drop: char -> bool): (r: string)
    ensures |r| <= |s|
    ensures r == [] || !drop(r[0])
    ensures forall i :: 0 <= i < |s| - |r| ==> drop(s[i])
  {
    if |s| > 0 && drop(s[0]) then StripStartBy(s[1..], drop) else s
  }

  /** What `StripStartBy` keeps is a suffix of its input. */
  lemma {:induction false} StripStartBySuffix(s: string, drop: char -> bool)
    ensures var r := StripStartBy(s, drop); r == s[|s| - |r|..]
  {
    if |s| > 0 && drop(s[0]) {
      StripStartBySuffix(s[1..], drop);
      var r := StripStartBy(s[1..], drop);
      assert s[1..][|s| - 1 - |r|..] == s[|s| - |r|..];
    }
  }

  /** Removes the trailing characters for which `drop` holds. */
  function StripEndBy(s: string, drop: char -> bool): (r: string)
    ensures |r| <= |s|
    ensures r == [] || !drop(r[|r| - 1])
    ensures forall i :: |r| <= i < |s| ==> drop(s[i])
  {
    if |s| > 0 && drop(s[|s| - 1]) then StripEndBy(s[..|s| - 1], drop) else s
  }

  /** What `StripEndBy` keeps is a prefix of its input. */
  lemma {:induction false} StripEndByPrefix(s: string, drop: char -> bool)
    ensures var r := StripEndBy(s, drop); r == s[..|r|]
  {
    if |s| > 0 && drop(s[|s| - 1]) {
      StripEndByPrefix(s[..|s| - 1], drop);
      var r := StripEndBy(s[..|s| - 1], drop);
      assert s[..|s| - 1][..|r|] == s[..|r|];
    }
  }

  /** Removes the leading and trailing characters for which `drop` holds. */
  function StripBy(s: string, drop: char -> bool): string {
    StripEndBy(StripStartBy(s, drop), drop)
  }

  /** Stripping keeps a contiguous middle part and removes only characters
      that `drop` selects. */
  lemma {:induction false} StripBySlice(s: string, drop: char -> bool)
    ensures var r := StripBy(s, drop); var a := |s| - |StripStartBy(s, drop)|;
      && a + |r| <= |s| && r == s[a..a + |r|]
      && (forall i :: 0 <= i < a ==> drop(s[i]))
      && (forall i :: a + |r| <= i < |s| ==> drop(s[i]))
      && (r == [] || (!drop(r[0]) && !drop(r[|r| - 1])))
  {
    StripStartBySuffix(s, drop);
    StripEndByPrefix(StripStartBy(s, drop), drop);
  }

  /** Stripping a stripped string changes nothing. */
  lemma {:induction false} StripByIdempotent(s: string, drop: char -> bool)
    ensures StripBy(StripBy(s, drop), drop) == StripBy(s, drop)
  {
    var r := StripBy(s, drop);
    StripBySlice(s, drop);
    StripByKeeps(r, drop);
  }

  /** A string that starts and ends with kept characters is left alone. */
  lemma {:induction false} StripByKeeps(s: string, drop: char -> bool)
    requires s == [] || (!drop(s[0]) && !drop(s[|s| - 1]))
    ensures StripBy(s, drop) == s
  {
    assert StripStartBy(s, drop) == s;
    assert StripEndBy(s, drop) == s;
  }

  /** Trimming a text padded by one whitespace character on each side
      gives the text back when its own ends are not whitespace. */
  lemma {:induction false} TrimPadded(a: char, body: string, b: char)
    requires IsWhitespace(a) && IsWhitespace(b)
    requires body != [] && !IsWhitespace(body[0]) && !IsWhitespace(body[|body| - 1])
    ensures Trim([a] + body + [b]) == body
  {
    var s := [a] + body + [b];
    assert s[1..] == body + [b];
    assert StripStartBy(s, IsWhitespace) == body + [b];
    assert (body + [b])[..|body|] == body;
    assert StripEndBy(body + [b], IsWhitespace) == body;
  }

  /** Trimming a line that ends in a newline gives the line back when its
      own ends are not whitespace. */
  lemma {:induction false} TrimLine(body: string)
    requires body != [] && !IsWhitespace(body[0]) && !IsWhitespace(body[|body| - 1])
    ensures Trim(body + "\n") == body
  {
    var s := body + "\n";
    assert StripStartBy(s, IsWhitespace) == s;
    assert s[..|body|] == body;
    assert StripEndBy(s, IsWhitespace) == body;
  }

  /** Rust `str::trim`. */
  function Trim(s: string): string {
    StripBy(s, IsWhitespace)
  }

  /** Only whitespace (Rust `s.trim().is_empty()`). */
  predicate IsBlank(s: string) {
    forall i :: 0 <= i < |s| ==> IsWhitespace(s[i])
  }

  lemma {:induction false} TrimEmptyIffBlank(s: string)
    ensures Trim(s) == [] <==> IsBlank(s)
  {
    StripBySlice(s, IsWhitespace);
  }

  /** Trimming a string without surrounding whitespace changes nothing. */
  lemma {:induction false} TrimIdentity(s: string)
    requires s == [] || (!IsWhitespace(s[0]) && !IsWhitespace(s[|s| - 1]))
    ensures Trim(s) == s
  {
  }

  /** Removes every leading and trailing character of the set `cs`
      (Python `str.strip(chars)`, Rust `trim_matches`). */
  function StripChars(s: string, cs: set<char>): string {
    StripBy(s, InSet(cs))
  }

  /** Membership in `cs`, as a predicate value. */
  function InSet(cs: set<char>): char -> bool {
    c => c in cs
  }

  /** Every occurrence of `a` replaced by `b` (`str.replace` on a single
      character). */
  function ReplaceChar(s: string, a: char, b: char): (r: string)
    ensures |r| == |s|
    ensures forall i :: 0 <= i < |s| ==> r[i] == if s[i] == a then b else s[i]
  {
    if |s| == 0 then [] else [if s[0] == a then b else s[0]] + ReplaceChar(s[1..], a, b)
  }

  /** The non-empty strings of `xs`, in order. */
  function NonEmpty(xs: seq<string>): (r: seq<string>)
    ensures |r| <= |xs|
    ensures forall i :: 0 <= i < |r| ==> r[i] != [] && r[i] in xs
    ensures forall x :: x in xs && x != [] ==> x in r
  {
    if |xs| == 0 then []
    else if xs[0] == [] then NonEmpty(xs[1..])
    else [xs[0]] + NonEmpty(xs[1..])
  }

  /** Replacing the one occurrence of `a` in `u + [a] + v`. */
  lemma {:induction false} ReplaceCharOnce(u: string, v: string, a: char, b: char)
    requires a !in u && a !in v
    ensures ReplaceChar(u + [a] + v, a, b) == u + [b] + v
  {
    var s := u + [a] + v;
    var r := ReplaceChar(s, a, b);
    forall i | 0 <= i < |s| ensures r[i] == (u + [b] + v)[i] {
      if i < |u| { assert s[i] == u[i]; }
      else if i > |u| { assert s[i] == v[i - |u| - 1]; }
    }
  }

  /** A list with no empty string is left alone. */
  lemma {:induction false} NonEmptyKeepsNonEmpty(xs: seq<string>)
    requires forall i :: 0 <= i < |xs| ==> xs[i] != []
    ensures NonEmpty(xs) == xs
    decreases |xs|
  {
    if |xs| > 0 {
      NonEmptyKeepsNonEmpty(xs[1..]);
      assert xs == [xs[0]] + xs[1..];
    }
  }

  // ---------------------------------------------------------------------
  // Splitting and joining
  // ---------------------------------------------------------------------

  /** Concatenation of all parts. */
  function Concat<T>(parts: seq<seq<T>>): (r: seq<T>)
  {
    if |parts| == 0 then [] else parts[0] + Concat(parts[1..])
  }

  lemma {:induction false} ConcatAppend<T>(a: seq<seq<T>>, b: seq<seq<T>>)
    ensures Concat(a + b) == Concat(a) + Concat(b)
  {
    if |a| > 0 {
      assert (a + b)[1..] == a[1..] + b;
      ConcatAppend(a[1..], b);
    } else {
      assert a + b == b;
    }
  }

  lemma {:induction false} AppendAssoc<T>(a: seq<T>, b: seq<T>, c: seq<T>)
    ensures a + (b + c) == (a + b) + c
  {
  }

  /** Every part occurs in the concatenation. */
  lemma {:induction false} ConcatHas<T>(parts: seq<seq<T>>, k: nat)
    requires k < |parts|
    ensures Contains(Concat(parts), parts[k])
  {
    assert parts == parts[..k] + parts[k..];
    ConcatAppend(parts[..k], parts[k..]);
    assert parts[k..][1..] == parts[k + 1..];
    assert Concat(parts[k..]) == parts[k] + Concat(parts[k + 1..]);
    AppendAssoc(Concat(parts[..k]), parts[k], Concat(parts[k + 1..]));
    ContainsMiddle(Concat(parts[..k]), parts[k], Concat(parts[k + 1..]));
  }

  lemma {:induction false} Concat3<T>(a: seq<T>, b: seq<T>, c: seq<T>)
    ensures Concat([a, b, c]) == a + b + c
  {
    assert [a, b, c][1..] == [b, c];
    assert [b, c][1..] == [c];
    assert [c][1..] == [];
    assert Concat([c]) == c;
    assert Concat([b, c]) == b + c;
  }

  /** `a + b + c` opens with `a`, holds `b` right after it and closes
      with `c`. */
  lemma {:induction false} Framed<T>(a: seq<T>, b: seq<T>, c: seq<T>)
    ensures StartsWith(a + b + c, a) && At(a + b + c, |a|, b) && EndsWith(a + b + c, c)
  {
    var s := a + b + c;
    assert s[..|a|] == a;
    assert s[|a|..|a| + |b|] == b;
    assert s[|s| - |c|..] == c;
  }

  /** The concatenation opens with the concatenation of its first `n` parts. */
  lemma {:induction false} ConcatStarts<T>(parts: seq<seq<T>>, n: nat)
    requires n <= |parts|
    ensures StartsWith(Concat(parts), Concat(parts[..n]))
  {
    assert parts == parts[..n] + parts[n..];
    ConcatAppend(parts[..n], parts[n..]);
  }

  /** The concatenation closes with its last part. */
  lemma {:induction false} ConcatEnds<T>(parts: seq<seq<T>>)
    requires |parts| > 0
    ensures EndsWith(Concat(parts), parts[|parts| - 1])
  {
    var n := |parts| - 1;
    assert parts == parts[..n] + [parts[n]];
    ConcatAppend(parts[..n], [parts[n]]);
    assert Concat([parts[n]]) == parts[n] + Concat<T>([]);
  }

  /** The parts separated by `sep` (Rust `join`, Python `str.join`). */
  function Join<T>(parts: seq<seq<T>>, sep: seq<T>): seq<T>
  {
    if |parts| == 0 then []
    else if |parts| == 1 then parts[0]
    else parts[0] + sep + Join(parts[1..], sep)
  }

  /** The joined text opens with the first part. */
  lemma {:induction false} JoinStarts<T>(parts: seq<seq<T>>, sep: seq<T>)
    requires |parts| > 0
    ensures StartsWith(Join(parts, sep), parts[0])
  {
  }

  /** Every part occurs in the joined text. */
  lemma {:induction false} JoinHas<T>(parts: seq<seq<T>>, sep: seq<T>, k: nat)
    requires k < |parts|
    ensures Contains(Join(parts, sep), parts[k])
    decreases |parts|
  {
    var s := Join(parts, sep);
    if |parts| == 1 {
      assert At(s, 0, parts[0]) by { assert s[0..|parts[0]|] == parts[0]; }
    } else if k == 0 {
      assert At(s, 0, parts[0]) by { assert s[0..|parts[0]|] == parts[0]; }
    } else {
      var rest := Join(parts[1..], sep);
      JoinHas(parts[1..], sep, k - 1);
      var i := Find(rest, parts[k]).value;
      var o := |parts[0]| + |sep|;
      assert s == (parts[0] + sep) + rest;
      assert s[o + i..o + i + |parts[k]|] == rest[i..i + |parts[k]|];
      ContainsAt(s, parts[k], o + i);
    }
  }

  /** An occurrence of a text is an occurrence of each of its prefixes. */
  lemma {:induction false} ContainsPrefix<T>(s: seq<T>, p: seq<T>, q: seq<T>)
    requires Contains(s, p) && StartsWith(p, q)
    ensures Contains(s, q)
  {
    AtPrefix(s, Find(s, p).value, p, |q|);
    ContainsAt(s, q, Find(s, p).value);
  }

  /** `s.split(sep).next()`: the text before the first `sep`. */
  function FirstPiece(s: string, sep: string): (r: string)
    requires |sep| > 0
    ensures StartsWith(s, r)
    ensures !Contains(r, sep)
    ensures |r| < |s| ==> At(s, |r|, sep)
  {
    match Find(s, sep)
    case None => s
    case Some(i) =>
      forall j | 0 <= j && j + |sep| <= i ensures !At(s[..i], j, sep) {
        assert !At(s, j, sep);
        assert s[..i][j..j + |sep|] == s[j..j + |sep|];
      }
      s[..i]
  }

  /** The text before the first `c` of `w + [c] + rest` is `w`. */
  lemma {:induction false} FirstPieceBefore(w: string, c: char, rest: string)
    requires c !in w
    ensures FirstPiece(w + [c] + rest, [c]) == w
  {
    var s := w + [c] + rest;
    assert At(s, |w|, [c]) by { assert s[|w|..|w| + 1] == [c]; }
    forall j | 0 <= j < |w| ensures !At(s, j, [c]) {
      assert s[j..j + 1] == [w[j]];
    }
  }

  /** A string without `c` is its own first piece. */
  lemma {:induction false} FirstPieceWhole(s: string, c: char)
    requires c !in s
    ensures FirstPiece(s, [c]) == s
  {
    forall j | 0 <= j < |s| ensures !At(s, j, [c]) {
      assert s[j..j + 1] == [s[j]];
    }
  }

  /** A string not containing `[c]` does not contain `c`. */
  lemma {:induction false} NoCharPiece(s: string, c: char)
    requires !Contains(s, [c])
    ensures c !in s
  {
    forall j | 0 <= j < |s| ensures s[j] != c {
      assert !At(s, j, [c]);
      assert s[j..j + 1] == [s[j]];
    }
  }

  /** Splits on every occurrence of `c` (Rust `split(c)`, Python `split(c)`):
      never empty, and no piece contains the separator. */
  function Split(s: string, c: char): (r: seq<string>)
    ensures |r| >= 1
    ensures forall i :: 0 <= i < |r| ==> c !in r[i]
  {
    var k := Find(s, [c]);
    if k.None? then
      assert forall j :: 0 <= j < |s| ==> !At(s, j, [c]);
      assert forall j :: 0 <= j < |s| ==> s[j] != c by {
        forall j | 0 <= j < |s| ensures s[j] != c {
          assert !At(s, j, [c]);
          assert s[j..j + 1] == [s[j]];
        }
      }
      [s]
    else
      assert forall j :: 0 <= j < k.value ==> s[j] != c by {
        forall j | 0 <= j < k.value ensures s[j] != c {
          assert !At(s, j, [c]);
          assert s[j..j + 1] == [s[j]];
        }
      }
      [s[..k.value]] + Split(s[k.value + 1..], c)
  }

  /** A string without the separator splits into itself. */
  lemma {:induction false} SplitWithoutSeparator(s: string, c: char)
    requires c !in s
    ensures Split(s, c) == [s]
  {
    forall j | 0 <= j < |s| ensures !At(s, j, [c]) {
      assert s[j..j + 1] == [s[j]];
    }
  }

  /** Joining the pieces of a split with the separator restores the input. */
  lemma {:induction false} SplitJoin(s: string, c: char)
    ensures Join(Split(s, c), [c]) == s
    decreases |s|
  {
    var k := Find(s, [c]);
    if k.Some? {
      var i := k.value;
      var rest := Split(s[i + 1..], c);
      SplitJoin(s[i + 1..], c);
      assert s[i..i + 1] == [c];
      assert Split(s, c) == [s[..i]] + rest;
      assert s == s[..i] + [c] + s[i + 1..];
    }
  }

  /** A piece before the first separator splits off whole. */
  lemma {:induction false} SplitCons(a: string, c: char, rest: string)
    requires c !in a
    ensures Split(a + [c] + rest, c) == [a] + Split(rest, c)
  {
    var s := a + [c] + rest;
    assert s[|a|..|a| + 1] == [c];
    forall j | 0 <= j < |a| ensures !At(s, j, [c]) {
      assert s[j] == a[j];
      assert s[j..j + 1] == [a[j]];
    }
    assert At(s, |a|, [c]);
    assert Find(s, [c]) == Some(|a|);
    assert s[..|a|] == a && s[|a| + 1..] == rest;
  }

  /** Splitting at one separator splits each side on its own. */
  lemma {:induction false} SplitAppend(a: string, c: char, b: string)
    ensures Split(a + [c] + b, c) == Split(a, c) + Split(b, c)
    decreases |a|
  {
    var k := Find(a, [c]);
    if k.None? {
      NoCharPiece(a, c);
      SplitCons(a, c, b);
      SplitWithoutSeparator(a, c);
    } else {
      var i := k.value;
      var a1, a2 := a[..i], a[i + 1..];
      assert a[i..i + 1] == [c];
      assert c !in a1 by {
        forall j | 0 <= j < i ensures a1[j] != c {
          assert !At(a, j, [c]);
          assert a[j..j + 1] == [a1[j]];
        }
      }
      assert a == a1 + [c] + a2;
      assert a + [c] + b == a1 + [c] + (a2 + [c] + b);
      SplitCons(a1, c, a2 + [c] + b);
      SplitCons(a1, c, a2);
      SplitAppend(a2, c, b);
      AppendAssoc([a1], Split(a2, c), Split(b, c));
    }
  }

  /** Each line followed by a line feed. */
  function Terminated(ls: seq<string>): (r: string)
    ensures |r| >= |ls|
  {
    if ls == [] then [] else ls[0] + "\n" + Terminated(ls[1..])
  }

  /** Splitting terminated lines gives the lines and a final empty piece. */
  lemma {:induction false} SplitTerminated(ls: seq<string>)
    requires forall i :: 0 <= i < |ls| ==> '\n' !in ls[i]
    ensures Split(Terminated(ls), '\n') == ls + [""]
  {
    if ls == [] {
      assert Find("", ['\n']).None?;
    } else {
      SplitTerminated(ls[1..]);
      SplitCons(ls[0], '\n', Terminated(ls[1..]));
      assert ls == [ls[0]] + ls[1..];
    }
  }

  /** One trailing carriage return removed. */
  function ChompCr(l: string): (r: string)
    ensures r == l || r + "\r" == l
    ensures |l| > 0 && l[|l| - 1] == '\r' ==> r + "\r" == l
    ensures l == [] || l[|l| - 1] != '\r' ==> r == l
  {
    if |l| > 0 && l[|l| - 1] == '\r' then l[..|l| - 1] else l
  }

  /** Rust `str::lines`: the pieces between line feeds, without a final
      empty piece, each without one trailing carriage return. The last
      piece loses a bare trailing '\r' even when no line feed follows it;
      Rust keeps that one. No caller here can tell the difference: each
      trims whatever it keeps of a line, and '\r' is white space. */
  function Lines(s: string): (r: seq<string>)
    ensures forall i :: 0 <= i < |r| ==> '\n' !in r[i]
    ensures |r| <= |s|
  {
    var pieces := Split(s, '\n');
    var kept := Kept(pieces);
    assert |kept| <= |s| by {
      SplitJoin(s, '\n');
      LinesBound(pieces);
    }
    assert forall i :: 0 <= i < |kept| ==> '\n' !in kept[i];
    ChompedKeepsOut(kept, '\n');
    Chomped(kept)
  }

  /** Chomping a carriage return brings in no character. */
  lemma {:induction false} ChompedKeepsOut(ls: seq<string>, c: char)
    requires forall i :: 0 <= i < |ls| ==> c !in ls[i]
    ensures forall i :: 0 <= i < |Chomped(ls)| ==> c !in Chomped(ls)[i]
  {
    forall i | 0 <= i < |ls| ensures c !in ChompCr(ls[i]) {
      var l := ls[i];
      if l != [] && l[|l| - 1] == '\r' {
        assert forall k :: 0 <= k < |l| - 1 ==> ChompCr(l)[k] == l[k];
      }
    }
  }

  /** The pieces without a final empty one. */
  function Kept(pieces: seq<string>): (r: seq<string>)
    requires |pieces| >= 1
    ensures r == pieces || r == pieces[..|pieces| - 1]
  {
    if pieces[|pieces| - 1] == [] then pieces[..|pieces| - 1] else pieces
  }

  /** Joined pieces are at least one shorter than the pieces, unless the
      last one is non-empty. */
  lemma {:induction false} LinesBound(pieces: seq<string>)
    requires |pieces| >= 1
    ensures |Join(pieces, "\n")| >= |pieces| - 1
    ensures pieces[|pieces| - 1] != [] ==> |Join(pieces, "\n")| >= |pieces|
  {
    if |pieces| > 1 {
      LinesBound(pieces[1..]);
    }
  }

  /** Lines ended by line feeds, none ending in a carriage return, are read
      back as written. */
  lemma {:induction false} LinesOfTerminated(ls: seq<string>)
    requires forall i :: 0 <= i < |ls| ==> '\n' !in ls[i]
    requires forall i :: 0 <= i < |ls| ==> ls[i] == [] || ls[i][|ls[i]| - 1] != '\r'
    ensures Lines(Terminated(ls)) == ls
  {
    SplitTerminated(ls);
    var pieces := Split(Terminated(ls), '\n');
    assert pieces[|pieces| - 1] == [];
    assert pieces[..|pieces| - 1] == ls;
    var r := Lines(Terminated(ls));
    assert |r| == |ls|;
    forall i | 0 <= i < |ls| ensures r[i] == ls[i] {
      assert r[i] == ChompCr(ls[i]);
    }
  }

  /** Rust `lines` on terminated lines gives each line less one trailing
      carriage return. */
  lemma {:induction false} LinesOfTerminatedChomped(ls: seq<string>)
    requires forall i :: 0 <= i < |ls| ==> '\n' !in ls[i]
    ensures Lines(Terminated(ls)) == seq(|ls|, i requires 0 <= i < |ls| => ChompCr(ls[i]))
  {
    SplitTerminated(ls);
    var pieces := Split(Terminated(ls), '\n');
    assert pieces[|pieces| - 1] == [];
    assert pieces[..|pieces| - 1] == ls;
  }

  /** Each line less one trailing carriage return. */
  function Chomped(ls: seq<string>): (r: seq<string>)
    ensures |r| == |ls| && forall i :: 0 <= i < |ls| ==> r[i] == ChompCr(ls[i])
  {
    seq(|ls|, i requires 0 <= i < |ls| => ChompCr(ls[i]))
  }

  lemma {:induction false} TerminatedCons(ls: seq<string>, rest: string)
    requires ls != []
    ensures Terminated(ls) + rest == ls[0] + ['\n'] + (Terminated(ls[1..]) + rest)
  {
  }

  lemma {:induction false} ConsTail<T>(s: seq<T>, t: seq<T>)
    requires s != []
    ensures [s[0]] + (s[1..] + t) == s + t
  {
  }

  /** Terminated lines in front of any text split off whole. */
  lemma {:induction false} SplitTerminatedAppend(ls: seq<string>, rest: string)
    requires forall i :: 0 <= i < |ls| ==> '\n' !in ls[i]
    ensures Split(Terminated(ls) + rest, '\n') == ls + Split(rest, '\n')
  {
    if ls == [] {
      assert Terminated(ls) + rest == rest;
    } else {
      var tail := Terminated(ls[1..]) + rest;
      TerminatedCons(ls, rest);
      SplitCons(ls[0], '\n', tail);
      SplitTerminatedAppend(ls[1..], rest);
      ConsTail(ls, Split(rest, '\n'));
    }
  }

  /** Rust `lines` reads terminated lines in front of any text as those
      lines, less a trailing carriage return, then the lines of the text. */
  lemma {:induction false} LinesAfterTerminated(ls: seq<string>, rest: string)
    requires forall i :: 0 <= i < |ls| ==> '\n' !in ls[i]
    ensures Lines(Terminated(ls) + rest) == Chomped(ls) + Lines(rest)
  {
    SplitTerminatedAppend(ls, rest);
    var tail := Split(rest, '\n');
    KeptAppend(ls, tail);
    ChompedAppend(ls, Kept(tail));
  }

  lemma {:induction false} KeptAppend(a: seq<string>, b: seq<string>)
    requires |b| >= 1
    ensures Kept(a + b) == a + Kept(b)
  {
    if b[|b| - 1] == [] {
      assert (a + b)[..|a + b| - 1] == a + b[..|b| - 1];
    }
  }

  lemma {:induction false} ChompedAppend(a: seq<string>, b: seq<string>)
    ensures Chomped(a + b) == Chomped(a) + Chomped(b)
  {
  }

  lemma {:induction false} TerminatedAppend(a: seq<string>, b: seq<string>)
    ensures Terminated(a + b) == Terminated(a) + Terminated(b)
  {
    if a != [] {
      TerminatedAppend(a[1..], b);
      assert (a + b)[1..] == a[1..] + b;
    } else {
      assert a + b == b;
    }
  }

  /** Pieces joined by line feeds, with one more at the end, are the pieces
      each terminated. */
  lemma {:induction false} JoinTerminated(ps: seq<string>)
    requires |ps| >= 1
    ensures Join(ps, "\n") + "\n" == Terminated(ps)
  {
    if |ps| > 1 {
      JoinTerminated(ps[1..]);
    }
  }

  /** Every occurrence of `c` replaced by the string `rep` (`str::replace`
      with a character pattern). */
  function ReplaceWith(s: string, c: char, rep: string): (r: string)
    ensures c !in rep ==> c !in r
    ensures c !in s ==> r == s
    ensures |rep| >= 1 ==> |r| >= |s|
  {
    if s == [] then [] else (if s[0] == c then rep else [s[0]]) + ReplaceWith(s[1..], c, rep)
  }

  lemma {:induction false} ReplaceWithAppend(a: string, b: string, c: char, rep: string)
    ensures ReplaceWith(a + b, c, rep) == ReplaceWith(a, c, rep) + ReplaceWith(b, c, rep)
  {
    if a != [] {
      var t := a[1..];
      ReplaceWithAppend(t, b, c, rep);
      assert (a + b)[0] == a[0] && (a + b)[1..] == t + b;
      var h := if a[0] == c then rep else [a[0]];
      AppendAssoc(h, ReplaceWith(t, c, rep), ReplaceWith(b, c, rep));
    } else {
      assert a + b == b;
    }
  }

  // ---------------------------------------------------------------------
  // Characters
  // ---------------------------------------------------------------------

  predicate IsAsciiDigit(c: char) { '0' <= c <= '9' }

  predicate IsAsciiAlpha(c: char) { ('a' <= c <= 'z') || ('A' <= c <= 'Z') }

  predicate IsAsciiAlnum(c: char) { IsAsciiDigit(c) || IsAsciiAlpha(c) }

  function LowerChar(c: char): (r: char)
    ensures 'A' <= c <= 'Z' ==> r as int == c as int + 32
    ensures !('A' <= c <= 'Z') ==> r == c
  {
    if 'A' <= c <= 'Z' then (c as int + 32) as char else c
  }

  /** ASCII lower-casing, character by character (`to_ascii_lowercase`). */
  function Lower(s: string): (r: string)
    ensures |r| == |s|
    ensures forall i :: 0 <= i < |s| ==> r[i] == LowerChar(s[i])
  {
    if |s| == 0 then [] else [LowerChar(s[0])] + Lower(s[1..])
  }

  /** Equality up to ASCII case (`eq_ignore_ascii_case`). */
  predicate EqIgnoreCase(a: string, b: string) {
    Lower(a) == Lower(b)
  }

  lemma {:induction false} LowerIdempotent(s: string)
    ensures Lower(Lower(s)) == Lower(s)
  {
  }

  /** The end of the run of characters satisfying `p` that starts at `i`
      (a greedy `p*`). */
  function SpanEnd(s: string, i: nat, p: char -> bool): (e: nat)
    requires i <= |s|
    ensures i <= e <= |s|
    ensures forall k :: i <= k < e ==> p(s[k])
    ensures e < |s| ==> !p(s[e])
    decreases |s| - i
  {
    if i == |s| || !p(s[i]) then i else SpanEnd(s, i + 1, p)
  }

  // ---------------------------------------------------------------------
  // Numbers
  // ---------------------------------------------------------------------

  function DigitChar(d: nat): char
    requires d < 10
  {
    ('0' as int + d) as char
  }

  /** Decimal rendering of a natural number (Rust `format!("{}", n)`). */
  function NatToString(n: nat): (r: string)
    ensures |r| >= 1
    ensures forall i :: 0 <= i < |r| ==> IsAsciiDigit(r[i])
    decreases n
  {
    if n < 10 then [DigitChar(n)] else NatToString(n / 10) + [DigitChar(n % 10)]
  }

  predicate AllDigits(s: string) {
    forall i :: 0 <= i < |s| ==> IsAsciiDigit(s[i])
  }

  /** Value of a string of decimal digits. */
  function DigitsValue(s: string): nat
    requires AllDigits(s)
  {
    if |s| == 0 then 0 else DigitsValue(s[..|s| - 1]) * 10 + (s[|s| - 1] as int - '0' as int)
  }

  lemma {:induction false} NatToStringRoundTrip(n: nat)
    ensures AllDigits(NatToString(n)) && DigitsValue(NatToString(n)) == n
    decreases n
  {
    var r := NatToString(n);
    if n >= 10 {
      NatToStringRoundTrip(n / 10);
      assert r[..|r| - 1] == NatToString(n / 10);
    }
  }

  /** Rust `s.parse::<u64>()` limited to `bound`: a non-empty string of ASCII
      digits (an optional leading '+' is accepted) whose value is below
      `bound`. */
  function ParseUnsigned(s: string, bound: nat): (r: Option<nat>)
    ensures r.Some? ==> r.value < bound
    ensures r.Some? && AllDigits(s) ==> r.value == DigitsValue(s)
  {
    var digits := if |s| > 0 && s[0] == '+' then s[1..] else s;
    if |digits| == 0 || !AllDigits(digits) then None
    else if DigitsValue(digits) < bound then Some(DigitsValue(digits))
    else None
  }

  function HexDigit(d: nat): (c: char)
    requires d < 16
    ensures d < 10 ==> c == DigitChar(d)
  {
    if d < 10 then DigitChar(d) else ('a' as int + d - 10) as char
  }

  /** `format!("{:08x}", n)` of a `u32`: eight lower-case hex digits, most
      significant first. */
  function Hex8(n: nat): (r: string)
    requires n < 0x1_0000_0000
    ensures |r| == 8
  {
    seq(8, i requires 0 <= i < 8 => HexDigit(n / Pow16(7 - i) % 16))
  }

  function Pow16(k: nat): (r: nat)
    ensures r > 0
  {
    if k == 0 then 1 else 16 * Pow16(k - 1)
  }

  // ---------------------------------------------------------------------
  // Ordering
  // ---------------------------------------------------------------------

  /** Lexicographic order by code point, which is also the byte order of
      the UTF-8 encodings (SQLite's BINARY collation, Rust's `str` order). */
  predicate LexLeq(a: string, b: string)
    decreases |a|
  {
    |a| == 0 || (|b| > 0 && (a[0] < b[0] || (a[0] == b[0] && LexLeq(a[1..], b[1..]))))
  }

  lemma {:induction false} LexRefl(a: string)
    ensures LexLeq(a, a)
    decreases |a|
  {
    if |a| > 0 {
      LexRefl(a[1..]);
    }
  }

  lemma {:induction false} LexTotal(a: string, b: string)
    ensures LexLeq(a, b) || LexLeq(b, a)
    decreases |a|
  {
    if |a| > 0 && |b| > 0 && a[0] == b[0] {
      LexTotal(a[1..], b[1..]);
    }
  }

  lemma {:induction false} LexTrans(a: string, b: string, c: string)
    requires LexLeq(a, b) && LexLeq(b, c)
    ensures LexLeq(a, c)
    decreases |a|
  {
    if |a| > 0 && a[0] == b[0] && b[0] == c[0] {
      LexTrans(a[1..], b[1..], c[1..]);
    }
  }

  lemma {:induction false} LexAntisymmetric(a: string, b: string)
    requires LexLeq(a, b) && LexLeq(b, a)
    ensures a == b
    decreases |a|
  {
    if |a| > 0 {
      LexAntisymmetric(a[1..], b[1..]);
      assert a == [a[0]] + a[1..] && b == [b[0]] + b[1..];
    }
  }

  // ---------------------------------------------------------------------
  // Filtering
  // ---------------------------------------------------------------------

  /** The elements of `s` that satisfy `p`, in order. */
  function Filter<T>(s: seq<T>, p: T -> bool): (r: seq<T>)
    ensures |r| <= |s|
    ensures forall x :: x in r ==> x in s && p(x)
  {
    if |s| == 0 then [] else (if p(s[0]) then [s[0]] else []) + Filter(s[1..], p)
  }

  lemma {:induction false} FilterKeeps<T>(s: seq<T>, p: T -> bool)
    ensures forall x :: x in s && p(x) ==> x in Filter(s, p)
  {
    if |s| > 0 {
      FilterKeeps(s[1..], p);
      assert forall x :: x in s ==> x == s[0] || x in s[1..];
    }
  }
}
