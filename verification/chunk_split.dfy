/** Content chunking shared by the intelligence providers
    (intelligence/utils.rs).

    Content is a UTF-8 byte string; `max` is a byte budget per chunk. Every
    cut is snapped to a character boundary and, inside the last 500 bytes of
    the window, preferably placed after a blank line, then after a newline,
    then after a space. */
module ChunkSplit {
  import opened Wrappers
  import opened Text
  import opened Utf8

  const LF: byte := 10
  const SPACE: byte := 32
  /** Bytes before the window end that are searched for a natural cut. */
  const SEARCH_WINDOW: nat := 500

  /** `snap_to_char_boundary`: the end of the string for an index at or past
      it, otherwise the greatest character boundary at or below the index. */
  function Snap(s: seq<byte>, index: nat): (r: nat)
    decreases index
    ensures index >= |s| ==> r == |s|
    ensures index < |s| ==> r <= index && IsCharBoundary(s, r)
    ensures index < |s| ==> forall k :: r < k <= index ==> !IsCharBoundary(s, k)
  {
    if index >= |s| then |s|
    else if index == 0 || IsCharBoundary(s, index) then index
    else Snap(s, index - 1)
  }

  /** Snapping never moves below a boundary that is at or below the index. */
  lemma {:induction false} SnapAbove(s: seq<byte>, index: nat, b: nat)
    requires b <= index && IsCharBoundary(s, b)
    ensures b <= Snap(s, index)
  {
  }

  /** With a budget of at least four bytes the snapped window end lies
      beyond the window start, since no character is longer than four bytes. */
  lemma {:induction false} SnapProgress(s: seq<byte>, start: nat, max: nat)
    requires Valid(s) && start < |s| && IsCharBoundary(s, start) && max >= 4
    ensures start < Snap(s, start + max)
  {
    var b := NextBoundary(s, start);
    SnapAbove(s, start + max, b);
  }

  /** The byte after an ASCII byte of a valid string is a character boundary. */
  lemma {:induction false} AfterAscii(s: seq<byte>, i: nat)
    requires Valid(s) && i < |s| && s[i] < 0x80
    ensures IsCharBoundary(s, i + 1)
  {
    assert IsCharBoundary(s, i);
    SuffixValid(s, i);
    var t := s[i..];
    assert CharWidth(t) == 1;
    if i + 1 < |s| {
      var u := t[1..];
      assert u[0] == s[i + 1];
      assert CharWidth(u) > 0;
    }
  }

  /** Where the search for a natural cut begins: 500 bytes before the window
      end, but never before the chunk start. */
  function SearchStart(content: seq<byte>, start: nat, end: nat): (ss: nat)
    requires start < end < |content| && IsCharBoundary(content, start)
    ensures start <= ss <= end && IsCharBoundary(content, ss)
  {
    var from := if end > start + SEARCH_WINDOW then end - SEARCH_WINDOW else start;
    SnapAbove(content, from, start);
    Snap(content, from)
  }

  /** The window `content[ss..end]` in which a natural cut is searched. */
  function Window(content: seq<byte>, start: nat, end: nat): seq<byte>
    requires start < end < |content| && IsCharBoundary(content, start)
  {
    content[SearchStart(content, start, end)..end]
  }

  /** Where a natural cut falls in the search window: after its last blank
      line, else after its last newline, else after its last space. */
  function NaturalCut(w: seq<byte>): (r: Option<nat>)
    ensures r.Some? ==> 0 < r.value <= |w| && (w[r.value - 1] == LF || w[r.value - 1] == SPACE)
  {
    match RFind(w, [LF, LF])
    case Some(p) =>
      AtIndex(w, p, [LF, LF], 1);
      Some(p + 2)
    case None =>
      match RFind(w, [LF])
      case Some(p) =>
        AtIndex(w, p, [LF], 0);
        Some(p + 1)
      case None =>
        match RFind(w, [SPACE])
        case Some(p) =>
          AtIndex(w, p, [SPACE], 0);
          Some(p + 1)
        case None => None
  }

  /** The cut point of one chunk: the natural cut of the search window, or
      the (snapped) window end when it has none. */
  function BreakPos(content: seq<byte>, start: nat, end: nat): (r: nat)
    requires Valid(content)
    requires start < end < |content| && IsCharBoundary(content, start) && IsCharBoundary(content, end)
    ensures start < r <= end && IsCharBoundary(content, r)
  {
    var ss := SearchStart(content, start, end);
    var w := content[ss..end];
    match NaturalCut(w)
    case Some(c) =>
      assert content[ss + c - 1] == w[c - 1];
      AfterAscii(content, ss + c - 1);
      ss + c
    case None => end
  }

  /** The cut preference: the last blank line of the search window wins,
      then the last newline, then the last space; with none of them the
      chunk is cut at the window end. */
  lemma {:induction false} CutPreference(content: seq<byte>, start: nat, end: nat)
    requires Valid(content)
    requires start < end < |content| && IsCharBoundary(content, start) && IsCharBoundary(content, end)
    ensures var r := BreakPos(content, start, end);
      var ss := SearchStart(content, start, end); var w := Window(content, start, end);
      && (Contains(w, [LF, LF]) ==>
            At(w, r - 2 - ss, [LF, LF]) && forall j :: r - 2 - ss < j ==> !At(w, j, [LF, LF]))
      && (!Contains(w, [LF, LF]) && Contains(w, [LF]) ==>
            At(w, r - 1 - ss, [LF]) && forall j :: r - 1 - ss < j ==> !At(w, j, [LF]))
      && (!Contains(w, [LF]) && Contains(w, [SPACE]) ==>
            At(w, r - 1 - ss, [SPACE]) && forall j :: r - 1 - ss < j ==> !At(w, j, [SPACE]))
      && (!Contains(w, [LF]) && !Contains(w, [SPACE]) ==> r == end)
  {
    var w := Window(content, start, end);
    if Contains(w, [LF, LF]) {
      var p := Find(w, [LF, LF]).value;
      AtPrefix(w, p, [LF, LF], 1);
      assert [LF, LF][..1] == [LF];
    }
  }

  /** The chunk sizes are fine and the content is preserved. */
  predicate GoodChunks(chunks: seq<seq<byte>>, max: nat) {
    forall i :: 0 <= i < |chunks| ==> |chunks[i]| <= max && Valid(chunks[i])
  }

  /** Where the chunk starting at `start` ends, when the rest does not fit. */
  function NextCut(content: seq<byte>, max: nat, start: nat): (cut: nat)
    requires Valid(content) && max >= 4
    requires start + max < |content| && IsCharBoundary(content, start)
    ensures start < cut <= start + max && IsCharBoundary(content, cut)
  {
    SnapProgress(content, start, max);
    BreakPos(content, start, Snap(content, start + max))
  }

  /** The chunks of `content[start..]`, produced by the loop of
      `split_content` from offset `start` on. */
  function SplitFrom(content: seq<byte>, max: nat, start: nat): (r: seq<seq<byte>>)
    requires Valid(content) && max >= 4
    requires start < |content| && IsCharBoundary(content, start)
    decreases |content| - start
    ensures |r| >= 1 && Concat(r) == content[start..]
    ensures GoodChunks(r, max)
    ensures forall i :: 0 <= i < |r| ==> |r[i]| > 0
    ensures start + max < |content| ==> |r| >= 2
  {
    if start + max >= |content| then
      SuffixValid(content, start);
      [content[start..]]
    else
      var cut := NextCut(content, max, start);
      SliceValid(content, start, cut);
      var rest := SplitFrom(content, max, cut);
      ChunkCons(content, start, cut, rest, max);
      [content[start..cut]] + rest
  }

  /** A good non-empty chunk in front of the good non-empty chunks of the
      rest of the content. */
  lemma {:induction false} ChunkCons(content: seq<byte>, start: nat, cut: nat, rest: seq<seq<byte>>, max: nat)
    requires start < cut <= |content| && cut - start <= max && Valid(content[start..cut])
    requires GoodChunks(rest, max) && forall i :: 0 <= i < |rest| ==> |rest[i]| > 0
    requires Concat(rest) == content[cut..]
    ensures var r := [content[start..cut]] + rest;
      && Concat(r) == content[start..]
      && GoodChunks(r, max) && forall i :: 0 <= i < |r| ==> |r[i]| > 0
  {
    var c := content[start..cut];
    var r := [c] + rest;
    assert r[1..] == rest;
    assert c + content[cut..] == content[start..];
    forall i | 0 < i < |r| ensures r[i] == rest[i - 1] { }
  }

  /** One step of the chunking loop. */
  lemma {:induction false} SplitFromStep(content: seq<byte>, max: nat, start: nat)
    requires Valid(content) && max >= 4
    requires start < |content| && IsCharBoundary(content, start)
    ensures start + max >= |content| ==> SplitFrom(content, max, start) == [content[start..]]
    ensures start + max < |content| ==>
      SplitFrom(content, max, start)
        == [content[start..NextCut(content, max, start)]] + SplitFrom(content, max, NextCut(content, max, start))
  {
  }

  /** `split_content`: one chunk when the content fits, otherwise the chunks
      cut as described above. A budget below four bytes cannot always make
      progress over a multi-byte character, so it is only admitted for
      content that already fits. */
  function SplitContent(content: seq<byte>, max: nat): (r: seq<seq<byte>>)
    requires Valid(content)
    requires |content| <= max || max >= 4
    ensures |r| >= 1 && Concat(r) == content
    ensures |content| <= max ==> r == [content]
    ensures |content| > max ==> |r| >= 2
    ensures GoodChunks(r, max)
  {
    if |content| <= max then
      assert Concat([content]) == content + Concat([]);
      [content]
    else
      SplitFrom(content, max, 0)
  }
}
