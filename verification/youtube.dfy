/** The YouTube scraper: the video id from the URL, then the title, the
    player response and, from it, the channel, description and duration.
    Each regular expression is written out as a scan that finds the match
    the regex engine reports: the leftmost starting index, and at that index
    the alternative and repetition count a backtracking engine tries first.
    Fetching the page is a parameter. */
module YouTube {
  import opened Wrappers
  import opened Text
  import Utf8

  /** `YouTubeGist`. */
  datatype Gist = Gist(url: string, videoId: string, title: string, channel: string,
                       description: string, durationSeconds: nat)

  // ---------------------------------------------------------------------
  // Leftmost match
  // ---------------------------------------------------------------------

  /** The patterns the scraper matches. */
  datatype Pattern = VideoIdPattern | TitlePattern | ChannelPattern | DescriptionPattern | DurationPattern

  /** The character every match of a pattern starts with. */
  function Lead(p: Pattern): char {
    match p
    case VideoIdPattern => 'y'
    case TitlePattern => '<'
    case _ => '"'
  }

  lemma {:induction false} LeadOf(s: string, k: nat, x: string)
    ensures At(s, k, x) && |x| > 0 ==> k < |s| && s[k] == x[0]
  {
    if At(s, k, x) && |x| > 0 {
      assert s[k..k + |x|][0] == s[k];
    }
  }

  /** A pattern at index `k` of `s`, and the group it captures. */
  function MatchAt(p: Pattern, s: string, k: nat): (r: Option<string>)
    ensures r.Some? ==> k < |s| && s[k] == Lead(p)
  {
    match p
    case VideoIdPattern =>
      LeadOf(s, k, WATCH);
      LeadOf(s, k, SHORT);
      VideoIdAt(s, k)
    case TitlePattern =>
      LeadOf(s, k, TITLE_OPEN);
      TitleAt(s, k)
    case ChannelPattern =>
      LeadOf(s, k, CHANNEL_KEY);
      FieldAt(s, CHANNEL_KEY, k)
    case DescriptionPattern =>
      LeadOf(s, k, DESCRIPTION_KEY);
      FieldAt(s, DESCRIPTION_KEY, k)
    case DurationPattern =>
      LeadOf(s, k, DURATION_KEY);
      DurationAt(s, k)
  }

  /** No match starts before the first occurrence of the pattern's lead
      character. */
  lemma {:induction false} NoMatchBefore(p: Pattern, s: string, n: nat)
    requires n <= |s| && forall i :: 0 <= i < n ==> s[i] != Lead(p)
    ensures forall k :: 0 <= k < n ==> MatchAt(p, s, k).None?
  {
  }

  /** The captures of `p` at every index of `s`, end included. */
  function Matches(p: Pattern, s: string): (ms: seq<Option<string>>)
    ensures |ms| == |s| + 1 && forall k :: 0 <= k <= |s| ==> ms[k] == MatchAt(p, s, k)
  {
    seq(|s| + 1, k requires 0 <= k <= |s| => MatchAt(p, s, k))
  }

  /** The first capture present. */
  function FirstSome(ms: seq<Option<string>>): (r: Option<string>)
    ensures r.Some? ==> r in ms
    ensures r.None? <==> forall j :: 0 <= j < |ms| ==> ms[j].None?
  {
    if |ms| == 0 then None
    else if ms[0].Some? then ms[0]
    else FirstSome(ms[1..])
  }

  /** The capture at `k` is the first one when none comes before it. */
  lemma {:induction false} FirstSomeAt(ms: seq<Option<string>>, k: nat)
    requires k < |ms| && ms[k].Some? && forall j :: 0 <= j < k ==> ms[j].None?
    ensures FirstSome(ms) == ms[k]
  {
    if k > 0 {
      FirstSomeAt(ms[1..], k - 1);
    }
  }

  /** `Regex::captures`: the capture of the leftmost match. */
  function Captures(p: Pattern, s: string): (r: Option<string>)
    ensures r.Some? ==> exists k :: 0 <= k <= |s| && MatchAt(p, s, k) == r
    ensures r.None? <==> forall k :: 0 <= k <= |s| ==> MatchAt(p, s, k).None?
  {
    var ms := Matches(p, s);
    assert forall k :: 0 <= k < |ms| ==> ms[k] == MatchAt(p, s, k);
    FirstSome(ms)
  }

  /** The match at `k` is the one reported when nothing matches before it. */
  lemma {:induction false} LeftmostAt(p: Pattern, s: string, k: nat)
    requires k <= |s| && MatchAt(p, s, k).Some?
    requires forall j :: 0 <= j < k ==> MatchAt(p, s, j).None?
    ensures Captures(p, s) == MatchAt(p, s, k)
  {
    FirstSomeAt(Matches(p, s), k);
  }

  // ---------------------------------------------------------------------
  // Video id
  // ---------------------------------------------------------------------

  predicate IdChar(c: char) {
    IsAsciiAlnum(c) || c == '_' || c == '-'
  }

  /** `[a-zA-Z0-9_-]{11}`. */
  predicate IsVideoId(s: string) {
    |s| == 11 && forall k :: 0 <= k < |s| ==> IdChar(s[k])
  }

  const WATCH: string := "youtube.com/watch?"
  const SHORT: string := "youtu.be/"
  const VIDEO_ID_ERROR: string := "Failed to extract video ID from URL: "

  /** The id group at index `p`: the eleven characters there, when they are
      all id characters. A twelfth id character after them does not stop
      the match. */
  function IdAt(url: string, p: nat): (r: Option<string>)
    ensures r.Some? ==> IsVideoId(r.value) && At(url, p, r.value) && Contains(url, r.value)
    ensures r.None? <==> !(p + 11 <= |url| && IsVideoId(url[p..p + 11]))
  {
    if p + 11 <= |url| && IsVideoId(url[p..p + 11]) then
      ContainsAt(url, url[p..p + 11], p);
      Some(url[p..p + 11])
    else None
  }

  /** Where the group `(?:[^&]*&)*` can stop, for a query starting at `q`:
      at `q` itself, or just after any '&' at or after `q`. */
  predicate ParamStart(url: string, q: nat, p: int) {
    p == q || (q < p <= |url| && url[p - 1] == '&')
  }

  /** A parameter `v=` followed by an id at `p`. */
  predicate IdParam(url: string, q: nat, p: int) {
    q <= p && ParamStart(url, q, p) && At(url, p, "v=") && IdAt(url, p + 2).Some?
  }

  /** The greedy group tries the most repetitions first, so among the
      places at or below `p` the id comes from the latest `v=` parameter
      followed by an id. */
  function ParamId(url: string, q: nat, p: int): (r: Option<string>)
    requires p >= q - 1
    decreases p - q + 1
    ensures r.Some? ==> exists k :: (q <= k <= p && IdParam(url, q, k) && IdAt(url, k + 2) == r
      && forall j :: k < j <= p ==> !IdParam(url, q, j))
    ensures r.None? ==> forall k :: q <= k <= p ==> !IdParam(url, q, k)
  {
    if p < q then None
    else if IdParam(url, q, p) then
      assert forall j :: p < j <= p ==> !IdParam(url, q, j);
      IdAt(url, p + 2)
    else
      var r := ParamId(url, q, p - 1);
      assert forall j :: p - 1 < j <= p ==> !IdParam(url, q, j);
      r
  }

  /** The regex at index `s`: the watch alternative first, then the short
      link. */
  function VideoIdAt(url: string, s: nat): (r: Option<string>)
    ensures r.Some? ==> IsVideoId(r.value) && Contains(url, r.value)
    ensures r.Some? ==> At(url, s, WATCH) || At(url, s, SHORT)
  {
    var watch := if At(url, s, WATCH) then ParamId(url, s + |WATCH|, |url|) else None;
    if watch.Some? then watch
    else if At(url, s, SHORT) then IdAt(url, s + |SHORT|)
    else None
  }

  /** `extract_video_id`. */
  function ExtractVideoId(url: string): (r: Result<string>)
    ensures r.Ok? ==> IsVideoId(r.value) && Contains(url, r.value)
    ensures r.Err? ==> r.error == VIDEO_ID_ERROR + url
  {
    match Captures(VideoIdPattern, url)
    case Some(id) => Ok(id)
    case None => Err(VIDEO_ID_ERROR + url)
  }

  /** A URL naming neither form is refused. */
  lemma {:induction false} NoYouTubeMarkerNoId(url: string)
    requires !Contains(url, WATCH) && !Contains(url, SHORT)
    ensures ExtractVideoId(url) == Err(VIDEO_ID_ERROR + url)
  {
    forall k: nat | k <= |url| ensures VideoIdAt(url, k).None? {
      if At(url, k, WATCH) { ContainsAt(url, WATCH, k); }
      if At(url, k, SHORT) { ContainsAt(url, SHORT, k); }
    }
  }

  /** A short link gives the id that follows it. */
  lemma {:induction false} ShortLinkId(pre: string, id: string, post: string)
    requires IsVideoId(id) && 'y' !in pre
    ensures ExtractVideoId(pre + SHORT + id + post) == Ok(id)
  {
    var url := pre + SHORT + id + post;
    var s := |pre|;
    assert url[..s] == pre;
    NoMatchBefore(VideoIdPattern, url, s);
    assert url[s..s + |SHORT|] == SHORT;
    assert url[s + |SHORT|..s + |SHORT| + 11] == id;
    assert WATCH[5] != SHORT[5];
    assert url[s + 5] == url[s..s + |SHORT|][5] == SHORT[5] != WATCH[5];
    assert VideoIdAt(url, s) == Some(id);
    LeftmostAt(VideoIdPattern, url, s);
  }

  /** No id parameter after the query's first, when the query is `v=`, an
      id, and text without "&v=". */
  lemma {:induction false} NoLaterIdParam(url: string, q: nat, id: string, post: string)
    requires q <= |url| && url[q..] == "v=" + id + post
    requires IsVideoId(id) && !Contains(post, "&v=")
    ensures forall p :: q < p <= |url| ==> !IdParam(url, q, p)
  {
    forall p | q < p <= |url| ensures !(url[p - 1] == '&' && At(url, p, "v=")) {
      if p - 1 < q + 13 {
        assert url[p - 1] == url[q..][p - 1 - q] == ("v=" + id)[p - 1 - q];
        if p - 1 - q >= 2 {
          assert url[p - 1] == id[p - 1 - q - 2];
          assert IdChar(id[p - 1 - q - 2]);
        }
      } else if p + 2 <= |url| {
        var j := p - 1 - (q + 13);
        assert url[q + 13..] == post;
        assert url[p - 1..p + 2] == post[j..j + 3];
        assert !At(post, j, "&v=");
        assert url[p - 1..p + 2] == [url[p - 1]] + url[p..p + 2];
      }
    }
  }

  /** A watch URL whose `v` parameter comes first, with no later `&v=`,
      gives that parameter's id. */
  lemma {:induction false} WatchUrlId(pre: string, id: string, post: string)
    requires IsVideoId(id) && 'y' !in pre && !Contains(post, "&v=")
    ensures ExtractVideoId(pre + WATCH + "v=" + id + post) == Ok(id)
  {
    var url := pre + WATCH + "v=" + id + post;
    var s := |pre|;
    var q := s + |WATCH|;
    assert url[..s] == pre;
    NoMatchBefore(VideoIdPattern, url, s);
    assert url[s..q] == WATCH;
    assert url[q..q + 2] == "v=";
    assert url[q + 2..q + 13] == id;
    assert url[q..] == "v=" + id + post;
    assert IdParam(url, q, q);
    NoLaterIdParam(url, q, id, post);
    assert ParamId(url, q, |url|) == IdAt(url, q + 2) == Some(id);
    assert VideoIdAt(url, s) == Some(id);
    LeftmostAt(VideoIdPattern, url, s);
  }

  // ---------------------------------------------------------------------
  // Title
  // ---------------------------------------------------------------------

  const TITLE_OPEN: string := "<title>"
  const TITLE_CLOSE: string := "</title>"
  const TITLE_SUFFIX: string := " - YouTube"

  /** `<title>([^<]+)</title>` at index `s`: the text up to the next '<'
      must be non-empty, and that '<' must open the closing tag. */
  function TitleAt(html: string, s: nat): (r: Option<string>)
    ensures r.Some? ==> At(html, s, TITLE_OPEN)
    ensures r.Some? ==>
      r.value != [] && '<' !in r.value && At(html, s, TITLE_OPEN + r.value + TITLE_CLOSE)
  {
    if !At(html, s, TITLE_OPEN) then None
    else match FindFrom(html, "<", s + |TITLE_OPEN|)
      case None => None
      case Some(k) =>
        if k > s + |TITLE_OPEN| && At(html, k, TITLE_CLOSE) then
          var t := html[s + |TITLE_OPEN|..k];
          forall j | 0 <= j < |t| ensures t[j] != '<' {
            assert !At(html, s + |TITLE_OPEN| + j, "<");
            assert html[s + |TITLE_OPEN| + j..s + |TITLE_OPEN| + j + 1] == [t[j]];
          }
          assert html[s..k + |TITLE_CLOSE|] == TITLE_OPEN + t + TITLE_CLOSE;
          Some(t)
        else None
  }

  /** Conversely, a title element with non-empty, '<'-free text matches at
      its index. */
  lemma {:induction false} TitleAtOf(html: string, s: nat, t: string)
    requires t != [] && '<' !in t && At(html, s, TITLE_OPEN + t + TITLE_CLOSE)
    ensures TitleAt(html, s) == Some(t)
  {
    var a := s + |TITLE_OPEN|;
    var k := a + |t|;
    AtParts(html, s, TITLE_OPEN, t, TITLE_CLOSE);
    assert html[a..k] == t;
    assert html[k] == html[k..k + |TITLE_CLOSE|][0] == TITLE_CLOSE[0] == '<';
    assert html[k..k + 1] == "<";
    forall j | a <= j < k ensures !At(html, j, "<") {
      assert html[j] == t[j - a];
      assert html[j..j + 1][0] == html[j];
    }
    var f := FindFrom(html, "<", a);
    assert At(html, k, "<");
    assert f.Some? && f.value == k;
  }

  /** An occurrence of `a + b + c` is an occurrence of each part in turn. */
  lemma {:induction false} AtParts(s: string, i: nat, a: string, b: string, c: string)
    requires At(s, i, a + b + c)
    ensures At(s, i, a) && At(s, i + |a|, b) && At(s, i + |a| + |b|, c)
  {
    var x := a + b + c;
    assert forall j :: 0 <= j < |x| ==> s[i + j] == x[j] by {
      forall j | 0 <= j < |x| ensures s[i + j] == x[j] {
        assert s[i..i + |x|][j] == s[i + j];
      }
    }
    assert forall j :: 0 <= j < |a| ==> x[j] == a[j];
    assert forall j :: 0 <= j < |b| ==> x[|a| + j] == b[j];
    assert forall j :: 0 <= j < |c| ==> x[|a| + |b| + j] == c[j];
    assert s[i..i + |a|] == a;
    assert s[i + |a|..i + |a| + |b|] == b;
    assert s[i + |a| + |b|..i + |x|] == c;
  }

  /** `strip_suffix(" - YouTube").unwrap_or(title)`: the suffix once, when
      present. */
  function StripYouTube(t: string): (r: string)
    ensures EndsWith(t, TITLE_SUFFIX) ==> r + TITLE_SUFFIX == t
    ensures !EndsWith(t, TITLE_SUFFIX) ==> r == t
  {
    match StripSuffix(t, TITLE_SUFFIX)
    case Some(rest) => rest
    case None => t
  }

  /** `extract_title`. */
  function ExtractTitle(html: string): (r: string)
    ensures (forall k :: 0 <= k <= |html| ==> TitleAt(html, k).None?) ==> r == "Unknown"
  {
    match Captures(TitlePattern, html)
    case Some(t) => StripYouTube(t)
    case None => "Unknown"
  }

  /** The first title element gives the title, without the site's suffix. */
  lemma {:induction false} TitleFromFirstElement(pre: string, t: string, post: string)
    requires t != [] && '<' !in t && '<' !in pre
    ensures ExtractTitle(pre + TITLE_OPEN + t + TITLE_CLOSE + post) == StripYouTube(t)
  {
    var html := pre + TITLE_OPEN + t + TITLE_CLOSE + post;
    var s := |pre|;
    assert html[s..s + |TITLE_OPEN + t + TITLE_CLOSE|] == TITLE_OPEN + t + TITLE_CLOSE;
    TitleAtOf(html, s, t);
    assert html[..s] == pre;
    NoMatchBefore(TitlePattern, html, s);
    LeftmostAt(TitlePattern, html, s);
  }

  /** A title text free of '<' and without the suffix comes back as is; with
      the suffix, it comes back without it. */
  lemma {:induction false} TitleSuffixStripped(t: string)
    ensures StripYouTube(t + TITLE_SUFFIX) == t
  {
    assert (t + TITLE_SUFFIX)[|t|..] == TITLE_SUFFIX;
  }

  // ---------------------------------------------------------------------
  // Player response
  // ---------------------------------------------------------------------

  const PLAYER_MARKER: string := "var ytInitialPlayerResponse = "
  const NO_PLAYER_RESPONSE: string := "Failed to find ytInitialPlayerResponse in page HTML"
  const NO_CLOSING_BRACE: string := "Failed to find closing brace for ytInitialPlayerResponse"

  /** The scanner's state: the brace count, inside a string, and a pending
      escape. */
  datatype Scan = Scan(depth: int, inString: bool, escapeNext: bool)

  const START: Scan := Scan(0, false, false)

  /** A character that closes the object: a '}' outside a string and not
      escaped, taking the count from one to zero. */
  predicate ClosesAt(st: Scan, c: char) {
    !st.escapeNext && !st.inString && c == '}' && st.depth == 1
  }

  /** One character of the loop: an escaped character is skipped; a
      backslash in a string escapes the next; a quote toggles the string;
      braces outside strings count. */
  function Next(st: Scan, c: char): Scan {
    if st.escapeNext then st.(escapeNext := false)
    else if c == '\\' && st.inString then st.(escapeNext := true)
    else if c == '"' then st.(inString := !st.inString)
    else if c == '{' && !st.inString then st.(depth := st.depth + 1)
    else if c == '}' && !st.inString then st.(depth := st.depth - 1)
    else st
  }

  /** The state after reading `s` from the start. */
  function Run(s: string): Scan {
    if |s| == 0 then START else Next(Run(s[..|s| - 1]), s[|s| - 1])
  }

  /** The object ends after `e` characters. */
  predicate EndsObject(s: string, e: int) {
    1 <= e <= |s| && ClosesAt(Run(s[..e - 1]), s[e - 1])
  }

  /** The loop from index `i` in state `st`: the number of characters up to
      and including the closing brace. */
  function CloseFrom(s: string, i: nat, st: Scan): (r: Option<nat>)
    requires i <= |s|
    decreases |s| - i
  {
    if i == |s| then None
    else if ClosesAt(st, s[i]) then Some(i + 1)
    else CloseFrom(s, i + 1, Next(st, s[i]))
  }

  /** The loop stops at the first character that closes the object, and
      finds none exactly when there is none. */
  lemma {:induction false} CloseFromSpec(s: string, i: nat)
    requires i <= |s|
    decreases |s| - i
    ensures var r := CloseFrom(s, i, Run(s[..i]));
      && (r.Some? ==>
            i < r.value && EndsObject(s, r.value) && forall k :: i < k < r.value ==> !EndsObject(s, k))
      && (r.None? ==> forall k :: i < k <= |s| ==> !EndsObject(s, k))
  {
    if i < |s| {
      assert s[..i + 1][..i] == s[..i];
      if !ClosesAt(Run(s[..i]), s[i]) {
        CloseFromSpec(s, i + 1);
      }
    }
  }

  /** The number of characters of `remaining` up to the closing brace. */
  function ClosingEnd(remaining: string): (r: Option<nat>)
    ensures r.Some? ==>
      EndsObject(remaining, r.value) && forall k :: 0 <= k < r.value ==> !EndsObject(remaining, k)
    ensures r.None? ==> forall k :: 0 <= k <= |remaining| ==> !EndsObject(remaining, k)
  {
    CloseFromSpec(remaining, 0);
    assert remaining[..0] == [];
    CloseFrom(remaining, 0, START)
  }

  /** The text after the marker, or the message when there is no marker. */
  function AfterMarker(html: string): (r: Result<string>)
    ensures r.Err? <==> !Contains(html, PLAYER_MARKER)
    ensures r.Err? ==> r.error == NO_PLAYER_RESPONSE
    ensures r.Ok? ==> EndsWith(html, PLAYER_MARKER + r.value)
  {
    match Find(html, PLAYER_MARKER)
    case None => Err(NO_PLAYER_RESPONSE)
    case Some(p) =>
      var rest := html[p + |PLAYER_MARKER|..];
      assert html[|html| - |PLAYER_MARKER + rest|..] == PLAYER_MARKER + rest;
      Ok(rest)
  }

  /** How `extract_player_response` as written ends: `None` where the final
      slice panics. The loop counts characters (`chars().enumerate()`) but
      the slice `remaining[..json_end]` counts bytes. */
  function ExtractPlayerResponseAsWritten(html: string): (r: Option<Result<string>>)
    ensures ExtractPlayerResponse(html).Err? ==> r == Some(ExtractPlayerResponse(html))
    ensures r.None? ==> ExtractPlayerResponse(html).Ok?
    ensures r.Some? && r.value.Ok? ==>
      && StartsWith(AfterMarker(html).value, r.value.value)
      && Utf8.ByteLen(r.value.value) == |ExtractPlayerResponse(html).value|
  {
    match AfterMarker(html)
    case Err(e) => Some(Err(e))
    case Ok(remaining) =>
      match ClosingEnd(remaining)
      case None => Some(Err(NO_CLOSING_BRACE))
      case Some(e) =>
        match Utf8.BytePrefix(remaining, e)
        case None => None
        case Some(cut) => Some(Ok(cut))
  }

  /** `extract_player_response` with the slice taken in characters: the
      marker's object up to its closing brace. */
  function ExtractPlayerResponse(html: string): (r: Result<string>)
    ensures !Contains(html, PLAYER_MARKER) ==> r == Err(NO_PLAYER_RESPONSE)
    ensures Contains(html, PLAYER_MARKER) ==>
      var remaining := AfterMarker(html).value;
      if r.Ok? then
        && StartsWith(remaining, r.value)
        && EndsObject(remaining, |r.value|)
        && forall k :: 0 <= k < |r.value| ==> !EndsObject(remaining, k)
      else
        && r == Err(NO_CLOSING_BRACE)
        && forall k :: 0 <= k <= |remaining| ==> !EndsObject(remaining, k)
  {
    var remaining :- AfterMarker(html);
    match ClosingEnd(remaining)
    case None => Err(NO_CLOSING_BRACE)
    case Some(e) => Ok(remaining[..e])
  }

  /** On ASCII text the two agree: characters are bytes. */
  lemma {:induction false} AsciiResponsesAgree(html: string)
    requires forall i :: 0 <= i < |html| ==> html[i] as int < 0x80
    ensures ExtractPlayerResponseAsWritten(html) == Some(ExtractPlayerResponse(html))
  {
    if AfterMarker(html).Ok? {
      var remaining := AfterMarker(html).value;
      assert forall i :: 0 <= i < |remaining| ==> remaining[i] == html[|html| - |remaining| + i];
      if ClosingEnd(remaining).Some? {
        Utf8.AsciiBytePrefix(remaining, ClosingEnd(remaining).value);
      }
    }
  }

  /** A player response holding one two-byte character: the loop ends after
      3 characters, but 3 bytes stop before the closing brace, so the text
      returned is not the object. */
  lemma {:induction false} NonAsciiResponseTruncated()
    ensures var html := PLAYER_MARKER + "{\U{E9}}";
      && ExtractPlayerResponse(html) == Ok("{\U{E9}}")
      && ExtractPlayerResponseAsWritten(html) == Some(Ok("{\U{E9}"))
  {
    var obj := "{\U{E9}}";
    var html := PLAYER_MARKER + obj;
    assert At(html, 0, PLAYER_MARKER);
    assert AfterMarker(html) == Ok(obj);
    ClosesAfterThree(obj);
    assert obj[..3] == obj;
    var cut := "{\U{E9}";
    assert obj[..2] == cut;
    assert Utf8.ByteLen(cut) == 3 by {
      assert cut == "{" + "\U{E9}";
      Utf8.EncodeAppend("{", "\U{E9}");
    }
    BytePrefixOfPrefix(obj, cut, 3);
  }

  lemma {:induction false} ClosesAfterThree(obj: string)
    requires obj == "{\U{E9}}"
    ensures ClosingEnd(obj) == Some(3)
  {
    assert obj[..1] == ['{'] && obj[..1][..0] == [];
    assert Run(obj[..1]) == Next(START, '{') == Scan(1, false, false);
    assert obj[..2][..1] == obj[..1] && obj[..2][1] == '\U{E9}';
    assert Run(obj[..2]) == Next(Run(obj[..1]), '\U{E9}') == Scan(1, false, false);
    assert EndsObject(obj, 3);
    assert obj[..3] == obj;
  }

  /** `&s[..n]` of a string starting with a prefix of `n` bytes is that
      prefix. */
  lemma {:induction false} BytePrefixOfPrefix(s: string, p: string, n: nat)
    requires |p| <= |s| && s[..|p|] == p && Utf8.ByteLen(p) == n
    ensures Utf8.BytePrefix(s, n) == Some(p)
  {
    var r := Utf8.BytePrefix(s, n);
    assert Utf8.ByteLen(s[..|p|]) == n;
    assert r.Some?;
    ByteLenStrictlyGrows(s, |r.value|, |p|);
    ByteLenStrictlyGrows(s, |p|, |r.value|);
  }

  /** A longer prefix of a string has more bytes. */
  lemma {:induction false} ByteLenStrictlyGrows(s: string, a: nat, b: nat)
    requires a <= |s| && b <= |s|
    ensures a < b ==> Utf8.ByteLen(s[..a]) < Utf8.ByteLen(s[..b])
    decreases b
  {
    if a < b {
      assert s[..b] == s[..b - 1] + [s[b - 1]];
      Utf8.EncodeAppend(s[..b - 1], [s[b - 1]]);
      assert [s[b - 1]][1..] == [];
      ByteLenStrictlyGrows(s, a, b - 1);
    }
  }

  // ---------------------------------------------------------------------
  // JSON string fields
  // ---------------------------------------------------------------------

  /** `(?:[^"\\]|\\.)*` from index `q`, greedy: ordinary characters, and a
      backslash with the character after it (`.` does not match a line
      break). Returns where the run stops. */
  function RunEnd(json: string, q: nat): (e: nat)
    requires q <= |json|
    decreases |json| - q
    ensures q <= e <= |json|
    ensures e < |json| ==> json[e] == '"' || json[e] == '\\'
  {
    if q == |json| then q
    else if json[q] == '"' then q
    else if json[q] == '\\' then
      if q + 1 < |json| && json[q + 1] != '\n' then RunEnd(json, q + 2) else q
    else RunEnd(json, q + 1)
  }

  /** `"<key>":"((?:[^"\\]|\\.)*)"` at index `s`. Tokens are never a bare
      quote, so the match needs a quote right where the greedy run stops. */
  function FieldAt(json: string, key: string, s: nat): (r: Option<string>)
    ensures r.Some? ==>
      && At(json, s, key) && At(json, s + |key|, r.value)
      && s + |key| + |r.value| < |json| && json[s + |key| + |r.value|] == '"'
  {
    if !At(json, s, key) then None
    else
      var e := RunEnd(json, s + |key|);
      if e < |json| && json[e] == '"' then Some(json[s + |key|..e]) else None
  }

  const CHANNEL_KEY: string := "\"ownerChannelName\":\""
  const DESCRIPTION_KEY: string := "\"shortDescription\":\""
  const DURATION_KEY: string := "\"lengthSeconds\":\""

  /** Decoding of one escape: the eight JSON escapes; any other character is
      kept with its backslash. */
  function Unescaped(c: char): (r: string)
    ensures |r| == 1 || r == ['\\', c]
  {
    match c
    case 'n' => "\n"
    case 't' => "\t"
    case 'r' => "\r"
    case 'b' => "\U{8}"
    case 'f' => "\U{C}"
    case '"' => "\""
    case '\\' => "\\"
    case '/' => "/"
    case _ => ['\\', c]
  }

  /** `unescape_json`: a trailing backslash is kept. */
  function UnescapeJson(s: string): (r: string)
    ensures |r| <= |s|
  {
    if |s| == 0 then []
    else if s[0] != '\\' then [s[0]] + UnescapeJson(s[1..])
    else if |s| == 1 then "\\"
    else Unescaped(s[1]) + UnescapeJson(s[2..])
  }

  /** Text with no backslash comes back unchanged. */
  lemma {:induction false} UnescapeWithoutBackslash(s: string)
    requires '\\' !in s
    ensures UnescapeJson(s) == s
  {
    if |s| > 0 {
      assert s == [s[0]] + s[1..];
      UnescapeWithoutBackslash(s[1..]);
    }
  }

  /** How JSON writes a character inside a string: the escapes
      `unescape_json` reads, everything else as is. */
  function EscapeChar(c: char): (r: string)
    ensures r == [c] || (|r| == 2 && r[0] == '\\' && Unescaped(r[1]) == [c])
    ensures r == [c] ==> c != '"' && c != '\\'
    ensures |r| == 2 ==> r[1] != '\n'
  {
    match c
    case '\n' => "\\n"
    case '\t' => "\\t"
    case '\r' => "\\r"
    case '\U{8}' => "\\b"
    case '\U{C}' => "\\f"
    case '"' => "\\\""
    case '\\' => "\\\\"
    case _ => [c]
  }

  function Escape(s: string): (r: string)
    ensures |r| >= |s|
  {
    if |s| == 0 then [] else EscapeChar(s[0]) + Escape(s[1..])
  }

  /** `unescape_json` undoes JSON's escaping. */
  lemma {:induction false} UnescapeEscape(s: string)
    ensures UnescapeJson(Escape(s)) == s
  {
    if |s| > 0 {
      UnescapeEscape(s[1..]);
      var e := EscapeChar(s[0]);
      var t := e + Escape(s[1..]);
      if e == [s[0]] {
        assert t[0] == s[0] && t[1..] == Escape(s[1..]);
        if s[0] == '\\' { assert false; }
      } else {
        assert t[0] == '\\' && t[1] == e[1] && t[2..] == Escape(s[1..]);
      }
      assert s == [s[0]] + s[1..];
    }
  }

  /** An escaped value read back by a field pattern: the pattern matches
      the whole escaped text. */
  lemma {:induction false} RunOverEscaped(json: string, q: nat, v: string)
    requires q + |Escape(v)| < |json| && json[q..q + |Escape(v)|] == Escape(v)
    requires json[q + |Escape(v)|] == '"' && '\n' !in v
    ensures RunEnd(json, q) == q + |Escape(v)|
  {
    var w := Escape(v);
    forall k | 0 <= k < |w| ensures json[q + k] == w[k] {
      assert json[q..q + |w|][k] == json[q + k];
    }
    RunOverEscapedAt(json, q, v);
  }

  lemma {:induction false} RunOverEscapedAt(json: string, q: nat, v: string)
    requires q + |Escape(v)| < |json| && forall k :: 0 <= k < |Escape(v)| ==> json[q + k] == Escape(v)[k]
    requires json[q + |Escape(v)|] == '"' && '\n' !in v
    ensures RunEnd(json, q) == q + |Escape(v)|
    decreases |v|
  {
    if |v| > 0 {
      var e := EscapeChar(v[0]);
      var rest := Escape(v[1..]);
      assert Escape(v) == e + rest;
      forall k | 0 <= k < |rest| ensures json[q + |e| + k] == rest[k] {
        assert json[q + (|e| + k)] == Escape(v)[|e| + k];
      }
      assert v[0] in v;
      RunOverEscapedAt(json, q + |e|, v[1..]);
      assert json[q] == Escape(v)[0] == e[0];
      if e == [v[0]] {
        assert RunEnd(json, q) == RunEnd(json, q + 1);
      } else {
        assert json[q + 1] == Escape(v)[1] == e[1];
        assert RunEnd(json, q) == RunEnd(json, q + 2);
      }
    }
  }

  /** `extract_channel`: the unescaped value, or "Unknown". */
  function ExtractChannel(json: string): (r: string)
    ensures (forall k :: 0 <= k <= |json| ==> FieldAt(json, CHANNEL_KEY, k).None?) ==> r == "Unknown"
  {
    match Captures(ChannelPattern, json)
    case Some(v) => UnescapeJson(v)
    case None => "Unknown"
  }

  /** `extract_description`: the unescaped value, or empty. */
  function ExtractDescription(json: string): (r: string)
    ensures (forall k :: 0 <= k <= |json| ==> FieldAt(json, DESCRIPTION_KEY, k).None?) ==> r == ""
  {
    match Captures(DescriptionPattern, json)
    case Some(v) => UnescapeJson(v)
    case None => ""
  }

  /** The key a field pattern looks for. */
  function Key(p: Pattern): string
    requires p == ChannelPattern || p == DescriptionPattern
  {
    if p == ChannelPattern then CHANNEL_KEY else DESCRIPTION_KEY
  }

  /** The field pattern at the key reads the escaped value up to its
      closing quote. */
  lemma {:induction false} FieldAtEscaped(json: string, key: string, s: nat, v: string)
    requires '\n' !in v
    requires At(json, s, key + Escape(v) + "\"")
    ensures FieldAt(json, key, s) == Some(Escape(v))
  {
    var q := s + |key|;
    var e := Escape(v);
    AtParts(json, s, key, e, "\"");
    assert json[q..q + |e|] == e;
    assert json[q + |e|] == json[q + |e|..q + |e| + 1][0] == '"';
    RunOverEscaped(json, q, v);
  }

  /** A field written by a JSON encoder, with no quote before its key, is
      the leftmost match and captures the escaped value. */
  lemma {:induction false} FieldCapture(p: Pattern, pre: string, v: string, post: string)
    requires p == ChannelPattern || p == DescriptionPattern
    requires '"' !in pre && '\n' !in v
    ensures Captures(p, pre + (Key(p) + Escape(v) + "\"") + post) == Some(Escape(v))
  {
    var x := Key(p) + Escape(v) + "\"";
    var json := pre + x + post;
    var s := |pre|;
    assert json[s..s + |x|] == x;
    FieldAtEscaped(json, Key(p), s, v);
    assert MatchAt(p, json, s) == Some(Escape(v));
    assert json[..s] == pre;
    NoMatchBefore(p, json, s);
    LeftmostAt(p, json, s);
  }

  /** Such a field reads back as the value it was written from. */
  lemma {:induction false} FieldRoundTrip(p: Pattern, pre: string, v: string, post: string)
    requires p == ChannelPattern || p == DescriptionPattern
    requires '"' !in pre && '\n' !in v
    ensures p == ChannelPattern ==> ExtractChannel(pre + (Key(p) + Escape(v) + "\"") + post) == v
    ensures p == DescriptionPattern ==> ExtractDescription(pre + (Key(p) + Escape(v) + "\"") + post) == v
  {
    FieldCapture(p, pre, v, post);
    UnescapeEscape(v);
  }

  // ---------------------------------------------------------------------
  // Duration
  // ---------------------------------------------------------------------

  /** The longest run of ASCII digits from `q`. */
  function DigitRunEnd(json: string, q: nat): (e: nat)
    requires q <= |json|
    decreases |json| - q
    ensures q <= e <= |json| && AllDigits(json[q..e])
    ensures e < |json| ==> !IsAsciiDigit(json[e])
  {
    if q < |json| && IsAsciiDigit(json[q]) then DigitRunEnd(json, q + 1) else q
  }

  /** `"lengthSeconds":"(\d+)"` at index `s`: a non-empty digit run closed
      by a quote. */
  function DurationAt(json: string, s: nat): (r: Option<string>)
    ensures r.Some? ==> At(json, s, DURATION_KEY) && r.value != [] && AllDigits(r.value)
  {
    if !At(json, s, DURATION_KEY) then None
    else
      var e := DigitRunEnd(json, s + |DURATION_KEY|);
      if e > s + |DURATION_KEY| && e < |json| && json[e] == '"' then Some(json[s + |DURATION_KEY|..e]) else None
  }

  const U32_LIMIT: nat := 0x1_0000_0000

  /** `extract_duration`: the digits parsed as a `u32`; 0 when absent or
      too large. */
  function ExtractDuration(json: string): (r: nat)
    ensures r < U32_LIMIT
    ensures (forall k :: 0 <= k <= |json| ==> DurationAt(json, k).None?) ==> r == 0
  {
    match Captures(DurationPattern, json)
    case Some(digits) => (match ParseUnsigned(digits, U32_LIMIT) case Some(n) => n case None => 0)
    case None => 0
  }

  /** A duration written in decimal with no earlier key reads back; one
      past `u32` reads as 0. */
  lemma {:induction false} DurationRoundTrip(pre: string, n: nat, post: string)
    requires '"' !in pre
    ensures var json := pre + DURATION_KEY + NatToString(n) + "\"" + post;
      ExtractDuration(json) == if n < U32_LIMIT then n else 0
  {
    var digits := NatToString(n);
    NatToStringRoundTrip(n);
    DurationCaptured(pre, digits, post);
    assert IsAsciiDigit(digits[0]);
  }

  /** The duration pattern captures the first run of digits after the key
      when no quote comes before it. */
  lemma {:induction false} DurationCaptured(pre: string, digits: string, post: string)
    requires '"' !in pre && digits != [] && AllDigits(digits)
    ensures Captures(DurationPattern, pre + DURATION_KEY + digits + "\"" + post) == Some(digits)
  {
    var json := pre + DURATION_KEY + digits + "\"" + post;
    var s := |pre|;
    var q := s + |DURATION_KEY|;
    assert json[s..q] == DURATION_KEY;
    assert json[q..q + |digits|] == digits;
    assert json[q + |digits|] == '"';
    DigitRunOver(json, q, q + |digits|);
    assert At(json, s, DURATION_KEY);
    assert DurationAt(json, s) == Some(json[q..q + |digits|]);
    assert json[..s] == pre;
    NoMatchBefore(DurationPattern, json, s);
    LeftmostAt(DurationPattern, json, s);
  }

  lemma {:induction false} DigitRunOver(json: string, q: nat, e: nat)
    requires q <= e < |json| && AllDigits(json[q..e]) && !IsAsciiDigit(json[e])
    ensures DigitRunEnd(json, q) == e
    decreases e - q
  {
    if q < e {
      assert json[q] == json[q..e][0];
      assert json[q + 1..e] == json[q..e][1..];
      DigitRunOver(json, q + 1, e);
    }
  }

  // ---------------------------------------------------------------------
  // Scrape
  // ---------------------------------------------------------------------

  /** `scrape_youtube_gist`: `page` is the outcome of fetching the URL
      (its error already worded). The page is fetched before the URL is
      checked, so a fetch failure wins over a bad URL. The player response
      is read with the corrected `ExtractPlayerResponse`, as the rest of the
      model does; `ExtractPlayerResponseAsWritten` is the code's own reader. */
  function ScrapeGist(url: string, page: Result<string>): (r: Result<Gist>)
    ensures page.Err? ==> r == Err(page.error)
    ensures page.Ok? && ExtractVideoId(url).Err? ==> r == Err(VIDEO_ID_ERROR + url)
    ensures page.Ok? && ExtractVideoId(url).Ok? && !Contains(page.value, PLAYER_MARKER) ==>
      r == Err(NO_PLAYER_RESPONSE)
    ensures r.Ok? ==>
      && page.Ok?
      && r.value.url == url
      && IsVideoId(r.value.videoId)
      && r.value.durationSeconds < U32_LIMIT
      && r.value.title == ExtractTitle(page.value)
    ensures r.Ok? ==>
      var resp := ExtractPlayerResponse(page.value);
      && resp.Ok?
      && r.value.channel == ExtractChannel(resp.value)
      && r.value.description == ExtractDescription(resp.value)
      && r.value.durationSeconds == ExtractDuration(resp.value)
  {
    var html :- page;
    var videoId :- ExtractVideoId(url);
    var title := ExtractTitle(html);
    var response :- ExtractPlayerResponse(html);
    Ok(Gist(url, videoId, title, ExtractChannel(response), ExtractDescription(response), ExtractDuration(response)))
  }
}
