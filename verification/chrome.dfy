/** The Chrome adapter: reading the AppleScript tab listings, finding a
    tab's window and tab numbers, quoting JavaScript into an AppleScript
    string literal, and the page-size guard. The AppleScript runs are
    parameters: each is the program output it produced. */
module Chrome {
  import opened Wrappers
  import opened Text
  import Utf8
  import Tabs
  import Process

  const DELIMITER: string := "|||"

  // ---------------------------------------------------------------------
  // Availability
  // ---------------------------------------------------------------------

  /** `is_available`: the System Events query printed "true". */
  function IsAvailable(out: Process.Output): (r: bool)
    ensures out.SpawnFailed? ==> !r
    ensures out.Exited? && out.stdout == "true\n" ==> r
    ensures out.Exited? && out.stdout == "false\n" ==> !r
  {
    TrimLine("true");
    assert "true" + "\n" == "true\n";
    TrimLine("false");
    assert "false" + "\n" == "false\n";
    assert "false" != "true";
    out.Exited? && Trim(out.stdout) == "true"
  }

  // ---------------------------------------------------------------------
  // Tab listing
  // ---------------------------------------------------------------------

  /** The first delimiter of `line` starts at `i`. */
  predicate FirstDelimiter(line: string, i: int) {
    At(line, i, DELIMITER) && forall j :: 0 <= j < i ==> !At(line, j, DELIMITER)
  }

  /** The trimmed text on each side of the delimiter at `i`. */
  function SidesOf(line: string, i: int): Tabs.RawTab
    requires At(line, i, DELIMITER)
  {
    Tabs.RawTab(Trim(line[..i]), Trim(line[i + |DELIMITER|..]))
  }

  /** A listing line split at its first delimiter, both sides trimmed; a
      line without the delimiter gives nothing. */
  function ParseTabLine(line: string): (r: Option<Tabs.RawTab>)
    ensures r.Some? <==> Contains(line, DELIMITER)
    ensures r.Some? ==> exists i :: FirstDelimiter(line, i) && r.value == SidesOf(line, i)
  {
    match Find(line, DELIMITER)
    case None => None
    case Some(i) => Some(SidesOf(line, i))
  }

  predicate NotBlank(line: string) {
    !IsBlank(line)
  }

  /** The tabs of a `URL|||Title` listing: blank lines are skipped and lines
      without the delimiter dropped. */
  function ParseTabs(stdout: string): (r: seq<Tabs.RawTab>)
    ensures |r| <= |Lines(stdout)|
    ensures forall i :: 0 <= i < |r| ==> exists line :: line in Lines(stdout) && NotBlank(line) && ParseTabLine(line) == Some(r[i])
    ensures (forall i :: 0 <= i < |Lines(stdout)| ==> IsBlank(Lines(stdout)[i])) ==> r == []
  {
    var lines := Filter(Lines(stdout), NotBlank);
    if forall i :: 0 <= i < |Lines(stdout)| ==> IsBlank(Lines(stdout)[i]) then
      NoneKept(Lines(stdout), NotBlank);
      assert lines == [];
      []
    else
      var r := FilterMap(lines, ParseTabLine);
      assert forall i :: 0 <= i < |lines| ==> lines[i] in lines;
      r
  }

  /** Nothing is kept from elements that all fail the test. */
  lemma {:induction false} NoneKept<T>(s: seq<T>, p: T -> bool)
    requires forall i :: 0 <= i < |s| ==> !p(s[i])
    ensures Filter(s, p) == []
  {
    if s != [] {
      NoneKept(s[1..], p);
    }
  }

  const LIST_FAILED: string := "Failed to execute AppleScript: "
  const SCRIPT_FAILED: string := "AppleScript failed: "

  /** `list_tabs`. */
  function ListTabs(out: Process.Output): (r: Result<seq<Tabs.RawTab>>)
    ensures out.SpawnFailed? ==> r == Err(LIST_FAILED + out.message)
    ensures out.Exited? && !out.success ==> r == Err(SCRIPT_FAILED + out.stderr)
    ensures r.Ok? <==> out.Exited? && out.success
    ensures r.Ok? ==> r.value == ParseTabs(out.stdout)
  {
    match out
    case SpawnFailed(e) => Err(LIST_FAILED + e)
    case Exited(success, stdout, stderr) =>
      if !success then Err(SCRIPT_FAILED + stderr) else Ok(ParseTabs(stdout))
  }

  /** The listing script's line for a tab: URL, delimiter, title. */
  function TabLine(t: Tabs.RawTab): string {
    t.url + DELIMITER + t.title
  }

  /** The listing script's whole output. */
  function TabListing(tabs: seq<Tabs.RawTab>): (r: string)
    ensures |r| >= |tabs|
  {
    Terminated(seq(|tabs|, i requires 0 <= i < |tabs| => TabLine(tabs[i])))
  }

  /** Neither end is whitespace. */
  predicate Trimmed(s: string) {
    s == [] || (!IsWhitespace(s[0]) && !IsWhitespace(s[|s| - 1]))
  }

  /** A tab whose line reads back as the tab: a URL without the delimiter
      that does not end in '|', no line feeds, nothing to trim. The title
      may hold the delimiter. */
  predicate Listable(t: Tabs.RawTab) {
    && !Contains(t.url, DELIMITER) && (t.url == [] || t.url[|t.url| - 1] != '|')
    && '\n' !in t.url && '\n' !in t.title
    && Trimmed(t.url) && Trimmed(t.title)
  }

  /** The first delimiter of a tab's line is the one after the URL. */
  lemma {:induction false} FirstDelimiterAfterUrl(t: Tabs.RawTab)
    requires !Contains(t.url, DELIMITER) && (t.url == [] || t.url[|t.url| - 1] != '|')
    ensures Find(TabLine(t), DELIMITER) == Some(|t.url|)
  {
    var line := TabLine(t);
    var n := |t.url|;
    assert line[n..n + 3] == DELIMITER;
    assert At(line, n, DELIMITER);
    forall j | 0 <= j < n ensures !At(line, j, DELIMITER) {
      if j + 3 <= n {
        assert line[j..j + 3] == t.url[j..j + 3];
        if At(t.url, j, DELIMITER) { ContainsAt(t.url, DELIMITER, j); }
      } else {
        assert line[n - 1] == t.url[n - 1] != '|';
        assert line[j..j + 3][n - 1 - j] == line[n - 1];
      }
    }
  }

  /** A tab's line parses back to the tab, whatever its title holds. */
  lemma {:induction false} TabLineRoundTrip(t: Tabs.RawTab)
    requires Listable(t)
    ensures ParseTabLine(TabLine(t)) == Some(t)
  {
    var line := TabLine(t);
    FirstDelimiterAfterUrl(t);
    assert line[..|t.url|] == t.url;
    assert line[|t.url| + 3..] == t.title;
    TrimIdentity(t.url);
    TrimIdentity(t.title);
  }

  /** Parsing the listing script's output gives back every tab, in order. */
  lemma {:induction false} TabListingRoundTrip(tabs: seq<Tabs.RawTab>)
    requires forall i :: 0 <= i < |tabs| ==> Listable(tabs[i])
    ensures ParseTabs(TabListing(tabs)) == tabs
  {
    var lines := seq(|tabs|, i requires 0 <= i < |tabs| => TabLine(tabs[i]));
    forall i | 0 <= i < |tabs|
      ensures '\n' !in lines[i] && lines[i][|lines[i]| - 1] != '\r'
      ensures NotBlank(lines[i]) && ParseTabLine(lines[i]) == Some(tabs[i])
    {
      ListedLine(tabs[i]);
      TabLineRoundTrip(tabs[i]);
    }
    LinesOfTerminated(lines);
    AllKept(lines, NotBlank);
    AllMapped(lines, ParseTabLine, tabs);
  }

  /** A listable tab's line is a single line that is not blank. */
  lemma {:induction false} ListedLine(t: Tabs.RawTab)
    requires Listable(t)
    ensures var line := TabLine(t);
      '\n' !in line && line[|line| - 1] != '\r' && NotBlank(line)
  {
    var line := TabLine(t);
    if t.title == [] {
      assert line[|line| - 1] == '|';
    } else {
      assert line[|line| - 1] == t.title[|t.title| - 1];
    }
    assert line[|t.url|] == '|';
  }

  lemma {:induction false} AllKept<T>(s: seq<T>, p: T -> bool)
    requires forall i :: 0 <= i < |s| ==> p(s[i])
    ensures Filter(s, p) == s
  {
    if |s| > 0 {
      AllKept(s[1..], p);
    }
  }

  lemma {:induction false} AllMapped<A, B>(s: seq<A>, f: A -> Option<B>, out: seq<B>)
    requires |s| == |out| && forall i :: 0 <= i < |s| ==> f(s[i]) == Some(out[i])
    ensures FilterMap(s, f) == out
  {
    if |s| > 0 {
      AllMapped(s[1..], f, out[1..]);
    }
  }

  // ---------------------------------------------------------------------
  // Tab lookup
  // ---------------------------------------------------------------------

  /** A line cut at its first two delimiters (`splitn(3, "|||")`); the
      third part keeps any further delimiter. */
  function SplitThree(line: string): (r: Option<(string, string, string)>)
    ensures r.Some? ==> r.value.0 + DELIMITER + r.value.1 + DELIMITER + r.value.2 == line
    ensures r.Some? ==> !Contains(r.value.0, DELIMITER) && !Contains(r.value.1, DELIMITER)
  {
    match Find(line, DELIMITER)
    case None => None
    case Some(i) =>
      var rest := line[i + 3..];
      match Find(rest, DELIMITER)
      case None => None
      case Some(j) =>
        FirstPartClean(line, i);
        FirstPartClean(rest, j);
        assert line == line[..i] + DELIMITER + rest;
        assert rest == rest[..j] + DELIMITER + rest[j + 3..];
        Some((line[..i], rest[..j], rest[j + 3..]))
  }

  /** The text before the first occurrence holds none. */
  lemma {:induction false} FirstPartClean(s: string, i: nat)
    requires Find(s, DELIMITER) == Some(i)
    ensures !Contains(s[..i], DELIMITER)
  {
    forall j | 0 <= j && j + 3 <= i ensures !At(s[..i], j, DELIMITER) {
      assert !At(s, j, DELIMITER);
      assert s[..i][j..j + 3] == s[j..j + 3];
    }
  }

  const USIZE_LIMIT: nat := 0x1_0000_0000_0000_0000

  /** A listing line with three parts whose trimmed third part is `url`. */
  predicate ShowsUrl(line: string, url: string) {
    SplitThree(line).Some? && Trim(SplitThree(line).value.2) == url
  }

  /** The line the lookup settles on: the first at or after `i` with three
      parts whose trimmed third part is the URL. */
  function FirstTabLine(lines: seq<string>, url: string, i: nat): (r: Option<nat>)
    requires i <= |lines|
    decreases |lines| - i
    ensures r.Some? ==> i <= r.value < |lines| && ShowsUrl(lines[r.value], url)
    ensures r.Some? ==> forall k :: i <= k < r.value ==> !ShowsUrl(lines[k], url)
    ensures r.None? ==> forall k :: i <= k < |lines| ==> !ShowsUrl(lines[k], url)
  {
    if i == |lines| then None
    else if ShowsUrl(lines[i], url) then Some(i)
    else FirstTabLine(lines, url, i + 1)
  }

  /** The window and tab numbers of the tab showing `url`, from the
      `window|||tab|||URL` listing. The first matching line decides: when
      its numbers do not parse there is no tab, whatever later lines say. */
  function FindTab(stdout: string, url: string): (r: Option<(nat, nat)>)
    ensures r.Some? ==> FirstTabLine(Lines(stdout), url, 0).Some?
    ensures r.Some? ==> r.value.0 < USIZE_LIMIT && r.value.1 < USIZE_LIMIT
  {
    var lines := Lines(stdout);
    match FirstTabLine(lines, url, 0)
    case None => None
    case Some(k) =>
      var parts := SplitThree(lines[k]).value;
      match (ParseUnsigned(Trim(parts.0), USIZE_LIMIT), ParseUnsigned(Trim(parts.1), USIZE_LIMIT))
      case (Some(w), Some(t)) => Some((w, t))
      case _ => None
  }

  /** A tab in the index listing. */
  datatype Place = Place(window: nat, tab: nat, url: string)

  /** The index script's line for a tab. */
  function PlaceLine(p: Place): string {
    NatToString(p.window) + DELIMITER + NatToString(p.tab) + DELIMITER + p.url
  }

  /** The index script's whole output. */
  function PlaceListing(places: seq<Place>): string {
    Terminated(seq(|places|, i requires 0 <= i < |places| => PlaceLine(places[i])))
  }

  /** The first listed place at or after `i` showing `url`. */
  function FirstPlace(places: seq<Place>, url: string, i: nat): (r: Option<nat>)
    requires i <= |places|
    decreases |places| - i
    ensures r.Some? ==> i <= r.value < |places| && places[r.value].url == url
    ensures r.Some? ==> forall k :: i <= k < r.value ==> places[k].url != url
    ensures r.None? ==> forall k :: i <= k < |places| ==> places[k].url != url
  {
    if i == |places| then None
    else if places[i].url == url then Some(i)
    else FirstPlace(places, url, i + 1)
  }

  /** A place whose line reads back: a URL with no line feed and nothing to
      trim, and numbers a `usize` holds. */
  predicate Placeable(p: Place) {
    '\n' !in p.url && Trimmed(p.url) && p.window < USIZE_LIMIT && p.tab < USIZE_LIMIT
  }

  /** A number's digits hold no delimiter. */
  lemma {:induction false} DigitsHoldNoDelimiter(n: nat)
    ensures !Contains(NatToString(n), DELIMITER)
  {
    AbsentNotContained(NatToString(n), DELIMITER, '|');
  }

  /** A line whose first two parts hold no '|' splits into its parts. */
  lemma {:induction false} SplitThreeOf(a: string, b: string, c: string)
    requires '|' !in a && '|' !in b
    ensures SplitThree(a + DELIMITER + b + DELIMITER + c) == Some((a, b, c))
  {
    var line := a + DELIMITER + b + DELIMITER + c;
    assert line == a + DELIMITER + (b + DELIMITER + c);
    FirstAfterClean(a, b + DELIMITER + c);
    assert Find(line, DELIMITER) == Some(|a|);
    assert line[..|a|] == a;
    var rest := line[|a| + 3..];
    assert rest == b + DELIMITER + c;
    FirstAfterClean(b, c);
    assert Find(rest, DELIMITER) == Some(|b|);
    assert rest[..|b|] == b && rest[|b| + 3..] == c;
  }

  /** A place's line splits into its window digits, tab digits and URL. */
  lemma {:induction false} PlaceLineSplits(p: Place)
    ensures SplitThree(PlaceLine(p)) == Some((NatToString(p.window), NatToString(p.tab), p.url))
  {
    SplitThreeOf(NatToString(p.window), NatToString(p.tab), p.url);
  }

  /** In `a + "|||" + b` with `'|'` not in `a`, the first delimiter follows `a`. */
  lemma {:induction false} FirstAfterClean(a: string, b: string)
    requires '|' !in a
    ensures Find(a + DELIMITER + b, DELIMITER) == Some(|a|)
  {
    var s := a + DELIMITER + b;
    assert s[|a|..|a| + 3] == DELIMITER;
    assert At(s, |a|, DELIMITER);
    forall j | 0 <= j < |a| ensures !At(s, j, DELIMITER) {
      assert s[j] == a[j] != '|';
      if j + 3 <= |s| {
        assert s[j..j + 3][0] == s[j];
      }
    }
  }

  /** A rendered number parses back. */
  lemma {:induction false} DigitsParse(n: nat)
    requires n < USIZE_LIMIT
    ensures ParseUnsigned(Trim(NatToString(n)), USIZE_LIMIT) == Some(n)
  {
    var d := NatToString(n);
    NatToStringRoundTrip(n);
    TrimIdentity(d);
    assert Trim(d) == d;
    assert d[0] != '+';
    assert ParseUnsigned(d, USIZE_LIMIT) == Some(n);
  }

  /** The lines of the index listing, one per place. */
  lemma {:induction false} PlaceListingLines(places: seq<Place>)
    requires forall i :: 0 <= i < |places| ==> Placeable(places[i])
    ensures var lines := Lines(PlaceListing(places));
      && |lines| == |places|
      && forall i :: 0 <= i < |places| ==> lines[i] == PlaceLine(places[i])
  {
    var lines := seq(|places|, i requires 0 <= i < |places| => PlaceLine(places[i]));
    forall i | 0 <= i < |places|
      ensures '\n' !in lines[i] && (lines[i] == [] || lines[i][|lines[i]| - 1] != '\r')
    {
      PlaceLineEnds(places[i]);
    }
    LinesOfTerminated(lines);
  }

  /** A place's line has no line feed and does not end in a carriage
      return. */
  lemma {:induction false} PlaceLineEnds(p: Place)
    requires Placeable(p)
    ensures '\n' !in PlaceLine(p) && PlaceLine(p)[|PlaceLine(p)| - 1] != '\r'
  {
    var line := PlaceLine(p);
    var head := NatToString(p.window) + DELIMITER + NatToString(p.tab) + DELIMITER;
    assert line == head + p.url;
    assert '\n' !in NatToString(p.window) && '\n' !in NatToString(p.tab);
    assert '\n' !in head;
    if p.url == [] {
      assert line[|line| - 1] == '|';
    } else {
      assert line[|line| - 1] == p.url[|p.url| - 1];
    }
  }

  /** A place's line shows exactly its own URL. */
  lemma {:induction false} PlaceShowsUrl(p: Place, url: string)
    requires Placeable(p)
    ensures ShowsUrl(PlaceLine(p), url) <==> p.url == url
  {
    PlaceLineSplits(p);
    TrimIdentity(p.url);
  }

  /** The first line at or after `i` that shows the URL is the one the
      lookup settles on. */
  lemma {:induction false} FirstTabLineIs(lines: seq<string>, url: string, i: nat, k: nat)
    requires i <= k < |lines| && ShowsUrl(lines[k], url)
    requires forall j :: i <= j < k ==> !ShowsUrl(lines[j], url)
    ensures FirstTabLine(lines, url, i) == Some(k)
    decreases k - i
  {
    if i < k {
      FirstTabLineIs(lines, url, i + 1, k);
    }
  }

  /** The numbers of the line the lookup settles on are the answer. */
  lemma {:induction false} FindTabAt(stdout: string, url: string, k: nat, w: nat, t: nat, rest: string)
    requires FirstTabLine(Lines(stdout), url, 0) == Some(k)
    requires SplitThree(Lines(stdout)[k]) == Some((NatToString(w), NatToString(t), rest))
    requires w < USIZE_LIMIT && t < USIZE_LIMIT
    ensures FindTab(stdout, url) == Some((w, t))
  {
    DigitsParse(w);
    DigitsParse(t);
  }

  /** The lookup finds the first listed tab showing the URL, and nothing
      when no tab shows it. */
  lemma {:induction false} FindTabInListing(places: seq<Place>, url: string)
    requires forall i :: 0 <= i < |places| ==> Placeable(places[i])
    ensures match FirstPlace(places, url, 0)
      case Some(k) => FindTab(PlaceListing(places), url) == Some((places[k].window, places[k].tab))
      case None => FindTab(PlaceListing(places), url).None?
  {
    var lines := Lines(PlaceListing(places));
    PlaceListingLines(places);
    forall i | 0 <= i < |places| ensures ShowsUrl(lines[i], url) <==> places[i].url == url {
      PlaceShowsUrl(places[i], url);
    }
    match FirstPlace(places, url, 0)
    case Some(k) =>
      FirstTabLineIs(lines, url, 0, k);
      PlaceLineSplits(places[k]);
      FindTabAt(PlaceListing(places), url, k, places[k].window, places[k].tab, places[k].url);
    case None =>
      assert FirstTabLine(lines, url, 0).None?;
  }

  // ---------------------------------------------------------------------
  // Quoting JavaScript for AppleScript
  // ---------------------------------------------------------------------

  /** Backslashes doubled first, then quotes escaped. */
  function EscapeJs(js: string): (r: string)
    ensures |r| >= |js|
  {
    ReplaceWith(ReplaceWith(js, '\\', "\\\\"), '"', "\\\"")
  }

  /** One character as the escaping writes it. */
  function EscapeChar(c: char): string {
    if c == '\\' then "\\\\" else if c == '"' then "\\\"" else [c]
  }

  /** The two passes escape each character on its own. */
  lemma {:induction false} EscapeJsCons(c: char, rest: string)
    ensures EscapeJs([c] + rest) == EscapeChar(c) + EscapeJs(rest)
  {
    var b := ReplaceWith([c] + rest, '\\', "\\\\");
    assert ([c] + rest)[1..] == rest;
    var head := if c == '\\' then "\\\\" else [c];
    assert b == head + ReplaceWith(rest, '\\', "\\\\");
    ReplaceWithAppend(head, ReplaceWith(rest, '\\', "\\\\"), '"', "\\\"");
    if c == '\\' {
      assert ReplaceWith("\\\\", '"', "\\\"") == "\\\\";
    } else if c == '"' {
      assert ReplaceWith([c], '"', "\\\"") == "\\\"";
    } else {
      assert ReplaceWith([c], '"', "\\\"") == [c];
    }
  }

  /** How AppleScript reads the body of a string literal: up to the first
      unescaped quote, with `\\`, `\"`, `\n`, `\t` and `\r` as escapes.
      Gives the text and what follows the closing quote; `None` for an
      unterminated literal or an unknown escape. */
  function ReadLiteral(t: string): (r: Option<(string, string)>)
    decreases |t|
  {
    if t == [] then None
    else if t[0] == '"' then Some(([], t[1..]))
    else if t[0] == '\\' then
      if |t| < 2 then None
      else
        var c := match t[1]
          case '\\' => Some('\\')
          case '"' => Some('"')
          case 'n' => Some('\n')
          case 't' => Some('\t')
          case 'r' => Some('\r')
          case _ => None;
        if c.None? then None
        else
          match ReadLiteral(t[2..])
          case None => None
          case Some(p) => Some(([c.value] + p.0, p.1))
    else
      match ReadLiteral(t[1..])
      case None => None
      case Some(p) => Some(([t[0]] + p.0, p.1))
  }

  /** Reading one escaped character. */
  lemma {:induction false} ReadEscapedChar(c: char, tail: string, text: string, after: string)
    requires ReadLiteral(tail) == Some((text, after))
    ensures ReadLiteral(EscapeChar(c) + tail) == Some(([c] + text, after))
  {
    var t := EscapeChar(c) + tail;
    if c == '\\' || c == '"' {
      assert t[0] == '\\' && t[1] == c;
      assert t[2..] == tail;
    } else {
      assert t[0] == c;
      assert t[1..] == tail;
    }
  }

  /** The escaped code closes exactly at the quote the script puts after
      it and reads back as the original code: nothing in the code can end
      the literal early. */
  lemma {:induction false} EscapeJsRoundTrip(js: string, after: string)
    ensures ReadLiteral(EscapeJs(js) + "\"" + after) == Some((js, after))
    decreases |js|
  {
    if js == [] {
      assert EscapeJs(js) + "\"" + after == "\"" + after;
    } else {
      EscapeJsRoundTrip(js[1..], after);
      EscapeStep(js[0], js[1..], after);
      assert js == [js[0]] + js[1..];
    }
  }

  /** One more character in front of code that reads back still reads
      back. */
  lemma {:induction false} EscapeStep(c: char, rest: string, after: string)
    requires ReadLiteral(EscapeJs(rest) + "\"" + after) == Some((rest, after))
    ensures ReadLiteral(EscapeJs([c] + rest) + "\"" + after) == Some(([c] + rest, after))
  {
    var tail := EscapeJs(rest) + "\"" + after;
    EscapeJsCons(c, rest);
    AppendAssoc(EscapeChar(c), EscapeJs(rest), "\"");
    AppendAssoc(EscapeChar(c), EscapeJs(rest) + "\"", after);
    ReadEscapedChar(c, tail, rest, after);
  }

  /** The script that runs the code in a tab, by numbers only. */
  function JsScript(window: nat, tab: nat, js: string): (r: string)
    ensures StartsWith(r, "tell application \"Google Chrome\" to execute tab ")
    ensures EndsWith(r, EscapeJs(js) + "\"")
  {
    var pre := "tell application \"Google Chrome\" to execute tab " + NatToString(tab) + " of window "
      + NatToString(window) + " javascript \"";
    var r := pre + EscapeJs(js) + "\"";
    assert r[|r| - |EscapeJs(js) + "\""|..] == EscapeJs(js) + "\"";
    r
  }

  const LIST_INDEX_FAILED: string := "Failed to list Chrome tabs: "
  const LIST_INDEX_DENIED: string := "Failed to list Chrome tabs - check Chrome permissions: "
  const TAB_NOT_FOUND: string := "Chrome tab not found for this URL " + "- the tab may have been closed"
  const JS_FAILED: string := "Failed to execute JavaScript in Chrome tab: "
  const JS_TURNED_OFF: string := "JavaScript through AppleScript is turned off"
  const JS_DISABLED: string :=
    "Chrome requires JavaScript from AppleScript to be enabled. "
    + "Go to Chrome menu: View \U{2192} Developer "
    + "\U{2192} Allow JavaScript "
    + "from Apple Events"

  /** `execute_js_in_tab`: list the tabs by number, find the URL's tab, run
      the quoted code there. `run` is the outcome of running a script. */
  function ExecuteJsInTab(url: string, js: string, listing: Process.Output,
                          run: string -> Process.Output): (r: Result<string>)
    ensures listing.SpawnFailed? ==> r == Err(LIST_INDEX_FAILED + listing.message)
    ensures listing.Exited? && !listing.success ==> r == Err(LIST_INDEX_DENIED + Trim(listing.stderr))
    ensures listing.Exited? && listing.success && FindTab(listing.stdout, url).None? ==> r == Err(TAB_NOT_FOUND)
    ensures r.Ok? ==> listing.Exited? && listing.success && FindTab(listing.stdout, url).Some?
    ensures r.Ok? ==> (var (w, t) := FindTab(listing.stdout, url).value;
      var out := run(JsScript(w, t, js));
      out.Exited? && out.success && r.value == out.stdout)
  {
    match listing
    case SpawnFailed(e) => Err(LIST_INDEX_FAILED + e)
    case Exited(success, stdout, stderr) =>
      if !success then Err(LIST_INDEX_DENIED + Trim(stderr))
      else
        match FindTab(stdout, url)
        case None => Err(TAB_NOT_FOUND)
        case Some((w, t)) =>
          match run(JsScript(w, t, js))
          case SpawnFailed(e) => Err(JS_FAILED + e)
          case Exited(ok, out, err) =>
            if ok then Ok(out)
            else if Contains(err, JS_TURNED_OFF) then Err(JS_DISABLED)
            else Err(JS_FAILED + Trim(err))
  }

  /** A failed run names the Apple Events setting exactly when Chrome says
      JavaScript from AppleScript is off. */
  lemma {:induction false} JsTurnedOffExplained(url: string, js: string, listing: Process.Output,
                             run: string -> Process.Output)
    requires listing.Exited? && listing.success && FindTab(listing.stdout, url).Some?
    requires var (w, t) := FindTab(listing.stdout, url).value;
      run(JsScript(w, t, js)).Exited? && !run(JsScript(w, t, js)).success
    ensures var (w, t) := FindTab(listing.stdout, url).value;
      var err := run(JsScript(w, t, js)).stderr;
      ExecuteJsInTab(url, js, listing, run) ==
        if Contains(err, JS_TURNED_OFF) then Err(JS_DISABLED) else Err(JS_FAILED + Trim(err))
  {
  }

  // ---------------------------------------------------------------------
  // Page HTML
  // ---------------------------------------------------------------------

  const MAX_HTML_SIZE: nat := 5 * 1024 * 1024
  const OUTER_HTML_JS: string := "document.documentElement.outerHTML"
  const TOO_LARGE_PREFIX: string := "Page HTML too large ("
  const TOO_LARGE_SUFFIX: string := " MB) - this may not be a normal article page"

  /** The size guard of `get_tab_html`: page HTML whose UTF-8 length
      exceeds 5 MiB is refused. `megabytes` renders a byte count as
      megabytes with one decimal. */
  function CheckedHtml(html: Result<string>, megabytes: nat -> string): (r: Result<string>)
    ensures html.Err? ==> r == html
    ensures html.Ok? && Utf8.ByteLen(html.value) > MAX_HTML_SIZE ==>
      r == Err(TOO_LARGE_PREFIX + megabytes(Utf8.ByteLen(html.value)) + TOO_LARGE_SUFFIX)
    ensures r.Ok? <==> html.Ok? && Utf8.ByteLen(html.value) <= MAX_HTML_SIZE
    ensures r.Ok? ==> r.value == html.value
  {
    match html
    case Err(e) => Err(e)
    case Ok(page) =>
      if Utf8.ByteLen(page) > MAX_HTML_SIZE then
        Err(TOO_LARGE_PREFIX + megabytes(Utf8.ByteLen(page)) + TOO_LARGE_SUFFIX)
      else Ok(page)
  }

  /** `get_tab_html`: the tab's outer HTML, through the size guard. */
  function GetTabHtml(url: string, listing: Process.Output, run: string -> Process.Output,
                      megabytes: nat -> string): (r: Result<string>)
    ensures ExecuteJsInTab(url, OUTER_HTML_JS, listing, run).Err? ==>
      r == ExecuteJsInTab(url, OUTER_HTML_JS, listing, run)
    ensures r.Ok? <==>
      ExecuteJsInTab(url, OUTER_HTML_JS, listing, run).Ok? &&
      Utf8.ByteLen(ExecuteJsInTab(url, OUTER_HTML_JS, listing, run).value) <= MAX_HTML_SIZE
    ensures r.Ok? ==> listing.Exited? && listing.success && FindTab(listing.stdout, url).Some?
    ensures r.Ok? ==> (var (w, t) := FindTab(listing.stdout, url).value;
      r.value == run(JsScript(w, t, OUTER_HTML_JS)).stdout && Utf8.ByteLen(r.value) <= MAX_HTML_SIZE)
  {
    CheckedHtml(ExecuteJsInTab(url, OUTER_HTML_JS, listing, run), megabytes)
  }
}
