/** The Claude browser-extension extractor: rebuilding a conversation from
    the text blocks the accessibility tree yields for the extension's side
    panel, and the gist built from it. Reading the accessibility tree and
    asking the browser for its active tab are inputs to the model. */
module ClaudeExtension {
  import opened Wrappers
  import opened Text
  import Utf8
  import Json
  import Tabs
  import opened Gist

  /** `TextBlock`: a text node of the accessibility tree. */
  datatype TextBlock = TextBlock(text: string, role: string, depth: nat, parentRole: Option<string>)

  /** `WebArea`: a web page in the browser's accessibility tree. */
  datatype WebArea = WebArea(title: string)

  /** `ConversationData`. */
  datatype Conversation = Conversation(fullText: string, messageCount: nat, firstPrompt: string)

  const EMPTY_CONVERSATION: string := "Claude conversation is empty"
  const REPLY_MARKER: string := "[input: Reply to Claude]"
  const TRUNCATED_MARK: string := "\n\n[conversation truncated]"
  const MAX_TEXT_BYTES: nat := 50000
  const FIRST_PROMPT_CHARS: nat := 200
  /** Below this depth a block belongs to the panel's top level. */
  const SHALLOW: nat := 6

  const PLAN_WORDS: seq<string> := ["steps", "created a plan", "done", "extract page text"]

  /** `is_plan_indicator`: the lower-cased text mentions one of the words
      that open Claude's side of the conversation. */
  function IsPlanIndicator(text: string): (r: bool)
    ensures r <==>
      || Contains(Lower(text), "steps")
      || Contains(Lower(text), "created a plan")
      || Contains(Lower(text), "done")
      || Contains(Lower(text), "extract page text")
  {
    var l := Lower(text);
    assert PLAN_WORDS[0] == "steps" && PLAN_WORDS[1] == "created a plan";
    assert PLAN_WORDS[2] == "done" && PLAN_WORDS[3] == "extract page text";
    exists k :: 0 <= k < |PLAN_WORDS| && Contains(l, PLAN_WORDS[k])
  }

  /** The test ignores case. */
  lemma {:induction false} PlanIndicatorIgnoresCase(text: string)
    ensures IsPlanIndicator(Lower(text)) == IsPlanIndicator(text)
  {
    LowerIdempotent(text);
  }

  /** `ends_mid_sentence`: the text, without trailing white space, is not
      empty and does not end in '.', '!', '?' or ':'. */
  function EndsMidSentence(text: string): (r: bool)
    ensures IsBlank(text) ==> !r
    ensures !IsBlank(text) ==> (r <==> StripEndBy(text, IsWhitespace)[|StripEndBy(text, IsWhitespace)| - 1] !in {'.', '!', '?', ':', '\n'})
  {
    var t := StripEndBy(text, IsWhitespace);
    BlankStripsToEmpty(text);
    if t == [] then false else t[|t| - 1] !in {'.', '!', '?', ':', '\n'}
  }

  lemma BlankStripsToEmpty(text: string)
    ensures IsBlank(text) <==> StripEndBy(text, IsWhitespace) == []
  {
    var t := StripEndBy(text, IsWhitespace);
    TrimEmptyIffBlank(text);
    if t == [] {
      assert forall i :: 0 <= i < |text| ==> IsWhitespace(text[i]);
    }
  }

  // ---------------------------------------------------------------------
  // Rebuilding the conversation
  // ---------------------------------------------------------------------

  datatype Author = You | Claude

  function AuthorName(a: Author): string {
    match a
    case You => "You"
    case Claude => "Claude"
  }

  function Other(a: Author): Author {
    if a == You then Claude else You
  }

  /** Who speaks in the `i`-th message: the user first, then in turns. */
  function AuthorAt(i: nat): Author {
    if i % 2 == 0 then You else Claude
  }

  function Header(a: Author): (r: string)
    ensures |r| >= 11
  {
    "--- " + AuthorName(a) + " ---\n"
  }

  /** At most the first `n` characters (`chars().take(n)`). */
  function Take(s: string, n: nat): (r: string)
    ensures |r| <= n && StartsWith(s, r)
    ensures |s| <= n ==> r == s
  {
    if |s| <= n then s else s[..n]
  }

  /** The loop's variables: the flushed messages, whose turn it is, the
      message being built, the count of flushed messages, the first
      prompt, the depth of the last block looked at, and whether the last
      text appended was a heading. */
  datatype Acc = Acc(parts: seq<string>, author: Author, message: string, count: nat,
                     firstPrompt: string, lastDepth: nat, lastWasHeading: bool)

  const START: Acc := Acc([], You, [], 0, [], 0, false)

  /** Ends the message being built: it becomes the next part, under its
      author's header, and the turn passes. */
  function Flush(acc: Acc): (r: Acc)
    ensures r.parts == acc.parts + [Header(acc.author) + Trim(acc.message)]
    ensures r.count == acc.count + 1 && r.author == Other(acc.author) && r.message == []
    ensures r.firstPrompt == if acc.count == 0 then Take(Trim(acc.message), FIRST_PROMPT_CHARS) else acc.firstPrompt
  {
    var m := Trim(acc.message);
    acc.(parts := acc.parts + [Header(acc.author) + m],
         firstPrompt := if acc.count == 0 then Take(m, FIRST_PROMPT_CHARS) else acc.firstPrompt,
         count := acc.count + 1,
         message := [],
         lastWasHeading := false,
         author := Other(acc.author))
  }

  /** Static text inside a heading repeats the heading's own text. */
  predicate HeadingText(b: TextBlock) {
    b.role == "AXStaticText" && b.parentRole == Some("AXHeading")
  }

  /** A new message starts at a block back at the top level after a deeper
      one, or at a shallow block that opens Claude's answer. */
  predicate IsBoundary(lastDepth: nat, b: TextBlock) {
    (lastDepth > SHALLOW && b.depth < SHALLOW) || (b.depth < SHALLOW && IsPlanIndicator(b.text))
  }

  /** What goes between the message so far and the next text: nothing at
      the start, a blank line before a heading, a newline after one,
      nothing for an inline fragment one level away that continues a
      sentence, a newline otherwise. */
  function Separator(acc: Acc, b: TextBlock): (r: string)
    ensures acc.message == [] ==> r == []
    ensures acc.message != [] && b.role == "AXHeading" ==> r == "\n\n"
  {
    if acc.message == [] then []
    else if b.role == "AXHeading" then "\n\n"
    else if acc.lastWasHeading then "\n"
    else if b.parentRole == Some("AXGroup") && (b.depth - acc.lastDepth == 1 || acc.lastDepth - b.depth == 1)
      && EndsMidSentence(acc.message) then []
    else "\n"
  }

  /** One turn of the loop over a block that is not the reply marker. */
  function Step(acc: Acc, b: TextBlock): (r: Acc)
    ensures HeadingText(b) ==> r == acc
    ensures !HeadingText(b) ==> r.lastDepth == b.depth
  {
    if HeadingText(b) then acc
    else
      var a1 := if IsBoundary(acc.lastDepth, b) && acc.message != [] then Flush(acc) else acc;
      var a2 := if IsBlank(b.text) then a1
                else a1.(message := a1.message + Separator(a1, b) + b.text,
                         lastWasHeading := b.role == "AXHeading");
      a2.(lastDepth := b.depth)
  }

  predicate HasMarker(b: TextBlock) {
    Contains(b.text, REPLY_MARKER)
  }

  /** The loop: block by block, stopping at the first reply marker. */
  function Loop(acc: Acc, blocks: seq<TextBlock>): Acc
    decreases |blocks|
  {
    if |blocks| == 0 || HasMarker(blocks[0]) then acc
    else Loop(Step(acc, blocks[0]), blocks[1..])
  }

  /** After the loop: a message still being built is flushed too. */
  function Finish(acc: Acc): (r: Acc)
    ensures acc.message == [] ==> r == acc
  {
    if acc.message != [] then Flush(acc) else acc
  }

  /** The parts alternate between the user and Claude, the user first. */
  predicate Alternates(parts: seq<string>) {
    forall i :: 0 <= i < |parts| ==> StartsWith(parts[i], Header(AuthorAt(i)))
  }

  /** The first prompt is the first 200 characters of the first message,
      and empty before there is one. */
  predicate FirstPromptOf(parts: seq<string>, firstPrompt: string) {
    && (|parts| == 0 ==> firstPrompt == [])
    && (|parts| > 0 ==> (|Header(You)| <= |parts[0]|
          && firstPrompt == Take(parts[0][|Header(You)|..], FIRST_PROMPT_CHARS)))
  }

  /** What the loop keeps true: the count is the number of parts, the
      parts alternate starting with the user, the next part is the other
      speaker's, and the first prompt comes from the first message. */
  predicate Good(acc: Acc) {
    && acc.count == |acc.parts|
    && acc.author == AuthorAt(|acc.parts|)
    && Alternates(acc.parts)
    && FirstPromptOf(acc.parts, acc.firstPrompt)
  }

  /** Appending the next speaker's part keeps the turns alternating. */
  lemma {:induction false} AppendAlternates(parts: seq<string>, x: string)
    requires Alternates(parts)
    requires StartsWith(x, Header(AuthorAt(|parts|)))
    ensures Alternates(parts + [x])
  {
    forall i | 0 <= i < |parts + [x]| ensures StartsWith((parts + [x])[i], Header(AuthorAt(i))) {
      if i < |parts| {
        assert (parts + [x])[i] == parts[i];
      } else {
        assert (parts + [x])[i] == x;
      }
    }
  }

  lemma {:induction false} AppendFirstPrompt(parts: seq<string>, fp: string, m: string)
    requires FirstPromptOf(parts, fp)
    ensures FirstPromptOf(parts + [Header(AuthorAt(|parts|)) + m],
                          if |parts| == 0 then Take(m, FIRST_PROMPT_CHARS) else fp)
  {
    var x := Header(AuthorAt(|parts|)) + m;
    if |parts| == 0 {
      assert (parts + [x])[0] == x;
      assert x[|Header(You)|..] == m;
    } else {
      assert (parts + [x])[0] == parts[0];
    }
  }

  lemma {:induction false} FlushGood(acc: Acc)
    requires Good(acc)
    ensures Good(Flush(acc))
  {
    var x := Header(acc.author) + Trim(acc.message);
    assert x[..|Header(acc.author)|] == Header(acc.author);
    AppendAlternates(acc.parts, x);
    AppendFirstPrompt(acc.parts, acc.firstPrompt, Trim(acc.message));
    assert AuthorAt(|acc.parts| + 1) == Other(AuthorAt(|acc.parts|));
  }

  lemma {:induction false} StepGood(acc: Acc, b: TextBlock)
    requires Good(acc)
    ensures Good(Step(acc, b))
  {
    if !HeadingText(b) && IsBoundary(acc.lastDepth, b) && acc.message != [] {
      FlushGood(acc);
    }
  }

  lemma {:induction false} LoopGood(acc: Acc, blocks: seq<TextBlock>)
    requires Good(acc)
    ensures Good(Loop(acc, blocks))
    decreases |blocks|
  {
    if |blocks| > 0 && !HasMarker(blocks[0]) {
      StepGood(acc, blocks[0]);
      LoopGood(Step(acc, blocks[0]), blocks[1..]);
    }
  }

  /** Processing stops at the first block carrying the reply marker:
      nothing from it on matters. */
  lemma {:induction false} StopsAtMarker(acc: Acc, blocks: seq<TextBlock>, i: nat)
    requires i < |blocks| && HasMarker(blocks[i])
    ensures Loop(acc, blocks) == Loop(acc, blocks[..i])
    decreases i
  {
    if i > 0 && !HasMarker(blocks[0]) {
      assert blocks[1..][..i - 1] == blocks[..i][1..];
      StopsAtMarker(Step(acc, blocks[0]), blocks[1..], i - 1);
    } else if i > 0 {
      assert blocks[..i][0] == blocks[0];
    }
  }

  /** Running over two stretches one after the other, when the first has
      no marker. */
  lemma {:induction false} LoopAppend(acc: Acc, pre: seq<TextBlock>, post: seq<TextBlock>)
    requires forall k :: 0 <= k < |pre| ==> !HasMarker(pre[k])
    ensures Loop(acc, pre + post) == Loop(Loop(acc, pre), post)
    decreases |pre|
  {
    if |pre| > 0 {
      assert (pre + post)[0] == pre[0];
      assert (pre + post)[1..] == pre[1..] + post;
      LoopAppend(Step(acc, pre[0]), pre[1..], post);
    } else {
      assert pre + post == post;
    }
  }

  /** Static text inside a heading changes nothing: dropping it gives the
      same conversation. */
  lemma {:induction false} HeadingTextIgnored(acc: Acc, pre: seq<TextBlock>, b: TextBlock, post: seq<TextBlock>)
    requires forall k :: 0 <= k < |pre| ==> !HasMarker(pre[k])
    requires HeadingText(b) && !HasMarker(b)
    ensures Loop(acc, pre + [b] + post) == Loop(acc, pre + post)
  {
    assert pre + [b] + post == pre + ([b] + post);
    LoopAppend(acc, pre, [b] + post);
    LoopAppend(acc, pre, post);
    assert ([b] + post)[1..] == post;
  }

  /** The messages of a conversation: every part the loop and the final
      flush produce. */
  function Messages(blocks: seq<TextBlock>): (r: seq<string>)
  {
    Finish(Loop(START, blocks)).parts
  }

  /** `full_text`: over 50000 bytes it is cut to 50000 bytes and marked;
      `None` where byte 50000 falls inside a character and `truncate`
      panics. */
  function Truncate(text: string): (r: Option<string>)
    ensures Utf8.ByteLen(text) <= MAX_TEXT_BYTES ==> r == Some(text)
    ensures Utf8.ByteLen(text) > MAX_TEXT_BYTES && r.Some? ==>
      EndsWith(r.value, TRUNCATED_MARK)
      && Utf8.BytePrefix(text, MAX_TEXT_BYTES) == Some(r.value[..|r.value| - |TRUNCATED_MARK|])
  {
    if Utf8.ByteLen(text) <= MAX_TEXT_BYTES then Some(text)
    else match Utf8.BytePrefix(text, MAX_TEXT_BYTES)
      case None => None
      case Some(head) =>
        assert (head + TRUNCATED_MARK)[..|head|] == head;
        Some(head + TRUNCATED_MARK)
  }

  /** ASCII text over the limit keeps exactly its first 50000 characters. */
  lemma {:induction false} AsciiTruncation(text: string)
    requires forall i :: 0 <= i < |text| ==> text[i] as int < 0x80
    requires |text| > MAX_TEXT_BYTES
    ensures Truncate(text) == Some(text[..MAX_TEXT_BYTES] + TRUNCATED_MARK)
  {
    Utf8.EncodeAscii(text);
    Utf8.AsciiBytePrefix(text, MAX_TEXT_BYTES);
  }

  /** A two-byte character straddling byte 50000 makes the cut panic. */
  lemma {:induction false} TruncationPanicsInsideChar(a: string, b: string)
    requires Utf8.ByteLen(a) == MAX_TEXT_BYTES - 1
    ensures Truncate(a + "\U{E9}" + b) == None
  {
    var s := a + ['\U{E9}'] + b;
    assert a + "\U{E9}" + b == s;
    Utf8.BytePrefixInsideChar(a, '\U{E9}', b, MAX_TEXT_BYTES);
    assert s == a + (['\U{E9}'] + b);
    Utf8.EncodeAppend(a, ['\U{E9}'] + b);
    Utf8.ByteLenCons('\U{E9}', b);
  }

  /** `reconstruct_conversation`: `None` where the truncation panics. */
  function Reconstruct(blocks: seq<TextBlock>): (r: Option<Result<Conversation>>)
    ensures r == Some(Err(EMPTY_CONVERSATION)) <==> blocks == []
    ensures r.Some? && r.value.Ok? ==>
      var c := r.value.value;
      var ms := Messages(blocks);
      && c.messageCount == |ms|
      && (forall i :: 0 <= i < |ms| ==> StartsWith(ms[i], Header(AuthorAt(i))))
      && (|ms| == 0 ==> c.firstPrompt == [])
      && (|ms| > 0 ==> c.firstPrompt == Take(ms[0][|Header(You)|..], FIRST_PROMPT_CHARS))
      && (Utf8.ByteLen(Join(ms, "\n\n")) <= MAX_TEXT_BYTES ==> c.fullText == Join(ms, "\n\n"))
      && (Utf8.ByteLen(Join(ms, "\n\n")) > MAX_TEXT_BYTES ==> EndsWith(c.fullText, TRUNCATED_MARK))
  {
    if blocks == [] then Some(Err(EMPTY_CONVERSATION))
    else
      var acc := Finish(Loop(START, blocks));
      LoopGood(START, blocks);
      FlushGood(Loop(START, blocks));
      match Truncate(Join(acc.parts, "\n\n"))
      case None => None
      case Some(full) => Some(Ok(Conversation(full, acc.count, acc.firstPrompt)))
  }

  // ---------------------------------------------------------------------
  // The gist
  // ---------------------------------------------------------------------

  /** Where the first web area whose title does (or does not) mention
      Claude is. */
  function FirstArea(areas: seq<WebArea>, claude: bool): (r: Option<nat>)
    ensures r.Some? ==> (r.value < |areas| && Contains(areas[r.value].title, "Claude") == claude
      && forall j :: 0 <= j < r.value ==> Contains(areas[j].title, "Claude") != claude)
    ensures r.None? ==> forall j :: 0 <= j < |areas| ==> Contains(areas[j].title, "Claude") != claude
  {
    if |areas| == 0 then None
    else if Contains(areas[0].title, "Claude") == claude then Some(0)
    else match FirstArea(areas[1..], claude)
      case Some(i) => Some(i + 1)
      case None => None
  }

  const NO_PANEL: string :=
    "No Claude conversation found. Open "
    + "the Claude Chrome Extension side "
    + "panel first."
  const NO_ACTIVE_TAB: string := "No active tab found"

  /** `find_claude_web_area`. */
  function FindClaudeWebArea(areas: seq<WebArea>): (r: Result<WebArea>)
    ensures r.Err? <==> forall j :: 0 <= j < |areas| ==> !Contains(areas[j].title, "Claude")
    ensures r.Err? ==> r.error == NO_PANEL
    ensures r.Ok? ==> r.value in areas && Contains(r.value.title, "Claude")
  {
    match FirstArea(areas, true)
    case Some(i) => Ok(areas[i])
    case None => Err(NO_PANEL)
  }

  /** `extract_page_title`: the title of the first web area that is not
      the Claude panel. */
  function ExtractPageTitle(areas: seq<WebArea>): (r: Result<string>)
    ensures r.Err? <==> forall j :: 0 <= j < |areas| ==> Contains(areas[j].title, "Claude")
    ensures r.Err? ==> r.error == NO_ACTIVE_TAB
    ensures r.Ok? ==> exists j :: (0 <= j < |areas| && areas[j].title == r.value
      && !Contains(r.value, "Claude")
      && forall k :: 0 <= k < j ==> Contains(areas[k].title, "Claude"))
  {
    match FirstArea(areas, false)
    case Some(i) => Ok(areas[i].title)
    case None => Err(NO_ACTIVE_TAB)
  }

  /** `build_page_gist`. */
  function BuildPageGist(pageUrl: string, pageTitle: string, c: Conversation, version: string): (r: PageGist)
    ensures r.url == pageUrl && r.sourceType == Tabs.Chat && r.domain == Tabs.ExtractDomain(pageUrl)
    ensures StripPrefix(r.title, "Claude: ") == Some(pageTitle)
    ensures r.author == Some("Claude Extension")
    ensures r.description == Some(c.firstPrompt) && r.contentExcerpt == Some(c.fullText)
    ensures r.publishedDate.None? && r.imageUrl.None?
    ensures Json.GetStr(r.extra, "page_url") == Some(pageUrl)
    ensures Json.GetStr(r.extra, "page_title") == Some(pageTitle)
    ensures Json.Get(r.extra, "message_count") == Some(Json.Int(c.messageCount))
    ensures Json.GetStr(r.extra, "extraction_method") == Some("accessibility_api")
    ensures Json.GetStr(r.extra, "claude_extension_version") == Some(version)
  {
    assert ("Claude: " + pageTitle)[|"Claude: "|..] == pageTitle;
    PageGist(pageUrl, "Claude: " + pageTitle, Tabs.Chat, Tabs.ExtractDomain(pageUrl),
      Some("Claude Extension"), Some(c.firstPrompt), Some(c.fullText), None, None,
      Json.Obj(map[
        "page_url" := Json.Str(pageUrl),
        "page_title" := Json.Str(pageTitle),
        "message_count" := Json.Int(c.messageCount),
        "extraction_method" := Json.Str("accessibility_api"),
        "claude_extension_version" := Json.Str(version)]))
  }

  const NO_PERMISSION: string :=
    "Accessibility permission not granted. "
    + "Please enable accessibility "
    + "access for this app in System Settings > Privacy & Security "
    + "> Accessibility."

  /** What the accessibility tree and the browser answer: whether access
      is granted, the browser process lookup, its web areas, the text
      blocks of an area, and the active tab's URL. */
  datatype Desktop = Desktop(
    permission: bool,
    chrome: Result<nat>,
    webAreas: Result<seq<WebArea>>,
    textOf: WebArea -> Result<seq<TextBlock>>,
    activeTabUrl: Result<string>)

  /** `extract` on macOS: each step's error in order. `None` where the
      truncation panics. */
  function Extract(d: Desktop): (r: Option<Result<PageGist>>)
    ensures !d.permission ==> r == Some(Err(NO_PERMISSION))
    ensures d.permission && d.chrome.Err? ==> r == Some(Err(d.chrome.error))
    ensures r.Some? && r.value.Ok? ==>
      && d.permission && d.chrome.Ok? && d.webAreas.Ok? && d.activeTabUrl.Ok?
      && FindClaudeWebArea(d.webAreas.value).Ok?
      && ExtractPageTitle(d.webAreas.value).Ok?
      && r.value.value.title == "Claude: " + ExtractPageTitle(d.webAreas.value).value
      && r.value.value.url == d.activeTabUrl.value
      && r.value.value.sourceType == Tabs.Chat
  {
    if !d.permission then Some(Err(NO_PERMISSION))
    else if d.chrome.Err? then Some(Err(d.chrome.error))
    else if d.webAreas.Err? then Some(Err(d.webAreas.error))
    else
      var areas := d.webAreas.value;
      match FindClaudeWebArea(areas)
      case Err(e) => Some(Err(e))
      case Ok(panel) =>
        match d.textOf(panel)
        case Err(e) => Some(Err(e))
        case Ok(blocks) =>
          match ExtractPageTitle(areas)
          case Err(e) => Some(Err(e))
          case Ok(title) =>
            match Reconstruct(blocks)
            case None => None
            case Some(Err(e)) => Some(Err(e))
            case Some(Ok(c)) =>
              match d.activeTabUrl
              case Err(e) => Some(Err(e))
              case Ok(url) => Some(Ok(BuildPageGist(url, title, c, panel.title)))
  }
}
