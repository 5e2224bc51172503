/** The IntelligenceKit provider (intelligence/intelligencekit_provider.rs):
    a client of an NDJSON sidecar that keeps one open session.

    The sidecar is an oracle: `Replies` gives the reply to the n-th command
    sent over the link (an `Err` is a transport failure: a write or read
    timeout, a broken pipe or an unparseable line). The link records every
    command sent, so contracts can say which commands an operation issues. */
module IntelligenceKit {
  import opened Wrappers
  import opened Text
  import opened Utf8
  import opened Json
  import opened TagList
  import opened IntelProvider
  import ChunkSplit

  /** Byte budget per chunk sent to the on-device model. */
  const MAX_CONTENT_CHARS: nat := 7000
  const SESSION_NOT_FOUND: string := "session_not_found"

  // ---------------------------------------------------------------------
  // The provider's own copy of the chunker
  // ---------------------------------------------------------------------

  /** The provider's private copy of `split_content`, written as the source's
      loop; it produces exactly the chunks of the shared utility. */
  method SplitContent(content: seq<byte>, max: nat) returns (chunks: seq<seq<byte>>)
    requires Valid(content)
    requires |content| <= max || max >= 4
    ensures chunks == ChunkSplit.SplitContent(content, max)
  {
    if |content| <= max {
      return [content];
    }
    chunks := [];
    var start := 0;
    ghost var all := ChunkSplit.SplitFrom(content, max, 0);
    while start < |content|
      invariant start <= |content| && IsCharBoundary(content, start)
      invariant start < |content| ==> chunks + ChunkSplit.SplitFrom(content, max, start) == all
      invariant start == |content| ==> chunks == all
      decreases |content| - start
    {
      ChunkSplit.SplitFromStep(content, max, start);
      if start + max >= |content| {
        chunks := chunks + [content[start..]];
        break;
      }
      var end := ChunkSplit.Snap(content, start + max);
      ChunkSplit.SnapProgress(content, start, max);
      var cut := ChunkSplit.BreakPos(content, start, end);
      assert cut == ChunkSplit.NextCut(content, max, start);
      AppendAssoc(chunks, [content[start..cut]], ChunkSplit.SplitFrom(content, max, cut));
      chunks := chunks + [content[start..cut]];
      start := cut;
    }
  }

  // ---------------------------------------------------------------------
  // Protocol records
  // ---------------------------------------------------------------------

  datatype Command = Command(name: string, sessionId: Option<string>, content: Option<seq<byte>>, format: Option<string>)

  datatype Response = Response(
    ok: bool,
    sessionId: Option<string>,
    result: Option<Json>,
    error: Option<string>,
    available: Option<bool>,
    reason: Option<string>)

  /** `check_availability_internal` once the reply has arrived. */
  function AvailabilityOf(r: Response): (a: Availability)
    ensures !r.ok ==> !a.available && a.reason.Some?
    ensures !r.ok && r.error.Some? ==> a.reason == r.error
    ensures !r.ok && r.error.None? ==> a.reason == Some("Unknown error")
    ensures r.ok ==> (a.available <==> r.available == Some(true)) && a.reason == r.reason
  {
    if !r.ok then Availability(false, Some(r.error.GetOr("Unknown error")))
    else Availability(r.available.GetOr(false), r.reason)
  }

  /** Tag validation of one `message` reply: a failed reply carries its error,
      the result must be an array of strings (absent means empty), an empty
      list is an error, and at most five tags are kept. */
  function TagsFromResponse(r: Response): (t: Result<seq<string>>)
    ensures t.Ok? ==> 1 <= |t.value| <= MAX_TAGS
    ensures t.Ok? ==> r.ok && r.result.Some? && AsStringArray(r.result.value).Some?
                      && t.value == Take(AsStringArray(r.result.value).value, MAX_TAGS)
    ensures (r.ok && r.result.Some? && AsStringArray(r.result.value).Some?
             && |AsStringArray(r.result.value).value| > 0) ==> t.Ok?
    ensures !r.ok ==> t == Err(r.error.GetOr("Tag generation failed"))
  {
    if !r.ok then Err(r.error.GetOr("Tag generation failed"))
    else
      var parsed := AsStringArray(r.result.GetOr(Arr([])));
      if parsed.None? then Err("Failed to parse tags: expected a sequence of strings")
      else if |parsed.value| == 0 then Err("Model returned no tags")
      else Ok(Take(parsed.value, MAX_TAGS))
  }

  /** Summary validation of one `message` reply: the result must be a JSON
      string (absent means empty) and must not be empty. */
  function SummaryFromResponse(r: Response): (s: Result<string>)
    ensures s.Ok? ==> r.ok && r.result == Some(Str(s.value)) && s.value != []
    ensures r.ok && r.result.Some? && r.result.value.Str? && r.result.value.s != [] ==> s.Ok?
    ensures r.ok && (r.result.None? || r.result == Some(Str([]))) ==> s == Err("Model returned empty summary")
    ensures !r.ok ==> s == Err(r.error.GetOr("Summarization failed"))
  {
    if !r.ok then Err(r.error.GetOr("Summarization failed"))
    else
      match r.result.GetOr(Str([]))
      case Str(t) => if t == [] then Err("Model returned empty summary") else Ok(t)
      case _ => Err("Failed to parse summary: expected a string")
  }

  // ---------------------------------------------------------------------
  // The link to the sidecar
  // ---------------------------------------------------------------------

  /** Reply to the n-th command sent. */
  type Replies = nat -> Result<Response>

  datatype Link = Link(session: Option<string>, sent: seq<Command>)

  datatype Step<T> = Step(result: Result<T>, link: Link)

  /** `send_command`: writes one command and reads one reply. */
  function Send(rs: Replies, l: Link, c: Command): (r: Step<Response>)
    ensures r.link == l.(sent := l.sent + [c])
  {
    Step(rs(|l.sent|), l.(sent := l.sent + [c]))
  }

  /** `open_session`: on success the new id becomes the current session. */
  function OpenSession(rs: Replies, l: Link): (r: Step<string>)
    ensures r.link.sent == l.sent + [Command("open-session", None, None, None)]
    ensures r.result.Ok? ==> r.link.session == Some(r.result.value)
    ensures r.result.Err? ==> r.link.session == l.session
  {
    var s := Send(rs, l, Command("open-session", None, None, None));
    match s.result
    case Err(e) => Step(Err(e), s.link)
    case Ok(resp) =>
      if !resp.ok then Step(Err(resp.error.GetOr("Failed to open session")), s.link)
      else if resp.sessionId.None? then Step(Err("No session_id in response"), s.link)
      else Step(Ok(resp.sessionId.value), s.link.(session := resp.sessionId))
  }

  /** `ensure_session`: an open session is reused without any command. */
  function EnsureSession(rs: Replies, l: Link): (r: Step<string>)
    ensures l.session.Some? ==> r == Step(Ok(l.session.value), l)
    ensures l.session.None? ==> r == OpenSession(rs, l)
    ensures r.result.Ok? ==> r.link.session == Some(r.result.value)
  {
    if l.session.Some? then Step(Ok(l.session.value), l) else OpenSession(rs, l)
  }

  /** One `message` exchange in the current (or a new) session, asking for
      the given output format. */
  function Message(rs: Replies, l: Link, format: string, content: seq<byte>): (r: Step<Response>)
    ensures r.result.Ok? ==> l.session.Some? ==>
      r.link.sent == l.sent + [Command("message", l.session, Some(content), Some(format))]
  {
    var s := EnsureSession(rs, l);
    match s.result
    case Err(e) => Step(Err(e), s.link)
    case Ok(id) => Send(rs, s.link, Command("message", Some(id), Some(content), Some(format)))
  }

  /** `generate_tags_internal`. */
  function TagsOnce(rs: Replies, l: Link, content: seq<byte>): (r: Step<seq<string>>)
    ensures r.result.Ok? ==> 1 <= |r.result.value| <= MAX_TAGS
  {
    var m := Message(rs, l, "string_list", content);
    match m.result
    case Err(e) => Step(Err(e), m.link)
    case Ok(resp) => Step(TagsFromResponse(resp), m.link)
  }

  /** `summarize_internal`. */
  function SummaryOnce(rs: Replies, l: Link, content: seq<byte>): (r: Step<string>)
    ensures r.result.Ok? ==> r.result.value != []
  {
    var m := Message(rs, l, "text", content);
    match m.result
    case Err(e) => Step(Err(e), m.link)
    case Ok(resp) => Step(SummaryFromResponse(resp), m.link)
  }

  predicate SessionExpired<T>(r: Result<T>) {
    r.Err? && Contains(r.error, SESSION_NOT_FOUND)
  }

  /** The retry wrapper of `generate_tags_with_retry` and
      `summarize_with_retry`: an error that names `session_not_found`
      reopens the session once and retries once; every other outcome
      passes through. */
  function WithRetry<T>(rs: Replies, l: Link, attempt: Link -> Step<T>): (r: Step<T>)
    ensures !SessionExpired(attempt(l).result) ==> r == attempt(l)
    ensures SessionExpired(attempt(l).result) ==>
      var reopen := OpenSession(rs, attempt(l).link);
      && reopen.link.sent == attempt(l).link.sent + [Command("open-session", None, None, None)]
      && (reopen.result.Err? ==> r == Step(Err(reopen.result.error), reopen.link))
      && (reopen.result.Ok? ==> r == attempt(reopen.link))
  {
    var first := attempt(l);
    if SessionExpired(first.result) then
      var reopen := OpenSession(rs, first.link);
      if reopen.result.Err? then Step(Err(reopen.result.error), reopen.link)
      else attempt(reopen.link)
    else first
  }

  function TagsWithRetry(rs: Replies, l: Link, content: seq<byte>): (r: Step<seq<string>>)
    ensures r.result.Ok? ==> 1 <= |r.result.value| <= MAX_TAGS
  {
    WithRetry(rs, l, (l2: Link) => TagsOnce(rs, l2, content))
  }

  function SummaryWithRetry(rs: Replies, l: Link, content: seq<byte>): (r: Step<string>)
    ensures r.result.Ok? ==> r.result.value != []
  {
    WithRetry(rs, l, (l2: Link) => SummaryOnce(rs, l2, content))
  }

  /** A retried tag request is never retried again, even when it reports an
      expired session a second time: exactly one open-session command sits
      between the two attempts. */
  lemma {:induction false} RetryAtMostOnce(rs: Replies, l: Link, content: seq<byte>)
    requires SessionExpired(TagsOnce(rs, l, content).result)
    requires OpenSession(rs, TagsOnce(rs, l, content).link).result.Ok?
    ensures var first := TagsOnce(rs, l, content);
      var reopened := OpenSession(rs, first.link).link;
      && TagsWithRetry(rs, l, content) == TagsOnce(rs, reopened, content)
      && reopened.sent == first.link.sent + [Command("open-session", None, None, None)]
  {
  }

  // ---------------------------------------------------------------------
  // Multi-chunk operations
  // ---------------------------------------------------------------------

  /** Tags from each chunk in turn: a fresh session per chunk; a chunk whose
      session cannot be opened or whose request fails contributes nothing. */
  function ChunkTags(rs: Replies, l: Link, chunks: seq<seq<byte>>): (r: (seq<string>, Link))
    decreases |chunks|
    ensures |r.0| <= MAX_TAGS * |chunks|
  {
    if |chunks| == 0 then ([], l)
    else
      var o := OpenSession(rs, l);
      if o.result.Err? then ChunkTags(rs, o.link, chunks[1..])
      else
        var t := TagsWithRetry(rs, o.link, chunks[0]);
        var mine := if t.result.Ok? then t.result.value else [];
        var rest := ChunkTags(rs, t.link, chunks[1..]);
        (mine + rest.0, rest.1)
  }

  /** `generate_tags`: single-chunk content goes straight to the retrying
      request; larger content is chunked, and the chunk tags are
      de-duplicated ignoring case and capped at five. */
  function GenerateTags(rs: Replies, l: Link, content: seq<byte>): (r: Step<seq<string>>)
    requires Valid(content)
    ensures r.result.Ok? ==> 1 <= |r.result.value| <= MAX_TAGS
    ensures |content| > MAX_CONTENT_CHARS && r.result.Ok? ==> DistinctIgnoreCase(r.result.value)
    ensures |content| > MAX_CONTENT_CHARS ==>
      var all := ChunkTags(rs, l, ChunkSplit.SplitContent(content, MAX_CONTENT_CHARS)).0;
      && (r.result.Err? <==> |all| == 0)
      && (r.result.Ok? ==> r.result.value == Take(FirstOccurrences(all), MAX_TAGS))
  {
    var chunks := ChunkSplit.SplitContent(content, MAX_CONTENT_CHARS);
    if |chunks| == 1 then
      TagsWithRetry(rs, l, content)
    else
      var all := ChunkTags(rs, l, chunks);
      Step(MergeTags(all.0), all.1)
  }

  /** Summaries from each chunk in turn, fresh session per chunk. */
  function ChunkSummaries(rs: Replies, l: Link, chunks: seq<seq<byte>>): (r: (seq<string>, Link))
    decreases |chunks|
    ensures forall i :: 0 <= i < |r.0| ==> r.0[i] != []
  {
    if |chunks| == 0 then ([], l)
    else
      var o := OpenSession(rs, l);
      if o.result.Err? then ChunkSummaries(rs, o.link, chunks[1..])
      else
        var s := SummaryWithRetry(rs, o.link, chunks[0]);
        var mine := if s.result.Ok? then [s.result.value] else [];
        var rest := ChunkSummaries(rs, s.link, chunks[1..]);
        (mine + rest.0, rest.1)
  }

  /** `summarize`: with several chunk summaries they are combined by one more
      request over their newline-joined text; if that fails the first chunk
      summary is returned. Only when no chunk succeeded is it an error. */
  function Summarize(rs: Replies, l: Link, content: seq<byte>): (r: Step<string>)
    requires Valid(content)
    ensures r.result.Ok? ==> r.result.value != []
    ensures |content| > MAX_CONTENT_CHARS ==>
      var all := ChunkSummaries(rs, l, ChunkSplit.SplitContent(content, MAX_CONTENT_CHARS));
      var parts := all.0;
      && (|parts| == 0 <==> r.result == Err("No summaries generated from any content chunk"))
      && (|parts| == 1 ==> r.result == Ok(parts[0]))
      && (|parts| >= 2 ==>
            var f := SummaryWithRetry(rs, OpenSession(rs, all.1).link, Encode(Join(parts, "\n")));
            && r.link == f.link
            && (f.result.Err? ==> r.result == Ok(parts[0]))
            && (f.result.Ok? ==> r.result == f.result))
  {
    var chunks := ChunkSplit.SplitContent(content, MAX_CONTENT_CHARS);
    if |chunks| == 1 then
      SummaryWithRetry(rs, l, content)
    else
      var all := ChunkSummaries(rs, l, chunks);
      var parts := all.0;
      if |parts| == 0 then Step(Err("No summaries generated from any content chunk"), all.1)
      else if |parts| == 1 then Step(Ok(parts[0]), all.1)
      else
        var renewed := OpenSession(rs, all.1);
        var combined := Encode(Join(parts, "\n"));
        var f := SummaryWithRetry(rs, renewed.link, combined);
        if f.result.Ok? then f else Step(Ok(parts[0]), f.link)
  }
}
