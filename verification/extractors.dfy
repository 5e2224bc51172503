/** The extractor router: which extractor builds the gist of a page, how a
    page gist and a Claude conversation gist are merged, and the YouTube
    gist in `PageGist` form. */
module Extractors {
  import opened Wrappers
  import opened Text
  import Json
  import Tabs
  import YouTube
  import Generic
  import Gmail
  import ChatGpt
  import Medium
  import opened Gist

  datatype Extractor = UseYouTube | UseGmail | UseChatGpt | UseMedium | UseGeneric

  /** The arms of `prepare_gist`, tried in order: the source type decides
      first, and only an otherwise unclaimed page on a "medium.com" domain
      goes to the Medium extractor. */
  function Route(sourceType: Tabs.SourceType, domain: string): (r: Extractor)
    ensures r == UseYouTube <==> sourceType == Tabs.YouTube
    ensures r == UseGmail <==> sourceType == Tabs.Email
    ensures r == UseChatGpt <==> sourceType == Tabs.Chat
    ensures r == UseMedium <==>
      sourceType !in {Tabs.YouTube, Tabs.Email, Tabs.Chat} && Contains(domain, "medium.com")
    ensures r == UseGeneric <==>
      sourceType !in {Tabs.YouTube, Tabs.Email, Tabs.Chat} && !Contains(domain, "medium.com")
  {
    match sourceType
    case YouTube => UseYouTube
    case Email => UseGmail
    case Chat => UseChatGpt
    case _ => if Contains(domain, "medium.com") then UseMedium else UseGeneric
  }

  /** What each extractor would see of the page: the fetched YouTube page,
      the result of running the tab's page script and the decoders of its
      JSON, and the generic extractor's view of the fetched HTML. */
  datatype Sources = Sources(
    youtubePage: Result<string>,
    script: Result<string>,
    decodeGmail: string -> Result<Gmail.DomData>,
    decodeChatGpt: string -> Result<ChatGpt.DomData>,
    decodeMedium: string -> Result<Medium.DomData>,
    page: Result<Generic.Page>)

  /** `youtube_gist`: the channel is the author and the extra fields carry
      the video id, channel and duration; there is no excerpt. */
  function YoutubeGist(yt: YouTube.Gist, domain: string): (r: PageGist)
    ensures r.url == yt.url && r.title == yt.title && r.sourceType == Tabs.YouTube && r.domain == domain
    ensures r.author == Some(yt.channel) && r.description == Some(yt.description)
    ensures r.contentExcerpt.None? && r.publishedDate.None? && r.imageUrl.None?
    ensures Json.GetStr(r.extra, "video_id") == Some(yt.videoId)
    ensures Json.GetStr(r.extra, "channel") == Some(yt.channel)
    ensures Json.Get(r.extra, "duration_seconds") == Some(Json.Int(yt.durationSeconds))
  {
    PageGist(yt.url, yt.title, Tabs.YouTube, domain, Some(yt.channel), Some(yt.description),
      None, None, None,
      Json.Obj(map[
        "video_id" := Json.Str(yt.videoId),
        "channel" := Json.Str(yt.channel),
        "duration_seconds" := Json.Int(yt.durationSeconds)]))
  }

  /** `prepare_gist`: the domain of the URL, then the routed extractor.
      `None` where the generic extractor's excerpt cut panics. */
  function PrepareGist(url: string, sourceType: Tabs.SourceType, src: Sources): (r: Option<Result<PageGist>>)
    ensures var domain := Tabs.ExtractDomain(url);
      match Route(sourceType, domain)
      case UseYouTube =>
        r == Some(match YouTube.ScrapeGist(url, src.youtubePage)
                  case Ok(yt) => Ok(YoutubeGist(yt, domain))
                  case Err(e) => Err(e))
      case UseGmail => r == Some(Gmail.Extract(url, sourceType, domain, src.script, src.decodeGmail))
      case UseChatGpt => r == Some(ChatGpt.Extract(url, sourceType, domain, src.script, src.decodeChatGpt))
      case UseMedium => r == Some(Medium.Extract(url, sourceType, domain, src.script, src.decodeMedium))
      case UseGeneric => r == Generic.Extract(url, sourceType, domain, src.page)
    ensures r.Some? && r.value.Ok? ==> r.value.value.domain == Tabs.ExtractDomain(url)
  {
    var domain := Tabs.ExtractDomain(url);
    match Route(sourceType, domain)
    case UseYouTube =>
      (match YouTube.ScrapeGist(url, src.youtubePage)
       case Ok(yt) => Some(Ok(YoutubeGist(yt, domain)))
       case Err(e) => Some(Err(e)))
    case UseGmail => Some(Gmail.Extract(url, sourceType, domain, src.script, src.decodeGmail))
    case UseChatGpt => Some(ChatGpt.Extract(url, sourceType, domain, src.script, src.decodeChatGpt))
    case UseMedium => Some(Medium.Extract(url, sourceType, domain, src.script, src.decodeMedium))
    case UseGeneric => Generic.Extract(url, sourceType, domain, src.page)
  }

  /** Every gist `prepare_gist` returns has the source type it was asked
      for and the URL's domain. */
  lemma {:induction false} PreparedGistKeepsKind(url: string, sourceType: Tabs.SourceType, src: Sources)
    requires PrepareGist(url, sourceType, src).Some? && PrepareGist(url, sourceType, src).value.Ok?
    ensures var g := PrepareGist(url, sourceType, src).value.value;
      g.sourceType == sourceType && g.domain == Tabs.ExtractDomain(url)
  {
  }

  const PAGE_LABEL: string := "--- Page Content ---\n"
  const CLAUDE_LABEL: string := "--- Claude Conversation ---\n"

  /** A labelled part of the merged content, when the text is there and
      not blank. */
  function Part(heading: string, text: Option<string>): (r: seq<string>)
    ensures |r| <= 1
    ensures |r| == 1 <==> text.Some? && !IsBlank(text.value)
    ensures |r| == 1 ==> r[0] == heading + text.value
  {
    if text.Some? && !IsBlank(text.value) then [heading + text.value] else []
  }

  /** The merged extra fields: each side's non-null extra nested under its
      own key, and the conversation flag. */
  function MergedExtra(page: Json.Json, claude: Json.Json): (r: Json.Json)
    ensures r.Obj? && r.fields.Keys <= {"page", "claude", "has_claude_conversation"}
    ensures "has_claude_conversation" in r.fields && r.fields["has_claude_conversation"] == Json.Bool(true)
    ensures "page" in r.fields <==> !page.Null?
    ensures "page" in r.fields ==> r.fields["page"] == page
    ensures "claude" in r.fields <==> !claude.Null?
    ensures "claude" in r.fields ==> r.fields["claude"] == claude
  {
    var m0: map<string, Json.Json> := map[];
    var m1 := if page.Null? then m0 else m0["page" := page];
    var m2 := if claude.Null? then m1 else m1["claude" := claude];
    Json.Obj(m2["has_claude_conversation" := Json.Bool(true)])
  }

  /** `merge_gists`: the page gist's metadata with the conversation
      appended to its content. */
  function MergeGists(page: PageGist, claude: PageGist): (r: PageGist)
    ensures r.url == page.url && r.title == page.title && r.sourceType == page.sourceType
    ensures r.domain == page.domain && r.author == page.author
    ensures r.publishedDate == page.publishedDate && r.imageUrl == page.imageUrl
    ensures page.description.Some? ==> r.description == page.description
    ensures page.description.None? ==> r.description == claude.description
    ensures r.contentExcerpt.None? <==>
      (page.contentExcerpt.None? || IsBlank(page.contentExcerpt.value))
      && (claude.contentExcerpt.None? || IsBlank(claude.contentExcerpt.value))
    ensures r.extra == MergedExtra(page.extra, claude.extra)
  {
    var parts := Part(PAGE_LABEL, page.contentExcerpt) + Part(CLAUDE_LABEL, claude.contentExcerpt);
    PageGist(
      page.url, page.title, page.sourceType, page.domain, page.author,
      page.description.Or(claude.description),
      if parts == [] then None else Some(Join(parts, "\n\n")),
      page.publishedDate, page.imageUrl,
      MergedExtra(page.extra, claude.extra))
  }

  /** With both texts present, the merged content is the labelled page
      text, a blank line, then the labelled conversation; with one of
      them, just that one labelled. */
  lemma {:induction false} MergedContentLayout(page: PageGist, claude: PageGist)
    ensures var p := page.contentExcerpt; var c := claude.contentExcerpt;
      var m := MergeGists(page, claude).contentExcerpt;
      && (p.Some? && !IsBlank(p.value) && c.Some? && !IsBlank(c.value) ==>
            m == Some(PAGE_LABEL + p.value + "\n\n" + CLAUDE_LABEL + c.value))
      && (p.Some? && !IsBlank(p.value) && (c.None? || IsBlank(c.value)) ==>
            m == Some(PAGE_LABEL + p.value))
      && ((p.None? || IsBlank(p.value)) && c.Some? && !IsBlank(c.value) ==>
            m == Some(CLAUDE_LABEL + c.value))
  {
    var p := page.contentExcerpt;
    var c := claude.contentExcerpt;
    if p.Some? && !IsBlank(p.value) && c.Some? && !IsBlank(c.value) {
      var parts := [PAGE_LABEL + p.value, CLAUDE_LABEL + c.value];
      assert Part(PAGE_LABEL, p) + Part(CLAUDE_LABEL, c) == parts;
      assert Join(parts, "\n\n") == parts[0] + "\n\n" + Join(parts[1..], "\n\n");
      assert Join(parts[1..], "\n\n") == parts[1];
      assert MergeGists(page, claude).contentExcerpt == Some(Join(parts, "\n\n"));
      assert PAGE_LABEL + p.value + "\n\n" + CLAUDE_LABEL + c.value
        == (PAGE_LABEL + p.value) + "\n\n" + (CLAUDE_LABEL + c.value);
    }
  }

  /** The conversation text survives a merge verbatim: it ends the merged
      content. */
  lemma {:induction false} ConversationEndsMergedContent(page: PageGist, claude: PageGist)
    requires claude.contentExcerpt.Some? && !IsBlank(claude.contentExcerpt.value)
    ensures MergeGists(page, claude).contentExcerpt.Some?
    ensures EndsWith(MergeGists(page, claude).contentExcerpt.value, CLAUDE_LABEL + claude.contentExcerpt.value)
  {
    MergedContentLayout(page, claude);
    var p := page.contentExcerpt;
    var c := claude.contentExcerpt.value;
    var tail := CLAUDE_LABEL + c;
    if p.Some? && !IsBlank(p.value) {
      AppendAssoc(PAGE_LABEL + p.value + "\n\n", CLAUDE_LABEL, c);
      Framed(PAGE_LABEL + p.value, "\n\n", tail);
    } else {
      assert tail[|tail| - |tail|..] == tail;
    }
  }
}
