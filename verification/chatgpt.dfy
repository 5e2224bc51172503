/** The ChatGPT extractor: what it makes of the record its page script
    returns. The script runs in the browser and is not modelled; its JSON
    output arrives as text and is read by `decode`. */
module ChatGpt {
  import opened Wrappers
  import opened Text
  import Json
  import Tabs
  import opened Gist

  /** `ChatGptDomData`: every field may be missing from the script's JSON. */
  datatype DomData = DomData(
    title: Option<string>,
    messageCount: Option<nat>,
    conversationText: Option<string>,
    isConversation: Option<bool>)

  const PARSE_ERROR: string := "Failed to parse ChatGPT conversation data: "
  const NO_CONVERSATION: string :=
    "No conversation found \U{2014} please open "
    + "a specific ChatGPT conversation"
  const UNTITLED: string := "Untitled Conversation"

  /** `extract`. */
  function Extract(url: string, sourceType: Tabs.SourceType, domain: string,
                   js: Result<string>, decode: string -> Result<DomData>): (r: Result<PageGist>)
    ensures ReadDom(js, decode, PARSE_ERROR).Err? ==> r == Err(ReadDom(js, decode, PARSE_ERROR).error)
    ensures ReadDom(js, decode, PARSE_ERROR).Ok? ==>
      (r.Err? <==> ReadDom(js, decode, PARSE_ERROR).value.isConversation != Some(true))
    ensures r.Err? && ReadDom(js, decode, PARSE_ERROR).Ok? ==> r.error == NO_CONVERSATION
    ensures r.Ok? ==>
      var d := ReadDom(js, decode, PARSE_ERROR).value;
      var g := r.value;
      && d.isConversation == Some(true)
      && g.url == url && g.sourceType == sourceType && g.domain == domain
      && g.title != []
      && (d.title.Some? && d.title.value != [] ==> g.title == d.title.value)
      && (d.title.None? || d.title.value == [] ==> g.title == UNTITLED)
      && g.author.None?
      && g.description == Some(CountPhrase(d.messageCount.GetOr(0), "message"))
      && (g.contentExcerpt.None? <==> d.conversationText.None? || d.conversationText.value == [])
      && g.publishedDate.None? && g.imageUrl.None?
      && g.extra == Json.Obj(map["message_count" := Json.Int(d.messageCount.GetOr(0))])
  {
    var d :- ReadDom(js, decode, PARSE_ERROR);
    if !d.isConversation.GetOr(false) then Err(NO_CONVERSATION)
    else
      var count := d.messageCount.GetOr(0);
      Ok(PageGist(
        url, NonEmptyOr(d.title, UNTITLED), sourceType, domain,
        None,
        Some(CountPhrase(count, "message")),
        TextOrNone(d.conversationText),
        None, None,
        Json.Obj(map["message_count" := Json.Int(count)])))
  }
}
