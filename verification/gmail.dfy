/** The Gmail extractor: what it makes of the record its page script
    returns. The script itself runs in the browser and is not modelled; its
    JSON output arrives as text and is read by `decode`. */
module Gmail {
  import opened Wrappers
  import opened Text
  import Json
  import Tabs
  import opened Gist

  /** `GmailDomData`: every field may be missing from the script's JSON. */
  datatype DomData = DomData(
    subject: Option<string>,
    sender: Option<string>,
    participants: Option<seq<string>>,
    emailCount: Option<nat>,
    threadText: Option<string>,
    isThread: Option<bool>)

  const PARSE_ERROR: string := "Failed to parse Gmail thread data: "
  const NO_THREAD: string :=
    "No email thread found \U{2014} please open "
    + "a specific email thread in Gmail"
  const UNKNOWN_THREAD: string := "Unknown Thread"
  /** The " · " between the count and the participants. */
  const DOT: string := " \U{B7} "

  /** "3 emails", then " · " and the comma-joined participants when there
      are any. */
  function Description(count: nat, participants: seq<string>): (r: string)
    ensures StartsWith(r, CountPhrase(count, "email"))
    ensures participants == [] <==> r == CountPhrase(count, "email")
    ensures participants != [] ==> r == CountPhrase(count, "email") + DOT + Join(participants, ", ")
  {
    if participants == [] then CountPhrase(count, "email")
    else CountPhrase(count, "email") + DOT + Join(participants, ", ")
  }

  /** `extract`. */
  function Extract(url: string, sourceType: Tabs.SourceType, domain: string,
                   js: Result<string>, decode: string -> Result<DomData>): (r: Result<PageGist>)
    ensures ReadDom(js, decode, PARSE_ERROR).Err? ==> r == Err(ReadDom(js, decode, PARSE_ERROR).error)
    ensures ReadDom(js, decode, PARSE_ERROR).Ok? ==>
      (r.Err? <==> ReadDom(js, decode, PARSE_ERROR).value.isThread != Some(true))
    ensures r.Err? && ReadDom(js, decode, PARSE_ERROR).Ok? ==> r.error == NO_THREAD
    ensures r.Ok? ==>
      var d := ReadDom(js, decode, PARSE_ERROR).value;
      var g := r.value;
      && d.isThread == Some(true)
      && g.url == url && g.sourceType == sourceType && g.domain == domain
      && g.title != []
      && g.title == (if d.subject.Some? && d.subject.value != [] then d.subject.value else UNKNOWN_THREAD)
      && g.author == d.sender
      && g.description == Some(Description(d.emailCount.GetOr(0), d.participants.GetOr([])))
      && (g.contentExcerpt.None? <==> d.threadText.None? || d.threadText.value == [])
      && (g.contentExcerpt.Some? ==> g.contentExcerpt == d.threadText)
      && g.publishedDate.None? && g.imageUrl.None?
      && Json.Get(g.extra, "email_count") == Some(Json.Int(d.emailCount.GetOr(0)))
      && Json.Get(g.extra, "participants").Some?
      && Json.AsStringArray(Json.Get(g.extra, "participants").value) == Some(d.participants.GetOr([]))
  {
    var d :- ReadDom(js, decode, PARSE_ERROR);
    if !d.isThread.GetOr(false) then Err(NO_THREAD)
    else
      var count := d.emailCount.GetOr(0);
      var participants := d.participants.GetOr([]);
      Json.StrArrayRoundTrip(participants);
      Ok(PageGist(
        url, NonEmptyOr(d.subject, UNKNOWN_THREAD), sourceType, domain,
        d.sender,
        Some(Description(count, participants)),
        TextOrNone(d.threadText),
        None, None,
        Json.Obj(map["email_count" := Json.Int(count), "participants" := Json.StrArray(participants)])))
  }

  /** Every participant is named in the description. */
  lemma {:induction false} DescriptionNamesEveryParticipant(count: nat, participants: seq<string>, k: nat)
    requires k < |participants|
    ensures Contains(Description(count, participants), participants[k])
  {
    var j := Join(participants, ", ");
    var front := CountPhrase(count, "email") + DOT;
    JoinHas(participants, ", ", k);
    var i := Find(j, participants[k]).value;
    var r := Description(count, participants);
    assert r == front + j;
    assert r[|front| + i..|front| + i + |participants[k]|] == j[i..i + |participants[k]|];
    ContainsAt(r, participants[k], |front| + i);
  }

  /** A thread's gist opens its description with the email count and names
      every participant in it, and its title is never empty. */
  lemma {:induction false} ExtractNamesEveryParticipant(url: string, sourceType: Tabs.SourceType, domain: string,
                                                         js: Result<string>, decode: string -> Result<DomData>, k: nat)
    requires Extract(url, sourceType, domain, js, decode).Ok?
    requires k < |ReadDom(js, decode, PARSE_ERROR).value.participants.GetOr([])|
    ensures var g := Extract(url, sourceType, domain, js, decode).value;
      var d := ReadDom(js, decode, PARSE_ERROR).value;
      && StartsWith(g.description.value, CountPhrase(d.emailCount.GetOr(0), "email"))
      && Contains(g.description.value, d.participants.value[k])
  {
    var d := ReadDom(js, decode, PARSE_ERROR).value;
    DescriptionNamesEveryParticipant(d.emailCount.GetOr(0), d.participants.GetOr([]), k);
  }
}
