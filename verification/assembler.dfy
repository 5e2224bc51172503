/** The knowledge-file assembler: the markdown written for a gem's
    enrichment, transcript and co-pilot analysis, the readers that recover
    the tags and the summary from an enrichment file, and the assembled
    `gem.md`. Each subfile is given as present (its text) or absent. */
module Assembler {
  import opened Wrappers
  import opened Text
  import opened Json

  /** The fields of a gem's metadata that the document shows. */
  datatype GemMeta = GemMeta(
    title: string,
    sourceType: string,
    sourceUrl: string,
    author: Option<string>,
    capturedAt: string,
    projectId: Option<string>)

  const SUMMARY_HEADING: string := "## Summary"
  const TAGS_HEADING: string := "## Tags"
  const METADATA_HEADING: string := "## Enrichment Metadata"

  // ---------------------------------------------------------------------
  // Formatting the subfiles
  // ---------------------------------------------------------------------

  /** `format_content`: the content subfile is the content itself; its
      heading is added when the document is assembled. */
  function FormatContent(title: string, content: string): (r: string)
    ensures r == content
  {
    content
  }

  /** `format_transcript`: a heading, the language, then the text. */
  function FormatTranscript(transcript: string, language: string): (r: string)
    ensures StartsWith(r, "## Transcript\n\nLanguage: " + language + "\n\n")
    ensures EndsWith(r, transcript)
  {
    "## Transcript\n\nLanguage: " + language + "\n\n" + transcript
  }

  function BulletLines(items: seq<string>): (r: seq<string>)
    ensures |r| == |items| && forall i :: 0 <= i < |items| ==> r[i] == "- " + items[i]
  {
    seq(|items|, i requires 0 <= i < |items| => "- " + items[i])
  }

  /** One `- item` line per item. */
  function Bullets(items: seq<string>): (r: string)
    ensures r == Terminated(BulletLines(items))
  {
    if items == [] then ""
    else
      assert BulletLines(items)[1..] == BulletLines(items[1..]);
      "- " + items[0] + "\n" + Bullets(items[1..])
  }

  /** A list section: only for a non-empty array, listing its string
      elements and skipping the others. */
  function ListSection(heading: string, v: Option<Json>): (r: string)
    ensures r != "" <==> v.Some? && v.value.Arr? && v.value.items != []
  {
    match v
    case Some(Arr(items)) =>
      if items == [] then "" else heading + "\n" + ListBody(items)
    case _ => ""
  }

  /** What follows a list heading line: a blank line, the bullets, a blank
      line. */
  function ListBody(items: seq<Json>): string {
    "\n" + Bullets(StringElements(items)) + "\n"
  }

  /** A prose section: only for a non-empty string. */
  function TextSection(heading: string, text: Option<string>): (r: string)
    ensures r != "" <==> text.Some? && text.value != ""
  {
    match text
    case Some(s) => if s == "" then "" else heading + "\n\n" + s + "\n\n"
    case None => ""
  }

  function OptLine(prefix: string, v: Option<string>): string {
    match v
    case Some(x) => prefix + x + "\n"
    case None => ""
  }

  /** The metadata section: only when the provider or the time is a string. */
  function MetadataSection(provider: Option<string>, enrichedAt: Option<string>): (r: string)
    ensures r != "" <==> provider.Some? || enrichedAt.Some?
  {
    if provider.None? && enrichedAt.None? then ""
    else METADATA_HEADING + "\n" + MetadataBody(provider, enrichedAt)
  }

  /** What follows the metadata heading line. */
  function MetadataBody(provider: Option<string>, enrichedAt: Option<string>): string {
    "\n" + OptLine("- Provider: ", provider) + OptLine("- Enriched: ", enrichedAt) + "\n"
  }

  predicate HasTags(e: Json) {
    Get(e, "tags").Some? && Get(e, "tags").value.Arr? && Get(e, "tags").value.items != []
  }

  predicate HasSummary(e: Json) {
    GetStr(e, "summary").Some? && GetStr(e, "summary").value != ""
  }

  /** `format_enrichment`: the summary, the tags, then the metadata; empty
      exactly when there is nothing to show. */
  function FormatEnrichment(e: Json): (r: string)
    ensures r == "" <==> !HasSummary(e) && !HasTags(e) && GetStr(e, "provider").None? && GetStr(e, "enriched_at").None?
  {
    TextSection(SUMMARY_HEADING, GetStr(e, "summary"))
    + (ListSection(TAGS_HEADING, Get(e, "tags")) + MetadataSection(GetStr(e, "provider"), GetStr(e, "enriched_at")))
  }

  /** The rolling summary: `updated_summary` when the key is there (and
      then only if it is a string), otherwise `summary`. */
  function RollingSummary(c: Json): (r: Option<string>)
    ensures GetStr(c, "updated_summary").Some? ==> r == GetStr(c, "updated_summary")
    ensures Get(c, "updated_summary").None? ==> r == GetStr(c, "summary")
    ensures Get(c, "updated_summary").Some? && !Get(c, "updated_summary").value.Str? ==> r.None?
  {
    match Get(c, "updated_summary")
    case Some(v) => AsStr(v)
    case None => GetStr(c, "summary")
  }

  /** A key concept's line: only for an object whose term and context are
      both strings. */
  function ConceptLine(j: Json): (r: Option<string>)
    ensures r.Some? <==> GetStr(j, "term").Some? && GetStr(j, "context").Some?
    ensures r.Some? ==> r.value == "- **" + GetStr(j, "term").value + "**: " + GetStr(j, "context").value + "\n"
  {
    match (GetStr(j, "term"), GetStr(j, "context"))
    case (Some(t), Some(x)) => Some("- **" + t + "**: " + x + "\n")
    case _ => None
  }

  function ConceptSection(v: Option<Json>): (r: string)
    ensures r != "" <==> v.Some? && v.value.Arr? && v.value.items != []
  {
    match v
    case Some(Arr(items)) =>
      if items == [] then "" else "## Key Concepts\n\n" + Concat(FilterMap(items, ConceptLine)) + "\n"
    case _ => ""
  }

  /** No rolling summary, and no non-empty array under any list key. */
  predicate NothingToShow(c: Json) {
    && (RollingSummary(c).None? || RollingSummary(c).value == "")
    && ListSection("## Key Points", Get(c, "key_points")) == ""
    && ListSection("## Decisions", Get(c, "decisions")) == ""
    && ListSection("## Action Items", Get(c, "action_items")) == ""
    && ListSection("## Open Questions", Get(c, "open_questions")) == ""
    && ConceptSection(Get(c, "key_concepts")) == ""
  }

  /** The four lists and the key concepts, in that order; empty exactly
      when each of them is. */
  function CopilotLists(c: Json): (r: string)
    ensures r == "" <==>
      && ListSection("## Key Points", Get(c, "key_points")) == ""
      && ListSection("## Decisions", Get(c, "decisions")) == ""
      && ListSection("## Action Items", Get(c, "action_items")) == ""
      && ListSection("## Open Questions", Get(c, "open_questions")) == ""
      && ConceptSection(Get(c, "key_concepts")) == ""
  {
    var points := ListSection("## Key Points", Get(c, "key_points"));
    var decisions := ListSection("## Decisions", Get(c, "decisions"));
    var actions := ListSection("## Action Items", Get(c, "action_items"));
    var questions := ListSection("## Open Questions", Get(c, "open_questions"));
    var concepts := ConceptSection(Get(c, "key_concepts"));
    assert |points + decisions + actions + questions + concepts|
      == |points| + |decisions| + |actions| + |questions| + |concepts|;
    points + decisions + actions + questions + concepts
  }

  /** `format_copilot`: the rolling summary, the four lists, then the key
      concepts. */
  function FormatCopilot(c: Json): (r: string)
    ensures r == "" <==> NothingToShow(c)
  {
    var summary := TextSection("## Rolling Summary", RollingSummary(c));
    var lists := CopilotLists(c);
    assert |summary + lists| == |summary| + |lists|;
    summary + lists
  }

  /** A non-empty rolling summary opens the co-pilot file. */
  lemma {:induction false} CopilotOpensWithSummary(c: Json, summary: string)
    requires RollingSummary(c) == Some(summary) && summary != ""
    ensures StartsWith(FormatCopilot(c), "## Rolling Summary\n\n" + summary + "\n\n")
  {
    var head := TextSection("## Rolling Summary", RollingSummary(c));
    assert head == "## Rolling Summary\n\n" + summary + "\n\n";
    assert (head + CopilotLists(c))[..|head|] == head;
  }

  /** An updated summary that is a string wins over the original one. */
  lemma {:induction false} CopilotPrefersUpdatedSummary(c: Json, updated: string)
    requires GetStr(c, "updated_summary") == Some(updated) && updated != ""
    ensures StartsWith(FormatCopilot(c), "## Rolling Summary\n\n" + updated + "\n\n")
  {
    CopilotOpensWithSummary(c, updated);
  }

  /** A non-string `updated_summary` hides the original summary. */
  lemma {:induction false} NullUpdatedSummaryHidesSummary(c: Json)
    requires Get(c, "updated_summary") == Some(Null)
    ensures RollingSummary(c).None?
    ensures FormatCopilot(c) == ListSection("## Key Points", Get(c, "key_points"))
      + ListSection("## Decisions", Get(c, "decisions"))
      + ListSection("## Action Items", Get(c, "action_items"))
      + ListSection("## Open Questions", Get(c, "open_questions"))
      + ConceptSection(Get(c, "key_concepts"))
  {
  }

  // ---------------------------------------------------------------------
  // Reading the enrichment file back
  // ---------------------------------------------------------------------

  /** Every line trimmed. */
  function TrimAll(ls: seq<string>): (r: seq<string>)
    ensures |r| == |ls| && forall i :: 0 <= i < |ls| ==> r[i] == Trim(ls[i])
  {
    seq(|ls|, i requires 0 <= i < |ls| => Trim(ls[i]))
  }

  lemma {:induction false} TrimAllAppend(a: seq<string>, b: seq<string>)
    ensures TrimAll(a + b) == TrimAll(a) + TrimAll(b)
  {
  }

  lemma {:induction false} TrimAllIdentity(ls: seq<string>)
    requires forall i :: 0 <= i < |ls| ==> Trim(ls[i]) == ls[i]
    ensures TrimAll(ls) == ls
  {
  }

  /** The (trimmed) lines of the section under `heading`: they start after
      a line reading `heading` and stop before the next `##` line; another
      `heading` line inside the section is passed over. */
  function SectionLines(ts: seq<string>, heading: string, inSection: bool): (r: seq<string>)
    ensures |r| <= |ts|
  {
    if ts == [] then []
    else if ts[0] == heading then SectionLines(ts[1..], heading, true)
    else if !inSection then SectionLines(ts[1..], heading, false)
    else if StartsWith(ts[0], "##") then []
    else [ts[0]] + SectionLines(ts[1..], heading, true)
  }

  /** Non-empty, with no whitespace at either end: what `trim` returns
      when it returns something. */
  predicate Tidy(t: string) {
    t != [] && !IsWhitespace(t[0]) && !IsWhitespace(t[|t| - 1])
  }

  /** A tidy text is its own trim. */
  lemma {:induction false} TidyTrimmed(t: string)
    requires Tidy(t)
    ensures Trim(t) == t
  {
    TrimIdentity(t);
  }

  /** A bullet line's item: the trimmed text after `- `, if any. */
  function TagItem(t: string): (r: Option<string>)
    ensures r.Some? ==> Tidy(r.value)
  {
    if StartsWith(t, "- ") && Trim(t[2..]) != "" then
      StripBySlice(t[2..], IsWhitespace);
      Some(Trim(t[2..]))
    else None
  }

  /** The items of the bullet lines among `ts`, in order. */
  function TagItems(ts: seq<string>): (r: seq<string>)
    ensures |r| <= |ts|
    ensures forall i :: 0 <= i < |r| ==> Tidy(r[i])
  {
    if ts == [] then []
    else
      match TagItem(ts[0])
      case Some(x) => [x] + TagItems(ts[1..])
      case None => TagItems(ts[1..])
  }

  /** `extract_tags`: the items of the bullets in the Tags section. */
  function ExtractTags(md: string): (r: seq<string>)
    ensures forall i :: 0 <= i < |r| ==> Tidy(r[i])
  {
    TagItems(SectionLines(TrimAll(Lines(md)), TAGS_HEADING, false))
  }

  /** `extract_summary`: the non-empty lines of the Summary section joined
      by line feeds; `None` when there are none. */
  function ExtractSummary(md: string): (r: Option<string>)
    ensures r.Some? ==> r.value != []
  {
    var ls := NonEmpty(SectionLines(TrimAll(Lines(md)), SUMMARY_HEADING, false));
    if ls == [] then None else Some(Join(ls, "\n"))
  }

  // ---------------------------------------------------------------------
  // The round trips
  // ---------------------------------------------------------------------

  /** Lines before the heading are passed over. */
  lemma {:induction false} SkipToHeading(a: seq<string>, b: seq<string>, heading: string)
    requires forall i :: 0 <= i < |a| ==> a[i] != heading
    ensures SectionLines(a + b, heading, false) == SectionLines(b, heading, false)
  {
    if a != [] {
      assert (a + b)[1..] == a[1..] + b;
      SkipToHeading(a[1..], b, heading);
    } else {
      assert a + b == b;
    }
  }

  /** Lines that are neither headings nor the section's own heading are
      the section's lines. */
  lemma {:induction false} SectionBody(body: seq<string>, rest: seq<string>, heading: string)
    requires forall i :: 0 <= i < |body| ==> body[i] != heading && !StartsWith(body[i], "##")
    ensures SectionLines(body + rest, heading, true) == body + SectionLines(rest, heading, true)
  {
    if body != [] {
      assert (body + rest)[1..] == body[1..] + rest;
      SectionBody(body[1..], rest, heading);
    } else {
      assert body + rest == rest;
    }
  }

  /** A section: its heading line, lines that are not headings, then a
      closing line or the end. */
  lemma {:induction false} SectionOf(heading: string, body: seq<string>, rest: seq<string>)
    requires forall i :: 0 <= i < |body| ==> body[i] != heading && !StartsWith(body[i], "##")
    requires Closes(rest, heading)
    ensures SectionLines([heading] + body + rest, heading, false) == body
  {
    var ts := [heading] + body + rest;
    assert ts[0] == heading;
    assert ts[1..] == body + rest;
    SectionBody(body, rest, heading);
    ClosedSection(rest, heading);
  }

  /** A following heading, or the end of the text, closes a section. */
  predicate Closes(ts: seq<string>, heading: string) {
    ts == [] || (StartsWith(ts[0], "##") && ts[0] != heading)
  }

  lemma {:induction false} ClosedSection(ts: seq<string>, heading: string)
    requires Closes(ts, heading)
    ensures SectionLines(ts, heading, true) == []
  {
  }

  lemma {:induction false} TrimBullet(t: string)
    requires Tidy(t)
    ensures Trim("- " + t) == "- " + t
  {
    var b := "- " + t;
    assert b[0] == '-' && b[|b| - 1] == t[|t| - 1];
    TrimIdentity(b);
  }

  /** A bullet written for a trimmed item reads back as that item. */
  lemma {:induction false} TagItemOfBullet(t: string)
    requires Tidy(t)
    ensures TagItem("- " + t) == Some(t)
  {
    var b := "- " + t;
    assert b[..2] == "- ";
    assert b[2..] == t;
    TidyTrimmed(t);
  }

  lemma {:induction false} BulletItems(tags: seq<string>)
    requires forall i :: 0 <= i < |tags| ==> Tidy(tags[i])
    ensures TagItems(BulletLines(tags)) == tags
  {
    if tags != [] {
      var bl := BulletLines(tags);
      TagItemOfBullet(tags[0]);
      assert bl[0] == "- " + tags[0];
      assert bl[1..] == BulletLines(tags[1..]);
      BulletItems(tags[1..]);
    }
  }

  /** A tag as the enrichment format can carry it: non-empty, trimmed and
      on one line. */
  predicate CleanTag(t: string) {
    Tidy(t) && '\n' !in t
  }

  lemma {:induction false} ChompedIdentity(ls: seq<string>)
    requires forall i :: 0 <= i < |ls| ==> ls[i] == [] || ls[i][|ls[i]| - 1] != '\r'
    ensures Chomped(ls) == ls
  {
  }

  /** The lines of a summary section. */
  function SummarySectionLines(s: string): seq<string> {
    [SUMMARY_HEADING, ""] + Split(s, '\n') + [""]
  }

  lemma {:induction false} TextSectionTerminated(s: string)
    requires s != ""
    ensures TextSection(SUMMARY_HEADING, Some(s)) == Terminated(SummarySectionLines(s))
  {
    var ps := Split(s, '\n');
    TerminatedAppend([SUMMARY_HEADING, ""] + ps, [""]);
    TerminatedAppend([SUMMARY_HEADING, ""], ps);
    JoinTerminated(ps);
    SplitJoin(s, '\n');
  }

  /** The lines of a tags section. */
  function TagsSectionLines(tags: seq<string>): seq<string> {
    [TAGS_HEADING] + TagsBody(tags)
  }

  /** The lines under the Tags heading: the bullets between blank lines. */
  function TagsBody(tags: seq<string>): seq<string> {
    [""] + BulletLines(tags) + [""]
  }

  lemma {:induction false} ListSectionTerminated(tags: seq<string>)
    requires tags != []
    ensures ListSection(TAGS_HEADING, Some(StrArray(tags))) == Terminated(TagsSectionLines(tags))
  {
    var bl := BulletLines(tags);
    StrArrayRoundTrip(tags);
    StringElementsOfStrings(StrArray(tags).items);
    assert ListBody(StrArray(tags).items) == "\n" + Terminated(bl) + "\n";
    TerminatedAppend([""] + bl, [""]);
    TerminatedAppend([""], bl);
    assert Terminated([""]) == "\n";
    TerminatedAppend([TAGS_HEADING], TagsBody(tags));
    assert Terminated([TAGS_HEADING]) == TAGS_HEADING + "\n";
  }

  /** Text that starts with a heading line reads as that heading first. */
  lemma {:induction false} HeadingFirst(heading: string, rest: string)
    requires '\n' !in heading && Tidy(heading)
    ensures var ts := TrimAll(Lines(heading + "\n" + rest)); ts != [] && ts[0] == heading
  {
    assert Terminated([heading]) == heading + "\n";
    LinesAfterTerminated([heading], rest);
    TidyTrimmed(heading);
  }

  /** The three headings are tidy single lines. */
  lemma {:induction false} HeadingsAreLines()
    ensures '\n' !in SUMMARY_HEADING && Tidy(SUMMARY_HEADING) && StartsWith(SUMMARY_HEADING, "##")
    ensures '\n' !in TAGS_HEADING && Tidy(TAGS_HEADING) && StartsWith(TAGS_HEADING, "##")
    ensures '\n' !in METADATA_HEADING && Tidy(METADATA_HEADING) && StartsWith(METADATA_HEADING, "##")
  {
  }

  /** The metadata section closes any section before it. */
  lemma {:induction false} MetadataCloses(provider: Option<string>, enrichedAt: Option<string>, heading: string)
    requires heading != METADATA_HEADING
    ensures Closes(TrimAll(Lines(MetadataSection(provider, enrichedAt))), heading)
  {
    if provider.Some? || enrichedAt.Some? {
      HeadingsAreLines();
      HeadingFirst(METADATA_HEADING, MetadataBody(provider, enrichedAt));
    }
  }

  /** The lines of the tags section have no line feed and read back as
      written. */
  lemma {:induction false} TagsSectionRead(tags: seq<string>)
    requires forall i :: 0 <= i < |tags| ==> CleanTag(tags[i])
    ensures var tl := TagsSectionLines(tags); forall i :: 0 <= i < |tl| ==> '\n' !in tl[i]
    ensures TrimAll(Chomped(TagsSectionLines(tags))) == TagsSectionLines(tags)
  {
    var tl := TagsSectionLines(tags);
    HeadingsAreLines();
    forall i | 0 <= i < |tags|
      ensures tags[i][|tags[i]| - 1] != '\r' && Trim("- " + tags[i]) == "- " + tags[i] && '\n' !in "- " + tags[i]
    {
      TrimBullet(tags[i]);
    }
    forall i | 0 <= i < |tl| ensures '\n' !in tl[i] {
      if 2 <= i < |tl| - 1 {
        assert tl[i] == "- " + tags[i - 2];
      }
    }
    ChompedIdentity(tl);
    TidyTrimmed(TAGS_HEADING);
    TrimAllIdentity(tl);
  }

  /** Reading lines after terminated ones: the terminated lines come
      first, chomped and trimmed. */
  lemma {:induction false} ReadAfterTerminated(ls: seq<string>, rest: string)
    requires forall i :: 0 <= i < |ls| ==> '\n' !in ls[i]
    ensures TrimAll(Lines(Terminated(ls) + rest)) == TrimAll(Chomped(ls)) + TrimAll(Lines(rest))
  {
    LinesAfterTerminated(ls, rest);
    TrimAllAppend(Chomped(ls), Lines(rest));
  }

  /** The lines of the tags section come first, as written. */
  lemma {:induction false} TagsReadLines(tags: seq<string>, m: string)
    requires forall i :: 0 <= i < |tags| ==> CleanTag(tags[i])
    ensures TrimAll(Lines(Terminated(TagsSectionLines(tags)) + m)) == TagsSectionLines(tags) + TrimAll(Lines(m))
  {
    TagsSectionRead(tags);
    ReadAfterTerminated(TagsSectionLines(tags), m);
  }

  /** Lines none of which is the Tags heading, then the tags section, then
      lines that close it: the section read is the tags body. */
  lemma {:induction false} TagsRead(pre: seq<string>, tags: seq<string>, lm: seq<string>)
    requires forall i :: 0 <= i < |pre| ==> pre[i] != TAGS_HEADING
    requires forall i :: 0 <= i < |tags| ==> CleanTag(tags[i])
    requires Closes(lm, TAGS_HEADING)
    ensures SectionLines(pre + (TagsSectionLines(tags) + lm), TAGS_HEADING, false) == TagsBody(tags)
  {
    var body := TagsBody(tags);
    TagsBodyPlain(tags);
    SkipToHeading(pre, TagsSectionLines(tags) + lm, TAGS_HEADING);
    SectionOf(TAGS_HEADING, body, lm);
  }

  /** No line of the tags body is a heading. */
  lemma {:induction false} TagsBodyPlain(tags: seq<string>)
    ensures var body := TagsBody(tags);
      forall i :: 0 <= i < |body| ==> body[i] != TAGS_HEADING && !StartsWith(body[i], "##")
  {
    var body := TagsBody(tags);
    HeadingsAreLines();
    forall i | 0 <= i < |body| ensures body[i] != TAGS_HEADING && !StartsWith(body[i], "##") {
      if 1 <= i < |body| - 1 {
        assert body[i] == "- " + tags[i - 1];
        assert body[i][0] == '-';
      }
    }
  }

  /** The items of the tags body are the tags. */
  lemma {:induction false} TagsBodyItems(tags: seq<string>)
    requires forall i :: 0 <= i < |tags| ==> CleanTag(tags[i])
    ensures TagItems(TagsBody(tags)) == tags
  {
    var bl := BulletLines(tags);
    BulletItems(tags);
    assert TagItems([""]) == [];
    TagItemsAppend([""] + bl, [""]);
    TagItemsAppend([""], bl);
  }

  /** No line of a clean summary's section is the Tags heading. */
  lemma {:induction false} SummaryLinesNotTags(s: string)
    requires CleanSummary(s)
    ensures var pre := [SUMMARY_HEADING, "", s, ""]; forall i :: 0 <= i < |pre| ==> pre[i] != TAGS_HEADING
  {
    HeadingsAreLines();
    assert SUMMARY_HEADING[3] != TAGS_HEADING[3];
  }

  /** The tags written by `format_enrichment` are the tags `extract_tags`
      reads back, whatever else the enrichment holds, as long as each tag is
      non-empty, trimmed and on one line and the summary, if any, is one
      clean line. */
  lemma {:induction false} TagsRoundTrip(e: Json, tags: seq<string>)
    requires Get(e, "tags") == Some(StrArray(tags)) && tags != []
    requires forall i :: 0 <= i < |tags| ==> CleanTag(tags[i])
    requires HasSummary(e) ==> CleanSummary(GetStr(e, "summary").value)
    ensures ExtractTags(FormatEnrichment(e)) == tags
  {
    var lm := TrimAll(Lines(MetadataOf(e)));
    EnrichmentLines(e, tags);
    MetadataCloses(GetStr(e, "provider"), GetStr(e, "enriched_at"), TAGS_HEADING);
    if HasSummary(e) {
      SummaryLinesNotTags(GetStr(e, "summary").value);
    }
    TagsRead(SummaryLinesOf(e), tags, lm);
    TagsBodyItems(tags);
  }

  /** The metadata section of an enrichment. */
  function MetadataOf(e: Json): string {
    MetadataSection(GetStr(e, "provider"), GetStr(e, "enriched_at"))
  }

  /** The lines of an enrichment's summary section, if it has one. */
  function SummaryLinesOf(e: Json): seq<string> {
    if HasSummary(e) then [SUMMARY_HEADING, "", GetStr(e, "summary").value, ""] else []
  }

  /** An enrichment with tags reads as its summary lines, the tags section
      and the metadata lines. */
  lemma {:induction false} EnrichmentLines(e: Json, tags: seq<string>)
    requires Get(e, "tags") == Some(StrArray(tags)) && tags != []
    requires forall i :: 0 <= i < |tags| ==> CleanTag(tags[i])
    requires HasSummary(e) ==> CleanSummary(GetStr(e, "summary").value)
    ensures TrimAll(Lines(FormatEnrichment(e)))
      == SummaryLinesOf(e) + (TagsSectionLines(tags) + TrimAll(Lines(MetadataOf(e))))
  {
    var m := MetadataOf(e);
    ListSectionTerminated(tags);
    var rest := Terminated(TagsSectionLines(tags)) + m;
    TagsReadLines(tags, m);
    if HasSummary(e) {
      SummaryReadLines(GetStr(e, "summary").value, rest);
    } else {
      assert FormatEnrichment(e) == rest;
    }
  }

  lemma {:induction false} TagItemsAppend(a: seq<string>, b: seq<string>)
    ensures TagItems(a + b) == TagItems(a) + TagItems(b)
  {
    if a != [] {
      assert (a + b)[0] == a[0];
      assert (a + b)[1..] == a[1..] + b;
      TagItemsAppend(a[1..], b);
    } else {
      assert a + b == b;
    }
  }

  /** A one-line summary as the enrichment format can carry it and read
      back: non-empty, trimmed, on one line, and not a heading. */
  predicate CleanSummary(s: string) {
    Tidy(s) && '\n' !in s && !StartsWith(s, "##")
  }

  /** A heading line other than `heading`, whatever follows it, closes
      the section under `heading`. */
  lemma {:induction false} HeadingCloses(h: string, rest: string, heading: string)
    requires '\n' !in h && Tidy(h) && StartsWith(h, "##") && h != heading
    ensures Closes(TrimAll(Lines(h + "\n" + rest)), heading)
  {
    HeadingFirst(h, rest);
  }

  /** Whatever follows the summary section starts with a heading. */
  lemma {:induction false} RestCloses(e: Json, heading: string)
    requires heading != TAGS_HEADING && heading != METADATA_HEADING
    ensures Closes(TrimAll(Lines(ListSection(TAGS_HEADING, Get(e, "tags")) + MetadataSection(GetStr(e, "provider"), GetStr(e, "enriched_at")))), heading)
  {
    var t := ListSection(TAGS_HEADING, Get(e, "tags"));
    var m := MetadataSection(GetStr(e, "provider"), GetStr(e, "enriched_at"));
    if t != "" {
      var body := ListBody(Get(e, "tags").value.items);
      assert t == TAGS_HEADING + "\n" + body;
      AppendAssoc(TAGS_HEADING + "\n", body, m);
      HeadingsAreLines();
      HeadingCloses(TAGS_HEADING, body + m, heading);
    } else {
      assert t + m == m;
      MetadataCloses(GetStr(e, "provider"), GetStr(e, "enriched_at"), heading);
    }
  }

  /** A clean summary's section is four lines, each read as written. */
  lemma {:induction false} SummaryLinesRead(s: string)
    requires CleanSummary(s)
    ensures SummarySectionLines(s) == [SUMMARY_HEADING, "", s, ""]
    ensures TextSection(SUMMARY_HEADING, Some(s)) == Terminated(SummarySectionLines(s))
    ensures forall i :: 0 <= i < |SummarySectionLines(s)| ==> '\n' !in SummarySectionLines(s)[i]
    ensures TrimAll(Chomped(SummarySectionLines(s))) == SummarySectionLines(s)
  {
    SplitWithoutSeparator(s, '\n');
    var sl := SummarySectionLines(s);
    assert sl == [SUMMARY_HEADING, "", s, ""];
    TextSectionTerminated(s);
    HeadingsAreLines();
    TidyTrimmed(s);
    TidyTrimmed(SUMMARY_HEADING);
    ChompedIdentity(sl);
    TrimAllIdentity(sl);
  }

  /** The lines of a clean summary's section come first, as written. */
  lemma {:induction false} SummaryReadLines(s: string, rest: string)
    requires CleanSummary(s)
    ensures TrimAll(Lines(TextSection(SUMMARY_HEADING, Some(s)) + rest))
      == [SUMMARY_HEADING, "", s, ""] + TrimAll(Lines(rest))
  {
    SummaryLinesRead(s);
    ReadAfterTerminated(SummarySectionLines(s), rest);
  }

  /** A clean summary's section, followed by lines that close it, reads
      as a blank line, the summary and a blank line. */
  lemma {:induction false} SummaryRead(s: string, lr: seq<string>)
    requires CleanSummary(s) && Closes(lr, SUMMARY_HEADING)
    ensures SectionLines([SUMMARY_HEADING, "", s, ""] + lr, SUMMARY_HEADING, false) == ["", s, ""]
  {
    HeadingsAreLines();
    assert [SUMMARY_HEADING, "", s, ""] + lr == [SUMMARY_HEADING] + ["", s, ""] + lr;
    SectionOf(SUMMARY_HEADING, ["", s, ""], lr);
  }

  /** The summary written by `format_enrichment` is the summary
      `extract_summary` reads back. */
  lemma {:induction false} SummaryRoundTrip(e: Json, s: string)
    requires GetStr(e, "summary") == Some(s) && CleanSummary(s)
    ensures ExtractSummary(FormatEnrichment(e)) == Some(s)
  {
    var rest := ListSection(TAGS_HEADING, Get(e, "tags")) + MetadataSection(GetStr(e, "provider"), GetStr(e, "enriched_at"));
    RestCloses(e, SUMMARY_HEADING);
    SummaryReadLines(s, rest);
    SummaryRead(s, TrimAll(Lines(rest)));
    BlankAround(s);
  }

  /** Blank lines around a line leave that line alone. */
  lemma {:induction false} BlankAround(s: string)
    requires s != ""
    ensures NonEmpty(["", s, ""]) == [s]
  {
    var xs: seq<string> := ["", s, ""];
    assert xs[1..] == [s, ""];
    assert [s, ""][1..] == [""];
    assert [""][1..] == [];
    assert NonEmpty([""]) == [];
    assert NonEmpty([s, ""]) == [s];
  }

  // ---------------------------------------------------------------------
  // The assembled document
  // ---------------------------------------------------------------------

  /** A section of the document: only when its text is there. */
  function Block(heading: string, body: Option<string>): string {
    match body
    case Some(b) => heading + b + "\n\n"
    case None => ""
  }

  /** The Tags metadata line: only when there are tags. */
  function TagsLine(tags: seq<string>): string {
    if tags == [] then "" else "- **Tags:** " + Join(tags, ", ") + "\n"
  }

  function TagsOf(enrichment: Option<string>): seq<string> {
    match enrichment
    case Some(md) => ExtractTags(md)
    case None => []
  }

  function SummaryOf(enrichment: Option<string>): Option<string> {
    match enrichment
    case Some(md) => ExtractSummary(md)
    case None => None
  }

  /** The pieces of the document in order: the title, the metadata lines
      (Author and Project only when set, Tags only when there are some), a
      blank line, then the Summary, Content, Transcript and Co-Pilot
      sections, each only when there is something for it. `tags` and
      `summary` are what the enrichment subfile gives. */
  function DocumentParts(meta: GemMeta, tags: seq<string>, summary: Option<string>, content: Option<string>,
                         transcript: Option<string>, copilot: Option<string>): (r: seq<string>)
    ensures |r| == 12
  {
    [ "# " + meta.title + "\n\n",
      "- **Source:** " + meta.sourceType + "\n",
      "- **URL:** " + meta.sourceUrl + "\n",
      OptLine("- **Author:** ", meta.author),
      "- **Captured:** " + meta.capturedAt + "\n",
      TagsLine(tags),
      OptLine("- **Project:** ", meta.projectId),
      "\n",
      Block("## Summary\n\n", summary),
      Block("## Content\n\n", content),
      Block("", transcript),
      Block("## Co-Pilot Analysis\n\n", copilot) ]
  }

  /** The document for the given tags, summary and subfiles. */
  function Document(meta: GemMeta, tags: seq<string>, summary: Option<string>, content: Option<string>,
                    transcript: Option<string>, copilot: Option<string>): string
  {
    Concat(DocumentParts(meta, tags, summary, content, transcript, copilot))
  }

  /** `assemble_gem_md`. A subfile that cannot be read counts as absent.
      The document opens with the title, then the source type and URL. */
  function AssembleGemMd(meta: GemMeta, enrichment: Option<string>, content: Option<string>,
                         transcript: Option<string>, copilot: Option<string>): (r: string)
    ensures StartsWith(r, ("# " + meta.title + "\n\n") + ("- **Source:** " + meta.sourceType + "\n")
                          + ("- **URL:** " + meta.sourceUrl + "\n"))
  {
    var parts := DocumentParts(meta, TagsOf(enrichment), SummaryOf(enrichment), content, transcript, copilot);
    ConcatStarts(parts, 3);
    assert parts[..3] == [parts[0], parts[1], parts[2]];
    Concat3(parts[0], parts[1], parts[2]);
    Document(meta, TagsOf(enrichment), SummaryOf(enrichment), content, transcript, copilot)
  }

  /** With a co-pilot subfile, the document closes with its analysis. */
  lemma {:induction false} DocumentEndsWithCopilot(meta: GemMeta, enrichment: Option<string>, content: Option<string>,
                                transcript: Option<string>, analysis: string)
    ensures EndsWith(AssembleGemMd(meta, enrichment, content, transcript, Some(analysis)),
                     "## Co-Pilot Analysis\n\n" + analysis + "\n\n")
  {
    ConcatEnds(DocumentParts(meta, TagsOf(enrichment), SummaryOf(enrichment), content, transcript, Some(analysis)));
  }

  /** The metadata block carries the capture time, and the author and the
      project exactly when the gem has them. */
  lemma {:induction false} DocumentShowsMetadata(meta: GemMeta, enrichment: Option<string>, content: Option<string>,
                              transcript: Option<string>, copilot: Option<string>)
    ensures Contains(AssembleGemMd(meta, enrichment, content, transcript, copilot),
                     "- **Captured:** " + meta.capturedAt + "\n")
    ensures meta.author.Some? ==>
      Contains(AssembleGemMd(meta, enrichment, content, transcript, copilot),
               "- **Author:** " + meta.author.value + "\n")
    ensures meta.projectId.Some? ==>
      Contains(AssembleGemMd(meta, enrichment, content, transcript, copilot),
               "- **Project:** " + meta.projectId.value + "\n")
  {
    var parts := DocumentParts(meta, TagsOf(enrichment), SummaryOf(enrichment), content, transcript, copilot);
    ConcatHas(parts, 3);
    ConcatHas(parts, 4);
    ConcatHas(parts, 6);
  }

  /** The document of an enriched gem lists the enrichment's tags. */
  lemma {:induction false} DocumentShowsTags(meta: GemMeta, e: Json, tags: seq<string>,
                          content: Option<string>, transcript: Option<string>, copilot: Option<string>)
    requires Get(e, "tags") == Some(StrArray(tags)) && tags != []
    requires forall i :: 0 <= i < |tags| ==> CleanTag(tags[i])
    requires HasSummary(e) ==> CleanSummary(GetStr(e, "summary").value)
    ensures Contains(AssembleGemMd(meta, Some(FormatEnrichment(e)), content, transcript, copilot),
                     "- **Tags:** " + Join(tags, ", ") + "\n")
  {
    TagsRoundTrip(e, tags);
    EnrichedTagsLine(meta, FormatEnrichment(e), tags, content, transcript, copilot);
  }

  lemma {:induction false} EnrichedTagsLine(meta: GemMeta, md: string, tags: seq<string>,
                         content: Option<string>, transcript: Option<string>, copilot: Option<string>)
    requires ExtractTags(md) == tags && tags != []
    ensures Contains(AssembleGemMd(meta, Some(md), content, transcript, copilot),
                     "- **Tags:** " + Join(tags, ", ") + "\n")
  {
    DocumentTagsLine(meta, tags, SummaryOf(Some(md)), content, transcript, copilot);
  }

  lemma {:induction false} DocumentTagsLine(meta: GemMeta, tags: seq<string>, summary: Option<string>,
                         content: Option<string>, transcript: Option<string>, copilot: Option<string>)
    requires tags != []
    ensures Contains(Document(meta, tags, summary, content, transcript, copilot),
                     "- **Tags:** " + Join(tags, ", ") + "\n")
  {
    ConcatHas(DocumentParts(meta, tags, summary, content, transcript, copilot), 5);
  }

  /** The document of an enriched gem carries the enrichment's summary
      under its own heading. */
  lemma {:induction false} DocumentShowsSummary(meta: GemMeta, e: Json, s: string,
                             content: Option<string>, transcript: Option<string>, copilot: Option<string>)
    requires GetStr(e, "summary") == Some(s) && CleanSummary(s)
    ensures Contains(AssembleGemMd(meta, Some(FormatEnrichment(e)), content, transcript, copilot),
                     "## Summary\n\n" + s + "\n\n")
  {
    SummaryRoundTrip(e, s);
    EnrichedSummaryBlock(meta, FormatEnrichment(e), s, content, transcript, copilot);
  }

  lemma {:induction false} EnrichedSummaryBlock(meta: GemMeta, md: string, s: string,
                             content: Option<string>, transcript: Option<string>, copilot: Option<string>)
    requires ExtractSummary(md) == Some(s)
    ensures Contains(AssembleGemMd(meta, Some(md), content, transcript, copilot),
                     "## Summary\n\n" + s + "\n\n")
  {
    DocumentSummaryBlock(meta, TagsOf(Some(md)), s, content, transcript, copilot);
  }

  lemma {:induction false} DocumentSummaryBlock(meta: GemMeta, tags: seq<string>, s: string,
                             content: Option<string>, transcript: Option<string>, copilot: Option<string>)
    ensures Contains(Document(meta, tags, Some(s), content, transcript, copilot),
                     "## Summary\n\n" + s + "\n\n")
  {
    var parts := DocumentParts(meta, tags, Some(s), content, transcript, copilot);
    assert parts[8] == "## Summary\n\n" + s + "\n\n";
    ConcatHas(parts, 8);
  }

  /** A transcript subfile written by `format_transcript` appears in the
      document with its heading and language. */
  lemma {:induction false} DocumentShowsTranscript(meta: GemMeta, enrichment: Option<string>, content: Option<string>,
                                text: string, language: string, copilot: Option<string>)
    ensures Contains(AssembleGemMd(meta, enrichment, content, Some(FormatTranscript(text, language)), copilot),
                     "## Transcript\n\nLanguage: " + language + "\n\n" + text + "\n\n")
  {
    var parts := DocumentParts(meta, TagsOf(enrichment), SummaryOf(enrichment), content,
                               Some(FormatTranscript(text, language)), copilot);
    var block := FormatTranscript(text, language) + "\n\n";
    assert "" + FormatTranscript(text, language) == FormatTranscript(text, language);
    assert parts[10] == block;
    ConcatHas(parts, 10);
  }

  /** A content subfile written by `format_content` appears in the document
      verbatim under the Content heading. */
  lemma {:induction false} DocumentShowsContent(meta: GemMeta, enrichment: Option<string>, title: string, text: string,
                             transcript: Option<string>, copilot: Option<string>)
    ensures Contains(AssembleGemMd(meta, enrichment, Some(FormatContent(title, text)), transcript, copilot),
                     "## Content\n\n" + text + "\n\n")
  {
    ConcatHas(DocumentParts(meta, TagsOf(enrichment), SummaryOf(enrichment), Some(FormatContent(title, text)),
                            transcript, copilot), 9);
  }
}
