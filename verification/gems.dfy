/** The gem store (`SqliteGemStore`). The table is a sequence of gems in
    insertion order with `id` and `source_url` each unique; SQL ordering,
    `LIMIT`/`OFFSET` and the upsert are written out, and the full-text
    index is a function from a query to its ranked hits. */
module Gems {
  import opened Wrappers
  import opened Text
  import opened Json

  /** A row of the `gems` table, with its JSON columns decoded. */
  datatype Gem = Gem(
    id: string,
    sourceType: string,
    sourceUrl: string,
    domain: string,
    title: string,
    author: Option<string>,
    description: Option<string>,
    content: Option<string>,
    sourceMeta: Json,
    capturedAt: string,
    aiEnrichment: Option<Json>,
    transcript: Option<string>,
    transcriptLanguage: Option<string>)

  /** A row as stored: the two JSON columns are text. */
  datatype Row = Row(gem: Gem, sourceMetaText: string, aiEnrichmentText: Option<string>)

  /** What a list or search returns for a gem. */
  datatype Preview = Preview(
    id: string,
    sourceType: string,
    sourceUrl: string,
    domain: string,
    title: string,
    author: Option<string>,
    description: Option<string>,
    contentPreview: Option<string>,
    capturedAt: string,
    tags: Option<seq<string>>,
    summary: Option<string>,
    enrichmentSource: Option<string>,
    transcriptLanguage: Option<string>)

  // ---------------------------------------------------------------------
  // Rows and previews
  // ---------------------------------------------------------------------

  /** `save`'s binding of a gem: the JSON columns are serialised. */
  function GemToRow(g: Gem, render: Json -> string): (r: Row)
    ensures r.gem == g && r.sourceMetaText == render(g.sourceMeta)
    ensures r.aiEnrichmentText.Some? <==> g.aiEnrichment.Some?
  {
    Row(g, render(g.sourceMeta), if g.aiEnrichment.Some? then Some(render(g.aiEnrichment.value)) else None)
  }

  /** `row_to_gem`: stored `source_meta` that does not parse reads as null,
      stored enrichment that does not parse reads as absent. */
  function RowToGem(row: Row, parse: Parser): (g: Gem)
    ensures parse(row.sourceMetaText).Err? ==> g.sourceMeta == Null
    ensures parse(row.sourceMetaText).Ok? ==> g.sourceMeta == parse(row.sourceMetaText).value
    ensures g.aiEnrichment.Some? <==> row.aiEnrichmentText.Some? && parse(row.aiEnrichmentText.value).Ok?
    ensures g.aiEnrichment.Some? ==> g.aiEnrichment.value == parse(row.aiEnrichmentText.value).value
    ensures g.(sourceMeta := Null, aiEnrichment := None) == row.gem.(sourceMeta := Null, aiEnrichment := None)
  {
    var meta := match parse(row.sourceMetaText) case Ok(v) => v case Err(_) => Null;
    var enrichment :=
      match row.aiEnrichmentText
      case None => None
      case Some(t) => parse(t).ToOption();
    row.gem.(sourceMeta := meta, aiEnrichment := enrichment)
  }

  /** Whenever the parser reads back what the printer writes, a gem comes
      back from its row unchanged. */
  lemma {:induction false} RowRoundTrip(g: Gem, parse: Parser, render: Json -> string)
    requires parse(render(g.sourceMeta)) == Ok(g.sourceMeta)
    requires g.aiEnrichment.Some? ==> parse(render(g.aiEnrichment.value)) == Ok(g.aiEnrichment.value)
    ensures RowToGem(GemToRow(g, render), parse) == g
  {
  }

  const PREVIEW_CHARS: nat := 200

  /** The content preview: at most 200 characters (not bytes) are kept,
      and "..." marks a cut. */
  function ContentPreview(c: string): (r: string)
    ensures |c| <= PREVIEW_CHARS ==> r == c
    ensures |c| > PREVIEW_CHARS ==> |r| == PREVIEW_CHARS + 3 && EndsWith(r, "...")
    ensures StartsWith(c, r[..if |c| <= PREVIEW_CHARS then |c| else PREVIEW_CHARS])
  {
    if |c| > PREVIEW_CHARS then c[..PREVIEW_CHARS] + "..." else c
  }

  /** A preview is the text itself or its first 200 characters and "...";
      it comes out unchanged exactly when the text fits, or when the text is
      203 characters that already end in "...". */
  lemma {:induction false} PreviewIsPrefixPlusEllipsis(c: string)
    ensures ContentPreview(c) == c || ContentPreview(c) == c[..PREVIEW_CHARS] + "..."
    ensures |ContentPreview(c)| <= PREVIEW_CHARS + 3
    ensures ContentPreview(c) == c <==>
      |c| <= PREVIEW_CHARS || (|c| == PREVIEW_CHARS + 3 && EndsWith(c, "..."))
  {
    if |c| == PREVIEW_CHARS + 3 && EndsWith(c, "...") {
      assert c == c[..PREVIEW_CHARS] + c[PREVIEW_CHARS..];
    }
  }

  /** Where an enrichment came from: "provider / model" when both are
      strings, the provider alone when only it is. */
  function EnrichmentSource(e: Json): (r: Option<string>)
    ensures r.Some? <==> GetStr(e, "provider").Some?
    ensures GetStr(e, "provider").Some? && GetStr(e, "model").Some? ==>
      r == Some(GetStr(e, "provider").value + " / " + GetStr(e, "model").value)
    ensures GetStr(e, "provider").Some? && GetStr(e, "model").None? ==> r == GetStr(e, "provider")
  {
    match (GetStr(e, "provider"), GetStr(e, "model"))
    case (Some(p), Some(m)) => Some(p + " / " + m)
    case (Some(p), None) => Some(p)
    case _ => None
  }

  /** `gem_to_preview`. */
  function GemToPreview(g: Gem): (p: Preview)
    ensures p.id == g.id && p.sourceUrl == g.sourceUrl && p.title == g.title && p.capturedAt == g.capturedAt
    ensures p.sourceType == g.sourceType && p.domain == g.domain && p.author == g.author
    ensures p.description == g.description && p.transcriptLanguage == g.transcriptLanguage
    ensures p.contentPreview.Some? <==> g.content.Some?
    ensures g.content.Some? ==> p.contentPreview.value == ContentPreview(g.content.value)
    ensures p.tags.Some? <==>
      (g.aiEnrichment.Some? && Get(g.aiEnrichment.value, "tags").Some?
       && AsStringArray(Get(g.aiEnrichment.value, "tags").value).Some?)
    ensures p.summary.Some? <==> g.aiEnrichment.Some? && GetStr(g.aiEnrichment.value, "summary").Some?
    ensures g.aiEnrichment.None? ==> p.tags.None? && p.summary.None? && p.enrichmentSource.None?
  {
    var (tags, summary, source) :=
      match g.aiEnrichment
      case None => (None, None, None)
      case Some(e) =>
        (match Get(e, "tags") case Some(t) => AsStringArray(t) case None => None,
         GetStr(e, "summary"),
         EnrichmentSource(e));
    var preview := match g.content case Some(c) => Some(ContentPreview(c)) case None => None;
    Preview(g.id, g.sourceType, g.sourceUrl, g.domain, g.title, g.author, g.description,
      preview, g.capturedAt, tags, summary, source, g.transcriptLanguage)
  }

  /** One element that is not a string costs the preview the whole tag
      list. */
  lemma {:induction false} MixedTagsDropped(g: Gem, tags: seq<Json>, k: nat)
    requires g.aiEnrichment.Some? && g.aiEnrichment.value.Obj?
    requires "tags" in g.aiEnrichment.value.fields && g.aiEnrichment.value.fields["tags"] == Arr(tags)
    requires k < |tags| && !tags[k].Str?
    ensures GemToPreview(g).tags.None?
  {
  }

  // ---------------------------------------------------------------------
  // The table
  // ---------------------------------------------------------------------

  /** The table's two uniqueness constraints. */
  predicate Unique(t: seq<Gem>) {
    forall i, j :: 0 <= i < j < |t| ==> t[i].id != t[j].id && t[i].sourceUrl != t[j].sourceUrl
  }

  /** The index of the row with the given URL, if any. */
  function IndexOfUrl(t: seq<Gem>, url: string): (r: Option<nat>)
    ensures r.Some? ==> r.value < |t| && t[r.value].sourceUrl == url
    ensures r.None? <==> forall i :: 0 <= i < |t| ==> t[i].sourceUrl != url
  {
    if |t| == 0 then None
    else if t[|t| - 1].sourceUrl == url then Some(|t| - 1)
    else IndexOfUrl(t[..|t| - 1], url)
  }

  /** The index of the row with the given id, if any. */
  function IndexOfId(t: seq<Gem>, id: string): (r: Option<nat>)
    ensures r.Some? ==> r.value < |t| && t[r.value].id == id
    ensures r.None? <==> forall i :: 0 <= i < |t| ==> t[i].id != id
  {
    if |t| == 0 then None
    else if t[|t| - 1].id == id then Some(|t| - 1)
    else IndexOfId(t[..|t| - 1], id)
  }

  /** The update half of the upsert: the row keeps its id, source type and
      domain, and takes every other column from the new gem. */
  function Merge(existing: Gem, g: Gem): (r: Gem)
    ensures r.id == existing.id && r.sourceType == existing.sourceType && r.domain == existing.domain
    ensures r.(id := g.id, sourceType := g.sourceType, domain := g.domain) == g
  {
    g.(id := existing.id, sourceType := existing.sourceType, domain := existing.domain)
  }

  /** `save`: `INSERT … ON CONFLICT(source_url) DO UPDATE`, then the row is
      read back by its URL. A new URL whose id is already taken violates the
      primary key, and the statement fails. */
  function Save(t: seq<Gem>, g: Gem): (r: (Result<Gem>, seq<Gem>))
    ensures r.0.Err? <==> IndexOfUrl(t, g.sourceUrl).None? && IndexOfId(t, g.id).Some?
    ensures r.0.Err? ==> r.1 == t && StartsWith(r.0.error, "Failed to save gem: ")
    ensures r.0.Ok? ==> r.0.value.sourceUrl == g.sourceUrl && r.0.value in r.1
    ensures IndexOfUrl(t, g.sourceUrl).Some? ==>
      |r.1| == |t| && r.0 == Ok(Merge(t[IndexOfUrl(t, g.sourceUrl).value], g))
    ensures IndexOfUrl(t, g.sourceUrl).None? && r.0.Ok? ==> r.1 == t + [g] && r.0 == Ok(g)
  {
    match IndexOfUrl(t, g.sourceUrl)
    case Some(i) =>
      var row := Merge(t[i], g);
      assert t[i := row][i] == row;
      (Ok(row), t[i := row])
    case None =>
      var message := "Failed to save gem: " + "UNIQUE constraint failed: gems.id";
      if IndexOfId(t, g.id).Some? then (Err(message), t)
      else (Ok(g), t + [g])
  }

  /** Saving keeps both constraints, and the URL then names exactly the
      saved row. */
  lemma {:induction false} SaveKeepsUnique(t: seq<Gem>, g: Gem)
    requires Unique(t)
    ensures Unique(Save(t, g).1)
    ensures Save(t, g).0.Ok? ==> IndexOfUrl(Save(t, g).1, g.sourceUrl).Some?
  {
    var r := Save(t, g);
    match IndexOfUrl(t, g.sourceUrl)
    case Some(i) =>
      var t' := r.1;
      forall a, b | 0 <= a < b < |t'| ensures t'[a].id != t'[b].id && t'[a].sourceUrl != t'[b].sourceUrl {
        assert t'[a].id == t[a].id && t'[b].id == t[b].id;
        assert t'[a].sourceUrl == t[a].sourceUrl && t'[b].sourceUrl == t[b].sourceUrl;
      }
    case None =>
  }

  /** Saving a gem twice under one URL leaves one row, whose id is the
      first save's. */
  lemma {:induction false} SaveTwiceOneRow(t: seq<Gem>, g1: Gem, g2: Gem)
    requires Unique(t) && IndexOfUrl(t, g1.sourceUrl).None? && IndexOfId(t, g1.id).None?
    requires g2.sourceUrl == g1.sourceUrl
    ensures var t1 := Save(t, g1).1;
      var r := Save(t1, g2);
      && |r.1| == |t| + 1
      && r.0.Ok? && r.0.value.id == g1.id
      && r.0.value.title == g2.title && r.0.value.content == g2.content
  {
    var t1 := Save(t, g1).1;
    assert t1 == t + [g1];
    assert t1[|t1| - 1].sourceUrl == g2.sourceUrl;
  }

  /** `get`: the row with that id, or nothing. */
  function GetById(t: seq<Gem>, id: string): (r: Option<Gem>)
    ensures r.Some? <==> exists i :: 0 <= i < |t| && t[i].id == id
    ensures r.Some? ==> r.value in t && r.value.id == id
  {
    match IndexOfId(t, id)
    case Some(i) => Some(t[i])
    case None => None
  }

  /** A saved gem is found again under the id the save returned. */
  lemma {:induction false} SaveThenGet(t: seq<Gem>, g: Gem)
    requires Unique(t) && Save(t, g).0.Ok?
    ensures GetById(Save(t, g).1, Save(t, g).0.value.id) == Some(Save(t, g).0.value)
  {
    SaveKeepsUnique(t, g);
    var t' := Save(t, g).1;
    var saved := Save(t, g).0.value;
    var k := IndexOfId(t', saved.id).value;
    var j :| 0 <= j < |t'| && t'[j] == saved;
    assert k == j;
  }

  /** `delete`: removing an id that no row has is an error. */
  function Delete(t: seq<Gem>, id: string): (r: (Result<()>, seq<Gem>))
    ensures r.0.Err? <==> forall i :: 0 <= i < |t| ==> t[i].id != id
    ensures r.0.Err? ==> r == (Err("Gem with id '" + id + "' not found"), t)
    ensures r.0.Ok? ==> |r.1| == |t| - 1 && forall x :: x in r.1 ==> x in t
    ensures Unique(t) ==> forall i :: 0 <= i < |r.1| ==> r.1[i].id != id
  {
    match IndexOfId(t, id)
    case None => (Err("Gem with id '" + id + "' not found"), t)
    case Some(i) =>
      var rest := t[..i] + t[i + 1..];
      assert forall x :: x in rest ==> x in t;
      (Ok(()), rest)
  }

  /** A deleted gem is gone, and deleting it again fails. */
  lemma {:induction false} DeleteThenGetNone(t: seq<Gem>, id: string)
    requires Unique(t) && Delete(t, id).0.Ok?
    ensures GetById(Delete(t, id).1, id).None?
    ensures Delete(Delete(t, id).1, id).0 == Err("Gem with id '" + id + "' not found")
  {
  }

  /** `update_title`: only the title of the row with that id changes. */
  function UpdateTitle(t: seq<Gem>, id: string, title: string): (r: (Result<()>, seq<Gem>))
    ensures r.0.Err? <==> forall i :: 0 <= i < |t| ==> t[i].id != id
    ensures r.0.Err? ==> r == (Err("Gem with id '" + id + "' not found"), t)
    ensures |r.1| == |t|
    ensures Unique(t) ==> forall i :: 0 <= i < |t| ==>
      r.1[i] == (if t[i].id == id then t[i].(title := title) else t[i])
  {
    match IndexOfId(t, id)
    case None => (Err("Gem with id '" + id + "' not found"), t)
    case Some(i) => (Ok(()), t[i := t[i].(title := title)])
  }

  // ---------------------------------------------------------------------
  // Ordering and pages
  // ---------------------------------------------------------------------

  /** `ORDER BY captured_at DESC`, comparing the stored text. */
  predicate NewestFirst(s: seq<Gem>) {
    forall i, j :: 0 <= i < j < |s| ==> LexLeq(s[j].capturedAt, s[i].capturedAt)
  }

  /** Puts `x` after every gem captured no earlier. */
  function Insert(sorted: seq<Gem>, x: Gem): (r: seq<Gem>)
    ensures multiset(r) == multiset(sorted) + multiset{x}
  {
    if |sorted| == 0 then [x]
    else if LexLeq(x.capturedAt, sorted[0].capturedAt) then
      assert sorted == [sorted[0]] + sorted[1..];
      [sorted[0]] + Insert(sorted[1..], x)
    else [x] + sorted
  }

  lemma {:induction false} InsertNewestFirst(sorted: seq<Gem>, x: Gem)
    requires NewestFirst(sorted)
    ensures NewestFirst(Insert(sorted, x))
  {
    if |sorted| > 0 {
      if LexLeq(x.capturedAt, sorted[0].capturedAt) {
        var tail := Insert(sorted[1..], x);
        InsertNewestFirst(sorted[1..], x);
        forall j | 0 <= j < |tail| ensures LexLeq(tail[j].capturedAt, sorted[0].capturedAt) {
          assert tail[j] in multiset(tail);
          assert tail[j] == x || tail[j] in multiset(sorted[1..]);
        }
      } else {
        LexTotal(x.capturedAt, sorted[0].capturedAt);
        forall j | 0 <= j < |sorted| ensures LexLeq(sorted[j].capturedAt, x.capturedAt) {
          if j > 0 { LexTrans(sorted[j].capturedAt, sorted[0].capturedAt, x.capturedAt); }
        }
      }
    }
  }

  function SortNewestFirst(t: seq<Gem>): (r: seq<Gem>)
    ensures multiset(r) == multiset(t)
    ensures NewestFirst(r)
  {
    if |t| == 0 then []
    else
      assert t == t[..|t| - 1] + [t[|t| - 1]];
      InsertNewestFirst(SortNewestFirst(t[..|t| - 1]), t[|t| - 1]);
      Insert(SortNewestFirst(t[..|t| - 1]), t[|t| - 1])
  }

  /** `LIMIT limit OFFSET offset`. */
  function Page<T>(s: seq<T>, limit: nat, offset: nat): (r: seq<T>)
    ensures offset >= |s| ==> r == []
    ensures offset < |s| ==> |r| == if offset + limit <= |s| then limit else |s| - offset
    ensures forall k :: 0 <= k < |r| ==> r[k] == s[offset + k]
  {
    if offset >= |s| then []
    else s[offset..if offset + limit <= |s| then offset + limit else |s|]
  }

  function Previews(gs: seq<Gem>): (r: seq<Preview>)
    ensures |r| == |gs| && forall k :: 0 <= k < |gs| ==> r[k] == GemToPreview(gs[k])
  {
    seq(|gs|, k requires 0 <= k < |gs| => GemToPreview(gs[k]))
  }

  /** `x` is the preview of a gem of the table `t`. */
  predicate PreviewOfSome(t: seq<Gem>, x: Preview) {
    exists g :: g in t && x == GemToPreview(g)
  }

  /** `list`: a page has the length the limit and offset allow, lists
      gems newest first, and each preview comes from a gem of the table;
      pages past the end are empty. */
  function List(t: seq<Gem>, limit: nat, offset: nat): (r: seq<Preview>)
    ensures r == Previews(Page(SortNewestFirst(t), limit, offset))
    ensures |r| == (if offset >= |t| then 0 else if offset + limit <= |t| then limit else |t| - offset)
    ensures forall i, j :: 0 <= i < j < |r| ==> LexLeq(r[j].capturedAt, r[i].capturedAt)
    ensures forall k :: 0 <= k < |r| ==> PreviewOfSome(t, r[k])
  {
    var p := Page(SortNewestFirst(t), limit, offset);
    SortedPage(t, limit, offset);
    var r := Previews(p);
    PreviewsKeep(p, t, r);
    r
  }

  /** Previewing keeps the order of capture times and the origin of each
      entry. */
  lemma {:induction false} PreviewsKeep(p: seq<Gem>, t: seq<Gem>, r: seq<Preview>)
    requires forall i, j :: 0 <= i < j < |p| ==> LexLeq(p[j].capturedAt, p[i].capturedAt)
    requires forall k :: 0 <= k < |p| ==> p[k] in t
    requires r == Previews(p)
    ensures forall i, j :: 0 <= i < j < |r| ==> LexLeq(r[j].capturedAt, r[i].capturedAt)
    ensures forall k :: 0 <= k < |r| ==> PreviewOfSome(t, r[k])
  {
    forall i, j | 0 <= i < j < |r| ensures LexLeq(r[j].capturedAt, r[i].capturedAt) {
      assert r[i].capturedAt == p[i].capturedAt && r[j].capturedAt == p[j].capturedAt;
    }
    forall k | 0 <= k < |r| ensures PreviewOfSome(t, r[k]) {
      assert p[k] in t && r[k] == GemToPreview(p[k]);
    }
  }

  /** The page of the sorted table: its length, its order, its origin. */
  lemma {:induction false} SortedPage(t: seq<Gem>, limit: nat, offset: nat)
    ensures var p := Page(SortNewestFirst(t), limit, offset);
      && |p| == (if offset >= |t| then 0 else if offset + limit <= |t| then limit else |t| - offset)
      && (forall i, j :: 0 <= i < j < |p| ==> LexLeq(p[j].capturedAt, p[i].capturedAt))
      && (forall k :: 0 <= k < |p| ==> p[k] in t)
  {
    var s := SortNewestFirst(t);
    assert |s| == |multiset(s)| == |multiset(t)| == |t|;
    var p := Page(s, limit, offset);
    forall k | 0 <= k < |p| ensures p[k] in t {
      assert p[k] == s[offset + k];
      assert s[offset + k] in multiset(t);
    }
    forall i, j | 0 <= i < j < |p| ensures LexLeq(p[j].capturedAt, p[i].capturedAt) {
      assert p[i] == s[offset + i] && p[j] == s[offset + j];
    }
  }

  // ---------------------------------------------------------------------
  // Search
  // ---------------------------------------------------------------------

  const INVALID_SYNTAX: string :=
    "Invalid search query syntax. "
    + "Please check for unmatched quotes or special characters."

  /** How SQLite's errors reach the caller: FTS5 syntax errors get a
      message of their own. */
  function SearchError(e: string, context: string): (r: string)
    requires StartsWith(context, "Failed")
    ensures r == INVALID_SYNTAX <==> Contains(e, "fts5: syntax error") || Contains(e, "unterminated string")
  {
    if Contains(e, "fts5: syntax error") || Contains(e, "unterminated string") then INVALID_SYNTAX
    else
      assert context[0] == "Failed"[0] == 'F';
      assert INVALID_SYNTAX[0] == 'I';
      assert (context + ": " + e)[0] == 'F';
      context + ": " + e
  }

  /** `search`: a blank query lists the newest gems; otherwise the index's
      hits, best first, up to the limit. */
  function Search(t: seq<Gem>, query: string, limit: nat, fts: string -> Result<seq<Gem>>): (r: Result<seq<Preview>>)
    ensures IsBlank(query) ==> r == Ok(List(t, limit, 0))
    ensures !IsBlank(query) && fts(query).Err? ==>
      (r.Err? &&
       (r.error == INVALID_SYNTAX <==>
         Contains(fts(query).error, "fts5: syntax error") || Contains(fts(query).error, "unterminated string")))
    ensures !IsBlank(query) && fts(query).Ok? ==> r.Ok? && |r.value| <= limit
  {
    if IsBlank(query) then Ok(List(t, limit, 0))
    else
      match fts(query)
      case Err(e) => Err(SearchError(e, "Failed to search gems"))
      case Ok(hits) => Ok(Previews(Page(hits, limit, 0)))
  }

  /** A query of spaces and newlines is the same as no query. */
  lemma {:induction false} BlankQueriesAgree(t: seq<Gem>, q1: string, q2: string, limit: nat,
                          fts: string -> Result<seq<Gem>>)
    requires IsBlank(q1) && IsBlank(q2)
    ensures Search(t, q1, limit, fts) == Search(t, q2, limit, fts) == Ok(List(t, limit, 0))
  {
  }

  // ---------------------------------------------------------------------
  // Recordings
  // ---------------------------------------------------------------------

  /** `json_extract(source_meta, '$.recording_filename') = filename`. */
  predicate FromRecording(g: Gem, filename: string) {
    Get(g.sourceMeta, "recording_filename") == Some(Str(filename))
  }

  /** The newest-first order of the gems a test selects starts with one of
      them captured no earlier than any other, and is empty only when the
      test selects none. */
  lemma {:induction false} NewestHitFirst(t: seq<Gem>, p: Gem -> bool)
    ensures var hits := SortNewestFirst(Filter(t, p));
      && (|hits| == 0 <==> forall g :: g in t ==> !p(g))
      && (|hits| > 0 ==>
            && hits[0] in t && p(hits[0])
            && forall h :: h in t && p(h) ==> LexLeq(h.capturedAt, hits[0].capturedAt))
  {
    var f := Filter(t, p);
    var hits := SortNewestFirst(f);
    FilterKeeps(t, p);
    assert |hits| == |multiset(hits)| == |multiset(f)| == |f|;
    if |hits| > 0 {
      var g := hits[0];
      assert g in multiset(f);
      assert g in f && g in t && p(g);
      forall h | h in t && p(h) ensures LexLeq(h.capturedAt, g.capturedAt) {
        assert h in multiset(hits);
        var k :| 0 <= k < |hits| && hits[k] == h;
        if k > 0 { assert LexLeq(hits[k].capturedAt, hits[0].capturedAt); }
        else { LexRefl(g.capturedAt); }
      }
    } else {
      assert f == [];
    }
  }

  /** `find_by_recording_filename`: the preview of a gem from that
      recording captured no earlier than any other, and none only when no
      gem comes from it. */
  function FindByRecording(t: seq<Gem>, filename: string): (r: Option<Preview>)
    ensures r.None? <==> forall g :: g in t ==> !FromRecording(g, filename)
    ensures r.Some? ==> exists g ::
      && g in t && FromRecording(g, filename)
      && r == Some(GemToPreview(g))
      && forall h :: h in t && FromRecording(h, filename) ==> LexLeq(h.capturedAt, g.capturedAt)
  {
    var p := g => FromRecording(g, filename);
    var hits := SortNewestFirst(Filter(t, p));
    NewestHitFirst(t, p);
    if |hits| == 0 then None else Some(GemToPreview(hits[0]))
  }
}
