/** The search result shapes every search provider returns, and the join of
    a provider's hits with the gems they name. Scores are reals (the
    source's `f64`). */
module SearchTypes {
  import opened Wrappers
  import opened Json
  import Gems
  import opened IntelProvider

  datatype MatchType = Keyword | Semantic | Hybrid

  /** A provider's hit: the gem it matched, its score in [0, 1], a snippet. */
  datatype SearchResult = SearchResult(gemId: string, score: real, matchedChunk: string, matchType: MatchType)

  /** A hit joined with the gem's metadata, as the front end receives it. */
  datatype GemSearchResult = GemSearchResult(
    score: real,
    matchedChunk: string,
    matchType: MatchType,
    id: string,
    sourceType: string,
    sourceUrl: string,
    domain: string,
    title: string,
    author: Option<string>,
    description: Option<string>,
    capturedAt: string,
    tags: Option<seq<string>>,
    summary: Option<string>)

  datatype WebSourceType = Paper | Article | Video | Other

  datatype WebSearchResult = WebSearchResult(
    title: string,
    url: string,
    snippet: string,
    sourceType: WebSourceType,
    domain: string,
    publishedDate: Option<string>)

  /** A search backend (`SearchResultProvider`): each operation as what it
      answers. */
  datatype Provider = Provider(
    availability: Availability,
    search: (string, nat) -> Result<seq<SearchResult>>,
    indexGem: string -> Result<()>,
    removeGem: string -> Result<()>,
    reindexAll: Result<nat>,
    webSearch: (string, nat) -> Result<seq<WebSearchResult>>,
    supportsWebSearch: bool)

  /** The string elements of the enrichment's `tags` array, when it is an
      array; other elements are skipped. */
  function EnrichmentTags(enrichment: Option<Json>): (r: Option<seq<string>>)
    ensures r.Some? <==> enrichment.Some? && Get(enrichment.value, "tags").Some?
                         && Get(enrichment.value, "tags").value.Arr?
    ensures r.Some? ==> r.value == StringElements(Get(enrichment.value, "tags").value.items)
  {
    match enrichment
    case None => None
    case Some(e) =>
      match Get(e, "tags")
      case Some(Arr(items)) => Some(StringElements(items))
      case _ => None
  }

  function EnrichmentSummary(enrichment: Option<Json>): (r: Option<string>)
    ensures r.Some? <==> enrichment.Some? && GetStr(enrichment.value, "summary").Some?
  {
    match enrichment
    case None => None
    case Some(e) => GetStr(e, "summary")
  }

  /** A provider hit joined with the gem it names. */
  function Joined(hit: SearchResult, g: Gems.Gem): (r: GemSearchResult)
    ensures r.id == g.id && r.score == hit.score && r.matchedChunk == hit.matchedChunk
    ensures r.matchType == hit.matchType && r.title == g.title && r.sourceUrl == g.sourceUrl
    ensures r.tags == EnrichmentTags(g.aiEnrichment) && r.summary == EnrichmentSummary(g.aiEnrichment)
  {
    GemSearchResult(hit.score, hit.matchedChunk, hit.matchType, g.id, g.sourceType, g.sourceUrl,
      g.domain, g.title, g.author, g.description, g.capturedAt,
      EnrichmentTags(g.aiEnrichment), EnrichmentSummary(g.aiEnrichment))
  }

  /** A listed or keyword-matched gem as a result: score 1.0, no snippet,
      matched by keyword. */
  function FromPreview(p: Gems.Preview): (r: GemSearchResult)
    ensures r.score == 1.0 && r.matchedChunk == [] && r.matchType == Keyword
    ensures r.id == p.id && r.title == p.title && r.tags == p.tags && r.summary == p.summary
  {
    GemSearchResult(1.0, [], Keyword, p.id, p.sourceType, p.sourceUrl, p.domain, p.title,
      p.author, p.description, p.capturedAt, p.tags, p.summary)
  }

  function FromPreviews(ps: seq<Gems.Preview>): (r: seq<GemSearchResult>)
    ensures |r| == |ps| && forall i :: 0 <= i < |ps| ==> r[i] == FromPreview(ps[i])
  {
    seq(|ps|, i requires 0 <= i < |ps| => FromPreview(ps[i]))
  }

  /** The hits whose gem the store returns, joined with it, in hit order; a
      hit whose gem is missing or fails to load is dropped. */
  function JoinHits(hits: seq<SearchResult>, lookup: string -> Result<Option<Gems.Gem>>): (r: seq<GemSearchResult>)
    ensures |r| <= |hits|
  {
    if |hits| == 0 then []
    else
      var rest := JoinHits(hits[1..], lookup);
      match lookup(hits[0].gemId)
      case Ok(Some(g)) => [Joined(hits[0], g)] + rest
      case _ => rest
  }

  /** `x` is the result hit `i` gives: its gem loaded, joined with it. */
  predicate JoinedAt(hits: seq<SearchResult>, lookup: string -> Result<Option<Gems.Gem>>, i: int, x: GemSearchResult) {
    && 0 <= i < |hits| && lookup(hits[i].gemId).Ok? && lookup(hits[i].gemId).value.Some?
    && x == Joined(hits[i], lookup(hits[i].gemId).value.value)
  }

  /** Each joined result comes from a hit whose gem the store returned, and
      every such hit gives a result. */
  lemma {:induction false} JoinHitsMembers(hits: seq<SearchResult>, lookup: string -> Result<Option<Gems.Gem>>,
                                           x: GemSearchResult)
    ensures x in JoinHits(hits, lookup) <==> exists i :: JoinedAt(hits, lookup, i, x)
  {
    if |hits| > 0 {
      var t := hits[1..];
      JoinHitsMembers(t, lookup, x);
      var l := lookup(hits[0].gemId);
      if l.Ok? && l.value.Some? {
        assert JoinHits(hits, lookup) == [Joined(hits[0], l.value.value)] + JoinHits(t, lookup);
        if x == Joined(hits[0], l.value.value) { assert JoinedAt(hits, lookup, 0, x); }
      } else {
        assert JoinHits(hits, lookup) == JoinHits(t, lookup) && !JoinedAt(hits, lookup, 0, x);
      }
      if exists i :: JoinedAt(t, lookup, i, x) {
        var i :| JoinedAt(t, lookup, i, x);
        assert t[i] == hits[i + 1];
        assert JoinedAt(hits, lookup, i + 1, x);
      }
      if exists i :: JoinedAt(hits, lookup, i, x) {
        var i :| JoinedAt(hits, lookup, i, x);
        if i >= 1 {
          assert t[i - 1] == hits[i];
          assert JoinedAt(t, lookup, i - 1, x);
        } else {
          assert JoinHits(hits, lookup)[0] == x;
        }
      }
    }
  }
}
