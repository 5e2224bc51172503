/** The Tavily web search provider: it answers web searches only, and its
    gem operations do nothing. The HTTP exchange is a parameter. */
module Tavily {
  import opened Wrappers
  import opened Text
  import opened SearchTypes
  import opened IntelProvider
  import Utf8

  const VIDEO_MARKERS: seq<string> := ["youtube.com", "youtu.be", "vimeo.com"]
  const PAPER_MARKERS: seq<string> := ["arxiv.org", "scholar.google", "semanticscholar.org", "ieee.org", "acm.org"]
  const ARTICLE_MARKERS: seq<string> := ["medium.com", "dev.to", "substack.com", "hashnode", "blog"]

  /** Some marker occurs in the text. */
  predicate ContainsAny(s: string, markers: seq<string>) {
    exists m :: m in markers && Contains(s, m)
  }

  /** `classify_source_type`: compared in lower case, a video host wins over
      a paper host, which wins over an article host. */
  function Classify(url: string): (r: WebSourceType)
    ensures r == Video <==> ContainsAny(Lower(url), VIDEO_MARKERS)
    ensures r == Paper <==> !ContainsAny(Lower(url), VIDEO_MARKERS) && ContainsAny(Lower(url), PAPER_MARKERS)
    ensures r == Article <==> !ContainsAny(Lower(url), VIDEO_MARKERS) && !ContainsAny(Lower(url), PAPER_MARKERS)
                              && ContainsAny(Lower(url), ARTICLE_MARKERS)
  {
    var u := Lower(url);
    AnyOfThree(u, "youtube.com", "youtu.be", "vimeo.com");
    AnyOfFive(u, "arxiv.org", "scholar.google", "semanticscholar.org", "ieee.org", "acm.org");
    AnyOfFive(u, "medium.com", "dev.to", "substack.com", "hashnode", "blog");
    if Contains(u, "youtube.com") || Contains(u, "youtu.be") || Contains(u, "vimeo.com") then Video
    else if Contains(u, "arxiv.org") || Contains(u, "scholar.google") || Contains(u, "semanticscholar.org")
         || Contains(u, "ieee.org") || Contains(u, "acm.org") then Paper
    else if Contains(u, "medium.com") || Contains(u, "dev.to") || Contains(u, "substack.com")
         || Contains(u, "hashnode") || Contains(u, "blog") then Article
    else Other
  }

  lemma {:induction false} AnyOfThree(s: string, a: string, b: string, c: string)
    ensures ContainsAny(s, [a, b, c]) <==> Contains(s, a) || Contains(s, b) || Contains(s, c)
  {
    var ms := [a, b, c];
    if Contains(s, a) { assert ms[0] in ms; }
    if Contains(s, b) { assert ms[1] in ms; }
    if Contains(s, c) { assert ms[2] in ms; }
  }

  lemma {:induction false} AnyOfFive(s: string, a: string, b: string, c: string, d: string, e: string)
    ensures ContainsAny(s, [a, b, c, d, e]) <==>
      Contains(s, a) || Contains(s, b) || Contains(s, c) || Contains(s, d) || Contains(s, e)
  {
    var ms := [a, b, c, d, e];
    if Contains(s, a) { assert ms[0] in ms; }
    if Contains(s, b) { assert ms[1] in ms; }
    if Contains(s, c) { assert ms[2] in ms; }
    if Contains(s, d) { assert ms[3] in ms; }
    if Contains(s, e) { assert ms[4] in ms; }
  }

  /** Classification ignores case. */
  lemma {:induction false} ClassifyIgnoresCase(url: string)
    ensures Classify(Lower(url)) == Classify(url)
  {
    LowerIdempotent(url);
  }

  /** A video link stays a video even when its path mentions a paper site
      or a blog. */
  lemma {:induction false} VideoWins(url: string)
    requires Contains(Lower(url), "youtube.com")
    ensures Classify(url) == Video
  {
  }

  /** `extract_domain`: the URL without its leading "https://" and "http://"
      (every repetition), cut at the first '/', without its leading "www."
      (every repetition). */
  function ExtractDomain(url: string): (r: string)
    ensures '/' !in r
    ensures !StartsWith(r, "www.")
  {
    var rest := TrimStartMatches(TrimStartMatches(url, "https://"), "http://");
    var host := FirstPiece(rest, "/");
    NoCharPiece(host, '/');
    var d := TrimStartMatches(host, "www.");
    assert d == host[|host| - |d|..];
    d
  }

  /** The domain of a link is its host without the "www." label. */
  lemma {:induction false} DomainOfLink(scheme: string, host: string, path: string)
    requires scheme == "https://" || scheme == "http://"
    requires '/' !in host && ':' !in host && !StartsWith(host, "www.")
    ensures ExtractDomain(scheme + "www." + host + "/" + path) == host
    ensures ExtractDomain(scheme + host + "/" + path) == host
  {
    assert scheme + "www." + host + "/" + path == scheme + ("www." + host) + "/" + path;
    DomainOfHost(scheme, "www." + host, host, path);
    DomainOfHost(scheme, host, host, path);
  }

  lemma {:induction false} DomainOfHost(scheme: string, w: string, host: string, path: string)
    requires scheme == "https://" || scheme == "http://"
    requires '/' !in host && ':' !in host && !StartsWith(host, "www.")
    requires w == "www." + host || w == host
    ensures ExtractDomain(scheme + w + "/" + path) == host
  {
    var tail := w + "/" + path;
    assert scheme + w + "/" + path == scheme + tail;
    assert ':' !in w;
    NoSchemeBefore(w, path, "https://");
    NoSchemeBefore(w, path, "http://");
    SchemeStripped(scheme, tail);
    FirstPieceBefore(w, '/', path);
    if w != host {
      TrimStartOnce("www.", host);
    }
  }

  /** A host without ':' followed by '/' does not start with a scheme. */
  lemma {:induction false} NoSchemeBefore(w: string, path: string, scheme: string)
    requires ':' !in w
    requires scheme == "https://" || scheme == "http://"
    ensures !StartsWith(w + "/" + path, scheme)
  {
    var tail := w + "/" + path;
    var k := |scheme| - 3;
    assert scheme[k] == ':';
    if |w| > k {
      assert tail[k] == w[k] != ':';
    } else {
      assert tail[|w|] == '/' != scheme[|w|];
    }
  }

  /** Removing the leading schemes from `scheme + tail` leaves `tail` when
      it does not start with one. */
  lemma {:induction false} SchemeStripped(scheme: string, tail: string)
    requires scheme == "https://" || scheme == "http://"
    requires !StartsWith(tail, "https://") && !StartsWith(tail, "http://")
    ensures TrimStartMatches(TrimStartMatches(scheme + tail, "https://"), "http://") == tail
  {
    if scheme == "https://" {
      TrimStartOnce("https://", tail);
    } else {
      assert (scheme + tail)[4] == ':';
      TrimStartOnce("http://", tail);
    }
  }

  /** `check_availability`: an empty API key makes the provider unavailable. */
  function CheckAvailability(apiKey: string): (r: Availability)
    ensures r.available <==> apiKey != []
    ensures r.reason.Some? <==> apiKey == []
  {
    if apiKey == [] then Availability(false, Some("Tavily API key is empty"))
    else Availability(true, None)
  }

  /** One result of the Tavily API response. */
  datatype ApiResult = ApiResult(title: string, url: string, content: string, publishedDate: Option<string>)

  /** What the HTTP exchange gave: a transport error, a non-success status
      with its body, a body that does not decode, or the decoded results. */
  datatype Response = SendFailed(error: string) | Status(code: string, body: string)
                    | Undecodable(error: string) | Decoded(results: seq<ApiResult>)

  function ToWebResult(a: ApiResult): (r: WebSearchResult)
    ensures r.url == a.url && r.title == a.title && r.snippet == a.content
    ensures r.sourceType == Classify(a.url) && r.domain == ExtractDomain(a.url)
  {
    WebSearchResult(a.title, a.url, a.content, Classify(a.url), ExtractDomain(a.url), a.publishedDate)
  }

  /** `web_search`: each API result classified and given its domain, in the
      API's order. */
  function WebSearch(response: Response): (r: Result<seq<WebSearchResult>>)
    ensures r.Ok? <==> response.Decoded?
    ensures r.Ok? ==> (|r.value| == |response.results|
      && forall i :: 0 <= i < |r.value| ==> r.value[i] == ToWebResult(response.results[i]))
  {
    match response
    case SendFailed(e) => Err("Tavily API request failed: " + e)
    case Status(code, body) => Err("Tavily API returned " + code + ": " + body)
    case Undecodable(e) => Err("Failed to parse Tavily response: " + e)
    case Decoded(results) => Ok(seq(|results|, i requires 0 <= i < |results| => ToWebResult(results[i])))
  }

  /** The provider for an API key; `exchange` is the API's answer to a query
      and a result limit. */
  function AsProvider(apiKey: string, exchange: (string, nat) -> Response): (p: Provider)
    ensures p.supportsWebSearch
    ensures forall q, n :: p.search(q, n) == Ok([])
    ensures forall id :: p.indexGem(id) == Ok(()) && p.removeGem(id) == Ok(())
    ensures p.reindexAll == Ok(0)
    ensures p.availability.available <==> apiKey != []
  {
    Provider(CheckAvailability(apiKey),
      (q: string, n: nat) => Ok([]),
      (id: string) => Ok(()),
      (id: string) => Ok(()),
      Ok(0),
      (q: string, n: nat) => WebSearch(exchange(q, n)),
      true)
  }

  /** Bytes of the API key shown in the start-up log line. */
  const KEY_LOG_BYTES: nat := 8

  /** `new`: logs the key's first eight bytes, then holds the key. `None`
      where that cut falls inside a character and Rust panics. */
  function New(apiKey: string, exchange: (string, nat) -> Response): (r: Option<Provider>)
    ensures r.None? <==> Utf8.CapBytes(apiKey, KEY_LOG_BYTES).None?
    ensures r.Some? ==> r.value.supportsWebSearch && (r.value.availability.available <==> apiKey != [])
    ensures r.Some? ==> forall q, n :: r.value.webSearch(q, n) == WebSearch(exchange(q, n))
  {
    var _ :- Utf8.CapBytes(apiKey, KEY_LOG_BYTES);
    Some(AsProvider(apiKey, exchange))
  }

  /** An ASCII key, as Tavily issues them, never makes `new` panic. */
  lemma {:induction false} AsciiKeyAccepted(apiKey: string, exchange: (string, nat) -> Response)
    requires forall i :: 0 <= i < |apiKey| ==> apiKey[i] as int < 0x80
    ensures New(apiKey, exchange) == Some(AsProvider(apiKey, exchange))
  {
    Utf8.AsciiCapBytes(apiKey, KEY_LOG_BYTES);
  }

  /** A key whose eighth byte falls inside a two-byte character makes
      `new` panic. */
  lemma {:induction false} SplitCharacterKeyPanics(head: string, c: char, tail: string,
                                                   exchange: (string, nat) -> Response)
    requires Utf8.ByteLen(head) == KEY_LOG_BYTES - 1
    requires 0x80 <= c as int < 0x800
    ensures New(head + [c] + tail, exchange).None?
  {
    assert |Utf8.EncodeChar(c)| == 2;
    Utf8.CapBytesInsideChar(head, c, tail, KEY_LOG_BYTES);
  }
}
