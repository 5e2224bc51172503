/** Browser tabs: the domain of a URL and the kind of source it is. */
module Tabs {
  import opened Wrappers
  import opened Text

  datatype SourceType =
    | YouTube | Article | Code | Docs | Email | Chat | QA | News | Research | Social | Other

  /** `format!("{:?}", source_type)`: the variant's name. */
  function SourceTypeName(t: SourceType): (r: string)
    ensures |r| >= 2
  {
    match t
    case YouTube => "YouTube"
    case Article => "Article"
    case Code => "Code"
    case Docs => "Docs"
    case Email => "Email"
    case Chat => "Chat"
    case QA => "QA"
    case News => "News"
    case Research => "Research"
    case Social => "Social"
    case Other => "Other"
  }

  /** Distinct kinds print distinctly. */
  lemma {:induction false} SourceTypeNameInjective(a: SourceType, b: SourceType)
    requires SourceTypeName(a) == SourceTypeName(b)
    ensures a == b
  {
    var n := SourceTypeName(a);
    assert n[0] == SourceTypeName(b)[0] && n[1] == SourceTypeName(b)[1];
  }

  /** `url.split("://").nth(1).unwrap_or(url)`: the text between the first
      "://" and the next one, or the whole URL. */
  function AfterScheme(url: string): (r: string)
    ensures Find(url, "://").None? ==> r == url
    ensures Find(url, "://").Some? ==> StartsWith(url[Find(url, "://").value + 3..], r)
  {
    match Find(url, "://")
    case None => url
    case Some(i) => FirstPiece(url[i + 3..], "://")
  }

  /** The host part before any path or port. */
  function Host(url: string): (r: string)
    ensures '/' !in r && ':' !in r
    ensures StartsWith(AfterScheme(url), r)
  {
    var a := AfterScheme(url);
    var h := FirstPiece(FirstPiece(a, "/"), ":");
    assert StartsWith(a, h) by {
      assert FirstPiece(a, "/")[..|h|] == a[..|h|];
    }
    NoCharPiece(FirstPiece(a, "/"), '/');
    NoCharPiece(h, ':');
    h
  }

  /** `extract_domain`: the host without one leading "www.". */
  function ExtractDomain(url: string): (r: string)
    ensures '/' !in r && ':' !in r
    ensures r == Host(url) || "www." + r == Host(url)
    ensures StartsWith(Host(url), "www.") <==> "www." + r == Host(url)
  {
    var h := Host(url);
    match StripPrefix(h, "www.")
    case Some(rest) =>
      assert h == "www." + rest;
      rest
    case None => h
  }

  /** A bare domain is its own domain, so extracting twice changes nothing
      unless the host began with "www.www.". */
  lemma {:induction false} DomainOfDomain(d: string)
    requires '/' !in d && ':' !in d && !StartsWith(d, "www.")
    ensures ExtractDomain(d) == d
  {
    AbsentNotContained(d, "://", ':');
    AbsentNotContained(d, "/", '/');
    AbsentNotContained(d, ":", ':');
  }

  lemma {:induction false} ExtractDomainIdempotent(url: string)
    requires !StartsWith(ExtractDomain(url), "www.")
    ensures ExtractDomain(ExtractDomain(url)) == ExtractDomain(url)
  {
    DomainOfDomain(ExtractDomain(url));
  }

  /** The needles each category looks for in the domain. */
  const YOUTUBE: seq<string> := ["youtube.com", "youtu.be"]
  const EMAIL: seq<string> := ["mail.google.com"]
  const CHAT: seq<string> := ["chatgpt.com", "chat.openai.com"]
  const CODE: seq<string> := ["github.com", "gitlab.com", "bitbucket.org", "codeberg.org"]
  const QA_SITES: seq<string> := ["stackoverflow.com", "stackexchange.com", "superuser.com", "serverfault.com", "askubuntu.com"]
  const DOCS: seq<string> := ["docs.rs", "doc.rust-lang.org", "developer.mozilla.org", "developer.apple.com", "learn.microsoft.com", "readthedocs.io", "docs.python.org", "docs.google.com"]
  const RESEARCH: seq<string> := ["arxiv.org", "scholar.google.com", "semanticscholar.org", "researchgate.net", "pubmed.ncbi.nlm.nih.gov"]
  const NEWS: seq<string> := ["news.ycombinator.com", "reddit.com", "lobste.rs", "slashdot.org"]
  const ARTICLE: seq<string> := ["medium.com", "substack.com", "dev.to", "hashnode.dev", "blog.", "wordpress.com"]
  const SOCIAL: seq<string> := ["twitter.com", "x.com", "linkedin.com", "mastodon", "threads.net"]

  /** The categories in the order they are tried; a domain matching none
      is `Other`. */
  const RULES: seq<(SourceType, seq<string>)> := [
    (YouTube, YOUTUBE),
    (Email, EMAIL),
    (Chat, CHAT),
    (Code, CODE),
    (QA, QA_SITES),
    (Docs, DOCS),
    (Research, RESEARCH),
    (News, NEWS),
    (Article, ARTICLE),
    (Social, SOCIAL)
  ]

  /** Some needle occurs in the domain. */
  predicate Hits(domain: string, needles: seq<string>) {
    |needles| > 0 && (Contains(domain, needles[0]) || Hits(domain, needles[1..]))
  }

  /** The reference reading of the rules: the first category with a hit,
      else `Other`. */
  function FirstHit(domain: string, rules: seq<(SourceType, seq<string>)>): SourceType
  {
    if |rules| == 0 then Other
    else if Hits(domain, rules[0].1) then rules[0].0
    else FirstHit(domain, rules[1..])
  }

  /** The category chosen is the first rule that hits, and `Other` means no
      rule hits. */
  lemma {:induction false} FirstHitSpec(domain: string, rules: seq<(SourceType, seq<string>)>)
    requires forall k :: 0 <= k < |rules| ==> rules[k].0 != Other
    ensures FirstHit(domain, rules) == Other <==> forall k :: 0 <= k < |rules| ==> !Hits(domain, rules[k].1)
    ensures FirstHit(domain, rules) != Other ==> exists k ::
      && 0 <= k < |rules| && rules[k].0 == FirstHit(domain, rules) && Hits(domain, rules[k].1)
      && forall j :: 0 <= j < k ==> !Hits(domain, rules[j].1)
  {
    if |rules| > 0 && !Hits(domain, rules[0].1) {
      var tail := rules[1..];
      FirstHitSpec(domain, tail);
      assert forall k :: 1 <= k < |rules| ==> rules[k] == tail[k - 1];
      var r := FirstHit(domain, tail);
      if r != Other {
        var k :| 0 <= k < |tail| && tail[k].0 == r && Hits(domain, tail[k].1)
          && forall j :: 0 <= j < k ==> !Hits(domain, tail[j].1);
        assert rules[k + 1].0 == r && Hits(domain, rules[k + 1].1);
        assert forall j :: 0 <= j < k + 1 ==> !Hits(domain, rules[j].1);
      }
    }
  }

  /** `classify_url`: the source's chain of substring tests is the rule
      table read in order. */
  function ClassifyUrl(url: string): (r: SourceType)
    ensures r == Other <==> forall k :: 0 <= k < |RULES| ==> !Hits(ExtractDomain(url), RULES[k].1)
    ensures r != Other ==> exists k ::
      && 0 <= k < |RULES| && RULES[k].0 == r && Hits(ExtractDomain(url), RULES[k].1)
      && forall j :: 0 <= j < k ==> !Hits(ExtractDomain(url), RULES[j].1)
  {
    FirstHitSpec(ExtractDomain(url), RULES);
    FirstHit(ExtractDomain(url), RULES)
  }

  /** After a colon-free scheme comes the rest of the URL, when the rest
      has no "://" of its own. */
  lemma {:induction false} AfterSchemeOf(scheme: string, tail: string)
    requires ':' !in scheme && !Contains(tail, "://")
    ensures AfterScheme(scheme + "://" + tail) == tail
  {
    var u := scheme + "://" + tail;
    var n := |scheme|;
    assert u[n..n + 3] == "://";
    forall j | 0 <= j < n ensures !At(u, j, "://") {
      assert u[j..j + 3][0] == u[j] == scheme[j];
    }
    assert At(u, n, "://");
    assert Find(u, "://") == Some(n);
    assert u[n + 3..] == tail;
    assert Find(tail, "://").None?;
  }

  /** A host followed by a path or a port is cut back to the host. */
  lemma {:induction false} HostPieces(host: string, rest: string)
    requires '/' !in host && ':' !in host
    requires rest == [] || rest[0] == '/' || rest[0] == ':'
    ensures FirstPiece(FirstPiece(host + rest, "/"), ":") == host
  {
    var after := host + rest;
    var p := FirstPiece(after, "/");
    forall k | 0 <= k < |host| ensures !At(after, k, "/") {
      assert after[k..k + 1][0] == host[k];
    }
    NoCharPiece(p, '/');
    assert |p| > |host| ==> p[|host|] == ':' by {
      assert |p| > |host| ==> p[|host|] == after[|host|] == rest[0];
    }
    var r := FirstPiece(p, ":");
    forall k | 0 <= k < |host| ensures !At(p, k, ":") {
      assert p[k..k + 1][0] == p[k] == host[k];
    }
    if |p| > |host| {
      PrefixKeeps(r, p, |host|, ':');
    }
    assert r == p[..|host|] == host;
  }

  /** A prefix long enough to reach index `i` holds the character there. */
  lemma {:induction false} PrefixKeeps(r: string, p: string, i: nat, c: char)
    requires StartsWith(p, r) && i < |p| && p[i] == c
    ensures i < |r| ==> Contains(r, [c])
  {
    if i < |r| {
      assert r[i..i + 1] == [c];
      ContainsAt(r, [c], i);
    }
  }

  /** A host and what follows it hold "://" only where the rest does. */
  lemma {:induction false} NoSchemeMarker(host: string, rest: string)
    requires ':' !in host && !Contains(rest, "://")
    ensures !Contains(host + rest, "://")
  {
    var after := host + rest;
    forall k | 0 <= k ensures !At(after, k, "://") {
      if k < |host| && k + 3 <= |after| {
        assert after[k..k + 3][0] == host[k] && host[k] in host;
        assert "://"[0] == ':';
        assert !At(after, k, "://");
      } else if k >= |host| && k + 3 <= |after| {
        assert after[k..k + 3] == rest[k - |host|..k - |host| + 3];
        assert !At(rest, k - |host|, "://");
        assert !At(after, k, "://");
      }
    }
  }

  /** The domain of "scheme://host" followed by a path or a port is the
      host, less one leading "www.". */
  lemma {:induction false} DomainOfUrl(scheme: string, host: string, rest: string)
    requires ':' !in scheme && '/' !in host && ':' !in host
    requires rest == [] || rest[0] == '/' || rest[0] == ':'
    requires !Contains(rest, "://")
    ensures ExtractDomain(scheme + "://" + host + rest) ==
      if StartsWith(host, "www.") then host[4..] else host
  {
    NoSchemeMarker(host, rest);
    assert scheme + "://" + host + rest == scheme + "://" + (host + rest);
    AfterSchemeOf(scheme, host + rest);
    HostPieces(host, rest);
  }

  /** A short link classifies as YouTube. */
  lemma {:induction false} ClassifyShortLink(id: string)
    requires '/' !in id && ':' !in id
    ensures ClassifyUrl("https" + "://" + "youtu.be" + ("/" + id)) == YouTube
  {
    var url := "https" + "://" + "youtu.be" + ("/" + id);
    AbsentNotContained("/" + id, "://", ':');
    assert "youtu.be"[0] != "www."[0];
    DomainOfUrl("https", "youtu.be", "/" + id);
    YouTubeFirst(url);
  }

  lemma {:induction false} YouTubeFirst(url: string)
    requires ExtractDomain(url) == "youtu.be"
    ensures ClassifyUrl(url) == YouTube
  {
    var d := ExtractDomain(url);
    assert At(d, 0, "youtu.be");
    assert YOUTUBE[1..] == ["youtu.be"];
    assert Hits(d, YOUTUBE[1..]);
    assert Hits(d, RULES[0].1);
  }

  /** A tab as the browser adapter reports it. */
  datatype RawTab = RawTab(url: string, title: string)

  datatype BrowserTab = BrowserTab(url: string, title: string, sourceType: SourceType, domain: string)

  /** `list_all_tabs`: every tab the adapter lists, in its order, with the
      kind and domain of its URL. */
  function ListAllTabs(available: bool, raw: Result<seq<RawTab>>): (r: Result<seq<BrowserTab>>)
    ensures !available ==> r == Err("Chrome is not running")
    ensures available && raw.Err? ==> r == Err(raw.error)
    ensures r.Ok? <==> available && raw.Ok?
    ensures r.Ok? ==> |r.value| == |raw.value| && forall i :: 0 <= i < |r.value| ==>
      && r.value[i].url == raw.value[i].url && r.value[i].title == raw.value[i].title
      && r.value[i].sourceType == ClassifyUrl(raw.value[i].url)
      && r.value[i].domain == ExtractDomain(raw.value[i].url)
  {
    if !available then Err("Chrome is not running")
    else
      var tabs :- raw;
      Ok(seq(|tabs|, i requires 0 <= i < |tabs| =>
        BrowserTab(tabs[i].url, tabs[i].title, ClassifyUrl(tabs[i].url), ExtractDomain(tabs[i].url))))
  }
}
