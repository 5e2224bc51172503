/** The generic page extractor: Open Graph and `<meta>` lookups, the title
    fallback chain, entity decoding and the paragraph excerpt. What each
    regular expression captures on the fetched page is an input; the
    processing of those captures is modelled. */
module Generic {
  import opened Wrappers
  import opened Text
  import Utf8
  import Json
  import Tabs
  import opened Gist

  // ---------------------------------------------------------------------
  // Entities
  // ---------------------------------------------------------------------

  /** `str::replace`: every non-overlapping occurrence of `from`, left to
      right. */
  function Replace(s: string, from: string, to: string): (r: string)
    requires |from| > 0
    decreases |s|
  {
    if |s| < |from| then s
    else if At(s, 0, from) then to + Replace(s[|from|..], from, to)
    else [s[0]] + Replace(s[1..], from, to)
  }

  /** Text without the first character of `from` is left alone. */
  lemma {:induction false} ReplaceAbsent(s: string, from: string, to: string)
    requires |from| > 0 && from[0] !in s
    ensures Replace(s, from, to) == s
    decreases |s|
  {
    if |s| >= |from| {
      assert s[0..|from|][0] == s[0];
      assert s[1..] == s[1..];
      ReplaceAbsent(s[1..], from, to);
      assert s == [s[0]] + s[1..];
    }
  }

  /** The replacements of `decode_html_entities`, applied in this order. */
  const ENTITIES: seq<(string, string)> := [
    ("&amp;", "&"), ("&lt;", "<"), ("&gt;", ">"), ("&quot;", "\""),
    ("&#39;", "'"), ("&apos;", "'"), ("&#x27;", "'"), ("&nbsp;", " ")]

  function ReplaceAll(s: string, pairs: seq<(string, string)>): string
    requires forall k :: 0 <= k < |pairs| ==> |pairs[k].0| > 0
    decreases |pairs|
  {
    if |pairs| == 0 then s else ReplaceAll(Replace(s, pairs[0].0, pairs[0].1), pairs[1..])
  }

  /** Every entity starts with '&' and is longer than its replacement. */
  lemma {:induction false} EntitiesStartWithAmpersand()
    ensures forall k :: 0 <= k < |ENTITIES| ==> |ENTITIES[k].0| > 0 && ENTITIES[k].0[0] == '&'
    ensures forall k :: 0 <= k < |ENTITIES| ==> '&' !in ENTITIES[k].1 || k == 0
    ensures forall k :: 0 <= k < |ENTITIES| ==> |ENTITIES[k].1| < |ENTITIES[k].0|
  {
  }

  /** Replacing by a text no longer than the pattern never lengthens. */
  lemma {:induction false} ReplaceShorter(s: string, from: string, to: string)
    requires |from| > 0 && |to| <= |from|
    ensures |Replace(s, from, to)| <= |s|
    decreases |s|
  {
    if |s| >= |from| {
      if At(s, 0, from) {
        ReplaceShorter(s[|from|..], from, to);
      } else {
        ReplaceShorter(s[1..], from, to);
      }
    }
  }

  lemma {:induction false} ReplaceAllShorter(s: string, pairs: seq<(string, string)>)
    requires forall k :: 0 <= k < |pairs| ==> |pairs[k].0| > 0 && |pairs[k].1| <= |pairs[k].0|
    ensures |ReplaceAll(s, pairs)| <= |s|
    decreases |pairs|
  {
    if |pairs| > 0 {
      ReplaceShorter(s, pairs[0].0, pairs[0].1);
      ReplaceAllShorter(Replace(s, pairs[0].0, pairs[0].1), pairs[1..]);
    }
  }

  /** `decode_html_entities`: each entity becomes a shorter text, so
      decoding never lengthens. */
  function DecodeEntities(s: string): (r: string)
    ensures |r| <= |s|
  {
    EntitiesStartWithAmpersand();
    ReplaceAllShorter(s, ENTITIES);
    ReplaceAll(s, ENTITIES)
  }

  lemma {:induction false} ReplaceAllAbsent(s: string, pairs: seq<(string, string)>)
    requires forall k :: 0 <= k < |pairs| ==> |pairs[k].0| > 0 && pairs[k].0[0] == '&'
    requires '&' !in s
    ensures ReplaceAll(s, pairs) == s
  {
    if |pairs| > 0 {
      ReplaceAbsent(s, pairs[0].0, pairs[0].1);
      ReplaceAllAbsent(s, pairs[1..]);
    }
  }

  /** Text without '&' has nothing to decode. */
  lemma {:induction false} DecodeWithoutAmpersand(s: string)
    requires '&' !in s
    ensures DecodeEntities(s) == s
  {
    EntitiesStartWithAmpersand();
    ReplaceAllAbsent(s, ENTITIES);
  }

  /** "&amp;" is replaced first, so a doubly escaped "&amp;lt;" decodes all
      the way to "<". */
  lemma {:induction false} DoubleEscapeDecodedTwice()
    ensures DecodeEntities("&amp;lt;") == "<"
  {
    var s := "&amp;lt;";
    assert At(s, 0, "&amp;");
    var t := "lt;";
    assert s[5..] == t;
    assert Replace(t, "&amp;", "&") == t by { ReplaceAbsent(t, "&amp;", "&"); }
    assert Replace(s, "&amp;", "&") == "&lt;";
    var u := "&lt;";
    assert At(u, 0, "&lt;") && u[4..] == [];
    assert Replace(u, "&lt;", "<") == "<";
    EntitiesStartWithAmpersand();
    ReplaceAllAbsent("<", ENTITIES[2..]);
  }

  // ---------------------------------------------------------------------
  // Meta lookups and the title
  // ---------------------------------------------------------------------

  /** One match of a `<meta …>` pattern: the attribute the pattern names
      (`property` or `name`) and the `content` attribute. */
  datatype MetaTag = MetaTag(key: string, content: string)

  predicate Usable(t: MetaTag, key: string) {
    t.key == key && t.content != []
  }

  /** The index of the first match for `key` with non-empty content. */
  function FirstUsable(tags: seq<MetaTag>, key: string): (r: Option<nat>)
    ensures r.Some? ==> (r.value < |tags| && Usable(tags[r.value], key)
      && forall j :: 0 <= j < r.value ==> !Usable(tags[j], key))
    ensures r.None? ==> forall i :: 0 <= i < |tags| ==> !Usable(tags[i], key)
  {
    if |tags| == 0 then None
    else if Usable(tags[0], key) then Some(0)
    else match FirstUsable(tags[1..], key)
      case Some(i) => Some(i + 1)
      case None => None
  }

  /** That match's content, decoded. */
  function FirstContent(tags: seq<MetaTag>, key: string): (r: Option<string>)
    ensures r.None? <==> forall i :: 0 <= i < |tags| ==> !Usable(tags[i], key)
    ensures r.Some? ==> exists i :: (0 <= i < |tags| && Usable(tags[i], key)
      && r.value == DecodeEntities(tags[i].content)
      && forall j :: 0 <= j < i ==> !Usable(tags[j], key))
  {
    match FirstUsable(tags, key)
    case Some(i) => Some(DecodeEntities(tags[i].content))
    case None => None
  }

  /** What the page's patterns capture, in document order. The paragraph
      pattern is applied to the text it is given. */
  datatype Page = Page(
    html: string,
    ogTags: seq<MetaTag>, ogTagsReversed: seq<MetaTag>,
    metaTags: seq<MetaTag>, metaTagsReversed: seq<MetaTag>,
    title: Option<string>,
    article: Option<string>, main: Option<string>,
    paragraphs: string -> seq<string>)

  /** `extract_og_content`: the `property … content` order is tried first,
      then `content … property`. */
  function OgContent(p: Page, property: string): (r: Option<string>)
    ensures FirstContent(p.ogTags, property).Some? ==> r == FirstContent(p.ogTags, property)
    ensures FirstContent(p.ogTags, property).None? ==> r == FirstContent(p.ogTagsReversed, property)
  {
    FirstContent(p.ogTags, property).Or(FirstContent(p.ogTagsReversed, property))
  }

  /** `extract_meta_content`, in the same two orders. */
  function MetaContent(p: Page, name: string): (r: Option<string>)
    ensures FirstContent(p.metaTags, name).Some? ==> r == FirstContent(p.metaTags, name)
    ensures FirstContent(p.metaTags, name).None? ==> r == FirstContent(p.metaTagsReversed, name)
  {
    FirstContent(p.metaTags, name).Or(FirstContent(p.metaTagsReversed, name))
  }

  /** `extract_html_title`: the first `<title>` text, trimmed and decoded. */
  function HtmlTitle(p: Page): (r: Option<string>)
    ensures r.Some? <==> p.title.Some?
    ensures r.Some? ==> r.value == DecodeEntities(Trim(p.title.value))
  {
    match p.title
    case Some(t) => Some(DecodeEntities(Trim(t)))
    case None => None
  }

  /** The title: `og:title`, then the `title` meta tag, then `<title>`, then
      "Unknown". */
  function PageTitle(p: Page): (r: string)
    ensures OgContent(p, "og:title").Some? ==> r == OgContent(p, "og:title").value
    ensures OgContent(p, "og:title").None? && MetaContent(p, "title").Some? ==>
      r == MetaContent(p, "title").value
    ensures OgContent(p, "og:title").None? && MetaContent(p, "title").None? ==>
      r == if p.title.Some? then HtmlTitle(p).value else "Unknown"
  {
    OgContent(p, "og:title").Or(MetaContent(p, "title")).Or(HtmlTitle(p)).GetOr("Unknown")
  }

  // ---------------------------------------------------------------------
  // Excerpt
  // ---------------------------------------------------------------------

  /** `<[^>]+>` replaced by nothing: a '<' that some later '>' closes, with
      at least one character between, goes with everything up to that '>'. */
  function StripTags(s: string): (r: string)
    ensures |r| <= |s|
    decreases |s|
  {
    if |s| == 0 then []
    else if s[0] == '<' then
      match FindFrom(s, ">", 1)
      case Some(k) =>
        if k > 1 then StripTags(s[k + 1..]) else [s[0]] + StripTags(s[1..])
      case None => [s[0]] + StripTags(s[1..])
    else [s[0]] + StripTags(s[1..])
  }

  /** Text with no '<' has no tags to strip. */
  lemma {:induction false} StripTagsPlain(s: string)
    requires '<' !in s
    ensures StripTags(s) == s
  {
    if |s| > 0 {
      StripTagsPlain(s[1..]);
      assert s == [s[0]] + s[1..];
    }
  }

  /** A tag around text is dropped: `<b>text</b>` reads as `text`. */
  lemma {:induction false} StripTagsDropsTag(name: string, s: string)
    requires name != [] && '>' !in name
    ensures StripTags("<" + name + ">" + s) == StripTags(s)
  {
    var x := "<" + name + ">" + s;
    var k := |name| + 1;
    assert x[k] == '>';
    assert At(x, k, ">");
    forall j | 1 <= j < k ensures !At(x, j, ">") {
      assert x[j] == name[j - 1];
      assert x[j..j + 1][0] == x[j];
    }
    assert FindFrom(x, ">", 1) == Some(k);
    assert x[k + 1..] == s;
  }

  /** One paragraph's text: tags stripped, trimmed, entities decoded. */
  function ParagraphText(raw: string): string {
    DecodeEntities(Trim(StripTags(raw)))
  }

  function ParagraphTexts(raws: seq<string>): (r: seq<string>)
    ensures |r| == |raws| && forall k :: 0 <= k < |r| ==> r[k] == ParagraphText(raws[k])
  {
    seq(|raws|, k requires 0 <= k < |raws| => ParagraphText(raws[k]))
  }

  const MIN_PARAGRAPH_BYTES: nat := 20
  const EXCERPT_BYTES: nat := 500

  /** A paragraph that counts: more than 20 bytes. */
  predicate Long(t: string) {
    Utf8.ByteLen(t) > MIN_PARAGRAPH_BYTES
  }

  function TotalBytes(ts: seq<string>): nat {
    if |ts| == 0 then 0 else TotalBytes(ts[..|ts| - 1]) + Utf8.ByteLen(ts[|ts| - 1])
  }

  /** The paragraph loop from a running total: long paragraphs are kept in
      order, and the loop stops right after the total passes 500 bytes. */
  function Collect(texts: seq<string>, total: nat): (r: seq<string>)
    decreases |texts|
  {
    if |texts| == 0 then []
    else if !Long(texts[0]) then Collect(texts[1..], total)
    else
      var total' := total + Utf8.ByteLen(texts[0]);
      if total' > EXCERPT_BYTES then [texts[0]] else [texts[0]] + Collect(texts[1..], total')
  }

  predicate AllLong(ts: seq<string>) {
    forall k :: 0 <= k < |ts| ==> Long(ts[k])
  }

  /** What the loop keeps: long paragraphs only, each one of the page's. */
  lemma {:induction false} CollectKeepsLong(texts: seq<string>, total: nat)
    decreases |texts|
    ensures AllLong(Collect(texts, total))
    ensures forall t :: t in Collect(texts, total) ==> t in texts
  {
    if |texts| > 0 {
      var rest := texts[1..];
      var r := Collect(texts, total);
      assert forall t :: t in rest ==> t in texts;
      if !Long(texts[0]) {
        CollectKeepsLong(rest, total);
        assert r == Collect(rest, total);
      } else if total + Utf8.ByteLen(texts[0]) <= EXCERPT_BYTES {
        var tail := Collect(rest, total + Utf8.ByteLen(texts[0]));
        CollectKeepsLong(rest, total + Utf8.ByteLen(texts[0]));
        assert r == [texts[0]] + tail;
        assert AllLong(tail);
        forall k | 0 <= k < |r| ensures Long(r[k]) {
          if k > 0 { assert r[k] == tail[k - 1]; } else { assert r[k] == texts[0]; }
        }
        forall t | t in r ensures t in texts {
          if t != texts[0] { assert t in tail; }
        }
      } else {
        assert r == [texts[0]];
      }
    }
  }

  /** Before the last kept paragraph the running total had not passed 500
      bytes: the loop stops right after it does. */
  lemma {:induction false} CollectBudget(texts: seq<string>, total: nat)
    requires total <= EXCERPT_BYTES
    decreases |texts|
    ensures var r := Collect(texts, total);
      |r| > 0 ==> total + TotalBytes(r[..|r| - 1]) <= EXCERPT_BYTES
  {
    if |texts| > 0 {
      var r := Collect(texts, total);
      var rest := texts[1..];
      if !Long(texts[0]) {
        CollectBudget(rest, total);
      } else {
        var total' := total + Utf8.ByteLen(texts[0]);
        if total' > EXCERPT_BYTES {
          assert r[..|r| - 1] == [];
          assert TotalBytes([]) == 0;
        } else {
          var tail := Collect(rest, total');
          CollectBudget(rest, total');
          assert r == [texts[0]] + tail;
          if |tail| > 0 {
            assert r[..|r| - 1] == [texts[0]] + tail[..|tail| - 1];
            TotalBytesCons(texts[0], tail[..|tail| - 1]);
          } else {
            assert r[..|r| - 1] == [];
            assert TotalBytes([]) == 0;
          }
        }
      }
    }
  }

  /** When the total never passes 500 bytes every long paragraph is kept. */
  lemma {:induction false} CollectAll(texts: seq<string>, total: nat)
    decreases |texts|
    ensures var r := Collect(texts, total);
      total + TotalBytes(r) <= EXCERPT_BYTES ==> r == Filter(texts, Long)
  {
    if |texts| > 0 {
      var r := Collect(texts, total);
      var rest := texts[1..];
      assert texts == [texts[0]] + rest;
      if !Long(texts[0]) {
        CollectAll(rest, total);
        assert Filter(texts, Long) == Filter(rest, Long);
      } else {
        var total' := total + Utf8.ByteLen(texts[0]);
        if total' > EXCERPT_BYTES {
          assert r == [texts[0]] + [];
          TotalBytesCons(texts[0], []);
        } else {
          var tail := Collect(rest, total');
          CollectAll(rest, total');
          assert r == [texts[0]] + tail;
          TotalBytesCons(texts[0], tail);
          assert Filter(texts, Long) == [texts[0]] + Filter(rest, Long);
        }
      }
    }
  }

  lemma {:induction false} TotalBytesCons(t: string, ts: seq<string>)
    ensures TotalBytes([t] + ts) == Utf8.ByteLen(t) + TotalBytes(ts)
    decreases |ts|
  {
    if |ts| > 0 {
      assert ([t] + ts)[..|ts|] == [t] + ts[..|ts| - 1];
      TotalBytesCons(t, ts[..|ts| - 1]);
    } else {
      assert ([t] + ts)[..0] == [];
    }
  }

  /** `cut` is what `rfind(' ')` and `truncate` leave of `head`: the text
      before its last space, or all of it when it has none. */
  predicate LastSpaceCut(head: string, cut: string) {
    && (' ' in head ==> |cut| < |head| && cut == head[..|cut|] && head[|cut|] == ' ' && ' ' !in head[|cut| + 1..])
    && (' ' !in head ==> cut == head)
  }

  /** Cutting the joined excerpt: more than 500 bytes are cut at the last
      space within the first 500 bytes (or at 500 when there is none) and
      marked with "...". `None` where byte 500 falls inside a character and
      the slice `excerpt[..500]` panics. */
  function Shorten(e: string): (r: Option<string>)
    ensures Utf8.ByteLen(e) <= EXCERPT_BYTES ==> r == Some(e)
    ensures Utf8.ByteLen(e) > EXCERPT_BYTES ==>
      (r.None? <==> forall k :: 0 <= k <= |e| ==> Utf8.ByteLen(e[..k]) != EXCERPT_BYTES)
    ensures Utf8.ByteLen(e) > EXCERPT_BYTES && r.Some? ==>
      && EndsWith(r.value, "...")
      && Utf8.BytePrefix(e, EXCERPT_BYTES).Some?
      && LastSpaceCut(Utf8.BytePrefix(e, EXCERPT_BYTES).value, r.value[..|r.value| - 3])
  {
    if Utf8.ByteLen(e) <= EXCERPT_BYTES then Some(e)
    else match Utf8.BytePrefix(e, EXCERPT_BYTES)
      case None => None
      case Some(head) =>
        var cut := match RFind(head, " ") case Some(pos) => head[..pos] case None => head;
        LastSpaceOf(head);
        assert (cut + "...")[..|cut|] == cut;
        Some(cut + "...")
  }

  /** What `rfind(' ')` gives, as `LastSpaceCut` states it. */
  lemma {:induction false} LastSpaceOf(head: string)
    ensures LastSpaceCut(head, match RFind(head, " ") case Some(pos) => head[..pos] case None => head)
  {
    match RFind(head, " ")
    case Some(pos) =>
      assert head[pos..pos + 1] == " ";
      assert head[pos] == ' ';
      var tail := head[pos + 1..];
      forall i | 0 <= i < |tail| ensures tail[i] != ' ' {
        assert !At(head, pos + 1 + i, " ");
        assert head[pos + 1 + i..pos + 1 + i + 1] == [tail[i]];
      }
    case None =>
      forall i | 0 <= i < |head| ensures head[i] != ' ' {
        assert !At(head, i, " ");
        assert head[i..i + 1] == [head[i]];
      }
  }

  lemma {:induction false} SpaceNotAfterCut(head: string, c: nat)
    requires c < |head| && ' ' !in head[c + 1..]
    ensures forall k :: c < k < |head| ==> head[k] != ' '
  {
    forall k | c < k < |head| ensures head[k] != ' ' {
      assert head[k] == head[c + 1..][k - c - 1];
    }
  }

  /** An ASCII excerpt with a space before byte 500 and none after it up to
      that byte is cut at that space. */
  lemma {:induction false} ShortenCutsAtLastSpace(a: string, b: string)
    requires forall i :: 0 <= i < |a| ==> a[i] as int < 0x80
    requires forall i :: 0 <= i < |b| ==> b[i] as int < 0x80
    requires |a| < EXCERPT_BYTES < |a| + 1 + |b| && ' ' !in b
    ensures Shorten(a + " " + b) == Some(a + "...")
  {
    var e := a + " " + b;
    assert forall i :: 0 <= i < |e| ==> e[i] as int < 0x80 by {
      forall i | 0 <= i < |e| ensures e[i] as int < 0x80 {
        if i < |a| { assert e[i] == a[i]; } else if i > |a| { assert e[i] == b[i - |a| - 1]; }
      }
    }
    Utf8.EncodeAscii(e);
    Utf8.AsciiBytePrefix(e, EXCERPT_BYTES);
    var head := e[..EXCERPT_BYTES];
    assert head[|a|] == ' ';
    var r := Shorten(e);
    AsciiExcerptCuts(e);
    var cut := r.value[..|r.value| - 3];
    assert forall i :: |a| < i < |head| ==> head[i] == b[i - |a| - 1];
    SpaceNotAfterCut(head, |cut|);
    assert |cut| == |a|;
    assert cut == a by { assert cut == head[..|a|]; }
    assert r.value == cut + "...";
  }

  /** An ASCII excerpt never panics. */
  lemma {:induction false} AsciiExcerptCuts(e: string)
    requires forall i :: 0 <= i < |e| ==> e[i] as int < 0x80
    ensures Shorten(e).Some?
  {
    Utf8.EncodeAscii(e);
    if |e| > EXCERPT_BYTES {
      Utf8.AsciiBytePrefix(e, EXCERPT_BYTES);
    }
  }

  /** The text the paragraph pattern runs over: the first `<article>`'s
      body, else the first `<main>`'s, else the whole page. */
  function Body(p: Page): (r: string)
    ensures p.article.Some? ==> r == p.article.value
    ensures p.article.None? && p.main.Some? ==> r == p.main.value
    ensures p.article.None? && p.main.None? ==> r == p.html
  {
    p.article.Or(p.main).GetOr(p.html)
  }

  /** `extract_content_excerpt`: the kept paragraphs joined by spaces and
      shortened; `Some(None)` when no paragraph is long enough, `None` where
      the cut panics. */
  function ContentExcerpt(p: Page): (r: Option<Option<string>>)
    ensures var parts := Collect(ParagraphTexts(p.paragraphs(Body(p))), 0);
      && (parts == [] ==> r == Some(None))
      && (parts != [] ==> (r.None? <==> Shorten(Join(parts, " ")).None?))
      && (parts != [] && r.Some? ==> r.value.Some? && Some(r.value.value) == Shorten(Join(parts, " ")))
  {
    var parts := Collect(ParagraphTexts(p.paragraphs(Body(p))), 0);
    if parts == [] then Some(None)
    else match Shorten(Join(parts, " "))
      case None => None
      case Some(e) => Some(Some(e))
  }

  /** The publication date: `article:published_time`, then `publishedDate`,
      then `date`. */
  function PublishedDate(p: Page): (r: Option<string>)
    ensures MetaContent(p, "article:published_time").Some? ==> r == MetaContent(p, "article:published_time")
    ensures MetaContent(p, "article:published_time").None? && MetaContent(p, "publishedDate").Some? ==>
      r == MetaContent(p, "publishedDate")
    ensures MetaContent(p, "article:published_time").None? && MetaContent(p, "publishedDate").None? ==>
      r == MetaContent(p, "date")
  {
    MetaContent(p, "article:published_time").Or(MetaContent(p, "publishedDate")).Or(MetaContent(p, "date"))
  }

  /** `extract`: `page` is the fetched page's captures or the fetch error.
      `None` where the excerpt panics. */
  function Extract(url: string, sourceType: Tabs.SourceType, domain: string, page: Result<Page>): (r: Option<Result<PageGist>>)
    ensures page.Err? ==> r == Some(Err(page.error))
    ensures page.Ok? && r.Some? && r.value.Ok? ==>
      var g := r.value.value;
      && g.url == url && g.sourceType == sourceType && g.domain == domain
      && g.title == PageTitle(page.value)
      && g.description == OgContent(page.value, "og:description").Or(MetaContent(page.value, "description"))
      && g.author == MetaContent(page.value, "author").Or(MetaContent(page.value, "article:author"))
      && g.imageUrl == OgContent(page.value, "og:image")
      && g.publishedDate == PublishedDate(page.value)
      && ContentExcerpt(page.value).Some? && g.contentExcerpt == ContentExcerpt(page.value).value
      && g.extra == Json.Null
    ensures page.Ok? ==> (r.None? <==> ContentExcerpt(page.value).None?)
    ensures r.Some? && r.value.Err? ==> page.Err?
  {
    match page
    case Err(e) => Some(Err(e))
    case Ok(p) =>
      match ContentExcerpt(p)
      case None => None
      case Some(excerpt) =>
        Some(Ok(PageGist(
          url, PageTitle(p), sourceType, domain,
          MetaContent(p, "author").Or(MetaContent(p, "article:author")),
          OgContent(p, "og:description").Or(MetaContent(p, "description")),
          excerpt,
          PublishedDate(p),
          OgContent(p, "og:image"),
          Json.Null)))
  }

  /** With too little text, the loop keeps every long paragraph. */
  lemma {:induction false} CollectUnderBudget(texts: seq<string>, total: nat)
    requires total + TotalBytes(Filter(texts, Long)) <= EXCERPT_BYTES
    ensures Collect(texts, total) == Filter(texts, Long)
    decreases |texts|
  {
    if |texts| > 0 {
      var rest := texts[1..];
      assert texts == [texts[0]] + rest;
      if Long(texts[0]) {
        assert Filter(texts, Long) == [texts[0]] + Filter(rest, Long);
        TotalBytesCons(texts[0], Filter(rest, Long));
        CollectUnderBudget(rest, total + Utf8.ByteLen(texts[0]));
      } else {
        assert Filter(texts, Long) == Filter(rest, Long);
        CollectUnderBudget(rest, total);
      }
    }
  }

  /** A page whose long paragraphs fit in 500 bytes, joined, is excerpted
      whole: every long paragraph, in page order, joined by spaces. */
  lemma {:induction false} ShortPageExcerptedWhole(p: Page)
    requires var long := Filter(ParagraphTexts(p.paragraphs(Body(p))), Long);
      long != [] && TotalBytes(long) <= EXCERPT_BYTES && Utf8.ByteLen(Join(long, " ")) <= EXCERPT_BYTES
    ensures ContentExcerpt(p) == Some(Some(Join(Filter(ParagraphTexts(p.paragraphs(Body(p))), Long), " ")))
  {
    CollectUnderBudget(ParagraphTexts(p.paragraphs(Body(p))), 0);
  }
}
