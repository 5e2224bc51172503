/** The QMD semantic search provider's result processing
    (`QmdResultProvider`): the score threshold, the query cap, the JSON
    array cut out of the CLI's noisy output, the gem id of a result file,
    and the best-entry-per-gem reduction. Running the `qmd` CLI is a
    parameter: its spawn error or its exit status and standard output. */
module Qmd {
  import opened Wrappers
  import opened Text
  import opened Json
  import opened Ordering
  import opened SearchTypes
  import Utf8

  /** Longest query, in bytes, handed to the CLI. */
  const MAX_QUERY_BYTES: nat := 200

  /** Bytes of the CLI's output shown in the raw-output log line. */
  const LOG_OUTPUT_BYTES: nat := 500

  /** The collection prefix of the file URIs QMD reports. */
  const URI_PREFIX: string := "qmd://jarvis-gems/"

  // ---------------------------------------------------------------------
  // Threshold, query cap and score range
  // ---------------------------------------------------------------------

  /** `new`: the accuracy percentage (a `u8`), capped at 100, as a
      fraction. */
  function MinScore(accuracyPct: nat): (r: real)
    requires accuracyPct < 256
    ensures 0.0 <= r <= 1.0
    ensures r * 100.0 == (if accuracyPct <= 100 then accuracyPct else 100) as real
  {
    (if accuracyPct <= 100 then accuracyPct else 100) as real / 100.0
  }

  /** A threshold at or above 100 percent admits only perfect scores, and
      0 percent admits every clamped score. */
  lemma {:induction false} MinScoreExtremes(accuracyPct: nat)
    requires accuracyPct < 256
    ensures accuracyPct >= 100 ==> MinScore(accuracyPct) == 1.0
    ensures accuracyPct == 0 ==> forall x :: MinScore(accuracyPct) <= Normalize(x)
  {
  }

  /** `normalize_qmd_score`: the score clamped to [0, 1]. */
  function Normalize(x: real): (r: real)
    ensures 0.0 <= r <= 1.0
    ensures 0.0 <= x <= 1.0 ==> r == x
  {
    if x < 0.0 then 0.0 else if x > 1.0 then 1.0 else x
  }

  /** Clamping keeps the order of scores and is idempotent. */
  lemma {:induction false} NormalizeMonotone(x: real, y: real)
    ensures x <= y ==> Normalize(x) <= Normalize(y)
    ensures Normalize(Normalize(x)) == Normalize(x)
  {
  }

  /** The query as handed to the CLI: its first 200 bytes when it is
      longer; `None` where that cut panics. */
  function TruncateQuery(query: string): (r: Option<string>)
    ensures Utf8.ByteLen(query) <= MAX_QUERY_BYTES ==> r == Some(query)
    ensures r.Some? ==> StartsWith(query, r.value)
    ensures r.Some? ==> Utf8.ByteLen(r.value) == if Utf8.ByteLen(query) <= MAX_QUERY_BYTES then Utf8.ByteLen(query) else MAX_QUERY_BYTES
  {
    Utf8.CapBytes(query, MAX_QUERY_BYTES)
  }

  /** A long ASCII query is cut to its first 200 characters. */
  lemma {:induction false} AsciiQueryCut(query: string)
    requires forall i :: 0 <= i < |query| ==> query[i] as int < 0x80
    requires |query| > MAX_QUERY_BYTES
    ensures TruncateQuery(query) == Some(query[..MAX_QUERY_BYTES])
  {
    Utf8.AsciiCapBytes(query, MAX_QUERY_BYTES);
  }

  /** A query whose 200th byte falls inside a two-byte character panics. */
  lemma {:induction false} SplitCharacterQueryPanics(head: string, c: char, tail: string)
    requires Utf8.ByteLen(head) == MAX_QUERY_BYTES - 1
    requires 0x80 <= c as int < 0x800
    ensures TruncateQuery(head + [c] + tail).None?
  {
    assert |Utf8.EncodeChar(c)| == 2;
    Utf8.CapBytesInsideChar(head, c, tail, MAX_QUERY_BYTES);
  }

  // ---------------------------------------------------------------------
  // The JSON array in the CLI's output
  // ---------------------------------------------------------------------

  /** At the positions of `s`, the one-character pattern `[c]` occurs
      exactly where `c` is. */
  lemma {:induction false} AtChar(s: string, c: char)
    ensures forall j :: 0 <= j < |s| ==> (At(s, j, [c]) <==> s[j] == c)
  {
    forall j | 0 <= j < |s| ensures At(s, j, [c]) <==> s[j] == c {
      assert s[j..j + 1] == [s[j]];
    }
  }

  /** `v` occurs in `out` at `a`, with no '[' before it and no ']' after
      it. */
  predicate FramedAt(out: string, a: int, v: string) {
    && 0 <= a && a + |v| <= |out| && out[a..a + |v|] == v
    && (forall j :: 0 <= j < a ==> out[j] != '[')
    && (forall j :: a + |v| <= j < |out| ==> out[j] != ']')
  }

  /** The text from the first '[' to the last ']', when the last ']' does
      not come before the first '['. */
  function JsonSlice(out: string): (r: Option<string>)
    ensures r.Some? ==> |r.value| >= 1 && r.value[0] == '[' && r.value[|r.value| - 1] == ']'
    ensures r.Some? ==> exists a :: FramedAt(out, a, r.value)
    ensures r.None? <==> forall i, j :: 0 <= i <= j < |out| && out[i] == '[' ==> out[j] != ']'
  {
    var a := Find(out, "[");
    var b := RFind(out, "]");
    AtChar(out, '[');
    AtChar(out, ']');
    if a.Some? && b.Some? && b.value >= a.value then
      var r := out[a.value..b.value + 1];
      assert out[a.value] == '[' && out[b.value] == ']';
      assert r[0] == out[a.value] && r[|r| - 1] == out[b.value];
      assert FramedAt(out, a.value, r);
      Some(r)
    else
      None
  }

  /** Progress text before the array (without '[') and after it (without
      ']') is cut away. */
  lemma {:induction false} JsonSliceSkipsNoise(noise: string, body: string, trailer: string)
    requires '[' !in noise && ']' !in trailer
    requires |body| >= 1 && body[0] == '[' && body[|body| - 1] == ']'
    ensures JsonSlice(noise + body + trailer) == Some(body)
  {
    var out := noise + body + trailer;
    var e := |noise| + |body|;
    forall j | 0 <= j < |noise| ensures out[j] != '[' {
      assert out[j] == noise[j];
    }
    forall j | e - 1 < j < |out| ensures out[j] != ']' {
      if j >= e {
        assert out[j] == trailer[j - e];
      }
    }
    assert out[|noise|] == '[' && out[e - 1] == ']';
    FindIsFirst(out, '[', |noise|);
    RFindIsLast(out, ']', e - 1);
    assert out[|noise|..e] == body;
  }

  // ---------------------------------------------------------------------
  // Gem ids of result files
  // ---------------------------------------------------------------------

  /** `extract_gem_id_from_uri`: under the collection prefix, the first
      path segment when it is not empty (no fallback); otherwise the first
      component of the text read as a path: the root "/" for an absolute
      path, nothing for the empty text. */
  function GemIdOfUri(uri: string): (r: Option<string>)
    ensures r.Some? ==> r.value != []
    ensures StartsWith(uri, URI_PREFIX) && r.Some? ==> '/' !in r.value && StartsWith(uri[|URI_PREFIX|..], r.value)
    ensures !StartsWith(uri, URI_PREFIX) ==> (r.None? <==> uri == [])
  {
    if StartsWith(uri, URI_PREFIX) then
      var segment := FirstPiece(uri[|URI_PREFIX|..], "/");
      NoCharPiece(segment, '/');
      if segment == [] then None else Some(segment)
    else if uri == [] then None
    else if uri[0] == '/' then Some("/")
    else
      Some(FirstPiece(uri, "/"))
  }

  /** A result file of the collection names its gem. */
  lemma {:induction false} CollectionUriGemId(id: string, rest: string)
    requires id != [] && '/' !in id
    ensures GemIdOfUri(URI_PREFIX + id + "/" + rest) == Some(id)
  {
    var uri := URI_PREFIX + id + "/" + rest;
    assert uri[..|URI_PREFIX|] == URI_PREFIX;
    assert uri[|URI_PREFIX|..] == id + "/" + rest;
    FirstPieceBefore(id, '/', rest);
  }

  /** An empty segment after the prefix gives no id: the path fallback is
      not tried. */
  lemma {:induction false} EmptySegmentNoGemId(rest: string)
    ensures GemIdOfUri(URI_PREFIX + "/" + rest) == None
  {
    var uri := URI_PREFIX + "/" + rest;
    assert uri[..|URI_PREFIX|] == URI_PREFIX;
    assert uri[|URI_PREFIX|..] == [] + "/" + rest;
    FirstPieceBefore([], '/', rest);
  }

  /** A relative path outside the collection gives its first directory. */
  lemma {:induction false} PathGemId(id: string, rest: string)
    requires id != [] && '/' !in id
    requires !StartsWith(id + "/" + rest, URI_PREFIX)
    ensures GemIdOfUri(id + "/" + rest) == Some(id)
  {
    FirstPieceBefore(id, '/', rest);
    assert (id + "/" + rest)[0] == id[0];
  }

  // ---------------------------------------------------------------------
  // The best entry per gem
  // ---------------------------------------------------------------------

  /** A raw result's `file`, `score` (an integer or a float) and `snippet`,
      each defaulted when missing or of another type. */
  function ItemFile(item: Json): string {
    GetStr(item, "file").GetOr([])
  }

  function ItemScore(item: Json): real {
    match Get(item, "score")
    case Some(Int(i)) => i as real
    case Some(Float(x)) => x
    case _ => 0.0
  }

  function ItemSnippet(item: Json): string {
    GetStr(item, "snippet").GetOr([])
  }

  /** What the reduction reads of a raw result: the gem its file names,
      its score and its snippet. */
  datatype Raw = Raw(gemId: Option<string>, score: real, snippet: string)

  function ToRaw(item: Json): (r: Raw)
    ensures r.gemId == GemIdOfUri(ItemFile(item))
    ensures r.score == ItemScore(item) && r.snippet == ItemSnippet(item)
  {
    Raw(GemIdOfUri(ItemFile(item)), ItemScore(item), ItemSnippet(item))
  }

  function ToRaws(items: seq<Json>): (r: seq<Raw>)
    ensures |r| == |items| && forall k :: 0 <= k < |items| ==> r[k] == ToRaw(items[k])
  {
    seq(|items|, k requires 0 <= k < |items| => ToRaw(items[k]))
  }

  /** The best score seen for a gem and its snippet. */
  datatype Best = Best(gemId: string, score: real, snippet: string)

  predicate UniqueIds(best: seq<Best>) {
    forall i, j :: 0 <= i < j < |best| ==> best[i].gemId != best[j].gemId
  }

  function IndexOfGem(best: seq<Best>, id: string): (r: Option<nat>)
    ensures r.Some? ==> r.value < |best| && best[r.value].gemId == id
    ensures r.None? ==> forall i :: 0 <= i < |best| ==> best[i].gemId != id
  {
    if |best| == 0 then None
    else if best[|best| - 1].gemId == id then Some(|best| - 1)
    else IndexOfGem(best[..|best| - 1], id)
  }

  /** One raw result folded into the entries: a new gem starts from
      `(0.0, "")`, and an entry is replaced only by a strictly greater
      score. New gems are kept in order of first appearance. */
  function Absorb(best: seq<Best>, item: Raw): (r: seq<Best>)
    ensures |r| == |best| || |r| == |best| + 1
  {
    match item.gemId
    case None => best
    case Some(id) =>
      var s := item.score;
      match IndexOfGem(best, id)
      case Some(k) => if s > best[k].score then best[k := Best(id, s, item.snippet)] else best
      case None => best + [if s > 0.0 then Best(id, s, item.snippet) else Best(id, 0.0, [])]
  }

  /** The entries after folding every raw result. */
  function Collect(items: seq<Raw>): (r: seq<Best>)
    ensures |r| <= |items|
  {
    if |items| == 0 then []
    else Absorb(Collect(items[..|items| - 1]), items[|items| - 1])
  }

  /** Some raw result names gem `g`. */
  predicate Mentions(items: seq<Raw>, g: string) {
    exists k :: 0 <= k < |items| && items[k].gemId == Some(g)
  }

  /** Raw result `k` is the first to reach `e`'s score for `e`'s gem, and
      `e` carries its snippet. */
  predicate FirstBest(items: seq<Raw>, k: int, e: Best) {
    && 0 <= k < |items|
    && items[k].gemId == Some(e.gemId)
    && items[k].score == e.score
    && items[k].snippet == e.snippet
    && forall j :: 0 <= j < k && items[j].gemId == Some(e.gemId) ==> items[j].score < e.score
  }

  /** `e` holds the greatest score of its gem (never below 0.0), with the
      snippet of the first result reaching it; a gem whose scores are all
      at most 0.0 keeps 0.0 and an empty snippet. */
  predicate IsBestOf(e: Best, items: seq<Raw>) {
    && 0.0 <= e.score
    && (forall k :: 0 <= k < |items| && items[k].gemId == Some(e.gemId) ==> items[k].score <= e.score)
    && (e.score == 0.0 ==> e.snippet == [])
    && (e.score > 0.0 ==> exists k :: 0 <= k < |items| && FirstBest(items, k, e))
  }

  /** One entry per gem named by the raw results, each the best of its
      gem. */
  predicate Summarizes(best: seq<Best>, items: seq<Raw>) {
    && UniqueIds(best)
    && (forall i :: 0 <= i < |best| ==> Mentions(items, best[i].gemId) && IsBestOf(best[i], items))
    && (forall k :: 0 <= k < |items| && items[k].gemId.Some? ==>
          exists i :: 0 <= i < |best| && best[i].gemId == items[k].gemId.value)
  }

  /** A first best result stays first when more results follow. */
  lemma {:induction false} FirstBestExtend(items: seq<Raw>, x: Raw, k: int, e: Best)
    requires FirstBest(items, k, e)
    ensures FirstBest(items + [x], k, e)
  {
    var all := items + [x];
    assert all[k] == items[k];
    forall j | 0 <= j < k && all[j].gemId == Some(e.gemId) ensures all[j].score < e.score {
      assert all[j] == items[j];
    }
  }

  /** An entry for another gem is unaffected by a further raw result. */
  lemma {:induction false} BestOfOtherGem(e: Best, items: seq<Raw>, x: Raw)
    requires IsBestOf(e, items) && Mentions(items, e.gemId)
    requires x.gemId != Some(e.gemId)
    ensures IsBestOf(e, items + [x]) && Mentions(items + [x], e.gemId)
  {
    var all := items + [x];
    assert forall k :: 0 <= k < |items| ==> all[k] == items[k];
    if e.score > 0.0 {
      var k :| 0 <= k < |items| && FirstBest(items, k, e);
      FirstBestExtend(items, x, k, e);
    }
    var m :| 0 <= m < |items| && items[m].gemId == Some(e.gemId);
    assert all[m] == items[m];
  }

  /** A result no greater than the entry's score leaves the entry best. */
  lemma {:induction false} BestOfNoGreater(e: Best, items: seq<Raw>, x: Raw)
    requires IsBestOf(e, items) && Mentions(items, e.gemId)
    requires x.gemId == Some(e.gemId) && x.score <= e.score
    ensures IsBestOf(e, items + [x]) && Mentions(items + [x], e.gemId)
  {
    var all := items + [x];
    assert forall k :: 0 <= k < |items| ==> all[k] == items[k];
    if e.score > 0.0 {
      var k :| 0 <= k < |items| && FirstBest(items, k, e);
      FirstBestExtend(items, x, k, e);
    }
    var m :| 0 <= m < |items| && items[m].gemId == Some(e.gemId);
    assert all[m] == items[m];
  }

  /** A result above every earlier score of its gem becomes the entry. */
  lemma {:induction false} BestOfNewMaximum(items: seq<Raw>, x: Raw, id: string)
    requires x.gemId == Some(id) && x.score > 0.0
    requires forall k :: 0 <= k < |items| && items[k].gemId == Some(id) ==> items[k].score < x.score
    ensures IsBestOf(Best(id, x.score, x.snippet), items + [x])
    ensures Mentions(items + [x], id)
  {
    var all := items + [x];
    var e := Best(id, x.score, x.snippet);
    assert forall k :: 0 <= k < |items| ==> all[k] == items[k];
    assert all[|items|] == x;
    assert FirstBest(all, |items|, e);
  }

  /** The first result of a gem whose score is at most 0.0 starts it at
      `(0.0, "")`. */
  lemma {:induction false} BestOfFloor(items: seq<Raw>, x: Raw, id: string)
    requires x.gemId == Some(id) && x.score <= 0.0
    requires !Mentions(items, id)
    ensures IsBestOf(Best(id, 0.0, []), items + [x])
    ensures Mentions(items + [x], id)
  {
    var all := items + [x];
    assert forall k :: 0 <= k < |items| ==> all[k] == items[k];
    assert all[|items|] == x;
  }

  /** The ids of the entries cover the gems of the earlier results and of
      `x`, so every result's gem keeps an entry. */
  lemma {:induction false} CoverExtend(best: seq<Best>, r: seq<Best>, items: seq<Raw>, x: Raw)
    requires Summarizes(best, items)
    requires forall i :: 0 <= i < |best| ==> i < |r| && r[i].gemId == best[i].gemId
    requires x.gemId.Some? ==> exists i :: 0 <= i < |r| && r[i].gemId == x.gemId.value
    ensures forall k :: 0 <= k < |items + [x]| && (items + [x])[k].gemId.Some? ==>
              exists i :: 0 <= i < |r| && r[i].gemId == (items + [x])[k].gemId.value
  {
    var all := items + [x];
    forall k | 0 <= k < |all| && all[k].gemId.Some?
      ensures exists i :: 0 <= i < |r| && r[i].gemId == all[k].gemId.value
    {
      if k < |items| {
        assert all[k] == items[k];
        var i :| 0 <= i < |best| && best[i].gemId == items[k].gemId.value;
        assert r[i].gemId == all[k].gemId.value;
      }
    }
  }

  /** A result naming no gem changes nothing. */
  lemma {:induction false} AbsorbNoGem(best: seq<Best>, items: seq<Raw>, x: Raw)
    requires Summarizes(best, items) && x.gemId.None?
    ensures Summarizes(Absorb(best, x), items + [x])
  {
    forall i | 0 <= i < |best| ensures Mentions(items + [x], best[i].gemId) && IsBestOf(best[i], items + [x]) {
      BestOfOtherGem(best[i], items, x);
    }
    CoverExtend(best, best, items, x);
  }

  /** A result for a gem with an entry keeps or replaces that entry. */
  lemma {:induction false} AbsorbKnown(best: seq<Best>, items: seq<Raw>, x: Raw, k: nat)
    requires Summarizes(best, items) && k < |best| && x.gemId == Some(best[k].gemId)
    ensures Summarizes(Absorb(best, x), items + [x])
  {
    var id := best[k].gemId;
    var r := Absorb(best, x);
    assert IndexOfGem(best, id) == Some(k);
    var e := if x.score > best[k].score then Best(id, x.score, x.snippet) else best[k];
    assert r == best[k := e];
    if x.score > best[k].score {
      BestOfNewMaximum(items, x, id);
    } else {
      BestOfNoGreater(best[k], items, x);
    }
    SummaryAfterEntry(best, items, x, r, k);
  }

  /** Replacing or appending the entry at `k` for `x`'s gem, with every
      other entry kept, keeps a summary when the new entry is best. */
  lemma {:induction false} SummaryAfterEntry(best: seq<Best>, items: seq<Raw>, x: Raw, r: seq<Best>, k: nat)
    requires Summarizes(best, items) && x.gemId.Some?
    requires k <= |best| && |r| == if k < |best| then |best| else |best| + 1
    requires k < |best| ==> best[k].gemId == x.gemId.value
    requires k == |best| ==> forall i :: 0 <= i < |best| ==> best[i].gemId != x.gemId.value
    requires forall i :: 0 <= i < |best| && i != k ==> r[i] == best[i]
    requires r[k].gemId == x.gemId.value
    requires IsBestOf(r[k], items + [x]) && Mentions(items + [x], r[k].gemId)
    ensures Summarizes(r, items + [x])
  {
    BestAfterEntry(best, items, x, r, k);
    UniqueAfterEntry(best, r, k, x.gemId.value);
    assert forall i :: 0 <= i < |best| ==> r[i].gemId == best[i].gemId;
    CoverExtend(best, r, items, x);
  }

  /** Every entry other than `k` is for another gem than `x`'s, so stays
      best. */
  lemma {:induction false} BestAfterEntry(best: seq<Best>, items: seq<Raw>, x: Raw, r: seq<Best>, k: nat)
    requires forall i :: 0 <= i < |best| ==> Mentions(items, best[i].gemId) && IsBestOf(best[i], items)
    requires x.gemId.Some? && UniqueIds(best)
    requires k <= |best| && |r| == if k < |best| then |best| else |best| + 1
    requires k < |best| ==> best[k].gemId == x.gemId.value
    requires k == |best| ==> forall i :: 0 <= i < |best| ==> best[i].gemId != x.gemId.value
    requires forall i :: 0 <= i < |best| && i != k ==> r[i] == best[i]
    requires IsBestOf(r[k], items + [x]) && Mentions(items + [x], r[k].gemId)
    ensures forall i :: 0 <= i < |r| ==> Mentions(items + [x], r[i].gemId) && IsBestOf(r[i], items + [x])
  {
    forall i | 0 <= i < |r| ensures Mentions(items + [x], r[i].gemId) && IsBestOf(r[i], items + [x]) {
      if i != k {
        BestOfOtherGem(best[i], items, x);
      }
    }
  }

  /** Ids stay unique when the entry at `k` is replaced by one for the same
      gem, or one for a new gem is appended. */
  lemma {:induction false} UniqueAfterEntry(best: seq<Best>, r: seq<Best>, k: nat, id: string)
    requires UniqueIds(best)
    requires k <= |best| && |r| == if k < |best| then |best| else |best| + 1
    requires k < |best| ==> best[k].gemId == id
    requires k == |best| ==> forall i :: 0 <= i < |best| ==> best[i].gemId != id
    requires forall i :: 0 <= i < |best| && i != k ==> r[i] == best[i]
    requires r[k].gemId == id
    ensures UniqueIds(r)
  {
    forall i, j | 0 <= i < j < |r| ensures r[i].gemId != r[j].gemId {
      if j == k {
        assert r[i] == best[i];
      } else if i == k {
        assert r[j] == best[j];
      } else {
        assert r[i] == best[i] && r[j] == best[j];
      }
    }
  }

  /** A result for a gem without an entry appends one. */
  lemma {:induction false} AbsorbNew(best: seq<Best>, items: seq<Raw>, x: Raw)
    requires Summarizes(best, items) && x.gemId.Some? && IndexOfGem(best, x.gemId.value).None?
    ensures Summarizes(Absorb(best, x), items + [x])
  {
    var id := x.gemId.value;
    var r := Absorb(best, x);
    assert !Mentions(items, id);
    if x.score > 0.0 {
      BestOfNewMaximum(items, x, id);
    } else {
      BestOfFloor(items, x, id);
    }
    SummaryAfterEntry(best, items, x, r, |best|);
  }

  /** Folding one more result keeps the entries a summary. */
  lemma {:induction false} AbsorbSummarizes(best: seq<Best>, items: seq<Raw>, x: Raw)
    requires Summarizes(best, items)
    ensures Summarizes(Absorb(best, x), items + [x])
  {
    match x.gemId
    case None => AbsorbNoGem(best, items, x);
    case Some(id) =>
      match IndexOfGem(best, id)
      case Some(k) => AbsorbKnown(best, items, x, k);
      case None => AbsorbNew(best, items, x);
  }

  /** The fold leaves one entry per gem named by the results, each the
      greatest score of its gem with the first snippet reaching it. */
  lemma {:induction false} CollectSummarizes(items: seq<Raw>)
    ensures Summarizes(Collect(items), items)
  {
    if |items| > 0 {
      var n := |items| - 1;
      var prefix := items[..n];
      CollectSummarizes(prefix);
      AbsorbSummarizes(Collect(prefix), prefix, items[n]);
      assert prefix + [items[n]] == items;
      assert Collect(items) == Absorb(Collect(prefix), items[n]);
    }
  }

  // ---------------------------------------------------------------------
  // Results
  // ---------------------------------------------------------------------

  /** An entry as a search result: its score clamped, matched as hybrid. */
  function ToResult(e: Best): (r: SearchResult)
    ensures r.gemId == e.gemId && r.matchedChunk == e.snippet && r.matchType == Hybrid
    ensures r.score == Normalize(e.score)
  {
    SearchResult(e.gemId, Normalize(e.score), e.snippet, Hybrid)
  }

  function ScoreOf(r: SearchResult): real {
    r.score
  }

  function GemIdOf(r: SearchResult): string {
    r.gemId
  }

  function Clamped(e: Best): real {
    Normalize(e.score)
  }

  function BestId(e: Best): string {
    e.gemId
  }

  lemma {:induction false} UniqueIdsDistinct(s: seq<Best>)
    ensures UniqueIds(s) <==> DistinctKeys(s, BestId)
  {
  }

  /** The entries whose clamped score reaches the threshold, in entry
      order. */
  function Qualifying(best: seq<Best>, minScore: real): (q: seq<Best>)
    ensures forall e :: e in q <==> e in best && minScore <= Normalize(e.score)
    ensures UniqueIds(best) ==> UniqueIds(q)
  {
    if |best| == 0 then []
    else
      var n := |best| - 1;
      var rest := Qualifying(best[..n], minScore);
      assert best == best[..n] + [best[n]];
      if minScore <= Normalize(best[n].score) then
        assert UniqueIds(best) ==> UniqueIds(rest + [best[n]]) by {
          if UniqueIds(best) {
            assert UniqueIds(best[..n]);
            forall i | 0 <= i < |rest| ensures rest[i].gemId != best[n].gemId {
              assert rest[i] in best[..n];
            }
          }
        }
        rest + [best[n]]
      else
        assert UniqueIds(best) ==> UniqueIds(best[..n]);
        rest
  }

  /** The qualifying entries, highest clamped score first, at most `limit`
      of them. */
  function TopEntries(best: seq<Best>, minScore: real, limit: nat): (t: seq<Best>)
    ensures |t| <= limit
    ensures ScoresDescending(t, Clamped)
    ensures forall e :: e in t ==> e in best && minScore <= Normalize(e.score)
    ensures UniqueIds(best) ==> UniqueIds(t)
  {
    var q := Qualifying(best, minScore);
    var sorted := SortByScore(q, Clamped);
    var m := if limit < |sorted| then limit else |sorted|;
    SortedSlice(q, sorted, m);
    sorted[..m]
  }

  /** A prefix of a sorted permutation of `q` is sorted, draws from `q`
      and keeps its ids unique. */
  lemma {:induction false} SortedSlice(q: seq<Best>, sorted: seq<Best>, m: nat)
    requires multiset(sorted) == multiset(q) && ScoresDescending(sorted, Clamped) && m <= |sorted|
    ensures ScoresDescending(sorted[..m], Clamped)
    ensures forall e :: e in sorted[..m] ==> e in q
    ensures UniqueIds(q) ==> UniqueIds(sorted[..m])
  {
    var t := sorted[..m];
    forall e | e in t ensures e in q {
      assert e in multiset(sorted);
    }
    if UniqueIds(q) {
      UniqueIdsDistinct(q);
      PermutationDistinctKeys(q, sorted, BestId);
      UniqueIdsDistinct(sorted);
    }
  }

  /** The search results: the top entries with clamped scores, matched as
      hybrid. */
  function Results(best: seq<Best>, minScore: real, limit: nat): (r: seq<SearchResult>)
    ensures |r| <= limit
    ensures ScoresDescending(r, ScoreOf)
    ensures forall i :: 0 <= i < |r| ==> minScore <= r[i].score <= 1.0 && r[i].matchType == Hybrid
    ensures forall i :: 0 <= i < |r| ==> exists e :: e in best && r[i] == ToResult(e)
    ensures UniqueIds(best) ==> DistinctKeys(r, GemIdOf)
  {
    var t := TopEntries(best, minScore, limit);
    var r := seq(|t|, i requires 0 <= i < |t| => ToResult(t[i]));
    assert forall i :: 0 <= i < |r| ==> t[i] in t;
    r
  }

  /** A qualifying entry left out by the limit scores no higher than any
      returned result, and when few enough qualify none is left out. */
  lemma {:induction false} ResultsAreTheTop(best: seq<Best>, minScore: real, limit: nat, e: Best)
    requires e in best && minScore <= Normalize(e.score)
    ensures var r := Results(best, minScore, limit);
      ToResult(e) !in r ==> forall i :: 0 <= i < |r| ==> Normalize(e.score) <= r[i].score
    ensures |Qualifying(best, minScore)| <= limit ==> ToResult(e) in Results(best, minScore, limit)
  {
    var q := Qualifying(best, minScore);
    var sorted := SortByScore(q, Clamped);
    var t := TopEntries(best, minScore, limit);
    var r := Results(best, minScore, limit);
    assert t == sorted[..if limit < |sorted| then limit else |sorted|];
    assert e in multiset(sorted);
    var p :| 0 <= p < |sorted| && sorted[p] == e;
    assert |sorted| == |multiset(sorted)| == |multiset(q)| == |q|;
    if p < |t| {
      assert r[p] == ToResult(e);
    } else {
      forall i | 0 <= i < |r| ensures Normalize(e.score) <= r[i].score {
        assert r[i] == ToResult(t[i]) && t[i] == sorted[i];
      }
    }
  }

  /** What a search result says about the raw results of its gem. */
  predicate ReportsBest(raws: seq<Raw>, r: SearchResult) {
    && Mentions(raws, r.gemId)
    && (forall k :: 0 <= k < |raws| && raws[k].gemId == Some(r.gemId) ==> Normalize(raws[k].score) <= r.score)
    && (r.score == 0.0 ==> r.matchedChunk == [])
    && (r.score > 0.0 ==> exists k :: 0 <= k < |raws| && raws[k].gemId == Some(r.gemId)
                                   && Normalize(raws[k].score) == r.score && raws[k].snippet == r.matchedChunk)
  }

  /** The best entry of a gem, as a result, reports that gem's best. */
  lemma {:induction false} EntryReportsBest(raws: seq<Raw>, e: Best)
    requires IsBestOf(e, raws) && Mentions(raws, e.gemId)
    ensures ReportsBest(raws, ToResult(e))
  {
    var r := ToResult(e);
    forall k | 0 <= k < |raws| && raws[k].gemId == Some(e.gemId) ensures Normalize(raws[k].score) <= r.score {
      NormalizeMonotone(raws[k].score, e.score);
    }
    if r.score > 0.0 {
      var k :| 0 <= k < |raws| && FirstBest(raws, k, e);
      assert Normalize(raws[k].score) == r.score;
    }
  }

  /** Each result is its gem's entry: the gem is named by some raw result,
      no raw result of the gem scores higher once clamped, and a positive
      score comes with the snippet of a raw result reaching it. */
  lemma {:induction false} ResultsBestPerGem(raws: seq<Raw>, minScore: real, limit: nat)
    ensures var r := Results(Collect(raws), minScore, limit);
      forall i :: 0 <= i < |r| ==> ReportsBest(raws, r[i])
  {
    var best := Collect(raws);
    var r := Results(best, minScore, limit);
    CollectSummarizes(raws);
    forall i | 0 <= i < |r| ensures ReportsBest(raws, r[i]) {
      var e :| e in best && r[i] == ToResult(e);
      EntryReportsBest(raws, e);
    }
  }

  // ---------------------------------------------------------------------
  // The search
  // ---------------------------------------------------------------------

  /** What running `qmd query <query> --json -n <n>` gave: the spawn
      error, or the exit status and the standard output (decoded lossily). */
  datatype CliRun = SpawnFailed(error: string) | Exited(success: bool, stdout: string)

  /** The JSON text as an array of values: a syntax error or a value of
      another shape (described by `mismatch`) is an error. */
  function ParseArray(text: string, parse: Parser, mismatch: Json -> string): (r: Result<seq<Json>>)
    ensures r.Ok? <==> parse(text).Ok? && parse(text).value.Arr?
    ensures r.Ok? ==> r.value == parse(text).value.items
    ensures r.Err? ==> StartsWith(r.error, "Failed to parse QMD JSON output: ")
  {
    match parse(text)
    case Err(e) => Err("Failed to parse QMD JSON output: " + e)
    case Ok(Arr(items)) => Ok(items)
    case Ok(other) => Err("Failed to parse QMD JSON output: " + mismatch(other))
  }

  /** The raw-output log line's excerpt of a successful run's output:
      at most its first 500 bytes; `None` where the cut panics. */
  function OutputExcerpt(stdout: string): (r: Option<string>)
    ensures Utf8.ByteLen(stdout) <= LOG_OUTPUT_BYTES ==> r == Some(stdout)
    ensures r.Some? ==> StartsWith(stdout, r.value)
  {
    Utf8.CapBytes(stdout, LOG_OUTPUT_BYTES)
  }

  /** ASCII output never makes the log excerpt panic. */
  lemma {:induction false} AsciiOutputLogged(stdout: string)
    requires forall i :: 0 <= i < |stdout| ==> stdout[i] as int < 0x80
    ensures OutputExcerpt(stdout) == Some(stdout[..if |stdout| <= LOG_OUTPUT_BYTES then |stdout| else LOG_OUTPUT_BYTES])
  {
    Utf8.AsciiCapBytes(stdout, LOG_OUTPUT_BYTES);
  }

  /** Output whose 500th byte falls inside a two-byte character makes the
      log excerpt panic. */
  lemma {:induction false} SplitCharacterOutputPanics(head: string, c: char, tail: string)
    requires Utf8.ByteLen(head) == LOG_OUTPUT_BYTES - 1
    requires 0x80 <= c as int < 0x800
    ensures OutputExcerpt(head + [c] + tail).None?
  {
    assert |Utf8.EncodeChar(c)| == 2;
    Utf8.CapBytesInsideChar(head, c, tail, LOG_OUTPUT_BYTES);
  }

  /** Whether a run's output panics the raw-output log line: only a
      successful run's output is logged. */
  predicate OutputPanics(out: CliRun)
  {
    out.Exited? && out.success && OutputExcerpt(out.stdout).None?
  }

  /** The post-processing of one CLI run. A failed spawn is an error; a
      non-zero exit or output without a JSON array is an empty answer;
      `None` where logging the output of a successful run panics. */
  function SearchOutput(minScore: real, limit: nat, out: CliRun, parse: Parser, mismatch: Json -> string)
    : (r: Option<Result<seq<SearchResult>>>)
    ensures r.None? <==> out.Exited? && out.success && OutputExcerpt(out.stdout).None?
    ensures out.SpawnFailed? ==> r == Some(Err("Failed to run qmd query: " + out.error))
    ensures out.Exited? && !out.success ==> r == Some(Ok([]))
    ensures r.Some? && out.Exited? && JsonSlice(out.stdout).None? ==> r.value == Ok([])
    ensures r.Some? ==> (r.value.Err? <==> (out.SpawnFailed? ||
      (out.success && JsonSlice(out.stdout).Some? && ParseArray(JsonSlice(out.stdout).value, parse, mismatch).Err?)))
    ensures r.Some? && r.value.Ok? ==>
                      && |r.value.value| <= limit
                      && ScoresDescending(r.value.value, ScoreOf)
                      && DistinctKeys(r.value.value, GemIdOf)
                      && forall i :: 0 <= i < |r.value.value| ==>
                           minScore <= r.value.value[i].score <= 1.0 && r.value.value[i].matchType == Hybrid
  {
    match out
    case SpawnFailed(e) => Some(Err("Failed to run qmd query: " + e))
    case Exited(success, stdout) =>
      if !success then Some(Ok([]))
      else
        var _ :- OutputExcerpt(stdout);
        match JsonSlice(stdout)
        case None => Some(Ok([]))
        case Some(text) =>
          match ParseArray(text, parse, mismatch)
          case Err(e) => Some(Err(e))
          case Ok(items) =>
            var best := Collect(ToRaws(items));
            CollectSummarizes(ToRaws(items));
            assert UniqueIds(best);
            Some(Ok(Results(best, minScore, limit)))
  }

  /** `search`: the query capped at 200 bytes, the CLI asked for three
      times the limit, its output logged and post-processed; `None`
      exactly where either byte cut panics. */
  function Search(minScore: real, query: string, limit: nat, run: (string, nat) -> CliRun,
                  parse: Parser, mismatch: Json -> string): (r: Option<Result<seq<SearchResult>>>)
    ensures r.None? <==> TruncateQuery(query).None? || OutputPanics(run(TruncateQuery(query).value, 3 * limit))
    ensures r.Some? ==> r == SearchOutput(minScore, limit, run(TruncateQuery(query).value, 3 * limit), parse, mismatch)
  {
    var q :- TruncateQuery(query);
    SearchOutput(minScore, limit, run(q, 3 * limit), parse, mismatch)
  }

  /** A query within the cap whose successful run prints 499 ASCII bytes,
      an 'é' and an empty array panics at the log line instead of
      answering with no results. */
  lemma {:induction false} SplitOutputPanicsSearch(minScore: real, query: string, limit: nat,
                                                   run: (string, nat) -> CliRun, parse: Parser,
                                                   mismatch: Json -> string, head: string)
    requires Utf8.ByteLen(query) <= MAX_QUERY_BYTES
    requires Utf8.ByteLen(head) == LOG_OUTPUT_BYTES - 1
    requires run(query, 3 * limit) == Exited(true, head + "\U{e9}" + "[]")
    ensures Search(minScore, query, limit, run, parse, mismatch).None?
  {
    assert head + "\U{e9}" + "[]" == head + ['\U{e9}'] + "[]";
    SplitCharacterOutputPanics(head, '\U{e9}', "[]");
  }
}
