/** The search commands: `search_gems`, which asks the active provider
    and joins its hits with the gem store, falling back to keyword search,
    and the Node.js version rule of the QMD setup. The gem store is given
    by its three operations; running `node --version` is a parameter. */
module SearchCommands {
  import opened Wrappers
  import opened Text
  import opened Gems
  import opened SearchTypes
  import Tavily

  /** Results returned when the caller gives no limit. */
  const DEFAULT_LIMIT: nat := 20

  /** The gem store operations `search_gems` uses: `list(limit, offset)`,
      `get(id)` and the keyword `search(query, limit)`. */
  datatype GemStore = GemStore(
    list: (nat, nat) -> Result<seq<Preview>>,
    get: string -> Result<Option<Gem>>,
    search: (string, nat) -> Result<seq<Preview>>)

  /** `search_gems`. */
  function SearchGems(query: string, limit: Option<nat>, provider: Provider, store: GemStore)
    : (r: Result<seq<GemSearchResult>>)
    ensures var n := limit.GetOr(DEFAULT_LIMIT);
      IsBlank(query) ==> r == (match store.list(n, 0)
                               case Ok(ps) => Ok(FromPreviews(ps))
                               case Err(e) => Err(e))
    ensures !IsBlank(query) ==> (r.Err? <==> provider.search(query, limit.GetOr(DEFAULT_LIMIT)).Err?)
  {
    var n := limit.GetOr(DEFAULT_LIMIT);
    if IsBlank(query) then
      match store.list(n, 0)
      case Ok(ps) => Ok(FromPreviews(ps))
      case Err(e) => Err(e)
    else
      match provider.search(query, n)
      case Err(e) => Err(e)
      case Ok(hits) =>
        var joined := JoinHits(hits, store.get);
        if joined != [] then Ok(joined)
        else
          match store.search(query, n)
          case Ok(ps) => Ok(FromPreviews(ps))
          case Err(_) => Ok([])
  }

  /** Without a limit the search asks for twenty. */
  lemma {:induction false} DefaultLimit(query: string, provider: Provider, store: GemStore)
    ensures SearchGems(query, None, provider, store) == SearchGems(query, Some(20), provider, store)
  {
  }

  /** A non-blank query whose provider answers never fails: hits whose gem
      the store does not return are dropped, and every other hit comes back
      joined with its gem, in hit order; when none remains the keyword
      search answers, and its failure gives no results rather than an
      error. */
  lemma {:induction false} ProviderHitsJoined(query: string, limit: Option<nat>, provider: Provider, store: GemStore,
                           x: GemSearchResult)
    requires !IsBlank(query) && provider.search(query, limit.GetOr(DEFAULT_LIMIT)).Ok?
    ensures var n := limit.GetOr(DEFAULT_LIMIT);
      var hits := provider.search(query, n).value;
      var r := SearchGems(query, limit, provider, store);
      && r.Ok?
      && (JoinHits(hits, store.get) != [] ==>
            (x in r.value <==> exists i :: JoinedAt(hits, store.get, i, x)))
      && (JoinHits(hits, store.get) == [] ==>
            r.value == (if store.search(query, n).Ok? then FromPreviews(store.search(query, n).value) else []))
  {
    var n := limit.GetOr(DEFAULT_LIMIT);
    JoinHitsMembers(provider.search(query, n).value, store.get, x);
  }

  /** A provider that finds no gems (such as the web-only one) leaves the
      answer to the keyword search. */
  lemma {:induction false} NoHitsMeansKeywordSearch(query: string, limit: Option<nat>, provider: Provider, store: GemStore)
    requires !IsBlank(query) && provider.search(query, limit.GetOr(DEFAULT_LIMIT)) == Ok([])
    ensures var n := limit.GetOr(DEFAULT_LIMIT);
      SearchGems(query, limit, provider, store) ==
        Ok(if store.search(query, n).Ok? then FromPreviews(store.search(query, n).value) else [])
    ensures forall i :: 0 <= i < |SearchGems(query, limit, provider, store).value| ==>
      SearchGems(query, limit, provider, store).value[i].score == 1.0
      && SearchGems(query, limit, provider, store).value[i].matchType == Keyword
  {
  }

  /** With the web-only Tavily provider active, gem search is the keyword
      search. */
  lemma {:induction false} TavilyGemSearchIsKeyword(query: string, limit: Option<nat>, apiKey: string,
                                 exchange: (string, nat) -> Tavily.Response, store: GemStore)
    requires !IsBlank(query)
    ensures var n := limit.GetOr(DEFAULT_LIMIT);
      SearchGems(query, limit, Tavily.AsProvider(apiKey, exchange), store) ==
        Ok(if store.search(query, n).Ok? then FromPreviews(store.search(query, n).value) else [])
  {
    NoHitsMeansKeywordSearch(query, limit, Tavily.AsProvider(apiKey, exchange), store);
  }

  // ---------------------------------------------------------------------
  // Node.js version
  // ---------------------------------------------------------------------

  const U32_LIMIT: nat := 0x1_0000_0000

  /** The oldest Node.js major version QMD runs on. */
  const MIN_NODE_MAJOR: nat := 22

  /** What follows the version text of a Node.js that is too old. */
  const TOO_OLD: string := " is too old. Version 22+ required. " + "Download from https://nodejs.org/"

  const NODE_NOT_FOUND: string := "Node.js not found. Install Node.js " + "22+ from https://nodejs.org/"

  /** What running `node --version` gave: a spawn failure, or the exit
      status and standard output. */
  datatype NodeRun = NotStarted | Finished(success: bool, stdout: string)

  /** The major version of a trimmed version text: after a leading 'v', the
      part before the first '.', as a `u32`; 0 when any step fails. */
  function NodeMajor(version: string): (m: nat)
    ensures m < U32_LIMIT
    ensures !StartsWith(version, "v") ==> m == 0
  {
    if !StartsWith(version, "v") then 0
    else
      match ParseUnsigned(FirstPiece(version[1..], "."), U32_LIMIT)
      case Some(m) => m
      case None => 0
  }

  /** `check_node_version`: the trimmed version text when its major
      version is at least 22. */
  function CheckNodeVersion(run: NodeRun): (r: Result<string>)
    ensures r.Ok? <==> run.Finished? && run.success && NodeMajor(Trim(run.stdout)) >= MIN_NODE_MAJOR
    ensures r.Ok? ==> r.value == Trim(run.stdout) && StartsWith(r.value, "v")
    ensures (run.NotStarted? || !run.success) ==> r == Err(NODE_NOT_FOUND)
    ensures run.Finished? && run.success && r.Err? ==>
      r.error == "Node.js " + Trim(run.stdout) + TOO_OLD
  {
    if run.NotStarted? || !run.success then Err(NODE_NOT_FOUND)
    else
      var version := Trim(run.stdout);
      if NodeMajor(version) < MIN_NODE_MAJOR then
        Err("Node.js " + version + TOO_OLD)
      else Ok(version)
  }

  /** "v<major>.<rest>" is accepted exactly when the major version is at
      least 22. */
  lemma {:induction false} NodeVersionRule(major: nat, rest: string)
    requires major < U32_LIMIT
    requires rest == [] || !IsWhitespace(rest[|rest| - 1])
    ensures var text := "v" + NatToString(major) + "." + rest;
      CheckNodeVersion(Finished(true, text)) == if major >= MIN_NODE_MAJOR then Ok(text) else
        Err("Node.js " + text + TOO_OLD)
  {
    var text := "v" + NatToString(major) + "." + rest;
    assert text[0] == 'v' && text[|text| - 1] == if rest == [] then '.' else rest[|rest| - 1];
    TrimIdentity(text);
    NodeMajorOf(major, rest);
  }

  /** The major version of "v<major>.<rest>" is `major`. */
  lemma {:induction false} NodeMajorOf(major: nat, rest: string)
    requires major < U32_LIMIT
    ensures NodeMajor("v" + NatToString(major) + "." + rest) == major
  {
    var digits := NatToString(major);
    var text := "v" + digits + "." + rest;
    assert StartsWith(text, "v");
    assert text[1..] == digits + ['.'] + rest;
    assert '.' !in digits by {
      forall i | 0 <= i < |digits| ensures digits[i] != '.' {
        assert IsAsciiDigit(digits[i]);
      }
    }
    FirstPieceBefore(digits, '.', rest);
    NatToStringRoundTrip(major);
    assert digits[0] != '+' by { assert IsAsciiDigit(digits[0]); }
  }

  /** A version without its leading 'v' is turned away as too old. */
  lemma {:induction false} BareVersionRejected(stdout: string)
    requires !StartsWith(Trim(stdout), "v")
    ensures CheckNodeVersion(Finished(true, stdout)).Err?
  {
  }
}
