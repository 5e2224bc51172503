/** The project research agent: topic suggestion, research (web search per
    topic plus gem suggestions), the project summary, and the project chat
    sessions kept beside the chatbot's. The project store lookup, the model
    (`chat`), the search provider, the gem lookup and the JSON parser are
    parameters. */
module ProjectAgent {
  import opened Wrappers
  import opened Text
  import opened Json
  import opened Gems
  import opened SearchTypes
  import opened Ordering
  import Projects
  import Chatbot
  import Tavily

  type Turn = Chatbot.Turn

  /** The model: a conversation of (role, content) turns in, a reply out. */
  type Llm = seq<Turn> -> Result<string>

  const TOPIC_GENERATION_PROMPT: string :=
    "You are a research assistant. Given "
    + "a project description, suggest 3-5 "
    + "specific search queries that would "
    + "find useful resources (academic papers, "
    + "technical articles, YouTube tutorials).\n\n"
    + "Rules:\n"
    + "- Return ONLY a JSON array of strings, no other text\n"
    + "- Each query should be specific enough "
    + "to return targeted results\n"
    + "- Avoid generic queries like \"how "
    + "to learn X\" — be precise\n"
    + "- Include a mix of conceptual and practical queries\n\n"
    + "Example output: [\"ECS to Fargate "
    + "migration networking changes\", \"Fargate "
    + "task definition best practices 2025\", "
    + "\"AWS Fargate vs ECS EC2 cost comparison\"]"

  const SUMMARIZE_PROMPT: string :=
    "You are a project analyst. Given "
    + "a project and its collected resources "
    + "(gems), write a concise executive "
    + "summary covering:\n\n"
    + "1. **Project goal** — what this project aims to achieve\n"
    + "2. **Key themes** — the main topics "
    + "and patterns across the collected "
    + "resources\n"
    + "3. **Notable findings** — the most "
    + "important insights from the resources\n"
    + "4. **Gaps** — areas that seem under-researched "
    + "based on the project objective\n\n"
    + "Rules:\n- Be concise but thorough (aim for 200-400 words)\n"
    + "- Reference specific resources when "
    + "making claims\n- Use markdown formatting\n"
    + "- If there are few or no resources, "
    + "acknowledge this and suggest next "
    + "steps"

  const NO_GEMS_SUMMARY: string :=
    "This project has no gems yet. Add "
    + "some resources to generate a summary."

  /** Web results asked for per topic, and gem suggestions asked for. */
  const WEB_RESULTS_PER_TOPIC: nat := 5
  const SUGGESTED_GEMS_LIMIT: nat := 20

  // ---------------------------------------------------------------------
  // Topic suggestion
  // ---------------------------------------------------------------------

  /** The project as the model sees it: its title, then its description and
      objective when present, one per line. */
  function ProjectContext(p: Projects.Project): (r: string)
    ensures StartsWith(r, "Project: " + p.title)
  {
    var parts := ["Project: " + p.title]
      + (if p.description.Some? then ["Description: " + p.description.value] else [])
      + (if p.objective.Some? then ["Objective: " + p.objective.value] else []);
    JoinStarts(parts, "\n");
    Join(parts, "\n")
  }

  const FENCE: string := "```"
  const JSON_FENCE: string := "```json"

  /** The text without leading "```json" and "```" runs and trailing "```"
      runs. */
  function Unfenced(t: string): string {
    TrimEndMatches(TrimStartMatches(TrimStartMatches(t, JSON_FENCE), FENCE), FENCE)
  }

  /** The model's reply without surrounding whitespace and without a
      Markdown code fence: leading "```json" and "```" runs and trailing
      "```" runs are removed, then the whitespace again. */
  function CleanTopics(raw: string): string {
    Trim(Unfenced(Trim(raw)))
  }

  /** A reply fenced as a JSON (or plain) code block comes out as the
      block's body. */
  lemma {:induction false} CleanTopicsFenced(body: string)
    requires body != [] && !IsWhitespace(body[0]) && !IsWhitespace(body[|body| - 1])
    ensures CleanTopics("```json\n" + body + "\n```") == body
    ensures CleanTopics("```\n" + body + "\n```") == body
  {
    var inner := ['\n'] + body + ['\n'] + FENCE;
    assert "```json\n" + body + "\n```" == JSON_FENCE + inner;
    assert "```\n" + body + "\n```" == FENCE + inner;
    InnerUnfenced(body);
    JsonFenceRemoved(inner);
    PlainFenceRemoved(inner);
  }

  /** The text after the opening fence: a newline, the body, a newline and
      the closing fence. */
  lemma {:induction false} InnerUnfenced(body: string)
    requires body != [] && !IsWhitespace(body[0]) && !IsWhitespace(body[|body| - 1])
    ensures var padded := ['\n'] + body + ['\n']; var inner := padded + FENCE;
      && inner[0] == '\n' && EndsWith(inner, FENCE)
      && TrimEndMatches(TrimStartMatches(inner, FENCE), FENCE) == padded
      && Trim(padded) == body
  {
    var padded := ['\n'] + body + ['\n'];
    var inner := padded + FENCE;
    assert !StartsWith(inner, FENCE) by { assert inner[0] == '\n'; }
    assert !EndsWith(padded, FENCE) by { assert padded[|padded| - 1] == '\n'; }
    TrimEndOnce(padded, FENCE);
    TrimPadded('\n', body, '\n');
  }

  lemma {:induction false} JsonFenceRemoved(inner: string)
    requires inner != [] && inner[0] == '\n' && EndsWith(inner, FENCE)
    ensures Unfenced(Trim(JSON_FENCE + inner)) == TrimEndMatches(TrimStartMatches(inner, FENCE), FENCE)
  {
    FencedTrimmed(JSON_FENCE, inner);
    assert !StartsWith(inner, JSON_FENCE) by { assert inner[0] == '\n'; }
    TrimStartOnce(JSON_FENCE, inner);
  }

  lemma {:induction false} PlainFenceRemoved(inner: string)
    requires inner != [] && inner[0] == '\n' && EndsWith(inner, FENCE)
    ensures Unfenced(Trim(FENCE + inner)) == TrimEndMatches(TrimStartMatches(inner, FENCE), FENCE)
  {
    FencedTrimmed(FENCE, inner);
    assert !StartsWith(FENCE + inner, JSON_FENCE) by { assert (FENCE + inner)[3] == '\n'; }
    assert !StartsWith(inner, FENCE) by { assert inner[0] == '\n'; }
    TrimStartOnce(FENCE, inner);
  }

  /** A fence followed by text ending in a fence has no whitespace to trim. */
  lemma {:induction false} FencedTrimmed(fence: string, inner: string)
    requires fence == FENCE || fence == JSON_FENCE
    requires EndsWith(inner, FENCE)
    ensures Trim(fence + inner) == fence + inner
  {
    var s := fence + inner;
    assert s[0] == '`';
    assert s[|s| - 1] == inner[|inner| - 1] == FENCE[2];
    TrimIdentity(s);
  }

  /** A reply that is already a bare, unfenced text comes out unchanged. */
  lemma {:induction false} CleanTopicsBare(text: string)
    requires text != [] && !IsWhitespace(text[0]) && !IsWhitespace(text[|text| - 1])
    requires !StartsWith(text, FENCE) && !EndsWith(text, FENCE)
    ensures CleanTopics(text) == text
  {
    TrimIdentity(text);
    assert !StartsWith(text, JSON_FENCE) by { assert JSON_FENCE[..3] == FENCE; }
    assert Unfenced(text) == text;
  }

  /** The topics in the model's reply: after cleaning, a JSON array whose
      elements are all strings. Anything else is an error that quotes the
      raw reply; `mismatch` describes a value of the wrong shape. */
  function ParseTopics(raw: string, parse: Parser, mismatch: Json -> string): (r: Result<seq<string>>)
    ensures r.Ok? <==> (parse(CleanTopics(raw)).Ok? && parse(CleanTopics(raw)).value.Arr?
                        && AllStrings(parse(CleanTopics(raw)).value.items))
    ensures r.Ok? ==> (|r.value| == |parse(CleanTopics(raw)).value.items|
      && forall i :: 0 <= i < |r.value| ==> parse(CleanTopics(raw)).value.items[i] == Str(r.value[i]))
    ensures r.Err? ==> StartsWith(r.error, "Failed to parse LLM topics: ") && EndsWith(r.error, " — raw: " + raw)
  {
    match parse(CleanTopics(raw))
    case Err(e) => Err(TopicsError(e, raw))
    case Ok(j) =>
      if j.Arr? && AllStrings(j.items) then Ok(Texts(j.items))
      else Err(TopicsError(mismatch(j), raw))
  }

  /** The error for an unreadable reply: the parser's message, then the raw
      reply. */
  function TopicsError(message: string, raw: string): (r: string)
    ensures StartsWith(r, "Failed to parse LLM topics: ") && EndsWith(r, " — raw: " + raw)
  {
    var prefix := "Failed to parse LLM topics: ";
    var suffix := " — raw: " + raw;
    var r := prefix + message + suffix;
    assert r[..|prefix|] == prefix;
    assert r[|r| - |suffix|..] == suffix;
    r
  }

  /** `suggest_topics`: the project is looked up, the model asked with the
      topic prompt and the project context, and its reply parsed. */
  function SuggestTopics(detail: Result<Projects.ProjectDetail>, chat: Llm, parse: Parser,
                         mismatch: Json -> string): (r: Result<seq<string>>)
    ensures detail.Err? ==> r == Err(detail.error)
    ensures detail.Ok? ==> var prompt := [("system", TOPIC_GENERATION_PROMPT), ("user", ProjectContext(detail.value.project))];
      && (chat(prompt).Err? ==> r == Err(chat(prompt).error))
      && (chat(prompt).Ok? ==> r == ParseTopics(chat(prompt).value, parse, mismatch))
  {
    match detail
    case Err(e) => Err(e)
    case Ok(d) =>
      match chat([("system", TOPIC_GENERATION_PROMPT), ("user", ProjectContext(d.project))])
      case Err(e) => Err(e)
      case Ok(raw) => ParseTopics(raw, parse, mismatch)
  }

  // ---------------------------------------------------------------------
  // Research
  // ---------------------------------------------------------------------

  datatype ResearchResults = ResearchResults(
    webResults: seq<WebSearchResult>,
    suggestedGems: seq<GemSearchResult>,
    topicsSearched: seq<string>)

  function Url(w: WebSearchResult): string {
    w.url
  }

  /** What the web search returned for one topic; a failed topic gives
      nothing and the others go on. */
  function TopicResults(provider: Provider, topic: string): seq<WebSearchResult> {
    match provider.webSearch(topic, WEB_RESULTS_PER_TOPIC)
    case Ok(rs) => rs
    case Err(_) => []
  }

  /** The web search for `topic` succeeded and returned `x`. */
  predicate FoundFor(provider: Provider, topic: string, x: WebSearchResult) {
    provider.webSearch(topic, WEB_RESULTS_PER_TOPIC).Ok? && x in provider.webSearch(topic, WEB_RESULTS_PER_TOPIC).value
  }

  /** The results of every topic, in topic order. */
  function Gathered(provider: Provider, topics: seq<string>): (r: seq<WebSearchResult>)
  {
    if |topics| == 0 then [] else TopicResults(provider, topics[0]) + Gathered(provider, topics[1..])
  }

  /** A gathered result is one some topic's search returned, and each of
      those is gathered. */
  lemma {:induction false} GatheredMembers(provider: Provider, topics: seq<string>, x: WebSearchResult)
    ensures x in Gathered(provider, topics) <==> exists t :: t in topics && FoundFor(provider, t, x)
    decreases |topics|
  {
    if |topics| > 0 {
      GatheredMembers(provider, topics[1..], x);
      if x in TopicResults(provider, topics[0]) {
        assert FoundFor(provider, topics[0], x) && topics[0] in topics;
      }
      if exists t :: t in topics && FoundFor(provider, t, x) {
        var t :| t in topics && FoundFor(provider, t, x);
        if t != topics[0] {
          assert t in topics[1..];
        }
      }
      if exists t :: t in topics[1..] && FoundFor(provider, t, x) {
        var t :| t in topics[1..] && FoundFor(provider, t, x);
        assert t in topics;
      }
    }
  }

  /** The web results of a research run: when the provider searches the
      web, every topic's results sorted by URL (stably) with adjacent
      repeats of a URL removed; otherwise none. */
  function WebResults(provider: Provider, topics: seq<string>): (r: seq<WebSearchResult>)
    ensures StrictlyAscending(r, Url)
    ensures !provider.supportsWebSearch ==> r == []
  {
    if provider.supportsWebSearch then
      var sorted := SortAsc(Gathered(provider, topics), Url);
      DedupSortedUnique(sorted, Url);
      DedupAdjacent(sorted, Url)
    else []
  }

  /** Every web result comes from some topic's search. */
  lemma {:induction false} WebResultsFromTopics(provider: Provider, topics: seq<string>, y: WebSearchResult)
    requires y in WebResults(provider, topics)
    ensures exists t :: t in topics && FoundFor(provider, t, y)
  {
    var all := Gathered(provider, topics);
    var sorted := SortAsc(all, Url);
    assert y in sorted;
    assert y in multiset(sorted);
    assert y in all;
    GatheredMembers(provider, topics, y);
  }

  /** Every URL any topic's search returned is among the web results. */
  lemma {:induction false} WebResultsKeepEveryUrl(provider: Provider, topics: seq<string>, t: string, x: WebSearchResult)
    requires provider.supportsWebSearch && t in topics && FoundFor(provider, t, x)
    ensures exists y :: y in WebResults(provider, topics) && y.url == x.url
  {
    var all := Gathered(provider, topics);
    GatheredMembers(provider, topics, x);
    var sorted := SortAsc(all, Url);
    assert x in multiset(all);
    assert x in sorted;
    DedupKeepsKeys(sorted, Url, x);
  }

  /** When every topic's search fails there are no web results. */
  lemma {:induction false} FailedTopicsGiveNothing(provider: Provider, topics: seq<string>)
    requires forall t :: t in topics ==> provider.webSearch(t, WEB_RESULTS_PER_TOPIC).Err?
    ensures WebResults(provider, topics) == []
  {
    if provider.supportsWebSearch {
      var all := Gathered(provider, topics);
      if all != [] {
        GatheredMembers(provider, topics, all[0]);
        assert false;
      }
    }
  }

  /** `run_research`: web results per topic, then the provider's hits for
      the project title joined with their gems. A failed project lookup or
      gem search fails the run; failed web searches do not. */
  function RunResearch(detail: Result<Projects.ProjectDetail>, topics: seq<string>, provider: Provider,
                       lookup: string -> Result<Option<Gem>>): (r: Result<ResearchResults>)
    ensures r.Ok? <==> detail.Ok? && provider.search(detail.value.project.title, SUGGESTED_GEMS_LIMIT).Ok?
    ensures detail.Err? ==> r == Err(detail.error)
    ensures r.Ok? ==> && r.value.topicsSearched == topics
                      && r.value.webResults == WebResults(provider, topics)
                      && r.value.suggestedGems
                         == JoinHits(provider.search(detail.value.project.title, SUGGESTED_GEMS_LIMIT).value, lookup)
  {
    match detail
    case Err(e) => Err(e)
    case Ok(d) =>
      var web := WebResults(provider, topics);
      match provider.search(d.project.title, SUGGESTED_GEMS_LIMIT)
      case Err(e) => Err(e)
      case Ok(hits) => Ok(ResearchResults(web, JoinHits(hits, lookup), topics))
  }

  /** A successful run lists each URL once, each from a topic's search, and
      each suggested gem is a provider hit whose gem the store returned. */
  lemma {:induction false} ResearchResultsSound(detail: Result<Projects.ProjectDetail>, topics: seq<string>, provider: Provider,
                             lookup: string -> Result<Option<Gem>>, i: nat, j: nat, g: GemSearchResult)
    requires RunResearch(detail, topics, provider, lookup).Ok?
    ensures var r := RunResearch(detail, topics, provider, lookup).value;
      var hits := provider.search(detail.value.project.title, SUGGESTED_GEMS_LIMIT).value;
      && (i < j < |r.webResults| ==> r.webResults[i].url != r.webResults[j].url)
      && (i < |r.webResults| ==> exists t :: t in topics && FoundFor(provider, t, r.webResults[i]))
      && (g in r.suggestedGems <==> exists k :: JoinedAt(hits, lookup, k, g))
  {
    var r := RunResearch(detail, topics, provider, lookup).value;
    if i < |r.webResults| {
      WebResultsFromTopics(provider, topics, r.webResults[i]);
    }
    JoinHitsMembers(provider.search(detail.value.project.title, SUGGESTED_GEMS_LIMIT).value, lookup, g);
  }

  /** With the web-only Tavily provider the run suggests no gems and fails
      only when the project is missing. */
  lemma {:induction false} TavilyResearchSuggestsNoGems(detail: Result<Projects.ProjectDetail>, topics: seq<string>, apiKey: string,
                                     exchange: (string, nat) -> Tavily.Response,
                                     lookup: string -> Result<Option<Gem>>)
    ensures var r := RunResearch(detail, topics, Tavily.AsProvider(apiKey, exchange), lookup);
      (r.Ok? <==> detail.Ok?) && (r.Ok? ==> r.value.suggestedGems == [])
  {
  }

  // ---------------------------------------------------------------------
  // Summary
  // ---------------------------------------------------------------------

  /** One gem's part of the summary context: its title line, then, when
      the store returns the gem, its description, its summary and its tags
      (when there is at least one string tag). */
  function GemText(p: Preview, lookup: string -> Result<Option<Gem>>): (r: string)
    ensures StartsWith(r, "\n--- " + p.title + " ---")
    ensures !(lookup(p.id).Ok? && lookup(p.id).value.Some?) ==> r == "\n--- " + p.title + " ---"
  {
    var head := "\n--- " + p.title + " ---";
    match lookup(p.id)
    case Ok(Some(g)) =>
      var tags := EnrichmentTags(g.aiEnrichment);
      head
      + (if g.description.Some? then "\n" + g.description.value else "")
      + (match EnrichmentSummary(g.aiEnrichment) case Some(s) => "\nSummary: " + s case None => "")
      + (if tags.Some? && tags.value != [] then "\nTags: " + Join(tags.value, ", ") else "")
    case _ => head
  }

  /** The lines of the summary context, before joining. */
  function SummaryParts(d: Projects.ProjectDetail, lookup: string -> Result<Option<Gem>>): (r: seq<string>)
    ensures |r| >= 2 && r[0] == "Project: " + d.project.title
    ensures forall k :: 0 <= k < |d.gems| ==> GemText(d.gems[k], lookup) in r
    ensures CountLine(|d.gems|) in r
  {
    var title := "Project: " + d.project.title;
    var extras := (if d.project.description.Some? then ["Description: " + d.project.description.value] else [])
      + (if d.project.objective.Some? then ["Objective: " + d.project.objective.value] else []);
    var count := CountLine(|d.gems|);
    var head := [title] + extras + [count];
    var gems := seq(|d.gems|, k requires 0 <= k < |d.gems| => GemText(d.gems[k], lookup));
    var r := head + gems;
    assert r[0] == title && r[|head| - 1] == count;
    assert forall k :: 0 <= k < |d.gems| ==> r[|head| + k] == GemText(d.gems[k], lookup);
    r
  }

  /** The line that announces how many gems follow. */
  function CountLine(n: nat): string {
    "\nResources (" + NatToString(n) + " gems):"
  }

  /** The summary context names the project, the gem count and every gem. */
  lemma {:induction false} SummaryContextNamesEveryGem(d: Projects.ProjectDetail, lookup: string -> Result<Option<Gem>>, k: nat)
    requires k < |d.gems|
    ensures var context := Join(SummaryParts(d, lookup), "\n");
      && StartsWith(context, "Project: " + d.project.title)
      && Contains(context, CountLine(|d.gems|))
      && Contains(context, "\n--- " + d.gems[k].title + " ---")
  {
    var parts := SummaryParts(d, lookup);
    JoinStarts(parts, "\n");
    var count := CountLine(|d.gems|);
    var c :| 0 <= c < |parts| && parts[c] == count;
    JoinHas(parts, "\n", c);
    var g :| 0 <= g < |parts| && parts[g] == GemText(d.gems[k], lookup);
    JoinHas(parts, "\n", g);
    ContainsPrefix(Join(parts, "\n"), parts[g], "\n--- " + d.gems[k].title + " ---");
  }

  /** `summarize`: a project without gems gets a fixed answer; otherwise the
      model is asked with the summary prompt and the assembled context. */
  function Summarize(detail: Result<Projects.ProjectDetail>, lookup: string -> Result<Option<Gem>>, chat: Llm)
    : (r: Result<string>)
    ensures detail.Err? ==> r == Err(detail.error)
    ensures detail.Ok? && detail.value.gems == [] ==> r == Ok(NO_GEMS_SUMMARY)
    ensures detail.Ok? && detail.value.gems != [] ==>
      r == chat([("system", SUMMARIZE_PROMPT), ("user", Join(SummaryParts(detail.value, lookup), "\n"))])
  {
    match detail
    case Err(e) => Err(e)
    case Ok(d) =>
      if d.gems == [] then Ok(NO_GEMS_SUMMARY)
      else chat([("system", SUMMARIZE_PROMPT), ("user", Join(SummaryParts(d, lookup), "\n"))])
  }

  /** A project without gems is answered without the model: any two models
      give the same fixed message. */
  lemma {:induction false} EmptyProjectNeedsNoModel(detail: Result<Projects.ProjectDetail>, lookup: string -> Result<Option<Gem>>,
                                 chat1: Llm, chat2: Llm)
    requires detail.Ok? && detail.value.gems == []
    ensures Summarize(detail, lookup, chat1) == Summarize(detail, lookup, chat2) == Ok(NO_GEMS_SUMMARY)
  {
  }

  // ---------------------------------------------------------------------
  // Chat
  // ---------------------------------------------------------------------

  /** `ProjectChatSource`: the project a chat session talks about. */
  datatype ChatSource = ChatSource(projectId: string, projectTitle: string)

  /** The label written to a project chat's log header. */
  function Label(source: ChatSource): string {
    "Project: " + source.projectTitle
  }

  /** The agent's chat state: the chatbot's sessions and the source of each
      session the agent started. */
  datatype Agent = Agent(bot: Chatbot.Chatbot, sources: map<string, ChatSource>)

  /** Every session has its source and every source its session. */
  predicate Consistent(a: Agent) {
    a.bot.sessions.Keys == a.sources.Keys
  }

  function NewAgent(): (a: Agent)
    ensures Consistent(a) && a.sources == map[]
  {
    Agent(Chatbot.New(), map[])
  }

  datatype ChatStart = ChatStart(result: Result<string>, agent: Agent, header: Option<string>)

  /** `start_chat`: the project is looked up for its title, a session is
      started for a source over it, and the source is stored under the new
      session id. `sessionDir` is the source's session directory; the clock
      and file system outcomes are as in `Chatbot.StartSession`. */
  function StartChat(a: Agent, detail: Result<Projects.ProjectDetail>, projectId: string, sessionDir: string,
                     timestamp: nat, startedAt: string, createdAt: string,
                     dirError: Option<string>, writeError: Option<string>): (r: ChatStart)
    ensures r.result.Err? ==> r.agent == a
    ensures r.result.Ok? <==> detail.Ok? && dirError.None? && writeError.None?
    ensures r.result.Ok? ==> && r.result.value == "chat_" + NatToString(timestamp)
                             && r.agent.sources == a.sources[r.result.value := ChatSource(projectId, detail.value.project.title)]
                             && r.header == Some(Chatbot.LogHeader("Project: " + detail.value.project.title, startedAt))
  {
    match detail
    case Err(e) => ChatStart(Err(e), a, None)
    case Ok(d) =>
      var source := ChatSource(projectId, d.project.title);
      var s := Chatbot.StartSession(a.bot, timestamp, sessionDir, Label(source), startedAt, createdAt, dirError, writeError);
      match s.result
      case Err(e) => ChatStart(Err(e), a, None)
      case Ok(id) => ChatStart(Ok(id), Agent(s.bot, a.sources[id := source]), s.header)
  }

  function SourceNotFound(id: string): string {
    "Chat source not found for session " + id
  }

  /** `send_chat_message`: a session without a source is an error; otherwise
      the chatbot answers with the source's context. `context` is what a
      source's `get_context` returns. `None` where the chatbot panics. */
  function SendChatMessage(a: Agent, id: string, message: string, context: ChatSource -> Result<string>,
                           submit: seq<Turn> -> Result<Chatbot.Reply>, userTime: string, assistantTime: string,
                           logError: Option<Chatbot.LogFailure>): (r: Option<(Result<string>, Agent)>)
    ensures id !in a.sources ==> r == Some((Err(SourceNotFound(id)), a))
    ensures r.Some? ==> r.value.1.sources == a.sources && r.value.1.bot.sessions.Keys == a.bot.sessions.Keys
  {
    if id !in a.sources then Some((Err(SourceNotFound(id)), a))
    else
      match Chatbot.SendMessage(a.bot, id, message, context(a.sources[id]), submit, userTime, assistantTime, logError)
      case None => None
      case Some(o) => Some((o.result, Agent(o.bot, a.sources)))
  }

  /** `get_chat_history`. */
  function GetChatHistory(a: Agent, id: string): (r: Result<seq<Chatbot.Message>>)
    ensures Consistent(a) ==> (r.Ok? <==> id in a.sources)
  {
    Chatbot.GetHistory(a.bot, id)
  }

  /** `end_chat`: the session and its source are both forgotten. */
  function EndChat(a: Agent, id: string): (r: Agent)
    ensures id !in r.sources && id !in r.bot.sessions
    ensures r.sources.Keys == a.sources.Keys - {id}
    ensures forall k :: k in a.sources && k != id ==> k in r.sources && r.sources[k] == a.sources[k]
  {
    Agent(Chatbot.EndSession(a.bot, id), a.sources - {id})
  }

  /** Starting, messaging and ending chats keep sessions and sources in
      step. */
  lemma {:induction false} ChatKeepsConsistent(a: Agent, detail: Result<Projects.ProjectDetail>, projectId: string, sessionDir: string,
                            timestamp: nat, startedAt: string, createdAt: string,
                            dirError: Option<string>, writeError: Option<string>,
                            id: string, message: string, context: ChatSource -> Result<string>,
                            submit: seq<Turn> -> Result<Chatbot.Reply>, userTime: string, assistantTime: string,
                            logError: Option<Chatbot.LogFailure>)
    requires Consistent(a)
    ensures Consistent(StartChat(a, detail, projectId, sessionDir, timestamp, startedAt, createdAt, dirError, writeError).agent)
    ensures var r := SendChatMessage(a, id, message, context, submit, userTime, assistantTime, logError);
      r.Some? ==> Consistent(r.value.1)
    ensures Consistent(EndChat(a, id))
  {
  }

  /** After `end_chat` the session's messages and history are refused. */
  lemma {:induction false} EndedChatRefused(a: Agent, id: string, message: string, context: ChatSource -> Result<string>,
                         submit: seq<Turn> -> Result<Chatbot.Reply>, userTime: string, assistantTime: string,
                         logError: Option<Chatbot.LogFailure>)
    ensures var b := EndChat(a, id);
      && SendChatMessage(b, id, message, context, submit, userTime, assistantTime, logError)
         == Some((Err(SourceNotFound(id)), b))
      && GetChatHistory(b, id) == Err(Chatbot.SESSION_NOT_FOUND)
  {
  }
}
