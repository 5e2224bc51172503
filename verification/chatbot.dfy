/** The chat engine (`Chatbot`): sessions keyed by id, each with its
    message history and a markdown log file.

    The chat source (its context, label and session directory), the
    intelligence queue, the clocks and the log-file writes are parameters:
    a clock reading is passed as its formatted text, and a file operation as
    the error it fails with, if any. */
module Chatbot {
  import opened Wrappers
  import opened Text
  import Utf8
  import Paths

  /** Bytes of context kept in the system prompt. */
  const MAX_CONTEXT_CHARS: nat := 14000

  /** Exchanges (a user message and its answer) of history in the prompt. */
  const MAX_HISTORY_EXCHANGES: nat := 10

  const SYSTEM_PREFIX: string :=
    "You are a helpful assistant. Answer "
    + "questions based on the following "
    + "context. "
    + "Be concise and accurate. If the answer "
    + "isn't in the context, say so.\n\n"
    + "--- CONTEXT ---\n"

  const SESSION_NOT_FOUND: string := "Session not found"

  datatype Message = Message(role: string, content: string, timestamp: string)

  datatype Session = Session(id: string, messages: seq<Message>, logPath: string, createdAt: string)

  /** What the queue answered: a chat reply, or a reply of another kind. */
  datatype Reply = ChatText(text: string) | OtherReply

  /** A prompt line: a role and its content. */
  type Turn = (string, string)

  // ---------------------------------------------------------------------
  // Context and prompt
  // ---------------------------------------------------------------------

  /** `truncate_context`: the text when it has at most `max` bytes, else its
      last `max` bytes; `None` where that cut falls inside a character and
      the slice panics. */
  function TruncateContext(text: string, max: nat): (r: Option<string>)
    ensures Utf8.ByteLen(text) <= max ==> r == Some(text)
    ensures r.Some? ==> EndsWith(text, r.value)
    ensures r.Some? ==> Utf8.ByteLen(r.value) == Min(Utf8.ByteLen(text), max)
  {
    if Utf8.ByteLen(text) <= max then Some(text)
    else
      var cut := Utf8.ByteSuffix(text, Utf8.ByteLen(text) - max);
      if cut.Some? then
        var p := Utf8.BytePrefix(text, Utf8.ByteLen(text) - max).value;
        assert text[|text| - |cut.value|..] == cut.value by {
          assert text == p + cut.value;
        }
        cut
      else cut
  }

  function Min(a: nat, b: nat): nat {
    if a <= b then a else b
  }

  /** On ASCII text the cut never falls inside a character: the result is
      exactly the last `max` characters. */
  lemma {:induction false} AsciiContextTail(text: string, max: nat)
    requires forall i :: 0 <= i < |text| ==> text[i] as int < 0x80
    requires |text| > max
    ensures TruncateContext(text, max) == Some(text[|text| - max..])
  {
    Utf8.EncodeAscii(text);
    Utf8.AsciiBytePrefix(text, |text| - max);
    assert text == text[..|text| - max] + text[|text| - max..];
  }

  /** A context whose cut point falls inside a two-byte character makes the
      slice panic. */
  lemma {:induction false} SplitCharacterPanics(c: char, tail: string, max: nat)
    requires 0x80 <= c as int < 0x800
    requires forall i :: 0 <= i < |tail| ==> tail[i] as int < 0x80
    requires |tail| + 1 == max
    ensures TruncateContext([c] + tail, max).None?
  {
    Utf8.EncodeAscii(tail);
    Utf8.EncodeAppend([c], tail);
    assert Utf8.Encode([c]) == Utf8.EncodeChar(c) + Utf8.Encode([]);
    assert Utf8.ByteLen([c] + tail) == max + 1;
    Utf8.BytePrefixInsideChar([], c, tail, 1);
    assert [] + [c] + tail == [c] + tail;
  }

  /** The history messages sent with a prompt: the last
      `2 * MAX_HISTORY_EXCHANGES` of them. */
  function HistoryWindow(messages: seq<Message>): (r: seq<Message>)
    ensures |r| == Min(|messages|, 2 * MAX_HISTORY_EXCHANGES)
    ensures EndsWith(messages, r)
  {
    var start := if |messages| <= 2 * MAX_HISTORY_EXCHANGES then 0 else |messages| - 2 * MAX_HISTORY_EXCHANGES;
    messages[start..]
  }

  function Turns(messages: seq<Message>): (r: seq<Turn>)
    ensures |r| == |messages|
    ensures forall i :: 0 <= i < |messages| ==> r[i] == (messages[i].role, messages[i].content)
  {
    seq(|messages|, i requires 0 <= i < |messages| => (messages[i].role, messages[i].content))
  }

  /** The messages submitted for a new user message: the system prompt with
      the (already truncated) context, then the recent history, then the
      user message. */
  function PromptWith(context: string, history: seq<Message>, userMessage: string): seq<Turn> {
    [("system", SYSTEM_PREFIX + context)] + Turns(HistoryWindow(history)) + [("user", userMessage)]
  }

  /** The prompt for a context as the source returns it; `None` where
      truncating the context panics. */
  function Prompt(context: string, history: seq<Message>, userMessage: string): (r: Option<seq<Turn>>)
    ensures r.Some? <==> TruncateContext(context, MAX_CONTEXT_CHARS).Some?
    ensures r.Some? ==> r.value == PromptWith(TruncateContext(context, MAX_CONTEXT_CHARS).value, history, userMessage)
  {
    match TruncateContext(context, MAX_CONTEXT_CHARS)
    case None => None
    case Some(c) => Some(PromptWith(c, history, userMessage))
  }

  /** The prompt opens with the system turn carrying the context, closes
      with the user turn, and between them carries the last at most twenty
      history messages in order. */
  lemma {:induction false} PromptOrder(context: string, history: seq<Message>, userMessage: string)
    ensures var p := PromptWith(context, history, userMessage);
      var n := Min(|history|, 2 * MAX_HISTORY_EXCHANGES);
      && |p| == n + 2
      && p[0] == ("system", SYSTEM_PREFIX + context)
      && p[n + 1] == ("user", userMessage)
      && forall i :: |history| - n <= i < |history| ==> p[i - (|history| - n) + 1] == (history[i].role, history[i].content)
  {
    var p := PromptWith(context, history, userMessage);
    var n := Min(|history|, 2 * MAX_HISTORY_EXCHANGES);
    var w := HistoryWindow(history);
    assert w == history[|history| - n..];
    forall i | |history| - n <= i < |history|
      ensures p[i - (|history| - n) + 1] == (history[i].role, history[i].content)
    {
      assert p[i - (|history| - n) + 1] == Turns(w)[i - (|history| - n)];
    }
  }

  // ---------------------------------------------------------------------
  // Sessions
  // ---------------------------------------------------------------------

  datatype Chatbot = Chatbot(sessions: map<string, Session>)

  /** `Chatbot::new`. */
  function New(): (b: Chatbot)
    ensures b.sessions == map[]
  {
    Chatbot(map[])
  }

  /** The header written to a new session's log. */
  function LogHeader(title: string, startedAt: string): string {
    "# Chat Session\n\n**Label:** " + title + "\n**Started:** " + startedAt + "\n\n---\n\n"
  }

  datatype StartOutcome = StartOutcome(result: Result<string>, bot: Chatbot, header: Option<string>)

  /** `start_session` at Unix time `timestamp` (seconds): the session id is
      `chat_<timestamp>` and its log `chat_session_<timestamp>.md` in the
      source's session directory. A failure to create the directory or to
      write the header leaves the sessions as they were. */
  function StartSession(bot: Chatbot, timestamp: nat, sessionDir: string, title: string,
                        startedAt: string, createdAt: string,
                        dirError: Option<string>, writeError: Option<string>): (r: StartOutcome)
    ensures r.result.Ok? <==> dirError.None? && writeError.None?
    ensures r.result.Ok? ==> r.result.value == "chat_" + NatToString(timestamp)
    ensures r.result.Ok? ==> r.bot.sessions.Keys == bot.sessions.Keys + {r.result.value}
    ensures r.result.Ok? ==> r.header == Some(LogHeader(title, startedAt))
    ensures r.result.Err? ==> r.bot == bot && r.header.None?
  {
    var id := "chat_" + NatToString(timestamp);
    var logPath := Paths.Join(sessionDir, "chat_session_" + NatToString(timestamp) + ".md");
    if dirError.Some? then
      StartOutcome(Err("Failed to create session directory: " + dirError.value), bot, None)
    else if writeError.Some? then
      StartOutcome(Err("Failed to write session log header: " + writeError.value), bot, None)
    else
      StartOutcome(Ok(id), Chatbot(bot.sessions[id := Session(id, [], logPath, createdAt)]), Some(LogHeader(title, startedAt)))
  }

  /** `get_history`. */
  function GetHistory(bot: Chatbot, id: string): (r: Result<seq<Message>>)
    ensures r.Err? <==> id !in bot.sessions
    ensures r.Err? ==> r.error == SESSION_NOT_FOUND
  {
    if id in bot.sessions then Ok(bot.sessions[id].messages) else Err(SESSION_NOT_FOUND)
  }

  /** `end_session`: forgets the session; its log stays on disk. */
  function EndSession(bot: Chatbot, id: string): (r: Chatbot)
    ensures id !in r.sessions
    ensures forall k :: k in bot.sessions && k != id ==> k in r.sessions && r.sessions[k] == bot.sessions[k]
    ensures r.sessions.Keys == bot.sessions.Keys - {id}
  {
    Chatbot(bot.sessions - {id})
  }

  /** A new session starts with an empty history. */
  lemma {:induction false} StartThenEmptyHistory(bot: Chatbot, timestamp: nat, sessionDir: string, title: string,
                              startedAt: string, createdAt: string)
    ensures var r := StartSession(bot, timestamp, sessionDir, title, startedAt, createdAt, None, None);
      GetHistory(r.bot, r.result.value) == Ok([])
  {
  }

  /** Starting a second session within the same second reuses the id and
      replaces the first session, history and all. */
  lemma {:induction false} SameSecondReplaces(bot: Chatbot, timestamp: nat, sessionDir: string, title: string,
                           startedAt: string, createdAt: string, earlier: Session)
    requires "chat_" + NatToString(timestamp) in bot.sessions
    ensures var r := StartSession(bot, timestamp, sessionDir, title, startedAt, createdAt, None, None);
      && r.result == Ok("chat_" + NatToString(timestamp))
      && r.bot.sessions.Keys == bot.sessions.Keys
      && GetHistory(r.bot, r.result.value) == Ok([])
  {
  }

  // ---------------------------------------------------------------------
  // Sending a message
  // ---------------------------------------------------------------------

  /** The entry appended to the log for one exchange. */
  function LogEntry(user: Message, assistant: Message): string {
    "## User (" + user.timestamp + ")\n" + user.content + "\n\n## Assistant ("
    + assistant.timestamp + ")\n" + assistant.content + "\n\n---\n\n"
  }

  /** Why the exchange could not be appended to the session log: opening
      the file in append mode failed, or writing the entry did. */
  datatype LogFailure = OpenFailed(error: string) | WriteFailed(error: string)

  /** The error `send_message` returns for a log failure: the I/O error
      under the prefix of the step that failed. */
  function LogFailureMessage(f: LogFailure): (r: string)
    ensures f.OpenFailed? ==> StartsWith(r, "Failed to open session log: ") && r[|"Failed to open session log: "|..] == f.error
    ensures f.WriteFailed? ==> StartsWith(r, "Failed to write to session log: ") && r[|"Failed to write to session log: "|..] == f.error
  {
    match f
    case OpenFailed(e) => "Failed to open session log: " + e
    case WriteFailed(e) => "Failed to write to session log: " + e
  }

  /** `submitted` is the prompt handed to the queue (None when it was not
      reached); `logged` is the entry appended to the log (None when it was
      not written). */
  datatype SendOutcome = SendOutcome(result: Result<string>, bot: Chatbot,
                                     submitted: Option<seq<Turn>>, logged: Option<string>)

  /** `send_message`. `context` is what the source's `get_context` returns,
      `submit` the queue, `userTime`/`assistantTime` the clock when the two
      messages are recorded, and `logError` the failure to open or append to
      the log, if any, which is returned under its step's prefix. `None` where truncating the context panics. */
  function SendMessage(bot: Chatbot, id: string, userMessage: string, context: Result<string>,
                       submit: seq<Turn> -> Result<Reply>, userTime: string, assistantTime: string,
                       logError: Option<LogFailure>): (r: Option<SendOutcome>)
    ensures id !in bot.sessions ==> r == Some(SendOutcome(Err(SESSION_NOT_FOUND), bot, None, None))
    ensures r.Some? && r.value.bot != bot ==> id in bot.sessions && r.value.submitted.Some?
    ensures r.Some? ==> r.value.bot.sessions.Keys == bot.sessions.Keys
    ensures r.Some? ==> forall k :: k in bot.sessions && k != id ==> r.value.bot.sessions[k] == bot.sessions[k]
  {
    if id !in bot.sessions then Some(SendOutcome(Err(SESSION_NOT_FOUND), bot, None, None))
    else
      var session := bot.sessions[id];
      match context
      case Err(e) => Some(SendOutcome(Err(e), bot, None, None))
      case Ok(ctx) =>
        match Prompt(ctx, session.messages, userMessage)
        case None => None
        case Some(prompt) =>
          match submit(prompt)
          case Err(e) => Some(SendOutcome(Err(e), bot, Some(prompt), None))
          case Ok(OtherReply) =>
            Some(SendOutcome(Err("Unexpected response type from chat command"), bot, Some(prompt), None))
          case Ok(ChatText(text)) =>
            var user := Message("user", userMessage, userTime);
            var assistant := Message("assistant", text, assistantTime);
            var after := Chatbot(bot.sessions[id := session.(messages := session.messages + [user, assistant])]);
            match logError
            case Some(f) => Some(SendOutcome(Err(LogFailureMessage(f)), after, Some(prompt), None))
            case None => Some(SendOutcome(Ok(text), after, Some(prompt), Some(LogEntry(user, assistant))))
  }

  /** A chat reply appends exactly the user message and the answer to the
      history, in that order, even when the log cannot be written, in which
      case the log failure is the result; any other outcome leaves the
      history as it was. */
  lemma {:induction false} SendRecordsExchange(bot: Chatbot, id: string, userMessage: string, context: Result<string>,
                            submit: seq<Turn> -> Result<Reply>, userTime: string, assistantTime: string,
                            logError: Option<LogFailure>)
    requires id in bot.sessions
    requires SendMessage(bot, id, userMessage, context, submit, userTime, assistantTime, logError).Some?
    ensures var r := SendMessage(bot, id, userMessage, context, submit, userTime, assistantTime, logError).value;
      var before := bot.sessions[id].messages;
      && (r.submitted.Some? && submit(r.submitted.value).Ok? && submit(r.submitted.value).value.ChatText? ==>
            GetHistory(r.bot, id) == Ok(before + [Message("user", userMessage, userTime),
                                                  Message("assistant", submit(r.submitted.value).value.text, assistantTime)]))
      && (r.result.Ok? ==> r.result.value == submit(r.submitted.value).value.text)
      && (r.submitted.Some? && submit(r.submitted.value).Ok? && submit(r.submitted.value).value.ChatText? ==>
            && (logError.None? <==> r.result.Ok?)
            && (logError.Some? ==> r.result == Err(LogFailureMessage(logError.value)) && r.logged.None?))
      && (r.submitted.None? || submit(r.submitted.value).Err? || submit(r.submitted.value).value.OtherReply? ==>
            r.bot == bot && r.result.Err?)
  {
  }

  /** The prompt handed to the queue is the one built from the session's
      history before the new exchange. */
  lemma {:induction false} SendSubmitsPrompt(bot: Chatbot, id: string, userMessage: string, ctx: string,
                          submit: seq<Turn> -> Result<Reply>, userTime: string, assistantTime: string,
                          logError: Option<LogFailure>)
    requires id in bot.sessions
    requires TruncateContext(ctx, MAX_CONTEXT_CHARS).Some?
    ensures var r := SendMessage(bot, id, userMessage, Ok(ctx), submit, userTime, assistantTime, logError);
      r.Some? && r.value.submitted == Prompt(ctx, bot.sessions[id].messages, userMessage)
  {
  }

  /** After `end_session`, sending and reading the history both report the
      session as not found. */
  lemma {:induction false} EndedSessionNotFound(bot: Chatbot, id: string, userMessage: string, context: Result<string>,
                             submit: seq<Turn> -> Result<Reply>, userTime: string, assistantTime: string,
                             logError: Option<LogFailure>)
    ensures var b := EndSession(bot, id);
      && GetHistory(b, id) == Err(SESSION_NOT_FOUND)
      && SendMessage(b, id, userMessage, context, submit, userTime, assistantTime, logError)
         == Some(SendOutcome(Err(SESSION_NOT_FOUND), b, None, None))
  {
  }
}
