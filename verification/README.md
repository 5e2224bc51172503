# Jarvis, modelled in Dafny

Jarvis is a macOS desktop assistant. It is a Tauri application written in
Rust, plus a Python sidecar (`server.py`) that runs local MLX language
models. The application does four things:

- It records meetings and transcribes them, with WhisperKit, whisper
  models or the MLX sidecar.
- It captures web pages as "gems": YouTube videos, Medium articles,
  Gmail threads, ChatGPT and Claude conversations, and generic pages. It
  finds them through the browser observer and the Chrome adapter.
- It enriches gems with tags and summaries from an intelligence provider
  (IntelligenceKit, the MLX sidecar, or none), and stores them as
  knowledge files.
- It searches gems (QMD semantic search, with keyword search as the
  fallback) and the web (Tavily). It groups gems into projects, which a
  research agent helps to fill.

This project models the logic of that core as pure Dafny functions over
immutable datatypes, and proves what each operation promises:

- **Parsing and encoding:** WAV headers and little-endian samples, the
  sidecar's JSON-lines protocol in both directions, the knowledge-file
  layout and its round trips, and chat and gem markdown.
- **Text handling:** UTF-8 byte budgets and the character boundaries that
  Rust's string slicing demands, line splitting, trimming and case-folded
  de-duplication.
- **State:** download queues, the venv marker, the transcript and
  recording state, the gem and project stores (modelled as maps and
  sequences), and the browser observer.
- **Error paths:** each error path is a `Result` or `Option` carrying the
  source's own message.

Everything outside the program's own code becomes a parameter of the
model:

- **Effects:** file-system reads, process runs, HTTP exchanges and
  AppleScript or JavaScript answers.
- **Values from libraries:** JSON parsing and printing, hashing, and
  Python's `str()`.

A panic in the source (a slice inside a character, say) is modelled as a
`None` result or a distinguished outcome. The lemmas say which inputs
reach it.

The modules follow the source files one to one (`wav.dfy` for
`src/wav.rs`, `mlx_server.dfy` for `server.py`, and so on). The
shared helpers are:

- `Wrappers`: `Option` and `Result`.
- `Text`: find, split, trim, lines and concatenation.
- `Utf8`: byte strings, character boundaries and prefix slicing.
- `Json`: values after parsing.
- `Paths`: `std::path` file names and extensions.
- `Ordering`: SQL `ORDER BY` as a stable insertion sort.
- `LittleEndian`: little-endian integers.
- `Process`: a command's output.

## Model

| member | source | states |
|---|---|---|
| Assembler.Bullets | jarvis-app/src-tauri/src/knowledge/assembler.rs:26-31 | one "- item" line per item, in order, each ending in a line feed |
| Assembler.FormatContent | jarvis-app/src-tauri/src/knowledge/assembler.rs:5-8 | the content file holds the content exactly, with the title not repeated |
| Assembler.FormatTranscript | jarvis-app/src-tauri/src/knowledge/assembler.rs:60-63 | the transcript file opens with the Transcript heading and the language line and ends with the transcript |
| Assembler.ListSection | jarvis-app/src-tauri/src/knowledge/assembler.rs:23-35 | a list section is written exactly when the value is a non-empty array, even one with no string elements |
| Assembler.TextSection | jarvis-app/src-tauri/src/knowledge/assembler.rs:14-20 | a prose section is written exactly when the text is a non-empty string |
| Assembler.MetadataSection | jarvis-app/src-tauri/src/knowledge/assembler.rs:38-54 | the metadata section is written exactly when the provider or the enrichment time is a string |
| Assembler.FormatEnrichment | jarvis-app/src-tauri/src/knowledge/assembler.rs:10-57 | the enrichment file is empty exactly when there is no non-empty summary, no non-empty tag array, and neither provider nor time |
| Assembler.RollingSummary | jarvis-app/src-tauri/src/knowledge/assembler.rs:69-71 | a string updated_summary wins; without the key the summary is used; an updated_summary that is present but not a string hides both |
| Assembler.ConceptLine | jarvis-app/src-tauri/src/knowledge/assembler.rs:145-154 | a concept gets a line exactly when its term and context are both strings, reading "- **term**: context" |
| Assembler.ConceptSection | jarvis-app/src-tauri/src/knowledge/assembler.rs:141-159 | the key-concepts section is written exactly when the value is a non-empty array |
| Assembler.CopilotLists | jarvis-app/src-tauri/src/knowledge/assembler.rs:80-159 | the lists part is empty exactly when each of the four lists and the concepts section is |
| Assembler.FormatCopilot | jarvis-app/src-tauri/src/knowledge/assembler.rs:65-162 | the co-pilot file is empty exactly when there is nothing to show |
| Assembler.CopilotOpensWithSummary | jarvis-app/src-tauri/src/knowledge/assembler.rs:68-78 | a non-empty rolling summary opens the file under "## Rolling Summary" |
| Assembler.CopilotPrefersUpdatedSummary | jarvis-app/src-tauri/src/knowledge/assembler.rs:69-71 | an updated summary that is a string is the one shown |
| Assembler.NullUpdatedSummaryHidesSummary | jarvis-app/src-tauri/src/knowledge/assembler.rs:69-71 | a null updated_summary hides the original summary, leaving the lists to open the file |
| Assembler.SectionLines | jarvis-app/src-tauri/src/knowledge/assembler.rs:169-188 | the section read never has more lines than the text |
| Assembler.TagItem | jarvis-app/src-tauri/src/knowledge/assembler.rs:181-185 | a bullet's item, when there is one, is non-empty and trimmed |
| Assembler.TagItems | jarvis-app/src-tauri/src/knowledge/assembler.rs:177-187 | the items read are non-empty and trimmed, at most one per line |
| Assembler.ExtractTags | jarvis-app/src-tauri/src/knowledge/assembler.rs:165-191 | every tag read is non-empty and trimmed |
| Assembler.ExtractSummary | jarvis-app/src-tauri/src/knowledge/assembler.rs:194-221 | a summary read is never empty |
| Assembler.SkipToHeading | jarvis-app/src-tauri/src/knowledge/assembler.rs:169-175 | lines before the section heading are passed over |
| Assembler.SectionBody | jarvis-app/src-tauri/src/knowledge/assembler.rs:177-187 | lines that are neither headings nor the section's own heading belong to the section |
| Assembler.SectionOf | jarvis-app/src-tauri/src/knowledge/assembler.rs:169-188 | a heading line, non-heading lines, then a closing line or the end: the section read is exactly those lines |
| Assembler.TagItemOfBullet | jarvis-app/src-tauri/src/knowledge/assembler.rs:28-30 | a bullet written for a trimmed item reads back as that item |
| Assembler.BulletItems | jarvis-app/src-tauri/src/knowledge/assembler.rs:26-31 | the bullets written for trimmed items read back as those items |
| Assembler.MetadataCloses | jarvis-app/src-tauri/src/knowledge/assembler.rs:42 | the metadata heading closes any section before it |
| Assembler.TagsRead | jarvis-app/src-tauri/src/knowledge/assembler.rs:165-191 | lines without the Tags heading, the tags section, then lines that close it: the section read is the tags body |
| Assembler.TagsBodyItems | jarvis-app/src-tauri/src/knowledge/assembler.rs:26-33 | the items of the written tags body are the tags |
| Assembler.TagsRoundTrip | jarvis-app/src-tauri/src/knowledge/assembler.rs:10-57 | the tags format_enrichment writes are the tags extract_tags reads back, when each tag is non-empty, trimmed and on one line and any summary is one clean line |
| Assembler.EnrichmentLines | jarvis-app/src-tauri/src/knowledge/assembler.rs:10-57 | an enrichment with tags reads as its summary lines, the tags section, then the metadata lines |
| Assembler.HeadingCloses | jarvis-app/src-tauri/src/knowledge/assembler.rs:178 | a heading line other than the section's own closes it |
| Assembler.RestCloses | jarvis-app/src-tauri/src/knowledge/assembler.rs:22-54 | whatever follows the summary section starts with a heading |
| Assembler.SummaryRead | jarvis-app/src-tauri/src/knowledge/assembler.rs:194-221 | a clean summary's section followed by closing lines reads as a blank line, the summary, a blank line |
| Assembler.SummaryRoundTrip | jarvis-app/src-tauri/src/knowledge/assembler.rs:10-221 | the summary format_enrichment writes is the summary extract_summary reads back |
| Assembler.DocumentParts | jarvis-app/src-tauri/src/knowledge/assembler.rs:230-290 | the document is the same twelve parts in the same order whatever is present |
| Assembler.AssembleGemMd | jarvis-app/src-tauri/src/knowledge/assembler.rs:230-290 | the document opens with the title heading, then the source type and the URL lines |
| Assembler.DocumentShowsMetadata | jarvis-app/src-tauri/src/knowledge/assembler.rs:237-255 | the document carries the Captured line, and the Author and Project lines whenever the gem has an author or a project |
| Assembler.DocumentEndsWithCopilot | jarvis-app/src-tauri/src/knowledge/assembler.rs:282-287 | with a co-pilot file the document ends with its analysis under its heading |
| Assembler.DocumentShowsTags | jarvis-app/src-tauri/src/knowledge/assembler.rs:244-251 | an enriched gem's document lists its enrichment tags on the Tags line, comma-separated |
| Assembler.DocumentShowsSummary | jarvis-app/src-tauri/src/knowledge/assembler.rs:260-267 | an enriched gem's document carries its summary under "## Summary" |
| Assembler.DocumentShowsTranscript | jarvis-app/src-tauri/src/knowledge/assembler.rs:60-62 | a transcript file written by format_transcript appears in the document with its heading and language |
| Assembler.DocumentShowsContent | jarvis-app/src-tauri/src/knowledge/assembler.rs:269-274 | a content file appears verbatim under "## Content" |
| AudioBuffer.DurationBytes | jarvis-app/src-tauri/src/transcription/audio_buffer.rs:41-43 | a duration converted to bytes is the product truncated toward zero, and zero for a non-positive duration |
| AudioBuffer.New | jarvis-app/src-tauri/src/transcription/audio_buffer.rs:39-51 | a new buffer is empty; its window is the window duration in bytes at two bytes a sample, and it advances by the window minus the overlap |
| AudioBuffer.DefaultSizes | jarvis-app/src-tauri/src/transcription/audio_buffer.rs:165-183 | a 3 s window with 0.5 s overlap at 16 kHz is 96000 bytes and advances by 80000 |
| AudioBuffer.AdvanceWithinWindow | jarvis-app/src-tauri/src/transcription/audio_buffer.rs:39-51 | a non-negative overlap never makes the advance larger than the window |
| AudioBuffer.Push | jarvis-app/src-tauri/src/transcription/audio_buffer.rs:57-59 | pushing appends the chunk and changes no size setting |
| AudioBuffer.Normalised | jarvis-app/src-tauri/src/transcription/audio_buffer.rs:99-109 | one sample per whole byte pair, every sample in [-1, 1) |
| AudioBuffer.ExtractWindow | jarvis-app/src-tauri/src/transcription/audio_buffer.rs:91-115 | no window while fewer than a window's bytes are buffered; a panic exactly when the window is there but the drain would run past the buffer; otherwise the samples of the first window and a buffer that lost its first advance bytes |
| AudioBuffer.WindowsOverlap | jarvis-app/src-tauri/src/transcription/audio_buffer.rs:111-112 | after a window, the buffer starts with the last window - advance bytes of that window, so consecutive windows share their overlap |
| AudioBuffer.WindowSamples | jarvis-app/src-tauri/src/transcription/audio_buffer.rs:97-109 | a window holds window/2 samples, sample i being the little-endian i16 of bytes 2i and 2i+1 divided by 32768 |
| AudioBuffer.PushedWindowComesBack | jarvis-app/src-tauri/src/transcription/audio_buffer.rs:198-215 | pushing exactly one window into an empty buffer and extracting gives that audio back and leaves the bytes after the advance |
| AudioBuffer.DrainRemaining | jarvis-app/src-tauri/src/transcription/audio_buffer.rs:126-147 | the buffer always ends empty; samples come back exactly when at least the minimum duration was buffered, and they are all the buffered samples |
| Chatbot.TruncateContext | jarvis-app/src-tauri/src/agents/chatbot.rs:246-253 | a context within the byte limit is kept; a longer one gives a suffix of exactly the limit in bytes, or a panic where that cut falls inside a character |
| Chatbot.AsciiContextTail | jarvis-app/src-tauri/src/agents/chatbot.rs:246-253 | on ASCII text the cut never panics and keeps exactly the last max characters |
| Chatbot.SplitCharacterPanics | jarvis-app/src-tauri/src/agents/chatbot.rs:251 | a context whose cut point falls inside a two-byte character makes the slice panic |
| Chatbot.HistoryWindow | jarvis-app/src-tauri/src/agents/chatbot.rs:149-153 | the history sent is the last min(n, 20) messages |
| Chatbot.Turns | jarvis-app/src-tauri/src/agents/chatbot.rs:151-153 | each message becomes its role and content, in order |
| Chatbot.Prompt | jarvis-app/src-tauri/src/agents/chatbot.rs:135-156 | a prompt is built exactly when truncating the context does not panic, from the truncated context |
| Chatbot.PromptOrder | jarvis-app/src-tauri/src/agents/chatbot.rs:137-156 | the prompt is the system turn with the context, the last at most twenty history messages in order, then the user turn |
| Chatbot.New | jarvis-app/src-tauri/src/agents/chatbot.rs:45-49 | a new engine has no sessions |
| Chatbot.StartSession | jarvis-app/src-tauri/src/agents/chatbot.rs:64-103 | a session starts exactly when the directory and the log header can be written; its id is chat_<seconds>, it joins the sessions, and the header names the label and start time; a failure leaves the sessions as they were |
| Chatbot.GetHistory | jarvis-app/src-tauri/src/agents/chatbot.rs:215-219 | reading the history fails with "Session not found" exactly for an unknown session |
| Chatbot.EndSession | jarvis-app/src-tauri/src/agents/chatbot.rs:228-230 | the session is forgotten and every other session stays as it was |
| Chatbot.StartThenEmptyHistory | jarvis-app/src-tauri/src/agents/chatbot.rs:93-102 | a new session starts with an empty history |
| Chatbot.SameSecondReplaces | jarvis-app/src-tauri/src/agents/chatbot.rs:69-100 | starting a second session within the same second reuses the id and replaces the first session, history and all |
| Chatbot.SendMessage | jarvis-app/src-tauri/src/agents/chatbot.rs:121-204 | an unknown session is "Session not found" with nothing changed; only that session's history can change, and only once a prompt was submitted |
| Chatbot.SendRecordsExchange | jarvis-app/src-tauri/src/agents/chatbot.rs:159-203 | a chat reply appends exactly the user message and the answer, in that order, even when the log cannot be written, and then returns "Failed to open session log: " or "Failed to write to session log: " with the error; a failed context, queue or reply type leaves the history as it was |
| Chatbot.SendSubmitsPrompt | jarvis-app/src-tauri/src/agents/chatbot.rs:133-161 | the prompt submitted is built from the session's history before the new exchange |
| Chatbot.EndedSessionNotFound | jarvis-app/src-tauri/src/agents/chatbot.rs:215-230 | after end_session both sending and reading the history report the session as not found |
| ChatGpt.Extract | jarvis-app/src-tauri/src/browser/extractors/chatgpt.rs:53-104 | script and decode errors pass through; a page that is not a conversation is refused; a gist keeps URL, type and domain, uses a non-empty title or "Untitled Conversation", has no author, and describes the message count |
| Chrome.ParseTabLine | jarvis-app/src-tauri/src/browser/adapters/chrome.rs:87-97 | a listing line gives a tab exactly when it holds the delimiter; the tab is the trimmed text before and after the first delimiter |
| Chrome.IsAvailable | jarvis-app/src-tauri/src/browser/adapters/chrome.rs:55-69 | a query that cannot be run means unavailable; the answer "true" on a line means available and "false" unavailable |
| Chrome.ParseTabs | jarvis-app/src-tauri/src/browser/adapters/chrome.rs:83-98 | every parsed tab comes from a non-blank listing line, and an all-blank listing gives no tabs |
| Chrome.ListTabs | jarvis-app/src-tauri/src/browser/adapters/chrome.rs:71-101 | a failed spawn and a failed script give their errors; otherwise the tabs are the parsed listing |
| Chrome.TabListing | jarvis-app/src-tauri/src/browser/adapters/chrome.rs:12-26 | the listing script prints at least one character per tab |
| Chrome.FirstDelimiterAfterUrl | jarvis-app/src-tauri/src/browser/adapters/chrome.rs:21 | in a tab's listing line the first delimiter is the one after the URL |
| Chrome.TabLineRoundTrip | jarvis-app/src-tauri/src/browser/adapters/chrome.rs:87-97 | a trimmed tab's listing line parses back to the tab, even when its title holds the delimiter |
| Chrome.TabListingRoundTrip | jarvis-app/src-tauri/src/browser/adapters/chrome.rs:83-98 | parsing the listing script's output gives back every tab in order |
| Chrome.ListedLine | jarvis-app/src-tauri/src/browser/adapters/chrome.rs:21 | a listable tab's line is a single, non-blank line |
| Chrome.SplitThree | jarvis-app/src-tauri/src/browser/adapters/chrome.rs:140 | the three parts rejoin with the delimiter to the line, and the first two hold no delimiter |
| Chrome.FirstTabLine | jarvis-app/src-tauri/src/browser/adapters/chrome.rs:139-146 | the lookup settles on the first line whose trimmed third part is the URL, and on none when no line shows it |
| Chrome.FindTab | jarvis-app/src-tauri/src/browser/adapters/chrome.rs:136-155 | numbers are found only from a line showing the URL and fit a usize |
| Chrome.FirstPlace | jarvis-app/src-tauri/src/browser/adapters/chrome.rs:31-44 | the first listed tab position showing the URL |
| Chrome.SplitThreeOf | jarvis-app/src-tauri/src/browser/adapters/chrome.rs:140 | a line whose first two parts hold no delimiter splits back into its parts |
| Chrome.PlaceLineSplits | jarvis-app/src-tauri/src/browser/adapters/chrome.rs:139-141 | an index listing line splits into its window number, tab number and URL |
| Chrome.DigitsParse | jarvis-app/src-tauri/src/browser/adapters/chrome.rs:142-143 | a printed window or tab number parses back to itself |
| Chrome.PlaceListingLines | jarvis-app/src-tauri/src/browser/adapters/chrome.rs:31-44 | the index listing has one line per tab position, in order |
| Chrome.PlaceShowsUrl | jarvis-app/src-tauri/src/browser/adapters/chrome.rs:141 | an index listing line matches exactly its own URL |
| Chrome.FindTabInListing | jarvis-app/src-tauri/src/browser/adapters/chrome.rs:134-155 | the lookup finds the numbers of the first listed tab showing the URL, and nothing when no tab shows it |
| Chrome.EscapeJsCons | jarvis-app/src-tauri/src/browser/adapters/chrome.rs:159 | the two replacement passes escape each character independently |
| Chrome.EscapeJs | jarvis-app/src-tauri/src/browser/adapters/chrome.rs:159 | escaping never shortens the code |
| Chrome.ReadEscapedChar | jarvis-app/src-tauri/src/browser/adapters/chrome.rs:159 | one escaped character reads back as itself in an AppleScript string literal |
| Chrome.EscapeJsRoundTrip | jarvis-app/src-tauri/src/browser/adapters/chrome.rs:157-163 | the escaped code closes exactly at the quote after it and reads back as the original code, so no code can end the literal early |
| Chrome.JsScript | jarvis-app/src-tauri/src/browser/adapters/chrome.rs:160-163 | the script addresses the tab by number and ends with the escaped code and the closing quote |
| Chrome.ExecuteJsInTab | jarvis-app/src-tauri/src/browser/adapters/chrome.rs:118-187 | listing failures, a missing tab and a failed run give their own errors; a result is the output of running the escaped code in the tab the lookup found |
| Chrome.JsTurnedOffExplained | jarvis-app/src-tauri/src/browser/adapters/chrome.rs:171-184 | a failed run names the Apple Events setting exactly when Chrome says JavaScript from AppleScript is off, and otherwise quotes its error |
| Chrome.CheckedHtml | jarvis-app/src-tauri/src/browser/adapters/chrome.rs:108-115 | page HTML is returned exactly when its UTF-8 length is at most 5 MiB; larger pages are refused with their size |
| Chrome.GetTabHtml | jarvis-app/src-tauri/src/browser/adapters/chrome.rs:103-116 | errors of running the outer-HTML script in the URL's tab pass through; a result is exactly that run's output and only when it is at most 5 MiB |
| ChunkSplit.Snap | jarvis-app/src-tauri/src/intelligence/utils.rs:4-13 | an index at or past the end snaps to the end; otherwise to the greatest character boundary at or below it, with no boundary skipped |
| ChunkSplit.SnapAbove | jarvis-app/src-tauri/src/intelligence/utils.rs:4-13 | snapping never moves below a character boundary at or below the index |
| ChunkSplit.SnapProgress | jarvis-app/src-tauri/src/intelligence/utils.rs:25-31 | with a budget of at least four bytes the snapped window end lies beyond the chunk start, since no character is longer than four bytes |
| ChunkSplit.SearchStart | jarvis-app/src-tauri/src/intelligence/utils.rs:34 | the search for a natural cut starts on a character boundary between the chunk start and the window end, 500 bytes back when there is room |
| ChunkSplit.NaturalCut | jarvis-app/src-tauri/src/intelligence/utils.rs:35-48 | a natural cut falls right after a newline or a space inside the search window |
| ChunkSplit.BreakPos | jarvis-app/src-tauri/src/intelligence/utils.rs:35-48 | every cut lies on a character boundary after the chunk start and no later than the window end |
| ChunkSplit.CutPreference | jarvis-app/src-tauri/src/intelligence/utils.rs:35-48 | the last blank line of the search window wins, then the last newline, then the last space; with none of them the chunk ends at the window end |
| ChunkSplit.NextCut | jarvis-app/src-tauri/src/intelligence/utils.rs:26-51 | a chunk that does not reach the end is non-empty, at most the budget long and ends on a character boundary |
| ChunkSplit.SplitFrom | jarvis-app/src-tauri/src/intelligence/utils.rs:22-54 | the chunks from an offset are non-empty, each valid UTF-8 within the budget, and concatenate back to the rest of the content; a rest longer than the budget gives at least two chunks |
| ChunkSplit.SplitContent | jarvis-app/src-tauri/src/intelligence/utils.rs:17-55 | content that fits is one chunk; longer content gives at least two; every chunk is valid UTF-8 within the budget, and the chunks concatenate back to the content |
| ClaudeExtension.PlanIndicatorIgnoresCase | jarvis-app/src-tauri/src/browser/extractors/claude_extension.rs:35-41 | the plan-indicator test ignores case |
| ClaudeExtension.IsPlanIndicator | jarvis-app/src-tauri/src/browser/extractors/claude_extension.rs:34-41 | the text is a plan indicator exactly when its lower-cased form contains "steps", "created a plan", "done" or "extract page text" |
| ClaudeExtension.EndsMidSentence | jarvis-app/src-tauri/src/browser/extractors/claude_extension.rs:66-74 | blank text never ends mid-sentence; other text does exactly when its last non-whitespace character is not '.', '!', '?', ':' or a newline |
| ClaudeExtension.Take | jarvis-app/src-tauri/src/browser/extractors/claude_extension.rs:121 | at most the first n characters, a prefix of the text, and the whole text when it is short enough |
| ClaudeExtension.Flush | jarvis-app/src-tauri/src/browser/extractors/claude_extension.rs:112-133 | a flushed message becomes the next part under its author's header, the count grows by one, the turn passes and the first prompt is set only by the first message |
| ClaudeExtension.Separator | jarvis-app/src-tauri/src/browser/extractors/claude_extension.rs:135-154 | nothing goes before the first text of a message and a blank line before a heading |
| ClaudeExtension.Step | jarvis-app/src-tauri/src/browser/extractors/claude_extension.rs:102-160 | static text inside a heading leaves the state unchanged; any other block records its depth |
| ClaudeExtension.Finish | jarvis-app/src-tauri/src/browser/extractors/claude_extension.rs:163-176 | with no message being built the final flush changes nothing |
| ClaudeExtension.AppendAlternates | jarvis-app/src-tauri/src/browser/extractors/claude_extension.rs:128-132 | appending the next speaker's part keeps the turns alternating between You and Claude |
| ClaudeExtension.LoopGood | jarvis-app/src-tauri/src/browser/extractors/claude_extension.rs:96-161 | the loop keeps the parts alternating, counted and with the first message as first prompt |
| ClaudeExtension.StopsAtMarker | jarvis-app/src-tauri/src/browser/extractors/claude_extension.rs:97-100 | processing stops at the first block carrying the reply marker: no later block matters |
| ClaudeExtension.LoopAppend | jarvis-app/src-tauri/src/browser/extractors/claude_extension.rs:96-161 | running over two stretches in turn is running over both when the first holds no marker |
| ClaudeExtension.HeadingTextIgnored | jarvis-app/src-tauri/src/browser/extractors/claude_extension.rs:102-106 | static text inside a heading changes nothing: dropping it gives the same conversation |
| ClaudeExtension.Truncate | jarvis-app/src-tauri/src/browser/extractors/claude_extension.rs:178-184 | text of at most 50000 bytes is kept; longer text is cut to its first 50000 bytes and marked as truncated |
| ClaudeExtension.AsciiTruncation | jarvis-app/src-tauri/src/browser/extractors/claude_extension.rs:180-184 | ASCII text over the limit keeps exactly its first 50000 characters, then the mark |
| ClaudeExtension.TruncationPanicsInsideChar | jarvis-app/src-tauri/src/browser/extractors/claude_extension.rs:182 | a two-byte character straddling byte 50000 makes the cut panic |
| ClaudeExtension.Reconstruct | jarvis-app/src-tauri/src/browser/extractors/claude_extension.rs:83-191 | no blocks is the empty-conversation error; otherwise the count is the number of messages, each under its alternating author's header, the first prompt is the first message's first 200 characters and the full text is the joined messages, truncated when too long |
| ClaudeExtension.FirstArea | jarvis-app/src-tauri/src/browser/extractors/claude_extension.rs:23-31 | the first web area whose title does (or does not) mention Claude, and none when there is none |
| ClaudeExtension.FindClaudeWebArea | jarvis-app/src-tauri/src/browser/extractors/claude_extension.rs:23-31 | the panel is found exactly when some web area's title mentions Claude; otherwise the open-the-panel error |
| ClaudeExtension.ExtractPageTitle | jarvis-app/src-tauri/src/browser/extractors/claude_extension.rs:195-201 | the page title is the first web area title without Claude, and the no-active-tab error when every title mentions it |
| ClaudeExtension.BuildPageGist | jarvis-app/src-tauri/src/browser/extractors/claude_extension.rs:205-248 | the gist is a chat from the page's URL and domain, titled "Claude: " and the page title, with the first prompt as description, the full text as content, and the page, count, method and version in its extra fields |
| ClaudeExtension.Extract | jarvis-app/src-tauri/src/browser/extractors/claude_extension.rs:252-322 | a missing permission and a missing Chrome give their errors first; a gist is returned only when every step succeeded, titled after the page and carrying the active tab's URL |
| Commands.SourceMeta | jarvis-app/src-tauri/src/commands.rs:19-39 | the metadata is always an object; it has a publication date or image URL exactly when the gist gives one or the extra object already had one, the gist's value winning; every other key of an object extra is kept, and a non-object extra contributes nothing |
| Commands.PageGistToGem | jarvis-app/src-tauri/src/commands.rs:18-54 | the gem carries the new id and capture time, the source type's name, and the gist's URL, domain, title, author, description and excerpt unchanged, with no enrichment yet |
| Commands.GemKeepsSourceType | jarvis-app/src-tauri/src/commands.rs:43 | distinct source types get distinct names, so the gem's type name determines the gist's source type |
| Commands.EnrichContent | jarvis-app/src-tauri/src/commands.rs:70-89 | enrichment succeeds exactly when both tags and summary do, tags failing first; the result has exactly the keys tags, summary, provider and enriched_at holding the provider's tags and summary, "intelligencekit" and the time |
| Commands.TextToEnrich | jarvis-app/src-tauri/src/commands.rs:165-167 | the text chosen is never blank; content is preferred whenever present, and blank content does not fall back to the description |
| Commands.SaveGem | jarvis-app/src-tauri/src/commands.rs:152-185 | the gem saved is the converted gist with whatever enrichment could be made attached |
| Commands.Enrichment | jarvis-app/src-tauri/src/commands.rs:160-181 | enrichment is attached exactly when the provider is available, there is text, and both provider calls succeed |
| Commands.EnrichmentNeverBlocksSave | jarvis-app/src-tauri/src/commands.rs:170-184 | whether a save succeeds does not depend on the provider at all, and a failed save leaves the store unchanged |
| Commands.EnrichGem | jarvis-app/src-tauri/src/commands.rs:484-516 | unavailable provider, missing gem and missing text are refused in that order with their messages and the store unchanged; a success had all three and carries the enrichment the provider made |
| Commands.EnrichSaved | jarvis-app/src-tauri/src/commands.rs:511-515 | saving a stored gem again with new enrichment succeeds, carries that enrichment, and does not change the number of gems |
| Commands.ConvertToWav | jarvis-app/src-tauri/src/commands.rs:800-829 | an empty name, then a name with '/', '\\' or "..", then a file that is not there are refused with their messages; otherwise the PCM file is read and wrapped as WAV |
| Commands.ConvertRejectsBeforeDisk | jarvis-app/src-tauri/src/commands.rs:804-814 | a refused name gets the same error whatever the file system holds |
| Commands.Sanitize | jarvis-app/src-tauri/src/commands.rs:1762-1765 | same length as the title; every character is alphanumeric or '-', and every allowed character stays where it was |
| Commands.FitBytes | jarvis-app/src-tauri/src/commands.rs:1767-1771 | the longest prefix of whole characters that fits in the byte budget |
| Commands.FitBytesWhole | jarvis-app/src-tauri/src/commands.rs:1767-1771 | a name within the budget is kept whole |
| Commands.FitBytesAgrees | jarvis-app/src-tauri/src/commands.rs:1767-1771 | wherever the byte slice succeeds, the boundary-safe cut gives the same text |
| Commands.Trimmed | jarvis-app/src-tauri/src/commands.rs:1762-1766 | only allowed characters, with no '-' at either end |
| Commands.SafeName | jarvis-app/src-tauri/src/commands.rs:1762-1771 | allowed characters only, no leading dash, at most 80 bytes of UTF-8, and the longest such prefix of the trimmed name (corrected; the code as written is Commands.SafeNameAsWritten, see Findings) |
| Commands.SafeNameAsWritten | jarvis-app/src-tauri/src/commands.rs:1767-1771 | a trimmed name within 80 bytes is kept; wherever the slice succeeds it agrees with the corrected name |
| Commands.AccentedTitlePanics | jarvis-app/src-tauri/src/commands.rs:1767-1771 | 79 'a's followed by 'é' put byte 80 inside the 'é', and the slice as written panics |
| Commands.AccentedTitleCut | jarvis-app/src-tauri/src/commands.rs:1767-1771 | the corrected cut makes the same title into the 79 'a's |
| Commands.TrimmedIdentity | jarvis-app/src-tauri/src/commands.rs:1762-1766 | a title made of allowed characters with no dash at either end is its own trimmed form |
| Commands.NameKept | jarvis-app/src-tauri/src/commands.rs:1762-1771 | such a title within 80 bytes is its own name |
| Commands.GistFileName | jarvis-app/src-tauri/src/commands.rs:1774 | the file name starts with the timestamp and '-' and ends with ".md" |
| Commands.ExportGist | jarvis-app/src-tauri/src/commands.rs:1755-1781 | no home directory and a failed mkdir give their errors; the export succeeds exactly when the directory and the write succeed, returning the path of the named file under ~/.jarvis/gists (corrected; the code as written is Commands.ExportGistAsWritten, see Findings) |
| Commands.ExportGistAsWritten | jarvis-app/src-tauri/src/commands.rs:1755-1781 | the command as written agrees with the corrected one wherever it does not panic, and past the directory step it panics exactly when the name cut does |
| Commands.UpdateBrowserSettings | jarvis-app/src-tauri/src/commands.rs:1662-1693 | the setting goes through the settings manager's update; if that fails the observer is untouched; otherwise the observer ends running exactly when enabled, started or stopped only when it was in the other state |
| Commands.BrowserSettingFollowed | jarvis-app/src-tauri/src/commands.rs:1662-1693 | after a successful update the stored setting, the observer's state and the requested value agree, and the observer stays consistent |
| CoPilot.Context | jarvis-app/src-tauri/src/agents/copilot.rs:339-346 | the first cycle gets an empty context, every later one the running summary |
| CoPilot.AppendNew | jarvis-app/src-tauri/src/agents/copilot.rs:393-416 | the gathered list keeps its old items as a prefix, ends up holding exactly the old and the new items, and stays free of duplicates |
| CoPilot.AppendKnownIsIdentity | jarvis-app/src-tauri/src/agents/copilot.rs:393-416 | merging items that are all already gathered changes nothing |
| CoPilot.Stamped | jarvis-app/src-tauri/src/agents/copilot.rs:419-432 | every new question is kept in order with its reason and the cycle number, and is dismissed exactly when an earlier question with the same text was dismissed |
| CoPilot.NextQuestions | jarvis-app/src-tauri/src/agents/copilot.rs:419-433 | the next suggestions are the first five new questions (all of them when fewer), stamped as above |
| CoPilot.FindConcept | jarvis-app/src-tauri/src/agents/copilot.rs:437-438 | finds the first concept whose term equals the new term ignoring ASCII case, and none when no term matches |
| CoPilot.MergeConcept | jarvis-app/src-tauri/src/agents/copilot.rs:436-450 | a known term is mentioned once more and takes the new context with nothing else changed; an unknown term is appended with count 1 and the cycle number |
| CoPilot.MergeConcepts | jarvis-app/src-tauri/src/agents/copilot.rs:436-450 | merging never removes or renames a concept and adds at most one per new concept |
| CoPilot.MergeKeepsTermsDistinct | jarvis-app/src-tauri/src/agents/copilot.rs:436-450 | concept terms that are distinct ignoring case stay so after merging a cycle |
| CoPilot.Update | jarvis-app/src-tauri/src/agents/copilot.rs:383-457 | the summary is replaced; the four lists grow by their new unseen items; the suggestions are the next at most five questions; the concepts are merged; the cycle number and audio total advance while processing is cleared and the failure count is kept |
| CoPilot.UpdatePreservesWellFormed | jarvis-app/src-tauri/src/agents/copilot.rs:383-457 | the initial state is well formed (duplicate-free lists, distinct terms, at most five suggestions), each merge keeps it so, and gathered items are never lost |
| CoPilot.ChunkBounds | jarvis-app/src-tauri/src/agents/copilot.rs:775-795 | the read covers the last (interval + overlap) × 32000 bytes, or the whole file when it is shorter, and the offset and length add up to the file size |
| CoPilot.ExtractAudioChunk | jarvis-app/src-tauri/src/agents/copilot.rs:769-825 | a recording that cannot be opened is reported as "Failed to open recording file: <error>" |
| CoPilot.ChunkIsRecordingTail | jarvis-app/src-tauri/src/agents/copilot.rs:769-825 | the chunk is a WAV file whose audio is exactly the recording's tail of at most (interval + overlap) seconds |
| CoPilot.ResponseSummary | jarvis-app/src-tauri/src/agents/copilot.rs:367-371 | a summary of at most 200 bytes is kept whole; a longer one becomes 203 bytes ending in "..." unless byte 200 falls inside a character, where the slice panics |
| CoPilot.AsciiSummaryLogs | jarvis-app/src-tauri/src/agents/copilot.rs:367-371 | an ASCII summary never makes the cut panic |
| CoPilot.SplitCharacterPanics | jarvis-app/src-tauri/src/agents/copilot.rs:367-371 | 199 ASCII characters followed by a two-byte character make the cut at byte 200 panic |
| CoPilot.Turn | jarvis-app/src-tauri/src/agents/copilot.rs:163-284 | a successful cycle resets the failure streak and merges its result; one whose summary cut panics ends the loop still marked processing, with nothing merged; a failure counts one more failed cycle without advancing the cycle number; the loop stops at the third failure in a row and only then stays marked as processing |
| CoPilot.Run | jarvis-app/src-tauri/src/agents/copilot.rs:138-309 | the cycle number and the failed-cycle count never go down |
| CoPilot.RunCountsCycles | jarvis-app/src-tauri/src/agents/copilot.rs:138-309 | every cycle run is counted at most once, as a success or a failure, and the agent is left processing exactly when it paused on the failure limit or a cycle panicked |
| CoPilot.ThreeFailuresPause | jarvis-app/src-tauri/src/agents/copilot.rs:222-266 | three failures in a row pause the agent whatever would follow, with three failures counted, no cycle added, and processing left set |
| CoPilot.SplitSummaryEndsLoop | jarvis-app/src-tauri/src/agents/copilot.rs:367-374 | a successful cycle whose summary puts a two-byte character across byte 200 ends the loop before its result is merged, leaving the agent marked as processing with its failure streak unchanged |
| CoPilot.Start | jarvis-app/src-tauri/src/agents/copilot.rs:862-907 | refused while a task runs, then when the recording is missing; success only marks the agent running and keeps its state |
| CoPilot.Stop | jarvis-app/src-tauri/src/agents/copilot.rs:928-944 | stopping leaves no task and returns the state as it stands, unchanged |
| CoPilot.DismissQuestion | jarvis-app/src-tauri/src/agents/copilot.rs:988-993 | marks exactly the indexed suggestion dismissed and changes nothing else; an index out of range changes nothing |
| CoPilot.DismissalSurvivesCycle | jarvis-app/src-tauri/src/agents/copilot.rs:419-432 | a dismissed question suggested again by the next cycle stays dismissed |
| Downloads.StatusOf | jarvis-app/src-tauri/src/settings/model_manager.rs:101-135 | a model is listed downloading exactly when queued, with its progress; otherwise its recorded error; otherwise what is on disk |
| Downloads.Enqueue | jarvis-app/src-tauri/src/settings/model_manager.rs:206-227 | an unknown model gives its error and a queued one "Model <name> is already being downloaded"; otherwise the model joins the queue at progress 0, every other entry and all errors unchanged |
| Downloads.Report | jarvis-app/src-tauri/src/settings/model_manager.rs:345-348 | a progress report changes only the reported model's progress, and only while it is queued |
| Downloads.Finish | jarvis-app/src-tauri/src/settings/model_manager.rs:246-265 | the model leaves the queue; success clears its error, failure records it (unless the manager skips cancellations); no other model's entry or error changes |
| Downloads.Cancel | jarvis-app/src-tauri/src/settings/model_manager.rs:393-410 | cancelling a model not queued is "Model <name> is not being downloaded"; otherwise it leaves the queue and the errors stay |
| Downloads.Delete | jarvis-app/src-tauri/src/settings/model_manager.rs:419-433 | a model not on disk or whose removal fails gives the matching error; a deletion clears only that model's error |
| Downloads.EnqueueFinishRestores | jarvis-app/src-tauri/src/settings/model_manager.rs:206-265 | a download started and completed leaves the queue as before, with the model's old error gone |
| Downloads.CancelledStatus | jarvis-app/src-tauri/src/settings/model_manager.rs:246-265 | a cancelled download is listed as the cancellation error by the manager that records it, and by what is on disk by the one that does not |
| Downloads.StaleFinishDropsRestart | jarvis-app/src-tauri/src/settings/model_manager.rs:246-247 | when a cancelled task finishes after the same model was started again, the model stops being listed as downloading although its new task runs |
| Extractors.Route | jarvis-app/src-tauri/src/browser/extractors/mod.rs:33-39 | the source type picks the YouTube, Gmail and ChatGPT extractors; only an otherwise unclaimed page on a medium.com domain goes to Medium, and every other page to the generic extractor |
| Extractors.YoutubeGist | jarvis-app/src-tauri/src/browser/extractors/mod.rs:90-110 | the video gist keeps URL and title, names the channel as author, has no excerpt, and carries id, channel and duration in its extra fields |
| Extractors.PrepareGist | jarvis-app/src-tauri/src/browser/extractors/mod.rs:29-40 | the gist is the routed extractor's answer for the URL's domain, and every gist returned carries that domain |
| Extractors.PreparedGistKeepsKind | jarvis-app/src-tauri/src/browser/extractors/mod.rs:29-40 | every gist returned has the requested source type and the URL's domain |
| Extractors.Part | jarvis-app/src-tauri/src/browser/extractors/mod.rs:48-58 | a labelled content part is present exactly when its text is present and not blank |
| Extractors.MergedExtra | jarvis-app/src-tauri/src/browser/extractors/mod.rs:66-74 | each side's non-null extra is nested under its own key, with the conversation flag always set |
| Extractors.MergeGists | jarvis-app/src-tauri/src/browser/extractors/mod.rs:45-88 | the merge keeps the page's metadata, takes the conversation's description only when the page has none, and has content unless both texts are missing or blank |
| Extractors.MergedContentLayout | jarvis-app/src-tauri/src/browser/extractors/mod.rs:46-64 | merged content is the labelled page text, a blank line and the labelled conversation, or whichever one of them is there |
| Extractors.ConversationEndsMergedContent | jarvis-app/src-tauri/src/browser/extractors/mod.rs:54-64 | a non-blank conversation survives the merge verbatim at the end of the content |
| Files.New | jarvis-app/src-tauri/src/files.rs:60-74 | fails without a data directory or when creating the folder fails, with those messages; otherwise the recordings directory is a folder named "recordings" |
| Files.CalculateDuration | jarvis-app/src-tauri/src/files.rs:101-103 | the duration times 32000 bytes a second is the file size, so it is never negative |
| Files.Collect | jarvis-app/src-tauri/src/files.rs:127-167 | when the scan succeeds it holds one recording per `.pcm` entry, each a `.pcm` name whose duration is computed from its size |
| Files.Insert | jarvis-app/src-tauri/src/files.rs:169-170 | inserting adds exactly the one recording |
| Files.InsertNewestFirst | jarvis-app/src-tauri/src/files.rs:169-170 | inserting into a newest-first list keeps it newest first |
| Files.SortNewestFirst | jarvis-app/src-tauri/src/files.rs:169-170 | the sort is a permutation of its input, ordered by creation time descending |
| Files.ListRecordings | jarvis-app/src-tauri/src/files.rs:120-125 | an unreadable directory is reported as "Failed to read recordings directory: <error>" |
| Files.ListedPcmNewestFirst | jarvis-app/src-tauri/src/files.rs:120-173 | a listing holds one recording per `.pcm` entry, all `.pcm` files, newest first, and is a reordering of the scanned recordings |
| Files.PcmNames | jarvis-app/src-tauri/src/files.rs:131-134 | a file counts as a recording exactly when its name ends in ".pcm" after at least one other character; ".pcm" alone has no extension |
| Files.DeleteRecording | jarvis-app/src-tauri/src/files.rs:215-258 | an empty name and a name with '/', '\\' or ".." are refused with their messages; the deletion succeeds exactly when the name passes those checks, the path exists, is a file and is removed without error |
| Files.RejectedBeforeDisk | jarvis-app/src-tauri/src/files.rs:215-228 | an empty or traversing name fails the same way whatever is on disk: the file system is never consulted |
| Files.AcceptedNameStaysInDir | jarvis-app/src-tauri/src/files.rs:221-231 | a name that passes the checks (other than ".") names a file directly inside the recordings directory |
| Gems.GemToRow | jarvis-app/src-tauri/src/gems/sqlite_store.rs:292-322 | every column is bound from the gem, source_meta as its JSON text, and the enrichment column is null exactly when the gem has no enrichment |
| Gems.RowToGem | jarvis-app/src-tauri/src/gems/sqlite_store.rs:211-232 | stored source_meta that does not parse reads as null and stored enrichment that does not parse reads as absent; every other column comes back as stored |
| Gems.RowRoundTrip | jarvis-app/src-tauri/src/gems/sqlite_store.rs:211-232 | whenever the JSON parser reads back what the printer writes, a gem comes back from its row unchanged |
| Gems.ContentPreview | jarvis-app/src-tauri/src/gems/sqlite_store.rs:268-275 | content of at most 200 characters is kept; longer content gives 203 characters ending in "...", starting with the content's first 200 |
| Gems.PreviewIsPrefixPlusEllipsis | jarvis-app/src-tauri/src/gems/sqlite_store.rs:268-275 | a preview is the content itself or its first 200 characters and "...", and is unchanged exactly when the content fits or is 203 characters already ending in "..." |
| Gems.EnrichmentSource | jarvis-app/src-tauri/src/gems/sqlite_store.rs:246-253 | a source is given exactly when the provider is a string: "provider / model" when the model is one too, else the provider alone |
| Gems.GemToPreview | jarvis-app/src-tauri/src/gems/sqlite_store.rs:234-282 | the gem's own fields are copied; the content is previewed; tags appear exactly when the enrichment's tags are all strings, summary exactly when it is a string, and nothing without enrichment |
| Gems.MixedTagsDropped | jarvis-app/src-tauri/src/gems/sqlite_store.rs:237-239 | a single tag that is not a string costs the preview the whole tag list |
| Gems.Merge | jarvis-app/src-tauri/src/gems/sqlite_store.rs:299-308 | on a URL conflict the row keeps its id, source type and domain and takes every other column from the new gem |
| Gems.Save | jarvis-app/src-tauri/src/gems/sqlite_store.rs:287-337 | a save fails, changing nothing, exactly when the URL is new but the id is taken; otherwise the row for the URL is returned, merged into the existing row when the URL was known and appended otherwise |
| Gems.SaveKeepsUnique | jarvis-app/src-tauri/src/gems/sqlite_store.rs:287-337 | ids and URLs stay unique after a save, and the saved URL is found |
| Gems.SaveTwiceOneRow | jarvis-app/src-tauri/src/gems/sqlite_store.rs:299-334 | saving twice under one URL leaves one new row, keeping the first id and the second save's title and content |
| Gems.GetById | jarvis-app/src-tauri/src/gems/sqlite_store.rs:339-354 | a gem is found exactly when some row has the id, and it is that row |
| Gems.SaveThenGet | jarvis-app/src-tauri/src/gems/sqlite_store.rs:326-354 | a saved gem is found again under the id the save returned |
| Gems.Delete | jarvis-app/src-tauri/src/gems/sqlite_store.rs:453-467 | deleting an id no row has is "Gem with id '<id>' not found" with the table unchanged; otherwise one row goes and no row with the id remains |
| Gems.DeleteThenGetNone | jarvis-app/src-tauri/src/gems/sqlite_store.rs:453-467 | after a deletion the gem is not found, and deleting it again fails |
| Gems.UpdateTitle | jarvis-app/src-tauri/src/gems/sqlite_store.rs:489-503 | a missing id is "Gem with id '<id>' not found"; otherwise only the title of the row with that id changes |
| Gems.Insert | jarvis-app/src-tauri/src/gems/sqlite_store.rs:368 | inserting adds exactly the one gem |
| Gems.InsertNewestFirst | jarvis-app/src-tauri/src/gems/sqlite_store.rs:368 | inserting into a newest-first table keeps it newest first |
| Gems.SortNewestFirst | jarvis-app/src-tauri/src/gems/sqlite_store.rs:368 | a permutation of the table ordered by capture time, newest first |
| Gems.Page | jarvis-app/src-tauri/src/gems/sqlite_store.rs:369 | an offset past the end gives nothing; otherwise at most limit items starting at the offset, in order |
| Gems.Previews | jarvis-app/src-tauri/src/gems/sqlite_store.rs:377 | one preview per gem, in order |
| Gems.List | jarvis-app/src-tauri/src/gems/sqlite_store.rs:356-378 | a page has min(limit, max(0, n - offset)) previews, lists gems newest first, and each preview is the preview of a gem of the table |
| Gems.FindByRecording | jarvis-app/src-tauri/src/gems/sqlite_store.rs:468-487 | no preview exactly when no gem was captured from the recording; otherwise the preview of one such gem captured no earlier than any other |
| Gems.SortedPage | jarvis-app/src-tauri/src/gems/sqlite_store.rs:364-377 | a page of the sorted table has that length, that order, and only the table's gems |
| Gems.SearchError | jarvis-app/src-tauri/src/gems/sqlite_store.rs:398-427 | an error reads as "Invalid search query syntax…" exactly when SQLite's message mentions an FTS5 syntax error or an unterminated string |
| Gems.Search | jarvis-app/src-tauri/src/gems/sqlite_store.rs:380-430 | a blank query is the first page of the list; an index error is reported, as the syntax message exactly when it is one; index hits give at most limit previews |
| Gems.BlankQueriesAgree | jarvis-app/src-tauri/src/gems/sqlite_store.rs:382-384 | any two queries of white space give the same answer as listing |
| Generic.EntitiesStartWithAmpersand | jarvis-app/src-tauri/src/browser/extractors/generic.rs:204-213 | every decoded entity starts with '&', and only the first replacement can produce a new '&' |
| Generic.DecodeWithoutAmpersand | jarvis-app/src-tauri/src/browser/extractors/generic.rs:204-213 | text without '&' is left unchanged by entity decoding |
| Generic.DecodeEntities | jarvis-app/src-tauri/src/browser/extractors/generic.rs:204-213 | decoding entities never lengthens the text |
| Generic.DoubleEscapeDecodedTwice | jarvis-app/src-tauri/src/browser/extractors/generic.rs:205-206 | because "&amp;" is replaced first, a doubly escaped "&amp;lt;" decodes all the way to "<" |
| Generic.FirstUsable | jarvis-app/src-tauri/src/browser/extractors/generic.rs:78-85 | the first meta tag whose name matches and whose content is non-empty, and none when no tag qualifies |
| Generic.FirstContent | jarvis-app/src-tauri/src/browser/extractors/generic.rs:78-85 | the decoded content of the first matching tag with non-empty content, present exactly when some tag qualifies |
| Generic.OgContent | jarvis-app/src-tauri/src/browser/extractors/generic.rs:69-97 | the property-before-content order decides when it finds a usable tag; otherwise the reversed order is consulted |
| Generic.MetaContent | jarvis-app/src-tauri/src/browser/extractors/generic.rs:100-127 | the name-before-content order decides when it finds a usable tag; otherwise the reversed order is consulted |
| Generic.HtmlTitle | jarvis-app/src-tauri/src/browser/extractors/generic.rs:130-139 | a title is found exactly when the page has a title element, and it is that element's text trimmed with its entities decoded |
| Generic.PageTitle | jarvis-app/src-tauri/src/browser/extractors/generic.rs:35-38 | the title is og:title, else the title meta tag, else the title element, else "Unknown" |
| Generic.StripTags | jarvis-app/src-tauri/src/browser/extractors/generic.rs:172 | removing tags never lengthens the text |
| Generic.StripTagsPlain | jarvis-app/src-tauri/src/browser/extractors/generic.rs:172 | text with no '<' is left unchanged |
| Generic.StripTagsDropsTag | jarvis-app/src-tauri/src/browser/extractors/generic.rs:172 | a leading tag is removed and the text after it kept |
| Generic.ParagraphTexts | jarvis-app/src-tauri/src/browser/extractors/generic.rs:170-173 | one cleaned text per captured paragraph, in order |
| Generic.CollectKeepsLong | jarvis-app/src-tauri/src/browser/extractors/generic.rs:167-183 | the kept paragraphs are all longer than 20 bytes and all come from the page |
| Generic.CollectBudget | jarvis-app/src-tauri/src/browser/extractors/generic.rs:174-180 | the loop stops right after the running total first passes 500 bytes |
| Generic.CollectAll | jarvis-app/src-tauri/src/browser/extractors/generic.rs:167-183 | when the total never passes 500 bytes every long paragraph is kept |
| Generic.CollectUnderBudget | jarvis-app/src-tauri/src/browser/extractors/generic.rs:167-183 | while the long paragraphs together stay within 500 bytes, every one is kept, in order |
| Generic.Shorten | jarvis-app/src-tauri/src/browser/extractors/generic.rs:189-200 | an excerpt of at most 500 bytes is kept whole; a longer one panics exactly when byte 500 falls inside a character, and otherwise is its first 500 bytes cut back to the last space (when there is one) followed by "..." |
| Generic.ShortenCutsAtLastSpace | jarvis-app/src-tauri/src/browser/extractors/generic.rs:189-200 | an ASCII excerpt over 500 bytes whose last space before byte 500 ends a text a is shortened to a followed by "..." |
| Generic.AsciiExcerptCuts | jarvis-app/src-tauri/src/browser/extractors/generic.rs:190-197 | cutting an ASCII excerpt never panics |
| Generic.Body | jarvis-app/src-tauri/src/browser/extractors/generic.rs:149-160 | paragraphs are read from the first article, else the first main element, else the whole page |
| Generic.ContentExcerpt | jarvis-app/src-tauri/src/browser/extractors/generic.rs:143-201 | no paragraph longer than 20 bytes means no excerpt; otherwise the excerpt is the kept paragraphs joined with spaces and shortened, and the page panics exactly when that shortening does |
| Generic.ShortPageExcerptedWhole | jarvis-app/src-tauri/src/browser/extractors/generic.rs:143-201 | a page whose long paragraphs joined with spaces fit 500 bytes has exactly that text as its excerpt |
| Generic.PublishedDate | jarvis-app/src-tauri/src/browser/extractors/generic.rs:46-48 | the published date is the article:published_time meta tag, else publishedDate, else date |
| Generic.Extract | jarvis-app/src-tauri/src/browser/extractors/generic.rs:19-66 | a failed fetch gives its error; the extraction panics exactly when the content excerpt does; otherwise the gist keeps URL, type and domain, takes title, description, author, image and published date in the source's fallback order, carries the content excerpt, and has no extra fields |
| Gist.CountPhraseReadsBack | jarvis-app/src-tauri/src/browser/extractors/gmail.rs:99-103 | the count phrase reads back: the count in digits, a space, the noun, and a plural 's' exactly when the count is not one |
| Gist.NonEmptyOr | jarvis-app/src-tauri/src/browser/extractors/chatgpt.rs:72-75 | an empty or missing text falls back to the default, and any other is kept |
| Gist.TextOrNone | jarvis-app/src-tauri/src/browser/extractors/gmail.rs:111 | a DOM text is absent exactly when it is missing or empty |
| Gist.ReadDom | jarvis-app/src-tauri/src/browser/extractors/gmail.rs:78-81 | a script error passes through unchanged, a decoding error is reported under the extractor's prefix, and otherwise the decoded record is returned |
| Gmail.Description | jarvis-app/src-tauri/src/browser/extractors/gmail.rs:97-109 | the description is the email count phrase alone exactly when there are no participants, and otherwise that phrase, " · " and the participants joined with ", " |
| Gmail.DescriptionNamesEveryParticipant | jarvis-app/src-tauri/src/browser/extractors/gmail.rs:97-109 | the description names every participant |
| Gmail.Extract | jarvis-app/src-tauri/src/browser/extractors/gmail.rs:71-140 | script and decode errors pass through; a page that is not a thread is refused; a gist keeps URL, type and domain, uses a non-empty subject as title and "Unknown Thread" otherwise, the sender as author, describes the email count and participants, and records both in its extra fields |
| Gmail.ExtractNamesEveryParticipant | jarvis-app/src-tauri/src/browser/extractors/gmail.rs:71-140 | an extracted thread's description opens with the email count and names every participant |
| IntelligenceChain.KitFallback | jarvis-app/src-tauri/src/intelligence/mod.rs:114-128 | the fallback never hands out an MLX handle; it is IntelligenceKit when that starts and otherwise a refusing provider carrying IntelligenceKit's start-up error |
| IntelligenceChain.CreateProvider | jarvis-app/src-tauri/src/intelligence/mod.rs:41-111 | an MLX handle is returned exactly when MLX is the active provider, and only when "mlx" was asked for; "intelligencekit" gives the fallback; "api" and any unknown name give a refusing provider with their messages |
| IntelligenceChain.MlxActiveIff | jarvis-app/src-tauri/src/intelligence/mod.rs:52-75 | MLX is active exactly when it was asked for, the model's path exists and the sidecar starts with the resolved interpreter on it |
| IntelligenceChain.MlxFailureFallsBack | jarvis-app/src-tauri/src/intelligence/mod.rs:62-93 | when MLX was asked for but is not active, the result is exactly IntelligenceKit's fallback, whatever went wrong |
| IntelligenceChain.MissingModelIgnoresSidecar | jarvis-app/src-tauri/src/intelligence/mod.rs:62-67 | a model that is not on disk never starts the sidecar: the choice is the same whatever interpreter, environment or sidecar is at hand |
| IntelligenceChain.NoOpReasons | jarvis-app/src-tauri/src/intelligence/mod.rs:103-126 | a refusing provider is chosen only with IntelligenceKit's start-up error, "API provider not implemented" or "Unknown provider: <name>" |
| IntelligenceChain.PythonNotFoundFallsBack | jarvis-app/src-tauri/src/intelligence/mod.rs:76-92 | an interpreter that cannot be found makes MLX fall back to IntelligenceKit |
| IntelligenceChain.ReadyVenvInterpreter | jarvis-app/src-tauri/src/intelligence/mod.rs:55 | with a ready environment whose interpreter exists, MLX is launched on the environment's python3 |
| IntelligenceKit.SplitContent | jarvis-app/src-tauri/src/intelligence/intelligencekit_provider.rs:33-71 | the provider's own copy of the chunking loop produces exactly the chunks of the shared utility |
| IntelligenceKit.AvailabilityOf | jarvis-app/src-tauri/src/intelligence/intelligencekit_provider.rs:286-309 | a failed reply is unavailable with its error or "Unknown error"; a good reply is available exactly when it says so, with its reason |
| IntelligenceKit.TagsFromResponse | jarvis-app/src-tauri/src/intelligence/intelligencekit_provider.rs:399-419 | a failed reply carries its error or "Tag generation failed"; a result that is a non-empty string array gives its first five tags; a success always holds one to five tags |
| IntelligenceKit.SummaryFromResponse | jarvis-app/src-tauri/src/intelligence/intelligencekit_provider.rs:445-480 | a failed reply carries its error or "Summarization failed"; a missing or empty string is "Model returned empty summary"; a success is exactly a non-empty string result |
| IntelligenceKit.Send | jarvis-app/src-tauri/src/intelligence/intelligencekit_provider.rs:245-283 | each exchange writes exactly one command |
| IntelligenceKit.OpenSession | jarvis-app/src-tauri/src/intelligence/intelligencekit_provider.rs:312-341 | sends one open-session command; a new id becomes the current session, and a failure keeps the old one |
| IntelligenceKit.EnsureSession | jarvis-app/src-tauri/src/intelligence/intelligencekit_provider.rs:344-352 | an open session is reused without any command, otherwise one is opened; a success always leaves that session current |
| IntelligenceKit.Message | jarvis-app/src-tauri/src/intelligence/intelligencekit_provider.rs:383-398 | a message in an open session sends one command carrying that session, the content and the output format |
| IntelligenceKit.TagsOnce | jarvis-app/src-tauri/src/intelligence/intelligencekit_provider.rs:383-420 | a successful tag request holds one to five tags |
| IntelligenceKit.SummaryOnce | jarvis-app/src-tauri/src/intelligence/intelligencekit_provider.rs:445-480 | a successful summary is never empty |
| IntelligenceKit.WithRetry | jarvis-app/src-tauri/src/intelligence/intelligencekit_provider.rs:423-442 | an error naming session_not_found reopens the session once and retries once; every other outcome passes through unchanged |
| IntelligenceKit.TagsWithRetry | jarvis-app/src-tauri/src/intelligence/intelligencekit_provider.rs:423-431 | a retried tag request still yields one to five tags |
| IntelligenceKit.SummaryWithRetry | jarvis-app/src-tauri/src/intelligence/intelligencekit_provider.rs:434-442 | a retried summary is still never empty |
| IntelligenceKit.RetryAtMostOnce | jarvis-app/src-tauri/src/intelligence/intelligencekit_provider.rs:423-431 | a retried tag request is not retried again, even when its session expires a second time: exactly one open-session command sits between the two attempts |
| IntelligenceKit.GenerateTags | jarvis-app/src-tauri/src/intelligence/intelligencekit_provider.rs:490-541 | a success holds one to five tags; for chunked content it fails exactly when no chunk gave a tag, and otherwise returns the first five tags that are first of their kind ignoring case, in the order the chunks gave them |
| IntelligenceKit.ChunkTags | jarvis-app/src-tauri/src/intelligence/intelligencekit_provider.rs:503-529 | the tags gathered from the chunks are at most five per chunk |
| IntelligenceKit.ChunkSummaries | jarvis-app/src-tauri/src/intelligence/intelligencekit_provider.rs:557-580 | every kept chunk summary is non-empty |
| IntelligenceKit.Summarize | jarvis-app/src-tauri/src/intelligence/intelligencekit_provider.rs:543-601 | a success is never empty; for chunked content no surviving summary is an error, a single one is the answer, and two or more are combined by one more request in a reopened session over their newline-joined text, falling back to the first chunk summary when that request fails |
| LlmModels.CatalogEntry | jarvis-app/src-tauri/src/intelligence/llm_model_manager.rs:132-134 | a found entry is a catalogue entry with that id; nothing is found exactly when no catalogue entry has the id |
| LlmModels.UnknownModel | jarvis-app/src-tauri/src/intelligence/llm_model_manager.rs:197 | the message opens with "Unknown model: " and ends with the id asked for |
| LlmModels.ModelPath | jarvis-app/src-tauri/src/intelligence/llm_model_manager.rs:122-129 | a catalogue model lives under the last piece of its repository id, any other id under its own name, both inside the models directory |
| LlmModels.OnDisk | jarvis-app/src-tauri/src/intelligence/llm_model_manager.rs:137-139 | a model counts as downloaded exactly when its directory and the config.json inside it exist; its size is the directory's, 0 when that cannot be read |
| LlmModels.ListModels | jarvis-app/src-tauri/src/intelligence/llm_model_manager.rs:148-185 | one entry per catalogue model in catalogue order, carrying the entry's id, repository, name and tier and the status the queue and the disk give it |
| LlmModels.ListPrecedence | jarvis-app/src-tauri/src/intelligence/llm_model_manager.rs:155-169 | a listed model is downloading exactly when it is queued, failed exactly when it is not queued but has an error, and downloaded only when neither holds and its config.json is on disk |
| LlmModels.StartDownloadAsWritten | jarvis-app/src-tauri/src/intelligence/llm_model_manager.rs:195-237 | a start succeeds exactly for a catalogued, unqueued model whose sidecar script is found and whose downloads directory is made; any catalogued, unqueued model is queued whatever happens next |
| LlmModels.FailedStartStaysQueued | jarvis-app/src-tauri/src/intelligence/llm_model_manager.rs:200-237 | a start whose sidecar lookup fails reports the failure but leaves the model listed as downloading, and a later start of the same model is refused |
| LlmModels.StartDownload | jarvis-app/src-tauri/src/intelligence/llm_model_manager.rs:195-237 | same success condition as the code; a failed start leaves the queue as it was, and a successful one queues the model at progress 0 |
| LlmModels.FailedStartRetryable | jarvis-app/src-tauri/src/intelligence/llm_model_manager.rs:195-237 | after a failed start the queue is unchanged and the model can be started again |
| LlmModels.LineVerdict | jarvis-app/src-tauri/src/intelligence/llm_model_manager.rs:423-486 | a blank line decides nothing; a line decides success only when it parses as JSON whose "success" is true |
| LlmModels.Verdict | jarvis-app/src-tauri/src/intelligence/llm_model_manager.rs:407-494 | an output in which no event decides is the error "Download process ended without response" |
| LlmModels.VerdictIsFirstDecision | jarvis-app/src-tauri/src/intelligence/llm_model_manager.rs:409-494 | the first deciding event fixes the outcome, whatever follows it |
| LlmModels.Task | jarvis-app/src-tauri/src/intelligence/llm_model_manager.rs:296-525 | a download succeeds exactly when the sidecar starts, takes its command, answers success, leaves a config.json, and the old model directory is removed and the new one moved in; a failed verdict and a missing config.json are reported as such |
| LlmModels.Complete | jarvis-app/src-tauri/src/intelligence/llm_model_manager.rs:256-281 | the finished model leaves the queue; success clears its error, failure records it, except "Download cancelled", which leaves the errors as they were |
| LlmModels.CancelDownload | jarvis-app/src-tauri/src/intelligence/llm_model_manager.rs:531-551 | cancelling succeeds exactly for a queued model, which leaves the queue with the errors untouched |
| LlmModels.DeleteModel | jarvis-app/src-tauri/src/intelligence/llm_model_manager.rs:557-571 | deleting a model whose directory is missing is "Model <id> is not downloaded"; a deletion clears the model's error and leaves the queue alone |
| LlmModels.CancelledDownloadNotAnError | jarvis-app/src-tauri/src/intelligence/llm_model_manager.rs:256-281 | a download the user cancels ends listed by what is on disk, not as failed |
| Medium.ReadingAt | jarvis-app/src-tauri/src/browser/extractors/medium.rs:15 | a match of the reading-time pattern at a position yields the non-empty digit run it starts with |
| Medium.FirstReading | jarvis-app/src-tauri/src/browser/extractors/medium.rs:20-21 | the leftmost position where the reading-time pattern matches, and none when it matches nowhere |
| Medium.ReadingTime | jarvis-app/src-tauri/src/browser/extractors/medium.rs:19-24 | the reading time fits a u32 and is absent when the pattern matches nowhere |
| Medium.MatchAtDigits | jarvis-app/src-tauri/src/browser/extractors/medium.rs:15 | digits followed by " min read" match where the digits start |
| Medium.ReadingTimeOf | jarvis-app/src-tauri/src/browser/extractors/medium.rs:19-24 | "n min read" after text without digits gives n |
| Medium.NoDigitsNoReadingTime | jarvis-app/src-tauri/src/browser/extractors/medium.rs:15-24 | text without any digit has no reading time |
| Medium.DaysIn | jarvis-app/src-tauri/src/browser/extractors/medium.rs:96 | every month has 28 to 31 days |
| Medium.DigitCount | jarvis-app/src-tauri/src/browser/extractors/medium.rs:96 | the length of the digit run at a position, capped at the field width |
| Medium.ScanNumber | jarvis-app/src-tauri/src/browser/extractors/medium.rs:96 | a scanned number field ends after its start and within the text |
| Medium.ScanYear | jarvis-app/src-tauri/src/browser/extractors/medium.rs:96 | a scanned year field ends after its start and within the text |
| Medium.ParseYmd | jarvis-app/src-tauri/src/browser/extractors/medium.rs:96 | a date is parsed only when it is a real calendar day (a sign must be followed directly by the year's digits, see Medium.SpaceAfterSignKept) |
| Medium.SpaceAfterSignKept | jarvis-app/src-tauri/src/browser/extractors/medium.rs:96 | a year sign followed by a space does not parse, so "- 1-01-01" is kept as it was |
| Medium.Pad | jarvis-app/src-tauri/src/browser/extractors/medium.rs:97 | a padded number is all digits and at least as wide as asked |
| Medium.YearText | jarvis-app/src-tauri/src/browser/extractors/medium.rs:97 | years 0 to 9999 print as digits and any other year with an explicit sign |
| Medium.FormatDate | jarvis-app/src-tauri/src/browser/extractors/medium.rs:97 | the readable date opens with the month's full name and a space |
| Medium.DatePart | jarvis-app/src-tauri/src/browser/extractors/medium.rs:95 | the date part is the prefix of the timestamp before its first 'T' |
| Medium.ReformatDate | jarvis-app/src-tauri/src/browser/extractors/medium.rs:94-101 | a date whose part before 'T' does not parse as a calendar day is kept exactly as it was; one that parses is written starting with its month's full name and a space |
| Medium.IsoRoundTrip | jarvis-app/src-tauri/src/browser/extractors/medium.rs:96 | the ISO form of a valid day in years 0 to 9999 parses back to that day |
| Medium.ReformatIsoTimestamp | jarvis-app/src-tauri/src/browser/extractors/medium.rs:94-101 | an ISO timestamp of a valid day is written as "Month DD, YYYY" and the time after 'T' is dropped |
| Medium.ScanPadded | jarvis-app/src-tauri/src/browser/extractors/medium.rs:96 | a zero-padded field followed by a non-digit scans back to its number |
| Medium.Extra | jarvis-app/src-tauri/src/browser/extractors/medium.rs:110-123 | the extra fields hold the publication and the reading time, each exactly when it is known |
| Medium.Extract | jarvis-app/src-tauri/src/browser/extractors/medium.rs:74-137 | only a failed script or an undecodable record is an error; the title falls back to "Unknown", author, description and image are kept, the whole article text is the content when not empty, and a date that does not parse is kept |
| Migration.StoredVersion | jarvis-app/src-tauri/src/knowledge/migration.rs:37 | the stored version fits in a u32; a marker of decimal digits within range is read as its value |
| Migration.NeedsMigration | jarvis-app/src-tauri/src/knowledge/migration.rs:31-52 | migration is needed exactly when there is no marker or its trimmed text does not parse to a version of at least 1 |
| Migration.Loaded | jarvis-app/src-tauri/src/knowledge/migration.rs:66-79 | at most one gem per listed id |
| Migration.LoadedMembers | jarvis-app/src-tauri/src/knowledge/migration.rs:66-79 | a gem is migrated exactly when some listed id looks it up successfully; missing gems and lookup errors are skipped, not fatal |
| Migration.LoadedAll | jarvis-app/src-tauri/src/knowledge/migration.rs:58-79 | when every lookup succeeds, every listed gem is migrated, in listing order |
| Migration.CheckAndRun | jarvis-app/src-tauri/src/knowledge/migration.rs:23-97 | an up-to-date marker means nothing is done; otherwise the loaded gems are migrated when the listing works; the run fails exactly when listing, migration or the marker write does; the marker changes only after a successful migration, to the current version |
| Migration.MigrationSettles | jarvis-app/src-tauri/src/knowledge/migration.rs:23-97 | after a successful migration the next start-up finds the marker up to date and does nothing |
| MlxProvider.ToJson | jarvis-app/src-tauri/src/intelligence/mlx_provider.rs:19-38 | the serialized command holds the command name, each argument that is set with its value, and no key for an argument that is not set |
| MlxProvider.AsCount | jarvis-app/src-tauri/src/intelligence/mlx_provider.rs:41-84 | a count field reads only from an integer within u64 range |
| MlxProvider.Optional | jarvis-app/src-tauri/src/intelligence/mlx_provider.rs:41-84 | an optional reply field is absent when missing or null, read when it has its type, and fails the whole decode when it has another type |
| MlxProvider.DecodeReply | jarvis-app/src-tauri/src/intelligence/mlx_provider.rs:41-84 | a reply line decodes exactly when it is an object with a string "type" and every known field of its declared type; unknown fields are ignored |
| MlxProvider.Send | jarvis-app/src-tauri/src/intelligence/mlx_provider.rs:273-327 | every command is recorded as sent; an empty read is a broken pipe, a write timeout names the seconds and the command; the reply is returned exactly when a non-empty line arrived, parsed and decoded |
| MlxProvider.Exchange | jarvis-app/src-tauri/src/intelligence/mlx_provider.rs:273-327 | a command exchange passes transport errors through unchanged and otherwise hands the decoded reply to its reader |
| MlxProvider.AvailabilityFrom | jarvis-app/src-tauri/src/intelligence/mlx_provider.rs:330-355 | an error reply is unavailable with its message; any other reply is available exactly when it says so, with no reason |
| MlxProvider.CheckAvailabilityInternal | jarvis-app/src-tauri/src/intelligence/mlx_provider.rs:330-355 | the check sends exactly one check-availability command |
| MlxProvider.LookupCapabilities | jarvis-app/src-tauri/src/intelligence/mlx_provider.rs:410-437 | a catalogued text model is text-only, a catalogued omni model is audio and text, and an unknown name is audio and text exactly when it mentions both "qwen" and "omni", compared in lower case |
| MlxProvider.LoadedName | jarvis-app/src-tauri/src/intelligence/mlx_provider.rs:376-397 | a load reply succeeds exactly when it is not an error and reports success, giving the model name; otherwise the server's error, "Failed to load model" or "Model load failed" |
| MlxProvider.LoadModelInternal | jarvis-app/src-tauri/src/intelligence/mlx_provider.rs:358-402 | a path without a file name is refused before anything is sent; otherwise exactly one load command with the catalogue capabilities is sent, and only a successful reply changes the model name |
| MlxProvider.SwitchModel | jarvis-app/src-tauri/src/intelligence/mlx_provider.rs:440-456 | a failed switch leaves the previous model name, and the outcome is the load's |
| MlxProvider.SwitchModelRollbackRedundant | jarvis-app/src-tauri/src/intelligence/mlx_provider.rs:440-456 | the rollback in switch_model never changes anything, because a failed load already kept the old name |
| MlxProvider.UnavailableError | jarvis-app/src-tauri/src/intelligence/mlx_provider.rs:244-254 | an unavailable sidecar whose reason mentions "mlx" or "import" gets the installation hint; any other reason, or "Unknown reason" when none was given, is reported as not available |
| MlxProvider.Start | jarvis-app/src-tauri/src/intelligence/mlx_provider.rs:229-266 | a started provider passed both timeouts, is available, holds the checked availability and loaded the model; an unavailable sidecar is refused with the start-up error |
| MlxProvider.New | jarvis-app/src-tauri/src/intelligence/mlx_provider.rs:165-266 | a missing Python is refused with its message before anything else; a provider is created only when Python, the script and the spawn all succeed, and then it is started |
| MlxProvider.Shutdown | jarvis-app/src-tauri/src/intelligence/mlx_provider.rs:459-486 | shutdown sends the shutdown command and ignores its reply |
| MlxProvider.TagsFrom | jarvis-app/src-tauri/src/intelligence/mlx_provider.rs:489-518 | tags are returned exactly when the reply is not an error and holds a non-empty list; otherwise the server's error, "No tags in response" or "Model returned no tags" |
| MlxProvider.SummaryFrom | jarvis-app/src-tauri/src/intelligence/mlx_provider.rs:521-550 | a summary is returned exactly when the reply is not an error and holds non-empty text; otherwise the server's error, "No summary in response" or "Model returned empty summary" |
| MlxProvider.GenerateTagsChunk | jarvis-app/src-tauri/src/intelligence/mlx_provider.rs:489-518 | one chunk sends one tag command, and a success is never an empty list |
| MlxProvider.SummarizeChunk | jarvis-app/src-tauri/src/intelligence/mlx_provider.rs:521-550 | one chunk sends one summary command, and a success is never empty text |
| MlxProvider.TranscriptFrom | jarvis-app/src-tauri/src/intelligence/mlx_provider.rs:556-589 | a transcript is returned exactly when the reply is not an error and has both language and transcript, reporting whichever is missing first |
| MlxProvider.GenerateTranscriptInternal | jarvis-app/src-tauri/src/intelligence/mlx_provider.rs:556-589 | the transcription sends one command carrying the audio path |
| MlxProvider.QuestionOf | jarvis-app/src-tauri/src/intelligence/mlx_provider.rs:638-652 | a suggested question is read exactly when both "question" and "reason" are strings |
| MlxProvider.ConceptOf | jarvis-app/src-tauri/src/intelligence/mlx_provider.rs:657-671 | a key concept is read exactly when both "term" and "context" are strings |
| MlxProvider.CycleFrom | jarvis-app/src-tauri/src/intelligence/mlx_provider.rs:594-683 | an error reply fails with its message or "Co-Pilot analysis failed"; otherwise every missing field is empty and each well-formed question and concept is kept while malformed ones are dropped |
| MlxProvider.CopilotAnalyzeInternal | jarvis-app/src-tauri/src/intelligence/mlx_provider.rs:594-683 | the analysis sends one command carrying the audio path and context |
| MlxProvider.DecodeChunksConcat | jarvis-app/src-tauri/src/intelligence/mlx_provider.rs:694-734 | decoding the chunks one by one gives the decoding of their concatenation |
| MlxProvider.Chunks | jarvis-app/src-tauri/src/intelligence/mlx_provider.rs:694 | the chunks concatenate back to the content, each fits the 15000-byte budget, and content that fits is a single chunk |
| MlxProvider.ChunkTags | jarvis-app/src-tauri/src/intelligence/mlx_provider.rs:697-723 | every chunk is asked in turn, a failed chunk does not stop the rest, and only the sent commands change |
| MlxProvider.GenerateTags | jarvis-app/src-tauri/src/intelligence/mlx_provider.rs:693-734 | content that fits is one request; larger content asks every chunk and merges the tags |
| MlxProvider.ChunkedTagsMerged | jarvis-app/src-tauri/src/intelligence/mlx_provider.rs:693-734 | chunked content fails exactly when no chunk gave a tag; otherwise the result is the first five tags that are first of their kind ignoring case, in the order the chunks gave them |
| MlxProvider.ChunkSummaries | jarvis-app/src-tauri/src/intelligence/mlx_provider.rs:740-763 | every chunk is summarized in turn, failed chunks are skipped, and every kept summary is non-empty |
| MlxProvider.Summarize | jarvis-app/src-tauri/src/intelligence/mlx_provider.rs:736-779 | content that fits is one request; otherwise no surviving summary is an error, one is the answer, and several are summarized again from their newline-joined text, falling back to the first when that fails |
| MlxProvider.LoadRequestReachesLoader | jarvis-app/src-tauri/src/intelligence/mlx_provider.rs:358-402 | the load command the client builds reaches the server's loader with the path as a string and the catalogue capabilities as a list |
| MlxProvider.AvailabilityReplyDropsReason | jarvis-app/src-tauri/src/intelligence/mlx_provider.rs:330-355 | a failed MLX check arrives on a "response" line, so the client sees an unavailable sidecar with no reason |
| MlxProvider.CheckSeesNoReason | jarvis-app/src-tauri/src/intelligence/mlx_provider.rs:330-355 | against the server's failed-check line the client's availability check yields unavailable without a reason |
| MlxProvider.StartupHidesUnavailableReason | jarvis-app/src-tauri/src/intelligence/mlx_provider.rs:244-254 | start-up against a server whose MLX check fails always reports "Unknown reason", never the missing-dependency hint |
| MlxProvider.UnknownReasonHasNoHint | jarvis-app/src-tauri/src/intelligence/mlx_provider.rs:244-254 | the default reason mentions neither "mlx" nor "import", so it never selects the installation hint |
| MlxProvider.ServerFailureDecodes | jarvis-app/src-tauri/src/intelligence/mlx_provider.rs:41-84 | every error line of the server decodes, and the client reports its message for tags and summaries |
| MlxProvider.ServerTagListDecodes | jarvis-app/src-tauri/src/intelligence/mlx_provider.rs:489-518 | a tag list the server sends decodes to the same list |
| MlxProvider.ServerTagsReachClient | jarvis-app/src-tauri/src/intelligence/mlx_provider.rs:489-518 | whatever the server answers to generate-tags decodes: an error reaches the client with the server's message, a tag list of at most five is accepted unless it is empty |
| MlxServer.HasAudio | jarvis-app/src-tauri/sidecars/mlx-server/server.py:255 | Python's `"audio" in capabilities`: list membership for a list, and no answer (an exception) exactly for values that are not a list, dict or string |
| MlxServer.CheckAvailability | jarvis-app/src-tauri/sidecars/mlx-server/server.py:221-237 | the reply is a well-formed response whose "available" says whether the MLX import check passed, with the import error alongside when it failed |
| MlxServer.DeclaredCapabilities | jarvis-app/src-tauri/sidecars/mlx-server/server.py:248-250 | no capabilities sent means `["text"]`, which has no audio; sent ones are stored as given |
| MlxServer.LastSegment | jarvis-app/src-tauri/sidecars/mlx-server/server.py:280 | the model name has no '/' and ends the path it came from |
| MlxServer.LoadModel | jarvis-app/src-tauri/sidecars/mlx-server/server.py:239-294 | capabilities are stored before anything can fail; audio models need the omni loader, refused with its message when missing; the reply has no error exactly when the path is a string and the chosen loader succeeds, and then the model is replaced and named after the last path segment |
| MlxServer.ModelInfo | jarvis-app/src-tauri/sidecars/mlx-server/server.py:809-833 | without a model the reply is the "No model loaded" error; with one it reports the parameter count and the model name (null when unnamed) |
| MlxServer.ContentExcerpt | jarvis-app/src-tauri/sidecars/mlx-server/server.py:327 | a string content contributes its first 2000 characters; the prompt can be built exactly when the content is a string or a list |
| MlxServer.TagsPrompt | jarvis-app/src-tauri/sidecars/mlx-server/server.py:319-329 | the tag prompt is its fixed instruction followed directly by the content excerpt |
| MlxServer.SummaryPrompt | jarvis-app/src-tauri/sidecars/mlx-server/server.py:359-369 | the summary prompt is its fixed instruction followed directly by the content excerpt |
| MlxServer.BracketSpan | jarvis-app/src-tauri/sidecars/mlx-server/server.py:301 | the non-greedy dot-all match of `\[.*?\]`: it starts with '[' and ends with the first ']' after it; no match means no '[' or no ']' after the first '[' |
| MlxServer.BracketSpanWhole | jarvis-app/src-tauri/sidecars/mlx-server/server.py:301 | a bracketed text with no ']' inside is its own bracketed span |
| MlxServer.PyStripStable | jarvis-app/src-tauri/sidecars/mlx-server/server.py:298 | Python's strip() is idempotent |
| MlxServer.ElementTags | jarvis-app/src-tauri/sidecars/mlx-server/server.py:306 | the tags read from a JSON array are at most as many as its elements, each non-empty and already stripped |
| MlxServer.ElementTagsOfClean | jarvis-app/src-tauri/sidecars/mlx-server/server.py:306 | a JSON array of non-empty stripped strings reads back as those strings |
| MlxServer.CleanPiece | jarvis-app/src-tauri/sidecars/mlx-server/server.py:312 | cleaning a fallback piece only removes characters |
| MlxServer.FallbackTags | jarvis-app/src-tauri/sidecars/mlx-server/server.py:308-313 | every fallback tag is non-empty and holds no comma and no newline |
| MlxServer.ParseTags | jarvis-app/src-tauri/sidecars/mlx-server/server.py:296-313 | every tag is non-empty; the array elements when the bracketed span parses as a JSON array, and otherwise comma-free fallback pieces (MlxServer.ParseTagsReadsArray and MlxServerExamples.FallbackExample show both readings on concrete replies) |
| MlxServer.ParseTagsReadsArray | jarvis-app/src-tauri/sidecars/mlx-server/server.py:296-313 | a reply that is a JSON array of clean tags gives back exactly those tags |
| MlxServerExamples.FallbackExample | jarvis-app/src-tauri/sidecars/mlx-server/server.py:308-313 | the reply "a, 'b'" then "c" on the next line, with no brackets, gives the tags a, b and c |
| MlxServer.GenerateTags | jarvis-app/src-tauri/sidecars/mlx-server/server.py:315-353 | without a model the "No model loaded" error; a success needs a sliceable content and a successful generation, and returns at most five tags parsed from its text |
| MlxServer.Summarize | jarvis-app/src-tauri/sidecars/mlx-server/server.py:355-392 | without a model the "No model loaded" error; a success returns the stripped generation for the summary prompt |
| MlxServer.Conversation | jarvis-app/src-tauri/sidecars/mlx-server/server.py:421 | the conversation has one turn per message with its role and content, and exists exactly when every message is an object holding both keys |
| MlxServer.Chat | jarvis-app/src-tauri/sidecars/mlx-server/server.py:394-456 | without a model "No model loaded", without messages "No messages provided"; a success returns the stripped generation for that conversation |
| MlxServer.DropFenceLines | jarvis-app/src-tauri/sidecars/mlx-server/server.py:565 | the kept lines are exactly the lines that do not start, after whitespace, with a code fence |
| MlxServer.StripFence | jarvis-app/src-tauri/sidecars/mlx-server/server.py:562-566 | a reply that does not start with a fence is unchanged; a fenced one keeps only its non-fence lines, stripped (the body of a fenced reply comes back, see MlxServer.StripFenceUnwraps) |
| MlxServer.StripFenceUnwraps | jarvis-app/src-tauri/sidecars/mlx-server/server.py:562-566 | a body wrapped in a json code fence comes back stripped when none of its lines is a fence |
| MlxServer.TranscriptSamples | jarvis-app/src-tauri/sidecars/mlx-server/server.py:503-517 | a ".wav" file is decoded, a ".pcm" file read as 16-bit samples, and any other extension is unsupported |
| MlxServer.TranscriptReply | jarvis-app/src-tauri/sidecars/mlx-server/server.py:559-583 | a reply that does not parse as JSON is the whole text in an unknown language; one that parses to a non-object fails on its `get` call |
| MlxServer.GenerateTranscript | jarvis-app/src-tauri/sidecars/mlx-server/server.py:458-595 | the reply is never an emitted line; without a model "No model loaded"; capabilities Python cannot search raise; without audio capability the transcription error; a success needs audio capability, the omni package, a string path and an existing file |
| MlxServer.CopilotPrompt | jarvis-app/src-tauri/sidecars/mlx-server/server.py:667-697 | the first-cycle prompt for an empty context; otherwise the continuation prompt with the context verbatim after its heading and the analysis fields at the end |
| MlxServer.ListFields | jarvis-app/src-tauri/sidecars/mlx-server/server.py:733-738 | exactly the six list fields, each read from the parsed object or defaulting to an empty list |
| MlxServer.Analysis | jarvis-app/src-tauri/sidecars/mlx-server/server.py:728-740 | an analysis reply carries the new content and summary as given and every list field from its source or empty |
| MlxServer.ListFieldsDistinct | jarvis-app/src-tauri/sidecars/mlx-server/server.py:728-740 | no list field shares a name with the type, command, new content or summary fields |
| MlxServer.AnalysisReply | jarvis-app/src-tauri/sidecars/mlx-server/server.py:716-755 | a parsed object gives every field with its default; unparsable text becomes both the new content and the summary with empty lists |
| MlxServer.CopilotAnalyze | jarvis-app/src-tauri/sidecars/mlx-server/server.py:597-769 | without a model "No model loaded"; unsearchable capabilities raise; no audio capability gives its error; silent audio keeps the running summary with empty lists; any other success came from a successful omni generation |
| MlxServer.DownloadModel | jarvis-app/src-tauri/sidecars/mlx-server/server.py:771-807 | prints exactly one line of its own, the completion (with the destination) exactly when the download did not fail, and returns nothing |
| MlxServer.UnknownCommand | jarvis-app/src-tauri/sidecars/mlx-server/server.py:895-896 | an unknown command gets a well-formed error line reading "Unknown command: " and the command's Python text, without a command field |
| MlxServer.HandleCommand | jarvis-app/src-tauri/sidecars/mlx-server/server.py:835-896 | only load-model changes the session; a non-object request raises; only download-model prints its own line; each command with a missing or falsy required field is answered with that command's "Missing ..." error and nothing else happens; shutdown answers success; any other command is unknown |
| MlxServer.GatedCommandsAnswerMissing | jarvis-app/src-tauri/sidecars/mlx-server/server.py:843-896 | every command with a falsy required field is answered with its error message and the command's name, and the session is unchanged; a command the server does not know is answered "Unknown command: " and its name, without a command field |
| MlxServer.InvalidJson | jarvis-app/src-tauri/sidecars/mlx-server/server.py:916-920 | an unparsable line is answered with "Invalid JSON: <message>" and no command |
| MlxServer.Unexpected | jarvis-app/src-tauri/sidecars/mlx-server/server.py:921-926 | an escaped exception is answered with "Unexpected error: <message>" and its traceback |
| MlxServer.ServeRequest | jarvis-app/src-tauri/sidecars/mlx-server/server.py:905-926 | a parsed request writes exactly one well-formed line, changes the session as the handler does, and stops the loop exactly for shutdown |
| MlxServer.ServeLine | jarvis-app/src-tauri/sidecars/mlx-server/server.py:898-926 | blank lines are skipped silently, unparsable ones answered with one error line, parsed ones served; at most one well-formed line is written |
| MlxServer.Run | jarvis-app/src-tauri/sidecars/mlx-server/server.py:898-926 | at most one line is written per input line, every line written is a well-formed response or error line, and the loop only stops on a line it read |
| MlxServer.RunKeepsSession | jarvis-app/src-tauri/sidecars/mlx-server/server.py:898-926 | a run without load-model requests leaves the server state unchanged |
| MlxServer.RunSkipsBlank | jarvis-app/src-tauri/sidecars/mlx-server/server.py:901-903 | a blank line is skipped without output or state change |
| MlxServer.RunStopsAtShutdown | jarvis-app/src-tauri/sidecars/mlx-server/server.py:912-914 | a shutdown request is acknowledged and ends the loop, so later lines are never read |
| MlxServer.RunContinuesAfterInvalidJson | jarvis-app/src-tauri/sidecars/mlx-server/server.py:916-920 | an unparsable line gets one error line and the loop goes on |
| MlxServer.FailedAudioLoadOpensAudioGate | jarvis-app/src-tauri/sidecars/mlx-server/server.py:248-294 | after an audio model fails to load over a loaded text model, the text model stays loaded while the stored capabilities let the audio commands through their gate |
| Observer.Start | jarvis-app/src-tauri/src/browser/observer.rs:41-96 | starting is refused with the already-running error exactly when the observer runs; otherwise it runs with a stop channel |
| Observer.Stop | jarvis-app/src-tauri/src/browser/observer.rs:102-118 | stopping is refused with the not-running error exactly when the observer is idle; otherwise the stop signal is taken and the observer no longer runs |
| Observer.StartStopConsistent | jarvis-app/src-tauri/src/browser/observer.rs:41-118 | start and stop keep the running flag and the stop channel in step, and each undoes the other |
| Observer.DetectYoutube | jarvis-app/src-tauri/src/browser/observer.rs:183-201 | a URL is a video exactly when the video-id pattern matches; the id is an eleven-character id found in the URL, a youtube.com URL is kept and any other is rewritten to the canonical watch URL |
| Observer.NonYouTubeNotDetected | jarvis-app/src-tauri/src/browser/observer.rs:188 | a URL with neither the watch marker nor the short-link marker is not a video |
| Observer.WatchUrlKept | jarvis-app/src-tauri/src/browser/observer.rs:188-194 | a watch URL is reported unchanged with the id of its v parameter |
| Observer.KeptOnDomain | jarvis-app/src-tauri/src/browser/observer.rs:193-194 | a detected video on youtube.com keeps its URL |
| Observer.WatchUrlOnDomain | jarvis-app/src-tauri/src/browser/observer.rs:188-194 | every watch URL is on youtube.com, so it is never rewritten |
| Observer.ShortLinkRewritten | jarvis-app/src-tauri/src/browser/observer.rs:195-198 | a youtu.be link is rewritten to the canonical watch URL for its id |
| Observer.MatchNeedsRoom | jarvis-app/src-tauri/src/browser/observer.rs:188 | a match needs room for its marker and a full eleven-character id |
| Observer.ShortTailNotDetected | jarvis-app/src-tauri/src/browser/observer.rs:188 | text too short to hold a marker and an id, such as a watch URL without a query, is not a video |
| Observer.ShortIdNotDetected | jarvis-app/src-tauri/src/browser/observer.rs:188 | an id shorter than eleven characters at the end of a watch URL is not a video |
| Observer.PollOnce | jarvis-app/src-tauri/src/browser/observer.rs:75-87 | a poll classifies exactly when it returns a URL different from the last one seen, and remembers it; a repeat or a failed poll changes nothing |
| Observer.Classified | jarvis-app/src-tauri/src/browser/observer.rs:57-91 | over a run of polls, each classified URL was polled and differs from the one classified before it |
| Observer.TaskClassified | jarvis-app/src-tauri/src/browser/observer.rs:58-91 | the task starts from an empty last URL, so an empty URL is never classified first and no URL is classified twice in a row |
| Observer.SteadyUrlClassifiedOnce | jarvis-app/src-tauri/src/browser/observer.rs:75-87 | a tab that stays on one new URL, with failed polls in between, is classified exactly once |
| Observer.SteadyUrlIgnored | jarvis-app/src-tauri/src/browser/observer.rs:81-86 | polls that only repeat the last URL or fail classify nothing |
| Observer.Events | jarvis-app/src-tauri/src/browser/observer.rs:147-177 | the events raised are exactly the detected videos among the classified URLs |
| ProjectAgent.ProjectContext | jarvis-app/src-tauri/src/agents/project_agent.rs:107-115 | the topic context opens with the project's title line; description and objective follow only when present |
| ProjectAgent.CleanTopicsFenced | jarvis-app/src-tauri/src/agents/project_agent.rs:123-129 | a reply wrapped in a ```json or plain ``` code fence is reduced to exactly the fenced body |
| ProjectAgent.JsonFenceRemoved | jarvis-app/src-tauri/src/agents/project_agent.rs:124-129 | after trimming, a leading ```json fence and the trailing fence are removed, leaving the text between them |
| ProjectAgent.PlainFenceRemoved | jarvis-app/src-tauri/src/agents/project_agent.rs:124-129 | after trimming, a leading plain fence and the trailing fence are removed, leaving the text between them |
| ProjectAgent.CleanTopicsBare | jarvis-app/src-tauri/src/agents/project_agent.rs:123-129 | an unfenced reply without surrounding whitespace reaches the JSON parser unchanged |
| ProjectAgent.ParseTopics | jarvis-app/src-tauri/src/agents/project_agent.rs:131-135 | topics are returned exactly when the cleaned reply parses as an array of strings, element for element; otherwise the error names the parse failure and quotes the raw reply |
| ProjectAgent.TopicsError | jarvis-app/src-tauri/src/agents/project_agent.rs:131-132 | the parse error text starts with the fixed prefix and ends with the raw reply |
| ProjectAgent.SuggestTopics | jarvis-app/src-tauri/src/agents/project_agent.rs:101-136 | a missing project and a failed model call pass their errors through; otherwise the model is asked with the topic prompt and the project context and its reply is parsed |
| ProjectAgent.GatheredMembers | jarvis-app/src-tauri/src/agents/project_agent.rs:157-171 | a result is gathered exactly when some topic's successful web search returned it; failed searches contribute nothing |
| ProjectAgent.WebResults | jarvis-app/src-tauri/src/agents/project_agent.rs:157-178 | web results are strictly ascending by URL (one per URL), and there are none when the provider does not search the web |
| ProjectAgent.WebResultsFromTopics | jarvis-app/src-tauri/src/agents/project_agent.rs:158-175 | every kept web result was returned by the search for one of the topics |
| ProjectAgent.WebResultsKeepEveryUrl | jarvis-app/src-tauri/src/agents/project_agent.rs:158-175 | deduplication loses no URL: every URL some topic's search returned appears among the web results |
| ProjectAgent.FailedTopicsGiveNothing | jarvis-app/src-tauri/src/agents/project_agent.rs:166-169 | when every topic's search fails the run still proceeds, with no web results |
| ProjectAgent.RunResearch | jarvis-app/src-tauri/src/agents/project_agent.rs:146-224 | the run succeeds exactly when the project exists and the gem search for its title succeeds; it reports the topics as given and the deduplicated web results |
| ProjectAgent.ResearchResultsSound | jarvis-app/src-tauri/src/agents/project_agent.rs:172-216 | a successful run lists each URL once, each from a topic's search, and suggests exactly the provider hits whose gem the store returned |
| ProjectAgent.TavilyResearchSuggestsNoGems | jarvis-app/src-tauri/src/agents/project_agent.rs:180-216 | with the web-only provider no gems are suggested and only a missing project fails the run |
| ProjectAgent.GemText | jarvis-app/src-tauri/src/agents/project_agent.rs:256-276 | each gem's context part opens with its title line and is only that line when the store does not return the gem |
| ProjectAgent.SummaryParts | jarvis-app/src-tauri/src/agents/project_agent.rs:246-277 | the summary context opens with the project title, carries the gem count line, and has one part for every gem |
| ProjectAgent.SummaryContextNamesEveryGem | jarvis-app/src-tauri/src/agents/project_agent.rs:246-279 | the joined context names the project, the gem count and every gem's title |
| ProjectAgent.Summarize | jarvis-app/src-tauri/src/agents/project_agent.rs:234-290 | a missing project is an error, a project without gems gets the fixed message, and otherwise the model answers the summary prompt with the assembled context |
| ProjectAgent.EmptyProjectNeedsNoModel | jarvis-app/src-tauri/src/agents/project_agent.rs:241-243 | a project without gems is answered without consulting the model |
| ProjectAgent.NewAgent | jarvis-app/src-tauri/src/agents/project_agent.rs:74-91 | a new agent has no chat sources and no sessions |
| ProjectAgent.StartChat | jarvis-app/src-tauri/src/agents/project_agent.rs:300-323 | a chat starts exactly when the project exists and the session log is written; the new session id is stored with a source for that project, and a failure leaves the agent unchanged |
| ProjectAgent.SendChatMessage | jarvis-app/src-tauri/src/agents/project_agent.rs:328-342 | a session without a stored source is refused with the not-found error; sending never adds or removes sessions or sources |
| ProjectAgent.GetChatHistory | jarvis-app/src-tauri/src/agents/project_agent.rs:345-347 | history is available exactly for sessions that have a source |
| ProjectAgent.EndChat | jarvis-app/src-tauri/src/agents/project_agent.rs:350-354 | ending a chat forgets that session and its source and keeps every other source |
| ProjectAgent.ChatKeepsConsistent | jarvis-app/src-tauri/src/agents/project_agent.rs:300-354 | starting, messaging and ending chats keep the sessions and the stored sources in step |
| ProjectAgent.EndedChatRefused | jarvis-app/src-tauri/src/agents/project_agent.rs:345-354 | after a chat ends its messages and history are refused |
| Projects.Create | jarvis-app/src-tauri/src/projects/sqlite_store.rs:112-134 | creation fails, changing nothing, only when the new id is taken; otherwise the project is appended with the input's fields, status "active" and both timestamps the current time |
| Projects.CreateKeepsWellFormed | jarvis-app/src-tauri/src/projects/sqlite_store.rs:112-134 | creating a project keeps ids unique and every link pointing at a stored project and gem |
| Projects.Listing | jarvis-app/src-tauri/src/projects/sqlite_store.rs:149-158 | one preview per project, in order, carrying its gem count |
| Projects.List | jarvis-app/src-tauri/src/projects/sqlite_store.rs:136-164 | every project once, most recently updated first, each with the number of gems linked to it |
| Projects.ListShowsEveryProject | jarvis-app/src-tauri/src/projects/sqlite_store.rs:136-164 | the listing shows exactly the stored projects |
| Projects.Substr200 | jarvis-app/src-tauri/src/projects/sqlite_store.rs:194 | the preview is the content's first 200 characters with no mark of the cut, and equals the content exactly when it fits |
| Projects.ParseAiEnrichment | jarvis-app/src-tauri/src/projects/sqlite_store.rs:477-498 | absent or unparseable text gives nothing; tags are present exactly when "tags" is an array, and are its string elements; summary and source as the gem store reads them |
| Projects.TagsAgreeWithGemPreview | jarvis-app/src-tauri/src/projects/sqlite_store.rs:475-498 | where the gem store's preview has tags the project store's preview has the same ones, and the two agree on the enrichment source |
| Projects.GemPreview | jarvis-app/src-tauri/src/projects/sqlite_store.rs:202-220 | a linked gem's preview copies its columns, cuts the content to 200 characters, and takes tags, summary and source from the enrichment |
| Projects.ProjectLinks | jarvis-app/src-tauri/src/projects/sqlite_store.rs:196-199 | a project's links, all of them, most recently added first |
| Projects.RowsOf | jarvis-app/src-tauri/src/projects/sqlite_store.rs:196-198 | the join returns only stored gems and at most one per link |
| Projects.RowsOfAllPresent | jarvis-app/src-tauri/src/projects/sqlite_store.rs:196-199 | when every linked gem exists the join keeps the links' order, one row per link |
| Projects.LinkedRows | jarvis-app/src-tauri/src/projects/sqlite_store.rs:192-200 | the gems joined to a project are stored gems, no more than its links |
| Projects.GetProject | jarvis-app/src-tauri/src/projects/sqlite_store.rs:166-233 | a missing project is "Project not found"; otherwise the project with the previews of its linked gems, and a count equal to the number of gems returned |
| Projects.DetailCountMatchesList | jarvis-app/src-tauri/src/projects/sqlite_store.rs:166-233 | with the foreign keys in place the detail counts the same gems as the list and shows them in link order, latest first |
| Projects.NoLinksToMissing | jarvis-app/src-tauri/src/projects/sqlite_store.rs:144 | a project no stored project has the id of has no links |
| Projects.CreateThenGet | jarvis-app/src-tauri/src/projects/sqlite_store.rs:112-233 | a new project is found with no gems |
| Projects.Apply | jarvis-app/src-tauri/src/projects/sqlite_store.rs:242-265 | an update keeps id and creation time, stamps updated_at, and replaces exactly the fields given |
| Projects.Update | jarvis-app/src-tauri/src/projects/sqlite_store.rs:235-299 | a missing project is "Project not found" with nothing changed; otherwise that row gets the update and is returned |
| Projects.Start | jarvis-app/src-tauri/src/projects/sqlite_store.rs:242-244 | the statement starts with updated_at bound to the first placeholder |
| Projects.Push | jarvis-app/src-tauri/src/projects/sqlite_store.rs:246-265 | a present field takes the next placeholder and keeps the numbering straight; an absent one adds nothing |
| Projects.UpdateStatement | jarvis-app/src-tauri/src/projects/sqlite_store.rs:242-272 | the placeholders are numbered 1 onward in order, the current time binds the first and the id the last |
| Projects.PushExecutes | jarvis-app/src-tauri/src/projects/sqlite_store.rs:246-265 | one arm of the builder, run, sets its field exactly when the value is present |
| Projects.StatementApplies | jarvis-app/src-tauri/src/projects/sqlite_store.rs:242-276 | every placeholder has a bound value, and running the built statement on the row applies exactly the update, the id on the last placeholder |
| Projects.Delete | jarvis-app/src-tauri/src/projects/sqlite_store.rs:301-310 | deleting always succeeds; the project and its links go, every other project and link stays, and no gem is touched |
| Projects.Touch | jarvis-app/src-tauri/src/projects/sqlite_store.rs:329-333 | only updated_at of the matching project can change |
| Projects.AddEach | jarvis-app/src-tauri/src/projects/sqlite_store.rs:319-327 | links are only appended, each for this project at the current time; success counts the links inserted; a missing project or gem stops with the foreign-key error |
| Projects.AddEachLinksAll | jarvis-app/src-tauri/src/projects/sqlite_store.rs:319-327 | when the inserts succeed every gem asked for is linked |
| Projects.AddGems | jarvis-app/src-tauri/src/projects/sqlite_store.rs:312-336 | a success counts the links inserted, links every gem asked for, and moves the project's timestamp |
| Projects.AddEachLinkedNoop | jarvis-app/src-tauri/src/projects/sqlite_store.rs:321 | gems already linked insert nothing |
| Projects.AddGemsIdempotent | jarvis-app/src-tauri/src/projects/sqlite_store.rs:312-336 | re-adding the same gems counts zero and leaves the links as they are |
| Projects.RemoveGem | jarvis-app/src-tauri/src/projects/sqlite_store.rs:338-355 | removing always succeeds; the pair is unlinked, every other link stays, and gems are untouched |
| Projects.Hits | jarvis-app/src-tauri/src/projects/sqlite_store.rs:383-391 | full-text hits are stored gems linked to the project, no more than the index returned |
| Projects.GetProjectGems | jarvis-app/src-tauri/src/projects/sqlite_store.rs:357-442 | no query or a blank one lists the project's gems latest-added first; any other query returns only the project's gems; the limit, 100 by default, bounds the answer |
| Projects.BlankQueryIsNoQuery | jarvis-app/src-tauri/src/projects/sqlite_store.rs:366-380 | no query and a blank query are the same request |
| Projects.ProjectsOf | jarvis-app/src-tauri/src/projects/sqlite_store.rs:450-453 | exactly the projects linked to the gem |
| Projects.GetGemProjects | jarvis-app/src-tauri/src/projects/sqlite_store.rs:444-472 | only projects the gem is linked to, each with its own gem count, most recently updated first |
| Projects.SortedProjectsOf | jarvis-app/src-tauri/src/projects/sqlite_store.rs:454 | the gem's projects ordered by update time, latest first |
| Projects.GemProjectsComplete | jarvis-app/src-tauri/src/projects/sqlite_store.rs:444-472 | every project the gem is linked to is listed |
| Qmd.MinScore | jarvis-app/src-tauri/src/search/qmd_provider.rs:30-31 | the threshold is the accuracy percentage, capped at 100, as a fraction between 0 and 1 |
| Qmd.MinScoreExtremes | jarvis-app/src-tauri/src/search/qmd_provider.rs:31 | 100 percent or more admits only perfect scores, and 0 percent admits every clamped score |
| Qmd.Normalize | jarvis-app/src-tauri/src/search/qmd_provider.rs:418-421 | a clamped score lies in [0, 1] and a score already there is unchanged |
| Qmd.NormalizeMonotone | jarvis-app/src-tauri/src/search/qmd_provider.rs:418-421 | clamping keeps the order of scores and is idempotent |
| Qmd.TruncateQuery | jarvis-app/src-tauri/src/search/qmd_provider.rs:165-172 | a query of at most 200 bytes is passed as is; a longer one is cut to its 200-byte prefix |
| Qmd.AsciiQueryCut | jarvis-app/src-tauri/src/search/qmd_provider.rs:167-169 | a long ASCII query is cut to its first 200 characters |
| Qmd.SplitCharacterQueryPanics | jarvis-app/src-tauri/src/search/qmd_provider.rs:169 | a query whose 200th byte falls inside a two-byte character panics |
| Qmd.JsonSlice | jarvis-app/src-tauri/src/search/qmd_provider.rs:202-212 | the slice runs from the first '[' to the last ']', and there is none exactly when no ']' follows a '[' |
| Qmd.JsonSliceSkipsNoise | jarvis-app/src-tauri/src/search/qmd_provider.rs:202-212 | progress text before the array and trailing text after it are cut away |
| Qmd.GemIdOfUri | jarvis-app/src-tauri/src/search/qmd_provider.rs:397-412 | under the collection prefix the id is the non-empty first segment; otherwise the path's first component, absent only for the empty text |
| Qmd.CollectionUriGemId | jarvis-app/src-tauri/src/search/qmd_provider.rs:397-404 | a result file of the collection names its gem |
| Qmd.EmptySegmentNoGemId | jarvis-app/src-tauri/src/search/qmd_provider.rs:399-404 | an empty segment after the prefix gives no id and the path fallback is not tried |
| Qmd.PathGemId | jarvis-app/src-tauri/src/search/qmd_provider.rs:406-411 | a relative path outside the collection gives its first directory |
| Qmd.ToRaw | jarvis-app/src-tauri/src/search/qmd_provider.rs:228-246 | a result item's gem id comes from its file URI, with its score and snippet |
| Qmd.ToRaws | jarvis-app/src-tauri/src/search/qmd_provider.rs:225-246 | one raw result per item, in order |
| Qmd.Absorb | jarvis-app/src-tauri/src/search/qmd_provider.rs:250-253 | folding one result adds at most one entry |
| Qmd.Collect | jarvis-app/src-tauri/src/search/qmd_provider.rs:223-257 | there are never more entries than results |
| Qmd.CollectSummarizes | jarvis-app/src-tauri/src/search/qmd_provider.rs:221-257 | the fold leaves one entry per gem named by the results, each with the greatest score of its gem and the first snippet reaching it |
| Qmd.ToResult | jarvis-app/src-tauri/src/search/qmd_provider.rs:261-268 | an entry becomes a result with its gem, its snippet, its clamped score and the hybrid match type |
| Qmd.Qualifying | jarvis-app/src-tauri/src/search/qmd_provider.rs:269 | exactly the entries whose clamped score reaches the threshold |
| Qmd.TopEntries | jarvis-app/src-tauri/src/search/qmd_provider.rs:269-272 | at most the limit of qualifying entries, highest clamped score first, with distinct gems |
| Qmd.Results | jarvis-app/src-tauri/src/search/qmd_provider.rs:259-272 | at most the limit of results, in descending score order, each at or above the threshold, hybrid, from a distinct entry |
| Qmd.ResultsAreTheTop | jarvis-app/src-tauri/src/search/qmd_provider.rs:269-272 | a qualifying entry left out by the limit scores no higher than any returned result, and none is left out when few enough qualify |
| Qmd.EntryReportsBest | jarvis-app/src-tauri/src/search/qmd_provider.rs:250-265 | the entry of a gem, as a result, reports that gem's best score |
| Qmd.ResultsBestPerGem | jarvis-app/src-tauri/src/search/qmd_provider.rs:221-272 | each result is its gem's best: the gem was named by a result, no result of that gem scores higher once clamped, and a positive score carries a snippet reaching it |
| Qmd.ParseArray | jarvis-app/src-tauri/src/search/qmd_provider.rs:216-217 | the JSON slice gives items exactly when it parses as an array; any other outcome is the parse error |
| Qmd.OutputExcerpt | jarvis-app/src-tauri/src/search/qmd_provider.rs:200 | output of at most 500 bytes is logged whole; a longer one is cut to a prefix of it, or panics inside a character |
| Qmd.AsciiOutputLogged | jarvis-app/src-tauri/src/search/qmd_provider.rs:200 | ASCII output never makes the log cut panic, and the logged part is its first min(n, 500) characters |
| Qmd.SplitCharacterOutputPanics | jarvis-app/src-tauri/src/search/qmd_provider.rs:200 | output whose 500th byte falls inside a two-byte character makes the log cut panic |
| Qmd.SearchOutput | jarvis-app/src-tauri/src/search/qmd_provider.rs:189-275 | a panic exactly when a successful run's output is cut inside a character for the log; otherwise a failed spawn is an error, a non-zero exit or output without an array is an empty answer, and results are at most the limit, descending, above the threshold and one per gem |
| Qmd.Search | jarvis-app/src-tauri/src/search/qmd_provider.rs:164-276 | a panic exactly when the 200-byte query cut or the 500-byte log cut of a successful run's output falls inside a character; otherwise the capped query's run, asked for three times the limit, post-processed |
| Qmd.SplitOutputPanicsSearch | jarvis-app/src-tauri/src/search/qmd_provider.rs:196-200 | a short query whose successful run prints 499 ASCII bytes, 'é' and "[]" panics instead of answering with no results |
| Recording.Year | jarvis-app/src-tauri/src/recording.rs:118-119 | a year up to 9999 is written as exactly four digits that read back as the year; no year text holds '.', '/' or '\\' |
| Recording.IsRecording | jarvis-app/src-tauri/src/recording.rs:84-86 | in a consistent state the manager is recording exactly when it holds an output file, and the idle manager is not recording |
| Recording.StampedName | jarvis-app/src-tauri/src/recording.rs:114-123 | the file name ends in ".pcm" after at least one character and has no '/', '\\' or ".."; for a four-digit year it is 19 characters with '_' after the date |
| Recording.TimestampedPath | jarvis-app/src-tauri/src/recording.rs:114-123 | the path's file name is the timestamped name |
| Recording.StampedNameListedAndDeletable | jarvis-app/src-tauri/src/recording.rs:114-123 | a new recording's file has the "pcm" extension the listing keeps, and deleting it by name fails only on the disk checks, never on the name checks |
| Recording.StartRecording | jarvis-app/src-tauri/src/recording.rs:369-445 | refused while recording; any failure leaves the state unchanged and emits nothing; success exactly when router, sidecar command and spawn all succeed, and then it returns the timestamped file name, records child, path and router task, and emits recording-started with that name |
| Recording.StopRecording | jarvis-app/src-tauri/src/recording.rs:502-615 | every outcome leaves the manager not recording and emits nothing synchronously; without a child it fails with "No recording in progress"; it succeeds exactly when child and path were recorded and SIGTERM was delivered |
| Recording.StartThenStopIsIdle | jarvis-app/src-tauri/src/recording.rs:369-615 | a successful start followed by a successful stop returns the manager to idle |
| Recording.Classify | jarvis-app/src-tauri/src/recording.rs:237-272 | a line is a permission problem exactly when it starts "Error: " and mentions "permission" or "screen recording" in any case, or starts "Warning: " and mentions "permission denied"; it is a sidecar error exactly when it otherwise starts "Error: " |
| Recording.UnprefixedLinesOnlyLogged | jarvis-app/src-tauri/src/recording.rs:237-272 | a line with neither prefix is only logged, whatever it says |
| Recording.WarningsWithoutDenialLogged | jarvis-app/src-tauri/src/recording.rs:244-251 | a warning that does not say "permission denied" is only logged |
| Recording.OnStderr | jarvis-app/src-tauri/src/recording.rs:237-272 | a stderr line yields at most one event: permission-error or sidecar-error with the line, nothing when it is only logged |
| Recording.OnTerminated | jarvis-app/src-tauri/src/recording.rs:274-306 | a termination while no child is recorded changes nothing; otherwise child and path are cleared and exit code 0 emits recording-stopped while any other code emits sidecar-crashed |
| Recording.StopThenTerminateSilent | jarvis-app/src-tauri/src/recording.rs:274-306 | after a requested stop the sidecar's termination emits no event |
| SearchCommands.SearchGems | jarvis-app/src-tauri/src/search/commands.rs:14-119 | a blank query is the store's first page of the limit; otherwise the search fails exactly when the provider fails |
| SearchCommands.DefaultLimit | jarvis-app/src-tauri/src/search/commands.rs:20 | without a limit the search asks for twenty results |
| SearchCommands.ProviderHitsJoined | jarvis-app/src-tauri/src/search/commands.rs:47-118 | with a non-blank query and a working provider the search never fails: each result is a provider hit joined with its stored gem, in hit order, and when none remains the keyword search answers, its failure giving no results |
| SearchCommands.NoHitsMeansKeywordSearch | jarvis-app/src-tauri/src/search/commands.rs:92-115 | a provider that finds nothing leaves the answer to the keyword search, every result scoring 1.0 as a keyword match |
| SearchCommands.TavilyGemSearchIsKeyword | jarvis-app/src-tauri/src/search/commands.rs:92-115 | with the web-only provider active, gem search is the keyword search |
| SearchCommands.NodeMajor | jarvis-app/src-tauri/src/search/commands.rs:302-307 | the major version fits a u32 and is 0 when the text does not start with 'v' |
| SearchCommands.CheckNodeVersion | jarvis-app/src-tauri/src/search/commands.rs:289-317 | the version is accepted exactly when node ran successfully and its major version is at least 22; a failed run is "not found" and an older version is named as too old |
| SearchCommands.NodeVersionRule | jarvis-app/src-tauri/src/search/commands.rs:300-316 | "v" followed by a major version and "." is accepted exactly when the major version is at least 22 |
| SearchCommands.NodeMajorOf | jarvis-app/src-tauri/src/search/commands.rs:302-307 | the major version of "v<major>.<rest>" is that major version |
| SearchCommands.BareVersionRejected | jarvis-app/src-tauri/src/search/commands.rs:302-313 | a version without its leading 'v' is rejected as too old |
| SearchTypes.EnrichmentTags | jarvis-app/src-tauri/src/search/commands.rs:55-64 | tags are present exactly when the enrichment has a "tags" array, and then are its string elements, others skipped |
| SearchTypes.EnrichmentSummary | jarvis-app/src-tauri/src/search/commands.rs:66-70 | the summary is present exactly when the enrichment has a string "summary" |
| SearchTypes.Joined | jarvis-app/src-tauri/src/search/commands.rs:72-86 | a joined result keeps the hit's score, snippet and match type and takes id, title, source and enrichment from the gem |
| SearchTypes.FromPreview | jarvis-app/src-tauri/src/search/commands.rs:95-111 | a keyword result scores 1.0 with no snippet and the Keyword match type, and carries the preview's metadata |
| SearchTypes.FromPreviews | jarvis-app/src-tauri/src/search/commands.rs:27-44 | the previews become results one for one, in order |
| SearchTypes.JoinHits | jarvis-app/src-tauri/src/search/commands.rs:51-90 | joining never yields more results than there are hits |
| SearchTypes.JoinHitsMembers | jarvis-app/src-tauri/src/agents/project_agent.rs:185-216 | a result is in the join exactly when some hit's gem loads from the store and the result is that hit joined with it |
| SettingsManager.Validate | jarvis-app/src-tauri/src/settings/manager.rs:191-223 | settings pass exactly when the VAD threshold is in [0, 1], the whisper model is not blank, the window lasts 1 to 10 seconds and the engine is "whisper-rs" or "whisperkit"; the threshold check comes first with its own message, then the model name |
| SettingsManager.DefaultValid | jarvis-app/src-tauri/src/settings/manager.rs:47-76 | the default settings pass validation |
| SettingsManager.Encode | jarvis-app/src-tauri/src/settings/manager.rs:5-11 | settings are written as an object with exactly the keys "transcription" and "browser" |
| SettingsManager.EncodeTranscription | jarvis-app/src-tauri/src/settings/manager.rs:13-27 | the transcription object carries the whisper model under "whisper_model" |
| SettingsManager.Defaulted | jarvis-app/src-tauri/src/settings/manager.rs:21-26 | a field with a serde default takes the default when absent and must read correctly when present |
| SettingsManager.DecodeTranscription | jarvis-app/src-tauri/src/settings/manager.rs:13-45 | a decoded transcription section took its model from "whisper_model"; a missing "transcription_engine" gives "whisper-rs" |
| SettingsManager.DecodeBrowser | jarvis-app/src-tauri/src/settings/manager.rs:30-33 | a browser section decodes exactly when it is an object with a boolean "observer_enabled" |
| SettingsManager.Decode | jarvis-app/src-tauri/src/settings/manager.rs:5-11 | a decoded file had a "transcription" section; a missing "browser" section gives the default browser settings |
| SettingsManager.DecodeEncode | jarvis-app/src-tauri/src/settings/manager.rs:5-33 | whatever is written reads back as the same settings |
| SettingsManager.TranscriptionRoundTrip | jarvis-app/src-tauri/src/settings/manager.rs:13-27 | the transcription section reads back as written |
| SettingsManager.OldFileGetsDefaults | jarvis-app/src-tauri/src/settings/manager.rs:13-45 | a file written before the engine, WhisperKit model and window fields existed still loads, keeping its five fields and taking the defaults for the rest |
| SettingsManager.SaveToFile | jarvis-app/src-tauri/src/settings/manager.rs:250-264 | the file changes, to the rendered settings, exactly when both the temporary write and the rename succeed; otherwise it is untouched |
| SettingsManager.LoadFromFile | jarvis-app/src-tauri/src/settings/manager.rs:234-245 | loading fails exactly when the file cannot be read, with that error; text that is not JSON or not settings gives the defaults |
| SettingsManager.Update | jarvis-app/src-tauri/src/settings/manager.rs:169-181 | an update succeeds exactly when the settings validate and are saved, and only then replaces the in-memory copy; a failed update changes nothing |
| SettingsManager.UpdateThenLoad | jarvis-app/src-tauri/src/settings/manager.rs:169-264 | settings stored by a successful update load back unchanged |
| SettingsManager.NewWithPath | jarvis-app/src-tauri/src/settings/manager.rs:116-144 | a parent directory that cannot be made is an error; an existing file is loaded; otherwise the defaults are written and kept |
| SettingsManager.NewManagerSettings | jarvis-app/src-tauri/src/settings/manager.rs:116-144 | a new manager's settings are exactly what its file loads back as |
| Tabs.SourceTypeName | jarvis-app/src-tauri/src/browser/tabs.rs:8-21 | the debug name of a source kind, as stored on a gem, is at least two characters long |
| Tabs.SourceTypeNameInjective | jarvis-app/src-tauri/src/browser/tabs.rs:8-21 | distinct source kinds have distinct debug names, so the kind can be read back from a gem |
| Tabs.AfterScheme | jarvis-app/src-tauri/src/browser/tabs.rs:34-36 | the text after the first "://" is a prefix of what follows that marker; without a marker the whole URL is used |
| Tabs.Host | jarvis-app/src-tauri/src/browser/tabs.rs:37-42 | the host holds no '/' or ':' and starts the text after the scheme |
| Tabs.ExtractDomain | jarvis-app/src-tauri/src/browser/tabs.rs:32-56 | the domain holds no '/' or ':' and is the host with exactly one leading "www." removed when there is one |
| Tabs.DomainOfDomain | jarvis-app/src-tauri/src/browser/tabs.rs:32-56 | a bare domain without "www." is its own domain |
| Tabs.ExtractDomainIdempotent | jarvis-app/src-tauri/src/browser/tabs.rs:32-56 | extracting the domain of a domain changes nothing unless it still begins with "www." |
| Tabs.DomainOfUrl | jarvis-app/src-tauri/src/browser/tabs.rs:32-56 | for scheme://host followed by a path or port, the domain is the host less one leading "www." |
| Tabs.FirstHitSpec | jarvis-app/src-tauri/src/browser/tabs.rs:58-151 | a rule table read in order picks the first rule whose marker occurs in the domain, and Other exactly when none does |
| Tabs.ClassifyUrl | jarvis-app/src-tauri/src/browser/tabs.rs:58-151 | the kind of a URL is the first category in the source's order whose markers occur in its domain, and Other exactly when no category's does |
| Tabs.ClassifyShortLink | jarvis-app/src-tauri/src/browser/tabs.rs:63-66 | a youtu.be short link classifies as YouTube |
| Tabs.YouTubeFirst | jarvis-app/src-tauri/src/browser/tabs.rs:63-66 | a youtu.be domain classifies as YouTube before any other rule is consulted |
| Tabs.ListAllTabs | jarvis-app/src-tauri/src/browser/tabs.rs:155-179 | listing fails when Chrome is not running or the adapter fails; otherwise each listed tab keeps its URL and title, in order, with its kind and domain |
| TagList.DedupFrom | jarvis-app/src-tauri/src/intelligence/mlx_provider.rs:725-726 | de-duplication keeps only elements of the input, no two equal ignoring case, and every input element is represented by a kept one of the same lower-case form |
| TagList.DedupKeepsDistinct | jarvis-app/src-tauri/src/intelligence/intelligencekit_provider.rs:532-533 | a list without case-insensitive duplicates passes through unchanged |
| TagList.DedupKeepsFirst | jarvis-app/src-tauri/src/intelligence/mlx_provider.rs:725-726 | the first tag always survives de-duplication |
| TagList.DedupAppend | jarvis-app/src-tauri/src/intelligence/mlx_provider.rs:725-726 | de-duplicating two lists in a row is de-duplicating the first, then the second against everything the first has seen |
| TagList.DedupIsFirstOccurrences | jarvis-app/src-tauri/src/intelligence/mlx_provider.rs:725-726 | de-duplication keeps exactly the tags with no earlier tag equal ignoring case, in order |
| TagList.Take | jarvis-app/src-tauri/src/intelligence/intelligencekit_provider.rs:417 | at most n elements are kept, and they are the leading ones |
| TagList.MergeTags | jarvis-app/src-tauri/src/intelligence/mlx_provider.rs:724-733 | merging fails exactly when no chunk produced a tag; otherwise the result is the first five tags that are first of their kind ignoring case, in order |
| Tavily.Classify | jarvis-app/src-tauri/src/search/tavily_provider.rs:57-68 | compared in lower case, a video host wins over a paper host, which wins over an article host; Other when none occurs |
| Tavily.ClassifyIgnoresCase | jarvis-app/src-tauri/src/search/tavily_provider.rs:58 | classification ignores case |
| Tavily.VideoWins | jarvis-app/src-tauri/src/search/tavily_provider.rs:59-60 | a youtube.com link is a video even when it also mentions a paper site or a blog |
| Tavily.ExtractDomain | jarvis-app/src-tauri/src/search/tavily_provider.rs:71-79 | the domain holds no '/' and does not start with "www." |
| Tavily.DomainOfLink | jarvis-app/src-tauri/src/search/tavily_provider.rs:71-79 | the domain of an http or https link is its host without the "www." label |
| Tavily.CheckAvailability | jarvis-app/src-tauri/src/search/tavily_provider.rs:83-94 | the provider is available exactly when the API key is non-empty, and gives a reason exactly when it is not |
| Tavily.ToWebResult | jarvis-app/src-tauri/src/search/tavily_provider.rs:150-161 | an API result keeps its title, URL and content, with the URL's kind and domain |
| Tavily.WebSearch | jarvis-app/src-tauri/src/search/tavily_provider.rs:114-166 | results come back exactly when the response decodes, one per API result in order; transport, status and decode failures are errors |
| Tavily.AsProvider | jarvis-app/src-tauri/src/search/tavily_provider.rs:81-171 | the provider searches the web, finds no gems, treats index changes as successful no-ops, reindexes nothing, and is available exactly when the key is non-empty |
| Tavily.New | jarvis-app/src-tauri/src/search/tavily_provider.rs:20-27 | a panic exactly when the logged 8-byte cut of the key falls inside a character; otherwise a web-searching provider over the exchange, available exactly when the key is non-empty |
| Tavily.AsciiKeyAccepted | jarvis-app/src-tauri/src/search/tavily_provider.rs:22 | an ASCII key never makes construction panic |
| Tavily.SplitCharacterKeyPanics | jarvis-app/src-tauri/src/search/tavily_provider.rs:22 | a key whose 8th byte falls inside a two-byte character makes construction panic |
| Transcription.OverlapSymmetric | jarvis-app/src-tauri/src/transcription/provider.rs:36-38 | overlap is symmetric, and segments that only touch at an end point do not overlap |
| Transcription.SegmentsOverlap | jarvis-app/src-tauri/src/transcription/provider.rs:36-38 | segments that are apart or only touch do not overlap, and a segment starting inside a non-empty one overlaps it |
| Transcription.OverlapIffCommonInstant | jarvis-app/src-tauri/src/transcription/provider.rs:36-38 | two non-empty segments overlap exactly when some millisecond lies in both |
| Transcription.FromEnv | jarvis-app/src-tauri/src/transcription/provider.rs:66-87 | the default 3 s window and 0.5 s overlap; each model path from its environment variable or else a file under `~/.jarvis/models`; the thread count set exactly when its variable parses as a usize |
| Transcription.Validate | jarvis-app/src-tauri/src/transcription/provider.rs:89-106 | accepted exactly when the window is 2 to 30 seconds and the overlap shorter than it; a bad window is reported with its value |
| Transcription.DefaultsValid | jarvis-app/src-tauri/src/transcription/provider.rs:233-247 | the configuration read from any environment passes validation |
| Venv.RequirementsHash | jarvis-app/src-tauri/src/intelligence/venv_manager.rs:212-221 | the SHA-256 of the requirements file when it can be read, "unknown" otherwise |
| Venv.StatusOf | jarvis-app/src-tauri/src/intelligence/venv_manager.rs:80-98 | the environment is not created exactly when the marker is missing or unreadable, and ready exactly when the trimmed marker equals the current requirements hash |
| Venv.ResolvePythonPath | jarvis-app/src-tauri/src/intelligence/venv_manager.rs:101-119 | the environment's python3 is used exactly when the environment is ready and that interpreter exists; otherwise the configured base interpreter |
| Venv.ExecError | jarvis-app/src-tauri/src/intelligence/venv_manager.rs:135-147 | a command run succeeds exactly when it starts and exits successfully; a start failure and a failed exit carry their own prefixes and messages |
| Venv.PhaseError | jarvis-app/src-tauri/src/intelligence/venv_manager.rs:129-187 | set-up has no phase error exactly when the parent directory is made and venv creation, pip install and validation all succeed |
| Venv.SetupAsWritten | jarvis-app/src-tauri/src/intelligence/venv_manager.rs:123-199 | a failed phase or marker write leaves the disk as it was with that error; otherwise the environment is installed and marked with the hash, and the run panics exactly when that hash is shorter than 16 bytes |
| Venv.UnknownHashPanics | jarvis-app/src-tauri/src/intelligence/venv_manager.rs:189-195 | with an unreadable requirements file every phase can succeed and set-up still panics, leaving a marker reading "unknown" |
| Venv.ReadableRequirementsDoNotPanic | jarvis-app/src-tauri/src/intelligence/venv_manager.rs:189-195 | a readable requirements file, whose hash is 64 hex digits, never reaches the panic |
| Venv.Setup | jarvis-app/src-tauri/src/intelligence/venv_manager.rs:123-199 | never panics; it finishes exactly when every phase and the marker write do, and then the environment is installed and marked; a failure changes nothing |
| Venv.SetupMakesReady | jarvis-app/src-tauri/src/intelligence/venv_manager.rs:80-119 | after a finished set-up the status is ready and the sidecar interpreter is the environment's python3 |
| Venv.HashTrimmed | jarvis-app/src-tauri/src/intelligence/venv_manager.rs:90 | the stored hash has no surrounding white space, so the trimmed marker reads back as written |
| Venv.Reset | jarvis-app/src-tauri/src/intelligence/venv_manager.rs:202-209 | no directory means nothing to do; a failed removal is "Failed to remove venv: ..."; after a removal the status is not created whatever the requirements hash |
| Wav.Layout | jarvis-app/src-tauri/src/wav.rs:128-175 | the 44 header bytes: "RIFF", "WAVE", "fmt " and "data" at offsets 0, 8, 12 and 36, each numeric field little-endian at the offset the header layout gives it |
| Wav.LayoutRoundTrip | jarvis-app/src-tauri/src/wav.rs:101-175 | reading back a written header gives the same fields |
| Wav.ParseHeader | jarvis-app/src-tauri/src/wav.rs:128-175 | a header is read only from at least 44 bytes, and the fields read fit their widths |
| Wav.ParsedIsLayout | jarvis-app/src-tauri/src/wav.rs:101-175 | every header that reads as 16-bit mono PCM is exactly the one written from its fields, so the layout is the only encoding |
| Wav.CreateHeader | jarvis-app/src-tauri/src/wav.rs:128-175 | the header for n bytes of audio reads as RIFF size n + 36, 16000 Hz, 32000 bytes a second and data size n |
| Wav.FromPcmBytes | jarvis-app/src-tauri/src/wav.rs:79-99 | fails exactly when the payload is longer than u32::MAX - 36 bytes, with the size in the message; otherwise the file is 44 header bytes followed by the unchanged payload, and its header describes that payload |
| Wav.PayloadRoundTrip | jarvis-app/src-tauri/src/wav.rs:79-99 | splitting a converted file at its header gives back the audio, and the header's data size is the payload length |
| Wav.PcmToWav | jarvis-app/src-tauri/src/wav.rs:45-51 | a read failure becomes "Failed to read PCM file <path>: <error>"; read bytes are converted as from_pcm_bytes does |
| WhisperModels.OnDisk | jarvis-app/src-tauri/src/settings/model_manager.rs:120-132 | a model file counts as downloaded exactly when it exists and its metadata reads, sized by it; an unreadable one is an error naming the failure; a missing one is not downloaded |
| WhisperModels.ListModels | jarvis-app/src-tauri/src/settings/model_manager.rs:101-142 | one entry per supported file name in order, with the status the queue and the file under the models directory give it |
| WhisperModels.ValidateGgml | jarvis-app/src-tauri/src/settings/model_manager.rs:156-187 | a file passes exactly when its metadata reads, it is at least 1 MiB, it opens, and its first four bytes read little-endian as the GGML magic number; a small file is rejected with its size |
| WhisperModels.MagicBytes | jarvis-app/src-tauri/src/settings/model_manager.rs:52-53 | the magic number 0x67676d6c is matched exactly by the leading bytes "lmgg" |
| WhisperModels.DownloadUrl | jarvis-app/src-tauri/src/settings/model_manager.rs:190-192 | the address is the Hugging Face base, a '/', and the file name, nothing else |
| WhisperModels.StartDownload | jarvis-app/src-tauri/src/settings/model_manager.rs:206-227 | an unsupported name is "Unsupported model: <name>"; a start succeeds exactly for a supported name not already queued, which is then listed as downloading at 0 |
| WhisperModels.Stream | jarvis-app/src-tauri/src/settings/model_manager.rs:318-361 | the body loop succeeds exactly when no chunk is cancelled, unreadable or unwritable; a cancellation seen first gives "Download cancelled" |
| WhisperModels.Task | jarvis-app/src-tauri/src/settings/model_manager.rs:277-386 | a download succeeds exactly when the request, status, file creation, body, flush, GGML check and rename all do; a file failing the check gives "Invalid GGML file: " and the check's reason |
| WhisperModels.Complete | jarvis-app/src-tauri/src/settings/model_manager.rs:246-265 | the model leaves the queue; success clears its error and every failure is recorded |
| WhisperModels.CancelledDownloadIsAnError | jarvis-app/src-tauri/src/settings/model_manager.rs:246-265 | a download the user cancels is listed afterwards as failed with "Download cancelled" |
| WhisperModels.CancelDownload | jarvis-app/src-tauri/src/settings/model_manager.rs:393-410 | cancelling succeeds exactly for a queued model, which leaves the queue with the errors untouched |
| WhisperModels.DeleteModel | jarvis-app/src-tauri/src/settings/model_manager.rs:419-434 | deleting a file that is not there is "Model <name> is not downloaded"; a deletion clears its error and leaves the queue alone |
| WhisperKit.FindCli | jarvis-app/src-tauri/src/transcription/whisperkit_provider.rs:81-108 | the first Homebrew location that exists wins, then the trimmed non-empty output of `which`; nothing is found exactly when both paths are missing and `which` gives nothing usable |
| WhisperKit.IsMacos14OrLater | jarvis-app/src-tauri/src/transcription/whisperkit_provider.rs:116-140 | an OS other than macOS or a failed sw_vers never passes |
| WhisperKit.MajorVersionDecides | jarvis-app/src-tauri/src/transcription/whisperkit_provider.rs:116-140 | on macOS only the major number before the first '.' of the trimmed version decides: it passes exactly when it parses as a u32 of at least 14 |
| WhisperKit.Macos14Accepted | jarvis-app/src-tauri/src/transcription/whisperkit_provider.rs:116-140 | version 14.2.1 passes |
| WhisperKit.Macos13Refused | jarvis-app/src-tauri/src/transcription/whisperkit_provider.rs:116-140 | version 13.6 does not pass |
| WhisperKit.CheckAvailability | jarvis-app/src-tauri/src/transcription/whisperkit_provider.rs:62-78 | a non-aarch64 machine is refused first, then a macOS older than 14; the provider is available exactly on Apple Silicon with macOS 14+ and a found CLI, and then it records that CLI path |
| WhisperKit.UnavailableHasReason | jarvis-app/src-tauri/src/transcription/whisperkit_provider.rs:62-78 | an unavailable provider always carries a non-empty reason, and an available one none |
| WhisperKit.New | jarvis-app/src-tauri/src/transcription/whisperkit_provider.rs:47-59 | a new provider has no server, port or client, and takes its availability and reason from the probe |
| WhisperKit.StartServer | jarvis-app/src-tauri/src/transcription/whisperkit_provider.rs:252-286 | a successful start records a port and a client and marks the server running |
| WhisperKit.Initialize | jarvis-app/src-tauri/src/transcription/whisperkit_provider.rs:402-433 | an unavailable provider fails with its reason (or "unknown reason"); success leaves a client and a port |
| WhisperKit.ModelPath | jarvis-app/src-tauri/src/transcription/whisperkit_provider.rs:412-416 | the model's directory lies under the home directory and ends with the model's name |
| WhisperKit.UnhealthyServerKeepsClient | jarvis-app/src-tauri/src/transcription/whisperkit_provider.rs:296-331 | a server that never passes its health check fails initialisation but leaves client and port set, so a later transcription is not refused as uninitialised |
| WhisperKit.AudioToWav | jarvis-app/src-tauri/src/transcription/whisperkit_provider.rs:173-232 | the body is a 44-byte header with its sizes in wrapping u32 arithmetic followed by each sample as two little-endian bytes |
| WhisperKit.WrappedFields | jarvis-app/src-tauri/src/transcription/whisperkit_provider.rs:196-216 | the wrapped header fields always fit in u32 and agree with the canonical header whenever nothing overflows |
| WhisperKit.AudioToWavHeader | jarvis-app/src-tauri/src/transcription/whisperkit_provider.rs:173-232 | below the u32 limits the body's header reads back with data size 2 × samples and byte rate 2 × rate |
| WhisperKit.WavSamplesRoundTrip | jarvis-app/src-tauri/src/transcription/whisperkit_provider.rs:173-232 | decoding the payload of the WAV body gives back the samples it was built from |
| WhisperKit.Transcribe | jarvis-app/src-tauri/src/transcription/whisperkit_provider.rs:435-493 | refuses without a client, then without a port; on success returns one segment per returned segment with its text and times, all marked final |
| WhisperKit.NewProviderNotInitialized | jarvis-app/src-tauri/src/transcription/whisperkit_provider.rs:435-440 | a freshly created provider refuses to transcribe with the not-initialised message |
| YouTube.MatchAt | jarvis-app/src-tauri/src/browser/youtube.rs:64-72 | a pattern can match only where its leading character stands |
| YouTube.Matches | jarvis-app/src-tauri/src/browser/youtube.rs:69-72 | the candidate captures at every position of the text, end included |
| YouTube.FirstSome | jarvis-app/src-tauri/src/browser/youtube.rs:69-72 | the first capture present, and none exactly when no position captures |
| YouTube.Captures | jarvis-app/src-tauri/src/browser/youtube.rs:69-72 | the reported capture comes from some match, and there is none exactly when the pattern matches nowhere |
| YouTube.LeftmostAt | jarvis-app/src-tauri/src/browser/youtube.rs:69-72 | the match at a position is the one reported when nothing matches before it |
| YouTube.IdAt | jarvis-app/src-tauri/src/browser/youtube.rs:66 | an id group is eleven id characters found at that position of the URL, and there is none exactly when those eleven characters are not all id characters |
| YouTube.ParamId | jarvis-app/src-tauri/src/browser/youtube.rs:66 | the greedy repetition takes the id from the latest v= parameter followed by an id, and none when no parameter qualifies |
| YouTube.VideoIdAt | jarvis-app/src-tauri/src/browser/youtube.rs:66 | a match starts at a watch or short-link marker and captures a valid id found in the URL |
| YouTube.ExtractVideoId | jarvis-app/src-tauri/src/browser/youtube.rs:64-74 | an extracted id is an eleven-character id found in the URL; failure names the URL |
| YouTube.NoYouTubeMarkerNoId | jarvis-app/src-tauri/src/browser/youtube.rs:64-74 | a URL naming neither form is refused |
| YouTube.ShortLinkId | jarvis-app/src-tauri/src/browser/youtube.rs:64-74 | a short link gives the id that follows it |
| YouTube.WatchUrlId | jarvis-app/src-tauri/src/browser/youtube.rs:64-74 | a watch URL whose v parameter comes first, with no later "&v=", gives that parameter's id |
| YouTube.NoLaterIdParam | jarvis-app/src-tauri/src/browser/youtube.rs:66 | no id parameter follows a query that starts with v= and an id and has no "&v=" |
| YouTube.TitleAt | jarvis-app/src-tauri/src/browser/youtube.rs:79 | a title match is non-empty text without '<' between the opening and closing tags |
| YouTube.TitleAtOf | jarvis-app/src-tauri/src/browser/youtube.rs:79 | conversely, a title element with non-empty, '<'-free text matches where it starts |
| YouTube.StripYouTube | jarvis-app/src-tauri/src/browser/youtube.rs:88 | the " - YouTube" suffix is removed once when present and the title kept otherwise |
| YouTube.ExtractTitle | jarvis-app/src-tauri/src/browser/youtube.rs:77-91 | a page with no title element gives "Unknown" |
| YouTube.TitleFromFirstElement | jarvis-app/src-tauri/src/browser/youtube.rs:77-91 | the first title element gives the title without the site's suffix |
| YouTube.TitleSuffixStripped | jarvis-app/src-tauri/src/browser/youtube.rs:88 | a title with the suffix added comes back without it |
| YouTube.CloseFromSpec | jarvis-app/src-tauri/src/browser/youtube.rs:104-128 | the brace-counting loop stops at the first character that closes the object, and finds none exactly when none does |
| YouTube.ClosingEnd | jarvis-app/src-tauri/src/browser/youtube.rs:104-132 | the number of characters up to and including the first brace that closes the object, and none when it never closes |
| YouTube.AfterMarker | jarvis-app/src-tauri/src/browser/youtube.rs:95-101 | the text after the first marker, and the missing-marker error exactly when there is no marker |
| YouTube.ExtractPlayerResponse | jarvis-app/src-tauri/src/browser/youtube.rs:94-135 | the player response is the prefix of the text after the marker that ends at the first closing brace; missing marker and unclosed object give their errors |
| YouTube.ExtractPlayerResponseAsWritten | jarvis-app/src-tauri/src/browser/youtube.rs:94-135 | errors are those of the character-counted reading; a panic happens only where that reading succeeds; a returned text is a prefix of the text after the marker whose byte length is the character length of the object |
| YouTube.AsciiResponsesAgree | jarvis-app/src-tauri/src/browser/youtube.rs:109-134 | on ASCII pages the character-counted loop and the byte-counted slice agree |
| YouTube.NonAsciiResponseTruncated | jarvis-app/src-tauri/src/browser/youtube.rs:109-134 | with one two-byte character in the object the byte slice stops before the closing brace, so the returned text is not the object |
| YouTube.RunEnd | jarvis-app/src-tauri/src/browser/youtube.rs:140-153 | the greedy string-body run ends within the text, at a quote or a backslash when it stops early |
| YouTube.FieldAt | jarvis-app/src-tauri/src/browser/youtube.rs:140-153 | a field match is the key, the captured value and a closing quote |
| YouTube.Unescaped | jarvis-app/src-tauri/src/browser/youtube.rs:186-199 | a known escape decodes to one character; any other is kept with its backslash |
| YouTube.UnescapeJson | jarvis-app/src-tauri/src/browser/youtube.rs:179-211 | unescaping never lengthens the text |
| YouTube.UnescapeWithoutBackslash | jarvis-app/src-tauri/src/browser/youtube.rs:179-211 | text without a backslash comes back unchanged |
| YouTube.EscapeChar | jarvis-app/src-tauri/src/browser/youtube.rs:186-199 | JSON escaping writes each character as itself or as an escape that unescaping maps back to it |
| YouTube.UnescapeEscape | jarvis-app/src-tauri/src/browser/youtube.rs:179-211 | unescaping undoes JSON's escaping of any text |
| YouTube.RunOverEscaped | jarvis-app/src-tauri/src/browser/youtube.rs:140-153 | the string-body run reads over exactly the escaped value |
| YouTube.ExtractChannel | jarvis-app/src-tauri/src/browser/youtube.rs:138-148 | a response with no channel field gives "Unknown" |
| YouTube.ExtractDescription | jarvis-app/src-tauri/src/browser/youtube.rs:151-161 | a response with no description field gives the empty text |
| YouTube.FieldAtEscaped | jarvis-app/src-tauri/src/browser/youtube.rs:140-153 | the field pattern at the key captures the escaped value up to its closing quote |
| YouTube.FieldCapture | jarvis-app/src-tauri/src/browser/youtube.rs:140-159 | a field written by a JSON encoder with no quote before it is the leftmost match and captures the escaped value |
| YouTube.FieldRoundTrip | jarvis-app/src-tauri/src/browser/youtube.rs:138-161 | channel and description fields read back as the values they were written from |
| YouTube.DigitRunEnd | jarvis-app/src-tauri/src/browser/youtube.rs:166 | the longest run of digits from a position |
| YouTube.DurationAt | jarvis-app/src-tauri/src/browser/youtube.rs:166 | a duration match is the key followed by a non-empty digit run |
| YouTube.ExtractDuration | jarvis-app/src-tauri/src/browser/youtube.rs:164-174 | the duration fits a u32 and is 0 when the field is missing |
| YouTube.DurationRoundTrip | jarvis-app/src-tauri/src/browser/youtube.rs:164-174 | a duration written in decimal reads back when it fits a u32, and reads as 0 otherwise |
| YouTube.DurationCaptured | jarvis-app/src-tauri/src/browser/youtube.rs:166-172 | the duration pattern captures the digits after the first key |
| YouTube.ScrapeGist | jarvis-app/src-tauri/src/browser/youtube.rs:22-61 | a fetch failure wins over a bad URL, which wins over a missing player response; a gist keeps the URL and carries a valid id, the page's title, and the channel, description and u32 duration read from the player response (taken with the corrected reader, see Left out) |

## Left out

### Numbers, text and time

- Floating point: `f32`/`f64` values (scores, progress, samples after conversion) are reals. Rounding is not modelled.
- Integer widths: `u32` counters and sizes are `nat` wherever the source cannot reach their limit. The `u32` parse of a Node.js major version is bounded explicitly.
- Case folding: `to_lowercase` and Python's `lower()` are modelled on ASCII letters only. Unicode case mapping is left out.
- Tavily.Classify: lower-cases ASCII only, for the same reason.
- Character classes: `char::is_alphanumeric` is a parameter of the model. It needs the Unicode tables, which Dafny does not have.
- Digits: `\d` in the regular expressions is taken as ASCII digits; Rust's `\d` also matches other Unicode digits.
- Lossy decoding: `String::from_utf8_lossy` is modelled only on valid UTF-8. Process output is taken as already-decoded text.
- Text caps: the 50,000 cap on a Claude conversation's text (claude_extension.rs) counts UTF-8 bytes, and so does the model. The 50,000 caps of gmail.rs and chatgpt.rs sit in the injected JavaScript and count UTF-16 units; that script's answer is an input of the model, so those caps are not modelled.
- Clocks: the current time is an input (timestamps are `nat` seconds or the text the source would print). The one `chrono` parse and format of a date, in Medium's published date, is modelled.
- Size formatting: megabyte formatting for error messages is a parameter.

### Libraries, I/O and concurrency

- JSON: parsing and printing are parameters (a parser oracle and a printer). Serde error texts are an opaque `mismatch` message.
- Hashing: SHA-256 is a parameter.
- Effects: the file system, processes, HTTP, AppleScript, JavaScript in browser tabs, the macOS accessibility API and `sw_vers` are inputs of the operations that use them.
- Logging: `eprintln!` lines, the application log of logging.rs and Co-Pilot's session log are not modelled. The byte slices taken only for a log line are modelled where they can panic (the QMD output cut, the Tavily key cut and the others under "Panics" below). The chat session logs are: a failed header write refuses the session, and a failed append makes the send return its error, under the prefix of the step that failed, while the exchange stays in the history.
- Concurrency: tokio tasks, mutexes, lock poisoning, cancellation tokens and the observer's background loop are left out. Each operation is modelled as one atomic step on its state.
- Events: Tauri events (`emit`) and the progress poller of LLM downloads are left out.
- HashMap order: where the source iterates a `HashMap`, the model uses order of first appearance.
- SQL: the gem and project stores are sequences of rows. Ties in `ORDER BY` keep insertion order. SQLite's own tie order is unspecified.

### Operations not modelled

- Constructors and lookups: `new` constructors, `name`, `is_running`, and IntelligenceKit `resolve_binary_path` and `shutdown`.
- WhisperKit: `stop_server` and `find_available_port`. The port is an input.
- MLX sidecar: `apply_runtime_patches` in server.py monkey-patches libraries.
- LLM model manager: `resolve_sidecar_path`, `calculate_dir_size` and `parse_size_estimate` are inputs.
- MLX downloads: the sidecar's `download_model` defines a progress callback but never passes it. The model emits exactly one line, success or failure.
- AudioBuffer: `push_f32` is not modelled (samples arrive as `i16`).
- Co-Pilot: its log-file functions, the 120-second timeout and the temporary audio file are left out.
- Gem store: `filter_by_tag` is not modelled, and errors of `get` are a parameter's answer.
- Observer: `poll_chrome_url` is the observer's `Poll` input.
- Search commands: `check_search_availability`, `setup_semantic_search`, `rebuild_search_index`, the SQLite and QMD install checks, `create_qmd_collection`, `run_qmd_index`, `warm_up` and `patch_qmd_rerank` are left out. They are sequences of process runs.
- QMD provider: `check_availability`, `index_gem`, `remove_gem`, `reindex_all`, `find_qmd_binary` and `setup` are spawned command-line runs and are not modelled.
- Other search providers: search/composite_provider.rs and search/fts_provider.rs are not part of this model.
- Intelligence settings: the `Settings` of settings/manager.rs has only `transcription` and `browser`, although settings/mod.rs:7 re-exports an `IntelligenceSettings` (and `CoPilotSettings`, `SearchSettings`) that manager.rs does not define. IntelligenceChain therefore reads its own settings record.
- LLM downloads: the catalog's directory names are not stated as a lemma. Splitting the literal repository ids was too costly to prove.

### Modelling choices

- Panics: a panic inside the source (a byte slice inside a character, or `&hash[..16]` on a short hash) is a `None` result or a dedicated outcome. It is not an abort.
- Knowledge files: the round trips of assembler and migration hold only for tags and summaries without line breaks or surrounding whitespace, which is what the parser needs.
- Migration: a marker file that cannot be read is treated as empty text, which is how the source's `unwrap_or_default` reads it.
- Web results: the research agent sorts its web results by URL and `dedup_by` keeps the first of each URL (project_agent.rs). Which result with a given URL comes first depends on the sort, and the model's sort is stable, as Rust's `sort_by` is.
- Transcripts: fields the source leaves unset are `None`.
- Chat context: the chat `get_context` answer is a parameter.
- Research agent: the project store, the LLM, the search provider and the gem lookup are parameters.
- Recording: the session directory is a parameter.
- Tag parsing: `_parse_tags` in server.py strips every leading and trailing bracket, not one pair, and the model follows the code.
- YouTube.ScrapeGist: reads the player response with the corrected `YouTube.ExtractPlayerResponse`, not the byte-slicing reader youtube.rs:46 calls. A player response with non-ASCII text before its closing brace gives the full object here, where the source truncates it or panics (the Findings row; `YouTube.ExtractPlayerResponseAsWritten` models the code as written).
- Extractors.PrepareGist: its YouTube arm goes through `YouTube.ScrapeGist` and so uses the same corrected reader; it is never a panic.
- Tavily.DomainOfLink: proved only for hosts without ':'. A host with a port is left out because of the scheme-stripping step.
- Qmd.PathGemId: covers relative paths only. Absolute paths give the root component "/", as stated on `Qmd.GemIdOfUri`.

## Findings

| source | as written | input that shows it | evidently intended | confidence | as-written member | corrected member |
|---|---|---|---|---|---|---|
| jarvis-app/src-tauri/src/intelligence/llm_model_manager.rs:195-237 | the model id is put in the download queue before the sidecar path is resolved and the downloads directory created; either failure returns early and leaves the entry | a catalogued model whose sidecar script is missing | a start that fails removes its queue entry, so the download can be retried | not executed | LlmModels.FailedStartStaysQueued | LlmModels.FailedStartRetryable |
| jarvis-app/src-tauri/src/intelligence/venv_manager.rs:189-221 | the completion log slices `&hash[..16]`, but the hash is "unknown" (7 bytes) when the requirements file cannot be read | a successful install whose requirements file is unreadable | setup completes whatever the hash text is | not executed | Venv.UnknownHashPanics | Venv.SetupMakesReady |
| jarvis-app/src-tauri/src/browser/youtube.rs:109-134 | the end of the player response is counted in characters (`chars().enumerate()`) but used as a byte offset | the marker followed by `{é}` gives `{é` | the slice ends after the closing brace | not executed | YouTube.NonAsciiResponseTruncated | YouTube.AsciiResponsesAgree |
| jarvis-app/src-tauri/src/commands.rs:1767-1771 | the gist file name is cut with `&safe_name[..80]`, a byte slice that may fall inside a character | a title of 79 'a' followed by 'é' | the name is cut at the last character boundary within 80 bytes | not executed | Commands.AccentedTitlePanics | Commands.AccentedTitleCut |
