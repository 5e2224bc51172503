/** The application commands that carry logic of their own: turning a page
    gist into a gem, AI enrichment of gems, the WAV export's name checks,
    exporting a gist to a Markdown file, and switching the browser
    observer with its setting.

    The new gem's id and the clocks are parameters; so are the
    intelligence provider's answers and the file system's. */
module Commands {
  import opened Wrappers
  import opened Text
  import opened Json
  import Utf8
  import Paths
  import Tabs
  import Files
  import Wav
  import IntelProvider
  import Observer
  import SettingsManager
  import opened Gist
  import opened Gems

  // ---------------------------------------------------------------------
  // Page gist to gem
  // ---------------------------------------------------------------------

  /** `extra` with the publication date and image URL set when present;
      an `extra` that is not an object is replaced by an object holding
      only those two. */
  function SourceMeta(extra: Json, publishedDate: Option<string>, imageUrl: Option<string>): (r: Json)
    ensures r.Obj?
    ensures "published_date" in r.fields <==> publishedDate.Some? || (extra.Obj? && "published_date" in extra.fields)
    ensures publishedDate.Some? ==> r.fields["published_date"] == Str(publishedDate.value)
    ensures "image_url" in r.fields <==> imageUrl.Some? || (extra.Obj? && "image_url" in extra.fields)
    ensures imageUrl.Some? ==> r.fields["image_url"] == Str(imageUrl.value)
    ensures extra.Obj? ==> forall k :: k in extra.fields && k !in {"published_date", "image_url"} ==>
      k in r.fields && r.fields[k] == extra.fields[k]
    ensures !extra.Obj? ==> r.fields.Keys <= {"published_date", "image_url"}
  {
    var base: map<string, Json> := if extra.Obj? then extra.fields else map[];
    var m1 := if publishedDate.Some? then base["published_date" := Str(publishedDate.value)] else base;
    var m2 := if imageUrl.Some? then m1["image_url" := Str(imageUrl.value)] else m1;
    Obj(m2)
  }

  /** `page_gist_to_gem`: the gist's fields copied over, no enrichment
      yet; `id` is the new UUID and `capturedAt` the current time. */
  function PageGistToGem(g: PageGist, id: string, capturedAt: string): (r: Gem)
    ensures r.id == id && r.capturedAt == capturedAt
    ensures r.sourceType == Tabs.SourceTypeName(g.sourceType)
    ensures r.sourceUrl == g.url && r.domain == g.domain && r.title == g.title
    ensures r.author == g.author && r.description == g.description && r.content == g.contentExcerpt
    ensures r.sourceMeta == SourceMeta(g.extra, g.publishedDate, g.imageUrl)
    ensures r.aiEnrichment.None? && r.transcript.None? && r.transcriptLanguage.None?
  {
    Gem(id, Tabs.SourceTypeName(g.sourceType), g.url, g.domain, g.title, g.author, g.description,
      g.contentExcerpt, SourceMeta(g.extra, g.publishedDate, g.imageUrl), capturedAt, None, None, None)
  }

  /** The gem remembers the kind of source: its type name reads back as
      the gist's source type. */
  lemma {:induction false} GemKeepsSourceType(g: PageGist, id: string, capturedAt: string, t: Tabs.SourceType)
    requires PageGistToGem(g, id, capturedAt).sourceType == Tabs.SourceTypeName(t)
    ensures t == g.sourceType
  {
    Tabs.SourceTypeNameInjective(t, g.sourceType);
  }

  // ---------------------------------------------------------------------
  // AI enrichment
  // ---------------------------------------------------------------------

  /** The intelligence provider as the commands use it. */
  datatype Intel = Intel(
    availability: IntelProvider.Availability,
    generateTags: string -> Result<seq<string>>,
    summarize: string -> Result<string>)

  const PROVIDER_NAME: string := "intelligencekit"

  /** `enrich_content`: tags first, then the summary; either error is
      returned as is. */
  function EnrichContent(p: Intel, content: string, now: string): (r: Result<Json>)
    ensures r.Ok? <==> p.generateTags(content).Ok? && p.summarize(content).Ok?
    ensures p.generateTags(content).Err? ==> r == Err(p.generateTags(content).error)
    ensures p.generateTags(content).Ok? && p.summarize(content).Err? ==> r == Err(p.summarize(content).error)
    ensures r.Ok? ==> r.value.Obj? && r.value.fields.Keys == {"tags", "summary", "provider", "enriched_at"}
    ensures r.Ok? ==> AsStringArray(r.value.fields["tags"]) == Some(p.generateTags(content).value)
    ensures r.Ok? ==> GetStr(r.value, "summary") == Some(p.summarize(content).value)
    ensures r.Ok? ==> GetStr(r.value, "provider") == Some(PROVIDER_NAME)
    ensures r.Ok? ==> GetStr(r.value, "enriched_at") == Some(now)
  {
    var tags :- p.generateTags(content);
    var summary :- p.summarize(content);
    StrArrayRoundTrip(tags);
    Ok(Obj(map[
      "tags" := StrArray(tags),
      "summary" := Str(summary),
      "provider" := Str(PROVIDER_NAME),
      "enriched_at" := Str(now)]))
  }

  /** The text a gem is enriched from: its content if it has any, else its
      description, and nothing when that choice is blank. Blank content
      does not fall back to the description. */
  function TextToEnrich(g: Gem): (r: Option<string>)
    ensures r.Some? ==> !IsBlank(r.value)
    ensures g.content.Some? ==> (r.Some? <==> !IsBlank(g.content.value)) && (r.Some? ==> r.value == g.content.value)
    ensures g.content.None? ==> (r.Some? <==> g.description.Some? && !IsBlank(g.description.value))
    ensures g.content.None? && r.Some? ==> r.value == g.description.value
  {
    var chosen := g.content.Or(g.description);
    if chosen.Some? && !IsBlank(chosen.value) then chosen else None
  }

  /** `save_gem`: the new gem is enriched when the provider is available
      and there is text to enrich; a failed enrichment is dropped, never
      fatal. The gem is then saved to the store. */
  function SaveGem(t: seq<Gem>, gist: PageGist, id: string, capturedAt: string, p: Intel, now: string): (r: (Result<Gem>, seq<Gem>))
    ensures var g := PageGistToGem(gist, id, capturedAt);
      r == Save(t, g.(aiEnrichment := Enrichment(g, p, now)))
  {
    var g := PageGistToGem(gist, id, capturedAt);
    Save(t, g.(aiEnrichment := Enrichment(g, p, now)))
  }

  /** The enrichment `save_gem` attaches: present exactly when the
      provider is available, there is text, and both calls succeed. */
  function Enrichment(g: Gem, p: Intel, now: string): (r: Option<Json>)
    ensures r.Some? <==> p.availability.available && TextToEnrich(g).Some?
                         && EnrichContent(p, TextToEnrich(g).value, now).Ok?
    ensures r.Some? ==> r == Some(EnrichContent(p, TextToEnrich(g).value, now).value)
  {
    if !p.availability.available then None
    else match TextToEnrich(g)
      case None => None
      case Some(text) => EnrichContent(p, text, now).ToOption()
  }

  /** An enrichment failure never stops the save: whatever the provider
      does, the gem is saved exactly as it would be without enrichment,
      apart from the enrichment itself. */
  lemma {:induction false} EnrichmentNeverBlocksSave(t: seq<Gem>, gist: PageGist, id: string, capturedAt: string, p: Intel, q: Intel, now: string)
    ensures (SaveGem(t, gist, id, capturedAt, p, now).0.Ok? <==> SaveGem(t, gist, id, capturedAt, q, now).0.Ok?)
    ensures SaveGem(t, gist, id, capturedAt, p, now).0.Err? ==>
      SaveGem(t, gist, id, capturedAt, p, now).1 == t
  {
  }

  const UNKNOWN_REASON: string := "Unknown reason"
  const NO_TEXT: string := "Gem has no content or description to enrich"

  /** `enrich_gem`: refused when the provider is unavailable, then when
      the gem is missing, then when it has no text; the enrichment's error
      is returned; otherwise the enriched gem is saved. */
  function EnrichGem(t: seq<Gem>, id: string, p: Intel, now: string): (r: (Result<Gem>, seq<Gem>))
    ensures !p.availability.available ==>
      r == (Err("AI enrichment not available: " + p.availability.reason.GetOr(UNKNOWN_REASON)), t)
    ensures p.availability.available && GetById(t, id).None? ==>
      r == (Err("Gem with id '" + id + "' not found"), t)
    ensures p.availability.available && GetById(t, id).Some? && TextToEnrich(GetById(t, id).value).None? ==>
      r == (Err(NO_TEXT), t)
    ensures r.0.Ok? ==> p.availability.available && GetById(t, id).Some? && TextToEnrich(GetById(t, id).value).Some?
    ensures r.0.Ok? ==> EnrichContent(p, TextToEnrich(GetById(t, id).value).value, now).Ok?
    ensures r.0.Ok? ==> r.0.value.aiEnrichment == Some(EnrichContent(p, TextToEnrich(GetById(t, id).value).value, now).value)
  {
    if !p.availability.available then
      (Err("AI enrichment not available: " + p.availability.reason.GetOr(UNKNOWN_REASON)), t)
    else match GetById(t, id)
      case None => (Err("Gem with id '" + id + "' not found"), t)
      case Some(g) =>
        match TextToEnrich(g)
        case None => (Err(NO_TEXT), t)
        case Some(text) =>
          match EnrichContent(p, text, now)
          case Err(e) => (Err(e), t)
          case Ok(e) => EnrichSaved(t, g, e)
  }

  /** Saving a stored gem again with new enrichment updates its own row
      and keeps everything else about it. */
  function EnrichSaved(t: seq<Gem>, g: Gem, e: Json): (r: (Result<Gem>, seq<Gem>))
    requires g in t
    ensures r.0.Ok? && r.0.value.aiEnrichment == Some(e)
    ensures |r.1| == |t|
  {
    var g' := g.(aiEnrichment := Some(e));
    var i := IndexOfUrl(t, g.sourceUrl);
    assert i.Some? by { UrlIndexed(t, g); }
    Save(t, g')
  }

  /** A gem in the table is found by its URL. */
  lemma {:induction false} UrlIndexed(t: seq<Gem>, g: Gem)
    requires g in t
    ensures IndexOfUrl(t, g.sourceUrl).Some?
  {
  }

  // ---------------------------------------------------------------------
  // WAV conversion
  // ---------------------------------------------------------------------

  /** `convert_to_wav`: the recording's name is checked before the file
      system is asked whether it exists; then the PCM file is read and
      wrapped in a WAV header. */
  function ConvertToWav(dir: string, name: string, present: string -> bool, read: string -> Result<seq<Utf8.byte>>): (r: Result<seq<Utf8.byte>>)
    ensures name == [] ==> r == Err("Filename cannot be empty")
    ensures name != [] && Files.Traverses(name) ==>
      r == Err("Invalid filename '" + name + "': path traversal not allowed")
    ensures name != [] && !Files.Traverses(name) && !present(Paths.Join(dir, name)) ==>
      r == Err("Recording '" + name + "' not found in recordings directory")
    ensures r.Ok? ==> name != [] && !Files.Traverses(name) && present(Paths.Join(dir, name))
    ensures r.Ok? ==> read(Paths.Join(dir, name)).Ok? && r == Wav.FromPcmBytes(read(Paths.Join(dir, name)).value)
  {
    if name == [] then Err("Filename cannot be empty")
    else if '/' in name || '\\' in name || Contains(name, "..") then
      Err("Invalid filename '" + name + "': path traversal not allowed")
    else
      var path := Paths.Join(dir, name);
      if !present(path) then Err("Recording '" + name + "' not found in recordings directory")
      else Wav.PcmToWav(read(path), Paths.Debug(path))
  }

  /** A refused name gets the same answer whatever is on disk. */
  lemma {:induction false} ConvertRejectsBeforeDisk(dir: string, name: string, present: string -> bool, read: string -> Result<seq<Utf8.byte>>,
                                 present': string -> bool, read': string -> Result<seq<Utf8.byte>>)
    requires name == [] || Files.Traverses(name)
    ensures ConvertToWav(dir, name, present, read) == ConvertToWav(dir, name, present', read')
    ensures ConvertToWav(dir, name, present, read).Err?
  {
  }

  // ---------------------------------------------------------------------
  // Gist export
  // ---------------------------------------------------------------------

  const MAX_NAME_BYTES: nat := 80

  /** A character allowed in a file name: a letter or digit in the sense
      of `char::is_alphanumeric` (the Unicode Alphabetic and Numeric
      properties, given by `alphanumeric`), or '-'. */
  predicate Allowed(c: char, alphanumeric: char -> bool) {
    alphanumeric(c) || c == '-'
  }

  /** Every disallowed character becomes '-'. */
  function Sanitize(title: string, alphanumeric: char -> bool): (r: string)
    ensures |r| == |title|
    ensures forall i :: 0 <= i < |r| ==> Allowed(r[i], alphanumeric)
    ensures forall i :: 0 <= i < |r| && Allowed(title[i], alphanumeric) ==> r[i] == title[i]
  {
    seq(|title|, i requires 0 <= i < |title| => if Allowed(title[i], alphanumeric) then title[i] else '-')
  }

  /** The longest run of whole characters at the front of `s` that fits in
      `n` bytes of UTF-8: a cut that never splits a character. */
  function FitBytes(s: string, n: nat): (r: string)
    ensures |r| <= |s| && r == s[..|r|]
    ensures Utf8.ByteLen(r) <= n
    ensures |r| < |s| ==> Utf8.ByteLen(s[..|r| + 1]) > n
    decreases |s|
  {
    if |s| == 0 then []
    else
      var w := |Utf8.EncodeChar(s[0])|;
      Utf8.ByteLenCons(s[0], []);
      assert s[..1] == [s[0]] + [];
      if w > n then []
      else
        var rest := FitBytes(s[1..], n - w);
        Utf8.ByteLenCons(s[0], rest);
        assert s[..|rest| + 1] == [s[0]] + rest;
        if |rest| < |s| - 1 then
          assert s[..|rest| + 2] == [s[0]] + s[1..][..|rest| + 1];
          Utf8.ByteLenCons(s[0], s[1..][..|rest| + 1]);
          [s[0]] + rest
        else
          [s[0]] + rest
  }

  /** A string that already fits is kept whole. */
  lemma {:induction false} FitBytesWhole(s: string, n: nat)
    requires Utf8.ByteLen(s) <= n
    ensures FitBytes(s, n) == s
    decreases |s|
  {
    if |s| > 0 {
      assert s == [s[0]] + s[1..];
      Utf8.ByteLenCons(s[0], s[1..]);
      FitBytesWhole(s[1..], n - |Utf8.EncodeChar(s[0])|);
    }
  }

  /** Wherever Rust's byte slice `&s[..n]` succeeds, the boundary-safe cut
      gives the same text. */
  lemma {:induction false} FitBytesAgrees(s: string, n: nat)
    requires Utf8.BytePrefix(s, n).Some?
    ensures FitBytes(s, n) == Utf8.BytePrefix(s, n).value
    decreases |s|
  {
    if n > 0 && |s| > 0 {
      FitBytesAgrees(s[1..], n - |Utf8.EncodeChar(s[0])|);
    }
  }

  /** The dashes-trimmed sanitized title. */
  function Trimmed(title: string, alphanumeric: char -> bool): (r: string)
    ensures forall i :: 0 <= i < |r| ==> Allowed(r[i], alphanumeric)
    ensures r == [] || (r[0] != '-' && r[|r| - 1] != '-')
  {
    var s := Sanitize(title, alphanumeric);
    StripBySlice(s, InSet({'-'}));
    StripChars(s, {'-'})
  }

  /** The file-name part made from a title: allowed characters only, no
      leading or trailing dash, at most 80 bytes, cut only between
      characters and as late as that allows. */
  function SafeName(title: string, alphanumeric: char -> bool): (r: string)
    ensures forall i :: 0 <= i < |r| ==> Allowed(r[i], alphanumeric)
    ensures r == [] || r[0] != '-'
    ensures Utf8.ByteLen(r) <= MAX_NAME_BYTES
    ensures var t := Trimmed(title, alphanumeric);
      |r| <= |t| && r == t[..|r|] && (|r| < |t| ==> Utf8.ByteLen(t[..|r| + 1]) > MAX_NAME_BYTES)
  {
    FitBytes(Trimmed(title, alphanumeric), MAX_NAME_BYTES)
  }

  /** The cut as written: `&safe[..80]`, which panics (`None`) when byte 80
      falls inside a character. */
  function SafeNameAsWritten(title: string, alphanumeric: char -> bool): (r: Option<string>)
    ensures Utf8.ByteLen(Trimmed(title, alphanumeric)) <= MAX_NAME_BYTES ==> r == Some(Trimmed(title, alphanumeric))
    ensures r.Some? ==> r.value == SafeName(title, alphanumeric)
  {
    var t := Trimmed(title, alphanumeric);
    if Utf8.ByteLen(t) > MAX_NAME_BYTES then
      var p := Utf8.BytePrefix(t, MAX_NAME_BYTES);
      if p.Some? then FitBytesAgrees(t, MAX_NAME_BYTES); p else None
    else
      FitBytesWhole(t, MAX_NAME_BYTES);
      Some(t)
  }

  /** A title of 79 'a's and an 'é' (itself alphanumeric) is 81 bytes, and
      byte 80 falls inside the 'é': the command as written panics. */
  lemma {:induction false} AccentedTitlePanics(alphanumeric: char -> bool)
    requires alphanumeric('a') && alphanumeric('\U{E9}')
    ensures SafeNameAsWritten(seq(79, _ => 'a') + "\U{E9}", alphanumeric).None?
  {
    var a := seq(79, _ => 'a');
    var title := a + "\U{E9}";
    var s := Sanitize(title, alphanumeric);
    assert s == title;
    assert title[0] == 'a' && title[|title| - 1] == '\U{E9}';
    TrimmedIdentity(title, alphanumeric);
    Utf8.EncodeAscii(a);
    assert |Utf8.EncodeChar('\U{E9}')| == 2;
    assert title == a + ['\U{E9}'] + [];
    Utf8.EncodeAppend(a, ['\U{E9}']);
    Utf8.ByteLenCons('\U{E9}', []);
    Utf8.BytePrefixInsideChar(a, '\U{E9}', [], MAX_NAME_BYTES);
  }

  /** The same title after the correction: the 'é' is left out and the
      name is the 79 'a's. */
  lemma {:induction false} AccentedTitleCut(alphanumeric: char -> bool)
    requires alphanumeric('a') && alphanumeric('\U{E9}')
    ensures SafeName(seq(79, _ => 'a') + "\U{E9}", alphanumeric) == seq(79, _ => 'a')
  {
    var a := seq(79, _ => 'a');
    var title := a + "\U{E9}";
    assert Sanitize(title, alphanumeric) == title;
    TrimmedIdentity(title, alphanumeric);
    Utf8.EncodeAscii(a);
    Utf8.EncodeAppend(a, ['\U{E9}']);
    var r := SafeName(title, alphanumeric);
    assert Utf8.ByteLen(title) == 81;
    if |r| < 79 {
      assert title[..|r| + 1] == a[..|r| + 1];
      Utf8.EncodeAscii(a[..|r| + 1]);
    }
    assert title[..|title|] == title;
    assert |r| != 80;
  }

  /** A title that is already a name keeps it: allowed characters, no
      dash at either end. */
  lemma {:induction false} TrimmedIdentity(title: string, alphanumeric: char -> bool)
    requires forall i :: 0 <= i < |title| ==> Allowed(title[i], alphanumeric)
    requires title == [] || (title[0] != '-' && title[|title| - 1] != '-')
    ensures Trimmed(title, alphanumeric) == title
  {
    assert Sanitize(title, alphanumeric) == title;
  }

  /** A title that is already a short name is its own name. */
  lemma {:induction false} NameKept(title: string, alphanumeric: char -> bool)
    requires forall i :: 0 <= i < |title| ==> Allowed(title[i], alphanumeric)
    requires title == [] || (title[0] != '-' && title[|title| - 1] != '-')
    requires Utf8.ByteLen(title) <= MAX_NAME_BYTES
    ensures SafeName(title, alphanumeric) == title
  {
    TrimmedIdentity(title, alphanumeric);
    FitBytesWhole(title, MAX_NAME_BYTES);
  }

  /** The gist's file: `<timestamp>-<name>.md`. */
  function GistFileName(timestamp: string, name: string): (r: string)
    ensures StartsWith(r, timestamp + "-") && EndsWith(r, ".md")
  {
    timestamp + "-" + name + ".md"
  }

  /** What the file system does for the export. */
  datatype ExportIo = ExportIo(home: Option<string>, mkdir: Result<()>, write: Result<()>)

  function GistsDir(home: string): string {
    Paths.Join(Paths.Join(home, ".jarvis"), "gists")
  }

  /** `export_gist` with a boundary-safe cut: the gists directory is
      created, the content written to the named file, and its path
      returned. `timestamp` is the local time as `%Y%m%d-%H%M%S`. */
  function ExportGist(title: string, content: string, timestamp: string, alphanumeric: char -> bool, io: ExportIo): (r: Result<string>)
    ensures io.home.None? ==> r == Err("Could not find home directory")
    ensures io.home.Some? && io.mkdir.Err? ==> r == Err("Failed to create gists directory: " + io.mkdir.error)
    ensures r.Ok? <==> io.home.Some? && io.mkdir.Ok? && io.write.Ok?
    ensures r.Ok? ==> r.value == Paths.Join(GistsDir(io.home.value), GistFileName(timestamp, SafeName(title, alphanumeric)))
  {
    var home :- (if io.home.None? then Err("Could not find home directory") else Ok(io.home.value));
    var dir := GistsDir(home);
    var _ :- (if io.mkdir.Err? then Err("Failed to create gists directory: " + io.mkdir.error) else Ok(()));
    var path := Paths.Join(dir, GistFileName(timestamp, SafeName(title, alphanumeric)));
    if io.write.Err? then Err("Failed to write gist file: " + io.write.error) else Ok(path)
  }

  /** `export_gist` as written: `None` where the name cut panics. */
  function ExportGistAsWritten(title: string, content: string, timestamp: string, alphanumeric: char -> bool, io: ExportIo): (r: Option<Result<string>>)
    ensures r.Some? ==> r.value == ExportGist(title, content, timestamp, alphanumeric, io)
    ensures io.home.Some? && io.mkdir.Ok? ==> (r.None? <==> SafeNameAsWritten(title, alphanumeric).None?)
  {
    if io.home.None? || io.mkdir.Err? then Some(ExportGist(title, content, timestamp, alphanumeric, io))
    else match SafeNameAsWritten(title, alphanumeric)
      case None => None
      case Some(_) => Some(ExportGist(title, content, timestamp, alphanumeric, io))
  }

  // ---------------------------------------------------------------------
  // Browser settings
  // ---------------------------------------------------------------------

  /** `update_browser_settings`: the setting is stored through the
      settings manager first; only then is the observer started (when
      enabled and stopped) or stopped (when disabled and running). */
  function UpdateBrowserSettings(m: SettingsManager.Manager, o: Observer.BrowserObserver, enabled: bool,
                                 show: real -> string, render: Json -> string, io: SettingsManager.Writes)
    : (r: (Result<()>, SettingsManager.Manager, Observer.BrowserObserver))
    ensures var s := m.current.(browser := SettingsManager.BrowserSettings(enabled));
      var u := SettingsManager.Update(m, s, show, render, io);
      && r.1 == u.1
      && (u.0.Err? ==> r.0 == u.0 && r.2 == o)
      && (u.0.Ok? ==> r.0.Ok? && r.2.isRunning == enabled)
      && (u.0.Ok? && enabled && !o.isRunning ==> Observer.Start(o) == Ok(r.2))
      && (u.0.Ok? && !enabled && o.isRunning ==> Observer.Stop(o) == Ok(r.2))
      && (u.0.Ok? && enabled == o.isRunning ==> r.2 == o)
  {
    var s := m.current.(browser := SettingsManager.BrowserSettings(enabled));
    var (saved, m') := SettingsManager.Update(m, s, show, render, io);
    if saved.Err? then (saved, m', o)
    else if enabled && !o.isRunning then (Ok(()), m', Observer.Start(o).value)
    else if !enabled && o.isRunning then (Ok(()), m', Observer.Stop(o).value)
    else (Ok(()), m', o)
  }

  /** The setting and the observer agree after a successful update, and
      the observer stays consistent. */
  lemma {:induction false} BrowserSettingFollowed(m: SettingsManager.Manager, o: Observer.BrowserObserver, enabled: bool,
                               show: real -> string, render: Json -> string, io: SettingsManager.Writes)
    requires Observer.Consistent(o)
    requires UpdateBrowserSettings(m, o, enabled, show, render, io).0.Ok?
    ensures var r := UpdateBrowserSettings(m, o, enabled, show, render, io);
      r.1.current.browser.observerEnabled == enabled && r.2.isRunning == enabled && Observer.Consistent(r.2)
  {
  }
}
