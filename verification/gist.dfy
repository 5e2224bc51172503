/** `PageGist`: the one record every page extractor returns, and what the
    DOM-based extractors share. */
module Gist {
  import opened Wrappers
  import opened Text
  import Json
  import Tabs

  datatype PageGist = PageGist(
    url: string,
    title: string,
    sourceType: Tabs.SourceType,
    domain: string,
    author: Option<string>,
    description: Option<string>,
    contentExcerpt: Option<string>,
    publishedDate: Option<string>,
    imageUrl: Option<string>,
    /** Source-specific fields. */
    extra: Json.Json)

  /** `format!("{} {}{}", n, noun, if n == 1 { "" } else { "s" })`:
      "1 email", "3 emails". */
  function CountPhrase(n: nat, noun: string): (r: string)
    ensures StartsWith(r, NatToString(n))
  {
    NatToString(n) + " " + noun + (if n == 1 then "" else "s")
  }

  /** The count reads back from the front of the phrase, the noun follows
      a space, and a plural 's' is added exactly when the count is not one. */
  lemma {:induction false} CountPhraseReadsBack(n: nat, noun: string)
    ensures var r := CountPhrase(n, noun); var d := |NatToString(n)|;
      && d + 1 + |noun| <= |r|
      && AllDigits(r[..d]) && DigitsValue(r[..d]) == n
      && r[d] == ' ' && r[d + 1..d + 1 + |noun|] == noun
      && (|r| == d + 1 + |noun| <==> n == 1)
  {
    var r := CountPhrase(n, noun);
    var d := |NatToString(n)|;
    assert r[..d] == NatToString(n);
    NatToStringRoundTrip(n);
  }

  /** `Option<String>::filter(|s| !s.is_empty())`: an empty string counts
      as absent. */
  function NonEmptyOr(s: Option<string>, fallback: string): (r: string)
    ensures s.Some? && s.value != [] ==> r == s.value
    ensures s.None? || s.value == [] ==> r == fallback
  {
    if s.Some? && s.value != [] then s.value else fallback
  }

  /** The text of a DOM record, `None` when absent or empty. */
  function TextOrNone(s: Option<string>): (r: Option<string>)
    ensures r.None? <==> s.None? || s.value == []
    ensures r.Some? ==> r == s
  {
    if s.Some? && s.value != [] then s else None
  }

  /** Running the page's JavaScript and reading its JSON into the record
      `D`: the script's error as is, a decoding error under `prefix`. */
  function ReadDom<D>(js: Result<string>, decode: string -> Result<D>, prefix: string): (r: Result<D>)
    ensures js.Err? ==> r == Err(js.error)
    ensures js.Ok? && decode(Trim(js.value)).Err? ==> r == Err(prefix + decode(Trim(js.value)).error)
    ensures js.Ok? && decode(Trim(js.value)).Ok? ==> r == decode(Trim(js.value))
  {
    var text :- js;
    match decode(Trim(text))
    case Err(e) => Err(prefix + e)
    case Ok(d) => Ok(d)
  }
}
