/** The Medium extractor: the reading time found in the article text, the
    publication date made readable, and the gist built from the record the
    page script returns. The script runs in the browser and is not
    modelled; its JSON output arrives as text and is read by `decode`. */
module Medium {
  import opened Wrappers
  import opened Text
  import Json
  import Tabs
  import opened Gist

  // ---------------------------------------------------------------------
  // Reading time: the first match of (\d+)\s*min(?:ute)?s?\s*read
  // ---------------------------------------------------------------------

  /** The digits of a match of the reading-time pattern starting at `k`.
      Each part of the pattern is greedy and no shorter choice can let the
      rest match (the character after a digit run, a space run, "ute" or
      "s" never starts what follows), so one left-to-right pass decides. */
  function ReadingAt(s: string, k: nat): (r: Option<string>)
    ensures r.Some? ==> k < |s| && r.value != [] && AllDigits(r.value) && StartsWith(s[k..], r.value)
  {
    if k >= |s| || !IsAsciiDigit(s[k]) then None
    else
      var e := SpanEnd(s, k, IsAsciiDigit);
      if UnitThenRead(s, e) then Some(s[k..e]) else None
  }

  /** The rest of the pattern, \s*min(?:ute)?s?\s*read, matches at `i`. */
  predicate UnitThenRead(s: string, i: nat)
    requires i <= |s|
  {
    var e2 := SpanEnd(s, i, IsWhitespace);
    At(s, e2, "min") &&
      var j1 := if At(s, e2 + 3, "ute") then e2 + 6 else e2 + 3;
      var j2 := if j1 < |s| && s[j1] == 's' then j1 + 1 else j1;
      At(s, SpanEnd(s, j2, IsWhitespace), "read")
  }

  /** Where the leftmost match starts, searching from `k`. */
  function FirstReading(s: string, k: nat): (r: Option<nat>)
    requires k <= |s|
    ensures r.Some? ==> (k <= r.value < |s| && ReadingAt(s, r.value).Some?
      && forall j :: k <= j < r.value ==> ReadingAt(s, j).None?)
    ensures r.None? ==> forall j :: k <= j ==> ReadingAt(s, j).None?
    decreases |s| - k
  {
    if k == |s| then None
    else if ReadingAt(s, k).Some? then Some(k)
    else FirstReading(s, k + 1)
  }

  const U32_LIMIT: nat := 0x1_0000_0000

  /** `extract_reading_time`: the number in the leftmost match, `None` when
      there is no match or the number does not fit in a `u32`. */
  function ReadingTime(text: string): (r: Option<nat>)
    ensures r.Some? ==> r.value < U32_LIMIT
    ensures (forall j :: ReadingAt(text, j).None?) ==> r.None?
  {
    match FirstReading(text, 0)
    case None => None
    case Some(k) => ParseUnsigned(ReadingAt(text, k).value, U32_LIMIT)
  }

  /** A run of `p` that ends where `p` first fails is what `SpanEnd` finds. */
  lemma {:induction false} SpanEndIs(s: string, i: nat, p: char -> bool, e: nat)
    requires i <= e <= |s|
    requires forall k :: i <= k < e ==> p(s[k])
    requires e < |s| ==> !p(s[e])
    ensures SpanEnd(s, i, p) == e
  {
  }

  /** " min read" is the rest of the pattern. */
  lemma {:induction false} MinRead(s: string, i: nat)
    requires At(s, i, " min read")
    ensures UnitThenRead(s, i)
  {
    var w := s[i..i + 9];
    assert w == " min read";
    assert w[0] == ' ' && w[1] == 'm' && w[2] == 'i' && w[3] == 'n' && w[4] == ' '
      && w[5] == 'r' && w[6] == 'e' && w[7] == 'a' && w[8] == 'd';
    SpanEndIs(s, i, IsWhitespace, i + 1);
    assert s[i + 1..i + 4] == [w[1], w[2], w[3]] == "min";
    assert !At(s, i + 4, "ute") by { assert s[i + 4] == w[4]; }
    SpanEndIs(s, i + 4, IsWhitespace, i + 5);
    assert s[i + 5..i + 9] == [w[5], w[6], w[7], w[8]] == "read";
  }

  /** Digits followed by " min read" match where the digits start. */
  lemma {:induction false} MatchAtDigits(s: string, k: nat, d: string)
    requires d != [] && AllDigits(d)
    requires At(s, k, d + " min read")
    ensures ReadingAt(s, k) == Some(d)
  {
    var e := k + |d|;
    assert s[k..e + 9] == d + " min read";
    assert s[k..e] == d by { assert s[k..e] == s[k..e + 9][..|d|]; }
    assert At(s, e, " min read") by { assert s[e..e + 9] == s[k..e + 9][|d|..]; }
    assert s[k] == d[0];
    forall i | k <= i < e ensures IsAsciiDigit(s[i]) {
      assert s[i] == d[i - k];
    }
    assert s[e] == ' ';
    SpanEndIs(s, k, IsAsciiDigit, e);
    MinRead(s, e);
  }

  /** "<n> min read" after text without digits gives `n`. */
  lemma {:induction false} ReadingTimeOf(pre: string, n: nat, post: string)
    requires forall i :: 0 <= i < |pre| ==> !IsAsciiDigit(pre[i])
    requires n < U32_LIMIT
    ensures ReadingTime(pre + NatToString(n) + " min read" + post) == Some(n)
  {
    var d := NatToString(n);
    var s := pre + d + " min read" + post;
    var k := |pre|;
    assert s == pre + (d + " min read") + post;
    assert At(s, k, d + " min read") by {
      assert s[k..k + |d| + 9] == d + " min read";
    }
    forall j | 0 <= j < k ensures ReadingAt(s, j).None? {
      assert s[j] == pre[j];
    }
    MatchAtDigits(s, k, d);
    assert FirstReading(s, 0) == Some(k);
    NatToStringRoundTrip(n);
  }

  /** Text without any ASCII digit has no reading time. */
  lemma {:induction false} NoDigitsNoReadingTime(text: string)
    requires forall i :: 0 <= i < |text| ==> !IsAsciiDigit(text[i])
    ensures ReadingTime(text).None?
  {
  }

  // ---------------------------------------------------------------------
  // Publication date: "%Y-%m-%d" read the way chrono reads it, written
  // back as "%B %d, %Y"
  // ---------------------------------------------------------------------

  datatype Date = Date(year: int, month: nat, day: nat)

  const MIN_YEAR: int := -262143
  const MAX_YEAR: int := 262142

  predicate IsLeap(y: int) {
    y % 4 == 0 && (y % 100 != 0 || y % 400 == 0)
  }

  function DaysIn(y: int, m: nat): (n: nat)
    requires 1 <= m <= 12
    ensures 28 <= n <= 31
  {
    if m == 2 then (if IsLeap(y) then 29 else 28)
    else if m == 4 || m == 6 || m == 9 || m == 11 then 30
    else 31
  }

  /** A day of the proleptic Gregorian calendar chrono can represent. */
  predicate ValidDate(d: Date) {
    MIN_YEAR <= d.year <= MAX_YEAR && 1 <= d.month <= 12 && 1 <= d.day <= DaysIn(d.year, d.month)
  }

  /** The number of ASCII digits from `i` on, at most `most`. */
  function DigitCount(s: string, i: nat, most: nat): (n: nat)
    requires i <= |s|
    ensures n <= most && i + n <= |s|
    ensures forall k :: i <= k < i + n ==> IsAsciiDigit(s[k])
    ensures n < most && i + n < |s| ==> !IsAsciiDigit(s[i + n])
    decreases most
  {
    if most == 0 || i == |s| || !IsAsciiDigit(s[i]) then 0
    else 1 + DigitCount(s, i + 1, most - 1)
  }

  /** A number field: leading white space skipped, then one to `most`
      digits, as many as there are. Its value and where it ends. */
  function ScanNumber(s: string, i: nat, most: nat): (r: Option<(nat, nat)>)
    requires i <= |s|
    ensures r.Some? ==> i < r.value.1 <= |s|
  {
    var j := SpanEnd(s, i, IsWhitespace);
    var n := DigitCount(s, j, most);
    if n == 0 then None else Some((DigitsValue(s[j..j + n]), j + n))
  }

  /** The year field: leading white space skipped; an explicit sign must be
      followed at once by digits, any number of them; otherwise at most
      four digits are read. */
  function ScanYear(s: string, i: nat): (r: Option<(int, nat)>)
    requires i <= |s|
    ensures r.Some? ==> i < r.value.1 <= |s|
  {
    var j := SpanEnd(s, i, IsWhitespace);
    if j < |s| && (s[j] == '-' || s[j] == '+') then
      var n := DigitCount(s, j + 1, |s|);
      if n == 0 then None
      else
        var v := DigitsValue(s[j + 1..j + 1 + n]);
        var y: int := if s[j] == '-' then -(v as int) else v as int;
        Some((y, j + 1 + n))
    else
      match ScanNumber(s, j, 4)
      case None => None
      case Some((v, e)) => Some((v, e))
  }

  /** `NaiveDate::parse_from_str(s, "%Y-%m-%d")`: the three fields with a
      '-' after the first two, nothing left over, and a real day. */
  function ParseYmd(s: string): (r: Option<Date>)
    ensures r.Some? ==> ValidDate(r.value)
  {
    match ScanYear(s, 0)
    case None => None
    case Some((y, a)) =>
      if !(a < |s| && s[a] == '-') then None
      else match ScanNumber(s, a + 1, 2)
        case None => None
        case Some((m, b)) =>
          if !(b < |s| && s[b] == '-') then None
          else match ScanNumber(s, b + 1, 2)
            case None => None
            case Some((d, c)) =>
              if c == |s| && ValidDate(Date(y, m, d)) then Some(Date(y, m, d)) else None
  }

  /** White space between the sign and the digits of a year is not read:
      such a date is kept as written. */
  lemma {:induction false} SpaceAfterSignKept()
    ensures ParseYmd("- 1-01-01").None?
    ensures ReformatDate("- 1-01-01") == "- 1-01-01"
  {
    var s := "- 1-01-01";
    assert SpanEnd(s, 0, IsWhitespace) == 0 by { assert !IsWhitespace(s[0]); }
    assert DigitCount(s, 1, |s|) == 0 by { assert !IsAsciiDigit(s[1]); }
    assert DatePart(s) == s by { FirstPieceWhole(s, 'T'); }
  }

  const MONTHS: seq<string> := [
    "January", "February", "March", "April", "May", "June",
    "July", "August", "September", "October", "November", "December"]

  /** `n` in decimal, zero-padded to at least `w` digits. */
  function Pad(n: nat, w: nat): (r: string)
    ensures AllDigits(r) && |r| >= w
  {
    var d := NatToString(n);
    if |d| >= w then d else seq(w - |d|, _ => '0') + d
  }

  /** `%Y`: four digits for years 0 to 9999, otherwise an explicit sign. */
  function YearText(y: int): (r: string)
    ensures 0 <= y < 10000 ==> AllDigits(r)
    ensures !(0 <= y < 10000) ==> |r| > 0 && (r[0] == '+' || r[0] == '-')
  {
    if 0 <= y < 10000 then Pad(y, 4)
    else (if y < 0 then "-" else "+") + Pad(if y < 0 then -y else y, 4)
  }

  /** `format("%B %d, %Y")`: "March 05, 2024". */
  function FormatDate(d: Date): (r: string)
    requires 1 <= d.month <= 12
    ensures StartsWith(r, MONTHS[d.month - 1] + " ")
  {
    MONTHS[d.month - 1] + " " + Pad(d.day, 2) + ", " + YearText(d.year)
  }

  /** The date part of a timestamp: the text before the first 'T'. */
  function DatePart(s: string): (r: string)
    ensures StartsWith(s, r) && 'T' !in r
  {
    FirstPieceWithoutT(s);
    FirstPiece(s, "T")
  }

  lemma {:induction false} FirstPieceWithoutT(s: string)
    ensures 'T' !in FirstPiece(s, "T")
  {
    var r := FirstPiece(s, "T");
    if 'T' in r {
      var i :| 0 <= i < |r| && r[i] == 'T';
      assert At(r, i, "T");
      ContainsAt(r, "T", i);
    }
  }

  /** The published date: readable when its date part is a valid date,
      otherwise kept as it was. */
  function ReformatDate(s: string): (r: string)
    ensures ParseYmd(DatePart(s)).None? ==> r == s
    ensures ParseYmd(DatePart(s)).Some? ==>
      exists m :: 0 <= m < 12 && StartsWith(r, MONTHS[m] + " ")
  {
    match ParseYmd(DatePart(s))
    case None => s
    case Some(d) => assert StartsWith(FormatDate(d), MONTHS[d.month - 1] + " "); FormatDate(d)
  }

  function Pow10(k: nat): (r: nat)
    ensures r >= 1
  {
    if k == 0 then 1 else 10 * Pow10(k - 1)
  }

  lemma {:induction false} NatToStringFits(n: nat, w: nat)
    requires w >= 1 && n < Pow10(w)
    ensures |NatToString(n)| <= w
    decreases n
  {
    if n >= 10 {
      assert Pow10(1) == 10;
      NatToStringFits(n / 10, w - 1);
    }
  }

  lemma {:induction false} ZerosValue(z: string)
    requires forall i :: 0 <= i < |z| ==> z[i] == '0'
    ensures AllDigits(z) && DigitsValue(z) == 0
    decreases |z|
  {
    if |z| > 0 {
      ZerosValue(z[..|z| - 1]);
    }
  }

  /** Leading zeros do not change a number's value. */
  lemma {:induction false} LeadingZerosValue(z: string, d: string)
    requires forall i :: 0 <= i < |z| ==> z[i] == '0'
    requires AllDigits(d)
    ensures AllDigits(z + d) && DigitsValue(z + d) == DigitsValue(d)
    decreases |d|
  {
    if |d| == 0 {
      assert z + d == z;
      ZerosValue(z);
    } else {
      assert (z + d)[..|z + d| - 1] == z + d[..|d| - 1];
      LeadingZerosValue(z, d[..|d| - 1]);
    }
  }

  /** A number below 10^w, padded to w digits, is exactly w digits long and
      reads back as itself. */
  lemma {:induction false} PadReadsBack(n: nat, w: nat)
    requires w >= 1 && n < Pow10(w)
    ensures |Pad(n, w)| == w && DigitsValue(Pad(n, w)) == n
  {
    var d := NatToString(n);
    NatToStringFits(n, w);
    NatToStringRoundTrip(n);
    if |d| < w {
      LeadingZerosValue(seq(w - |d|, _ => '0'), d);
    }
  }

  /** A padded field followed by a non-digit scans back to its number. */
  lemma {:induction false} ScanPadded(s: string, i: nat, n: nat, w: nat)
    requires w >= 1 && n < Pow10(w)
    requires At(s, i, Pad(n, w))
    requires i + w < |s| ==> !IsAsciiDigit(s[i + w])
    ensures ScanNumber(s, i, w) == Some((n, i + w))
  {
    PadReadsBack(n, w);
    var p := Pad(n, w);
    assert s[i..i + w] == p;
    assert s[i] == p[0];
    SpanEndIs(s, i, IsWhitespace, i);
    forall k | i <= k < i + w ensures IsAsciiDigit(s[k]) {
      assert s[k] == p[k - i];
    }
  }

  /** The ISO form "YYYY-MM-DD" of a day in years 0 to 9999. */
  function Iso(d: Date): (r: string)
    requires 0 <= d.year < 10000 && 1 <= d.month <= 12 && 1 <= d.day <= 31
    ensures |r| == 10
  {
    PadReadsBack(d.year, 4);
    assert Pow10(2) == 100 && Pow10(4) == 10000;
    PadReadsBack(d.month, 2);
    PadReadsBack(d.day, 2);
    Pad(d.year, 4) + "-" + Pad(d.month, 2) + "-" + Pad(d.day, 2)
  }

  /** Reading the ISO form of a valid day gives that day back. */
  lemma {:induction false} IsoRoundTrip(d: Date)
    requires ValidDate(d) && 0 <= d.year < 10000
    ensures ParseYmd(Iso(d)) == Some(d)
  {
    var s := Iso(d);
    IsoFields(d);
    assert Pow10(2) == 100 && Pow10(4) == 10000;
    SpanEndIs(s, 0, IsWhitespace, 0);
    ScanPadded(s, 0, d.year, 4);
    assert ScanYear(s, 0) == Some((d.year, 4));
    ScanPadded(s, 5, d.month, 2);
    ScanPadded(s, 8, d.day, 2);
  }

  /** Where the three padded fields and the dashes sit in the ISO form. */
  lemma {:induction false} IsoFields(d: Date)
    requires ValidDate(d) && 0 <= d.year < 10000
    ensures var s := Iso(d);
      && At(s, 0, Pad(d.year, 4)) && s[4] == '-' && At(s, 5, Pad(d.month, 2)) && s[7] == '-'
      && At(s, 8, Pad(d.day, 2)) && IsAsciiDigit(s[0])
  {
    var s := Iso(d);
    assert Pow10(2) == 100 && Pow10(4) == 10000;
    var y := Pad(d.year, 4);
    PadReadsBack(d.year, 4);
    PadReadsBack(d.month, 2);
    PadReadsBack(d.day, 2);
    assert s[..4] == y && s[4] == '-' && s[5..7] == Pad(d.month, 2) && s[7] == '-' && s[8..10] == Pad(d.day, 2);
    assert s[0] == y[0];
  }

  /** An ISO timestamp of a valid day is written as "Month DD, YYYY"; the
      time after 'T' is dropped. */
  lemma {:induction false} ReformatIsoTimestamp(d: Date, time: string)
    requires ValidDate(d) && 0 <= d.year < 10000
    ensures ReformatDate(Iso(d) + "T" + time) == FormatDate(d)
  {
    var s := Iso(d) + "T" + time;
    var iso := Iso(d);
    assert 'T' !in iso by {
      assert Pow10(2) == 100 && Pow10(4) == 10000;
      PadReadsBack(d.year, 4);
      PadReadsBack(d.month, 2);
      PadReadsBack(d.day, 2);
      forall i | 0 <= i < 10 ensures iso[i] != 'T' {
        assert IsAsciiDigit(iso[i]) || iso[i] == '-';
      }
    }
    assert At(s, |iso|, "T");
    forall j | 0 <= j < |iso| ensures !At(s, j, "T") {
      assert s[j] == iso[j];
    }
    assert Find(s, "T") == Some(|iso|);
    assert s[..|iso|] == iso;
    assert DatePart(s) == iso;
    IsoRoundTrip(d);
  }

  // ---------------------------------------------------------------------
  // The gist
  // ---------------------------------------------------------------------

  /** `MediumDomData`: every field may be missing from the script's JSON. */
  datatype DomData = DomData(
    title: Option<string>,
    description: Option<string>,
    image: Option<string>,
    publication: Option<string>,
    author: Option<string>,
    publishedDate: Option<string>,
    articleText: Option<string>)

  const PARSE_ERROR: string := "Failed to parse Medium page data: "

  /** The Medium-specific fields, each present only when known. */
  function Extra(publication: Option<string>, readingTime: Option<nat>): (r: Json.Json)
    ensures r.Obj?
    ensures "publication" in r.fields <==> publication.Some?
    ensures publication.Some? ==> r.fields["publication"] == Json.Str(publication.value)
    ensures "reading_time_minutes" in r.fields <==> readingTime.Some?
    ensures readingTime.Some? ==> r.fields["reading_time_minutes"] == Json.Int(readingTime.value)
    ensures r.fields.Keys <= {"publication", "reading_time_minutes"}
  {
    var m: map<string, Json.Json> := if publication.Some? then map["publication" := Json.Str(publication.value)] else map[];
    match readingTime
    case Some(t) => Json.Obj(m["reading_time_minutes" := Json.Int(t)])
    case None => Json.Obj(m)
  }

  /** `extract`. Only a failed script or an undecodable record is an error;
      the title falls back to "Unknown" and the whole article text is kept. */
  function Extract(url: string, sourceType: Tabs.SourceType, domain: string,
                   js: Result<string>, decode: string -> Result<DomData>): (r: Result<PageGist>)
    ensures r.Err? <==> ReadDom(js, decode, PARSE_ERROR).Err?
    ensures r.Err? ==> r.error == ReadDom(js, decode, PARSE_ERROR).error
    ensures r.Ok? ==>
      var d := ReadDom(js, decode, PARSE_ERROR).value;
      var g := r.value;
      && g.url == url && g.sourceType == sourceType && g.domain == domain
      && (d.title.Some? ==> g.title == d.title.value)
      && (d.title.None? ==> g.title == "Unknown")
      && g.author == d.author && g.description == d.description && g.imageUrl == d.image
      && (g.contentExcerpt.None? <==> d.articleText.None? || d.articleText.value == [])
      && (g.contentExcerpt.Some? ==> g.contentExcerpt == d.articleText)
      && (g.publishedDate.Some? <==> d.publishedDate.Some?)
      && (d.publishedDate.Some? && ParseYmd(DatePart(d.publishedDate.value)).None? ==>
            g.publishedDate == d.publishedDate)
      && g.extra == Extra(d.publication, ReadingTime(d.articleText.GetOr([])))
  {
    var d :- ReadDom(js, decode, PARSE_ERROR);
    var text := d.articleText.GetOr([]);
    Ok(PageGist(
      url, d.title.GetOr("Unknown"), sourceType, domain,
      d.author,
      d.description,
      if text == [] then None else Some(text),
      match d.publishedDate case Some(p) => Some(ReformatDate(p)) case None => None,
      d.image,
      Extra(d.publication, ReadingTime(text))))
  }
}
