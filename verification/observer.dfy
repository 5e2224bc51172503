/** The browser observer: its running flag, the URL-change debouncing of
    the polling task, and the YouTube detection each new URL goes through.
    Polling Chrome (an AppleScript call with a timeout) is a parameter: the
    task sees a sequence of poll outcomes. Emitting the event and the
    notification are the detection result itself. */
module Observer {
  import opened Wrappers
  import opened Text
  import YouTube

  // ---------------------------------------------------------------------
  // Start and stop
  // ---------------------------------------------------------------------

  /** `BrowserObserver`: whether it runs, and whether it holds the sender
      of the polling task's stop signal. */
  datatype BrowserObserver = BrowserObserver(isRunning: bool, hasStopSender: bool)

  const NEW: BrowserObserver := BrowserObserver(false, false)
  const ALREADY_RUNNING: string := "Browser observer is already running"
  const NOT_RUNNING: string := "Browser observer is not running"

  /** The observer holds a stop sender exactly while it runs. */
  predicate Consistent(o: BrowserObserver) {
    o.isRunning == o.hasStopSender
  }

  /** `start`: refused while running; otherwise the stop channel is created
      and the observer runs. */
  function Start(o: BrowserObserver): (r: Result<BrowserObserver>)
    ensures r.Ok? <==> !o.isRunning
    ensures r.Err? ==> r.error == ALREADY_RUNNING
    ensures r.Ok? ==> r.value.isRunning && r.value.hasStopSender
  {
    if o.isRunning then Err(ALREADY_RUNNING)
    else Ok(BrowserObserver(true, true))
  }

  /** `stop`: refused unless running; otherwise the stop signal is taken
      and sent, and the observer no longer runs. */
  function Stop(o: BrowserObserver): (r: Result<BrowserObserver>)
    ensures r.Ok? <==> o.isRunning
    ensures r.Err? ==> r.error == NOT_RUNNING
    ensures r.Ok? ==> !r.value.isRunning && !r.value.hasStopSender
  {
    if !o.isRunning then Err(NOT_RUNNING)
    else Ok(BrowserObserver(false, false))
  }

  /** Starting and stopping keep the observer consistent, and a stop undoes
      a start. */
  lemma {:induction false} StartStopConsistent(o: BrowserObserver)
    requires Consistent(o)
    ensures Start(o).Ok? ==> Consistent(Start(o).value)
    ensures Stop(o).Ok? ==> Consistent(Stop(o).value)
    ensures !o.isRunning ==> Start(o).Ok? && Stop(Start(o).value) == Ok(o)
    ensures o.isRunning ==> Stop(o).Ok? && Start(Stop(o).value) == Ok(o)
  {
  }

  // ---------------------------------------------------------------------
  // YouTube detection
  // ---------------------------------------------------------------------

  const CANONICAL_WATCH: string := "https://www.youtube.com/watch?v="

  /** `YouTubeDetectedEvent`. */
  datatype Detected = Detected(videoId: string, url: string)

  /** `detect_youtube`: the video-id regex the scraper also uses; a URL on
      youtube.com is kept, any other (a youtu.be link) is rewritten to the
      canonical watch URL. */
  function DetectYoutube(url: string): (r: Option<Detected>)
    ensures r.Some? <==> YouTube.ExtractVideoId(url).Ok?
    ensures r.Some? ==> r.value.videoId == YouTube.ExtractVideoId(url).value
    ensures r.Some? ==> YouTube.IsVideoId(r.value.videoId) && Contains(url, r.value.videoId)
    ensures r.Some? && Contains(url, "youtube.com") ==> r.value.url == url
    ensures r.Some? && !Contains(url, "youtube.com") ==> r.value.url == CANONICAL_WATCH + r.value.videoId
  {
    match YouTube.Captures(YouTube.VideoIdPattern, url)
    case None => None
    case Some(id) => Some(Detected(id, if Contains(url, "youtube.com") then url else CANONICAL_WATCH + id))
  }

  /** A URL with neither "youtube.com/watch?" nor "youtu.be/" is not a
      video. */
  lemma {:induction false} NonYouTubeNotDetected(url: string)
    requires !Contains(url, YouTube.WATCH) && !Contains(url, YouTube.SHORT)
    ensures DetectYoutube(url).None?
  {
    YouTube.NoYouTubeMarkerNoId(url);
  }

  /** A watch URL is reported unchanged with its `v` parameter's id. */
  lemma {:induction false} WatchUrlKept(pre: string, id: string, post: string)
    requires YouTube.IsVideoId(id) && 'y' !in pre && !Contains(post, "&v=")
    ensures var url := pre + YouTube.WATCH + "v=" + id + post;
      DetectYoutube(url) == Some(Detected(id, url))
  {
    YouTube.WatchUrlId(pre, id, post);
    WatchUrlOnDomain(pre, id, post);
    KeptOnDomain(pre + YouTube.WATCH + "v=" + id + post, id);
  }

  /** A detected id on a youtube.com URL keeps the URL. */
  lemma {:induction false} KeptOnDomain(url: string, id: string)
    requires YouTube.ExtractVideoId(url) == Ok(id) && Contains(url, "youtube.com")
    ensures DetectYoutube(url) == Some(Detected(id, url))
  {
  }

  /** A watch URL is on youtube.com. */
  lemma {:induction false} WatchUrlOnDomain(pre: string, id: string, post: string)
    ensures Contains(pre + YouTube.WATCH + "v=" + id + post, "youtube.com")
  {
    var url := pre + YouTube.WATCH + "v=" + id + post;
    assert forall i :: 0 <= i < 11 ==> url[|pre| + i] == YouTube.WATCH[i];
    assert url[|pre|..|pre| + 11] == "youtube.com";
    ContainsAt(url, "youtube.com", |pre|);
  }

  /** A youtu.be link is rewritten to the canonical watch URL. */
  lemma {:induction false} ShortLinkRewritten(pre: string, id: string, post: string)
    requires YouTube.IsVideoId(id) && 'y' !in pre
    requires !Contains(pre + YouTube.SHORT + id + post, "youtube.com")
    ensures DetectYoutube(pre + YouTube.SHORT + id + post) == Some(Detected(id, CANONICAL_WATCH + id))
  {
    YouTube.ShortLinkId(pre, id, post);
  }

  /** Any match leaves room for a marker and an eleven-character id after
      its start; the watch form needs the longer marker. */
  lemma {:induction false} MatchNeedsRoom(url: string, k: nat)
    ensures YouTube.VideoIdAt(url, k).Some? ==> k + |YouTube.SHORT| + 11 <= |url|
    ensures At(url, k, YouTube.WATCH) && YouTube.ParamId(url, k + |YouTube.WATCH|, |url|).Some? ==>
      k + |YouTube.WATCH| + 13 <= |url|
  {
  }

  /** A URL whose text from the first 'y' on is shorter than a short link
      with an id, such as a watch URL without a query, is not a video. */
  lemma {:induction false} ShortTailNotDetected(pre: string, tail: string)
    requires 'y' !in pre && |tail| < |YouTube.SHORT| + 11
    ensures DetectYoutube(pre + tail).None?
  {
    var url := pre + tail;
    assert url[..|pre|] == pre;
    YouTube.NoMatchBefore(YouTube.VideoIdPattern, url, |pre|);
    forall k: nat | |pre| <= k <= |url| ensures YouTube.VideoIdAt(url, k).None? {
      MatchNeedsRoom(url, k);
    }
  }

  /** An id shorter than eleven characters at the end of a watch URL is not
      a video. */
  lemma {:induction false} ShortIdNotDetected(pre: string, short: string)
    requires 'y' !in pre && |short| < 11
    ensures DetectYoutube(pre + YouTube.WATCH + "v=" + short).None?
  {
    var url := pre + YouTube.WATCH + "v=" + short;
    var s := |pre|;
    assert url[..s] == pre;
    YouTube.NoMatchBefore(YouTube.VideoIdPattern, url, s);
    assert url[s..s + |YouTube.WATCH|] == YouTube.WATCH;
    forall k: nat | s <= k <= |url| ensures YouTube.VideoIdAt(url, k).None? {
      MatchNeedsRoom(url, k);
      if k == s {
        AtImplies(url, k, YouTube.SHORT, 5);
        assert url[s + 5] == YouTube.WATCH[5] != YouTube.SHORT[5];
      } else if k + |YouTube.SHORT| + 11 <= |url| {
        AtImplies(url, k, YouTube.SHORT, 0);
        assert url[k] == YouTube.WATCH[k - s] != YouTube.SHORT[0];
      }
    }
  }

  // ---------------------------------------------------------------------
  // Polling
  // ---------------------------------------------------------------------

  /** The outcome of one poll of Chrome's active tab. */
  datatype Poll = Polled(url: string) | Unavailable(error: string)

  /** The state after one poll: the last URL seen, and the URL classified
      by this poll, if any. */
  datatype Tick = Tick(lastUrl: string, classified: Option<string>)

  /** One poll: a URL different from the last one seen is remembered and
      classified; the same URL, or a failed poll, changes nothing. */
  function PollOnce(lastUrl: string, p: Poll): (r: Tick)
    ensures r.classified.Some? <==> p.Polled? && p.url != lastUrl
    ensures r.classified.Some? ==> r.classified.value == p.url && r.lastUrl == p.url
    ensures r.classified.None? ==> r.lastUrl == lastUrl
  {
    match p
    case Polled(url) => if url != lastUrl then Tick(url, Some(url)) else Tick(lastUrl, None)
    case Unavailable(_) => Tick(lastUrl, None)
  }

  /** The URLs the polling task classifies, in order, over a run of polls
      starting from the last URL seen. */
  function Classified(lastUrl: string, polls: seq<Poll>): (r: seq<string>)
    ensures |r| <= |polls|
    ensures |r| > 0 ==> r[0] != lastUrl
    ensures forall i :: 0 < i < |r| ==> r[i] != r[i - 1]
    ensures forall i :: 0 <= i < |r| ==> Polled(r[i]) in polls
    decreases |polls|
  {
    if polls == [] then []
    else
      var t := PollOnce(lastUrl, polls[0]);
      var rest := Classified(t.lastUrl, polls[1..]);
      match t.classified
      case Some(u) => [u] + rest
      case None => rest
  }

  /** The task starts with an empty last URL. */
  function TaskClassified(polls: seq<Poll>): (r: seq<string>)
    ensures |r| > 0 ==> r[0] != ""
    ensures forall i :: 0 < i < |r| ==> r[i] != r[i - 1]
  {
    Classified("", polls)
  }

  /** Debouncing: a tab that stays on one new URL, with any number of
      failed polls in between, is classified exactly once. */
  lemma {:induction false} SteadyUrlClassifiedOnce(lastUrl: string, u: string, polls: seq<Poll>)
    requires u != lastUrl && Polled(u) in polls
    requires forall i :: 0 <= i < |polls| ==> polls[i] == Polled(u) || polls[i].Unavailable?
    ensures Classified(lastUrl, polls) == [u]
  {
    if polls[0] == Polled(u) {
      SteadyUrlIgnored(u, polls[1..]);
    } else {
      assert Polled(u) in polls[1..];
      SteadyUrlClassifiedOnce(lastUrl, u, polls[1..]);
    }
  }

  /** Polls that only repeat the last URL seen, or fail, classify nothing. */
  lemma {:induction false} SteadyUrlIgnored(u: string, polls: seq<Poll>)
    requires forall i :: 0 <= i < |polls| ==> polls[i] == Polled(u) || polls[i].Unavailable?
    ensures Classified(u, polls) == []
  {
    if polls != [] {
      SteadyUrlIgnored(u, polls[1..]);
    }
  }

  /** `classify_url`: the event a newly seen URL raises, if it is a video. */
  function Events(urls: seq<string>): (r: seq<Detected>)
    ensures |r| <= |urls|
    ensures forall i :: 0 <= i < |r| ==> exists k :: 0 <= k < |urls| && DetectYoutube(urls[k]) == Some(r[i])
    ensures forall k :: 0 <= k < |urls| && DetectYoutube(urls[k]).Some? ==> DetectYoutube(urls[k]).value in r
  {
    FilterMap(urls, DetectYoutube)
  }
}
