/** The Co-Pilot agent's running state: every cycle analyses the latest
    stretch of the recording and merges the analysis into what it has
    gathered so far. Counters are unbounded here (the source's `u32`/`u64`
    additions are not expected to wrap in a session). */
module CoPilot {
  import opened Wrappers
  import opened Text
  import Utf8
  import Wav
  import opened IntelProvider

  datatype SuggestedQuestion = SuggestedQuestion(question: string, reason: string, cycleAdded: nat, dismissed: bool)

  datatype KeyConcept = KeyConcept(term: string, context: string, cycleAdded: nat, mentionCount: nat)

  datatype CycleMetadata = CycleMetadata(
    cycleNumber: nat,
    lastUpdatedAt: string,
    processing: bool,
    failedCycles: nat,
    totalAudioSeconds: nat)

  /** `CoPilotState`. */
  datatype State = State(
    runningSummary: string,
    keyPoints: seq<string>,
    decisions: seq<string>,
    actionItems: seq<string>,
    openQuestions: seq<string>,
    suggestedQuestions: seq<SuggestedQuestion>,
    keyConcepts: seq<KeyConcept>,
    meta: CycleMetadata)

  /** `CoPilotState::default`. */
  const Initial: State := State("", [], [], [], [], [], [], CycleMetadata(0, "", false, 0, 0))

  /** The most suggested questions kept. */
  const MAX_QUESTIONS: nat := 5

  /** The context handed to the analysis: nothing on the first cycle, the
      running summary afterwards. */
  function Context(s: State): (c: string)
    ensures s.meta.cycleNumber == 0 ==> c == ""
    ensures s.meta.cycleNumber > 0 ==> c == s.runningSummary
  {
    if s.meta.cycleNumber == 0 then "" else s.runningSummary
  }

  predicate NoDuplicates<T(==)>(xs: seq<T>) {
    forall i, j :: 0 <= i < j < |xs| ==> xs[i] != xs[j]
  }

  /** The `for item in new { if !list.contains(&item) { list.push(item) } }`
      loops: items are pushed one by one, each checked against the list as
      it stands, earlier pushes included. */
  function AppendNew(list: seq<string>, items: seq<string>): (r: seq<string>)
    ensures |list| <= |r| && r[..|list|] == list
    ensures forall x :: x in r <==> x in list || x in items
    ensures NoDuplicates(list) ==> NoDuplicates(r)
    decreases |items|
  {
    if |items| == 0 then list
    else if items[0] in list then AppendNew(list, items[1..])
    else
      var r := AppendNew(list + [items[0]], items[1..]);
      assert (list + [items[0]])[..|list|] == list;
      r
  }

  /** Merging items already gathered changes nothing. */
  lemma {:induction false} AppendKnownIsIdentity(list: seq<string>, items: seq<string>)
    requires forall x :: x in items ==> x in list
    ensures AppendNew(list, items) == list
    decreases |items|
  {
    if |items| > 0 {
      AppendKnownIsIdentity(list, items[1..]);
    }
  }

  /** A question is shown as dismissed when an earlier one with the same
      text was dismissed. */
  predicate WasDismissed(earlier: seq<SuggestedQuestion>, q: string) {
    exists i :: 0 <= i < |earlier| && earlier[i].question == q && earlier[i].dismissed
  }

  /** The new suggested questions, all of them, stamped with the cycle. */
  function Stamped(earlier: seq<SuggestedQuestion>, news: seq<Question>, cycle: nat): (r: seq<SuggestedQuestion>)
    ensures |r| == |news|
    ensures forall i :: 0 <= i < |r| ==>
      r[i] == SuggestedQuestion(news[i].question, news[i].reason, cycle, WasDismissed(earlier, news[i].question))
  {
    seq(|news|, i requires 0 <= i < |news| =>
      SuggestedQuestion(news[i].question, news[i].reason, cycle, WasDismissed(earlier, news[i].question)))
  }

  /** The suggested questions after a cycle: the first five new ones. */
  function NextQuestions(earlier: seq<SuggestedQuestion>, news: seq<Question>, cycle: nat): (r: seq<SuggestedQuestion>)
    ensures |r| == if |news| < MAX_QUESTIONS then |news| else MAX_QUESTIONS
    ensures forall i :: 0 <= i < |r| ==>
      && r[i].question == news[i].question && r[i].reason == news[i].reason
      && r[i].cycleAdded == cycle
      && (r[i].dismissed <==> WasDismissed(earlier, news[i].question))
  {
    var all := Stamped(earlier, news, cycle);
    if |all| <= MAX_QUESTIONS then all else all[..MAX_QUESTIONS]
  }

  /** The first concept whose term equals `term` up to ASCII case. */
  function FindConcept(cs: seq<KeyConcept>, term: string): (r: Option<nat>)
    ensures r.Some? ==> r.value < |cs| && EqIgnoreCase(cs[r.value].term, term)
    ensures r.Some? ==> forall j :: 0 <= j < r.value ==> !EqIgnoreCase(cs[j].term, term)
    ensures r.None? ==> forall j :: 0 <= j < |cs| ==> !EqIgnoreCase(cs[j].term, term)
  {
    if |cs| == 0 then None
    else if EqIgnoreCase(cs[0].term, term) then Some(0)
    else match FindConcept(cs[1..], term)
      case None => None
      case Some(i) => Some(i + 1)
  }

  /** One concept of a cycle merged in: a known term is mentioned once
      more and takes the new context; a new term is appended. */
  function MergeConcept(cs: seq<KeyConcept>, c: Concept, cycle: nat): (r: seq<KeyConcept>)
    ensures FindConcept(cs, c.term).None? ==> r == cs + [KeyConcept(c.term, c.context, cycle, 1)]
    ensures FindConcept(cs, c.term).Some? ==>
      var i := FindConcept(cs, c.term).value;
      |r| == |cs| && r[i] == cs[i].(mentionCount := cs[i].mentionCount + 1, context := c.context)
      && forall j :: 0 <= j < |cs| && j != i ==> r[j] == cs[j]
  {
    match FindConcept(cs, c.term)
    case None => cs + [KeyConcept(c.term, c.context, cycle, 1)]
    case Some(i) => cs[i := cs[i].(mentionCount := cs[i].mentionCount + 1, context := c.context)]
  }

  function MergeConcepts(cs: seq<KeyConcept>, news: seq<Concept>, cycle: nat): (r: seq<KeyConcept>)
    ensures |cs| <= |r| <= |cs| + |news|
    ensures forall j :: 0 <= j < |cs| ==> EqIgnoreCase(r[j].term, cs[j].term)
    decreases |news|
  {
    if |news| == 0 then cs
    else
      var once := MergeConcept(cs, news[0], cycle);
      var r := MergeConcepts(once, news[1..], cycle);
      assert forall j :: 0 <= j < |cs| ==> once[j].term == cs[j].term;
      r
  }

  /** Terms stay distinct up to case as concepts are merged. */
  predicate DistinctTerms(cs: seq<KeyConcept>) {
    forall i, j :: 0 <= i < j < |cs| ==> !EqIgnoreCase(cs[i].term, cs[j].term)
  }

  lemma {:induction false} MergeKeepsTermsDistinct(cs: seq<KeyConcept>, news: seq<Concept>, cycle: nat)
    requires DistinctTerms(cs)
    ensures DistinctTerms(MergeConcepts(cs, news, cycle))
    decreases |news|
  {
    if |news| > 0 {
      var once := MergeConcept(cs, news[0], cycle);
      MergeConceptKeepsTermsDistinct(cs, news[0], cycle);
      MergeKeepsTermsDistinct(once, news[1..], cycle);
    }
  }

  lemma {:induction false} MergeConceptKeepsTermsDistinct(cs: seq<KeyConcept>, c: Concept, cycle: nat)
    requires DistinctTerms(cs)
    ensures DistinctTerms(MergeConcept(cs, c, cycle))
  {
    var once := MergeConcept(cs, c, cycle);
    if FindConcept(cs, c.term).Some? {
      assert forall j :: 0 <= j < |cs| ==> once[j].term == cs[j].term;
    } else {
      assert forall j :: 0 <= j < |cs| ==> once[j] == cs[j];
      assert once[|cs|].term == c.term;
    }
  }

  /** `update_state_internal`: merge one analysis into the state. */
  function Update(s: State, result: CycleResult, audioSeconds: nat, now: string): (r: State)
    ensures r.runningSummary == result.updatedSummary
    ensures r.keyPoints == AppendNew(s.keyPoints, result.keyPoints)
    ensures r.decisions == AppendNew(s.decisions, result.decisions)
    ensures r.actionItems == AppendNew(s.actionItems, result.actionItems)
    ensures r.openQuestions == AppendNew(s.openQuestions, result.openQuestions)
    ensures |r.suggestedQuestions| <= MAX_QUESTIONS
    ensures r.suggestedQuestions == NextQuestions(s.suggestedQuestions, result.suggestedQuestions, s.meta.cycleNumber + 1)
    ensures r.keyConcepts == MergeConcepts(s.keyConcepts, result.keyConcepts, s.meta.cycleNumber + 1)
    ensures r.meta == CycleMetadata(s.meta.cycleNumber + 1, now, false, s.meta.failedCycles,
      s.meta.totalAudioSeconds + audioSeconds)
  {
    var next := s.meta.cycleNumber + 1;
    State(
      result.updatedSummary,
      AppendNew(s.keyPoints, result.keyPoints),
      AppendNew(s.decisions, result.decisions),
      AppendNew(s.actionItems, result.actionItems),
      AppendNew(s.openQuestions, result.openQuestions),
      NextQuestions(s.suggestedQuestions, result.suggestedQuestions, next),
      MergeConcepts(s.keyConcepts, result.keyConcepts, next),
      CycleMetadata(next, now, false, s.meta.failedCycles, s.meta.totalAudioSeconds + audioSeconds))
  }

  /** What the state keeps across merges: lists free of duplicates,
      concept terms distinct up to case, and at most five suggestions. */
  predicate WellFormed(s: State) {
    && NoDuplicates(s.keyPoints) && NoDuplicates(s.decisions)
    && NoDuplicates(s.actionItems) && NoDuplicates(s.openQuestions)
    && DistinctTerms(s.keyConcepts)
    && |s.suggestedQuestions| <= MAX_QUESTIONS
  }

  /** The initial state is well formed and every merge keeps it so, and a
      merge only ever adds to the gathered lists. */
  lemma {:induction false} UpdatePreservesWellFormed(s: State, result: CycleResult, audioSeconds: nat, now: string)
    requires WellFormed(s)
    ensures WellFormed(Update(s, result, audioSeconds, now))
    ensures WellFormed(Initial)
    ensures var r := Update(s, result, audioSeconds, now);
      && r.keyPoints[..|s.keyPoints|] == s.keyPoints
      && r.decisions[..|s.decisions|] == s.decisions
      && r.actionItems[..|s.actionItems|] == s.actionItems
      && r.openQuestions[..|s.openQuestions|] == s.openQuestions
  {
    MergeKeepsTermsDistinct(s.keyConcepts, result.keyConcepts, s.meta.cycleNumber + 1);
  }

  /** The audio a cycle analyses: the last `interval + overlap` seconds of
      the recording, or all of it when shorter. */
  function ChunkBounds(fileSize: nat, interval: nat, overlap: nat): (r: (nat, nat))
    ensures r.0 + r.1 == fileSize
    ensures r.1 == if (interval + overlap) * Wav.BYTES_PER_SECOND < fileSize then (interval + overlap) * Wav.BYTES_PER_SECOND else fileSize
  {
    var chunk := (interval + overlap) * Wav.BYTES_PER_SECOND;
    var readSize := if chunk < fileSize then chunk else fileSize;
    (fileSize - readSize, readSize)
  }

  /** `extract_audio_chunk` without the temporary file: the WAV image of
      the recording's tail. */
  function ExtractAudioChunk(recording: Result<seq<Utf8.byte>>, interval: nat, overlap: nat): (r: Result<seq<Utf8.byte>>)
    ensures recording.Err? ==> r == Err("Failed to open recording file: " + recording.error)
  {
    match recording
    case Err(e) => Err("Failed to open recording file: " + e)
    case Ok(bytes) =>
      var (start, _) := ChunkBounds(|bytes|, interval, overlap);
      Wav.FromPcmBytes(bytes[start..])
  }

  /** The chunk is a WAV file whose audio is exactly the recording's last
      `min(size, (interval + overlap) * 32000)` bytes. */
  lemma {:induction false} ChunkIsRecordingTail(bytes: seq<Utf8.byte>, interval: nat, overlap: nat)
    requires |bytes| <= Wav.MAX_DATA_SIZE
    ensures var wav := ExtractAudioChunk(Ok(bytes), interval, overlap);
      var n := ChunkBounds(|bytes|, interval, overlap).1;
      && wav.Ok?
      && wav.value[Wav.HEADER_SIZE..] == bytes[|bytes| - n..]
      && n <= (interval + overlap) * Wav.BYTES_PER_SECOND
  {
  }

  /** The log line of a cycle's summary: more than 200 bytes are cut to 200
      and marked with "..."; `None` where the cut falls inside a character
      and the slice panics. */
  function ResponseSummary(summary: string): (r: Option<string>)
    ensures Utf8.ByteLen(summary) <= 200 ==> r == Some(summary)
    ensures Utf8.ByteLen(summary) > 200 && r.Some? ==> Utf8.ByteLen(r.value) == 203 && EndsWith(r.value, "...")
  {
    if Utf8.ByteLen(summary) <= 200 then Some(summary)
    else match Utf8.BytePrefix(summary, 200)
      case None => None
      case Some(p) =>
        Utf8.EncodeAppend(p, "...");
        Some(p + "...")
  }

  /** An ASCII summary never makes the cut panic. */
  lemma {:induction false} AsciiSummaryLogs(summary: string)
    requires forall i :: 0 <= i < |summary| ==> summary[i] as int < 0x80
    ensures ResponseSummary(summary).Some?
  {
    Utf8.EncodeAscii(summary);
    if |summary| > 200 {
      Utf8.AsciiBytePrefix(summary, 200);
    }
  }

  /** A summary of 199 ASCII characters followed by a two-byte character
      straddles byte 200, so the cut panics. */
  lemma {:induction false} SplitCharacterPanics(prefix: string, c: char, rest: string)
    requires |prefix| == 199 && forall i :: 0 <= i < |prefix| ==> prefix[i] as int < 0x80
    requires 0x80 <= c as int < 0x800
    ensures ResponseSummary(prefix + [c] + rest).None?
  {
    var s := prefix + [c] + rest;
    Utf8.EncodeAscii(prefix);
    Utf8.EncodeAppend(prefix, [c] + rest);
    Utf8.ByteLenCons(c, rest);
    assert s == prefix + ([c] + rest);
    assert Utf8.ByteLen(s) > 200;
    forall k | 0 <= k <= |s| ensures Utf8.ByteLen(s[..k]) != 200 {
      if k <= 199 {
        assert s[..k] == prefix[..k];
        Utf8.EncodeAscii(prefix[..k]);
      } else {
        assert s[..k] == prefix + ([c] + rest)[..k - 199];
        Utf8.EncodeAppend(prefix, ([c] + rest)[..k - 199]);
        assert ([c] + rest)[..k - 199] == [c] + rest[..k - 200];
        Utf8.ByteLenCons(c, rest[..k - 200]);
      }
    }
  }

  /** How one cycle of the loop ends. */
  datatype Outcome =
    | Analysed(result: CycleResult)
    | Failed(error: string)

  /** The loop's own bookkeeping: the shared state, the run of
      consecutive failures, and whether the loop's task has died of a
      panic. */
  datatype Loop = Loop(state: State, consecutiveFailures: nat, panicked: bool)

  /** Consecutive failures after which the loop pauses. */
  const MAX_FAILURES: nat := 3

  /** One turn of `run_cycle_loop`: mark processing, run the cycle, count
      the outcome. The third consecutive failure leaves the loop before
      `processing` is cleared. A successful cycle whose summary log line
      would cut a character panics before the merge, ending the task with
      the state only marked as processing. Returns whether the loop goes
      on. */
  function Turn(l: Loop, o: Outcome, audioSeconds: nat, now: string): (r: (Loop, bool))
    ensures o.Analysed? && ResponseSummary(o.result.updatedSummary).Some? ==> (
      && r.1 && r.0.consecutiveFailures == 0 && !r.0.panicked
      && r.0.state == Update(l.state.(meta := l.state.meta.(processing := true)), o.result, audioSeconds, now))
    ensures o.Analysed? && ResponseSummary(o.result.updatedSummary).None? ==>
      r == (Loop(l.state.(meta := l.state.meta.(processing := true)), l.consecutiveFailures, true), false)
    ensures o.Failed? ==> r.0.panicked == l.panicked
    ensures r.0.state.meta.cycleNumber >= l.state.meta.cycleNumber
    ensures r.0.state.meta.failedCycles >= l.state.meta.failedCycles
    ensures o.Failed? ==> (
      && r.0.consecutiveFailures == l.consecutiveFailures + 1
      && r.0.state.meta.failedCycles == l.state.meta.failedCycles + 1
      && r.0.state.meta.cycleNumber == l.state.meta.cycleNumber)
    ensures o.Failed? ==> (r.1 <==> l.consecutiveFailures + 1 < MAX_FAILURES)
    ensures r.1 ==> !r.0.state.meta.processing
    ensures !r.1 ==> r.0.state.meta.processing
  {
    var busy := l.state.(meta := l.state.meta.(processing := true));
    match o
    case Analysed(result) =>
      if ResponseSummary(result.updatedSummary).None? then (Loop(busy, l.consecutiveFailures, true), false)
      else (Loop(Update(busy, result, audioSeconds, now), 0, false), true)
    case Failed(_) =>
      var failed := busy.(meta := busy.meta.(failedCycles := busy.meta.failedCycles + 1));
      if l.consecutiveFailures + 1 >= MAX_FAILURES then (Loop(failed, l.consecutiveFailures + 1, l.panicked), false)
      else (Loop(failed.(meta := failed.meta.(processing := false)), l.consecutiveFailures + 1, l.panicked), true)
  }

  /** The loop over a run of cycle outcomes, until they run out (a stop),
      the loop pauses, or its task panics. The cycle and failure counts
      only grow. */
  function Run(l: Loop, outcomes: seq<Outcome>, audioSeconds: nat, now: string): (r: Loop)
    decreases |outcomes|
    ensures r.state.meta.cycleNumber >= l.state.meta.cycleNumber
    ensures r.state.meta.failedCycles >= l.state.meta.failedCycles
  {
    if |outcomes| == 0 then l
    else
      var (next, goOn) := Turn(l, outcomes[0], audioSeconds, now);
      if goOn then Run(next, outcomes[1..], audioSeconds, now) else next
  }

  /** Every cycle the loop runs is counted once, as a success or a failure
      (a cycle that panics is neither), and the agent is left processing
      exactly when the loop paused on the failure limit or panicked. */
  lemma {:induction false} RunCountsCycles(l: Loop, outcomes: seq<Outcome>, audioSeconds: nat, now: string)
    requires l.consecutiveFailures < MAX_FAILURES && !l.state.meta.processing && !l.panicked
    ensures var r := Run(l, outcomes, audioSeconds, now);
      && r.state.meta.cycleNumber + r.state.meta.failedCycles
         <= l.state.meta.cycleNumber + l.state.meta.failedCycles + |outcomes|
      && r.state.meta.cycleNumber + r.state.meta.failedCycles
         >= l.state.meta.cycleNumber + l.state.meta.failedCycles
      && (r.consecutiveFailures < MAX_FAILURES && !r.panicked <==> !r.state.meta.processing)
    decreases |outcomes|
  {
    if |outcomes| > 0 {
      var (next, goOn) := Turn(l, outcomes[0], audioSeconds, now);
      if goOn {
        RunCountsCycles(next, outcomes[1..], audioSeconds, now);
      }
    }
  }

  /** Three failures in a row pause the agent, whatever follows, and leave
      it marked as processing. */
  lemma {:induction false} ThreeFailuresPause(s: State, e1: string, e2: string, e3: string, rest: seq<Outcome>, audioSeconds: nat, now: string)
    ensures var r := Run(Loop(s, 0, false), [Failed(e1), Failed(e2), Failed(e3)] + rest, audioSeconds, now);
      && r.consecutiveFailures == MAX_FAILURES
      && r.state.meta.failedCycles == s.meta.failedCycles + 3
      && r.state.meta.cycleNumber == s.meta.cycleNumber
      && r.state.meta.processing
  {
    var os := [Failed(e1), Failed(e2), Failed(e3)] + rest;
    assert os[1..] == [Failed(e2), Failed(e3)] + rest;
    assert os[1..][1..] == [Failed(e3)] + rest;
    var t1 := Turn(Loop(s, 0, false), Failed(e1), audioSeconds, now);
    var t2 := Turn(t1.0, Failed(e2), audioSeconds, now);
    var t3 := Turn(t2.0, Failed(e3), audioSeconds, now);
    assert t1.1 && t2.1 && !t3.1;
    assert Run(t2.0, os[1..][1..], audioSeconds, now) == t3.0;
    assert Run(t1.0, os[1..], audioSeconds, now) == t3.0;
  }

  /** A cycle whose summary puts a two-byte character across byte 200
      ends the loop: nothing is merged, the failure streak is kept, and
      the agent stays marked as processing. */
  lemma {:induction false} SplitSummaryEndsLoop(l: Loop, result: CycleResult, rest: seq<Outcome>, audioSeconds: nat, now: string,
                                                prefix: string, c: char, tail: string)
    requires |prefix| == 199 && forall i :: 0 <= i < |prefix| ==> prefix[i] as int < 0x80
    requires 0x80 <= c as int < 0x800
    requires result.updatedSummary == prefix + [c] + tail
    ensures var r := Run(l, [Analysed(result)] + rest, audioSeconds, now);
      && r.panicked && r.state.meta.processing
      && r.state == l.state.(meta := l.state.meta.(processing := true))
      && r.consecutiveFailures == l.consecutiveFailures
  {
    SplitCharacterPanics(prefix, c, tail);
    var os := [Analysed(result)] + rest;
    assert os[0] == Analysed(result);
  }

  /** The agent: whether a cycle task is held, and the shared state. */
  datatype Agent = Agent(running: bool, state: State)

  const NewAgent: Agent := Agent(false, Initial)

  /** `start`: refused while a task is held or when the recording is
      missing; the state is not reset. */
  function Start(a: Agent, recordingExists: bool): (r: (Agent, Result<()>))
    ensures a.running ==> r == (a, Err("Co-Pilot agent is already running"))
    ensures !a.running && !recordingExists ==> r == (a, Err("Recording file does not exist"))
    ensures r.1.Ok? <==> !a.running && recordingExists
    ensures r.1.Ok? ==> r.0 == a.(running := true)
  {
    if a.running then (a, Err("Co-Pilot agent is already running"))
    else if !recordingExists then (a, Err("Recording file does not exist"))
    else (a.(running := true), Ok(()))
  }

  /** `stop`: drops the task and returns the state as it stands. */
  function Stop(a: Agent): (r: (Agent, State))
    ensures !r.0.running && r.0.state == a.state && r.1 == a.state
  {
    (a.(running := false), a.state)
  }

  /** `dismiss_question`: marks one question; an index out of range does
      nothing. */
  function DismissQuestion(s: State, index: nat): (r: State)
    ensures index >= |s.suggestedQuestions| ==> r == s
    ensures index < |s.suggestedQuestions| ==>
      && |r.suggestedQuestions| == |s.suggestedQuestions|
      && r.suggestedQuestions[index] == s.suggestedQuestions[index].(dismissed := true)
      && (forall j :: 0 <= j < |s.suggestedQuestions| && j != index ==> r.suggestedQuestions[j] == s.suggestedQuestions[j])
      && r == s.(suggestedQuestions := r.suggestedQuestions)
  {
    if index < |s.suggestedQuestions| then
      s.(suggestedQuestions := s.suggestedQuestions[index := s.suggestedQuestions[index].(dismissed := true)])
    else s
  }

  /** A dismissed question suggested again by the next cycle stays
      dismissed. */
  lemma {:induction false} DismissalSurvivesCycle(s: State, index: nat, result: CycleResult, audioSeconds: nat, now: string, k: nat)
    requires index < |s.suggestedQuestions|
    requires k < |result.suggestedQuestions| && k < MAX_QUESTIONS
    requires result.suggestedQuestions[k].question == s.suggestedQuestions[index].question
    ensures Update(DismissQuestion(s, index), result, audioSeconds, now).suggestedQuestions[k].dismissed
  {
    var d := DismissQuestion(s, index);
    assert d.suggestedQuestions[index].dismissed;
  }
}
