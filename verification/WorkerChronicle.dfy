/** What one cycle, and one round of waiting, writes into the journal: a table over its inputs and what
  * has been seen so far. Times are in nanoseconds.
  */
module WorkerChronicle {
  import opened Wrappers
  import opened Detection
  import opened WorkerHistory
  import opened WorkerSpec
  import opened WorkerFacts

  // What an analysis needs to know of the past
  datatype Past = Past(
    state: State, lastProgress: Option<int>, suspended: bool, lastSegment: (nat, string), moved: bool,
    failingSince: Option<int>, probed: bool, video: History, audio: History)

  function PastOf(j: Journal): Past {
    Past(StateOf(j), LastProgress(j), SuspensionOpen(j), LastSegment(j), ManifestChanged(j), FailingSince(j), Probes(j) > 0,
         Heard(j, Video), Heard(j, Audio))
  }

  // ---- What happens in a cycle

  predicate Asks(lastCheck: Option<int>, i: CycleInput) {
    !i.stopTop && (lastCheck.None? || i.liveTime - lastCheck.value >= 300_000_000_000)
  }

  predicate OverByCheck(lastCheck: Option<int>, i: CycleInput) {
    Asks(lastCheck, i) && i.live == NotLive
  }

  predicate Finds(v: Past, a: AnalysisInput) {
    !a.stopFetch && a.endList == Some(false) && a.latest.Some?
  }

  predicate Old(v: Past, a: AnalysisInput) {
    Finds(v, a) &&
    (a.latest.value.sequence < v.lastSegment.0 || (a.latest.value.sequence, a.latest.value.url) == v.lastSegment)
  }

  predicate Suspends(v: Past, a: AnalysisInput) {
    Old(v, a) && (v.lastProgress.None? || a.staleTime - v.lastProgress.value >= 10_000_000_000) && !v.suspended
  }

  predicate Downloads(v: Past, a: AnalysisInput) {
    Finds(v, a) && !Old(v, a) && a.fetched
  }

  predicate Takes(v: Past, a: AnalysisInput) {
    Downloads(v, a) && !a.stopSegment && a.saved && a.verdict.Some?
  }

  predicate Resumes(v: Past, a: AnalysisInput) {
    Takes(v, a) && !v.moved && v.suspended
  }

  predicate Hears(v: Past, a: AnalysisInput) {
    Takes(v, a) && !(Resumes(v, a) && a.resumedFate == Fatal)
  }

  // A webhook is lost on the way, and that fails the cycle.
  predicate Loses(v: Past, a: AnalysisInput) {
    || (!a.stopFetch && a.endList == Some(true) && a.endedFate == Fatal)
    || (Suspends(v, a) && a.suspendedFate == Fatal)
    || (Resumes(v, a) && a.resumedFate == Fatal)
  }

  predicate Fails(v: Past, a: AnalysisInput) {
    || (!a.stopFetch && a.endList.None?)
    || (!a.stopFetch && a.endList == Some(false) && a.latest.None?)
    || (Finds(v, a) && !Old(v, a) && !a.fetched)
    || (Downloads(v, a) && !a.stopSegment && !Takes(v, a))
    || Loses(v, a)
  }

  predicate AsksAgain(v: Past, i: CycleInput) {
    v.failingSince.Some? && i.errorTime - v.failingSince.value >= 60_000_000_000 && !v.probed
  }

  // One of the URLs looked up is not the one in use.
  predicate Elsewhere(manifest: string, urls: seq<Option<string>>) {
    exists u :: u in urls && u.Some? && u.value != manifest
  }

  // ---- What it writes

  function When(c: bool, es: seq<Entry>): seq<Entry> {
    if c then es else []
  }

  // A webhook, and what comes of its delivery
  function Closing(fate: Fate, lost: bool): seq<Entry> {
    [Attempt(Ended, fate)] + When(fate != Fatal && !lost, [Became(Completed)])
  }

  function Moves(urls: seq<Option<string>>): seq<Entry>
    decreases |urls|
  {
    if urls == [] then [] else (if urls[0].Some? then [Relocated(urls[0].value)] else []) + Moves(urls[1..])
  }

  function Alarms(kind: Kind, due: Option<Alert>, fate: Fate): seq<Entry> {
    match due
    case None => []
    case Some(Raised) => [Attempt(Alarm(kind), fate)]
    case Some(Recovered) => [Attempt(Recovery(kind), fate)]
  }

  // Blackouts go by the verdict on the picture and their threshold, silences by that on the sound and theirs.
  function Hearing(v: Past, cfg: Config, s: Segment, verdict: Verdict, a: AnalysisInput): seq<Entry> {
    HearingOf(Video, v.video, Sample(verdict.black, s.duration), cfg.blackoutThreshold, a.videoFate)
    + HearingOf(Audio, v.audio, Sample(verdict.silent, s.duration), cfg.silenceThreshold, a.audioFate)
  }

  function HearingOf(kind: Kind, past: History, sample: Sample, threshold: real, fate: Fate): seq<Entry> {
    [Analysed(kind, sample)] + Alarms(kind, Due(After(past, sample), threshold), fate)
  }

  function Taking(v: Past, cfg: Config, a: AnalysisInput): seq<Entry>
    requires Takes(v, a)
  {
    [Accepted(a.latest.value.sequence, a.latest.value.url, v.moved, a.acceptTime)]
    + When(Resumes(v, a), [Attempt(Resumed, a.resumedFate)])
    + (if Hears(v, a) then Hearing(v, cfg, a.latest.value, a.verdict.value, a) else [])
  }

  function Following(v: Past, cfg: Config, a: AnalysisInput): seq<Entry> {
    When(Old(v, a), [CheckedStale(a.staleTime)])
    + When(Suspends(v, a), [Attempt(Suspended, a.suspendedFate)])
    + When(Downloads(v, a) && a.stopSegment, [ShutdownSeen])
    + (if Takes(v, a) then Taking(v, cfg, a) else [])
  }

  function Reading(v: Past, cfg: Config, a: AnalysisInput): seq<Entry> {
    When(a.stopFetch, [ShutdownSeen])
    + When(!a.stopFetch && a.endList == Some(true), [FoundEndList] + Closing(a.endedFate, false))
    + (if Finds(v, a) then [LookedUp] + Following(v, cfg, a) else [])
  }

  // A cycle that failed asks once whether the stream is live, a minute after the first failure.
  function Failing(v: Past, i: CycleInput): seq<Entry> {
    [CycleFailed(i.errorTime)]
    + When(AsksAgain(v, i), [Probed(i.errorTime, i.probe)])
    + When(AsksAgain(v, i) && i.probe == Live, [Attempt(SegmentError, i.probeFate)])
    + When(AsksAgain(v, i) && i.probe == NotLive, Closing(i.probeFate, Loses(v, i.analysis)))
  }

  // Unless the stream turns out to be over, the cycle ends in waiting for the next one.
  function Working(v: Past, cfg: Config, i: CycleInput): seq<Entry> {
    Reading(v, cfg, i.analysis)
    + (if Fails(v, i.analysis) then Failing(v, i) else [CycleFine])
    + When(i.stopWait && !(Fails(v, i.analysis) && AsksAgain(v, i) && i.probe == NotLive), [ShutdownSeen])
  }

  // When the cycle gets past its live check
  function Going(manifest: string, v: Past, cfg: Config, i: CycleInput): seq<Entry> {
    Moves(i.refreshes)
    + (if i.stopRefresh || i.stopAnalysis then [ShutdownSeen]
       else Working(v.(moved := v.moved || Elsewhere(manifest, i.refreshes)), cfg, i))
  }

  function Chronicle(lastCheck: Option<int>, manifest: string, v: Past, cfg: Config, i: CycleInput): seq<Entry> {
    if i.stopTop then [ShutdownSeen]
    else
      When(Asks(lastCheck, i), [LiveChecked(i.liveTime, i.live)])
      + (if OverByCheck(lastCheck, i) then Closing(i.endedFate, false)
         else if v.state == Monitoring then Going(manifest, v, cfg, i)
         else [])
  }

  // ---- That it does

  ghost predicate Adds(j: Journal, next: Journal, es: seq<Entry>) {
    Entries(next) == Entries(j) + es
  }

  lemma AddsBoth(j: Journal, mid: Journal, next: Journal, es: seq<Entry>, fs: seq<Entry>)
    requires Adds(j, mid, es) && Adds(mid, next, fs)
    ensures Adds(j, next, es + fs)
  {
  }

  lemma MoveEntry(j: Journal, url: string)
    ensures PastOf(Then(j, Relocated(url))) == PastOf(j).(moved := ManifestChanged(j) || url != ManifestURL(j))
  {
  }

  lemma ElsewhereRest(manifest: string, urls: seq<Option<string>>)
    requires urls != []
    ensures Elsewhere(manifest, urls) <==> (urls[0].Some? && urls[0].value != manifest) || Elsewhere(manifest, urls[1..])
  {
    assert forall u :: u in urls <==> u == urls[0] || u in urls[1..];
  }

  lemma {:induction false} MovesEntries(j: Journal, urls: seq<Option<string>>)
    ensures Adds(j, Refreshed(j, urls), Moves(urls)) && Stopped(Refreshed(j, urls)) == Stopped(j)
    decreases |urls|
  {
    if urls != [] {
      var next := if urls[0].Some? then Then(j, Relocated(urls[0].value)) else j;
      MovesEntries(next, urls[1..]);
    }
  }

  lemma {:induction false} MovesSeen(j: Journal, urls: seq<Option<string>>)
    ensures PastOf(Refreshed(j, urls)) == PastOf(j).(moved := ManifestChanged(j) || Elsewhere(ManifestURL(j), urls))
    decreases |urls|
  {
    if urls != [] {
      ElsewhereRest(ManifestURL(j), urls);
      if urls[0].Some? {
        MoveEntry(j, urls[0].value);
        MovesSeen(Then(j, Relocated(urls[0].value)), urls[1..]);
      } else {
        MovesSeen(j, urls[1..]);
      }
    }
  }

  lemma AlarmEntries(j: Journal, kind: Kind, due: Option<Alert>, fate: Fate)
    ensures Adds(j, Alerted(j, kind, due, fate), Alarms(kind, due, fate))
    ensures forall k :: Heard(Alerted(j, kind, due, fate), k) == Heard(j, k)
  {
  }

  lemma DetectedEntries(j: Journal, cfg: Config, kind: Kind, sample: Sample, fate: Fate)
    ensures var threshold := if kind == Video then cfg.blackoutThreshold else cfg.silenceThreshold;
            Adds(j, Detected(j, cfg, kind, sample, fate), HearingOf(kind, Heard(j, kind), sample, threshold, fate))
    ensures forall other :: other != kind ==> Heard(Detected(j, cfg, kind, sample, fate), other) == Heard(j, other)
  {
    var analysed := Then(j, Analysed(kind, sample));
    AlarmEntries(analysed, kind, Due(Heard(analysed, kind), Threshold(cfg, kind)), fate);
  }

  lemma HearingEntries(j: Journal, v: Past, cfg: Config, s: Segment, verdict: Verdict, a: AnalysisInput)
    requires Heard(j, Video) == v.video && Heard(j, Audio) == v.audio
    ensures var video := Detected(j, cfg, Video, Sample(verdict.black, s.duration), a.videoFate);
            var audio := Detected(video, cfg, Audio, Sample(verdict.silent, s.duration), a.audioFate);
            Adds(j, audio, Hearing(v, cfg, s, verdict, a))
  {
    var video := Detected(j, cfg, Video, Sample(verdict.black, s.duration), a.videoFate);
    DetectedEntries(j, cfg, Video, Sample(verdict.black, s.duration), a.videoFate);
    DetectedEntries(video, cfg, Audio, Sample(verdict.silent, s.duration), a.audioFate);
  }

  // The streak is as before; the state tells whether a webhook was lost.
  ghost predicate StillFailing(j: Journal, next: Journal, v: Past, a: AnalysisInput) {
    && FailingSince(next) == FailingSince(j) && Probes(next) == Probes(j)
    && StateOf(next) == (if Loses(v, a) then Error else Monitoring)
  }

  // After the lookup, the journal has forgotten that the manifest moved.
  lemma TakenEntries(j: Journal, v: Past, cfg: Config, a: AnalysisInput)
    requires PastOf(j) == v.(moved := ManifestChanged(j)) && v.state == Monitoring && Takes(v, a)
    ensures var (next, fine) := Processed(j, cfg, v.moved, a.latest.value, a.verdict.value, a);
            Adds(j, next, Taking(v, cfg, a)) && (fine <==> Hears(v, a)) && (!fine ==> StillFailing(j, next, v, a))
  {
    var s := a.latest.value;
    var accepted := Then(j, Accepted(s.sequence, s.url, v.moved, a.acceptTime));
    var resumed := if Resumes(v, a) then Sent(accepted, Resumed, a.resumedFate) else accepted;
    ResumedEntries(j, v, a);
    if Hears(v, a) {
      HearingEntries(resumed, v, cfg, s, a.verdict.value, a);
      AddsBoth(j, resumed, Processed(j, cfg, v.moved, s, a.verdict.value, a).0,
               [Accepted(s.sequence, s.url, v.moved, a.acceptTime)] + When(Resumes(v, a), [Attempt(Resumed, a.resumedFate)]),
               Hearing(v, cfg, s, a.verdict.value, a));
    }
  }

  lemma ResumedEntries(j: Journal, v: Past, a: AnalysisInput)
    requires PastOf(j) == v.(moved := ManifestChanged(j)) && v.state == Monitoring && Takes(v, a)
    ensures var s := a.latest.value;
            var accepted := Then(j, Accepted(s.sequence, s.url, v.moved, a.acceptTime));
            var resumed := if Resumes(v, a) then Sent(accepted, Resumed, a.resumedFate) else accepted;
            && Adds(j, resumed, [Accepted(s.sequence, s.url, v.moved, a.acceptTime)]
                                + When(Resumes(v, a), [Attempt(Resumed, a.resumedFate)]))
            && StillFailing(j, resumed, v, a)
            && Heard(resumed, Video) == v.video && Heard(resumed, Audio) == v.audio
  {
  }

  lemma StaleEntries(j: Journal, v: Past, a: AnalysisInput)
    requires PastOf(j) == v.(moved := ManifestChanged(j)) && v.state == Monitoring && Old(v, a)
    ensures var next := StaleChecked(j, a.staleTime, a.suspendedFate);
            && Adds(j, next, [CheckedStale(a.staleTime)] + When(Suspends(v, a), [Attempt(Suspended, a.suspendedFate)]))
            && (StateOf(next) != Error <==> !Fails(v, a)) && StillFailing(j, next, v, a)
  {
  }

  lemma FollowedEntries(j: Journal, v: Past, cfg: Config, a: AnalysisInput)
    requires PastOf(j) == v.(moved := ManifestChanged(j)) && v.state == Monitoring && !Stopped(j) && Finds(v, a)
    ensures var (next, fine) := Followed(j, cfg, v.moved, a.latest.value, a);
            Adds(j, next, Following(v, cfg, a)) && (fine <==> !Fails(v, a)) && (!fine ==> StillFailing(j, next, v, a))
  {
    var (next, fine) := Followed(j, cfg, v.moved, a.latest.value, a);
    if Old(v, a) {
      StaleEntries(j, v, a);
      assert Following(v, cfg, a) == [CheckedStale(a.staleTime)] + When(Suspends(v, a), [Attempt(Suspended, a.suspendedFate)]);
    } else if Takes(v, a) {
      TakenEntries(j, v, cfg, a);
      assert Following(v, cfg, a) == Taking(v, cfg, a);
    } else {
      assert Following(v, cfg, a) == When(Downloads(v, a) && a.stopSegment, [ShutdownSeen]);
    }
  }

  // Ended is sent; if it arrives, or is excused, the stream is completed, unless it had failed before.
  function Concluded(j: Journal, fate: Fate): Journal {
    var ended := Sent(j, Ended, fate);
    if StateOf(ended) == Error then ended else Then(ended, Became(Completed))
  }

  lemma ConcludedState(j: Journal, fate: Fate)
    ensures StateOf(Concluded(j, fate)) == if fate == Fatal || StateOf(j) == Error then Error else Completed
  {
  }

  lemma EndedEntries(j: Journal, fate: Fate)
    ensures Adds(j, Concluded(j, fate), Closing(fate, StateOf(j) == Error))
  {
    var ended := Sent(j, Ended, fate);
    assert Adds(j, ended, [Attempt(Ended, fate)]);
    if StateOf(ended) != Error {
      assert Adds(ended, Concluded(j, fate), [Became(Completed)]);
      AddsBoth(j, ended, Concluded(j, fate), [Attempt(Ended, fate)], [Became(Completed)]);
    }
  }

  lemma OverByListEntries(j: Journal, v: Past, cfg: Config, a: AnalysisInput)
    requires PastOf(j) == v && v.state == Monitoring && !Stopped(j) && !a.stopFetch && a.endList == Some(true)
    ensures var (next, fine) := Analysis(j, cfg, a);
            && Adds(j, next, [FoundEndList] + Closing(a.endedFate, false)) && (fine <==> !Fails(v, a))
            && (!fine ==> StillFailing(j, next, v, a))
  {
    var found := Then(j, FoundEndList);
    EndedEntries(found, a.endedFate);
    var next := Analysis(j, cfg, a).0;
    AddsBoth(j, found, next, [FoundEndList], Closing(a.endedFate, false));
  }

  lemma AnalysisEntries(j: Journal, v: Past, cfg: Config, a: AnalysisInput)
    requires PastOf(j) == v && v.state == Monitoring && !Stopped(j)
    ensures var (next, fine) := Analysis(j, cfg, a);
            Adds(j, next, Reading(v, cfg, a)) && (fine <==> !Fails(v, a)) && (!fine ==> StillFailing(j, next, v, a))
  {
    if Finds(v, a) {
      var looked := Then(j, LookedUp);
      FollowedEntries(looked, v, cfg, a);
      AddsBoth(j, looked, Analysis(j, cfg, a).0, [LookedUp], Following(v, cfg, a));
      assert Reading(v, cfg, a) == [LookedUp] + Following(v, cfg, a);
    } else if !a.stopFetch && a.endList == Some(true) {
      OverByListEntries(j, v, cfg, a);
      assert Reading(v, cfg, a) == [FoundEndList] + Closing(a.endedFate, false);
    } else {
      assert Reading(v, cfg, a) == When(a.stopFetch, [ShutdownSeen]);
    }
  }

  lemma ProbedEntries(j: Journal, n: Journal, v: Past, i: CycleInput)
    requires PastOf(j) == v && StillFailing(j, n, v, i.analysis) && AsksAgain(v, i)
    ensures var (next, over) := ErrorHandled(n, i.errorTime, i.probe, i.probeFate);
            Adds(n, next, Failing(v, i)) && (over <==> i.probe == NotLive)
  {
    var failed := Then(n, CycleFailed(i.errorTime));
    var probed := Then(failed, Probed(i.errorTime, i.probe));
    assert ProbeDue(failed, i.errorTime);
    assert Adds(n, probed, [CycleFailed(i.errorTime)] + [Probed(i.errorTime, i.probe)]);
    if i.probe == NotLive {
      assert StateOf(probed) == StateOf(n);
      EndedEntries(probed, i.probeFate);
      AddsBoth(n, probed, Concluded(probed, i.probeFate), [CycleFailed(i.errorTime)] + [Probed(i.errorTime, i.probe)],
               Closing(i.probeFate, Loses(v, i.analysis)));
    }
  }

  lemma FailingEntries(j: Journal, n: Journal, v: Past, i: CycleInput)
    requires PastOf(j) == v && StillFailing(j, n, v, i.analysis)
    ensures var (next, over) := ErrorHandled(n, i.errorTime, i.probe, i.probeFate);
            Adds(n, next, Failing(v, i)) && (over <==> AsksAgain(v, i) && i.probe == NotLive)
  {
    if AsksAgain(v, i) {
      ProbedEntries(j, n, v, i);
    } else {
      assert !ProbeDue(Then(n, CycleFailed(i.errorTime)), i.errorTime);
    }
  }

  lemma WaitedEntries(j: Journal, i: CycleInput)
    ensures Adds(j, Waited(j, i).0, When(i.stopWait, [ShutdownSeen]))
  {
  }

  lemma WorkingEntries(j: Journal, v: Past, cfg: Config, i: CycleInput)
    requires PastOf(j) == v && v.state == Monitoring && !Stopped(j)
    ensures Adds(j, Analysing(j, cfg, i).0, Working(v, cfg, i))
  {
    var (analysed, fine) := Analysis(j, cfg, i.analysis);
    AnalysisEntries(j, v, cfg, i.analysis);
    var reading := Reading(v, cfg, i.analysis);
    if fine {
      var cleared := Then(analysed, CycleFine);
      WaitedEntries(cleared, i);
      AddsBoth(j, analysed, cleared, reading, [CycleFine]);
      AddsBoth(j, cleared, Waited(cleared, i).0, reading + [CycleFine], When(i.stopWait, [ShutdownSeen]));
    } else {
      FailingEntries(j, analysed, v, i);
      var handled := ErrorHandled(analysed, i.errorTime, i.probe, i.probeFate).0;
      AddsBoth(j, analysed, handled, reading, Failing(v, i));
      WaitedEntries(handled, i);
      AddsBoth(j, handled, Waited(handled, i).0, reading + Failing(v, i), When(i.stopWait, [ShutdownSeen]));
    }
  }

  lemma CheckEntries(j: Journal, i: CycleInput)
    requires !i.stopTop && StateOf(j) != Error
    ensures var (next, outcome) := LiveCheck(j, i);
            if OverByCheck(LastLiveCheck(j), i) then
              && Adds(j, next, [LiveChecked(i.liveTime, i.live)] + Closing(i.endedFate, false))
              && outcome == (if i.endedFate == Fatal then ReturnsError else Pending)
              && (outcome.Pending? ==> StateOf(next) == Completed)
            else
              && Adds(j, next, When(Asks(LastLiveCheck(j), i), [LiveChecked(i.liveTime, i.live)]))
              && outcome.Pending? && PastOf(next) == PastOf(j) && ManifestURL(next) == ManifestURL(j) && Stopped(next) == Stopped(j)
  {
    if OverByCheck(LastLiveCheck(j), i) {
      var checked := Then(j, LiveChecked(i.liveTime, i.live));
      EndedEntries(checked, i.endedFate);
      ConcludedState(checked, i.endedFate);
      AddsBoth(j, checked, Concluded(checked, i.endedFate), [LiveChecked(i.liveTime, i.live)], Closing(i.endedFate, false));
    }
  }

  // What is left of a cycle after the live check
  function Gone(j: Journal, cfg: Config, i: CycleInput): Journal {
    var refreshed := Polled(Refreshed(j, i.refreshes), i.stopRefresh);
    if Stopped(refreshed) then refreshed
    else
      var ready := Polled(refreshed, i.stopAnalysis);
      if Stopped(ready) then ready else Analysing(ready, cfg, i).0
  }

  lemma GoingEntries(j: Journal, cfg: Config, i: CycleInput)
    requires StateOf(j) == Monitoring && !Stopped(j)
    ensures Adds(j, Gone(j, cfg, i), Going(ManifestURL(j), PastOf(j), cfg, i))
  {
    var refreshed := Refreshed(j, i.refreshes);
    MovesEntries(j, i.refreshes);
    MovesSeen(j, i.refreshes);
    if !i.stopRefresh && !i.stopAnalysis {
      WorkingEntries(refreshed, PastOf(refreshed), cfg, i);
      AddsBoth(j, refreshed, Gone(j, cfg, i), Moves(i.refreshes), Working(PastOf(refreshed), cfg, i));
    }
  }

  // A cycle writes what the table says, and nothing else.
  lemma CycleChronicled(j: Journal, cfg: Config, i: CycleInput)
    requires (StateOf(j) == Monitoring || StateOf(j) == Completed) && !Stopped(j)
    ensures Entries(Cycle(j, cfg, i).0) == Entries(j) + Chronicle(LastLiveCheck(j), ManifestURL(j), PastOf(j), cfg, i)
  {
    if !i.stopTop {
      var checked := LiveCheck(j, i).0;
      CheckEntries(j, i);
      if !OverByCheck(LastLiveCheck(j), i) && StateOf(j) == Monitoring {
        GoingEntries(checked, cfg, i);
        AddsBoth(j, checked, Gone(checked, cfg, i), When(Asks(LastLiveCheck(j), i), [LiveChecked(i.liveTime, i.live)]),
                 Going(ManifestURL(checked), PastOf(checked), cfg, i));
      }
    }
  }

  // How it ends: with an error where ended is lost at the end of the stream, else with the end of the
  // stream or a shutdown, else not at all.
  predicate OverByProbe(v: Past, i: CycleInput) {
    Fails(v, i.analysis) && AsksAgain(v, i) && i.probe == NotLive
  }

  function WorkingEnd(v: Past, i: CycleInput): Outcome {
    if OverByProbe(v, i) then (if i.probeFate == Fatal || Loses(v, i.analysis) then ReturnsError else ReturnsNil)
    else if i.stopWait || i.analysis.stopFetch || (Downloads(v, i.analysis) && i.analysis.stopSegment) then ReturnsNil
    else Pending
  }

  function CycleEnd(lastCheck: Option<int>, manifest: string, v: Past, i: CycleInput): Outcome {
    if i.stopTop then ReturnsNil
    else if OverByCheck(lastCheck, i) then (if i.endedFate == Fatal then ReturnsError else ReturnsNil)
    else if v.state == Completed || i.stopRefresh || i.stopAnalysis then ReturnsNil
    else WorkingEnd(v.(moved := v.moved || Elsewhere(manifest, i.refreshes)), i)
  }

  lemma StopsByEntries(j: Journal, next: Journal, es: seq<Entry>)
    requires Adds(j, next, es)
    ensures Stopped(next) <==> Stopped(j) || ShutdownSeen in es
  {
    StoppedMeans(j);
    StoppedMeans(next);
  }

  lemma ReadingStops(v: Past, cfg: Config, a: AnalysisInput)
    ensures ShutdownSeen in Reading(v, cfg, a) <==> a.stopFetch || (Downloads(v, a) && a.stopSegment)
  {
    if Takes(v, a) {
      TakingStops(v, cfg, a);
    }
  }

  lemma TakingStops(v: Past, cfg: Config, a: AnalysisInput)
    requires Takes(v, a)
    ensures ShutdownSeen !in Taking(v, cfg, a)
  {
  }

  lemma WorkingEnds(j: Journal, v: Past, cfg: Config, i: CycleInput)
    requires PastOf(j) == v && v.state == Monitoring && !Stopped(j)
    ensures Analysing(j, cfg, i).1 == WorkingEnd(v, i)
  {
    var (analysed, fine) := Analysis(j, cfg, i.analysis);
    AnalysisEntries(j, v, cfg, i.analysis);
    StopsByEntries(j, analysed, Reading(v, cfg, i.analysis));
    ReadingStops(v, cfg, i.analysis);
    if !fine {
      FailingEntries(j, analysed, v, i);
      StopsByEntries(analysed, ErrorHandled(analysed, i.errorTime, i.probe, i.probeFate).0, Failing(v, i));
      if OverByProbe(v, i) {
        OverByProbeEnds(j, analysed, v, i);
      }
    }
  }

  lemma OverByProbeEnds(j: Journal, n: Journal, v: Past, i: CycleInput)
    requires PastOf(j) == v && StillFailing(j, n, v, i.analysis) && OverByProbe(v, i)
    ensures StateOf(ErrorHandled(n, i.errorTime, i.probe, i.probeFate).0) ==
            if i.probeFate == Fatal || Loses(v, i.analysis) then Error else Completed
  {
    var failed := Then(n, CycleFailed(i.errorTime));
    var probed := Then(failed, Probed(i.errorTime, i.probe));
    assert ProbeDue(failed, i.errorTime) && StateOf(failed) == StateOf(n) == StateOf(probed);
    assert ErrorHandled(n, i.errorTime, i.probe, i.probeFate).0 == Concluded(probed, i.probeFate);
    ConcludedState(probed, i.probeFate);
  }

  lemma CycleEnds(j: Journal, cfg: Config, i: CycleInput)
    requires (StateOf(j) == Monitoring || StateOf(j) == Completed) && !Stopped(j)
    ensures Cycle(j, cfg, i).1 == CycleEnd(LastLiveCheck(j), ManifestURL(j), PastOf(j), i)
  {
    if !i.stopTop {
      var checked := LiveCheck(j, i).0;
      CheckEntries(j, i);
      if !OverByCheck(LastLiveCheck(j), i) && StateOf(j) == Monitoring {
        MovesEntries(checked, i.refreshes);
        MovesSeen(checked, i.refreshes);
        if !i.stopRefresh && !i.stopAnalysis {
          WorkingEnds(Refreshed(checked, i.refreshes), PastOf(Refreshed(checked, i.refreshes)), cfg, i);
        }
      }
    }
  }

  // ---- Waiting

  // The delay is announced once, when the scheduled start and the tolerance are over.
  predicate Late(j: Journal, cfg: Config, i: WaitInput) {
    cfg.delayThreshold.Some? && i.now > cfg.delayThreshold.value && !Attempted(j, Delayed)
  }

  function Waiting(j: Journal, cfg: Config, first: bool, i: WaitInput): seq<Entry> {
    if i.stop || (!first && i.stopTick) then [ShutdownSeen]
    else
      match i.live
      case Unreachable => []
      case Live => [FoundLive, Attempt(Started, i.startedFate)] + When(i.startedFate != Fatal, [Became(Monitoring)])
      case NotLive =>
        [StillWaiting(i.now)] + When(Late(j, cfg, i), [Attempt(Delayed, i.delayedFate)])
        + (if i.over then [FoundOver] + Closing(i.endedFate, Late(j, cfg, i) && i.delayedFate == Fatal) else [])
  }

  function WaitingEnd(j: Journal, cfg: Config, first: bool, i: WaitInput): Outcome {
    if i.stop || (!first && i.stopTick) then ReturnsNil
    else
      match i.live
      case Unreachable => Pending
      case Live => if i.startedFate == Fatal then ReturnsError else ReturnsNil
      case NotLive =>
        if !i.over then Pending
        else if i.endedFate == Fatal || (Late(j, cfg, i) && i.delayedFate == Fatal) then ReturnsError
        else ReturnsNil
  }

  lemma NotYetLiveChronicled(j: Journal, cfg: Config, i: WaitInput)
    requires StateOf(j) == State.Waiting && !Stopped(j) && i.live == NotLive
    ensures Adds(j, NotYetLive(j, cfg, i).0,
                 [StillWaiting(i.now)] + When(Late(j, cfg, i), [Attempt(Delayed, i.delayedFate)])
                 + (if i.over then [FoundOver] + Closing(i.endedFate, Late(j, cfg, i) && i.delayedFate == Fatal) else []))
    ensures NotYetLive(j, cfg, i).1 ==
            if !i.over then Pending
            else if i.endedFate == Fatal || (Late(j, cfg, i) && i.delayedFate == Fatal) then ReturnsError
            else ReturnsNil
  {
    var waited := Then(j, StillWaiting(i.now));
    var warned := if Late(j, cfg, i) then Sent(waited, Delayed, i.delayedFate) else waited;
    var warning := [StillWaiting(i.now)] + When(Late(j, cfg, i), [Attempt(Delayed, i.delayedFate)]);
    assert Adds(j, warned, warning);
    if i.over {
      var found := Then(warned, FoundOver);
      EndedEntries(found, i.endedFate);
      ConcludedState(found, i.endedFate);
      assert StateOf(found) == StateOf(warned) == if Late(j, cfg, i) && i.delayedFate == Fatal then Error else State.Waiting;
      AddsBoth(warned, found, Concluded(found, i.endedFate), [FoundOver], Closing(i.endedFate, Late(j, cfg, i) && i.delayedFate == Fatal));
    }
  }

  // A round of waiting writes what the table says, and ends as it says.
  lemma WaitChronicled(j: Journal, cfg: Config, first: bool, i: WaitInput)
    requires StateOf(j) == State.Waiting && !Stopped(j)
    ensures Entries(WaitStep(j, cfg, first, i).0) == Entries(j) + Waiting(j, cfg, first, i)
    ensures WaitStep(j, cfg, first, i).1 == WaitingEnd(j, cfg, first, i)
  {
    if !i.stop && (first || !i.stopTick) {
      match i.live
      case NotLive => NotYetLiveChronicled(j, cfg, i);
      case Live => GoneLiveChronicled(j, i.startedFate);
      case Unreachable =>
    }
  }

  lemma GoneLiveChronicled(j: Journal, fate: Fate)
    requires StateOf(j) == State.Waiting
    ensures var started := Sent(Then(j, FoundLive), Started, fate);
            && (StateOf(started) == Error <==> fate == Fatal)
            && Adds(j, if fate == Fatal then started else Then(started, Became(Monitoring)),
                    [FoundLive, Attempt(Started, fate)] + When(fate != Fatal, [Became(Monitoring)]))
  {
    var started := Sent(Then(j, FoundLive), Started, fate);
    assert Adds(j, started, [FoundLive, Attempt(Started, fate)]);
  }

  // ---- The main loop

  // What a visit comes to before it enters a mode, and without a manifest
  lemma VisitsEnd(j: Journal, cfg: Config, visits: seq<Visit>)
    requires visits != []
    ensures visits[0].stop ==> Main(j, cfg, visits) == (Then(j, ShutdownSeen), ReturnsNil)
    ensures !visits[0].stop && (Stopped(j) || StateOf(j) == Completed) ==> Main(j, cfg, visits) == (j, ReturnsNil)
    ensures !visits[0].stop && !Stopped(j) && StateOf(j) == Error ==> Main(j, cfg, visits) == (j, ReturnsError)
    ensures !visits[0].stop && !Stopped(j) && StateOf(j) == Monitoring && visits[0].manifest.None? ==>
              Main(j, cfg, visits) == (Then(j, Became(Error)), ReturnsError)
    ensures StateOf(j) == Monitoring && visits[0].manifest.Some? ==>
              Round(j, cfg, visits[0]) ==
              Cycles(Then(j, Entered(visits[0].manifest.value, visits[0].entered)), cfg, visits[0].cycles)
  {
  }
}
