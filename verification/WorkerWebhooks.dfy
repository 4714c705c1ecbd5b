/** That the webhooks of every run speak the language, and when they leave the narrower one. */
module WorkerWebhooks {
  import opened Wrappers
  import opened Detection
  import opened WorkerHistory
  import opened WorkerSpec
  import opened WorkerLanguage

  function Told(j: Journal): Stage {
    if j.Nothing? then Fresh else if j.last.Attempt? then Stepped(Told(j.past), j.last.event) else Told(j.past)
  }

  lemma {:induction false} ToldIsStage(j: Journal)
    ensures Told(j) == StageOf(Events(j))
  {
    if j.Then? {
      ToldIsStage(j.past);
      if j.last.Attempt? {
        StageGrows(Events(j.past), j.last.event);
      }
    }
  }

  // ---- Waiting

  ghost predicate WaitingAt(j: Journal) {
    && (StateOf(j) == Waiting || StateOf(j) == Error)
    && Told(j) == (if Attempted(j, Delayed) then Late else Fresh)
  }

  // What can have been told when waiting is over
  ghost predicate WaitedAt(j: Journal, outcome: Outcome) {
    match outcome
    case Pending => WaitingAt(j)
    case ReturnsError => Told(j) != Broken && Told(j) != OverLate && Told(j) != OverAgain
    case ReturnsNil =>
      || (Stopped(j) && WaitingAt(j))
      || (StateOf(j) == Monitoring && Told(j) == Watching)
      || (StateOf(j) == Completed && Told(j) == NeverSeen)
  }

  lemma NotYetLiveTells(j: Journal, cfg: Config, i: WaitInput)
    requires WaitingAt(j) && StateOf(j) == Waiting
    ensures WaitedAt(NotYetLive(j, cfg, i).0, NotYetLive(j, cfg, i).1)
  {
    var waited := Then(j, StillWaiting(i.now));
    assert WaitingAt(waited) && Attempted(waited, Delayed) == Attempted(j, Delayed);
    var warned := if DelayDue(j, cfg, i.now) then Sent(waited, Delayed, i.delayedFate) else waited;
    assert WaitingAt(warned);
    assert WaitingAt(Then(warned, FoundOver));
    assert Told(Sent(Then(warned, FoundOver), Ended, i.endedFate)) == NeverSeen;
  }

  lemma WaitStepTells(j: Journal, cfg: Config, first: bool, i: WaitInput)
    requires WaitingAt(j)
    ensures WaitedAt(WaitStep(j, cfg, first, i).0, WaitStep(j, cfg, first, i).1)
  {
    if StateOf(j) != Error {
      var top := Polled(j, i.stop);
      assert WaitingAt(top);
      if !Stopped(top) {
        var ticked := if first then top else Polled(top, i.stopTick);
        assert WaitingAt(ticked);
        if i.live == NotLive {
          NotYetLiveTells(ticked, cfg, i);
        } else if i.live == Live {
          assert WaitingAt(Then(ticked, FoundLive));
          assert Told(Sent(Then(ticked, FoundLive), Started, i.startedFate)) == Watching;
        }
      }
    }
  }

  lemma {:induction false} WaitTells(j: Journal, cfg: Config, first: bool, script: seq<WaitInput>)
    requires WaitingAt(j)
    ensures WaitedAt(Wait(j, cfg, first, script).0, Wait(j, cfg, first, script).1)
    decreases |script|
  {
    if script != [] {
      WaitStepTells(j, cfg, first, script[0]);
      var (next, outcome) := WaitStep(j, cfg, first, script[0]);
      if outcome.Pending? {
        WaitTells(next, cfg, false, script[1..]);
      }
    }
  }

  // ---- Monitoring

  ghost predicate MonitoringAt(j: Journal) {
    || (StateOf(j) == Monitoring && Told(j) == Watching)
    || (StateOf(j) == Completed && Told(j) == Over)
    || (StateOf(j) == Error && (Told(j) == Watching || Told(j) == Over || Told(j) == OverLate))
  }

  ghost predicate MonitoredAt(j: Journal, outcome: Outcome) {
    match outcome
    case Pending => MonitoringAt(j)
    case ReturnsError => Told(j) != Broken
    case ReturnsNil => (Stopped(j) && MonitoringAt(j)) || (StateOf(j) == Completed && (Told(j) == Over || Told(j) == OverAgain))
  }

  // The live check lets the cycle go on.
  predicate NotFoundOver(j: Journal, i: CycleInput) {
    i.live != NotLive || (LastLiveCheck(j).Some? && i.liveTime - LastLiveCheck(j).value < LIVE_CHECK_INTERVAL)
  }

  // The cycle finds the end of the stream in the manifest and cannot deliver that; the failure that
  // this counts as comes a minute into an unprobed streak.
  predicate EndsUnheard(j: Journal, i: CycleInput) {
    && StateOf(j) == Monitoring && !Stopped(j) && !i.stopTop && NotFoundOver(j, i)
    && !i.stopRefresh && !i.stopAnalysis && !i.analysis.stopFetch && EndLost(j, i)
  }

  predicate EndLost(j: Journal, i: CycleInput) {
    i.analysis.endList == Some(true) && i.analysis.endedFate == Fatal && ProbeDue(j, i.errorTime)
  }

  // The probe then finds the stream live.
  predicate Relapses(j: Journal, i: CycleInput) {
    EndsUnheard(j, i) && i.probe == Live
  }

  // The probe then finds it over; or monitoring had ended, and the live check that the next cycle
  // makes all the same finds it over.
  predicate EndsAgain(j: Journal, i: CycleInput) {
    || (EndsUnheard(j, i) && i.probe == NotLive)
    || (StateOf(j) == Completed && !Stopped(j) && !i.stopTop && !NotFoundOver(j, i))
  }

  lemma AlertedTells(j: Journal, kind: Kind, due: Option<Alert>, fate: Fate)
    requires Told(j) == Watching && (StateOf(j) == Monitoring || StateOf(j) == Error)
    ensures Told(Alerted(j, kind, due, fate)) == Watching
    ensures StateOf(Alerted(j, kind, due, fate)) == Monitoring || StateOf(Alerted(j, kind, due, fate)) == Error
  {
  }

  lemma DetectedTells(j: Journal, cfg: Config, kind: Kind, sample: Sample, fate: Fate)
    requires Told(j) == Watching && (StateOf(j) == Monitoring || StateOf(j) == Error)
    ensures var d := Detected(j, cfg, kind, sample, fate);
            Told(d) == Watching && (StateOf(d) == Monitoring || StateOf(d) == Error)
  {
    var analysed := Then(j, Analysed(kind, sample));
    AlertedTells(analysed, kind, Due(Heard(analysed, kind), Threshold(cfg, kind)), fate);
  }

  lemma FollowedTells(j: Journal, cfg: Config, rebaseline: bool, s: Segment, i: AnalysisInput)
    requires Told(j) == Watching && StateOf(j) == Monitoring
    ensures var a := Followed(j, cfg, rebaseline, s, i).0;
            Told(a) == Watching && (StateOf(a) == Monitoring || StateOf(a) == Error)
  {
    var polled := Polled(j, i.stopSegment);
    assert Told(polled) == Watching && StateOf(polled) == Monitoring;
    if i.verdict.Some? {
      var accepted := Then(polled, Accepted(s.sequence, s.url, rebaseline, i.acceptTime));
      var announce := !rebaseline && SuspensionOpen(polled);
      var resumed := if announce then Sent(accepted, Resumed, i.resumedFate) else accepted;
      assert Told(accepted) == Watching && StateOf(accepted) == Monitoring && Told(resumed) == Watching;
      var video := Detected(resumed, cfg, Video, Sample(i.verdict.value.black, s.duration), i.videoFate);
      DetectedTells(resumed, cfg, Video, Sample(i.verdict.value.black, s.duration), i.videoFate);
      DetectedTells(video, cfg, Audio, Sample(i.verdict.value.silent, s.duration), i.audioFate);
    }
  }

  // Only an end of list ends the story within an analysis.
  lemma AnalysisTells(j: Journal, cfg: Config, i: AnalysisInput)
    requires Told(j) == Watching && StateOf(j) == Monitoring && !Stopped(j)
    ensures var (a, fine) := Analysis(j, cfg, i);
            if !i.stopFetch && i.endList == Some(true) then
              && Told(a) == Over && (fine <==> i.endedFate != Fatal) && StateOf(a) == (if fine then Completed else Error)
              && (!fine ==> a == Sent(Then(j, FoundEndList), Ended, Fatal))
            else Told(a) == Watching && (StateOf(a) == Monitoring || StateOf(a) == Error)
  {
    var polled := Polled(j, i.stopFetch);
    assert Told(polled) == Watching && StateOf(polled) == Monitoring;
    if !i.stopFetch {
      var found := Then(polled, FoundEndList);
      assert Told(found) == Watching && StateOf(found) == Monitoring;
      assert Told(Sent(found, Ended, i.endedFate)) == Over;
      if i.endList == Some(false) && i.latest.Some? {
        assert Told(Then(polled, LookedUp)) == Watching && StateOf(Then(polled, LookedUp)) == Monitoring;
        FollowedTells(Then(polled, LookedUp), cfg, ManifestChanged(polled), i.latest.value, i);
      }
    }
  }

  lemma ErrorHandledTells(j: Journal, now: int, probe: Liveness, fate: Fate)
    requires (Told(j) == Watching && (StateOf(j) == Monitoring || StateOf(j) == Error)) || (Told(j) == Over && StateOf(j) == Error)
    ensures var (h, over) := ErrorHandled(j, now, probe, fate);
            && (Told(h) == OverLate <==> Told(j) == Over && ProbeDue(j, now) && probe == Live)
            && (Told(h) == OverAgain <==> Told(j) == Over && ProbeDue(j, now) && probe == NotLive)
            && (if over then (Told(h) == Over || Told(h) == OverAgain) && (StateOf(h) == Completed || StateOf(h) == Error)
                else MonitoringAt(h))
  {
    var failed := Then(j, CycleFailed(now));
    assert ProbeDue(failed, now) <==> ProbeDue(j, now);
    assert Told(failed) == Told(j) && StateOf(failed) == StateOf(j);
    var probed := Then(failed, Probed(now, probe));
    assert Told(probed) == Told(j) && StateOf(probed) == StateOf(j);
    assert Told(Sent(probed, Ended, fate)) == Stepped(Told(j), Ended);
  }

  lemma AnalysingTells(j: Journal, cfg: Config, i: CycleInput)
    requires Told(j) == Watching && StateOf(j) == Monitoring && !Stopped(j)
    ensures var (next, outcome) := Analysing(j, cfg, i);
            && MonitoredAt(next, outcome)
            && (Told(next) == OverLate <==> !i.analysis.stopFetch && EndLost(j, i) && i.probe == Live)
            && (Told(next) == OverAgain <==> !i.analysis.stopFetch && EndLost(j, i) && i.probe == NotLive)
  {
    var (analysed, fine) := Analysis(j, cfg, i.analysis);
    AnalysisTells(j, cfg, i.analysis);
    if fine {
      assert MonitoringAt(Then(analysed, CycleFine)) && Told(Then(analysed, CycleFine)) == Told(analysed);
    } else {
      assert ProbeDue(Then(j, FoundEndList), i.errorTime) == ProbeDue(j, i.errorTime);
      ErrorHandledTells(analysed, i.errorTime, i.probe, i.probeFate);
    }
  }

  lemma {:induction false} RefreshedTells(j: Journal, urls: seq<Option<string>>)
    ensures var r := Refreshed(j, urls);
            && Told(r) == Told(j) && StateOf(r) == StateOf(j) && Stopped(r) == Stopped(j)
            && FailingSince(r) == FailingSince(j) && Probes(r) == Probes(j)
    decreases |urls|
  {
    if urls != [] {
      RefreshedTells(if urls[0].Some? then Then(j, Relocated(urls[0].value)) else j, urls[1..]);
    }
  }

  lemma LiveCheckTells(j: Journal, i: CycleInput)
    requires MonitoringAt(j) && StateOf(j) != Error
    ensures var (c, outcome) := LiveCheck(j, i);
            && (NotFoundOver(j, i) ==> outcome.Pending? && StateOf(c) == StateOf(j) && Told(c) == Told(j) && Stopped(c) == Stopped(j))
            && (NotFoundOver(j, i) ==> FailingSince(c) == FailingSince(j) && Probes(c) == Probes(j))
            && (!NotFoundOver(j, i) ==> StateOf(c) == (if outcome.ReturnsError? then Error else Completed))
            && (!NotFoundOver(j, i) ==> Told(c) == if Told(j) == Watching then Over else OverAgain)
  {
    var checked := Then(j, LiveChecked(i.liveTime, i.live));
    assert Told(checked) == Told(j) && StateOf(checked) == StateOf(j);
    assert Told(Sent(checked, Ended, i.endedFate)) == Stepped(Told(j), Ended);
  }

  lemma CycleTells(j: Journal, cfg: Config, i: CycleInput)
    requires MonitoringAt(j)
    ensures var (next, outcome) := Cycle(j, cfg, i);
            && MonitoredAt(next, outcome)
            && (Told(next) == OverLate <==> Told(j) == OverLate || Relapses(j, i))
            && (Told(next) == OverAgain <==> EndsAgain(j, i))
  {
    if StateOf(j) != Error {
      var top := Polled(j, i.stopTop);
      assert MonitoringAt(top) && StateOf(top) == StateOf(j) && Told(top) == Told(j);
      if !Stopped(top) {
        LiveCheckTells(top, i);
        var checked := LiveCheck(top, i).0;
        if NotFoundOver(top, i) && StateOf(j) == Monitoring {
          RefreshedTells(checked, i.refreshes);
          var refreshed := Polled(Refreshed(checked, i.refreshes), i.stopRefresh);
          assert Told(refreshed) == Watching && StateOf(refreshed) == Monitoring;
          if !Stopped(refreshed) {
            var ready := Polled(refreshed, i.stopAnalysis);
            assert Told(ready) == Watching && StateOf(ready) == Monitoring;
            if !Stopped(ready) {
              AnalysingTells(ready, cfg, i);
            }
          }
        }
      }
    }
  }

  // Some cycle of the script is reached and is of the given kind.
  predicate CyclesReach(kind: (Journal, CycleInput) -> bool, j: Journal, cfg: Config, script: seq<CycleInput>)
    decreases |script|
  {
    script != [] &&
    (kind(j, script[0]) ||
     (Cycle(j, cfg, script[0]).1.Pending? && CyclesReach(kind, Cycle(j, cfg, script[0]).0, cfg, script[1..])))
  }

  lemma {:induction false} CyclesTell(j: Journal, cfg: Config, script: seq<CycleInput>)
    requires MonitoringAt(j)
    ensures var (next, outcome) := Cycles(j, cfg, script);
            && MonitoredAt(next, outcome)
            && (Told(next) == OverLate <==> Told(j) == OverLate || CyclesReach(Relapses, j, cfg, script))
            && (Told(next) == OverAgain <==> CyclesReach(EndsAgain, j, cfg, script))
    decreases |script|
  {
    if script != [] {
      CycleTells(j, cfg, script[0]);
      var (next, outcome) := Cycle(j, cfg, script[0]);
      if outcome.Pending? {
        CyclesTell(next, cfg, script[1..]);
      }
    }
  }

  // ---- Runs

  predicate RunReaches(kind: (Journal, CycleInput) -> bool, j: Journal, cfg: Config, visits: seq<Visit>)
    decreases |visits|
  {
    visits != [] &&
    var polled := Polled(j, visits[0].stop);
    !Stopped(polled) && (StateOf(polled) == Waiting || StateOf(polled) == Monitoring) &&
    (VisitReaches(kind, polled, cfg, visits[0]) ||
     (Round(polled, cfg, visits[0]).1.ReturnsNil? && RunReaches(kind, Round(polled, cfg, visits[0]).0, cfg, visits[1..])))
  }

  predicate VisitReaches(kind: (Journal, CycleInput) -> bool, j: Journal, cfg: Config, v: Visit) {
    StateOf(j) == Monitoring && v.manifest.Some? &&
    CyclesReach(kind, Then(j, Entered(v.manifest.value, v.entered)), cfg, v.cycles)
  }

  // What can have been told between two rounds of the main loop
  ghost predicate RoundAt(j: Journal) {
    || WaitingAt(j)
    || (StateOf(j) == Monitoring && Told(j) == Watching)
    || (StateOf(j) == Completed && (Told(j) == NeverSeen || Told(j) == Over || Told(j) == OverAgain))
    || (Stopped(j) && Told(j) != Broken)
  }

  lemma RoundTells(j: Journal, cfg: Config, v: Visit)
    requires RoundAt(j) && !Stopped(j) && (StateOf(j) == Waiting || StateOf(j) == Monitoring)
    ensures var (next, outcome) := Round(j, cfg, v);
            && Told(next) != Broken && (outcome.ReturnsNil? ==> RoundAt(next))
            && (Told(next) == OverLate <==> VisitReaches(Relapses, j, cfg, v))
            && (Told(next) == OverAgain <==> VisitReaches(EndsAgain, j, cfg, v))
  {
    if StateOf(j) == Waiting {
      WaitTells(j, cfg, true, v.waits);
    } else if v.manifest.Some? {
      var entered := Then(j, Entered(v.manifest.value, v.entered));
      assert MonitoringAt(entered) && Told(entered) == Watching;
      CyclesTell(entered, cfg, v.cycles);
    }
  }

  // After the last word nothing happens any more.
  lemma {:induction false} MainTells(j: Journal, cfg: Config, visits: seq<Visit>)
    requires RoundAt(j)
    ensures var next := Main(j, cfg, visits).0;
            && Told(next) != Broken
            && (Told(next) == OverLate <==> Told(j) == OverLate || RunReaches(Relapses, j, cfg, visits))
            && (Told(next) == OverAgain <==> Told(j) == OverAgain || RunReaches(EndsAgain, j, cfg, visits))
    decreases |visits|
  {
    if visits != [] {
      var polled := Polled(j, visits[0].stop);
      assert Told(polled) == Told(j) && StateOf(polled) == StateOf(j) && RoundAt(polled);
      if !Stopped(polled) && (StateOf(polled) == Waiting || StateOf(polled) == Monitoring) {
        RoundTells(polled, cfg, visits[0]);
        var (next, outcome) := Round(polled, cfg, visits[0]);
        if outcome.ReturnsNil? {
          MainTells(next, cfg, visits[1..]);
        }
      }
    }
  }

  // The webhooks attempted by any run, finished or not, form a word of the language.
  lemma RunsSpeakTheLanguage(cfg: Config, noTmpDir: bool, visits: seq<Visit>)
    ensures InLanguage(Events(Run(cfg, noTmpDir, visits).0))
  {
    var j := Run(cfg, noTmpDir, visits).0;
    ToldIsStage(j);
    SpelledExactly(Events(j));
    if !noTmpDir {
      MainTells(Nothing, cfg, visits);
    }
  }

  // It is a word of the narrower language exactly if no cycle relapses.
  lemma NarrowExactlyWithoutRelapse(cfg: Config, visits: seq<Visit>)
    ensures InNarrowLanguage(Events(Run(cfg, false, visits).0)) <==> !RunReaches(Relapses, Nothing, cfg, visits)
  {
    var j := Run(cfg, false, visits).0;
    ToldIsStage(j);
    SpelledExactly(Events(j));
    MainTells(Nothing, cfg, visits);
  }

  function Count(es: seq<Event>, e: Event): nat {
    if es == [] then 0 else Count(es[..|es| - 1], e) + (if es[|es| - 1] == e then 1 else 0)
  }

  lemma {:induction false} EndingsTold(es: seq<Event>)
    requires StageOf(es) != Broken
    ensures Count(es, Ended) ==
            match StageOf(es)
            case NeverSeen => 1
            case Over => 1
            case OverLate => 1
            case OverAgain => 2
            case _ => 0
  {
    if es != [] {
      EndingsTold(es[..|es| - 1]);
    }
  }

  // Ended is attempted at most twice, and twice exactly if some cycle ends the stream again.
  lemma EndedTwiceExactly(cfg: Config, visits: seq<Visit>)
    ensures var es := Events(Run(cfg, false, visits).0);
            Count(es, Ended) <= 2 && (Count(es, Ended) == 2 <==> RunReaches(EndsAgain, Nothing, cfg, visits))
  {
    var j := Run(cfg, false, visits).0;
    ToldIsStage(j);
    MainTells(Nothing, cfg, visits);
    EndingsTold(Events(j));
  }

  // ---- Runs that say too much

  const GOES_LIVE := WaitInput(false, false, Live, false, 0, Delivered, Delivered, Delivered)

  const NO_MANIFEST := AnalysisInput(
    false, None, Delivered, None, 0, Delivered, false, false, false, None, 0, Delivered, Delivered, Delivered)

  // At time 0 the manifest cannot be read ...
  const FAILS := CycleInput(false, 0, Live, Delivered, [], false, false, NO_MANIFEST, 0, Live, Delivered, false)

  // ... a minute later it says that the stream is over, and the receiver is down.
  function Unheard(probe: Liveness): CycleInput {
    CycleInput(false, 60 * SECOND, Live, Delivered, [], false, false,
               NO_MANIFEST.(endList := Some(true), endedFate := Fatal), 60 * SECOND, probe, Delivered, false)
  }

  // The manifest says that the stream is over, and the receiver hears it ...
  const ENDS := FAILS.(analysis := NO_MANIFEST.(endList := Some(true)))

  // ... and five minutes later yt-dlp says so too.
  const STILL_OVER := FAILS.(liveTime := 300 * SECOND, live := NotLive)

  // The stream goes live, and is monitored with these cycles.
  function Watch(cycles: seq<CycleInput>): seq<Visit> {
    [Visit(false, [GOES_LIVE], None, 0, []), Visit(false, [], Some("manifest"), 0, cycles)]
  }

  const LIVE := Then(Sent(Then(Nothing, FoundLive), Started, Delivered), Became(Monitoring))
  const ENTERED := Then(LIVE, Entered("manifest", 0))
  const CHECKED := Then(ENTERED, LiveChecked(0, Live))
  const FAILING := Then(CHECKED, CycleFailed(0))
  const OVER := Then(Then(Sent(Then(CHECKED, FoundEndList), Ended, Delivered), Became(Completed)), CycleFine)

  lemma NothingYet()
    ensures StateOf(LIVE) == StateOf(ENTERED) == StateOf(CHECKED) == Monitoring
    ensures !Stopped(LIVE) && !Stopped(ENTERED) && !Stopped(CHECKED)
    ensures FailingSince(LIVE) == FailingSince(ENTERED) == FailingSince(CHECKED) == None
    ensures Probes(LIVE) == Probes(ENTERED) == Probes(CHECKED) == 0
    ensures LastLiveCheck(LIVE).None? && LastLiveCheck(ENTERED).None?
  {
  }

  lemma WatchReaches(kind: (Journal, CycleInput) -> bool, cfg: Config, cycles: seq<CycleInput>)
    requires CyclesReach(kind, ENTERED, cfg, cycles)
    ensures RunReaches(kind, Nothing, cfg, Watch(cycles))
  {
    NothingYet();
    var visits := Watch(cycles);
    assert WaitStep(Nothing, cfg, true, GOES_LIVE) == (LIVE, ReturnsNil);
    assert Round(Nothing, cfg, visits[0]) == (LIVE, ReturnsNil);
    assert VisitReaches(kind, LIVE, cfg, visits[1]);
    assert RunReaches(kind, LIVE, cfg, visits[1..]);
  }

  lemma SecondReaches(kind: (Journal, CycleInput) -> bool, cfg: Config, first: CycleInput, j: Journal, second: CycleInput)
    requires Cycle(ENTERED, cfg, first) == (j, Pending) && kind(j, second)
    ensures CyclesReach(kind, ENTERED, cfg, [first, second])
  {
    assert [first, second][1..] == [second];
    assert CyclesReach(kind, j, cfg, [second]);
  }

  lemma FirstCycleFails(cfg: Config)
    ensures Cycle(ENTERED, cfg, FAILS) == (FAILING, Pending)
  {
    NothingYet();
    assert !Stopped(FAILING);
  }

  lemma UnheardAfterAMinute(probe: Liveness)
    ensures EndsUnheard(FAILING, Unheard(probe))
  {
    NothingYet();
  }

  lemma FirstCycleEnds(cfg: Config)
    ensures Cycle(ENTERED, cfg, ENDS) == (OVER, Pending)
  {
    NothingYet();
    assert !Stopped(OVER);
    assert Analysis(CHECKED, cfg, ENDS.analysis) == (OVER.past, true);
  }

  // A failed delivery of ended may be followed by a segment error alert.
  lemma SegmentErrorAfterTheEnd(cfg: Config)
    ensures !InNarrowLanguage(Events(Run(cfg, false, Watch([FAILS, Unheard(Live)])).0))
  {
    FirstCycleFails(cfg);
    UnheardAfterAMinute(Live);
    SecondReaches(Relapses, cfg, FAILS, FAILING, Unheard(Live));
    WatchReaches(Relapses, cfg, [FAILS, Unheard(Live)]);
    NarrowExactlyWithoutRelapse(cfg, Watch([FAILS, Unheard(Live)]));
  }

  // It may be followed by another ended, and so may a delivery that succeeds.
  lemma EndedTwice(cfg: Config)
    ensures Count(Events(Run(cfg, false, Watch([FAILS, Unheard(NotLive)])).0), Ended) == 2
    ensures Count(Events(Run(cfg, false, Watch([ENDS, STILL_OVER])).0), Ended) == 2
  {
    FirstCycleFails(cfg);
    UnheardAfterAMinute(NotLive);
    SecondReaches(EndsAgain, cfg, FAILS, FAILING, Unheard(NotLive));
    WatchReaches(EndsAgain, cfg, [FAILS, Unheard(NotLive)]);
    EndedTwiceExactly(cfg, Watch([FAILS, Unheard(NotLive)]));
    FirstCycleEnds(cfg);
    NothingYet();
    SecondReaches(EndsAgain, cfg, ENDS, OVER, STILL_OVER);
    WatchReaches(EndsAgain, cfg, [ENDS, STILL_OVER]);
    EndedTwiceExactly(cfg, Watch([ENDS, STILL_OVER]));
  }
}
