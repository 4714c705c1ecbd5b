/** What holds of every run of a worker, whatever its inputs. */
module WorkerLaws {
  import opened Wrappers
  import opened Detection
  import opened WorkerHistory
  import opened WorkerSpec

  function Rank(s: State): nat {
    match s
    case Waiting => 0
    case Monitoring => 1
    case Completed => 2
    case Error => 3
  }

  // The webhook that the last entry calls for, if any
  function Owed(j: Journal, cfg: Config): Option<Event> {
    if j.Nothing? then None
    else if j.last.FoundLive? then Some(Started)
    else if j.last.FoundOver? || j.last.FoundEndList? then Some(Ended)
    else if j.last.StillWaiting? then if DelayDue(j.past, cfg, j.last.now) then Some(Delayed) else None
    else if j.last.LiveChecked? then if j.last.found.NotLive? then Some(Ended) else None
    else if j.last.CheckedStale? then if Overdue(j.past, j.last.now) && !SuspensionOpen(j.past) then Some(Suspended) else None
    else if j.last.Accepted? then if !j.last.rebaseline && SuspensionOpen(j.past) then Some(Resumed) else None
    else if j.last.Probed? then
      if j.last.found.NotLive? then Some(Ended) else if j.last.found.Live? then Some(SegmentError) else None
    else if j.last.Analysed? then OwedAlert(j.last.kind, Due(Heard(j, j.last.kind), Threshold(cfg, j.last.kind)))
    else None
  }

  function OwedAlert(kind: Kind, due: Option<Alert>): Option<Event> {
    if due.None? then None else Some(if due.value == Raised then Alarm(kind) else Recovery(kind))
  }

  // What may follow a past: a webhook exactly if it is owed, none once a shutdown was noticed, and
  // anything else only in its time
  ghost predicate EntryLawful(past: Journal, e: Entry, cfg: Config) {
    && Owed(past, cfg) == (if e.Attempt? then Some(e.event) else None)
    && (e.Attempt? ==> !Stopped(past))
    && (e.Became? ==> Rank(StateOf(past)) <= Rank(e.state))
    && (e.CheckedStale? ==> LastProgress(past).Some?)
    && (e.LiveChecked? && LastLiveCheck(past).Some? ==> e.now >= LastLiveCheck(past).value + LIVE_CHECK_INTERVAL)
    && (e.Accepted? ==> LastSegment(past).0 <= e.sequence && LastSegment(past) != (e.sequence, e.url))
    && (e.Probed? ==> FailingSince(past).Some? && e.now >= FailingSince(past).value + SEGMENT_ERROR_THRESHOLD && Probes(past) == 0)
  }

  ghost predicate Lawful(j: Journal, cfg: Config) {
    j.Then? ==> Lawful(j.past, cfg) && EntryLawful(j.past, j.last, cfg)
  }

  // Nothing is owed when a step is over.
  ghost predicate Sound(j: Journal, cfg: Config) {
    Lawful(j, cfg) && Owed(j, cfg).None?
  }

  // Between two cycles: monitoring goes on, or the state says that it is over.
  ghost predicate Watched(j: Journal) {
    LastProgress(j).Some? && StateOf(j) != Waiting
  }

  // ---- Every step keeps the law

  // Something other than a webhook, a state or a shutdown
  lemma Noted(j: Journal, e: Entry, cfg: Config)
    requires Sound(j, cfg) && !Stopped(j) && EntryLawful(j, e, cfg)
    requires !e.Attempt? && !e.Became? && !e.ShutdownSeen?
    ensures Lawful(Then(j, e), cfg) && !Stopped(Then(j, e)) && StateOf(Then(j, e)) == StateOf(j)
    ensures Watched(j) ==> Watched(Then(j, e))
  {
  }

  lemma Paid(j: Journal, e: Event, fate: Fate, cfg: Config)
    requires Lawful(j, cfg) && !Stopped(j) && Owed(j, cfg) == Some(e)
    ensures Sound(Sent(j, e, fate), cfg) && !Stopped(Sent(j, e, fate))
    ensures StateOf(Sent(j, e, fate)) == if fate == Fatal then Error else StateOf(j)
    ensures Watched(j) ==> Watched(Sent(j, e, fate))
  {
  }

  // Not after the error state
  lemma Finished(j: Journal, cfg: Config)
    requires Sound(j, cfg) && StateOf(j) != Error
    ensures var done := Then(j, Became(Completed));
            Sound(done, cfg) && StateOf(done) == Completed && (Watched(j) ==> Watched(done)) && Stopped(done) == Stopped(j)
  {
  }

  lemma PollSound(j: Journal, raised: bool, cfg: Config)
    requires Sound(j, cfg)
    ensures var polled := Polled(j, raised);
            Sound(polled, cfg) && StateOf(polled) == StateOf(j) && LastProgress(polled) == LastProgress(j)
    ensures LastSegment(Polled(j, raised)) == LastSegment(j)
  {
  }

  // Monitoring, with no shutdown noticed and nothing owed
  ghost predicate Underway(j: Journal, cfg: Config) {
    Sound(j, cfg) && Watched(j) && !Stopped(j)
  }

  lemma {:induction false} RefreshedSound(j: Journal, cfg: Config, urls: seq<Option<string>>)
    requires Underway(j, cfg)
    ensures Underway(Refreshed(j, urls), cfg) && StateOf(Refreshed(j, urls)) == StateOf(j)
    decreases |urls|
  {
    if urls != [] {
      if urls[0].Some? {
        Noted(j, Relocated(urls[0].value), cfg);
        RefreshedSound(Then(j, Relocated(urls[0].value)), cfg, urls[1..]);
      } else {
        RefreshedSound(j, cfg, urls[1..]);
      }
    }
  }

  lemma AlertSound(j: Journal, kind: Kind, due: Option<Alert>, fate: Fate, cfg: Config)
    requires Lawful(j, cfg) && Watched(j) && !Stopped(j) && Owed(j, cfg) == OwedAlert(kind, due)
    ensures Underway(Alerted(j, kind, due, fate), cfg)
  {
    if due.Some? {
      Paid(j, OwedAlert(kind, due).value, fate, cfg);
    }
  }

  lemma DetectedSound(j: Journal, cfg: Config, kind: Kind, sample: Sample, fate: Fate)
    requires Underway(j, cfg)
    ensures Underway(Detected(j, cfg, kind, sample, fate), cfg)
  {
    var analysed := Then(j, Analysed(kind, sample));
    Noted(j, Analysed(kind, sample), cfg);
    AlertSound(analysed, kind, Due(Heard(analysed, kind), Threshold(cfg, kind)), fate, cfg);
  }

  lemma StaleSound(j: Journal, cfg: Config, now: int, fate: Fate)
    requires Underway(j, cfg)
    ensures Underway(StaleChecked(j, now, fate), cfg)
  {
    Noted(j, CheckedStale(now), cfg);
    if Overdue(j, now) && !SuspensionOpen(j) {
      Paid(Then(j, CheckedStale(now)), Suspended, fate, cfg);
    }
  }

  lemma ProcessedSound(j: Journal, cfg: Config, rebaseline: bool, s: Segment, verdict: Verdict, i: AnalysisInput)
    requires Underway(j, cfg) && LastSegment(j).0 <= s.sequence && LastSegment(j) != (s.sequence, s.url)
    ensures Underway(Processed(j, cfg, rebaseline, s, verdict, i).0, cfg)
  {
    var e := Accepted(s.sequence, s.url, rebaseline, i.acceptTime);
    var announce := !rebaseline && SuspensionOpen(j);
    var resumed := if announce then Sent(Then(j, e), Resumed, i.resumedFate) else Then(j, e);
    Noted(j, e, cfg);
    if announce {
      Paid(Then(j, e), Resumed, i.resumedFate, cfg);
    }
    DetectedSound(resumed, cfg, Video, Sample(verdict.black, s.duration), i.videoFate);
    DetectedSound(Detected(resumed, cfg, Video, Sample(verdict.black, s.duration), i.videoFate), cfg, Audio,
                  Sample(verdict.silent, s.duration), i.audioFate);
  }

  // A cycle only fails while no shutdown has been noticed.
  ghost predicate Done(j: Journal, fine: bool, cfg: Config) {
    Sound(j, cfg) && Watched(j) && (fine || !Stopped(j))
  }

  lemma FollowedSound(j: Journal, cfg: Config, rebaseline: bool, s: Segment, i: AnalysisInput)
    requires Underway(j, cfg)
    ensures Done(Followed(j, cfg, rebaseline, s, i).0, Followed(j, cfg, rebaseline, s, i).1, cfg)
  {
    var (sequence, url) := LastSegment(j);
    if s.sequence < sequence || (s.sequence == sequence && s.url == url) {
      StaleSound(j, cfg, i.staleTime, i.suspendedFate);
    } else if i.fetched {
      PollSound(j, i.stopSegment, cfg);
      if !Stopped(Polled(j, i.stopSegment)) && i.saved && i.verdict.Some? {
        ProcessedSound(Polled(j, i.stopSegment), cfg, rebaseline, s, i.verdict.value, i);
      }
    }
  }

  lemma AnalysisSound(j: Journal, cfg: Config, i: AnalysisInput)
    requires Underway(j, cfg) && StateOf(j) == Monitoring
    ensures Done(Analysis(j, cfg, i).0, Analysis(j, cfg, i).1, cfg)
  {
    var polled := Polled(j, i.stopFetch);
    PollSound(j, i.stopFetch, cfg);
    if !Stopped(polled) && i.endList == Some(true) {
      Noted(polled, FoundEndList, cfg);
      Paid(Then(polled, FoundEndList), Ended, i.endedFate, cfg);
      if i.endedFate != Fatal {
        Finished(Sent(Then(polled, FoundEndList), Ended, i.endedFate), cfg);
      }
    } else if !Stopped(polled) && i.endList == Some(false) && i.latest.Some? {
      Noted(polled, LookedUp, cfg);
      FollowedSound(Then(polled, LookedUp), cfg, ManifestChanged(polled), i.latest.value, i);
    }
  }

  lemma ErrorHandledSound(j: Journal, cfg: Config, now: int, probe: Liveness, fate: Fate)
    requires Underway(j, cfg)
    ensures var (handled, over) := ErrorHandled(j, now, probe, fate);
            Underway(handled, cfg) && (over ==> StateOf(handled) == Completed || StateOf(handled) == Error)
  {
    if StateOf(j) != Completed {
      var failed := Then(j, CycleFailed(now));
      Noted(j, CycleFailed(now), cfg);
      if ProbeDue(failed, now) {
        var probed := Then(failed, Probed(now, probe));
        Noted(failed, Probed(now, probe), cfg);
        if probe == Live {
          Paid(probed, SegmentError, fate, cfg);
        } else if probe == NotLive {
          Paid(probed, Ended, fate, cfg);
          if StateOf(Sent(probed, Ended, fate)) != Error {
            Finished(Sent(probed, Ended, fate), cfg);
          }
        }
      }
    }
  }

  lemma LiveCheckSound(j: Journal, cfg: Config, i: CycleInput)
    requires Underway(j, cfg) && StateOf(j) != Error
    ensures var (checked, outcome) := LiveCheck(j, i);
            Underway(checked, cfg) && (outcome.ReturnsError? <==> StateOf(checked) == Error)
  {
    var e := LiveChecked(i.liveTime, i.live);
    if LastLiveCheck(j).None? || i.liveTime - LastLiveCheck(j).value >= LIVE_CHECK_INTERVAL {
      Noted(j, e, cfg);
      if i.live == NotLive {
        Paid(Then(j, e), Ended, i.endedFate, cfg);
        if i.endedFate != Fatal {
          Finished(Sent(Then(j, e), Ended, i.endedFate), cfg);
        }
      }
    }
  }

  // Analysis and error handling never leave monitoring but for a later state.
  lemma AnalysingStates(j: Journal, cfg: Config, i: CycleInput)
    requires Underway(j, cfg) && StateOf(j) == Monitoring
    ensures Sound(Analysing(j, cfg, i).0, cfg) && Watched(Analysing(j, cfg, i).0)
    ensures Analysing(j, cfg, i).1.ReturnsError? ==> StateOf(Analysing(j, cfg, i).0) == Error
    ensures Analysing(j, cfg, i).1.ReturnsNil? ==> StateOf(Analysing(j, cfg, i).0) == Completed || Stopped(Analysing(j, cfg, i).0)
  {
    var (analysed, fine) := Analysis(j, cfg, i.analysis);
    AnalysisSound(j, cfg, i.analysis);
    if fine {
      var cleared := Then(analysed, CycleFine);
      assert Sound(cleared, cfg) && Watched(cleared);
      PollSound(cleared, i.stopWait, cfg);
    } else {
      ErrorHandledSound(analysed, cfg, i.errorTime, i.probe, i.probeFate);
      PollSound(ErrorHandled(analysed, i.errorTime, i.probe, i.probeFate).0, i.stopWait, cfg);
    }
  }

  lemma CycleSound(j: Journal, cfg: Config, i: CycleInput)
    requires Sound(j, cfg) && Watched(j)
    ensures var (next, outcome) := Cycle(j, cfg, i);
            && Sound(next, cfg) && Watched(next)
            && (outcome.ReturnsError? ==> StateOf(next) == Error)
            && (outcome.ReturnsNil? ==> StateOf(next) == Completed || Stopped(next))
  {
    if StateOf(j) != Error {
      var top := Polled(j, i.stopTop);
      PollSound(j, i.stopTop, cfg);
      if !Stopped(top) {
        LiveCheckSound(top, cfg, i);
        var (checked, outcome) := LiveCheck(top, i);
        if StateOf(checked) == Monitoring {
          RefreshedSound(checked, cfg, i.refreshes);
          var refreshed := Polled(Refreshed(checked, i.refreshes), i.stopRefresh);
          PollSound(Refreshed(checked, i.refreshes), i.stopRefresh, cfg);
          if !Stopped(refreshed) {
            var ready := Polled(refreshed, i.stopAnalysis);
            PollSound(refreshed, i.stopAnalysis, cfg);
            if !Stopped(ready) {
              AnalysingStates(ready, cfg, i);
            }
          }
        }
      }
    }
  }

  lemma {:induction false} CyclesSound(j: Journal, cfg: Config, script: seq<CycleInput>)
    requires Sound(j, cfg) && Watched(j)
    ensures var (next, outcome) := Cycles(j, cfg, script);
            && Sound(next, cfg) && Watched(next)
            && (outcome.ReturnsError? ==> StateOf(next) == Error)
            && (outcome.ReturnsNil? ==> StateOf(next) == Completed || Stopped(next))
    decreases |script|
  {
    if script != [] {
      CycleSound(j, cfg, script[0]);
      var (next, outcome) := Cycle(j, cfg, script[0]);
      if outcome.Pending? {
        CyclesSound(next, cfg, script[1..]);
      }
    }
  }

  lemma NotYetLiveSound(j: Journal, cfg: Config, i: WaitInput)
    requires Sound(j, cfg) && !Stopped(j) && StateOf(j) == Waiting
    ensures var (next, outcome) := NotYetLive(j, cfg, i);
            && Sound(next, cfg)
            && (outcome.Pending? ==> StateOf(next) == Waiting || StateOf(next) == Error)
            && (outcome.ReturnsError? ==> StateOf(next) == Error)
            && (outcome.ReturnsNil? ==> StateOf(next) == Completed)
  {
    var waited := Then(j, StillWaiting(i.now));
    Noted(j, StillWaiting(i.now), cfg);
    var warned := waited;
    if DelayDue(j, cfg, i.now) {
      Paid(waited, Delayed, i.delayedFate, cfg);
      warned := Sent(waited, Delayed, i.delayedFate);
    }
    Noted(warned, FoundOver, cfg);
    var ended := Sent(Then(warned, FoundOver), Ended, i.endedFate);
    Paid(Then(warned, FoundOver), Ended, i.endedFate, cfg);
    if StateOf(ended) != Error {
      Finished(ended, cfg);
    }
  }

  lemma GoneLiveSound(j: Journal, cfg: Config, fate: Fate)
    requires Sound(j, cfg) && !Stopped(j) && StateOf(j) == Waiting
    ensures var started := Sent(Then(j, FoundLive), Started, fate);
            && Sound(started, cfg) && (StateOf(started) == Waiting || StateOf(started) == Error)
            && (StateOf(started) == Waiting ==> Sound(Then(started, Became(Monitoring)), cfg))
  {
    Noted(j, FoundLive, cfg);
    Paid(Then(j, FoundLive), Started, fate, cfg);
  }

  lemma WaitStepSound(j: Journal, cfg: Config, first: bool, i: WaitInput)
    requires Sound(j, cfg) && (StateOf(j) == Waiting || StateOf(j) == Error)
    ensures var (next, outcome) := WaitStep(j, cfg, first, i);
            && Sound(next, cfg)
            && (outcome.Pending? ==> StateOf(next) == Waiting || StateOf(next) == Error)
            && (outcome.ReturnsError? ==> StateOf(next) == Error)
            && (outcome.ReturnsNil? ==> StateOf(next) == Monitoring || StateOf(next) == Completed || Stopped(next))
  {
    if StateOf(j) != Error {
      var top := Polled(j, i.stop);
      PollSound(j, i.stop, cfg);
      PollSound(top, i.stopTick, cfg);
      var ticked := if first then top else Polled(top, i.stopTick);
      if !Stopped(top) && !Stopped(ticked) {
        GoneLiveSound(ticked, cfg, i.startedFate);
        NotYetLiveSound(ticked, cfg, i);
      }
    }
  }

  lemma {:induction false} WaitSound(j: Journal, cfg: Config, first: bool, script: seq<WaitInput>)
    requires Sound(j, cfg) && (StateOf(j) == Waiting || StateOf(j) == Error)
    ensures var (next, outcome) := Wait(j, cfg, first, script);
            && Sound(next, cfg)
            && (outcome.ReturnsError? ==> StateOf(next) == Error)
            && (outcome.ReturnsNil? ==> StateOf(next) == Monitoring || StateOf(next) == Completed || Stopped(next))
    decreases |script|
  {
    if script != [] {
      WaitStepSound(j, cfg, first, script[0]);
      var (next, outcome) := WaitStep(j, cfg, first, script[0]);
      if outcome.Pending? {
        WaitSound(next, cfg, false, script[1..]);
      }
    }
  }

  lemma {:induction false} MainSound(j: Journal, cfg: Config, visits: seq<Visit>)
    requires Sound(j, cfg)
    ensures var (next, outcome) := Main(j, cfg, visits);
            && Sound(next, cfg)
            && (outcome.ReturnsError? ==> StateOf(next) == Error)
            && (outcome.ReturnsNil? ==> StateOf(next) == Completed || Stopped(next))
    decreases |visits|
  {
    if visits != [] {
      var polled := Polled(j, visits[0].stop);
      assert Sound(polled, cfg);
      if !Stopped(polled) && (StateOf(polled) == Waiting || StateOf(polled) == Monitoring) {
        var (next, outcome) := Round(polled, cfg, visits[0]);
        RoundSound(polled, cfg, visits[0]);
        if outcome.ReturnsNil? {
          MainSound(next, cfg, visits[1..]);
        }
      }
    }
  }

  lemma RoundSound(j: Journal, cfg: Config, v: Visit)
    requires Sound(j, cfg) && (StateOf(j) == Waiting || StateOf(j) == Monitoring)
    ensures Sound(Round(j, cfg, v).0, cfg)
  {
    if StateOf(j) == Waiting {
      WaitSound(j, cfg, true, v.waits);
    } else if v.manifest.Some? {
      var entered := Then(j, Entered(v.manifest.value, v.entered));
      assert Sound(entered, cfg) && Watched(entered);
      CyclesSound(entered, cfg, v.cycles);
    }
  }

  // Every run is lawful at every entry. It returns nil only when completed or shut down; an error
  // return leaves the error state, unless there was no directory to work in.
  lemma RunSound(cfg: Config, noTmpDir: bool, visits: seq<Visit>)
    ensures var (j, outcome) := Run(cfg, noTmpDir, visits);
            && Sound(j, cfg)
            && (outcome.ReturnsNil? ==> StateOf(j) == Completed || Stopped(j))
            && (outcome.ReturnsError? ==> StateOf(j) == Error || noTmpDir)
  {
    if !noTmpDir {
      MainSound(Nothing, cfg, visits);
    }
  }
}
