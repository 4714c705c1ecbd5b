/** The worker itself: it keeps counters, flags and times instead of its history, and decides by them. */
module Worker {
  import opened Wrappers
  import opened Detection
  import opened WorkerHistory
  import opened WorkerSpec
  import opened WorkerLaws
  import WorkerChronicle
  import WorkerSamples

  class Worker {
    const cfg: Config
    var state: State
    var shutdownRequested: bool
    var currentManifestURL: string
    var manifestURLChanged: bool
    var lastSegmentSequence: nat
    var lastSegmentURL: string
    var lastNewSegmentTime: Option<int>
    var suspendedAlertSent: bool
    var segmentErrorStart: Option<int>
    var segmentErrorSent: bool
    var lastLiveCheck: Option<int>
    var totalSegments: nat
    const video: Detector
    const audio: Detector
    ghost var journal: Journal

    // Every field says what the history says.
    ghost predicate Tracking()
      reads this
    {
      && state == StateOf(journal) && shutdownRequested == Stopped(journal)
      && currentManifestURL == ManifestURL(journal) && manifestURLChanged == ManifestChanged(journal)
      && (lastSegmentSequence, lastSegmentURL) == LastSegment(journal) && totalSegments == AcceptedCount(journal)
      && lastNewSegmentTime == LastProgress(journal) && suspendedAlertSent == SuspensionOpen(journal)
      && segmentErrorStart == FailingSince(journal) && segmentErrorSent == (Probes(journal) > 0)
      && (segmentErrorStart.None? ==> !segmentErrorSent)
      && lastLiveCheck == LastLiveCheck(journal)
    }

    ghost predicate Coupled()
      reads this, video, audio
    {
      Tracking() && Detecting(Video, video) && Detecting(Audio, audio) && video != audio
    }

    ghost predicate Detecting(kind: Kind, d: Detector)
      reads this, d
    {
      d.Valid() && d.threshold == Threshold(cfg, kind) && d.history == Heard(journal, kind)
    }

    constructor (cfg: Config)
      ensures Coupled() && this.cfg == cfg && journal == Nothing && fresh(video) && fresh(audio)
    {
      this.cfg, state, shutdownRequested, currentManifestURL, manifestURLChanged := cfg, Waiting, false, "", false;
      lastSegmentSequence, lastSegmentURL, totalSegments := 0, "", 0;
      lastNewSegmentTime, suspendedAlertSent, segmentErrorStart, segmentErrorSent, lastLiveCheck := None, false, None, false, None;
      video := new Detector(cfg.blackoutThreshold);
      audio := new Detector(cfg.silenceThreshold);
      journal := Nothing;
    }

    // ---- Single entries

    method SendWebhook(e: Event, fate: Fate)
      requires Tracking() && e != Suspended
      modifies this`state, this`journal
      ensures Tracking() && journal == Sent(old(journal), e, fate)
    {
      journal := Sent(journal, e, fate);
      if fate == Fatal {
        state := Error;
      }
    }

    method SetState(s: State)
      requires Tracking()
      modifies this`state, this`journal
      ensures Tracking() && journal == Then(old(journal), Became(s))
    {
      state := s;
      journal := Then(journal, Became(s));
    }

    method IsShutdownRequested(raised: bool) returns (requested: bool)
      requires Tracking()
      modifies this`shutdownRequested, this`journal
      ensures Tracking() && journal == Polled(old(journal), raised) && requested == Stopped(journal)
    {
      if raised {
        shutdownRequested := true;
        journal := Then(journal, ShutdownSeen);
      }
      requested := shutdownRequested;
    }

    method ClearSegmentError()
      requires Tracking()
      modifies this`segmentErrorStart, this`segmentErrorSent, this`journal
      ensures Tracking() && journal == Then(old(journal), CycleFine)
    {
      segmentErrorStart, segmentErrorSent := None, false;
      journal := Then(journal, CycleFine);
    }

    method Announce(fate: Fate)
      requires Tracking()
      modifies this`suspendedAlertSent, this`state, this`journal
      ensures Tracking() && journal == Sent(old(journal), Suspended, fate)
    {
      suspendedAlertSent := true;
      journal := Sent(journal, Suspended, fate);
      if fate == Fatal {
        state := Error;
      }
    }

    // An observation that no field records
    ghost method Note(e: Entry)
      requires Tracking() && (e.FoundLive? || e.StillWaiting? || e.FoundOver? || e.FoundEndList? || e.CheckedStale?)
      modifies this`journal
      ensures Tracking() && journal == Then(old(journal), e)
    {
      journal := Then(journal, e);
    }

    method NoteLiveCheck(now: int, ghost found: Liveness)
      requires Tracking()
      modifies this`lastLiveCheck, this`journal
      ensures Tracking() && journal == Then(old(journal), LiveChecked(now, found))
    {
      lastLiveCheck := Some(now);
      journal := Then(journal, LiveChecked(now, found));
    }

    method NoteFailure(now: int)
      requires Tracking()
      modifies this`segmentErrorStart, this`segmentErrorSent, this`journal
      ensures Tracking() && journal == Then(old(journal), CycleFailed(now)) && segmentErrorStart.Some?
    {
      if segmentErrorStart.None? {
        segmentErrorStart, segmentErrorSent := Some(now), false;
      }
      journal := Then(journal, CycleFailed(now));
    }

    method NoteProbe(ghost now: int, ghost found: Liveness)
      requires Tracking() && segmentErrorStart.Some?
      modifies this`segmentErrorSent, this`journal
      ensures Tracking() && journal == Then(old(journal), Probed(now, found))
    {
      segmentErrorSent := true;
      journal := Then(journal, Probed(now, found));
    }

    method NoteManifest(url: string)
      requires Tracking()
      modifies this`currentManifestURL, this`manifestURLChanged, this`journal
      ensures Tracking() && journal == Then(old(journal), Relocated(url))
    {
      if currentManifestURL != url {
        manifestURLChanged := true;
      }
      currentManifestURL := url;
      journal := Then(journal, Relocated(url));
    }

    method NoteLookup() returns (rebaseline: bool)
      requires Tracking()
      modifies this`manifestURLChanged, this`journal
      ensures Tracking() && journal == Then(old(journal), LookedUp) && rebaseline == ManifestChanged(old(journal))
    {
      rebaseline := manifestURLChanged;
      manifestURLChanged := false;
      journal := Then(journal, LookedUp);
    }

    method NoteAccepted(s: Segment, rebaseline: bool, now: int) returns (wasSuspended: bool)
      requires Tracking()
      modifies this`lastSegmentSequence, this`lastSegmentURL, this`totalSegments
      modifies this`lastNewSegmentTime, this`suspendedAlertSent, this`journal
      ensures Tracking() && journal == Then(old(journal), Accepted(s.sequence, s.url, rebaseline, now))
      ensures wasSuspended == (!rebaseline && SuspensionOpen(old(journal)))
    {
      wasSuspended := !rebaseline && suspendedAlertSent;
      lastSegmentSequence, lastSegmentURL, totalSegments := s.sequence, s.url, totalSegments + 1;
      if !rebaseline {
        lastNewSegmentTime, suspendedAlertSent := Some(now), false;
      }
      journal := Then(journal, Accepted(s.sequence, s.url, rebaseline, now));
    }

    // ---- Parts of a cycle

    method CheckSuspension(now: int, fate: Fate)
      requires Tracking()
      modifies this`suspendedAlertSent, this`state, this`journal
      ensures Tracking() && journal == StaleChecked(old(journal), now, fate)
    {
      Note(CheckedStale(now));
      if (lastNewSegmentTime.None? || now - lastNewSegmentTime.value >= SUSPENSION_ALERT_THRESHOLD) && !suspendedAlertSent {
        Announce(fate);
      }
    }

    method CheckLiveStatus(i: CycleInput) returns (outcome: Outcome)
      requires Tracking()
      modifies this`lastLiveCheck, this`state, this`journal
      ensures Tracking() && (journal, outcome) == LiveCheck(old(journal), i)
    {
      if lastLiveCheck.Some? && i.liveTime - lastLiveCheck.value < LIVE_CHECK_INTERVAL {
        return Pending;
      }
      NoteLiveCheck(i.liveTime, i.live);
      if i.live == NotLive {
        SendWebhook(Ended, i.endedFate);
        if state == Error {
          return ReturnsError;
        }
        SetState(Completed);
      }
      outcome := Pending;
    }

    method RefreshManifest(urls: seq<Option<string>>)
      requires Tracking()
      modifies this`currentManifestURL, this`manifestURLChanged, this`journal
      ensures Tracking() && journal == Refreshed(old(journal), urls)
    {
      for k := 0 to |urls|
        invariant Tracking() && Refreshed(journal, urls[k..]) == Refreshed(old(journal), urls)
      {
        assert urls[k..][0] == urls[k] && urls[k..][1..] == urls[k + 1..];
        if urls[k].Some? {
          NoteManifest(urls[k].value);
        }
      }
    }

    method Hear(kind: Kind, bad: bool, duration: real, now: int) returns (alert: Option<Alert>)
      requires Coupled()
      modifies this`journal, video, audio
      ensures Coupled() && journal == Then(old(journal), Analysed(kind, Sample(bad, duration)))
      ensures alert == Due(Heard(journal, kind), Threshold(cfg, kind))
    {
      journal := Then(journal, Analysed(kind, Sample(bad, duration)));
      if kind == Video {
        alert := video.Process(bad, duration, now);
      } else {
        alert := audio.Process(bad, duration, now);
      }
    }

    method ProcessDetection(kind: Kind, bad: bool, duration: real, now: int, fate: Fate)
      requires Coupled()
      modifies this`state, this`journal, video, audio
      ensures Coupled() && journal == Detected(old(journal), cfg, kind, Sample(bad, duration), fate)
    {
      var alert := Hear(kind, bad, duration, now);
      if alert.Some? {
        SendWebhook(if alert.value == Raised then Alarm(kind) else Recovery(kind), fate);
      }
    }

    method AcceptSegment(rebaseline: bool, s: Segment, verdict: Verdict, i: AnalysisInput) returns (fine: bool)
      requires Coupled()
      modifies this, video, audio
      ensures Coupled() && (journal, fine) == Processed(old(journal), cfg, rebaseline, s, verdict, i)
    {
      var wasSuspended := NoteAccepted(s, rebaseline, i.acceptTime);
      if wasSuspended {
        SendWebhook(Resumed, i.resumedFate);
        if state == Error {
          return false;
        }
      }
      ProcessDetection(Video, verdict.black, s.duration, i.acceptTime, i.videoFate);
      ProcessDetection(Audio, verdict.silent, s.duration, i.acceptTime, i.audioFate);
      fine := true;
    }

    method FollowSegment(rebaseline: bool, s: Segment, i: AnalysisInput) returns (fine: bool)
      requires Coupled()
      modifies this, video, audio
      ensures Coupled() && (journal, fine) == Followed(old(journal), cfg, rebaseline, s, i)
    {
      if s.sequence < lastSegmentSequence {
        CheckSuspension(i.staleTime, i.suspendedFate);
        return state != Error;
      }
      if s.sequence == lastSegmentSequence && s.url == lastSegmentURL {
        CheckSuspension(i.staleTime, i.suspendedFate);
        return state != Error;
      }
      if !i.fetched {
        return false;
      }
      var requested := IsShutdownRequested(i.stopSegment);
      if requested {
        return true;
      }
      if !i.saved {
        return false;
      }
      if i.verdict.None? {
        return false;
      }
      fine := AcceptSegment(rebaseline, s, i.verdict.value, i);
    }

    method AnalyzeLatestSegment(i: AnalysisInput) returns (fine: bool)
      requires Coupled()
      modifies this, video, audio
      ensures Coupled() && (journal, fine) == Analysis(old(journal), cfg, i)
      ensures old(state) == Monitoring && !old(shutdownRequested) ==>
                if WorkerChronicle.Hears(WorkerChronicle.PastOf(old(journal)), i) then
                  var verdict, duration := i.verdict.value, i.latest.value.duration;
                  && video.history == After(old(video.history), Sample(verdict.black, duration))
                  && audio.history == After(old(audio.history), Sample(verdict.silent, duration))
                else video.history == old(video.history) && audio.history == old(audio.history)
    {
      if state == Monitoring && !shutdownRequested {
        WorkerSamples.AnalysisHeard(journal, cfg, i, Video);
        WorkerSamples.AnalysisHeard(journal, cfg, i, Audio);
      }
      fine := AnalyseLatest(i);
    }

    method AnalyseLatest(i: AnalysisInput) returns (fine: bool)
      requires Coupled()
      modifies this, video, audio
      ensures Coupled() && (journal, fine) == Analysis(old(journal), cfg, i)
    {
      var requested := IsShutdownRequested(i.stopFetch);
      if requested {
        return true;
      }
      if i.endList.None? {
        return false;
      }
      if i.endList.value {
        HearsNoWebhook(journal, FoundEndList, Ended, i.endedFate);
        Note(FoundEndList);
        SendWebhook(Ended, i.endedFate);
        assert Coupled();
        if state == Error {
          return false;
        }
        SetState(Completed);
        return true;
      }
      if i.latest.None? {
        return false;
      }
      var rebaseline := NoteLookup();
      fine := FollowSegment(rebaseline, i.latest.value, i);
    }

    method HandleSegmentError(now: int, probe: Liveness, fate: Fate) returns (over: bool)
      requires Tracking()
      modifies this`segmentErrorStart, this`segmentErrorSent, this`state, this`journal
      ensures Tracking() && (journal, over) == ErrorHandled(old(journal), now, probe, fate)
    {
      if state == Completed {
        return true;
      }
      NoteFailure(now);
      if now - segmentErrorStart.value >= SEGMENT_ERROR_THRESHOLD && !segmentErrorSent {
        NoteProbe(now, probe);
        if probe == Unreachable {
          return false;
        }
        if probe == NotLive {
          SendWebhook(Ended, fate);
          if state == Error {
            return true;
          }
          SetState(Completed);
          return true;
        }
        SendWebhook(SegmentError, fate);
      }
      over := false;
    }

    // ---- One cycle

    method WaitForNext(i: CycleInput) returns (outcome: Outcome)
      requires Tracking()
      modifies this`shutdownRequested, this`journal
      ensures Tracking() && (journal, outcome) == Waited(old(journal), i)
    {
      var requested := IsShutdownRequested(i.stopWait);
      outcome := if requested then ReturnsNil else Pending;
    }

    method AnalyseAndRecover(i: CycleInput) returns (outcome: Outcome)
      requires Coupled()
      modifies this, video, audio
      ensures Coupled() && (journal, outcome) == Analysing(old(journal), cfg, i)
    {
      var fine := AnalyzeLatestSegment(i.analysis);
      if fine {
        ClearSegmentError();
      } else {
        HearsNoFailure(journal, i.errorTime, i.probe, i.probeFate);
        var over := HandleSegmentError(i.errorTime, i.probe, i.probeFate);
        if over {
          return if state == Error then ReturnsError else ReturnsNil;
        }
      }
      outcome := WaitForNext(i);
    }

    method MonitorOnce(i: CycleInput) returns (outcome: Outcome)
      requires Coupled()
      modifies this, video, audio
      ensures Coupled() && (journal, outcome) == Cycle(old(journal), cfg, i)
    {
      if state == Error {
        return ReturnsError;
      }
      var requested := IsShutdownRequested(i.stopTop);
      if requested {
        return ReturnsNil;
      }
      HearsNoLiveCheck(journal, i);
      outcome := CheckLiveStatus(i);
      if outcome.ReturnsError? {
        return ReturnsError;
      }
      if state == Completed {
        return ReturnsNil;
      }
      HearsNoRefresh(journal, i.refreshes);
      RefreshManifest(i.refreshes);
      requested := IsShutdownRequested(i.stopRefresh);
      if requested {
        return ReturnsNil;
      }
      requested := IsShutdownRequested(i.stopAnalysis);
      if requested {
        return ReturnsNil;
      }
      outcome := AnalyseAndRecover(i);
    }

    // ---- The modes

    method WaitOnce(first: bool, delayAlertSent: bool, i: WaitInput) returns (outcome: Outcome, alerted: bool)
      requires Tracking() && delayAlertSent == Attempted(journal, Delayed)
      modifies this`state, this`shutdownRequested, this`journal
      ensures Tracking() && (journal, outcome) == WaitStep(old(journal), cfg, first, i)
      ensures outcome.Pending? ==> alerted == Attempted(journal, Delayed)
    {
      alerted := delayAlertSent;
      if state == Error {
        return ReturnsError, alerted;
      }
      var requested := IsShutdownRequested(i.stop);
      if requested {
        return ReturnsNil, alerted;
      }
      if !first {
        requested := IsShutdownRequested(i.stopTick);
        if requested {
          return ReturnsNil, alerted;
        }
      }
      if i.live == Unreachable {
        return Pending, alerted;
      }
      if i.live == Live {
        Note(FoundLive);
        SendWebhook(Started, i.startedFate);
        if state == Error {
          return ReturnsError, alerted;
        }
        SetState(Monitoring);
        return ReturnsNil, alerted;
      }
      outcome, alerted := KeepWaiting(delayAlertSent, i);
    }

    method KeepWaiting(delayAlertSent: bool, i: WaitInput) returns (outcome: Outcome, alerted: bool)
      requires Tracking() && delayAlertSent == Attempted(journal, Delayed)
      modifies this`state, this`journal
      ensures Tracking() && (journal, outcome) == NotYetLive(old(journal), cfg, i)
      ensures outcome.Pending? ==> alerted == Attempted(journal, Delayed)
    {
      alerted := delayAlertSent;
      Note(StillWaiting(i.now));
      if cfg.delayThreshold.Some? && !delayAlertSent {
        if i.now > cfg.delayThreshold.value {
          SendWebhook(Delayed, i.delayedFate);
          alerted := true;
        }
      }
      if i.over {
        Note(FoundOver);
        SendWebhook(Ended, i.endedFate);
        if state == Error {
          return ReturnsError, alerted;
        }
        SetState(Completed);
        return ReturnsNil, alerted;
      }
      outcome := Pending;
    }

    method WaitingMode(script: seq<WaitInput>) returns (outcome: Outcome)
      requires Tracking() && !Attempted(journal, Delayed)
      modifies this`state, this`shutdownRequested, this`journal
      ensures Tracking() && (journal, outcome) == Wait(old(journal), cfg, true, script)
    {
      var delayAlertSent, firstCheck := false, true;
      for k := 0 to |script|
        invariant Tracking() && delayAlertSent == Attempted(journal, Delayed) && firstCheck == (k == 0)
        invariant Wait(journal, cfg, firstCheck, script[k..]) == Wait(old(journal), cfg, true, script)
      {
        assert script[k..][0] == script[k] && script[k..][1..] == script[k + 1..];
        outcome, delayAlertSent := WaitOnce(firstCheck, delayAlertSent, script[k]);
        if !outcome.Pending? {
          return;
        }
        firstCheck := false;
      }
      outcome := Pending;
    }

    method Enter(url: string, now: int)
      requires Tracking()
      modifies this`currentManifestURL, this`lastNewSegmentTime, this`journal
      ensures Tracking() && journal == Then(old(journal), Entered(url, now))
    {
      currentManifestURL := url;
      lastNewSegmentTime := Some(now);
      journal := Then(journal, Entered(url, now));
    }

    method MonitoringMode(v: Visit) returns (outcome: Outcome)
      requires Coupled()
      modifies this, video, audio
      ensures Coupled() && (journal, outcome) == Monitor(old(journal), cfg, v)
    {
      if v.manifest.None? {
        return ReturnsError;
      }
      Enter(v.manifest.value, v.entered);
      ghost var entered := journal;
      for k := 0 to |v.cycles|
        invariant Coupled() && Cycles(journal, cfg, v.cycles[k..]) == Cycles(entered, cfg, v.cycles)
      {
        assert v.cycles[k..][0] == v.cycles[k] && v.cycles[k..][1..] == v.cycles[k + 1..];
        outcome := MonitorOnce(v.cycles[k]);
        if !outcome.Pending? {
          return;
        }
      }
      outcome := Pending;
    }

    // The main loop, one visit to a mode after another
    method Run(noTmpDir: bool, visits: seq<Visit>) returns (outcome: Outcome)
      requires Coupled() && journal == Nothing
      modifies this, video, audio
      ensures Coupled() && (journal, outcome) == WorkerSpec.Run(cfg, noTmpDir, visits)
    {
      if noTmpDir {
        return ReturnsError;
      }
      for k := 0 to |visits|
        invariant Coupled() && Main(journal, cfg, visits[k..]) == Main(Nothing, cfg, visits)
        invariant Sound(journal, cfg)
        invariant state == Waiting && !shutdownRequested ==> !Attempted(journal, Delayed)
      {
        ghost var before := journal;
        assert visits[k..][0] == visits[k] && visits[k..][1..] == visits[k + 1..];
        var requested := IsShutdownRequested(visits[k].stop);
        if requested || state == Completed {
          return ReturnsNil;
        }
        if state == Error {
          return ReturnsError;
        }
        assert Sound(journal, cfg);
        outcome := Visited(visits[k]);
        if outcome.Pending? {
          return;
        }
        if outcome.ReturnsError? {
          SetState(Error);
          return;
        }
      }
      outcome := Pending;
    }

    method Visited(v: Visit) returns (outcome: Outcome)
      requires Coupled() && Sound(journal, cfg) && (state == Waiting || state == Monitoring)
      requires state == Waiting ==> !Attempted(journal, Delayed)
      modifies this, video, audio
      ensures Coupled() && (journal, outcome) == Round(old(journal), cfg, v)
      ensures Sound(journal, cfg) && (outcome.ReturnsNil? ==> state != Waiting || shutdownRequested)
    {
      RoundSound(journal, cfg, v);
      if state == Waiting {
        HearsNoWait(journal, cfg, true, v.waits);
        WaitSound(journal, cfg, true, v.waits);
        outcome := WaitingMode(v.waits);
      } else {
        RoundNeverWaits(journal, cfg, v);
        outcome := MonitoringMode(v);
      }
    }
  }

  // ---- The detectors hear of segments only.

  lemma HearsNoFailure(j: Journal, now: int, probe: Liveness, fate: Fate)
    ensures forall kind :: Heard(ErrorHandled(j, now, probe, fate).0, kind) == Heard(j, kind)
  {
    var probed := Then(Then(j, CycleFailed(now)), Probed(now, probe));
    assert forall kind :: Heard(probed, kind) == Heard(j, kind);
    assert forall kind :: Heard(Sent(probed, Ended, fate), kind) == Heard(j, kind);
  }

  lemma HearsNoWebhook(j: Journal, cause: Entry, e: Event, fate: Fate)
    requires !cause.Analysed?
    ensures forall kind :: Heard(Sent(Then(j, cause), e, fate), kind) == Heard(j, kind)
  {
    assert forall kind :: Heard(Then(j, cause), kind) == Heard(j, kind);
  }

  lemma HearsNoLiveCheck(j: Journal, i: CycleInput)
    ensures forall kind :: Heard(LiveCheck(j, i).0, kind) == Heard(j, kind)
  {
    var checked := Then(j, LiveChecked(i.liveTime, i.live));
    assert forall kind :: Heard(Sent(checked, Ended, i.endedFate), kind) == Heard(j, kind);
  }

  lemma {:induction false} HearsNoRefresh(j: Journal, urls: seq<Option<string>>)
    ensures forall kind :: Heard(Refreshed(j, urls), kind) == Heard(j, kind)
    decreases |urls|
  {
    if urls != [] {
      HearsNoRefresh(if urls[0].Some? then Then(j, Relocated(urls[0].value)) else j, urls[1..]);
    }
  }

  lemma {:induction false} HearsNoWait(j: Journal, cfg: Config, first: bool, script: seq<WaitInput>)
    ensures forall kind :: Heard(Wait(j, cfg, first, script).0, kind) == Heard(j, kind)
    decreases |script|
  {
    if script != [] {
      HearsNoWaitStep(j, cfg, first, script[0]);
      HearsNoWait(WaitStep(j, cfg, first, script[0]).0, cfg, false, script[1..]);
    }
  }

  lemma HearsNoWaitStep(j: Journal, cfg: Config, first: bool, i: WaitInput)
    ensures forall kind :: Heard(WaitStep(j, cfg, first, i).0, kind) == Heard(j, kind)
  {
    var top := Polled(j, i.stop);
    var ticked := if first then top else Polled(top, i.stopTick);
    assert forall kind :: Heard(ticked, kind) == Heard(j, kind);
    var waited := Then(ticked, StillWaiting(i.now));
    var warned := if DelayDue(ticked, cfg, i.now) then Sent(waited, Delayed, i.delayedFate) else waited;
    assert forall kind :: Heard(waited, kind) == Heard(j, kind);
    assert forall kind :: Heard(warned, kind) == Heard(j, kind);
    HearsNoWebhook(warned, FoundOver, Ended, i.endedFate);
    HearsNoWebhook(ticked, FoundLive, Started, i.startedFate);
  }

  lemma RoundNeverWaits(j: Journal, cfg: Config, v: Visit)
    requires Sound(j, cfg) && StateOf(j) == Monitoring
    ensures StateOf(Monitor(j, cfg, v).0) != Waiting
  {
    if v.manifest.Some? {
      var entered := Then(j, Entered(v.manifest.value, v.entered));
      assert Sound(entered, cfg) && Watched(entered);
      CyclesSound(entered, cfg, v.cycles);
    }
  }
}
