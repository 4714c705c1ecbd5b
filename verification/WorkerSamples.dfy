/** Which verdicts reach which detector: over whole runs, as the inputs gave them. */
module WorkerSamples {
  import opened Wrappers
  import opened Detection
  import opened WorkerHistory
  import opened WorkerSpec
  import opened WorkerFacts
  import opened WorkerChronicle
  import opened WorkerLaws
  import WorkerRuns

  // Blackouts are judged by the picture, silences by the sound.
  function SampleOf(kind: Kind, verdict: Verdict, duration: real): Sample {
    match kind
    case Video => Sample(verdict.black, duration)
    case Audio => Sample(verdict.silent, duration)
  }

  // The sample that a cycle's inputs give to one detector, if a segment gets that far
  function Heeded(v: Past, a: AnalysisInput, kind: Kind): seq<Sample> {
    if Hears(v, a) then [SampleOf(kind, a.verdict.value, a.latest.value.duration)] else []
  }

  function GivenByCycle(j: Journal, i: CycleInput, kind: Kind): seq<Sample> {
    if i.stopTop || OverByCheck(LastLiveCheck(j), i) || StateOf(j) != Monitoring || i.stopRefresh || i.stopAnalysis then []
    else Heeded(PastOf(j).(moved := ManifestChanged(j) || Elsewhere(ManifestURL(j), i.refreshes)), i.analysis, kind)
  }

  function GivenByCycles(j: Journal, cfg: Config, script: seq<CycleInput>, kind: Kind): seq<Sample>
    decreases |script|
  {
    if script == [] || StateOf(j) == Error then []
    else
      var (next, outcome) := Cycle(j, cfg, script[0]);
      GivenByCycle(j, script[0], kind) + (if outcome.Pending? then GivenByCycles(next, cfg, script[1..], kind) else [])
  }

  function GivenByVisit(j: Journal, cfg: Config, v: Visit, kind: Kind): seq<Sample> {
    if StateOf(j) == Monitoring && v.manifest.Some?
    then GivenByCycles(Then(j, Entered(v.manifest.value, v.entered)), cfg, v.cycles, kind) else []
  }

  function Given(j: Journal, cfg: Config, visits: seq<Visit>, kind: Kind): seq<Sample>
    decreases |visits|
  {
    if visits == [] then []
    else
      var polled := Polled(j, visits[0].stop);
      if Stopped(polled) || StateOf(polled) == Completed || StateOf(polled) == Error then []
      else
        GivenOn(polled, cfg, visits, kind)
  }

  function GivenOn(polled: Journal, cfg: Config, visits: seq<Visit>, kind: Kind): seq<Sample>
    requires visits != [] && (StateOf(polled) == State.Waiting || StateOf(polled) == Monitoring)
    decreases |visits|, 0
  {
    var (next, outcome) := Round(polled, cfg, visits[0]);
    GivenByVisit(polled, cfg, visits[0], kind) + (if outcome.ReturnsNil? then Given(next, cfg, visits[1..], kind) else [])
  }

  // ---- Samples among entries

  lemma {:induction false} SamplesJoined(es: seq<Entry>, fs: seq<Entry>, kind: Kind)
    ensures SamplesIn(es + fs, kind) == SamplesIn(es, kind) + SamplesIn(fs, kind)
    decreases |fs|
  {
    if fs == [] {
      assert es + fs == es;
    } else {
      assert (es + fs)[..|es + fs| - 1] == es + fs[..|fs| - 1];
      SamplesJoined(es, fs[..|fs| - 1], kind);
    }
  }

  // Nothing was analysed.
  ghost predicate Mute(es: seq<Entry>) {
    forall e :: e in es ==> !e.Analysed?
  }

  lemma {:induction false} MuteSamples(es: seq<Entry>, kind: Kind)
    requires Mute(es)
    ensures SamplesIn(es, kind) == []
  {
    if es != [] {
      MuteSamples(es[..|es| - 1], kind);
    }
  }

  lemma MuteThen(es: seq<Entry>, fs: seq<Entry>, kind: Kind)
    requires Mute(es)
    ensures SamplesIn(es + fs, kind) == SamplesIn(fs, kind)
  {
    MuteSamples(es, kind);
    SamplesJoined(es, fs, kind);
  }

  lemma ThenMute(es: seq<Entry>, fs: seq<Entry>, kind: Kind)
    requires Mute(fs)
    ensures SamplesIn(es + fs, kind) == SamplesIn(es, kind)
  {
    MuteSamples(fs, kind);
    SamplesJoined(es, fs, kind);
  }

  lemma OneSample(of: Kind, past: History, sample: Sample, threshold: real, fate: Fate, kind: Kind)
    ensures SamplesIn(HearingOf(of, past, sample, threshold, fate), kind) == if of == kind then [sample] else []
  {
    ThenMute([Analysed(of, sample)], Alarms(of, Due(After(past, sample), threshold), fate), kind);
    assert [Analysed(of, sample)][..0] == [];
  }

  lemma HearingGives(v: Past, cfg: Config, s: Segment, verdict: Verdict, a: AnalysisInput, kind: Kind)
    ensures SamplesIn(Hearing(v, cfg, s, verdict, a), kind) == [SampleOf(kind, verdict, s.duration)]
  {
    var black, silent := Sample(verdict.black, s.duration), Sample(verdict.silent, s.duration);
    OneSample(Video, v.video, black, cfg.blackoutThreshold, a.videoFate, kind);
    OneSample(Audio, v.audio, silent, cfg.silenceThreshold, a.audioFate, kind);
    SamplesJoined(HearingOf(Video, v.video, black, cfg.blackoutThreshold, a.videoFate),
                  HearingOf(Audio, v.audio, silent, cfg.silenceThreshold, a.audioFate), kind);
  }

  lemma TakingGives(v: Past, cfg: Config, a: AnalysisInput, kind: Kind)
    requires Takes(v, a)
    ensures SamplesIn(Taking(v, cfg, a), kind) == Heeded(v, a, kind)
  {
    var before := [Accepted(a.latest.value.sequence, a.latest.value.url, v.moved, a.acceptTime)]
                  + When(Resumes(v, a), [Attempt(Resumed, a.resumedFate)]);
    assert Mute(before);
    if Hears(v, a) {
      var hearing := Hearing(v, cfg, a.latest.value, a.verdict.value, a);
      HearingGives(v, cfg, a.latest.value, a.verdict.value, a, kind);
      MuteThen(before, hearing, kind);
      assert Taking(v, cfg, a) == before + hearing;
    } else {
      MuteSamples(before, kind);
      assert Taking(v, cfg, a) == before + [] == before;
    }
  }

  lemma FollowingGives(v: Past, cfg: Config, a: AnalysisInput, kind: Kind)
    ensures SamplesIn(Following(v, cfg, a), kind) == Heeded(v, a, kind)
  {
    var before := When(Old(v, a), [CheckedStale(a.staleTime)]) + When(Suspends(v, a), [Attempt(Suspended, a.suspendedFate)])
                  + When(Downloads(v, a) && a.stopSegment, [ShutdownSeen]);
    var taking := if Takes(v, a) then Taking(v, cfg, a) else [];
    assert Mute(before);
    if Takes(v, a) {
      TakingGives(v, cfg, a, kind);
    }
    MuteThen(before, taking, kind);
    assert Following(v, cfg, a) == before + taking;
  }

  lemma ReadingGives(v: Past, cfg: Config, a: AnalysisInput, kind: Kind)
    ensures SamplesIn(Reading(v, cfg, a), kind) == Heeded(v, a, kind)
  {
    var before := When(a.stopFetch, [ShutdownSeen])
                  + When(!a.stopFetch && a.endList == Some(true), [FoundEndList] + Closing(a.endedFate, false));
    assert Mute(before);
    if Finds(v, a) {
      FollowingGives(v, cfg, a, kind);
      MuteThen([LookedUp], Following(v, cfg, a), kind);
      MuteThen(before, [LookedUp] + Following(v, cfg, a), kind);
      assert Reading(v, cfg, a) == before + ([LookedUp] + Following(v, cfg, a));
    } else {
      MuteSamples(before, kind);
      assert Reading(v, cfg, a) == before + [] == before;
    }
  }

  lemma FailingMute(v: Past, i: CycleInput)
    ensures Mute(Failing(v, i))
  {
  }

  lemma WorkingGives(v: Past, cfg: Config, i: CycleInput, kind: Kind)
    ensures SamplesIn(Working(v, cfg, i), kind) == Heeded(v, i.analysis, kind)
  {
    var reading := Reading(v, cfg, i.analysis);
    var verdict := if Fails(v, i.analysis) then Failing(v, i) else [CycleFine];
    ReadingGives(v, cfg, i.analysis, kind);
    FailingMute(v, i);
    ThenMute(reading, verdict, kind);
    ThenMute(reading + verdict, When(i.stopWait && !(Fails(v, i.analysis) && AsksAgain(v, i) && i.probe == NotLive), [ShutdownSeen]), kind);
  }

  lemma {:induction false} MovesMute(urls: seq<Option<string>>)
    ensures Mute(Moves(urls))
    decreases |urls|
  {
    if urls != [] {
      MovesMute(urls[1..]);
    }
  }

  lemma GoingGives(manifest: string, v: Past, cfg: Config, i: CycleInput, kind: Kind)
    ensures SamplesIn(Going(manifest, v, cfg, i), kind) ==
            if i.stopRefresh || i.stopAnalysis then []
            else Heeded(v.(moved := v.moved || Elsewhere(manifest, i.refreshes)), i.analysis, kind)
  {
    MovesMute(i.refreshes);
    if i.stopRefresh || i.stopAnalysis {
      MuteThen(Moves(i.refreshes), [ShutdownSeen], kind);
      MuteSamples([ShutdownSeen], kind);
    } else {
      var seen := v.(moved := v.moved || Elsewhere(manifest, i.refreshes));
      WorkingGives(seen, cfg, i, kind);
      MuteThen(Moves(i.refreshes), Working(seen, cfg, i), kind);
    }
  }

  lemma ChronicleGives(j: Journal, cfg: Config, i: CycleInput, kind: Kind)
    ensures SamplesIn(Chronicle(LastLiveCheck(j), ManifestURL(j), PastOf(j), cfg, i), kind) == GivenByCycle(j, i, kind)
  {
    if i.stopTop {
      MuteSamples([ShutdownSeen], kind);
    } else {
      var checks := When(Asks(LastLiveCheck(j), i), [LiveChecked(i.liveTime, i.live)]);
      var rest := if OverByCheck(LastLiveCheck(j), i) then Closing(i.endedFate, false)
                  else if StateOf(j) == Monitoring then Going(ManifestURL(j), PastOf(j), cfg, i) else [];
      assert Mute(checks);
      MuteThen(checks, rest, kind);
      if OverByCheck(LastLiveCheck(j), i) {
        MuteSamples(rest, kind);
      } else {
        GoingGives(ManifestURL(j), PastOf(j), cfg, i, kind);
      }
    }
  }

  // ---- Runs

  lemma CycleGives(j: Journal, cfg: Config, i: CycleInput, kind: Kind)
    requires (StateOf(j) == Monitoring || StateOf(j) == Completed) && !Stopped(j)
    ensures SamplesIn(Entries(Cycle(j, cfg, i).0), kind) == SamplesIn(Entries(j), kind) + GivenByCycle(j, i, kind)
  {
    CycleChronicled(j, cfg, i);
    ChronicleGives(j, cfg, i, kind);
    SamplesJoined(Entries(j), Chronicle(LastLiveCheck(j), ManifestURL(j), PastOf(j), cfg, i), kind);
  }

  lemma PendingGoesOn(j: Journal, cfg: Config, i: CycleInput)
    ensures Cycle(j, cfg, i).1.Pending? ==> !Stopped(Cycle(j, cfg, i).0)
  {
  }

  lemma {:induction false} CyclesGive(j: Journal, cfg: Config, script: seq<CycleInput>, kind: Kind)
    requires Sound(j, cfg) && Watched(j) && !Stopped(j)
    ensures SamplesIn(Entries(Cycles(j, cfg, script).0), kind) == SamplesIn(Entries(j), kind) + GivenByCycles(j, cfg, script, kind)
    decreases |script|
  {
    if script != [] && StateOf(j) != Error {
      var given := GivenByCycle(j, script[0], kind);
      CycleGives(j, cfg, script[0], kind);
      CycleSound(j, cfg, script[0]);
      PendingGoesOn(j, cfg, script[0]);
      if Cycle(j, cfg, script[0]).1.Pending? {
        CyclesGive(Cycle(j, cfg, script[0]).0, cfg, script[1..], kind);
        Regrouped(SamplesIn(Entries(j), kind), given, GivenByCycles(Cycle(j, cfg, script[0]).0, cfg, script[1..], kind));
      }
    }
  }

  lemma WaitingMute(j: Journal, cfg: Config, first: bool, i: WaitInput)
    ensures Mute(WorkerChronicle.Waiting(j, cfg, first, i))
  {
  }

  lemma WaitPending(j: Journal, cfg: Config, first: bool, i: WaitInput)
    requires StateOf(j) == State.Waiting && !Stopped(j) && WaitStep(j, cfg, first, i).1.Pending?
    ensures var next := WaitStep(j, cfg, first, i).0;
            !Stopped(next) && (StateOf(next) == State.Waiting || StateOf(next) == Error)
  {
  }

  lemma WaitGives(j: Journal, cfg: Config, first: bool, i: WaitInput, kind: Kind)
    requires StateOf(j) == State.Waiting && !Stopped(j)
    ensures SamplesIn(Entries(WaitStep(j, cfg, first, i).0), kind) == SamplesIn(Entries(j), kind)
  {
    WaitChronicled(j, cfg, first, i);
    WaitingMute(j, cfg, first, i);
    ThenMute(Entries(j), WorkerChronicle.Waiting(j, cfg, first, i), kind);
  }

  lemma {:induction false} WaitsGive(j: Journal, cfg: Config, first: bool, script: seq<WaitInput>, kind: Kind)
    requires (StateOf(j) == State.Waiting || StateOf(j) == Error) && !Stopped(j)
    ensures SamplesIn(Entries(Wait(j, cfg, first, script).0), kind) == SamplesIn(Entries(j), kind)
    decreases |script|
  {
    if script != [] && StateOf(j) == State.Waiting {
      WaitGives(j, cfg, first, script[0], kind);
      var (next, outcome) := WaitStep(j, cfg, first, script[0]);
      if outcome.Pending? {
        WaitPending(j, cfg, first, script[0]);
        WaitsGive(next, cfg, false, script[1..], kind);
      }
    }
  }

  lemma RoundGives(j: Journal, cfg: Config, v: Visit, kind: Kind)
    requires Sound(j, cfg) && !Stopped(j) && (StateOf(j) == State.Waiting || StateOf(j) == Monitoring)
    ensures SamplesIn(Entries(Round(j, cfg, v).0), kind) == SamplesIn(Entries(j), kind) + GivenByVisit(j, cfg, v, kind)
  {
    if StateOf(j) == State.Waiting {
      WaitsGive(j, cfg, true, v.waits, kind);
    } else if v.manifest.Some? {
      EnteredSound(j, cfg, Entered(v.manifest.value, v.entered));
      CyclesGive(Then(j, Entered(v.manifest.value, v.entered)), cfg, v.cycles, kind);
      ThenMute(Entries(j), [Entered(v.manifest.value, v.entered)], kind);
    }
  }

  lemma EnteredSound(j: Journal, cfg: Config, e: Entry)
    requires Sound(j, cfg) && !Stopped(j) && StateOf(j) == Monitoring && e.Entered?
    ensures Sound(Then(j, e), cfg) && Watched(Then(j, e)) && !Stopped(Then(j, e))
  {
  }

  lemma Regrouped(a: seq<Sample>, b: seq<Sample>, c: seq<Sample>)
    ensures a + b + c == a + (b + c)
  {
  }

  lemma PollGives(j: Journal, raised: bool, kind: Kind)
    ensures SamplesIn(Entries(Polled(j, raised)), kind) == SamplesIn(Entries(j), kind)
  {
    ThenMute(Entries(j), [ShutdownSeen], kind);
  }

  lemma {:induction false} MainGives(j: Journal, cfg: Config, visits: seq<Visit>, kind: Kind)
    requires Sound(j, cfg)
    ensures SamplesIn(Entries(Main(j, cfg, visits).0), kind) == SamplesIn(Entries(j), kind) + Given(j, cfg, visits, kind)
    decreases |visits|
  {
    if visits != [] {
      var polled := Polled(j, visits[0].stop);
      PollSound(j, visits[0].stop, cfg);
      PollGives(j, visits[0].stop, kind);
      if Stopped(polled) || StateOf(polled) == Completed || StateOf(polled) == Error {
        assert Main(j, cfg, visits).0 == polled && Given(j, cfg, visits, kind) == [];
      } else {
        RoundGives(polled, cfg, visits[0], kind);
        RoundSound(polled, cfg, visits[0]);
        MainGivesOn(polled, cfg, visits, kind);
        assert Main(j, cfg, visits).0 == MainOn(polled, cfg, visits);
        assert Given(j, cfg, visits, kind) == GivenOn(polled, cfg, visits, kind);
      }
    }
  }

  // The rest of a run, from its first visit on
  function MainOn(polled: Journal, cfg: Config, visits: seq<Visit>): Journal
    requires visits != [] && (StateOf(polled) == State.Waiting || StateOf(polled) == Monitoring)
  {
    var (next, outcome) := Round(polled, cfg, visits[0]);
    match outcome
    case Pending => next
    case ReturnsError => Then(next, Became(Error))
    case ReturnsNil => Main(next, cfg, visits[1..]).0
  }

  lemma {:induction false} MainGivesOn(polled: Journal, cfg: Config, visits: seq<Visit>, kind: Kind)
    requires visits != [] && !Stopped(polled) && (StateOf(polled) == State.Waiting || StateOf(polled) == Monitoring)
    requires Sound(Round(polled, cfg, visits[0]).0, cfg)
    requires SamplesIn(Entries(Round(polled, cfg, visits[0]).0), kind) ==
             SamplesIn(Entries(polled), kind) + GivenByVisit(polled, cfg, visits[0], kind)
    ensures SamplesIn(Entries(MainOn(polled, cfg, visits)), kind) ==
            SamplesIn(Entries(polled), kind) + GivenOn(polled, cfg, visits, kind)
    decreases |visits|, 0
  {
    var (next, outcome) := Round(polled, cfg, visits[0]);
    var before, given := SamplesIn(Entries(polled), kind), GivenByVisit(polled, cfg, visits[0], kind);
    if outcome.ReturnsNil? {
      var rest := Given(next, cfg, visits[1..], kind);
      MainGives(next, cfg, visits[1..], kind);
      Regrouped(before, given, rest);
      assert GivenOn(polled, cfg, visits, kind) == given + rest;
    } else {
      ThenMute(Entries(next), [Became(Error)], kind);
      assert GivenOn(polled, cfg, visits, kind) == given;
    }
  }

  function HistoryOf(samples: seq<Sample>): History {
    if samples == [] then NoSamples else After(HistoryOf(samples[..|samples| - 1]), samples[|samples| - 1])
  }

  lemma {:induction false} HistoryOfSamples(h: History)
    ensures HistoryOf(Samples(h)) == h
  {
    if h.After? {
      HistoryOfSamples(h.past);
      assert Samples(h)[..|Samples(h)| - 1] == Samples(h.past);
    }
  }

  // In every run each detector is given exactly the samples of the segments that get that far, the
  // picture's verdicts to the one and the sound's to the other.
  lemma HeardAsGiven(cfg: Config, visits: seq<Visit>, kind: Kind)
    ensures var j := Run(cfg, false, visits).0;
            Samples(Heard(j, kind)) == Given(Nothing, cfg, visits, kind) && Heard(j, kind) == HistoryOf(Given(Nothing, cfg, visits, kind))
  {
    var j := Run(cfg, false, visits).0;
    MainGives(Nothing, cfg, visits, kind);
    HeardMeans(j, kind);
    HistoryOfSamples(Heard(j, kind));
  }

  // So blackout alerts are those that the pictures call for by the blackout threshold, and silence
  // alerts those that the sound calls for by the silence threshold.
  lemma AlertsFollowInputs(cfg: Config, visits: seq<Visit>)
    ensures var j := Run(cfg, false, visits).0;
            && WorkerRuns.AlertsIn(j, Video) == Alerts(HistoryOf(Given(Nothing, cfg, visits, Video)), cfg.blackoutThreshold)
            && WorkerRuns.AlertsIn(j, Audio) == Alerts(HistoryOf(Given(Nothing, cfg, visits, Audio)), cfg.silenceThreshold)
  {
    HeardAsGiven(cfg, visits, Video);
    HeardAsGiven(cfg, visits, Audio);
    WorkerRuns.AlertsFollowDetection(cfg, false, visits, Video);
    WorkerRuns.AlertsFollowDetection(cfg, false, visits, Audio);
  }

  // What one analysis adds to what a detector has heard
  lemma AnalysisHeard(j: Journal, cfg: Config, a: AnalysisInput, kind: Kind)
    requires StateOf(j) == Monitoring && !Stopped(j)
    ensures Heard(Analysis(j, cfg, a).0, kind) ==
            if Hears(PastOf(j), a) then After(Heard(j, kind), SampleOf(kind, a.verdict.value, a.latest.value.duration)) else Heard(j, kind)
  {
    var next := Analysis(j, cfg, a).0;
    AnalysisEntries(j, PastOf(j), cfg, a);
    ReadingGives(PastOf(j), cfg, a, kind);
    SamplesJoined(Entries(j), Reading(PastOf(j), cfg, a), kind);
    HeardMeans(j, kind);
    HeardMeans(next, kind);
    SameSamples(Heard(next, kind), if Hears(PastOf(j), a)
      then After(Heard(j, kind), SampleOf(kind, a.verdict.value, a.latest.value.duration)) else Heard(j, kind));
  }

  lemma SameSamples(g: History, h: History)
    requires Samples(g) == Samples(h)
    ensures g == h
  {
    HistoryOfSamples(g);
    HistoryOfSamples(h);
  }
}
