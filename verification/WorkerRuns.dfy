/** Whole runs of a worker, as sequences. */
module WorkerRuns {
  import opened Wrappers
  import opened Detection
  import opened WorkerHistory
  import opened WorkerSpec
  import opened WorkerLaws

  // p is how j began.
  ghost predicate Began(p: Journal, j: Journal) {
    p == j || (j.Then? && Began(p, j.past))
  }

  lemma {:induction false} LawfulSinceTheBeginning(p: Journal, j: Journal, cfg: Config)
    requires Lawful(j, cfg) && Began(p, j)
    ensures Lawful(p, cfg) && Rank(StateOf(p)) <= Rank(StateOf(j)) && LastSegment(p).0 <= LastSegment(j).0
    decreases j
  {
    if p != j {
      LawfulSinceTheBeginning(p, j.past, cfg);
    }
  }

  // ---- States

  // The state never goes back, and the error state is never left.
  lemma StatesOnlyAdvance(cfg: Config, noTmpDir: bool, visits: seq<Visit>, p: Journal, q: Journal)
    requires Began(p, q) && Began(q, Run(cfg, noTmpDir, visits).0)
    ensures Rank(StateOf(p)) <= Rank(StateOf(q))
    ensures StateOf(p) == Error ==> StateOf(q) == Error
  {
    RunSound(cfg, noTmpDir, visits);
    LawfulSinceTheBeginning(q, Run(cfg, noTmpDir, visits).0, cfg);
    LawfulSinceTheBeginning(p, q, cfg);
  }

  // ---- Webhooks

  // Everywhere in every run a webhook is attempted next exactly if the entry before calls for it,
  // and it is that one; none once a shutdown was noticed, and none is still owed at the end.
  lemma AttemptedExactlyWhenOwed(cfg: Config, noTmpDir: bool, visits: seq<Visit>, p: Journal, e: Entry)
    requires Began(Then(p, e), Run(cfg, noTmpDir, visits).0)
    ensures e.Attempt? <==> Owed(p, cfg).Some?
    ensures e.Attempt? ==> Owed(p, cfg) == Some(e.event) && !Stopped(p)
    ensures Owed(Run(cfg, noTmpDir, visits).0, cfg).None?
  {
    RunSound(cfg, noTmpDir, visits);
    LawfulSinceTheBeginning(Then(p, e), Run(cfg, noTmpDir, visits).0, cfg);
  }

  // yt-dlp is asked again only five minutes after the last time.
  lemma LiveChecksAreApart(cfg: Config, noTmpDir: bool, visits: seq<Visit>, p: Journal, now: int, found: Liveness)
    requires Began(Then(p, LiveChecked(now, found)), Run(cfg, noTmpDir, visits).0)
    ensures LastLiveCheck(p).Some? ==> now - LastLiveCheck(p).value >= LIVE_CHECK_INTERVAL
  {
    RunSound(cfg, noTmpDir, visits);
    LawfulSinceTheBeginning(Then(p, LiveChecked(now, found)), Run(cfg, noTmpDir, visits).0, cfg);
  }

  // A delay is announced once, after the scheduled start and the tolerance have passed.
  lemma DelayHasReason(cfg: Config, noTmpDir: bool, visits: seq<Visit>, p: Journal, fate: Fate)
    requires Began(Then(p, Attempt(Delayed, fate)), Run(cfg, noTmpDir, visits).0)
    ensures p.Then? && p.last.StillWaiting? && cfg.delayThreshold.Some? && p.last.now > cfg.delayThreshold.value
    ensures !Attempted(p, Delayed)
  {
    AttemptedExactlyWhenOwed(cfg, noTmpDir, visits, p, Attempt(Delayed, fate));
  }

  // ---- Suspensions

  // Suspended counts as raised, resumed as recovered.
  function Turns(j: Journal): seq<Alert> {
    if j.Nothing? then []
    else if j.last.Attempt? && j.last.event == Suspended then Turns(j.past) + [Raised]
    else if j.last.Attempt? && j.last.event == Resumed then Turns(j.past) + [Recovered]
    else Turns(j.past)
  }

  lemma {:induction false} LawfulTurns(j: Journal, cfg: Config)
    requires Lawful(j, cfg)
    ensures Alternating(Turns(j))
    ensures Turn(Turns(j)) == Recovered <==> SuspensionOpen(j) || Owed(j, cfg) == Some(Resumed)
  {
    if j.Then? {
      LawfulTurns(j.past, cfg);
      var turns := Turns(j.past);
      assert (turns + [Raised])[..|turns|] == turns && (turns + [Recovered])[..|turns|] == turns;
    }
  }

  // Attempts of suspended and resumed strictly alternate, starting with suspended.
  lemma SuspensionsAlternate(cfg: Config, noTmpDir: bool, visits: seq<Visit>)
    ensures var j := Run(cfg, noTmpDir, visits).0;
            && (forall k :: 0 <= k < |Turns(j)| ==> Turns(j)[k] == if k % 2 == 0 then Raised else Recovered)
            && (Turn(Turns(j)) == Recovered <==> SuspensionOpen(j))
  {
    var j := Run(cfg, noTmpDir, visits).0;
    RunSound(cfg, noTmpDir, visits);
    LawfulTurns(j, cfg);
    AlternatingMeans(Turns(j));
  }

  // Which entry a webhook is owed for
  lemma OwedOnlySo(p: Journal, cfg: Config)
    requires Lawful(p, cfg)
    ensures Owed(p, cfg) == Some(Suspended) ==>
              p.last.CheckedStale? && LastProgress(p).Some? && p.last.now - LastProgress(p).value >= SUSPENSION_ALERT_THRESHOLD
    ensures Owed(p, cfg) == Some(Resumed) ==> p.last.Accepted? && !p.last.rebaseline && SuspensionOpen(p.past)
    ensures Owed(p, cfg) == Some(SegmentError) ==> p.last.Probed?
  {
  }

  // A suspension is announced at least ten seconds after the last progress; a resumption only for a
  // segment accepted just then, in a cycle that did not take in a new manifest.
  lemma SuspensionsHaveReasons(cfg: Config, noTmpDir: bool, visits: seq<Visit>, p: Journal, e: Event, fate: Fate)
    requires Began(Then(p, Attempt(e, fate)), Run(cfg, noTmpDir, visits).0) && (e == Suspended || e == Resumed)
    ensures e == Suspended ==>
              && p.Then? && p.last.CheckedStale? && LastProgress(p).Some?
              && p.last.now - LastProgress(p).value >= SUSPENSION_ALERT_THRESHOLD
    ensures e == Resumed ==> p.Then? && p.last.Accepted? && !p.last.rebaseline && SuspensionOpen(p.past)
  {
    RunSound(cfg, noTmpDir, visits);
    LawfulSinceTheBeginning(Then(p, Attempt(e, fate)), Run(cfg, noTmpDir, visits).0, cfg);
    OwedOnlySo(p, cfg);
  }

  // ---- Blackouts and silences

  function AlertsIn(j: Journal, kind: Kind): seq<Alert> {
    if j.Nothing? then []
    else if j.last.Attempt? && j.last.event == Alarm(kind) then AlertsIn(j.past, kind) + [Raised]
    else if j.last.Attempt? && j.last.event == Recovery(kind) then AlertsIn(j.past, kind) + [Recovered]
    else AlertsIn(j.past, kind)
  }

  function Outstanding(j: Journal, kind: Kind, cfg: Config): seq<Alert> {
    if Owed(j, cfg) == Some(Alarm(kind)) then [Raised]
    else if Owed(j, cfg) == Some(Recovery(kind)) then [Recovered]
    else []
  }

  lemma {:induction false} LawfulAlerts(j: Journal, kind: Kind, cfg: Config)
    requires Lawful(j, cfg)
    ensures Alerts(Heard(j, kind), Threshold(cfg, kind)) == AlertsIn(j, kind) + Outstanding(j, kind, cfg)
  {
    if j.Then? {
      LawfulAlerts(j.past, kind, cfg);
    }
  }

  // The alerts attempted for one kind are exactly those that the analysed segments call for.
  lemma AlertsFollowDetection(cfg: Config, noTmpDir: bool, visits: seq<Visit>, kind: Kind)
    ensures var j := Run(cfg, noTmpDir, visits).0;
            && AlertsIn(j, kind) == Alerts(Heard(j, kind), if kind == Video then cfg.blackoutThreshold else cfg.silenceThreshold)
            && (forall k :: 0 <= k < |AlertsIn(j, kind)| ==> AlertsIn(j, kind)[k] == if k % 2 == 0 then Raised else Recovered)
            && RaisedIn(AlertsIn(j, kind)) == CountReached(Runs(Heard(j, kind)), Threshold(cfg, kind))
  {
    var j := Run(cfg, noTmpDir, visits).0;
    RunSound(cfg, noTmpDir, visits);
    LawfulAlerts(j, kind, cfg);
    AlertsAlternate(Heard(j, kind), Threshold(cfg, kind));
    AlternatingMeans(AlertsIn(j, kind));
    RaisedOncePerRun(Heard(j, kind), Threshold(cfg, kind));
  }

  // ---- Accepted segments

  function Accepts(j: Journal): seq<(nat, string)> {
    if j.Nothing? then []
    else if j.last.Accepted? then Accepts(j.past) + [(j.last.sequence, j.last.url)]
    else Accepts(j.past)
  }

  lemma {:induction false} LawfulAccepts(j: Journal, cfg: Config)
    requires Lawful(j, cfg)
    ensures |Accepts(j)| == AcceptedCount(j)
    ensures LastSegment(j) == if Accepts(j) == [] then (0, "") else Accepts(j)[|Accepts(j)| - 1]
    ensures forall k :: 0 < k < |Accepts(j)| ==> Accepts(j)[k - 1].0 <= Accepts(j)[k].0 && Accepts(j)[k - 1] != Accepts(j)[k]
  {
    if j.Then? {
      LawfulAccepts(j.past, cfg);
    }
  }

  // Accepted sequence numbers never decrease and no segment is accepted twice in a row.
  lemma AcceptedInOrder(cfg: Config, noTmpDir: bool, visits: seq<Visit>)
    ensures var j := Run(cfg, noTmpDir, visits).0;
            && |Accepts(j)| == AcceptedCount(j)
            && forall k :: 0 < k < |Accepts(j)| ==> Accepts(j)[k - 1].0 <= Accepts(j)[k].0 && Accepts(j)[k - 1] != Accepts(j)[k]
  {
    RunSound(cfg, noTmpDir, visits);
    LawfulAccepts(Run(cfg, noTmpDir, visits).0, cfg);
  }

  // ---- Failing cycles

  lemma {:induction false} LawfulStreaks(j: Journal, cfg: Config)
    requires Lawful(j, cfg)
    ensures SegmentErrors(j) <= Probes(j) <= 1
  {
    if j.Then? {
      LawfulStreaks(j.past, cfg);
      if j.last.Attempt? && j.last.event == SegmentError {
        LawfulStreaks(j.past.past, cfg);
      }
    }
  }

  // At any moment since the last cycle that went fine: at most one probe, at most one segment error
  // alert, and only a minute or more after the first failure.
  lemma OneProbePerStreak(cfg: Config, noTmpDir: bool, visits: seq<Visit>, p: Journal)
    requires Began(p, Run(cfg, noTmpDir, visits).0)
    ensures SegmentErrors(p) <= Probes(p) <= 1
    ensures p.Then? && p.last.Probed? ==>
              FailingSince(p.past).Some? && p.last.now - FailingSince(p.past).value >= SEGMENT_ERROR_THRESHOLD
    ensures p.Then? && p.last.Attempt? && p.last.event == SegmentError ==> p.past.Then? && p.past.last.Probed?
  {
    RunSound(cfg, noTmpDir, visits);
    LawfulSinceTheBeginning(p, Run(cfg, noTmpDir, visits).0, cfg);
    LawfulStreaks(p, cfg);
  }
}
