/** Detection of blackouts and of silence, which work alike: an alert when a run of bad segments gets
  * long enough, another one when the run is over.
  */
module Detection {
  import opened Wrappers

  // One analysed segment: fully black (or fully silent), and how long
  datatype Sample = Sample(bad: bool, duration: real)

  datatype History = NoSamples | After(past: History, sample: Sample)

  datatype Alert = Raised | Recovered

  // ---- Reference: what the history of samples calls for

  function Sum(run: seq<real>): real {
    if run == [] then 0.0 else Sum(run[..|run| - 1]) + run[|run| - 1]
  }

  // The durations of the bad samples that a history ends with
  function TrailingRun(h: History): seq<real> {
    if h.NoSamples? || !h.sample.bad then [] else TrailingRun(h.past) + [h.sample.duration]
  }

  // All maximal runs of bad samples, oldest first
  function Runs(h: History): (runs: seq<seq<real>>)
    ensures h.After? && h.sample.bad ==> runs != []
  {
    if h.NoSamples? then []
    else
      var runs := Runs(h.past);
      if !h.sample.bad then runs
      else if h.past.After? && h.past.sample.bad then runs[..|runs| - 1] + [runs[|runs| - 1] + [h.sample.duration]]
      else runs + [[h.sample.duration]]
  }

  // A run reached the threshold if its sum ever did, even if negative durations took it back.
  predicate Reached(run: seq<real>, threshold: real) {
    run != [] && (Reached(run[..|run| - 1], threshold) || Sum(run) >= threshold)
  }

  lemma {:induction false} ReachedMeans(run: seq<real>, threshold: real)
    ensures Reached(run, threshold) <==> exists n :: 1 <= n <= |run| && Sum(run[..n]) >= threshold
  {
    if run != [] {
      var shorter := run[..|run| - 1];
      ReachedMeans(shorter, threshold);
      assert forall n :: 1 <= n <= |shorter| ==> run[..n] == shorter[..n];
      assert run[..|run|] == run;
    }
  }

  function CountReached(runs: seq<seq<real>>, threshold: real): nat {
    if runs == [] then 0
    else CountReached(runs[..|runs| - 1], threshold) + (if Reached(runs[|runs| - 1], threshold) then 1 else 0)
  }

  // The alert due after the last sample of a history
  function Due(h: History, threshold: real): Option<Alert> {
    if h.NoSamples? then None
    else
      var before, after := Reached(TrailingRun(h.past), threshold), Reached(TrailingRun(h), threshold);
      if after && !before then Some(Raised) else if before && !h.sample.bad then Some(Recovered) else None
  }

  // All alerts of a history
  function Alerts(h: History, threshold: real): seq<Alert> {
    if h.NoSamples? then []
    else if Due(h, threshold).Some? then Alerts(h.past, threshold) + [Due(h, threshold).value]
    else Alerts(h.past, threshold)
  }

  lemma ReachedGrows(run: seq<real>, duration: real, threshold: real)
    ensures Sum(run + [duration]) == Sum(run) + duration
    ensures Reached(run + [duration], threshold) <==> Reached(run, threshold) || Sum(run + [duration]) >= threshold
  {
    assert (run + [duration])[..|run|] == run;
  }

  lemma AfterSample(h: History, threshold: real)
    requires h.After?
    ensures var run, after := TrailingRun(h.past), TrailingRun(h);
            && Sum(after) == (if h.sample.bad then Sum(run) + h.sample.duration else 0.0)
            && (after != [] <==> h.sample.bad)
            && (Reached(after, threshold) <==> h.sample.bad && (Reached(run, threshold) || Sum(after) >= threshold))
  {
    ReachedGrows(TrailingRun(h.past), h.sample.duration, threshold);
  }

  lemma {:induction false} LastRunIsTrailing(h: History)
    requires h.After? && h.sample.bad
    ensures Runs(h)[|Runs(h)| - 1] == TrailingRun(h)
  {
    if h.past.After? && h.past.sample.bad {
      LastRunIsTrailing(h.past);
    }
  }

  lemma CountGrows(runs: seq<seq<real>>, run: seq<real>, threshold: real)
    ensures CountReached(runs + [run], threshold) == CountReached(runs, threshold) + if Reached(run, threshold) then 1 else 0
  {
    assert (runs + [run])[..|runs|] == runs;
  }

  // One event more exactly when an alert is raised.
  lemma EventsGrow(h: History, threshold: real)
    requires h.After?
    ensures CountReached(Runs(h), threshold) ==
            CountReached(Runs(h.past), threshold) + if Due(h, threshold) == Some(Raised) then 1 else 0
  {
    var runs, run := Runs(h.past), TrailingRun(h);
    AfterSample(h, threshold);
    if h.sample.bad && h.past.After? && h.past.sample.bad {
      var older := runs[..|runs| - 1];
      LastRunIsTrailing(h.past);
      assert runs == older + [TrailingRun(h.past)] && Runs(h) == older + [run];
      CountGrows(older, TrailingRun(h.past), threshold);
      CountGrows(older, run, threshold);
    } else if h.sample.bad {
      assert TrailingRun(h.past) == [] && Runs(h) == runs + [run];
      CountGrows(runs, run, threshold);
    }
  }

  // The alert that keeps the alternation going
  function Turn(alerts: seq<Alert>): Alert {
    if alerts == [] || alerts[|alerts| - 1] == Recovered then Raised else Recovered
  }

  predicate Alternating(alerts: seq<Alert>) {
    alerts == [] || (Alternating(alerts[..|alerts| - 1]) && alerts[|alerts| - 1] == Turn(alerts[..|alerts| - 1]))
  }

  lemma {:induction false} AlternatingMeans(alerts: seq<Alert>)
    ensures Alternating(alerts) <==> forall k :: 0 <= k < |alerts| ==> alerts[k] == if k % 2 == 0 then Raised else Recovered
  {
    if alerts != [] {
      AlternatingMeans(alerts[..|alerts| - 1]);
    }
  }

  // Alerts strictly alternate, starting with a raised one; one is outstanding exactly while the
  // trailing run has reached the threshold.
  lemma {:induction false} AlertsAlternate(h: History, threshold: real)
    ensures Alternating(Alerts(h, threshold))
    ensures Turn(Alerts(h, threshold)) == Recovered <==> Reached(TrailingRun(h), threshold)
  {
    if h.After? {
      AlertsAlternate(h.past, threshold);
      AfterSample(h, threshold);
      var past := Alerts(h.past, threshold);
      if Due(h, threshold).Some? {
        assert (past + [Due(h, threshold).value])[..|past|] == past;
      }
    }
  }

  function RaisedIn(alerts: seq<Alert>): nat {
    if alerts == [] then 0 else RaisedIn(alerts[..|alerts| - 1]) + (if alerts[|alerts| - 1] == Raised then 1 else 0)
  }

  // As many alerts are raised as there are maximal runs that reach the threshold.
  lemma {:induction false} RaisedOncePerRun(h: History, threshold: real)
    ensures RaisedIn(Alerts(h, threshold)) == CountReached(Runs(h), threshold)
  {
    if h.After? {
      RaisedOncePerRun(h.past, threshold);
      EventsGrow(h, threshold);
      var alerts := Alerts(h, threshold);
      if Due(h, threshold).Some? {
        assert alerts[..|alerts| - 1] == Alerts(h.past, threshold);
      }
    }
  }

  ghost predicate NonNegative(h: History) {
    h.After? ==> h.sample.duration >= 0.0 && NonNegative(h.past)
  }

  lemma {:induction false} SumOfPrefix(run: seq<real>, n: nat)
    requires n <= |run| && forall k :: 0 <= k < |run| ==> run[k] >= 0.0
    ensures Sum(run[..n]) <= Sum(run)
    decreases |run|
  {
    if n == |run| {
      assert run[..n] == run;
    } else {
      SumOfPrefix(run[..|run| - 1], n);
      assert run[..|run| - 1][..n] == run[..n];
    }
  }

  lemma {:induction false} RunIsNonNegative(h: History)
    requires NonNegative(h)
    ensures forall k :: 0 <= k < |TrailingRun(h)| ==> TrailingRun(h)[k] >= 0.0
  {
    if h.After? && h.sample.bad {
      RunIsNonNegative(h.past);
    }
  }

  // With durations as they should be, only the length of the whole trailing run matters.
  lemma ReachedByTotal(h: History, threshold: real)
    requires NonNegative(h)
    ensures Reached(TrailingRun(h), threshold) <==> TrailingRun(h) != [] && Sum(TrailingRun(h)) >= threshold
  {
    var run := TrailingRun(h);
    RunIsNonNegative(h);
    ReachedMeans(run, threshold);
    if Reached(run, threshold) {
      var n :| 1 <= n <= |run| && Sum(run[..n]) >= threshold;
      SumOfPrefix(run, n);
    }
    assert run[..|run|] == run;
  }

  // ---- The detector's own, incremental state

  class Detector {
    const threshold: real
    var consecutive: real
    var start: Option<int>
    var alertSent: bool
    var events: nat
    ghost var history: History

    // Each field is a function of the history.
    ghost predicate Valid()
      reads this
    {
      var run := TrailingRun(history);
      && consecutive == Sum(run) && (start.Some? <==> run != [])
      && alertSent == Reached(run, threshold)
      && events == CountReached(Runs(history), threshold)
    }

    constructor (threshold: real)
      ensures Valid() && history == NoSamples && this.threshold == threshold
    {
      this.threshold, consecutive, start, alertSent, events, history := threshold, 0.0, None, false, 0, NoSamples;
    }

    // One analysed segment, at the time now
    method Process(bad: bool, duration: real, now: int) returns (alert: Option<Alert>)
      requires Valid()
      modifies this
      ensures Valid() && history == After(old(history), Sample(bad, duration)) && alert == Due(history, threshold)
    {
      alert := None;
      history := After(history, Sample(bad, duration));
      AfterSample(history, threshold);
      EventsGrow(history, threshold);
      if bad {
        consecutive := consecutive + duration;
        if start.None? {
          start := Some(now);
        }
        if !alertSent && consecutive >= threshold {
          events := events + 1;
          alertSent := true;
          alert := Some(Raised);
        }
      } else {
        if alertSent && start.Some? {
          alertSent := false;
          alert := Some(Recovered);
        }
        consecutive := 0.0;
        start := None;
      }
    }
  }
}
