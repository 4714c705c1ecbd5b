/** How often monitors can be taken out of activity, and how often that can be reported. */
module Accounting {
  import opened Wrappers
  import opened Monitors
  import opened ApiServer
  import opened Protocol

  predicate Active(o: Option<Object>) {
    o.Some? && IsActive(o.value.status.phase)
  }

  predicate Activates(c: Commit) {
    !Active(c.before) && Active(c.after)
  }

  predicate Deactivates(c: Commit) {
    Active(c.before) && !Active(c.after)
  }

  predicate IsSwap(c: Commit) {
    c.purpose.SwapPhase?
  }

  predicate IsFailure(c: Commit) {
    c.purpose.SwapPhase? && c.purpose.next == Failed
  }

  // A write that sets an active phase whatever the phase was
  predicate SetsActive(c: Commit) {
    match c.purpose
    case InitialPhase(phase) => IsActive(phase)
    case SetPhase(phase) => IsActive(phase)
    case _ => false
  }

  // Status writes of an inactive phase, and deletions, of a monitor that was active
  predicate EndsOtherwise(c: Commit) {
    Deactivates(c) && !IsSwap(c)
  }

  // The number of commits on id of some kind
  function Tally(log: seq<Commit>, id: Id, kind: Commit -> bool): nat {
    if log == [] then 0
    else Tally(log[..|log| - 1], id, kind) + (if log[|log| - 1].id == id && kind(log[|log| - 1]) then 1 else 0)
  }

  function Now(log: seq<Commit>, id: Id): nat {
    if Active(Find(Replay(log), id)) then 1 else 0
  }

  ghost predicate AllCareful(log: seq<Commit>) {
    forall c :: c in log ==> Careful(c)
  }

  // Every activation is ended once or still stands.
  lemma {:induction false} ActivityIsConserved(log: seq<Commit>, id: Id)
    requires Linear(log)
    ensures Tally(log, id, Activates) == Tally(log, id, Deactivates) + Now(log, id)
  {
    if log != [] {
      ActivityIsConserved(log[..|log| - 1], id);
    }
  }

  // All swaps end an activation that a create or an unconditional status write began. Nothing else does.
  lemma {:induction false} CarefulTallies(log: seq<Commit>, id: Id)
    requires AllCareful(log)
    ensures Tally(log, id, Deactivates) == Tally(log, id, IsSwap) + Tally(log, id, EndsOtherwise)
    ensures Tally(log, id, Activates) <= Tally(log, id, SetsActive)
    ensures Tally(log, id, IsFailure) <= Tally(log, id, IsSwap)
  {
    if log != [] {
      assert Careful(log[|log| - 1]);
      CarefulTallies(log[..|log| - 1], id);
    }
  }

  lemma InvIsCareful(s: System)
    requires Inv(s)
    ensures Linear(s.server.log) && AllCareful(s.server.log) && Replay(s.server.log) == s.server.objects
  {
  }

  // In every run: swaps, other endings and the present activity of a monitor together never exceed
  // the writes that set it active.
  lemma SwapsAreBounded(maxMonitors: int, steps: seq<Step>, id: Id)
    ensures var log := Run(Start(maxMonitors), steps).server.log;
            Tally(log, id, IsSwap) + Tally(log, id, EndsOtherwise) + Now(log, id) <= Tally(log, id, SetsActive)
  {
    EveryRun(maxMonitors, steps);
    var s := Run(Start(maxMonitors), steps);
    InvIsCareful(s);
    ActivityIsConserved(s.server.log, id);
    CarefulTallies(s.server.log, id);
  }

  // ---- Reports

  function Reports(alerts: seq<Alert>, id: Id): nat {
    if alerts == [] then 0
    else Reports(alerts[..|alerts| - 1], id) + (if alerts[|alerts| - 1].id == id then 1 else 0)
  }

  // The reports of id made because of one of the first n commits
  function ReportsWithin(alerts: seq<Alert>, id: Id, n: nat): nat {
    if alerts == [] then 0
    else
      var last := alerts[|alerts| - 1];
      ReportsWithin(alerts[..|alerts| - 1], id, n) + (if last.id == id && last.commit < n then 1 else 0)
  }

  ghost predicate Distinct(alerts: seq<Alert>) {
    forall i, j :: 0 <= i < j < |alerts| ==> alerts[i].commit != alerts[j].commit
  }

  lemma {:induction false} OneMoreCommit(alerts: seq<Alert>, id: Id, n: nat)
    requires Distinct(alerts)
    ensures ReportsWithin(alerts, id, n + 1) <= ReportsWithin(alerts, id, n) + 1
    ensures (forall a :: a in alerts && a.id == id ==> a.commit != n) ==> ReportsWithin(alerts, id, n + 1) == ReportsWithin(alerts, id, n)
  {
    if alerts != [] {
      OneMoreCommit(alerts[..|alerts| - 1], id, n);
    }
  }

  lemma {:induction false} ReportsAreFailures(alerts: seq<Alert>, log: seq<Commit>, id: Id, n: nat)
    requires Distinct(alerts) && n <= |log|
    requires forall a :: a in alerts ==> Justifies(log, a.commit, a.client, a.id)
    ensures ReportsWithin(alerts, id, n) <= Tally(log[..n], id, IsFailure)
  {
    if n == 0 {
      NoneWithinNothing(alerts, id);
    } else {
      ReportsAreFailures(alerts, log, id, n - 1);
      OneMoreCommit(alerts, id, n - 1);
      assert log[..n][..n - 1] == log[..n - 1];
    }
  }

  lemma {:induction false} NoneWithinNothing(alerts: seq<Alert>, id: Id)
    ensures ReportsWithin(alerts, id, 0) == 0
  {
    if alerts != [] {
      NoneWithinNothing(alerts[..|alerts| - 1], id);
    }
  }

  lemma {:induction false} AllWithin(alerts: seq<Alert>, id: Id, n: nat)
    requires forall a :: a in alerts ==> a.commit < n
    ensures ReportsWithin(alerts, id, n) == Reports(alerts, id)
  {
    if alerts != [] {
      AllWithin(alerts[..|alerts| - 1], id, n);
    }
  }

  // In every run: no more monitor.error for a monitor than swaps to the error phase, and no more of
  // these than writes that set it active.
  lemma ReportsAreBounded(maxMonitors: int, steps: seq<Step>, id: Id)
    ensures var s := Run(Start(maxMonitors), steps);
            && Reports(s.alerts, id) <= Tally(s.server.log, id, IsFailure)
            && Reports(s.alerts, id) + Now(s.server.log, id) <= Tally(s.server.log, id, SetsActive)
  {
    EveryRun(maxMonitors, steps);
    var s := Run(Start(maxMonitors), steps);
    InvIsCareful(s);
    ReportsAreFailures(s.alerts, s.server.log, id, |s.server.log|);
    assert s.server.log[..|s.server.log|] == s.server.log;
    AllWithin(s.alerts, id, |s.server.log|);
    CarefulTallies(s.server.log, id);
    SwapsAreBounded(maxMonitors, steps, id);
  }

  // A monitor inactive after one commit and active before another was set active in between.
  lemma {:induction false} ActivatedBetween(log: seq<Commit>, id: Id, i: nat, j: nat) returns (k: nat)
    requires Linear(log) && AllCareful(log) && i < j <= |log|
    requires !Active(Find(Replay(log[..i + 1]), id)) && Active(Find(Replay(log[..j]), id))
    ensures i < k < j && log[k].id == id && SetsActive(log[k])
    decreases j
  {
    LinearPrefix(log, j);
    assert log[..j][..j - 1] == log[..j - 1];
    if !Active(Find(Replay(log[..j - 1]), id)) {
      k := j - 1;
      assert Careful(log[k]);
    } else {
      k := ActivatedBetween(log, id, i, j - 1);
    }
  }

  lemma {:induction false} LinearPrefix(log: seq<Commit>, n: nat)
    requires Linear(log) && n <= |log|
    ensures Linear(log[..n])
    ensures n > 0 ==> log[n - 1].before == Find(Replay(log[..n - 1]), log[n - 1].id)
    decreases |log|
  {
    if n == |log| {
      assert log[..n] == log;
    } else {
      LinearPrefix(log[..|log| - 1], n);
      assert log[..|log| - 1][..n] == log[..n];
      if n > 0 {
        assert log[..|log| - 1][..n - 1] == log[..n - 1];
      }
    }
  }

  // In every run: a monitor that a commit leaves inactive is active again later exactly if somebody
  // writes an active phase over whatever is there.
  lemma ReactivatedExactly(maxMonitors: int, steps: seq<Step>, id: Id, i: nat)
    requires var log := Run(Start(maxMonitors), steps).server.log;
             i < |log| && !Active(Find(Replay(log[..i + 1]), id))
    ensures var log := Run(Start(maxMonitors), steps).server.log;
            (exists j :: i < j <= |log| && Active(Find(Replay(log[..j]), id))) <==>
            (exists k :: i < k < |log| && log[k].id == id && SetsActive(log[k]))
  {
    EveryRun(maxMonitors, steps);
    var s := Run(Start(maxMonitors), steps);
    var log := s.server.log;
    InvIsCareful(s);
    if j :| i < j <= |log| && Active(Find(Replay(log[..j]), id)) {
      var k := ActivatedBetween(log, id, i, j);
    }
    if k :| i < k < |log| && log[k].id == id && SetsActive(log[k]) {
      SetIsActive(log, k);
    }
  }

  lemma SetIsActive(log: seq<Commit>, k: nat)
    requires AllCareful(log) && k < |log| && SetsActive(log[k])
    ensures Active(Find(Replay(log[..k + 1]), log[k].id))
  {
    assert Careful(log[k]);
    assert log[..k + 1][..k] == log[..k];
  }

  lemma FailureEndsActivity(log: seq<Commit>, k: nat, c: nat, id: Id)
    requires Linear(log) && AllCareful(log) && Justifies(log, k, c, id)
    ensures Active(Find(Replay(log[..k]), id)) && !Active(Find(Replay(log[..k + 1]), id))
  {
    LinearPrefix(log, k + 1);
    assert Careful(log[k]);
    assert log[..k + 1][..k] == log[..k];
  }

  // One failure is reported once, whoever notices it: between two reports of the same monitor
  // somebody set it active again.
  lemma NeverReportedTwice(maxMonitors: int, steps: seq<Step>, a: Alert, b: Alert) returns (k: nat)
    requires a in Run(Start(maxMonitors), steps).alerts && b in Run(Start(maxMonitors), steps).alerts
    requires a.id == b.id && a.commit < b.commit
    ensures var log := Run(Start(maxMonitors), steps).server.log;
            a.commit < k < b.commit < |log| && log[k].id == a.id && SetsActive(log[k])
  {
    EveryRun(maxMonitors, steps);
    var s := Run(Start(maxMonitors), steps);
    var log := s.server.log;
    InvIsCareful(s);
    FailureEndsActivity(log, a.commit, a.client, a.id);
    FailureEndsActivity(log, b.commit, b.client, b.id);
    k := ActivatedBetween(log, a.id, a.commit, b.commit);
  }
}
