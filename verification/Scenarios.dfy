/** Runs that show what the store does not prevent: each rule broken alone leads past the limit, and a
  * failed monitor that is set active again is reported twice.
  */
module Scenarios {
  import opened Monitors
  import opened ApiServer
  import opened Attempts
  import opened Protocol
  import opened Capacity

  // ---- Runs put together

  lemma {:induction false} RunJoined(s: System, xs: seq<Step>, ys: seq<Step>)
    ensures Run(s, xs + ys) == Run(Run(s, xs), ys)
    decreases |ys|
  {
    if ys == [] {
      assert xs + ys == xs;
    } else {
      assert (xs + ys)[..|xs + ys| - 1] == xs + ys[..|ys| - 1];
      RunJoined(s, xs, ys[..|ys| - 1]);
    }
  }

  lemma {:induction false} AlwaysJoined(rule: (System, Step) -> bool, s: System, xs: seq<Step>, ys: seq<Step>)
    ensures Always(rule, s, xs + ys) <==> Always(rule, s, xs) && Always(rule, Run(s, xs), ys)
    decreases |ys|
  {
    if ys == [] {
      assert xs + ys == xs;
    } else {
      var front := ys[..|ys| - 1];
      assert (xs + ys)[..|xs + ys| - 1] == xs + front;
      AlwaysJoined(rule, s, xs, front);
      RunJoined(s, xs, front);
    }
  }

  lemma RunThree(s: System, x: Step, y: Step, z: Step)
    ensures Run(s, [x, y, z]) == Next(Next(Next(s, x), y), z)
  {
    assert [x, y, z][..2] == [x, y] && [x, y][..1] == [x] && [x][..0] == [];
    assert Run(s, [x]) == Next(s, x);
    assert Run(s, [x, y]) == Next(Next(s, x), y);
  }

  lemma AlwaysThree(rule: (System, Step) -> bool, s: System, x: Step, y: Step, z: Step)
    ensures Always(rule, s, [x, y, z]) <==> rule(s, x) && rule(Next(s, x), y) && rule(Next(Next(s, x), y), z)
  {
    assert [x, y, z][..2] == [x, y] && [x, y][..1] == [x] && [x][..0] == [];
    assert Run(s, [x]) == Next(s, x);
    assert Run(s, [x, y]) == Next(Next(s, x), y);
    assert Always(rule, s, [x]) <==> rule(s, x);
    assert Always(rule, s, [x, y]) <==> rule(s, x) && rule(Next(s, x), y);
  }

  // Only asking can break the first two rules.
  lemma {:induction false} NobodyAsks(s: System, steps: seq<Step>)
    requires forall step :: step in steps ==> !step.Ask?
    ensures Always(CaughtUp, s, steps) && Always(Apart, s, steps)
  {
    if steps != [] {
      NobodyAsks(s, steps[..|steps| - 1]);
    }
  }

  // ---- What a client does in one go

  // What one client did: one object written, left in the given phase, and then nothing
  ghost predicate Wrote(s: System, t: System, c: nat, id: Id, phase: Phase) {
    && id in t.server.objects && t.server.objects == s.server.objects[id := t.server.objects[id]]
    && t.server.objects[id].status.phase == phase
    && t == s.(server := t.server, alerts := t.alerts, clients := s.clients[c := ClientOf(s, c).(task := Idle)])
  }

  function Goes(c: nat): seq<Step> {
    [Go(c), Go(c), Go(c)]
  }

  lemma GoPost(s: System, c: nat)
    requires TaskOf(s, c).Post? && TaskOf(s, c).id !in s.server.objects
    ensures var Post(id, hash, spec) := TaskOf(s, c);
            var (outcome, server) := Create(s.server, c, id, hash, spec);
            Next(s, Go(c)) == Doing(s, c, Write(InitialPhase(Initializing), id, 1, outcome.obj)).(server := server)
  {
  }

  lemma GoWrite(s: System, c: nat)
    requires TaskOf(s, c).Write?
    requires var Write(p, id, _, held) := TaskOf(s, c);
             (p.InitialPhase? || p.SetPhase?) && id in s.server.objects && s.server.objects[id] == held
    ensures var Write(p, id, _, held) := TaskOf(s, c);
            var t := Next(s, Go(c));
            && Wrote(s, t, c, id, p.phase) && t.server.objects[id].hash == held.hash && t.alerts == s.alerts
            && |t.server.log| == |s.server.log| + 1
  {
  }

  // A create that the limit admitted is carried through: duplicate check, creation, initial phase.
  lemma CreateCarriedThrough(s: System, c: nat, id: Id, hash: string, spec: Spec)
    requires TaskOf(s, c) == Admitted(id, hash, spec)
    requires id !in s.server.objects && !Store.Duplicate(Cache(s), hash)
    ensures var t := Run(s, Goes(c));
            && Wrote(s, t, c, id, Initializing) && t.server.objects[id].hash == hash && t.alerts == s.alerts
            && |t.server.log| == |s.server.log| + 2
    ensures DisciplinedRun(s, Goes(c))
  {
    var s1, s2 := Next(s, Go(c)), Next(Next(s, Go(c)), Go(c));
    assert s1 == Doing(s, c, Post(id, hash, spec));
    GoPost(s1, c);
    GoWrite(s2, c);
    RunThree(s, Go(c), Go(c), Go(c));
    NobodyAsks(s, Goes(c));
    AlwaysThree(NoRevival, s, Go(c), Go(c), Go(c));
  }

  function Updates(c: nat, id: Id, phase: Phase): seq<Step> {
    [Update(c, SetPhase(phase), id), Go(c), Go(c)]
  }

  lemma PhaseUpdated(s: System, c: nat, id: Id, phase: Phase)
    requires TaskOf(s, c).Idle? && id in s.server.objects && phase != Unset
    ensures var t := Run(s, Updates(c, id, phase));
            && Wrote(s, t, c, id, phase) && t.server.objects[id].hash == s.server.objects[id].hash && t.alerts == s.alerts
            && |t.server.log| == |s.server.log| + 1
    ensures Always(CaughtUp, s, Updates(c, id, phase)) && Always(Apart, s, Updates(c, id, phase))
    ensures !IsActive(phase) ==> Always(NoRevival, s, Updates(c, id, phase))
  {
    var s1, s2 := Next(s, Update(c, SetPhase(phase), id)), Next(Next(s, Update(c, SetPhase(phase), id)), Go(c));
    PhaseRead(s, c, id, phase);
    GoWrite(s2, c);
    RunThree(s, Update(c, SetPhase(phase), id), Go(c), Go(c));
    NobodyAsks(s, Updates(c, id, phase));
    AlwaysThree(NoRevival, s, Update(c, SetPhase(phase), id), Go(c), Go(c));
  }

  lemma PhaseRead(s: System, c: nat, id: Id, phase: Phase)
    requires TaskOf(s, c).Idle? && id in s.server.objects && phase != Unset
    ensures var s1 := Next(s, Update(c, SetPhase(phase), id));
            && TaskOf(s1, c) == Read(SetPhase(phase), id, ATTEMPTS)
            && Next(s1, Go(c)) == Doing(s, c, Write(SetPhase(phase), id, ATTEMPTS, s.server.objects[id]))
  {
    var s1 := Next(s, Update(c, SetPhase(phase), id));
    assert Next(s1, Go(c)).clients == Doing(s, c, TaskOf(Next(s1, Go(c)), c)).clients;
  }

  // The cache is brought up to date.
  function Delivers(n: nat): seq<Step> {
    if n == 0 then [] else Delivers(n - 1) + [Deliver]
  }

  lemma {:induction false} CacheCaughtUp(s: System, n: nat)
    requires s.seen + n <= |s.server.log|
    ensures Run(s, Delivers(n)) == s.(seen := s.seen + n) && DisciplinedRun(s, Delivers(n))
  {
    if n > 0 {
      CacheCaughtUp(s, n - 1);
      assert Delivers(n)[..|Delivers(n)| - 1] == Delivers(n - 1) && Delivers(n)[|Delivers(n)| - 1] == Deliver;
    }
  }

  function Creates(c: nat, id: Id, hash: string, spec: Spec): seq<Step> {
    [Ask(c, id, hash, spec)] + Goes(c)
  }

  lemma Asked(s: System, c: nat, id: Id, hash: string, spec: Spec)
    requires TaskOf(s, c).Idle? && |ActiveIds(Cache(s))| < s.maxMonitors
    ensures var t := Run(s, [Ask(c, id, hash, spec)]);
            t == Doing(s, c, Admitted(id, hash, spec)) && Cache(t) == Cache(s)
  {
    RunOne(s, Ask(c, id, hash, spec));
  }

  lemma Created(s: System, c: nat, id: Id, hash: string, spec: Spec)
    requires TaskOf(s, c).Idle? && |ActiveIds(Cache(s))| < s.maxMonitors
    requires id !in s.server.objects && !Store.Duplicate(Cache(s), hash)
    ensures var t := Run(s, Creates(c, id, hash, spec));
            && Wrote(s, t, c, id, Initializing) && t.server.objects[id].hash == hash && t.alerts == s.alerts
            && |t.server.log| == |s.server.log| + 2
    ensures Always(NoRevival, s, Creates(c, id, hash, spec))
    ensures (forall d :: d in s.clients ==> s.clients[d].task.Idle?) ==> Always(Apart, s, Creates(c, id, hash, spec))
    ensures s.seen == |s.server.log| ==> Always(CaughtUp, s, Creates(c, id, hash, spec))
  {
    var asks := [Ask(c, id, hash, spec)];
    var asked := Run(s, asks);
    Asked(s, c, id, hash, spec);
    RunJoined(s, asks, Goes(c));
    CreateCarriedThrough(asked, c, id, hash, spec);
    assert asked.clients[c := ClientOf(asked, c).(task := Idle)] == s.clients[c := ClientOf(s, c).(task := Idle)];
    RunOne(s, asks[0]);
    AlwaysJoined(NoRevival, s, asks, Goes(c));
    AlwaysJoined(Apart, s, asks, Goes(c));
    AlwaysJoined(CaughtUp, s, asks, Goes(c));
  }

  lemma RunOne(s: System, step: Step)
    ensures Run(s, [step]) == Next(s, step)
    ensures Always(CaughtUp, s, [step]) <==> CaughtUp(s, step)
    ensures Always(Apart, s, [step]) <==> Apart(s, step)
    ensures Always(NoRevival, s, [step]) <==> NoRevival(s, step)
  {
    assert [step][..0] == [];
  }

  // The reconciler, say, finds the pod of id gone, and reports it.
  function Fails(c: nat, id: Id): seq<Step> {
    [Look(c), Swap(c, id, Failed)] + Goes(c)
  }

  lemma Reported(s: System, c: nat, id: Id)
    requires TaskOf(s, c).Idle? && Cache(s) == s.server.objects
    requires id in s.server.objects && IsActive(s.server.objects[id].status.phase)
    ensures var t := Run(s, Fails(c, id));
            && t.alerts == s.alerts + [Alert(c, id, |s.server.log|)]
            && id in t.server.objects && t.server.objects[id].status.phase == Failed
            && TaskOf(t, c).Idle? && |t.server.log| == |s.server.log| + 1 && t.seen == s.seen
  {
    var phase := s.server.objects[id].status.phase;
    var s1 := Next(s, Look(c));
    var s2 := Next(s1, Swap(c, id, Failed));
    RunOne(s, Look(c));
    RunOne(s1, Swap(c, id, Failed));
    RunJoined(s, [Look(c)], [Swap(c, id, Failed)]);
    RunJoined(s, [Look(c)] + [Swap(c, id, Failed)], Goes(c));
    assert [Look(c)] + [Swap(c, id, Failed)] == [Look(c), Swap(c, id, Failed)];
    assert ClientOf(s1, c).snapshot == Cache(s);
    assert TaskOf(s2, c) == Read(SwapPhase(phase, Failed), id, 1);
    SwapCarriedThrough(s2, c, id);
  }

  lemma SwapCarriedThrough(s: System, c: nat, id: Id)
    requires id in s.server.objects
    requires var phase := s.server.objects[id].status.phase;
             IsActive(phase) && TaskOf(s, c) == Read(SwapPhase(phase, Failed), id, 1)
    ensures var t := Run(s, Goes(c));
            && t.alerts == s.alerts + [Alert(c, id, |s.server.log|)]
            && id in t.server.objects && t.server.objects[id].status.phase == Failed
            && TaskOf(t, c).Idle? && |t.server.log| == |s.server.log| + 1 && t.seen == s.seen
  {
    var s1 := Next(s, Go(c));
    var s2 := Next(s1, Go(c));
    assert TaskOf(s1, c) == Write(SwapPhase(s.server.objects[id].status.phase, Failed), id, 1, s.server.objects[id]);
    assert TaskOf(s2, c) == Report(id, |s.server.log|);
    RunThree(s, Go(c), Go(c), Go(c));
  }

  // ---- Each rule is needed

  lemma TwoForOneStream(objects: map<Id, Object>)
    requires objects.Keys == {"a", "b"} && objects["a"].hash == objects["b"].hash
    requires IsActive(objects["a"].status.phase) && IsActive(objects["b"].status.phase)
    ensures |ActiveIds(objects)| == 2 && !OnePerStream(objects)
  {
    assert ActiveIds(objects) == {"a", "b"};
  }

  // The second create is apart from the first, but the cache has seen nothing.
  lemma StaleCacheExceedsTheLimit(spec: Spec)
    ensures var steps := Creates(0, "a", "h", spec) + Creates(0, "b", "h", spec);
            var objects := Run(Start(1), steps).server.objects;
            && Always(Apart, Start(1), steps) && Always(NoRevival, Start(1), steps)
            && |ActiveIds(objects)| == 2 && !OnePerStream(objects)
  {
    var s0 := Start(1);
    var first, second := Creates(0, "a", "h", spec), Creates(0, "b", "h", spec);
    assert ActiveIds(Cache(s0)) == {};
    Created(s0, 0, "a", "h", spec);
    var s1 := Run(s0, first);
    assert Cache(s1) == Cache(s0);
    Created(s1, 0, "b", "h", spec);
    RunJoined(s0, first, second);
    AlwaysJoined(Apart, s0, first, second);
    AlwaysJoined(NoRevival, s0, first, second);
    TwoForOneStream(Run(s1, second).server.objects);
  }

  // Two creates both checked before either is visible
  lemma OverlapExceedsTheLimit(spec: Spec)
    ensures var steps := [Ask(0, "a", "h", spec), Ask(1, "b", "h", spec)] + Goes(0) + Goes(1);
            var objects := Run(Start(1), steps).server.objects;
            && Always(CaughtUp, Start(1), steps) && Always(NoRevival, Start(1), steps)
            && |ActiveIds(objects)| == 2 && !OnePerStream(objects)
  {
    var s0, x, y := Start(1), Ask(0, "a", "h", spec), Ask(1, "b", "h", spec);
    assert Cache(s0) == map[] && ActiveIds(Cache(s0)) == {};
    var s1 := Next(s0, x);
    assert Cache(s1) == map[];
    var s2 := Next(s1, y);
    RunOne(s0, x);
    RunOne(s1, y);
    assert [x] + [y] == [x, y];
    RunJoined(s0, [x], [y]);
    AlwaysJoined(CaughtUp, s0, [x], [y]);
    AlwaysJoined(NoRevival, s0, [x], [y]);
    OverlapCarriedThrough(s0, s2, [x, y], spec);
  }

  lemma OverlapCarriedThrough(s0: System, s2: System, asked: seq<Step>, spec: Spec)
    requires Run(s0, asked) == s2 && Always(CaughtUp, s0, asked) && Always(NoRevival, s0, asked)
    requires s2.server == EMPTY && s2.seen == 0
    requires TaskOf(s2, 0) == Admitted("a", "h", spec) && TaskOf(s2, 1) == Admitted("b", "h", spec)
    ensures var steps := asked + Goes(0) + Goes(1);
            var objects := Run(s0, steps).server.objects;
            && Always(CaughtUp, s0, steps) && Always(NoRevival, s0, steps)
            && |ActiveIds(objects)| == 2 && !OnePerStream(objects)
  {
    assert Cache(s2) == map[];
    CreateCarriedThrough(s2, 0, "a", "h", spec);
    var s3 := Run(s2, Goes(0));
    assert Cache(s3) == map[];
    CreateCarriedThrough(s3, 1, "b", "h", spec);
    RunJoined(s0, asked, Goes(0));
    RunJoined(s0, asked + Goes(0), Goes(1));
    AlwaysJoined(CaughtUp, s0, asked, Goes(0));
    AlwaysJoined(CaughtUp, s0, asked + Goes(0), Goes(1));
    AlwaysJoined(NoRevival, s0, asked, Goes(0));
    AlwaysJoined(NoRevival, s0, asked + Goes(0), Goes(1));
    TwoForOneStream(Run(s3, Goes(1)).server.objects);
  }

  // "a" is completed, which makes room for "b"; then "a" is set active again.
  function Revival(spec: Spec): seq<Step> {
    Completion(spec) + Creates(0, "b", "h", spec) + Updates(0, "a", Monitoring)
  }

  function Completion(spec: Spec): seq<Step> {
    Creates(0, "a", "h", spec) + Updates(0, "a", Completed) + Delivers(3)
  }

  lemma Completes(spec: Spec)
    ensures DisciplinedRun(Start(1), Completion(spec))
    ensures var s := Run(Start(1), Completion(spec));
            && s.server.objects.Keys == {"a"} && s.server.objects["a"].status.phase == Completed
            && s.server.objects["a"].hash == "h"
            && s.seen == |s.server.log| && s.maxMonitors == 1 && forall d :: d in s.clients ==> s.clients[d].task.Idle?
  {
    var s0 := Start(1);
    var creates, updates := Creates(0, "a", "h", spec), Updates(0, "a", Completed);
    assert ActiveIds(Cache(s0)) == {};
    Created(s0, 0, "a", "h", spec);
    var s1 := Run(s0, creates);
    PhaseUpdated(s1, 0, "a", Completed);
    var s2 := Run(s1, updates);
    CacheCaughtUp(s2, 3);
    RunJoined(s0, creates, updates);
    RunJoined(s0, creates + updates, Delivers(3));
    DisciplineJoined(s0, creates, updates);
    DisciplineJoined(s0, creates + updates, Delivers(3));
  }

  lemma DisciplineJoined(s: System, xs: seq<Step>, ys: seq<Step>)
    requires DisciplinedRun(s, xs) && DisciplinedRun(Run(s, xs), ys)
    ensures DisciplinedRun(s, xs + ys)
  {
    AlwaysJoined(CaughtUp, s, xs, ys);
    AlwaysJoined(Apart, s, xs, ys);
    AlwaysJoined(NoRevival, s, xs, ys);
  }

  lemma RevivalExceedsTheLimit(spec: Spec)
    ensures var objects := Run(Start(1), Revival(spec)).server.objects;
            && Always(CaughtUp, Start(1), Revival(spec)) && Always(Apart, Start(1), Revival(spec))
            && |ActiveIds(objects)| == 2 && !OnePerStream(objects)
  {
    var s0 := Start(1);
    var creates, updates := Creates(0, "b", "h", spec), Updates(0, "a", Monitoring);
    Completes(spec);
    EveryRun(1, Completion(spec));
    var s1 := Run(s0, Completion(spec));
    assert s1.server.log[..s1.seen] == s1.server.log;
    assert ActiveIds(Cache(s1)) == {};
    Created(s1, 0, "b", "h", spec);
    var s2 := Run(s1, creates);
    PhaseUpdated(s2, 0, "a", Monitoring);
    RunJoined(s0, Completion(spec), creates);
    RunJoined(s0, Completion(spec) + creates, updates);
    DisciplineJoined(s0, Completion(spec), creates);
    AlwaysJoined(CaughtUp, s0, Completion(spec) + creates, updates);
    AlwaysJoined(Apart, s0, Completion(spec) + creates, updates);
    TwoForOneStream(Run(s2, updates).server.objects);
  }

  // ---- Failed, set active, failed again

  function FailedOnce(spec: Spec): seq<Step> {
    Creates(0, "a", "h", spec) + Delivers(2) + Fails(0, "a")
  }

  function FailedTwice(spec: Spec): seq<Step> {
    FailedOnce(spec) + Updates(0, "a", Monitoring) + Delivers(2) + Fails(0, "a")
  }

  lemma CacheIsServer(maxMonitors: int, steps: seq<Step>)
    requires Run(Start(maxMonitors), steps).seen == |Run(Start(maxMonitors), steps).server.log|
    ensures var s := Run(Start(maxMonitors), steps);
            Cache(s) == s.server.objects
  {
    EveryRun(maxMonitors, steps);
    var s := Run(Start(maxMonitors), steps);
    assert s.server.log[..s.seen] == s.server.log;
  }

  lemma FailsOnce(spec: Spec)
    ensures var s := Run(Start(1), FailedOnce(spec));
            && s.alerts == [Alert(0, "a", 2)] && |s.server.log| == 3 && s.seen == 2
            && "a" in s.server.objects && TaskOf(s, 0).Idle?
  {
    var s0 := Start(1);
    var creates := Creates(0, "a", "h", spec);
    assert ActiveIds(Cache(s0)) == {};
    Created(s0, 0, "a", "h", spec);
    var s1 := Run(s0, creates);
    CacheCaughtUp(s1, 2);
    RunJoined(s0, creates, Delivers(2));
    RunJoined(s0, creates + Delivers(2), Fails(0, "a"));
    CacheIsServer(1, creates + Delivers(2));
    Reported(Run(s1, Delivers(2)), 0, "a");
  }

  lemma FailsTwice(spec: Spec)
    ensures var alerts := Run(Start(1), FailedTwice(spec)).alerts;
            alerts == [Alert(0, "a", 2), Alert(0, "a", 4)] && Accounting.Reports(alerts, "a") == 2
  {
    var s0 := Start(1);
    var updates := Updates(0, "a", Monitoring);
    FailsOnce(spec);
    var s1 := Run(s0, FailedOnce(spec));
    PhaseUpdated(s1, 0, "a", Monitoring);
    var s2 := Run(s1, updates);
    CacheCaughtUp(s2, 2);
    RunJoined(s0, FailedOnce(spec), updates);
    RunJoined(s0, FailedOnce(spec) + updates, Delivers(2));
    RunJoined(s0, FailedOnce(spec) + updates + Delivers(2), Fails(0, "a"));
    CacheIsServer(1, FailedOnce(spec) + updates + Delivers(2));
    Reported(Run(s2, Delivers(2)), 0, "a");
    assert [Alert(0, "a", 2), Alert(0, "a", 4)][..1] == [Alert(0, "a", 2)];
  }
}
