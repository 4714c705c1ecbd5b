/** The limit on active monitors and their uniqueness per stream, both checked on a lagging cache:
  * what they are worth when creates are kept apart.
  */
module Capacity {
  import opened Monitors
  import opened ApiServer
  import opened Edits
  import opened Attempts
  import opened Protocol
  import Accounting

  predicate Creating(task: Task) {
    task.Admitted? || task.Post? || (task.Write? && task.purpose.InitialPhase?) || task.RollBack?
  }

  // ---- Three rules

  // A create starts with the cache caught up.
  predicate CaughtUp(s: System, step: Step) {
    step.Ask? ==> s.seen == |s.server.log|
  }

  // It starts with no other create under way.
  ghost predicate Apart(s: System, step: Step) {
    step.Ask? ==> forall d :: d in s.clients ==> !Creating(s.clients[d].task)
  }

  // Nobody sets a monitor active that is not.
  predicate NoRevival(s: System, step: Step) {
    step.Go? ==>
      var task := TaskOf(s, step.c);
      task.Write? && task.purpose.SetPhase? && IsActive(task.purpose.phase) && task.id in s.server.objects ==>
        IsActive(s.server.objects[task.id].status.phase)
  }

  ghost predicate Disciplined(s: System, step: Step) {
    CaughtUp(s, step) && Apart(s, step) && NoRevival(s, step)
  }

  // Every step of the run observes the rule.
  ghost predicate Always(rule: (System, Step) -> bool, s: System, steps: seq<Step>) {
    steps == [] || (Always(rule, s, steps[..|steps| - 1]) && rule(Run(s, steps[..|steps| - 1]), steps[|steps| - 1]))
  }

  ghost predicate DisciplinedRun(s: System, steps: seq<Step>) {
    Always(CaughtUp, s, steps) && Always(Apart, s, steps) && Always(NoRevival, s, steps)
  }

  // ---- The invariant

  // Whatever is active in y was active in x, for the same stream.
  ghost predicate Shrinks(x: map<Id, Object>, y: map<Id, Object>) {
    forall id :: id in ActiveIds(y) ==> id in ActiveIds(x) && y[id].hash == x[id].hash
  }

  ghost predicate OnePerStream(objects: map<Id, Object>) {
    forall i, j :: i in ActiveIds(objects) && j in ActiveIds(objects) && objects[i].hash == objects[j].hash ==> i == j
  }

  ghost predicate Room(s: System) {
    |ActiveIds(s.server.objects)| < s.maxMonitors
  }

  // What a create may rely on until its initial status is written
  ghost predicate CreateSound(s: System, task: Task) {
    match task
    case Admitted(_, _, _) =>
      Room(s) && forall n :: s.seen <= n <= |s.server.log| ==> Shrinks(Replay(s.server.log[..n]), s.server.objects)
    case Post(_, hash, _) => Room(s) && !Store.Duplicate(s.server.objects, hash)
    case Write(p, _, _, held) =>
      p.InitialPhase? ==> Room(s) && !Store.Duplicate(s.server.objects, held.hash) && !IsActive(held.status.phase)
    case _ => true
  }

  ghost predicate Bounded(s: System) {
    && ValidServer(s.server) && s.seen <= |s.server.log|
    && |ActiveIds(s.server.objects)| <= (if s.maxMonitors < 0 then 0 else s.maxMonitors)
    && OnePerStream(s.server.objects)
    && (forall c, d :: c in s.clients && d in s.clients && Creating(s.clients[c].task) && Creating(s.clients[d].task) ==> c == d)
    && (forall c :: c in s.clients ==> CreateSound(s, s.clients[c].task))
  }

  lemma Smaller(x: map<Id, Object>, y: map<Id, Object>)
    requires Shrinks(x, y)
    ensures |ActiveIds(y)| <= |ActiveIds(x)|
  {
    assert ActiveIds(x) == ActiveIds(y) + (ActiveIds(x) - ActiveIds(y));
  }

  // Every careful commit shrinks the active set, unless it writes an active phase over another one.
  lemma CommitShrinks(log: seq<Commit>)
    requires log != [] && Linear(log) && Careful(log[|log| - 1])
    requires !Accounting.SetsActive(log[|log| - 1]) || Accounting.Active(log[|log| - 1].before)
    ensures Shrinks(Replay(log[..|log| - 1]), Replay(log))
  {
  }

  // The active set shrank: whatever creates rely on still holds.
  lemma CreateStillSound(s: System, server: Server, task: Task)
    requires CreateSound(s, task) && ValidServer(server) && s.seen <= |s.server.log|
    requires Shrinks(s.server.objects, server.objects)
    requires |server.log| == |s.server.log| + 1 && server.log[..|s.server.log|] == s.server.log
    ensures CreateSound(s.(server := server), task)
  {
    Smaller(s.server.objects, server.objects);
    if task.Admitted? {
      forall n | s.seen <= n <= |server.log|
        ensures Shrinks(Replay(server.log[..n]), server.objects)
      {
        if n <= |s.server.log| {
          assert server.log[..n] == s.server.log[..n];
        } else {
          assert server.log[..n] == server.log;
        }
      }
    }
  }

  lemma ActivityShrank(s: System, server: Server)
    requires Bounded(s) && ValidServer(server) && s.server.log <= server.log
    requires |server.log| == |s.server.log| + 1 && Careful(server.log[|s.server.log|])
    requires !Accounting.SetsActive(server.log[|s.server.log|]) || Accounting.Active(server.log[|s.server.log|].before)
    ensures Bounded(s.(server := server))
  {
    assert server.log[..|s.server.log|] == s.server.log;
    CommitShrinks(server.log);
    Smaller(s.server.objects, server.objects);
    forall c | c in s.clients
      ensures CreateSound(s.(server := server), s.clients[c].task)
    {
      CreateStillSound(s, server, s.clients[c].task);
    }
  }

  lemma TaskMoved(s: System, c: nat, task: Task)
    requires Bounded(s) && CreateSound(s, task)
    requires Creating(task) ==> Creating(TaskOf(s, c)) || forall d :: d in s.clients ==> !Creating(s.clients[d].task)
    ensures Bounded(Doing(s, c, task))
  {
    var s' := Doing(s, c, task);
    forall d | d in s'.clients
      ensures CreateSound(s', s'.clients[d].task)
    {
      if d != c {
        assert CreateSound(s, s.clients[d].task);
      }
    }
  }

  // Nothing moved but the cache, snapshots, alerts and tasks that have nothing to do with creating.
  lemma NothingMoved(s: System, s': System)
    requires Bounded(s) && s'.server == s.server && s.seen <= s'.seen <= |s.server.log| && s'.maxMonitors == s.maxMonitors
    requires forall d :: d in s'.clients ==> s'.clients[d].task == TaskOf(s, d) || !Creating(s'.clients[d].task)
    ensures Bounded(s')
  {
    forall d | d in s'.clients
      ensures CreateSound(s', s'.clients[d].task) && (Creating(s'.clients[d].task) ==> d in s.clients && Creating(s.clients[d].task))
    {
    }
  }

  lemma TaskSettled(s: System, c: nat, task: Task)
    requires Bounded(s) && !Creating(task)
    ensures Bounded(Doing(s, c, task))
  {
    NothingMoved(s, Doing(s, c, task));
  }

  // The initial phase makes one more monitor active, for which there was room.
  lemma InitialPhaseFits(s: System, c: nat, server: Server, id: Id, o: Object, held: Object)
    requires Bounded(s) && ValidServer(server) && s.seen <= |server.log|
    requires id in s.server.objects && s.server.objects[id] == held
    requires Room(s) && !Store.Duplicate(s.server.objects, held.hash) && !IsActive(held.status.phase)
    requires server.objects == s.server.objects[id := o] && o.hash == held.hash
    requires c in s.clients && Creating(s.clients[c].task)
    ensures Bounded(Doing(s.(server := server), c, Idle))
  {
    var s' := Doing(s.(server := server), c, Idle);
    assert ActiveIds(server.objects) <= ActiveIds(s.server.objects) + {id};
    var grown := ActiveIds(s.server.objects) + {id};
    assert grown == ActiveIds(server.objects) + (grown - ActiveIds(server.objects));
    forall d | d in s'.clients
      ensures CreateSound(s', s'.clients[d].task) && !Creating(s'.clients[d].task)
    {
      assert d == c || s'.clients[d] == s.clients[d];
    }
    forall i, j | i in ActiveIds(server.objects) && j in ActiveIds(server.objects) && server.objects[i].hash == server.objects[j].hash
      ensures i == j
    {
      assert i == id || i in ActiveIds(s.server.objects);
      assert j == id || j in ActiveIds(s.server.objects);
    }
  }

  // An accepted write other than an initial phase does not add to the active set.
  lemma AcceptedWriteShrinks(s: System, c: nat, p: Purpose, id: Id, held: Object)
    requires Inv(s) && Bounded(s) && Holds(s.server, p, id, held) && !p.InitialPhase?
    requires p.SetPhase? && IsActive(p.phase) && id in s.server.objects ==> IsActive(s.server.objects[id].status.phase)
    requires Put(s.server, c, p, id, Edit(p, held).obj).0.Accepted?
    ensures Bounded(s.(server := Put(s.server, c, p, id, Edit(p, held).obj).1))
  {
    AcceptedIsCareful(s, c, p, id, held);
    PutValid(s.server, c, p, id, Edit(p, held).obj);
    ActivityShrank(s, Put(s.server, c, p, id, Edit(p, held).obj).1);
  }

  lemma InitialWriteStaysBounded(s: System, c: nat)
    requires Inv(s) && Bounded(s) && TaskOf(s, c).Write? && TaskOf(s, c).purpose.InitialPhase?
    ensures Bounded(Proceed(s, c))
  {
    var Write(p, id, tries, held) := TaskOf(s, c);
    var (outcome, server) := Put(s.server, c, p, id, Edit(p, held).obj);
    AcceptedIsCareful(s, c, p, id, held);
    if outcome.Accepted? {
      InitialPhaseFits(s, c, server, id, outcome.obj, held);
    } else {
      TaskMoved(s, c, RollBack(id));
    }
  }

  lemma WriteStaysBounded(s: System, c: nat)
    requires Inv(s) && Bounded(s) && Disciplined(s, Go(c)) && TaskOf(s, c).Write? && !TaskOf(s, c).purpose.InitialPhase?
    ensures Bounded(Proceed(s, c))
  {
    var Write(p, id, tries, held) := TaskOf(s, c);
    var (outcome, server) := Put(s.server, c, p, id, Edit(p, held).obj);
    PutValid(s.server, c, p, id, Edit(p, held).obj);
    if outcome.Accepted? {
      AcceptedWriteShrinks(s, c, p, id, held);
    }
    TaskSettled(s.(server := server), c, AfterWrite(Submitted(s.server, c, p, id, held).0, |s.server.log|, p, id, tries));
  }

  lemma PostStaysBounded(s: System, c: nat)
    requires Bounded(s) && TaskOf(s, c).Post?
    ensures Bounded(Proceed(s, c))
  {
    var Post(id, hash, spec) := TaskOf(s, c);
    var (outcome, server) := Create(s.server, c, id, hash, spec);
    if outcome.Accepted? {
      StoredValid(s.server, c, CreateObject, id, outcome.obj);
      assert server.log[..|s.server.log|] == s.server.log;
      ActivityShrank(s, server);
      CreateStillSound(s, server, TaskOf(s, c));
      TaskMoved(s.(server := server), c, Write(InitialPhase(Initializing), id, 1, outcome.obj));
    } else {
      TaskSettled(s, c, Idle);
    }
  }

  lemma DeleteStaysBounded(s: System, c: nat, id: Id)
    requires Bounded(s)
    ensures Bounded(s.(server := Delete(s.server, c, id).1))
  {
    if id in s.server.objects {
      DeleteValid(s.server, c, id);
      ActivityShrank(s, Delete(s.server, c, id).1);
    }
  }

  // The duplicate check on the cache, however old, rules out a duplicate on the server.
  lemma CheckIsConclusive(s: System, c: nat)
    requires Bounded(s) && TaskOf(s, c).Admitted? && !Store.Duplicate(Cache(s), TaskOf(s, c).hash)
    ensures !Store.Duplicate(s.server.objects, TaskOf(s, c).hash)
  {
    assert Shrinks(Replay(s.server.log[..s.seen]), s.server.objects);
    forall id | id in s.server.objects && IsActive(s.server.objects[id].status.phase)
      ensures s.server.objects[id].hash != TaskOf(s, c).hash
    {
      assert id in ActiveIds(s.server.objects);
    }
  }

  lemma AskStaysBounded(s: System, step: Step)
    requires Bounded(s) && Disciplined(s, step) && step.Ask?
    ensures Bounded(Next(s, step))
  {
    if Next(s, step) != s {
      assert s.server.log[..s.seen] == s.server.log;
      TaskMoved(s, step.c, TaskOf(Next(s, step), step.c));
    }
  }

  lemma CheckStaysBounded(s: System, c: nat)
    requires Bounded(s) && TaskOf(s, c).Admitted?
    ensures Bounded(Proceed(s, c))
  {
    if !Store.Duplicate(Cache(s), TaskOf(s, c).hash) {
      CheckIsConclusive(s, c);
    }
    TaskMoved(s, c, TaskOf(Proceed(s, c), c));
  }

  lemma RollBackStaysBounded(s: System, c: nat)
    requires Bounded(s) && TaskOf(s, c).RollBack?
    ensures Bounded(Proceed(s, c))
  {
    var id := TaskOf(s, c).id;
    DeleteStaysBounded(s, c, id);
    TaskMoved(s.(server := Delete(s.server, c, id).1), c, Idle);
  }

  lemma ReportStaysBounded(s: System, c: nat)
    requires Bounded(s) && TaskOf(s, c).Report?
    ensures Bounded(Proceed(s, c))
  {
    NothingMoved(s, Proceed(s, c));
  }

  lemma GoStaysBounded(s: System, c: nat)
    requires Inv(s) && Bounded(s) && Disciplined(s, Go(c))
    ensures Bounded(Proceed(s, c))
  {
    match TaskOf(s, c)
    case Write(p, _, _, _) => if p.InitialPhase? { InitialWriteStaysBounded(s, c); } else { WriteStaysBounded(s, c); }
    case Admitted(_, _, _) => CheckStaysBounded(s, c);
    case Post(_, _, _) => PostStaysBounded(s, c);
    case RollBack(_) => RollBackStaysBounded(s, c);
    case Read(p, id, tries) => TaskSettled(s, c, AfterRead(s, c, p, id, tries));
    case Report(_, _) => ReportStaysBounded(s, c);
    case Idle =>
  }

  // Watching, and beginning what has nothing to do with creating
  lemma QuietStepStaysBounded(s: System, step: Step)
    requires Bounded(s) && (step.Deliver? || step.Look? || step.Swap? || step.Update?)
    ensures Bounded(Next(s, step))
  {
    NothingMoved(s, Next(s, step));
  }

  lemma StepStaysBounded(s: System, step: Step)
    requires Inv(s) && Bounded(s) && Disciplined(s, step)
    ensures Bounded(Next(s, step))
  {
    match step
    case Remove(c, id) => DeleteStaysBounded(s, c, id);
    case Ask(_, _, _, _) => AskStaysBounded(s, step);
    case Go(c) => GoStaysBounded(s, c);
    case Drop(c) => TaskMoved(s, c, TaskOf(Next(s, step), c));
    case _ => QuietStepStaysBounded(s, step);
  }

  // In every state of a disciplined run no more monitors are active than the limit allows, and no
  // two of them for the same stream.
  lemma {:induction false} DisciplineKeepsTheLimit(maxMonitors: nat, steps: seq<Step>)
    requires DisciplinedRun(Start(maxMonitors), steps)
    ensures Inv(Run(Start(maxMonitors), steps)) && Bounded(Run(Start(maxMonitors), steps))
    ensures var objects := Run(Start(maxMonitors), steps).server.objects;
            |ActiveIds(objects)| <= maxMonitors && OnePerStream(objects)
  {
    if steps == [] {
      assert ActiveIds(Start(maxMonitors).server.objects) == {};
    } else {
      DisciplineKeepsTheLimit(maxMonitors, steps[..|steps| - 1]);
      StepKeepsInv(Run(Start(maxMonitors), steps[..|steps| - 1]), steps[|steps| - 1]);
      StepStaysBounded(Run(Start(maxMonitors), steps[..|steps| - 1]), steps[|steps| - 1]);
      MaxStays(maxMonitors, steps);
    }
  }

  lemma {:induction false} MaxStays(maxMonitors: int, steps: seq<Step>)
    ensures Run(Start(maxMonitors), steps).maxMonitors == maxMonitors
  {
    if steps != [] {
      MaxStays(maxMonitors, steps[..|steps| - 1]);
    }
  }

  // ---- Exactly

  // Limit and uniqueness, in one state
  ghost predicate Within(objects: map<Id, Object>, maxMonitors: int) {
    |ActiveIds(objects)| <= maxMonitors && OnePerStream(objects)
  }

  // A commit that makes a monitor active finds room, and no other for its stream.
  ghost predicate Fits(objects: map<Id, Object>, c: Commit, maxMonitors: int) {
    Accounting.Activates(c) ==> |ActiveIds(objects)| < maxMonitors && !Store.Duplicate(objects, c.after.value.hash)
  }

  lemma Activated(log: seq<Commit>)
    requires log != [] && Linear(log) && Careful(log[|log| - 1]) && Accounting.Activates(log[|log| - 1])
    ensures OneMoreActive(Replay(log[..|log| - 1]), Replay(log), log[|log| - 1].id)
    ensures Replay(log)[log[|log| - 1].id].hash == log[|log| - 1].after.value.hash
  {
    var before, c := Replay(log[..|log| - 1]), log[|log| - 1];
    assert Replay(log) == before[c.id := c.after.value];
    NewlyActive(before, c.id, c.after.value);
  }

  lemma NewlyActive(before: map<Id, Object>, id: Id, o: Object)
    requires id !in ActiveIds(before) && IsActive(o.status.phase)
    ensures OneMoreActive(before, before[id := o], id)
  {
  }

  // Now id is active as well, for a stream of its own or not.
  ghost predicate OneMoreActive(before: map<Id, Object>, after: map<Id, Object>, id: Id) {
    && id !in ActiveIds(before) && ActiveIds(after) == ActiveIds(before) + {id}
    && forall i :: i in ActiveIds(before) ==> after[i].hash == before[i].hash
  }

  lemma NotActivated(log: seq<Commit>)
    requires log != [] && Linear(log) && Careful(log[|log| - 1]) && !Accounting.Activates(log[|log| - 1])
    ensures Shrinks(Replay(log[..|log| - 1]), Replay(log))
  {
  }

  lemma ShrunkWithin(before: map<Id, Object>, after: map<Id, Object>, maxMonitors: int)
    requires Within(before, maxMonitors) && Shrinks(before, after)
    ensures Within(after, maxMonitors)
  {
    Smaller(before, after);
  }

  lemma GrownWithin(before: map<Id, Object>, after: map<Id, Object>, id: Id, maxMonitors: int)
    requires Within(before, maxMonitors) && OneMoreActive(before, after, id)
    ensures Within(after, maxMonitors) <==>
            |ActiveIds(before)| < maxMonitors && !Store.Duplicate(before, after[id].hash)
  {
    assert |ActiveIds(after)| == |ActiveIds(before)| + 1;
    assert id in ActiveIds(after);
    if Store.Duplicate(before, after[id].hash) {
      var i :| i in before && before[i].hash == after[id].hash && IsActive(before[i].status.phase);
      assert i in ActiveIds(before) && i in ActiveIds(after);
    } else {
      assert forall i :: i in ActiveIds(before) ==> i in before && IsActive(before[i].status.phase);
    }
  }

  // From a state within the limit, the next is so exactly if the commit fits.
  lemma NextWithin(log: seq<Commit>, maxMonitors: int)
    requires log != [] && Linear(log) && Careful(log[|log| - 1]) && Within(Replay(log[..|log| - 1]), maxMonitors)
    ensures Within(Replay(log), maxMonitors) <==> Fits(Replay(log[..|log| - 1]), log[|log| - 1], maxMonitors)
  {
    var before, c := Replay(log[..|log| - 1]), log[|log| - 1];
    if Accounting.Activates(c) {
      Activated(log);
      GrownWithin(before, Replay(log), c.id, maxMonitors);
    } else {
      NotActivated(log);
      ShrunkWithin(before, Replay(log), maxMonitors);
    }
  }

  // Every state that the history has been through is within the limit ...
  ghost predicate AlwaysWithin(log: seq<Commit>, maxMonitors: int) {
    Within(Replay(log), maxMonitors) && (log == [] || AlwaysWithin(log[..|log| - 1], maxMonitors))
  }

  // ... and every commit of it fitted when it was made.
  ghost predicate AllFit(log: seq<Commit>, maxMonitors: int) {
    log == [] || (AllFit(log[..|log| - 1], maxMonitors) && Fits(Replay(log[..|log| - 1]), log[|log| - 1], maxMonitors))
  }

  lemma {:induction false} WithinExactly(log: seq<Commit>, maxMonitors: nat)
    requires Linear(log) && Accounting.AllCareful(log)
    ensures AlwaysWithin(log, maxMonitors) <==> AllFit(log, maxMonitors)
  {
    if log == [] {
      assert ActiveIds(Replay(log)) == {};
    } else {
      var past := log[..|log| - 1];
      WithinExactly(past, maxMonitors);
      assert Careful(log[|log| - 1]);
      if AlwaysWithin(past, maxMonitors) {
        NextWithin(log, maxMonitors);
      }
    }
  }

  // In every run, limit and uniqueness hold throughout exactly if every write that makes a monitor
  // active finds room, and no other for its stream, on the server at that instant.
  lemma LimitKeptExactly(maxMonitors: nat, steps: seq<Step>)
    ensures var log := Run(Start(maxMonitors), steps).server.log;
            AlwaysWithin(log, maxMonitors) <==> AllFit(log, maxMonitors)
  {
    EveryRun(maxMonitors, steps);
    Accounting.InvIsCareful(Run(Start(maxMonitors), steps));
    WithinExactly(Run(Start(maxMonitors), steps).server.log, maxMonitors);
  }
}
