/** Every client of the monitor store at once: request handlers, the startup reconciler, the pod
  * watcher and the worker callbacks, one request to the API server at a time, in any order.
  */
module Protocol {
  import opened Monitors
  import opened ApiServer
  import opened Edits
  import opened Attempts
  import Store

  // What a client is in the middle of
  datatype Task =
    | Idle
    | Read(purpose: Purpose, id: Id, tries: nat)
    | Write(purpose: Purpose, id: Id, tries: nat, held: Object)
    | Admitted(id: Id, hash: string, spec: Spec) // create: below the limit
    | Post(id: Id, hash: string, spec: Spec)     // create: no duplicate in the cache
    | RollBack(id: Id)
    | Report(id: Id, commit: nat)                // owes one monitor.error

  datatype Client = Client(snapshot: map<Id, Object>, task: Task)

  // A monitor.error, sent by client because of a commit
  datatype Alert = Alert(client: nat, id: Id, commit: nat)

  // The cache holds what the first seen commits produced.
  datatype System = System(server: Server, seen: nat, clients: map<nat, Client>, alerts: seq<Alert>, maxMonitors: int)

  datatype Step =
    | Deliver                                            // the cache moves on by one commit
    | Look(c: nat)                                       // list the cache
    | Swap(c: nat, id: Id, next: Phase)                  // reconciler or watcher: the pod of id is gone
    | Update(c: nat, purpose: Purpose, id: Id)           // a write that is retried
    | Remove(c: nat, id: Id)
    | Ask(c: nat, id: Id, hash: string, spec: Spec)      // create: the limit is checked
    | Go(c: nat)                                         // the next request of what it is doing
    | Drop(c: nat)                                       // the request failed, or the client crashed

  function Cache(s: System): map<Id, Object> {
    Replay(s.server.log[..if s.seen <= |s.server.log| then s.seen else 0])
  }

  function ClientOf(s: System, c: nat): Client {
    if c in s.clients then s.clients[c] else Client(map[], Idle)
  }

  function TaskOf(s: System, c: nat): Task {
    ClientOf(s, c).task
  }

  function Doing(s: System, c: nat, task: Task): System {
    s.(clients := s.clients[c := ClientOf(s, c).(task := task)])
  }

  function ActiveIds(objects: map<Id, Object>): set<Id> {
    set id | id in objects && IsActive(objects[id].status.phase)
  }

  predicate Retriable(p: Purpose) {
    (p.SetPhase? && p.phase != Unset) || p.SetPodName? || p.SetStats? || p.PatchSpec?
  }

  function AfterRead(s: System, c: nat, p: Purpose, id: Id, tries: nat): Task {
    if Decided(s.server.objects, p, id).Some? then Idle else Write(p, id, tries, s.server.objects[id])
  }

  function AfterWrite(r: StoreResult, commit: nat, p: Purpose, id: Id, tries: nat): Task {
    if r.Done? then
      if p.SwapPhase? && p.next == Failed then Report(id, commit) else Idle
    else if p.InitialPhase? then RollBack(id)
    else if r == Conflicted && !p.SwapPhase? && tries > 1 then Read(p, id, tries - 1)
    else Idle
  }

  function Proceed(s: System, c: nat): System {
    match TaskOf(s, c)
    case Idle => s
    case Read(p, id, tries) => Doing(s, c, AfterRead(s, c, p, id, tries))
    case Write(p, id, tries, held) =>
      if Edit(p, held).NotActive? then s
      else
        var (r, server) := Submitted(s.server, c, p, id, held);
        Doing(s, c, AfterWrite(r, |s.server.log|, p, id, tries)).(server := server)
    case Admitted(id, hash, spec) => Doing(s, c, if Store.Duplicate(Cache(s), hash) then Idle else Post(id, hash, spec))
    case Post(id, hash, spec) =>
      var (outcome, server) := Create(s.server, c, id, hash, spec);
      Doing(s, c, if outcome.Accepted? then Write(InitialPhase(Initializing), id, 1, outcome.obj) else Idle).(server := server)
    case RollBack(id) => Doing(s, c, Idle).(server := Delete(s.server, c, id).1)
    case Report(id, commit) => Doing(s, c, Idle).(alerts := s.alerts + [Alert(c, id, commit)])
  }

  function Next(s: System, step: Step): System {
    match step
    case Deliver => if s.seen < |s.server.log| then s.(seen := s.seen + 1) else s
    case Look(c) => s.(clients := s.clients[c := ClientOf(s, c).(snapshot := Cache(s))])
    case Swap(c, id, next) =>
      var seen := ClientOf(s, c).snapshot;
      if TaskOf(s, c).Idle? && id in seen && IsActive(seen[id].status.phase) && (next == Failed || next == Completed)
      then Doing(s, c, Read(SwapPhase(seen[id].status.phase, next), id, 1)) else s
    case Update(c, p, id) => if TaskOf(s, c).Idle? && Retriable(p) then Doing(s, c, Read(p, id, ATTEMPTS)) else s
    case Remove(c, id) => if TaskOf(s, c).Idle? then s.(server := Delete(s.server, c, id).1) else s
    case Ask(c, id, hash, spec) =>
      if TaskOf(s, c).Idle? && |ActiveIds(Cache(s))| < s.maxMonitors then Doing(s, c, Admitted(id, hash, spec)) else s
    case Go(c) => Proceed(s, c)
    case Drop(c) =>
      var task := TaskOf(s, c);
      Doing(s, c, if task.Write? && task.purpose.InitialPhase? then RollBack(task.id) else Idle)
  }

  function Start(maxMonitors: int): System {
    System(EMPTY, 0, map[], [], maxMonitors)
  }

  function Run(s: System, steps: seq<Step>): System {
    if steps == [] then s else Next(Run(s, steps[..|steps| - 1]), steps[|steps| - 1])
  }

  // ---- What every step keeps

  // Nothing is lost by any commit, and a swap takes an active monitor out of activity.
  ghost predicate Careful(c: Commit) {
    NothingLost(c) && (c.purpose.SwapPhase? ==> IsActive(c.purpose.current) && !IsActive(c.purpose.next))
  }

  ghost predicate Begun(p: Purpose) {
    Retriable(p) || (p.SwapPhase? && IsActive(p.current) && !IsActive(p.next))
  }

  // The object a client is about to submit an edit of is still the stored one, or its version is out of date.
  ghost predicate Holds(server: Server, p: Purpose, id: Id, held: Object) {
    && held.version <= server.revision
    && (id in server.objects && server.objects[id].version == held.version ==> server.objects[id] == held)
    && Edit(p, held).Submit?
    && (Begun(p) || p.InitialPhase?)
    && (p.SwapPhase? ==> held.status.phase == p.current)
  }

  // The commit is client c's own swap of id to the error phase.
  ghost predicate Justifies(log: seq<Commit>, k: nat, c: nat, id: Id) {
    k < |log| && log[k].author == c && log[k].id == id && log[k].purpose.SwapPhase? && log[k].purpose.next == Failed
  }

  ghost predicate TaskSound(s: System, c: nat, task: Task) {
    match task
    case Read(p, _, _) => Begun(p)
    case Write(p, id, _, held) => Holds(s.server, p, id, held)
    case Report(id, k) => Justifies(s.server.log, k, c, id) && forall a :: a in s.alerts ==> a.commit != k
    case _ => true
  }

  ghost predicate AlertsSound(s: System) {
    && (forall a :: a in s.alerts ==> Justifies(s.server.log, a.commit, a.client, a.id))
    && (forall i, j :: 0 <= i < j < |s.alerts| ==> s.alerts[i].commit != s.alerts[j].commit)
  }

  ghost predicate Inv(s: System) {
    && ValidServer(s.server) && s.server.revision == |s.server.log| && s.seen <= |s.server.log|
    && (forall k :: 0 <= k < |s.server.log| ==> Careful(s.server.log[k]))
    && (forall c :: c in s.clients ==> TaskSound(s, c, s.clients[c].task))
    && AlertsSound(s)
  }

  lemma TaskKept(s: System, s': System, c: nat, task: Task)
    requires Later(s.server, s'.server) && s'.alerts == s.alerts && TaskSound(s, c, task)
    ensures TaskSound(s', c, task)
  {
    assert s.server.log == s'.server.log[..|s.server.log|];
  }

  lemma TaskChanged(s: System, c: nat, task: Task)
    requires Inv(s) && TaskSound(s, c, task)
    ensures Inv(Doing(s, c, task))
  {
    var s' := Doing(s, c, task);
    forall d | d in s'.clients
      ensures TaskSound(s', d, s'.clients[d].task)
    {
      TaskKept(s, s', d, s'.clients[d].task);
    }
  }

  lemma CommitMade(s: System, server: Server)
    requires Inv(s) && ValidServer(server) && Later(s.server, server)
    requires |server.log| == server.revision == s.server.revision + 1 && Careful(server.log[|s.server.log|])
    ensures Inv(s.(server := server))
  {
    var s' := s.(server := server);
    assert s.server.log == server.log[..|s.server.log|];
    forall d | d in s'.clients
      ensures TaskSound(s', d, s'.clients[d].task)
    {
      TaskKept(s, s', d, s'.clients[d].task);
    }
  }

  // What is stored when a submission is accepted is what its author had read.
  lemma AcceptedIsCareful(s: System, c: nat, p: Purpose, id: Id, held: Object)
    requires Inv(s) && Holds(s.server, p, id, held)
    ensures var (r, server) := Submitted(s.server, c, p, id, held);
            && Inv(s.(server := server))
            && (if r.Done? then
                  && |server.log| == |s.server.log| + 1 && server.log[|s.server.log|].author == c
                  && server.log[|s.server.log|].purpose == p && server.log[|s.server.log|].id == id
                else server == s.server)
  {
    var (outcome, server) := Put(s.server, c, p, id, Edit(p, held).obj);
    PutValid(s.server, c, p, id, Edit(p, held).obj);
    if outcome.Accepted? {
      EditLosesNothing(s.server, c, p, id);
      CommitMade(s, server);
    }
  }

  lemma WriteKeepsInv(s: System, c: nat)
    requires Inv(s) && TaskOf(s, c).Write?
    ensures Inv(Proceed(s, c))
  {
    var Write(p, id, tries, held) := TaskOf(s, c);
    var (r, server) := Submitted(s.server, c, p, id, held);
    AcceptedIsCareful(s, c, p, id, held);
    var task := AfterWrite(r, |s.server.log|, p, id, tries);
    TaskChanged(s.(server := server), c, task);
  }

  lemma PostKeepsInv(s: System, c: nat)
    requires Inv(s) && TaskOf(s, c).Post?
    ensures Inv(Proceed(s, c))
  {
    var Post(id, hash, spec) := TaskOf(s, c);
    var (outcome, server) := Create(s.server, c, id, hash, spec);
    if outcome.Accepted? {
      StoredValid(s.server, c, CreateObject, id, outcome.obj);
      CommitMade(s, server);
      TaskChanged(s.(server := server), c, Write(InitialPhase(Initializing), id, 1, outcome.obj));
    } else {
      TaskChanged(s, c, Idle);
    }
  }

  lemma DeleteKeepsInv(s: System, c: nat, id: Id)
    requires Inv(s)
    ensures Inv(s.(server := Delete(s.server, c, id).1))
  {
    if id in s.server.objects {
      DeleteValid(s.server, c, id);
      CommitMade(s, Delete(s.server, c, id).1);
    }
  }

  // Two clients never owe a report of the same commit: it is the author's alone.
  lemma ReportKeepsInv(s: System, c: nat)
    requires Inv(s) && TaskOf(s, c).Report?
    ensures Inv(Proceed(s, c))
  {
    var Report(id, k) := TaskOf(s, c);
    var s' := Proceed(s, c);
    forall d | d in s'.clients
      ensures TaskSound(s', d, s'.clients[d].task)
    {
      if d != c {
        assert TaskSound(s, d, s.clients[d].task);
      }
    }
  }

  lemma StepKeepsInv(s: System, step: Step)
    requires Inv(s)
    ensures Inv(Next(s, step))
  {
    match step
    case Deliver =>
    case Look(c) =>
      var s' := Next(s, step);
      forall d | d in s'.clients ensures TaskSound(s', d, s'.clients[d].task) {
        assert d == c || s'.clients[d] == s.clients[d];
      }
    case Swap(c, id, next) =>
      if Next(s, step) != s { TaskChanged(s, c, TaskOf(Next(s, step), c)); }
    case Update(c, p, id) =>
      if Next(s, step) != s { TaskChanged(s, c, TaskOf(Next(s, step), c)); }
    case Remove(c, id) => DeleteKeepsInv(s, c, id);
    case Ask(c, id, hash, spec) =>
      if Next(s, step) != s { TaskChanged(s, c, TaskOf(Next(s, step), c)); }
    case Drop(c) => TaskChanged(s, c, TaskOf(Next(s, step), c));
    case Go(c) =>
      match TaskOf(s, c)
      case Idle =>
      case Read(p, id, tries) => TaskChanged(s, c, AfterRead(s, c, p, id, tries));
      case Write(_, _, _, _) => WriteKeepsInv(s, c);
      case Admitted(_, _, _) => TaskChanged(s, c, TaskOf(Next(s, step), c));
      case Post(_, _, _) => PostKeepsInv(s, c);
      case RollBack(id) =>
        DeleteKeepsInv(s, c, id);
        TaskChanged(s.(server := Delete(s.server, c, id).1), c, Idle);
      case Report(_, _) => ReportKeepsInv(s, c);
  }

  lemma {:induction false} EveryRun(maxMonitors: int, steps: seq<Step>)
    ensures Inv(Run(Start(maxMonitors), steps))
  {
    if steps != [] {
      EveryRun(maxMonitors, steps[..|steps| - 1]);
      StepKeepsInv(Run(Start(maxMonitors), steps[..|steps| - 1]), steps[|steps| - 1]);
    }
  }
}
