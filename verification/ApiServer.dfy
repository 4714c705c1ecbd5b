/** The Kubernetes API server as the monitor store uses it: versioned objects with a status
  * subresource, optimistic concurrency, and the history of everything committed.
  */
module Monitors {
  import opened Wrappers

  type Id = string

  // The empty phase of a new object is Unset.
  datatype Phase = Unset | Initializing | Waiting | Monitoring | Scheduled | Completed | Stopped | Failed

  predicate IsActive(p: Phase) {
    p == Initializing || p == Waiting || p == Monitoring
  }

  datatype Config = Config(
    checkIntervalSec: int, blackoutThresholdSec: int, silenceThresholdSec: int,
    silenceDBThreshold: real, scheduledStartTime: Option<int>, startDelayToleranceSec: int)

  datatype Spec = Spec(streamURL: string, callbackURL: string, config: Config, metadata: string)

  // Health and stream states are the empty string while unknown to the object.
  datatype Status = Status(
    phase: Phase, podName: string, totalSegments: int, blackoutEvents: int, silenceEvents: int,
    videoHealth: string, audioHealth: string, streamStatus: string, lastCheckAt: Option<int>)

  const NEW_STATUS := Status(Unset, "", 0, 0, 0, "", "", "", None)

  datatype Object = Object(version: nat, hash: string, spec: Spec, status: Status)
}

module ApiServer {
  import opened Wrappers
  import opened Monitors

  datatype Stats = Stats(
    totalSegments: int, blackoutEvents: int, silenceEvents: int,
    videoHealth: string, audioHealth: string, streamStatus: string, lastCheckAt: Option<int>)

  datatype Patch = Patch(callbackURL: Option<string>, config: Option<Config>)

  // What a write was for
  datatype Purpose =
    | CreateObject
    | InitialPhase(phase: Phase)
    | SetPhase(phase: Phase)
    | SetPodName(name: string)
    | SetStats(stats: Stats)
    | PatchSpec(patch: Patch)
    | SwapPhase(current: Phase, next: Phase)
    | DeleteObject

  datatype Commit = Commit(author: nat, purpose: Purpose, id: Id, before: Option<Object>, after: Option<Object>)

  datatype Server = Server(objects: map<Id, Object>, revision: nat, log: seq<Commit>)

  const EMPTY := Server(map[], 0, [])

  datatype Outcome = Accepted(obj: Object) | Removed | NotFound | Conflict | AlreadyExists

  function Find(objects: map<Id, Object>, id: Id): Option<Object> {
    if id in objects then Some(objects[id]) else None
  }

  function Stored(s: Server, author: nat, purpose: Purpose, id: Id, o: Object): Server {
    Server(s.objects[id := o], s.revision + 1, s.log + [Commit(author, purpose, id, Find(s.objects, id), Some(o))])
  }

  function Create(s: Server, author: nat, id: Id, hash: string, spec: Spec): (Outcome, Server) {
    if id in s.objects then (AlreadyExists, s)
    else
      var o := Object(s.revision + 1, hash, spec, NEW_STATUS);
      (Accepted(o), Stored(s, author, CreateObject, id, o))
  }

  // A write to the status subresource takes only the status of what is submitted.
  function PutStatus(s: Server, author: nat, purpose: Purpose, id: Id, submitted: Object): (Outcome, Server) {
    if id !in s.objects then (NotFound, s)
    else if s.objects[id].version != submitted.version then (Conflict, s)
    else
      var o := s.objects[id].(version := s.revision + 1, status := submitted.status);
      (Accepted(o), Stored(s, author, purpose, id, o))
  }

  // A write to the object itself leaves the status alone.
  function PutSpec(s: Server, author: nat, purpose: Purpose, id: Id, submitted: Object): (Outcome, Server) {
    if id !in s.objects then (NotFound, s)
    else if s.objects[id].version != submitted.version then (Conflict, s)
    else
      var o := s.objects[id].(version := s.revision + 1, spec := submitted.spec);
      (Accepted(o), Stored(s, author, purpose, id, o))
  }

  function Delete(s: Server, author: nat, id: Id): (Outcome, Server) {
    if id !in s.objects then (NotFound, s)
    else
      (Removed, Server(s.objects - {id}, s.revision + 1,
                       s.log + [Commit(author, DeleteObject, id, Some(s.objects[id]), None)]))
  }

  // ---- History

  function Applied(objects: map<Id, Object>, c: Commit): map<Id, Object> {
    match c.after
    case Some(o) => objects[c.id := o]
    case None => objects - {c.id}
  }

  function Replay(log: seq<Commit>): map<Id, Object> {
    if log == [] then map[] else Applied(Replay(log[..|log| - 1]), log[|log| - 1])
  }

  // Each commit starts from what was stored when it was made.
  ghost predicate Linear(log: seq<Commit>) {
    log == [] ||
    (Linear(log[..|log| - 1]) && log[|log| - 1].before == Find(Replay(log[..|log| - 1]), log[|log| - 1].id))
  }

  ghost predicate ValidServer(s: Server) {
    && Replay(s.log) == s.objects && Linear(s.log)
    && (forall id :: id in s.objects ==> s.objects[id].version <= s.revision)
  }

  // Later: history only grows, and every stored object is untouched or has a newer version.
  ghost predicate Later(s: Server, s': Server) {
    && s.revision <= s'.revision && s.log <= s'.log
    && (forall id :: id in s'.objects ==>
          (id in s.objects && s'.objects[id] == s.objects[id]) || s'.objects[id].version > s.revision)
  }

  lemma StoredValid(s: Server, author: nat, purpose: Purpose, id: Id, o: Object)
    requires ValidServer(s) && o.version == s.revision + 1
    ensures ValidServer(Stored(s, author, purpose, id, o)) && Later(s, Stored(s, author, purpose, id, o))
  {
    var s' := Stored(s, author, purpose, id, o);
    assert s'.log[..|s.log|] == s.log;
  }

  lemma DeleteValid(s: Server, author: nat, id: Id)
    requires ValidServer(s)
    ensures ValidServer(Delete(s, author, id).1) && Later(s, Delete(s, author, id).1)
  {
    if id in s.objects {
      var s' := Delete(s, author, id).1;
      assert s'.log[..|s.log|] == s.log;
    }
  }

  lemma LaterTransitive(s: Server, s': Server, s'': Server)
    requires Later(s, s') && Later(s', s'')
    ensures Later(s, s'')
  {
    assert s.log == s'.log[..|s.log|] && s'.log == s''.log[..|s'.log|];
  }

  // The point of optimistic concurrency: a version still current holds what was read then.
  lemma CurrentVersionUnchanged(s: Server, s': Server, id: Id)
    requires ValidServer(s) && Later(s, s') && id in s.objects && id in s'.objects
    requires s'.objects[id].version == s.objects[id].version
    ensures s'.objects[id] == s.objects[id]
  {
  }
}
