/** One pass of the startup reconciler: active monitors without a pod are failed and reported, pods
  * without an active monitor are deleted.
  */
module Reconcile {
  import opened Monitors
  import opened ApiServer
  import opened Edits
  import opened Attempts
  import opened Store
  import Protocol

  // A listed worker pod; monitor is its label and may be missing ("").
  datatype Pod = Pod(name: string, monitor: Id)

  const POD_NAME_PREFIX := "stream-monitor-"

  datatype Report = Report(missing: nat, zombies: nat, orphaned: nat, errors: nat, timedOut: bool)

  // The cached monitors in one of the three active phases
  function ActiveMonitors(cache: map<Id, Object>): map<Id, Object> {
    map id | id in cache && IsActive(cache[id].status.phase) :: cache[id]
  }

  function Labels(pods: seq<Pod>): set<Id> {
    set p | p in pods && p.monitor != "" :: p.monitor
  }

  function Missing(active: map<Id, Object>, pods: seq<Pod>): set<Id> {
    set id | id in active && id !in Labels(pods)
  }

  predicate Orphaned(active: map<Id, Object>, p: Pod) {
    p.monitor != "" && p.monitor !in active
  }

  predicate Zombie(active: map<Id, Object>, p: Pod) {
    && p.monitor != "" && p.monitor in active
    && match active[p.monitor].status.phase
       case Stopped => true
       case Failed => true
       case Completed => true
       case _ => false
  }

  function Orphans(active: map<Id, Object>, pods: seq<Pod>): nat {
    if pods == [] then 0
    else Orphans(active, pods[..|pods| - 1]) + (if Orphaned(active, pods[|pods| - 1]) then 1 else 0)
  }

  // The orphans whose deletion fails
  function Undeleted(active: map<Id, Object>, pods: seq<Pod>, fails: Id -> bool): nat {
    if pods == [] then 0
    else
      var p := pods[|pods| - 1];
      Undeleted(active, pods[..|pods| - 1], fails) + (if Orphaned(active, p) && fails(p.monitor) then 1 else 0)
  }

  // The monitors that author has moved to the error phase, in order
  function Failures(author: nat, log: seq<Commit>): seq<Id> {
    if log == [] then []
    else
      var c := log[|log| - 1];
      Failures(author, log[..|log| - 1]) +
      (if c.author == author && c.purpose.SwapPhase? && c.purpose.next == Failed then [c.id] else [])
  }

  lemma {:induction false} SilenceAddsNoFailure(author: nat, log: seq<Commit>, from: nat)
    requires from <= |log| && Silent(author, log, from)
    ensures Failures(author, log) == Failures(author, log[..from])
    decreases |log|
  {
    if from == |log| {
      assert log[..from] == log;
    } else {
      SilenceAddsNoFailure(author, log[..|log| - 1], from);
      assert log[..|log| - 1][..from] == log[..from];
    }
  }

  lemma SwapAddsItsFailure(author: nat, before: seq<Commit>, log: seq<Commit>, current: Phase, next: Phase, id: Id, o: Object)
    requires before <= log && CommittedOnce(author, log, |before|, SwapPhase(current, next), id, o)
    ensures Failures(author, log) == Failures(author, before) + if next == Failed then [id] else []
  {
    SilenceAddsNoFailure(author, log[..|log| - 1], |before|);
    assert log[..|log| - 1][..|before|] == before;
  }

  // after is before with the monitors of failed moved to the error phase and nothing else.
  ghost predicate FailedOnly(before: map<Id, Object>, after: map<Id, Object>, failed: set<Id>) {
    && after.Keys == before.Keys
    && forall id :: id in after ==> if id in failed then Moved(before[id], after[id], Failed) else after[id] == before[id]
  }

  // Each of ids reported at most once
  ghost predicate ReportedOnce(before: seq<Id>, after: seq<Id>, ids: set<Id>) {
    && before <= after
    && (forall k :: |before| <= k < |after| ==> after[k] in ids)
    && (forall j, k :: |before| <= j < k < |after| ==> after[j] != after[k])
  }

  // The names of the pods whose deletion is requested and goes through
  ghost function Deleted(active: map<Id, Object>, pods: seq<Pod>, fails: Id -> bool): set<string> {
    set p | p in pods && Orphaned(active, p) && !fails(p.monitor) :: POD_NAME_PREFIX + p.monitor
  }

  ghost function Pruned(pods: map<string, Id>, gone: set<string>): map<string, Id> {
    pods - gone
  }

  lemma PrunedFurther(pods: map<string, Id>, gone: set<string>, name: string)
    ensures Pruned(pods, gone) - {name} == Pruned(pods, gone + {name}) && Pruned(pods, gone + {}) == Pruned(pods, gone)
  {
  }

  lemma OneMoreDeleted(active: map<Id, Object>, pods: seq<Pod>, p: Pod, fails: Id -> bool)
    ensures Deleted(active, pods + [p], fails) ==
            Deleted(active, pods, fails) + if Orphaned(active, p) && !fails(p.monitor) then {POD_NAME_PREFIX + p.monitor} else {}
  {
  }

  lemma OneMoreReport(before: seq<Id>, told: seq<Id>, after: seq<Id>, ids: set<Id>, id: Id)
    requires ReportedOnce(before, told, ids) && id !in ids && (after == told || after == told + [id])
    ensures ReportedOnce(before, after, ids + {id})
  {
  }

  // The monitors of ids that cannot be read, and those for which one of the requests fails
  ghost function Unreadable(ids: set<Id>, env: Id -> Attempt): set<Id> {
    set id | id in ids && env(id).readFails
  }

  ghost function Failing(ids: set<Id>, env: Id -> Attempt): set<Id> {
    set id | id in ids && (env(id).readFails || env(id).writeFails)
  }

  lemma OneMoreUnreadable(ids: set<Id>, env: Id -> Attempt, id: Id)
    requires id !in ids
    ensures |Unreadable(ids + {id}, env)| == |Unreadable(ids, env)| + if env(id).readFails then 1 else 0
  {
    if env(id).readFails {
      assert Unreadable(ids + {id}, env) == Unreadable(ids, env) + {id};
    } else {
      assert Unreadable(ids + {id}, env) == Unreadable(ids, env);
    }
  }

  lemma OneMoreFailing(ids: set<Id>, env: Id -> Attempt, id: Id)
    requires id !in ids
    ensures |Failing(ids + {id}, env)| == |Failing(ids, env)| + if env(id).readFails || env(id).writeFails then 1 else 0
  {
    if env(id).readFails || env(id).writeFails {
      assert Failing(ids + {id}, env) == Failing(ids, env) + {id};
    } else {
      assert Failing(ids + {id}, env) == Failing(ids, env);
    }
  }

  // An error for each monitor that could not be read, and only for ones with a failing request
  ghost predicate Accounted(errors: nat, ids: set<Id>, env: Id -> Attempt) {
    |Unreadable(ids, env)| <= errors <= |Failing(ids, env)|
  }

  lemma OneMoreError(ids: set<Id>, env: Id -> Attempt, id: Id, errors: nat, failed: bool)
    requires id !in ids && Accounted(errors, ids, env)
    requires (failed ==> env(id).readFails || env(id).writeFails) && (env(id).readFails ==> failed)
    ensures Accounted(if failed then errors + 1 else errors, ids + {id}, env)
  {
    OneMoreUnreadable(ids, env, id);
    OneMoreFailing(ids, env, id);
  }

  // Those of ids that are still in the phase that the snapshot shows
  ghost function Current(ids: set<Id>, active: map<Id, Object>, objects: map<Id, Object>): set<Id> {
    set id | id in ids && id in active && StillIn(objects, id, active[id].status.phase)
  }

  predicate StillIn(objects: map<Id, Object>, id: Id, phase: Phase) {
    id in objects && objects[id].status.phase == phase
  }

  // Those of ids still in their phase have failed, and nothing else; told says how many they are.
  ghost predicate FailedCurrent(ids: set<Id>, active: map<Id, Object>, before: map<Id, Object>, after: map<Id, Object>, told: nat) {
    FailedOnly(before, after, Current(ids, active, before)) && told == |Current(ids, active, before)|
  }

  // Every commit of author's since is a swap to the error phase such as the protocol reckons with.
  ghost predicate OwnCareful(author: nat, log: seq<Commit>, from: nat) {
    forall k :: from <= k < |log| && log[k].author == author ==>
                  Protocol.Careful(log[k]) && log[k].purpose.SwapPhase? && log[k].purpose.next == Failed
  }

  lemma OwnCarefulSince(author: nat, mid: seq<Commit>, log: seq<Commit>, from: nat)
    requires mid <= log && from <= |mid| && OwnCareful(author, mid, from) && OwnCareful(author, log, |mid|)
    ensures OwnCareful(author, log, from)
  {
    assert forall k :: 0 <= k < |mid| ==> log[k] == mid[k];
  }

  lemma OwnSwapCareful(author: nat, log: seq<Commit>, from: nat, current: Phase, id: Id, o: Object)
    requires CommittedOnce(author, log, from, SwapPhase(current, Failed), id, o) && IsActive(current)
    ensures OwnCareful(author, log, from)
  {
    assert forall k :: from <= k < |log| - 1 ==> log[k] == log[..|log| - 1][k];
  }

  // One monitor moved to the error phase, or none
  ghost predicate FailedOne(before: map<Id, Object>, after: map<Id, Object>, id: Id, fails: bool) {
    if fails then id in before && id in after && after == before[id := after[id]] && Moved(before[id], after[id], Failed)
    else after == before
  }

  lemma OneMoreFailed(before: map<Id, Object>, mid: map<Id, Object>, after: map<Id, Object>,
                      active: map<Id, Object>, ids: set<Id>, id: Id, told: nat)
    requires id !in ids && id in active && FailedCurrent(ids, active, before, mid, told)
    requires FailedOne(mid, after, id, StillIn(mid, id, active[id].status.phase))
    ensures var told' := told + if StillIn(mid, id, active[id].status.phase) then 1 else 0;
            FailedCurrent(ids + {id}, active, before, after, told')
  {
    if StillIn(before, id, active[id].status.phase) {
      assert Current(ids + {id}, active, before) == Current(ids, active, before) + {id};
    } else {
      assert Current(ids + {id}, active, before) == Current(ids, active, before);
    }
  }

  // Nobody else is about and no request fails.
  ghost predicate Quiet(active: map<Id, Object>, env: Id -> Attempt) {
    forall id :: id in active ==> Calm(env(id)) && active[id].status.phase != Unset
  }

  // What the pass has come to when done is dealt with
  ghost predicate Progress(before: Server, told: seq<Id>, now: Server, said: seq<Id>, author: nat, active: map<Id, Object>,
                           env: Id -> Attempt, done: set<Id>, missing: nat, errors: nat)
  {
    && missing == |done| && ReportedOnce(told, said, done) && Accounted(errors, done, env)
    && Later(before, now) && OwnCareful(author, now.log, |before.log|)
    && (Quiet(active, env) ==> errors == 0 && FailedCurrent(done, active, before.objects, now.objects, |said| - |told|))
  }

  lemma OneMoreDone(before: Server, told: seq<Id>, mid: Server, said: seq<Id>, after: Server, said': seq<Id>, author: nat,
                    active: map<Id, Object>, env: Id -> Attempt, done: set<Id>, id: Id, missing: nat, errors: nat, failed: bool)
    requires Progress(before, told, mid, said, author, active, env, done, missing, errors) && id in active && id !in done
    requires Later(mid, after) && OwnCareful(author, after.log, |mid.log|) && (said' == said || said' == said + [id])
    requires (failed ==> env(id).readFails || env(id).writeFails) && (env(id).readFails ==> failed)
    requires Quiet(active, env) ==>
               var fails := StillIn(mid.objects, id, active[id].status.phase);
               !failed && said' == said + (if fails then [id] else []) && FailedOne(mid.objects, after.objects, id, fails)
    ensures Progress(before, told, after, said', author, active, env, done + {id}, missing + 1, if failed then errors + 1 else errors)
  {
    LaterTransitive(before, mid, after);
    OwnCarefulSince(author, mid.log, after.log, |before.log|);
    OneMoreReport(told, said, said', done, id);
    OneMoreError(done, env, id, errors, failed);
    if Quiet(active, env) {
      OneMoreFailed(before.objects, mid.objects, after.objects, active, done, id, |said| - |told|);
    }
  }

  class Reconciler {
    const store: Store
    var pods: map<string, Id> // of the cluster: labels by name
    var reported: seq<Id>     // monitor.error, in the order sent

    constructor (store: Store, pods: map<string, Id>)
      ensures this.store == store && this.pods == pods && reported == []
    {
      this.store, this.pods, reported := store, pods, [];
    }

    // What was reported is what this reconciler moved to the error phase.
    ghost predicate Honest()
      reads this, store
    {
      ValidServer(store.server) && reported == Failures(store.me, store.server.log)
    }

    method FailAndReport(id: Id, monitor: Object, a: Attempt) returns (failed: bool)
      requires Honest() && store.Others(a)
      modifies this`reported, store
      ensures Honest() && Later(old(store.server), store.server)
      ensures reported == old(reported) || reported == old(reported) + [id]
      ensures Calm(a) && monitor.status.phase != Unset ==>
                var fails := StillIn(old(store.server.objects), id, monitor.status.phase);
                && !failed && reported == old(reported) + (if fails then [id] else [])
                && FailedOne(old(store.server.objects), store.server.objects, id, fails)
      ensures (failed ==> a.readFails || a.writeFails) && (a.readFails ==> failed)
      ensures IsActive(monitor.status.phase) ==> OwnCareful(store.me, store.server.log, |old(store.server).log|)
    {
      ghost var before := store.server;
      if Calm(a) {
        TriedCalmly(store.server, store.me, SwapPhase(monitor.status.phase, Failed), id, a);
      }
      var r := store.UpdateStatusWithCondition(id, monitor.status.phase, Failed, a);
      assert before.log == store.server.log[..|before.log|];
      failed := r.SwapFailed?;
      if r.Won? {
        SwapAddsItsFailure(store.me, before.log, store.server.log, monitor.status.phase, Failed, id, r.obj);
        if IsActive(monitor.status.phase) {
          OwnSwapCareful(store.me, store.server.log, |before.log|, monitor.status.phase, id, r.obj);
        }
        reported := reported + [id];
      } else {
        SilenceAddsNoFailure(store.me, store.server.log, |before.log|);
      }
    }

    // Active monitors without a pod, in any order
    method FailMissing(active: map<Id, Object>, present: set<Id>, env: Id -> Attempt, ghost ids: set<Id>)
      returns (missing: nat, errors: nat)
      requires Honest() && ids == active.Keys - present && forall id :: id in active ==> store.Others(env(id))
      requires forall id :: id in active ==> IsActive(active[id].status.phase)
      modifies this`reported, store
      ensures OwnCareful(store.me, store.server.log, |old(store.server).log|)
      ensures Honest() && Later(old(store.server), store.server)
      ensures missing == |ids|
      ensures Accounted(errors, ids, env)
      ensures ReportedOnce(old(reported), reported, ids)
      ensures Quiet(active, env) ==>
                && errors == 0 && |reported| >= |old(reported)|
                && FailedCurrent(ids, active, old(store.server.objects), store.server.objects, |reported| - |old(reported)|)
    {
      missing, errors := 0, 0;
      var todo := active.Keys;
      ghost var done, before, told := {}, store.server, reported;
      while todo != {}
        invariant todo <= active.Keys && forall id :: id in done <==> id in active.Keys && id !in todo && id !in present
        invariant Honest() && Progress(before, told, store.server, reported, store.me, active, env, done, missing, errors)
        decreases |todo|
      {
        var id :| id in todo;
        todo := todo - {id};
        if id !in present {
          missing := missing + 1;
          ghost var earlier, said := store.server, reported;
          var failed := FailAndReport(id, active[id], env(id));
          OneMoreDone(before, told, earlier, said, store.server, reported, store.me, active, env, done, id, missing - 1, errors, failed);
          if failed {
            errors := errors + 1;
          }
          done := done + {id};
        }
      }
      assert done == ids;
    }

    // One pod: an orphan has no active monitor, a zombie one that the snapshot holds as terminal.
    method DeleteStray(active: map<Id, Object>, p: Pod, fails: Id -> bool) returns (orphan: bool, zombie: bool, failed: bool)
      modifies this`pods
      ensures orphan == Orphaned(active, p) && zombie == Zombie(active, p)
      ensures failed == ((orphan || zombie) && fails(p.monitor))
      ensures pods == if (orphan || zombie) && !failed then old(pods) - {POD_NAME_PREFIX + p.monitor} else old(pods)
    {
      orphan, zombie, failed := false, false, false;
      if p.monitor == "" {
        return;
      }
      if p.monitor !in active {
        orphan := true;
      } else if active[p.monitor].status.phase == Stopped || active[p.monitor].status.phase == Failed
                || active[p.monitor].status.phase == Completed {
        zombie := true;
      } else {
        return;
      }
      failed := fails(p.monitor);
      if !failed {
        pods := pods - {POD_NAME_PREFIX + p.monitor};
      }
    }

    // Pods without an active monitor
    method DeleteOrphans(active: map<Id, Object>, listed: seq<Pod>, fails: Id -> bool)
      returns (orphaned: nat, zombies: nat, errors: nat)
      requires forall id :: id in active ==> IsActive(active[id].status.phase)
      modifies this`pods
      ensures orphaned == Orphans(active, listed) && zombies == 0
      ensures pods == old(pods) - Deleted(active, listed, fails)
      ensures errors == Undeleted(active, listed, fails)
    {
      orphaned, zombies, errors := 0, 0, 0;
      ghost var before := pods;
      for i := 0 to |listed|
        invariant orphaned == Orphans(active, listed[..i]) && zombies == 0
        invariant pods == Pruned(before, Deleted(active, listed[..i], fails))
        invariant errors == Undeleted(active, listed[..i], fails)
      {
        var p := listed[i];
        assert listed[..i + 1][..i] == listed[..i];
        assert listed[..i + 1] == listed[..i] + [p];
        OneMoreDeleted(active, listed[..i], p, fails);
        PrunedFurther(before, Deleted(active, listed[..i], fails), POD_NAME_PREFIX + p.monitor);
        var orphan, zombie, failed := DeleteStray(active, p, fails);
        orphaned := orphaned + (if orphan then 1 else 0);
        zombies := zombies + (if zombie then 1 else 0);
        errors := errors + (if failed then 1 else 0);
      }
      assert listed[..|listed|] == listed;
    }

    method BothPasses(cache: map<Id, Object>, listed: seq<Pod>, env: Surroundings) returns (r: Report)
      requires Honest() && forall id :: id in cache ==> store.Others(env.attempts(id))
      modifies this, store
      ensures Honest() && Later(old(store.server), store.server)
      ensures r.missing == |Missing(ActiveMonitors(cache), listed)| && r.orphaned == Orphans(ActiveMonitors(cache), listed)
      ensures r.zombies == 0 && !r.timedOut && ErrorsCounted(r.errors, cache, listed, env)
      ensures OwnCareful(store.me, store.server.log, |old(store.server).log|)
      ensures pods == old(pods) - Deleted(ActiveMonitors(cache), listed, env.deleteFails)
      ensures ReportedOnce(old(reported), reported, Missing(ActiveMonitors(cache), listed))
      ensures Undisturbed(env, cache) ==>
                && r.errors == 0 && |reported| >= |old(reported)|
                && FailedCurrent(Missing(ActiveMonitors(cache), listed), ActiveMonitors(cache), old(store.server.objects),
                                 store.server.objects, |reported| - |old(reported)|)
    {
      var active := ActiveMonitors(cache);
      MissingByKeys(active, listed);
      if Undisturbed(env, cache) {
        NoneUndeleted(active, listed, env.deleteFails);
        assert Quiet(active, env.attempts);
      }
      var missing, errors := FailMissing(active, Labels(listed), env.attempts, Missing(active, listed));
      ghost var after, told := store.server.objects, reported;
      var orphaned, zombies, failures := DeleteOrphans(active, listed, env.deleteFails);
      assert store.server.objects == after && reported == told;
      r := Report(missing, zombies, orphaned, errors + failures, false);
    }

    method ReconcileStartup(cache: map<Id, Object>, listed: seq<Pod>, env: Surroundings) returns (r: Report)
      requires Honest() && forall id :: id in cache ==> store.Others(env.attempts(id))
      modifies this, store
      ensures Honest() && Later(old(store.server), store.server)
      ensures OwnCareful(store.me, store.server.log, |old(store.server).log|)
      ensures env.cacheFails || env.listFails ==> r == Report(0, 0, 0, 1, false)
      ensures !env.cacheFails && !env.listFails && env.timedOut ==> r == Report(0, 0, 0, 0, true)
      ensures Abandoned(env) ==> pods == old(pods) && reported == old(reported) && store.server == old(store.server)
      ensures !Abandoned(env) ==>
                && r.missing == |Missing(ActiveMonitors(cache), listed)| && r.orphaned == Orphans(ActiveMonitors(cache), listed)
                && r.zombies == 0 && !r.timedOut && ErrorsCounted(r.errors, cache, listed, env)
                && pods == old(pods) - Deleted(ActiveMonitors(cache), listed, env.deleteFails)
                && ReportedOnce(old(reported), reported, Missing(ActiveMonitors(cache), listed))
      ensures Undisturbed(env, cache) ==>
                && r.errors == 0 && |reported| >= |old(reported)|
                && FailedCurrent(Missing(ActiveMonitors(cache), listed), ActiveMonitors(cache), old(store.server.objects),
                                 store.server.objects, |reported| - |old(reported)|)
      ensures Undisturbed(env, cache) && cache == old(store.server.objects) ==>
                && |reported| == |old(reported)| + r.missing
                && FailedOnly(cache, store.server.objects, Missing(ActiveMonitors(cache), listed))
      ensures Undisturbed(env, cache) && cache == old(store.server.objects) && Lists(listed, old(pods)) && Named(old(pods)) ==>
                && OneToOne(store.server.objects, pods)
                && forall id :: id in cache && id != "" ==> TreatedByPhase(cache, old(pods), store.server.objects, pods, id)
      ensures Undisturbed(env, cache) ==>
                (Spared(old(store.server.objects), old(pods), store.server.objects, pods)
                 <==> SnapshotsAgree(cache, listed, old(store.server.objects), old(pods)))
    {
      if env.cacheFails || env.listFails {
        return Report(0, 0, 0, 1, false);
      }
      if env.timedOut {
        return Report(0, 0, 0, 0, true);
      }
      r := BothPasses(cache, listed, env);
      if Undisturbed(env, cache) {
        HealthySparedExactly(cache, listed, old(store.server.objects), store.server.objects, old(pods), env.deleteFails);
        MissingIsCurrent(cache, listed);
      }
      if Undisturbed(env, cache) && cache == old(store.server.objects) && Lists(listed, old(pods)) && Named(old(pods)) {
        MissingByKeys(ActiveMonitors(cache), listed);
        AgreementReached(cache, store.server.objects, listed, old(pods), env.deleteFails);
        forall id | id in cache && id != ""
          ensures TreatedByPhase(cache, old(pods), store.server.objects, pods, id)
        {
          PhasesDecide(cache, store.server.objects, listed, old(pods), env.deleteFails, id);
        }
      }
    }
  }

  // ---- What a pass in quiet surroundings achieves

  // The answers of the outside world to one pass
  datatype Surroundings = Surroundings(
    cacheFails: bool, listFails: bool, timedOut: bool, attempts: Id -> Attempt, deleteFails: Id -> bool)

  // One error for each pod that could not be deleted and for each monitor whose update failed: at
  // least those that could not be read, and only ones for which a request failed
  ghost predicate ErrorsCounted(errors: nat, cache: map<Id, Object>, listed: seq<Pod>, env: Surroundings) {
    var active := ActiveMonitors(cache);
    var missing, undeleted := Missing(active, listed), Undeleted(active, listed, env.deleteFails);
    |Unreadable(missing, env.attempts)| + undeleted <= errors <= |Failing(missing, env.attempts)| + undeleted
  }

  predicate Abandoned(env: Surroundings) {
    env.cacheFails || env.listFails || env.timedOut
  }

  ghost predicate Undisturbed(env: Surroundings, cache: map<Id, Object>) {
    !Abandoned(env) && (forall id :: !env.deleteFails(id)) && forall id :: id in cache ==> Calm(env.attempts(id))
  }

  ghost predicate Lists(listed: seq<Pod>, pods: map<string, Id>) {
    && (forall p :: p in listed ==> p.name in pods && pods[p.name] == p.monitor)
    && (forall name :: name in pods ==> Pod(name, pods[name]) in listed)
  }

  // Labelled pods are named after their monitors.
  ghost predicate Named(pods: map<string, Id>) {
    forall name :: name in pods && pods[name] != "" ==> name == POD_NAME_PREFIX + pods[name]
  }

  // Each active monitor has its pod, and each labelled pod its active monitor.
  ghost predicate OneToOne(objects: map<Id, Object>, pods: map<string, Id>) {
    && (forall id :: id in objects && IsActive(objects[id].status.phase) ==>
          POD_NAME_PREFIX + id in pods && pods[POD_NAME_PREFIX + id] == id)
    && (forall name :: name in pods && pods[name] != "" ==>
          name == POD_NAME_PREFIX + pods[name] && pods[name] in objects && IsActive(objects[pods[name]].status.phase))
  }

  lemma {:induction false} NoneUndeleted(active: map<Id, Object>, pods: seq<Pod>, fails: Id -> bool)
    requires forall id :: !fails(id)
    ensures Undeleted(active, pods, fails) == 0
  {
    if pods != [] {
      NoneUndeleted(active, pods[..|pods| - 1], fails);
    }
  }

  // An up to date snapshot shows every monitor in its phase.
  lemma MissingIsCurrent(cache: map<Id, Object>, listed: seq<Pod>)
    ensures Current(Missing(ActiveMonitors(cache), listed), ActiveMonitors(cache), cache) == Missing(ActiveMonitors(cache), listed)
  {
  }

  lemma MissingByKeys(active: map<Id, Object>, listed: seq<Pod>)
    ensures Missing(active, listed) == active.Keys - Labels(listed)
  {
  }

  lemma SameName(id: Id, other: Id)
    requires POD_NAME_PREFIX + id == POD_NAME_PREFIX + other
    ensures id == other
  {
    assert (POD_NAME_PREFIX + id)[|POD_NAME_PREFIX|..] == id;
    assert (POD_NAME_PREFIX + other)[|POD_NAME_PREFIX|..] == other;
  }

  lemma AgreementReached(before: map<Id, Object>, after: map<Id, Object>, listed: seq<Pod>, pods: map<string, Id>, fails: Id -> bool)
    requires Lists(listed, pods) && Named(pods) && forall id :: !fails(id)
    requires FailedOnly(before, after, ActiveMonitors(before).Keys - Labels(listed))
    ensures OneToOne(after, pods - Deleted(ActiveMonitors(before), listed, fails))
  {
    var active := ActiveMonitors(before);
    var gone := Deleted(active, listed, fails);
    forall id | id in after && IsActive(after[id].status.phase)
      ensures POD_NAME_PREFIX + id in pods - gone && pods[POD_NAME_PREFIX + id] == id
    {
      var p :| p in listed && p.monitor == id && p.monitor != "";
      forall q | q in listed && Orphaned(active, q) && POD_NAME_PREFIX + q.monitor == POD_NAME_PREFIX + id
        ensures false
      {
        SameName(q.monitor, id);
      }
    }
    forall name | name in pods - gone && pods[name] != ""
      ensures pods[name] in after && IsActive(after[pods[name]].status.phase)
    {
      var p := Pod(name, pods[name]);
      assert p in listed;
      assert !Orphaned(active, p);
      assert pods[name] in Labels(listed);
    }
  }

  predicate HasPod(pods: map<string, Id>, id: Id) {
    "stream-monitor-" + id in pods && pods["stream-monitor-" + id] == id
  }

  // What becomes of a monitor and its pod, phase by phase
  ghost predicate TreatedByPhase(before: map<Id, Object>, pods: map<string, Id>, after: map<Id, Object>, pods': map<string, Id>,
                                 id: Id)
    requires id in before
  {
    && id in after
    && match before[id].status.phase
       case Initializing => WithOrFailed(before[id], pods, after[id], pods', id)
       case Waiting => WithOrFailed(before[id], pods, after[id], pods', id)
       case Monitoring => WithOrFailed(before[id], pods, after[id], pods', id)
       case Unset => after[id] == before[id] && !HasPod(pods', id)
       case Scheduled => after[id] == before[id] && !HasPod(pods', id)
       case Completed => after[id] == before[id] && !HasPod(pods', id)
       case Stopped => after[id] == before[id] && !HasPod(pods', id)
       case Failed => after[id] == before[id] && !HasPod(pods', id)
  }

  // With its pod, nothing happens to either; without, the monitor is failed.
  ghost predicate WithOrFailed(before: Object, pods: map<string, Id>, after: Object, pods': map<string, Id>, id: Id) {
    && (HasPod(pods', id) <==> HasPod(pods, id))
    && if HasPod(pods, id) then after == before
       else after == before.(version := after.version, status := before.status.(phase := Failed))
  }

  lemma PhasesDecide(before: map<Id, Object>, after: map<Id, Object>, listed: seq<Pod>, pods: map<string, Id>,
                     fails: Id -> bool, id: Id)
    requires Lists(listed, pods) && Named(pods) && (forall i :: !fails(i)) && id in before && id != ""
    requires FailedOnly(before, after, Missing(ActiveMonitors(before), listed))
    ensures TreatedByPhase(before, pods, after, pods - Deleted(ActiveMonitors(before), listed, fails), id)
  {
    PodListed(listed, pods, id);
    DeletedExactly(ActiveMonitors(before), listed, fails, id);
  }

  lemma PodListed(listed: seq<Pod>, pods: map<string, Id>, id: Id)
    requires Lists(listed, pods) && Named(pods) && id != ""
    ensures id in Labels(listed) <==> HasPod(pods, id)
  {
    if id in Labels(listed) {
      var p :| p in listed && p.monitor != "" && p.monitor == id;
      assert pods[p.name] == id;
    }
    if HasPod(pods, id) {
      assert Pod(POD_NAME_PREFIX + id, id) in listed;
    }
  }

  // Agreement is exactly what the next pass checks: it finds nothing missing and nothing orphaned.
  lemma {:induction false} NothingFoundExactly(objects: map<Id, Object>, listed: seq<Pod>, pods: map<string, Id>)
    requires Lists(listed, pods) && Named(pods) && "" !in objects
    ensures OneToOne(objects, pods) <==>
            Missing(ActiveMonitors(objects), listed) == {} && Orphans(ActiveMonitors(objects), listed) == 0
  {
    var active := ActiveMonitors(objects);
    NoOrphans(active, listed);
    if OneToOne(objects, pods) {
      forall id | id in active
        ensures id in Labels(listed)
      {
        assert Pod(POD_NAME_PREFIX + id, id) in listed;
      }
    } else if Missing(active, listed) == {} && Orphans(active, listed) == 0 {
      forall id | id in objects && IsActive(objects[id].status.phase)
        ensures POD_NAME_PREFIX + id in pods && pods[POD_NAME_PREFIX + id] == id
      {
        assert id !in Missing(active, listed);
      }
      forall name | name in pods && pods[name] != ""
        ensures pods[name] in active
      {
        assert Pod(name, pods[name]) in listed;
      }
    }
  }

  lemma {:induction false} NoOrphans(active: map<Id, Object>, pods: seq<Pod>)
    ensures Orphans(active, pods) == 0 <==> forall p :: p in pods ==> !Orphaned(active, p)
  {
    if pods != [] {
      NoOrphans(active, pods[..|pods| - 1]);
      assert pods == pods[..|pods| - 1] + [pods[|pods| - 1]];
    }
  }

  // ---- What a pass does to monitors and pods that have just been created

  // The monitor is active and its pod is there.
  predicate Healthy(objects: map<Id, Object>, pods: map<string, Id>, id: Id) {
    && id != "" && id in objects && IsActive(objects[id].status.phase)
    && POD_NAME_PREFIX + id in pods && pods[POD_NAME_PREFIX + id] == id
  }

  ghost predicate Spared(before: map<Id, Object>, pods: map<string, Id>, after: map<Id, Object>, pods': map<string, Id>) {
    forall id :: Healthy(before, pods, id) ==> Healthy(after, pods', id)
  }

  // Of a healthy monitor, the snapshot knows if the list has its pod, and the list has its pod if the
  // snapshot shows it as it is.
  ghost predicate SnapshotsAgree(cache: map<Id, Object>, listed: seq<Pod>, objects: map<Id, Object>, pods: map<string, Id>) {
    forall id :: Healthy(objects, pods, id) ==>
                   && (id in Labels(listed) ==> id in ActiveMonitors(cache))
                   && (id in ActiveMonitors(cache) && StillIn(objects, id, cache[id].status.phase) ==> id in Labels(listed))
  }

  // A pass spares what is healthy exactly if its two snapshots agree on it.
  lemma HealthySparedExactly(cache: map<Id, Object>, listed: seq<Pod>, before: map<Id, Object>, after: map<Id, Object>,
                             pods: map<string, Id>, fails: Id -> bool)
    requires forall id :: !fails(id)
    requires FailedOnly(before, after, Current(Missing(ActiveMonitors(cache), listed), ActiveMonitors(cache), before))
    ensures Spared(before, pods, after, pods - Deleted(ActiveMonitors(cache), listed, fails)) <==>
            SnapshotsAgree(cache, listed, before, pods)
  {
    var active := ActiveMonitors(cache);
    forall id | Healthy(before, pods, id)
      ensures Healthy(after, pods - Deleted(active, listed, fails), id) <==>
              && (id in Labels(listed) ==> id in active)
              && (id in active && StillIn(before, id, cache[id].status.phase) ==> id in Labels(listed))
    {
      DeletedExactly(active, listed, fails, id);
      assert id in Missing(active, listed) <==> id in active && id !in Labels(listed);
    }
  }

  lemma DeletedExactly(active: map<Id, Object>, listed: seq<Pod>, fails: Id -> bool, id: Id)
    requires forall i :: !fails(i)
    ensures POD_NAME_PREFIX + id in Deleted(active, listed, fails) <==> id in Labels(listed) && id !in active
  {
    if POD_NAME_PREFIX + id in Deleted(active, listed, fails) {
      var p :| p in listed && Orphaned(active, p) && POD_NAME_PREFIX + p.monitor == POD_NAME_PREFIX + id;
      SameName(p.monitor, id);
    }
    if id in Labels(listed) && id !in active {
      var p :| p in listed && p.monitor != "" && p.monitor == id;
      assert Orphaned(active, p);
    }
  }

  // Neither snapshot is taken with the other: a pod that comes up after the list was read has its
  // monitor failed, and a monitor that becomes active after the cache was read has its pod deleted.
  lemma NewcomersAreHarmed(m: Object)
    requires IsActive(m.status.phase)
    ensures var objects, pods := map["m" := m], map[POD_NAME_PREFIX + "m" := "m"];
            && !SnapshotsAgree(objects, [], objects, pods)
            && !SnapshotsAgree(map[], [Pod(POD_NAME_PREFIX + "m", "m")], objects, pods)
  {
    var objects, pods := map["m" := m], map[POD_NAME_PREFIX + "m" := "m"];
    assert Healthy(objects, pods, "m");
    assert Pod(POD_NAME_PREFIX + "m", "m") in [Pod(POD_NAME_PREFIX + "m", "m")];
  }
}
