/** The pod watcher: a terminated pod takes its monitor out of activity, once. */
module Watcher {
  import opened Monitors
  import opened ApiServer
  import opened Edits
  import opened Attempts
  import opened Store
  import Protocol
  import Reconcile

  datatype PodPhase = Pending | Running | Succeeded | PodFailed | Unknown

  class PodWatcher {
    const store: Store
    var pods: set<string>
    var reported: seq<Id> // monitor.error, in the order decided

    constructor (store: Store, pods: set<string>)
      ensures this.store == store && this.pods == pods && reported == []
    {
      this.store, this.pods, reported := store, pods, [];
    }

    // What was reported is what this watcher moved to the error phase.
    ghost predicate Honest()
      reads this, store
    {
      ValidServer(store.server) && reported == Reconcile.Failures(store.me, store.server.log)
    }

    // The phase a pod's end means for a monitor that is still active
    static function Outcome(phase: PodPhase): Phase {
      if phase == Succeeded then Completed else Failed
    }

    // A pod that has ended, whose monitor the cache shows at work
    static ghost predicate Relevant(phase: PodPhase, monitor: Id, cache: map<Id, Object>) {
      && (phase == Succeeded || phase == PodFailed) && monitor != "" && monitor in cache
      && match cache[monitor].status.phase
         case Initializing => true
         case Waiting => true
         case Monitoring => true
         case _ => false
    }

    // The cache knows the phase that the monitor is in.
    static ghost predicate Current(monitor: Id, cache: map<Id, Object>, objects: map<Id, Object>) {
      monitor in cache && monitor in objects && objects[monitor].status.phase == cache[monitor].status.phase
    }

    // Moves the monitor, unless somebody else already has.
    method Claim(monitor: Id, current: Phase, next: Phase, a: Attempt) returns (won: bool)
      requires ValidServer(store.server) && store.Others(a) && current != Unset
      modifies store
      ensures ValidServer(store.server) && Later(old(store.server), store.server)
      ensures won ==>
                var log := store.server.log;
                && |log| > |old(store.server).log| && log[|log| - 1].author == store.me && log[|log| - 1].id == monitor
                && log[|log| - 1].purpose == SwapPhase(current, next) && NothingLost(log[|log| - 1])
      ensures !won ==> Silent(store.me, store.server.log, |old(store.server).log|)
      ensures Reconcile.Failures(store.me, store.server.log) ==
              Reconcile.Failures(store.me, old(store.server).log) + if won && next == Failed then [monitor] else []
      ensures Calm(a) && monitor in old(store.server).objects && old(store.server).objects[monitor].status.phase == current ==> won
    {
      ghost var before := store.server;
      var r := store.UpdateStatusWithCondition(monitor, current, next, a);
      won := r.Won?;
      assert before.log == store.server.log[..|before.log|];
      if r.Won? {
        Reconcile.SwapAddsItsFailure(store.me, before.log, store.server.log, current, next, monitor, r.obj);
      } else {
        Reconcile.SilenceAddsNoFailure(store.me, store.server.log, |before.log|);
      }
    }

    // The pod goes exactly if this call moved the monitor (and the deletion goes through), and the
    // failure is reported exactly if this call moved it to the error phase. Whoever comes second,
    // watcher or reconciler, does neither.
    method HandlePodEvent(phase: PodPhase, monitor: Id, cache: map<Id, Object>, a: Attempt, deleteFails: bool) returns (ghost won: bool)
      requires Honest() && store.Others(a)
      modifies this, store
      ensures Honest() && Later(old(store.server), store.server)
      ensures won ==> monitor in cache && |store.server.log| > |old(store.server).log|
      ensures won ==>
                var c := store.server.log[|store.server.log| - 1];
                && c.author == store.me && c.id == monitor && c.purpose.SwapPhase? && Protocol.Careful(c)
                && c.before.value.status.phase == cache[monitor].status.phase
                && c.after.value.status.phase == (match phase case Succeeded => Completed case _ => Failed)
      ensures won ==> Relevant(phase, monitor, cache)
      ensures Calm(a) && Relevant(phase, monitor, cache) && Current(monitor, cache, old(store.server.objects)) ==> won
      ensures !won ==> Silent(store.me, store.server.log, |old(store.server).log|)
      ensures pods == if won && !deleteFails then old(pods) - {Reconcile.POD_NAME_PREFIX + monitor} else old(pods)
      ensures reported == if won && phase == PodFailed then old(reported) + [monitor] else old(reported)
    {
      won := false;
      if (phase != PodFailed && phase != Succeeded) || monitor == "" {
        return;
      }
      if monitor !in cache || !IsActive(cache[monitor].status.phase) {
        return;
      }
      var claimed := Claim(monitor, cache[monitor].status.phase, Outcome(phase), a);
      if !claimed {
        return;
      }
      won := true;
      if phase == PodFailed {
        reported := reported + [monitor];
      }
      if !deleteFails {
        pods := pods - {Reconcile.POD_NAME_PREFIX + monitor};
      }
    }
  }
}
