/** The monitor store: every write reads the live object, changes its own fields and submits it under
  * the version it read; other clients may commit anything in between.
  */
module Store {
  import opened Wrappers
  import opened Monitors
  import opened ApiServer
  import opened Edits
  import opened Attempts

  datatype SwapResult = Won(obj: Object) | Skipped | SwapFailed

  function Swapped(r: StoreResult): SwapResult {
    match r
    case Done(obj) => Won(obj)
    case RequestFailed => SwapFailed
    case _ => Skipped
  }

  datatype CreateResult =
    | Created(obj: Object)
    | DuplicateMonitor
    | CreateFailed
    | StatusFailed   // rolled back
    | RollbackFailed

  // What happens around the three requests of a create, and which of them fail on the way
  datatype Creation = Creation(
    beforeCreate: seq<Foreign>, createFails: bool,
    beforeStatus: seq<Foreign>, statusFails: bool,
    beforeRollback: seq<Foreign>, rollbackFails: bool)

  // An active monitor of the same stream, as far as the cache knows
  predicate Duplicate(cache: map<Id, Object>, hash: string) {
    exists id :: id in cache && cache[id].hash == hash && IsActive(cache[id].status.phase)
  }

  datatype LiveResult = Live(obj: Object) | Absent | ReadFailed

  class Store {
    var server: Server
    const me: nat

    constructor (server: Server, me: nat)
      requires ValidServer(server)
      ensures ValidServer(this.server) && this.server == server && this.me == me
    {
      this.server, this.me := server, me;
    }

    ghost predicate Others(a: Attempt) {
      Attempts.Others(me, a)
    }

    method Meddled(fs: seq<Foreign>)
      modifies this
      ensures server == MeddleAll(old(server), fs)
    {
      server := MeddleAll(server, fs);
    }

    method GetLive(id: Id, fs: seq<Foreign>, fails: bool) returns (r: LiveResult)
      modifies this
      ensures server == MeddleAll(old(server), fs)
      ensures r == if fails then ReadFailed else if id in server.objects then Live(server.objects[id]) else Absent
    {
      Meddled(fs);
      r := if fails then ReadFailed else if id in server.objects then Live(server.objects[id]) else Absent;
    }

    // Submits an edit of what was read earlier; others may have come in between.
    method Submit(purpose: Purpose, id: Id, held: Object, edited: Object, fs: seq<Foreign>, fails: bool) returns (r: StoreResult)
      requires Edit(purpose, held) == Edited.Submit(edited)
      modifies this
      ensures var now := MeddleAll(old(server), fs);
              (r, server) == if fails then (RequestFailed, now) else Submitted(now, me, purpose, id, held)
    {
      Meddled(fs);
      if fails {
        return RequestFailed;
      }
      var (outcome, next) := Put(server, me, purpose, id, edited);
      server := next;
      match outcome {
        case Accepted(obj) => r := Done(obj);
        case NotFound => r := MonitorNotFound;
        case _ => r := Conflicted;
      }
    }

    // The function that is retried: read live, edit, submit under the version read
    method Try(purpose: Purpose, id: Id, a: Attempt) returns (r: StoreResult)
      requires Attemptable(purpose) && !purpose.SwapPhase?
      modifies this
      ensures (r, server) == Tried(old(server), me, purpose, id, a)
    {
      var live := GetLive(id, a.beforeRead, a.readFails);
      if live.ReadFailed? {
        return RequestFailed;
      }
      if live.Absent? {
        return MonitorNotFound;
      }
      var edited := Edit(purpose, live.obj);
      if edited.NotActive? {
        return MonitorNotActive;
      }
      r := Submit(purpose, id, live.obj, edited.obj, a.beforeWrite, a.writeFails);
    }

    method Retry(purpose: Purpose, id: Id, env: seq<Attempt>) returns (r: StoreResult)
      requires Attemptable(purpose) && !purpose.SwapPhase?
      modifies this
      ensures (r, server) == Retried(old(server), me, purpose, id, env)
    {
      for i := 0 to |env|
        invariant Retried(server, me, purpose, id, env[i..]) == Retried(old(server), me, purpose, id, env)
      {
        assert env[i..][0] == env[i] && env[i..][1..] == env[i + 1..];
        r := Try(purpose, id, env[i]);
        if r != Conflicted {
          return;
        }
      }
      r := Conflicted;
    }

    // UpdateStatus, UpdatePodName, UpdateStats and UpdateMonitor: one commit at most, which loses
    // nothing; a refusal answers to what was live; a conflict is tried again.
    method RetryOnConflict(purpose: Purpose, id: Id, env: seq<Attempt>) returns (r: StoreResult)
      requires ValidServer(server) && |env| == ATTEMPTS && (forall a :: a in env ==> Others(a))
      requires Attemptable(purpose) && !purpose.SwapPhase?
      modifies this
      ensures (r, server) == Retried(old(server), me, purpose, id, env)
      ensures Kept(old(server), server, me, purpose, id, r)
      ensures r == Conflicted ==> Writes(server.log, id) >= Writes(old(server).log, id) + 4
      ensures r == RequestFailed ==> SomeRequestFails(env)
      ensures Calm(env[0]) ==>
                if Decided(old(server).objects, purpose, id).None? then r.Done?
                else r == Decided(old(server).objects, purpose, id).value && server == old(server)
    {
      RetriedKept(server, me, purpose, id, env);
      RetriedFails(server, me, purpose, id, env);
      if Calm(env[0]) {
        TriedCalmly(server, me, purpose, id, env[0]);
      }
      r := Retry(purpose, id, env);
    }

    // Compare and swap: one read, one write. Skipped means that somebody else had already dealt with
    // the monitor: it was gone, in another phase, or written to between the read and the write.
    method UpdateStatusWithCondition(id: Id, current: Phase, next: Phase, a: Attempt) returns (r: SwapResult)
      requires ValidServer(server) && Others(a)
      modifies this
      ensures var (outcome, s) := Tried(old(server), me, SwapPhase(current, next), id, a);
              server == s && r == Swapped(outcome)
      ensures ValidServer(server) && Later(old(server), server)
      ensures if r.Won? then CommittedOnce(me, server.log, |old(server).log|, SwapPhase(current, next), id, r.obj)
              else Silent(me, server.log, |old(server).log|)
      ensures r == Skipped ==>
                || WasDecided(server.log, |old(server).log|, SwapPhase(current, next), id, MonitorNotFound)
                || WasDecided(server.log, |old(server).log|, SwapPhase(current, next), id, MonitorNotActive)
                || Writes(server.log, id) > Writes(old(server).log, id)
      ensures (r == SwapFailed ==> a.readFails || a.writeFails) && (a.readFails ==> r == SwapFailed)
      ensures Calm(a) && Decided(old(server).objects, SwapPhase(current, next), id).None? ==>
                r.Won? && server.objects == old(server).objects[id := r.obj] && Moved(old(server).objects[id], r.obj, next)
    {
      ghost var p := SwapPhase(current, next);
      TriedKept(server, me, p, id, a);
      TriedFails(server, me, p, id, a);
      if Calm(a) {
        TriedCalmly(server, me, p, id, a);
      }
      r := CompareAndSwap(id, current, next, a);
    }

    method CompareAndSwap(id: Id, current: Phase, next: Phase, a: Attempt) returns (r: SwapResult)
      modifies this
      ensures var (outcome, s) := Tried(old(server), me, SwapPhase(current, next), id, a);
              server == s && r == Swapped(outcome)
    {
      var live := GetLive(id, a.beforeRead, a.readFails);
      if live.ReadFailed? {
        return SwapFailed;
      }
      if live.Absent? || live.obj.status.phase == Unset || live.obj.status.phase != current {
        return Skipped;
      }
      var edited := live.obj.(status := live.obj.status.(phase := next));
      var outcome := Submit(SwapPhase(current, next), id, live.obj, edited, a.beforeWrite, a.writeFails);
      r := Swapped(outcome);
    }

    // Nobody interferes with the two writes, and neither fails.
    ghost predicate Favourable(env: Creation) {
      env.beforeCreate == [] && env.beforeStatus == [] && !env.createFails && !env.statusFails
    }

    ghost predicate Undisturbing(env: Creation) {
      && (forall f :: f in env.beforeCreate ==> f.author != me)
      && (forall f :: f in env.beforeStatus ==> f.author != me)
      && (forall f :: f in env.beforeRollback ==> f.author != me)
    }

    // The object posted, with an empty status whatever the request said
    method Post(id: Id, hash: string, spec: Spec, fs: seq<Foreign>, fails: bool) returns (r: StoreResult)
      requires ValidServer(server) && forall f :: f in fs ==> f.author != me
      modifies this
      ensures ValidServer(server) && Later(old(server), server)
      ensures r.Done? ==> CommittedOnce(me, server.log, |old(server).log|, CreateObject, id, r.obj)
      ensures r.Done? ==> r.obj == Object(r.obj.version, hash, spec, NEW_STATUS) && Find(server.objects, id) == Some(r.obj)
      ensures !r.Done? ==> Silent(me, server.log, |old(server).log|) && (r == Conflicted ==> id in server.objects)
      ensures r.Done? || r == Conflicted || (r == RequestFailed && fails)
      ensures fs == [] && !fails && id !in old(server).objects ==> r.Done?
    {
      MeddleKeeps(me, server, fs);
      Meddled(fs);
      if fails {
        return RequestFailed;
      }
      ghost var now := server;
      var (outcome, next) := ApiServer.Create(server, me, id, hash, spec);
      if outcome == AlreadyExists {
        return Conflicted;
      }
      StoredValid(server, me, CreateObject, id, outcome.obj);
      server := next;
      LaterTransitive(old(server), now, server);
      assert server.log[..|server.log| - 1] == now.log;
      r := Done(outcome.obj);
    }

    // Whatever becomes of the deletion, success means that the object is gone.
    method RollBack(id: Id, fs: seq<Foreign>, fails: bool) returns (ok: bool)
      requires ValidServer(server) && forall f :: f in fs ==> f.author != me
      modifies this
      ensures ValidServer(server) && Later(old(server), server)
      ensures if ok then id !in server.objects else fails && Silent(me, server.log, |old(server).log|)
    {
      MeddleKeeps(me, server, fs);
      Meddled(fs);
      if fails {
        return false;
      }
      ghost var now := server;
      DeleteValid(server, me, id);
      server := Delete(server, me, id).1;
      LaterTransitive(old(server), now, server);
      ok := true;
    }

    // The second request of a create, and the rollback when it fails
    method Initialize(id: Id, initial: Phase, env: Creation) returns (r: CreateResult)
      requires ValidServer(server) && Undisturbing(env) && id in server.objects
      modifies this
      ensures ValidServer(server) && Later(old(server), server)
      ensures r.Created? || r == StatusFailed || r == RollbackFailed
      ensures r.Created? ==>
                var o := old(server.objects[id]);
                r.obj == o.(version := r.obj.version, status := o.status.(phase := initial)) && Find(server.objects, id) == Some(r.obj)
      ensures r == StatusFailed ==> id !in server.objects
      ensures r == RollbackFailed ==> env.rollbackFails
      ensures env.beforeStatus == [] && !env.statusFails ==> r.Created?
    {
      var o := server.objects[id];
      SubmittedKept(server, me, InitialPhase(initial), id, env.beforeStatus);
      MeddleKeeps(me, server, env.beforeStatus);
      var outcome := Submit(InitialPhase(initial), id, o, o.(status := o.status.(phase := initial)), env.beforeStatus, env.statusFails);
      if outcome.Done? {
        return Created(outcome.obj);
      }
      ghost var unset := server;
      var ok := RollBack(id, env.beforeRollback, env.rollbackFails);
      LaterTransitive(old(server), unset, server);
      r := if ok then StatusFailed else RollbackFailed;
    }

    // A create either puts one object in its initial phase with everything else as requested, or
    // leaves nothing of its own behind, unless its rollback failed too.
    method Create(id: Id, hash: string, spec: Spec, initial: Phase, cache: map<Id, Object>, env: Creation) returns (r: CreateResult)
      requires ValidServer(server) && Undisturbing(env)
      modifies this
      ensures ValidServer(server) && Later(old(server), server)
      ensures r.Created? ==>
                && r.obj == Object(r.obj.version, hash, spec, NEW_STATUS.(phase := initial))
                && Find(server.objects, id) == Some(r.obj)
                && !Duplicate(cache, hash)
      ensures r == DuplicateMonitor ==> Duplicate(cache, hash) || id in server.objects
      ensures r == DuplicateMonitor || r == CreateFailed ==> Silent(me, server.log, |old(server).log|)
      ensures r == StatusFailed ==> id !in server.objects
      ensures (r == CreateFailed ==> env.createFails) && (r == RollbackFailed ==> env.rollbackFails)
      ensures !Duplicate(cache, hash) && id !in old(server).objects && Favourable(env) ==> r.Created?
    {
      if Duplicate(cache, hash) {
        return DuplicateMonitor;
      }
      var posted := Post(id, hash, spec, env.beforeCreate, env.createFails);
      if !posted.Done? {
        return if posted == Conflicted then DuplicateMonitor else CreateFailed;
      }
      ghost var read := server;
      r := Initialize(id, initial, env);
      LaterTransitive(old(server), read, server);
    }
  }
}
