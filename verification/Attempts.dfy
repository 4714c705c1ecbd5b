/** One attempt at a write, and several: a read, a decision and a submission, among whatever other
  * clients commit in between.
  */
module Attempts {
  import opened Wrappers
  import opened Monitors
  import opened ApiServer
  import opened Edits

  // A write by some other client, submitted under the version that is current when it arrives
  datatype Foreign = Foreign(author: nat, purpose: Purpose, id: Id, hash: string, spec: Spec, status: Status)

  function Meddle(s: Server, f: Foreign): Server {
    if f.purpose.CreateObject? then Create(s, f.author, f.id, f.hash, f.spec).1
    else if f.purpose.DeleteObject? then Delete(s, f.author, f.id).1
    else if f.id !in s.objects then s
    else Put(s, f.author, f.purpose, f.id, s.objects[f.id].(spec := f.spec, status := f.status)).1
  }

  function MeddleAll(s: Server, fs: seq<Foreign>): Server
    decreases |fs|
  {
    if fs == [] then s else MeddleAll(Meddle(s, fs[0]), fs[1..])
  }

  lemma {:induction false} MeddleKeeps(author: nat, s: Server, fs: seq<Foreign>)
    requires ValidServer(s) && forall f :: f in fs ==> f.author != author
    ensures ValidServer(MeddleAll(s, fs)) && Later(s, MeddleAll(s, fs))
    ensures Silent(author, MeddleAll(s, fs).log, |s.log|)
    decreases |fs|
  {
    if fs != [] {
      var f, next := fs[0], Meddle(s, fs[0]);
      MeddleOnce(s, f);
      MeddleKeeps(author, next, fs[1..]);
      LaterTransitive(s, next, MeddleAll(s, fs));
      StillSilent(author, s.log, next.log, MeddleAll(s, fs).log);
    }
  }

  // One commit more by somebody else
  lemma StillSilent(author: nat, log: seq<Commit>, mid: seq<Commit>, end: seq<Commit>)
    requires log <= mid <= end && |mid| <= |log| + 1 && Silent(author, mid, |log|) && Silent(author, end, |mid|)
    ensures Silent(author, end, |log|)
  {
    assert forall k :: 0 <= k < |mid| ==> end[k] == mid[k];
  }

  lemma MeddleOnce(s: Server, f: Foreign)
    requires ValidServer(s)
    ensures ValidServer(Meddle(s, f)) && Later(s, Meddle(s, f))
    ensures Meddle(s, f) == s || (|Meddle(s, f).log| == |s.log| + 1 && Meddle(s, f).log[|s.log|].author == f.author)
  {
    if f.purpose.CreateObject? {
      StoredValid(s, f.author, f.purpose, f.id, Object(s.revision + 1, f.hash, f.spec, NEW_STATUS));
    } else if f.purpose.DeleteObject? {
      DeleteValid(s, f.author, f.id);
    } else if f.id in s.objects {
      PutValid(s, f.author, f.purpose, f.id, s.objects[f.id].(spec := f.spec, status := f.status));
    }
  }

  // How many commits of the history concern id
  function Writes(log: seq<Commit>, id: Id): nat {
    if log == [] then 0 else Writes(log[..|log| - 1], id) + (if log[|log| - 1].id == id then 1 else 0)
  }

  lemma {:induction false} WritesGrow(s: Server, s': Server, id: Id)
    requires ValidServer(s) && ValidServer(s') && s.log <= s'.log
    ensures Writes(s'.log, id) >= Writes(s.log, id)
    ensures Find(s'.objects, id) != Find(s.objects, id) ==> Writes(s'.log, id) > Writes(s.log, id)
  {
    WritesSince(s'.log, |s.log|, id);
    assert s'.log[..|s.log|] == s.log;
  }

  lemma {:induction false} WritesSince(log: seq<Commit>, from: nat, id: Id)
    requires from <= |log|
    ensures Writes(log, id) >= Writes(log[..from], id)
    ensures Find(Replay(log), id) != Find(Replay(log[..from]), id) ==> Writes(log, id) > Writes(log[..from], id)
    decreases |log|
  {
    if from == |log| {
      assert log[..from] == log;
    } else {
      var past := log[..|log| - 1];
      WritesSince(past, from, id);
      assert past[..from] == log[..from];
    }
  }

  // The outside world during one attempt: what others commit before the read and before the write,
  // and whether either request fails on the way.
  datatype Attempt = Attempt(beforeRead: seq<Foreign>, readFails: bool, beforeWrite: seq<Foreign>, writeFails: bool)

  // Nobody else is about and nothing fails.
  ghost predicate Calm(a: Attempt) {
    a.beforeRead == [] && a.beforeWrite == [] && !a.readFails && !a.writeFails
  }

  // after is before under a new version and in the phase next.
  ghost predicate Moved(before: Object, after: Object, next: Phase) {
    after == before.(version := after.version, status := before.status.(phase := next))
  }

  const ATTEMPTS := 4 // retry.DefaultBackoff

  datatype StoreResult =
    | Done(obj: Object)
    | MonitorNotFound
    | MonitorNotActive // or not in the phase that a swap expects
    | Conflicted
    | RequestFailed

  ghost predicate Others(author: nat, a: Attempt) {
    && (forall f :: f in a.beforeRead ==> f.author != author)
    && (forall f :: f in a.beforeWrite ==> f.author != author)
  }

  predicate Attemptable(p: Purpose) {
    p.SetPhase? || p.SetPodName? || p.SetStats? || p.PatchSpec? || p.SwapPhase?
  }

  // What is answered without submitting anything, if so, when objects are read
  function Decided(objects: map<Id, Object>, p: Purpose, id: Id): Option<StoreResult> {
    if id !in objects then Some(MonitorNotFound)
    else
      var phase := objects[id].status.phase;
      if p.SwapPhase? && (phase == Unset || phase != p.current) then Some(MonitorNotActive)
      else if Edit(p, objects[id]).NotActive? then Some(MonitorNotActive)
      else None
  }

  // The edit of what is held, submitted now
  function Submitted(now: Server, author: nat, p: Purpose, id: Id, held: Object): (StoreResult, Server)
    requires Edit(p, held).Submit?
  {
    var (outcome, next) := Put(now, author, p, id, Edit(p, held).obj);
    (if outcome.Accepted? then Done(outcome.obj) else if outcome == NotFound then MonitorNotFound else Conflicted, next)
  }

  function Tried(s: Server, author: nat, p: Purpose, id: Id, a: Attempt): (StoreResult, Server) {
    var read := MeddleAll(s, a.beforeRead);
    if a.readFails then (RequestFailed, read)
    else if Decided(read.objects, p, id).Some? then (Decided(read.objects, p, id).value, read)
    else
      var now := MeddleAll(read, a.beforeWrite);
      if a.writeFails then (RequestFailed, now) else Submitted(now, author, p, id, read.objects[id])
  }

  // A conflict is tried again.
  function Retried(s: Server, author: nat, p: Purpose, id: Id, env: seq<Attempt>): (StoreResult, Server)
    decreases |env|
  {
    if env == [] then (Conflicted, s)
    else
      var (r, next) := Tried(s, author, p, id, env[0]);
      if r == Conflicted then Retried(next, author, p, id, env[1..]) else (r, next)
  }

  // ---- What an attempt keeps

  // The answer r would have been given at some point of the history from the given one on.
  ghost predicate WasDecided(log: seq<Commit>, from: nat, p: Purpose, id: Id, r: StoreResult) {
    exists k :: from <= k <= |log| && Decided(Replay(log[..k]), p, id) == Some(r)
  }

  lemma DecidedNow(s: Server, from: nat, p: Purpose, id: Id, r: StoreResult)
    requires ValidServer(s) && from <= |s.log| && Decided(s.objects, p, id) == Some(r)
    ensures WasDecided(s.log, from, p, id, r)
  {
    assert s.log[..|s.log|] == s.log;
  }

  lemma DecidedSince(log: seq<Commit>, from: nat, mid: nat, p: Purpose, id: Id, r: StoreResult)
    requires from <= mid && WasDecided(log, mid, p, id, r)
    ensures WasDecided(log, from, p, id, r)
  {
  }

  // Some live version since was missing, or not active.
  ghost predicate WasAbsent(log: seq<Commit>, from: nat, id: Id) {
    exists k :: from <= k <= |log| && id !in Replay(log[..k])
  }

  ghost predicate WasInactive(log: seq<Commit>, from: nat, id: Id) {
    exists k :: from <= k <= |log| && id in Replay(log[..k]) && !IsActive(Replay(log[..k])[id].status.phase)
  }

  // What the refusals mean: missing, not active for a patch, not in the expected phase for a swap
  lemma RefusalsMean(log: seq<Commit>, from: nat, p: Purpose, id: Id)
    ensures WasDecided(log, from, p, id, MonitorNotFound) <==> WasAbsent(log, from, id)
    ensures p.PatchSpec? ==> (WasDecided(log, from, p, id, MonitorNotActive) <==> WasInactive(log, from, id))
    ensures !p.PatchSpec? && !p.SwapPhase? ==> !WasDecided(log, from, p, id, MonitorNotActive)
  {
    if WasDecided(log, from, p, id, MonitorNotFound) {
      var k :| from <= k <= |log| && Decided(Replay(log[..k]), p, id) == Some(MonitorNotFound);
      assert id !in Replay(log[..k]);
    }
    if WasAbsent(log, from, id) {
      var k :| from <= k <= |log| && id !in Replay(log[..k]);
      assert Decided(Replay(log[..k]), p, id) == Some(MonitorNotFound);
    }
    if p.PatchSpec? {
      if WasDecided(log, from, p, id, MonitorNotActive) {
        var k :| from <= k <= |log| && Decided(Replay(log[..k]), p, id) == Some(MonitorNotActive);
        assert id in Replay(log[..k]);
      }
      if WasInactive(log, from, id) {
        var k :| from <= k <= |log| && id in Replay(log[..k]) && !IsActive(Replay(log[..k])[id].status.phase);
        assert Decided(Replay(log[..k]), p, id) == Some(MonitorNotActive);
      }
    }
  }

  // At most one commit of its own, which loses nothing; an answer without one only for a reason
  ghost predicate Kept(s: Server, next: Server, author: nat, p: Purpose, id: Id, r: StoreResult) {
    && ValidServer(next) && Later(s, next)
    && (if r.Done? then CommittedOnce(author, next.log, |s.log|, p, id, r.obj) else Silent(author, next.log, |s.log|))
    && (r == MonitorNotFound || r == MonitorNotActive ==> WasDecided(next.log, |s.log|, p, id, r))
  }

  lemma KeptSince(s: Server, mid: Server, next: Server, author: nat, p: Purpose, id: Id, r: StoreResult)
    requires ValidServer(s) && Later(s, mid) && Silent(author, mid.log, |s.log|) && Kept(mid, next, author, p, id, r)
    ensures Kept(s, next, author, p, id, r)
  {
    LaterTransitive(s, mid, next);
    assert next.log[..|mid.log|] == mid.log;
    if r.Done? {
      CommittedSince(author, next.log, |s.log|, |mid.log|, p, id, r.obj);
    } else if r == MonitorNotFound || r == MonitorNotActive {
      DecidedSince(next.log, |s.log|, |mid.log|, p, id, r);
    }
  }

  // What was read is submitted, with others in between.
  lemma SubmittedKept(read: Server, author: nat, p: Purpose, id: Id, fs: seq<Foreign>)
    requires ValidServer(read) && (Attemptable(p) || p.InitialPhase?) && (forall f :: f in fs ==> f.author != author)
    requires Decided(read.objects, p, id).None?
    ensures var (r, next) := Submitted(MeddleAll(read, fs), author, p, id, read.objects[id]);
            && Kept(read, next, author, p, id, r)
            && (r == Conflicted ==> Writes(next.log, id) > Writes(read.log, id))
            && (fs == [] ==> r.Done? && next.objects == read.objects[id := r.obj])
            && (r.Done? ==> r.obj == Edit(p, read.objects[id]).obj.(version := r.obj.version))
  {
    var now := MeddleAll(read, fs);
    var (r, next) := Submitted(now, author, p, id, read.objects[id]);
    MeddleKeeps(author, read, fs);
    PutLosesNothing(read, now, author, p, id);
    LaterTransitive(read, now, next);
    if r == MonitorNotFound {
      DecidedNow(next, |read.log|, p, id, r);
    } else if r == Conflicted {
      WritesGrow(read, now, id);
    }
  }

  lemma TriedKept(s: Server, author: nat, p: Purpose, id: Id, a: Attempt)
    requires ValidServer(s) && Attemptable(p) && Others(author, a)
    ensures Kept(s, Tried(s, author, p, id, a).1, author, p, id, Tried(s, author, p, id, a).0)
  {
    var read := MeddleAll(s, a.beforeRead);
    MeddleKeeps(author, s, a.beforeRead);
    if !a.readFails {
      if Decided(read.objects, p, id).Some? {
        DecidedNow(read, |s.log|, p, id, Decided(read.objects, p, id).value);
      } else if a.writeFails {
        MeddleKeeps(author, read, a.beforeWrite);
        KeptSince(s, read, MeddleAll(read, a.beforeWrite), author, p, id, RequestFailed);
      } else {
        var (r, next) := Submitted(MeddleAll(read, a.beforeWrite), author, p, id, read.objects[id]);
        SubmittedKept(read, author, p, id, a.beforeWrite);
        KeptSince(s, read, next, author, p, id, r);
      }
    }
  }

  lemma TriedFails(s: Server, author: nat, p: Purpose, id: Id, a: Attempt)
    requires ValidServer(s) && Attemptable(p) && Others(author, a)
    ensures var (r, next) := Tried(s, author, p, id, a);
            && (r == RequestFailed ==> a.readFails || a.writeFails) && (a.readFails ==> r == RequestFailed)
            && (r == Conflicted ==> Writes(next.log, id) > Writes(s.log, id))
  {
    var read := MeddleAll(s, a.beforeRead);
    MeddleKeeps(author, s, a.beforeRead);
    WritesGrow(s, read, id);
    if !a.readFails && Decided(read.objects, p, id).None? && !a.writeFails {
      SubmittedKept(read, author, p, id, a.beforeWrite);
    }
  }

  // Left alone, an attempt does what it is for, unless it is refused.
  lemma TriedCalmly(s: Server, author: nat, p: Purpose, id: Id, a: Attempt)
    requires ValidServer(s) && Attemptable(p) && Calm(a)
    ensures var (r, next) := Tried(s, author, p, id, a);
            if Decided(s.objects, p, id).Some? then (r, next) == (Decided(s.objects, p, id).value, s)
            else
              && r.Done? && next.objects == s.objects[id := r.obj]
              && r.obj == Edit(p, s.objects[id]).obj.(version := r.obj.version)
  {
    if Decided(s.objects, p, id).None? {
      SubmittedKept(s, author, p, id, []);
    }
  }

  lemma {:induction false} RetriedKept(s: Server, author: nat, p: Purpose, id: Id, env: seq<Attempt>)
    requires ValidServer(s) && Attemptable(p) && forall a :: a in env ==> Others(author, a)
    ensures Kept(s, Retried(s, author, p, id, env).1, author, p, id, Retried(s, author, p, id, env).0)
    decreases |env|
  {
    if env != [] {
      var (r, next) := Tried(s, author, p, id, env[0]);
      TriedKept(s, author, p, id, env[0]);
      if r == Conflicted {
        RetriedKept(next, author, p, id, env[1..]);
        var (last, end) := Retried(next, author, p, id, env[1..]);
        KeptSince(s, next, end, author, p, id, last);
      }
    }
  }

  ghost predicate SomeRequestFails(env: seq<Attempt>) {
    exists a :: a in env && (a.readFails || a.writeFails)
  }

  // Giving up takes a write by others for every attempt.
  lemma {:induction false} RetriedFails(s: Server, author: nat, p: Purpose, id: Id, env: seq<Attempt>)
    requires ValidServer(s) && Attemptable(p) && forall a :: a in env ==> Others(author, a)
    ensures var (r, next) := Retried(s, author, p, id, env);
            && (r == RequestFailed ==> SomeRequestFails(env))
            && (r == Conflicted ==> Writes(next.log, id) >= Writes(s.log, id) + |env|)
    decreases |env|
  {
    if env != [] {
      var (r, next) := Tried(s, author, p, id, env[0]);
      TriedKept(s, author, p, id, env[0]);
      TriedFails(s, author, p, id, env[0]);
      assert env[0] in env;
      if r == Conflicted {
        RetriedFails(next, author, p, id, env[1..]);
        assert forall a :: a in env[1..] ==> a in env;
      }
    }
  }
}
