/** What each write to a monitor changes, and what a write that is accepted cannot lose. */
module Edits {
  import opened Wrappers
  import opened Monitors
  import opened ApiServer

  // What UpdateMonitor may be refused with before it submits anything
  datatype Edited = Submit(obj: Object) | NotActive

  function PatchedSpec(spec: Spec, p: Patch): Spec {
    var called := if p.callbackURL.Some? then spec.(callbackURL := p.callbackURL.value) else spec;
    if p.config.None? then called
    else
      var c := p.config.value;
      called.(config := if c.scheduledStartTime.Some? then c else c.(scheduledStartTime := spec.config.scheduledStartTime))
  }

  function WithStats(st: Status, s: Stats): Status {
    var counted := st.(totalSegments := s.totalSegments, blackoutEvents := s.blackoutEvents, silenceEvents := s.silenceEvents);
    var v := if s.videoHealth != "" then counted.(videoHealth := s.videoHealth) else counted;
    var a := if s.audioHealth != "" then v.(audioHealth := s.audioHealth) else v;
    var l := if s.streamStatus != "" then a.(streamStatus := s.streamStatus) else a;
    if s.lastCheckAt.Some? then l.(lastCheckAt := s.lastCheckAt) else l
  }

  // The fields a write sets on the live object it has read
  function Edit(purpose: Purpose, live: Object): Edited {
    match purpose
    case SetPhase(phase) => Submit(live.(status := live.status.(phase := phase)))
    case InitialPhase(phase) => Submit(live.(status := live.status.(phase := phase)))
    case SwapPhase(_, next) => Submit(live.(status := live.status.(phase := next)))
    case SetPodName(name) => Submit(live.(status := live.status.(podName := name)))
    case SetStats(stats) => Submit(live.(status := WithStats(live.status, stats)))
    case PatchSpec(patch) => if IsActive(live.status.phase) then Submit(live.(spec := PatchedSpec(live.spec, patch))) else NotActive
    case _ => Submit(live)
  }

  // Patches go to the object, everything else to its status subresource.
  function Put(s: Server, author: nat, purpose: Purpose, id: Id, submitted: Object): (Outcome, Server) {
    if purpose.PatchSpec? then PutSpec(s, author, purpose, id, submitted) else PutStatus(s, author, purpose, id, submitted)
  }

  // ---- What a commit may change, field by field

  ghost predicate SameButPhase(a: Status, b: Status) {
    a.podName == b.podName && SameStats(a, b)
  }

  ghost predicate SameStats(a: Status, b: Status) {
    && a.totalSegments == b.totalSegments && a.blackoutEvents == b.blackoutEvents && a.silenceEvents == b.silenceEvents
    && a.videoHealth == b.videoHealth && a.audioHealth == b.audioHealth && a.streamStatus == b.streamStatus
    && a.lastCheckAt == b.lastCheckAt
  }

  ghost predicate OnlyStatsChanged(a: Status, b: Status, s: Stats) {
    && a.phase == b.phase && a.podName == b.podName
    && b.totalSegments == s.totalSegments && b.blackoutEvents == s.blackoutEvents && b.silenceEvents == s.silenceEvents
    && b.videoHealth == (if s.videoHealth == "" then a.videoHealth else s.videoHealth)
    && b.audioHealth == (if s.audioHealth == "" then a.audioHealth else s.audioHealth)
    && b.streamStatus == (if s.streamStatus == "" then a.streamStatus else s.streamStatus)
    && b.lastCheckAt == (if s.lastCheckAt.None? then a.lastCheckAt else s.lastCheckAt)
  }

  ghost predicate OnlyPatchChanged(a: Spec, b: Spec, p: Patch) {
    && a.streamURL == b.streamURL && a.metadata == b.metadata
    && b.callbackURL == (if p.callbackURL.Some? then p.callbackURL.value else a.callbackURL)
    && (p.config.None? ==> b.config == a.config)
    && (p.config.Some? ==>
          && b.config.checkIntervalSec == p.config.value.checkIntervalSec
          && b.config.blackoutThresholdSec == p.config.value.blackoutThresholdSec
          && b.config.silenceThresholdSec == p.config.value.silenceThresholdSec
          && b.config.silenceDBThreshold == p.config.value.silenceDBThreshold
          && b.config.startDelayToleranceSec == p.config.value.startDelayToleranceSec
          && b.config.scheduledStartTime ==
             (if p.config.value.scheduledStartTime.Some? then p.config.value.scheduledStartTime else a.config.scheduledStartTime))
  }

  // after differs from before, the object stored at the instant of the commit, only in the fields
  // that the write is for.
  ghost predicate NothingLost(c: Commit) {
    match c.purpose
    case CreateObject => c.before.None? && c.after.Some? && c.after.value.status == NEW_STATUS
    case DeleteObject => c.before.Some? && c.after.None?
    case _ =>
      && c.before.Some? && c.after.Some?
      && c.after.value.version > c.before.value.version && c.after.value.hash == c.before.value.hash
      && var a, b := c.before.value, c.after.value;
      match c.purpose
      case SetPhase(phase) => a.spec == b.spec && SameButPhase(a.status, b.status) && b.status.phase == phase
      case InitialPhase(phase) => a.spec == b.spec && SameButPhase(a.status, b.status) && b.status.phase == phase
      case SwapPhase(current, next) =>
        a.spec == b.spec && SameButPhase(a.status, b.status) && a.status.phase == current && b.status.phase == next
      case SetPodName(name) =>
        a.spec == b.spec && a.status.phase == b.status.phase && SameStats(a.status, b.status) && b.status.podName == name
      case SetStats(stats) => a.spec == b.spec && OnlyStatsChanged(a.status, b.status, stats)
      case PatchSpec(patch) => a.status == b.status && IsActive(a.status.phase) && OnlyPatchChanged(a.spec, b.spec, patch)
      case _ => false
  }

  // No commit from a point of the history on is by author.
  ghost predicate Silent(author: nat, log: seq<Commit>, from: nat) {
    forall k :: from <= k < |log| ==> log[k].author != author
  }

  // The last commit is author's, loses nothing and is the author's only one since from.
  ghost predicate CommittedOnce(author: nat, log: seq<Commit>, from: nat, purpose: Purpose, id: Id, obj: Object) {
    && |log| > from
    && Silent(author, log[..|log| - 1], from)
    && log[|log| - 1].author == author && log[|log| - 1].purpose == purpose && log[|log| - 1].id == id
    && log[|log| - 1].after == Some(obj)
    && NothingLost(log[|log| - 1])
  }

  lemma CommittedSince(author: nat, log: seq<Commit>, from: nat, mid: nat, purpose: Purpose, id: Id, obj: Object)
    requires from <= mid <= |log| && Silent(author, log[..mid], from)
    requires CommittedOnce(author, log, mid, purpose, id, obj)
    ensures CommittedOnce(author, log, from, purpose, id, obj)
  {
    forall k | from <= k < |log| - 1
      ensures log[k].author != author
    {
      if k < mid {
        assert log[..mid][k] == log[k];
      } else {
        assert log[..|log| - 1][k] == log[k];
      }
    }
  }

  lemma PutValid(s: Server, author: nat, purpose: Purpose, id: Id, submitted: Object)
    requires ValidServer(s)
    ensures var (outcome, next) := Put(s, author, purpose, id, submitted);
            && ValidServer(next) && Later(s, next)
            && (if outcome.Accepted? then next == Stored(s, author, purpose, id, outcome.obj) else next == s)
  {
    var outcome := Put(s, author, purpose, id, submitted).0;
    if outcome.Accepted? {
      StoredValid(s, author, purpose, id, outcome.obj);
    }
  }

  // Submitted onto the very object it was made from, an edit loses nothing.
  lemma EditLosesNothing(s: Server, author: nat, purpose: Purpose, id: Id)
    requires id in s.objects && s.objects[id].version <= s.revision && Edit(purpose, s.objects[id]).Submit?
    requires !purpose.CreateObject? && !purpose.DeleteObject?
    requires purpose.SwapPhase? ==> s.objects[id].status.phase == purpose.current
    ensures var o := Put(s, author, purpose, id, Edit(purpose, s.objects[id]).obj).0;
            && o.Accepted? && o.obj == Edit(purpose, s.objects[id]).obj.(version := s.revision + 1)
            && NothingLost(Commit(author, purpose, id, Some(s.objects[id]), Some(o.obj)))
  {
  }

  // When a submission is accepted, and when not
  lemma PutAnswers(s: Server, author: nat, purpose: Purpose, id: Id, submitted: Object)
    ensures Put(s, author, purpose, id, submitted).0 ==
            if id !in s.objects then NotFound
            else if s.objects[id].version != submitted.version then Conflict
            else Accepted(Put(s, author, purpose, id, submitted).0.obj)
  {
  }

  lemma StoredOnce(now: Server, author: nat, purpose: Purpose, id: Id, o: Object, from: nat)
    requires from <= |now.log| && Silent(author, now.log, from)
    requires NothingLost(Commit(author, purpose, id, Find(now.objects, id), Some(o)))
    ensures CommittedOnce(author, Stored(now, author, purpose, id, o).log, from, purpose, id, o)
  {
    var log := Stored(now, author, purpose, id, o).log;
    assert log[..|log| - 1] == now.log;
  }

  // Whatever happened since the read, a submission that is accepted loses nothing.
  lemma PutLosesNothing(read: Server, now: Server, author: nat, purpose: Purpose, id: Id)
    requires ValidServer(read) && ValidServer(now) && Later(read, now) && id in read.objects
    requires Silent(author, now.log, |read.log|)
    requires !purpose.CreateObject? && !purpose.DeleteObject?
    requires purpose.SwapPhase? ==> read.objects[id].status.phase == purpose.current
    requires Edit(purpose, read.objects[id]).Submit?
    ensures var (outcome, next) := Put(now, author, purpose, id, Edit(purpose, read.objects[id]).obj);
            && ValidServer(next) && Later(now, next)
            && (outcome.Accepted? || outcome == NotFound || outcome == Conflict)
            && (if outcome.Accepted? then CommittedOnce(author, next.log, |read.log|, purpose, id, outcome.obj) else next == now)
            && (outcome.Accepted? ==> next.log[|next.log| - 1].before == Find(read.objects, id))
            && (outcome.Accepted? ==> Find(next.objects, id) == Some(outcome.obj))
            && (outcome.Accepted? ==> outcome.obj == Edit(purpose, read.objects[id]).obj.(version := outcome.obj.version))
            && (outcome == NotFound ==> id !in now.objects)
            && (now == read ==> outcome.Accepted? && next.objects == now.objects[id := outcome.obj])
            && (outcome == Conflict ==> Find(now.objects, id) != Find(read.objects, id))
  {
    var submitted := Edit(purpose, read.objects[id]).obj;
    var (outcome, next) := Put(now, author, purpose, id, submitted);
    assert submitted.version == read.objects[id].version;
    PutAnswers(now, author, purpose, id, submitted);
    PutValid(now, author, purpose, id, submitted);
    if outcome.Accepted? {
      CurrentVersionUnchanged(read, now, id);
      EditLosesNothing(now, author, purpose, id);
      StoredOnce(now, author, purpose, id, outcome.obj, |read.log|);
    }
  }
}
