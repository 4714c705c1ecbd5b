/** The request handlers that merge before they write: a patch into the cached configuration, a status
  * callback into the cached statistics, both then written over whatever is live.
  */
module Handlers {
  import opened Wrappers
  import opened Monitors
  import opened ApiServer
  import opened Edits
  import opened Attempts
  import opened Store

  datatype Overrides = Overrides(
    checkIntervalSec: Option<int>, blackoutThresholdSec: Option<int>, silenceThresholdSec: Option<int>,
    silenceDBThreshold: Option<real>, scheduledStartTime: Option<int>, startDelayToleranceSec: Option<int>)

  function Chosen<T>(override: Option<T>, base: T): T {
    if override.Some? then override.value else base
  }

  function ApplyConfigOverrides(base: Config, o: Overrides): Config {
    Config(Chosen(o.checkIntervalSec, base.checkIntervalSec), Chosen(o.blackoutThresholdSec, base.blackoutThresholdSec),
           Chosen(o.silenceThresholdSec, base.silenceThresholdSec), Chosen(o.silenceDBThreshold, base.silenceDBThreshold),
           if o.scheduledStartTime.Some? then o.scheduledStartTime else base.scheduledStartTime,
           Chosen(o.startDelayToleranceSec, base.startDelayToleranceSec))
  }

  predicate ValidConfig(c: Config) {
    && c.checkIntervalSec > 0 && c.blackoutThresholdSec >= 0 && c.silenceThresholdSec >= 0
    && c.silenceDBThreshold <= 0.0 && c.startDelayToleranceSec >= 0
  }

  // What the request asks for: the overridden fields take their new values, the others keep theirs.
  ghost predicate Overridden(a: Config, b: Config, o: Overrides) {
    && b.checkIntervalSec == Chosen(o.checkIntervalSec, a.checkIntervalSec)
    && b.blackoutThresholdSec == Chosen(o.blackoutThresholdSec, a.blackoutThresholdSec)
    && b.silenceThresholdSec == Chosen(o.silenceThresholdSec, a.silenceThresholdSec)
    && b.silenceDBThreshold == Chosen(o.silenceDBThreshold, a.silenceDBThreshold)
    && (b.scheduledStartTime == if o.scheduledStartTime.Some? then o.scheduledStartTime else a.scheduledStartTime)
    && b.startDelayToleranceSec == Chosen(o.startDelayToleranceSec, a.startDelayToleranceSec)
  }

  // The cached configuration agrees with the live one wherever the request leaves it alone. A start
  // time that the cache does not know yet is not overwritten.
  ghost predicate UpToDate(cached: Config, live: Config, o: Overrides) {
    && (o.checkIntervalSec.None? ==> cached.checkIntervalSec == live.checkIntervalSec)
    && (o.blackoutThresholdSec.None? ==> cached.blackoutThresholdSec == live.blackoutThresholdSec)
    && (o.silenceThresholdSec.None? ==> cached.silenceThresholdSec == live.silenceThresholdSec)
    && (o.silenceDBThreshold.None? ==> cached.silenceDBThreshold == live.silenceDBThreshold)
    && (o.scheduledStartTime.None? && cached.scheduledStartTime.Some? ==> cached.scheduledStartTime == live.scheduledStartTime)
    && (o.startDelayToleranceSec.None? ==> cached.startDelayToleranceSec == live.startDelayToleranceSec)
  }

  datatype PatchResult = Patched(obj: Object) | NothingToPatch | InvalidConfig | Unknown | Inactive | Failure

  // What the store is asked for, or the answer without asking it
  function Merged(cache: map<Id, Object>, id: Id, callbackURL: Option<string>, config: Option<Overrides>)
    : Result<Patch, PatchResult>
  {
    if callbackURL.None? && config.None? then Err(NothingToPatch)
    else if config.None? then Ok(Patch(callbackURL, None))
    else if id !in cache then Err(Unknown)
    else
      var merged := ApplyConfigOverrides(cache[id].spec.config, config.value);
      if ValidConfig(merged) then Ok(Patch(callbackURL, Some(merged))) else Err(InvalidConfig)
  }

  // From before to after the request's own fields are set, and exactly these if the cache had seen
  // every other update.
  ghost predicate PatchedAsMerged(cache: map<Id, Object>, id: Id, callbackURL: Option<string>, config: Option<Overrides>,
                                  before: Object, after: Object)
  {
    && IsActive(before.status.phase) && after.status == before.status
    && after.spec.callbackURL == (if callbackURL.Some? then callbackURL.value else before.spec.callbackURL)
    && (config.None? ==> after.spec.config == before.spec.config)
    && (config.Some? ==>
          && id in cache
          && (Overridden(before.spec.config, after.spec.config, config.value)
              <==> UpToDate(cache[id].spec.config, before.spec.config, config.value)))
  }

  lemma MergeCommitted(cache: map<Id, Object>, id: Id, callbackURL: Option<string>, config: Option<Overrides>, c: Commit)
    requires Merged(cache, id, callbackURL, config).Ok?
    requires NothingLost(c) && c.purpose == PatchSpec(Merged(cache, id, callbackURL, config).value)
    ensures PatchedAsMerged(cache, id, callbackURL, config, c.before.value, c.after.value)
  {
    assert OnlyPatchChanged(c.before.value.spec, c.after.value.spec, c.purpose.patch);
  }

  // A committed patch does what was asked exactly if the cache was up to date: the store's own
  // writes lose nothing, the merge before them may.
  method PatchMonitor(store: Store, cache: map<Id, Object>, id: Id, callbackURL: Option<string>, config: Option<Overrides>,
                      env: seq<Attempt>)
    returns (r: PatchResult)
    requires ValidServer(store.server) && |env| == ATTEMPTS && forall a :: a in env ==> store.Others(a)
    modifies store
    ensures ValidServer(store.server) && Later(old(store.server), store.server)
    ensures !r.Patched? ==> Silent(store.me, store.server.log, |old(store.server).log|)
    ensures r.Patched? ==>
              && |store.server.log| > |old(store.server).log|
              && var c := store.server.log[|store.server.log| - 1];
              && c.author == store.me && c.id == id && c.before.Some? && c.after == Some(r.obj)
              && PatchedAsMerged(cache, id, callbackURL, config, c.before.value, r.obj)
    ensures r == NothingToPatch || r == InvalidConfig ==> Merged(cache, id, callbackURL, config) == Err(r)
    ensures Merged(cache, id, callbackURL, config).Err? ==>
              r == Merged(cache, id, callbackURL, config).error && store.server == old(store.server)
    ensures r == Inactive ==> WasInactive(store.server.log, |old(store.server).log|, id)
    ensures r == Unknown ==> (config.Some? && id !in cache) || WasAbsent(store.server.log, |old(store.server).log|, id)
    ensures r == Failure ==>
              SomeRequestFails(env) || Writes(store.server.log, id) >= Writes(old(store.server).log, id) + ATTEMPTS
    ensures Merged(cache, id, callbackURL, config).Ok? && Calm(env[0]) ==> AnsweredByPhase(old(store.server), id, r)
    ensures Merged(cache, id, callbackURL, config).Ok? && Calm(env[0]) && !r.Patched? ==> store.server == old(store.server)
  {
    var merged := Merged(cache, id, callbackURL, config);
    if merged.Err? {
      r := merged.error;
    } else {
      r := SubmitPatch(store, id, merged.value, env);
      if r.Patched? {
        MergeCommitted(cache, id, callbackURL, config, store.server.log[|store.server.log| - 1]);
      }
    }
  }

  // A patch that nobody disturbs goes through in three phases, and in no other.
  ghost predicate AnsweredByPhase(s: Server, id: Id, r: PatchResult) {
    if id in s.objects && s.objects[id].status.phase in {Initializing, Waiting, Monitoring} then r.Patched?
    else r == if id in s.objects then Inactive else Unknown
  }

  lemma DecidedByPhase(s: Server, id: Id, patch: Patch, outcome: StoreResult)
    requires var decided := Decided(s.objects, PatchSpec(patch), id);
             if decided.None? then outcome.Done? else outcome == decided.value
    ensures AnsweredByPhase(s, id, Reported(outcome))
    ensures Reported(outcome).Patched? <==> Decided(s.objects, PatchSpec(patch), id).None?
  {
  }

  // What is refused without asking the store: an empty request, a monitor that the cache does not
  // know, and values out of range, given or cached.
  lemma MergeRefuses(cache: map<Id, Object>, id: Id, callbackURL: Option<string>, config: Option<Overrides>)
    ensures Merged(cache, id, callbackURL, config) == Err(NothingToPatch) <==> callbackURL.None? && config.None?
    ensures Merged(cache, id, callbackURL, config) == Err(Unknown) <==> config.Some? && id !in cache
    ensures Merged(cache, id, callbackURL, config) == Err(InvalidConfig) <==>
              && config.Some? && id in cache
              && var c, o := cache[id].spec.config, config.value;
              || (if o.checkIntervalSec.Some? then o.checkIntervalSec.value else c.checkIntervalSec) <= 0
              || (if o.blackoutThresholdSec.Some? then o.blackoutThresholdSec.value else c.blackoutThresholdSec) < 0
              || (if o.silenceThresholdSec.Some? then o.silenceThresholdSec.value else c.silenceThresholdSec) < 0
              || (if o.silenceDBThreshold.Some? then o.silenceDBThreshold.value else c.silenceDBThreshold) > 0.0
              || (if o.startDelayToleranceSec.Some? then o.startDelayToleranceSec.value else c.startDelayToleranceSec) < 0
    ensures var merged := Merged(cache, id, callbackURL, config);
            && (merged.Err? ==> merged.error == NothingToPatch || merged.error == Unknown || merged.error == InvalidConfig)
            && (merged.Ok? ==> merged.value.callbackURL == callbackURL && (merged.value.config.Some? <==> config.Some?))
  {
  }

  method SubmitPatch(store: Store, id: Id, patch: Patch, env: seq<Attempt>) returns (r: PatchResult)
    requires ValidServer(store.server) && |env| == ATTEMPTS && forall a :: a in env ==> store.Others(a)
    modifies store
    ensures ValidServer(store.server) && Later(old(store.server), store.server)
    ensures !r.Patched? ==> Silent(store.me, store.server.log, |old(store.server).log|)
    ensures r.Patched? ==>
              && |store.server.log| > |old(store.server).log|
              && var c := store.server.log[|store.server.log| - 1];
              c.author == store.me && c.id == id && c.after == Some(r.obj) && c.purpose == PatchSpec(patch) && NothingLost(c)
    ensures r != NothingToPatch && r != InvalidConfig
    ensures r == Inactive ==> WasInactive(store.server.log, |old(store.server).log|, id)
    ensures r == Unknown ==> WasAbsent(store.server.log, |old(store.server).log|, id)
    ensures r == Failure ==>
              SomeRequestFails(env) || Writes(store.server.log, id) >= Writes(old(store.server).log, id) + ATTEMPTS
    ensures Calm(env[0]) ==> AnsweredByPhase(old(store.server), id, r) && (!r.Patched? ==> store.server == old(store.server))
  {
    ghost var before := store.server;
    var outcome := store.RetryOnConflict(PatchSpec(patch), id, env);
    RefusalsMean(store.server.log, |before.log|, PatchSpec(patch), id);
    if Calm(env[0]) {
      DecidedByPhase(before, id, patch, outcome);
    }
    r := Reported(outcome);
  }

  function Reported(outcome: StoreResult): PatchResult {
    match outcome
    case Done(obj) => Patched(obj)
    case MonitorNotFound => Unknown
    case MonitorNotActive => Inactive
    case _ => Failure
  }

  // A patch of another field, merged from a cache that has not seen the live threshold, is accepted
  // and takes the threshold back.
  lemma StalePatchReverts(s: Server, author: nat, cache: map<Id, Object>, id: Id, o: Overrides)
    requires id in cache && id in s.objects && IsActive(s.objects[id].status.phase)
    requires o.blackoutThresholdSec.None? && ValidConfig(ApplyConfigOverrides(cache[id].spec.config, o))
    ensures var merged := Merged(cache, id, None, Some(o));
            && merged.Ok? && Edit(PatchSpec(merged.value), s.objects[id]).Submit?
            && var outcome := Written(s, author, PatchSpec(merged.value), id).0;
            && outcome.Accepted?
            && outcome.obj.spec.config.blackoutThresholdSec == cache[id].spec.config.blackoutThresholdSec
  {
  }

  const DEFAULT_CONFIG := Config(10, 30, 30, -50.0, None, 300)

  function Written(s: Server, author: nat, p: Purpose, id: Id): (Outcome, Server)
    requires id in s.objects && Edit(p, s.objects[id]).Submit?
  {
    Put(s, author, p, id, Edit(p, s.objects[id]).obj)
  }

  // A monitor "m" that was created and is being monitored
  const SPEC := Spec("u", "c", DEFAULT_CONFIG, "")
  const MONITORED := Written(Create(EMPTY, 0, "m", "h", SPEC).1, 0, SetPhase(Monitoring), "m").1

  lemma MonitoredServer()
    ensures ValidServer(MONITORED) && |MONITORED.log| == 2
    ensures MONITORED.objects == map["m" := Object(2, "h", SPEC, NEW_STATUS.(phase := Monitoring))]
  {
    var created := Create(EMPTY, 0, "m", "h", SPEC).1;
    StoredValid(EMPTY, 0, CreateObject, "m", created.objects["m"]);
    PutValid(created, 0, SetPhase(Monitoring), "m", Edit(SetPhase(Monitoring), created.objects["m"]).obj);
  }

  // The cache is the server as it was before the last commit.
  ghost predicate OneBehind(cache: map<Id, Object>, s: Server) {
    ValidServer(s) && s.log != [] && cache == Replay(s.log[..|s.log| - 1])
  }

  const ONLY_THE_INTERVAL := Overrides(Some(5), None, None, None, None, None)

  // The cache knows a threshold of 30 seconds; another client has since made it 60. Setting only the
  // check interval makes it 30 again.
  lemma UpdateLost() returns (cache: map<Id, Object>, s: Server)
    ensures OneBehind(cache, s) && "m" in cache && "m" in s.objects
    ensures s.objects["m"].spec.config == DEFAULT_CONFIG.(blackoutThresholdSec := 60)
    ensures var merged := Merged(cache, "m", None, Some(ONLY_THE_INTERVAL));
            && merged.Ok? && Edit(PatchSpec(merged.value), s.objects["m"]).Submit?
            && var outcome := Written(s, 2, PatchSpec(merged.value), "m").0;
            && outcome.Accepted?
            && outcome.obj.spec.config == DEFAULT_CONFIG.(checkIntervalSec := 5, blackoutThresholdSec := 30)
  {
    var p := PatchSpec(Patch(None, Some(DEFAULT_CONFIG.(blackoutThresholdSec := 60))));
    MonitoredServer();
    PutValid(MONITORED, 1, p, "m", Edit(p, MONITORED.objects["m"]).obj);
    cache, s := MONITORED.objects, Written(MONITORED, 1, p, "m").1;
    assert s.log[..2] == MONITORED.log;
    StalePatchReverts(s, 2, cache, "m", ONLY_THE_INTERVAL);
  }

  // ---- The worker's status callback

  datatype Health = Health(video: string, audio: string)

  datatype Statistics = Statistics(totalSegments: Option<int>, blackoutEvents: Option<int>, silenceEvents: Option<int>)

  // Empty strings stand for what the request leaves out.
  datatype StatusRequest = StatusRequest(status: Phase, streamStatus: string, health: Option<Health>, statistics: Option<Statistics>)

  const HEALTHS := {"ok", "warning", "error", "unknown"}
  const STREAM_STATUSES := {"unknown", "scheduled", "live", "ended"}

  predicate ValidRequest(q: StatusRequest) {
    && q.status != Unset && q.status != Scheduled
    && (q.streamStatus == "" || q.streamStatus in STREAM_STATUSES)
    && (q.health.Some? ==>
          && (q.health.value.video == "" || q.health.value.video in HEALTHS)
          && (q.health.value.audio == "" || q.health.value.audio in HEALTHS))
  }

  // What is refused before anything is written
  lemma RequestRefused(q: StatusRequest)
    ensures !ValidRequest(q) <==>
              || q.status == Unset || q.status == Scheduled
              || q.streamStatus !in {"", "unknown", "scheduled", "live", "ended"}
              || (q.health.Some? && q.health.value.video !in {"", "ok", "warning", "error", "unknown"})
              || (q.health.Some? && q.health.value.audio !in {"", "ok", "warning", "error", "unknown"})
  {
  }

  predicate CarriesStats(q: StatusRequest) {
    q.health.Some? || q.statistics.Some? || q.streamStatus != ""
  }

  function Count(q: StatusRequest, field: Statistics -> Option<int>, cached: int): int {
    if q.statistics.Some? && field(q.statistics.value).Some? then field(q.statistics.value).value else cached
  }

  function Text(given: string, cached: string): string {
    if given != "" then given else cached
  }

  // The statistics written: what the request carries, over what is cached
  function MergedStats(cached: Status, q: StatusRequest, now: int): Stats {
    Stats(Count(q, (s: Statistics) => s.totalSegments, cached.totalSegments),
          Count(q, (s: Statistics) => s.blackoutEvents, cached.blackoutEvents),
          Count(q, (s: Statistics) => s.silenceEvents, cached.silenceEvents),
          Text(if q.health.Some? then q.health.value.video else "", cached.videoHealth),
          Text(if q.health.Some? then q.health.value.audio else "", cached.audioHealth),
          Text(q.streamStatus, cached.streamStatus), Some(now))
  }

  // What the request asks for: what it carries is set, with the time; everything else stays.
  ghost predicate StatsAsAsked(a: Status, b: Status, q: StatusRequest, now: int) {
    && b.totalSegments == Count(q, (s: Statistics) => s.totalSegments, a.totalSegments)
    && b.blackoutEvents == Count(q, (s: Statistics) => s.blackoutEvents, a.blackoutEvents)
    && b.silenceEvents == Count(q, (s: Statistics) => s.silenceEvents, a.silenceEvents)
    && (b.videoHealth == if q.health.Some? && q.health.value.video != "" then q.health.value.video else a.videoHealth)
    && (b.audioHealth == if q.health.Some? && q.health.value.audio != "" then q.health.value.audio else a.audioHealth)
    && (b.streamStatus == if q.streamStatus != "" then q.streamStatus else a.streamStatus)
    && b.lastCheckAt == Some(now)
  }

  // The cache agrees with the live statistics wherever the request is silent; an unknown health or
  // stream status is not written.
  ghost predicate StatsUpToDate(cached: Status, live: Status, q: StatusRequest) {
    && (q.statistics.None? || q.statistics.value.totalSegments.None? ==> cached.totalSegments == live.totalSegments)
    && (q.statistics.None? || q.statistics.value.blackoutEvents.None? ==> cached.blackoutEvents == live.blackoutEvents)
    && (q.statistics.None? || q.statistics.value.silenceEvents.None? ==> cached.silenceEvents == live.silenceEvents)
    && ((q.health.None? || q.health.value.video == "") && cached.videoHealth != "" ==> cached.videoHealth == live.videoHealth)
    && ((q.health.None? || q.health.value.audio == "") && cached.audioHealth != "" ==> cached.audioHealth == live.audioHealth)
    && (q.streamStatus == "" && cached.streamStatus != "" ==> cached.streamStatus == live.streamStatus)
  }

  // Only statistics are written, and they are as asked exactly if the cache was up to date.
  ghost predicate StatsMerged(cached: Status, q: StatusRequest, now: int, c: Commit) {
    && c.before.Some? && c.after.Some?
    && var a, b := c.before.value, c.after.value;
    && a.spec == b.spec && a.status.phase == b.status.phase && a.status.podName == b.status.podName
    && (StatsAsAsked(a.status, b.status, q, now) <==> StatsUpToDate(cached, a.status, q))
  }

  ghost predicate StatsMergedLast(cached: Status, q: StatusRequest, now: int, log: seq<Commit>, author: nat, id: Id) {
    && log != [] && log[|log| - 1].author == author && log[|log| - 1].id == id
    && StatsMerged(cached, q, now, log[|log| - 1])
  }

  lemma StatsCommitted(cached: Status, q: StatusRequest, now: int, c: Commit)
    requires NothingLost(c) && c.purpose == SetStats(MergedStats(cached, q, now))
    ensures StatsMerged(cached, q, now, c)
  {
    assert OnlyStatsChanged(c.before.value.status, c.after.value.status, c.purpose.stats);
  }

  // The cache has counted no segments; another callback has since reported 7. Reporting one blackout
  // makes the segments 0 again.
  lemma CountLost(now: int) returns (cache: map<Id, Object>, s: Server)
    ensures OneBehind(cache, s) && "m" in cache && "m" in s.objects
    ensures s.objects["m"].status.totalSegments == 7
    ensures var q := StatusRequest(Monitoring, "", None, Some(Statistics(None, Some(1), None)));
            var outcome := Written(s, 2, SetStats(MergedStats(cache["m"].status, q, now)), "m").0;
            && ValidRequest(q) && CarriesStats(q) && outcome.Accepted?
            && outcome.obj.status.totalSegments == 0 && outcome.obj.status.blackoutEvents == 1
  {
    var p := SetStats(Stats(7, 0, 0, "", "", "", None));
    MonitoredServer();
    PutValid(MONITORED, 1, p, "m", Edit(p, MONITORED.objects["m"]).obj);
    cache, s := MONITORED.objects, Written(MONITORED, 1, p, "m").1;
    assert s.log[..2] == MONITORED.log;
  }

  datatype StatusAnswer = Updated | BadRequest | NotThere | Broken

  // The phase is set unconditionally, then the statistics; those are as asked exactly if the cache was
  // up to date.
  method UpdateMonitorStatus(store: Store, cache: map<Id, Object>, id: Id, q: StatusRequest, now: int,
                             env: seq<Attempt>, env': seq<Attempt>)
    returns (r: StatusAnswer, counted: bool)
    requires ValidServer(store.server) && |env| == |env'| == ATTEMPTS && forall a :: a in env + env' ==> store.Others(a)
    modifies store
    ensures ValidServer(store.server) && Later(old(store.server), store.server)
    ensures r == BadRequest <==> !ValidRequest(q)
    ensures r != Updated ==> !counted && Silent(store.me, store.server.log, |old(store.server).log|)
    ensures r == NotThere ==> WasAbsent(store.server.log, |old(store.server).log|, id)
    ensures r == Updated ==> PhaseSet(store.server.log, |old(store.server).log|, store.me, id, q.status)
    ensures ValidRequest(q) && Calm(env[0]) && id in old(store.server).objects ==> r == Updated
    ensures r == Updated && (q.health.Some? || q.statistics.Some? || q.streamStatus != "") && id in cache && Calm(env'[0]) ==>
              counted
    ensures counted ==>
              && CarriesStats(q) && id in cache && |store.server.log| > |old(store.server).log|
              && StatsMergedLast(cache[id].status, q, now, store.server.log, store.me, id)
  {
    counted := false;
    if !ValidRequest(q) {
      return BadRequest, false;
    }
    assert forall a :: a in env ==> a in env + env';
    r := SetPhaseOf(store, id, q.status, env);
    if r == Updated {
      ghost var mid := store.server;
      assert forall a :: a in env' ==> a in env + env';
      if CarriesStats(q) && id in cache {
        counted := SetStatsOf(store, id, cache[id].status, q, now, env');
      }
      LaterTransitive(old(store.server), mid, store.server);
      PhaseStillSet(mid.log, store.server.log, |old(store.server).log|, store.me, id, q.status);
    }
  }

  // Some commit since is author's and sets the phase of id.
  ghost predicate PhaseSet(log: seq<Commit>, from: nat, author: nat, id: Id, phase: Phase) {
    exists k :: from <= k < |log| &&
                log[k].author == author && log[k].id == id && log[k].purpose == SetPhase(phase) && NothingLost(log[k])
  }

  lemma PhaseStillSet(log: seq<Commit>, log': seq<Commit>, from: nat, author: nat, id: Id, phase: Phase)
    requires log <= log' && PhaseSet(log, from, author, id, phase)
    ensures PhaseSet(log', from, author, id, phase)
  {
    assert forall k :: 0 <= k < |log| ==> log'[k] == log[k];
  }

  method SetPhaseOf(store: Store, id: Id, phase: Phase, env: seq<Attempt>) returns (r: StatusAnswer)
    requires ValidServer(store.server) && |env| == ATTEMPTS && forall a :: a in env ==> store.Others(a)
    modifies store
    ensures ValidServer(store.server) && Later(old(store.server), store.server) && r != BadRequest
    ensures r == NotThere ==> WasAbsent(store.server.log, |old(store.server).log|, id)
    ensures Calm(env[0]) && id in old(store.server).objects ==> r == Updated
    ensures if r == Updated then
              id in store.server.objects && PhaseSet(store.server.log, |old(store.server).log|, store.me, id, phase)
            else Silent(store.me, store.server.log, |old(store.server).log|)
  {
    ghost var before := store.server;
    var outcome := store.RetryOnConflict(SetPhase(phase), id, env);
    RefusalsMean(store.server.log, |before.log|, SetPhase(phase), id);
    r := if outcome.Done? then Updated else if outcome == MonitorNotFound then NotThere else Broken;
  }

  // A failure to write the statistics is only logged.
  method SetStatsOf(store: Store, id: Id, cached: Status, q: StatusRequest, now: int, env: seq<Attempt>) returns (done: bool)
    requires ValidServer(store.server) && |env| == ATTEMPTS && forall a :: a in env ==> store.Others(a)
    modifies store
    ensures ValidServer(store.server) && Later(old(store.server), store.server)
    ensures Calm(env[0]) && id in old(store.server).objects ==> done
    ensures done ==>
              && |store.server.log| > |old(store.server).log|
              && StatsMergedLast(cached, q, now, store.server.log, store.me, id)
  {
    var outcome := store.RetryOnConflict(SetStats(MergedStats(cached, q, now)), id, env);
    done := outcome.Done?;
    if done {
      StatsCommitted(cached, q, now, store.server.log[|store.server.log| - 1]);
    }
  }
}
