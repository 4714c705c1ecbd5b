/** What a worker has done and seen so far, and what can be told from it. */
module WorkerHistory {
  import opened Wrappers
  import opened Detection

  datatype State = Waiting | Monitoring | Completed | Error

  datatype Kind = Video | Audio

  // Webhook events; Alarm and Recovery are those of blackouts (Video) and silences (Audio).
  datatype Event = Delayed | Started | Ended | Suspended | Resumed | Alarm(kind: Kind) | Recovery(kind: Kind) | SegmentError

  // A delivery that fails puts the worker in the error state, unless it is excused by a shutdown.
  datatype Fate = Delivered | Excused | Fatal

  // What yt-dlp answers when asked whether the stream is live
  datatype Liveness = Unreachable | Live | NotLive

  datatype Entry =
    | Attempt(event: Event, fate: Fate)
    | Became(state: State)
    | ShutdownSeen
    | FoundLive                              // waiting: the stream is live
    | StillWaiting(now: int)                 // waiting: it is not
    | FoundOver                              // waiting: nor will it be
    | Entered(url: string, now: int)         // monitoring begins, with this manifest
    | Relocated(url: string)                 // the manifest URL was looked up again
    | LiveChecked(now: int, found: Liveness)
    | FoundEndList
    | LookedUp                               // the latest segment was looked up
    | CheckedStale(now: int)                 // nothing new: is the stream suspended?
    | Accepted(sequence: nat, url: string, rebaseline: bool, now: int)
    | Analysed(kind: Kind, sample: Sample)
    | CycleFailed(now: int)
    | CycleFine
    | Probed(now: int, found: Liveness)      // a failing cycle asked whether the stream is live

  datatype Journal = Nothing | Then(past: Journal, last: Entry)

  function StateOf(j: Journal): State {
    if j.Nothing? then Waiting
    else if j.last.Became? then j.last.state
    else if j.last.Attempt? && j.last.fate == Fatal then Error
    else StateOf(j.past)
  }

  function Stopped(j: Journal): bool {
    j.Then? && (j.last.ShutdownSeen? || Stopped(j.past))
  }

  function Attempted(j: Journal, e: Event): bool {
    j.Then? && ((j.last.Attempt? && j.last.event == e) || Attempted(j.past, e))
  }

  // The latest of entering monitoring and accepting a segment other than to re-baseline
  function LastProgress(j: Journal): Option<int> {
    if j.Nothing? then None
    else if j.last.Entered? || (j.last.Accepted? && !j.last.rebaseline) then Some(j.last.now)
    else LastProgress(j.past)
  }

  // A suspension was announced since.
  function SuspensionOpen(j: Journal): bool {
    if j.Nothing? || (j.last.Accepted? && !j.last.rebaseline) then false
    else (j.last.Attempt? && j.last.event == Suspended) || SuspensionOpen(j.past)
  }

  // The last accepted segment; before the first one, sequence number 0 and no URL
  function LastSegment(j: Journal): (nat, string) {
    if j.Nothing? then (0, "")
    else if j.last.Accepted? then (j.last.sequence, j.last.url)
    else LastSegment(j.past)
  }

  function AcceptedCount(j: Journal): nat {
    if j.Nothing? then 0 else AcceptedCount(j.past) + (if j.last.Accepted? then 1 else 0)
  }

  function ManifestURL(j: Journal): string {
    if j.Nothing? then "" else if j.last.Entered? || j.last.Relocated? then j.last.url else ManifestURL(j.past)
  }

  // The manifest moved and no segment has been looked up since.
  function ManifestChanged(j: Journal): bool {
    if j.Nothing? || j.last.LookedUp? then false
    else ManifestChanged(j.past) || (j.last.Relocated? && ManifestURL(j.past) != j.last.url)
  }

  function LastLiveCheck(j: Journal): Option<int> {
    if j.Nothing? then None else if j.last.LiveChecked? then Some(j.last.now) else LastLiveCheck(j.past)
  }

  // The first failure since the last cycle that went fine
  function FailingSince(j: Journal): Option<int> {
    if j.Nothing? || j.last.CycleFine? then None
    else if j.last.CycleFailed? && FailingSince(j.past).None? then Some(j.last.now)
    else FailingSince(j.past)
  }

  // Liveness probes since the last cycle that went fine
  function Probes(j: Journal): nat {
    if j.Nothing? || j.last.CycleFine? then 0 else Probes(j.past) + (if j.last.Probed? then 1 else 0)
  }

  // Attempts of a segment error alert since the last cycle that went fine
  function SegmentErrors(j: Journal): nat {
    if j.Nothing? || j.last.CycleFine? then 0
    else SegmentErrors(j.past) + (if j.last.Attempt? && j.last.event == SegmentError then 1 else 0)
  }

  // What the detector of one kind has been given
  function Heard(j: Journal, kind: Kind): History {
    if j.Nothing? then NoSamples
    else if j.last.Analysed? && j.last.kind == kind then After(Heard(j.past, kind), j.last.sample)
    else Heard(j.past, kind)
  }

  function Events(j: Journal): seq<Event> {
    if j.Nothing? then []
    else if j.last.Attempt? then Events(j.past) + [j.last.event]
    else Events(j.past)
  }
}

/** The worker described by its history alone: every decision is taken by looking back at all that
  * happened. Inputs are what yt-dlp, the manifest, ffmpeg, the webhook, the clock and a shutdown
  * request answer at each point; a script that runs out leaves the run pending.
  */
module WorkerSpec {
  import opened Wrappers
  import opened Detection
  import opened WorkerHistory

  // Times are in nanoseconds.
  const SECOND := 1_000_000_000
  const SUSPENSION_ALERT_THRESHOLD := 10 * SECOND
  const SEGMENT_ERROR_THRESHOLD := 60 * SECOND
  const LIVE_CHECK_INTERVAL := 300 * SECOND

  datatype Config = Config(delayThreshold: Option<int>, blackoutThreshold: real, silenceThreshold: real)

  function Threshold(cfg: Config, kind: Kind): real {
    if kind == Video then cfg.blackoutThreshold else cfg.silenceThreshold
  }

  // over: the stream was live, or is not going to be
  datatype WaitInput = WaitInput(
    stop: bool, stopTick: bool, live: Liveness, over: bool, now: int, startedFate: Fate, delayedFate: Fate, endedFate: Fate)

  datatype Segment = Segment(sequence: nat, url: string, duration: real)

  datatype Verdict = Verdict(black: bool, silent: bool)

  // None stands for an error.
  datatype AnalysisInput = AnalysisInput(
    stopFetch: bool, endList: Option<bool>, endedFate: Fate,
    latest: Option<Segment>, staleTime: int, suspendedFate: Fate,
    fetched: bool, stopSegment: bool, saved: bool, verdict: Option<Verdict>,
    acceptTime: int, resumedFate: Fate, videoFate: Fate, audioFate: Fate)

  datatype CycleInput = CycleInput(
    stopTop: bool, liveTime: int, live: Liveness, endedFate: Fate,
    refreshes: seq<Option<string>>, stopRefresh: bool, stopAnalysis: bool,
    analysis: AnalysisInput, errorTime: int, probe: Liveness, probeFate: Fate, stopWait: bool)

  // One round of the main loop
  datatype Visit = Visit(stop: bool, waits: seq<WaitInput>, manifest: Option<string>, entered: int, cycles: seq<CycleInput>)

  datatype Outcome = Pending | ReturnsNil | ReturnsError

  function Sent(j: Journal, e: Event, fate: Fate): Journal {
    Then(j, Attempt(e, fate))
  }

  function Polled(j: Journal, raised: bool): Journal {
    if raised then Then(j, ShutdownSeen) else j
  }

  // ---- Waiting

  function DelayDue(j: Journal, cfg: Config, now: int): bool {
    cfg.delayThreshold.Some? && now > cfg.delayThreshold.value && !Attempted(j, Delayed)
  }

  function NotYetLive(j: Journal, cfg: Config, i: WaitInput): (Journal, Outcome) {
    var waited := Then(j, StillWaiting(i.now));
    var warned := if DelayDue(j, cfg, i.now) then Sent(waited, Delayed, i.delayedFate) else waited;
    if !i.over then (warned, Pending)
    else
      var ended := Sent(Then(warned, FoundOver), Ended, i.endedFate);
      if StateOf(ended) == Error then (ended, ReturnsError) else (Then(ended, Became(Completed)), ReturnsNil)
  }

  function WaitStep(j: Journal, cfg: Config, first: bool, i: WaitInput): (Journal, Outcome) {
    if StateOf(j) == Error then (j, ReturnsError)
    else
      var top := Polled(j, i.stop);
      if Stopped(top) then (top, ReturnsNil)
      else
        var ticked := if first then top else Polled(top, i.stopTick);
        if Stopped(ticked) then (ticked, ReturnsNil)
        else
          match i.live
          case Unreachable => (ticked, Pending)
          case NotLive => NotYetLive(ticked, cfg, i)
          case Live =>
            var started := Sent(Then(ticked, FoundLive), Started, i.startedFate);
            if StateOf(started) == Error then (started, ReturnsError) else (Then(started, Became(Monitoring)), ReturnsNil)
  }

  function Wait(j: Journal, cfg: Config, first: bool, script: seq<WaitInput>): (Journal, Outcome)
    decreases |script|
  {
    if script == [] then (j, Pending)
    else
      var (next, outcome) := WaitStep(j, cfg, first, script[0]);
      if outcome.Pending? then Wait(next, cfg, false, script[1..]) else (next, outcome)
  }

  // ---- Monitoring

  function LiveCheck(j: Journal, i: CycleInput): (Journal, Outcome) {
    var last := LastLiveCheck(j);
    if last.Some? && i.liveTime - last.value < LIVE_CHECK_INTERVAL then (j, Pending)
    else
      var checked := Then(j, LiveChecked(i.liveTime, i.live));
      if i.live != NotLive then (checked, Pending)
      else
        var ended := Sent(checked, Ended, i.endedFate);
        if StateOf(ended) == Error then (ended, ReturnsError) else (Then(ended, Became(Completed)), Pending)
  }

  function Refreshed(j: Journal, urls: seq<Option<string>>): Journal
    decreases |urls|
  {
    if urls == [] then j
    else Refreshed(if urls[0].Some? then Then(j, Relocated(urls[0].value)) else j, urls[1..])
  }

  predicate Overdue(j: Journal, now: int) {
    LastProgress(j).None? || now - LastProgress(j).value >= SUSPENSION_ALERT_THRESHOLD
  }

  function StaleChecked(j: Journal, now: int, fate: Fate): Journal {
    var checked := Then(j, CheckedStale(now));
    if Overdue(j, now) && !SuspensionOpen(j) then Sent(checked, Suspended, fate) else checked
  }

  function Alerted(j: Journal, kind: Kind, due: Option<Alert>, fate: Fate): Journal {
    if due.None? then j else Sent(j, if due.value == Raised then Alarm(kind) else Recovery(kind), fate)
  }

  function Detected(j: Journal, cfg: Config, kind: Kind, sample: Sample, fate: Fate): Journal {
    var analysed := Then(j, Analysed(kind, sample));
    Alerted(analysed, kind, Due(Heard(analysed, kind), Threshold(cfg, kind)), fate)
  }

  // An analysed segment, new or at a new manifest
  function Processed(j: Journal, cfg: Config, rebaseline: bool, s: Segment, verdict: Verdict, i: AnalysisInput): (Journal, bool) {
    var accepted := Then(j, Accepted(s.sequence, s.url, rebaseline, i.acceptTime));
    var announce := !rebaseline && SuspensionOpen(j);
    var resumed := if announce then Sent(accepted, Resumed, i.resumedFate) else accepted;
    if announce && StateOf(resumed) == Error then (resumed, false)
    else
      var video := Detected(resumed, cfg, Video, Sample(verdict.black, s.duration), i.videoFate);
      (Detected(video, cfg, Audio, Sample(verdict.silent, s.duration), i.audioFate), true)
  }

  function Followed(j: Journal, cfg: Config, rebaseline: bool, s: Segment, i: AnalysisInput): (Journal, bool) {
    var (sequence, url) := LastSegment(j);
    if s.sequence < sequence || (s.sequence == sequence && s.url == url) then
      var checked := StaleChecked(j, i.staleTime, i.suspendedFate);
      (checked, StateOf(checked) != Error)
    else if !i.fetched then (j, false)
    else
      var polled := Polled(j, i.stopSegment);
      if Stopped(polled) then (polled, true)
      else if !i.saved || i.verdict.None? then (polled, false)
      else Processed(polled, cfg, rebaseline, s, i.verdict.value, i)
  }

  // False: the cycle fails.
  function Analysis(j: Journal, cfg: Config, i: AnalysisInput): (Journal, bool) {
    var polled := Polled(j, i.stopFetch);
    if Stopped(polled) then (polled, true)
    else
      match i.endList
      case None => (polled, false)
      case Some(true) =>
        var ended := Sent(Then(polled, FoundEndList), Ended, i.endedFate);
        if StateOf(ended) == Error then (ended, false) else (Then(ended, Became(Completed)), true)
      case Some(false) =>
        if i.latest.None? then (polled, false)
        else Followed(Then(polled, LookedUp), cfg, ManifestChanged(polled), i.latest.value, i)
  }

  function ProbeDue(j: Journal, now: int): bool {
    FailingSince(j).Some? && now - FailingSince(j).value >= SEGMENT_ERROR_THRESHOLD && Probes(j) == 0
  }

  // True: monitoring is over.
  function ErrorHandled(j: Journal, now: int, probe: Liveness, fate: Fate): (Journal, bool) {
    if StateOf(j) == Completed then (j, true)
    else
      var failed := Then(j, CycleFailed(now));
      if !ProbeDue(failed, now) then (failed, false)
      else
        var probed := Then(failed, Probed(now, probe));
        match probe
        case Unreachable => (probed, false)
        case Live => (Sent(probed, SegmentError, fate), false)
        case NotLive =>
          var ended := Sent(probed, Ended, fate);
          (if StateOf(ended) == Error then ended else Then(ended, Became(Completed)), true)
  }

  // What a cycle does once it knows that it is to analyse
  function Analysing(j: Journal, cfg: Config, i: CycleInput): (Journal, Outcome) {
    var (analysed, fine) := Analysis(j, cfg, i.analysis);
    if fine then Waited(Then(analysed, CycleFine), i)
    else
      var (handled, over) := ErrorHandled(analysed, i.errorTime, i.probe, i.probeFate);
      if over then (handled, if StateOf(handled) == Error then ReturnsError else ReturnsNil)
      else Waited(handled, i)
  }

  function Waited(j: Journal, i: CycleInput): (Journal, Outcome) {
    var polled := Polled(j, i.stopWait);
    (polled, if Stopped(polled) then ReturnsNil else Pending)
  }

  function Cycle(j: Journal, cfg: Config, i: CycleInput): (Journal, Outcome) {
    if StateOf(j) == Error then (j, ReturnsError)
    else
      var top := Polled(j, i.stopTop);
      if Stopped(top) then (top, ReturnsNil)
      else
        var (checked, outcome) := LiveCheck(top, i);
        if outcome.ReturnsError? then (checked, ReturnsError)
        else if StateOf(checked) == Completed then (checked, ReturnsNil)
        else
          var refreshed := Polled(Refreshed(checked, i.refreshes), i.stopRefresh);
          if Stopped(refreshed) then (refreshed, ReturnsNil)
          else
            var ready := Polled(refreshed, i.stopAnalysis);
            if Stopped(ready) then (ready, ReturnsNil) else Analysing(ready, cfg, i)
  }

  function Cycles(j: Journal, cfg: Config, script: seq<CycleInput>): (Journal, Outcome)
    decreases |script|
  {
    if script == [] then (j, Pending)
    else
      var (next, outcome) := Cycle(j, cfg, script[0]);
      if outcome.Pending? then Cycles(next, cfg, script[1..]) else (next, outcome)
  }

  function Monitor(j: Journal, cfg: Config, v: Visit): (Journal, Outcome) {
    if v.manifest.None? then (j, ReturnsError)
    else Cycles(Then(j, Entered(v.manifest.value, v.entered)), cfg, v.cycles)
  }

  // ---- The main loop

  function Round(j: Journal, cfg: Config, v: Visit): (Journal, Outcome)
    requires StateOf(j) == Waiting || StateOf(j) == Monitoring
  {
    if StateOf(j) == Waiting then Wait(j, cfg, true, v.waits) else Monitor(j, cfg, v)
  }

  function Main(j: Journal, cfg: Config, visits: seq<Visit>): (Journal, Outcome)
    decreases |visits|
  {
    if visits == [] then (j, Pending)
    else
      var polled := Polled(j, visits[0].stop);
      if Stopped(polled) || StateOf(polled) == Completed then (polled, ReturnsNil)
      else if StateOf(polled) == Error then (polled, ReturnsError)
      else
        var (next, outcome) := Round(polled, cfg, visits[0]);
        match outcome
        case Pending => (next, Pending)
        case ReturnsError => (Then(next, Became(Error)), ReturnsError)
        case ReturnsNil => Main(next, cfg, visits[1..])
  }

  function Run(cfg: Config, noTmpDir: bool, visits: seq<Visit>): (Journal, Outcome) {
    if noTmpDir then (Nothing, ReturnsError) else Main(Nothing, cfg, visits)
  }
}
