# Verified models of the stream tracker

This project models four parts of the YouTube stream tracker and proves what their code is for.
`Wrappers` holds the two datatypes that all of them use.

1. **Rate limiter** (`VisitorHeap`, `TokenBucket`, `RateLimiter`, `Lru`, `Sweeping`, `Grants`,
   `Evictions`, `Refusals`, `Service`). A bounded map of
   visitors with an array-backed, back-pointered min-heap beside it. The heap's own operations and
   container/heap's `up`, `down`, `Push`, `Pop` and `Fix` are written out; the two maps and the heap
   are shown to stay in step, eviction to be true LRU, and forgetting idle visitors to be invisible
   exactly when the window has at least one nanosecond per token. `Grants` bounds what one visitor is
   let through in any interval, `Evictions` carries that over to runs of the table at any capacity and
   says how many visitors it can serve before evictions matter, `Refusals` says exactly which access
   is let through, by clock readings and earlier answers alone, and `Service` shows that the class's
   runs are these runs.
2. **StreamMonitor objects under optimistic concurrency** (`ApiServer`, `Edits`, `Attempts`, `Store`,
   `Handlers`, `Reconcile`, `Watcher`, `Protocol`, `Fragments`, `Accounting`, `Capacity`, `Scenarios`).
   `ApiServer` is a versioned map with a status subresource and a history of commits, `Edits` what each
   write changes, `Attempts` what one try and several come to among arbitrary commits of others.
   `Store`, `Handlers`, `Reconcile` and `Watcher` are the imperative code. `Protocol` is the same
   steps as one transition system over any number of clients, in which every interleaving, failure
   and crash is a run; `Fragments` ties its runs to `Attempts`. `Accounting` and `Capacity` are
   theorems about all runs, `Scenarios` particular runs that show their conditions to be needed.
3. **Worker** (`Detection`, `WorkerHistory`, `Worker`, `WorkerLaws`, `WorkerRuns`, `WorkerLanguage`,
   `WorkerFacts`, `WorkerChronicle`, `WorkerSamples`).
   `WorkerSpec` describes the worker by its journal alone: each decision looks back at everything
   that happened. The class `Worker` keeps the source's counters, flags and times instead and is
   proved to produce the same journal on the same inputs. The laws of whole runs are theorems about
   the journal. `WorkerFacts` says what each question asked of a journal means entry by entry,
   `WorkerChronicle` tabulates what one cycle writes for given inputs, and `WorkerSamples` which verdicts
   reach which detector over whole runs. yt-dlp, manifest, ffmpeg, webhook outcome, clock and shutdown requests are inputs,
   arbitrary at every point where the code consults them; a run whose inputs end is pending, so each
   theorem covers every finite prefix of every run.
4. **Manifests** (`Hls`, `Dash`, `SegmentTemplate`). Variant and segment choice, the bounded
   end-of-list check against the unbounded lookup, timeline and duration arithmetic over exact
   numbers (section 5.3.9 of ISO/IEC 23009-1), and template filling.

## What the code does not do

Results of the proofs that a reader of the source or its comments may not expect.

- **Webhooks after the end.** `stream.ended` may be attempted twice, and it may be followed by
  `alert.segment_error`. Both come of a manifest that says that the list has ended when that cannot be
  delivered, the failing streak is a minute old and unprobed, and the probe finds the stream over or
  live; the first comes also of a live check that, after monitoring has ended, is due in the next cycle
  and finds the stream over. `EndedTwice` and `SegmentErrorAfterTheEnd` are such runs;
  `EndedTwiceExactly` and `NarrowExactlyWithoutRelapse` say that no other cause exists.
- **Patches.** `UpdateMonitor` itself loses no update, but `PatchMonitor` merges the request into a
  cached configuration and then writes every field of the merge. Another client's update survives
  exactly if the cache had seen it (`PatchMonitor`); `UpdateLost` is a patch of the check interval
  that takes another client's threshold back.
- **Status callbacks** do the same with the statistics: each counter that a request leaves out is
  written back as cached (`UpdateMonitorStatus`; `CountLost` is a callback that loses seven segments).
- **Sweeping with a short window.** With fewer nanoseconds in the window than tokens, `newRateLimiter`
  falls back to one token per second, and a swept bucket is then not yet full (`SweepsVisible`).
- **Evictions at capacity** cost accuracy: each time a visitor leaves the table it can gain a whole
  burst, and no more (`GrantsAtAnyCapacity`). Everybody is kept to the rate exactly if no more visitors
  come than the table has room for (`CapacityDecides`); with one more, a visitor can use up its limit,
  be evicted by the others, and use it up again (`ThrashGrants`, `AlwaysEvicted`).
- **Reconciling while monitors are being created.** The cache and the pods are read one after the
  other. A healthy monitor whose pod comes up after the pods were listed is failed, and a pod whose
  monitor becomes active after the cache was read is deleted (`NewcomersAreHarmed`); a pass spares all
  that is healthy exactly if its two snapshots agree on it (`HealthySparedExactly`).
- **Zombie pods** are never counted: the snapshot holds active monitors only (`DeleteOrphans`).
- **The limit on monitors** and their uniqueness per stream hold if creates start from a cache that is
  caught up, do not overlap, and nobody sets a monitor active that is not (`DisciplineKeepsTheLimit`).
  Each of the three conditions is needed: breaking it alone can break both
  (`StaleCacheExceedsTheLimit`, `OverlapExceedsTheLimit`, `RevivalExceedsTheLimit`). Limit and
  uniqueness hold throughout a run exactly if each write that makes a monitor active finds room, and
  no other for its stream, on the server at that instant (`LimitKeptExactly`).
- **Terminal phases** can be left, exactly by a write that sets an active phase whatever the phase was
  (`ReactivatedExactly`). The monitor can then fail and be reported again: `FailsTwice` is such a run,
  and `NeverReportedTwice` says that nothing else leads to a second report.
- **Number and time in one template.** With both tokens side by side, two segments can share a URL
  when the time goes back while the number goes up (`NumbersCollide`); a character that is no digit
  between them rules that out (`SameFillSeparated`).

## Model

| member | source | states |
|---|---|---|
| HeapOrder.RootIsLeast | internal/httpapi/middleware.go:154-154 | in heap order the first entry is the least recently seen of all, which is what cleanup and eviction look at |
| HeapOrder.RiseStep | internal/httpapi/middleware.go:88-93 | exchanging an entry with an older-than-parent disorder at one place moves the disorder to the parent and makes no other |
| HeapOrder.SinkStep | internal/httpapi/middleware.go:88-93 | exchanging with the older child moves the disorder down and makes no other, for any subheap and starting point |
| VisitorHeap.Heap.Swap | internal/httpapi/middleware.go:89-93 | two entries change places and every back-pointer again equals its entry's position |
| VisitorHeap.Heap.Append | internal/httpapi/middleware.go:95-99 | the entry is last, everything else stays, back-pointers agree |
| VisitorHeap.Heap.RemoveLast | internal/httpapi/middleware.go:101-109 | the last entry leaves with index -1, the others stay where they are |
| VisitorHeap.Heap.Up | internal/httpapi/middleware.go:192-192 | restores heap order when only the entry at one place may be older than its parent |
| VisitorHeap.Heap.Down | internal/httpapi/middleware.go:155-155 | restores order below one place within a prefix, leaves the rest alone, and reports whether anything moved |
| VisitorHeap.Heap.SinkOnce | internal/httpapi/middleware.go:155-155 | one round of it: the only disorder is moved below the older child, nothing beyond the prefix is touched, back-pointers agree |
| VisitorHeap.Heap.Push | internal/httpapi/middleware.go:192-192 | the heap holds exactly one entry more, in heap order with right back-pointers |
| VisitorHeap.Heap.Pop | internal/httpapi/middleware.go:183-183 | removes exactly an entry no younger than any other, marks it removed, keeps order and back-pointers |
| VisitorHeap.Heap.Fix | internal/httpapi/middleware.go:197-197 | restores order after one entry's time changed in either direction |
| TokenBucket.Limiter.Allow | internal/httpapi/middleware.go:261-261 | answers and leaves the bucket as the token bucket's refill-and-take rule says |
| RateLimiter.RateLimiter.constructor | internal/httpapi/middleware.go:131-147 | starts empty and in step, the window shared out among the tokens by the truncating quotient, one token per second where that is not positive |
| TokenBucket.IntervalMeans | internal/httpapi/middleware.go:131-141 | the interval is the whole part of window over limit, with both negative as well, and a second where that is not positive |
| RateLimiter.RateLimiter.Cleanup | internal/httpapi/middleware.go:149-159 | keeps exactly the visitors seen since the cutoff, with their buckets, and maps and heap in step |
| RateLimiter.SurvivorsMean | internal/httpapi/middleware.go:149-159 | a visitor seen at the cutoff stays, one seen earlier does not |
| RateLimiter.RateLimiter.GetLimiter | internal/httpapi/middleware.go:161-200 | a known visitor keeps its very bucket, a new one gets a full one; at most one least recently seen visitor goes and only at capacity; maps and heap stay in step; the fallback is reached only with a limit below one on an empty table |
| RateLimiter.RateLimiter.CountVisitors | internal/httpapi/middleware.go:168-170 | as many visitors as heap entries, the invariant the source comments on |
| RateLimiter.RateLimiter.Serve | internal/httpapi/middleware.go:254-265 | lookup and Allow together answer by that visitor's own bucket and leave every other bucket as it was |
| Lru.LeastRecentlyUsed | internal/httpapi/middleware.go:161-200 | after any run of accesses at increasing times without cleanup, a key is resident exactly if fewer other keys than the limit were accessed since its last access |
| Sweeping.ServeMeansServed | internal/httpapi/middleware.go:161-200 | below capacity, what Serve promises about seen times and buckets leaves exactly the table that the run theorems use |
| Sweeping.CleanupMeansSwept | internal/httpapi/middleware.go:149-159 | what Cleanup promises leaves exactly the swept table |
| Sweeping.IdleRefills | internal/httpapi/middleware.go:131-159 | a bucket idle for a whole window is full again if the window has a nanosecond per token |
| Sweeping.SameAnswers | internal/httpapi/middleware.go:149-200 | from any matching state, for any requests and sweeps in clock order, the swept table answers as one that never forgets |
| Sweeping.SweepsVisible | internal/httpapi/middleware.go:131-159 | for every positive limit with fewer nanoseconds than tokens in the window, negative windows included, there is a run on which a sweep changes an answer |
| Sweeping.SweepsInvisibleExactly | internal/httpapi/middleware.go:131-159 | for every limit but zero: sweeps never change an answer if and only if the limit is negative or at most the window in nanoseconds |
| Grants.GrantsWithin | internal/httpapi/middleware.go:254-265 | requests let through are at most the tokens at hand, a burst for every time the visitor is forgotten, and one per interval of the rate that passes |
| Grants.GrantsInAnyInterval | internal/httpapi/middleware.go:254-265 | so in any interval of any visitor's history at most a burst, another for every time it was swept or evicted within, and elapsed time over the rate's interval |
| Grants.ForgettingIsWorthABurst | internal/httpapi/middleware.go:178-187 | the bound is reached: n evictions can be worth n further bursts at one instant |
| Grants.TableGrants | internal/httpapi/middleware.go:131-200 | for the whole swept table below capacity and any requests of any visitors in clock order: one visitor gets at most the limit plus elapsed over interval |
| Evictions.RunGrants | internal/httpapi/middleware.go:149-200 | for any run of accesses and sweeps of the table at any capacity, whichever of several oldest visitors goes: one visitor is let through at most a burst, another for every time it leaves the table, and one per interval of the rate that passes |
| Evictions.GrantsAtAnyCapacity | internal/httpapi/middleware.go:149-200 | the same for any stretch of any run from the empty table |
| Evictions.RoomForAll | internal/httpapi/middleware.go:161-200 | with no more visitors than the table has room for, a run answers as the table that evicts nobody |
| Evictions.ThrashGrants | internal/httpapi/middleware.go:178-187 | one visitor more, each coming in turn between two volleys of the first, which is the one evicted: it is let through twice its limit, at one instant or with the others later |
| Evictions.CapacityDecides | internal/httpapi/middleware.go:131-200 | with a nanosecond of window per token: whatever n visitors do, each gets at most the limit plus elapsed over interval, if and only if n is at most the capacity (one, where that is not positive) |
| Evictions.AlwaysEvicted | internal/httpapi/middleware.go:178-187 | with the others a nanosecond later the first is the only oldest, and every run on these requests exceeds the rate |
| Refusals.LetThroughExactly | internal/httpapi/middleware.go:254-265 | in any run of the table at any capacity, an access is let through if and only if, counting from no earlier access of its visitor since that last entered the table, nor from this one, would more have been let through than burst plus elapsed time over the interval |
| Service.AnswerAll | internal/httpapi/middleware.go:131-200 | the limiter class, made for a limit, window and capacity and given any sequence of accesses and sweeps, answers as a run of tables; accesses in clock order are let through exactly as `LetThroughExactly` says; with room for all visitors it answers as the table that evicts nobody |
| ApiServer.CurrentVersionUnchanged | internal/k8s/store/store.go:269-281 | however many commits lie between, an object whose version is still current is the object that was read |
| Edits.PutLosesNothing | internal/k8s/store/store.go:375-394 | a submission made from an earlier read is accepted only onto that very object, and then changes only the fields its purpose names; refused otherwise |
| Attempts.TriedKept | internal/k8s/store/store.go:375-394 | under any interference one try commits at most once, on what it had read and losing nothing; a refusal without a commit was the right answer to some live version since |
| Attempts.RetriedKept | internal/k8s/store/store.go:375-394 | the same of any number of tries |
| Attempts.RetriedFails | internal/k8s/store/store.go:375-394 | running out of tries takes as many writes of others to this very monitor; a failure a failed request |
| Attempts.RefusalsMean | internal/k8s/store/store.go:589-612 | not found if and only if the monitor was missing, not active (for a spec patch) if and only if it was inactive, in some live version since |
| Store.Store.Try | internal/k8s/store/store.go:375-386 | answer and server are exactly those of one try as `Attempts` describes it |
| Store.Store.RetryOnConflict | internal/k8s/store/store.go:375-394 | UpdateStatus, UpdatePodName (438-457), UpdateStats (467-523) and UpdateMonitor (589-664): under any interference at most one commit, differing from the version before it only in the method's own fields, a spec patch only on an active monitor; giving up means that others wrote to this monitor at least four times, a failure that a request failed; undisturbed it succeeds |
| Store.Store.UpdateStatusWithCondition | internal/k8s/store/store.go:405-434 | won means exactly one commit of its own from current to next; skipped means that the monitor was gone, in another phase or written to by somebody else meanwhile; undisturbed it wins |
| Store.Store.Create | internal/k8s/store/store.go:154-232 | success leaves exactly the requested object in its initial phase; a failed status write with a rollback that succeeds leaves no object; a duplicate or failed create commits nothing; undisturbed and without a duplicate it succeeds |
| Store.Store.Initialize | internal/k8s/store/store.go:208-225 | the status write either takes effect on the object just created or the object is deleted again |
| Handlers.PatchMonitor | internal/api/handlers.go:598-680 | a committed patch changes exactly the overridden fields if and only if the cached configuration agrees with the live one on all others; it lands only on an active monitor, with status untouched; undisturbed it goes through in the phases initializing, waiting and monitoring and is refused in all others |
| Handlers.MergeRefuses | internal/api/handlers.go:598-660 | what is refused without asking the store: an empty request, a monitor not in the cache, and exactly the values out of range, given or cached |
| Handlers.StalePatchReverts | internal/api/handlers.go:598-680 | any accepted patch that leaves the blackout threshold alone writes the cached threshold over the live one |
| Handlers.UpdateLost | internal/api/handlers.go:598-680 | a server one commit ahead of the cache on which a patch of the check interval alone is accepted and reverts another client's threshold |
| Handlers.UpdateMonitorStatus | internal/api/handlers.go:426-520 | an invalid request writes nothing; otherwise the phase is set under any interference, and written statistics are what was asked for if and only if the cached ones agree with the live ones wherever the request is silent; undisturbed both are written |
| Handlers.RequestRefused | internal/api/handlers.go:426-468 | exactly the requests refused before anything is written, value by value |
| Handlers.StatsCommitted | internal/api/handlers.go:479-510 | that equivalence for one commit, which changes nothing but statistics |
| Handlers.CountLost | internal/api/handlers.go:479-510 | a server one commit ahead of the cache on which a callback reporting one blackout sets the segment count back |
| Protocol.StepKeepsInv | internal/k8s/store/store.go:368-434 | every step of every client keeps: a lossless history, held objects current or out of date, swaps only from active to inactive, each report backed by a commit of its own |
| Protocol.EveryRun | internal/k8s/watcher.go:108-199 | that invariant holds after any interleaving of handlers, reconciler passes, watcher events, deletions, failures and crashes |
| Protocol.AcceptedIsCareful | internal/k8s/store/store.go:426-433 | what is stored when a write is accepted is what its author had read |
| Fragments.OthersInterfere | internal/k8s/store/store.go:368-434 | whatever steps others take in a run, they are interference in the sense of the store's contracts, and leave a client's own task alone |
| Fragments.FragmentIsAttempt | internal/k8s/store/store.go:375-434 | from any reachable state, a client's read and write with any steps of others between them leave the server and the client as one try of the store does |
| Fragments.OperationsBegin | internal/k8s/store/store.go:368-434 | which operations an idle client can begin, and with how many tries |
| Fragments.OperationsGoOn | internal/k8s/store/store.go:208-225 | how a client goes on after each answer to a write, and after one that got lost in a create |
| Accounting.ActivityIsConserved | internal/model/model.go:28-31 | along any history a monitor's activations equal its deactivations plus its present activity |
| Accounting.SwapsAreBounded | internal/k8s/store/store.go:396-434 | in every run, won compare-and-swaps, other endings and present activity of a monitor together are at most the writes that set it active |
| Accounting.ReportsAreBounded | internal/k8s/watcher.go:165-190 | in every run, monitor.error reports of a monitor are at most its won swaps to the error phase, and with its present activity at most the writes that set it active |
| Accounting.NeverReportedTwice | internal/k8s/reconcile.go:155-170 | between any two reports of one monitor, by whatever actors, somebody set it active again |
| Accounting.ReactivatedExactly | internal/k8s/store/store.go:368-394 | in every run, a monitor left inactive by a commit is active again later if and only if a later initial or unconditional status write sets an active phase |
| Scenarios.FailsTwice | internal/k8s/reconcile.go:155-170 | a run in which a monitor fails, is set active again, fails again, and is reported twice |
| Capacity.CheckIsConclusive | internal/k8s/store/store.go:157-170 | under the discipline, finding no duplicate in a lagging cache rules one out on the server |
| Capacity.StepStaysBounded | internal/api/handlers.go:127-162 | every disciplined step keeps the limit, uniqueness, and what a create in progress relies on |
| Capacity.DisciplineKeepsTheLimit | internal/api/handlers.go:127-162 | in every state of a run that observes the three rules at most the limit are active and no two for one stream |
| Capacity.LimitKeptExactly | internal/api/handlers.go:127-162 | in every run, limit and uniqueness hold in all states of the server if and only if every commit that makes a monitor active finds fewer than the limit active and none for the same stream |
| Scenarios.StaleCacheExceedsTheLimit | internal/api/handlers.go:127-162 | with limit one, a second create after the first is finished but from a cache that has seen nothing: two active monitors of one stream, the other two rules observed |
| Scenarios.OverlapExceedsTheLimit | internal/api/handlers.go:127-162 | the same for two overlapping creates, both from a cache that is caught up |
| Scenarios.RevivalExceedsTheLimit | internal/k8s/store/store.go:368-394 | the same for a completed monitor set active again after another was created in its place, creates being caught up and apart |
| Reconcile.Reconciler.FailAndReport | internal/k8s/reconcile.go:155-170 | a report is made exactly when this pass itself moved the monitor to the error phase, by a commit such as the protocol's invariant allows |
| Reconcile.Reconciler.FailMissing | internal/k8s/reconcile.go:146-172 | counts exactly the active monitors without a pod, reports each at most once and only those; the errors are at least the monitors that could not be read and at most those with a failed request; undisturbed, it fails and reports exactly those of them that are still in the phase the snapshot shows, changes only version and phase of these and nothing else |
| Reconcile.Reconciler.DeleteOrphans | internal/k8s/reconcile.go:174-211 | counts exactly the labelled pods without an active monitor, deletes exactly those whose deletion succeeds and counts the others as errors, and never counts a zombie |
| Reconcile.Reconciler.ReconcileStartup | internal/k8s/reconcile.go:94-224 | abandoned passes change nothing; counts are exact and errors accounted for under any interference; undisturbed, only the version and phase of the missing still in their phase change, and all healthy monitors and their pods are spared if and only if the snapshots agree on them; from a caught-up cache and a current list the pass ends with active monitors and labelled pods one to one, monitors that are initializing, waiting or monitoring keeping their pods or being failed, all others losing theirs |
| Reconcile.AgreementReached | internal/k8s/reconcile.go:146-211 | failing the missing and deleting the orphans leaves exactly one pod per active monitor and no labelled pod without one |
| Reconcile.PhasesDecide | internal/k8s/reconcile.go:146-211 | that, phase by phase: what becomes of each monitor and its pod |
| Reconcile.NothingFoundExactly | internal/k8s/reconcile.go:92-94 | one-to-one agreement holds if and only if a pass finds nothing missing and nothing orphaned, so a second pass is idle |
| Reconcile.HealthySparedExactly | internal/k8s/reconcile.go:109-211 | an otherwise undisturbed pass leaves every active monitor that has its pod, and the pod, alone if and only if the list has the pod of each that the cache shows in its live phase, and the cache shows each whose pod is listed |
| Reconcile.NewcomersAreHarmed | internal/k8s/reconcile.go:109-121 | a pod that comes up after the listing, and a monitor that becomes active after the cache was read, break that |
| Watcher.PodWatcher.HandlePodEvent | internal/k8s/watcher.go:108-199 | the pod is deleted exactly if this call won the monitor's swap (and deletion works), a failure reported exactly if the pod failed; the swap is to completed for a succeeded pod and to error for a failed one, from the cached phase, which is initializing, waiting or monitoring, and is a commit such as the protocol's invariant allows; whoever is second does nothing; undisturbed on a current cache it wins |
| Detection.Detector.Process | internal/worker/worker.go:565-618 | also 621-676 for silence: the running sum, start, flag and event count remain functions of the whole history, and the alert returned is the one the history calls for |
| Detection.ReachedMeans | internal/worker/worker.go:579-581 | a run counts as reached exactly if some initial part of it sums to the threshold |
| Detection.ReachedByTotal | internal/worker/worker.go:573-581 | with non-negative durations that is: the trailing run is not empty and its sum has reached the threshold |
| Detection.AlertsAlternate | internal/worker/worker.go:579-612 | alert and recovery strictly alternate starting with an alert, and one is outstanding exactly while the trailing run has reached the threshold |
| Detection.RaisedOncePerRun | internal/worker/worker.go:579-581 | as many alerts as maximal runs that reached the threshold |
| WorkerLaws.CycleSound | internal/worker/worker.go:358-423 | whatever the inputs, one monitoring cycle adds only lawful entries, leaves no owed webhook behind, and returns nil only when completed or shut down |
| WorkerLaws.WaitStepSound | internal/worker/worker.go:227-332 | the same of one round of waiting |
| WorkerLaws.RunSound | internal/worker/worker.go:155-212 | every entry of every run is lawful; nil means completed or shut down, an error means the error state unless there was no working directory |
| WorkerRuns.StatesOnlyAdvance | internal/worker/worker.go:911-916 | along any run the state never goes back in the order waiting, monitoring, completed, error, and error is never left |
| WorkerRuns.AttemptedExactlyWhenOwed | internal/worker/worker.go:154-424 | everywhere in every run a webhook is the next thing to happen if and only if the entry before calls for it, and it is that webhook; none is left owed, none is attempted after a shutdown was noticed |
| WorkerRuns.DelayHasReason | internal/worker/worker.go:287-298 | a delay is announced only after the scheduled start and its tolerance, and only once |
| WorkerRuns.LiveChecksAreApart | internal/worker/worker.go:782-790 | two live checks are at least five minutes apart |
| WorkerRuns.SuspensionsAlternate | internal/worker/worker.go:428-439 | suspended and resumed strictly alternate starting with suspended, one being open exactly while the last is suspended |
| WorkerRuns.SuspensionsHaveReasons | internal/worker/worker.go:532-552 | suspended comes at least ten seconds after the later of entering monitoring and the last accepted segment that was no re-baseline; resumed directly after accepting such a segment |
| WorkerRuns.AlertsFollowDetection | internal/worker/worker.go:554-556 | in any run the blackout (silence) webhooks are exactly those its analysed segments call for by the blackout (silence) threshold, alternate, and number the maximal runs that reached it |
| WorkerRuns.AcceptedInOrder | internal/worker/worker.go:483-535 | accepted sequence numbers never decrease, consecutive accepted segments differ, and totalSegments counts them |
| WorkerRuns.OneProbePerStreak | internal/worker/worker.go:679-729 | at any moment, since the last cycle that went fine: at most one probe, at most one segment error alert directly after it, never within sixty seconds of the first failure |
| WorkerFacts.StateMeans | internal/worker/worker.go:911-916 | the state is that of the last entry that sets it, a webhook lost for good among them |
| WorkerFacts.LastProgressMeans | internal/worker/worker.go:528-535 | progress was last made by entering monitoring or accepting a segment that was no re-baseline |
| WorkerFacts.SuspensionOpenMeans | internal/worker/worker.go:428-439 | a suspension is open if it was announced after the last such segment |
| WorkerFacts.LastSegmentMeans | internal/worker/worker.go:483-500 | the last segment is the last accepted one, re-baselines included |
| WorkerFacts.ManifestChangedMeans | internal/worker/worker.go:373-393 | the manifest has moved if it was looked up at another URL than before, and no segment was looked up since |
| WorkerFacts.FailingSinceMeans | internal/worker/worker.go:679-692 | a streak begins with the first failing cycle after the last that went fine |
| WorkerFacts.ProbesMean | internal/worker/worker.go:693-700 | a streak is probed if a probe was made after the last cycle that went fine |
| WorkerChronicle.CycleChronicled | internal/worker/worker.go:358-423 | one cycle of monitoring writes exactly the entries of a table over its inputs and what was seen before, with all times spelled out |
| WorkerChronicle.CycleEnds | internal/worker/worker.go:358-423 | and ends as a second table says |
| WorkerChronicle.WaitChronicled | internal/worker/worker.go:227-332 | the same of one round of waiting; a delay is announced if and only if it is due and was not announced before |
| WorkerChronicle.VisitsEnd | internal/worker/worker.go:155-212 | what the main loop does when stopped, completed or failed, and without a manifest |
| WorkerSamples.HeardAsGiven | internal/worker/worker.go:554-556 | in every run the blackout detector is given exactly the picture verdicts, and the silence detector the sound verdicts, with the durations, of the segments that get that far, as the inputs gave them |
| WorkerSamples.AlertsFollowInputs | internal/worker/worker.go:554-556 | so blackout webhooks are those that these picture verdicts call for by the blackout threshold, and silence webhooks those that the sound verdicts call for by the silence threshold |
| WorkerLanguage.SpelledExactly | internal/worker/worker.go:154-424 | the recogniser used in the proofs accepts exactly the words of the form delayed? (ended / started alert* (ended (ended / segment_error)?)?)?, and tells the narrower language apart |
| WorkerWebhooks.CycleTells | internal/worker/worker.go:358-423 | what one cycle can add to the webhooks so far, that it leaves the narrower language exactly if it relapses, and says ended a second time exactly if it ends the stream again |
| WorkerWebhooks.RunsSpeakTheLanguage | internal/worker/worker.go:154-424 | the webhooks attempted by any run form a word of that language: started and delayed at most once, at most one more webhook after the first ended |
| WorkerWebhooks.NarrowExactlyWithoutRelapse | internal/worker/worker.go:457-463 | nothing but ended follows ended if and only if no cycle finds the end, fails to deliver it, and then probes a live stream a minute into an unprobed streak |
| WorkerWebhooks.SegmentErrorAfterTheEnd | internal/worker/worker.go:692-716 | a run of two cycles in which a segment error alert follows ended |
| WorkerWebhooks.EndedTwiceExactly | internal/worker/worker.go:358-423 | ended is attempted at most twice in any run, and twice if and only if some cycle finds the end, fails to deliver it, and then probes the stream over a minute into an unprobed streak, or starts after monitoring has ended with a live check that is due and finds the stream over |
| WorkerWebhooks.EndedTwice | internal/worker/worker.go:802-821 | a run for either cause |
| Worker.Worker.CheckSuspension | internal/worker/worker.go:428-439 | the flag and time decide as the whole history does |
| Worker.Worker.CheckLiveStatus | internal/worker/worker.go:802-821 | also 782-790: asks at most every five minutes, and ends monitoring as the history-based description says |
| Worker.Worker.RefreshManifest | internal/worker/worker.go:373-393 | the changed flag means that the manifest moved since the last segment lookup |
| Worker.Worker.ProcessDetection | internal/worker/worker.go:565-676 | attempts exactly the alert that the history of analysed segments calls for |
| Worker.Worker.AnalyzeLatestSegment | internal/worker/worker.go:442-562 | the incremental fields lead to the same journal and result as the history-based analysis; the picture's verdict is added to the blackout detector's history and the sound's to the silence detector's |
| Worker.Worker.HandleSegmentError | internal/worker/worker.go:679-721 | start and sent flag lead to the same probe, webhook and result as the history of failing cycles |
| Worker.Worker.WaitingMode | internal/worker/worker.go:215-333 | the loop with its local flags produces the journal of the history-based waiting mode |
| Worker.Worker.MonitoringMode | internal/worker/worker.go:336-424 | the loop produces the journal of the history-based monitoring mode |
| Worker.Worker.Run | internal/worker/worker.go:155-212 | for all inputs the worker's journal and result are those of the history-based run, and every field still says what the history says |
| Hls.LowestBandwidthVariant | internal/manifest/manifest.go:596-604 | the first variant of least bandwidth |
| Hls.FirstLeast | internal/manifest/manifest.go:596-604 | strictly less than all before it and no more than all after it |
| Hls.ExtractLatestFromMediaPlaylist | internal/manifest/manifest.go:121-148 | the last filled slot, numbered from the playlist's first sequence number |
| Hls.LatestMeans | internal/manifest/manifest.go:121-148 | the filled slot after which all are vacant is the segment, with its duration, its resolved URL and the first sequence number plus its position modulo 2^64 |
| Hls.LatestAdvances | internal/manifest/manifest.go:121-148 | as a live window moves on, past the old latest segment or not, the latest segment's number never goes back, and the same number is the same segment (section 3 of RFC 8216) |
| Hls.CheckIsBoundedLookup | internal/manifest/manifest.go:160-207 | the end-of-list check is the segment lookup cut off after five fetches |
| Hls.LowestIsFollowed | internal/manifest/manifest.go:94-112 | from a master, lookup and check go on where its first variant of least bandwidth leads, and fail where that does not resolve |
| Hls.WalksEnd | internal/manifest/manifest.go:160-207 | where they end: on a media playlist, whose mark the check reports, or with the right error |
| Hls.CheckGuardsLookup | internal/manifest/manifest.go:70-118 | if the check succeeds, the unbounded lookup ends within five fetches on the same media playlist, the one whose mark was reported |
| Hls.DepthExceededExactly | internal/manifest/manifest.go:160-163 | the check gives up exactly when the lookup is still following masters after five fetches |
| Hls.RingNeverReturns | internal/manifest/manifest.go:70-118 | on a ring of masters the lookup would never return, and the check refuses it |
| Dash.SelectSegmentTemplate | internal/manifest/manifest.go:353-377 | the first least-bandwidth representation with a template over all adaptation sets, or the right error |
| Dash.SelectedUnique | internal/manifest/manifest.go:353-377 | that description leaves no choice |
| Dash.FlattenedInOrder | internal/manifest/manifest.go:353-377 | adaptation sets are gone through in order |
| Dash.ScanTimeline | internal/manifest/manifest.go:427-447 | count, start and duration are those of the last segment of the full expansion; fails exactly on a zero duration |
| Dash.ElementExpanded | internal/manifest/manifest.go:429-446 | each element stands for one segment more than it repeats, from its own time if it has one or is the first and else from where the segments before it end |
| Dash.ExpandedContiguous | internal/manifest/manifest.go:433-446 | without explicit times each expanded segment starts where the one before it ends |
| Dash.CountCovers | internal/manifest/manifest.go:477-500 | the estimate is the one count of segments that covers the presentation with none to spare, and one segment for an empty presentation |
| Dash.BuildLatestDASHSegment | internal/manifest/manifest.go:409-475 | number, time, duration and filled template of the last segment by the fields of the template, numbers beginning at 1 where no start is given, from the expansion or from the estimate, with every error case |
| Dash.NumbersTellApart | internal/manifest/manifest.go:409-475 | two latest segments with different numbers, from templates that agree in their media text, have different filled templates if that has a number, and no time or one kept apart from the number, or neither number nor time goes back |
| Dash.NumbersCollide | internal/manifest/manifest.go:409-475 | two manifests, one starting at number 1 and one at 11, whose latest segments have different numbers and the same filled template |
| Dash.EstimatesTellApart | internal/manifest/manifest.go:448-475 | without a timeline different numbers always have different filled templates, a number token given |
| SegmentTemplate.Decimal | internal/manifest/manifest.go:507-510 | the digits written denote the number |
| SegmentTemplate.Pieces | internal/manifest/manifest.go:502-505 | every template falls into literals and tokens, tokens taken as early as possible |
| SegmentTemplate.LeftmostUnique | internal/manifest/manifest.go:502-505 | in only one way |
| SegmentTemplate.FillSubstitutes | internal/manifest/manifest.go:504-524 | filling substitutes those tokens and nothing else; substituted text is not scanned again |
| SegmentTemplate.EachToken | internal/manifest/manifest.go:505-523 | what each of the four tokens stands for |
| SegmentTemplate.DecimalUnique | internal/manifest/manifest.go:507-510 | a number is written in the only way that has no leading zero |
| SegmentTemplate.FillInjectiveInNumber | internal/manifest/manifest.go:504-524 | with no time token, or equal times, two filled strings are equal if and only if the numbers are or there is no number token |
| SegmentTemplate.SameFillOnward | internal/manifest/manifest.go:504-524 | unless one of number and time is written longer and the other shorter, two filled strings are equal if and only if the values agree in every token the template has |
| SegmentTemplate.SameFillSeparated | internal/manifest/manifest.go:504-524 | the same for all numbers and times, negative ones included, if the template has a character that is no digit between any number and any time |
| SegmentTemplate.NumberAndTimeCollide | internal/manifest/manifest.go:504-524 | a template and two different pairs of number and time that fill to the same string |

## Left out

- ThrashGrants: at one instant it is about the runs in which the first visitor is the one evicted of several equally old; `AlwaysEvicted` needs no such choice, but excludes a limit of one with a window of one nanosecond.
- FragmentIsAttempt: it is about one try; a call of several is so many fragments in a row. Not every interference the store's contracts allow for is a run of clients.
- RateLimiter.Serve: lookup and Allow are one step with one clock reading; the source releases its lock in between and reads the clock in both.
- Limiter.Allow: the bucket arithmetic of golang.org/x/time/rate is over exact numbers, without its floating-point rounding; container/heap is written from its documented behaviour. Neither library is part of this model's sources.
- RateLimiter.constructor: a limit of zero is excluded: the source divides by it.
- CheckGuardsLookup: the web is fixed between check and lookup, and the URL is not that of a DASH manifest.
- RetryOnConflict: every accepted write makes a new version; that the API server drops writes without effect is not modelled. Back-off times are not modelled.
- Create: conversion failures between typed and unstructured objects are not modelled, nor are metadata and labels other than the stream hash.
- HandlePodEvent: exit code, reason and message of a failed pod, and whether a callback URL is set, do not enter; a report is the decision to send one.
- ReconcileStartup: an expired deadline during a pass is a failing request of that pass; a pod deletion is modelled as taking effect at once.
- Protocol: clients begin one operation at a time, a process with several goroutines being several clients; pods are not part of the transition system. The three index lookups behind a count or listing of active monitors are one look at the cache.
- Run: each point of the code reads the clock once, where the source sometimes reads it twice in a row; yt-dlp, manifest, ffmpeg and webhook calls are their answers. Status reports to the gateway, webhook payloads and temporary files do not enter.
- ProcessDetection: the source has one copy for blackouts and one for silence; the model has one, on a detector object for each.
- BuildLatestDASHSegment: the filled template is not resolved against the base URL; integers are unbounded and quotients exact, where the source has 64-bit integers and floats; the presentation duration is an input, its parser is not part of the model.
- The stored stream hash is opaque: distinct URLs are treated as having distinct hashes only in so far as the code compares hashes.
- HTTP routing, authentication, URL validation, SSRF checks, webhook signing and its fixed retries, configuration, logging and deployment files are not modelled.
- List, its filter and its paging are not modelled.
