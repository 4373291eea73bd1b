# Browser-headless: a verified model

A Dafny model of the parts of the headless-browser capture service that carry
its guarantees: the coverage sweep, the Redis job protocol and its worker, the
browser pool, the local job store, the two event loops that collect a page load,
and, smaller, the rate limiter, the resource summary and the cookie header.

What is an algorithm or a state-changing object in the service is a method or a
class here, proved against a specification. What is a protocol between several
tasks (pool, queue, worker) is a state machine whose steps are the single shared
accesses or Redis commands; its theorems speak of every run, with every
interleaving, crash, lost reply and cancellation.

`dafny verify dfyconfig.toml` checks everything.

## Modules

| module | subject |
|---|---|
| `Coverage` | JavaScript coverage: sort, sweep with a stack, reference per offset |
| `CrossingRanges` | what the sweep makes of ranges that cross |
| `CoverageReports` | the report over all scripts and stylesheets |
| `JobQueue` | producers, stream, consumer group, workers and result keys as one state machine |
| `JobViews` | what polls of a queued job are served, from the writes to its key |
| `JobRounds` | one job all the way through that state machine, and why none is stuck |
| `ResultKept` | when an acknowledged job's result stays readable |
| `JobResults` | retries, the stored document, the view served |
| `Dispatch` | the worker's read loop and its permits |
| `BrowserPool` | checkouts, drops and instance managers |
| `PoolManagers` | what a manager did to stand where it does, and what a failed checkout saw |
| `PoolDrains`, `PoolErrors` | which instances can still drain, and when a checkout fails |
| `JobStore` | the in-memory job map, lazily swept |
| `JobLives` | what polls of a local job are served, from the operations of the run |
| `Collect` | the two collect loops |
| `CollectLaws`, `CollectReports` | when both stop or fail, and what they report |
| `LeanAgrees`, `LeanInterleaves` | which outcomes other streams can bring about, and when the two loops agree |
| `RateLimiting` | the token bucket |
| `Resources`, `Duplicates`, `Initiators`, `ResourceSummary` | what is derived from the resource list |
| `Cookies` | the cookie header |
| `Tallies`, `Ranking`, `Sets`, `Strings`, `Wrappers` | counters and groups in maps, sorted and cut lists, sizes, strings, options |

## Where the code and its comments disagree

The model follows the code. Each of these is a theorem with a concrete run or input, and one
that says exactly when the code does what the comment says.

- `src/browser/mod.rs:6762-6765` says that mis-nested ranges are under-counted. They can be
  over-counted: 15 offsets against 10 (`CrossingRanges.CrossingRangesOverCount`). For every two
  ranges that cross, `CrossingRanges.CrossingPair` gives both figures and when they are equal.
- `src/worker.rs:540-543` says that a redelivered entry never loses the final result. It can:
  when a delivery outlives the visibility timeout and is reclaimed while it runs, the second
  delivery's `running` marker replaces an acknowledged result, for as long as that delivery takes
  or, if it dies, until the TTL (`ResultKept.ReclaimLosesResult`); and when an XADD that took effect
  is reported as failed, the producer's clean-up deletes the result (`ResultKept.CleanupLosesResult`).
  Nothing else loses it (`ResultKept.KeptExactlyWhen`).
- `src/pool.rs:14-18` and `src/pool.rs:359-360` say that at most one instance is unavailable at a
  time. The status leaves Active before the token is taken, so every instance can be out at once
  (`BrowserPool.EveryInstanceCanBeOut`); the promise holds exactly for pools of one
  (`BrowserPool.AtMostOneOutExactlyWhen`). What the token serializes is drain and replacement.
- `src/pool.rs:16-18` promises that a voluntary recycle drains first. A caller cancelled while it
  waits for the browser handle (`src/pool.rs:286`) was counted but is never uncounted
  (`PoolDrains.CancelledRun`). From then on no drain of that instance can read zero, and from every
  other state one can (`PoolDrains.DrainsExactlyWhen`).
- `src/pool.rs:252-254` says that a checkout fails only when no instance is active. The scan loads the
  statuses one by one, so with two instances taking turns it can find each out while the other is up;
  and after four tries in which the chosen instance left service before the re-check it fails with all
  of them back (`PoolErrors.FailedTries`). That at some moment of the failing call no instance was
  active holds in every run exactly for pools of at most one (`PoolErrors.ErrMeansOutageExactlyWhen`).
- `src/browser/mod.rs:5309-5313` says that 3xx documents are skipped for the document timing. A
  collection reports one (`CollectReports.RedirectIsReported`) exactly when the last document it handled
  is one (`CollectReports.RedirectReportedExactlyWhen`); some request makes it do so exactly when there
  is one among the events (`CollectReports.RedirectPossibleExactlyWhen`).
- `src/browser/mod.rs:4777-4778` gives both loops one exit policy, so that both paths follow it. The
  lean loop can still leave on a quiet gate while the full one, kept awake by another stream, hears a
  load event (`LeanAgrees.QuietExitDiffers`). `LeanInterleaves.OutcomesExactly` tells from the
  lifecycle and response events alone what other streams can make of a page load,
  `LeanInterleaves.AgreesExactlyWhen` when they can make no difference, and
  `LeanInterleaves.UntiedAgreesExactlyWhen` and `LeanInterleaves.AgreesAlwaysExactlyWhen` for which
  requests they never can, without and with ties.
- `src/browser/mod.rs:1901-1902` says that the initiator walk is capped at 100 hops. It stops after
  101 (`Initiators.LadderDepth`): the depth stays within 100 exactly when at most 101 URLs, the first
  included, are reachable (`Initiators.Walk`).
- A job of the local store that finishes after its own record expired, but before the sweep
  (`JobStore.LateFinishRun`), is served again until a whole TTL later (`JobStore.LateFinishStays`);
  nothing else sets the lazily swept store apart (`JobStore.LazyIsEagerExactlyWhen`).

## Model

| member | source | states |
|---|---|---|
| Coverage.ComputeJsCoverage | src/browser/mod.rs:6715-6771 | For every list of functions: `total` is the largest end of a positive-length range; `used` is the sweep's sum; on ranges that are pairwise nested or disjoint it is the number of offsets whose smallest enclosing range has a positive count (among equal bounds the later one decides); with non-negative starts `used <= total` |
| Coverage.FlattenPoints | src/browser/mod.rs:6716-6727 | Every range of positive length gives exactly one open and one close point, no other range gives any |
| Coverage.SortPoints | src/browser/mod.rs:6739-6749 | The result is ordered by the three-level comparator, is a rearrangement of the input, and keeps the order of points that compare equal |
| Coverage.Sweep | src/browser/mod.rs:6751-6770 | The loop adds up the spans it should, never more than the distance swept, and exactly the used offsets when the ranges are nested or disjoint |
| Coverage.NeverPopsEmpty | src/browser/mod.rs:6759-6767 | For any ranges, before a close point more ranges were opened than closed: the unconditional pop finds an entry |
| Coverage.AllSeen | src/browser/mod.rs:6754-6768 | At the end as many ranges were closed as opened, so the stack ends empty |
| Coverage.OpenNests | src/browser/mod.rs:6704-6708 | With nested or disjoint ranges the sort order opens a range only inside the range on top of the stack |
| Coverage.CloseMatchesTop | src/browser/mod.rs:6762-6766 | With nested or disjoint ranges the range that closes has the bounds of the one on top of the stack |
| Coverage.TopDecides | src/browser/mod.rs:6708-6711 | Between two points the range on top of the stack is the smallest one around each offset, so its count decides |
| Coverage.UsedBelowGrows | src/browser/mod.rs:6754-6758 | Each point adds exactly the used offsets between its predecessor and itself |
| CrossingRanges.CrossingPair | src/browser/mod.rs:6754-6768 | For every two crossing ranges, what the sweep reports and what is used; the two are equal if and only if both ranges ran or neither did, or the one that begins first decides the overlap and the two mistakes cancel |
| CrossingRanges.CrossingRangesOverCount | src/browser/mod.rs:6762-6766 | Two crossing ranges for which the sweep reports 15 and only 10 offsets are used |
| CoverageReports.ScriptEntry | src/browser/mod.rs:5706-5726 | A script gets an entry exactly when it has a real URL and bytes; the entry holds its coverage, and the sweep's sum also where ranges cross |
| CoverageReports.ScriptEntries | src/browser/mod.rs:5703-5726 | The entries are, script by script and in order, those of the scripts that are not skipped, one each; the figures sum them |
| CoverageReports.ComputeCssCoverage | src/browser/mod.rs:6778-6791 | The whole bytes of the used rules, at most the length of the sheet |
| CoverageReports.RuleBytesMean | src/browser/mod.rs:6778-6791 | A used rule covers the whole bytes between its offsets, none if they are in the wrong order; an unused one none |
| CoverageReports.SheetEntries | src/browser/mod.rs:5727-5757 | Exactly one entry for each sheet with rules and a known positive length, whatever order the map is visited in; the figures sum them |
| CoverageReports.SheetSums | src/browser/mod.rs:5734-5757 | Those figures are the sums over the sheets of their lengths and of their used bytes, at most the length |
| CoverageReports.CoverageReport | src/browser/mod.rs:5703-5783 | The figures are those of all entries; the list is their ten first by unused bytes |
| CoverageReports.ReportAddsUp | src/browser/mod.rs:5717-5783 | For every report: in each entry and in the totals unused is what used leaves of the total and the ratio its share, between 0 and 1; the listed entries are ten, most unused bytes first, and none left out has more; the stylesheet figures are the sums over the sheets; used and unused add up to the total, always for stylesheets, and for scripts when no range starts below zero |
| JobResults.CaptureToResult | src/worker.rs:675-709 | The result is that of the first attempt that does not fail with 408, 502, 503 or 504, or of the last one allowed |
| JobResults.TerminalWins | src/queue.rs:126-155 | A document is served as done or failed exactly when it has a terminal field, whatever its phase; which of the two, the code, the data and the error are characterised; without one it is running exactly if its phase says so |
| JobResults.ResultRoundTrips | src/worker.rs:219-245 | What a worker stores is read back as exactly the view its capture stands for; a transient status only after the last retry |
| JobQueue.NothingIsLost | src/worker.rs:515-594 | In every run with crashes, reclaims and failed writes and acks, each entry ever added is undelivered, pending, or was acknowledged after a final result for its id was written or through one of the three drop branches |
| JobQueue.StepKeepsAccounted | src/worker.rs:515-594 | Each single command of a producer or worker keeps that |
| JobQueue.ReadIsNext | src/worker.rs:440-453 | A read never skips an entry of the stream |
| JobQueue.PendingIsReclaimable | src/worker.rs:455-474 | A pending entry is still in the stream, so it can be reclaimed once idle for the visibility timeout, also with delete-on-ack |
| JobQueue.NeverQueuedAgain | src/queue.rs:283-331 | Once a worker has written a result key, no poll of any later state of any run is served `queued`; a minted id names one entry at most |
| JobViews.ServedExactly | src/queue.rs:283-350 | In every run a job is served for exactly a whole TTL after the last write to its key: as queued if that was the marker of its producer, as running if it was the one of a worker, as done or failed if it was a result |
| JobViews.MarkerFirst | src/queue.rs:283-331 | In every run the entry of a minted job is in the stream only after its marker was confirmed, and a marker is cleaned up only after an XADD reported as failed |
| JobViews.AnyoneCanStop | src/worker.rs:11-14 | A producer or a delivery can stop at any point of any run, and all that Redis holds stays |
| JobRounds.AttemptsDecide | src/worker.rs:675-709 | Attempts fed the outcomes one after the other, up to the one that decides, end with the result of that one |
| JobRounds.DeliveryCompletes | src/worker.rs:515-594 | The list of commands made of parse, marker (whatever its reply), one attempt for each outcome up to the deciding one, write and ack leaves exactly that one's result under the job's key for a whole TTL, clears its entry from the pending list, and from the stream if so configured, and changes nothing else |
| JobRounds.DropsComplete | src/worker.rs:515-594 | A delivery without a readable job, or whose result cannot be serialized, is acknowledged as dropped for that reason and writes nothing |
| JobRounds.EveryJobCanEnd | src/worker.rs:440-594 | From every reachable state, whatever crashed or was lost before, the run can go on so that any well-formed entry not yet acknowledged is, with the result its captures decide under its key |
| JobRounds.EveryBadEntryCanEnd | src/worker.rs:440-594 | From every reachable state the run can go on so that an entry without a readable job is acknowledged as dropped |
| JobRounds.EverySubmitCanEnd | src/queue.rs:283-331 | From every reachable state a new job can be submitted under a fresh id and be served the result its captures decide |
| JobRounds.EveryDeliveryCompletes | src/worker.rs:515-594 | Any undisturbed commands of a delivery that ran to its end, with the j-th attempt fed the j-th outcome, are that list for the outcome that decides, and have that effect |
| ResultKept.KeptWithoutOverlap | src/worker.rs:535-593 | For every run and entry: if the entry is never reclaimed while an earlier delivery of it is running (and a reported XADD failure was not applied), then from its write until the TTL the key of the acknowledged, finished job holds a final result, whatever happens to other entries |
| ResultKept.ShortRunsNeverOverlap | src/worker.rs:457-474 | Deliveries of an entry that end within the visibility timeout never overlap |
| ResultKept.KeptExactlyWhen | src/worker.rs:540-543 | Results are kept in every run if and only if deliveries end within the visibility timeout and a reported XADD failure was not applied |
| ResultKept.KeptMeansServed | src/queue.rs:334-350 | A kept result is served by the poll as done or failed |
| ResultKept.ReclaimLosesResult | src/worker.rs:540-549 | A run in which a reclaimed entry's `running` marker replaces an acknowledged result |
| ResultKept.CleanupLosesResult | src/queue.rs:323-328 | A run in which the producer's clean-up deletes an acknowledged result |
| Dispatch.PermitsAccounted | src/worker.rs:280-370 | In every run running jobs, free permits and the loop's own reservation make up the capacity, and entries asked for never exceed the permits at hand |
| Dispatch.DispatchNeverBlocks | src/worker.rs:313-389 | Spawning a fetched or reclaimed entry never waits for a permit, at most `capacity` jobs run, an idle loop goes on exactly while fewer do, and the shutdown acquire succeeds exactly when none runs |
| Dispatch.AsksForAllFree | src/worker.rs:292-333 | A read or reclaim asks for exactly as many entries as jobs held no permit for when the loop last counted, at least one |
| Dispatch.FetchedAreSpawned | src/worker.rs:313-356 | In every run each entry fetched is handed to one job or about to be; the jobs that run are those started and not ended |
| Dispatch.EveryBatchStarts | src/worker.rs:313-356 | Whatever a read or a reclaim answers, up to all it asked for, is started without any job ending |
| Dispatch.LeftByShutdown | src/worker.rs:280-305 | The loop is left by a shutdown and nothing else, which is noticed while it waits for a permit or a read, never with a batch in hand; only a drain is drained or times out |
| Dispatch.DrainEnds | src/worker.rs:372-389 | A drain succeeds as soon as the jobs that run have ended |
| BrowserPool.EveryRunIsSound | src/pool.rs:255-442 | Every reachable state satisfies the four invariants below together |
| BrowserPool.StepKeepsAccounted | src/pool.rs:174-185 | Free permits and held ones make up `pages_per_instance`; in_flight is the live checkouts, the callers past the increment and those cancelled at the handle read |
| BrowserPool.StepKeepsSerialized | src/pool.rs:338-389 | An instance is Active exactly when its manager is outside the section from leaving Active to setting it again; the token has at most one holder |
| BrowserPool.NoTriggerLost | src/pool.rs:174-185 | A waiting manager whose instance has served enough has a wake-up stored, or the dropping checkout is between its increment and its notify |
| BrowserPool.OneReplacementAtATime | src/pool.rs:359-377 | At most one manager is between taking the token and the end of its loop body |
| BrowserPool.ZeroDrainIsClean | src/pool.rs:279-287 | When the drain reads zero no checkout is live; any caller that still gets the old browser passed its re-check before the status left Active and was counted only after the drain's last load |
| BrowserPool.CapacityHolds | src/pool.rs:245-249 | Checkouts alive over the whole pool never exceed `pool_size * pages_per_instance` |
| PoolManagers.ManagerFollows | src/pool.rs:320-464 | In every run each manager stands where its own last steps brought it: a voluntary recycle replaces the browser only after a load that read zero or one past the deadline, a load with captures in flight before the deadline stays in the drain, a crash replaces it without any load; the status is down after a crash and draining for a recycle |
| PoolManagers.CountIsEarned | src/pool.rs:394-424 | A recycle for the count follows at least that many drops of checkouts since the browser was last replaced |
| PoolManagers.WakesAreEarned | src/pool.rs:174-185 | A wake-up is stored exactly when, since the manager last took one, a dropped checkout that brought the count to the threshold has notified |
| PoolManagers.SwapSpares | src/pool.rs:429-464 | A voluntary recycle that did not run into its deadline swaps the browser under no capture but one that re-checked before the status left Active and was counted after the drain read zero |
| PoolManagers.ErrHasCause | src/pool.rs:251-296 | A checkout fails only after four re-checks of its own that found the chosen instance out, or after a scan that found each instance out when it looked |
| BrowserPool.EveryInstanceCanBeOut | src/pool.rs:341-364 | For every pool size a run that takes every instance out of service, or all but any one of them |
| BrowserPool.CheckoutFindsNone | src/pool.rs:251-270 | For every pool size a run in which a checkout scans all instances, finds each out and fails |
| BrowserPool.AtMostOneOutExactlyWhen | src/pool.rs:14-18 | At most one instance is ever unavailable if and only if the pool has at most one |
| PoolDrains.LeaksStay | src/pool.rs:284-288 | No step of any run lowers the number of cancelled callers that stay counted in in_flight |
| PoolDrains.CancelledRun | src/pool.rs:284-288 | For every pool that serves anyone, a run in which a caller is cancelled at the handle read |
| PoolDrains.DrainsExactlyWhen | src/pool.rs:429-442 | In every reachable state the run can go on so that a drain of the instance reads zero if and only if no caller of it was cancelled at the handle read |
| PoolDrains.AlwaysDrainsExactlyWhen | src/pool.rs:16-18 | Every instance can be drained to zero in every reachable state if and only if the pool has no instance or no page |
| PoolErrors.FailedTries | src/pool.rs:256-282 | Up to four times over a caller's instance leaves service before the re-check and is back before the next try; after the fourth the checkout can fail with every instance in service |
| PoolErrors.ErrMeansOutageExactlyWhen | src/pool.rs:251-296 | A checkout fails only in a call during which at some moment no instance was active, in every run, if and only if the pool has at most one instance |
| BrowserPool.PickInstance | src/pool.rs:257-266 | The chosen instance is Active and has the most free permits, the last one among equals; none exactly when none is Active; and that is what a scan ends with during which nothing changes |
| JobStore.Store.constructor | src/jobs.rs:96-98 | The store starts empty |
| JobStore.Store.Submit | src/jobs.rs:105-159 | Expired records go; the submit is refused exactly when `max` jobs are active; else the oldest completed record is evicted if the map is full, and only then; the eviction loop ends without reaching its `break` |
| JobStore.Store.Start | src/jobs.rs:177-182 | The record, if still there, is running; nothing else changes |
| JobStore.Store.Finish | src/jobs.rs:204-244 | The record, if still there, gets its outcome and a new expiry; nothing else changes |
| JobStore.Store.Get | src/jobs.rs:247-265 | An expired record is not served, even before the sweep |
| JobStore.Store.PurgeExpired | src/jobs.rs:267-271 | Exactly the unexpired records stay |
| JobStore.CompletedExists | src/jobs.rs:132-137 | With fewer than `max` active jobs a full map holds a completed one |
| JobStore.EveryRunIsSound | src/jobs.rs:100-245 | In every run at most `max` records and active ones, and each record's status and fields fit how far its task has come: done has data and 200, an error no data |
| JobStore.StatusMovesForward | src/jobs.rs:173-245 | From one operation to the next a status stays or moves from queued to running to done or error |
| JobStore.LazyIsEager | src/jobs.rs:113-114 | If no job finishes late the store is, up to expired records, the one that drops each record at the instant it expires: same answers, same evictions |
| JobStore.InStepExactlyWhen | src/jobs.rs:204-213 | One operation keeps the two stores in step exactly unless a job finishes after its own record expired |
| JobStore.LazyIsEagerExactlyWhen | src/jobs.rs:247-271 | Polls after every prefix of a run agree between the two stores if and only if no job of the run finishes late |
| JobStore.LateFinishShows | src/jobs.rs:204-213 | A late finish brings an expired record back, which the other store does not |
| JobStore.LateFinishRun | src/jobs.rs:204-213 | A run with a late finish: submit, start, a whole TTL, finish |
| JobStore.LateFinishStays | src/jobs.rs:204-265 | After a late finish every poll before the new expiry, one TTL later, is served the outcome in whatever run follows, unless the record is evicted; the store that drops expired records at once never serves it again |
| JobLives.SubmittedIsServed | src/jobs.rs:147-182 | After an accepted submit, in whatever run follows without the end of the job or its eviction, every poll for a whole TTL is served: queued until it starts, then running, with its age; and none from then on |
| JobLives.FinishedIsServed | src/jobs.rs:204-265 | A job that ends in time is served its outcome for a whole TTL more, in whatever run follows without its eviction, and not after |
| JobLives.SubmitAdmits | src/jobs.rs:113-146 | In every run a submit is refused exactly when `max` jobs are served as queued or running; one job is dropped exactly when `max` are served in all, one of the oldest done or failed ones; every other job is served as before |
| JobLives.SweepLeavesShown | src/jobs.rs:267-271 | A sweep changes no poll and keeps no record that none is served |
| JobLives.OnlyAcceptedRun | src/jobs.rs:105-182 | In every run the jobs started are among those let in, and each job's task stands where its start and end put it |
| Collect.CollectSummaryLean | src/browser/mod.rs:4834-4931 | On lifecycle and response events the loop is the recursive specification: same exit, time, timing, marks, gates and pending patterns |
| Collect.CollectSummary | src/browser/mod.rs:5149-5530 | On all events the same, and the resource list recorded is that of the events handled |
| CollectLaws.ExitPolicy | src/browser/mod.rs:4771-4801 | For every event list: a collection stops or fails by the deadline; it stops before it only after the first handled load (if the request waits for load) or network-idle event, with no pattern pending, at least 100 ms after that event was handled, at most 500 ms after it or at the last pattern match, and before those 500 ms only after 100 ms without an event |
| CollectLaws.StopsExactly | src/browser/mod.rs:4789-4945 | For every event list: which events a collection handles and when it stops, exactly, from their arrival times, the event it waits for and the responses that serve its patterns |
| CollectLaws.PatternsOneToOne | src/browser/mod.rs:5219-5235 | Before the deadline every requested pattern was served by a real 2xx or 3xx response of its own whose URL contains it; a failure is the first real response outside 200..399 whose URL contains a pattern still waiting |
| CollectReports.MarksAndDocument | src/browser/mod.rs:4861-4928 | Every collection reports the first mark of each kind, and, among the events it handled, the last document below 400 with timing or from a cache, with its whole milliseconds for each phase |
| CollectReports.RecordedMeans | src/browser/mod.rs:5231-5446 | A collection lists exactly the ids of the real requests and responses it handled, each as its last response said, or as a stub |
| CollectReports.RealExactlyWhen | src/browser/mod.rs:5832-5846 | A URL counts exactly when what stands before its first colon is none of the five internal schemes |
| CollectReports.RedirectReportedExactlyWhen | src/browser/mod.rs:5309-5343 | The reported document is a redirect if and only if the last such document handled is one, and it is the documented landing page if and only if not |
| CollectReports.RedirectIsReported | src/browser/mod.rs:5309-5343 | A run whose reported document has status 301 |
| CollectReports.RedirectPossibleExactlyWhen | src/browser/mod.rs:5309-5343 | For events due at different instants, none of which wins a tie, and for either gate: some patterns and timeout make a collection report a redirect if and only if one of the events is a redirect that counts as a document |
| LeanInterleaves.OutcomesExactly | src/browser/mod.rs:4789-4945 | For every list of lifecycle and response events in arrival order, ties included: an outcome is that of some interleaving with other streams if and only if it is possible, which the list alone decides. Possible are the states after any of its prefixes that a loop kept awake reaches, each event before the cap or winning the tie there (the cap is 500 ms past the gate, or the deadline), and after which the loop, left alone, ends no later than the next event is due; and a failure on an event reached that way |
| LeanInterleaves.AgreesExactlyWhen | src/browser/mod.rs:4846-4945 | For every such list: no interleaving with other streams changes the outcome if and only if only one outcome is possible |
| LeanAgrees.LeanAgreesWithFull | src/browser/mod.rs:4846-4945 | Whatever the full loop interleaves, if the lean loop handled no event in the instant its sleep ended: the full loop ends no earlier and hears no less, and the outcome is the same when the lean loop failed, ran to its deadline or handled all its events |
| LeanInterleaves.UntiedAgreesExactlyWhen | src/browser/mod.rs:4789-4801 | For every request and either gate: the loops agree on every list of events without ties if and only if the timeout is at most the quiet window of 100 ms |
| LeanInterleaves.AgreesAlwaysExactlyWhen | src/browser/mod.rs:4789-4801 | For every request and either gate: they agree on every list, with ties, if and only if the timeout is zero |
| LeanAgrees.SameEventsSameCore | src/browser/mod.rs:5149-5539 | The loops reach the same document timing, marks, reported times, gate times and pending patterns whenever they handled the same lifecycle and response events |
| LeanAgrees.ReportedTimesAgree | src/browser/mod.rs:5534-5539 | The two formulas for the reported times agree: the whole milliseconds from `init` to the mark, zero for a mark before it |
| LeanAgrees.QuietExitDiffers | src/browser/mod.rs:4789-4801 | An event of another stream postpones the full loop's quiet exit past a load event the lean loop never handles |
| LeanAgrees.TieDiffers | src/browser/mod.rs:5182-5197 | Events that win a tie with the sleep at the deadline make the loops differ although the lean loop ran to its deadline |
| RateLimiting.RateLimiter.FromEnv | src/rate_limit.rs:28-44 | No limiter for rate 0, else a full bucket of at least one token |
| RateLimiting.RateLimiter.TryAcquire | src/rate_limit.rs:48-66 | A call is admitted exactly when the refilled, capped bucket holds a token, and takes it |
| RateLimiting.LevelIsTightestRoom | src/rate_limit.rs:56-59 | The level at a call is the least, over the windows ending there, of capacity + rate * length less the calls they admitted |
| RateLimiting.AdmittedExactlyWhen | src/rate_limit.rs:48-66 | Call n is admitted if and only if for every earlier-or-equal call k the admitted calls from k on, this one included, are at most capacity + (t_n - t_k) * rate |
| RateLimiting.WindowBound | src/rate_limit.rs:1-25 | No window of calls is admitted beyond capacity + rate * its length |
| Initiators.Walk | src/browser/mod.rs:1918-1932 | On every parent relation, cyclic or not, the walk ends, with the number of distinct URLs above the start, at most 101 |
| Initiators.BuildParents | src/browser/mod.rs:1904-1912 | The parent of a URL is the initiator named by the last resource of that URL that names one |
| Initiators.ComputeInitiatorChainDepth | src/browser/mod.rs:1903-1935 | `None` exactly when no resource has an initiator, else the largest depth of any resource |
| Initiators.ZeroExactlyWhen | src/browser/mod.rs:1892-1895 | The depth of a URL is zero exactly when it has no parent or is its own |
| Initiators.LadderDepth | src/browser/mod.rs:1901-1902 | A straight chain of n links has depth n, up to 101 |
| Duplicates.ExactUrls | src/browser/mod.rs:1964-1990 | The waste sums, over the distinct URLs, all copies but the largest; the list holds the ten most wasteful URLs with two or more copies |
| Duplicates.LikelySameFile | src/browser/mod.rs:1992-2027 | The waste sums, over names and sizes, all distinct URLs but one; the list holds the ten most wasteful ones with two or more URLs |
| Duplicates.SortedUrlsFacts | src/browser/mod.rs:2010-2012 | Sorting and deduplicating lists every URL of the group once, in order |
| Duplicates.BasenameExactly | src/browser/mod.rs:1937-1947 | A URL has a file name exactly when something follows its last slash up to the query or fragment, and that is it |
| Duplicates.CopiesExactly | src/browser/mod.rs:1965-2007 | The first pass puts together exactly the copies of one URL, the second exactly the responses with bytes that share their size and file name |
| Duplicates.WasteIsTheRest | src/browser/mod.rs:1974-1977 | After sorting, the first size is the largest and the rest sum to the waste |
| Duplicates.UrlWasteAddsUp | src/browser/mod.rs:1952-1955 | The waste of the first pass is the total of all bytes minus the largest copy of each URL |
| Duplicates.BuildDuplicateResources | src/browser/mod.rs:1964-2034 | The wasted bytes are those of both passes, complete despite both lists being cut to ten |
| Duplicates.ListsRank | src/browser/mod.rs:1983-2027 | Of the entries with two or more copies at most ten are listed, the most wasteful first, and none left out wastes more |
| ResourceSummary.Accumulate | src/browser/mod.rs:1558-1692 | After the loop every counter and map is exactly the share of the resources it stands for; the largest resource is the first of the largest size |
| ResourceSummary.TopDomains | src/browser/mod.rs:1700-1718 | The list holds the ten hosts with the most bytes, ties by name, each with its exact bytes and count |
| ResourceSummary.BuildResourceSummary | src/browser/mod.rs:1538-1727 | The whole summary: counters, top third-party hosts, top script origins, duplicates and initiator depth |
| ResourceSummary.SummaryConserves | src/browser/mod.rs:1558-1724 | Type bytes sum to the total; type and status counts each sum to n; cache hits, reused and new connections sum to n; protocol counts sum to reused + new; script bytes are at most third-party bytes; ratios lie in [0,1] |
| ResourceSummary.StatusBucketMeans | src/browser/mod.rs:1594-1606 | A status from 100 to 599 is counted under its hundreds, any other as other |
| ResourceSummary.MimeBucketMeans | src/browser/mod.rs:2051-2078 | A type is counted in the first of nine buckets it belongs to, whatever its case |
| ResourceSummary.KeysMean | src/browser/mod.rs:1607-1681 | What each resource is counted under, once and for its bytes: its type, its status class, cached, reused or new, its protocol, its third-party host |
| ResourceSummary.DomainsRank | src/browser/mod.rs:1700-1718 | At most ten hosts are listed, most bytes first and equal ones by name, and none left out has more |
| ResourceSummary.RatiosMean | src/browser/mod.rs:1694-1724 | Each ratio times what it is a ratio of is what it counts |
| Tallies.TallyAt | src/browser/mod.rs:1562-1564 | A counter kept in a map holds exactly what the entries with its key add up to |
| Tallies.TallyConserves | src/browser/mod.rs:1562-1564 | All counters of a map add up to the total of the entries that have a key |
| Strings.ContainsExactly | src/browser/mod.rs:5219-5221 | A URL contains a pattern exactly when it is the pattern with something before and after it |
| Strings.LexExactly | src/browser/mod.rs:1707-1717 | The order of host names: a prefix first, else the smaller character where the two first differ |
| Cookies.PrintThenParse | src/capture.rs:881-893 | Printing clean cookies as section 4.2.1 of RFC 6265 says and parsing gives the same list |
| Cookies.ParsedIsClean | src/capture.rs:881-893 | Whatever the header, parsed names and values are trimmed, without `;`, and names without `=` |
| Cookies.PieceMeans | src/capture.rs:884-891 | A piece without `=` gives no cookie; any other gives the one whose name is what stands before its first `=` and whose value is all the rest, both without the white space around |
| Cookies.PiecesApart | src/capture.rs:881-893 | The pieces between semicolons are read one by one, in order |
| Cookies.RoundTripExactlyWhen | src/capture.rs:879-893 | The round trip holds if and only if every cookie is clean; parsing, printing and parsing again changes nothing |
| Cookies.HeaderBytes | src/browser/security.rs:214-242 | The estimate is the number of bytes in which UTF-8 encodes exactly the header the cookies print to |
| Cookies.EncodeThenDecode | src/browser/security.rs:232-236 | The encoding counted is that of section 3 of RFC 3629: it is read back, and takes as many bytes as the estimate counts for the character |

## Left out

- CDP, Chromium, page formatting, HAR, PDF, screenshots, routing, metrics, logging and configuration parsing: foreign code and plumbing.
- Redis connections, TLS, reconnects and a vanished consumer group: Redis is the stream, the pending list and the key map under the commands used; every reply may be lost whether or not the command was applied.
- MAXLEN trimming of the stream, and keys, entries or groups deleted from outside.
- JobQueue.NeverQueuedAgain and the ResultKept lemmas speak of server-minted ids; other writers of the stream may reuse an id, and then nothing protects the earlier result.
- ResultKept.KeptExactlyWhen: a delivery's life is bounded by a model parameter (`maxRun`), which the service does not enforce; a delivery whose task ended without an ack counts as over.
- JobQueue: encoding jobs and results as JSON; only whether decoding fails is modelled.
- Float rounding, 32- and 64-bit overflow of counters and offsets, relaxed memory ordering, mutex poisoning: reals, naturals, integers and one global order of steps are used instead. NaN and infinite CDP timestamps likewise.
- Pool, queue and worker dispatch are state machines over values rather than classes, because their point is the interleaving; a step is one shared access or one command.
- BrowserPool: launch failures only prolong a replacement, so `relaunch` is one step.
- BrowserPool and PoolManagers: no clock. An age trigger can come at any time, and whether a load of the drain is past its deadline is the step's choice.
- Dispatch: no clock either. How long a read blocks, the reconnects and their backoff are left out, and a failed read leaves the loop idle.
- BrowserPool.CapacityHolds: counts a checkout from its permit to the permit's release, which covers the live ones.
- JobStore: one clock reading for each locked section and a clock that does not go back; `submit` and the sweep read it just before taking the lock. The in-flight counter of the shutdown drain and panics (an error result like any other) are not modelled.
- Collect: whole milliseconds, no time spent in handling an event, events handled in arrival order. The streams only the full loop hears are one kind of event, except requests, which leave a stub in the resource list; the headers, TLS, console, exceptions, sizes and initiators recorded from them, and the exit when every stream ends, are left out.
- CollectReports.RedirectPossibleExactlyWhen: of events due in one millisecond, or that tie with the deadline, where a collection can stop depends on more than the list of documents.
- JobRounds.EveryJobCanEnd, JobRounds.EverySubmitCanEnd and PoolDrains.DrainsExactlyWhen: the run can go on so, not that it must; no fair scheduling is assumed.
- JobRounds.EveryDeliveryCompletes: says nothing of a delivery in the middle of other steps; what interleaving can do is in `JobQueue` and `ResultKept`.
- Library sorts are insertion sorts with the contract of a stable sort (`Coverage`) or of any sort (`Ranking`).
- ResourceSummary: counters that nothing else depends on (compression, cache-control, image formats, source maps, mixed content, cache policy, largest per type); lower-casing is ASCII; URL parsing, hosts are given.
- Duplicates: the printed form of the key of a same-file entry.
- CoverageReports: the event that records stylesheets; lengths and URLs are given.
- Markdown rendering, SSRF host checks, CSP and HSTS parsing, URL redaction and API keys.
