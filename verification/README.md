# Verification of log-sump

A Dafny model of the core of log-sump, with proofs about it. It has four parts.

**Listener lifecycle.** Per Docker daemon, a listing loop feeds the registry, the registry
announces new containers to a listener manager, and a tracker stops the listeners of containers
that have vanished. `Registry`, `ContainersListing`, `ListenerManager`, `Dispatcher` and
`ContainerTracker` model the classes with their methods. `Lifecycle` puts all daemons on one event
loop: a step is code without an interleaving point, and any enabled step may come next.
`LifecycleSafety` holds the joint invariant, `LifecycleHistory` and `LifecycleTheorems` what follows
for whole runs, `LifecycleCycles` that the machine covers the methods, `LifecycleRuns` that a daemon
is never kept from its own schedule, and `Respawn` what becomes of a container whose listener ends.

**From the ingest list to a page.** `RedisKeys`, `Streams` and `RedisStore` model the keys and the
Redis commands, `Consumer` and `Trimmer` the background jobs, `Queries`, `PageWalk`, `Filters` and
`RecordsEndpoint` the read side, `ChangingWalk` a walk over both kinds under change, and
`DocumentedWalk` the pagination that the API documentation describes. `LogServer` is the step machine of producers, consumer, trimmer,
clock and failures; `LogServerSafety`, `EndToEnd` and `Delivery` hold what every run guarantees, and
`ServerCycles` that the machine covers the methods.

**Stream merge and sequencing.** `StreamMerge` and `ContainerListener`: two pumps, a queue with
sentinels, and the numbering of the merged lines.

**Host metrics.** `SystemStats`: the `/proc` splitter and the CPU sample history.

`dafny verify dfyconfig.toml` checks everything.

## Conventions

- Identities, names and raw texts are strings; a task is represented by its identity; instants are
  whole milliseconds (stream ids) or microseconds (`ts`).
- The record codec is a pair of functions. That a parsed record can be serialised and parsed back
  (`RoundTrips`) is a hypothesis about the texts pushed in the run, wherever it is needed.
- What Redis, Docker or a parser answers is a parameter. `Fault` and the steps `RedisFails` and
  `StoreFails` cover an error at BLPOP, at LPOP and in a pipeline of which any of the commands took
  effect, with popped items kept or lost.
- Some steps of the lifecycle machine are finer than the code's: a tracker pass takes its snapshot and
  makes its checks up to a verdict without a break (container_tracker.py:52-61), the machine one by
  one, so a state `Scanning` is never observable in the code. Every run of the code is a run of the
  machine, and `RespawnIffInHand` holds at the observable states too: the schedule it builds from
  `Reporting` or `AwaitingStop` makes the checks back to back.
- An error that leaves the listing loop or the tracker ends the process: it passes through both
  `gather`s (app.py:165, app.py:203) and `await run_task` (`__main__.py:53`).
- `log`, `placed`, `pushed`, `settled`, `faults` and `lastTrim` are histories: no step reads them.

## Where the code and its documentation disagree

- `app.py:89-91` says a listener that ends by itself can be respawned by a later discovery. Its
  container stays registered, so it can be announced again only if the tracker happens to have it in
  hand (`RespawnIffInHand`, `StuckIsReachable`, `StuckForever`).
- `app.py:109-117` means to wait for a stopped listener; the error of one that crashed ends the
  process instead (`CrashedStopEndsProcess`, `CrashedStopIsReachable`).
- `containers_listing.py:3-6` says the loop never crashes. JSON without usable `ID` and `Names`, or a program
  that cannot be started, raises an error that is not among those caught (`ListCycles` gives the exact
  condition, `FatalOutcomes` the inputs).
- `docs/api.md:109-117` tells clients to pass back the non-null cursors and promises no duplicates.
  With `kind=both` an exhausted kind starts over (`DocumentedWalkIsExact` gives the exact condition,
  `DocumentedWalkRepeats` an input);
  a walk that narrows `kind` is always exact (`WalkBothIsExact`).
- `queries.py:84` indexes an empty list when a full page has no decodable entry. `WalkIsComplete`
  and `RespondFails` give the exact condition, `FetchCanRaise` an input; `FetchNeverRaises` shows the
  consumer never causes it.
- `schema.py:6-8` calls `seq` the tie-breaker for uniqueness. It starts over with every listener:
  `SeqAscends` speaks of one run, `RunsCollide` says exactly when two runs collide, and a listener
  that is given the log once more repeats it (`ReplayRepeats`).

## Model

| member | source | states |
|---|---|---|
| `Registry.RecordedMeaning` | packages/log-sump-listener/src/log_sump_listener/registry.py:71-75 | a listing stamps exactly its own containers with the current `listing_seq`; every other entry stays as it was |
| `Registry.NewRefsMeaning` | packages/log-sump-listener/src/log_sump_listener/registry.py:70-77 | a listing announces exactly the ids that were not registered, each of them once, with a ref it contains |
| `Registry.DaemonState.Record` | packages/log-sump-listener/src/log_sump_listener/registry.py:68-77 | the bookkeeping loop leaves the state `Listed` and returns the refs `NewRefs` describes |
| `Registry.Registry.StateFor` | packages/log-sump-listener/src/log_sump_listener/registry.py:57-58 | an existing state is returned as it is, a missing one is created empty; the view of no daemon changes and no two daemons share a state |
| `Registry.Registry.Update` | packages/log-sump-listener/src/log_sump_listener/registry.py:60-77 | one listing changes its own daemon only, exactly as `Listed` and `NewRefs` say |
| `Registry.Registry.Forget` | packages/log-sump-listener/src/log_sump_listener/registry.py:83-87 | one id of one daemon is dropped; an unknown daemon or id is no error |
| `ContainersListing.ListContainers` | packages/log-sump-listener/src/log_sump_listener/containers_listing.py:52-63 | a listing succeeds exactly if the command did and every line is blank or a container, and then holds exactly these containers; its error is one the loop does not catch exactly if the program could not be started or the first unreadable line lacks usable keys |
| `ContainersListing.FatalOutcomes` | packages/log-sump-listener/src/log_sump_listener/containers_listing.py:37-39 | a single line without usable keys, and a program that cannot be started, are errors the loop does not catch; the module comment says it never crashes |
| `ContainersListing.RunCycle` | packages/log-sump-listener/src/log_sump_listener/containers_listing.py:36-46 | one cycle: a successful listing is handed on, a caught failure changes nothing, and any other error is fatal |
| `ContainersListing.ListCycles` | packages/log-sump-listener/src/log_sump_listener/containers_listing.py:36-49 | the loop completes all its cycles if and only if none of them is fatal, and otherwise ends at the first fatal one; the registry ends as the successful listings alone leave it, and failed cycles change nothing |
| `ContainersListing.RunContainersListing` | packages/log-sump-listener/src/log_sump_listener/containers_listing.py:28-49 | the same from a registry that may not know the daemon yet |
| `ListenerManager.ListenerManager.SpawnAdmitted` | packages/log-sump-listener/src/log_sump_listener/app.py:66-79 | inside the guarded section a task is created and stored exactly if the container has none |
| `ListenerManager.ListenerManager.Spawn` | packages/log-sump-listener/src/log_sump_listener/app.py:62-85 | undisturbed, `spawn` creates one task exactly if the container has none, and gives its permit back |
| `ListenerManager.ListenerManager.OnDone` | packages/log-sump-listener/src/log_sump_listener/app.py:87-93 | the done-callback drops the entry only if it still holds the very task that ended |
| `ListenerManager.ListenerManager.Stop` | packages/log-sump-listener/src/log_sump_listener/app.py:109-113 | the entry is removed at once, and its task is the one to cancel and await |
| `Dispatcher.Dispatcher.constructor` | packages/log-sump-listener/src/log_sump_listener/app.py:191-200 | one manager per configured daemon, none of them with a task, all of them on one semaphore of the configured size |
| `Dispatcher.Dispatcher.OnNewContainer` | packages/log-sump-listener/src/log_sump_listener/app.py:168-182 | a container is spawned by the manager of its own daemon and by no other; an unknown daemon is an error |
| `Dispatcher.Dispatcher.Discover` | packages/log-sump-listener/src/log_sump_listener/registry.py:60-81 | an update with its callbacks makes exactly the newly found containers active, each with a task of its own; running tasks and other daemons are untouched |
| `Dispatcher.SpawnedAllMeaning` | packages/log-sump-listener/src/log_sump_listener/app.py:62-79 | spawning refs in turn keeps every running task and gives all other containers distinct new ones |
| `ContainerTracker.ContainerTracker.Reconcile` | packages/log-sump-listener/src/log_sump_listener/container_tracker.py:53-69 | one active id is stopped and forgotten exactly if its miss count has reached the threshold |
| `ContainerTracker.ContainerTracker.RunOnce` | packages/log-sump-listener/src/log_sump_listener/container_tracker.py:50-69 | an undisturbed pass, in any iteration order, stops and forgets exactly the vanished active containers and leaves all else, registered but inactive containers included, as it was |
| `LifecycleSafety.StepKeepsCoherent` | packages/log-sump-listener/src/log_sump_listener/app.py:62-117 | every step of lister, spawner, tracker and tasks keeps the joint invariant: announced ids are registered, unspawned and not in the tracker's hands; ids in the tracker's hands are distinct and registered; active ids are registered; every unfinished task is stored or awaited |
| `LifecycleSafety.ListingKeepsCoherent` | packages/log-sump-listener/src/log_sump_listener/registry.py:68-87 | a listing keeps the invariant, whatever the tracker is doing |
| `LifecycleSafety.CreationKeepsCoherent` | packages/log-sump-listener/src/log_sump_listener/app.py:66-79 | the re-check after waiting never finds a task, so one is created, and the invariant is kept |
| `LifecycleSafety.ForgetKeepsCoherent` | packages/log-sump-listener/src/log_sump_listener/container_tracker.py:68-69 | forgetting only after the stopped task has ended keeps the invariant |
| `LifecycleHistory.MissedListingsMeaning` | packages/log-sump-listener/src/log_sump_listener/container_tracker.py:53-59 | the counted misses are the length of the latest unbroken run of successful listings without the container |
| `LifecycleHistory.StepKeepsBalanced` | packages/log-sump-listener/src/log_sump_listener/registry.py:68-87 | every step keeps the account of announcements, forgets, creations and missed listings of every id |
| `LifecycleHistory.StepKeepsJustified` | packages/log-sump-listener/src/log_sump_listener/container_tracker.py:52-69 | no step skips a spawn, meets an unregistered id in the tracker or selects below the threshold |
| `LifecycleTheorems.LifeIsSound` | packages/log-sump-listener/src/log_sump_listener/app.py:62-117 | all of these invariants hold after every schedule of one daemon |
| `LifecycleTheorems.DaemonIsolation` | packages/log-sump-listener/src/log_sump_listener/app.py:168-200 | in any run of any set of daemons, each daemon goes through exactly the states its own steps lead to alone |
| `LifecycleTheorems.SpawnBound` | packages/log-sump-listener/src/log_sump_listener/app.py:62-85 | free permits plus spawns inside the guarded section equal `max_concurrent_listener_spawns` in every reachable state |
| `LifecycleTheorems.AtMostOneListener` | packages/log-sump-listener/src/log_sump_listener/app.py:62-117 | in every reachable state a container has at most one unfinished listener, and each is in `_tasks` under its id or is the one `stop` awaits |
| `LifecycleTheorems.RolesAreDisjoint` | packages/log-sump-listener/src/log_sump_listener/container_tracker.py:50-69 | announced, active and tracked ids are registered; announced ids are neither active nor tracked; an id between pop and forget is not active |
| `LifecycleTheorems.EveryAnnouncementSpawns` | packages/log-sump-listener/src/log_sump_listener/registry.py:79-81 | announcements equal creations plus what is queued; neither early return of `spawn` nor the "not in the registry" branch is ever taken |
| `LifecycleTheorems.AnnouncementConservation` | packages/log-sump-listener/src/log_sump_listener/registry.py:70-87 | announcements minus forgets of an id is 1 if it is registered and 0 otherwise |
| `LifecycleTheorems.ReannouncedIffForgotten` | packages/log-sump-listener/src/log_sump_listener/registry.py:70-87 | a listing announces a container in it exactly if each earlier announcement was followed by a forget |
| `LifecycleTheorems.MissCountIsExact` | packages/log-sump-listener/src/log_sump_listener/container_tracker.py:53-59 | the miss count of a registered container is exactly the number of successful listings since the latest one with it, and there is one, across failed cycles, forgets and re-discoveries |
| `LifecycleTheorems.StopSafety` | packages/log-sump-listener/src/log_sump_listener/container_tracker.py:59-69 | whatever was ever selected to stop had been absent from at least `threshold` successful listings in a row at that moment |
| `LifecycleTheorems.VerdictIsExact` | packages/log-sump-listener/src/log_sump_listener/container_tracker.py:52-61 | a check selects an active container exactly if it was absent from the `threshold` latest successful listings |
| `LifecycleRuns.LifeIsARun` | packages/log-sump-listener/src/log_sump_listener/app.py:62-85 | the converse of isolation: from any live state of any run with at least one permit, every schedule a daemon can follow alone is followed in a continuation; no daemon and no permit can keep it from that |
| `LifecycleRuns.LivedIsReachable` | packages/log-sump-listener/src/log_sump_listener/app.py:185-215 | whatever a daemon can live through from its start is reached in a process |
| `Respawn.StuckForever` | packages/log-sump-listener/src/log_sump_listener/app.py:87-93 | a registered container without listener or announcement that the tracker will not get to stays so in every continuation: never announced, created or forgotten again |
| `Respawn.RespawnIffInHand` | packages/log-sump-listener/src/log_sump_listener/app.py:87-93 | after a listener has ended by itself, some continuation announces its container again if and only if the tracker has the container in hand at that moment and is not waiting for a crashed task; the comment at lines 89-91 promises a respawn |
| `Respawn.StuckIsReachable` | packages/log-sump-listener/src/log_sump_listener/app.py:87-93 | for every container and threshold, a listener that ends right after the first listing leaves its container in a state from which it is never announced again |
| `Respawn.VerdictIsFinal` | packages/log-sump-listener/src/log_sump_listener/container_tracker.py:61-69 | in every continuation, whatever is listed meanwhile, a chosen container stays chosen and unannounced until it is forgotten or the stop raises; it then has neither registration nor listener nor announcement |
| `Respawn.ChosenYetListed` | packages/log-sump-listener/src/log_sump_listener/container_tracker.py:61-69 | a chosen container that the latest listing contains is reached, for every container and threshold |
| `Respawn.CrashedStopEndsProcess` | packages/log-sump-listener/src/log_sump_listener/app.py:114-117 | when a stop returns, the process lives on if and only if the stopped listener did not crash; if it did, nothing is forgotten and no daemon takes another step |
| `Respawn.CrashedStopIsReachable` | packages/log-sump-listener/src/log_sump_listener/app.py:114-117 | a stop awaiting a crashed listener is reached, for every container and threshold |
| `Respawn.FatalListingEndsProcess` | packages/log-sump-listener/src/log_sump_listener/containers_listing.py:37-46 | a cycle of a listing loop ends the process, not just the watching of its daemon, if and only if its outcome is fatal |
| `LifecycleCycles.PassIsLived` | packages/log-sump-listener/src/log_sump_listener/container_tracker.py:50-69 | the machine reaches the outcome `RunOnce` promises, from every coherent state without crashed active listeners and in any order |
| `LifecycleCycles.UpdateIsLived` | packages/log-sump-listener/src/log_sump_listener/registry.py:60-81 | the machine reaches the outcome of an update with its callbacks from every coherent state |
| `RedisKeys.StreamKeyInjective` | packages/log-sump-common/src/log_sump_common/redis_keys.py:20-28 | two stream keys are equal exactly if host and kind are, for all hosts, colons included |
| `RedisKeys.StreamKeyIsNoOtherKey` | packages/log-sump-common/src/log_sump_common/redis_keys.py:13-43 | a stream key is never the ingest list, a status key or an authentication key |
| `RedisKeys.KeyTexts` | packages/log-sump-common/src/log_sump_common/redis_keys.py:13-43 | the keys as they are stored, text for text |
| `Streams.NextIdIsLeast` | packages/log-sump-server/src/log_sump_server/ingest/consumer.py:88-90 | the id XADD assigns is the least one above the last id that does not lag behind the clock |
| `Streams.TrimIsExact` | packages/log-sump-server/src/log_sump_server/ingest/trimmer.py:72-74 | exact MINID trimming leaves a suffix: precisely the entries stamped at the bound or later |
| `Streams.TrimTwice` | packages/log-sump-server/src/log_sump_server/ingest/trimmer.py:72-74 | two trims act as one at the larger bound |
| `Streams.RangeMeaning` | packages/log-sump-server/src/log_sump_server/queries.py:63-70 | XRANGE returns exactly the entries within its bounds, ascending |
| `Streams.RangeResumes` | packages/log-sump-server/src/log_sump_server/queries.py:63-70 | starting exclusively at the p-th entry of a range yields exactly what comes after it |
| `Queries.FetchKindPage` | packages/log-sump-server/src/log_sump_server/queries.py:47-85 | the loop over the raw page computes `Fetch` on the stream of that host and kind, the error of line 84 included; a page holds at most `limit` hits, each of them an entry of the stream stamped no later than `end`, and behind the cursor or no earlier than `start` |
| `Queries.HitsMeaning` | packages/log-sump-server/src/log_sump_server/queries.py:71-82 | the page holds a record for each decodable raw entry and for nothing else |
| `Queries.FetchCanRaise` | packages/log-sump-server/src/log_sump_server/queries.py:84 | a single entry without data, fetched with a page size of one, raises |
| `PageWalk.FetchMeaning` | packages/log-sump-server/src/log_sump_server/queries.py:63-85 | a fetch fails exactly on a full page of undecodable entries; otherwise its hits are those of what it passed and its cursor leaves precisely the rest ahead |
| `PageWalk.WalkIsComplete` | packages/log-sump-server/src/log_sump_server/queries.py:63-85 | a walk over an unchanged stream succeeds if and only if no `limit` consecutive entries in range are undecodable, and then returns every decodable entry in range once, in order |
| `PageWalk.WalkIsTimely` | packages/log-sump-server/src/log_sump_server/queries.py:39-70 | in terms of time: a walk from the start of a range returns exactly the decodable entries stamped from `start` to `end`, both included, once, in order |
| `PageWalk.WalkFetches` | packages/log-sump-server/src/log_sump_server/queries.py:84 | with n decodable entries in range, a walk takes exactly n / limit + 1 fetches |
| `PageWalk.WalkUnderChange` | packages/log-sump-server/src/log_sump_server/queries.py:63-85 | with any additions and trims between fetches, a complete walk ascends strictly, returns only entries stamped within the range and present at one of its fetches, and every decodable one of them present from the first fetch to the last |
| `Consumer.CommandsMeaning` | packages/log-sump-server/src/log_sump_server/ingest/consumer.py:77-90 | a log record is added to its host's log stream and a metric to its host's metric stream, serialised; a malformed item is not added, and the batch keeps its order |
| `Consumer.IngestBatch` | packages/log-sump-server/src/log_sump_server/ingest/consumer.py:74-93 | the commands of the batch, as just described, are added in order; of a failing pipeline any subset of them took effect |
| `Consumer.ConsumeOnce` | packages/log-sump-server/src/log_sump_server/ingest/consumer.py:59-71 | what one cycle takes off the list and adds to the streams, and whether it ends in an error, for a fault at BLPOP, LPOP or within the pipeline and for none |
| `LogServerSafety.ServiceIsGood` | packages/log-sump-server/src/log_sump_server/ingest/consumer.py:51-93 | every step of every run keeps pushes conserved, placements unique and ordered, and each stream the newest part of what was stored in it |
| `EndToEnd.AtMostOnce` | packages/log-sump-server/src/log_sump_server/ingest/consumer.py:51-93 | whatever fails, no push is stored twice, stored pushes keep their order, and each lies in the stream of its own host, logs with logs and metrics with metrics, as the serialised form of the record it carried |
| `EndToEnd.StreamHoldsItsKind` | packages/log-sump-server/src/log_sump_server/ingest/consumer.py:88-90 | the log stream of a host holds log records of that host only, and its metric stream metrics |
| `EndToEnd.StoredInPushOrder` | packages/log-sump-server/src/log_sump_server/ingest/consumer.py:51-93 | what was ever stored in a stream is a subsequence of the valid pushes routed to it |
| `EndToEnd.NothingIsLost` | packages/log-sump-server/src/log_sump_server/ingest/consumer.py:59-93 | without failures, once the list is drained, exactly the valid pushes of each stream were stored in it, in push order, for every batch size |
| `EndToEnd.StreamHoldsNewest` | packages/log-sump-server/src/log_sump_server/ingest/trimmer.py:56-74 | a stream is a suffix of all that was stored in it, and all of it if it was never trimmed |
| `ServerCycles.CycleIsServed` | packages/log-sump-server/src/log_sump_server/ingest/consumer.py:51-93 | the machine reaches every outcome `ConsumeOnce` may have, with any fault and under any clock that does not go back |
| `ServerCycles.SweepIsServed` | packages/log-sump-server/src/log_sump_server/ingest/trimmer.py:56-80 | the machine reaches every outcome `TrimOnce` may have, whichever trims take effect |
| `Trimmer.TrimOnce` | packages/log-sump-server/src/log_sump_server/ingest/trimmer.py:35-80 | a sweep leaves of each configured stream it reaches exactly the entries no older than `retention_days` days (logs) or `metrics_retention_days` days (metrics) of 86,400,000 ms; every other stream is unchanged |
| `Trimmer.TrimStream` | packages/log-sump-server/src/log_sump_server/ingest/trimmer.py:72-80 | a trim that takes effect cuts its stream at the bound, one that does not leaves the stream alone, and neither lets an error out |
| `EndToEnd.TrimEffect` | packages/log-sump-server/src/log_sump_server/ingest/trimmer.py:63-74 | after a trim in a sweep begun at s the stream is exactly the suffix stamped at s minus the retention or later; others, and failed ones, are unchanged |
| `EndToEnd.RetentionBound` | packages/log-sump-server/src/log_sump_server/ingest/trimmer.py:46-74 | at any time no entry is older than its retention plus the time since the stream was last trimmed successfully |
| `EndToEnd.NothingTrimmedEarly` | packages/log-sump-server/src/log_sump_server/ingest/trimmer.py:56-74 | at any time, whatever was stored is still there if its stream was never trimmed or it was not older than the retention at the last trim |
| `EndToEnd.OnlyConfiguredTrimmed` | packages/log-sump-server/src/log_sump_server/ingest/trimmer.py:67-69 | the streams of a daemon that is not configured are never trimmed and hold all that was stored in them |
| `EndToEnd.SweepBound` | packages/log-sump-server/src/log_sump_server/ingest/trimmer.py:56-74 | whatever interleaves with a sweep whose trims work, at its end no entry of either stream of any configured daemon is older than its retention plus the duration of the sweep |
| `EndToEnd.FetchNeverRaises` | packages/log-sump-server/src/log_sump_server/queries.py:84 | on what the consumer wrote, no fetch raises, from any cursor and with any limit |
| `EndToEnd.WalkWhileServing` | packages/log-sump-server/src/log_sump_server/queries.py:63-85 | the guarantees of a walk hold while the consumer, the producers and the trimmer keep working |
| `EndToEnd.EveryRecordArrives` | packages/log-sump-server/src/log_sump_server/queries.py:63-85 | without failures and trims, walking a covering range returns exactly the valid pushed records of that daemon and kind in push order, for any batch size and page limit |
| `Delivery.EverythingIsDelivered` | packages/log-sump-server/src/log_sump_server/routers/records.py:56-88 | the same through `GET /records` for both kinds: the responses hold exactly the pushed records of the daemon that meet the filters, each as often as it was pushed |
| `Delivery.AnswersInKind` | packages/log-sump-server/src/log_sump_server/routers/records.py:54-88 | a request is answered with records of the daemon it names, logs only if it asks for logs only and metrics only if it asks for metrics only |
| `ChangingWalk.WalkBothUnderChange` | packages/log-sump-server/src/log_sump_server/routers/records.py:56-88 | with any additions and trims between the fetches, a complete narrowing walk over both kinds receives the matching part of one list of hits for each kind, which ascends, stems from what was met, and misses nothing decodable in range that stayed from the first request to the last |
| `Delivery.WalkBothWhileServing` | packages/log-sump-server/src/log_sump_server/routers/records.py:56-88 | the same while the consumer, the producers and the trimmer keep working |
| `Filters.ApplyFiltersMeaning` | packages/log-sump-server/src/log_sump_server/queries.py:92-111 | the three passes keep exactly the records that meet every given filter, in order |
| `Filters.ContainsMeaning` | packages/log-sump-server/src/log_sump_server/queries.py:110 | the search test is met exactly by texts with the needle somewhere inside |
| `Filters.SearchMeaning` | packages/log-sump-server/src/log_sump_server/queries.py:108-110 | a search finds the logs whose message contains the text, upper and lower case alike; only an empty text finds a metric |
| `Filters.LowerMeaning` | packages/log-sump-server/src/log_sump_server/queries.py:109-110 | lower-casing turns each upper-case letter into its lower-case one and keeps the rest |
| `Filters.OnlyLogs` | packages/log-sump-server/src/log_sump_server/queries.py:103-110 | a level, or a search text that is not empty, selects logs only |
| `Filters.SortMeaning` | packages/log-sump-server/src/log_sump_server/routers/records.py:83 | the sort yields a ts-ordered permutation |
| `Filters.SortStable` | packages/log-sump-server/src/log_sump_server/routers/records.py:83 | records of one instant keep their order |
| `Filters.StableSortUnique` | packages/log-sump-server/src/log_sump_server/routers/records.py:83 | sortedness and stability determine the result, so any stable sort returns it |
| `Filters.FilterCommutesWithSort` | packages/log-sump-server/src/log_sump_server/routers/records.py:83-84 | filtering after the sort is filtering before it |
| `RecordsEndpoint.EffectiveLimit` | packages/log-sump-server/src/log_sump_server/routers/records.py:51 | the lesser of the maximum and the limit asked for, or the default if none or zero is asked for; with page sizes of at least one, below one exactly if a negative limit is asked for |
| `RecordsEndpoint.GetRecords` | packages/log-sump-server/src/log_sump_server/routers/records.py:51-88 | the handler computes `Respond` from the two streams of its daemon |
| `RecordsEndpoint.RespondFails` | packages/log-sump-server/src/log_sump_server/routers/records.py:56-81 | a request fails exactly if its effective limit is below one or the next full page of a wanted kind is undecodable throughout |
| `RecordsEndpoint.TimelineMeaning` | packages/log-sump-server/src/log_sump_server/routers/records.py:70-84 | a response is sorted by `ts`, a permutation of the matching records of both pages, and logs precede metrics of the same instant, each in stream order |
| `RecordsEndpoint.WalkBothIsExact` | packages/log-sump-server/src/log_sump_server/routers/records.py:56-88 | a client narrowing `kind` to the non-null cursors succeeds if and only if neither kind has a page's worth of undecodable entries in a row ahead, and then receives every matching record of both kinds exactly once |
| `DocumentedWalk.DocumentedWalkEnds` | packages/log-sump-server/src/log_sump_server/queries.py:63-85 | the walk of docs/api.md:109-117 (both kinds, non-null cursors passed back) comes to an end if and only if neither kind has a page's worth of undecodable entries in a row |
| `DocumentedWalk.FirstCommon` | packages/log-sump-server/src/log_sump_server/queries.py:63-85 | it ends after exactly the least common multiple of the fetches either kind takes alone |
| `DocumentedWalk.DocumentedWalkIsExact` | packages/log-sump-server/src/log_sump_server/queries.py:63-85 | when it ends, it has returned each match of both kinds exactly once if and only if, for either kind with a match, the number of fetches the other kind takes alone divides that of this kind; an exhausted kind starts over |
| `DocumentedWalk.DocumentedWalkOnDecodable` | packages/log-sump-server/src/log_sump_server/queries.py:63-85 | with everything decodable and a match in each kind: if and only if both kinds have equally many full pages |
| `DocumentedWalk.DocumentedWalkRepeats` | packages/log-sump-server/src/log_sump_server/queries.py:63 | two log entries and one metric entry, read in pages of two: the documented walk ends and has not returned each match exactly once |
| `DocumentedWalk.RoundsMeaning` | packages/log-sump-server/src/log_sump_server/routers/records.py:56-88 | after any number of responses each kind is at its own place in its own pages, gone through again and again, and these pages' matches are what was received |
| `StreamMerge.MergeStreams` | packages/log-sump-common/src/log_sump_common/transport.py:138-162 | for every schedule of pumps and consumer, the lines of each stream come out in order, the i-th one being its i-th raw line without trailing newlines; some step is always possible; when the loop ends by itself none is missing |
| `StreamMerge.WithoutNewlines` | packages/log-sump-common/src/log_sump_common/transport.py:146-148 | exactly the trailing newlines are cut |
| `ContainerListener.RunContainerListener` | packages/log-sump-listener/src/log_sump_listener/container_listener.py:37-90 | every record describes the line at its position: container, stream name, raw text, instant, and message, level and fields from the JSON object or, without one, the payload, "info" and none; every line with a timestamp has a record |
| `ContainerListener.PartitionMeaning` | packages/log-sump-listener/src/log_sump_listener/container_listener.py:62 | the timestamp is what precedes the first blank, the payload what follows it |
| `ContainerListener.InstantMeaning` | packages/log-sump-listener/src/log_sump_listener/container_listener.py:62-64 | the instant of a line is what the parser makes of its timestamp |
| `ContainerListener.OffsetMeaning` | packages/log-sump-listener/src/log_sump_listener/container_listener.py:64 | every Z of the timestamp is replaced by +00:00, and nothing else is |
| `ContainerListener.SeqIsPosition` | packages/log-sump-listener/src/log_sump_listener/container_listener.py:37-51 | the number of a record is the 1-based position of its line, dropped lines included |
| `ContainerListener.SeqAscends` | packages/log-sump-listener/src/log_sump_listener/container_listener.py:37-51 | numbers increase strictly within one listener run |
| `ContainerListener.RunsCollide` | packages/log-sump-listener/src/log_sump_listener/container_listener.py:37-51 | two runs on one container ship records of the same host, name, id, `ts` and `seq` if and only if they read lines of the same timestamp at the same position |
| `ContainerListener.ReplayRepeats` | packages/log-sump-listener/src/log_sump_listener/container_listener.py:38-51 | a listener started again reads the log from its beginning and, given the lines in the same order, ships every earlier record once more under the same number |
| `ContainerListener.StampedIsShipped` | packages/log-sump-listener/src/log_sump_listener/container_listener.py:63-68 | every line with a timestamp is shipped |
| `ContainerListener.ShippedOfSource` | packages/log-sump-listener/src/log_sump_listener/container_listener.py:41-90 | the raw texts shipped for a source are its timestamped lines, in their order |
| `ContainerListener.Listen` | packages/log-sump-listener/src/log_sump_listener/container_listener.py:26-51 | both together: numbers ascend, each record describes its line, and the raw texts of each source are its own lines without trailing newlines, in order, with only untimestamped ones missing; after a complete run all lines are accounted for |
| `SystemStats.SplitProcSections` | packages/log-sump-listener/src/log_sump_listener/system_stats.py:209-220 | the loop computes the sections `ReadAll` describes |
| `SystemStats.SplitRecovers` | packages/log-sump-listener/src/log_sump_listener/system_stats.py:47-57 | splitting recovers every printed section line by line, with anything before the first marker ignored, if no printed line is a marker |
| `SystemStats.FourSections` | packages/log-sump-listener/src/log_sump_listener/system_stats.py:47-57 | the four sections of the one-trip read come back line by line if none of their lines is one of the four markers |
| `SystemStats.CpuPercentMeaning` | packages/log-sump-listener/src/log_sump_listener/system_stats.py:296-301 | a percentage exists exactly if the total advanced; it is never negative, at most 100 exactly if idle time did not go back, and otherwise the exact busy share |
| `SystemStats.RunSystemStats` | packages/log-sump-listener/src/log_sump_listener/system_stats.py:81-124 | in every cycle the number counts all cycles, the source text names where the figure came from, and the CPU figure is the busy share since the latest earlier sample, the fallback's or absent |
| `SystemStats.LatestBeforeMeaning` | packages/log-sump-listener/src/log_sump_listener/system_stats.py:88-98 | the sample a figure is measured against is the latest earlier successful one, whatever failed in between |

## Left out

- Subprocesses, SSH, signals and the transport commands: the model starts from lines and outcomes.
- HTTP, authentication, catalog, health and administration routes and the command allowlist: single checks.
- JSON and pydantic validation: the codec is abstract; JSON field values are rendered as text, and the numeric fields of a metric are one opaque value.
- redis-py retries, and list items that are neither text nor bytes, which `_ingest_batch` skips.
- Raw stream entries whose id or whole field map is missing: an entry lacks at most its `data` field.
- The conversion of `start` and `end` to milliseconds and their defaults: both are given as whole milliseconds from the epoch on; cursors are well-formed, and an empty cursor text counts as none.
- A count below one is taken to be refused by the Redis client (`InvalidCount`).
- Comparing timezone-naive with aware timestamps in the sort, which Python refuses: `ts` is a number.
- Lower-casing beyond ASCII letters.
- Exhaustion of stream ids: milliseconds are unbounded.
- Different clocks for XADD and for the sweep: one clock that does not go back drives both.
- Joining and re-splitting the text of a `/proc` section: sections are lists of lines.
- Floating-point rounding of the CPU figure: it is a real number.
- The memory, network and disk parsers, `units.py`, `container_stats.py` and the container aggregate: field mapping that adds only small claims.
- Pumps that raise before end of file: `MergeStreams` takes both streams to end, or the consumer to be cancelled.
- Waiting for a permit in the classes: `Spawn`, `OnNewContainer` and `Discover` start with one free; the machine has the waiting.
- Aliasing of `DaemonState`: an object in the classes, a value in the machine.
- Timers and liveness: steps interleave freely, and nothing says when a step is taken.
- Shutdown, and cancellation of the listing loop or tracker in mid-step: an error that ends the process does so at once, and the next start, from an empty registry, is a new run.
