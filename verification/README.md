# NexusGate in Dafny

A model of the parts of NexusGate, an LLM gateway, that carry state machines, protocols or arithmetic,
and proofs about them. `dafny verify dfyconfig.toml` checks everything (Dafny 4.11).

Objects whose methods change them are classes; each method is proved against a function on plain values,
and what the program promises is proved about that function, over every input, every run or every
interleaving. Redis is maps of keys with an expiry moment; it shares the callers' clock, except under the
rate limiter, where its clock is its own. Providers, models, embedders, searches, random draws and clock
readings are arguments, so everything holds for any of them.

| file | models |
|---|---|
| `TokenBucket.dfy` | the rate limiter's Lua script: what a run of hits admits |
| `CircuitBreaker.dfy` | the per-replica breaker, as an object and as a function of its history |
| `BreakerCluster.dfy`, `BreakerProtocol.dfy` | the shared breaker: its methods on three expiring keys, and any number of replicas interleaved Redis command by Redis command |
| `Router.dfy`, `RouterProperties.dfy` | the walk down a fallback chain with retries, driven by the breakers |
| `Streams.dfy` | a stream after its first token: relay, running estimate, settlement |
| `BoundedList.dfy`, `SemanticCache.dfy` | the semantic cache's keys, and the plain bounded list with expiry they add up to |
| `FixedWindows.dfy`, `Headings.dfy`, `Packing.dfy` | chunking: sliding windows, the heading stack, packing with overlap |
| `Jobs.dfy`, `JobDelivery.dfy` | ingestion jobs: the service and the inline queue, and at-least-once delivery with dying workers |
| `StateGraph.dfy`, `ResearchAgent.dfy` | the agent's graph engine, its five nodes, and the path of a run |
| `InferenceGate.dfy` | callers of the inference gate interleaved over asyncio's semaphore |
| `Rollout.dfy` | the canary rollout on one replica |

## Where the code and what is said about it differ

The model follows the code. These are proved, with a concrete run where one is needed:

- Two replicas can probe at once, although the comment at app/gateway/breaker_cluster.py:93 says that one
  probes and the rest wait. There are two causes: a replica's own timer takes it out of OPEN without claiming
  the probe key (`BreakerProtocol.OverlappingProbes`), and the probe key ends before the probe is answered
  (`BreakerProtocol.ProbeKeyRunsOut`). `BreakerProtocol.LeavesOpenExactly` says exactly when a replica leaves
  OPEN, and `BreakerProtocol.OneReplicaProbes` that these two are the only ways for a second one to.
- One replica can send two probes under one probe key (`BreakerProtocol.OneReplicaProbesTwice`), although
  app/gateway/breaker_cluster.py:13 calls it the right to send one: a refresh that finds the circuit half-open
  and some failures counted takes HALF_OPEN over again, and with it frees the probe
  (app/gateway/circuit_breaker.py:75-77). `BreakerProtocol.SecondProbeExactly` says exactly when.
- A stream that is abandoned while it is the probe of a half-open circuit gives the breaker no verdict, and
  without a cluster the deployment is then never called again (`RouterProperties.UnansweredProbeWedges`). It comes
  about with the first token: a streamed probe that is answered is still pending, where a whole answer closes the
  circuit (`RouterProperties.StreamedProbeIsPending`).
- A clock that steps back and forward refills the same seconds twice
  (`TokenBucket.ClockStepBackOverspends`). By the clock's own account of a window's length nothing can be
  overspent if and only if the clock never goes back (`TokenBucket.NoCostsOverspendIffClockForward`); with the
  time that went forward in its place the law of the bucket is exact for every clock
  (`TokenBucket.AdmittedIffEveryWindowFits`), as long as Redis's clock runs at most the 60 spare seconds of the
  key's lifetime ahead of the callers' (`TokenBucket.SpareSecondsCoverSkew`).
- The running word count of a stream equals the recount exactly when the text is tidy
  (`Streams.RunningCountIsRightIffTidy`). The running cost follows the usage on show only until the provider's
  report comes, and from then on stays what it was up to the settlement (`Streams.PriceFollowsUsage`).
- A redelivered job that was DONE becomes FAILED, and is dead-lettered, because its upload is deleted
  before (`Jobs.RedeliveryUndoesDone`), although app/workers/celery_app.py:8-11 calls running it again safe.
  Nor is it for a worker that dies between deleting the upload and saving DONE: that job's document is ingested,
  the job is never DONE again (`JobDelivery.IngestedButNeverDone`), and its redelivery fails it
  (`JobDelivery.IngestedJobFails`). `JobDelivery.DoneAfterUploadIsGone` says exactly when such a job is DONE.
- More callers can wait than `max_queue`, where `wait_for` acquires in a task of its own, as in Python 3.11
  (`InferenceGate.BudgetsCanOverfillTheQueue`): exactly when a caller with a wait budget comes in while a slot
  is free and `max_queue` callers wait (`InferenceGate.QueueHoldsIffNoneOverfills`).

## Model

| member | source | states |
|---|---|---|
| TokenBucket.TokenBucketLimiter.Hit | app/core/rate_limit.py:16-71 | one run of the script: the bucket it stores, the decision, what remains and the whole seconds to wait; no other key's bucket changes |
| TokenBucket.LevelIsTightestWindow | app/core/rate_limit.py:22-40 | over any run from a full bucket, however the callers' clock steps while Redis's lets no key expire before its bucket is full by theirs, the level is the least, over all earlier hits, of capacity plus refill since that hit minus what was admitted since it |
| TokenBucket.AdmittedIffEveryWindowFits | app/core/rate_limit.py:30-35 | over any such run a hit is admitted if and only if in every window ending at it the admitted cost plus its own is within C + r * the time that the callers' clock went forward in the window |
| TokenBucket.NoWindowOverspends | app/core/rate_limit.py:30-35 | no window of such a run admits more than C + r * the time that went forward in it |
| TokenBucket.ElapsedIsLength | app/core/rate_limit.py:30 | with a clock that does not go back that time is the window's length |
| TokenBucket.NoCostsOverspendIffClockForward | app/core/rate_limit.py:30-40 | for given readings of one clock no costs ever overspend C + r * (t_n - t_i) if and only if the readings do not decrease |
| TokenBucket.ExpiryIsInvisible | app/core/rate_limit.py:41 | deleting the key after ceil(C/r)+60 seconds of Redis's clock leaves the level what never deleting it gives if and only if it has not run out, or the bucket would be full by the caller's clock anyway |
| TokenBucket.SpareSecondsCoverSkew | app/core/rate_limit.py:41 | a key that Redis lets expire between two hits was idle long enough to be full, as long as Redis's clock goes at most 60 seconds further between them than the callers' clock goes forward |
| TokenBucket.OneClockAgrees | app/core/rate_limit.py:41 | so with one clock for both, stepping as it may, every sequence of hits is a run the other rows speak of |
| TokenBucket.DenialIsInvisible | app/core/rate_limit.py:33-40 | while no key expires early, after a denied hit the level at a later time is what it would be without it if and only if the clock's forward steps to the hit and on from it add up, as they do for times in order, or the bucket is full anyway |
| TokenBucket.LevelAfterDenials | app/core/rate_limit.py:30-40 | over a run, while nothing is admitted the level is the old one refilled, whatever was denied in between |
| TokenBucket.RetryAfterIsExact | app/core/rate_limit.py:37 | over a run, a denied hit repeated with nothing admitted in between is admitted if and only if cost <= C and the callers' clock went forward (cost - tokens)/r seconds |
| TokenBucket.RetryAfterSecondsAreTight | app/core/rate_limit.py:63-71 | the rounded-up seconds always suffice and one second fewer never does |
| TokenBucket.ClockStepBackOverspends | app/core/rate_limit.py:40 | three hits on a bucket of one with a clock that steps back: two are admitted at one instant, the time that went forward being 5 |
| CircuitBreakers.CircuitBreaker.State | app/gateway/circuit_breaker.py:41-49 | the getter turns OPEN into HALF_OPEN once the cooldown is over and frees the probe |
| CircuitBreakers.CircuitBreaker.AllowRequest | app/gateway/circuit_breaker.py:55-62 | whether a request is let through, and the state afterwards |
| CircuitBreakers.CircuitBreaker.Adopt | app/gateway/circuit_breaker.py:64-77 | the state taken over from the cluster, its timer and its probe |
| CircuitBreakers.CircuitBreaker.RecordSuccess | app/gateway/circuit_breaker.py:79-82 | closed, no failures, no probe |
| CircuitBreakers.CircuitBreaker.RecordFailure | app/gateway/circuit_breaker.py:84-95 | when a failure trips the breaker, and the state afterwards |
| CircuitBreakers.StateFromHistory | app/gateway/circuit_breaker.py:41-95 | after any history, states taken over from a cluster included: the failure count, whether it is CLOSED, when it last opened and whether a probe is in flight are what the history alone says (failures since the last success or take-over, the last opening, a request since it) |
| CircuitBreakers.ClosedIffFewFailures | app/gateway/circuit_breaker.py:41-95 | while nothing is taken over it is CLOSED if and only if fewer than `threshold` failures came in a row, and a probe is in flight only while HALF_OPEN |
| CircuitBreakers.AdmitsExactly | app/gateway/circuit_breaker.py:55-62 | after any such history a request is admitted if and only if the circuit was closed again since it last tripped, or the cooldown since the last opening is over and no probe was taken since |
| CircuitBreakers.UnansweredProbeBlocks | app/gateway/circuit_breaker.py:55-62 | without a state taken over from a cluster, one admission per half-open spell: until a success or failure is recorded nothing more is admitted, however long it takes |
| BreakerCluster.ClusterBreakers.RecordFailure | app/gateway/breaker_cluster.py:122-164 | the shared keys, the local breaker and the reply after all of the call's commands |
| BreakerCluster.ClusterBreakers.RecordSuccess | app/gateway/breaker_cluster.py:148-154 | all three keys gone, local breaker closed |
| BreakerCluster.FailsShowsTheEndingRun | app/gateway/breaker_cluster.py:122-164 | over any failures with no success and no opening in between FAILS shows the longest ending run in which each came less than max(int(window), 1) seconds after the one before, and 0 once so many have passed since the last; the failure that brings the run to the threshold opens the circuit for max(int(cooldown), 1) seconds |
| BreakerCluster.PooledFailureOpensExactly | app/gateway/breaker_cluster.py:137-146 | a failure that trips no breaker by itself opens the circuit for all, and its own breaker, if and only if it brings that run to the threshold |
| BreakerCluster.ClusterBreakers.SyncOne | app/gateway/breaker_cluster.py:86-118 | one deployment's turn: adopt OPEN, claim the probe, or take over the pooled count |
| BreakerCluster.ClusterBreakers.Sync | app/gateway/breaker_cluster.py:68-96 | nothing within the refresh period whichever names the last one read; else one read of all names, then each turn in order |
| BreakerCluster.SyncTreatsEachAlone | app/gateway/breaker_cluster.py:74-96 | a refresh that reads names makes of each one's breaker and keys what they alone decide, and leaves every other as it is |
| BreakerCluster.SyncedCountsOn | app/gateway/breaker_cluster.py:95-96 | after it the next failure of a closed replica trips its breaker if and only if with it all replicas have counted `threshold` |
| BreakerProtocol.PooledAlways | app/gateway/breaker_cluster.py:122-164 | in every state of every interleaving a FAILS count at or over the threshold is held by a call that still owes its `_open` writes; every count that got there is answered by one SET OPEN, made or owed |
| BreakerProtocol.QuietMeansUnderThreshold | app/gateway/breaker_cluster.py:130-145 | whenever no call is in progress FAILS is under the threshold and every burst that reached it had OPEN set |
| BreakerProtocol.OnlyTheWinnerProbes | app/gateway/breaker_cluster.py:106-118 | the replica whose SET NX finds no PROBE key becomes HALF_OPEN, one that finds it changes nothing; an OPEN replica leaves OPEN at its claim if and only if it wins |
| BreakerProtocol.OneWinnerPerProbeKey | app/gateway/breaker_cluster.py:106-118 | between two steps at which a replica wins PROBE there is one at which the first winner's key ends |
| BreakerProtocol.OpenKeyExactly | app/gateway/breaker_cluster.py:148-164 | in every state of every interleaving OPEN is there if and only if a SET OPEN was made less than max(int(cooldown), 1) seconds ago and no success has deleted it since |
| BreakerProtocol.ProbeKeyExactly | app/gateway/breaker_cluster.py:106-116 | PROBE is held if and only if a replica won it less than max(int(probe), 1) seconds ago and neither a success nor a newly opened circuit has ended it since |
| BreakerProtocol.NothingAdmittedAfterRefreshSawOpen | app/gateway/breaker_cluster.py:68-104 | a replica whose last refresh saw OPEN admits nothing until a later refresh, a probe it wins or a success it records |
| BreakerProtocol.LeavesOpenExactly | app/gateway/circuit_breaker.py:41-82 | at any step an OPEN replica leaves OPEN if and only if it wins PROBE, records a success, or its own timer runs out at a request or at a sync that read no OPEN key |
| BreakerProtocol.OneReplicaProbes | app/gateway/breaker_cluster.py:92-118 | from all replicas OPEN, while no success is recorded, no PROBE key ends and no OPEN replica's own timer runs out, at most one is out of OPEN, and only while PROBE is held |
| BreakerProtocol.OneReplicaProbesPerKey | app/gateway/breaker_cluster.py:92-118 | with all replicas OPEN and stamped within the cooldown no more leave OPEN than PROBE keys were won, until a success; at most one while no PROBE key ends |
| BreakerProtocol.SecondProbeExactly | app/gateway/circuit_breaker.py:55-77 | at any step, with a positive cooldown, a replica with a probe in flight would admit another request afterwards if and only if the step records its success, wins PROBE for it, or is its sync's turn after reading no OPEN key and some FAILS |
| BreakerProtocol.UndisturbedFailure | app/gateway/breaker_cluster.py:122-164 | run with nothing in between, the protocol's failure call leaves what the object's method leaves |
| BreakerProtocol.UndisturbedSync | app/gateway/breaker_cluster.py:68-118 | the same for sync |
| BreakerProtocol.OverlappingProbes | app/gateway/circuit_breaker.py:43-48 | an execution in which two replicas have a probe in flight at once, one having left OPEN on its own timer |
| BreakerProtocol.ProbeKeyRunsOut | app/gateway/breaker_cluster.py:106-116 | an execution in which they do with all timers freshly stamped, PROBE having expired before the first probe was answered |
| BreakerProtocol.OneReplicaProbesTwice | app/gateway/breaker_cluster.py:95-96 | an execution in which a replica that won PROBE and has its probe in flight would admit a second one under the same key, nothing having been answered |
| Router.LLMRouter.Breaker | app/gateway/router.py:145-150 | a deployment's breaker, made on first use and kept |
| Router.LLMRouter.Admit | app/gateway/router.py:174-178 | the breaker's answer to one request, and nothing else changed |
| Router.LLMRouter.Failure | app/gateway/router.py:504-511 | a failure recorded, locally or with the cluster, and the state read after it |
| Router.LLMRouter.CallWithRetries | app/gateway/router.py:443-512 | one deployment's turn: verdict, log, breaker and calls made, for whole answers and for opening a stream |
| Router.LLMRouter.VisitOne | app/gateway/router.py:219-228 | skip when the circuit is open, else that turn |
| Router.LLMRouter.WalkChain | app/gateway/router.py:172-182 | the walk down the chain, breakers and log included |
| Router.LLMRouter.Complete | app/gateway/router.py:172-201 | the result or the error, with its attempts and its cost, and the state of all breakers |
| RouterProperties.TriesLogOneBlock | app/gateway/router.py:455-512 | a turn logs at most max_retries + 1 failures, then its success, its client error or nothing |
| RouterProperties.TurnLeaves | app/gateway/router.py:455-512 | told from the block a turn logs: every entry is what the provider replied; each retry follows a failure that left the circuit closed; after a client error the breaker is CLOSED with nothing counted and no probe, whatever it was; after a whole answer too; after a stream's first token and after an exhausted turn it is what the failures left; a turn is exhausted only with its last retry or a circuit no longer closed; no other breaker changes |
| RouterProperties.VisitLogsOneBlock | app/gateway/router.py:173-182 | a visit logs one block: one skip, or such a turn |
| RouterProperties.VisitIsATurn | app/gateway/router.py:172-182 | a deployment that is let through has such a turn with all of its max_retries, from the breaker as it is after being asked |
| RouterProperties.ChainLogsOneBlockEach | app/gateway/router.py:162-201 | one block per visited deployment in chain order; the walk stops at the first block that is neither a skip nor exhausted and only then; the calls made are the logged ones |
| RouterProperties.RequestLeaves | app/gateway/router.py:162-201 | so does the request leave the breaker of the deployment that decides it: cleared by a refusal or a whole answer, and for a stream what the failures before its first token left |
| RouterProperties.FailedSharedIsTheClusters | app/gateway/router.py:134-143 | what a failed call does to the breaker here is what the cluster's `record_failure` does to it, for the count Redis has |
| RouterProperties.CostIsPerMillion | app/gateway/pricing.py:18-24 | a million prompt tokens cost the input price, a million completion tokens the output price, and any usage the sum of its parts; without prices, what the price list says |
| RouterProperties.ClosedVisitCalls | app/gateway/router.py:455-512 | a closed deployment that keeps failing gets exactly min(max_retries + 1, threshold - failures) calls |
| RouterProperties.DeadDeploymentIsCheap | app/gateway/router.py:443-512 | over any sequence of requests a deployment that never answers is called at most threshold + floor(time since first opening / cooldown) times |
| RouterProperties.UnansweredProbeWedges | app/gateway/router.py:304-323 | a probe without a verdict keeps its deployment from ever being called again |
| RouterProperties.StreamedProbeIsPending | app/gateway/router.py:304-323 | a probe answered by a stream's first token serves the request and is still pending; answered whole it closes the circuit |
| Streams.OpenStream.Absorb | app/gateway/router.py:519-527 | usage, finish reason and model a delta reports are carried across |
| Streams.OpenStream.Estimate | app/gateway/router.py:413-419 | the price of what went out so far, until a report has come |
| Streams.OpenStream.Settle | app/gateway/router.py:421-441 | settled once: the report if there was one, else the words of the text, priced and billed once |
| Streams.OpenStream.Pump | app/gateway/router.py:363-385 | every non-empty piece is passed on, in order; what is delivered, quoted, priced and reported so far |
| Streams.OpenStream.Relay | app/gateway/router.py:345-411 | however a started relay ends, with `_settle` called once or twice, there is one bill, for the report or else the delivered words; the breaker hears success only if the provider's iterator ended, failure only if it broke |
| Streams.ReportIsTheLast | app/gateway/router.py:519-527 | the report that counts is the last one any delta carried, and there is none exactly if none did |
| Streams.FinishReasonIsTheLast | app/gateway/router.py:519-527 | so is the finish reason, and "stop" if none is given |
| Streams.PassedIsDelivered | app/gateway/router.py:380-385 | what is passed on is exactly the deltas with text, and with the first token it says what was delivered |
| Streams.QuoteAt | app/gateway/router.py:360-384 | each running quote is the report so far, or the running count of the text delivered by then |
| Streams.PriceFollowsUsage | app/gateway/router.py:358-384 | until a report comes the running cost is the price of the usage on show; from then to the settlement it stays what it was |
| Streams.RunningCountVersusRecount | app/gateway/router.py:360-383 | for any text, by exactly what the running count and the recount differ |
| Streams.RunningCountIsRightIffTidy | app/gateway/router.py:360-383 | with blanks as the only separators and a first piece that is not empty, they agree if and only if all blanks are single and interior |
| Streams.PiecesJoinBack | app/gateway/router.py:530-543 | the pieces of a synthesized stream join to the answer |
| Streams.PiecesAreSmall | app/gateway/router.py:534 | no piece is longer than `size`, none empty unless the answer is |
| Streams.PiecesAreSlices | app/gateway/router.py:534 | piece i is the answer's characters from i * size on, size of them for all but the last, which is the rest |
| Streams.ChunkedStreamIsTheAnswer | app/gateway/router.py:530-543 | relayed to its end it delivers the answer, its finish reason and exactly its usage |
| Streams.ChunkedPieceByPiece | app/gateway/router.py:530-543 | its deltas are the pieces, in order, under the answer's model, and a last one with the usage and the finish reason, which no other carries |
| BoundedList.InsertKeepsOrder | app/cache/semantic_cache.py:241 | ZADD of a new id keeps the members ordered by (created, id) |
| BoundedList.KeptIsExactly | app/cache/semantic_cache.py:242-244 | the list keeps exactly the members not over age and among the newest `max_entries` |
| BoundedList.KeptAreNewest | app/cache/semantic_cache.py:242-244 | told without the order: a member is kept exactly if it is younger than the age limit and fewer than max_entries are newer, by time and then by id |
| BoundedList.KeptAfterInsert | app/cache/semantic_cache.py:241-244 | inserting into a list that was cut before, and cutting again, is inserting into all there ever was and cutting once |
| SemanticCache.OnlyTheQuestionMayDiffer | app/cache/semantic_cache.py:76-90 | two requests share a namespace if and only if tenant and everything but the last message's text agree |
| SemanticCache.ShownIsList | app/cache/semantic_cache.py:241-245 | what the zset shows, its TTL run out or not, is the list plus members over age |
| SemanticCache.HashesAreList | app/cache/semantic_cache.py:230-251 | the entry hashes that have not expired are exactly the list's |
| SemanticCache.PruningChangesNothing | app/cache/semantic_cache.py:120-122 | dropping the ids whose hash is gone keeps the keys in step with the list |
| SemanticCache.StoreKeepsTheList | app/cache/semantic_cache.py:230-251 | after `store` the zset is the list of everything ever stored, with the new entry |
| SemanticCache.StoreKeepsSpaceOk | app/cache/semantic_cache.py:230-251 | ... and hashes, zset and TTLs are in step with it |
| SemanticCache.EnlistingKeepsListed | app/cache/semantic_cache.py:246-247 | the tenant's set keeps naming every namespace that has an entry, for as long as it has, also when it expired and is started anew |
| SemanticCache.NearestIsMostSimilar | app/cache/semantic_cache.py:126-131 | the scan finds something unless the list is empty, nothing is more similar, and what is equally similar is older |
| SemanticCache.HitIffAnyReaches | app/cache/semantic_cache.py:213-215 | what the scan finds reaches the threshold if and only if some entry does |
| SemanticCache.Scan | app/cache/semantic_cache.py:114-131 | the loop over the ids finds the live ones and the nearest of them |
| SemanticCache.SemanticCache.FindNearest | app/cache/semantic_cache.py:109-131 | the nearest entry of the list, with its content |
| SemanticCache.SemanticCache.Lookup | app/cache/semantic_cache.py:210-220 | a hit exactly if the nearest entry of exactly this namespace's list reaches the threshold; no list changes |
| SemanticCache.SemanticCache.Store | app/cache/semantic_cache.py:222-251 | one entry more in this namespace's past; its zset holds exactly the newest min(n, max_entries) unexpired; no other namespace changes |
| SemanticCache.SemanticCache.DeleteSpace | app/cache/semantic_cache.py:256-258 | a namespace's entries are gone and counted |
| SemanticCache.SemanticCache.PurgeTenant | app/cache/semantic_cache.py:253-260 | every live entry of the tenant is gone and counted, its set is gone, and no other tenant's keys or set change |
| FixedWindows.ChunkSections | app/rag/chunking.py:54-64 | the loops compute the windows of every section, numbered through |
| FixedWindows.WindowsSlide | app/rag/chunking.py:59-63 | each window has at most max words, adds at least one, and opens with the last `overlap` words of the full one before it |
| FixedWindows.WindowsLoseNothing | app/rag/chunking.py:59-63 | dropping the overlaps and joining gives the section's words |
| FixedWindows.WindowCount | app/rag/chunking.py:56-63 | 0 windows for no words, 1 up to max, else 1 + ceil((n - max)/(max - overlap)) |
| FixedWindows.SectionsInOrder | app/rag/chunking.py:54-64 | section after section, window after window, each chunk with its section's page |
| FixedWindows.IndexedInOrder | app/rag/chunking.py:61 | a chunk's index is its place in the document |
| Headings.OpenHeadingsAreOpen | app/rag/chunking.py:100-104 | a heading is on the stack exactly if no later heading of equal or smaller level follows it |
| Headings.OpenIncreases | app/rag/chunking.py:102-104 | levels on the stack strictly increase |
| Headings.HeadingClosesPopped | app/rag/chunking.py:102-104 | popping and pushing is what a heading line does to the open headings |
| Headings.SplitUnits | app/rag/chunking.py:79-112 | the loop computes every line's units, each with the path at its line |
| Headings.UnitsCarryTheirPath | app/rag/chunking.py:86-110 | every unit is a heading line, an item line or a sentence of the paragraph that begins at a line, and carries the path of the headings open at that line |
| Headings.UnitsAreSectioned | app/rag/chunking.py:86-106 | headings start sections and nothing else does; between headings the path does not change |
| Headings.UnitsKeepWords | app/rag/chunking.py:79-112 | the units' words are the text's, in order, with or without the headings |
| Packing.Overlap | app/rag/chunking.py:166-176 | the longest end of the previous chunk that is at most overlap_words long and leaves room for the incoming unit |
| Packing.Pack | app/rag/chunking.py:132-164 | the output is a packing of the units (chunks within the limit; only over-long units cut; a chunk broken off only when the next unit does not fit; the carry as above), rendered |
| Packing.PackingIsUnique | app/rag/chunking.py:132-176 | there is only one such packing, so these conditions leave nothing open |
| Packing.EndsWhenFull | app/rag/chunking.py:144-160 | a chunk ends only at the end, at a heading, or because the next unit is too much for it |
| Packing.BodiesFit | app/rag/chunking.py:149-160 | no body has more than max words |
| Packing.CarryIsLongest | app/rag/chunking.py:168-175 | a longer end would exceed the budget, a shorter one would not |
| Packing.CarryIsWithinOverlap | app/rag/chunking.py:153-176 | in any packing a chunk that begins where a packed one ended carries at most overlap_words, which with its next unit are within max_words; one unit more would exceed one of the two, and there is one |
| Packing.OtherwiseNoCarry | app/rag/chunking.py:141-154 | any other chunk carries nothing |
| Packing.CarryIsProper | app/rag/chunking.py:157-160 | the carry is never the whole previous chunk |
| Packing.NothingLostOrRepeated | app/rag/chunking.py:132-164 | without the carries the chunks' units are the input's, each once, in order, less the headings when structured |
| Packing.WordsAreRestored | app/rag/chunking.py:123-164 | the same for the words of the rendered bodies and the lines of the text |
| Packing.OnePathPerChunk | app/rag/chunking.py:137-151 | all units of a structured chunk have the path the chunk is headed with |
| Packing.ChunkSection | app/rag/chunking.py:126 | splitting and packing together: the packing of the text's units, its words restored, its bodies within the limit |
| Packing.RenderSays | app/rag/chunking.py:137-151 | a packed chunk is its units' texts under the path of its first new unit; an over-long unit is full lines and a last one under its own |
| Packing.ChunkDocument | app/rag/chunking.py:123-130 | the sections' chunks one after another, each with its section's page |
| Packing.ChunksAreNumbered | app/rag/chunking.py:123-130 | a chunk's index is its place in the document, its page that of a section it is a chunk of, its prefix, in a structured text, the one of its own heading path |
| Packing.PrefixIsShortest | app/rag/chunking.py:179-183 | that prefix is the shortest that begins with the title, if there is one, and ends with the path: the title is there, and never twice |
| Jobs.IngestionJobs.Submit | app/workers/service.py:55-68 | upload parked, job queued with the upload's particulars, counted as submitted |
| Jobs.IngestionJobs.Execute | app/workers/service.py:76-151 | one attempt: record, counter, upload, outcome counters and dead letters after it, and how it ends |
| Jobs.IngestionJobs.Fail | app/workers/service.py:153-164 | the failed job saved, counted and dead-lettered |
| Jobs.IngestionJobs.Push | app/workers/jobs.py:130-134 | newest first, at most max_entries |
| Jobs.InlineJobQueue.Run | app/workers/queue.py:66-75 | attempt after attempt until one does not ask for another |
| Jobs.FreshJobEnds | app/workers/queue.py:66-75 | a new job run in process, its upload running out at any attempt or never, ends DONE or FAILED as the first attempt says that is not a transient failure, finds the upload gone, or is the last; it is dead-lettered exactly once if FAILED and not if DONE; every retry is counted |
| Jobs.LastDeliveryDecides | app/workers/service.py:90-164 | after any deliveries of any jobs a job's record is, field by field, what its last delivery makes of it, numbered by how many it had: one too many fails it as killing its worker after so many deliveries, not to be retried, and touches no upload; a failed job's record is the newest dead letter; only an ingested job's upload is deleted; no other job changes |
| Jobs.OutcomeIsTheRecord | app/workers/service.py:76-151 | `execute` returns the record it leaves, or asks to be called again exactly if it queued the job again |
| Jobs.DeliveredStaysConsistent | app/workers/service.py:76-164 | over any deliveries a DONE job has its document and no error, a FAILED one its error, and all dead letters are FAILED jobs, at most so many |
| Jobs.EveryDeliveryIsCounted | app/workers/service.py:131-158 | every delivery that runs to its end is counted once as done, failed or retried |
| Jobs.RedeliveryUndoesDone | app/workers/service.py:106-110 | once the upload is gone every redelivery fails the job and dead-letters it again |
| Jobs.DoneLastsUntilRedelivery | app/workers/service.py:138-151 | a job that was done stays DONE if and only if its message is not delivered again |
| JobDelivery.IngestedAtMostMaxTimes | app/workers/service.py:92-114 | under any mix of redeliveries and worker deaths ingestion is started at most max_attempts times per job |
| JobDelivery.AttemptsAreDistinct | app/workers/jobs.py:90-106 | every delivery has an attempt number of its own, from 1 to the counter, in order |
| JobDelivery.DeliveriesAreAccountedFor | app/workers/service.py:93-158 | deliveries started = done + failed + retried + those that have not reached their counter |
| JobDelivery.DeadLettersAreFailures | app/workers/service.py:153-159 | a job is a dead letter once per delivery of it that ended failed; failed counts exceed that only by deliveries between the two commands |
| JobDelivery.DoneAfterUploadIsGone | app/workers/service.py:102-145 | over every interleaving, once a job's upload is gone it is DONE if and only if DONE is the last status saved for it, by then or by a delivery that had the upload in hand |
| JobDelivery.IngestedEndsDoneExactly | app/workers/service.py:138-145 | a job that one delivery ingested is DONE if and only if that delivery lives to save DONE, or DONE was saved before, and no redelivery saves anything after |
| JobDelivery.IngestedButNeverDone | app/workers/service.py:138-144 | if its worker dies between deleting the upload and saving DONE, and nobody else holds the upload, the job is never DONE again |
| JobDelivery.IngestedJobFails | app/workers/service.py:106-144 | an execution in which a job that was ingested at the first attempt ends FAILED and dead-lettered that way |
| JobDelivery.UndisturbedDelivery | app/workers/service.py:76-164 | run with nothing in between, a delivery's commands leave what `execute` leaves |
| StateGraph.Check | app/agents/graph.py:63-74 | a graph is refused exactly when its entry, its edges or their targets are undefined, or a node has no way out, and for what is wrong with it |
| StateGraph.RunGraph | app/agents/graph.py:76-101 | the loop: steps, state and reason to stop |
| StateGraph.RunIsDeclaredWalk | app/agents/graph.py:76-101 | whatever the nodes do, a run is a walk over declared edges from the entry of at most max_steps steps, returns only at END, and fails only for the reason it gives |
| StateGraph.RunIsTheNodesDoing | app/agents/graph.py:76-101 | each step is what its node made of the state the node before left, and the last state and the reason to stop are the last node's |
| StateGraph.BudgetOnlyTruncates | app/agents/graph.py:80-83 | a smaller budget gives the same run, or its beginning and the budget error |
| ResearchAgent.QueriesAreUsable | app/agents/nodes.py:107-114 | the searches are the question exactly if the plan has no line with something in it or nothing may be searched; otherwise the first max_searches different lines that are not empty, each where it is said first, in order, and one that is new is left out only after so many |
| ResearchAgent.PassagesAreBest | app/agents/nodes.py:123-195 | told from the hits: one passage per chunk of a document, best first by rerank score, or vector score where there is none; what is left out is no better than its chunk's passage, or than any of top_k |
| ResearchAgent.PassageIsEarliest | app/agents/nodes.py:128-130 | of the best hits of its chunk a passage is the one found first |
| ResearchAgent.EqualsInOrderFound | app/agents/nodes.py:131 | of two equally good passages the one whose chunk was found first comes first |
| ResearchAgent.AgentNodes.PlanNode | app/agents/nodes.py:91-114 | state and next node, for every reply |
| ResearchAgent.AgentNodes.Search | app/agents/nodes.py:123-130 | the nested loops merge all hits, or stop at the first search that fails |
| ResearchAgent.SearchedIsAll | app/agents/nodes.py:123-127 | all searches find what each of them finds, and fail exactly if one of them does |
| ResearchAgent.AgentNodes.RetrieveNode | app/agents/nodes.py:116-135 | passages and next node |
| ResearchAgent.AgentNodes.DraftNode | app/agents/nodes.py:137-142 | state and next node, for every reply |
| ResearchAgent.AgentNodes.CritiqueNode | app/agents/nodes.py:144-171 | state and next node, for every reply and revision count |
| ResearchAgent.AgentNodes.ReviseNode | app/agents/nodes.py:173-191 | state and next node; a reply that is no answer leaves the draft |
| ResearchAgent.ResearchGraphIsValid | app/agents/service.py:33-52 | the research graph passes its own check |
| ResearchAgent.AgentRunIsBounded | app/agents/service.py:33-52 | for any replies a finished run is plan, retrieve, or plan, retrieve, draft, critique, (revise, critique)^k with k <= max_revisions; at most 4 + 2m steps and 2 + 2m model calls, answered or not; no forbidden move; over budget only if that is under 4 + 2m |
| ResearchAgent.AnswerIsReviewed | app/agents/nodes.py:91-191 | a finished run searched for what the plan says and took the best of what all searches found; its answer is the last reply of the drafting and revising calls that is an answer; every revision followed a critique that named something to fix, and it ended with no revision left or a critique that did not, or never came |
| ResearchAgent.RaisesOnlyFor | app/agents/nodes.py:91-191 | a run raises only for a failed search, a fatal reply, or a draft or revision that never came |
| ResearchAgent.RunIsCharged | app/agents/nodes.py:61-89 | however a run ends its calls, tokens and cost are the sums over the calls that were answered |
| ResearchAgent.Answer | app/agents/service.py:67-98 | a run over budget still answers with its last draft; what the outcome says |
| InferenceGate.SlotsAreConserved | app/core/concurrency.py:42-70 | in every interleaving free + woken + acquired + running = max_concurrency and `_waiting` is the callers between entry and slot; when all are gone both counts are as at first |
| InferenceGate.WaitersAreServed | app/core/concurrency.py:54-70 | nobody waits for a free slot unless a woken caller is about to wake the next |
| InferenceGate.FirstComeFirstServed | app/core/concurrency.py:54-70 | whoever leaves the line was first in it and was given a slot, or timed out |
| InferenceGate.NobodyJumpsTheLine | app/core/concurrency.py:54-56 | a caller gets a slot without having been woken only if one is free, nobody is in line and nobody was woken |
| InferenceGate.ShedMeansSaturated | app/core/concurrency.py:49-51 | a caller is turned away only while every slot is taken or promised and max_queue callers wait already |
| InferenceGate.TurnedAwayExactly | app/core/concurrency.py:49-56 | a caller that comes in is turned away, and nothing changed, if and only if no slot is to be had (all taken or promised, or somebody in line) and max_queue callers wait; any other is inside from then on |
| InferenceGate.OverfillsExactly | app/core/concurrency.py:49-56 | a step lets more than max_queue wait if and only if a caller with a wait budget enters while no one is in line, a slot is free and max_queue wait |
| InferenceGate.QueueHoldsIffNoneOverfills | app/core/concurrency.py:49-56 | over any execution at most max_queue ever wait if and only if no such caller ever enters |
| InferenceGate.AtMostMaxQueueWait | app/core/concurrency.py:49-56 | so without wait budgets at most max_queue callers are ever suspended |
| InferenceGate.BudgetsCanOverfillTheQueue | app/core/concurrency.py:49-58 | an execution with such a caller: two enter before either acquires |
| Rollout.RolloutManager.Load | app/gateway/rollout.py:106-127 | what is cached is what is stored, since the replica that writes forgets its cache |
| Rollout.RolloutManager.Select | app/gateway/rollout.py:135-142 | the canary's table exactly if it is active and the draw is under its weight |
| Rollout.RolloutManager.RecordOutcome | app/gateway/rollout.py:146-163 | counters and canary after one outcome |
| Rollout.RolloutManager.MaybeRollBack | app/gateway/rollout.py:165-182 | rolled back exactly if live, of this version, with enough requests and too many errors |
| Rollout.RolloutManager.PublishCanary | app/gateway/rollout.py:184-200 | the new canary, with its version's counters cleared |
| Rollout.RolloutManager.ChangeWeight | app/gateway/rollout.py:202-210 | the weight set; a weight other than 0 revives a canary that was rolled back |
| Rollout.RolloutManager.RollBackNow | app/gateway/rollout.py:212-221 | weight 0, with time and reason |
| Rollout.RolloutManager.PromoteCanary | app/gateway/rollout.py:223-242 | the canary becomes the stable table |
| Rollout.StatsSinceLastPublish | app/gateway/rollout.py:146-196 | after any history a version's counters are the outcomes recorded for it since it was last published |
| Rollout.CanaryServesExactly | app/gateway/rollout.py:135-221 | after any history a request gets the canary's table if and only if the canary is in place, its last weight is more than the draw, and none of its errors since left it with at least min_requests and errors > max_error_rate * requests, counted from its publish |
| Rollout.ActiveMeansAllowed | app/gateway/rollout.py:165-182 | after any history, while a canary is active and its version's last outcome was an error of its own, recorded since it was given its weight, its counters show fewer than min_requests or errors/requests <= max_error_rate |
| Rollout.DormantUntilRevived | app/gateway/rollout.py:135-221 | a canary that is not active is never selected, whatever else happens, until a publish or a non-zero weight |
| Rollout.RolledBackForAReason | app/gateway/rollout.py:165-221 | after any history a canary marked as rolled back has weight 0, and its time and reason are those of the last roll-back by hand or of the error that was one too many, with nothing since that revives it |
| Rollout.StableIsLastPromoted | app/gateway/rollout.py:223-242 | after any history the stable table is the canary that was last promoted, and there is none before one was |
| Rollout.PromotedServesAll | app/gateway/rollout.py:135-142 | every request the canary does not get is served by that table |
| Rollout.StartUpServesUntilThen | app/gateway/rollout.py:135-142 | and before anything was promoted, by the start-up table |

## Left out

Stated more narrowly than the program allows:

- TokenBucket.AdmittedIffEveryWindowFits: needs that Redis lets no key expire before its bucket is full by the callers' clock (SpareSecondsCoverSkew, ExpiryIsInvisible say when); otherwise a hit finds a full bucket too early.
- Jobs.IngestionJobs.Submit: ends before the job is handed to the queue (app/workers/service.py:69); Jobs.InlineJobQueue.Run and JobDelivery take it from there.
- JobDelivery.DoneAfterUploadIsGone: for jobs whose messages all name one upload, as `submit` makes them.
- RouterProperties.DeadDeploymentIsCheap: sequential, non-streaming requests without a cluster; with streams an abandoned probe decides (UnansweredProbeWedges).
- BreakerProtocol.NothingAdmittedAfterRefreshSawOpen: the refresh stamp is one for all chains, so it is stated for the chain whose names were read, and for requests that reach the deployment within cooldown - refresh of being prepared.
- BreakerProtocol.OneReplicaProbesPerKey: needs every replica's timer stamped less than a cooldown ago; OneReplicaProbes does not, and OverlappingProbes shows what happens when a timer runs out.
- BreakerProtocol.UndisturbedSync: the object syncs several deployments from one read of the keys; the protocol syncs them one by one.
- Packing.Pack: takes units as `_split_units` makes them, where headings and only headings start sections (Headings.UnitsAreSectioned).
- SemanticCache.SemanticCache.Store: takes an id that has not been used in the namespace, as uuid4 gives.
- Router.LLMRouter.Complete: leaves out `_prepare` (app/gateway/router.py:170); the sync there is BreakerCluster.ClusterBreakers.Sync, and Complete holds from whatever breakers it leaves.
- BreakerCluster.FailsShowsTheEndingRun: for whole calls one after another; what interleaved commands keep is BreakerProtocol.PooledAlways.
- Jobs.LastDeliveryDecides: while the job's attempt counter lives, and for deliveries that run to their end.
- JobDelivery.IngestedAtMostMaxTimes: while the job's attempt counter lives; after the retention period it starts again at 1.
- StateGraph.RunGraph: takes the nodes as functions on values; that the nodes' methods do the same to the state in place is stated for each of them.

Not modelled:

- Floating point: tokens, prices, times and similarities are reals; the rounding of the similarity a hit reports is left out.
- Clocks: outside the rate limiter the Redis server's and the process's are one and do not go back.
- Redis outages, partial pipelines and what each component does without Redis; a replica that dies between two breaker commands.
- The hash behind a cache namespace and a route table's fingerprint: the first is taken to be injective.
- RediSearchIndex, `purge_all` and the batching of deletes.
- Fault injection, timeouts as durations, backoff sleeps, latencies, log lines and metrics other than the stream's bill.
- Regexes and sentence splitting: a line is blank, a heading, an item or prose, and the splitter any function that keeps a paragraph's words in order and returns no empty sentence.
- Heading paths and prefixes as joined strings: they are lists of titles, so a title that contains " > " is not told from two.
- The text of prompts and notes, and how a plan, a verdict or a revision is read: parameters of the research agent.
- Job listings, timestamps, durations and the Celery broker; a job record that expires between two commands of one delivery.
- Cancelling a caller of the inference gate from outside: its slot is freed while the thread still runs.
- Rollouts on several replicas, where a weight or a roll-back is written from a cached read.
- HTTP, authentication, provider adapters, metering, API keys, the document registry, evaluation and deployment scripts: no hard invariant.
