# Runlet: a verified model of admission, sessions and accounting

Runlet runs untrusted scripts for many tenants. A request passes a chain of gates (bearer token,
trusted identity, entitlements, size limits), is counted against its tenant's plan, may open a
session to the `fabricd` sidecar that holds all driver credentials, takes a per-partition permit and
a global permit, runs on a pooled runtime, and leaves metrics and events behind. This project models
that machinery in Dafny and proves what it promises, over every interleaving where there is
concurrency and over every input where there is not.

Each concurrent component is a deterministic step function folded over an arbitrary list of steps: one
step is one atomic load, store, counter update, channel operation or mutexed section of the code, any
number of threads interleave freely, and a step that is not enabled changes nothing. A theorem about
all step lists is therefore a theorem about all schedules. Beside each machine stands the object the
code updates in place, as a class whose methods are proved against the same specification functions.

| module | models |
|---|---|
| `Wrappers`, `Counting`, `Sequences`, `LittleEndian`, `Decimals`, `Splitting` | machine integers, counting over maps, sequence and byte facts, decimal numerals, trimming and splitting |
| `Quota`, `Partition` | per-tenant plan limits; hashed per-partition semaphores |
| `Admission`, `AdmissionSafety`, `AdmissionTheorems`, `AdmissionGates`, `Handler` | the `/execute` pipeline: the interleaved machine, its invariant, its theorems, what each gate and stage decides, and the code path of one request |
| `Pool` | the runtime pool and its shutdown race |
| `Breaker` | the per-target circuit breaker over time |
| `Framing`, `Misread`, `Resources`, `Daemon`, `DaemonSafety`, `DaemonRouting`, `Session` | frames, reads dropped in the middle of one, tenant-scoped resolution, the daemon's session loop, which backend a call reaches, and box and daemon joined by two FIFO channels |
| `BytecodeCache` | the compiled-bytecode cache under eviction and races |
| `S3Query`, `S3Requests`, `S3Usage`, `S3Listing` | canonical queries, the signed list and delete queries, size summing, bounded listing |
| `Histogram`, `Events` | the latency histogram and its scrape; the lossy event channel |

## Where the code and its documentation disagree

The model follows the code. For each disagreement there is a counterexample or an exact condition.

- `read_frame` documents "no frame" for a clean end at a frame boundary and an error for a truncated
  frame; it also answers "no frame" when the stream ends inside the four header bytes (`Framing.HeaderCutUnreported`,
  `Framing.TruncationReportedExactly`).
- `JsPool::shutdown` says the pool drains to empty; a release that has already read `accepting` can
  push afterwards (`Pool.StragglerSurvivesShutdown`, `Pool.DrainsToEmptyExactly`).
- `CircuitBreaker::allow` says others keep fast-failing until the probe resolves; a second probe is
  granted one cool-down later (`Breaker.TwoProbesAtOnce`, `Breaker.SecondProbeExactly`).
- `AuditBody::reason` is described as the response's error code; for some denials it is another code
  (`AdmissionTheorems.ScriptAndKeyAuditedCoarsely`; `AdmissionTheorems.AuditReasonIsResponseCode` says for which).
- `serve` is described as dispatching until the client closes; a response over the 64 MiB frame cap is
  refused by `write_frame`, so its frame goes unanswered and the session ends although the backend was
  called (`DaemonSafety.LargeValueUnanswered`, `DaemonSafety.FrameAnsweredExactly`).
- A drain is described as returning the session's metrics, best effort; a round trip dropped on the
  deadline leaves its answer in the connection, and every drain after it reads an earlier answer instead
  (`Session.AbandonedCallSpoilsDrain`, `Session.DrainExactly`).
- A histogram's `+Inf` value should be its largest. A scrape can show a bucket above it, both while an
  observation is between two increments and when a whole observation falls between two of the scrape's
  loads (`Histogram.InfBelowBucket`, `Histogram.InfBelowBucketWhole`, `Histogram.InfIsLargestExactly`).

`canonical_query_from_pairs` alone sorts by name only, where AWS Signature Version 4 also orders equal
names by value (`S3Query.FullOrderExactly`). No query the code signs repeats a name, so all of them are
in the full order (`S3Requests.RequestsFullySorted`).

## Model

| member | source | states |
|---|---|---|
| `Quota.MostRestrictive` | crates/runlet/src/quota.rs:61-67 | the least configured limit (attained and a lower bound), 0 for an empty table |
| `Quota.TenantQuota.LeastLimit` | crates/runlet/src/quota.rs:61-67 | the scan over the plans returns that least limit |
| `Quota.TenantQuota.Resolve` | crates/runlet/src/quota.rs:71-74 | a plan in the table gets its own limit; an unknown or missing plan gets one that is at most every configured limit |
| `Quota.TenantQuota.Admit` | crates/runlet/src/quota.rs:118-139 | admits exactly when usage is below the plan's own limit, or below every limit (and the table is not empty) for a plan not in the table; a refusal changes nothing, an admission adds exactly one without saturating |
| `Quota.TenantQuota.DropGuard` | crates/runlet/src/quota.rs:152-162 | gives one unit back and removes the key at zero |
| `Quota.QuotaExact` | crates/runlet/src/quota.rs:94-162 | after any interleaving of admits and drops the map is the count of live guards per tenant, a key is present iff its count is positive, and no tenant exceeds the largest limit |
| `Quota.AdmitExactly` | crates/runlet/src/quota.rs:118-139 | after any interleaving, an admit under a plan in the table succeeds iff the tenant's live guards are below that plan's limit, and any other iff they are below every configured limit and the table is not empty; the count does not saturate |
| `Quota.DropExactly` | crates/runlet/src/quota.rs:152-162 | after any interleaving dropping a live guard takes exactly one from its tenant (the saturating decrement does not saturate), and the key goes with the last guard |
| `Quota.EmptyTableAdmitsNobody` | crates/runlet/src/quota.rs:59-67 | a table without plans admits nobody in any run |
| `Quota.IdleMeansEmpty` | crates/runlet/src/quota.rs:141-162 | once every guard is dropped the map is empty |
| `Partition.PartitionLimiter.constructor` | crates/runlet-core/src/partition.rs:37-45 | every bucket starts with the full cap |
| `Partition.NewLimiter` | crates/runlet-core/src/partition.rs:37-45 | fairness is disabled iff either figure is zero |
| `Partition.PartitionLimiter.BucketFor` | crates/runlet-core/src/partition.rs:56-64 | a key always falls into an existing bucket |
| `Partition.BucketOf` | crates/runlet-core/src/partition.rs:56-64 | the hash is a whole number of rounds of the buckets plus this bucket; a hash wider than the machine word goes to bucket 0 |
| `Partition.PartitionLimiter.TryAcquire` | crates/runlet-core/src/partition.rs:50-53 | succeeds iff the key's bucket has a free permit, and takes exactly that permit |
| `Partition.PartitionLimiter.Release` | crates/runlet-core/src/partition.rs:50-53 | a dropped permit returns to its bucket and to no other |
| `AdmissionSafety.InvAlways` | crates/runlet/src/handler.rs:554-791 | the full invariant (holdings by phase, conservation of every semaphore, quota accounting, counters, log) in every reachable state of any interleaving |
| `AdmissionSafety.MovedKeeps` | crates/runlet/src/handler.rs:671-791 | any step that moves one request's holdings and the shared state in balance keeps the invariant |
| `AdmissionTheorems.NeverOversubscribed` | crates/runlet/src/handler.rs:1103-1120 | running executions never exceed the bulkhead nor a bucket's cap, and free plus held is the capacity of every semaphore |
| `AdmissionTheorems.TenantsStayWithinPlans` | crates/runlet/src/handler.rs:1313-1345 | with quota enforced, no tenant ever holds more than the largest plan limit, and the map is the number of requests holding a guard |
| `AdmissionTheorems.IdleReturnsEverything` | crates/runlet/src/handler.rs:671-791 | when every arrived request has finished, by whatever exit, all permits are free and the quota map is empty |
| `AdmissionTheorems.FinishedCountedOnce` | crates/runlet/src/handler.rs:554-940 | at every moment a finished request has moved exactly its exit's counter and no other, and each counter is the number of requests that moved it |
| `AdmissionTheorems.EveryRequestCountedOnce` | crates/runlet-core/src/metrics.rs:227-275 | once all have finished, requests equal rejections plus overloads plus the seven outcomes, each counter is the number of requests with that terminal, and the latency count is the sum of the outcomes |
| `AdmissionTheorems.TrailExactly` | crates/runlet/src/handler.rs:832-940 | a finished request left exactly its exit's events: usage and an allowed audit if it executed, one denied audit if refused past the bearer check, nothing before |
| `AdmissionTheorems.AuditReasonIsResponseCode` | crates/runlet/src/events.rs:105-117 | in every run the audit event of a finished, refused request carries the response code iff the denial is not one of the listed kinds |
| `AdmissionTheorems.ScriptAndKeyAuditedCoarsely` | crates/runlet/src/handler.rs:622-641 | a request with both a script and a key, on any server without token or trusted headers, is answered with one code and audited under another |
| `AdmissionTheorems.TurnsBound` | crates/runlet/src/handler.rs:554-791 | a request's turns and the actions it still owes never exceed thirteen, whatever others do |
| `AdmissionTheorems.EveryRequestFinishes` | crates/runlet/src/handler.rs:554-791 | thirteen turns finish any request in any interleaving: nobody waits for another |
| `AdmissionTheorems.VerdictKept` | crates/runlet/src/handler.rs:554-791 | a request's own moves never change the exit that the gates, quota, session and free permits decide (`AdmissionGates` says what each decides) |
| `AdmissionTheorems.AloneDecides` | crates/runlet/src/handler.rs:554-791 | from any reachable state, the run in which a request arrives and moves alone finishes it within thirteen moves with exactly that exit |
| `AdmissionGates.RefusedExactly` | crates/runlet/src/handler.rs:554-665 | in every run, a request past the gates is on its way out with a gate's denial iff that gate's own condition on the request holds and every earlier gate's does not: token differs, anonymous, suspended, no tenant, scope not "acting", no body, a missing grant, not exactly one of script and key, unknown key, script too large, context too large |
| `AdmissionGates.PastTheGates` | crates/runlet/src/handler.rs:554-665 | in every run, a request is past the gates and not refused by one iff it carries the configured token, in trusted mode an active tenant identity in acting scope with the grant of every gated capability, names exactly one known script, and both sizes are within their limits |
| `AdmissionGates.GatesSpelled` | crates/runlet/src/handler.rs:1151-1224 | each gate denial, from the request's fields alone, with every earlier condition false |
| `AdmissionGates.NoGateMeansAdmissible` | crates/runlet/src/handler.rs:622-665 | no gate refuses iff the request is admissible, and gates only ever give gate denials |
| `AdmissionGates.QuotaStage` | crates/runlet/src/handler.rs:1313-1345 | the quota stage refuses iff the tenant's plan has no room, and otherwise counts one more for exactly that tenant |
| `AdmissionGates.NoQuotaStage` | crates/runlet/src/handler.rs:1313-1345 | without trusted mode, a quota or a tenant nothing is charged |
| `AdmissionGates.SessionStage` | crates/runlet/src/handler.rs:686-730 | a request fails at the session stage iff it asks for db, mongo, mail, redis, amq or auth and no session opened, with the denial of that failure |
| `AdmissionGates.RunsUnderItsOwnKey` | crates/runlet/src/handler.rs:1103-1120 | in every run, an execution holds the global permit, the permit of its own fairness key's bucket (the tenant's in trusted mode, else the header's, else the body's) or none iff fairness is off or there is no key, and its tenant's quota unit |
| `AdmissionGates.PartitionStage` | crates/runlet/src/handler.rs:1103-1120 | refused iff the key's bucket has no permit left, otherwise exactly one is taken from it |
| `AdmissionGates.GlobalStage` | crates/runlet/src/handler.rs:1103-1120 | refused iff no global permit is free, otherwise one is taken |
| `AdmissionGates.TenantNeverOverruns` | crates/runlet/src/handler.rs:1313-1345 | in every run a tenant's running executions are within its quota count and the largest plan limit |
| `AdmissionGates.LogOfFinished` | crates/runlet/src/handler.rs:832-940 | in every run a refused request leaves one audit event with the reason of its stage, by name, none for a bad token; an executed one leaves its usage and an allowed audit |
| `AdmissionGates.CountersByExit` | crates/runlet-core/src/metrics.rs:227-275 | once all have finished, the two overload counters, the rejections and each outcome counter are the requests that left that way |
| `Handler.AppState.constructor` | crates/runlet/src/handler.rs:56-100 | an empty server is the machine's initial state |
| `Handler.AppState.AcquirePermits` | crates/runlet/src/handler.rs:1103-1120 | partition permit first, bulkhead second; a bulkhead refusal gives the partition permit back |
| `Handler.AppState.EmitExecuted` | crates/runlet/src/handler.rs:832-866 | a usage event then an allowed audit event, or nothing when events are off |
| `Handler.AppState.Shed` | crates/runlet/src/handler.rs:1079-1099 | one terminal counter, the denial's trail, and the quota unit given back |
| `Handler.AppState.EnforceQuota` | crates/runlet/src/handler.rs:1313-1345 | refuses iff the charged tenant is at its limit; otherwise charges exactly one unit to that tenant |
| `Handler.AppState.ReturnPermits` | crates/runlet/src/handler.rs:782-784 | bulkhead and partition permit go back |
| `Handler.AppState.RecordExecution` | crates/runlet/src/handler.rs:892-940 | latency once, the executed trail, one outcome counter, guard dropped |
| `Handler.AppState.ExecuteGuarded` | crates/runlet/src/handler.rs:686-791 | whatever the exit, permits are as before and the guard is given back; the exit is the one the free permits decide |
| `Handler.AppState.RunExecute` | crates/runlet/src/handler.rs:554-791 | one request end to end returns every permit and quota unit, moves one terminal counter, logs its trail, and ends as the machine's verdict says: with a gate's denial exactly on that gate's own condition, and otherwise only for an admissible request |
| `Handler.RestoresQuota` | crates/runlet/src/quota.rs:118-162 | dropping a guard undoes the admission that created it |
| `Pool.PoolExact` | crates/runlet-core/src/pool.rs:117-137 | in every interleaving the gauge is the number of executions between its two updates (so it never wraps), idle never exceeds the size, and no runtime is in two places |
| `Pool.DrainStep` | crates/runlet-core/src/pool.rs:150-153 | after `accepting` is off no step adds to idle plus pending releases and each drain pop uses one up |
| `Pool.DrainTerminates` | crates/runlet-core/src/pool.rs:150-153 | all shutdowns together pop at most idle plus the releases that had read `accepting` as true |
| `Pool.IdleAfterDrain` | crates/runlet-core/src/pool.rs:129-153 | after a drain, idle is at most the releases that had already read `accepting` as true |
| `Pool.DrainsToEmptyExactly` | crates/runlet-core/src/pool.rs:145-153 | the pool stays empty after a drain in every continuation iff no release stands between its read and its push |
| `Pool.StragglerSurvivesShutdown` | crates/runlet-core/src/pool.rs:129-153 | a reachable run ends with shutdown complete and a runtime idle |
| `Pool.LateExecutionsRefused` | crates/runlet-core/src/host.rs:369-441 | an execution that starts once `accepting` is off never holds a runtime, whatever the others do |
| `Pool.AloneExecutes` | crates/runlet-core/src/host.rs:369-441 | from any state an execution left to itself ends and leaves the pool as it was, with the runtime it used at the end of the queue or newly made; refused, it leaves everything as it was |
| `Pool.AloneDrains` | crates/runlet-core/src/pool.rs:150-153 | a shutdown left to itself empties the queue in one turn a runtime and one more |
| `Pool.JsPool.constructor` | crates/runlet-core/src/pool.rs:69-102 | a full, accepting pool with nothing in flight |
| `Pool.JsPool.Acquire` | crates/runlet-core/src/pool.rs:117-124 | the oldest idle runtime, or a new one, counted in only when there is one |
| `Pool.JsPool.Release` | crates/runlet-core/src/pool.rs:129-137 | counted out; re-pooled iff accepting and not full |
| `Pool.JsPool.Close` | crates/runlet-core/src/pool.rs:150-153 | alone, shutdown empties the queue for good |
| `Pool.JsPool.Execute` | crates/runlet-core/src/host.rs:369-441 | each result exactly under its condition, and the pool left as `AloneExecutes` says of the machine |
| `Breaker.NewBreaker` | crates/fabric-wire/src/breaker.rs:51-60 | the breaker is disabled iff the threshold is zero, and otherwise starts with no target known |
| `Breaker.CircuitBreaker.Allow` | crates/fabric-wire/src/breaker.rs:70-86 | the answer and the re-armed window as the specification's state function gives them |
| `Breaker.CircuitBreaker.Record` | crates/fabric-wire/src/breaker.rs:90-111 | the new state and trip count as the specification's state function gives them |
| `Breaker.StateReflectsHistory` | crates/fabric-wire/src/breaker.rs:70-111 | after any history, failures is the current failure run capped at 32 bits, open iff that run reached the threshold, and the window is the last arming plus the cool-down |
| `Breaker.AnswersFollowHistory` | crates/fabric-wire/src/breaker.rs:70-86 | every answer of `allow` equals the specification computed from the preceding history alone |
| `Breaker.WindowNeverMovesBack` | crates/fabric-wire/src/breaker.rs:70-111 | while a target stays open its window never moves backwards, though clocks are sampled before the lock |
| `Breaker.ProbesSpaced` | crates/fabric-wire/src/breaker.rs:70-86 | two granted probes with no success between them carry timestamps at least one cool-down apart |
| `Breaker.SecondProbeExactly` | crates/fabric-wire/src/breaker.rs:67-86 | while a probe is unresolved, the next call is granted iff its clock has reached the probe's plus the cool-down |
| `Breaker.TwoProbesAtOnce` | crates/fabric-wire/src/breaker.rs:67-86 | a history with two unresolved probes |
| `Breaker.TripsCounted` | crates/fabric-wire/src/breaker.rs:63-111 | trips is, modulo 64 bits, the number over all targets of maximal failure runs that reached the threshold |
| `Breaker.TargetsIndependent` | crates/fabric-wire/src/breaker.rs:70-111 | deleting all other targets' calls changes none of a target's answers nor its state |
| `Framing.ReadFrameExact` | crates/fabric-wire/src/wire.rs:316-341 | what is read was framed within the cap and exactly that frame is consumed; a header above the cap is refused, and nothing else is for that reason |
| `Framing.FrameLayout` | crates/fabric-wire/src/wire.rs:289-308 | a frame is the payload's length in four bytes, the lowest first, and then the payload |
| `Framing.ReadFrameSpelled` | crates/fabric-wire/src/wire.rs:316-341 | what a read makes of any bytes: an end below four, refused above 67108864, truncated when the body is short, otherwise that payload and the rest |
| `Framing.WholeFramesMaximal` | crates/fabric-wire/src/wire.rs:289-341 | the number of whole frames before a cut is the largest that fits, and what is left over is exact |
| `Framing.CutStream` | crates/fabric-wire/src/wire.rs:289-341 | cutting any stream of frames anywhere yields the maximal prefix of whole frames, then an end (at most a partial header left) or an error (cut inside a body) |
| `Framing.WholeStream` | crates/fabric-wire/src/wire.rs:289-341 | reading a concatenation of frames gives back exactly the payloads and then an end |
| `Framing.TruncationReportedExactly` | crates/fabric-wire/src/wire.rs:310-341 | a truncated stream is reported iff at least four bytes of the unfinished frame arrived |
| `Framing.HeaderCutUnreported` | crates/fabric-wire/src/wire.rs:321-326 | a stream cut inside its first length header is reported as a clean end |
| `Framing.TypedThen` | crates/fabric-wire/src/wire.rs:289-341 | with parse undoing serialise, the reader gets exactly the values whose write was accepted, in order, and then whatever follows on the stream, faults included |
| `Framing.TypedStream` | crates/fabric-wire/src/wire.rs:289-341 | with nothing after them, then a clean end |
| `Misread.MisreadWithin` | crates/runlet/src/sidecar.rs:371-401 | a read that follows one dropped with at least four bytes of its frame left takes text for a length and refuses it |
| `Misread.MisreadAcross` | crates/runlet/src/sidecar.rs:371-401 | with one to three bytes left it is refused iff the header byte that became the top byte is at least four, and otherwise reads text that does not parse |
| `Misread.ReadsWholeFrames` | crates/fabric-wire/src/wire.rs:316-341 | from any position in a stream a read yields a value only at the start of a frame, and then that frame's |
| `Misread.OnlyWrittenFrames` | crates/runlet/src/sidecar.rs:371-431 | however many reads are dropped and wherever they stop, every value read is one the daemon wrote, whole, none twice, in order |
| `Misread.NothingAfterPartialRead` | crates/runlet/src/sidecar.rs:405-431 | the read after one dropped inside a frame yields nothing, so a drain then returns empty lists |
| `Framing.Pipe.WriteFrame` | crates/fabric-wire/src/wire.rs:289-308 | appends one frame, or refuses an oversized payload having written nothing |
| `Framing.Pipe.ReadExact` | crates/fabric-wire/src/wire.rs:316-341 | the next n bytes, or an early end |
| `Framing.Pipe.ReadOne` | crates/fabric-wire/src/wire.rs:316-341 | one read agrees with the specification of a read, bytes consumed included |
| `Framing.Pipe.Drain` | crates/fabricd/src/main.rs:334-419 | reading frame after frame yields what the whole-stream specification says |
| `Resources.ResolveFromExactly` | crates/fabric-backends/src/resources.rs:199-287 | success iff every named kind is granted; a failure is the first failing kind's own error |
| `Resources.ResolveExactly` | crates/fabric-backends/src/resources.rs:191-287 | success iff every name exists for the session's own tenant with the asked kind, and then exactly those bindings |
| `Resources.ResolveErrorExactly` | crates/fabric-backends/src/resources.rs:191-287 | a failure is that of the first kind, in order, whose name is not granted: not found iff the tenant may not see it, a kind mismatch otherwise |
| `Resources.ResolveScoped` | crates/fabric-backends/src/resources.rs:199-287 | tables that agree on the session tenant's part resolve alike, errors included |
| `Resources.ClampStatementTimeout` | crates/fabric-backends/src/resources.rs:141-152 | without a ceiling, or within it, the timeout is kept; unlimited or above it becomes the ceiling; nothing else changes |
| `Daemon.BackendSet.constructor` | crates/fabric-backends/src/backendset.rs:80-101 | one unconnected slot per resolved config |
| `Daemon.BackendSet.Open` | crates/fabric-backends/src/backendset.rs:338-457 | connects on first use and then always hands out the same backend or the same error |
| `Daemon.BackendSet.CallKind` | crates/fabric-backends/src/backendset.rs:230-316 | slots, response and effects of a call as specified: unknown name, unconfigured kind, connect failure, reply (`DaemonRouting` says which backend each name reaches) |
| `DaemonRouting.EffectsFollowName` | crates/fabric-backends/src/backendset.rs:230-316 | every connection and dispatch a call adds to a session is of the kind spelt by the call's own name |
| `DaemonRouting.CallReachesItsKind` | crates/fabric-backends/src/backendset.rs:230-316 | a call named db, mongo, mail, redis, amq or auth on a session with that kind open dispatches once to that kind's slot with its action and unpacked payload; the result is the answer, the metric joins that kind's list and no other |
| `DaemonRouting.UnknownNameReachesNothing` | crates/fabric-backends/src/backendset.rs:230-316 | any other name reaches nothing and gets IO_UNKNOWN |
| `DaemonRouting.UnconfiguredReachesNothing` | crates/fabric-backends/src/backendset.rs:324-332 | a kind the session has not opened reaches nothing and gets that kind's own NOT_CONFIGURED code |
| `DaemonRouting.ConnectFailureAnswered` | crates/fabric-backends/src/backendset.rs:338-457 | a failed connect is the answer, and nothing is dispatched |
| `DaemonRouting.BadPayloadAnswered` | crates/fabric-backends/src/backendset.rs:230-316 | a payload that does not unpack is answered with its error, and nothing is dispatched |
| `DaemonRouting.SpentMailAnswered` | crates/fabric-backends/src/mail.rs:262-270 | a mail call at the send limit is refused with MAIL_OP_LIMIT, and nothing is dispatched |
| `DaemonRouting.MailNeverOverspent` | crates/fabric-backends/src/mail.rs:262-270 | no session ever records more sends than its binding allows |
| `DaemonRouting.FirstFrameAnswered` | crates/fabricd/src/main.rs:344-419 | the answer to the first frame: a protocol error unless it is an Init, the authenticator's own rejection, the code of the first name that fails, or an Ack |
| `DaemonRouting.OpenedSlots` | crates/fabric-backends/src/backendset.rs:80-101 | an accepted Init opens one unused slot for each kind it names and no other, bound to the resource of that name, with only the db timeout clamped |
| `DaemonRouting.DrainAnswered` | crates/fabric-backends/src/backendset.rs:106-115 | a drain answers the lists in the order db, mongo, mail, redis, amq, auth, empty for a kind not open, and takes nothing away |
| `Daemon.BackendSet.AllMetrics` | crates/fabric-backends/src/backendset.rs:106-115 | list i holds the metrics of the i-th kind in protocol order, and is empty for a kind that is not configured |
| `Daemon.ReadRequest` | crates/fabric-wire/src/wire.rs:316-341 | one request, an end, or the fault of a frame that is cut, too long or no request |
| `Daemon.ServeSession` | crates/fabricd/src/main.rs:334-432 | on any bytes the session answers exactly the requests before the first unreadable frame, and what it writes is exactly the framed responses of the specification up to the first over the cap; it ends in error iff a response was refused or an open session met an unreadable frame; one authentication failure exactly on a rejected token |
| `Daemon.ResponsesReadBack` | crates/fabric-wire/src/wire.rs:289-341 | those bytes read back as exactly the responses' encodings, then an end |
| `DaemonSafety.SessionOk` | crates/fabricd/src/main.rs:334-432 | the session invariant on every frame sequence |
| `DaemonSafety.OneResponsePerFrame` | crates/fabricd/src/main.rs:344-419 | among the requests read, each is answered once, by the response computed for it, iff every response so far fits a frame; otherwise exactly the last one read goes unanswered and the session closes; apart from a stream that ends or cannot be read (in `Daemon.ServeSession`), it closes in no other way than that or a first frame that opens nothing |
| `DaemonSafety.FrameAnsweredExactly` | crates/fabricd/src/main.rs:408-419 | frame k is answered iff the session was opened (or it is the first frame) and the responses up to it fit a frame |
| `DaemonSafety.OverCapUnanswered` | crates/fabric-wire/src/wire.rs:294-303 | on every open session a request whose reply exceeds the cap is performed, gets no response, and is the last frame read |
| `DaemonSafety.LargeValueUnanswered` | crates/fabricd/src/main.rs:408-432 | a redis read of a value whose reply exceeds the cap leaves only the Ack on the wire |
| `DaemonSafety.DispatchOnlyWhenAuthorised` | crates/fabricd/src/main.rs:344-432 | a backend is connected or called only after the token was accepted and every name resolved, and only with the binding the session tenant's own name denotes |
| `DaemonSafety.ConnectOnce` | crates/fabric-backends/src/backendset.rs:338-457 | each slot-backed kind (all but amq) connects at most once per session and all its calls reach the same backend |
| `DaemonSafety.ConnectErrorIsFinal` | crates/fabric-backends/src/backendset.rs:338-457 | a failed connect is remembered for as long as the session is open |
| `DaemonSafety.CachedErrorAnswers` | crates/fabric-backends/src/backendset.rs:230-316 | and answers every later call of that kind with the same error, reaching nothing |
| `DaemonSafety.LaterDrainsExtend` | crates/fabric-backends/src/backendset.rs:106-115 | each drain's lists are prefixes of any later drain's |
| `DaemonSafety.ResponsesArePrefix` | crates/fabricd/src/main.rs:380-419 | responses already written never change as more frames arrive |
| `DaemonSafety.LaterInitIgnored` | crates/fabricd/src/main.rs:380-419 | a later Init's content changes no response, effect or state |
| `DaemonSafety.TenantsDoNotInterfere` | crates/fabric-backends/src/resources.rs:199-287 | daemons whose tables agree on tenant t give every session of t identical responses and effects, errors included |
| `Session.InvAlways` | crates/runlet/src/sidecar.rs:371-431 | both channels are FIFO between the box's requests and the daemon's answers in every run |
| `Session.FramesInFlight` | crates/runlet/src/sidecar.rs:371-431 | on an open session the frames in flight both ways are the answer awaited plus one per abandoned round trip, so at most one iff none was abandoned, or one was and nothing is awaited |
| `Session.TwoInFlight` | crates/runlet/src/sidecar.rs:371-401 | a reachable connection carries two unread requests after one abandoned call |
| `Session.AnswersAreShifted` | crates/runlet/src/sidecar.rs:371-431 | in every run the frame taken for request k is the daemon's answer to request k minus the round trips abandoned before it |
| `Session.AnswersMatchRequests` | crates/runlet/src/sidecar.rs:371-431 | with none abandoned before it, the k-th answer is the daemon's answer to the k-th request |
| `Session.EofMeansNoAnswer` | crates/runlet/src/sidecar.rs:426-431 | the end of the connection is heard only where the daemon has no answer left, because the session was not opened or a response exceeded the cap |
| `Session.HandshakeExact` | crates/runlet/src/sidecar.rs:289-341 | the handshake is unavailable iff the daemon's response exceeds the cap; otherwise it succeeds iff the token was accepted and every name resolved, and carries the daemon's own code if not |
| `Session.AnswerKinds` | crates/fabricd/src/main.rs:408-432 | after the first frame a call is answered by the result of its backend call at that point and a drain by the session's metrics at that point |
| `Session.InStepAnswersFit` | crates/runlet/src/sidecar.rs:371-421 | with none abandoned before it, a call's frame is its own backend result and a drain yields the metrics of the session as it stood then |
| `Session.DrainExactly` | crates/runlet/src/sidecar.rs:371-421 | a drain after any number of calls brings metrics iff no earlier round trip was abandoned, the session was opened and the responses up to its own fit a frame; they are then the session's own, and otherwise all lists are empty |
| `Session.AbandonedCallSpoilsDrain` | crates/runlet/src/sidecar.rs:371-421 | the loss is reachable on every opened session and for every call whose request and reply fit a frame |
| `Session.SidecarEgress.RoundTrip` | crates/runlet/src/sidecar.rs:426-431 | one request sent and one answer heard, or abandoned at the deadline; a request over the cap fails and leaves the connection as it was; the connection stays a run of the machine |
| `Session.SidecarEgress.Call` | crates/runlet/src/sidecar.rs:371-401 | a transport error for a request that cannot be written and a timeout iff the deadline passed; in time and with nothing abandoned before, a result iff the daemon's answer to that request is that result, a protocol error iff its answer is of another kind, a transport error iff it has none |
| `Session.CallTellsTheAnswer` | crates/runlet/src/sidecar.rs:371-401 | in every run the same, for any request heard with none abandoned before it |
| `Session.SidecarEgress.DrainMetrics` | crates/runlet/src/sidecar.rs:405-421 | anything but a metrics frame yields empty lists |
| `BytecodeCache.DigestInputInjective` | crates/runlet-core/src/bytecode.rs:52-59 | the length-prefixed digest input determines namespace and source |
| `BytecodeCache.KeyInjective` | crates/runlet-core/src/bytecode.rs:52-59 | with a collision-free hash, equal keys mean equal namespace and source |
| `BytecodeCache.CacheTransparent` | crates/runlet-core/src/engine.rs:733-757 | under any interleaving and eviction every execution obtains exactly a fresh compile |
| `BytecodeCache.HitsAreOwn` | crates/runlet-core/src/engine.rs:733-757 | a hit serves only what was inserted for the same source under the same namespace |
| `BytecodeCache.ResidentsAreLarge` | crates/runlet-core/src/bytecode.rs:119-131 | no source below the floor is ever resident |
| `BytecodeCache.LookupsCounted` | crates/runlet-core/src/bytecode.rs:124-142 | hits plus misses are the lookups once none is between its read and its counter, and stores never exceed misses |
| `BytecodeCache.DigestLayout` | crates/runlet-core/src/bytecode.rs:52-59 | the hashed bytes are the namespace's length in eight bytes, the lowest first, the namespace, the source |
| `BytecodeCache.AloneObtains` | crates/runlet-core/src/engine.rs:733-757 | from every reachable state an execution left to itself obtains a fresh compile's module; a resident unit is one hit, any other one miss, stored iff it compiles, reaches the floor and serialises |
| `BytecodeCache.LaterLookupsHit` | crates/runlet-core/src/engine.rs:741-756 | in every run that does not evict it, once a cacheable unit was obtained every later lookup finds bytes that load as its module |
| `BytecodeCache.Cache.ObtainDeclared` | crates/runlet-core/src/engine.rs:733-757 | the module is a fresh compile's, and entries and counters move exactly as `AloneObtains` says of the machine |
| `S3Query.DecodeUndoesEncode` | crates/runlet-core/src/s3.rs:988-990 | percent-decoding recovers any encoded octet string |
| `S3Query.EncodedIsSafe` | crates/runlet-core/src/s3.rs:121-125 | an encoded token holds only unreserved characters and percent signs, so never a separator |
| `S3Query.EncodedTextSpelled` | crates/runlet-core/src/s3.rs:988-990 | position by position, an unreserved octet stays and any other of value n becomes a percent sign and the upper-case hexadecimal digits of n / 16 and n % 16 |
| `S3Query.EncodeCharSpelled` | crates/runlet-core/src/s3.rs:121-125 | the same for one octet; unreserved are letters, digits, hyphen, underscore, full stop and tilde |
| `S3Query.SortIsStable` | crates/runlet-core/src/s3.rs:675-686 | sorting by name gives a sorted permutation that keeps each name's pairs in order |
| `S3Query.StableOrderUnique` | crates/runlet-core/src/s3.rs:675-686 | there is only one such order |
| `S3Query.CanonicalQueryFromPairs` | crates/runlet-core/src/s3.rs:675-686 | the loop's query is the joined, stably sorted, encoded pairs (`QueryTextSpelled` writes it out) |
| `S3Query.QueryTextSpelled` | crates/runlet-core/src/s3.rs:675-686 | the text holds encoded name, equals sign and encoded value of every pair, an ampersand between each two, the names in byte order |
| `S3Query.OrderSpelled` | crates/runlet-core/src/s3.rs:680 | the order of names is that of prefixes and first differing octets |
| `S3Query.QueryRoundTrip` | crates/runlet-core/src/s3.rs:675-686 | splitting the query gives pairs sorted by encoded name, and decoding them a permutation of the input |
| `S3Query.FullOrderExactly` | crates/runlet-core/src/s3.rs:675-686 | the query has Signature Version 4's order by name and value iff pairs of equal name were given in value order |
| `S3Requests.DistinctNamesFullySorted` | crates/runlet-core/src/s3.rs:675-686 | a query whose names are all different has that order, whatever its values |
| `S3Requests.RepeatedNameOutOfOrder` | crates/runlet-core/src/s3.rs:675-686 | two pairs of one name that come out in the wrong order |
| `S3Requests.RequestsFullySorted` | crates/runlet-core/src/s3.rs:618-642 | the signed list query, with and without prefix and token, and the signed delete query have that order for every value |
| `S3Requests.ListText` | crates/runlet-core/src/s3.rs:618-642 | the list query written out, for every credential, date, prefix and token: the signing parameters, the token if any, list-type 2, max-keys 1000, the prefix unless it is empty |
| `S3Requests.DeleteText` | crates/runlet-core/src/s3.rs:797-805 | the delete query written out |
| `S3Query.HandOrderedIsCanonical` | crates/runlet-core/src/s3.rs:974-990 | the hand-written presign query equals the general one on its five pairs, for every access key, scope, date and lifetime |
| `S3Query.PresignText` | crates/runlet-core/src/s3.rs:974-990 | the presigned query written out |
| `S3Usage.SumSegments` | crates/runlet-core/src/s3.rs:694-710 | the loop over segments is checked addition of the parsed sizes, the first failure deciding |
| `S3Usage.SumSizesExact` | crates/runlet-core/src/s3.rs:694-710 | a rendered list of sizes sums to exactly its total and length, whatever text stands between, however the numbers are padded, signed or zero-filled, and fails iff a total exceeds 64 bits |
| `Decimals.ReadsExactly` | crates/runlet-core/src/s3.rs:694-710 | trimming and parsing gives a number iff the text writes that number and it fits 64 bits |
| `S3Usage.MalformedSizeRefused` | crates/runlet-core/src/s3.rs:694-710 | one element that writes no 64-bit number makes the page an error |
| `S3Listing.TagReadsBack` | crates/runlet-core/src/s3.rs:713-718 | the first element of a tag reads back as its trimmed text |
| `S3Listing.FetchListPage` | crates/runlet-core/src/s3.rs:590-615 | a page is its sums and its non-empty token; a failed reply or a bad size is an upstream error |
| `S3Listing.PageReadsBack` | crates/runlet-core/src/s3.rs:590-615 | a page written by the store reads back as its total, its count and its token |
| `S3Listing.BlankTokenEnds` | crates/runlet-core/src/s3.rs:713-718 | an empty or blank token element ends the listing |
| `S3Listing.Collector.NextPage` | crates/runlet-core/src/s3.rs:526-545 | refused iff the operations recorded have reached the limit; a page is recorded exactly when it was had |
| `S3Listing.Collector.DoUsage` | crates/runlet-core/src/s3.rs:501-563 | the outcome is the one its fetched pages explain, exactly those pages are recorded, and they never exceed the budget left, whatever the store |
| `S3Listing.UsageExactly` | crates/runlet-core/src/s3.rs:501-563 | pages and outcome are determined by store and budget: success iff the token chain ends within the budget and its totals fit, and likewise for the limit, upstream and overflow errors |
| `S3Listing.EndlessHitsTheLimit` | crates/runlet-core/src/s3.rs:526-556 | against tokens that never end the loop stops at exactly the budget, or earlier at an overflow |
| `S3Listing.MetricsAddUp` | crates/runlet-core/src/s3.rs:532-548 | the recorded page metrics add up to the totals |
| `S3Listing.UsageIsTrueTotal` | crates/runlet-core/src/s3.rs:501-563 | against a store that serves a listing, the result is the exact size and number of all its objects |
| `S3Listing.LongListingHitsTheLimit` | crates/runlet-core/src/s3.rs:526-556 | a listing with more pages than the budget ends at the limit after exactly the budget |
| `S3Listing.BrokenPageEndsListing` | crates/runlet-core/src/s3.rs:526-563 | a failed request or a bad size within the budget ends in an upstream error, never in a total without it |
| `Histogram.CumulativeExact` | crates/runlet-core/src/metrics.rs:67-80 | a rendered bucket is the number of observations at or below its bound |
| `Histogram.LatencyHistogram.Observe` | crates/runlet-core/src/metrics.rs:53-62 | the history grows by exactly the value observed, and buckets, count and sum keep reflecting it |
| `Histogram.LatencyHistogram.AddToBucket` | crates/runlet-core/src/metrics.rs:54-59 | the loop bumps exactly the first bucket that admits the value, or none |
| `Histogram.LatencyHistogram.RenderSeries` | crates/runlet-core/src/metrics.rs:67-94 | labels denote the bounds, cumulative values and count show the history, and the printed sum denotes the wrapped sum of the observations, which is the true sum iff that fits 64 bits |
| `Histogram.LabelsDenoteBounds` | crates/runlet-core/src/metrics.rs:17-25 | each label is the decimal seconds of its bound in microseconds |
| `Histogram.SecondsReadBack` | crates/runlet-core/src/metrics.rs:86-91 | the printed seconds read back as the exact microseconds |
| `Histogram.RunKeeps` | crates/runlet-core/src/metrics.rs:53-62 | every interleaving of observers keeps the counters in step with the history and the increments still owed |
| `Histogram.ScrapeBetween` | crates/runlet-core/src/metrics.rs:67-80 | a scrape among observers shows each bucket between its exact counts at the first and at the last load |
| `Histogram.ScrapeMonotone` | crates/runlet-core/src/metrics.rs:67-80 | the cumulative values of any scrape never decrease |
| `Histogram.QuietScrapeShows` | crates/runlet-core/src/metrics.rs:67-94 | with no observation in progress a scrape shows the history exactly |
| `Histogram.ScrapeExact` | crates/runlet-core/src/metrics.rs:67-80 | whatever happens between the loads, a rendered value is the observations at or below its bound when the count was loaded plus those that slipped into its buckets before each was loaded |
| `Histogram.InfIsLargestExactly` | crates/runlet-core/src/metrics.rs:67-84 | for every scrape, the last bucket is at most `+Inf` iff the observations not yet counted plus those that slipped in are no more than those above the last bound |
| `Histogram.InfBelowBucket` | crates/runlet-core/src/metrics.rs:53-84 | an observation between its first two increments lifts the last bucket above `+Inf` |
| `Histogram.InfBelowBucketWhole` | crates/runlet-core/src/metrics.rs:53-84 | so does a whole observation between two loads, with none in progress when the scrape starts or ends |
| `Events.EventPipeline.constructor` | crates/runlet/src/events.rs:186-196 | an empty channel of the bound asked for, or of one for a bound of zero |
| `Events.EventPipeline.Record` | crates/runlet/src/events.rs:166-172 | queued when there is room, otherwise counted as dropped; never waits |
| `Events.EventPipeline.WriterLoop` | crates/runlet/src/events.rs:219-226 | the queue is emptied in order, one line per event that serialises |
| `Events.LinesSpelled` | crates/runlet/src/events.rs:219-226 | each event in turn gives its own line, or none when it does not serialise |
| `Events.Conservation` | crates/runlet/src/events.rs:166-226 | in every interleaving recorded events are taken, queued, lost with a crashed writer, dropped or about to be counted, and the queue stays within its bound |
| `Events.SendExactly` | crates/runlet/src/events.rs:166-172 | after any run a live sender's event is accepted iff the writer lives and the channel has room, and exactly then queued |
| `Events.WriterKeepsOrder` | crates/runlet/src/events.rs:166-226 | the writer sees a prefix of the accepted events, a subsequence of the recorded ones |
| `Events.ShutdownFlushes` | crates/runlet/src/events.rs:204-226 | when the writer has finished, everything accepted was taken and the rest is counted as dropped |
| `Events.NothingDroppedWithinBound` | crates/runlet/src/events.rs:166-196 | a writer that does not crash drops nothing until more events were recorded than the channel holds |
| `Events.WriterFinishes` | crates/runlet/src/events.rs:204-226 | with every sender gone the writer ends after one turn an event and one more |
| `Events.ShutdownCompletes` | crates/runlet/src/events.rs:204-226 | from every reachable state with a running writer an orderly shutdown finishes it, with everything accepted taken and everything refused counted |
| `Events.FinishedForGood` | crates/runlet/src/events.rs:204-226 | nothing changes a finished pipeline |

## Left out

- QuickJS evaluation, script wrappers and throw classification; a run's outcome is a parameter.
- Drivers, JSON, SHA-256, script compilation and the clock: functions or parameters. Where a theorem needs a law (no hash collision, loading undoes writing, parsing undoes serialising) it is a stated hypothesis.
- Handler-future cancellation, mutex poisoning, `Instant` overflow and weak memory ordering: atomics and mutexed sections are single steps in one total order.
- Panics inside connecting a driver, and panics inside the engine: the latter skip the pool's `release`, so the in-flight gauge stays raised by one for each.
- I/O failures other than the end of a connection: a read or write error reaches the box like that end.
- Bearer-header parsing and constant-time comparison: the gate compares tokens for equality.
- Header names, identity extraction from headers and HTTP response text; a request carries the identity already read.
- TLS and QUIC setup, replica failover in `connect_any` and the cached QUIC connection.
- Capability latency histograms per driver: they are further instances of the same histogram.
- `record_engine_error` and `engine_error_outcome` group the error kinds alike, so the model starts from the seven groups.
- Script and module registry loading (filesystem walking), configuration parsing, SSRF address checks (fixed range tests), and the decimal and date helpers (thin wrappers over libraries).
- S3 signatures (hashes over the canonical query), presign clamps (single-branch arithmetic) and the delete request's response handling.
- `do_usage` payload parsing, host resolution and client building, which can fail before the loop starts.
- S3Usage.SumSizesExact: trimming removes ASCII white space only, where the code removes all Unicode white space; the padding rendered is ASCII.
- S3Query.QueryRoundTrip: a string is a sequence of octets; the code's strings are UTF-8, encoded octet by octet.
- Session.AnswersAreShifted: in the session machine a round trip is abandoned between frames. A read dropped in the middle of a frame is modelled on bytes in `Misread`, one stream at a time; how the reads after it line up with later requests is not.
- Session.SidecarEgress.RoundTrip: an abandoned round trip has written its whole request; a request cut off in the middle of its frame is not modelled.
- Pool.JsPool.Execute: an execution is one call; its overlap with others is in the interleaved machine of the same module.
- Handler.AppState.RunExecute: one request at a time; interleaving is in the admission machine, and `AdmissionTheorems.AloneDecides` connects the two.
- Histogram.LatencyHistogram.RenderSeries: 64-bit wrap-around is modelled; exact counts are stated for fewer than 2^64 observations. The layout of the lines around labels and values is left out.
