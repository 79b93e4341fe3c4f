# HookRelay: a verified model of webhook delivery

HookRelay accepts events, and delivers each of them by HTTP to the endpoints
that subscribe to it. This project models the parts of it that hold state
under concurrency, and proves what they guarantee.

* **Delivery** (`DeliverySystem`). W workers share one bounded job channel, one
  circuit breaker per endpoint and one table of delivery logs. The model is a
  transition system whose steps are single critical sections, channel
  operations or database calls: `IsOpen` and the later `RecordSuccess` or
  `RecordFailure` are separate steps, with any steps of other workers between
  them. A run is any finite sequence of enabled steps, and the theorems in
  `BreakerSafety`, `BreakerWitness`, `JobFlow` and `RowSafety` are about every
  run, every number of workers and every endpoint, job or row.
* **WebSocket hub** (`HubSystem`, `HubWitness`). The hub goroutine owns the client set;
  clients drain their bounded buffers at any moment, also in the middle of a
  broadcast, and the client map is walked in any order.
* **In-memory pub/sub** (`PubSubSystem`, `PubSubDelivery`, `PubSubOrder`,
  `PubSubWitness`). Publishers share a
  read lock and interleave send by send; `Subscribe` and `Close` hold the write
  lock; subscribers receive without any lock.
* **Rate limiter** (`TokenBuckets`, `RateLimiters`). A token bucket over exact
  reals, and one bucket per client address under interleaved requests.
* **Breaker and backoff alone** (`Circuit`, `Retry`). The breaker as a fold of
  its call history, and the backoff in explicit int64 arithmetic.

## How the objects and the transition systems fit together

The objects that the Go code updates in place are classes here
(`CircuitBreaker`, `BreakerManager`, `DeliveryLogTable`, `Worker`, `Engine`,
`Hub`, `InMemoryPubSub`, `TokenBucket`, `RateLimiter`). Their methods follow the
source branch by branch. The methods of `Worker`, `Engine`, `Hub` and
`InMemoryPubSub` carry a ghost sequence of steps, and their postconditions say
which steps these are: a worker's are the turns that the picks of its select
dictate (`Turns`), a hub's answer exactly the inputs it was given (`Heard`), a
Dispatch call's enqueue one prefix of its list, a Publish call's begin with that
call and end with its return. They also say that the sequence is a run of the
transition system, and that it ends in the very state of the object. So a
method that skips an input or an update has no run to show for its state. The
safety theorems are then proved about the runs.

## Assumptions

* `Reset` of a breaker, cancellation of a context, `Engine.Stop` and calls of
  `ListPendingRetries`, `Subscribe` and the hub's broadcast are steps of the
  environment; nothing is assumed about when they happen, except that the job
  channel is closed once, with no `Dispatch` running or to come.
* A failed database call leaves the table as it was. A drawn row id that is
  already taken makes the insertion fail.
* An attempt ends in a build error, a transport error or a response with any
  status code. The clock readings and the random draws are parameters, and all
  statements hold for every value of them.
* The limiter reads a monotone clock inside the bucket's critical section.
* Every hub client registers once and unregisters only after that, as
  `ServeWs` and `ReadPump` arrange it.

## Where the code and its description differ

* `internal/circuit/breaker.go:61` says that a reset allows a single probe
  request. `SingleProbeNeedsOneWorker` shows that this holds in every run
  exactly when there is at most one worker: `IsOpen` is false for every caller
  of a HALF_OPEN breaker.
* An open breaker is not always shut until the next reset: an attempt that was
  admitted earlier closes it when it succeeds. `OpenStaysOpenIffDoomed` gives
  the exact condition.
* `internal/delivery/retry.go:17` promises 1s * 2^attempt plus up to half of it.
  `BackoffRange` shows that this is so exactly for attempts 0 to 32; attempt 33
  can overflow and attempt 34 panics in the random source.
* A second `Start` of the engine (`internal/delivery/engine.go:37-38`) launches
  another pool and forgets the cancel function of the first, which `Stop` can
  then no longer cancel; a second `Stop` panics. `Engine.Start` and
  `Engine.Stop` say so.

## Model

| member | source | states |
|---|---|---|
| BreakerSafety.FailuresAreBounded | internal/delivery/worker.go:66-141 | in every run of W workers, an endpoint's failures plus its admitted and unrecorded attempts are at most threshold - 1 + W * (1 + reopenings since the last success); without any Reset the failures are at most threshold + W - 1 |
| BreakerSafety.BoundHolds | internal/circuit/breaker.go:39-68 | the inductive invariant behind the bound, by breaker state: closed means below the threshold, open counts those in flight, half-open may let everybody in |
| BreakerWitness.OvershootIsReached | internal/delivery/worker.go:66-141 | the bound is exact: for every number of workers and every number of reopenings there is a run that reaches it, with no Reset in it when there is no reopening |
| BreakerWitness.SingleProbeNeedsOneWorker | internal/circuit/breaker.go:55-68 | a HALF_OPEN breaker has at most one attempt in flight in every run if and only if there is at most one worker |
| BreakerWitness.ManyProbes | internal/circuit/breaker.go:61-68 | after a Reset all W workers can be admitted while the breaker is HALF_OPEN |
| BreakerSafety.OpenStaysShut | internal/delivery/worker.go:66-73 | from an OPEN breaker with nothing admitted and unrecorded, in every continuation without a Reset the breaker does not change and no job of that endpoint is admitted, inserted, sent or recorded; only attempts that were recorded before are still saved or published |
| BreakerWitness.OpenStaysOpenIffDoomed | internal/circuit/breaker.go:39-59 | an OPEN breaker stays OPEN in every continuation without a Reset if and only if no worker holds an admitted attempt that may still succeed |
| BreakerWitness.SuccessCloses | internal/circuit/breaker.go:39-44 | whoever holds such an attempt can close the breaker, with no Reset |
| BreakerSafety.BreakerIsItsHistory | internal/circuit/breaker.go:95-105 | however the workers interleave, each endpoint's breaker is a stand-alone breaker that replays the calls made on that endpoint |
| BreakerSafety.AdmissionFollowsHistory | internal/delivery/worker.go:65-73 | in every run a delivery is skipped exactly when its endpoint's own history has at least ten failures since the last success and no Reset since the last failure, and admitted otherwise |
| BreakerSafety.ResetIsAlwaysPossible | internal/circuit/breaker.go:61-68 | a Reset may come in every state, whatever is in flight; it reopens an open breaker and changes nothing else |
| Circuit.HistoryDeterminesBreaker | internal/circuit/breaker.go:28-68 | after any call history, with a threshold of 10 where none above zero is given, the failure count is the number of failures since the last success; CLOSED iff that is below the threshold, HALF_OPEN iff not and there was a Reset since the last failure, OPEN otherwise |
| Circuit.DriveBreaker | internal/circuit/breaker.go:28-59 | a breaker object, driven through any series of calls, ends as its history says, and IsOpen answers by that history |
| Circuit.CircuitBreaker.RecordSuccess | internal/circuit/breaker.go:39-44 | closes the breaker and forgets all failures, in every state |
| Circuit.CircuitBreaker.RecordFailure | internal/circuit/breaker.go:46-53 | counts one failure, and opens the breaker from any state when the threshold is reached |
| Circuit.CircuitBreaker.IsOpen | internal/circuit/breaker.go:55-59 | true exactly in the OPEN state |
| Circuit.CircuitBreaker.Reset | internal/circuit/breaker.go:62-68 | OPEN becomes HALF_OPEN, other states and the failure count stay |
| Circuit.BreakerManager.GetBreaker | internal/circuit/breaker.go:95-105 | the endpoint's one stable breaker object, made fresh and closed on first use; distinct endpoints have distinct objects, and no other breaker changes |
| Circuit.BreakerManager.OneBreakerChanged | internal/circuit/breaker.go:83-105 | a call on one endpoint's breaker changes nothing for the other endpoints |
| JobFlow.ChannelIsFifo | internal/delivery/engine.go:26-55 | jobs received followed by jobs queued are the jobs enqueued, in order, and the queue never exceeds 1000 |
| JobFlow.WorkersLeaveWhenDrained | internal/delivery/worker.go:52-60 | unless the context was cancelled, a worker leaves only when the channel is closed and every job ever enqueued has been received |
| JobFlow.InterleavesListPrefixes | internal/delivery/engine.go:47-55 | the jobs enqueued are an interleaving of one prefix of the endpoint list per Dispatch call, whole if the call returned, and no list position yields two jobs |
| JobFlow.JobsFollowTheirLists | internal/delivery/engine.go:47-55 | the i-th job of a Dispatch call is for the i-th endpoint of its list and for its event, a call that returned has one for each, and there are no other jobs |
| JobFlow.CallsAreDispatches | internal/delivery/engine.go:47-55 | those calls are the Dispatch calls made, with their own events and lists; a call is cut short exactly when its context was taken as done |
| JobFlow.JobsAreConserved | internal/delivery/worker.go:52-137 | of any class of jobs, as many were enqueued as are queued, held by workers, skipped on an open circuit, abandoned on a failed insertion, or finished with a response or with an error |
| JobFlow.EachJobIsInOnePlace | internal/delivery/worker.go:52-137 | every enqueued job is in exactly one of those places, so none is lost, delivered twice or both dropped and delivered |
| JobFlow.ResponsesArePublished | internal/delivery/worker.go:99-166 | responses received are publish attempts plus marshalling failures plus workers not yet at the publishing step |
| RowSafety.OutcomesMatchInsertions | internal/delivery/worker.go:94-141 | of any class of rows, insertions are breaker outcomes plus workers between the two, and updates plus workers before the update |
| RowSafety.EndpointOutcomes | internal/delivery/worker.go:94-141 | for each endpoint, rows created are breaker outcomes recorded plus workers between creation and recording |
| RowSafety.InsertedOnce | internal/model/delivery_log.go:29-42 | a row id is inserted once if it is in the table and never otherwise |
| RowSafety.OneOutcomePerRow | internal/delivery/worker.go:94-141 | each row causes at most one breaker outcome and at most one update |
| RowSafety.WorkersOwnTheirRows | internal/delivery/worker.go:87-137 | the row that a worker is working on is in the table and was inserted by that same worker for that same job |
| RowSafety.OnlyCreatorSaves | internal/delivery/worker.go:130-155 | only the worker that inserted a row ever updates it |
| RowSafety.RowsAreAllowed | internal/delivery/worker.go:87-158 | in every reachable state: a SUCCESS row has a 2xx code and no next retry; a FAILED row has no next retry and a code in {400, 401, 403, 404} or a job with max_retries at most 1; a PENDING row is as inserted, or is a retry with attempt 2, max_retries at least 2 and no or a retryable code; a message names the code if there is one, and else a build or transport error |
| RowSafety.FinalLogAllowed | internal/delivery/worker.go:119-158 | the log that one attempt ends with is of an allowed kind, for every outcome, clock and draw |
| RowSafety.OutcomeDecidesLog | internal/delivery/worker.go:87-158 | the log of an attempt tells its outcome in every field: the status code exactly if a response came, the kind of error or "HTTP code" exactly if it failed, SUCCESS for 2xx, FAILED for a permanent code or an exhausted job, and else attempt 2, due after two seconds plus the drawn jitter |
| RowSafety.RetryIsScheduled | internal/delivery/retry.go:38-43 | the retry of a first attempt is due between two and three seconds after its failure |
| RowSafety.DueRowsAreRetries | internal/model/delivery_log.go:150-157 | in every reachable state a row is due exactly when it is a retryable failure with attempts left whose retry time has come |
| RowSafety.SavedRowsStay | internal/model/delivery_log.go:44-64 | what a successful update wrote is in the row in every later state |
| RowSafety.SavesFollowOutcomes | internal/delivery/worker.go:126-155 | what a worker saves is the outcome that its request ended with, and that it told the breaker before |
| RowSafety.RowsTellOutcomes | internal/delivery/worker.go:87-158 | in every later state, a row that was updated tells in every field how its request ended |
| RowSafety.FreshUntilSaved | internal/delivery/worker.go:87-97 | a row that no successful update has touched is as its worker inserted it |
| RowSafety.UnsavedRowsStay | internal/delivery/worker.go:130-155 | after a failed update the row stays as it was inserted in every later state |
| RowSafety.PublishedWasSaved | internal/delivery/worker.go:130-165 | only attempts with a response are published, each as its worker had tried to save it |
| RowSafety.PublishedMatchesRow | internal/delivery/worker.go:119-166 | a published log equals its row from then on if and only if its update succeeded; if it failed, the row stays as it was inserted; its status code is the one that the request ended with |
| DeliveryLogs.DeliveryLogTable.CreateDeliveryLog | internal/model/delivery_log.go:29-42 | inserts one row under the drawn key without status code or message, or fails and leaves the table unchanged |
| DeliveryLogs.DeliveryLogTable.UpdateDeliveryLog | internal/model/delivery_log.go:44-64 | overwrites status, attempt, code, message and next retry of the row of that key, keeping its key, event and endpoint and all other rows; fails for a missing row, leaving the table unchanged |
| DeliveryLogs.DeliveryLogTable.ListPendingRetries | internal/model/delivery_log.go:150-180 | exactly the PENDING rows with a next retry not after now, each once, by ascending next retry |
| Retry.BackoffRange | internal/delivery/retry.go:17-22 | the delay lies in [2^attempt s, 1.5 * 2^attempt s) for every draw, in int64 arithmetic, if and only if attempt is from 0 to 32 |
| Retry.BackoffOfDraw | internal/delivery/retry.go:17-22 | which delay a draw gives: 2^attempt seconds and the whole draw, for every draw below half of that; so every delay of the range occurs |
| Retry.BackoffOverflows | internal/delivery/retry.go:18-22 | at attempt 33, exactly the draws that take the sum past int64 give a negative delay |
| Retry.BackoffIncreases | internal/delivery/retry.go:17-22 | successive delays strictly increase, whatever the draws |
| Retry.LastBackoffs | internal/delivery/retry.go:18-22 | attempt 33 still yields a delay, attempt 34 panics |
| Retry.FailureIsTold | internal/delivery/worker.go:139-158 | for every log, failure and max_retries: the message is the one given, key, event, endpoint and code stay, a hopeless failure is final and keeps attempt and next retry, any other is rescheduled by its own backoff, or panics with it |
| Retry.RetryBudget | internal/delivery/worker.go:139-157 | driving recordFailure over retryable failures with max_retries m schedules max(0, m - 1) retries and ends FAILED for m up to 34, with total delay in [2^m - 2, 1.5 * (2^m - 2)) seconds for 2 <= m <= 33; it panics exactly for m above 34, after 33 retries |
| Retry.RetriesFrom | internal/delivery/worker.go:139-157 | the same from any attempt of the chain on, with m - attempt as the measure |
| Workers.DeliveryRuns | internal/delivery/worker.go:65-137 | the listed steps of one delivery are a run of the system, and end in the one-go result of that delivery |
| Workers.TurnRuns | internal/delivery/worker.go:52-60 | receiving and delivering the head of the channel extends any run |
| Workers.Worker.ExecuteDelivery | internal/delivery/worker.go:65-137 | breakers, rows and publications after one delivery are those that DeliveryRuns derives from its steps, for every outcome and every failing call |
| Workers.Worker.LookUp | internal/delivery/worker.go:66-67 | finds the endpoint's breaker, making it on first use, and whether it is open |
| Workers.Worker.InsertAndAttempt | internal/delivery/worker.go:87-137 | past the breaker: nothing changes when the insertion fails, else one row, one breaker call, one update and at most one publication |
| Workers.Worker.Attempt | internal/delivery/worker.go:87-137 | one attempt on an inserted row makes one breaker call and one update, and publishes the final log if a response came |
| Workers.Worker.RecordFailure | internal/delivery/worker.go:139-158 | one failure on the breaker; the log becomes FAILED or is rescheduled, and its row, if there is one, is overwritten unless the write fails; where the backoff panics, nothing is written |
| Workers.Worker.ScheduleRetry | internal/delivery/retry.go:38-49 | the log becomes PENDING with one more attempt and a retry time, and its row is overwritten unless there is none or the write fails; None where the backoff panics |
| Workers.Worker.PublishResult | internal/delivery/worker.go:160-166 | publishes the log once, or nothing if it cannot be marshalled |
| Workers.Worker.ReceiveAndDeliver | internal/delivery/worker.go:56-60 | one turn of the loop extends the run by exactly the steps of receiving and delivering the head of the channel, and leaves the heap where they lead |
| Workers.Worker.Start | internal/delivery/worker.go:49-63 | the worker takes exactly the turns that the picks of its select dictate, one after the other; channel, breakers, rows and publications end where this run ends; it stops as soon as it picks the done context or the closed, empty channel |
| WorkerTurns.PicksDecideTurns | internal/delivery/worker.go:49-63 | a worker alone receives one job per pick of the channel, in order from its head, until it picks its context or the channel is empty; it leaves exactly if its context is picked, or the channel once more after it was closed and drained |
| Engines.Engine.constructor | internal/delivery/engine.go:26-34 | an empty, open job channel and no workers |
| Engines.Engine.Start | internal/delivery/engine.go:37-44 | one fresh worker per index under one fresh context, all on the same channel, table, pub/sub and breakers: the first time, together the initial state of the system; called again, that many more |
| Engines.Engine.Dispatch | internal/delivery/engine.go:47-55 | appends a prefix of the endpoint list: whole when it returns, cut short exactly where its context is taken as done, and otherwise waiting on a full channel; its steps are one call of a run |
| Engines.Engine.Resume | internal/delivery/engine.go:48-54 | the same from any list position on, in any state that others have left while the call waited |
| Engines.CallsWaitUndisturbed | internal/delivery/engine.go:47-55 | in every run, a waiting Dispatch call stays where it is through all steps of others, and the channel stays open, so that it can be resumed |
| Engines.Engine.Stop | internal/delivery/engine.go:58-64 | cancels the latest context, if there is one, and closes the channel, leaving queued jobs in it; panics exactly when it was closed already; with no Dispatch running, these are steps of the system |
| TokenBuckets.GreedyIsOptimal | internal/middleware/middleware.go:44-64 | for every arrival sequence and every prefix of it, no policy that can pay from the same bucket admits more than the limiter |
| TokenBuckets.GreedyIsAffordable | internal/middleware/middleware.go:44-64 | the limiter itself is such a policy |
| TokenBuckets.TokensStayInRange | internal/middleware/middleware.go:50-64 | tokens stay between zero and the limit |
| TokenBuckets.TokensAreConserved | internal/middleware/middleware.go:50-64 | initial tokens plus rate times the elapsed time are exactly the tokens left, plus one per admission, plus what was above the cap |
| TokenBuckets.StretchIsBounded | internal/middleware/middleware.go:50-64 | any stretch of requests, from its first to its last moment, admits at most limit + rate * (last - first) |
| TokenBuckets.WindowIsBounded | internal/middleware/middleware.go:37-64 | at most twice the limit in any span of a window |
| TokenBuckets.WindowIsFilled | internal/middleware/middleware.go:37-64 | that bound is exact: for every limit of at least 1 and every window there are arrivals in one window of which exactly twice the limit are admitted |
| TokenBuckets.RefillComposes | internal/middleware/middleware.go:51-57 | capped refill over two adjacent intervals is refill over their union |
| TokenBuckets.RefusedCostsNothing | internal/middleware/middleware.go:51-64 | deleting any set of refused requests leaves every other decision unchanged |
| TokenBuckets.SpacedIsNeverRefused | internal/middleware/middleware.go:51-64 | requests at least 1/rate apart are never refused |
| RateLimiters.ClientsAreIndependent | internal/middleware/middleware.go:42-65 | in every interleaved history of all clients, each client is answered as by its own bucket serving its own requests alone |
| RateLimiters.HistoriesInterleaveFreely | internal/middleware/middleware.go:42-65 | the histories this is about are all interleavings in which a bucket is loaded before it is taken from |
| RateLimiters.ClientWindow | internal/middleware/middleware.go:37-68 | no client gets more than twice the limit through in any span of a window, whatever the others do |
| RateLimiters.SpacedClient | internal/middleware/middleware.go:37-68 | a client that spaces its requests is never refused, whatever the others do |
| RateLimiters.TokenBucket.Take | internal/middleware/middleware.go:50-65 | the critical section adds rate times the idle time, caps at the limit, and admits and spends one token exactly if there is one |
| RateLimiters.RateLimiter.LoadOrStore | internal/middleware/middleware.go:44-48 | the client's one stable bucket, stored full on first use; no other bucket changes |
| RateLimiters.RateLimiter.Handle | internal/middleware/middleware.go:41-68 | one request is a load and a take on its own client's bucket |
| HubSystem.ClosedExactlyOnce | internal/ws/hub.go:29-58 | in every run a registered client's channel is open exactly while it is in the map and is closed once, when it leaves; no send on a closed channel, no second close; the map is empty once Run has returned |
| HubSystem.ClientSeesSlice | internal/ws/hub.go:38-55 | for each client, what is written is the gap-free slice of the broadcasts from its registration to its removal, and what it drained followed by what is buffered is that slice |
| HubSystem.OnlyFullClientsOverflow | internal/ws/hub.go:49-54 | a client is cut off by a broadcast only with 256 messages waiting |
| HubWitness.ClientsNeverWait | internal/ws/client.go:59-66 | a client takes what is buffered for it at any moment, inside a broadcast or the shutdown too, and nothing else changes |
| HubWitness.DrainingInTimeSaves | internal/ws/hub.go:48-54 | a client with a full buffer in the middle of a broadcast is cut off if the hub comes first, and stays with the message if it drains first |
| HubWitness.FullBufferIsReached | internal/ws/hub.go:47-56 | there is a run into the middle of a broadcast with 256 messages waiting for a client still to be visited |
| HubSystem.StandingStep | internal/ws/hub.go:30-57 | what each step, in any order of the map walk, makes of one client's membership and buffer |
| Hubs.Hub.HandleRegister | internal/ws/hub.go:38-39 | adds the client with an open, empty channel |
| Hubs.Hub.HandleUnregister | internal/ws/hub.go:41-46 | removes the client and closes its channel, or does nothing if it is gone already |
| Hubs.Hub.VisitOne | internal/ws/hub.go:48-54 | one turn of the broadcast loop: send, or close and remove if full |
| Hubs.Hub.HandleBroadcast | internal/ws/hub.go:47-56 | every client with room has the message once, every full one is cut off, in any order of the walk |
| Hubs.Hub.Shutdown | internal/ws/hub.go:32-37 | closes every client's channel once, keeps what is buffered, and empties the map |
| Hubs.Hub.HandleDrain | internal/ws/client.go:61-66 | a client takes the oldest buffered message, or waits if there is none |
| Hubs.HeardIsBroadcast | internal/ws/hub.go:47 | the broadcasts of a run, which ClientSeesSlice is about, are the messages among the inputs that it answers |
| Hubs.Hub.Run | internal/ws/hub.go:29-58 | the run answers exactly the given registrations, unregistrations, messages and drains, in order, up to the end of the context, and broadcasts exactly these messages; the hub ends where this run ends; it returns exactly when the context is done, with every channel closed |
| PubSubSystem.LocksAreSafe | internal/pubsub/memory.go:24-71 | over all interleavings: no send on a closed channel, no second close, the list that a Publish walks is its topic's list from first send to last, and after Close every channel is closed |
| PubSubWitness.ReadLockIsShared | internal/pubsub/memory.go:25-32 | whoever else is publishing, a publisher can begin a call exactly when it is not in one, no writer holds the lock and the bus is open, and walks all channels subscribed to its topic so far |
| PubSubWitness.ListsAreSubscriptions | internal/pubsub/memory.go:50-51 | until Close is done, a topic's list is the channels subscribed to it, in order |
| PubSubWitness.PublishersNeverWait | internal/pubsub/memory.go:32-39 | inside a call, whoever else is inside, the next send goes through with fewer than 100 waiting, drops otherwise, and the call returns after the last |
| PubSubWitness.ReceiversNeverWait | internal/pubsub/memory.go:50-52 | a subscriber receives what is buffered at any moment, inside the calls of others and after Close |
| PubSubWitness.OrdersMayDiffer | internal/pubsub/memory.go:24-40 | two publishers can be inside at once, and two subscribers of one topic then get their messages in opposite orders |
| PubSubDelivery.SubscriberGetsAccepted | internal/pubsub/memory.go:32-38 | received messages followed by buffered ones are the accepted sends in order; nothing buffered is lost at Close |
| PubSubDelivery.DropsOnlyWhenFull | internal/pubsub/memory.go:33-37 | a message is dropped for a subscriber only with 100 waiting |
| PubSubDelivery.CallsTryTheirLists | internal/pubsub/memory.go:32-39 | a Publish that returned has tried each channel subscribed when it began once, in list order, and no other |
| PubSubOrder.SendsArePublished | internal/pubsub/memory.go:32-38 | in every run, each message sent is the message of the Publish call that sends it, to a channel that this call lists |
| PubSubOrder.EachSubscriberIsOfferedOnce | internal/pubsub/memory.go:32-39 | a Publish that returned has offered its own message once to each channel subscribed when it began and to no other; what a channel accepts from the call is that message, at most once |
| PubSubOrder.AcceptedInCallOrder | internal/pubsub/memory.go:24-40 | a channel accepts from one publisher in the order of its calls |
| PubSubOrder.PublisherOrderIsKept | internal/pubsub/memory.go:24-40 | however publishers interleave, the messages that a subscriber gets from one publisher, up to any point, are a subsequence of the messages this publisher published, in its order, each call at most once; what the subscriber has received is the front of what it was given |
| PubSubs.InMemoryPubSub.Publish | internal/pubsub/memory.go:24-40 | fails exactly when closed; else every subscriber of the topic with room gets the message once, and nobody else is touched; its steps are one Publish call of the run |
| PubSubs.InMemoryPubSub.SendOne | internal/pubsub/memory.go:32-38 | one turn of the loop: send, or drop if full |
| PubSubs.InMemoryPubSub.Subscribe | internal/pubsub/memory.go:42-53 | fails exactly when closed; else a new, empty channel is appended to the topic's list |
| PubSubs.InMemoryPubSub.Close | internal/pubsub/memory.go:55-71 | every channel is closed, once, and keeps its buffer; a second Close changes nothing |

## Left out

- HTTP requests, headers, bodies, JSON and latency: an attempt is a build error, a transport error or a status code.
- PostgreSQL beyond the row table: columns for headers, bodies and latency, cascading deletes, and rows that the engine did not write (such as RETRYING rows from the seed program).
- `Sign`, `Verify`, tokens, OAuth, API keys and roles: cryptography and thin wrappers.
- Handlers, router, configuration, CORS, request logging and the order of process shutdown: plumbing.
- `internal/pubsub/redis.go`: it rests on a library that is not part of this model.
- WebSocket pings, deadlines, read limits and the hub's own buffer of 256 pending broadcasts: only registering, unregistering and draining matter to the client set.
- Liveness: after the hub or the engine has stopped, senders can block and queued jobs can remain undelivered.
- Agreement of the database columns `circuit_state` and `consecutive_failures` with the breakers, use of per-endpoint timeouts, and "no delivery to a deactivated endpoint": the code does not provide them.
- The getters `State` and `ConsecutiveFailures`: they read fields that the contracts above already fix. `GetDeliveryLogByID` and the two other log lists read the same rows by another key.
- Rounding of float64 in the limiter and the width of the breaker's failure counter.
- From attempt 63 on, the power does not fit int64 and Go leaves its conversion to the implementation. The model has the result of amd64; one that saturates panics there as well (`EitherConversionPanics`).
- Go channels and the hub's `Client` records are values keyed by an id rather than objects, so aliasing of one channel under two names is not captured.
- Class methods are verified running alone; what other goroutines do between two of their steps is captured by the transition systems. A worker whose select would block skips that pick; in the transition system it simply waits.
- Jobs carry the number of their Dispatch call and list position, and pub/sub channels the topic they were made for; both are bookkeeping for the statements and no step depends on them.
- The transition system has one context for all workers and one closing of the channel: a second `Start` or `Stop`, and a `Stop` while a Dispatch call runs (whose next send would panic), are stated by the methods of `Engine` only.
