/** The delivery engine as one interleaved transition system: W workers, the
    bounded job channel, the breakers and the delivery-log table, stepping at
    the size of one critical section, channel operation or database call
    (internal/delivery/engine.go, internal/delivery/worker.go). */
module DeliverySystem {
  import opened Wrappers
  import opened Circuit
  import opened DeliveryLogs
  import opened Retry

  const JOB_BUFFER := 1000

  datatype Endpoint = Endpoint(id: EndpointId, maxRetries: int)

  /** A DeliveryJob, tagged with the Dispatch call and list position it is from. */
  datatype Job = Job(call: nat, position: nat, eventID: EventId, endpoint: Endpoint)

  datatype Progress = Running | Returned | Abandoned

  /** One call of Dispatch: `next` list positions are enqueued so far. */
  datatype DispatchCall = DispatchCall(eventID: EventId, endpoints: seq<Endpoint>, next: nat, progress: Progress)

  datatype Outcome = BuildError | TransportError | Response(code: int)

  /** Where a worker stands between two atomic steps, with its local variables. */
  datatype Stage =
    | Idle
    | Exited
    | Received(job: Job)
    | Looked(job: Job)
    | Admitted(job: Job)
    | Created(job: Job, id: RowId)
    | Finished(job: Job, id: RowId, outcome: Outcome)
    | Recorded(job: Job, id: RowId, outcome: Outcome)
    | Saved(job: Job, log: DeliveryLog, stored: bool)

  datatype System = System(
    calls: seq<DispatchCall>,
    queue: seq<Job>,
    closed: bool,
    cancelled: bool,
    workers: seq<Stage>,
    breakers: map<EndpointId, Breaker>,
    rows: map<RowId, DeliveryLog>)

  /** One atomic step of a worker. */
  datatype WorkStep =
    | Receive(job: Job)
    | Exit
    | Lookup(job: Job)
    | Skip(job: Job)
    | Admit(job: Job)
    | InsertFails(job: Job)
    | Insert(job: Job, id: RowId)
    | Finish(job: Job, id: RowId, outcome: Outcome)
    | Record(job: Job, id: RowId, outcome: Outcome)
    | Save(job: Job, id: RowId, outcome: Outcome, now: int, draw: nat, stored: bool)
    | Publish(job: Job, log: DeliveryLog, stored: bool)
    | MarshalFails(job: Job, log: DeliveryLog, stored: bool)

  /** `ResetBreaker`, `Cancel` and `CloseJobs` come from the environment. */
  datatype Action =
    | Dispatch(eventID: EventId, endpoints: seq<Endpoint>)
    | Enqueue(job: Job)
    | Return(call: nat)
    | Abandon(call: nat)
    | Cancel
    | CloseJobs
    | ResetBreaker(endpoint: EndpointId)
    | Work(w: nat, step: WorkStep)

  function Start(workerCount: nat): System {
    System([], [], false, false, seq(workerCount, _ => Idle), map[], map[])
  }

  function BreakerOf(s: System, e: EndpointId): Breaker {
    if e in s.breakers then s.breakers[e] else New(DEFAULT_THRESHOLD)
  }

  /** The breaker call that an attempt's outcome causes. */
  function Verdict(outcome: Outcome): Call {
    if outcome.Response? && 200 <= outcome.code < 300 then Success else Failure
  }

  /** The row as executeDelivery inserts it. */
  function FreshLog(job: Job, id: RowId): DeliveryLog {
    DeliveryLog(id, job.eventID, job.endpoint.id, PENDING, 1, None, None, None)
  }

  function FailedAttempt(outcome: Outcome, now: int, draw: nat): Failed {
    match outcome
    case BuildError => Failed(None, BuildingRequest, now, draw)
    case TransportError => Failed(None, HttpRequest, now, draw)
    case Response(code) => Failed(Some(code), HttpStatus(code), now, draw)
  }

  /** The log as executeDelivery leaves it, saves it and publishes it. */
  function FinalLog(job: Job, id: RowId, outcome: Outcome, now: int, draw: nat): DeliveryLog {
    var start := FreshLog(job, id);
    var seen := if outcome.Response? then start.(responseStatus := Some(outcome.code)) else start;
    if Verdict(outcome) == Success then seen.(status := SUCCESS, nextRetryAt := None)
    else
      SmallBackoff(1, draw);
      AfterFailure(seen, FailedAttempt(outcome, now, draw), job.endpoint.maxRetries).value
  }

  /** The stage a worker must be in to take a step ... */
  function From(step: WorkStep): Stage {
    match step
    case Receive(_) => Idle
    case Exit => Idle
    case Lookup(job) => Received(job)
    case Skip(job) => Looked(job)
    case Admit(job) => Looked(job)
    case InsertFails(job) => Admitted(job)
    case Insert(job, _) => Admitted(job)
    case Finish(job, id, _) => Created(job, id)
    case Record(job, id, outcome) => Finished(job, id, outcome)
    case Save(job, id, outcome, _, _, _) => Recorded(job, id, outcome)
    case Publish(job, log, stored) => Saved(job, log, stored)
    case MarshalFails(job, log, stored) => Saved(job, log, stored)
  }

  /** ... and the stage the step leaves it in. Only a response is published. */
  function To(step: WorkStep): Stage {
    match step
    case Receive(job) => Received(job)
    case Exit => Exited
    case Lookup(job) => Looked(job)
    case Skip(_) => Idle
    case Admit(job) => Admitted(job)
    case InsertFails(_) => Idle
    case Insert(job, id) => Created(job, id)
    case Finish(job, id, outcome) => Finished(job, id, outcome)
    case Record(job, id, outcome) => Recorded(job, id, outcome)
    case Save(job, id, outcome, now, draw, stored) =>
      if outcome.Response? then Saved(job, FinalLog(job, id, outcome, now, draw), stored) else Idle
    case Publish(_, _, _) => Idle
    case MarshalFails(_, _, _) => Idle
  }

  predicate Allowed(s: System, step: WorkStep) {
    match step
    case Receive(job) => s.queue != [] && s.queue[0] == job
    case Exit => s.cancelled || (s.closed && s.queue == [])
    case Skip(job) => BreakerOf(s, job.endpoint.id).state == Open
    case Admit(job) => BreakerOf(s, job.endpoint.id).state != Open
    case Insert(_, id) => id !in s.rows
    case Save(_, id, _, _, _, stored) => stored ==> id in s.rows
    case _ => true
  }

  /** What a worker's step does to the shared state. */
  function Effect(s: System, step: WorkStep): System
    requires Allowed(s, step)
  {
    match step
    case Receive(_) => s.(queue := s.queue[1..])
    case Lookup(job) => s.(breakers := s.breakers[job.endpoint.id := BreakerOf(s, job.endpoint.id)])
    case Insert(job, id) => s.(rows := s.rows[id := FreshLog(job, id)])
    case Record(job, _, outcome) =>
      s.(breakers := s.breakers[job.endpoint.id := Apply(BreakerOf(s, job.endpoint.id), Verdict(outcome))])
    case Save(job, id, outcome, now, draw, stored) =>
      if stored then s.(rows := s.rows[id := FinalLog(job, id, outcome, now, draw)]) else s
    case _ => s
  }

  predicate InProgress(calls: seq<DispatchCall>, call: nat) {
    call < |calls| && calls[call].progress == Running
  }

  /** The next job that a running Dispatch call wants to enqueue. */
  predicate Offers(calls: seq<DispatchCall>, job: Job) {
    && InProgress(calls, job.call)
    && job.position == calls[job.call].next < |calls[job.call].endpoints|
    && job.eventID == calls[job.call].eventID
    && job.endpoint == calls[job.call].endpoints[job.position]
  }

  function Advanced(calls: seq<DispatchCall>, job: Job): seq<DispatchCall>
    requires Offers(calls, job)
  {
    calls[job.call := calls[job.call].(next := job.position + 1)]
  }

  /** The channel is closed once, with no Dispatch running or to come. */
  predicate Enabled(s: System, a: Action) {
    match a
    case Dispatch(_, _) => !s.closed
    case Enqueue(job) => Offers(s.calls, job) && |s.queue| < JOB_BUFFER && !s.closed
    case Return(call) => InProgress(s.calls, call) && s.calls[call].next == |s.calls[call].endpoints|
    case Abandon(call) => InProgress(s.calls, call) && s.calls[call].next < |s.calls[call].endpoints|
    case Cancel => true
    case CloseJobs => !s.closed && forall call | 0 <= call < |s.calls| :: s.calls[call].progress != Running
    case ResetBreaker(_) => true
    case Work(w, step) => w < |s.workers| && s.workers[w] == From(step) && Allowed(s, step)
  }

  function Step(s: System, a: Action): System
    requires Enabled(s, a)
  {
    match a
    case Dispatch(eventID, endpoints) => s.(calls := s.calls + [DispatchCall(eventID, endpoints, 0, Running)])
    case Enqueue(job) => s.(queue := s.queue + [job], calls := Advanced(s.calls, job))
    case Return(call) => s.(calls := s.calls[call := s.calls[call].(progress := Returned)])
    case Abandon(call) => s.(calls := s.calls[call := s.calls[call].(progress := Abandoned)])
    case Cancel => s.(cancelled := true)
    case CloseJobs => s.(closed := true)
    case ResetBreaker(e) =>
      if e in s.breakers then s.(breakers := s.breakers[e := Apply(s.breakers[e], Call.Reset)]) else s
    case Work(w, step) => Effect(s, step).(workers := s.workers[w := To(step)])
  }

  lemma StepOnWorkers(s: System, a: Action)
    requires Enabled(s, a)
    ensures Step(s, a).workers == if a.Work? then s.workers[a.w := To(a.step)] else s.workers
  {
  }

  lemma StepOnQueue(s: System, a: Action)
    requires Enabled(s, a)
    ensures Step(s, a).queue == if a.Enqueue? then s.queue + [a.job]
                                else if a.Work? && a.step.Receive? then s.queue[1..]
                                else s.queue
  {
  }

  lemma StepOnCalls(s: System, a: Action)
    requires Enabled(s, a)
    ensures Step(s, a).calls
            == match a
               case Dispatch(eventID, endpoints) => s.calls + [DispatchCall(eventID, endpoints, 0, Running)]
               case Enqueue(job) => Advanced(s.calls, job)
               case Return(call) => s.calls[call := s.calls[call].(progress := Returned)]
               case Abandon(call) => s.calls[call := s.calls[call].(progress := Abandoned)]
               case _ => s.calls
  {
  }

  // Runs: any finite schedule of enabled actions

  predicate IsRun(s: System, acts: seq<Action>)
    decreases |acts|, 0
  {
    acts == [] || (IsRun(s, Init(acts)) && Enabled(Exec(s, Init(acts)), Last(acts)))
  }

  function Exec(s: System, acts: seq<Action>): System
    requires IsRun(s, acts)
    decreases |acts|, 1
  {
    if acts == [] then s else Step(Exec(s, Init(acts)), Last(acts))
  }

  function Init(acts: seq<Action>): seq<Action>
    requires acts != []
  {
    acts[..|acts| - 1]
  }

  function Last(acts: seq<Action>): Action
    requires acts != []
  {
    acts[|acts| - 1]
  }

  lemma StepsOnce(s: System, acts: seq<Action>, a: Action)
    requires IsRun(s, acts) && Enabled(Exec(s, acts), a)
    ensures IsRun(s, acts + [a]) && Exec(s, acts + [a]) == Step(Exec(s, acts), a)
  {
    hide Step, Enabled;
    assert Init(acts + [a]) == acts;
  }

  /** Two runs laid end to end are a run. */
  lemma {:induction false} RunsCompose(s: System, first: seq<Action>, second: seq<Action>)
    requires IsRun(s, first) && IsRun(Exec(s, first), second)
    ensures IsRun(s, first + second) && Exec(s, first + second) == Exec(Exec(s, first), second)
    decreases |second|
  {
    hide Step, Enabled;
    if second == [] {
      assert first + second == first;
    } else {
      RunsCompose(s, first, Init(second));
      assert Init(first + second) == first + Init(second);
    }
  }

  // Counting workers by stage

  function Weight(b: bool): nat {
    if b then 1 else 0
  }

  function Tally(workers: seq<Stage>, p: Stage -> bool): (n: nat)
    ensures n <= |workers|
  {
    if workers == [] then 0 else Weight(p(workers[0])) + Tally(workers[1..], p)
  }

  lemma {:induction false} TallyUpdate(workers: seq<Stage>, w: nat, stage: Stage, p: Stage -> bool)
    requires w < |workers|
    ensures Tally(workers[w := stage], p) + Weight(p(workers[w])) == Tally(workers, p) + Weight(p(stage))
  {
    if w > 0 {
      TallyUpdate(workers[1..], w - 1, stage, p);
      assert workers[w := stage][1..] == workers[1..][w - 1 := stage];
    } else {
      assert workers[w := stage][1..] == workers[1..];
    }
  }

  lemma {:induction false} TallyPositive(workers: seq<Stage>, w: nat, p: Stage -> bool)
    requires w < |workers| && p(workers[w])
    ensures Tally(workers, p) >= 1
  {
    if w > 0 {
      TallyPositive(workers[1..], w - 1, p);
    }
  }

  lemma {:induction false} TallyNone(workers: seq<Stage>, p: Stage -> bool)
    requires forall w | 0 <= w < |workers| :: !p(workers[w])
    ensures Tally(workers, p) == 0
  {
    if workers != [] {
      TallyNone(workers[1..], p);
    }
  }
}
