/** Schedules that show the breaker bounds cannot be improved, and exactly when
    HALF_OPEN lets a single probe through. */
module BreakerWitness {
  import opened Circuit
  import opened DeliveryLogs
  import opened DeliverySystem
  import opened BreakerSafety

  /** A run from the start, with nothing queued and no shutdown. */
  predicate Ready(workerCount: nat, acts: seq<Action>) {
    && IsRun(Start(workerCount), acts)
    && var s := Exec(Start(workerCount), acts);
       |s.workers| == workerCount && s.queue == [] && !s.closed
  }

  /** The breaker and the stages that a run has reached, for endpoint 0. */
  predicate Reaches(workerCount: nat, acts: seq<Action>, b: Breaker, workers: seq<Stage>) {
    && Ready(workerCount, acts)
    && var s := Exec(Start(workerCount), acts);
       BreakerOf(s, 0) == b && s.workers == workers
  }

  /** Whether endpoint 0 was reset, and how often that reopened its breaker. */
  function Reopened(workerCount: nat, acts: seq<Action>): (bool, nat)
    requires IsRun(Start(workerCount), acts)
  {
    (ResetBreaker(0) in acts, Reopenings(Start(workerCount), acts, 0))
  }

  lemma NotReopened(workerCount: nat, acts: seq<Action>, a: Action)
    requires IsRun(Start(workerCount), acts) && Enabled(Exec(Start(workerCount), acts), a)
    requires a != ResetBreaker(0) && CallOn(a, 0) != [Success]
    ensures IsRun(Start(workerCount), acts + [a])
    ensures Exec(Start(workerCount), acts + [a]) == Step(Exec(Start(workerCount), acts), a)
    ensures Reopened(workerCount, acts + [a]) == Reopened(workerCount, acts)
  {
    StepsOnce(Start(workerCount), acts, a);
    assert Init(acts + [a]) == acts;
  }

  lemma {:induction false} FreshId(ids: set<RowId>) returns (id: RowId)
    ensures id !in ids && forall k | k in ids :: k < id
    decreases |ids|
  {
    if ids == {} {
      id := 0;
    } else {
      var k :| k in ids;
      var rest := ids - {k};
      assert |rest| < |ids|;
      var above := FreshId(rest);
      id := if k < above then above else k + 1;
      assert forall j | j in ids :: j == k || j in rest;
    }
  }

  /** An idle worker picks up a new job while the breaker is not open. */
  lemma AdmitOne(workerCount: nat, acts: seq<Action>, b: Breaker, workers: seq<Stage>, w: nat)
    returns (more: seq<Action>, job: Job)
    requires Reaches(workerCount, acts, b, workers) && b.state != Open
    requires w < workerCount && workers[w] == Idle
    ensures job.endpoint.id == 0
    ensures Reaches(workerCount, more, b, workers[w := Admitted(job)])
    ensures Reopened(workerCount, more) == Reopened(workerCount, acts)
  {
    var start := Start(workerCount);
    var s0 := Exec(start, acts);
    var ep := Endpoint(0, 1);
    job := Job(|s0.calls|, 0, 0, ep);
    NotReopened(workerCount, acts, Dispatch(0, [ep]));
    var a1 := acts + [Dispatch(0, [ep])];
    NotReopened(workerCount, a1, Enqueue(job));
    var a2 := a1 + [Enqueue(job)];
    more := AdmitQueued(workerCount, a2, w, job);
  }

  lemma ReceiveOnce(workerCount: nat, acts: seq<Action>, w: nat, job: Job) returns (more: seq<Action>)
    requires IsRun(Start(workerCount), acts)
    requires
      var s := Exec(Start(workerCount), acts);
      && |s.workers| == workerCount && !s.closed && w < workerCount
      && s.queue == [job] && s.workers[w] == Idle
    ensures
      var s := Exec(Start(workerCount), acts);
      Reaches(workerCount, more, BreakerOf(s, 0), s.workers[w := Received(job)])
    ensures Reopened(workerCount, more) == Reopened(workerCount, acts)
  {
    NotReopened(workerCount, acts, Work(w, Receive(job)));
    more := acts + [Work(w, Receive(job))];
  }

  lemma AdmitQueued(workerCount: nat, acts: seq<Action>, w: nat, job: Job) returns (more: seq<Action>)
    requires IsRun(Start(workerCount), acts)
    requires
      var s := Exec(Start(workerCount), acts);
      && |s.workers| == workerCount && !s.closed && w < workerCount
      && s.queue == [job] && s.workers[w] == Idle && job.endpoint.id == 0 && BreakerOf(s, 0).state != Open
    ensures
      var s := Exec(Start(workerCount), acts);
      Reaches(workerCount, more, BreakerOf(s, 0), s.workers[w := Admitted(job)])
    ensures Reopened(workerCount, more) == Reopened(workerCount, acts)
  {
    hide Exec, IsRun;
    var s := Exec(Start(workerCount), acts);
    var b, workers := BreakerOf(s, 0), s.workers;
    var mid := ReceiveOnce(workerCount, acts, w, job);
    mid := WorkOnce(workerCount, mid, b, workers[w := Received(job)], w, Lookup(job));
    assert workers[w := Received(job)][w := Looked(job)] == workers[w := Looked(job)];
    more := WorkOnce(workerCount, mid, b, workers[w := Looked(job)], w, Admit(job));
    assert workers[w := Looked(job)][w := Admitted(job)] == workers[w := Admitted(job)];
  }

  lemma WorkOnce(workerCount: nat, acts: seq<Action>, b: Breaker, workers: seq<Stage>, w: nat, step: WorkStep)
    returns (more: seq<Action>)
    requires Reaches(workerCount, acts, b, workers) && !step.Receive?
    requires w < workerCount && workers[w] == From(step) && Allowed(Exec(Start(workerCount), acts), step)
    requires CallOn(Work(w, step), 0) != [Success]
    ensures
      var call := CallOn(Work(w, step), 0);
      Reaches(workerCount, more, if call == [] then b else Apply(b, call[0]), workers[w := To(step)])
    ensures Reopened(workerCount, more) == Reopened(workerCount, acts)
  {
    var s := Exec(Start(workerCount), acts);
    NotReopened(workerCount, acts, Work(w, step));
    StepOnBreaker(s, Work(w, step), 0);
    StepOnWorkers(s, Work(w, step));
    more := acts + [Work(w, step)];
  }

  /** An admitted attempt fails in transport and its worker becomes idle. */
  lemma FailOne(workerCount: nat, acts: seq<Action>, b: Breaker, workers: seq<Stage>, w: nat)
    returns (more: seq<Action>)
    requires Reaches(workerCount, acts, b, workers)
    requires w < workerCount && workers[w].Admitted? && workers[w].job.endpoint.id == 0
    ensures Reaches(workerCount, more, Apply(b, Failure), workers[w := Idle])
    ensures Reopened(workerCount, more) == Reopened(workerCount, acts)
  {
    hide Exec, IsRun, FinalLog, Reopened, Step, Enabled;
    var job := workers[w].job;
    var id := FreshId(Exec(Start(workerCount), acts).rows.Keys);
    var ws1, ws2 := workers[w := Created(job, id)], workers[w := Finished(job, id, TransportError)];
    var ws3 := workers[w := Recorded(job, id, TransportError)];
    var mid := WorkOnce(workerCount, acts, b, workers, w, Insert(job, id));
    mid := WorkOnce(workerCount, mid, b, ws1, w, Finish(job, id, TransportError));
    assert ws1[w := Finished(job, id, TransportError)] == ws2;
    mid := WorkOnce(workerCount, mid, b, ws2, w, Record(job, id, TransportError));
    assert ws2[w := Recorded(job, id, TransportError)] == ws3;
    more := WorkOnce(workerCount, mid, Apply(b, Failure), ws3, w, Save(job, id, TransportError, 0, 0, false));
    assert ws3[w := Idle] == workers[w := Idle];
  }

  /** The breaker after n failures of a single worker. */
  function Failing(n: nat): Breaker {
    Breaker(if n < DEFAULT_THRESHOLD then Closed else Open, n, DEFAULT_THRESHOLD)
  }

  function AllIdle(workerCount: nat): seq<Stage> {
    seq(workerCount, _ => Idle)
  }

  lemma {:induction false} FailInTurn(workerCount: nat, n: nat) returns (acts: seq<Action>)
    requires workerCount >= 1 && n <= DEFAULT_THRESHOLD
    ensures Reaches(workerCount, acts, Failing(n), AllIdle(workerCount))
    ensures Reopened(workerCount, acts) == (false, 0)
  {
    if n == 0 {
      acts := [];
    } else {
      var before := FailInTurn(workerCount, n - 1);
      var mid, job := AdmitOne(workerCount, before, Failing(n - 1), AllIdle(workerCount), 0);
      acts := FailOne(workerCount, mid, Failing(n - 1), AllIdle(workerCount)[0 := Admitted(job)], 0);
      assert AllIdle(workerCount)[0 := Admitted(job)][0 := Idle] == AllIdle(workerCount);
    }
  }

  /** The first k workers hold an admitted attempt, the others are idle. */
  predicate FirstAdmitted(workers: seq<Stage>, k: nat) {
    forall w | 0 <= w < |workers| ::
      if w < k then workers[w].Admitted? && workers[w].job.endpoint.id == 0 else workers[w] == Idle
  }

  lemma {:induction false} AdmitFirst(workerCount: nat, acts: seq<Action>, b: Breaker, k: nat)
    returns (more: seq<Action>, workers: seq<Stage>)
    requires Reaches(workerCount, acts, b, AllIdle(workerCount)) && b.state != Open && k <= workerCount
    ensures Reaches(workerCount, more, b, workers) && FirstAdmitted(workers, k)
    ensures Reopened(workerCount, more) == Reopened(workerCount, acts)
  {
    if k == 0 {
      more, workers := acts, AllIdle(workerCount);
    } else {
      var mid, before := AdmitFirst(workerCount, acts, b, k - 1);
      var job;
      more, job := AdmitOne(workerCount, mid, b, before, k - 1);
      workers := before[k - 1 := Admitted(job)];
    }
  }

  /** The breaker after n more failures. */
  function Failures(b: Breaker, n: nat): Breaker
    decreases n
  {
    if n == 0 then b else Failures(Apply(b, Failure), n - 1)
  }

  lemma {:induction false} FailuresAddUp(b: Breaker, n: nat)
    requires n > 0 && b.consecutiveFailures + 1 >= b.threshold
    ensures Failures(b, n) == Breaker(Open, b.consecutiveFailures + n, b.threshold)
    decreases n
  {
    if n > 1 {
      FailuresAddUp(Apply(b, Failure), n - 1);
    }
  }

  lemma {:induction false} FailFirst(workerCount: nat, acts: seq<Action>, b: Breaker, workers: seq<Stage>, k: nat)
    returns (more: seq<Action>)
    requires Reaches(workerCount, acts, b, workers) && FirstAdmitted(workers, k) && k <= workerCount
    ensures Reaches(workerCount, more, Failures(b, k), AllIdle(workerCount))
    ensures Reopened(workerCount, more) == Reopened(workerCount, acts)
    decreases k
  {
    if k == 0 {
      more := acts;
      assert workers == AllIdle(workerCount);
    } else {
      var mid := FailOne(workerCount, acts, b, workers, k - 1);
      more := FailFirst(workerCount, mid, Apply(b, Failure), workers[k - 1 := Idle], k - 1);
    }
  }

  /** All W workers are admitted by a breaker at or next to its threshold, and
      then all of them fail. */
  lemma FailTogether(workerCount: nat, acts: seq<Action>, b: Breaker) returns (more: seq<Action>)
    requires workerCount >= 1 && Reaches(workerCount, acts, b, AllIdle(workerCount))
    requires b.state != Open && b.consecutiveFailures + 1 >= b.threshold
    ensures Reaches(workerCount, more, Breaker(Open, b.consecutiveFailures + workerCount, b.threshold),
                    AllIdle(workerCount))
    ensures Reopened(workerCount, more) == Reopened(workerCount, acts)
  {
    var mid, workers := AdmitFirst(workerCount, acts, b, workerCount);
    more := FailFirst(workerCount, mid, b, workers, workerCount);
    FailuresAddUp(b, workerCount);
  }

  /** An open breaker with `failures` failures, reopened by a Reset. */
  lemma ReopenOnce(workerCount: nat, acts: seq<Action>, failures: nat) returns (more: seq<Action>)
    requires Reaches(workerCount, acts, Breaker(Open, failures, DEFAULT_THRESHOLD), AllIdle(workerCount))
    ensures Reaches(workerCount, more, Breaker(HalfOpen, failures, DEFAULT_THRESHOLD), AllIdle(workerCount))
    ensures Reopened(workerCount, more) == (true, Reopened(workerCount, acts).1 + 1)
  {
    StepsOnce(Start(workerCount), acts, ResetBreaker(0));
    more := acts + [ResetBreaker(0)];
    assert Init(more) == acts && Last(more) == ResetBreaker(0);
  }

  lemma {:induction false} Overshoot(workerCount: nat, r: nat) returns (acts: seq<Action>)
    requires workerCount >= 1
    ensures Reaches(workerCount, acts,
                    Breaker(Open, DEFAULT_THRESHOLD - 1 + workerCount * (1 + r), DEFAULT_THRESHOLD),
                    AllIdle(workerCount))
    ensures Reopened(workerCount, acts) == (r > 0, r)
    decreases r
  {
    hide Reaches, Reopened;
    if r == 0 {
      var below := FailInTurn(workerCount, DEFAULT_THRESHOLD - 1);
      acts := FailTogether(workerCount, below, Failing(DEFAULT_THRESHOLD - 1));
    } else {
      var failures := DEFAULT_THRESHOLD - 1 + workerCount * r;
      var before := Overshoot(workerCount, r - 1);
      var half := ReopenOnce(workerCount, before, failures);
      acts := FailTogether(workerCount, half, Breaker(HalfOpen, failures, DEFAULT_THRESHOLD));
      assert workerCount * (1 + r) == workerCount * r + workerCount;
    }
  }

  /** The bound of FailuresAreBounded is reached for every number of workers and
      of reopenings, and for none without any Reset at all. */
  lemma {:induction false} OvershootIsReached(workerCount: nat, r: nat) returns (acts: seq<Action>)
    requires workerCount >= 1
    ensures IsRun(Start(workerCount), acts)
    ensures Reopenings(Start(workerCount), acts, 0) == r && (r == 0 ==> ResetBreaker(0) !in acts)
    ensures BreakerOf(Exec(Start(workerCount), acts), 0).consecutiveFailures == 9 + workerCount * (1 + r)
  {
    acts := Overshoot(workerCount, r);
  }

  /** A HALF_OPEN breaker has at most one admitted attempt in flight. */
  predicate SingleProbe(s: System, e: EndpointId) {
    BreakerOf(s, e).state == HalfOpen ==> Tally(s.workers, PendingOn(e)) <= 1
  }

  lemma {:induction false} TallyAll(workers: seq<Stage>, k: nat, p: Stage -> bool)
    requires k <= |workers| && forall w | 0 <= w < k :: p(workers[w])
    ensures Tally(workers, p) >= k
  {
    if k > 0 {
      TallyAll(workers[1..], k - 1, p);
    }
  }

  lemma ManyProbes(workerCount: nat) returns (acts: seq<Action>)
    requires workerCount >= 1
    ensures IsRun(Start(workerCount), acts)
    ensures
      var s := Exec(Start(workerCount), acts);
      BreakerOf(s, 0).state == HalfOpen && Tally(s.workers, PendingOn(0)) >= workerCount
  {
    var open := FailInTurn(workerCount, DEFAULT_THRESHOLD);
    var reset := ReopenOnce(workerCount, open, DEFAULT_THRESHOLD);
    var half := Breaker(HalfOpen, DEFAULT_THRESHOLD, DEFAULT_THRESHOLD);
    var workers;
    acts, workers := AdmitFirst(workerCount, reset, half, workerCount);
    TallyAll(workers, workerCount, PendingOn(0));
  }

  /** A reset is meant to allow a single probe request. It does in every run
      exactly when there is at most one worker: nothing in HALF_OPEN counts
      the probes, and all W workers can be admitted. */
  lemma SingleProbeNeedsOneWorker(workerCount: nat)
    ensures (forall acts, e | IsRun(Start(workerCount), acts) :: SingleProbe(Exec(Start(workerCount), acts), e))
            <==> workerCount <= 1
  {
    if workerCount <= 1 {
      forall acts, e | IsRun(Start(workerCount), acts)
        ensures SingleProbe(Exec(Start(workerCount), acts), e)
      {
        BoundHolds(workerCount, acts, e);
      }
    } else {
      var acts := ManyProbes(workerCount);
      assert !SingleProbe(Exec(Start(workerCount), acts), 0);
    }
  }

  // Exactly when an open breaker stays open

  /** The worker holds an attempt on `e` that may still be recorded as a success. */
  predicate MaySucceed(stage: Stage, e: EndpointId) {
    Pending(stage, e) && (stage.Finished? ==> Verdict(stage.outcome) == Success)
  }

  predicate Doomed(s: System, e: EndpointId) {
    BreakerOf(s, e).state == Open && forall w | 0 <= w < |s.workers| :: !MaySucceed(s.workers[w], e)
  }

  lemma DoomedStep(s: System, a: Action, e: EndpointId)
    requires Doomed(s, e) && Enabled(s, a) && a != ResetBreaker(e)
    ensures Doomed(Step(s, a), e)
  {
    StepOnBreaker(s, a, e);
    StepOnWorkers(s, a);
    hide Step;
    if a.Work? {
      assert !MaySucceed(s.workers[a.w], e);
    }
  }

  lemma {:induction false} DoomedStaysOpen(s: System, acts: seq<Action>, e: EndpointId)
    requires Doomed(s, e) && IsRun(s, acts) && ResetBreaker(e) !in acts
    ensures Doomed(Exec(s, acts), e)
  {
    hide Step, Enabled, Doomed;
    if acts != [] {
      assert acts == Init(acts) + [Last(acts)];
      DoomedStaysOpen(s, Init(acts), e);
      DoomedStep(Exec(s, Init(acts)), Last(acts), e);
    }
  }

  /** One more step of worker `w` on a run. */
  lemma OneMore(s: System, acts: seq<Action>, w: nat, e: EndpointId, step: WorkStep) returns (more: seq<Action>)
    requires IsRun(s, acts) && w < |Exec(s, acts).workers| && Exec(s, acts).workers[w] == From(step)
    requires Allowed(Exec(s, acts), step)
    ensures more == acts + [Work(w, step)] && IsRun(s, more)
    ensures Exec(s, more).workers == Exec(s, acts).workers[w := To(step)]
    ensures BreakerOf(Exec(s, more), e) == BreakerAfter(Exec(s, acts), Work(w, step), e)
  {
    StepsOnce(s, acts, Work(w, step));
    StepOnWorkers(Exec(s, acts), Work(w, step));
    StepOnBreaker(Exec(s, acts), Work(w, step), e);
    more := acts + [Work(w, step)];
    hide Step;
  }

  lemma FreshIsAllowed(s: System, job: Job, id: RowId)
    requires id !in s.rows
    ensures Allowed(s, Insert(job, id))
  {
  }

  lemma AlwaysAllowed(s: System, step: WorkStep)
    requires step.Finish? || step.Record?
    ensures Allowed(s, step)
  {
  }

  /** Such an attempt can go on to succeed, and that closes the breaker. */
  lemma {:induction false} SuccessCloses(s: System, w: nat, e: EndpointId) returns (acts: seq<Action>)
    requires w < |s.workers| && MaySucceed(s.workers[w], e)
    ensures IsRun(s, acts) && ResetBreaker(e) !in acts
    ensures BreakerOf(Exec(s, acts), e).state == Closed
  {
    acts := [];
    assert IsRun(s, acts) && Exec(s, acts) == s;
    hide Exec, IsRun;
    match s.workers[w]
    case Admitted(job) =>
      acts := SucceedAdmitted(s, acts, w, job);
    case Created(job, id) =>
      acts := SucceedCreated(s, acts, w, job, id);
    case Finished(job, id, outcome) =>
      acts := SucceedFinished(s, acts, w, job, id, outcome);
  }

  lemma SucceedFinished(s: System, acts: seq<Action>, w: nat, job: Job, id: RowId, outcome: Outcome)
    returns (more: seq<Action>)
    requires IsRun(s, acts) && ResetBreaker(job.endpoint.id) !in acts
    requires w < |Exec(s, acts).workers| && Exec(s, acts).workers[w] == Finished(job, id, outcome)
    requires Verdict(outcome) == Success
    ensures IsRun(s, more) && ResetBreaker(job.endpoint.id) !in more
    ensures BreakerOf(Exec(s, more), job.endpoint.id).state == Closed
  {
    hide Exec, IsRun, Allowed;
    AlwaysAllowed(Exec(s, acts), Record(job, id, outcome));
    more := OneMore(s, acts, w, job.endpoint.id, Record(job, id, outcome));
  }

  lemma SucceedCreated(s: System, acts: seq<Action>, w: nat, job: Job, id: RowId) returns (more: seq<Action>)
    requires IsRun(s, acts) && ResetBreaker(job.endpoint.id) !in acts
    requires w < |Exec(s, acts).workers| && Exec(s, acts).workers[w] == Created(job, id)
    ensures IsRun(s, more) && ResetBreaker(job.endpoint.id) !in more
    ensures BreakerOf(Exec(s, more), job.endpoint.id).state == Closed
  {
    hide Exec, IsRun, Allowed, BreakerAfter;
    AlwaysAllowed(Exec(s, acts), Finish(job, id, Response(200)));
    more := OneMore(s, acts, w, job.endpoint.id, Finish(job, id, Response(200)));
    more := SucceedFinished(s, more, w, job, id, Response(200));
  }

  lemma SucceedAdmitted(s: System, acts: seq<Action>, w: nat, job: Job) returns (more: seq<Action>)
    requires IsRun(s, acts) && ResetBreaker(job.endpoint.id) !in acts
    requires w < |Exec(s, acts).workers| && Exec(s, acts).workers[w] == Admitted(job)
    ensures IsRun(s, more) && ResetBreaker(job.endpoint.id) !in more
    ensures BreakerOf(Exec(s, more), job.endpoint.id).state == Closed
  {
    hide Exec, IsRun, Allowed, BreakerAfter;
    var id := FreshId(Exec(s, acts).rows.Keys);
    FreshIsAllowed(Exec(s, acts), job, id);
    more := OneMore(s, acts, w, job.endpoint.id, Insert(job, id));
    more := SucceedCreated(s, more, w, job, id);
  }

  /** An open breaker stays open in every continuation without a Reset exactly
      when no worker holds an admitted attempt that may still succeed. */
  lemma OpenStaysOpenIffDoomed(s: System, e: EndpointId)
    requires BreakerOf(s, e).state == Open
    ensures (forall acts | IsRun(s, acts) && ResetBreaker(e) !in acts :: BreakerOf(Exec(s, acts), e).state == Open)
            <==> (forall w | 0 <= w < |s.workers| :: !MaySucceed(s.workers[w], e))
  {
    if w :| 0 <= w < |s.workers| && MaySucceed(s.workers[w], e) {
      var acts := SuccessCloses(s, w, e);
      assert BreakerOf(Exec(s, acts), e).state != Open;
    } else {
      forall acts | IsRun(s, acts) && ResetBreaker(e) !in acts ensures BreakerOf(Exec(s, acts), e).state == Open {
        DoomedStaysOpen(s, acts, e);
      }
    }
  }
}
