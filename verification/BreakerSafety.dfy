/** What the circuit breakers guarantee over every interleaving of workers. */
module BreakerSafety {
  import opened Circuit
  import opened DeliverySystem

  // Each breaker is the fold of its own calls

  /** The breaker call on endpoint `e` that an action makes, if any. */
  function CallOn(a: Action, e: EndpointId): (calls: seq<Call>)
    ensures |calls| <= 1
  {
    match a
    case ResetBreaker(f) => if e == f then [Call.Reset] else []
    case Work(_, Record(job, _, outcome)) => if job.endpoint.id == e then [Verdict(outcome)] else []
    case _ => []
  }

  function CallsOn(acts: seq<Action>, e: EndpointId): seq<Call> {
    if acts == [] then [] else CallsOn(Init(acts), e) + CallOn(Last(acts), e)
  }

  /** However the workers interleave, the breaker of an endpoint is the
      stand-alone breaker replaying the calls made on that endpoint alone. */
  lemma {:induction false} BreakerIsItsHistory(workerCount: nat, acts: seq<Action>, e: EndpointId)
    requires IsRun(Start(workerCount), acts)
    ensures BreakerOf(Exec(Start(workerCount), acts), e) == Replay(DEFAULT_THRESHOLD, CallsOn(acts, e))
  {
    hide Step, Enabled;
    if acts != [] {
      BreakerIsItsHistory(workerCount, Init(acts), e);
      StepOnBreaker(Exec(Start(workerCount), Init(acts)), Last(acts), e);
      var before := CallsOn(Init(acts), e);
      var call := CallOn(Last(acts), e);
      if call != [] {
        assert (before + call)[..|before|] == before;
      } else {
        assert before + call == before;
      }
    }
  }

  /** In every run, a delivery is skipped only when its endpoint has failed at
      least ten times since its last success, with no Reset since the last of
      these failures, and is admitted only when it has not. */
  lemma {:induction false} AdmissionFollowsHistory(workerCount: nat, acts: seq<Action>, w: nat, step: WorkStep)
    requires IsRun(Start(workerCount), acts) && Enabled(Exec(Start(workerCount), acts), Work(w, step))
    requires step.Skip? || step.Admit?
    ensures
      var calls := CallsOn(acts, step.job.endpoint.id);
      step.Skip? <==> multiset(Since(calls, Success))[Failure] >= 10 && Reset !in Since(calls, Failure)
  {
    hide Exec, IsRun, Enabled, BreakerOf, CallsOn, Since, Replay;
    SkipsWhenOpen(Exec(Start(workerCount), acts), w, step);
    BreakerIsItsHistory(workerCount, acts, step.job.endpoint.id);
    HistoryDeterminesBreaker(DEFAULT_THRESHOLD, CallsOn(acts, step.job.endpoint.id));
  }

  lemma SkipsWhenOpen(s: System, w: nat, step: WorkStep)
    requires Enabled(s, Work(w, step)) && (step.Skip? || step.Admit?)
    ensures step.Skip? <==> BreakerOf(s, step.job.endpoint.id).state == Open
  {
  }

  // The overshoot bound

  /** Admitted by IsOpen, and neither recorded nor abandoned yet. */
  predicate Pending(stage: Stage, e: EndpointId) {
    (stage.Admitted? || stage.Created? || stage.Finished?) && stage.job.endpoint.id == e
  }

  function PendingOn(e: EndpointId): Stage -> bool {
    stage => Pending(stage, e)
  }

  /** OPEN to HALF_OPEN transitions of `e` since its last recorded success. */
  function Reopenings(s: System, acts: seq<Action>, e: EndpointId): nat
    requires IsRun(s, acts)
  {
    if acts == [] then 0
    else NextReopenings(Exec(s, Init(acts)), Last(acts), e, Reopenings(s, Init(acts), e))
  }

  function NextReopenings(s: System, a: Action, e: EndpointId, reopenings: nat): nat {
    if CallOn(a, e) == [Success] then 0
    else if a == ResetBreaker(e) && BreakerOf(s, e).state == Open then reopenings + 1
    else reopenings
  }

  /** The inductive form of the bound: a closed breaker is below its threshold,
      an open one admits nobody, and a half-open one admits at most everybody.
      `extra` is workerCount for each reopening. */
  predicate Bounded(b: Breaker, pending: nat, workerCount: nat, extra: int) {
    && b.threshold == DEFAULT_THRESHOLD
    && pending <= workerCount
    && match b.state
       case Closed => b.consecutiveFailures < b.threshold && extra == 0
       case Open =>
         && b.consecutiveFailures >= b.threshold
         && b.consecutiveFailures + pending <= b.threshold - 1 + workerCount + extra
       case HalfOpen =>
         && b.consecutiveFailures >= b.threshold
         && b.consecutiveFailures <= b.threshold - 1 + extra
  }

  function BreakerAfter(s: System, a: Action, e: EndpointId): Breaker {
    var call := CallOn(a, e);
    if call == [] then BreakerOf(s, e) else Apply(BreakerOf(s, e), call[0])
  }

  lemma StepOnBreaker(s: System, a: Action, e: EndpointId)
    requires Enabled(s, a)
    ensures BreakerOf(Step(s, a), e) == BreakerAfter(s, a, e)
  {
  }

  /** What a step makes of the allowance for reopenings. */
  function NextExtra(s: System, a: Action, e: EndpointId, workerCount: nat, extra: int): int {
    if CallOn(a, e) == [Success] then 0
    else if a == ResetBreaker(e) && BreakerOf(s, e).state == Open then extra + workerCount
    else extra
  }

  lemma BoundStep(s: System, a: Action, e: EndpointId, workerCount: nat, extra: int)
    requires Enabled(s, a) && |s.workers| == workerCount
    requires Bounded(BreakerOf(s, e), Tally(s.workers, PendingOn(e)), workerCount, extra)
    ensures Bounded(BreakerAfter(s, a, e), Tally(Step(s, a).workers, PendingOn(e)), workerCount,
                    NextExtra(s, a, e, workerCount, extra))
  {
    hide Step;
    StepOnWorkers(s, a);
    if a.Work? {
      TallyUpdate(s.workers, a.w, To(a.step), PendingOn(e));
    }
  }

  lemma ExtraPerReopening(s: System, a: Action, e: EndpointId, workerCount: nat, r: nat)
    ensures NextExtra(s, a, e, workerCount, workerCount * r) == workerCount * NextReopenings(s, a, e, r)
  {
    assert workerCount * (r + 1) == workerCount * r + workerCount;
  }

  lemma {:induction false} BoundHolds(workerCount: nat, acts: seq<Action>, e: EndpointId)
    requires IsRun(Start(workerCount), acts)
    ensures |Exec(Start(workerCount), acts).workers| == workerCount
    ensures
      var s := Exec(Start(workerCount), acts);
      Bounded(BreakerOf(s, e), Tally(s.workers, PendingOn(e)), workerCount,
              workerCount * Reopenings(Start(workerCount), acts, e))
  {
    hide Step, NextReopenings;
    if acts == [] {
      TallyNone(Start(workerCount).workers, PendingOn(e));
    } else {
      BoundHolds(workerCount, Init(acts), e);
      var s, a := Exec(Start(workerCount), Init(acts)), Last(acts);
      var r := Reopenings(Start(workerCount), Init(acts), e);
      BoundStep(s, a, e, workerCount, workerCount * r);
      ExtraPerReopening(s, a, e, workerCount, r);
      StepOnBreaker(s, a, e);
      StepOnWorkers(s, a);
    }
  }

  /** In every state a Reset may come from outside. It reopens an open breaker,
      whatever is in flight, and changes nothing else. */
  lemma ResetIsAlwaysPossible(s: System, e: EndpointId)
    ensures Enabled(s, ResetBreaker(e))
    ensures
      var s', b := Step(s, ResetBreaker(e)), BreakerOf(s, e);
      && BreakerOf(s', e) == (if b.state == Open then b.(state := HalfOpen) else b)
      && (forall f | f != e :: BreakerOf(s', f) == BreakerOf(s, f))
      && s'.(breakers := s.breakers) == s
  {
  }

  /** In every interleaving of W workers, failures plus admitted attempts stay
      below threshold + W, plus W for every time the breaker was reopened since
      the last success. */
  lemma {:induction false} FailuresAreBounded(workerCount: nat, acts: seq<Action>, e: EndpointId)
    requires IsRun(Start(workerCount), acts)
    ensures
      var s := Exec(Start(workerCount), acts);
      BreakerOf(s, e).consecutiveFailures + Tally(s.workers, PendingOn(e))
      <= 9 + workerCount * (1 + Reopenings(Start(workerCount), acts, e))
    ensures ResetBreaker(e) !in acts ==>
              BreakerOf(Exec(Start(workerCount), acts), e).consecutiveFailures <= 9 + workerCount
  {
    hide Exec, IsRun, Bounded, Step;
    BoundHolds(workerCount, acts, e);
    var s := Exec(Start(workerCount), acts);
    var r := Reopenings(Start(workerCount), acts, e);
    BoundedTotal(BreakerOf(s, e), Tally(s.workers, PendingOn(e)), workerCount, r);
    if ResetBreaker(e) !in acts {
      NoReopenings(Start(workerCount), acts, e);
    }
  }

  lemma BoundedTotal(b: Breaker, pending: nat, workerCount: nat, r: nat)
    requires Bounded(b, pending, workerCount, workerCount * r)
    ensures b.consecutiveFailures + pending <= DEFAULT_THRESHOLD - 1 + workerCount * (1 + r)
    ensures r == 0 ==> b.consecutiveFailures <= DEFAULT_THRESHOLD + workerCount - 1
  {
    assert workerCount * (1 + r) == workerCount + workerCount * r;
  }

  lemma {:induction false} NoReopenings(s: System, acts: seq<Action>, e: EndpointId)
    requires IsRun(s, acts) && ResetBreaker(e) !in acts
    ensures Reopenings(s, acts, e) == 0
  {
    if acts != [] {
      NoReopenings(s, Init(acts), e);
    }
  }

  // An open breaker with nothing in flight

  predicate Quiet(s: System, e: EndpointId) {
    BreakerOf(s, e).state == Open && forall w | 0 <= w < |s.workers| :: !Pending(s.workers[w], e)
  }

  /** The step lets a job for `e` past the breaker, or acts on one that is past. */
  predicate Attempts(a: Action, e: EndpointId) {
    match a
    case Work(_, Admit(job)) => job.endpoint.id == e
    case Work(_, InsertFails(job)) => job.endpoint.id == e
    case Work(_, Insert(job, _)) => job.endpoint.id == e
    case Work(_, Finish(job, _, _)) => job.endpoint.id == e
    case Work(_, Record(job, _, _)) => job.endpoint.id == e
    case _ => false
  }

  /** The worker is past the recording of an attempt on `e`. */
  predicate WindingUp(stage: Stage, e: EndpointId) {
    (stage.Recorded? || stage.Saved?) && stage.job.endpoint.id == e
  }

  predicate WindsUp(step: WorkStep, e: EndpointId) {
    (step.Save? || step.Publish? || step.MarshalFails?) && step.job.endpoint.id == e
  }

  /** Nobody winds up an attempt on `e` that `s` did not already have recorded. */
  predicate Inherited(s: System, workers: seq<Stage>, e: EndpointId) {
    && |workers| == |s.workers|
    && forall w | 0 <= w < |workers| && WindingUp(workers[w], e) ::
         WindingUp(s.workers[w], e) && workers[w].job == s.workers[w].job
  }

  lemma ShutStep(s: System, mid: System, a: Action, e: EndpointId)
    requires Quiet(mid, e) && Inherited(s, mid.workers, e)
    requires Enabled(mid, a) && a != ResetBreaker(e)
    ensures BreakerOf(Step(mid, a), e) == BreakerOf(mid, e)
    ensures Quiet(Step(mid, a), e) && Inherited(s, Step(mid, a).workers, e) && !Attempts(a, e)
    ensures a.Work? && WindsUp(a.step, e) ==>
              a.w < |s.workers| && WindingUp(s.workers[a.w], e) && a.step.job == s.workers[a.w].job
  {
    StepOnBreaker(mid, a, e);
    StepOnWorkers(mid, a);
    if a.Work? {
      assert !Pending(mid.workers[a.w], e);
      assert !Attempts(a, e);
    }
  }

  /** From there on, without a Reset, the breaker does not change: no job for
      the endpoint is admitted, inserted, sent or recorded, and what is still
      saved or published is an attempt that was already recorded before. */
  lemma {:induction false} OpenStaysShut(s: System, acts: seq<Action>, e: EndpointId)
    requires Quiet(s, e) && IsRun(s, acts) && ResetBreaker(e) !in acts
    ensures BreakerOf(Exec(s, acts), e) == BreakerOf(s, e) && Quiet(Exec(s, acts), e)
    ensures Inherited(s, Exec(s, acts).workers, e)
    ensures forall a | a in acts :: !Attempts(a, e)
    ensures forall a | a in acts && a.Work? && WindsUp(a.step, e) ::
              a.w < |s.workers| && WindingUp(s.workers[a.w], e) && a.step.job == s.workers[a.w].job
  {
    if acts != [] {
      OpenStaysShut(s, Init(acts), e);
      ShutStep(s, Exec(s, Init(acts)), Last(acts), e);
      assert acts == Init(acts) + [Last(acts)];
    }
  }
}
