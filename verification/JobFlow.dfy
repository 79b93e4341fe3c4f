/** Where the jobs go: order through the channel, and conservation. */
module JobFlow {
  import opened DeliveryLogs
  import opened DeliverySystem

  // Order

  function EnqueuedBy(a: Action): seq<Job> {
    if a.Enqueue? then [a.job] else []
  }

  function Enqueued(acts: seq<Action>): seq<Job> {
    if acts == [] then [] else Enqueued(Init(acts)) + EnqueuedBy(Last(acts))
  }

  function TakenBy(a: Action): seq<Job> {
    if a.Work? && a.step.Receive? then [a.step.job] else []
  }

  function Taken(acts: seq<Action>): seq<Job> {
    if acts == [] then [] else Taken(Init(acts)) + TakenBy(Last(acts))
  }

  lemma FifoStep(s: System, a: Action)
    requires Enabled(s, a) && |s.queue| <= JOB_BUFFER
    ensures s.queue + EnqueuedBy(a) == TakenBy(a) + Step(s, a).queue
    ensures |Step(s, a).queue| <= JOB_BUFFER
  {
    hide Step;
    StepOnQueue(s, a);
  }

  /** Jobs leave the channel in the order they entered it, none is lost or
      invented on the way, and the channel never holds more than its buffer. */
  lemma {:induction false} ChannelIsFifo(workerCount: nat, acts: seq<Action>)
    requires IsRun(Start(workerCount), acts)
    ensures
      var s := Exec(Start(workerCount), acts);
      Taken(acts) + s.queue == Enqueued(acts) && |s.queue| <= 1000
  {
    hide Step, Enabled;
    if acts != [] {
      var init, a := Init(acts), Last(acts);
      ChannelIsFifo(workerCount, init);
      var s := Exec(Start(workerCount), init);
      FifoStep(s, a);
      calc {
        Enqueued(acts);
        (Taken(init) + s.queue) + EnqueuedBy(a);
        Taken(init) + (s.queue + EnqueuedBy(a));
        Taken(init) + (TakenBy(a) + Step(s, a).queue);
        (Taken(init) + TakenBy(a)) + Step(s, a).queue;
        Taken(acts) + Step(s, a).queue;
      }
    }
  }

  lemma ContextStep(s: System, a: Action)
    requires Enabled(s, a)
    ensures Step(s, a).cancelled <==> s.cancelled || a.Cancel?
  {
  }

  lemma {:induction false} ContextIsCancelled(workerCount: nat, acts: seq<Action>)
    requires IsRun(Start(workerCount), acts)
    ensures Exec(Start(workerCount), acts).cancelled <==> Cancel in acts
  {
    hide Step, Enabled;
    if acts != [] {
      ContextIsCancelled(workerCount, Init(acts));
      ContextStep(Exec(Start(workerCount), Init(acts)), Last(acts));
      assert acts == Init(acts) + [Last(acts)];
    }
  }

  /** Unless the context was cancelled, a worker leaves only after every job that
      was ever enqueued has been received. */
  lemma {:induction false} WorkersLeaveWhenDrained(workerCount: nat, acts: seq<Action>, w: nat)
    requires IsRun(Start(workerCount), acts) && Enabled(Exec(Start(workerCount), acts), Work(w, Exit))
    requires Cancel !in acts
    ensures Exec(Start(workerCount), acts).closed && Taken(acts) == Enqueued(acts)
  {
    ChannelIsFifo(workerCount, acts);
    ContextIsCancelled(workerCount, acts);
    hide Exec, IsRun, Taken, Enqueued;
    assert Taken(acts) + [] == Taken(acts);
  }

  function DispatchedBy(a: Action): seq<(EventId, seq<Endpoint>)> {
    if a.Dispatch? then [(a.eventID, a.endpoints)] else []
  }

  /** The Dispatch calls of a run, in order. */
  function Dispatches(acts: seq<Action>): seq<(EventId, seq<Endpoint>)> {
    if acts == [] then [] else Dispatches(Init(acts)) + DispatchedBy(Last(acts))
  }

  /** The jobs of one call, in order. */
  function OfCall(jobs: seq<Job>, call: nat): seq<Job> {
    if jobs == [] then []
    else OfCall(jobs[..|jobs| - 1], call) + if jobs[|jobs| - 1].call == call then [jobs[|jobs| - 1]] else []
  }

  /** The first n jobs that a call on this list makes. */
  function ListPrefix(call: nat, eventID: EventId, endpoints: seq<Endpoint>, n: nat): (jobs: seq<Job>)
    requires n <= |endpoints|
    ensures |jobs| == n
  {
    seq(n, i requires 0 <= i < n => Job(call, i, eventID, endpoints[i]))
  }

  /** How far one call has got, and what it has enqueued so far. */
  predicate Progressing(jobs: seq<Job>, call: nat, c: DispatchCall) {
    && c.next <= |c.endpoints|
    && (c.progress == Returned ==> c.next == |c.endpoints|)
    && OfCall(jobs, call) == ListPrefix(call, c.eventID, c.endpoints, c.next)
  }

  /** Jobs come from known calls and from positions already passed, each once. */
  predicate Accounted(jobs: seq<Job>, calls: seq<DispatchCall>) {
    && (forall job | job in jobs :: job.call < |calls| && job.position < calls[job.call].next)
    && (forall i, j | 0 <= i < j < |jobs| :: jobs[i] != jobs[j])
    && forall call | 0 <= call < |calls| :: Progressing(jobs, call, calls[call])
  }

  lemma EnqueueOnce(jobs: seq<Job>, job: Job, call: nat)
    ensures OfCall(jobs + [job], call) == OfCall(jobs, call) + if job.call == call then [job] else []
  {
    assert (jobs + [job])[..|jobs|] == jobs;
  }

  lemma {:induction false} NotYetCalled(jobs: seq<Job>, call: nat)
    requires forall job | job in jobs :: job.call < call
    ensures OfCall(jobs, call) == []
  {
    if jobs != [] {
      NotYetCalled(jobs[..|jobs| - 1], call);
    }
  }

  lemma ProgressOnce(jobs: seq<Job>, calls: seq<DispatchCall>, job: Job, call: nat)
    requires Offers(calls, job) && call < |calls| && Progressing(jobs, call, calls[call])
    ensures Progressing(jobs + [job], call, Advanced(calls, job)[call])
  {
    EnqueueOnce(jobs, job, call);
    hide OfCall;
    if call == job.call {
      var c := calls[call];
      assert ListPrefix(call, c.eventID, c.endpoints, c.next + 1)
          == ListPrefix(call, c.eventID, c.endpoints, c.next) + [job];
    } else {
      assert OfCall(jobs + [job], call) == OfCall(jobs, call);
    }
  }

  lemma EnqueueNext(jobs: seq<Job>, calls: seq<DispatchCall>, job: Job)
    requires Offers(calls, job) && Accounted(jobs, calls)
    ensures Accounted(jobs + [job], Advanced(calls, job))
  {
    forall call | 0 <= call < |calls| ensures Progressing(jobs + [job], call, Advanced(calls, job)[call]) {
      ProgressOnce(jobs, calls, job, call);
    }
    hide Progressing;
    assert job !in jobs;
  }

  lemma EnqueueStep(jobs: seq<Job>, s: System, job: Job)
    requires Enabled(s, Enqueue(job)) && Accounted(jobs, s.calls)
    ensures Accounted(jobs + [job], Step(s, Enqueue(job)).calls)
  {
    hide Accounted;
    EnqueueNext(jobs, s.calls, job);
  }

  lemma CallStep(jobs: seq<Job>, s: System, a: Action)
    requires Enabled(s, a) && Accounted(jobs, s.calls) && !a.Enqueue?
    ensures Accounted(jobs, Step(s, a).calls)
  {
    StepOnCalls(s, a);
    var calls' := Step(s, a).calls;
    forall call | 0 <= call < |calls'| ensures Progressing(jobs, call, calls'[call]) {
      if call < |s.calls| {
        assert Progressing(jobs, call, s.calls[call]);
      } else {
        NotYetCalled(jobs, call);
      }
    }
  }

  lemma AccountedStep(jobs: seq<Job>, s: System, a: Action)
    requires Enabled(s, a) && Accounted(jobs, s.calls)
    ensures Accounted(jobs + EnqueuedBy(a), Step(s, a).calls)
  {
    if a.Enqueue? {
      EnqueueStep(jobs, s, a.job);
    } else {
      CallStep(jobs, s, a);
      assert jobs + EnqueuedBy(a) == jobs;
    }
  }

  /** The channel's input is an interleaving of one list prefix per Dispatch
      call, whole if the call returned; no list position yields two jobs. */
  lemma {:induction false} InterleavesListPrefixes(workerCount: nat, acts: seq<Action>)
    requires IsRun(Start(workerCount), acts)
    ensures Accounted(Enqueued(acts), Exec(Start(workerCount), acts).calls)
  {
    hide Step;
    if acts != [] {
      InterleavesListPrefixes(workerCount, Init(acts));
      AccountedStep(Enqueued(Init(acts)), Exec(Start(workerCount), Init(acts)), Last(acts));
    }
  }

  /** A call's own event and list, and how it ended if it did. */
  predicate Matches(acts: seq<Action>, call: nat, c: DispatchCall) {
    && call < |Dispatches(acts)|
    && (c.eventID, c.endpoints) == Dispatches(acts)[call]
    && (c.progress == Progress.Abandoned <==> Action.Abandon(call) in acts)
    && (c.progress == Returned <==> Return(call) in acts)
  }

  lemma MatchesStep(s: System, acts: seq<Action>, call: nat)
    requires acts != [] && Enabled(s, Last(acts)) && |s.calls| == |Dispatches(Init(acts))|
    requires call < |Step(s, Last(acts)).calls|
    requires call < |s.calls| ==> Matches(Init(acts), call, s.calls[call])
    requires forall a | a in Init(acts) && (a.Return? || a.Abandon?) :: a.call < |s.calls|
    ensures |Step(s, Last(acts)).calls| == |Dispatches(acts)|
    ensures Matches(acts, call, Step(s, Last(acts)).calls[call])
  {
    var a := Last(acts);
    CallCount(s, a);
    StepOnCalls(s, a);
    EndsBy(acts, call);
    hide Step, Enabled, Dispatches, Init;
    if call == |s.calls| {
      assert a.Dispatch? && Step(s, a).calls[call].progress == Running;
    }
  }

  lemma EndsBy(acts: seq<Action>, call: nat)
    requires acts != []
    ensures Action.Abandon(call) in acts <==> Action.Abandon(call) in Init(acts) || Last(acts) == Action.Abandon(call)
    ensures Return(call) in acts <==> Return(call) in Init(acts) || Last(acts) == Return(call)
    ensures Dispatches(acts) == Dispatches(Init(acts)) + DispatchedBy(Last(acts))
  {
    assert acts == Init(acts) + [Last(acts)];
  }

  lemma CallCount(s: System, a: Action)
    requires Enabled(s, a)
    ensures |Step(s, a).calls| == |s.calls| + |DispatchedBy(a)|
    ensures a.Return? || a.Abandon? ==> InProgress(s.calls, a.call)
  {
    StepOnCalls(s, a);
  }

  /** The calls accounted for are the Dispatch calls that were made, with their
      own events and lists; a call is cut short only when its context is done. */
  lemma {:induction false} CallsAreDispatches(workerCount: nat, acts: seq<Action>)
    requires IsRun(Start(workerCount), acts)
    ensures |Exec(Start(workerCount), acts).calls| == |Dispatches(acts)|
    ensures forall call | 0 <= call < |Dispatches(acts)| ::
              Matches(acts, call, Exec(Start(workerCount), acts).calls[call])
    ensures forall a | a in acts && (a.Return? || a.Abandon?) :: a.call < |Dispatches(acts)|
  {
    hide Step, Enabled, Matches;
    if acts != [] {
      var init, s := Init(acts), Exec(Start(workerCount), Init(acts));
      CallsAreDispatches(workerCount, init);
      CallCount(s, Last(acts));
      assert acts == init + [Last(acts)];
      forall call | 0 <= call < |Step(s, Last(acts)).calls|
        ensures Matches(acts, call, Step(s, Last(acts)).calls[call])
      {
        MatchesStep(s, acts, call);
      }
    }
  }

  /** The job is for the i-th endpoint of the list, and the event, of its call. */
  predicate IsListed(job: Job, call: nat, i: nat, dispatch: (EventId, seq<Endpoint>)) {
    i < |dispatch.1| && job == Job(call, i, dispatch.0, dispatch.1[i])
  }

  /** Said without ListPrefix: the i-th job of a call has its i-th endpoint and
      its event, and there are no jobs of other calls. */
  lemma {:induction false} JobsFollowTheirLists(workerCount: nat, acts: seq<Action>)
    requires IsRun(Start(workerCount), acts)
    ensures forall job | job in Enqueued(acts) :: job.call < |Dispatches(acts)|
    ensures forall call, i | 0 <= call < |Dispatches(acts)| && 0 <= i < |OfCall(Enqueued(acts), call)| ::
              IsListed(OfCall(Enqueued(acts), call)[i], call, i, Dispatches(acts)[call])
    ensures forall call: nat | Return(call) in acts ::
              call < |Dispatches(acts)| && |OfCall(Enqueued(acts), call)| == |Dispatches(acts)[call].1|
  {
    hide Exec, IsRun, Enqueued, Dispatches, OfCall;
    InterleavesListPrefixes(workerCount, acts);
    CallsAreDispatches(workerCount, acts);
    var calls := Exec(Start(workerCount), acts).calls;
    forall call, i | 0 <= call < |Dispatches(acts)| && 0 <= i < |OfCall(Enqueued(acts), call)|
      ensures IsListed(OfCall(Enqueued(acts), call)[i], call, i, Dispatches(acts)[call])
    {
      assert Progressing(Enqueued(acts), call, calls[call]) && Matches(acts, call, calls[call]);
    }
    forall call: nat | Return(call) in acts
      ensures call < |Dispatches(acts)| && |OfCall(Enqueued(acts), call)| == |Dispatches(acts)[call].1|
    {
      assert Return(call).call < |Dispatches(acts)|;
      assert Progressing(Enqueued(acts), call, calls[call]) && Matches(acts, call, calls[call]);
    }
  }

  // Conservation

  datatype End = OnOpenCircuit | OnInsertFailure | WithResponse | WithError

  /** The job whose delivery ends in this way in this step, if any. */
  function EndedBy(a: Action, end: End): seq<Job> {
    match a
    case Work(_, Skip(job)) => if end == OnOpenCircuit then [job] else []
    case Work(_, InsertFails(job)) => if end == OnInsertFailure then [job] else []
    case Work(_, Save(job, _, outcome, _, _, _)) => if end == WithError && !outcome.Response? then [job] else []
    case Work(_, Publish(job, _, _)) => if end == WithResponse then [job] else []
    case Work(_, MarshalFails(job, _, _)) => if end == WithResponse then [job] else []
    case _ => []
  }

  function Ended(acts: seq<Action>, end: End): seq<Job> {
    if acts == [] then [] else Ended(Init(acts), end) + EndedBy(Last(acts), end)
  }

  /** The job in the hands of a worker, if any. */
  function InHand(stage: Stage): seq<Job> {
    if stage.Idle? || stage.Exited? then [] else [stage.job]
  }

  predicate HoldsOne(stage: Stage, which: Job -> bool) {
    InHand(stage) != [] && which(InHand(stage)[0])
  }

  function Holding(which: Job -> bool): Stage -> bool {
    stage => HoldsOne(stage, which)
  }

  function Size(jobs: seq<Job>, which: Job -> bool): nat {
    if jobs == [] then 0 else Weight(which(jobs[0])) + Size(jobs[1..], which)
  }

  function AllEnded(acts: seq<Action>, which: Job -> bool): nat {
    Size(Ended(acts, OnOpenCircuit), which) + Size(Ended(acts, OnInsertFailure), which)
    + Size(Ended(acts, WithResponse), which) + Size(Ended(acts, WithError), which)
  }

  function AllEndedBy(a: Action, which: Job -> bool): nat {
    Size(EndedBy(a, OnOpenCircuit), which) + Size(EndedBy(a, OnInsertFailure), which)
    + Size(EndedBy(a, WithResponse), which) + Size(EndedBy(a, WithError), which)
  }

  lemma {:induction false} SizeOfConcat(xs: seq<Job>, ys: seq<Job>, which: Job -> bool)
    ensures Size(xs + ys, which) == Size(xs, which) + Size(ys, which)
  {
    if xs == [] {
      assert xs + ys == ys;
    } else {
      SizeOfConcat(xs[1..], ys, which);
      assert (xs + ys)[1..] == xs[1..] + ys;
    }
  }

  lemma SizeOfOne(job: Job, which: Job -> bool)
    ensures Size([job], which) == Weight(which(job))
  {
    assert [job][1..] == [];
  }

  lemma WorkConserves(step: WorkStep, w: nat, which: Job -> bool)
    ensures Weight(HoldsOne(From(step), which)) + Size(TakenBy(Work(w, step)), which)
            == Weight(HoldsOne(To(step), which)) + AllEndedBy(Work(w, step), which)
  {
    hide FinalLog;
    if !step.Exit? {
      SizeOfOne(step.job, which);
    }
  }

  lemma JobStep(s: System, a: Action, which: Job -> bool)
    requires Enabled(s, a)
    ensures Size(s.queue, which) + Tally(s.workers, Holding(which)) + Size(EnqueuedBy(a), which)
            == Size(Step(s, a).queue, which) + Tally(Step(s, a).workers, Holding(which)) + AllEndedBy(a, which)
  {
    StepOnQueue(s, a);
    StepOnWorkers(s, a);
    if a.Work? {
      WorkConserves(a.step, a.w, which);
      assert s.workers[a.w] == From(a.step);
      assert a.step.Receive? ==> s.queue != [] && s.queue[0] == a.step.job;
      hide Step, Enabled, From, To, AllEndedBy;
      TallyUpdate(s.workers, a.w, To(a.step), Holding(which));
      if a.step.Receive? {
        SizeOfOne(a.step.job, which);
      }
    } else {
      hide Step, Enabled;
      if a.Enqueue? {
        SizeOfConcat(s.queue, [a.job], which);
      }
    }
  }

  lemma EndStep(acts: seq<Action>, which: Job -> bool)
    requires acts != []
    ensures AllEnded(acts, which) == AllEnded(Init(acts), which) + AllEndedBy(Last(acts), which)
  {
    SizeOfConcat(Ended(Init(acts), OnOpenCircuit), EndedBy(Last(acts), OnOpenCircuit), which);
    SizeOfConcat(Ended(Init(acts), OnInsertFailure), EndedBy(Last(acts), OnInsertFailure), which);
    SizeOfConcat(Ended(Init(acts), WithResponse), EndedBy(Last(acts), WithResponse), which);
    SizeOfConcat(Ended(Init(acts), WithError), EndedBy(Last(acts), WithError), which);
  }

  /** Of any class of jobs (all of them, those of an endpoint, one single job),
      as many were enqueued as are in the channel, in the hands of workers, or
      ended in one of the four ways. */
  lemma {:induction false} JobsAreConserved(workerCount: nat, acts: seq<Action>, which: Job -> bool)
    requires IsRun(Start(workerCount), acts)
    ensures
      var s := Exec(Start(workerCount), acts);
      Size(Enqueued(acts), which)
      == Size(s.queue, which) + Tally(s.workers, Holding(which)) + AllEnded(acts, which)
  {
    if acts == [] {
      TallyNone(Start(workerCount).workers, Holding(which));
    } else {
      JobsAreConserved(workerCount, Init(acts), which);
      JobStep(Exec(Start(workerCount), Init(acts)), Last(acts), which);
      EndStep(acts, which);
      SizeOfConcat(Enqueued(Init(acts)), EnqueuedBy(Last(acts)), which);
    }
  }

  function Only(job: Job): Job -> bool {
    other => other == job
  }

  lemma {:induction false} UniqueOnce(jobs: seq<Job>, job: Job)
    requires forall i, j | 0 <= i < j < |jobs| :: jobs[i] != jobs[j]
    ensures Size(jobs, Only(job)) == Weight(job in jobs)
  {
    if jobs != [] {
      UniqueOnce(jobs[1..], job);
    }
  }

  /** Hence no job is delivered twice, dropped twice, or both. */
  lemma EachJobIsInOnePlace(workerCount: nat, acts: seq<Action>, job: Job)
    requires IsRun(Start(workerCount), acts)
    ensures
      var s := Exec(Start(workerCount), acts);
      Size(s.queue, Only(job)) + Tally(s.workers, Holding(Only(job))) + AllEnded(acts, Only(job))
      == Weight(job in Enqueued(acts))
  {
    JobsAreConserved(workerCount, acts, Only(job));
    InterleavesListPrefixes(workerCount, acts);
    UniqueOnce(Enqueued(acts), job);
  }

  // Publishing

  function Count(acts: seq<Action>, p: Action -> bool): nat {
    if acts == [] then 0 else Count(Init(acts), p) + Weight(p(Last(acts)))
  }

  predicate GotResponse(a: Action) {
    a.Work? && a.step.Finish? && a.step.outcome.Response?
  }

  predicate PublishTried(a: Action) {
    a.Work? && a.step.Publish?
  }

  predicate MarshalFailed(a: Action) {
    a.Work? && a.step.MarshalFails?
  }

  /** Holding a response that was not handed to the pub/sub yet. */
  predicate Unpublished(stage: Stage) {
    stage.Saved? || ((stage.Finished? || stage.Recorded?) && stage.outcome.Response?)
  }

  lemma ResponseStep(s: System, a: Action)
    requires Enabled(s, a)
    ensures Tally(s.workers, Unpublished) + Weight(GotResponse(a))
            == Tally(Step(s, a).workers, Unpublished) + Weight(PublishTried(a)) + Weight(MarshalFailed(a))
  {
    hide Step;
    StepOnWorkers(s, a);
    if a.Work? {
      TallyUpdate(s.workers, a.w, To(a.step), Unpublished);
    }
  }

  /** Every response is published once, except for marshalling failures and
      workers that have not reached the publishing step; errors never are. */
  lemma {:induction false} ResponsesArePublished(workerCount: nat, acts: seq<Action>)
    requires IsRun(Start(workerCount), acts)
    ensures Count(acts, GotResponse)
            == Count(acts, PublishTried) + Count(acts, MarshalFailed)
               + Tally(Exec(Start(workerCount), acts).workers, Unpublished)
  {
    if acts == [] {
      TallyNone(Start(workerCount).workers, Unpublished);
    } else {
      ResponsesArePublished(workerCount, Init(acts));
      ResponseStep(Exec(Start(workerCount), Init(acts)), Last(acts));
    }
  }
}
