/** internal/delivery/engine.go: the worker pool and its job channel. */
module Engines {
  import opened Circuit
  import opened DeliveryLogs
  import opened DeliverySystem
  import opened JobFlow
  import opened Workers

  /** A cancellable context, as the workers see it. */
  class Context {
    var done: bool

    constructor ()
      ensures !done
    {
      done := false;
    }
  }

  /** A worker goroutine: the worker and the context that it was started with. */
  datatype Launched = Launched(worker: Worker, ctx: Context)

  class Engine {
    const pool: DeliveryLogTable
    const pubsub: Outbox
    const breakerMgr: BreakerManager
    const workerCount: int
    const jobChan: JobChannel
    var cancel: Context?
    var launched: seq<Launched>

    constructor (pool: DeliveryLogTable, pubsub: Outbox, breakerMgr: BreakerManager, workerCount: int)
      ensures this.pool == pool && this.pubsub == pubsub && this.breakerMgr == breakerMgr
      ensures this.workerCount == workerCount && launched == [] && cancel == null
      ensures fresh(jobChan) && jobChan.queue == [] && !jobChan.closed
    {
      this.pool, this.pubsub, this.breakerMgr, this.workerCount := pool, pubsub, breakerMgr, workerCount;
      jobChan := new JobChannel();
      cancel, launched := null, [];
    }

    /** The context that Stop would cancel is done. */
    ghost predicate Cancelled()
      reads this, cancel
    {
      cancel != null && cancel.done
    }

    /** The engine's own part of the system state. */
    ghost predicate Mirrors(s: System)
      reads this, jobChan, cancel
    {
      s.queue == jobChan.queue && s.closed == jobChan.closed && s.cancelled == Cancelled()
    }

    /** The goroutine works for this engine, as worker `id`, under `ctx`. */
    predicate Serves(l: Launched, id: int, ctx: Context) {
      && l.ctx == ctx && l.worker.id == id && l.worker.jobChan == jobChan
      && l.worker.pool == pool && l.worker.pubsub == pubsub && l.worker.breakerMgr == breakerMgr
    }

    function PoolSize(): nat {
      if workerCount < 0 then 0 else workerCount
    }

    /** Launches one worker per index, all on the same channel, table and
        breakers, under a new context. Called again, it adds as many more, and
        forgets the context of the workers before. */
    method Start()
      modifies this
      ensures cancel != null && fresh(cancel) && !cancel.done
      ensures |launched| == |old(launched)| + (if workerCount < 0 then 0 else workerCount)
      ensures old(launched) <= launched
      ensures forall k | |old(launched)| <= k < |launched| ::
                var w := launched[k].worker;
                && fresh(w) && launched[k].ctx == cancel && w.id == k - |old(launched)| && w.jobChan == jobChan
                && w.pool == pool && w.pubsub == pubsub && w.breakerMgr == breakerMgr
      ensures old(launched) == [] && jobChan.queue == [] && !jobChan.closed
              && breakerMgr.breakers == map[] && pool.rows == map[] ==>
                && Mirrors(DeliverySystem.Start(PoolSize()))
                && forall i | 0 <= i < PoolSize() ::
                     launched[i].worker.Mirrors(DeliverySystem.Start(PoolSize()), Idle)
    {
      var ctx := new Context();
      cancel := ctx;
      var i := 0;
      while i < workerCount
        invariant 0 <= i <= PoolSize() && (i == PoolSize() || i < workerCount)
        invariant cancel == ctx && !ctx.done
        invariant |launched| == |old(launched)| + i && old(launched) <= launched
        invariant forall k | |old(launched)| <= k < |launched| ::
            Serves(launched[k], k - |old(launched)|, ctx) && fresh(launched[k].worker)
      {
        var w := new Worker(i, jobChan, pool, pubsub, breakerMgr);
        launched := launched + [Launched(w, ctx)];
        i := i + 1;
      }
    }

    /** Enqueues one job per endpoint, in order. The select takes ctx.Done() at
        list position `patience` and nowhere else. A call that finds the channel
        full waits there, until it is resumed. `call` is the tag of the jobs. */
    method Dispatch(call: nat, eventID: EventId, endpoints: seq<Endpoint>, patience: nat, ghost s: System)
      returns (sent: nat, progress: Progress, ghost acts: seq<Action>)
      requires Mirrors(s) && call == |s.calls| && !jobChan.closed && |jobChan.queue| <= JOB_BUFFER
      modifies jobChan
      ensures sent <= |endpoints| && |jobChan.queue| <= JOB_BUFFER
      ensures progress == Returned <==> sent == |endpoints|
      ensures progress == Progress.Abandoned <==> sent == patience < |endpoints|
      ensures progress == Running ==> |jobChan.queue| == 1000
      ensures jobChan.queue == old(jobChan.queue) + ListPrefix(call, eventID, endpoints, sent)
      ensures IsRun(s, acts) && Mirrors(Exec(s, acts))
      ensures Exec(s, acts)
              == s.(queue := jobChan.queue, calls := s.calls + [DispatchCall(eventID, endpoints, sent, progress)])
    {
      ghost var begin := DispatchBegins(s, eventID, endpoints);
      hide IsRun, Exec;
      sent, progress, acts := Resume(call, eventID, endpoints, 0, patience, Exec(s, [begin]));
      RunsCompose(s, [begin], acts);
      acts := [begin] + acts;
    }

    /** The loop of Dispatch from a list position on, in any state that other
        goroutines may have left while it waited. */
    method Resume(call: nat, eventID: EventId, endpoints: seq<Endpoint>, from: nat, patience: nat, ghost s: System)
      returns (sent: nat, progress: Progress, ghost acts: seq<Action>)
      requires Mirrors(s) && !jobChan.closed && |jobChan.queue| <= JOB_BUFFER && from <= |endpoints|
      requires call < |s.calls| && s.calls[call] == DispatchCall(eventID, endpoints, from, Running)
      modifies jobChan
      ensures from <= sent <= |endpoints| && |jobChan.queue| <= JOB_BUFFER
      ensures progress == Returned <==> sent == |endpoints|
      ensures progress == Progress.Abandoned <==> sent == patience < |endpoints|
      ensures progress == Running ==> |jobChan.queue| == 1000
      ensures jobChan.queue == old(jobChan.queue) + ListPrefix(call, eventID, endpoints, sent)[from..]
      ensures IsRun(s, acts) && Mirrors(Exec(s, acts))
      ensures Exec(s, acts) == Dispatching(s, jobChan.queue, call, DispatchCall(eventID, endpoints, sent, progress))
    {
      hide InCall, IsRun, Exec, ListPrefix;
      acts, sent := [], from;
      CallIsThere(s, call);
      while sent < |endpoints|
        invariant from <= sent <= |endpoints| && (patience < from || sent <= patience)
        invariant |jobChan.queue| <= JOB_BUFFER && !jobChan.closed
        invariant jobChan.queue == old(jobChan.queue) + ListPrefix(call, eventID, endpoints, sent)[from..]
        invariant InCall(s, acts, jobChan.queue, call, DispatchCall(eventID, endpoints, sent, Running))
      {
        if sent == patience {
          progress := Progress.Abandoned;
          acts := CallEnds(s, acts, jobChan.queue, call, DispatchCall(eventID, endpoints, sent, Running));
          return;
        }
        if |jobChan.queue| == JOB_BUFFER {
          progress := Running;
          CallWaits(s, acts, jobChan.queue, call, DispatchCall(eventID, endpoints, sent, Running));
          return;
        }
        var job := Job(call, sent, eventID, endpoints[sent]);
        acts := EnqueuesNext(s, acts, jobChan.queue, call, DispatchCall(eventID, endpoints, sent, Running));
        PrefixGrows(call, eventID, endpoints, from, sent);
        jobChan.queue := jobChan.queue + [job];
        sent := sent + 1;
      }
      progress := Returned;
      acts := CallEnds(s, acts, jobChan.queue, call, DispatchCall(eventID, endpoints, sent, Running));
    }

    /** Cancels the latest context and closes the channel. Closing it again
        panics. With no Dispatch call running, this is a run of the system. */
    method Stop(ghost s: System) returns (panicked: bool, ghost acts: seq<Action>)
      requires Mirrors(s)
      modifies jobChan, cancel
      ensures panicked <==> old(jobChan.closed)
      ensures jobChan.closed && jobChan.queue == old(jobChan.queue)
      ensures Cancelled() <==> cancel != null
      ensures !old(jobChan.closed) && (forall call | 0 <= call < |s.calls| :: s.calls[call].progress != Running) ==>
                && acts == (if cancel != null then [Action.Cancel] else []) + [CloseJobs]
                && IsRun(s, acts) && Mirrors(Exec(s, acts))
    {
      acts := (if cancel != null then [Action.Cancel] else []) + [CloseJobs];
      if Enabled(s, CloseJobs) {
        StopRuns(s, cancel != null);
      }
      if cancel != null {
        cancel.done := true;
      }
      if jobChan.closed {
        return true, acts;
      }
      jobChan.closed := true;
      panicked := false;
    }
  }

  lemma StopRuns(s: System, cancels: bool)
    requires Enabled(s, CloseJobs)
    ensures
      var acts := (if cancels then [Action.Cancel] else []) + [CloseJobs];
      IsRun(s, acts) && Exec(s, acts) == s.(cancelled := cancels || s.cancelled, closed := true)
  {
    if cancels {
      StepsOnce(s, [], Action.Cancel);
      assert [] + [Action.Cancel] == [Action.Cancel];
      StepsOnce(s, [Action.Cancel], CloseJobs);
    } else {
      StepsOnce(s, [], CloseJobs);
    }
  }

  /** The system with one Dispatch call come this far. */
  function Dispatching(s: System, queue: seq<Job>, call: nat, c: DispatchCall): System
    requires call < |s.calls|
  {
    s.(queue := queue, calls := s.calls[call := c])
  }

  /** A run of `s` in which that Dispatch call has come this far. */
  predicate InCall(s: System, acts: seq<Action>, queue: seq<Job>, call: nat, c: DispatchCall) {
    IsRun(s, acts) && call < |s.calls| && Exec(s, acts) == Dispatching(s, queue, call, c)
  }

  lemma DispatchBegins(s: System, eventID: EventId, endpoints: seq<Endpoint>) returns (begin: Action)
    requires !s.closed
    ensures IsRun(s, [begin])
    ensures Exec(s, [begin]) == s.(calls := s.calls + [DispatchCall(eventID, endpoints, 0, Running)])
  {
    begin := Action.Dispatch(eventID, endpoints);
    StepsOnce(s, [], begin);
    assert [] + [begin] == [begin];
  }

  lemma EnqueuesNext(s: System, acts: seq<Action>, queue: seq<Job>, call: nat, c: DispatchCall)
    returns (more: seq<Action>)
    requires InCall(s, acts, queue, call, c) && !s.closed && c.progress == Running
    requires c.next < |c.endpoints| && |queue| < JOB_BUFFER
    ensures InCall(s, more, queue + [Job(call, c.next, c.eventID, c.endpoints[c.next])], call, c.(next := c.next + 1))
  {
    hide Exec, IsRun;
    var job := Job(call, c.next, c.eventID, c.endpoints[c.next]);
    assert Advanced(s.calls[call := c], job) == s.calls[call := c.(next := c.next + 1)];
    StepsOnce(s, acts, Enqueue(job));
    more := acts + [Enqueue(job)];
  }

  lemma CallIsThere(s: System, call: nat)
    requires call < |s.calls|
    ensures InCall(s, [], s.queue, call, s.calls[call])
  {
  }

  lemma CallWaits(s: System, acts: seq<Action>, queue: seq<Job>, call: nat, c: DispatchCall)
    requires InCall(s, acts, queue, call, c)
    ensures IsRun(s, acts) && Exec(s, acts) == Dispatching(s, queue, call, c)
  {
  }

  /** The call returns when its list is done, and gives up otherwise. */
  lemma CallEnds(s: System, acts: seq<Action>, queue: seq<Job>, call: nat, c: DispatchCall)
    returns (more: seq<Action>)
    requires InCall(s, acts, queue, call, c) && c.progress == Running && c.next <= |c.endpoints|
    ensures IsRun(s, more)
    ensures
      var progress := if c.next < |c.endpoints| then Progress.Abandoned else Returned;
      Exec(s, more) == Dispatching(s, queue, call, c.(progress := progress))
  {
    var a := if c.next < |c.endpoints| then Action.Abandon(call) else Return(call);
    StepsOnce(s, acts, a);
    more := acts + [a];
  }

  lemma PrefixGrows(call: nat, eventID: EventId, endpoints: seq<Endpoint>, from: nat, n: nat)
    requires from <= n < |endpoints|
    ensures ListPrefix(call, eventID, endpoints, n + 1)[from..]
            == ListPrefix(call, eventID, endpoints, n)[from..] + [Job(call, n, eventID, endpoints[n])]
  {
  }

  /** The step is one of this Dispatch call. */
  predicate OfCallStep(a: Action, call: nat) {
    (a.Enqueue? && a.job.call == call) || ((a.Return? || a.Abandon?) && a.call == call)
  }

  lemma OthersLeaveCall(s: System, a: Action, call: nat)
    requires Enabled(s, a) && InProgress(s.calls, call) && !OfCallStep(a, call)
    ensures call < |Step(s, a).calls| && Step(s, a).calls[call] == s.calls[call]
    ensures Step(s, a).closed == s.closed
  {
    StepOnCalls(s, a);
  }

  /** While a call waits, it can be resumed where it is, whatever everybody else
      does: nobody moves it on, ends it or closes the channel. */
  lemma {:induction false} CallsWaitUndisturbed(s: System, acts: seq<Action>, call: nat)
    requires IsRun(s, acts) && InProgress(s.calls, call)
    requires forall a | a in acts :: !OfCallStep(a, call)
    ensures call < |Exec(s, acts).calls| && Exec(s, acts).calls[call] == s.calls[call]
    ensures Exec(s, acts).closed == s.closed
  {
    hide Step, Enabled;
    if acts != [] {
      assert acts == Init(acts) + [Last(acts)];
      CallsWaitUndisturbed(s, Init(acts), call);
      OthersLeaveCall(Exec(s, Init(acts)), Last(acts), call);
    }
  }
}
