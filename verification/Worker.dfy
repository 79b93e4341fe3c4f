/** The imperative worker and engine (internal/delivery/worker.go, engine.go),
    proved to take exactly the steps of the transition system. */
module Workers {
  import opened Wrappers
  import opened Circuit
  import opened DeliveryLogs
  import opened Retry
  import opened DeliverySystem

  /** What the world decides during one delivery. */
  datatype World = World(
    insertFault: bool,
    rowId: RowId,
    outcome: Outcome,
    now: int,
    draw: nat,
    updateFault: bool,
    marshalFault: bool)

  /** The atomic steps of one delivery, after the job was received. */
  function DeliverySteps(job: Job, open: bool, taken: bool, world: World): seq<WorkStep> {
    if open then [Lookup(job), Skip(job)]
    else if world.insertFault || taken then [Lookup(job), Admit(job), InsertFails(job)]
    else
      [Lookup(job), Admit(job), Insert(job, world.rowId)] + AttemptSteps(job, world)
  }

  function AttemptSteps(job: Job, world: World): seq<WorkStep> {
    var id, outcome, stored := world.rowId, world.outcome, !world.updateFault;
    var log := FinalLog(job, id, outcome, world.now, world.draw);
    [Finish(job, id, outcome), Record(job, id, outcome), Save(job, id, outcome, world.now, world.draw, stored)]
    + if !outcome.Response? then []
      else if world.marshalFault then [MarshalFails(job, log, stored)]
      else [Publish(job, log, stored)]
  }

  function ByWorker(w: nat, steps: seq<WorkStep>): seq<Action> {
    seq(|steps|, i requires 0 <= i < |steps| => Work(w, steps[i]))
  }

  function LogIn(a: Action): seq<DeliveryLog> {
    if a.Work? && a.step.Publish? then [a.step.log] else []
  }

  /** The logs handed to the pub/sub in a run. */
  function Published(acts: seq<Action>): seq<DeliveryLog> {
    if acts == [] then [] else LogIn(acts[0]) + Published(acts[1..])
  }

  lemma {:induction false} PublishedConcat(xs: seq<Action>, ys: seq<Action>)
    ensures Published(xs + ys) == Published(xs) + Published(ys)
  {
    hide LogIn;
    if xs == [] {
      assert xs + ys == ys;
    } else {
      PublishedConcat(xs[1..], ys);
      assert (xs + ys)[0] == xs[0] && (xs + ys)[1..] == xs[1..] + ys;
      assert LogIn(xs[0]) + (Published(xs[1..]) + Published(ys)) == (LogIn(xs[0]) + Published(xs[1..])) + Published(ys);
    }
  }

  /** The outcome of one undisturbed delivery in one go. */
  function Delivered(s: System, w: nat, job: Job, world: World): System
    requires w < |s.workers|
  {
    var looked := Looked(s, job.endpoint.id).(workers := s.workers[w := Idle]);
    if BreakerOf(s, job.endpoint.id).state == Open || world.insertFault || world.rowId in s.rows then looked
    else Attempted(looked.(rows := s.rows[world.rowId := FreshLog(job, world.rowId)]), job, world)
  }

  function Looked(s: System, e: EndpointId): System {
    s.(breakers := s.breakers[e := BreakerOf(s, e)])
  }

  /** The shared state after one attempt on an inserted row. */
  function Attempted(s: System, job: Job, world: World): System {
    var e := job.endpoint.id;
    s.(breakers := s.breakers[e := Apply(BreakerOf(s, e), Verdict(world.outcome))],
       rows := if world.updateFault then s.rows
               else s.rows[world.rowId := FinalLog(job, world.rowId, world.outcome, world.now, world.draw)])
  }

  /** A worker that takes the given steps, one after the other. */
  predicate Walks(s: System, w: nat, steps: seq<WorkStep>, end: System) {
    IsRun(s, ByWorker(w, steps)) && Exec(s, ByWorker(w, steps)) == end
  }

  /** The shared state `shared`, with worker `w` of `s` moved to `stage`. */
  function Moved(shared: System, s: System, w: nat, stage: Stage): System
    requires w < |s.workers|
  {
    shared.(workers := s.workers[w := stage])
  }

  /** A step's effect on the shared state does not depend on the workers. */
  lemma EffectMoves(shared: System, s: System, w: nat, step: WorkStep)
    requires w < |s.workers| && Allowed(shared, step)
    ensures Enabled(Moved(shared, s, w, From(step)), Work(w, step))
    ensures Step(Moved(shared, s, w, From(step)), Work(w, step)) == Moved(Effect(shared, step), s, w, To(step))
  {
    hide FinalLog;
    assert Moved(shared, s, w, From(step)).workers[w := To(step)] == s.workers[w := To(step)];
  }

  lemma WalkOn(s: System, w: nat, steps: seq<WorkStep>, shared: System, step: WorkStep)
    requires w < |s.workers| && Allowed(shared, step)
    requires Walks(s, w, steps, Moved(shared, s, w, From(step)))
    ensures Walks(s, w, steps + [step], Moved(Effect(shared, step), s, w, To(step)))
  {
    hide Step, Enabled, Effect, From, To, Allowed;
    EffectMoves(shared, s, w, step);
    StepsOnce(s, ByWorker(w, steps), Work(w, step));
    assert ByWorker(w, steps + [step]) == ByWorker(w, steps) + [Work(w, step)];
  }

  lemma PublishedOnTheWay(w: nat, job: Job, open: bool, taken: bool, world: World)
    ensures Published(ByWorker(w, DeliverySteps(job, open, taken, world)))
            == if open || taken || world.insertFault || !world.outcome.Response? || world.marshalFault then []
               else [FinalLog(job, world.rowId, world.outcome, world.now, world.draw)]
  {
    hide FinalLog;
    PublishedLast(ByWorker(w, DeliverySteps(job, open, taken, world)));
  }

  lemma {:induction false} PublishedLast(acts: seq<Action>)
    requires acts != [] && forall i | 0 <= i < |acts| :: acts[i].Work?
    requires forall i | 0 <= i < |acts| - 1 :: !acts[i].step.Publish?
    ensures Published(acts) == if Last(acts).step.Publish? then [Last(acts).step.log] else []
  {
    if |acts| > 1 {
      PublishedLast(acts[1..]);
      assert LogIn(acts[0]) == [] && Last(acts[1..]) == Last(acts);
    } else {
      assert acts[1..] == [] && Last(acts) == acts[0];
    }
  }

  lemma AttemptWalks(s: System, w: nat, steps: seq<WorkStep>, shared: System, job: Job, world: World)
    requires w < |s.workers| && world.rowId in shared.rows
    requires Walks(s, w, steps, Moved(shared, s, w, Created(job, world.rowId)))
    ensures Walks(s, w, steps + AttemptSteps(job, world), Moved(Attempted(shared, job, world), s, w, Idle))
  {
    hide Walks, FinalLog;
    var id, outcome, stored := world.rowId, world.outcome, !world.updateFault;
    var log := FinalLog(job, id, outcome, world.now, world.draw);
    var finish, record := Finish(job, id, outcome), Record(job, id, outcome);
    var save := Save(job, id, outcome, world.now, world.draw, stored);
    WalkOn(s, w, steps, shared, finish);
    WalkOn(s, w, steps + [finish], shared, record);
    var recorded := Effect(shared, record);
    WalkOn(s, w, steps + [finish] + [record], recorded, save);
    assert Effect(recorded, save) == Attempted(shared, job, world);
    assert steps + [finish] + [record] + [save] == steps + [finish, record, save];
    if outcome.Response? {
      var last := if world.marshalFault then MarshalFails(job, log, stored) else Publish(job, log, stored);
      WalkOn(s, w, steps + [finish, record, save], Attempted(shared, job, world), last);
      assert steps + [finish, record, save] + [last] == steps + AttemptSteps(job, world);
    } else {
      assert steps + [finish, record, save] == steps + AttemptSteps(job, world);
    }
  }

  lemma DeliveryRuns(s: System, w: nat, job: Job, world: World)
    requires w < |s.workers| && s.workers[w] == Received(job)
    ensures Walks(s, w, DeliverySteps(job, BreakerOf(s, job.endpoint.id).state == Open, world.rowId in s.rows, world),
                  Delivered(s, w, job, world))
  {
    hide FinalLog;
    assert s == Moved(s, s, w, Received(job));
    assert Walks(s, w, [], s);
    hide Walks;
    var looked := Looked(s, job.endpoint.id);
    WalkOn(s, w, [], s, Lookup(job));
    assert [] + [Lookup(job)] == [Lookup(job)];
    if BreakerOf(s, job.endpoint.id).state == Open {
      WalkOn(s, w, [Lookup(job)], looked, Skip(job));
      assert [Lookup(job)] + [Skip(job)] == [Lookup(job), Skip(job)];
    } else {
      WalkOn(s, w, [Lookup(job)], looked, Admit(job));
      assert [Lookup(job)] + [Admit(job)] == [Lookup(job), Admit(job)];
      if world.insertFault || world.rowId in s.rows {
        WalkOn(s, w, [Lookup(job), Admit(job)], looked, InsertFails(job));
        assert [Lookup(job), Admit(job)] + [InsertFails(job)] == [Lookup(job), Admit(job), InsertFails(job)];
      } else {
        var insert := Insert(job, world.rowId);
        WalkOn(s, w, [Lookup(job), Admit(job)], looked, insert);
        assert [Lookup(job), Admit(job)] + [insert] == [Lookup(job), Admit(job), insert];
        AttemptWalks(s, w, [Lookup(job), Admit(job), insert], Effect(looked, insert), job, world);
        assert Moved(Attempted(Effect(looked, insert), job, world), s, w, Idle) == Delivered(s, w, job, world);
      }
    }
  }

  lemma RunThenWalk(s: System, acts: seq<Action>, w: nat, steps: seq<WorkStep>, end: System)
    requires IsRun(s, acts) && Walks(Exec(s, acts), w, steps, end)
    ensures IsRun(s, acts + ByWorker(w, steps)) && Exec(s, acts + ByWorker(w, steps)) == end
  {
    RunsCompose(s, acts, ByWorker(w, steps));
  }

  lemma ReceiveStep(s: System, w: nat, job: Job, world: World)
    requires Enabled(s, Work(w, Receive(job)))
    ensures
      var got := Step(s, Work(w, Receive(job)));
      && w < |got.workers| && got.workers[w] == Received(job)
      && BreakerOf(got, job.endpoint.id) == BreakerOf(s, job.endpoint.id) && got.rows == s.rows
      && Delivered(got, w, job, world) == Delivered(s.(queue := s.queue[1..]), w, job, world)
  {
    hide FinalLog;
  }

  /** The steps of receiving and delivering one job. */
  function Turn(s: System, w: nat, job: Job, world: World): seq<Action> {
    [Work(w, Receive(job))]
    + ByWorker(w, DeliverySteps(job, BreakerOf(s, job.endpoint.id).state == Open, world.rowId in s.rows, world))
  }

  /** One turn of a worker's loop: receive the head of the channel and deliver it. */
  lemma {:induction false} TurnRuns(s: System, acts: seq<Action>, w: nat, job: Job, world: World)
    requires IsRun(s, acts) && Enabled(Exec(s, acts), Work(w, Receive(job)))
    ensures
      var mid := Exec(s, acts);
      var more := acts + Turn(mid, w, job, world);
      IsRun(s, more) && Exec(s, more) == Delivered(mid.(queue := mid.queue[1..]), w, job, world)
  {
    hide Exec, IsRun, Step, Walks, Delivered, FinalLog;
    var mid := Exec(s, acts);
    var open, taken := BreakerOf(mid, job.endpoint.id).state == Open, world.rowId in mid.rows;
    StepsOnce(s, acts, Work(w, Receive(job)));
    ReceiveStep(mid, w, job, world);
    var got := Step(mid, Work(w, Receive(job)));
    var steps := DeliverySteps(job, open, taken, world);
    DeliveryRuns(got, w, job, world);
    RunThenWalk(s, acts + [Work(w, Receive(job))], w, steps, Delivered(got, w, job, world));
    assert acts + [Work(w, Receive(job))] + ByWorker(w, steps) == acts + Turn(mid, w, job, world);
  }

  /** What is published does not depend on the queue. */
  lemma SameForDelivery(s: System, job: Job, world: World)
    requires s.queue != []
    ensures PublishedBy(s.(queue := s.queue[1..]), job, world) == PublishedBy(s, job, world)
  {
  }

  lemma {:induction false} ExitRuns(s: System, acts: seq<Action>, w: nat)
    requires IsRun(s, acts) && Enabled(Exec(s, acts), Work(w, Exit))
    ensures IsRun(s, acts + [Work(w, Exit)])
    ensures
      var mid := Exec(s, acts);
      Exec(s, acts + [Work(w, Exit)]) == mid.(workers := mid.workers[w := Exited])
    ensures Published(acts + [Work(w, Exit)]) == Published(acts)
  {
    StepsOnce(s, acts, Work(w, Exit));
    PublishedConcat(acts, [Work(w, Exit)]);
  }

  lemma TurnPublishes(s: System, acts: seq<Action>, w: nat, job: Job, world: World)
    ensures Published(acts + Turn(s, w, job, world)) == Published(acts) + PublishedBy(s, job, world)
  {
    hide FinalLog;
    var open, taken := BreakerOf(s, job.endpoint.id).state == Open, world.rowId in s.rows;
    var steps := ByWorker(w, DeliverySteps(job, open, taken, world));
    PublishedConcat(acts, Turn(s, w, job, world));
    PublishedConcat([Work(w, Receive(job))], steps);
    PublishedOnTheWay(w, job, open, taken, world);
    assert [Work(w, Receive(job))][1..] == [];
  }

  function PublishedBy(s: System, job: Job, world: World): seq<DeliveryLog> {
    if BreakerOf(s, job.endpoint.id).state == Open || world.insertFault || world.rowId in s.rows
       || !world.outcome.Response? || world.marshalFault
    then []
    else [FinalLog(job, world.rowId, world.outcome, world.now, world.draw)]
  }

  /** The PubSub interface as the worker sees it: errors are ignored. */
  class Outbox {
    var published: seq<DeliveryLog>

    constructor ()
      ensures published == []
    {
      published := [];
    }

    method Publish(log: DeliveryLog)
      modifies this
      ensures published == old(published) + [log]
    {
      published := published + [log];
    }
  }

  class JobChannel {
    var queue: seq<Job>
    var closed: bool

    constructor ()
      ensures queue == [] && !closed
    {
      queue, closed := [], false;
    }
  }

  class Worker {
    const id: nat
    const jobChan: JobChannel
    const pool: DeliveryLogTable
    const pubsub: Outbox
    const breakerMgr: BreakerManager

    constructor (id: nat, jobChan: JobChannel, pool: DeliveryLogTable, pubsub: Outbox, breakerMgr: BreakerManager)
      ensures this.id == id && this.jobChan == jobChan && this.pool == pool
      ensures this.pubsub == pubsub && this.breakerMgr == breakerMgr
    {
      this.id, this.jobChan, this.pool, this.pubsub, this.breakerMgr := id, jobChan, pool, pubsub, breakerMgr;
    }

    ghost predicate Valid()
      reads breakerMgr, breakerMgr.breakers.Values, pool
    {
      breakerMgr.Valid() && pool.Valid()
    }

    /** The breakers and the table are those of `s`. */
    ghost predicate Shares(s: System)
      reads breakerMgr, breakerMgr.breakers.Values, pool
    {
      id < |s.workers| && s.breakers == breakerMgr.View() && s.rows == pool.rows
    }

    /** The heap is the shared state of `s`, and this worker is at `stage`. */
    ghost predicate Mirrors(s: System, stage: Stage)
      reads breakerMgr, breakerMgr.breakers.Values, pool, jobChan
    {
      Shares(s) && s.workers[id] == stage && s.queue == jobChan.queue && s.closed == jobChan.closed
    }

    /** `d` is the log of a row that is in the table. */
    ghost predicate Inserted(d: DeliveryLog)
      reads pool
    {
      pool.Valid() && d.id in pool.rows && DeliveryLogTable.Overwritten(pool.rows[d.id], d) == d
    }

    /** The result is None where the backoff panics. */
    method ScheduleRetry(d: DeliveryLog, now: int, draw: nat, fault: bool) returns (dl: Option<DeliveryLog>, ok: bool)
      requires pool.Valid()
      modifies pool
      ensures pool.Valid() && dl == Reschedule(d, now, draw)
      ensures ok <==> dl.Some? && !fault && d.id in old(pool.rows)
      ensures pool.rows
              == if dl.Some? then DeliveryLogTable.Updated(old(pool.rows), dl.value, fault) else old(pool.rows)
    {
      var backoff := CalculateBackoff(d.attemptNumber, draw);
      if backoff.None? {
        return None, false;
      }
      var nextRetry := now + backoff.value;
      var log := d.(status := PENDING);
      log := log.(attemptNumber := log.attemptNumber + 1);
      log := log.(nextRetryAt := Some(nextRetry));
      ok := pool.UpdateDeliveryLog(log, fault);
      dl := Some(log);
    }

    /** A panic in the backoff comes after the breaker has counted the failure. */
    method RecordFailure(d: DeliveryLog, cb: CircuitBreaker, statusCode: Option<int>, message: ErrorMessage,
                         maxRetries: int, world: World)
      returns (dl: Option<DeliveryLog>)
      requires pool.Valid()
      modifies cb, pool
      ensures cb.Value() == Apply(old(cb.Value()), Failure)
      ensures pool.Valid()
      ensures dl == AfterFailure(d, Failed(statusCode, message, world.now, world.draw), maxRetries)
      ensures pool.rows
              == if dl.Some? then DeliveryLogTable.Updated(old(pool.rows), dl.value, world.updateFault)
                 else old(pool.rows)
    {
      var log := d.(errorMessage := Some(message));
      cb.RecordFailure();
      if statusCode.Some? && !ShouldRetry(statusCode.value) {
        log := log.(status := FAILED);
        var _ := pool.UpdateDeliveryLog(log, world.updateFault);
        return Some(log);
      }
      if log.attemptNumber >= maxRetries {
        log := log.(status := FAILED);
        var _ := pool.UpdateDeliveryLog(log, world.updateFault);
        return Some(log);
      }
      var scheduled;
      dl, scheduled := ScheduleRetry(log, world.now, world.draw, world.updateFault);
    }

    method PublishResult(dl: DeliveryLog, marshalFault: bool)
      modifies pubsub
      ensures pubsub.published == old(pubsub.published) + if marshalFault then [] else [dl]
    {
      if marshalFault {
        return;
      }
      pubsub.Publish(dl);
    }

    /** executeDelivery from the inserted row on. */
    method Attempt(job: Job, d: DeliveryLog, cb: CircuitBreaker, world: World)
      requires Inserted(d) && d == FreshLog(job, world.rowId)
      modifies cb, pool, pubsub
      ensures cb.Value() == Apply(old(cb.Value()), Verdict(world.outcome))
      ensures pool.Valid()
      ensures
        var log := FinalLog(job, world.rowId, world.outcome, world.now, world.draw);
        && pool.rows == (if world.updateFault then old(pool.rows) else old(pool.rows)[d.id := log])
        && pubsub.published
           == old(pubsub.published) + if world.outcome.Response? && !world.marshalFault then [log] else []
    {
      SmallBackoff(1, world.draw);
      var dl := d;
      match world.outcome {
        case BuildError =>
          var recorded := RecordFailure(dl, cb, None, BuildingRequest, job.endpoint.maxRetries, world);
        case TransportError =>
          var recorded := RecordFailure(dl, cb, None, HttpRequest, job.endpoint.maxRetries, world);
        case Response(statusCode) =>
          dl := dl.(responseStatus := Some(statusCode));
          if 200 <= statusCode < 300 {
            dl := dl.(status := SUCCESS);
            dl := dl.(nextRetryAt := None);
            cb.RecordSuccess();
            var _ := pool.UpdateDeliveryLog(dl, world.updateFault);
          } else {
            var m := job.endpoint.maxRetries;
            var recorded := RecordFailure(dl, cb, Some(statusCode), HttpStatus(statusCode), m, world);
            dl := recorded.value;
          }
          PublishResult(dl, world.marshalFault);
      }
    }

    /** executeDelivery up to the breaker's answer. */
    method LookUp(e: EndpointId) returns (cb: CircuitBreaker, open: bool)
      requires Valid()
      modifies breakerMgr
      ensures Valid() && e in breakerMgr.breakers && breakerMgr.breakers[e] == cb
      ensures fresh(breakerMgr.breakers.Values - old(breakerMgr.breakers.Values))
      ensures breakerMgr.breakers.Values <= old(breakerMgr.breakers.Values) + {cb}
      ensures fresh(cb) || cb in old(breakerMgr.breakers.Values)
      ensures
        var b := if e in old(breakerMgr.View()) then old(breakerMgr.View())[e] else New(DEFAULT_THRESHOLD);
        breakerMgr.View() == old(breakerMgr.View())[e := b] && (open <==> b.state == Open)
    {
      hide Apply;
      cb := breakerMgr.GetBreaker(e);
      open := cb.IsOpen();
    }

    /** executeDelivery past the breaker. */
    method InsertAndAttempt(job: Job, cb: CircuitBreaker, world: World)
      requires Valid() && job.endpoint.id in breakerMgr.breakers && breakerMgr.breakers[job.endpoint.id] == cb
      modifies cb, pool, pubsub
      ensures Valid()
      ensures
        var e, id, was := job.endpoint.id, world.rowId, old(breakerMgr.View());
        var log := FinalLog(job, id, world.outcome, world.now, world.draw);
        if world.insertFault || id in old(pool.rows) then
          breakerMgr.View() == was && pool.rows == old(pool.rows) && pubsub.published == old(pubsub.published)
        else
          && breakerMgr.View() == was[e := Apply(was[e], Verdict(world.outcome))]
          && pool.rows == old(pool.rows)[id := if world.updateFault then FreshLog(job, id) else log]
          && pubsub.published
             == old(pubsub.published) + if world.outcome.Response? && !world.marshalFault then [log] else []
    {
      hide FinalLog, Apply;
      var dl := DeliveryLog(0, job.eventID, job.endpoint.id, PENDING, 1, None, None, None);
      var created := pool.CreateDeliveryLog(dl, world.rowId, world.insertFault);
      if created.None? {
        return;
      }
      assert created.value == FreshLog(job, world.rowId);
      label inserted:
      Attempt(job, created.value, cb, world);
      breakerMgr.OneBreakerChanged@inserted(job.endpoint.id);
    }

    /** One delivery from a received job on makes of breakers, rows and
        publications what DeliveryRuns shows its steps to make of them. */
    method ExecuteDelivery(job: Job, world: World, ghost s: System)
      requires Valid() && Shares(s)
      modifies breakerMgr, breakerMgr.breakers.Values, pool, pubsub
      ensures Valid() && fresh(breakerMgr.breakers.Values - old(breakerMgr.breakers.Values))
      ensures Shares(Delivered(s, id, job, world))
      ensures pubsub.published == old(pubsub.published) + PublishedBy(s, job, world)
    {
      hide FinalLog, Apply, Delivered, PublishedBy, FreshLog, Verdict, BreakerManager.View;
      ghost var b := BreakerOf(s, job.endpoint.id);
      var cb, open := LookUp(job.endpoint.id);
      assert breakerMgr.View() == s.breakers[job.endpoint.id := b] && (open <==> b.state == Open);
      hide BreakerOf;
      if open {
        NotAttempted(s, id, job, world);
        return;
      }
      InsertAndAttempt(job, cb, world);
      if world.insertFault || world.rowId in s.rows {
        NotAttempted(s, id, job, world);
      } else {
        AttemptedOnce(s, id, job, world);
      }
    }

    /** The heap is where the run `acts` of `s` leaves it, with this worker at
        `stage` and the publications of the run after those of `base`. */
    ghost predicate Follows(s: System, acts: seq<Action>, stage: Stage, base: seq<DeliveryLog>)
      reads breakerMgr, breakerMgr.breakers.Values, pool, jobChan, pubsub
    {
      IsRun(s, acts) && Mirrors(Exec(s, acts), stage) && pubsub.published == base + Published(acts)
    }

    /** One turn of the loop: the job at the head of the channel is delivered. */
    method ReceiveAndDeliver(world: World, ghost s: System, ghost acts: seq<Action>, ghost base: seq<DeliveryLog>)
      returns (ghost more: seq<Action>)
      requires Valid() && jobChan.queue != [] && Follows(s, acts, Idle, base)
      modifies breakerMgr, breakerMgr.breakers.Values, pool, pubsub, jobChan
      ensures Valid() && fresh(breakerMgr.breakers.Values - old(breakerMgr.breakers.Values))
      ensures more == acts + Turn(Exec(s, acts), id, old(jobChan.queue)[0], world) && Follows(s, more, Idle, base)
      ensures
        var mid := Exec(s, acts);
        Exec(s, more) == Delivered(mid.(queue := mid.queue[1..]), id, old(jobChan.queue)[0], world)
    {
      hide Exec, IsRun, FinalLog, Delivered, Turn, Published, PublishedBy;
      var job := jobChan.queue[0];
      ghost var mid := Exec(s, acts);
      TurnRuns(s, acts, id, job, world);
      TurnPublishes(mid, acts, id, job, world);
      DeliveredIsLocal(mid.(queue := mid.queue[1..]), id, job, world);
      SameForDelivery(mid, job, world);
      jobChan.queue := jobChan.queue[1..];
      ExecuteDelivery(job, world, mid.(queue := mid.queue[1..]));
      more := acts + Turn(mid, id, job, world);
    }

    /** The loop at its head, after `acts`, with `rest` still to be picked: what
        is done in the end is `all`. */
    ghost predicate InLoop(s: System, acts: seq<Action>, rest: seq<Choice>, all: seq<Action>, base: seq<DeliveryLog>)
      reads breakerMgr, breakerMgr.breakers.Values, pool, jobChan, pubsub
    {
      && Valid() && Follows(s, acts, Idle, base) && (Done in rest ==> Exec(s, acts).cancelled)
      && acts + Turns(Exec(s, acts), id, rest) == all
    }

    lemma LoopBegins(s: System, choices: seq<Choice>)
      requires Valid() && Mirrors(s, Idle) && (Done in choices ==> s.cancelled)
      ensures InLoop(s, [], choices, Turns(s, id, choices), pubsub.published)
    {
      assert [] + Turns(s, id, choices) == Turns(s, id, choices);
    }

    lemma LoopEnds(s: System, acts: seq<Action>, all: seq<Action>, base: seq<DeliveryLog>)
      requires InLoop(s, acts, [], all, base)
      ensures Valid() && Follows(s, acts, Idle, base) && acts == all
    {
    }

    /** One round of the loop: the select picks `choices[0]`. */
    method Round(choices: seq<Choice>, ghost s: System, ghost acts: seq<Action>, ghost all: seq<Action>,
                 ghost base: seq<DeliveryLog>)
      returns (ghost more: seq<Action>, running: bool)
      requires choices != [] && InLoop(s, acts, choices, all, base)
      modifies breakerMgr, breakerMgr.breakers.Values, pool, pubsub, jobChan
      ensures fresh(breakerMgr.breakers.Values - old(breakerMgr.breakers.Values))
      ensures running ==> InLoop(s, more, choices[1..], all, base) && choices[0] != Done
      ensures !running ==> Valid() && Follows(s, more, Exited, base) && more == all
    {
      hide Exec, IsRun, Published, Step, Delivered, Turn, Turns;
      ghost var mid := Exec(s, acts);
      TurnsFirst(acts, mid, id, choices);
      more, running := acts, true;
      if choices[0].Done? || (jobChan.queue == [] && jobChan.closed) {
        assert choices[0].Done? ==> Done in choices;
        ExitRuns(s, acts, id);
        more := acts + [Work(id, Exit)];
        running := false;
      } else if jobChan.queue != [] {
        DeliveredIsLocal(mid.(queue := mid.queue[1..]), id, mid.queue[0], choices[0].world);
        more := ReceiveAndDeliver(choices[0].world, s, acts, base);
      }
    }

    /** Start: `choices` are the ready cases that the select picks, in order. A
        receive that finds the channel open and empty waits. The worker takes
        exactly the turns that the choices dictate. */
    method Start(choices: seq<Choice>, ghost s: System) returns (ghost acts: seq<Action>, running: bool)
      requires Valid() && Mirrors(s, Idle) && (Done in choices ==> s.cancelled)
      modifies breakerMgr, breakerMgr.breakers.Values, pool, pubsub, jobChan
      ensures Valid() && acts == Turns(s, id, choices)
      ensures Follows(s, acts, if running then Idle else Exited, old(pubsub.published))
      ensures Done in choices ==> !running
    {
      hide InLoop, Exec, IsRun, Follows, Turns, Valid;
      acts, running := [], true;
      ghost var all, base := Turns(s, id, choices), pubsub.published;
      LoopBegins(s, choices);
      assert choices[0..] == choices;
      for i := 0 to |choices|
        invariant running && fresh(breakerMgr.breakers.Values - old(breakerMgr.breakers.Values))
        invariant InLoop(s, acts, choices[i..], all, base)
        invariant Done !in choices[..i]
      {
        assert choices[i..][0] == choices[i] && choices[i..][1..] == choices[i + 1..];
        acts, running := Round(choices[i..], s, acts, all, base);
        if !running {
          return;
        }
        assert choices[..i + 1] == choices[..i] + [choices[i]];
      }
      assert choices[..|choices|] == choices && choices[|choices|..] == [];
      LoopEnds(s, acts, all, base);
    }
  }

  /** What the select of a worker's loop picks: the context, or the channel. */
  datatype Choice = Done | Receives(world: World)

  /** All that a worker does when its select picks these cases, alone. */
  function Turns(s: System, w: nat, choices: seq<Choice>): seq<Action>
    requires w < |s.workers|
    decreases |choices|
  {
    if choices == [] then []
    else if choices[0].Done? || (s.queue == [] && s.closed) then [Work(w, Exit)]
    else if s.queue == [] then Turns(s, w, choices[1..])
    else
      Turn(s, w, s.queue[0], choices[0].world)
      + Turns(Delivered(s.(queue := s.queue[1..]), w, s.queue[0], choices[0].world), w, choices[1..])
  }

  /** What the first pick adds to the steps taken so far. */
  lemma TurnsFirst(acts: seq<Action>, s: System, w: nat, rest: seq<Choice>)
    requires w < |s.workers| && rest != []
    ensures
      acts + Turns(s, w, rest)
      == if rest[0].Done? || (s.queue == [] && s.closed) then acts + [Work(w, Exit)]
         else if s.queue == [] then acts + Turns(s, w, rest[1..])
         else
           acts + Turn(s, w, s.queue[0], rest[0].world)
           + Turns(Delivered(s.(queue := s.queue[1..]), w, s.queue[0], rest[0].world), w, rest[1..])
  {
    hide Turn, Delivered;
  }

  lemma NotAttempted(s: System, w: nat, job: Job, world: World)
    requires w < |s.workers|
    requires BreakerOf(s, job.endpoint.id).state == Open || world.insertFault || world.rowId in s.rows
    ensures
      var end := Delivered(s, w, job, world);
      && end.breakers == s.breakers[job.endpoint.id := BreakerOf(s, job.endpoint.id)]
      && end.rows == s.rows && |end.workers| == |s.workers| && PublishedBy(s, job, world) == []
  {
  }

  lemma AttemptedOnce(s: System, w: nat, job: Job, world: World)
    requires w < |s.workers|
    requires BreakerOf(s, job.endpoint.id).state != Open && !world.insertFault && world.rowId !in s.rows
    ensures
      var e, id, end := job.endpoint.id, world.rowId, Delivered(s, w, job, world);
      var log := FinalLog(job, id, world.outcome, world.now, world.draw);
      && end.breakers == s.breakers[e := Apply(BreakerOf(s, e), Verdict(world.outcome))]
      && end.rows == s.rows[id := if world.updateFault then FreshLog(job, id) else log]
      && |end.workers| == |s.workers|
      && PublishedBy(s, job, world) == if world.outcome.Response? && !world.marshalFault then [log] else []
  {
    hide FinalLog, Apply;
  }

  /** A delivery moves its own worker only, and touches neither the channel nor
      the context. */
  lemma DeliveredIsLocal(s: System, w: nat, job: Job, world: World)
    requires w < |s.workers|
    ensures
      var end := Delivered(s, w, job, world);
      && end.workers == s.workers[w := Idle] && end.queue == s.queue
      && end.closed == s.closed && end.cancelled == s.cancelled
  {
    hide FinalLog;
  }
}
