/** What a worker's loop does, said without the functions that define it. */
module WorkerTurns {
  import opened DeliverySystem
  import opened JobFlow
  import opened Workers

  /** How often the channel is picked before the context is. */
  function Picks(choices: seq<Choice>): nat {
    if choices == [] || choices[0].Done? then 0 else 1 + Picks(choices[1..])
  }

  function Least(m: nat, n: nat): nat {
    if m < n then m else n
  }

  lemma {:induction false} TakenConcat(xs: seq<Action>, ys: seq<Action>)
    ensures Taken(xs + ys) == Taken(xs) + Taken(ys)
    decreases |ys|
  {
    hide TakenBy;
    if ys == [] {
      assert xs + ys == xs;
    } else {
      TakenConcat(xs, Init(ys));
      assert Init(xs + ys) == xs + Init(ys) && Last(xs + ys) == Last(ys);
    }
  }

  lemma {:induction false} NothingTaken(acts: seq<Action>)
    requires forall a | a in acts :: TakenBy(a) == []
    ensures Taken(acts) == []
  {
    if acts != [] {
      assert acts == Init(acts) + [Last(acts)];
      NothingTaken(Init(acts));
    }
  }

  lemma ReceiveTakesOne(w: nat, job: Job)
    ensures Taken([Work(w, Receive(job))]) == [job]
  {
    assert Init([Work(w, Receive(job))]) == [];
  }

  lemma NoMoreReceives(job: Job, open: bool, taken: bool, world: World)
    ensures forall step | step in DeliverySteps(job, open, taken, world) :: !step.Receive? && !step.Exit?
  {
    hide FinalLog;
  }

  lemma DeliveryTakesNothing(w: nat, steps: seq<WorkStep>)
    requires forall step | step in steps :: !step.Receive? && !step.Exit?
    ensures Taken(ByWorker(w, steps)) == [] && Work(w, Exit) !in ByWorker(w, steps)
  {
    NothingTaken(ByWorker(w, steps));
  }

  lemma TurnTakesOne(s: System, w: nat, job: Job, world: World)
    ensures Taken(Turn(s, w, job, world)) == [job] && Work(w, Exit) !in Turn(s, w, job, world)
  {
    hide DeliverySteps, ByWorker, BreakerOf, Taken;
    var open, taken := BreakerOf(s, job.endpoint.id).state == Circuit.Open, world.rowId in s.rows;
    var steps := DeliverySteps(job, open, taken, world);
    var receive := Work(w, Receive(job));
    NoMoreReceives(job, open, taken, world);
    DeliveryTakesNothing(w, steps);
    TakenConcat([receive], ByWorker(w, steps));
    ReceiveTakesOne(w, job);
  }

  /** These turns receive the first n jobs, or all if there are fewer, and end
      with the worker's exit exactly if its context is picked, or the channel is
      picked once more after it was closed and drained. */
  predicate Decided(turns: seq<Action>, queue: seq<Job>, closed: bool, w: nat, n: nat, done: bool) {
    && Taken(turns) == queue[..Least(n, |queue|)]
    && (Work(w, Exit) in turns <==> done || (closed && n > |queue|))
  }

  lemma DecidedByFirst(turn: seq<Action>, rest: seq<Action>, queue: seq<Job>, closed: bool, w: nat, n: nat, done: bool)
    requires queue != [] && Taken(turn) == [queue[0]] && Work(w, Exit) !in turn
    requires Decided(rest, queue[1..], closed, w, n, done)
    ensures Decided(turn + rest, queue, closed, w, n + 1, done)
  {
    hide Taken;
    TakenConcat(turn, rest);
    HeadFirst(queue, Least(n, |queue| - 1));
  }

  lemma DecidedByExit(queue: seq<Job>, closed: bool, w: nat, n: nat, done: bool)
    requires done || (closed && n > |queue|)
    requires n == 0 || queue == []
    ensures Decided([Work(w, Exit)], queue, closed, w, n, done)
  {
    NothingTaken([Work(w, Exit)]);
  }

  lemma DecidedByNothing(queue: seq<Job>, closed: bool, w: nat)
    ensures Decided([], queue, closed, w, 0, false)
  {
  }

  /** A worker alone receives one job per pick, from the head of the channel on
      and in order, until its context is picked or the channel is empty; and it
      leaves exactly if its context is picked, or the channel is picked once more
      after it was closed and drained. */
  lemma {:induction false} PicksDecideTurns(s: System, w: nat, choices: seq<Choice>)
    requires w < |s.workers|
    ensures Decided(Turns(s, w, choices), s.queue, s.closed, w, Picks(choices), Done in choices)
    decreases |choices|
  {
    hide Turn, Delivered, Decided;
    if choices == [] {
      DecidedByNothing(s.queue, s.closed, w);
    } else if choices[0].Done? || (s.queue == [] && s.closed) {
      DecidedByExit(s.queue, s.closed, w, Picks(choices), Done in choices);
    } else {
      assert choices == [choices[0]] + choices[1..];
      if s.queue == [] {
        PicksDecideTurns(s, w, choices[1..]);
        StillEmpty(Turns(s, w, choices[1..]), w, Picks(choices[1..]), Done in choices);
      } else {
        var job, rest := s.queue[0], s.(queue := s.queue[1..]);
        var turn, next := Turn(s, w, job, choices[0].world), Delivered(rest, w, job, choices[0].world);
        DeliveredIsLocal(rest, w, job, choices[0].world);
        TurnTakesOne(s, w, job, choices[0].world);
        PicksDecideTurns(next, w, choices[1..]);
        DecidedByFirst(turn, Turns(next, w, choices[1..]), s.queue, s.closed, w, Picks(choices[1..]), Done in choices);
      }
    }
  }

  lemma StillEmpty(turns: seq<Action>, w: nat, n: nat, done: bool)
    requires Decided(turns, [], false, w, n, done)
    ensures Decided(turns, [], false, w, n + 1, done)
  {
  }

  lemma HeadFirst(queue: seq<Job>, n: nat)
    requires queue != [] && n < |queue|
    ensures [queue[0]] + queue[1..][..n] == queue[..n + 1]
  {
  }
}
