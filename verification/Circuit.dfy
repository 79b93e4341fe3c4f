/** internal/circuit/breaker.go: one circuit breaker per endpoint, and the
    manager that hands them out. */
module Circuit {
  type EndpointId = nat

  const DEFAULT_THRESHOLD := 10

  datatype State = Closed | Open | HalfOpen

  /** The value of one breaker: its mutable fields and its fixed threshold. */
  datatype Breaker = Breaker(state: State, consecutiveFailures: nat, threshold: nat)

  /** The three calls that may change a breaker. */
  datatype Call = Success | Failure | Reset

  function EffectiveThreshold(threshold: int): (t: nat)
    ensures t > 0 && (threshold > 0 ==> t == threshold) && (threshold <= 0 ==> t == 10)
  {
    if threshold <= 0 then DEFAULT_THRESHOLD else threshold
  }

  function New(threshold: int): Breaker {
    Breaker(Closed, 0, EffectiveThreshold(threshold))
  }

  function Apply(b: Breaker, call: Call): Breaker {
    match call
    case Success => b.(consecutiveFailures := 0, state := Closed)
    case Failure =>
      var n := b.consecutiveFailures + 1;
      b.(consecutiveFailures := n, state := if n >= b.threshold then Open else b.state)
    case Reset => if b.state == Open then b.(state := HalfOpen) else b
  }

  /** The breaker reached by a whole call history. */
  function Replay(threshold: int, calls: seq<Call>): Breaker {
    if calls == [] then New(threshold)
    else Apply(Replay(threshold, calls[..|calls| - 1]), calls[|calls| - 1])
  }

  /** What was called after the last `c`: the longest suffix free of `c`. */
  function Since(calls: seq<Call>, c: Call): (suffix: seq<Call>)
    ensures c !in suffix
    ensures |suffix| <= |calls| && suffix == calls[|calls| - |suffix|..]
    ensures |suffix| < |calls| ==> calls[|calls| - |suffix| - 1] == c
  {
    if calls == [] || calls[|calls| - 1] == c then []
    else Since(calls[..|calls| - 1], c) + [calls[|calls| - 1]]
  }

  /** What a history with that many failures since its last success, and with
      or without a Reset since its last failure, makes of a breaker. */
  predicate Describes(b: Breaker, threshold: nat, failures: nat, resetSinceFailure: bool) {
    && b.threshold == threshold
    && b.consecutiveFailures == failures
    && (b.state == Closed <==> failures < threshold)
    && (b.state == HalfOpen <==> failures >= threshold && resetSinceFailure)
    && (b.state == Open <==> failures >= threshold && !resetSinceFailure)
  }

  lemma {:induction false} CallExtendsTail(calls: seq<Call>, call: Call, c: Call)
    ensures Since(calls + [call], c) == if call == c then [] else Since(calls, c) + [call]
    ensures multiset(Since(calls + [call], c))[Failure]
            == if call == c then 0
               else multiset(Since(calls, c))[Failure] + if call == Failure then 1 else 0
  {
    var all := calls + [call];
    assert all[..|all| - 1] == calls && all[|all| - 1] == call;
    assert Since(all, c) == if call == c then [] else Since(calls, c) + [call];
    hide Since;
    assert multiset(Since(calls, c) + [call]) == multiset(Since(calls, c)) + multiset{call};
  }

  lemma DescribesNext(b: Breaker, threshold: nat, failures: nat, resetSinceFailure: bool, call: Call)
    requires Describes(b, threshold, failures, resetSinceFailure) && threshold > 0
    ensures Describes(Apply(b, call), threshold,
                      if call == Success then 0 else failures + if call == Failure then 1 else 0,
                      call != Failure && (resetSinceFailure || call == Reset))
  {
  }

  /** The whole breaker, read off its history without running the machine. */
  lemma {:induction false} HistoryDeterminesBreaker(threshold: int, calls: seq<Call>)
    ensures Describes(Replay(threshold, calls), EffectiveThreshold(threshold),
                      multiset(Since(calls, Success))[Failure], Reset in Since(calls, Failure))
  {
    if calls != [] {
      var init, last := calls[..|calls| - 1], calls[|calls| - 1];
      assert calls == init + [last];
      HistoryDeterminesBreaker(threshold, init);
      CallExtendsTail(init, last, Success);
      CallExtendsTail(init, last, Failure);
      DescribesNext(Replay(threshold, init), EffectiveThreshold(threshold),
                    multiset(Since(init, Success))[Failure], Reset in Since(init, Failure), last);
      hide Describes, Since, Apply;
    }
  }

  /** CircuitBreaker. Each method body is one critical section of `mu`. */
  class CircuitBreaker {
    const endpointID: EndpointId
    const threshold: nat
    var state: State
    var consecutiveFailures: nat

    function Value(): Breaker
      reads this
    {
      Breaker(state, consecutiveFailures, threshold)
    }

    constructor (endpointID: EndpointId, threshold: int)
      ensures this.endpointID == endpointID && Value() == New(threshold)
    {
      this.endpointID := endpointID;
      this.threshold := if threshold <= 0 then DEFAULT_THRESHOLD else threshold;
      state, consecutiveFailures := Closed, 0;
    }

    method RecordSuccess()
      modifies this
      ensures Value() == Apply(old(Value()), Success)
    {
      consecutiveFailures := 0;
      state := Closed;
    }

    method RecordFailure()
      modifies this
      ensures Value() == Apply(old(Value()), Failure)
    {
      consecutiveFailures := consecutiveFailures + 1;
      if consecutiveFailures >= threshold {
        state := Open;
      }
    }

    method IsOpen() returns (open: bool)
      ensures open <==> Value().state == Open
    {
      open := state == Open;
    }

    method Reset()
      modifies this
      ensures Value() == Apply(old(Value()), Call.Reset)
    {
      if state == Open {
        state := HalfOpen;
      }
    }
  }

  /** A breaker object after any series of calls is what its history says. */
  method DriveBreaker(endpointID: EndpointId, threshold: int, calls: seq<Call>) returns (cb: CircuitBreaker, open: bool)
    ensures fresh(cb)
    ensures Describes(cb.Value(), if threshold > 0 then threshold else 10,
                      multiset(Since(calls, Success))[Failure], Reset in Since(calls, Failure))
    ensures open <==> multiset(Since(calls, Success))[Failure] >= (if threshold > 0 then threshold else 10)
                      && Reset !in Since(calls, Failure)
  {
    cb := new CircuitBreaker(endpointID, threshold);
    for i := 0 to |calls|
      invariant fresh(cb) && cb.Value() == Replay(threshold, calls[..i])
    {
      assert calls[..i + 1][..i] == calls[..i];
      match calls[i] {
        case Success => cb.RecordSuccess();
        case Failure => cb.RecordFailure();
        case Reset => cb.Reset();
      }
    }
    assert calls[..|calls|] == calls;
    HistoryDeterminesBreaker(threshold, calls);
    open := cb.IsOpen();
  }

  /** BreakerManager: one stable breaker object per endpoint. */
  class BreakerManager {
    var breakers: map<EndpointId, CircuitBreaker>

    /** Every breaker knows its own key, so distinct keys have distinct objects. */
    ghost predicate Valid()
      reads this, breakers.Values
    {
      forall e | e in breakers :: breakers[e].endpointID == e && breakers[e].threshold == DEFAULT_THRESHOLD
    }

    ghost function View(): map<EndpointId, Breaker>
      reads this, breakers.Values
    {
      map e | e in breakers :: breakers[e].Value()
    }

    /** A call on one endpoint's breaker changes that endpoint's entry only. */
    twostate lemma OneBreakerChanged(e: EndpointId)
      requires old(Valid()) && unchanged(this) && e in breakers
      requires forall f | f in breakers && f != e :: unchanged(breakers[f])
      ensures Valid() && View() == old(View())[e := breakers[e].Value()]
    {
    }

    constructor ()
      ensures Valid() && breakers == map[]
    {
      breakers := map[];
    }

    method GetBreaker(endpointID: EndpointId) returns (cb: CircuitBreaker)
      requires Valid()
      modifies this
      ensures Valid()
      ensures endpointID in breakers && breakers[endpointID] == cb
      ensures endpointID in old(breakers) ==> breakers == old(breakers)
      ensures endpointID !in old(breakers) ==> fresh(cb) && breakers == old(breakers)[endpointID := cb]
      ensures forall e, f | e in breakers && f in breakers && e != f :: breakers[e] != breakers[f]
      ensures View() == old(View())[endpointID := cb.Value()]
      ensures cb.Value() == if endpointID in old(breakers) then old(View())[endpointID] else New(DEFAULT_THRESHOLD)
    {
      if endpointID in breakers {
        return breakers[endpointID];
      }
      cb := new CircuitBreaker(endpointID, DEFAULT_THRESHOLD);
      breakers := breakers[endpointID := cb];
    }
  }
}
