/** internal/middleware/middleware.go: the token bucket of one client, over
    exact reals. `limit` is the cap and the initial level, `rate` the refill
    per second. */
module TokenBuckets {
  datatype Bucket = Bucket(tokens: real, lastCheck: real)

  function Accrued(from: real, to: real, rate: real): real {
    (to - from) * rate
  }

  /** Lazy refill: what has accrued since the last check, up to the cap. */
  function Refill(b: Bucket, now: real, limit: int, rate: real): real {
    var tokens := b.tokens + Accrued(b.lastCheck, now, rate);
    if tokens > limit as real then limit as real else tokens
  }

  /** One request: refused below one token, else it spends one. */
  function Serve(b: Bucket, now: real, limit: int, rate: real): (Bucket, bool) {
    var tokens := Refill(b, now, limit, rate);
    if tokens < 1.0 then (Bucket(tokens, now), false) else (Bucket(tokens - 1.0, now), true)
  }

  function Decisions(b: Bucket, times: seq<real>, limit: int, rate: real): (ds: seq<bool>)
    ensures |ds| == |times|
    decreases |times|
  {
    if times == [] then []
    else
      var (b', ok) := Serve(b, times[0], limit, rate);
      [ok] + Decisions(b', times[1..], limit, rate)
  }

  function After(b: Bucket, times: seq<real>, limit: int, rate: real): Bucket
    decreases |times|
  {
    if times == [] then b else After(Serve(b, times[0], limit, rate).0, times[1..], limit, rate)
  }

  function Admitted(ds: seq<bool>): (n: nat)
    ensures n <= |ds|
  {
    if ds == [] then 0 else (if ds[0] then 1 else 0) + Admitted(ds[1..])
  }

  /** The clock never runs backwards. */
  predicate Monotone(last: real, times: seq<real>)
    decreases |times|
  {
    times == [] || (last <= times[0] && Monotone(times[0], times[1..]))
  }

  predicate InRange(b: Bucket, limit: int) {
    0.0 <= b.tokens <= limit as real
  }

  lemma AccruedAdds(t0: real, t1: real, t2: real, rate: real)
    ensures Accrued(t0, t1, rate) + Accrued(t1, t2, rate) == Accrued(t0, t2, rate)
    ensures Accrued(t0, t0, rate) == 0.0
  {
  }

  lemma AccruedIsPositive(t0: real, t1: real, rate: real)
    requires t0 <= t1 && rate >= 0.0
    ensures Accrued(t0, t1, rate) >= 0.0
  {
  }

  lemma ServeInRange(b: Bucket, now: real, limit: int, rate: real)
    requires InRange(b, limit) && b.lastCheck <= now && rate >= 0.0 && limit >= 1
    ensures InRange(Serve(b, now, limit, rate).0, limit) && Serve(b, now, limit, rate).0.lastCheck == now
    ensures 0.0 <= Refill(b, now, limit, rate) <= limit as real
  {
    hide Accrued;
    AccruedIsPositive(b.lastCheck, now, rate);
  }

  /** The level stays between zero and the cap. */
  lemma {:induction false} TokensStayInRange(b: Bucket, times: seq<real>, limit: int, rate: real)
    requires InRange(b, limit) && Monotone(b.lastCheck, times) && rate >= 0.0 && limit >= 1
    ensures InRange(After(b, times, limit, rate), limit)
    ensures After(b, times, limit, rate).lastCheck == if times == [] then b.lastCheck else times[|times| - 1]
    decreases |times|
  {
    hide Accrued;
    if times != [] {
      ServeInRange(b, times[0], limit, rate);
      TokensStayInRange(Serve(b, times[0], limit, rate).0, times[1..], limit, rate);
    }
  }

  /** What one request would find if there were no cap. */
  function Level(b: Bucket, now: real, rate: real): real {
    b.tokens + Accrued(b.lastCheck, now, rate)
  }

  function Above(level: real, limit: int): real {
    if level > limit as real then level - limit as real else 0.0
  }

  /** Time of the last request, or of the last check before there was one. */
  function LastOf(b: Bucket, times: seq<real>): real {
    if times == [] then b.lastCheck else times[|times| - 1]
  }

  /** What the cap turns away. */
  function Spilled(b: Bucket, times: seq<real>, limit: int, rate: real): real
    decreases |times|
  {
    if times == [] then 0.0
    else
      Above(Level(b, times[0], rate), limit) + Spilled(Serve(b, times[0], limit, rate).0, times[1..], limit, rate)
  }

  lemma ServeConserves(b: Bucket, now: real, limit: int, rate: real)
    ensures
      var (b', ok) := Serve(b, now, limit, rate);
      b'.tokens + (if ok then 1.0 else 0.0) + Above(Level(b, now, rate), limit) == Level(b, now, rate)
      && b'.lastCheck == now
  {
    hide Accrued;
  }

  lemma {:induction false} LevelsAreConserved(b: Bucket, times: seq<real>, limit: int, rate: real)
    ensures Level(b, LastOf(b, times), rate)
            == After(b, times, limit, rate).tokens + Admitted(Decisions(b, times, limit, rate)) as real
               + Spilled(b, times, limit, rate)
    ensures Spilled(b, times, limit, rate) >= 0.0
    decreases |times|
  {
    hide Accrued;
    var last := LastOf(b, times);
    if times == [] {
      AccruedAdds(last, last, last, rate);
    } else {
      var b' := Serve(b, times[0], limit, rate).0;
      LevelsAreConserved(b', times[1..], limit, rate);
      ServeConserves(b, times[0], limit, rate);
      AccruedAdds(b.lastCheck, times[0], last, rate);
      assert LastOf(b', times[1..]) == last;
      assert Decisions(b, times, limit, rate)[1..] == Decisions(b', times[1..], limit, rate);
    }
  }

  /** Idle time adds `rate` tokens a second: no ticks, no rounding. */
  lemma AccruedIsLinear(from: real, to: real, rate: real)
    ensures Accrued(from, to, rate) == (to - from) * rate
  {
  }

  /** Tokens are conserved: what was there and what `rate` tokens a second have
      added since is still there, was spent one by one, or was above the cap. */
  lemma {:induction false} TokensAreConserved(b: Bucket, times: seq<real>, limit: int, rate: real)
    ensures b.tokens + (LastOf(b, times) - b.lastCheck) * rate
            == After(b, times, limit, rate).tokens + Admitted(Decisions(b, times, limit, rate)) as real
               + Spilled(b, times, limit, rate)
    ensures Spilled(b, times, limit, rate) >= 0.0
  {
    hide Accrued, After, Decisions, Admitted, Spilled, LastOf;
    AccruedIsLinear(b.lastCheck, LastOf(b, times), rate);
    LevelsAreConserved(b, times, limit, rate);
  }

  // How much can pass

  lemma {:induction false} AdmissionsArePaid(b: Bucket, times: seq<real>, limit: int, rate: real)
    requires times != [] && Monotone(b.lastCheck, times)
    requires InRange(b, limit) && rate >= 0.0 && limit >= 1
    ensures Admitted(Decisions(b, times, limit, rate)) as real
            <= Refill(b, times[0], limit, rate) + Accrued(times[0], times[|times| - 1], rate)
    decreases |times|
  {
    hide Accrued;
    var (b', ok) := Serve(b, times[0], limit, rate);
    var ds := Decisions(b, times, limit, rate);
    assert ds[1..] == Decisions(b', times[1..], limit, rate);
    ServeInRange(b, times[0], limit, rate);
    AccruedAdds(times[0], times[0], times[0], rate);
    if |times| > 1 {
      AdmissionsArePaid(b', times[1..], limit, rate);
      assert Refill(b', times[1], limit, rate) <= b'.tokens + Accrued(times[0], times[1], rate);
      AccruedAdds(times[0], times[1], times[|times| - 1], rate);
    }
  }

  /** Serving a sequence is serving its first part and then the rest. */
  lemma {:induction false} DecisionsSplit(b: Bucket, times: seq<real>, k: nat, limit: int, rate: real)
    requires k <= |times|
    ensures Decisions(b, times, limit, rate)[..k] == Decisions(b, times[..k], limit, rate)
    ensures Decisions(b, times, limit, rate)[k..]
            == Decisions(After(b, times[..k], limit, rate), times[k..], limit, rate)
    ensures Monotone(b.lastCheck, times) ==>
              Monotone(b.lastCheck, times[..k])
              && Monotone(if k == 0 then b.lastCheck else times[k - 1], times[k..])
    decreases |times|
  {
    hide Accrued, Refill;
    if k == 0 {
      assert times[..0] == [] && times[0..] == times;
      assert Decisions(b, times, limit, rate)[0..] == Decisions(b, times, limit, rate);
    } else {
      var b' := Serve(b, times[0], limit, rate).0;
      DecisionsSplit(b', times[1..], k - 1, limit, rate);
      assert times[1..][..k - 1] == times[..k][1..];
      assert times[1..][k - 1..] == times[k..];
      var ds, rest := Decisions(b, times, limit, rate), Decisions(b', times[1..], limit, rate);
      assert ds[..k] == [ds[0]] + rest[..k - 1];
      assert ds[k..] == rest[k - 1..];
    }
  }

  lemma StretchIsPaid(b: Bucket, times: seq<real>, i: nat, j: nat, limit: int, rate: real)
    requires InRange(b, limit) && Monotone(b.lastCheck, times) && rate >= 0.0 && limit >= 1
    requires i < j <= |times|
    ensures Admitted(Decisions(b, times, limit, rate)[i..j]) as real
            <= limit as real + Accrued(times[i], times[j - 1], rate)
  {
    hide Accrued, Serve, Refill;
    DecisionsSplit(b, times, j, limit, rate);
    DecisionsSplit(b, times[..j], i, limit, rate);
    TokensStayInRange(b, times[..j][..i], limit, rate);
    var mid := After(b, times[..j][..i], limit, rate);
    ServeInRange(mid, times[i], limit, rate);
    AdmissionsArePaid(mid, times[..j][i..], limit, rate);
    assert Decisions(b, times, limit, rate)[i..j] == Decisions(b, times, limit, rate)[..j][i..];
  }

  /** Any stretch of requests, wherever it starts in the sequence, admits at
      most the cap plus `rate` tokens for every second that it lasts. */
  lemma StretchIsBounded(b: Bucket, times: seq<real>, i: nat, j: nat, limit: int, rate: real)
    requires InRange(b, limit) && Monotone(b.lastCheck, times) && rate >= 0.0 && limit >= 1
    requires i < j <= |times|
    ensures Admitted(Decisions(b, times, limit, rate)[i..j]) as real
            <= limit as real + (times[j - 1] - times[i]) * rate
  {
    hide Accrued, Decisions, Admitted, Monotone;
    AccruedIsLinear(times[i], times[j - 1], rate);
    StretchIsPaid(b, times, i, j, limit, rate);
  }

  lemma AccruedInWindow(t0: real, t1: real, limit: int, window: real)
    requires t1 - t0 <= window && window > 0.0 && limit >= 1
    ensures Accrued(t0, t1, limit as real / window) <= limit as real
  {
    var rate := limit as real / window;
    assert window * rate == limit as real;
    assert rate > 0.0;
    assert (window - (t1 - t0)) * rate >= 0.0;
  }

  /** With rate = limit/window: at most twice the limit in any span of a window. */
  lemma WindowIsBounded(b: Bucket, times: seq<real>, i: nat, j: nat, limit: int, window: real)
    requires InRange(b, limit) && Monotone(b.lastCheck, times) && window > 0.0 && limit >= 1
    requires i < j <= |times| && times[j - 1] - times[i] <= window
    ensures Admitted(Decisions(b, times, limit, limit as real / window)[i..j]) <= 2 * limit
  {
    hide Accrued, Decisions, Admitted, Monotone;
    StretchIsPaid(b, times, i, j, limit, limit as real / window);
    AccruedInWindow(times[i], times[j - 1], limit, window);
  }

  /** n requests at one moment, with n tokens there, are all admitted. */
  lemma {:induction false} BurstIsAdmitted(b: Bucket, now: real, n: nat, limit: int, rate: real)
    requires n as real <= Refill(b, now, limit, rate)
    ensures
      var times := seq(n, _ => now);
      && Admitted(Decisions(b, times, limit, rate)) == n
      && (n > 0 ==> After(b, times, limit, rate) == Bucket(Refill(b, now, limit, rate) - n as real, now))
    decreases n
  {
    if n > 0 {
      var tokens := Refill(b, now, limit, rate);
      var b' := Bucket(tokens - 1.0, now);
      assert Serve(b, now, limit, rate) == (b', true);
      AccruedAdds(now, now, now, rate);
      hide Accrued;
      assert Refill(b', now, limit, rate) == tokens - 1.0;
      BurstIsAdmitted(b', now, n - 1, limit, rate);
      var times := seq(n, _ => now);
      assert times[0] == now && times[1..] == seq(n - 1, _ => now);
      assert Decisions(b, times, limit, rate)[1..] == Decisions(b', times[1..], limit, rate);
      if n == 1 {
        assert times[1..] == [];
      }
    }
  }

  lemma {:induction false} AdmittedConcat(xs: seq<bool>, ys: seq<bool>)
    ensures Admitted(xs + ys) == Admitted(xs) + Admitted(ys)
  {
    if xs == [] {
      assert xs + ys == ys;
    } else {
      AdmittedConcat(xs[1..], ys);
      assert (xs + ys)[1..] == xs[1..] + ys;
    }
  }

  lemma {:induction false} MonotoneBursts(last: real, first: real, second: real, m: nat, n: nat)
    requires last <= first <= second
    ensures Monotone(last, seq(m, _ => first) + seq(n, _ => second))
    decreases m + n
  {
    var times := seq(m, _ => first) + seq(n, _ => second);
    if m > 0 {
      MonotoneBursts(first, first, second, m - 1, n);
      assert times[0] == first && times[1..] == seq(m - 1, _ => first) + seq(n, _ => second);
    } else if n > 0 {
      MonotoneBursts(second, second, second, 0, n - 1);
      assert times[0] == second && times[1..] == seq(0, _ => second) + seq(n - 1, _ => second);
    }
  }

  /** A full bucket is full again one window after a burst has emptied it. */
  lemma FullAgain(start: real, limit: int, window: real)
    requires window > 0.0 && limit >= 1
    ensures Refill(Bucket(0.0, start), start + window, limit, limit as real / window) == limit as real
  {
    var rate := limit as real / window;
    assert window * rate == limit as real;
    assert start + window - start == window;
  }

  /** The bound of WindowIsBounded is reached for every limit and window: from a
      full bucket, one burst at the start of the window and one at its end. */
  lemma WindowIsFilled(start: real, limit: int, window: real) returns (times: seq<real>)
    requires window > 0.0 && limit >= 1
    ensures |times| == 2 * limit && Monotone(start, times) && times[|times| - 1] - times[0] == window
    ensures Admitted(Decisions(Bucket(limit as real, start), times, limit, limit as real / window)) == 2 * limit
  {
    var rate, full := limit as real / window, Bucket(limit as real, start);
    var first, second := seq(limit, _ => start), seq(limit, _ => start + window);
    times := first + second;
    MonotoneBursts(start, start, start + window, limit, limit);
    AccruedAdds(start, start, start, rate);
    FullAgain(start, limit, window);
    hide Accrued;
    assert Refill(full, start, limit, rate) == limit as real;
    BurstIsAdmitted(full, start, limit, limit, rate);
    BurstIsAdmitted(Bucket(0.0, start), start + window, limit, limit, rate);
    DecisionsSplit(full, times, limit, limit, rate);
    assert times[..limit] == first && times[limit..] == second;
    var ds := Decisions(full, times, limit, rate);
    AdmittedConcat(ds[..limit], ds[limit..]);
    assert ds == ds[..limit] + ds[limit..];
  }

  // Greedy spending is optimal

  /** A policy that spends only what it has, on the same bucket. */
  predicate Affordable(b: Bucket, times: seq<real>, policy: seq<bool>, limit: int, rate: real)
    requires |policy| == |times|
    decreases |times|
  {
    times == [] ||
    var tokens := Refill(b, times[0], limit, rate);
    && (policy[0] ==> tokens >= 1.0)
    && Affordable(Bucket(if policy[0] then tokens - 1.0 else tokens, times[0]), times[1..], policy[1..], limit, rate)
  }

  /** If the policy has at most `lead` tokens more, for `lead` admissions less,
      this stays so after one more request. */
  lemma NextLead(g: Bucket, p: Bucket, lead: nat, now: real, spend: bool, limit: int, rate: real) returns (lead': nat)
    requires g.lastCheck == p.lastCheck && p.tokens <= g.tokens + lead as real
    requires spend ==> Refill(p, now, limit, rate) >= 1.0
    ensures
      var (g', greedy) := Serve(g, now, limit, rate);
      var tokens := Refill(p, now, limit, rate);
      && lead' == lead + (if greedy then 1 else 0) - (if spend then 1 else 0)
      && (if spend then tokens - 1.0 else tokens) <= g'.tokens + lead' as real
  {
    hide Accrued;
    assert Refill(p, now, limit, rate) <= Refill(g, now, limit, rate) + lead as real;
    if spend && Refill(g, now, limit, rate) < 1.0 {
      assert lead as real > 0.0;
    }
    lead' := lead + (if Serve(g, now, limit, rate).1 then 1 else 0) - (if spend then 1 else 0);
  }

  lemma {:induction false} GreedyLeads(
    g: Bucket, p: Bucket, lead: nat, times: seq<real>, policy: seq<bool>, k: nat, limit: int, rate: real)
    requires |policy| == |times| && k <= |times| && Affordable(p, times, policy, limit, rate)
    requires g.lastCheck == p.lastCheck && p.tokens <= g.tokens + lead as real
    ensures Admitted(policy[..k]) <= lead + Admitted(Decisions(g, times, limit, rate)[..k])
    decreases |times|
  {
    hide Accrued;
    if k > 0 {
      var now := times[0];
      var (g', greedy) := Serve(g, now, limit, rate);
      var tokens := Refill(p, now, limit, rate);
      var p' := Bucket(if policy[0] then tokens - 1.0 else tokens, now);
      var lead' := NextLead(g, p, lead, now, policy[0], limit, rate);
      GreedyLeads(g', p', lead', times[1..], policy[1..], k - 1, limit, rate);
      assert policy[..k][1..] == policy[1..][..k - 1];
      assert Decisions(g, times, limit, rate)[..k][1..] == Decisions(g', times[1..], limit, rate)[..k - 1];
    }
  }

  /** For every arrival sequence and every prefix of it, no policy that could
      pay for its admissions admits more requests than the limiter does. */
  lemma GreedyIsOptimal(b: Bucket, times: seq<real>, policy: seq<bool>, k: nat, limit: int, rate: real)
    requires |policy| == |times| && k <= |times| && Affordable(b, times, policy, limit, rate)
    ensures Admitted(policy[..k]) <= Admitted(Decisions(b, times, limit, rate)[..k])
  {
    GreedyLeads(b, b, 0, times, policy, k, limit, rate);
  }

  /** And the limiter itself is such a policy. */
  lemma {:induction false} GreedyIsAffordable(b: Bucket, times: seq<real>, limit: int, rate: real)
    ensures Affordable(b, times, Decisions(b, times, limit, rate), limit, rate)
    decreases |times|
  {
    hide Accrued;
    if times != [] {
      var b' := Serve(b, times[0], limit, rate).0;
      GreedyIsAffordable(b', times[1..], limit, rate);
      assert Decisions(b, times, limit, rate)[1..] == Decisions(b', times[1..], limit, rate);
    }
  }

  // A refused request costs nothing

  function Select<T>(xs: seq<T>, keep: seq<bool>): seq<T>
    requires |xs| == |keep|
  {
    if xs == [] then [] else (if keep[0] then [xs[0]] else []) + Select(xs[1..], keep[1..])
  }

  /** Capped refill composes over adjacent intervals. */
  lemma RefillComposes(b: Bucket, t1: real, t2: real, limit: int, rate: real)
    requires b.lastCheck <= t1 <= t2 && rate >= 0.0
    ensures Refill(Bucket(Refill(b, t1, limit, rate), t1), t2, limit, rate) == Refill(b, t2, limit, rate)
  {
    hide Accrued;
    AccruedAdds(b.lastCheck, t1, t2, rate);
    AccruedIsPositive(t1, t2, rate);
  }

  lemma {:induction false} PrunedKeepsPace(
    b: Bucket, seen: real, times: seq<real>, keep: seq<bool>, limit: int, rate: real)
    requires |keep| == |times| && rate >= 0.0 && b.lastCheck <= seen && Monotone(seen, times)
    requires
      var full := Bucket(Refill(b, seen, limit, rate), seen);
      forall i | 0 <= i < |times| && !keep[i] :: !Decisions(full, times, limit, rate)[i]
    ensures
      var full := Bucket(Refill(b, seen, limit, rate), seen);
      Decisions(b, Select(times, keep), limit, rate) == Select(Decisions(full, times, limit, rate), keep)
    decreases |times|
  {
    hide Accrued;
    if times != [] {
      var now, full := times[0], Bucket(Refill(b, seen, limit, rate), seen);
      RefillComposes(b, seen, now, limit, rate);
      AccruedAdds(now, now, now, rate);
      var (full', ok) := Serve(full, now, limit, rate);
      var ds, rest := Decisions(full, times, limit, rate), Decisions(full', times[1..], limit, rate);
      assert ds == [ok] + rest;
      forall i | 0 <= i < |times| - 1 && !keep[1..][i] ensures !rest[i] {
        assert !ds[i + 1];
      }
      var b' := if keep[0] then Serve(b, now, limit, rate).0 else b;
      if keep[0] {
        assert b' == full';
        assert Refill(b', now, limit, rate) == b'.tokens;
      }
      assert full' == Bucket(Refill(b', now, limit, rate), now);
      PrunedKeepsPace(b', now, times[1..], keep[1..], limit, rate);
      assert ds[1..] == rest;
      assert Select(ds, keep) == (if keep[0] then [ok] else []) + Select(rest, keep[1..]);
      if keep[0] {
        assert Select(times, keep)[1..] == Select(times[1..], keep[1..]);
        assert Decisions(b, Select(times, keep), limit, rate)
            == [ok] + Decisions(b', Select(times[1..], keep[1..]), limit, rate);
      } else {
        assert Select(times, keep) == Select(times[1..], keep[1..]);
      }
    }
  }

  /** Deleting any set of refused requests leaves every other decision as it was. */
  lemma RefusedCostsNothing(b: Bucket, times: seq<real>, keep: seq<bool>, limit: int, rate: real)
    requires |keep| == |times| && rate >= 0.0 && Monotone(b.lastCheck, times) && InRange(b, limit)
    requires forall i | 0 <= i < |times| && !keep[i] :: !Decisions(b, times, limit, rate)[i]
    ensures Decisions(b, Select(times, keep), limit, rate) == Select(Decisions(b, times, limit, rate), keep)
  {
    hide Accrued;
    AccruedAdds(b.lastCheck, b.lastCheck, b.lastCheck, rate);
    assert Bucket(Refill(b, b.lastCheck, limit, rate), b.lastCheck) == b;
    PrunedKeepsPace(b, b.lastCheck, times, keep, limit, rate);
  }

  // Slow clients

  /** Successive requests are far enough apart for a whole token to accrue. */
  predicate Spaced(times: seq<real>, rate: real) {
    forall i | 0 < i < |times| :: (times[i] - times[i - 1]) * rate >= 1.0
  }

  lemma SpacedAccrues(times: seq<real>, rate: real)
    requires Spaced(times, rate) && times != []
    ensures Spaced(times[1..], rate) && (|times| > 1 ==> Accrued(times[0], times[1], rate) >= 1.0)
  {
    if |times| > 1 {
      AccruedIsLinear(times[0], times[1], rate);
    }
    forall i | 0 < i < |times[1..]| ensures (times[1..][i] - times[1..][i - 1]) * rate >= 1.0 {
      assert (times[i + 1] - times[i]) * rate >= 1.0;
    }
  }

  /** A client that keeps at least 1/rate between its requests is never refused. */
  lemma {:induction false} SpacedIsNeverRefused(b: Bucket, times: seq<real>, limit: int, rate: real)
    requires limit >= 1 && rate >= 0.0 && Monotone(b.lastCheck, times) && Spaced(times, rate)
    requires InRange(b, limit) && (times != [] ==> Refill(b, times[0], limit, rate) >= 1.0)
    ensures forall i | 0 <= i < |times| :: Decisions(b, times, limit, rate)[i]
    decreases |times|
  {
    hide Accrued, Spaced;
    if times != [] {
      var b' := Serve(b, times[0], limit, rate).0;
      ServeInRange(b, times[0], limit, rate);
      SpacedAccrues(times, rate);
      SpacedIsNeverRefused(b', times[1..], limit, rate);
    }
  }
}
