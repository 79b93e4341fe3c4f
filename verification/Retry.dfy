/** internal/delivery/retry.go, and the failure branch of
    internal/delivery/worker.go that drives it. Durations are int64 nanoseconds. */
module Retry {
  import opened Wrappers
  import opened DeliveryLogs

  const SECOND := 1_000_000_000
  const MAX_INT64 := 0x7FFF_FFFF_FFFF_FFFF

  function Pow2(n: nat): (p: nat)
    ensures p > 0
  {
    if n == 0 then 1 else 2 * Pow2(n - 1)
  }

  /** Two's complement wrap-around of int64 arithmetic. */
  function Wrap64(x: int): (w: int)
    ensures -MAX_INT64 - 1 <= w <= MAX_INT64
    ensures -MAX_INT64 - 1 <= x <= MAX_INT64 ==> w == x
  {
    if -MAX_INT64 - 1 <= x <= MAX_INT64 then x
    else (x + MAX_INT64 + 1) % 0x1_0000_0000_0000_0000 - MAX_INT64 - 1
  }

  /** The random source on [0, n): over all draws, any of these numbers. */
  function RandomBelow(n: int, draw: nat): (r: int)
    requires n > 0
    ensures 0 <= r < n && (draw < n ==> r == draw)
  {
    if draw < n then draw else 0
  }

  /** The conversion of a whole float64 to int64. Go leaves values that do not
      fit to the implementation; this is what amd64 makes of them. */
  function ToInt64(x: int): int {
    if -MAX_INT64 - 1 <= x <= MAX_INT64 then x else -MAX_INT64 - 1
  }

  /** 1s * 2^attempt plus jitter, as the int64 code computes it. The result is
      None where the random source panics because base/2 is not positive. */
  function CalculateBackoff(attempt: int, draw: nat): Option<int> {
    var power := if attempt < 0 then 0 else ToInt64(Pow2(attempt));
    var base := Wrap64(SECOND * power);
    if base < 2 then None else Some(Wrap64(base + RandomBelow(base / 2, draw)))
  }

  lemma Pow2Monotone(m: nat, n: nat)
    requires m <= n
    ensures Pow2(m) <= Pow2(n)
    decreases n
  {
    if m < n {
      Pow2Monotone(m, n - 1);
    }
  }

  lemma Pow2Sum(m: nat, n: nat)
    ensures Pow2(m + n) == Pow2(m) * Pow2(n)
    decreases n
  {
    if n > 0 {
      Pow2Sum(m, n - 1);
      assert Pow2(m + n) == 2 * Pow2(m + (n - 1));
    }
  }

  lemma Pow2Of32()
    ensures Pow2(32) == 0x1_0000_0000 && Pow2(33) == 0x2_0000_0000 && Pow2(34) == 0x4_0000_0000
  {
    Pow2Sum(2, 2);
    Pow2Sum(4, 4);
    Pow2Sum(8, 8);
    Pow2Sum(16, 16);
  }

  /** The documented range: [2^attempt s, 1.5 * 2^attempt s). */
  predicate InRange(attempt: int, delay: Option<int>) {
    attempt >= 0 && delay.Some? && SECOND * Pow2(attempt) <= delay.value && 2 * delay.value < 3 * SECOND * Pow2(attempt)
  }

  lemma SmallBackoff(attempt: int, draw: nat)
    requires 0 <= attempt <= 32
    ensures InRange(attempt, CalculateBackoff(attempt, draw))
  {
    Pow2Monotone(attempt, 32);
    Pow2Of32();
    var base := SECOND * Pow2(attempt);
    assert Wrap64(base) == base;
    var half := base / 2;
    assert base + RandomBelow(half, draw) < base + half <= MAX_INT64;
  }

  /** Every draw keeps the documented range, without wrapping or panicking,
      exactly for attempts 0 to 32. */
  lemma BackoffRange(attempt: int)
    ensures (forall draw: nat :: InRange(attempt, CalculateBackoff(attempt, draw))) <==> 0 <= attempt <= 32
  {
    if 0 <= attempt <= 32 {
      forall draw: nat ensures InRange(attempt, CalculateBackoff(attempt, draw)) {
        SmallBackoff(attempt, draw);
      }
    } else {
      var draw: nat := if attempt == 33 then SECOND * 0x1_0000_0000 - 1 else 0;
      LargeBackoff(attempt, draw);
      assert !InRange(attempt, CalculateBackoff(attempt, draw));
    }
  }

  lemma LargeBackoff(attempt: int, draw: nat)
    requires attempt < 0 || 33 < attempt || (attempt == 33 && draw == SECOND * 0x1_0000_0000 - 1)
    ensures !InRange(attempt, CalculateBackoff(attempt, draw))
  {
    Pow2Of32();
    if attempt > 33 {
      Pow2Monotone(34, attempt);
    }
  }

  /** Above int64, it makes no difference whether the conversion saturates or
      yields the least value: the base is not positive. */
  lemma EitherConversionPanics()
    ensures Wrap64(SECOND * MAX_INT64) < 2 && Wrap64(SECOND * (-MAX_INT64 - 1)) < 2
  {
  }

  /** Which delay a draw gives: the base, exactly doubled, and the whole of the
      draw. So every delay of the range is given by some draw. */
  lemma BackoffOfDraw(attempt: int, draw: nat)
    requires 0 <= attempt <= 32 && 2 * draw < 1_000_000_000 * Pow2(attempt)
    ensures CalculateBackoff(attempt, draw) == Some(1_000_000_000 * Pow2(attempt) + draw)
  {
    Pow2Monotone(attempt, 32);
    Pow2Of32();
    Halves(SECOND * Pow2(attempt), draw);
  }

  lemma Halves(n: int, draw: nat)
    requires 2 * draw < n && n % 2 == 0
    ensures draw < n / 2
  {
  }

  /** Attempt 33 is the first to overflow: exactly the draws that take the sum
      past int64 come out negative. */
  lemma BackoffOverflows(draw: nat)
    requires 2 * draw < 1_000_000_000 * Pow2(33)
    ensures CalculateBackoff(33, draw).Some?
    ensures
      var delay, sum := CalculateBackoff(33, draw).value, 1_000_000_000 * Pow2(33) + draw;
      if sum <= MAX_INT64 then delay == sum else delay < 0
  {
    Pow2Of32();
  }

  lemma BackoffIncreases(attempt: int, draw: nat, nextDraw: nat)
    requires 0 <= attempt < 32
    ensures
      var sooner, later := CalculateBackoff(attempt, draw), CalculateBackoff(attempt + 1, nextDraw);
      sooner.Some? && later.Some? && sooner.value < later.value
  {
    SmallBackoff(attempt, draw);
    SmallBackoff(attempt + 1, nextDraw);
  }

  function ShouldRetry(statusCode: int): (retry: bool)
    ensures !retry <==> 200 <= statusCode < 300 || statusCode in {400, 401, 403, 404}
  {
    if 200 <= statusCode < 300 then false
    else statusCode != 400 && statusCode != 401 && statusCode != 403 && statusCode != 404
  }

  /** One failed attempt: the status code if a response came, the message, the
      clock and the random draw that ScheduleRetry would use. */
  datatype Failed = Failed(code: Option<int>, message: ErrorMessage, now: int, draw: nat)

  /** ScheduleRetry up to its database write; None when the backoff panics. */
  function Reschedule(d: DeliveryLog, now: int, draw: nat): Option<DeliveryLog> {
    match CalculateBackoff(d.attemptNumber, draw)
    case None => None
    case Some(delay) =>
      Some(d.(status := PENDING, attemptNumber := d.attemptNumber + 1, nextRetryAt := Some(now + delay)))
  }

  /** recordFailure, without the breaker call and the database write. */
  function AfterFailure(d: DeliveryLog, f: Failed, maxRetries: int): Option<DeliveryLog> {
    var failed := d.(errorMessage := Some(f.message));
    if f.code.Some? && !ShouldRetry(f.code.value) then Some(failed.(status := FAILED))
    else if d.attemptNumber >= maxRetries then Some(failed.(status := FAILED))
    else Reschedule(failed, f.now, f.draw)
  }

  /** All that recordFailure makes of a log: the message is the one given, who
      and what it is about stays, a hopeless failure is final and keeps the rest,
      and any other is rescheduled by its own backoff, if that does not panic. */
  lemma FailureIsTold(d: DeliveryLog, f: Failed, maxRetries: int)
    ensures
      var hopeless := (f.code.Some? && (200 <= f.code.value < 300 || f.code.value in {400, 401, 403, 404}))
                      || d.attemptNumber >= maxRetries;
      var delay := CalculateBackoff(d.attemptNumber, f.draw);
      match AfterFailure(d, f, maxRetries)
      case None => !hopeless && delay.None?
      case Some(log) =>
        && log.errorMessage == Some(f.message) && log.responseStatus == d.responseStatus
        && log.id == d.id && log.eventID == d.eventID && log.endpointID == d.endpointID
        && if hopeless then
             log.status == FAILED && log.attemptNumber == d.attemptNumber && log.nextRetryAt == d.nextRetryAt
           else
             && delay.Some? && log.status == PENDING && log.attemptNumber == d.attemptNumber + 1
             && log.nextRetryAt == Some(f.now + delay.value)
  {
    hide CalculateBackoff;
  }

  /** What is left of a log after driving recordFailure over successive
      failures for as long as it stays PENDING, and the delays it scheduled. */
  datatype Driven = Driven(log: DeliveryLog, delays: seq<int>, panicked: bool)

  function Drive(d: DeliveryLog, maxRetries: int, failures: seq<Failed>): Driven
    decreases failures
  {
    if failures == [] || d.status != PENDING then Driven(d, [], false)
    else
      match AfterFailure(d, failures[0], maxRetries)
      case None => Driven(d, [], true)
      case Some(next) =>
        if next.status != PENDING then Driven(next, [], false)
        else
          var rest := Drive(next, maxRetries, failures[1..]);
          Driven(rest.log, [next.nextRetryAt.value - failures[0].now] + rest.delays, rest.panicked)
  }

  lemma LastBackoffs(draw: nat)
    ensures CalculateBackoff(33, draw).Some? && CalculateBackoff(34, draw).None?
  {
    Pow2Of32();
  }

  function Sum(xs: seq<int>): int {
    if xs == [] then 0 else xs[0] + Sum(xs[1..])
  }

  predicate Retryable(f: Failed) {
    f.code.None? || ShouldRetry(f.code.value)
  }

  /** A delivery that keeps failing in a retryable way: `max_retries` m counts
      all attempts, so m - 1 retries follow the first one, and the delays add
      up as the doubling promises. Beyond 34 the 34th backoff panics instead. */
  lemma RetryBudget(d: DeliveryLog, m: int, failures: seq<Failed>)
    requires d.status == PENDING && d.attemptNumber == 1
    requires forall f | f in failures :: Retryable(f)
    requires |failures| >= m && |failures| >= 1
    ensures
      var end := Drive(d, m, failures);
      && (end.panicked <==> m > 34)
      && (m <= 34 ==> end.log.status == FAILED && |end.delays| == if m <= 1 then 0 else m - 1)
      && (m > 34 ==> |end.delays| == 33)
      && (2 <= m <= 33 ==>
            && SECOND * (Pow2(m) - 2) <= Sum(end.delays)
            && 2 * Sum(end.delays) < 3 * SECOND * (Pow2(m) - 2))
  {
    RetriesFrom(d, m, failures);
  }

  /** What RetryBudget says, from any attempt `a` of the chain on. */
  ghost predicate Budget(end: Driven, a: int, m: int) {
    && (end.panicked <==> m > 34)
    && (m <= 34 ==> end.log.status == FAILED && |end.delays| == if m <= a then 0 else m - a)
    && (m > 34 ==> |end.delays| == 34 - a)
    && (1 <= a <= m <= 33 ==> Total(Sum(end.delays), Pow2(a), Pow2(m), m - a))
  }

  predicate Total(sum: int, first: int, last: int, retries: int) {
    SECOND * (last - first) <= sum && 2 * sum <= 3 * SECOND * (last - first) - retries
  }

  lemma BudgetStep(rest: Driven, delay: int, a: int, m: int)
    requires 1 <= a < m && a < 34 && Budget(rest, a + 1, m)
    requires a <= 32 ==> InRange(a, Some(delay))
    ensures Budget(Driven(rest.log, [delay] + rest.delays, rest.panicked), a, m)
  {
    assert ([delay] + rest.delays)[1..] == rest.delays;
    assert Sum([delay] + rest.delays) == delay + Sum(rest.delays);
    assert Pow2(a + 1) == 2 * Pow2(a);
  }

  lemma {:induction false} RetriesFrom(d: DeliveryLog, m: int, failures: seq<Failed>)
    requires d.status == PENDING && 1 <= d.attemptNumber <= 34
    requires d.attemptNumber <= m || d.attemptNumber == 1
    requires forall f | f in failures :: Retryable(f)
    requires |failures| >= 1 && |failures| > m - d.attemptNumber
    ensures Budget(Drive(d, m, failures), d.attemptNumber, m)
    decreases m - d.attemptNumber
  {
    hide Drive;
    var a := d.attemptNumber;
    assert Retryable(failures[0]);
    if a < m && a < 34 {
      var next := OneRetry(d, m, failures);
      RetriesFrom(next, m, failures[1..]);
      BudgetStep(Drive(next, m, failures[1..]), next.nextRetryAt.value - failures[0].now, a, m);
    } else {
      NoRetry(d, m, failures);
    }
  }

  lemma {:induction false} OneRetry(d: DeliveryLog, m: int, failures: seq<Failed>) returns (next: DeliveryLog)
    requires d.status == PENDING && 1 <= d.attemptNumber < m && d.attemptNumber < 34
    requires failures != [] && Retryable(failures[0])
    ensures next.status == PENDING && next.attemptNumber == d.attemptNumber + 1 && next.nextRetryAt.Some?
    ensures d.attemptNumber <= 32 ==> InRange(d.attemptNumber, Some(next.nextRetryAt.value - failures[0].now))
    ensures
      var rest := Drive(next, m, failures[1..]);
      Drive(d, m, failures)
      == Driven(rest.log, [next.nextRetryAt.value - failures[0].now] + rest.delays, rest.panicked)
  {
    var f := failures[0];
    LastBackoffs(f.draw);
    if d.attemptNumber <= 32 {
      SmallBackoff(d.attemptNumber, f.draw);
    }
    next := AfterFailure(d, f, m).value;
  }

  lemma NoRetry(d: DeliveryLog, m: int, failures: seq<Failed>)
    requires d.status == PENDING && 1 <= d.attemptNumber <= 34
    requires d.attemptNumber >= m || d.attemptNumber == 34
    requires failures != [] && Retryable(failures[0])
    ensures
      var end := Drive(d, m, failures);
      end.delays == [] && if d.attemptNumber >= m then end.log.status == FAILED && !end.panicked else end.panicked
  {
    LastBackoffs(failures[0].draw);
  }
}
