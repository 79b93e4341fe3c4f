/** internal/middleware/middleware.go: one token bucket per client address. */
module RateLimiters {
  import opened TokenBuckets

  /** The two atomic steps of a request: finding or storing the bucket, and the
      locked refill-and-spend. Requests interleave between them. */
  datatype Event = Load(ip: string, at: real) | Take(ip: string, now: real)

  function StepOn(buckets: map<string, Bucket>, event: Event, limit: int, rate: real): map<string, Bucket> {
    match event
    case Load(ip, at) => if ip in buckets then buckets else buckets[ip := Bucket(limit as real, at)]
    case Take(ip, now) => if ip in buckets then buckets[ip := Serve(buckets[ip], now, limit, rate).0] else buckets
  }

  /** A request takes from the bucket it has loaded before. */
  predicate IsHistory(events: seq<Event>, limit: int, rate: real) {
    events == [] ||
    var init, last := events[..|events| - 1], events[|events| - 1];
    IsHistory(init, limit, rate) && (last.Take? ==> last.ip in Buckets(init, limit, rate))
  }

  function Buckets(events: seq<Event>, limit: int, rate: real): map<string, Bucket> {
    if events == [] then map[]
    else StepOn(Buckets(events[..|events| - 1], limit, rate), events[|events| - 1], limit, rate)
  }

  /** What the interleaved history answers to one client. */
  function Answers(events: seq<Event>, ip: string, limit: int, rate: real): seq<bool>
    requires IsHistory(events, limit, rate)
  {
    if events == [] then []
    else
      var init, last := events[..|events| - 1], events[|events| - 1];
      Answers(init, ip, limit, rate)
      + if last.Take? && last.ip == ip then [Serve(Buckets(init, limit, rate)[ip], last.now, limit, rate).1] else []
  }

  /** The requests of one client, and when its bucket was first stored. */
  function Requests(events: seq<Event>, ip: string): seq<real> {
    if events == [] then []
    else
      Requests(events[..|events| - 1], ip)
      + if events[|events| - 1].Take? && events[|events| - 1].ip == ip then [events[|events| - 1].now] else []
  }

  function FirstSeen(events: seq<Event>, ip: string): real {
    if events == [] then 0.0
    else if events[0].Load? && events[0].ip == ip then events[0].at
    else FirstSeen(events[1..], ip)
  }

  predicate Seen(events: seq<Event>, ip: string) {
    exists i :: 0 <= i < |events| && events[i].Load? && events[i].ip == ip
  }

  lemma {:induction false} FirstSeenStays(events: seq<Event>, event: Event, ip: string)
    ensures Seen(events, ip) ==> FirstSeen(events + [event], ip) == FirstSeen(events, ip)
    ensures !Seen(events, ip) && event.Load? && event.ip == ip ==> FirstSeen(events + [event], ip) == event.at
  {
    if events == [] {
      assert events + [event] == [event];
    } else if !(events[0].Load? && events[0].ip == ip) {
      FirstSeenStays(events[1..], event, ip);
      assert (events + [event])[1..] == events[1..] + [event];
      assert Seen(events, ip) ==> Seen(events[1..], ip) by {
        if Seen(events, ip) {
          var i :| 0 <= i < |events| && events[i].Load? && events[i].ip == ip;
          assert events[1..][i - 1] == events[i];
        }
      }
      assert Seen(events[1..], ip) ==> Seen(events, ip) by {
        if Seen(events[1..], ip) {
          var i :| 0 <= i < |events[1..]| && events[1..][i].Load? && events[1..][i].ip == ip;
          assert events[i + 1] == events[1..][i];
        }
      }
    }
  }

  lemma SeenStays(events: seq<Event>, event: Event, ip: string)
    ensures Seen(events + [event], ip) <==> Seen(events, ip) || (event.Load? && event.ip == ip)
  {
    var all := events + [event];
    if Seen(events, ip) {
      var i :| 0 <= i < |events| && events[i].Load? && events[i].ip == ip;
      assert all[i] == events[i];
    }
    if event.Load? && event.ip == ip {
      assert all[|events|] == event;
    }
  }

  lemma {:induction false} BucketsOfSeen(events: seq<Event>, ip: string, limit: int, rate: real)
    ensures ip in Buckets(events, limit, rate) <==> Seen(events, ip)
  {
    hide Serve;
    if events != [] {
      var init, last := events[..|events| - 1], events[|events| - 1];
      assert events == init + [last];
      BucketsOfSeen(init, ip, limit, rate);
      SeenStays(init, last, ip);
    }
  }

  /** Requests of all clients may interleave in every way, between their two
      steps too: all that a history needs is a load of a bucket before each take. */
  lemma {:induction false} HistoriesInterleaveFreely(events: seq<Event>, limit: int, rate: real)
    ensures IsHistory(events, limit, rate)
            <==> forall k | 0 <= k < |events| && events[k].Take? :: Seen(events[..k], events[k].ip)
  {
    hide Seen;
    if events != [] {
      var n := |events| - 1;
      var init := events[..n];
      HistoriesInterleaveFreely(init, limit, rate);
      BucketsOfSeen(init, events[n].ip, limit, rate);
      assert forall k | 0 <= k < n :: init[..k] == events[..k];
    }
  }

  lemma ServeOneMore(b: Bucket, times: seq<real>, now: real, limit: int, rate: real)
    ensures Decisions(b, times + [now], limit, rate)
            == Decisions(b, times, limit, rate) + [Serve(After(b, times, limit, rate), now, limit, rate).1]
    ensures After(b, times + [now], limit, rate) == Serve(After(b, times, limit, rate), now, limit, rate).0
    decreases |times|
  {
    hide Refill;
    if times == [] {
      assert times + [now] == [now];
      assert [now][1..] == [];
    } else {
      ServeOneMore(Serve(b, times[0], limit, rate).0, times[1..], now, limit, rate);
      assert (times + [now])[1..] == times[1..] + [now];
    }
  }

  /** However the requests of all clients interleave, each client is answered
      by its own bucket serving its own requests alone. */
  lemma {:induction false} ClientsAreIndependent(events: seq<Event>, ip: string, limit: int, rate: real)
    requires IsHistory(events, limit, rate)
    ensures
      var own := Bucket(limit as real, FirstSeen(events, ip));
      && (ip in Buckets(events, limit, rate) <==> Seen(events, ip))
      && (!Seen(events, ip) ==> Requests(events, ip) == [])
      && (Seen(events, ip) ==> Buckets(events, limit, rate)[ip] == After(own, Requests(events, ip), limit, rate))
      && Answers(events, ip, limit, rate) == Decisions(own, Requests(events, ip), limit, rate)
    decreases |events|
  {
    hide Serve;
    if events != [] {
      var init, last := events[..|events| - 1], events[|events| - 1];
      assert events == init + [last];
      ClientsAreIndependent(init, ip, limit, rate);
      FirstSeenStays(init, last, ip);
      SeenStays(init, last, ip);
      if last.ip == ip && last.Take? {
        ServeOneMore(Bucket(limit as real, FirstSeen(init, ip)), Requests(init, ip), last.now, limit, rate);
      } else {
        assert Requests(events, ip) == Requests(init, ip);
        assert Answers(events, ip, limit, rate) == Answers(init, ip, limit, rate);
      }
    }
  }

  // Guarantees per client, over every interleaved history

  function Time(event: Event): real {
    if event.Load? then event.at else event.now
  }

  /** One monotone clock, read by a Take inside its critical section. The
      reading that a Load stores may be older than its step. */
  predicate Timely(events: seq<Event>) {
    forall i, j | 0 <= i < j < |events| && events[j].Take? :: Time(events[i]) <= Time(events[j])
  }

  lemma {:induction false} MonotoneAppend(last: real, times: seq<real>, now: real)
    requires Monotone(last, times) && last <= now && forall t | t in times :: t <= now
    ensures Monotone(last, times + [now])
    decreases |times|
  {
    if times == [] {
      assert times + [now] == [now];
    } else {
      assert times[0] in times && forall t | t in times[1..] :: t in times;
      MonotoneAppend(times[0], times[1..], now);
      assert (times + [now])[1..] == times[1..] + [now];
    }
  }

  lemma TimelyLast(init: seq<Event>, last: Event)
    requires Timely(init + [last])
    ensures Timely(init) && (last.Take? ==> forall event | event in init :: Time(event) <= Time(last))
  {
    var events := init + [last];
    forall i, j | 0 <= i < j < |init| && init[j].Take? ensures Time(init[i]) <= Time(init[j]) {
      assert Time(events[i]) <= Time(events[j]);
    }
    forall event | event in init && last.Take? ensures Time(event) <= Time(last) {
      var i :| 0 <= i < |init| && init[i] == event;
      assert Time(events[i]) <= Time(events[|init|]);
    }
  }

  /** Every time that a client's own history shows was read from the clock. */
  lemma {:induction false} RequestsAreEvents(events: seq<Event>, ip: string)
    ensures forall t | t in Requests(events, ip) :: Take(ip, t) in events
  {
    if events != [] {
      RequestsAreEvents(events[..|events| - 1], ip);
      assert events == events[..|events| - 1] + [events[|events| - 1]];
    }
  }

  lemma {:induction false} FirstSeenIsEvent(events: seq<Event>, ip: string)
    requires Seen(events, ip)
    ensures Load(ip, FirstSeen(events, ip)) in events
  {
    if !(events[0].Load? && events[0].ip == ip) {
      var i :| 0 <= i < |events| && events[i].Load? && events[i].ip == ip;
      assert events[1..][i - 1] == events[i];
      FirstSeenIsEvent(events[1..], ip);
    }
  }

  lemma {:induction false} RequestsAreMonotone(events: seq<Event>, ip: string, limit: int, rate: real)
    requires IsHistory(events, limit, rate) && Timely(events)
    ensures Seen(events, ip) ==> Monotone(FirstSeen(events, ip), Requests(events, ip))
    decreases |events|
  {
    hide Serve, StepOn, Seen, Timely, FirstSeen, Answers;
    if events != [] {
      var init, last := events[..|events| - 1], events[|events| - 1];
      assert events == init + [last];
      TimelyLast(init, last);
      RequestsAreMonotone(init, ip, limit, rate);
      FirstSeenStays(init, last, ip);
      SeenStays(init, last, ip);
      ClientsAreIndependent(init, ip, limit, rate);
      if last.Take? && last.ip == ip {
        FirstSeenIsEvent(init, ip);
        RequestsAreEvents(init, ip);
        assert Time(Load(ip, FirstSeen(init, ip))) <= Time(last);
        forall t | t in Requests(init, ip) ensures t <= last.now {
          assert Time(Take(ip, t)) <= Time(last);
        }
        MonotoneAppend(FirstSeen(init, ip), Requests(init, ip), last.now);
      } else {
        assert Requests(events, ip) == Requests(init, ip);
      }
    }
  }

  /** No client gets more than twice the limit through in any span of a window,
      whatever the other clients do. */
  lemma ClientWindow(events: seq<Event>, ip: string, i: nat, j: nat, limit: int, window: real)
    requires window > 0.0 && limit >= 1
    requires IsHistory(events, limit, limit as real / window) && Timely(events)
    requires i < j <= |Requests(events, ip)|
    requires Requests(events, ip)[j - 1] - Requests(events, ip)[i] <= window
    ensures
      var answers := Answers(events, ip, limit, limit as real / window);
      |answers| == |Requests(events, ip)| && Admitted(answers[i..j]) <= 2 * limit
  {
    var rate := limit as real / window;
    ClientsAreIndependent(events, ip, limit, rate);
    RequestsAreMonotone(events, ip, limit, rate);
    WindowIsBounded(Bucket(limit as real, FirstSeen(events, ip)), Requests(events, ip), i, j, limit, window);
  }

  /** A client that spaces its requests by 1/rate is never refused, whatever the
      other clients do. */
  lemma SpacedClient(events: seq<Event>, ip: string, limit: int, rate: real)
    requires rate >= 0.0 && limit >= 1
    requires IsHistory(events, limit, rate) && Timely(events)
    requires Spaced(Requests(events, ip), rate)
    ensures forall ok | ok in Answers(events, ip, limit, rate) :: ok
  {
    ClientsAreIndependent(events, ip, limit, rate);
    RequestsAreMonotone(events, ip, limit, rate);
    if Requests(events, ip) != [] {
      var b := Bucket(limit as real, FirstSeen(events, ip));
      AccruedIsPositive(b.lastCheck, Requests(events, ip)[0], rate);
      SpacedIsNeverRefused(b, Requests(events, ip), limit, rate);
    }
  }

  // The middleware's objects

  class TokenBucket {
    var tokens: real
    var lastCheck: real

    function Value(): Bucket
      reads this
    {
      Bucket(tokens, lastCheck)
    }

    constructor (tokens: real, lastCheck: real)
      ensures Value() == Bucket(tokens, lastCheck)
    {
      this.tokens, this.lastCheck := tokens, lastCheck;
    }

    /** The critical section of one request. */
    method Take(now: real, limit: int, rate: real) returns (ok: bool)
      modifies this
      ensures (Value(), ok) == Serve(old(Value()), now, limit, rate)
      ensures
        var level := old(tokens) + (now - old(lastCheck)) * rate;
        var capped := if level > limit as real then limit as real else level;
        (ok <==> capped >= 1.0) && tokens == (if ok then capped - 1.0 else capped) && lastCheck == now
    {
      var elapsed := now - lastCheck;
      assert elapsed * rate == Accrued(lastCheck, now, rate);
      hide Accrued;
      tokens := tokens + elapsed * rate;
      if tokens > limit as real {
        tokens := limit as real;
      }
      lastCheck := now;
      if tokens < 1.0 {
        return false;
      }
      tokens := tokens - 1.0;
      return true;
    }
  }

  class RateLimiter {
    const limit: int
    const rate: real
    var buckets: map<string, TokenBucket>

    /** Each client has a bucket object of its own. */
    ghost predicate Valid()
      reads this
    {
      forall p, q | p in buckets && q in buckets && p != q :: buckets[p] != buckets[q]
    }

    ghost function View(): map<string, Bucket>
      reads this, buckets.Values
    {
      map ip | ip in buckets :: buckets[ip].Value()
    }

    constructor (limit: int, window: real)
      requires window != 0.0
      ensures Valid() && buckets == map[] && this.limit == limit && rate == limit as real / window
    {
      this.limit, this.rate, this.buckets := limit, limit as real / window, map[];
    }

    method LoadOrStore(ip: string, now: real) returns (bucket: TokenBucket)
      requires Valid()
      modifies this
      ensures Valid() && ip in buckets && buckets[ip] == bucket
      ensures ip in old(buckets) ==> buckets == old(buckets)
      ensures ip !in old(buckets) ==> fresh(bucket) && buckets == old(buckets)[ip := bucket]
      ensures ip !in old(buckets) ==> bucket.tokens == limit as real && bucket.lastCheck == now
      ensures View() == StepOn(old(View()), Load(ip, now), limit, rate)
    {
      if ip in buckets {
        return buckets[ip];
      }
      bucket := new TokenBucket(limit as real, now);
      buckets := buckets[ip := bucket];
    }

    /** One request: `stored` and `now` are its two readings of the clock. */
    method Handle(ip: string, stored: real, now: real) returns (ok: bool)
      requires Valid()
      modifies this, buckets.Values
      ensures Valid() && fresh(buckets.Values - old(buckets.Values))
      ensures
        var loaded := StepOn(old(View()), Load(ip, stored), limit, rate);
        View() == StepOn(loaded, Take(ip, now), limit, rate) && ok == Serve(loaded[ip], now, limit, rate).1
    {
      var bucket := LoadOrStore(ip, stored);
      ok := bucket.Take(now, limit, rate);
    }
  }
}
