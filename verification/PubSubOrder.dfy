/** Whose message a subscriber gets, and in which order. */
module PubSubOrder {
  import opened PubSubSystem
  import opened PubSubDelivery

  // Every message was published by the call that sends it

  /** The step with which a walk began. */
  function Beginning(p: Publisher, walk: Walk): Action {
    Publish(p, walk.call, walk.topic, walk.message, walk.list)
  }

  lemma WalkFromBeginning(b: Bus, a: Action, p: Publisher)
    requires Enabled(b, a) && p in Step(b, a).readers
    ensures a == Beginning(p, Step(b, a).readers[p])
            || (p in b.readers && Beginning(p, Step(b, a).readers[p]) == Beginning(p, b.readers[p]))
  {
  }

  predicate BeganIn(acts: seq<Action>, p: Publisher, walk: Walk) {
    Beginning(p, walk) in acts
  }

  lemma {:induction false} WalksArePublished(acts: seq<Action>)
    requires IsRun(NEW_IN_MEMORY, acts)
    ensures forall p | p in Exec(NEW_IN_MEMORY, acts).readers ::
              BeganIn(acts, p, Exec(NEW_IN_MEMORY, acts).readers[p])
  {
    hide Step, Enabled;
    if acts != [] {
      var b := Exec(NEW_IN_MEMORY, Init(acts));
      WalksArePublished(Init(acts));
      assert acts == Init(acts) + [Last(acts)];
      forall p | p in Step(b, Last(acts)).readers ensures BeganIn(acts, p, Step(b, Last(acts)).readers[p]) {
        WalkFromBeginning(b, Last(acts), p);
        assert p in b.readers ==> BeganIn(Init(acts), p, b.readers[p]);
      }
    }
  }

  /** The message is sent by this Publish call, to a channel that it lists. */
  predicate SendsFor(send: Action, publish: Action) {
    && send.Send? && publish.Publish? && send.p == publish.p && send.call == publish.call
    && send.message == publish.message && send.ch in publish.list
  }

  lemma SendIsOfWalk(b: Bus, a: Action)
    requires Enabled(b, a) && a.Send?
    ensures a.p in b.readers && SendsFor(a, Beginning(a.p, b.readers[a.p]))
  {
  }

  lemma {:induction false} SendsArePublished(acts: seq<Action>)
    requires IsRun(NEW_IN_MEMORY, acts)
    ensures forall a | a in acts && a.Send? :: exists publish :: publish in acts && SendsFor(a, publish)
  {
    hide Step, Enabled, SendsFor;
    if acts != [] {
      var init, last := Init(acts), Last(acts);
      SendsArePublished(init);
      WalksArePublished(init);
      assert acts == init + [last];
      forall a | a in acts && a.Send? ensures exists publish :: publish in acts && SendsFor(a, publish) {
        if a in init {
          var publish :| publish in init && SendsFor(a, publish);
          assert publish in acts;
        } else {
          SendIsOfWalk(Exec(NEW_IN_MEMORY, init), a);
          assert BeganIn(init, a.p, Exec(NEW_IN_MEMORY, init).readers[a.p]);
          assert Beginning(a.p, Exec(NEW_IN_MEMORY, init).readers[a.p]) in acts;
        }
      }
    }
  }

  lemma CallsCount(b: Bus, a: Action)
    requires Enabled(b, a)
    ensures if a.Publish? then a.call == b.calls && Step(b, a).calls == b.calls + 1 else Step(b, a).calls == b.calls
  {
  }

  lemma {:induction false} CallsAreUnique(acts: seq<Action>)
    requires IsRun(NEW_IN_MEMORY, acts)
    ensures forall a | a in acts && a.Publish? :: a.call < Exec(NEW_IN_MEMORY, acts).calls
    ensures forall a, b | a in acts && b in acts && a.Publish? && b.Publish? && a.call == b.call :: a == b
  {
    hide Step, Enabled;
    if acts != [] {
      CallsAreUnique(Init(acts));
      CallsCount(Exec(NEW_IN_MEMORY, Init(acts)), Last(acts));
      assert acts == Init(acts) + [Last(acts)];
    }
  }

  lemma {:induction false} AcceptedWasSent(acts: seq<Action>, ch: ChanId)
    ensures forall stamp | stamp in Accepted(acts, ch) :: Send(stamp.p, stamp.call, ch, stamp.message) in acts
  {
    if acts != [] {
      AcceptedWasSent(Init(acts), ch);
      assert acts == Init(acts) + [Last(acts)];
    }
  }

  /** A call that returned has offered its own message exactly once, in list
      order, to each channel that its topic had subscribed when it began, and to
      no other: whatever a channel accepted under this call is that message, and
      it accepted at most one copy. */
  lemma EachSubscriberIsOfferedOnce(acts: seq<Action>, publish: Action)
    requires IsRun(NEW_IN_MEMORY, acts) && publish in acts && publish.Publish?
    ensures Offered(acts, publish.call) <= publish.list
    ensures publish.call in Returned(acts) ==> Offered(acts, publish.call) == publish.list
    ensures forall i, j | 0 <= i < j < |publish.list| :: publish.list[i] != publish.list[j]
    ensures forall a | a in acts && a.Send? && a.call == publish.call :: SendsFor(a, publish)
    ensures forall ch, stamp | stamp in Accepted(acts, ch) && stamp.call == publish.call ::
              stamp == Stamp(publish.p, publish.call, publish.message) && ch in publish.list
    ensures forall ch, i, j | 0 <= i < j < |Accepted(acts, ch)| && Accepted(acts, ch)[i].call == publish.call ::
              Accepted(acts, ch)[j].call != publish.call
  {
    hide Exec, IsRun, Offered, Returned, Accepted;
    CallsTryTheirLists(acts, publish);
    SendsArePublished(acts);
    CallsAreUnique(acts);
    forall ch: ChanId, stamp | stamp in Accepted(acts, ch) && stamp.call == publish.call
      ensures stamp == Stamp(publish.p, publish.call, publish.message) && ch in publish.list
    {
      AcceptedWasSent(acts, ch);
      assert SendsFor(Send(stamp.p, stamp.call, ch, stamp.message), publish);
    }
    forall ch: ChanId, i, j | 0 <= i < j < |Accepted(acts, ch)| && Accepted(acts, ch)[i].call == publish.call
      ensures Accepted(acts, ch)[j].call != publish.call
    {
      AcceptedInCallOrder(acts, ch);
      assert Accepted(acts, ch)[i] in Accepted(acts, ch) && Accepted(acts, ch)[j] in Accepted(acts, ch);
    }
  }

  // The messages of one sequential publisher keep their order

  /** Accepted calls of a publisher are before its present one, which itself has
      only been accepted where it has already walked. */
  ghost predicate Ordered(b: Bus, accepted: seq<Stamp>, ch: ChanId) {
    && (forall i | 0 <= i < |accepted| :: accepted[i].call < b.calls)
    && (forall i | 0 <= i < |accepted| && accepted[i].p in b.readers ::
          var walk := b.readers[accepted[i].p];
          && accepted[i].call <= walk.call && walk.next <= |walk.list|
          && (accepted[i].call == walk.call ==> ch in walk.list[..walk.next]))
    && (forall i, j | 0 <= i < j < |accepted| && accepted[i].p == accepted[j].p :: accepted[i].call < accepted[j].call)
  }

  lemma OrderedStep(b: Bus, a: Action, accepted: seq<Stamp>, ch: ChanId)
    requires Safe(b) && Enabled(b, a) && Ordered(b, accepted, ch)
    ensures Ordered(Step(b, a), accepted + AcceptedBy(a, ch), ch)
  {
    hide Locked;
    var accepted' := accepted + AcceptedBy(a, ch);
    if a.Send? || a.Drop? {
      WalkListIsProper(b, a.p);
      var list, next := b.readers[a.p].list, b.readers[a.p].next;
      assert list[..next + 1] == list[..next] + [a.ch];
      if a.ch == ch {
        assert ch !in list[..next];
      }
    }
    if AcceptedBy(a, ch) == [] {
      assert accepted' == accepted;
    }
  }

  lemma WalkListIsProper(b: Bus, p: Publisher)
    requires Safe(b) && p in b.readers
    ensures b.readers[p].call < b.calls && b.readers[p].next <= |b.readers[p].list|
    ensures forall i, j | 0 <= i < j < |b.readers[p].list| :: b.readers[p].list[i] != b.readers[p].list[j]
  {
    assert Walking(b, p);
    if b.readers[p].topic in b.subs {
      assert ProperList(b, b.readers[p].topic, b.subs[b.readers[p].topic]);
    }
  }

  lemma {:induction false} AcceptedInCallOrder(acts: seq<Action>, ch: ChanId)
    requires IsRun(NEW_IN_MEMORY, acts)
    ensures Ordered(Exec(NEW_IN_MEMORY, acts), Accepted(acts, ch), ch)
    ensures
      var accepted := Accepted(acts, ch);
      forall i, j | 0 <= i < j < |accepted| && accepted[i].p == accepted[j].p :: accepted[i].call < accepted[j].call
  {
    hide Step, Enabled, Safe;
    if acts != [] {
      AcceptedInCallOrder(Init(acts), ch);
      LocksAreSafe(Init(acts));
      OrderedStep(Exec(NEW_IN_MEMORY, Init(acts)), Last(acts), Accepted(Init(acts), ch), ch);
    }
  }

  function PublishedIn(a: Action, p: Publisher): seq<Stamp> {
    if a.Publish? && a.p == p then [Stamp(p, a.call, a.message)] else []
  }

  /** What a publisher has published, in its own order. */
  function Publications(acts: seq<Action>, p: Publisher): seq<Stamp> {
    if acts == [] then [] else Publications(Init(acts), p) + PublishedIn(Last(acts), p)
  }

  function OfPublisher(stamps: seq<Stamp>, p: Publisher): seq<Stamp> {
    if stamps == [] then []
    else
      var last := stamps[|stamps| - 1];
      OfPublisher(stamps[..|stamps| - 1], p) + if last.p == p then [last] else []
  }

  predicate Increasing(stamps: seq<Stamp>) {
    forall i, j | 0 <= i < j < |stamps| :: stamps[i].call < stamps[j].call
  }

  /** `xs` is `ys` with some elements left out. */
  predicate Subsequence<T(==)>(xs: seq<T>, ys: seq<T>)
    decreases |ys|
  {
    xs == [] ||
    (ys != [] &&
     var ys' := ys[..|ys| - 1];
     (xs[|xs| - 1] == ys[|ys| - 1] && Subsequence(xs[..|xs| - 1], ys')) || Subsequence(xs, ys'))
  }

  lemma {:induction false} PublicationsIncrease(acts: seq<Action>, p: Publisher)
    requires IsRun(NEW_IN_MEMORY, acts)
    ensures Increasing(Publications(acts, p))
    ensures forall stamp | stamp in Publications(acts, p) :: stamp.call < Exec(NEW_IN_MEMORY, acts).calls
    ensures forall a | a in acts && a.Publish? && a.p == p :: Stamp(p, a.call, a.message) in Publications(acts, p)
  {
    hide Step, Enabled;
    if acts != [] {
      PublicationsIncrease(Init(acts), p);
      CallsCount(Exec(NEW_IN_MEMORY, Init(acts)), Last(acts));
      assert acts == Init(acts) + [Last(acts)];
    }
  }

  lemma {:induction false} OfPublisherIncreases(stamps: seq<Stamp>, p: Publisher)
    requires forall i, j | 0 <= i < j < |stamps| && stamps[i].p == stamps[j].p :: stamps[i].call < stamps[j].call
    ensures Increasing(OfPublisher(stamps, p))
    ensures forall stamp | stamp in OfPublisher(stamps, p) :: stamp in stamps && stamp.p == p
  {
    if stamps != [] {
      var init, last := stamps[..|stamps| - 1], stamps[|stamps| - 1];
      OfPublisherIncreases(init, p);
      forall stamp | stamp in OfPublisher(init, p) && last.p == p ensures stamp.call < last.call {
        var i :| 0 <= i < |init| && init[i] == stamp;
        assert stamps[i] == stamp;
      }
    }
  }

  lemma {:induction false} IncreasingSubsequence(xs: seq<Stamp>, ys: seq<Stamp>)
    requires Increasing(xs) && Increasing(ys) && forall x | x in xs :: x in ys
    ensures Subsequence(xs, ys)
    decreases |ys|
  {
    if xs != [] {
      assert xs[|xs| - 1] in ys;
      var x, y := xs[|xs| - 1], ys[|ys| - 1];
      var xs', ys' := if x == y then xs[..|xs| - 1] else xs, ys[..|ys| - 1];
      forall z | z in xs' ensures z in ys' {
        var i :| 0 <= i < |xs'| && xs'[i] == z;
        assert xs[i] == z && x in xs && z in xs;
        var j :| 0 <= j < |ys| && ys[j] == z;
        var k :| 0 <= k < |ys| && ys[k] == x;
        assert j < |ys| - 1 && ys'[j] == z;
      }
      IncreasingSubsequence(xs', ys');
    }
  }

  lemma {:induction false} SubsequenceOfMessages(xs: seq<Stamp>, ys: seq<Stamp>)
    requires Subsequence(xs, ys)
    ensures Subsequence(Messages(xs), Messages(ys))
    decreases |ys|
  {
    if xs != [] {
      var xs', ys' := xs[..|xs| - 1], ys[..|ys| - 1];
      assert Messages(xs)[..|xs| - 1] == Messages(xs') && Messages(ys)[..|ys| - 1] == Messages(ys');
      if xs[|xs| - 1] == ys[|ys| - 1] && Subsequence(xs', ys') {
        SubsequenceOfMessages(xs', ys');
      } else {
        SubsequenceOfMessages(xs, ys');
      }
    }
  }

  lemma AcceptedWasPublished(acts: seq<Action>, ch: ChanId, stamp: Stamp)
    requires IsRun(NEW_IN_MEMORY, acts) && stamp in Accepted(acts, ch)
    ensures stamp in Publications(acts, stamp.p)
  {
    hide Exec, IsRun, Publications, Accepted;
    AcceptedWasSent(acts, ch);
    SendsArePublished(acts);
    PublicationsIncrease(acts, stamp.p);
    var publish :| publish in acts && SendsFor(Send(stamp.p, stamp.call, ch, stamp.message), publish);
  }

  /** However publishers interleave: what a subscriber has received comes first
      in what it was given, and of the first k messages it is given, for any k,
      those of one publisher are messages that this publisher published, in the
      order in which it published them, each call's at most once. */
  lemma {:induction false} PublisherOrderIsKept(acts: seq<Action>, ch: ChanId, p: Publisher, k: nat)
    requires IsRun(NEW_IN_MEMORY, acts) && k <= |Accepted(acts, ch)|
    ensures |Received(acts, ch)| <= |Accepted(acts, ch)|
    ensures Received(acts, ch) == Messages(Accepted(acts, ch)[..|Received(acts, ch)|])
    ensures
      var given := OfPublisher(Accepted(acts, ch)[..k], p);
      && Increasing(given) && Subsequence(given, Publications(acts, p))
      && Subsequence(Messages(given), Messages(Publications(acts, p)))
  {
    hide Exec, IsRun, Publications, Accepted, Received, OfPublisher, Increasing, Subsequence;
    ReceivedIsPrefix(acts, ch);
    GivenIsPublished(acts, ch, p, k);
    var given := OfPublisher(Accepted(acts, ch)[..k], p);
    PublicationsIncrease(acts, p);
    IncreasingSubsequence(given, Publications(acts, p));
    SubsequenceOfMessages(given, Publications(acts, p));
  }

  lemma ReceivedIsPrefix(acts: seq<Action>, ch: ChanId)
    requires IsRun(NEW_IN_MEMORY, acts)
    ensures |Received(acts, ch)| <= |Accepted(acts, ch)|
    ensures Received(acts, ch) == Messages(Accepted(acts, ch)[..|Received(acts, ch)|])
  {
    hide Exec, IsRun, Accepted, Received;
    SubscriberGetsAccepted(acts, ch);
    assert |Messages(Accepted(acts, ch))| == |Accepted(acts, ch)|;
    assert Received(acts, ch) == Messages(Accepted(acts, ch))[..|Received(acts, ch)|];
  }

  lemma GivenIsPublished(acts: seq<Action>, ch: ChanId, p: Publisher, k: nat)
    requires IsRun(NEW_IN_MEMORY, acts) && k <= |Accepted(acts, ch)|
    ensures
      var given := OfPublisher(Accepted(acts, ch)[..k], p);
      Increasing(given) && forall stamp | stamp in given :: stamp in Publications(acts, p)
  {
    hide Exec, IsRun, Publications, Accepted, OfPublisher, Increasing;
    AcceptedInCallOrder(acts, ch);
    var given := Accepted(acts, ch)[..k];
    OfPublisherIncreases(given, p);
    forall stamp | stamp in OfPublisher(given, p) ensures stamp in Publications(acts, p) {
      assert stamp in Accepted(acts, ch);
      AcceptedWasPublished(acts, ch, stamp);
    }
  }
}
