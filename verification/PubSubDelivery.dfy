/** What each subscriber gets out of the in-memory pub/sub. */
module PubSubDelivery {
  import opened PubSubSystem

  // A subscriber's channel is a queue of the sends it accepted

  datatype Stamp = Stamp(p: Publisher, call: nat, message: Message)

  function AcceptedBy(a: Action, ch: ChanId): seq<Stamp> {
    if a.Send? && a.ch == ch then [Stamp(a.p, a.call, a.message)] else []
  }

  /** The sends that the channel accepted, in order. */
  function Accepted(acts: seq<Action>, ch: ChanId): seq<Stamp> {
    if acts == [] then [] else Accepted(Init(acts), ch) + AcceptedBy(Last(acts), ch)
  }

  function ReceivedBy(a: Action, ch: ChanId): seq<Message> {
    if a.Receive? && a.ch == ch then [a.message] else []
  }

  function Received(acts: seq<Action>, ch: ChanId): seq<Message> {
    if acts == [] then [] else Received(Init(acts), ch) + ReceivedBy(Last(acts), ch)
  }

  function Messages(stamps: seq<Stamp>): seq<Message> {
    seq(|stamps|, i requires 0 <= i < |stamps| => stamps[i].message)
  }

  function Buffered(b: Bus, ch: ChanId): seq<Message> {
    if ch < |b.chans| then b.chans[ch].buffer else []
  }

  lemma BufferStep(b: Bus, a: Action, ch: ChanId)
    requires Enabled(b, a)
    ensures Buffered(b, ch) + Messages(AcceptedBy(a, ch)) == ReceivedBy(a, ch) + Buffered(Step(b, a), ch)
  {
  }

  /** For every subscriber, what it has received followed by what is buffered is
      what was accepted for it, in order; nothing buffered is lost at Close. */
  lemma {:induction false} SubscriberGetsAccepted(acts: seq<Action>, ch: ChanId)
    requires IsRun(NEW_IN_MEMORY, acts)
    ensures Received(acts, ch) + Buffered(Exec(NEW_IN_MEMORY, acts), ch) == Messages(Accepted(acts, ch))
  {
    assert Buffered(NEW_IN_MEMORY, ch) == [];
    hide Step, Enabled, Buffered;
    if acts != [] {
      var b, a := Exec(NEW_IN_MEMORY, Init(acts)), Last(acts);
      SubscriberGetsAccepted(Init(acts), ch);
      BufferStep(b, a, ch);
      Regroup(Received(Init(acts), ch), Buffered(b, ch), Accepted(Init(acts), ch),
              ReceivedBy(a, ch), Buffered(Step(b, a), ch), AcceptedBy(a, ch));
    }
  }

  lemma Regroup(received: seq<Message>, buffer: seq<Message>, accepted: seq<Stamp>,
                taken: seq<Message>, buffer': seq<Message>, added: seq<Stamp>)
    requires received + buffer == Messages(accepted) && buffer + Messages(added) == taken + buffer'
    ensures (received + taken) + buffer' == Messages(accepted + added)
  {
    assert Messages(accepted + added) == Messages(accepted) + Messages(added);
    assert (received + taken) + buffer' == received + (taken + buffer');
    assert received + (buffer + Messages(added)) == (received + buffer) + Messages(added);
  }

  // Each Publish offers its message once to each subscriber

  function OfferedBy(a: Action, call: nat): seq<ChanId> {
    if (a.Send? || a.Drop?) && a.call == call then [a.ch] else []
  }

  /** The channels that a call has tried so far, in order. */
  function Offered(acts: seq<Action>, call: nat): seq<ChanId> {
    if acts == [] then [] else Offered(Init(acts), call) + OfferedBy(Last(acts), call)
  }

  /** The calls that have returned. */
  function Returned(acts: seq<Action>): set<nat> {
    if acts == [] then {}
    else Returned(Init(acts)) + ReturnedIn(Last(acts))
  }

  function ReturnedIn(a: Action): set<nat> {
    if a.Published? then {a.call} else {}
  }

  /** A call has offered its message to the front of its list, and to all of it
      once it returned. */
  ghost predicate OnTrack(b: Bus, offered: seq<ChanId>, returned: set<nat>, a: Action)
    requires a.Publish?
  {
    && a.call < b.calls
    && if a.call in returned then offered == a.list
       else
         && a.p in b.readers && b.readers[a.p].call == a.call && b.readers[a.p].list == a.list
         && b.readers[a.p].next <= |a.list| && offered == a.list[..b.readers[a.p].next]
  }

  /** The calls inside the read lock have begun, not returned, and are distinct. */
  ghost predicate Begun(b: Bus, returned: set<nat>) {
    && (forall call | call in returned :: call < b.calls)
    && (forall p | p in b.readers :: b.readers[p].call < b.calls && b.readers[p].call !in returned)
    && (forall p, q | p in b.readers && q in b.readers && p != q :: b.readers[p].call != b.readers[q].call)
  }

  lemma BegunStep(b: Bus, a: Action, returned: set<nat>)
    requires Enabled(b, a) && Begun(b, returned)
    ensures Begun(Step(b, a), returned + ReturnedIn(a))
  {
    match a {
      case Publish(_, _, _, _, _) => BegunAtPublish(b, a, returned);
      case Send(_, _, _, _) => BegunAtSend(b, a, returned);
      case Drop(_, _, _) => BegunAtSend(b, a, returned);
      case _ =>
    }
  }

  lemma BegunAtPublish(b: Bus, a: Action, returned: set<nat>)
    requires Enabled(b, a) && Begun(b, returned) && a.Publish?
    ensures Begun(Step(b, a), returned)
  {
  }

  lemma BegunAtSend(b: Bus, a: Action, returned: set<nat>)
    requires Enabled(b, a) && Begun(b, returned) && (a.Send? || a.Drop?)
    ensures Begun(Step(b, a), returned)
  {
  }

  lemma OfferStep(b: Bus, a: Action, offered: seq<ChanId>, returned: set<nat>, publish: Action)
    requires Enabled(b, a) && Begun(b, returned) && publish.Publish? && OnTrack(b, offered, returned, publish)
    requires (a.Send? || a.Drop?) && a.call == publish.call
    ensures OnTrack(Step(b, a), offered + [a.ch], returned, publish)
  {
    assert a.p == publish.p;
    var next := b.readers[a.p].next;
    assert publish.list[..next + 1] == publish.list[..next] + [a.ch];
  }

  lemma OtherStep(b: Bus, a: Action, offered: seq<ChanId>, returned: set<nat>, publish: Action)
    requires Enabled(b, a) && Begun(b, returned) && publish.Publish? && OnTrack(b, offered, returned, publish)
    requires (a.Send? || a.Drop?) ==> a.call != publish.call
    ensures OnTrack(Step(b, a), offered, returned + ReturnedIn(a), publish)
  {
  }

  lemma OnTrackStep(b: Bus, acts: seq<Action>, publish: Action)
    requires acts != [] && Enabled(b, Last(acts)) && Begun(b, Returned(Init(acts))) && publish.Publish?
    requires OnTrack(b, Offered(Init(acts), publish.call), Returned(Init(acts)), publish)
    ensures OnTrack(Step(b, Last(acts)), Offered(acts, publish.call), Returned(acts), publish)
  {
    hide Step, Enabled, OnTrack, Begun;
    var a := Last(acts);
    if (a.Send? || a.Drop?) && a.call == publish.call {
      OfferStep(b, a, Offered(Init(acts), publish.call), Returned(Init(acts)), publish);
      assert Returned(acts) == Returned(Init(acts));
    } else {
      OtherStep(b, a, Offered(Init(acts), publish.call), Returned(Init(acts)), publish);
      assert Offered(acts, publish.call) == Offered(Init(acts), publish.call);
    }
  }

  lemma OnTrackAtFirst(b: Bus, acts: seq<Action>)
    requires acts != [] && Enabled(b, Last(acts)) && Begun(b, Returned(Init(acts))) && Last(acts).Publish?
    requires Offered(Init(acts), b.calls) == []
    ensures OnTrack(Step(b, Last(acts)), Offered(acts, Last(acts).call), Returned(acts), Last(acts))
  {
  }

  lemma {:induction false} NotYetOffered(acts: seq<Action>, call: nat)
    requires IsRun(NEW_IN_MEMORY, acts) && call >= Exec(NEW_IN_MEMORY, acts).calls
    ensures Offered(acts, call) == []
  {
    hide Begun, Step, Enabled;
    if acts != [] {
      CallsAreOnTrack(Init(acts));
      CallsOnlyGrow(Exec(NEW_IN_MEMORY, Init(acts)), Last(acts));
      NotYetOffered(Init(acts), call);
      OthersCall(Exec(NEW_IN_MEMORY, Init(acts)), Last(acts), Returned(Init(acts)), call);
    }
  }

  lemma CallsOnlyGrow(b: Bus, a: Action)
    requires Enabled(b, a)
    ensures b.calls <= Step(b, a).calls
  {
  }

  lemma OthersCall(b: Bus, a: Action, returned: set<nat>, call: nat)
    requires Begun(b, returned) && Enabled(b, a) && call >= b.calls
    ensures OfferedBy(a, call) == []
  {
  }

  lemma {:induction false} CallsAreOnTrack(acts: seq<Action>)
    requires IsRun(NEW_IN_MEMORY, acts)
    ensures Begun(Exec(NEW_IN_MEMORY, acts), Returned(acts))
    ensures forall a | a in acts && a.Publish? ::
              OnTrack(Exec(NEW_IN_MEMORY, acts), Offered(acts, a.call), Returned(acts), a)
  {
    assert Begun(NEW_IN_MEMORY, {});
    hide Step, Enabled, OnTrack, Begun;
    if acts != [] {
      var b, init := Exec(NEW_IN_MEMORY, Init(acts)), Init(acts);
      CallsAreOnTrack(init);
      BegunStep(b, Last(acts), Returned(init));
      assert acts == init + [Last(acts)];
      if Last(acts).Publish? {
        NotYetOffered(init, b.calls);
        OnTrackAtFirst(b, acts);
      }
      forall a | a in init && a.Publish?
        ensures OnTrack(Exec(NEW_IN_MEMORY, acts), Offered(acts, a.call), Returned(acts), a)
      {
        OnTrackStep(b, acts, a);
      }
    }
  }

  /** A call that returned has tried, in list order, each channel that its topic
      had subscribed when it began, and no other; until then it has tried the
      front of that list. */
  lemma CallsTryTheirLists(acts: seq<Action>, publish: Action)
    requires IsRun(NEW_IN_MEMORY, acts) && publish in acts && publish.Publish?
    ensures Offered(acts, publish.call) <= publish.list
    ensures publish.call in Returned(acts) ==> Offered(acts, publish.call) == publish.list
    ensures forall i, j | 0 <= i < j < |publish.list| :: publish.list[i] != publish.list[j]
  {
    CallsAreOnTrack(acts);
    assert OnTrack(Exec(NEW_IN_MEMORY, acts), Offered(acts, publish.call), Returned(acts), publish);
    PublishListsAreProper(acts);
  }

  lemma {:induction false} PublishListsAreProper(acts: seq<Action>)
    requires IsRun(NEW_IN_MEMORY, acts)
    ensures forall a | a in acts && a.Publish? :: forall i, j | 0 <= i < j < |a.list| :: a.list[i] != a.list[j]
  {
    if acts != [] {
      PublishListsAreProper(Init(acts));
      LocksAreSafe(Init(acts));
      var b, a := Exec(NEW_IN_MEMORY, Init(acts)), Last(acts);
      assert acts == Init(acts) + [a];
      if a.Publish? && a.topic in b.subs {
        assert ProperList(b, a.topic, b.subs[a.topic]);
      }
    }
  }

  /** A message is dropped for a subscriber only when it has 100 waiting. */
  lemma DropsOnlyWhenFull(acts: seq<Action>, p: Publisher, call: nat, ch: ChanId)
    requires IsRun(NEW_IN_MEMORY, acts) && Enabled(Exec(NEW_IN_MEMORY, acts), Drop(p, call, ch))
    ensures |Accepted(acts, ch)| == |Received(acts, ch)| + 100
  {
    LocksAreSafe(acts);
    SubscriberGetsAccepted(acts, ch);
    assert |Messages(Accepted(acts, ch))| == |Accepted(acts, ch)|;
  }
}
