/** What the locks of the in-memory pub/sub let happen side by side. */
module PubSubWitness {
  import opened Channels
  import opened PubSubSystem
  import opened PubSubDelivery

  const EMPTY: Chan<Message> := Chan([], false)

  /** The channels that were subscribed to a topic, in order. */
  function Subscriptions(acts: seq<Action>, topic: Topic): seq<ChanId> {
    if acts == [] then [] else Subscriptions(Init(acts), topic) + SubscribedIn(Last(acts), topic)
  }

  function SubscribedIn(a: Action, topic: Topic): seq<ChanId> {
    if a.Subscribed? && a.topic == topic then [a.ch] else []
  }

  lemma ListStep(b: Bus, a: Action, topic: Topic)
    requires Safe(b) && Enabled(b, a)
    ensures (Step(b, a).closed && !Step(b, a).writer.Closing?)
            || ((!b.closed || b.writer.Closing?)
                && Listed(Step(b, a).subs, topic) == Listed(b.subs, topic) + SubscribedIn(a, topic))
  {
  }

  lemma {:induction false} ListsAreSubscriptions(acts: seq<Action>, topic: Topic)
    requires IsRun(NEW_IN_MEMORY, acts)
    ensures
      var b := Exec(NEW_IN_MEMORY, acts);
      !b.closed || b.writer.Closing? ==> Listed(b.subs, topic) == Subscriptions(acts, topic)
  {
    hide Step, Enabled, Safe;
    if acts != [] {
      ListsAreSubscriptions(Init(acts), topic);
      LocksAreSafe(Init(acts));
      ListStep(Exec(NEW_IN_MEMORY, Init(acts)), Last(acts), topic);
    }
  }

  /** The read lock is shared: whoever else is inside, a publisher can begin a
      call exactly when it is not in one, no writer holds the lock and the bus is
      open; and it then walks all channels subscribed to its topic so far. */
  lemma ReadLockIsShared(acts: seq<Action>, p: Publisher, topic: Topic, message: Message)
    requires IsRun(NEW_IN_MEMORY, acts)
    ensures
      var b := Exec(NEW_IN_MEMORY, acts);
      && ((exists call, list :: Enabled(b, Publish(p, call, topic, message, list)))
          <==> p !in b.readers && b.writer == Free && !b.closed)
      && forall call, list | Enabled(b, Publish(p, call, topic, message, list)) ::
           list == Subscriptions(acts, topic)
  {
    hide IsRun, Exec;
    var b := Exec(NEW_IN_MEMORY, acts);
    ListsAreSubscriptions(acts, topic);
    if p !in b.readers && b.writer == Free && !b.closed {
      assert Enabled(b, Publish(p, b.calls, topic, message, Listed(b.subs, topic)));
    }
  }

  /** Nobody inside a Publish call ever waits, whoever else is inside: the next
      send goes through or drops, and after the last one the call can return. */
  lemma PublishersNeverWait(acts: seq<Action>, p: Publisher)
    requires IsRun(NEW_IN_MEMORY, acts) && p in Exec(NEW_IN_MEMORY, acts).readers
    ensures
      var b := Exec(NEW_IN_MEMORY, acts);
      var walk := b.readers[p];
      if walk.next >= |walk.list| then Enabled(b, Published(p, walk.call))
      else if walk.list[walk.next] < |b.chans| && |b.chans[walk.list[walk.next]].buffer| < 100 then
        Enabled(b, Send(p, walk.call, walk.list[walk.next], walk.message))
      else Enabled(b, Drop(p, walk.call, walk.list[walk.next]))
  {
    LocksAreSafe(acts);
    hide IsRun, Exec;
    WalkGoesOn(Exec(NEW_IN_MEMORY, acts), p);
  }

  lemma WalkGoesOn(b: Bus, p: Publisher)
    requires Safe(b) && p in b.readers
    ensures b.readers[p].next <= |b.readers[p].list|
    ensures b.readers[p].next < |b.readers[p].list| ==>
              var ch := b.readers[p].list[b.readers[p].next];
              ch < |b.chans| && !b.chans[ch].closed && |b.chans[ch].buffer| <= 100
  {
    assert Walking(b, p);
    var walk := b.readers[p];
    if walk.topic in b.subs {
      assert ProperList(b, walk.topic, b.subs[walk.topic]);
    }
  }

  /** A subscriber takes what is buffered for it at any moment, inside other
      calls too, before and after Close. */
  lemma ReceiversNeverWait(b: Bus, ch: ChanId)
    requires ch < |b.chans| && b.chans[ch].buffer != []
    ensures Enabled(b, Receive(ch, b.chans[ch].buffer[0]))
    ensures Step(b, Receive(ch, b.chans[ch].buffer[0])).readers == b.readers
  {
  }

  // Two publishers inside at once, and two subscribers that see them differently

  lemma {:induction false} GoOn(acts: seq<Action>, a: Action) returns (more: seq<Action>)
    requires IsRun(NEW_IN_MEMORY, acts) && Enabled(Exec(NEW_IN_MEMORY, acts), a)
    ensures more == acts + [a] && IsRun(NEW_IN_MEMORY, more)
    ensures Exec(NEW_IN_MEMORY, more) == Step(Exec(NEW_IN_MEMORY, acts), a)
    ensures forall ch :: Accepted(more, ch) == Accepted(acts, ch) + AcceptedBy(a, ch)
  {
    StepsOnce(NEW_IN_MEMORY, acts, a);
    more := acts + [a];
    assert Init(more) == acts;
  }

  /** Two channels of one topic, holding these messages. */
  function Pair(topic: Topic, xs: seq<Message>, ys: seq<Message>, readers: map<Publisher, Walk>, calls: nat): Bus {
    Bus(map[topic := [0, 1]], [Chan(xs, false), Chan(ys, false)], [topic, topic], false, readers, Free, calls)
  }

  lemma {:induction false} TwoSubscribers(topic: Topic) returns (acts: seq<Action>)
    ensures IsRun(NEW_IN_MEMORY, acts) && Exec(NEW_IN_MEMORY, acts) == Pair(topic, [], [], map[], 0)
    ensures forall ch :: Accepted(acts, ch) == []
  {
    acts := [];
    assert Exec(NEW_IN_MEMORY, acts) == NEW_IN_MEMORY;
    hide IsRun, Exec, Accepted;
    acts := GoOn(acts, Subscribe(topic));
    acts := GoOn(acts, Subscribed(topic, 0));
    var one := map[topic := [0]];
    assert Listed(map[], topic) + [0] == [0] && [] + [EMPTY] == [EMPTY];
    assert Exec(NEW_IN_MEMORY, acts) == Bus(one, [Chan([], false)], [topic], false, map[], Free, 0);
    acts := GoOn(acts, Subscribe(topic));
    acts := GoOn(acts, Subscribed(topic, 1));
    assert Listed(one, topic) + [1] == [0, 1] && one[topic := [0, 1]] == map[topic := [0, 1]];
  }

  /** How far each of the two publishers is. */
  function Walks(topic: Topic, m: Message, n: Message, i: nat, j: nat): map<Publisher, Walk> {
    map[1 := Walk(0, topic, m, [0, 1], i), 2 := Walk(1, topic, n, [0, 1], j)]
  }

  lemma {:induction false} TwoPublishersInside(topic: Topic, m: Message, n: Message) returns (acts: seq<Action>)
    ensures IsRun(NEW_IN_MEMORY, acts)
    ensures Exec(NEW_IN_MEMORY, acts) == Pair(topic, [], [], Walks(topic, m, n, 0, 0), 2)
    ensures forall ch :: Accepted(acts, ch) == []
  {
    acts := TwoSubscribers(topic);
    hide IsRun, Exec, Accepted;
    acts := GoOn(acts, Publish(1, 0, topic, m, [0, 1]));
    acts := GoOn(acts, Publish(2, 1, topic, n, [0, 1]));
  }

  /** The next send of publisher 1, or 2, to the channel that it has come to. */
  lemma FirstSends(topic: Topic, xs: seq<Message>, ys: seq<Message>, m: Message, n: Message, i: nat, j: nat)
    requires i < 2 && |xs| < 100 && |ys| < 100
    ensures
      var b, send := Pair(topic, xs, ys, Walks(topic, m, n, i, j), 2), Send(1, 0, i, m);
      && Enabled(b, send)
      && Step(b, send) == Pair(topic, if i == 0 then xs + [m] else xs, if i == 1 then ys + [m] else ys,
                               Walks(topic, m, n, i + 1, j), 2)
  {
    assert Walks(topic, m, n, i, j)[1 := Walk(0, topic, m, [0, 1], i + 1)] == Walks(topic, m, n, i + 1, j);
  }

  lemma SecondSends(topic: Topic, xs: seq<Message>, ys: seq<Message>, m: Message, n: Message, i: nat, j: nat)
    requires j < 2 && |xs| < 100 && |ys| < 100
    ensures
      var b, send := Pair(topic, xs, ys, Walks(topic, m, n, i, j), 2), Send(2, 1, j, n);
      && Enabled(b, send)
      && Step(b, send) == Pair(topic, if j == 0 then xs + [n] else xs, if j == 1 then ys + [n] else ys,
                               Walks(topic, m, n, i, j + 1), 2)
  {
    assert Walks(topic, m, n, i, j)[2 := Walk(1, topic, n, [0, 1], j + 1)] == Walks(topic, m, n, i, j + 1);
  }

  lemma FirstReceives(topic: Topic, m: Message, readers: map<Publisher, Walk>)
    ensures Enabled(Pair(topic, [m], [], readers, 2), Receive(0, m))
    ensures Step(Pair(topic, [m], [], readers, 2), Receive(0, m)) == Pair(topic, [], [], readers, 2)
  {
    assert [m][1..] == [];
    assert [Chan([m], false), EMPTY][0 := EMPTY] == [EMPTY, EMPTY];
  }

  lemma {:induction false} BothReturn(
    topic: Topic, xs: seq<Message>, ys: seq<Message>, m: Message, n: Message, acts: seq<Action>)
    returns (more: seq<Action>)
    requires IsRun(NEW_IN_MEMORY, acts)
    requires Exec(NEW_IN_MEMORY, acts) == Pair(topic, xs, ys, Walks(topic, m, n, 2, 2), 2)
    ensures IsRun(NEW_IN_MEMORY, more) && acts <= more && Exec(NEW_IN_MEMORY, more).readers == map[]
    ensures forall ch :: Accepted(more, ch) == Accepted(acts, ch)
  {
    hide IsRun, Exec, Accepted;
    more := GoOn(acts, Published(1, 0));
    more := GoOn(more, Published(2, 1));
  }

  /** With two publishers inside at once, send by send, two subscribers of one
      topic can get their messages in opposite orders, one of them receiving
      meanwhile: there is no order across subscribers. */
  lemma {:induction false} OrdersMayDiffer(topic: Topic, m: Message, n: Message)
    returns (inside: seq<Action>, acts: seq<Action>)
    ensures IsRun(NEW_IN_MEMORY, inside) && Exec(NEW_IN_MEMORY, inside).readers.Keys == {1, 2}
    ensures IsRun(NEW_IN_MEMORY, acts) && inside <= acts && Exec(NEW_IN_MEMORY, acts).readers == map[]
    ensures Accepted(acts, 0) == [Stamp(1, 0, m), Stamp(2, 1, n)]
    ensures Accepted(acts, 1) == [Stamp(2, 1, n), Stamp(1, 0, m)]
  {
    inside := TwoPublishersInside(topic, m, n);
    hide IsRun, Exec, Accepted, Enabled, Step, Pair;
    assert [] + [m] == [m] && [] + [n] == [n];
    FirstSends(topic, [], [], m, n, 0, 0);
    acts := GoOn(inside, Send(1, 0, 0, m));
    FirstReceives(topic, m, Walks(topic, m, n, 1, 0));
    acts := GoOn(acts, Receive(0, m));
    SecondSends(topic, [], [], m, n, 1, 0);
    acts := GoOn(acts, Send(2, 1, 0, n));
    SecondSends(topic, [n], [], m, n, 1, 1);
    acts := GoOn(acts, Send(2, 1, 1, n));
    FirstSends(topic, [n], [n], m, n, 1, 2);
    acts := GoOn(acts, Send(1, 0, 1, m));
    acts := BothReturn(topic, [n], [n] + [m], m, n, acts);
    InsideIs(topic, m, n);
  }

  lemma InsideIs(topic: Topic, m: Message, n: Message)
    ensures Pair(topic, [], [], Walks(topic, m, n, 0, 0), 2).readers.Keys == {1, 2}
  {
  }
}
