/** The imperative InMemoryPubSub (internal/pubsub/memory.go), proved to take
    exactly the steps of the transition system when it has the lock alone. */
module PubSubs {
  import opened Wrappers
  import opened Channels
  import opened PubSubSystem

  class InMemoryPubSub {
    var subs: map<Topic, seq<ChanId>>
    var chans: seq<Chan<Message>>
    var closed: bool
    ghost var owner: seq<Topic>
    ghost var calls: nat

    /** The state that a run has reached, with these holders of the lock. */
    ghost predicate Mirrors(acts: seq<Action>, readers: map<Publisher, Walk>, writer: Writer)
      reads this
    {
      IsRun(NEW_IN_MEMORY, acts) && Exec(NEW_IN_MEMORY, acts) == Bus(subs, chans, owner, closed, readers, writer, calls)
    }

    constructor ()
      ensures Mirrors([], map[], Free)
    {
      subs, chans, closed, owner, calls := map[], [], false, [], 0;
    }

    /** What one undisturbed Publish makes of a channel of its topic. */
    static function Offered(c: Chan<Message>, message: Message): Chan<Message> {
      if c.Accepts(CHANNEL_BUFFER) then c.Push(message) else c
    }

    /** One turn of the loop over the subscribers: send, or drop if full. */
    method SendOne(p: Publisher, ch: ChanId, message: Message, ghost walk: Walk, ghost acts: seq<Action>)
      returns (ghost more: seq<Action>)
      requires Mirrors(acts, map[p := walk], Free) && walk.message == message
      requires walk.next < |walk.list| && walk.list[walk.next] == ch < |chans| && !chans[ch].closed
      modifies this`chans
      ensures Mirrors(more, map[p := walk.(next := walk.next + 1)], Free)
      ensures more == acts + [if old(chans)[ch].Accepts(CHANNEL_BUFFER) then Send(p, walk.call, ch, message)
                              else Drop(p, walk.call, ch)]
      ensures chans == old(chans)[ch := Offered(old(chans)[ch], message)]
    {
      if chans[ch].Accepts(CHANNEL_BUFFER) {
        StepsOnce(NEW_IN_MEMORY, acts, Send(p, walk.call, ch, message));
        more := acts + [Send(p, walk.call, ch, message)];
        chans := chans[ch := chans[ch].Push(message)];
      } else {
        StepsOnce(NEW_IN_MEMORY, acts, Drop(p, walk.call, ch));
        more := acts + [Drop(p, walk.call, ch)];
      }
    }

    /** Fails exactly when closed; otherwise every subscriber of the topic with
        room gets the message once, and nobody else is touched. The steps of the
        call go on from `acts`. */
    method Publish(p: Publisher, topic: Topic, message: Message, ghost acts: seq<Action>)
      returns (failed: bool, ghost more: seq<Action>)
      requires Mirrors(acts, map[], Free)
      modifies this`chans, this`calls
      ensures Mirrors(more, map[], Free)
      ensures failed <==> closed
      ensures failed ==> more == acts + [PublishFails(p)]
      ensures !failed ==>
                && acts + [PubSubSystem.Publish(p, old(calls), topic, message, Listed(subs, topic))] <= more
                && Last(more) == Published(p, old(calls))
      ensures |chans| == |old(chans)|
      ensures forall ch | 0 <= ch < |chans| ::
                chans[ch] == if !closed && ch in Listed(subs, topic) then Offered(old(chans)[ch], message)
                             else old(chans)[ch]
    {
      LocksAreSafe(acts);
      if closed {
        StepsOnce(NEW_IN_MEMORY, acts, PublishFails(p));
        more := acts + [PublishFails(p)];
        return true, more;
      }
      failed := false;
      var list := Listed(subs, topic);
      SafeList(Exec(NEW_IN_MEMORY, acts), topic);
      ghost var walk := Walk(calls, topic, message, list, 0);
      more := RLock(p, topic, message, acts);
      more := SendAll(p, list, message, walk, more);
      more := Unlock(p, walk.(next := |list|), more);
    }

    method SendAll(p: Publisher, list: seq<ChanId>, message: Message, ghost begin: Walk, ghost acts: seq<Action>)
      returns (ghost more: seq<Action>)
      requires Mirrors(acts, map[p := begin], Free)
      requires begin.message == message && begin.list == list && begin.next == 0
      requires forall i | 0 <= i < |list| :: list[i] < |chans| && !chans[list[i]].closed
      requires forall i, j | 0 <= i < j < |list| :: list[i] != list[j]
      modifies this`chans
      ensures Mirrors(more, map[p := begin.(next := |list|)], Free) && acts <= more
      ensures |chans| == |old(chans)|
      ensures forall ch | 0 <= ch < |chans| ::
                chans[ch] == if ch in list then Offered(old(chans)[ch], message) else old(chans)[ch]
    {
      more := acts;
      hide Mirrors;
      for i := 0 to |list|
        invariant Mirrors(more, map[p := begin.(next := i)], Free) && acts <= more
        invariant |chans| == |old(chans)|
        invariant forall ch | 0 <= ch < |chans| ::
            chans[ch] == if ch in list[..i] then Offered(old(chans)[ch], message) else old(chans)[ch]
      {
        assert list[..i + 1] == list[..i] + [list[i]];
        more := SendOne(p, list[i], message, begin.(next := i), more);
      }
      assert list[..|list|] == list;
    }

    ghost method RLock(p: Publisher, topic: Topic, message: Message, acts: seq<Action>) returns (more: seq<Action>)
      requires Mirrors(acts, map[], Free) && !closed
      modifies this`calls
      ensures calls == old(calls) + 1
      ensures more == acts + [PubSubSystem.Publish(p, old(calls), topic, message, Listed(subs, topic))]
      ensures Mirrors(more, map[p := Walk(old(calls), topic, message, Listed(subs, topic), 0)], Free)
    {
      var begin := PubSubSystem.Publish(p, calls, topic, message, Listed(subs, topic));
      StepsOnce(NEW_IN_MEMORY, acts, begin);
      more := acts + [begin];
      calls := calls + 1;
    }

    ghost method Unlock(p: Publisher, walk: Walk, acts: seq<Action>) returns (more: seq<Action>)
      requires Mirrors(acts, map[p := walk], Free) && walk.next == |walk.list|
      ensures Mirrors(more, map[], Free) && more == acts + [Published(p, walk.call)]
    {
      StepsOnce(NEW_IN_MEMORY, acts, Published(p, walk.call));
      more := acts + [Published(p, walk.call)];
      assert map[p := walk] - {p} == map[];
    }

    /** Fails exactly when closed; otherwise a new, empty channel is appended to
        the topic's list. */
    method Subscribe(topic: Topic, ghost acts: seq<Action>) returns (ch: Option<ChanId>, ghost more: seq<Action>)
      requires Mirrors(acts, map[], Free)
      modifies this
      ensures Mirrors(more, map[], Free) && closed == old(closed)
      ensures ch.None? <==> closed
      ensures ch.None? ==> subs == old(subs) && chans == old(chans) && more == acts + [SubscribeFails]
      ensures ch.Some? ==>
                && more == acts + [PubSubSystem.Subscribe(topic)] + [Subscribed(topic, ch.value)]
                && ch.value == |old(chans)| && chans == old(chans) + [Chan([], false)]
                && subs == old(subs)[topic := Listed(old(subs), topic) + [ch.value]]
    {
      if closed {
        StepsOnce(NEW_IN_MEMORY, acts, SubscribeFails);
        more := acts + [SubscribeFails];
        return None, more;
      }
      more := Lock(topic, acts);
      var id := |chans|;
      more := Append(topic, more);
      ch := Some(id);
    }

    ghost method Lock(topic: Topic, acts: seq<Action>) returns (more: seq<Action>)
      requires Mirrors(acts, map[], Free) && !closed
      ensures Mirrors(more, map[], Subscribing(topic)) && more == acts + [PubSubSystem.Subscribe(topic)]
    {
      StepsOnce(NEW_IN_MEMORY, acts, PubSubSystem.Subscribe(topic));
      more := acts + [PubSubSystem.Subscribe(topic)];
    }

    method Append(topic: Topic, ghost acts: seq<Action>) returns (ghost more: seq<Action>)
      requires Mirrors(acts, map[], Subscribing(topic))
      modifies this
      ensures Mirrors(more, map[], Free) && closed == old(closed)
      ensures more == acts + [Subscribed(topic, |old(chans)|)]
      ensures chans == old(chans) + [Chan([], false)]
      ensures subs == old(subs)[topic := Listed(old(subs), topic) + [|old(chans)|]]
    {
      StepsOnce(NEW_IN_MEMORY, acts, Subscribed(topic, |chans|));
      more := acts + [Subscribed(topic, |chans|)];
      subs := subs[topic := Listed(subs, topic) + [|chans|]];
      chans := chans + [Chan([], false)];
      owner := owner + [topic];
    }

    method ShutOne(ch: ChanId, ghost topics: set<Topic>, ghost left: seq<ChanId>, ghost acts: seq<Action>)
      returns (ghost more: seq<Action>)
      requires Mirrors(acts, map[], Closing(topics, left)) && left != [] && left[0] == ch < |chans| && !chans[ch].closed
      modifies this`chans
      ensures Mirrors(more, map[], Closing(topics, left[1..])) && acts <= more
      ensures chans == old(chans)[ch := old(chans)[ch].Shut()]
    {
      StepsOnce(NEW_IN_MEMORY, acts, CloseOne(ch));
      more := acts + [CloseOne(ch)];
      chans := chans[ch := chans[ch].Shut()];
    }

    /** Closes the channels of one list, from its front. */
    method ShutList(list: seq<ChanId>, ghost topics: set<Topic>, ghost acts: seq<Action>)
      returns (ghost more: seq<Action>)
      requires Mirrors(acts, map[], Closing(topics, list))
      modifies this`chans
      ensures Mirrors(more, map[], Closing(topics, [])) && acts <= more
      ensures |chans| == |old(chans)|
      ensures forall ch | 0 <= ch < |chans| :: chans[ch].buffer == old(chans)[ch].buffer
    {
      more := acts;
      assert list[0..] == list;
      for i := 0 to |list|
        invariant Mirrors(more, map[], Closing(topics, list[i..])) && acts <= more
        invariant |chans| == |old(chans)|
        invariant forall ch | 0 <= ch < |chans| :: chans[ch].buffer == old(chans)[ch].buffer
      {
        NextIsOpen(more, topics, list[i..]);
        assert list[i..][1..] == list[i + 1..];
        more := ShutOne(list[i], topics, list[i..], more);
      }
    }

    ghost method NextIsOpen(acts: seq<Action>, topics: set<Topic>, left: seq<ChanId>)
      requires Mirrors(acts, map[], Closing(topics, left)) && left != []
      ensures left[0] < |chans| && !chans[left[0]].closed
    {
      LocksAreSafe(acts);
      FrontIsOpen(Exec(NEW_IN_MEMORY, acts));
    }

    /** Closes every subscriber channel once, keeping what is buffered in it. */
    method Close(ghost acts: seq<Action>) returns (ghost more: seq<Action>)
      requires Mirrors(acts, map[], Free)
      modifies this
      ensures Mirrors(more, map[], Free) && closed
      ensures if old(closed) then more == acts + [CloseAgain]
              else acts + [PubSubSystem.Close] <= more && Last(more) == Closed
      ensures |chans| == |old(chans)| && forall ch | 0 <= ch < |chans| :: chans[ch] == old(chans)[ch].Shut()
      ensures subs == map[]
    {
      hide Mirrors, IsRun, Exec, Safe;
      if closed {
        more := StayClosed(acts);
        return;
      }
      more := LockToClose(acts);
      closed := true;
      ClosingBegins(more);
      var topics := subs.Keys;
      while topics != {}
        invariant Mirrors(more, map[], Closing(topics, [])) && topics <= subs.Keys
        invariant acts + [PubSubSystem.Close] <= more
        invariant |chans| == |old(chans)| && closed
        invariant forall ch | 0 <= ch < |chans| :: chans[ch].buffer == old(chans)[ch].buffer
        decreases topics
      {
        var topic :| topic in topics;
        more := PickTopic(topic, topics, more);
        topics := topics - {topic};
        more := ShutList(subs[topic], topics, more);
      }
      more := DropSubs(more);
      subs := map[];
      EveryoneIsClosed(more);
    }

    ghost method StayClosed(acts: seq<Action>) returns (more: seq<Action>)
      requires Mirrors(acts, map[], Free) && closed
      ensures Mirrors(more, map[], Free) && more == acts + [CloseAgain]
      ensures subs == map[] && forall ch | 0 <= ch < |chans| :: chans[ch].closed
    {
      LocksAreSafe(acts);
      StepsOnce(NEW_IN_MEMORY, acts, CloseAgain);
      more := acts + [CloseAgain];
      ClosedIsEmpty(Exec(NEW_IN_MEMORY, acts));
    }

    /** Takes the write lock and sets the flag. */
    ghost method LockToClose(acts: seq<Action>) returns (more: seq<Action>)
      requires Mirrors(acts, map[], Free) && !closed
      ensures IsRun(NEW_IN_MEMORY, more) && more == acts + [PubSubSystem.Close]
      ensures Exec(NEW_IN_MEMORY, more) == Bus(subs, chans, owner, true, map[], Closing(subs.Keys, []), calls)
    {
      StepsOnce(NEW_IN_MEMORY, acts, PubSubSystem.Close);
      more := acts + [PubSubSystem.Close];
    }

    ghost method ClosingBegins(acts: seq<Action>)
      requires IsRun(NEW_IN_MEMORY, acts)
      requires Exec(NEW_IN_MEMORY, acts) == Bus(subs, chans, owner, closed, map[], Closing(subs.Keys, []), calls)
      ensures Mirrors(acts, map[], Closing(subs.Keys, []))
    {
    }

    ghost method PickTopic(topic: Topic, topics: set<Topic>, acts: seq<Action>) returns (more: seq<Action>)
      requires Mirrors(acts, map[], Closing(topics, [])) && topic in topics && topic in subs
      ensures Mirrors(more, map[], Closing(topics - {topic}, subs[topic])) && acts <= more
    {
      StepsOnce(NEW_IN_MEMORY, acts, NextTopic(topic));
      more := acts + [NextTopic(topic)];
    }

    ghost method DropSubs(acts: seq<Action>) returns (more: seq<Action>)
      requires Mirrors(acts, map[], Closing({}, []))
      ensures IsRun(NEW_IN_MEMORY, more) && more == acts + [Closed]
      ensures Exec(NEW_IN_MEMORY, more) == Bus(map[], chans, owner, closed, map[], Free, calls)
    {
      StepsOnce(NEW_IN_MEMORY, acts, Closed);
      more := acts + [Closed];
    }

    ghost method EveryoneIsClosed(acts: seq<Action>)
      requires IsRun(NEW_IN_MEMORY, acts)
      requires Exec(NEW_IN_MEMORY, acts) == Bus(subs, chans, owner, closed, map[], Free, calls) && closed
      ensures Mirrors(acts, map[], Free)
      ensures forall ch | 0 <= ch < |chans| :: chans[ch].closed
    {
      LocksAreSafe(acts);
    }
  }

  lemma SafeList(b: Bus, topic: Topic)
    requires Safe(b) && !b.closed
    ensures forall i | 0 <= i < |Listed(b.subs, topic)| ::
              Listed(b.subs, topic)[i] < |b.chans| && !b.chans[Listed(b.subs, topic)[i]].closed
    ensures forall i, j | 0 <= i < j < |Listed(b.subs, topic)| :: Listed(b.subs, topic)[i] != Listed(b.subs, topic)[j]
  {
    if topic in b.subs {
      assert ProperList(b, topic, b.subs[topic]);
    }
  }

  lemma FrontIsOpen(b: Bus)
    requires Safe(b) && b.writer.Closing? && b.writer.left != []
    ensures b.writer.left[0] < |b.chans| && !b.chans[b.writer.left[0]].closed
  {
    assert Due(b, b.writer.left[0]);
  }

  lemma ClosedIsEmpty(b: Bus)
    requires Safe(b) && b.closed && !b.writer.Closing?
    ensures b.subs == map[] && forall ch | 0 <= ch < |b.chans| :: b.chans[ch].closed
  {
  }
}
