/** internal/pubsub/memory.go under all interleavings: publishers share the read
    lock and send one by one, Subscribe and Close hold the write lock, and
    subscribers receive without any lock. */
module PubSubSystem {
  import opened Channels

  const CHANNEL_BUFFER := 100

  type Topic = string
  type ChanId = nat
  type Publisher = nat
  type Message = nat

  /** A Publish call inside its read lock: the list it ranges over and how far. */
  datatype Walk = Walk(call: nat, topic: Topic, message: Message, list: seq<ChanId>, next: nat)

  /** Who holds the write lock. Close ranges over the topics in any order and
      over each list from its front: `left` is what remains of the current one. */
  datatype Writer =
    | Free
    | Subscribing(topic: Topic)
    | Closing(topics: set<Topic>, left: seq<ChanId>)

  /** Every subscriber channel ever made has an index in `chans`; `owner` is the
      topic it was made for. */
  datatype Bus = Bus(
    subs: map<Topic, seq<ChanId>>,
    chans: seq<Chan<Message>>,
    owner: seq<Topic>,
    closed: bool,
    readers: map<Publisher, Walk>,
    writer: Writer,
    calls: nat)

  datatype Action =
    | Publish(p: Publisher, call: nat, topic: Topic, message: Message, list: seq<ChanId>)
    | PublishFails(p: Publisher)
    | Send(p: Publisher, call: nat, ch: ChanId, message: Message)
    | Drop(p: Publisher, call: nat, ch: ChanId)
    | Published(p: Publisher, call: nat)
    | Subscribe(topic: Topic)
    | SubscribeFails
    | Subscribed(topic: Topic, ch: ChanId)
    | Close
    | CloseAgain
    | NextTopic(topic: Topic)
    | CloseOne(ch: ChanId)
    | Closed
    | Receive(ch: ChanId, message: Message)
    | Crash(ch: ChanId)

  const NEW_IN_MEMORY := Bus(map[], [], [], false, map[], Free, 0)

  /** Go's zero value for a missing topic: no subscribers. */
  function Listed(subs: map<Topic, seq<ChanId>>, topic: Topic): seq<ChanId> {
    if topic in subs then subs[topic] else []
  }

  /** The publisher is inside this call, about to send to this channel. */
  predicate Facing(b: Bus, p: Publisher, call: nat, ch: ChanId) {
    && p in b.readers && b.readers[p].call == call
    && b.readers[p].next < |b.readers[p].list| && b.readers[p].list[b.readers[p].next] == ch
    && ch < |b.chans|
  }

  /** Close is about to close this channel. */
  predicate ToClose(b: Bus, ch: ChanId) {
    b.writer.Closing? && b.writer.left != [] && b.writer.left[0] == ch && ch < |b.chans|
  }

  predicate Unlocked(b: Bus) {
    b.writer == Free && b.readers == map[]
  }

  /** A read lock excludes writers, a write lock everybody. `Crash` is a send on
      a closed channel or a second close. */
  predicate Enabled(b: Bus, a: Action) {
    match a
    case Publish(p, call, topic, _, list) =>
      p !in b.readers && b.writer == Free && !b.closed && call == b.calls && list == Listed(b.subs, topic)
    case PublishFails(p) => p !in b.readers && b.writer == Free && b.closed
    case Send(p, call, ch, message) =>
      Facing(b, p, call, ch) && b.readers[p].message == message && b.chans[ch].Accepts(CHANNEL_BUFFER)
    case Drop(p, call, ch) => Facing(b, p, call, ch) && !b.chans[ch].closed && !b.chans[ch].Accepts(CHANNEL_BUFFER)
    case Published(p, call) =>
      p in b.readers && b.readers[p].call == call && b.readers[p].next == |b.readers[p].list|
    case Subscribe(_) => Unlocked(b) && !b.closed
    case SubscribeFails => Unlocked(b) && b.closed
    case Subscribed(topic, ch) => b.writer == Subscribing(topic) && ch == |b.chans|
    case Close => Unlocked(b) && !b.closed
    case CloseAgain => Unlocked(b) && b.closed
    case NextTopic(topic) =>
      b.writer.Closing? && b.writer.left == [] && topic in b.writer.topics
    case CloseOne(ch) => ToClose(b, ch) && !b.chans[ch].closed
    case Closed => b.writer == Closing({}, [])
    case Receive(ch, message) => ch < |b.chans| && b.chans[ch].buffer != [] && b.chans[ch].buffer[0] == message
    case Crash(ch) =>
      && ch < |b.chans| && b.chans[ch].closed
      && (ToClose(b, ch) || exists p | p in b.readers :: Facing(b, p, b.readers[p].call, ch))
  }

  function Advance(b: Bus, p: Publisher): map<Publisher, Walk>
    requires p in b.readers
  {
    b.readers[p := b.readers[p].(next := b.readers[p].next + 1)]
  }

  function Step(b: Bus, a: Action): Bus
    requires Enabled(b, a)
  {
    match a
    case Publish(p, call, topic, message, list) =>
      b.(readers := b.readers[p := Walk(call, topic, message, list, 0)], calls := b.calls + 1)
    case Send(p, _, ch, message) => b.(chans := b.chans[ch := b.chans[ch].Push(message)], readers := Advance(b, p))
    case Drop(p, _, _) => b.(readers := Advance(b, p))
    case Published(p, _) => b.(readers := b.readers - {p})
    case Subscribe(topic) => b.(writer := Subscribing(topic))
    case Subscribed(topic, ch) =>
      b.(chans := b.chans + [Chan([], false)], owner := b.owner + [topic],
         subs := b.subs[topic := Listed(b.subs, topic) + [ch]], writer := Free)
    case Close => b.(closed := true, writer := Closing(b.subs.Keys, []))
    case NextTopic(topic) => b.(writer := Closing(b.writer.topics - {topic}, Listed(b.subs, topic)))
    case CloseOne(ch) =>
      b.(chans := b.chans[ch := b.chans[ch].Shut()], writer := b.writer.(left := b.writer.left[1..]))
    case Closed => b.(subs := map[], writer := Free)
    case Receive(ch, _) => b.(chans := b.chans[ch := b.chans[ch].Pop()])
    case _ => b
  }

  ghost predicate IsRun(b: Bus, acts: seq<Action>)
    decreases |acts|, 0
  {
    acts == [] || (IsRun(b, Init(acts)) && Enabled(Exec(b, Init(acts)), Last(acts)))
  }

  ghost function Exec(b: Bus, acts: seq<Action>): Bus
    requires IsRun(b, acts)
    decreases |acts|, 1
  {
    if acts == [] then b else Step(Exec(b, Init(acts)), Last(acts))
  }

  function Init(acts: seq<Action>): seq<Action>
    requires acts != []
  {
    acts[..|acts| - 1]
  }

  function Last(acts: seq<Action>): Action
    requires acts != []
  {
    acts[|acts| - 1]
  }

  lemma StepsOnce(b: Bus, acts: seq<Action>, a: Action)
    requires IsRun(b, acts) && Enabled(Exec(b, acts), a)
    ensures IsRun(b, acts + [a]) && Exec(b, acts + [a]) == Step(Exec(b, acts), a)
  {
    hide Step, Enabled;
    assert Init(acts + [a]) == acts;
  }

  // Lock safety

  /** A list of subscribers of one topic, each once. */
  ghost predicate ProperList(b: Bus, topic: Topic, list: seq<ChanId>) {
    && (forall i | 0 <= i < |list| :: list[i] < |b.owner| && b.owner[list[i]] == topic)
    && (forall i, j | 0 <= i < j < |list| :: list[i] != list[j])
  }

  ghost predicate WellFormed(b: Bus) {
    && |b.owner| == |b.chans|
    && (forall topic | topic in b.subs :: ProperList(b, topic, b.subs[topic]))
    && (forall ch | 0 <= ch < |b.chans| :: |b.chans[ch].buffer| <= CHANNEL_BUFFER)
  }

  /** A Publish call walks exactly the list that its topic has all the while. */
  ghost predicate Walking(b: Bus, p: Publisher)
    requires p in b.readers
  {
    var walk := b.readers[p];
    walk.call < b.calls && walk.list == Listed(b.subs, walk.topic) && walk.next <= |walk.list|
  }

  /** Still to be closed by the running Close. */
  ghost predicate Due(b: Bus, ch: ChanId)
    requires b.writer.Closing? && ch < |b.owner|
  {
    ch in b.writer.left || (b.owner[ch] in b.writer.topics && ch in Listed(b.subs, b.owner[ch]))
  }

  ghost predicate Locked(b: Bus) {
    && |b.owner| == |b.chans|
    && (b.writer != Free || b.closed ==> b.readers == map[])
    && (b.writer.Subscribing? ==> !b.closed)
    && (forall p | p in b.readers :: Walking(b, p))
    && (!b.closed ==> forall ch | 0 <= ch < |b.chans| :: !b.chans[ch].closed && ch in Listed(b.subs, b.owner[ch]))
    && (b.closed && !b.writer.Closing? ==>
          b.subs == map[] && forall ch | 0 <= ch < |b.chans| :: b.chans[ch].closed)
    && (b.writer.Closing? ==>
          && b.closed
          && b.writer.topics <= b.subs.Keys
          && (forall i, j | 0 <= i < j < |b.writer.left| :: b.writer.left[i] != b.writer.left[j])
          && (forall i | 0 <= i < |b.writer.left| ::
                b.writer.left[i] < |b.chans| && b.owner[b.writer.left[i]] !in b.writer.topics)
          && (forall ch | 0 <= ch < |b.chans| :: b.chans[ch].closed <==> !Due(b, ch)))
  }

  ghost predicate Safe(b: Bus) {
    WellFormed(b) && Locked(b)
  }

  lemma SafeHasNoCrash(b: Bus, ch: ChanId)
    requires Safe(b)
    ensures !Enabled(b, Crash(ch))
  {
    if Enabled(b, Crash(ch)) {
      if ToClose(b, ch) {
        assert Due(b, ch);
      } else {
        assert false;
      }
    }
  }

  lemma WellFormedStep(b: Bus, a: Action)
    requires Safe(b) && Enabled(b, a)
    ensures WellFormed(Step(b, a))
  {
    var b' := Step(b, a);
    forall topic | topic in b'.subs ensures ProperList(b', topic, b'.subs[topic]) {
      if topic in b.subs {
        assert ProperList(b, topic, b.subs[topic]);
      }
    }
  }

  lemma LockedStep(b: Bus, a: Action)
    requires Safe(b) && Enabled(b, a)
    ensures Locked(Step(b, a))
  {
    match a {
      case Publish(p, _, _, _, _) => PublishStep(b, a);
      case Send(p, _, _, _) => WalkStep(b, a);
      case Drop(p, _, _) => WalkStep(b, a);
      case Published(p, _) => WalkStep(b, a);
      case Subscribed(_, _) => SubscribedStep(b, a);
      case Close => CloseStep(b, a);
      case NextTopic(topic) => CloseStep(b, a);
      case CloseOne(ch) => CloseStep(b, a);
      case Closed => CloseStep(b, a);
      case Receive(ch, _) => ReceiveStep(b, a);
      case _ =>
    }
  }

  lemma PublishStep(b: Bus, a: Action)
    requires Safe(b) && Enabled(b, a) && a.Publish?
    ensures Locked(Step(b, a))
  {
  }

  lemma WalkStep(b: Bus, a: Action)
    requires Safe(b) && Enabled(b, a) && (a.Send? || a.Drop? || a.Published?)
    ensures Locked(Step(b, a))
  {
    assert Walking(b, a.p);
    var b' := Step(b, a);
    forall p | p in b'.readers ensures Walking(b', p) {
      assert Walking(b, p);
    }
  }

  lemma SubscribedStep(b: Bus, a: Action)
    requires Safe(b) && Enabled(b, a) && a.Subscribed?
    ensures Locked(Step(b, a))
  {
    var b' := Step(b, a);
    forall ch | 0 <= ch < |b'.chans| ensures !b'.chans[ch].closed && ch in Listed(b'.subs, b'.owner[ch]) {
      if ch == a.ch {
        assert Listed(b'.subs, a.topic)[|Listed(b.subs, a.topic)|] == ch;
      } else if b.owner[ch] == a.topic {
        var i :| 0 <= i < |Listed(b.subs, a.topic)| && Listed(b.subs, a.topic)[i] == ch;
        assert Listed(b'.subs, a.topic)[i] == ch;
      }
    }
  }

  lemma CloseStep(b: Bus, a: Action)
    requires Safe(b) && Enabled(b, a) && (a.Close? || a.NextTopic? || a.CloseOne? || a.Closed?)
    ensures Locked(Step(b, a))
  {
    var b' := Step(b, a);
    if a.NextTopic? {
      assert ProperList(b, a.topic, b.subs[a.topic]);
    }
    if a.CloseOne? {
      assert forall ch | ch in b'.writer.left :: ch in b.writer.left;
      assert b.writer.left == [a.ch] + b'.writer.left;
    }
    forall ch | 0 <= ch < |b'.chans| && b'.writer.Closing? ensures b'.chans[ch].closed <==> !Due(b', ch) {
      if b.writer.Closing? {
        assert b.chans[ch].closed <==> !Due(b, ch);
      }
    }
    if a.Closed? {
      forall ch | 0 <= ch < |b.chans| ensures b.chans[ch].closed {
        assert !Due(b, ch);
      }
    }
  }

  lemma ReceiveStep(b: Bus, a: Action)
    requires Safe(b) && Enabled(b, a) && a.Receive?
    ensures Locked(Step(b, a))
  {
    var b' := Step(b, a);
    forall p | p in b'.readers ensures Walking(b', p) {
      assert Walking(b, p);
    }
    forall ch | 0 <= ch < |b'.chans| && b'.writer.Closing? ensures b'.chans[ch].closed <==> !Due(b', ch) {
      assert b.chans[ch].closed <==> !Due(b, ch);
    }
  }

  /** Over all interleavings of publishers, subscribers and Close: no send
      reaches a closed channel, no channel is closed twice, the list a Publish
      walks is its topic's list from its first send to its last, and once Close
      has returned every subscriber channel is closed. */
  lemma {:induction false} LocksAreSafe(acts: seq<Action>)
    requires IsRun(NEW_IN_MEMORY, acts)
    ensures Safe(Exec(NEW_IN_MEMORY, acts))
    ensures forall a | a in acts :: !a.Crash?
    ensures
      var b := Exec(NEW_IN_MEMORY, acts);
      && (forall p | p in b.readers :: b.readers[p].list == Listed(b.subs, b.readers[p].topic))
      && (b.closed && !b.writer.Closing? ==> forall ch | 0 <= ch < |b.chans| :: b.chans[ch].closed)
  {
    hide Step, Enabled, Safe;
    if acts == [] {
      NewIsSafe();
    } else {
      var b, a := Exec(NEW_IN_MEMORY, Init(acts)), Last(acts);
      LocksAreSafe(Init(acts));
      SafeStep(b, a);
      assert acts == Init(acts) + [a];
    }
    SafeMeans(Exec(NEW_IN_MEMORY, acts));
  }

  lemma SafeMeans(b: Bus)
    requires Safe(b)
    ensures forall p | p in b.readers :: b.readers[p].list == Listed(b.subs, b.readers[p].topic)
    ensures b.closed && !b.writer.Closing? ==> forall ch | 0 <= ch < |b.chans| :: b.chans[ch].closed
  {
    assert forall p | p in b.readers :: Walking(b, p);
  }

  lemma NewIsSafe()
    ensures Safe(NEW_IN_MEMORY)
  {
  }

  lemma SafeStep(b: Bus, a: Action)
    requires Safe(b) && Enabled(b, a)
    ensures Safe(Step(b, a)) && !a.Crash?
  {
    WellFormedStep(b, a);
    LockedStep(b, a);
    if a.Crash? {
      SafeHasNoCrash(b, a.ch);
    }
  }
}
