/** The imperative hub (internal/ws/hub.go), proved to take exactly the steps of
    the transition system. */
module Hubs {
  import opened Channels
  import opened HubSystem

  /** What Run's select hands it next, and what clients drain in between. */
  datatype Input =
    | Done
    | Registers(c: ClientId)
    | Unregisters(c: ClientId)
    | Message(message: HubSystem.Message)
    | Drains(c: ClientId)

  /** Clients register once, through ServeWs, and unregister only after that. */
  predicate Disciplined(inputs: seq<Input>, known: set<ClientId>)
    decreases |inputs|
  {
    inputs == [] ||
    match inputs[0]
    case Registers(c) => c !in known && Disciplined(inputs[1..], known + {c})
    case Unregisters(c) => c in known && Disciplined(inputs[1..], known)
    case _ => Disciplined(inputs[1..], known)
  }

  /** The input that a step answers, if it is the first step to do so. */
  function HeardIn(a: Action): seq<Input> {
    match a
    case Register(c) => [Registers(c)]
    case Unregister(c) => [Unregisters(c)]
    case Ignore(c) => [Unregisters(c)]
    case Begin(message) => [Message(message)]
    case Cancel => [Done]
    case Drain(c, _) => [Drains(c)]
    case Wait(c) => [Drains(c)]
    case _ => []
  }

  /** The inputs that a run answers, in order. */
  function Heard(acts: seq<Action>): seq<Input> {
    if acts == [] then [] else Heard(Init(acts)) + HeardIn(Last(acts))
  }

  /** `more` goes on from `acts` and answers exactly these inputs on the way. */
  predicate Extends(acts: seq<Action>, more: seq<Action>, inputs: seq<Input>) {
    acts <= more && Heard(more) == Heard(acts) + inputs
  }

  lemma ExtendsOnce(acts: seq<Action>, a: Action)
    ensures Extends(acts, acts + [a], HeardIn(a))
  {
    assert Init(acts + [a]) == acts;
  }

  lemma ExtendsOn(first: seq<Action>, second: seq<Action>, third: seq<Action>, xs: seq<Input>, ys: seq<Input>)
    requires Extends(first, second, xs) && Extends(second, third, ys)
    ensures Extends(first, third, xs + ys)
  {
    assert (Heard(first) + xs) + ys == Heard(first) + (xs + ys);
  }

  /** What Run gets to hear of its inputs. */
  function UpToDone(inputs: seq<Input>): seq<Input> {
    if inputs == [] then []
    else if inputs[0].Done? then [Done]
    else [inputs[0]] + UpToDone(inputs[1..])
  }

  lemma {:induction false} UpToDoneAt(inputs: seq<Input>, i: nat)
    requires i <= |inputs| && Done !in inputs[..i] && (i == |inputs| || inputs[i] == Done)
    ensures UpToDone(inputs) == if i == |inputs| then inputs else inputs[..i + 1]
    decreases |inputs|
  {
    if i > 0 {
      assert inputs[..i] == [inputs[0]] + inputs[1..][..i - 1];
      UpToDoneAt(inputs[1..], i - 1);
    }
  }

  function MessagesIn(inputs: seq<Input>): seq<HubSystem.Message> {
    if inputs == [] then []
    else
      var last := inputs[|inputs| - 1];
      MessagesIn(inputs[..|inputs| - 1]) + if last.Message? then [last.message] else []
  }

  /** A run broadcasts exactly the messages that it hears, in order. */
  lemma {:induction false} HeardIsBroadcast(acts: seq<Action>)
    ensures Broadcasts(acts) == MessagesIn(Heard(acts))
  {
    if acts != [] {
      HeardIsBroadcast(Init(acts));
      var before, last := Heard(Init(acts)), HeardIn(Last(acts));
      if last == [] {
        assert before + last == before;
      } else {
        assert (before + last)[..|before|] == before;
      }
    }
  }

  /** What a broadcast makes of a client that was, or was not, in the map: until
      it is visited nothing; then it has the message if there was room, and is
      cut off if there was not. */
  predicate Visited(before: Chan<HubSystem.Message>, message: HubSystem.Message, wasIn: bool, todo: bool,
                    after: Chan<HubSystem.Message>, isIn: bool)
  {
    if !wasIn || todo then after == before && isIn == wasIn
    else if |before.buffer| < SEND_BUFFER then after == before.Push(message) && isIn
    else after == before.Shut() && !isIn
  }

  class Hub {
    var clients: set<ClientId>
    var sends: map<ClientId, Chan<HubSystem.Message>>

    ghost predicate Mirrors(acts: seq<Action>, phase: Phase)
      reads this
    {
      IsRun(NEW_HUB, acts) && Exec(NEW_HUB, acts) == HubState(clients, sends, phase)
    }

    constructor ()
      ensures Mirrors([], Ready)
    {
      clients, sends := {}, map[];
    }

    method HandleRegister(c: ClientId, ghost acts: seq<Action>) returns (ghost more: seq<Action>)
      requires Mirrors(acts, Ready) && c !in sends
      modifies this
      ensures Mirrors(more, Ready) && Extends(acts, more, [Registers(c)])
      ensures clients == old(clients) + {c} && sends == old(sends)[c := Chan([], false)]
    {
      StepsOnce(NEW_HUB, acts, Register(c));
      ExtendsOnce(acts, Register(c));
      sends := sends[c := Chan([], false)];
      clients := clients + {c};
      more := acts + [Register(c)];
    }

    method HandleUnregister(c: ClientId, ghost acts: seq<Action>) returns (ghost more: seq<Action>)
      requires Mirrors(acts, Ready) && c in sends
      modifies this
      ensures Mirrors(more, Ready) && Extends(acts, more, [Unregisters(c)])
      ensures clients == old(clients) - {c}
      ensures sends == if c in old(clients) then old(sends)[c := old(sends)[c].Shut()] else old(sends)
    {
      ClosedExactlyOnce(acts);
      if c in clients {
        StepsOnce(NEW_HUB, acts, Unregister(c));
        clients := clients - {c};
        sends := sends[c := sends[c].Shut()];
        more := acts + [Unregister(c)];
        ExtendsOnce(acts, Unregister(c));
      } else {
        StepsOnce(NEW_HUB, acts, Ignore(c));
        more := acts + [Ignore(c)];
        ExtendsOnce(acts, Ignore(c));
      }
    }

    /** One turn of the broadcast loop. */
    method VisitOne(c: ClientId, message: HubSystem.Message, ghost todo: set<ClientId>, ghost acts: seq<Action>)
      returns (ghost more: seq<Action>)
      requires Mirrors(acts, Broadcasting(message, todo)) && c in todo && c in sends && !sends[c].closed
      modifies this
      ensures Mirrors(more, Broadcasting(message, todo - {c})) && Extends(acts, more, [])
      ensures
        var accepted := old(sends)[c].Accepts(SEND_BUFFER);
        && clients == (if accepted then old(clients) else old(clients) - {c})
        && sends == old(sends)[c := if accepted then old(sends)[c].Push(message) else old(sends)[c].Shut()]
    {
      if sends[c].Accepts(SEND_BUFFER) {
        StepsOnce(NEW_HUB, acts, Send(c, message));
        more := acts + [Send(c, message)];
        ExtendsOnce(acts, Send(c, message));
        sends := sends[c := sends[c].Push(message)];
      } else {
        StepsOnce(NEW_HUB, acts, Overflow(c));
        more := acts + [Overflow(c)];
        ExtendsOnce(acts, Overflow(c));
        sends := sends[c := sends[c].Shut()];
        clients := clients - {c};
      }
    }

    /** Every client with room gets the message; every full one is cut off. */
    method HandleBroadcast(message: HubSystem.Message, ghost acts: seq<Action>) returns (ghost more: seq<Action>)
      requires Mirrors(acts, Ready)
      modifies this
      ensures Mirrors(more, Ready) && Extends(acts, more, [Message(message)])
      ensures clients <= old(clients) <= sends.Keys && sends.Keys == old(sends).Keys
      ensures forall c | c in sends :: Visited(old(sends)[c], message, c in old(clients), false, sends[c], c in clients)
    {
      ClosedExactlyOnce(acts);
      StepsOnce(NEW_HUB, acts, Begin(message));
      more := acts + [Begin(message)];
      ExtendsOnce(acts, Begin(message));
      var todo := clients;
      assert Mirrors(more, Broadcasting(message, todo));
      hide IsRun, Exec, Mirrors, Step, Enabled, Extends;
      while todo != {}
        invariant Mirrors(more, Broadcasting(message, todo)) && Extends(acts, more, [Message(message)])
        invariant todo <= clients <= old(clients) <= sends.Keys && sends.Keys == old(sends).Keys
        invariant forall c | c in todo :: !old(sends)[c].closed
        invariant forall c | c in sends ::
            Visited(old(sends)[c], message, c in old(clients), c in todo, sends[c], c in clients)
        decreases todo
      {
        var c :| c in todo;
        ghost var before := more;
        more := VisitOne(c, message, todo, more);
        ExtendsOn(acts, before, more, [Message(message)], []);
        todo := todo - {c};
      }
      ghost var before := more;
      more := Finish(message, more);
      ExtendsOn(acts, before, more, [Message(message)], []);
    }

    ghost method Finish(message: HubSystem.Message, acts: seq<Action>) returns (more: seq<Action>)
      requires Mirrors(acts, Broadcasting(message, {}))
      ensures Mirrors(more, Ready) && Extends(acts, more, [])
    {
      StepsOnce(NEW_HUB, acts, End);
      ExtendsOnce(acts, End);
      more := acts + [End];
    }

    /** Closes the channel of every client and leaves the map empty. */
    method Shutdown(ghost acts: seq<Action>) returns (ghost more: seq<Action>)
      requires Mirrors(acts, Ready)
      modifies this
      ensures Mirrors(more, Stopped) && Extends(acts, more, [Done])
      ensures clients == {} && sends.Keys == old(sends).Keys
      ensures forall c | c in sends :: sends[c] == old(sends)[c].Shut()
    {
      ClosedExactlyOnce(acts);
      StepsOnce(NEW_HUB, acts, Cancel);
      more := acts + [Cancel];
      ExtendsOnce(acts, Cancel);
      assert Mirrors(more, Stopping(clients));
      hide IsRun, Exec, Mirrors, Step, Enabled, Extends;
      while clients != {}
        invariant Mirrors(more, Stopping(clients)) && Extends(acts, more, [Done])
        invariant forall c | c in clients :: !old(sends)[c].closed
        invariant clients <= old(clients) <= sends.Keys && sends.Keys == old(sends).Keys
        invariant forall c | c in sends :: sends[c] == if c in clients then old(sends)[c] else old(sends)[c].Shut()
        decreases clients
      {
        var c :| c in clients;
        ghost var before := more;
        more := CloseClient(c, more);
        ExtendsOn(acts, before, more, [Done], []);
      }
      ghost var before := more;
      more := Quit(more);
      ExtendsOn(acts, before, more, [Done], []);
    }

    method CloseClient(c: ClientId, ghost acts: seq<Action>) returns (ghost more: seq<Action>)
      requires Mirrors(acts, Stopping(clients)) && c in clients && c in sends && !sends[c].closed
      modifies this
      ensures Mirrors(more, Stopping(clients)) && Extends(acts, more, [])
      ensures clients == old(clients) - {c} && sends == old(sends)[c := old(sends)[c].Shut()]
    {
      StepsOnce(NEW_HUB, acts, CloseOne(c));
      more := acts + [CloseOne(c)];
      ExtendsOnce(acts, CloseOne(c));
      sends := sends[c := sends[c].Shut()];
      clients := clients - {c};
    }

    ghost method Quit(acts: seq<Action>) returns (more: seq<Action>)
      requires Mirrors(acts, Stopping({}))
      ensures Mirrors(more, Stopped) && Extends(acts, more, [])
    {
      StepsOnce(NEW_HUB, acts, HubSystem.Return);
      more := acts + [HubSystem.Return];
      ExtendsOnce(acts, HubSystem.Return);
    }

    /** A client takes the oldest message from its buffer, if there is one. */
    method HandleDrain(c: ClientId, ghost acts: seq<Action>) returns (ghost more: seq<Action>)
      requires Mirrors(acts, Ready)
      modifies this`sends
      ensures Mirrors(more, Ready) && Extends(acts, more, [Drains(c)])
      ensures sends == if c in old(sends) && old(sends)[c].buffer != [] then old(sends)[c := old(sends)[c].Pop()]
                       else old(sends)
    {
      if c in sends && sends[c].buffer != [] {
        ghost var message := sends[c].buffer[0];
        StepsOnce(NEW_HUB, acts, Drain(c, message));
        more := acts + [Drain(c, message)];
        ExtendsOnce(acts, Drain(c, message));
        sends := sends[c := sends[c].Pop()];
      } else {
        StepsOnce(NEW_HUB, acts, Wait(c));
        more := acts + [Wait(c)];
        ExtendsOnce(acts, Wait(c));
      }
    }

    /** Run, over whatever its select and the clients' write pumps decide: it
        answers exactly these inputs, in order, up to the end of its context. */
    method Run(inputs: seq<Input>) returns (ghost acts: seq<Action>, stopped: bool)
      requires Mirrors([], Ready) && Disciplined(inputs, {})
      modifies this
      ensures Mirrors(acts, if stopped then Stopped else Ready)
      ensures Heard(acts) == UpToDone(inputs) && Broadcasts(acts) == MessagesIn(UpToDone(inputs))
      ensures stopped <==> Done in inputs
      ensures stopped ==> clients == {} && forall c | c in sends :: sends[c].closed
    {
      acts, stopped := [], false;
      assert inputs[0..] == inputs && sends.Keys == {};
      hide IsRun, Exec, Broadcasts, MessagesIn, UpToDone;
      for i := 0 to |inputs|
        invariant Mirrors(acts, Ready) && !stopped && Done !in inputs[..i] && Heard(acts) == inputs[..i]
        invariant Disciplined(inputs[i..], sends.Keys)
      {
        ghost var known := sends.Keys;
        assert inputs[i..][0] == inputs[i] && inputs[i..][1..] == inputs[i + 1..];
        assert inputs[..i + 1] == inputs[..i] + [inputs[i]];
        match inputs[i] {
          case Done =>
            acts := Shutdown(acts);
            stopped := true;
            UpToDoneAt(inputs, i);
            HeardIsBroadcast(acts);
            return;
          case Registers(c) =>
            acts := HandleRegister(c, acts);
            assert sends.Keys == known + {c};
          case Unregisters(c) =>
            acts := HandleUnregister(c, acts);
            assert sends.Keys == known;
          case Message(message) => acts := HandleBroadcast(message, acts);
          case Drains(c) =>
            acts := HandleDrain(c, acts);
            assert sends.Keys == known;
        }
      }
      assert inputs[..|inputs|] == inputs;
      UpToDoneAt(inputs, |inputs|);
      HeardIsBroadcast(acts);
    }
  }
}
