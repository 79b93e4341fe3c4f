/** internal/ws/hub.go and client.go: the hub goroutine, which owns the client
    set, interleaved with the clients that drain their send buffers. */
module HubSystem {
  import opened Channels

  const SEND_BUFFER := 256

  type ClientId = nat
  type Message = nat

  /** Where Run stands: in its select, or inside one of its two loops over the
      client map, with the clients still to be visited (in any order). */
  datatype Phase =
    | Ready
    | Broadcasting(message: Message, todo: set<ClientId>)
    | Stopping(todo: set<ClientId>)
    | Stopped

  /** `clients` is the hub's map; `sends` holds the send channel of every client
      that ever registered. */
  datatype HubState = HubState(clients: set<ClientId>, sends: map<ClientId, Chan<Message>>, phase: Phase)

  /** `Ignore` is an unregister of a client that is no longer in the map, `Wait`
      a client that finds nothing to drain, and `Crash` a send on a closed
      channel or a second close. */
  datatype Action =
    | Register(c: ClientId)
    | Unregister(c: ClientId)
    | Ignore(c: ClientId)
    | Begin(message: Message)
    | Send(c: ClientId, message: Message)
    | Overflow(c: ClientId)
    | End
    | Cancel
    | CloseOne(c: ClientId)
    | Return
    | Drain(c: ClientId, message: Message)
    | Wait(c: ClientId)
    | Crash(c: ClientId)

  const NEW_HUB := HubState({}, map[], Ready)

  /** The clients that the current loop has still to visit. */
  function Todo(h: HubState): set<ClientId> {
    if h.phase.Broadcasting? || h.phase.Stopping? then h.phase.todo else {}
  }

  predicate Enabled(h: HubState, a: Action) {
    match a
    case Register(c) => h.phase == Ready && c !in h.sends
    case Unregister(c) => h.phase == Ready && c in h.clients && c in h.sends && !h.sends[c].closed
    case Ignore(c) => h.phase == Ready && c in h.sends && c !in h.clients
    case Begin(_) => h.phase == Ready
    case Send(c, message) =>
      && h.phase.Broadcasting? && c in h.phase.todo && message == h.phase.message
      && c in h.sends && h.sends[c].Accepts(SEND_BUFFER)
    case Overflow(c) =>
      && h.phase.Broadcasting? && c in h.phase.todo
      && c in h.sends && !h.sends[c].closed && !h.sends[c].Accepts(SEND_BUFFER)
    case End => h.phase.Broadcasting? && h.phase.todo == {}
    case Cancel => h.phase == Ready
    case CloseOne(c) => h.phase.Stopping? && c in h.phase.todo && c in h.sends && !h.sends[c].closed
    case Return => h.phase.Stopping? && h.phase.todo == {}
    case Drain(c, message) => c in h.sends && h.sends[c].buffer != [] && h.sends[c].buffer[0] == message
    case Wait(c) => c !in h.sends || h.sends[c].buffer == []
    case Crash(c) => c in h.sends && h.sends[c].closed && (c in Todo(h) || (h.phase == Ready && c in h.clients))
  }

  function Step(h: HubState, a: Action): HubState
    requires Enabled(h, a)
  {
    match a
    case Register(c) => h.(clients := h.clients + {c}, sends := h.sends[c := Chan([], false)])
    case Unregister(c) => h.(clients := h.clients - {c}, sends := h.sends[c := h.sends[c].Shut()])
    case Ignore(_) => h
    case Begin(message) => h.(phase := Broadcasting(message, h.clients))
    case Send(c, message) =>
      h.(sends := h.sends[c := h.sends[c].Push(message)], phase := Broadcasting(message, h.phase.todo - {c}))
    case Overflow(c) =>
      h.(clients := h.clients - {c}, sends := h.sends[c := h.sends[c].Shut()],
         phase := Broadcasting(h.phase.message, h.phase.todo - {c}))
    case End => h.(phase := Ready)
    case Cancel => h.(phase := Stopping(h.clients))
    case CloseOne(c) =>
      h.(clients := h.clients - {c}, sends := h.sends[c := h.sends[c].Shut()], phase := Stopping(h.phase.todo - {c}))
    case Return => h.(phase := Stopped)
    case Drain(c, _) => h.(sends := h.sends[c := h.sends[c].Pop()])
    case Wait(_) => h
    case Crash(_) => h
  }

  predicate IsRun(h: HubState, acts: seq<Action>)
    decreases |acts|, 0
  {
    acts == [] || (IsRun(h, Init(acts)) && Enabled(Exec(h, Init(acts)), Last(acts)))
  }

  function Exec(h: HubState, acts: seq<Action>): HubState
    requires IsRun(h, acts)
    decreases |acts|, 1
  {
    if acts == [] then h else Step(Exec(h, Init(acts)), Last(acts))
  }

  function Init(acts: seq<Action>): seq<Action>
    requires acts != []
  {
    acts[..|acts| - 1]
  }

  function Last(acts: seq<Action>): Action
    requires acts != []
  {
    acts[|acts| - 1]
  }

  lemma StepsOnce(h: HubState, acts: seq<Action>, a: Action)
    requires IsRun(h, acts) && Enabled(Exec(h, acts), a)
    ensures IsRun(h, acts + [a]) && Exec(h, acts + [a]) == Step(Exec(h, acts), a)
  {
    hide Step, Enabled;
    assert Init(acts + [a]) == acts;
  }

  // Channels are closed exactly when their client leaves the map

  ghost predicate Consistent(h: HubState) {
    && h.clients <= h.sends.Keys
    && (h.phase.Broadcasting? ==> h.phase.todo <= h.clients)
    && (h.phase.Stopping? ==> h.phase.todo == h.clients)
    && (h.phase.Stopped? ==> h.clients == {})
    && forall c | c in h.sends ::
         (h.sends[c].closed <==> c !in h.clients) && |h.sends[c].buffer| <= SEND_BUFFER
  }

  lemma ConsistentStep(h: HubState, a: Action)
    requires Consistent(h) && Enabled(h, a)
    ensures Consistent(Step(h, a)) && !a.Crash?
  {
  }

  /** Removals of a client from the map, each closing its channel. */
  function Closes(acts: seq<Action>, c: ClientId): nat {
    if acts == [] then 0
    else Closes(Init(acts), c) + if Removes(Last(acts), c) then 1 else 0
  }

  predicate Removes(a: Action, c: ClientId) {
    (a.Unregister? || a.Overflow? || a.CloseOne?) && a.c == c
  }

  lemma ClosesStep(h: HubState, a: Action, c: ClientId)
    requires Consistent(h) && Enabled(h, a)
    ensures (c in Step(h, a).sends && Step(h, a).sends[c].closed)
            <==> (c in h.sends && h.sends[c].closed) || Removes(a, c)
    ensures Removes(a, c) ==> c in h.sends && !h.sends[c].closed
  {
  }

  /** In every run: a registered client's channel is open exactly while it is in
      the map and is closed once, when it leaves; nothing is ever sent on a
      closed channel or closed twice; and once Run has returned the map is empty. */
  lemma {:induction false} ClosedExactlyOnce(acts: seq<Action>)
    requires IsRun(NEW_HUB, acts)
    ensures
      var h := Exec(NEW_HUB, acts);
      && Consistent(h)
      && (forall c | c in h.sends :: h.sends[c].closed <==> c !in h.clients)
      && (forall c | c in h.sends :: Closes(acts, c) == if c in h.clients then 0 else 1)
      && (forall c | c !in h.sends :: c !in h.clients && Closes(acts, c) == 0)
      && (h.phase == Stopped ==> h.clients == {})
    ensures forall a | a in acts :: !a.Crash?
  {
    hide Step, Enabled;
    if acts != [] {
      var h, a := Exec(NEW_HUB, Init(acts)), Last(acts);
      ClosedExactlyOnce(Init(acts));
      ConsistentStep(h, a);
      forall c: ClientId
        ensures (c in Step(h, a).sends && Step(h, a).sends[c].closed)
                <==> (c in h.sends && h.sends[c].closed) || Removes(a, c)
        ensures Removes(a, c) ==> c in h.sends && !h.sends[c].closed
      {
        ClosesStep(h, a, c);
      }
      assert acts == Init(acts) + [a];
    }
  }

  // Each client sees a contiguous slice of the broadcasts

  function BroadcastIn(a: Action): seq<Message> {
    if a.Begin? then [a.message] else []
  }

  function Broadcasts(acts: seq<Action>): seq<Message> {
    if acts == [] then [] else Broadcasts(Init(acts)) + BroadcastIn(Last(acts))
  }

  function WrittenIn(a: Action, c: ClientId): seq<Message> {
    if a.Send? && a.c == c then [a.message] else []
  }

  /** What was written into the send channel of a client, in order. */
  function Written(acts: seq<Action>, c: ClientId): seq<Message> {
    if acts == [] then [] else Written(Init(acts), c) + WrittenIn(Last(acts), c)
  }

  function DrainedIn(a: Action, c: ClientId): seq<Message> {
    if a.Drain? && a.c == c then [a.message] else []
  }

  /** What a client took out of its send channel, in order. */
  function Drained(acts: seq<Action>, c: ClientId): seq<Message> {
    if acts == [] then [] else Drained(Init(acts), c) + DrainedIn(Last(acts), c)
  }

  /** The number of broadcasts before the client registered. */
  function From(acts: seq<Action>, c: ClientId): nat {
    if acts == [] then 0
    else if Last(acts) == Register(c) then |Broadcasts(Init(acts))|
    else From(Init(acts), c)
  }

  /** The hub as one client sees it: whether it registered, is still in the map,
      is still to be visited by the running broadcast, and what is buffered. */
  datatype Standing = Unknown | Known(inMap: bool, awaiting: bool, buffer: seq<Message>)

  function StandingOf(h: HubState, c: ClientId): Standing {
    if c !in h.sends then Unknown
    else Known(c in h.clients, h.phase.Broadcasting? && c in h.phase.todo, h.sends[c].buffer)
  }

  /** The number of broadcasts completed for the client: all up to its removal,
      without the one that overflowed, or all so far while it is in the map. */
  function Upto(standing: Standing, acts: seq<Action>, c: ClientId): int {
    if standing.Known? && standing.inMap then |Broadcasts(acts)| - (if standing.awaiting then 1 else 0)
    else LeftAt(acts, c)
  }

  function LeftAt(acts: seq<Action>, c: ClientId): int {
    if acts == [] then 0
    else if Last(acts) == Overflow(c) then |Broadcasts(acts)| - 1
    else if Removes(Last(acts), c) then |Broadcasts(acts)|
    else LeftAt(Init(acts), c)
  }

  /** Written is the slice from registration to removal, drained a prefix of it. */
  ghost predicate Sees(standing: Standing, acts: seq<Action>, c: ClientId) {
    if standing.Unknown? then Written(acts, c) == [] && Drained(acts, c) == []
    else
      && 0 <= From(acts, c) <= Upto(standing, acts, c) <= |Broadcasts(acts)|
      && Written(acts, c) == Broadcasts(acts)[From(acts, c)..Upto(standing, acts, c)]
      && Written(acts, c) == Drained(acts, c) + standing.buffer
  }

  predicate KnowsMessage(h: HubState, broadcasts: seq<Message>) {
    h.phase.Broadcasting? ==> broadcasts != [] && broadcasts[|broadcasts| - 1] == h.phase.message
  }

  /** The step changes what client `c` has been sent, has drained, or is. */
  predicate Touches(a: Action, c: ClientId) {
    (a.Register? || a.Send? || a.Drain? || Removes(a, c)) && a.c == c
  }

  /** What each step makes of a client's standing. */
  function NextStanding(standing: Standing, a: Action, c: ClientId): Standing {
    if a == Register(c) then Known(true, false, [])
    else if standing.Unknown? then standing
    else if a.Begin? then standing.(awaiting := standing.inMap)
    else if a.Send? && a.c == c then standing.(awaiting := false, buffer := standing.buffer + [a.message])
    else if a.Drain? && a.c == c && standing.buffer != [] then standing.(buffer := standing.buffer[1..])
    else if Removes(a, c) then standing.(inMap := false, awaiting := false)
    else standing
  }

  lemma StandingStep(h: HubState, a: Action, c: ClientId)
    requires Consistent(h) && Enabled(h, a)
    ensures StandingOf(Step(h, a), c) == NextStanding(StandingOf(h, c), a, c)
    ensures Touches(a, c) ==> (a.Register? <==> StandingOf(h, c).Unknown?)
    ensures Touches(a, c) && !a.Register? && !a.Drain? ==> StandingOf(h, c).inMap
    ensures Touches(a, c) && (a.Send? || a.Overflow?) ==> StandingOf(h, c).awaiting
    ensures Touches(a, c) && (a.Unregister? || a.CloseOne?) ==> !StandingOf(h, c).awaiting
    ensures a.Begin? && StandingOf(h, c).Known? ==> !StandingOf(h, c).awaiting
    ensures a == Register(c) ==> !h.phase.Broadcasting?
    ensures a.Send? ==> h.phase.Broadcasting? && a.message == h.phase.message
    ensures Touches(a, c) && a.Drain? ==> StandingOf(h, c).buffer != [] && StandingOf(h, c).buffer[0] == a.message
  {
  }

  lemma MessageStep(h: HubState, acts: seq<Action>)
    requires acts != [] && Enabled(h, Last(acts)) && KnowsMessage(h, Broadcasts(Init(acts)))
    ensures KnowsMessage(Step(h, Last(acts)), Broadcasts(acts))
  {
  }

  lemma SameBefore(acts: seq<Action>, c: ClientId)
    requires acts != []
    ensures Last(acts) != Register(c) ==> From(acts, c) == From(Init(acts), c)
    ensures !Removes(Last(acts), c) ==> LeftAt(acts, c) == LeftAt(Init(acts), c)
    ensures !Last(acts).Begin? ==> Broadcasts(acts) == Broadcasts(Init(acts))
    ensures !(Last(acts).Send? && Last(acts).c == c) ==> Written(acts, c) == Written(Init(acts), c)
    ensures !(Last(acts).Drain? && Last(acts).c == c) ==> Drained(acts, c) == Drained(Init(acts), c)
  {
    hide From, LeftAt;
    if !Last(acts).Begin? {
      assert BroadcastIn(Last(acts)) == [];
    }
    FromAndLeft(acts, c);
  }

  lemma FromAndLeft(acts: seq<Action>, c: ClientId)
    requires acts != []
    ensures Last(acts) != Register(c) ==> From(acts, c) == From(Init(acts), c)
    ensures !Removes(Last(acts), c) ==> LeftAt(acts, c) == LeftAt(Init(acts), c)
  {
    hide Broadcasts;
  }

  lemma UntouchedStep(standing: Standing, acts: seq<Action>, c: ClientId)
    requires acts != [] && !Touches(Last(acts), c) && Sees(standing, Init(acts), c)
    requires Last(acts).Begin? && standing.Known? ==> !standing.awaiting
    ensures Sees(NextStanding(standing, Last(acts), c), acts, c)
  {
    SameBefore(acts, c);
    assert Broadcasts(acts) == Broadcasts(Init(acts)) + BroadcastIn(Last(acts));
    hide Broadcasts, Written, Drained, From, LeftAt;
    if standing.Known? {
      var from, upto := From(acts, c), Upto(standing, Init(acts), c);
      assert Broadcasts(acts)[from..upto] == Broadcasts(Init(acts))[from..upto];
    }
  }

  lemma SendStep(standing: Standing, acts: seq<Action>, c: ClientId)
    requires acts != [] && Last(acts).Send? && Last(acts).c == c && Sees(standing, Init(acts), c)
    requires standing.Known? && standing.inMap && standing.awaiting
    requires var bs := Broadcasts(Init(acts)); bs != [] && bs[|bs| - 1] == Last(acts).message
    ensures Sees(NextStanding(standing, Last(acts), c), acts, c)
  {
    SameBefore(acts, c);
    assert Written(acts, c) == Written(Init(acts), c) + [Last(acts).message];
    hide Broadcasts, Written, Drained, From, LeftAt;
    var bs, from := Broadcasts(acts), From(acts, c);
    assert bs[from..] == bs[from..|bs| - 1] + [Last(acts).message];
    assert Drained(acts, c) + (standing.buffer + [Last(acts).message])
        == (Drained(acts, c) + standing.buffer) + [Last(acts).message];
  }

  lemma DrainStep(standing: Standing, acts: seq<Action>, c: ClientId)
    requires acts != [] && Last(acts).Drain? && Last(acts).c == c && Sees(standing, Init(acts), c)
    requires standing.Known? && standing.buffer != [] && standing.buffer[0] == Last(acts).message
    ensures Sees(NextStanding(standing, Last(acts), c), acts, c)
  {
    SameBefore(acts, c);
    assert Drained(acts, c) == Drained(Init(acts), c) + [Last(acts).message];
    hide Broadcasts, Written, Drained, From, LeftAt;
    assert standing.buffer == [Last(acts).message] + standing.buffer[1..];
  }

  lemma LeaveStep(standing: Standing, acts: seq<Action>, c: ClientId)
    requires acts != [] && Removes(Last(acts), c) && Sees(standing, Init(acts), c)
    requires standing.Known? && standing.inMap && (standing.awaiting <==> Last(acts).Overflow?)
    ensures Sees(NextStanding(standing, Last(acts), c), acts, c)
  {
    SameBefore(acts, c);
    assert LeftAt(acts, c) == |Broadcasts(acts)| - if Last(acts).Overflow? then 1 else 0;
    hide Broadcasts, Written, Drained, From, LeftAt;
  }

  lemma JoinStep(acts: seq<Action>, c: ClientId)
    requires acts != [] && Last(acts) == Register(c) && Sees(Unknown, Init(acts), c)
    ensures Sees(Known(true, false, []), acts, c)
  {
    SameBefore(acts, c);
    assert From(acts, c) == |Broadcasts(Init(acts))|;
    hide Broadcasts, Written, Drained, From, LeftAt;
  }

  /** For every client, every interleaving of drains and every order in which the
      map is walked: what is written into its channel is the gap-free slice of
      the broadcasts from its registration to its removal, and what it has
      drained, followed by what is buffered, is that slice. */
  lemma {:induction false} ClientSeesSlice(acts: seq<Action>, c: ClientId)
    requires IsRun(NEW_HUB, acts)
    ensures Sees(StandingOf(Exec(NEW_HUB, acts), c), acts, c)
    ensures KnowsMessage(Exec(NEW_HUB, acts), Broadcasts(acts))
  {
    hide Step, Enabled, Sees, StandingOf;
    if acts == [] {
      NothingSeen(c);
    } else {
      var h, a := Exec(NEW_HUB, Init(acts)), Last(acts);
      ClientSeesSlice(Init(acts), c);
      ClosedExactlyOnce(Init(acts));
      MessageStep(h, acts);
      StandingStep(h, a, c);
      var standing := StandingOf(h, c);
      if !Touches(a, c) {
        UntouchedStep(standing, acts, c);
      } else if a.Register? {
        JoinStep(acts, c);
      } else if a.Send? {
        SendStep(standing, acts, c);
      } else if a.Drain? {
        DrainStep(standing, acts, c);
      } else {
        LeaveStep(standing, acts, c);
      }
    }
  }

  lemma NothingSeen(c: ClientId)
    ensures Sees(StandingOf(NEW_HUB, c), [], c) && KnowsMessage(NEW_HUB, Broadcasts([]))
  {
  }

  /** A client is only cut off by a broadcast that finds its buffer full. */
  lemma {:induction false} OnlyFullClientsOverflow(acts: seq<Action>, c: ClientId)
    requires IsRun(NEW_HUB, acts + [Overflow(c)])
    ensures IsRun(NEW_HUB, acts)
    ensures |Written(acts, c)| == |Drained(acts, c)| + 256
  {
    assert Init(acts + [Overflow(c)]) == acts;
    ClosedExactlyOnce(acts);
    ClientSeesSlice(acts, c);
  }
}
