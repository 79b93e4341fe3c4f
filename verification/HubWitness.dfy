/** What the clients of the hub can do while it is inside a broadcast. */
module HubWitness {
  import opened Channels
  import opened HubSystem

  /** A client takes what is buffered for it at any moment, in the middle of a
      broadcast or of the shutdown too, and the hub notices nothing of it. */
  lemma ClientsNeverWait(h: HubState, c: ClientId)
    requires c in h.sends && h.sends[c].buffer != []
    ensures Enabled(h, Drain(c, h.sends[c].buffer[0]))
    ensures
      var h' := Step(h, Drain(c, h.sends[c].buffer[0]));
      && h'.phase == h.phase && h'.clients == h.clients
      && h'.sends == h.sends[c := Chan(h.sends[c].buffer[1..], h.sends[c].closed)]
  {
  }

  /** Client 0 has been sent n messages and has drained none. */
  function Behind(n: nat, phase: Phase): HubState {
    HubState({0}, map[0 := Chan(seq(n, _ => 0), false)], phase)
  }

  lemma {:induction false} GoOn(acts: seq<Action>, a: Action) returns (more: seq<Action>)
    requires IsRun(NEW_HUB, acts) && Enabled(Exec(NEW_HUB, acts), a)
    ensures more == acts + [a] && IsRun(NEW_HUB, more)
    ensures Exec(NEW_HUB, more) == Step(Exec(NEW_HUB, acts), a)
  {
    StepsOnce(NEW_HUB, acts, a);
    more := acts + [a];
  }

  lemma {:induction false} FallBehind(n: nat) returns (acts: seq<Action>)
    requires n <= 256
    ensures IsRun(NEW_HUB, acts) && Exec(NEW_HUB, acts) == Behind(n, Ready)
  {
    if n == 0 {
      assert IsRun(NEW_HUB, []) && Exec(NEW_HUB, []) == NEW_HUB;
      hide IsRun, Exec;
      acts := GoOn([], Register(0));
      assert seq(0, _ => 0) == [];
    } else {
      acts := FallBehind(n - 1);
      hide IsRun, Exec;
      acts := GoOn(acts, Begin(0));
      acts := GoOn(acts, Send(0, 0));
      assert seq(n - 1, _ => 0) + [0] == seq(n, _ => 0);
      acts := GoOn(acts, End);
    }
  }

  /** A client with a full buffer that a broadcast has yet to visit: if the hub
      comes first, it is cut off; if it drains one message before, it stays. */
  lemma {:induction false} DrainingInTimeSaves(acts: seq<Action>, c: ClientId)
    returns (cut: seq<Action>, saved: seq<Action>)
    requires IsRun(NEW_HUB, acts)
    requires
      var h := Exec(NEW_HUB, acts);
      h.phase.Broadcasting? && c in h.phase.todo && c in h.sends && |h.sends[c].buffer| == 256
    ensures IsRun(NEW_HUB, cut) && acts <= cut && c !in Exec(NEW_HUB, cut).clients
    ensures IsRun(NEW_HUB, saved) && acts <= saved && c in Exec(NEW_HUB, saved).clients
    ensures
      var h := Exec(NEW_HUB, acts);
      && Exec(NEW_HUB, cut).sends == h.sends[c := h.sends[c].Shut()]
      && c in Exec(NEW_HUB, saved).sends
      && Exec(NEW_HUB, saved).sends[c] == Chan(h.sends[c].buffer[1..] + [h.phase.message], false)
  {
    ClosedExactlyOnce(acts);
    hide IsRun, Exec;
    var h := Exec(NEW_HUB, acts);
    cut := GoOn(acts, Overflow(c));
    saved := GoOn(acts, Drain(c, h.sends[c].buffer[0]));
    saved := GoOn(saved, Send(c, h.phase.message));
  }

  /** Such a state is reached, so both fates are. */
  lemma {:induction false} FullBufferIsReached() returns (acts: seq<Action>)
    ensures IsRun(NEW_HUB, acts)
    ensures
      var h := Exec(NEW_HUB, acts);
      h.phase.Broadcasting? && 0 in h.phase.todo && 0 in h.sends && |h.sends[0].buffer| == 256
  {
    acts := FallBehind(256);
    acts := GoOn(acts, Begin(0));
  }
}
