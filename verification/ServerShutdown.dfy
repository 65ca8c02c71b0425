/**
 The connections of one server while srv.Stop waits for them (internal/daemon/server.go). The
 accept loop counts a connection in the wait group only after it has accepted it, so that a Stop
 that closes the listener in between does not wait for that one.
 */
module ServerShutdown {
  /** Holding: a connection is accepted, its wg.Add yet to come. */
  datatype Loop = NotStarted | Accepting | Holding | Ended

  /** A call of Stop; `closed` is whether it found a listener to close. */
  datatype StopPc = ToClose | Waiting(closed: bool) | Returned(closed: bool)

  /** `running` counts the handlers, as the wait group does. */
  datatype Server = Server(listening: bool, loop: Loop, running: nat, stops: seq<StopPc>)

  datatype Action =
    | Start
    | Accept
    | AddHandler
    | EndLoop                 // Accept fails on the closed listener
    | EndHandler
    | CallStop
    | CloseListener(k: nat)
    | PassWait(k: nat)

  const FRESH := Server(false, NotStarted, 0, [])

  predicate Enabled(s: Server, a: Action) {
    match a
    case Start => s.loop.NotStarted?
    case Accept => s.loop.Accepting? && s.listening
    case AddHandler => s.loop.Holding?
    case EndLoop => s.loop.Accepting? && !s.listening
    case EndHandler => s.running > 0
    case CallStop => true
    case CloseListener(k) => k < |s.stops| && s.stops[k].ToClose?
    case PassWait(k) => k < |s.stops| && s.stops[k].Waiting? && s.running == 0
  }

  function Do(s: Server, a: Action): Server
    requires Enabled(s, a)
  {
    match a
    case Start => s.(listening := true, loop := Accepting)
    case Accept => s.(loop := Holding)
    case AddHandler => s.(loop := Accepting, running := s.running + 1)
    case EndLoop => s.(loop := Ended)
    case EndHandler => s.(running := s.running - 1)
    case CallStop => s.(stops := s.stops + [if s.loop.NotStarted? then Waiting(false) else ToClose])
    case CloseListener(k) => s.(listening := false, stops := s.stops[k := Waiting(true)])
    case PassWait(k) => s.(stops := s.stops[k := Returned(s.stops[k].closed)])
  }

  ghost predicate IsRun(states: seq<Server>, actions: seq<Action>) {
    && |states| == |actions| + 1 && states[0] == FRESH
    && forall i | 0 <= i < |actions| :: Enabled(states[i], actions[i]) && states[i + 1] == Do(states[i], actions[i])
  }

  predicate HasClosed(stop: StopPc) {
    !stop.ToClose? && stop.closed
  }

  ghost predicate Inv(s: Server) {
    && (s.loop.NotStarted? ==> !s.listening)
    && forall k | 0 <= k < |s.stops| ::
         && (s.stops[k].ToClose? || s.stops[k].closed ==> !s.loop.NotStarted?)
         && (HasClosed(s.stops[k]) ==> !s.listening)
  }

  lemma InvPreserved(s: Server, a: Action)
    requires Inv(s) && Enabled(s, a)
    ensures Inv(Do(s, a))
  {}

  lemma {:induction false} InvAlongRun(states: seq<Server>, actions: seq<Action>, i: nat)
    requires IsRun(states, actions) && i <= |actions|
    ensures Inv(states[i])
  {
    if i > 0 {
      InvAlongRun(states, actions, i - 1);
      InvPreserved(states[i - 1], actions[i - 1]);
    }
  }

  /** From a Stop's return on, with `held` whether the loop then held a connection. */
  predicate Stage(s: Server, held: bool, added: bool, ended: bool) {
    && !s.listening && !s.loop.NotStarted? && s.running == (if added && !ended then 1 else 0)
    && (s.loop.Holding? <==> held && !added) && (ended ==> added) && (added ==> held)
  }

  lemma StageStep(s: Server, a: Action, held: bool, added: bool, ended: bool)
    requires Enabled(s, a) && Stage(s, held, added, ended)
    ensures Stage(Do(s, a), held, added || a.AddHandler?, ended || a.EndHandler?)
  {}

  lemma {:induction false} StageAlongRun(states: seq<Server>, actions: seq<Action>, w: nat, i: nat)
    requires IsRun(states, actions) && w <= i <= |actions|
    requires Stage(states[w], states[w].loop.Holding?, false, false)
    ensures Stage(states[i], states[w].loop.Holding?, AddHandler in actions[w..i], EndHandler in actions[w..i])
  {
    if w < i {
      StageAlongRun(states, actions, w, i - 1);
      assert actions[w..i] == actions[w..i - 1] + [actions[i - 1]];
      StageStep(states[i - 1], actions[i - 1], states[w].loop.Holding?, AddHandler in actions[w..i - 1],
                EndHandler in actions[w..i - 1]);
    }
  }

  /**
   After a Stop that closed the listener has passed its Wait, a handler runs exactly from the
   wg.Add of a connection the loop held at that moment to the handler's end. There is at most
   one such, and none if the loop held no connection.
   */
  lemma LateHandlersExactly(states: seq<Server>, actions: seq<Action>, w: nat, k: nat, i: nat)
    requires IsRun(states, actions) && w < i <= |actions| && actions[w] == PassWait(k) && states[w].stops[k].closed
    ensures states[i].running > 0 <==> AddHandler in actions[w + 1..i] && EndHandler !in actions[w + 1..i]
    ensures states[i].running <= 1
    ensures AddHandler in actions[w + 1..i] <==> states[w].loop.Holding? && !states[i].loop.Holding?
  {
    InvAlongRun(states, actions, w);
    assert states[w + 1] == Do(states[w], actions[w]);
    assert HasClosed(states[w].stops[k]);
    StageAlongRun(states, actions, w + 1, i);
  }

  /** That does happen: Stop returns, and then a handler begins. */
  lemma LateHandlerReachable() returns (states: seq<Server>, actions: seq<Action>)
    ensures IsRun(states, actions) && |actions| == 6 && actions[4] == PassWait(0)
    ensures states[6].stops == [Returned(true)] && states[6].running == 1
  {
    actions := [Start, Accept, CallStop, CloseListener(0), PassWait(0), AddHandler];
    var s1 := Do(FRESH, Start);
    var s2 := Do(s1, Accept);
    var s3 := Do(s2, CallStop);
    var s4 := Do(s3, CloseListener(0));
    var s5 := Do(s4, PassWait(0));
    states := [FRESH, s1, s2, s3, s4, s5, Do(s5, AddHandler)];
  }
}
