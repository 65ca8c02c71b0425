/**
 Overlapping Connects and Disconnects on one DeviceManager. A Connect holds dm.mu only to
 store the forwarder, to store the process, and to commit; the driver calls between run
 unlocked. Disconnect and every reader hold the lock throughout. Any number of Connects may
 be under way, and each may stop for good at any point (internal/core/device_manager.go:76-195).
 */
module DeviceRaces {
  import opened Options
  import opened DeviceManagers
  import opened DeviceAccounting

  datatype Conn =
    | Resolved(info: DeviceInfo)                              // before ForwardPort
    | HasForward(info: DeviceInfo, id: nat)                   // forwarder acquired, not yet stored
    | Forwarded(info: DeviceInfo)                             // before StartWDA
    | HasProcess(info: DeviceInfo, id: nat)                   // process acquired, not yet stored
    | Probed(info: DeviceInfo)                                // before CreateSession
    | Ready(info: DeviceInfo, session: Option<string>)        // before the commit

  datatype State = State(dev: Device, conns: map<nat, Conn>)

  datatype Action =
    | Begin(t: nat, info: DeviceInfo)
    | ForwardPort(t: nat, result: Option<nat>)
    | StoreForward(t: nat)
    | StartWDA(t: nat, result: Option<nat>)                   // None also when it is not tried
    | StoreProcess(t: nat)
    | CreateSession(t: nat, session: Option<string>)          // None also when WDA is not alive
    | Commit(t: nat)
    | Disconnect

  predicate Unused(events: seq<Event>, r: Resource) {
    Opened(r) !in events && Closed(r) !in events
  }

  predicate Enabled(s: State, a: Action) {
    match a
    case Begin(t, _) => t !in s.conns
    case ForwardPort(t, result) =>
      t in s.conns && s.conns[t].Resolved? && (result.Some? ==> Unused(s.dev.events, Forward(result.value)))
    case StoreForward(t) => t in s.conns && s.conns[t].HasForward?
    case StartWDA(t, result) =>
      t in s.conns && s.conns[t].Forwarded? && (result.Some? ==> Unused(s.dev.events, Process(result.value)))
    case StoreProcess(t) => t in s.conns && s.conns[t].HasProcess?
    case CreateSession(t, result) =>
      && t in s.conns && s.conns[t].Probed? && GoodSession(result)
      && (result.Some? ==> Unused(s.dev.events, Session(result.value)))
    case Commit(t) => t in s.conns && s.conns[t].Ready?
    case Disconnect => true
  }

  function Acquire(dev: Device, r: Resource): Device {
    dev.(events := dev.events + [Opened(r)])
  }

  function Do(s: State, a: Action): State
    requires Enabled(s, a)
  {
    match a
    case Begin(t, info) => s.(conns := s.conns[t := Resolved(info)])
    case ForwardPort(t, None) => s.(conns := s.conns[t := Forwarded(s.conns[t].info)])
    case ForwardPort(t, Some(id)) => State(Acquire(s.dev, Forward(id)), s.conns[t := HasForward(s.conns[t].info, id)])
    case StoreForward(t) =>
      State(s.dev.(fields := s.dev.fields.(forwarder := Some(s.conns[t].id))), s.conns[t := Forwarded(s.conns[t].info)])
    case StartWDA(t, None) => s.(conns := s.conns[t := Probed(s.conns[t].info)])
    case StartWDA(t, Some(id)) => State(Acquire(s.dev, Process(id)), s.conns[t := HasProcess(s.conns[t].info, id)])
    case StoreProcess(t) =>
      State(s.dev.(fields := s.dev.fields.(process := Some(s.conns[t].id))), s.conns[t := Probed(s.conns[t].info)])
    case CreateSession(t, None) => s.(conns := s.conns[t := Ready(s.conns[t].info, None)])
    case CreateSession(t, Some(sid)) =>
      State(Acquire(s.dev, Session(sid)), s.conns[t := Ready(s.conns[t].info, Some(sid))])
    case Commit(t) =>
      State(s.dev.(fields := s.dev.fields.Committed(s.conns[t].info, s.conns[t].session)), s.conns - {t})
    case Disconnect => s.(dev := AfterDisconnect(Drivers(true, true, true), s.dev))
  }

  ghost predicate IsRun(states: seq<State>, actions: seq<Action>) {
    && |states| == |actions| + 1
    && states[0] == State(Device(NOTHING, []), map[])
    && forall i | 0 <= i < |actions| :: Enabled(states[i], actions[i]) && states[i + 1] == Do(states[i], actions[i])
  }

  // ---------------------------------------------------------------- the invariant

  /** What a Connect has acquired and not yet stored. */
  function InHand(c: Conn): Option<Resource> {
    match c
    case HasForward(_, id) => Some(Forward(id))
    case HasProcess(_, id) => Some(Process(id))
    case Ready(_, Some(sid)) => Some(Session(sid))
    case _ => None
  }

  /** Opened, not closed: free to be closed once. */
  predicate Live(events: seq<Event>, r: Resource) {
    Opened(r) in events && Closed(r) !in events
  }

  ghost predicate HandsOk(s: State) {
    && (forall t | t in s.conns && InHand(s.conns[t]).Some? ::
          var r := InHand(s.conns[t]).value;
          Live(s.dev.events, r) && r !in s.dev.fields.Held() && (r.Session? ==> r.sid != ""))
    && forall t, u | t in s.conns && u in s.conns && t != u && InHand(s.conns[t]).Some? ::
         InHand(s.conns[t]) != InHand(s.conns[u])
  }

  ghost predicate Inv(s: State) {
    && s.dev.fields.Consistent()
    && Tidy(s.dev.events)
    && (forall r | r in s.dev.fields.Held() :: Live(s.dev.events, r))
    && HandsOk(s)
  }

  /** The three ways a step treats resources: it acquires one, stores one, or closes what is held. */
  lemma AcquireKeeps(s: State, t: nat, r: Resource, c: Conn)
    requires Inv(s) && t in s.conns && InHand(s.conns[t]).None? && Unused(s.dev.events, r)
    requires InHand(c) == Some(r) && (r.Session? ==> r.sid != "")
    ensures Inv(State(Acquire(s.dev, r), s.conns[t := c]))
  {
    assert forall e :: e in s.dev.events + [Opened(r)] <==> e in s.dev.events || e == Opened(r);
  }

  lemma StoreKeeps(s: State, t: nat, fields: Fields, conns: map<nat, Conn>)
    requires Inv(s) && fields.Consistent() && t in s.conns
    requires forall r | r in fields.Held() :: r in s.dev.fields.Held() || InHand(s.conns[t]) == Some(r)
    requires conns.Keys <= s.conns.Keys
    requires forall u | u in conns :: if u == t then InHand(conns[u]).None? else conns[u] == s.conns[u]
    ensures Inv(State(s.dev.(fields := fields), conns))
  {}

  lemma DisconnectKeeps(s: State)
    requires Inv(s)
    ensures Inv(Do(s, Action.Disconnect))
  {
    if s.dev.fields.connected.Some? {
      var held, events := s.dev.fields.Held(), s.dev.events;
      HeldOnce(s.dev.fields);
      InAllClosed(held);
      assert forall e :: e in events + AllClosed(held) <==> e in events || e in AllClosed(held);
      forall r | r in held
        ensures Closed(r) !in events && Opened(r) in events
      {
        assert Live(events, r);
      }
    }
  }

  lemma InvPreserved(s: State, a: Action)
    requires Inv(s) && Enabled(s, a)
    ensures Inv(Do(s, a))
  {
    match a {
      case Begin(t, info) =>
      case ForwardPort(t, None) => StoreKeeps(s, t, s.dev.fields, Do(s, a).conns);
      case ForwardPort(t, Some(id)) => AcquireKeeps(s, t, Forward(id), HasForward(s.conns[t].info, id));
      case StoreForward(t) => FieldMembers(s, a, t);
      case StartWDA(t, None) => StoreKeeps(s, t, s.dev.fields, Do(s, a).conns);
      case StartWDA(t, Some(id)) => AcquireKeeps(s, t, Process(id), HasProcess(s.conns[t].info, id));
      case StoreProcess(t) => FieldMembers(s, a, t);
      case CreateSession(t, None) => StoreKeeps(s, t, s.dev.fields, Do(s, a).conns);
      case CreateSession(t, Some(sid)) => AcquireKeeps(s, t, Session(sid), Ready(s.conns[t].info, Some(sid)));
      case Commit(t) => FieldMembers(s, a, t);
      case Disconnect => DisconnectKeeps(s);
    }
  }

  lemma FieldMembers(s: State, a: Action, t: nat)
    requires Inv(s) && Enabled(s, a)
    requires a == StoreForward(t) || a == StoreProcess(t) || a == Commit(t)
    ensures Inv(Do(s, a))
  {
    var after := Do(s, a);
    forall r | r in after.dev.fields.Held()
      ensures r in s.dev.fields.Held() || InHand(s.conns[t]) == Some(r)
    {
      MembersOf(s.dev.fields, r);
      MembersOf(after.dev.fields, r);
    }
    StoreKeeps(s, t, after.dev.fields, after.conns);
  }

  lemma {:induction false} InvAlongRun(states: seq<State>, actions: seq<Action>, i: nat)
    requires IsRun(states, actions) && i <= |actions|
    ensures Inv(states[i])
  {
    if i > 0 {
      InvAlongRun(states, actions, i - 1);
      InvPreserved(states[i - 1], actions[i - 1]);
    }
  }

  // ---------------------------------------------------------------- what holds under any interleaving

  /** Readers always find the fields consistent. */
  lemma FieldsAlwaysConsistent(states: seq<State>, actions: seq<Action>, i: nat)
    requires IsRun(states, actions) && i <= |actions|
    ensures states[i].dev.fields.Consistent()
  {
    InvAlongRun(states, actions, i);
  }

  /** No closer is closed twice and no session deleted twice, nor anything before it was opened. */
  lemma NothingClosedTwice(states: seq<State>, actions: seq<Action>, i: nat)
    requires IsRun(states, actions) && i <= |actions|
    ensures forall j, k, r | 0 <= j < k < |states[i].dev.events| && states[i].dev.events[j] == Closed(r) ::
              states[i].dev.events[k] != Closed(r) && states[i].dev.events[k] != Opened(r)
  {
    InvAlongRun(states, actions, i);
    ClosedAfterOpened(states, actions, i);
  }

  ghost predicate InOrder(events: seq<Event>) {
    forall k | 0 <= k < |events| && events[k].Closed? :: Opened(events[k].r) in events[..k]
  }

  lemma {:induction false} ClosedAfterOpened(states: seq<State>, actions: seq<Action>, i: nat)
    requires IsRun(states, actions) && i <= |actions|
    ensures InOrder(states[i].dev.events)
  {
    if i > 0 {
      ClosedAfterOpened(states, actions, i - 1);
      InvAlongRun(states, actions, i - 1);
      OrderKept(states[i - 1], actions[i - 1]);
    }
  }

  lemma OrderKept(s: State, a: Action)
    requires Inv(s) && InOrder(s.dev.events) && Enabled(s, a)
    ensures InOrder(Do(s, a).dev.events)
  {
    var before, after := s.dev.events, Do(s, a).dev.events;
    assert before <= after;
    forall k | 0 <= k < |after| && after[k].Closed?
      ensures Opened(after[k].r) in after[..k]
    {
      if k < |before| {
        assert after[..k] == before[..k];
      } else {
        InAllClosed(s.dev.fields.Held());
        assert after[k] in AllClosed(s.dev.fields.Held());
        assert Live(before, after[k].r);
        assert before <= after[..k];
      }
    }
  }

  // ---------------------------------------------------------------- the account under any interleaving

  function Hand(c: Conn): set<Resource> {
    if InHand(c).Some? then {InHand(c).value} else {}
  }

  function Hands(conns: map<nat, Conn>): set<Resource> {
    set t, r | t in conns && r in Hand(conns[t]) :: r
  }

  /** What a store or a commit overwrites: no field and no Connect names it any more. */
  function Overwritten(s: State, a: Action): set<Resource> {
    var f := s.dev.fields;
    match a
    case StoreForward(_) => if f.forwarder.Some? then {Forward(f.forwarder.value)} else {}
    case StoreProcess(_) => if f.process.Some? then {Process(f.process.value)} else {}
    case Commit(_) => if f.sessionID != "" then {Session(f.sessionID)} else {}
    case _ => {}
  }

  /** All that was overwritten in the first n steps. */
  function Lost(states: seq<State>, actions: seq<Action>, n: nat): set<Resource>
    requires n <= |actions| <= |states|
  {
    if n == 0 then {} else Lost(states, actions, n - 1) + Overwritten(states[n - 1], actions[n - 1])
  }

  /** What is open is held, in a Connect's hand, or lost, and never two of these at once. */
  ghost predicate Settled(s: State, lost: set<Resource>) {
    && Open(s.dev.events) == Elements(s.dev.fields.Held()) + Hands(s.conns) + lost
    && lost !! Elements(s.dev.fields.Held()) + Hands(s.conns)
    && Elements(s.dev.fields.Held()) !! Hands(s.conns)
  }

  lemma HandsMoved(conns: map<nat, Conn>, t: nat, c: Conn)
    requires t in conns && forall u | u in conns && u != t :: Hand(conns[u]) !! Hand(conns[t])
    ensures Hands(conns[t := c]) == Hands(conns) - Hand(conns[t]) + Hand(c)
    ensures Hands(conns - {t}) == Hands(conns) - Hand(conns[t])
  {
    var moved, left := conns[t := c], conns - {t};
    forall r | r in Hands(conns) && r !in Hand(conns[t])
      ensures r in Hands(moved) && r in Hands(left)
    {
      var u :| u in conns && r in Hand(conns[u]);
      assert r in Hand(moved[u]) && r in Hand(left[u]);
    }
    forall r | r in Hand(c)
      ensures r in Hands(moved)
    {
      assert r in Hand(moved[t]);
    }
  }

  lemma HandsDiffer(s: State, t: nat)
    requires HandsOk(s) && t in s.conns
    ensures forall u | u in s.conns && u != t :: Hand(s.conns[u]) !! Hand(s.conns[t])
  {}

  lemma OpenOneMore(events: seq<Event>, r: Resource)
    requires Tidy(events) && Unused(events, r)
    ensures Open(events + [Opened(r)]) == Open(events) + {r} && r !in Open(events)
  {
    assert [Opened(r)] == AllOpened([r]) && Elements([r]) == {r};
    OpenMore(events, [r]);
  }

  lemma SettledAtAcquire(s: State, t: nat, r: Resource, c: Conn, lost: set<Resource>)
    requires Inv(s) && Settled(s, lost) && t in s.conns && InHand(s.conns[t]).None? && Unused(s.dev.events, r)
    requires InHand(c) == Some(r)
    ensures Settled(State(Acquire(s.dev, r), s.conns[t := c]), lost)
  {
    HandsDiffer(s, t);
    HandsMoved(s.conns, t, c);
    OpenOneMore(s.dev.events, r);
  }

  lemma SettledAtStore(s: State, t: nat, fields: Fields, conns: map<nat, Conn>, lost: set<Resource>,
                       over: set<Resource>)
    requires Settled(s, lost) && HandsOk(s) && t in s.conns
    requires Hands(conns) == Hands(s.conns) - Hand(s.conns[t])
    requires Elements(fields.Held()) == Elements(s.dev.fields.Held()) - over + Hand(s.conns[t])
    requires over <= Elements(s.dev.fields.Held())
    ensures Settled(State(s.dev.(fields := fields), conns), lost + over)
  {
    assert Hand(s.conns[t]) <= Hands(s.conns);
  }

  lemma SettledAtDisconnect(s: State, lost: set<Resource>)
    requires Inv(s) && Settled(s, lost)
    ensures Settled(Do(s, Action.Disconnect), lost)
  {
    if s.dev.fields.connected.Some? {
      var held, events := s.dev.fields.Held(), s.dev.events;
      InAllClosed(held);
      OpenAfterClosing(events, held);
    }
  }

  lemma OpenAfterClosing(events: seq<Event>, rs: seq<Resource>)
    ensures Open(events + AllClosed(rs)) == Open(events) - Elements(rs)
  {
    var after := events + AllClosed(rs);
    InAllClosed(rs);
    assert forall e :: e in after <==> e in events || e in AllClosed(rs);
    forall r | r in Open(events) && r !in rs
      ensures r in Open(after)
    {
      assert Opened(r) in after && Closed(r) !in after;
    }
    forall r | r in Open(after)
      ensures r in Open(events) && r !in rs
    {
      assert Opened(r) in events && Closed(r) !in events;
      assert Closed(r) !in AllClosed(rs);
    }
  }

  lemma FieldsStored(s: State, a: Action, t: nat)
    requires HandsOk(s) && Enabled(s, a) && (a == StoreForward(t) || a == StoreProcess(t) || a == Commit(t))
    ensures var held, over := Elements(s.dev.fields.Held()), Overwritten(s, a);
            Elements(Do(s, a).dev.fields.Held()) == held - over + Hand(s.conns[t]) && over <= held
  {
    forall r: Resource
      ensures r in Do(s, a).dev.fields.Held() <==>
                (r in s.dev.fields.Held() && r !in Overwritten(s, a)) || r in Hand(s.conns[t])
    {
      MembersOf(s.dev.fields, r);
      MembersOf(Do(s, a).dev.fields, r);
    }
  }

  lemma SettledAtStep(s: State, a: Action, lost: set<Resource>)
    requires Inv(s) && Settled(s, lost) && Enabled(s, a)
    ensures Settled(Do(s, a), lost + Overwritten(s, a))
  {
    match a {
      case Begin(t, info) => SettledAtBegin(s, t, info, lost);
      case ForwardPort(t, Some(id)) => SettledAtAcquire(s, t, Forward(id), HasForward(s.conns[t].info, id), lost);
      case StartWDA(t, Some(id)) => SettledAtAcquire(s, t, Process(id), HasProcess(s.conns[t].info, id), lost);
      case CreateSession(t, Some(sid)) =>
        SettledAtAcquire(s, t, Session(sid), Ready(s.conns[t].info, Some(sid)), lost);
      case Disconnect => SettledAtDisconnect(s, lost);
      case ForwardPort(t, None) => SettledAtFailure(s, t, Forwarded(s.conns[t].info), lost);
      case StartWDA(t, None) => SettledAtFailure(s, t, Probed(s.conns[t].info), lost);
      case CreateSession(t, None) => SettledAtFailure(s, t, Ready(s.conns[t].info, None), lost);
      case StoreForward(t) => SettledAtFields(s, a, t, Forwarded(s.conns[t].info), lost);
      case StoreProcess(t) => SettledAtFields(s, a, t, Probed(s.conns[t].info), lost);
      case Commit(t) => SettledAtFields(s, a, t, Probed(s.conns[t].info), lost);
    }
  }

  lemma SettledAtBegin(s: State, t: nat, info: DeviceInfo, lost: set<Resource>)
    requires Settled(s, lost) && t !in s.conns
    ensures Settled(s.(conns := s.conns[t := Resolved(info)]), lost)
  {
    var conns := s.conns[t := Resolved(info)];
    forall r | r in Hands(s.conns)
      ensures r in Hands(conns)
    {
      var u :| u in s.conns && r in Hand(s.conns[u]);
      assert r in Hand(conns[u]);
    }
    assert Hands(conns) == Hands(s.conns);
  }

  lemma SettledAtFailure(s: State, t: nat, c: Conn, lost: set<Resource>)
    requires Settled(s, lost) && HandsOk(s) && t in s.conns && Hand(s.conns[t]) == Hand(c) == {}
    ensures Settled(s.(conns := s.conns[t := c]), lost)
  {
    HandsMoved(s.conns, t, c);
  }

  lemma SettledAtFields(s: State, a: Action, t: nat, c: Conn, lost: set<Resource>)
    requires Inv(s) && Settled(s, lost) && Enabled(s, a) && InHand(c).None?
    requires a == StoreForward(t) || a == StoreProcess(t) || a == Commit(t)
    requires Do(s, a).conns == (if a.Commit? then s.conns - {t} else s.conns[t := c])
    ensures Settled(Do(s, a), lost + Overwritten(s, a))
  {
    HandsDiffer(s, t);
    HandsMoved(s.conns, t, c);
    FieldsStored(s, a, t);
    SettledAtStore(s, t, Do(s, a).dev.fields, Do(s, a).conns, lost, Overwritten(s, a));
  }

  /** Under any interleaving: what is open is exactly what is held, in some Connect's hand, or was overwritten. */
  lemma {:induction false} OpenIsHeldOrLost(states: seq<State>, actions: seq<Action>, i: nat)
    requires IsRun(states, actions) && i <= |actions|
    ensures Settled(states[i], Lost(states, actions, i))
  {
    if i > 0 {
      OpenIsHeldOrLost(states, actions, i - 1);
      InvAlongRun(states, actions, i - 1);
      SettledAtStep(states[i - 1], actions[i - 1], Lost(states, actions, i - 1));
    }
  }

  // ---------------------------------------------------------------- the step relation and the object agree

  /** Up to the commit: the steps of one Connect in a row, given what its driver calls return. */
  function BeforeCommit(s: State, t: nat, info: DeviceInfo, fwd: Option<nat>, proc: Option<nat>,
                        session: Option<string>): (r: State)
    requires t !in s.conns && GoodSession(session)
    requires fwd.Some? ==> Unused(s.dev.events, Forward(fwd.value))
    requires proc.Some? ==> Unused(s.dev.events, Process(proc.value))
    requires session.Some? ==> Unused(s.dev.events, Session(session.value))
    ensures r.conns == s.conns[t := Ready(info, session)]
  {
    var s1 := Do(s, Begin(t, info));
    var s2 := Do(s1, ForwardPort(t, fwd));
    var s3 := if fwd.Some? then Do(s2, StoreForward(t)) else s2;
    var s4 := Do(s3, StartWDA(t, proc));
    var s5 := if proc.Some? then Do(s4, StoreProcess(t)) else s4;
    Do(s5, CreateSession(t, session))
  }

  /** A Connect that nothing interrupts does what DeviceManager.Connect does. */
  lemma UninterruptedConnect(s: State, t: nat, d: Drivers, udid: string, a: Answers)
    requires t !in s.conns && Target(udid, a).Some? && GoodAnswers(d, s.dev.events, a)
    ensures (NewForward(d, a).Some? ==> Unused(s.dev.events, Forward(NewForward(d, a).value)))
         && (NewProcess(d, a).Some? ==> Unused(s.dev.events, Process(NewProcess(d, a).value)))
         && (NewSession(d, a).Some? ==> Unused(s.dev.events, Session(NewSession(d, a).value)))
    ensures var r := BeforeCommit(s, t, Target(udid, a).value, NewForward(d, a), NewProcess(d, a), NewSession(d, a));
            Do(r, Commit(t)) == State(AfterConnect(d, s.dev, udid, a), s.conns)
  {
    var info, fwd, proc, session := Target(udid, a).value, NewForward(d, a), NewProcess(d, a), NewSession(d, a);
    AllMembers(d, a);
    var r := BeforeCommit(s, t, info, fwd, proc, session);
    EventsOf(s, t, info, fwd, proc, session);
    assert AllOpened(Acquired(d, a)) ==
      (if fwd.Some? then [Opened(Forward(fwd.value))] else [])
      + (if proc.Some? then [Opened(Process(proc.value))] else [])
      + (if session.Some? then [Opened(Session(session.value))] else []);
    assert r.conns - {t} == s.conns;
  }

  lemma EventsOf(s: State, t: nat, info: DeviceInfo, fwd: Option<nat>, proc: Option<nat>, session: Option<string>)
    requires t !in s.conns && GoodSession(session)
    requires fwd.Some? ==> Unused(s.dev.events, Forward(fwd.value))
    requires proc.Some? ==> Unused(s.dev.events, Process(proc.value))
    requires session.Some? ==> Unused(s.dev.events, Session(session.value))
    ensures BeforeCommit(s, t, info, fwd, proc, session).dev == Device(
              s.dev.fields.(forwarder := if fwd.Some? then fwd else s.dev.fields.forwarder,
                            process := if proc.Some? then proc else s.dev.fields.process),
              s.dev.events + ((if fwd.Some? then [Opened(Forward(fwd.value))] else [])
                              + (if proc.Some? then [Opened(Process(proc.value))] else [])
                              + (if session.Some? then [Opened(Session(session.value))] else [])))
  {}

  lemma AllMembers(d: Drivers, a: Answers)
    ensures NewForward(d, a).Some? ==> Forward(NewForward(d, a).value) in Acquired(d, a)
    ensures NewProcess(d, a).Some? ==> Process(NewProcess(d, a).value) in Acquired(d, a)
    ensures NewSession(d, a).Some? ==> Session(NewSession(d, a).value) in Acquired(d, a)
  {
    if NewForward(d, a).Some? {
      MembersOfAcquired(d, a, Forward(NewForward(d, a).value));
    }
    if NewProcess(d, a).Some? {
      MembersOfAcquired(d, a, Process(NewProcess(d, a).value));
    }
    if NewSession(d, a).Some? {
      MembersOfAcquired(d, a, Session(NewSession(d, a).value));
    }
  }
}
