/** What sequential requests leave open: every acquisition is held in a field until it is released, once. */
module DeviceAccounting {
  import opened Options
  import opened DeviceManagers

  /** Opened and not yet closed. */
  function Open(events: seq<Event>): set<Resource> {
    set e | e in events && e.Opened? && Closed(e.r) !in events :: e.r
  }

  function Elements(rs: seq<Resource>): set<Resource> {
    set r | r in rs
  }

  ghost predicate NoRepeats<T>(s: seq<T>) {
    forall i, j | 0 <= i < j < |s| :: s[i] != s[j]
  }

  /** The drivers' contracts: names not given out before, and session ids that are not empty. */
  ghost predicate GoodAnswers(d: Drivers, events: seq<Event>, a: Answers) {
    && GoodSession(a.session)
    && forall r | r in Acquired(d, a) :: Opened(r) !in events && Closed(r) !in events
  }

  /** Nothing was opened or closed twice, or closed before it was opened. */
  ghost predicate Tidy(events: seq<Event>) {
    && NoRepeats(events)
    && forall r | Closed(r) in events :: Opened(r) in events
  }

  /** Exactly what the fields hold is open, and nothing is held while disconnected. */
  ghost predicate Accounted(d: Drivers, dev: Device) {
    && Tidy(dev.events)
    && Open(dev.events) == Elements(dev.fields.Held())
    && dev.fields.Consistent()
    && (dev.fields.connected.None? ==> dev.fields.Held() == [])
    && (!d.wda ==> dev.fields.sessionID == "")
  }

  lemma HeldOnce(f: Fields)
    ensures NoRepeats(f.Held())
  {}

  lemma AcquiredOnce(d: Drivers, a: Answers)
    ensures NoRepeats(Acquired(d, a))
  {}

  lemma OpenMore(events: seq<Event>, rs: seq<Resource>)
    requires Tidy(events) && NoRepeats(rs)
    requires forall r | r in rs :: Opened(r) !in events && Closed(r) !in events
    ensures Tidy(events + AllOpened(rs)) && Open(events + AllOpened(rs)) == Open(events) + Elements(rs)
  {
    var after := events + AllOpened(rs);
    InAllOpened(rs);
    assert forall e :: e in after <==> e in events || e in AllOpened(rs);
    forall r | r in Open(after)
      ensures r in Open(events) + Elements(rs)
    {
      assert Opened(r) in events || Opened(r) in AllOpened(rs);
    }
    forall r | r in Open(events) + Elements(rs)
      ensures r in Open(after)
    {
      assert Opened(r) in after && Closed(r) !in after;
    }
  }

  lemma InAllOpened(rs: seq<Resource>)
    ensures forall e :: e in AllOpened(rs) <==> e.Opened? && e.r in rs
    ensures NoRepeats(rs) ==> NoRepeats(AllOpened(rs))
  {
    forall r | r in rs
      ensures Opened(r) in AllOpened(rs)
    {
      var k :| 0 <= k < |rs| && rs[k] == r;
      assert AllOpened(rs)[k] == Opened(r);
    }
  }

  lemma InAllClosed(rs: seq<Resource>)
    ensures forall e :: e in AllClosed(rs) <==> e.Closed? && e.r in rs
    ensures NoRepeats(rs) ==> NoRepeats(AllClosed(rs))
  {
    forall r | r in rs
      ensures Closed(r) in AllClosed(rs)
    {
      var k :| 0 <= k < |rs| && rs[k] == r;
      assert AllClosed(rs)[|rs| - 1 - k] == Closed(r);
    }
  }

  lemma CloseAll(events: seq<Event>, rs: seq<Resource>)
    requires Tidy(events) && NoRepeats(rs) && Open(events) == Elements(rs)
    ensures Tidy(events + AllClosed(rs)) && Open(events + AllClosed(rs)) == {}
  {
    var after := events + AllClosed(rs);
    InAllClosed(rs);
    assert forall e :: e in after <==> e in events || e in AllClosed(rs);
    forall r | r in rs
      ensures Closed(r) !in events && Opened(r) in events
    {
      assert r in Elements(rs);
      assert r in Open(events);
    }
    forall r | Opened(r) in after
      ensures Closed(r) in after
    {
      if Closed(r) !in events {
        assert r in Open(events);
        assert r in Elements(rs);
      }
    }
  }

  // ---------------------------------------------------------------- single requests

  lemma HeldAfterConnect(d: Drivers, dev: Device, udid: string, a: Answers)
    requires GoodSession(a.session) && Target(udid, a).Some? && dev.fields.Held() == []
    ensures AfterConnect(d, dev, udid, a).fields.Held() == Acquired(d, a)
  {
    assert dev.fields.forwarder.None? && dev.fields.process.None? && dev.fields.sessionID == "" by {
      assert |dev.fields.Held()| == 0;
    }
  }

  lemma ConnectAccounted(d: Drivers, dev: Device, udid: string, a: Answers)
    requires Accounted(d, dev) && dev.fields.connected.None? && GoodAnswers(d, dev.events, a)
    ensures Accounted(d, AfterConnect(d, dev, udid, a))
  {
    if Target(udid, a).Some? {
      HeldAfterConnect(d, dev, udid, a);
      AcquiredOnce(d, a);
      OpenMore(dev.events, Acquired(d, a));
    }
  }

  lemma DisconnectAccounted(d: Drivers, dev: Device)
    requires Accounted(d, dev)
    ensures Accounted(d, AfterDisconnect(d, dev)) && AfterDisconnect(d, dev).fields.Held() == []
    ensures Open(AfterDisconnect(d, dev).events) == {}
  {
    if dev.fields.connected.Some? {
      HeldOnce(dev.fields);
      assert d.wda || dev.fields.(sessionID := "") == dev.fields;
      CloseAll(dev.events, dev.fields.Held());
    }
  }

  lemma ReleasedEvents(d: Drivers, dev: Device, udid: string, a: Answers)
    requires Accounted(d, dev) && dev.fields.connected.None? && GoodAnswers(d, dev.events, a)
    requires Target(udid, a).Some?
    ensures AfterDisconnect(d, AfterConnect(d, dev, udid, a))
         == Device(NOTHING, dev.events + AllOpened(Acquired(d, a)) + AllClosed(Acquired(d, a)))
  {
    HeldAfterConnect(d, dev, udid, a);
    var f := AfterConnect(d, dev, udid, a).fields;
    assert d.wda || f.(sessionID := "") == f;
  }

  /** After `before` come the openings of rs, first to last, and then their closings, last to first. */
  ghost predicate InAndOut(before: seq<Event>, rs: seq<Resource>, events: seq<Event>) {
    var n := |before|;
    && |events| == n + 2 * |rs| && before <= events
    && forall i | 0 <= i < |rs| ::
         events[n + i] == Opened(rs[i]) && events[n + 2 * |rs| - 1 - i] == Closed(rs[i])
  }

  lemma OpenedThenClosed(before: seq<Event>, rs: seq<Resource>)
    ensures InAndOut(before, rs, before + AllOpened(rs) + AllClosed(rs))
  {}

  /** Connecting and disconnecting releases what was acquired, each once, last acquired first. */
  lemma ReleasedInReverse(d: Drivers, dev: Device, udid: string, a: Answers)
    requires Accounted(d, dev) && dev.fields.connected.None? && GoodAnswers(d, dev.events, a)
    requires Target(udid, a).Some?
    ensures var after := AfterDisconnect(d, AfterConnect(d, dev, udid, a));
            after.fields == NOTHING && InAndOut(dev.events, Acquired(d, a), after.events)
  {
    ReleasedEvents(d, dev, udid, a);
    OpenedThenClosed(dev.events, Acquired(d, a));
  }

  /** The Connect stores over something it would have to release. */
  predicate Overwrites(d: Drivers, f: Fields, a: Answers) {
    || (f.forwarder.Some? && NewForward(d, a).Some?)
    || (f.process.Some? && NewProcess(d, a).Some?)
    || f.sessionID != ""
  }

  /** A Connect over a live connection keeps the account straight exactly when it overwrites nothing. */
  lemma ReconnectLeaksExactly(d: Drivers, dev: Device, udid: string, a: Answers)
    requires Accounted(d, dev) && GoodAnswers(d, dev.events, a) && Target(udid, a).Some?
    ensures var after := AfterConnect(d, dev, udid, a);
            Open(after.events) == Elements(after.fields.Held()) <==> !Overwrites(d, dev.fields, a)
  {
    var after := AfterConnect(d, dev, udid, a);
    AcquiredOnce(d, a);
    OpenMore(dev.events, Acquired(d, a));
    NewNamesDiffer(d, dev, a);
    if Overwrites(d, dev.fields, a) {
      var r := LostWhenOverwritten(d, dev, udid, a);
      assert r in Open(after.events) && r !in Elements(after.fields.Held());
    } else {
      KeptWhenNothingOverwritten(d, dev, udid, a);
    }
  }

  lemma LostWhenOverwritten(d: Drivers, dev: Device, udid: string, a: Answers) returns (r: Resource)
    requires Overwrites(d, dev.fields, a) && Target(udid, a).Some?
    requires forall x | x in dev.fields.Held() :: x !in Acquired(d, a)
    ensures r in Elements(dev.fields.Held()) && r !in AfterConnect(d, dev, udid, a).fields.Held()
  {
    var f := dev.fields;
    r := if f.forwarder.Some? && NewForward(d, a).Some? then Forward(f.forwarder.value)
         else if f.process.Some? && NewProcess(d, a).Some? then Process(f.process.value)
         else Session(f.sessionID);
    MembersOf(f, r);
    MembersOfAcquired(d, a, r);
    MembersOf(AfterConnect(d, dev, udid, a).fields, r);
  }

  lemma KeptWhenNothingOverwritten(d: Drivers, dev: Device, udid: string, a: Answers)
    requires !Overwrites(d, dev.fields, a) && Target(udid, a).Some? && GoodSession(a.session)
    ensures Elements(AfterConnect(d, dev, udid, a).fields.Held())
         == Elements(dev.fields.Held()) + Elements(Acquired(d, a))
  {
    forall r
      ensures r in dev.fields.Held() || r in Acquired(d, a) <==> r in AfterConnect(d, dev, udid, a).fields.Held()
    {
      MembersOf(dev.fields, r);
      MembersOf(AfterConnect(d, dev, udid, a).fields, r);
      MembersOfAcquired(d, a, r);
    }
  }

  lemma MembersOf(f: Fields, r: Resource)
    ensures r in f.Held() <==>
              (r.Forward? && f.forwarder == Some(r.id)) || (r.Process? && f.process == Some(r.id))
              || (r.Session? && f.sessionID == r.sid && r.sid != "")
  {}

  lemma MembersOfAcquired(d: Drivers, a: Answers, r: Resource)
    ensures r in Acquired(d, a) <==>
              (r.Forward? && NewForward(d, a) == Some(r.id)) || (r.Process? && NewProcess(d, a) == Some(r.id))
              || (r.Session? && NewSession(d, a) == Some(r.sid))
  {}

  lemma NewNamesDiffer(d: Drivers, dev: Device, a: Answers)
    requires Accounted(d, dev) && GoodAnswers(d, dev.events, a)
    ensures forall r | r in dev.fields.Held() :: r !in Acquired(d, a)
  {
    forall r | r in dev.fields.Held()
      ensures r !in Acquired(d, a)
    {
      assert r in Elements(dev.fields.Held());
      assert r in Open(dev.events);
    }
  }

  // ---------------------------------------------------------------- runs of requests

  /** device.connect, device.disconnect and wda.restart as the handlers run them. */
  datatype Request = Connect(udid: string, a: Answers) | Disconnect | Restart(a: Answers)

  function After(d: Drivers, dev: Device, q: Request): Device {
    match q
    case Connect(udid, a) => AfterConnect(d, dev, udid, a)
    case Disconnect => AfterDisconnect(d, dev)
    case Restart(a) =>
      if dev.fields.connected.None? then dev
      else AfterConnect(d, AfterDisconnect(d, dev), dev.fields.connected.value.udid, a)
  }

  function AfterAll(d: Drivers, dev: Device, qs: seq<Request>): Device {
    if qs == [] then dev else After(d, AfterAll(d, dev, qs[..|qs| - 1]), qs[|qs| - 1])
  }

  const START := Device(NOTHING, [])

  /** Each Connect starts disconnected; a restart disconnects for itself. Drivers keep their contracts. */
  ghost predicate Orderly(d: Drivers, dev: Device, qs: seq<Request>) {
    qs == [] ||
    var before, q := AfterAll(d, dev, qs[..|qs| - 1]), qs[|qs| - 1];
    && Orderly(d, dev, qs[..|qs| - 1])
    && (q.Connect? ==> before.fields.connected.None? && GoodAnswers(d, before.events, q.a))
    && (q.Restart? ==> GoodAnswers(d, AfterDisconnect(d, before).events, q.a))
  }

  /** After every orderly run, under every mix of failures, the open resources are those in the fields. */
  lemma {:induction false} OrderlyRunsAccount(d: Drivers, qs: seq<Request>)
    requires Orderly(d, START, qs)
    ensures Accounted(d, AfterAll(d, START, qs))
  {
    if qs != [] {
      var before := AfterAll(d, START, qs[..|qs| - 1]);
      OrderlyRunsAccount(d, qs[..|qs| - 1]);
      match qs[|qs| - 1] {
        case Connect(udid, a) =>
          ConnectAccounted(d, before, udid, a);
        case Disconnect =>
          DisconnectAccounted(d, before);
        case Restart(a) =>
          if before.fields.connected.Some? {
            DisconnectAccounted(d, before);
            ConnectAccounted(d, AfterDisconnect(d, before), before.fields.connected.value.udid, a);
          }
      }
    }
  }

  /** The request is a Connect that gets as far as storing over what is held. */
  predicate Leaks(d: Drivers, before: Device, q: Request) {
    q.Connect? && Target(q.udid, q.a).Some? && Overwrites(d, before.fields, q.a)
  }

  ghost predicate GoodRequest(d: Drivers, before: Device, q: Request) {
    && (q.Connect? ==> GoodAnswers(d, before.events, q.a))
    && (q.Restart? ==> GoodAnswers(d, AfterDisconnect(d, before).events, q.a))
  }

  /** Drivers keep their contracts. */
  ghost predicate GoodRun(d: Drivers, qs: seq<Request>) {
    forall n | 0 <= n < |qs| :: GoodRequest(d, AfterAll(d, START, qs[..n]), qs[n])
  }

  lemma ConnectKeepsConsistent(d: Drivers, dev: Device, udid: string, a: Answers)
    requires Accounted(d, dev) && GoodAnswers(d, dev.events, a) && Target(udid, a).Some?
    ensures var after := AfterConnect(d, dev, udid, a);
            && Tidy(after.events) && after.fields.Consistent() && after.fields.connected.Some?
            && (!d.wda ==> after.fields.sessionID == "")
  {
    AcquiredOnce(d, a);
    OpenMore(dev.events, Acquired(d, a));
  }

  /** One request keeps the account exactly when it does not leak. */
  lemma RequestAccountsExactly(d: Drivers, dev: Device, q: Request)
    requires Accounted(d, dev) && GoodRequest(d, dev, q)
    ensures Accounted(d, After(d, dev, q)) <==> !Leaks(d, dev, q)
  {
    match q {
      case Connect(udid, a) =>
        if Target(udid, a).Some? {
          ConnectKeepsConsistent(d, dev, udid, a);
          ReconnectLeaksExactly(d, dev, udid, a);
        }
      case Disconnect =>
        DisconnectAccounted(d, dev);
      case Restart(a) =>
        if dev.fields.connected.Some? {
          DisconnectAccounted(d, dev);
          ConnectAccounted(d, AfterDisconnect(d, dev), dev.fields.connected.value.udid, a);
        }
    }
  }

  lemma AfterNext(d: Drivers, qs: seq<Request>, n: nat)
    requires n < |qs|
    ensures AfterAll(d, START, qs[..n + 1]) == After(d, AfterAll(d, START, qs[..n]), qs[n])
  {
    assert qs[..n + 1][..n] == qs[..n];
  }

  ghost predicate AccountedAt(d: Drivers, qs: seq<Request>, n: nat)
    requires n <= |qs|
  {
    Accounted(d, AfterAll(d, START, qs[..n]))
  }

  ghost predicate LeaksAt(d: Drivers, qs: seq<Request>, n: nat)
    requires n < |qs|
  {
    Leaks(d, AfterAll(d, START, qs[..n]), qs[n])
  }

  /** Over every run: the account is right after each request exactly when no Connect stores over what is held. */
  lemma RunsAccountExactly(d: Drivers, qs: seq<Request>)
    requires GoodRun(d, qs)
    ensures (forall n | 0 <= n <= |qs| :: AccountedAt(d, qs, n)) <==> forall n | 0 <= n < |qs| :: !LeaksAt(d, qs, n)
  {
    if forall n | 0 <= n < |qs| :: !LeaksAt(d, qs, n) {
      forall n | 0 <= n <= |qs|
        ensures AccountedAt(d, qs, n)
      {
        AccountedSoFar(d, qs, n);
      }
    }
    if forall n | 0 <= n <= |qs| :: AccountedAt(d, qs, n) {
      forall n | 0 <= n < |qs|
        ensures !LeaksAt(d, qs, n)
      {
        assert AccountedAt(d, qs, n) && AccountedAt(d, qs, n + 1);
        AfterNext(d, qs, n);
        RequestAccountsExactly(d, AfterAll(d, START, qs[..n]), qs[n]);
      }
    }
  }

  lemma {:induction false} AccountedSoFar(d: Drivers, qs: seq<Request>, n: nat)
    requires GoodRun(d, qs) && n <= |qs| && forall k | 0 <= k < |qs| :: !LeaksAt(d, qs, k)
    ensures AccountedAt(d, qs, n)
  {
    if n > 0 {
      AccountedSoFar(d, qs, n - 1);
      AfterNext(d, qs, n - 1);
      assert !LeaksAt(d, qs, n - 1);
      RequestAccountsExactly(d, AfterAll(d, START, qs[..n - 1]), qs[n - 1]);
    } else {
      assert qs[..0] == [];
    }
  }

  /**
   A restart closes all that was held and connects the same udid again; if the device is not
   found any more it leaves the manager disconnected, and while disconnected it does nothing.
   */
  lemma RestartsExactly(d: Drivers, dev: Device, a: Answers)
    requires Accounted(d, dev)
    ensures var after := After(d, dev, Restart(a));
            match dev.fields.connected
            case None => after == dev
            case Some(info) =>
              && (info.udid != "" ==>
                    after.fields.connected == if info.udid in a.found then Some(a.found[info.udid]) else None)
              && (forall r | r in dev.fields.Held() :: Closed(r) in after.events)
              && (after.fields.connected.None? ==> after.fields == NOTHING)
  {
    if dev.fields.connected.Some? {
      InAllClosed(dev.fields.Held());
      assert d.wda || dev.fields.(sessionID := "") == dev.fields;
      assert AfterDisconnect(d, dev).events <= After(d, dev, Restart(a)).events;
    }
  }

  // ---------------------------------------------------------------- a run that leaks

  const FULL := Drivers(true, true, true)

  function PhoneAnswers(info: DeviceInfo, id: nat): Answers {
    Answers(Some([info]), map[info.udid := info], Some(id), false, Some(id), true, None)
  }

  lemma PhoneConnects(dev: Device, info: DeviceInfo, id: nat)
    requires dev.fields.sessionID == ""
    ensures var after := AfterConnect(FULL, dev, info.udid, PhoneAnswers(info, id));
            && after.events == dev.events + [Opened(Forward(id)), Opened(Process(id))]
            && after.fields == Fields(Some(info), "", WDA_URL, "degraded", Some(id), Some(id))
    ensures Acquired(FULL, PhoneAnswers(info, id)) == [Forward(id), Process(id)]
    ensures Target(info.udid, PhoneAnswers(info, id)) == Some(info)
  {
    assert AllOpened([Forward(id), Process(id)]) == [Opened(Forward(id)), Opened(Process(id))];
  }

  /** device.connect twice to the same device: the first port forward and WDA process stay open, held by nobody. */
  lemma ConnectTwiceLeaks(info: DeviceInfo, i: nat, j: nat) returns (qs: seq<Request>)
    requires i != j
    ensures qs == [Connect(info.udid, PhoneAnswers(info, i)), Connect(info.udid, PhoneAnswers(info, j))]
    ensures GoodRun(FULL, qs)
    ensures var after := AfterAll(FULL, START, qs);
            && Open(after.events) == {Forward(i), Process(i), Forward(j), Process(j)}
            && Elements(after.fields.Held()) == {Forward(j), Process(j)}
  {
    qs := [Connect(info.udid, PhoneAnswers(info, i)), Connect(info.udid, PhoneAnswers(info, j))];
    TwoPhones(info, i, j);
    PhoneAnswersWell([], info, i);
    PhoneAnswersWell([Opened(Forward(i)), Opened(Process(i))], info, j);
    TwoRequests(FULL, qs[0], qs[1]);
    FourOpen(AfterAll(FULL, START, qs).events, i, j);
  }

  lemma TwoPhones(info: DeviceInfo, i: nat, j: nat)
    ensures var one := After(FULL, START, Connect(info.udid, PhoneAnswers(info, i)));
            var two := After(FULL, one, Connect(info.udid, PhoneAnswers(info, j)));
            && one.events == [Opened(Forward(i)), Opened(Process(i))]
            && two.events == one.events + [Opened(Forward(j)), Opened(Process(j))]
            && two.fields.Held() == [Forward(j), Process(j)]
  {
    PhoneConnects(START, info, i);
    PhoneConnects(After(FULL, START, Connect(info.udid, PhoneAnswers(info, i))), info, j);
  }

  lemma PhoneAnswersWell(events: seq<Event>, info: DeviceInfo, id: nat)
    requires forall e | e in events :: e.r != Forward(id) && e.r != Process(id)
    ensures GoodAnswers(FULL, events, PhoneAnswers(info, id))
  {
    PhoneConnects(START, info, id);
  }

  lemma TwoRequests(d: Drivers, q1: Request, q2: Request)
    ensures AfterAll(d, START, [q1, q2]) == After(d, After(d, START, q1), q2)
    ensures GoodRequest(d, START, q1) && GoodRequest(d, After(d, START, q1), q2) ==> GoodRun(d, [q1, q2])
  {
    var qs := [q1, q2];
    assert qs[..0] == [] && qs[..1] == [q1] && qs[..2] == qs;
    AfterNext(d, qs, 0);
    AfterNext(d, qs, 1);
  }

  lemma FourOpen(events: seq<Event>, i: nat, j: nat)
    requires events == [Opened(Forward(i)), Opened(Process(i)), Opened(Forward(j)), Opened(Process(j))]
    ensures Open(events) == {Forward(i), Process(i), Forward(j), Process(j)}
  {
    assert events[0] in events && events[1] in events && events[2] in events && events[3] in events;
  }
}
