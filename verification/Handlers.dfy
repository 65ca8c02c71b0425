/**
 The request handlers of internal/daemon/state.go that tie the device to the log capture, for
 requests handled one after another.
 */
module Handlers {
  import opened Options
  import opened LogManagers
  import opened DeviceManagers
  import opened DeviceAccounting

  /** The device's and the log capture's locked state; C names subscriber channels. */
  datatype Daemon<C> = Daemon(dev: Device, log: Control<C>)

  /** One request on both managers. */
  function Handle<C>(d: Drivers, s: Daemon<C>, q: Request): Daemon<C> {
    Daemon(
      After(d, s.dev, q),
      match q
      case Connect(udid, a) => if Target(udid, a).Some? then s.log.Started(Target(udid, a).value.udid) else s.log
      case Disconnect => s.log.Stopped()
      case Restart(_) => s.log)
  }

  class State {
    const deviceManager: DeviceManager
    const logManager: LogManager

    ghost function Now(): Daemon<Chan>
      requires logManager.length <= logManager.slots.Length
      reads deviceManager, logManager, logManager.slots
    {
      Daemon(deviceManager.Now(), logManager.View())
    }

    constructor (deviceManager: DeviceManager, logManager: LogManager)
      ensures this.deviceManager == deviceManager && this.logManager == logManager
    {
      this.deviceManager, this.logManager := deviceManager, logManager;
    }

    method HandleDeviceConnect(udid: string, a: Answers) returns (reply: Option<DeviceStatus>)
      requires logManager.Valid()
      modifies deviceManager, logManager`running, logManager`udid, logManager`cancelled
      ensures logManager.Valid() && Now() == Handle(deviceManager.drivers, old(Now()), Connect(udid, a))
      ensures reply.Some? <==> Target(udid, a).Some?
    {
      reply := deviceManager.Connect(udid, a);
      if reply.None? {
        return;
      }
      if reply.value.connected {
        logManager.Start(reply.value.udid);
      }
    }

    method HandleDeviceDisconnect()
      requires logManager.Valid()
      modifies deviceManager, logManager`running, logManager`cancelled
      ensures logManager.Valid() && Now() == Handle(deviceManager.drivers, old(Now()), Request.Disconnect)
    {
      logManager.Stop();
      deviceManager.Disconnect();
    }

    method HandleWDARestart(a: Answers) returns (reply: Option<DeviceStatus>)
      requires logManager.Valid()
      modifies deviceManager
      ensures logManager.Valid() && Now() == Handle(deviceManager.drivers, old(Now()), Restart(a))
      ensures var before := old(deviceManager.connected);
              reply.Some? <==> before.Some? && Target(before.value.udid, a).Some?
    {
      if deviceManager.connected.None? {
        return None;
      }
      var udid := deviceManager.connected.value.udid;
      deviceManager.Disconnect();
      reply := deviceManager.Connect(udid, a);
    }

    /** The log request cannot ask for everything: a count of 0 or less means 50. */
    method HandleLog(n: int, filter: LogFilter) returns (entries: seq<LogEntry>)
      requires logManager.buffer.Valid()
      ensures entries == LogView(logManager.buffer.history, logManager.buffer.size, if n <= 0 then 50 else n, filter)
      ensures forall e | e in entries :: e in logManager.buffer.history && Wanted(e, filter)
    {
      var count := n;
      if count <= 0 {
        count := 50;
      }
      entries := logManager.GetLogs(count, filter);
    }
  }

  // ---------------------------------------------------------------- runs of requests

  function HandleAll<C>(d: Drivers, s: Daemon<C>, qs: seq<Request>): Daemon<C> {
    if qs == [] then s else Handle(d, HandleAll(d, s, qs[..|qs| - 1]), qs[|qs| - 1])
  }

  function Fresh<C>(): Daemon<C> {
    Daemon(Device(NOTHING, []), Control(false, "", [], []))
  }

  /** The CreateSession contract, for every request. */
  ghost predicate GoodSessions(qs: seq<Request>) {
    forall q | q in qs && !q.Disconnect? :: GoodSession(q.a.session)
  }

  /** While a device is connected, the log is being captured, and every field fits the others. */
  lemma {:induction false} ConnectedImpliesCapture<C>(d: Drivers, qs: seq<Request>)
    requires GoodSessions(qs)
    ensures var s: Daemon<C> := HandleAll(d, Fresh(), qs);
            && (s.dev.fields.connected.Some? ==> s.log.running)
            && s.dev.fields.Consistent() && s.log.Consistent()
  {
    if qs != [] {
      ConnectedImpliesCapture<C>(d, qs[..|qs| - 1]);
      var q := qs[|qs| - 1];
      assert q in qs;
    }
  }

  /** The capture's device: the first one connected since the last device.disconnect. */
  function FirstDevice(qs: seq<Request>): Option<string> {
    if qs == [] then None
    else
      var before, q := FirstDevice(qs[..|qs| - 1]), qs[|qs| - 1];
      match q
      case Connect(udid, a) =>
        if before.None? && Target(udid, a).Some? then Some(Target(udid, a).value.udid) else before
      case Disconnect => None
      case Restart(_) => before
  }

  lemma {:induction false} CaptureIsOfFirstDevice<C>(d: Drivers, qs: seq<Request>)
    ensures var log := HandleAll<C>(d, Fresh(), qs).log;
            && log.Consistent()
            && (log.running <==> FirstDevice(qs).Some?)
            && (log.running ==> log.udid == FirstDevice(qs).value)
  {
    if qs != [] {
      CaptureIsOfFirstDevice<C>(d, qs[..|qs| - 1]);
    }
  }

  /** A connected device is the one whose log is captured. */
  ghost predicate Matches<C>(s: Daemon<C>) {
    s.dev.fields.connected.Some? ==> s.log.running && s.log.udid == s.dev.fields.connected.value.udid
  }

  /** The request does not connect another device while the log of one is being captured. */
  ghost predicate KeepsDevice<C>(s: Daemon<C>, q: Request) {
    q.Connect? && Target(q.udid, q.a).Some? && s.log.running ==> Target(q.udid, q.a).value.udid == s.log.udid
  }

  /** The GetDevice contract: a restart finds the device it asks for by its non-empty udid. */
  ghost predicate RestartsSameDevice<C>(s: Daemon<C>, q: Request) {
    q.Restart? && s.dev.fields.connected.Some? ==>
      var udid := s.dev.fields.connected.value.udid;
      Target(udid, q.a).Some? ==> Target(udid, q.a).value.udid == udid
  }

  ghost predicate DriversKeepDevices<C(!new)>(d: Drivers, s: Daemon<C>, qs: seq<Request>) {
    forall n | 0 <= n < |qs| :: RestartsSameDevice(HandleAll(d, s, qs[..n]), qs[n])
  }

  lemma HandleNext<C>(d: Drivers, s: Daemon<C>, qs: seq<Request>, n: nat)
    requires n < |qs|
    ensures HandleAll(d, s, qs[..n + 1]) == Handle(d, HandleAll(d, s, qs[..n]), qs[n])
  {
    assert qs[..n + 1][..n] == qs[..n];
  }

  /** Captured and connected device agree after every request exactly when none connects over another. */
  lemma CaptureMatchesExactly(d: Drivers, qs: seq<Request>)
    requires DriversKeepDevices<nat>(d, Fresh(), qs)
    ensures (forall n | 0 <= n <= |qs| :: Matches(HandleAll<nat>(d, Fresh(), qs[..n])))
        <==> forall n | 0 <= n < |qs| :: KeepsDevice(HandleAll<nat>(d, Fresh(), qs[..n]), qs[n])
  {
    if forall n | 0 <= n < |qs| :: KeepsDevice(HandleAll<nat>(d, Fresh(), qs[..n]), qs[n]) {
      forall n | 0 <= n <= |qs|
        ensures Matches(HandleAll<nat>(d, Fresh(), qs[..n]))
      {
        MatchesSoFar(d, qs, n);
      }
    }
    if forall n | 0 <= n <= |qs| :: Matches(HandleAll<nat>(d, Fresh(), qs[..n])) {
      forall n | 0 <= n < |qs|
        ensures KeepsDevice(HandleAll<nat>(d, Fresh(), qs[..n]), qs[n])
      {
        HandleNext<nat>(d, Fresh(), qs, n);
        assert Matches(HandleAll<nat>(d, Fresh(), qs[..n + 1]));
      }
    }
  }

  /** device.connect to one phone, then to another: the log goes on being the first one's. */
  lemma ConnectOverAnother(one: DeviceInfo, other: DeviceInfo) returns (qs: seq<Request>)
    requires one.udid != other.udid
    ensures qs == [Connect(one.udid, PhoneAnswers(one, 1)), Connect(other.udid, PhoneAnswers(other, 2))]
    ensures DriversKeepDevices<nat>(FULL, Fresh(), qs)
    ensures var s: Daemon<nat> := HandleAll(FULL, Fresh(), qs);
            !Matches(s) && s.dev.fields.connected == Some(other) && s.log.running && s.log.udid == one.udid
  {
    var q1, q2 := Connect(one.udid, PhoneAnswers(one, 1)), Connect(other.udid, PhoneAnswers(other, 2));
    qs := [q1, q2];
    assert qs[..0] == [] && qs[..1] == [q1] && qs[..2] == qs;
    HandleNext<nat>(FULL, Fresh(), qs, 0);
    HandleNext<nat>(FULL, Fresh(), qs, 1);
  }

  lemma MatchesNext<C>(d: Drivers, s: Daemon<C>, q: Request)
    requires Matches(s) && KeepsDevice(s, q) && RestartsSameDevice(s, q)
    requires s.log.running ==> s.log.cancelled != []
    ensures Matches(Handle(d, s, q))
  {}

  lemma {:induction false} MatchesSoFar(d: Drivers, qs: seq<Request>, n: nat)
    requires DriversKeepDevices<nat>(d, Fresh(), qs) && n <= |qs|
    requires forall k | 0 <= k < |qs| :: KeepsDevice(HandleAll<nat>(d, Fresh(), qs[..k]), qs[k])
    ensures Matches(HandleAll<nat>(d, Fresh(), qs[..n]))
  {
    if n > 0 {
      MatchesSoFar(d, qs, n - 1);
      HandleNext<nat>(d, Fresh(), qs, n - 1);
      CaptureIsOfFirstDevice<nat>(d, qs[..n - 1]);
      MatchesNext<nat>(d, HandleAll(d, Fresh(), qs[..n - 1]), qs[n - 1]);
    }
  }
}
