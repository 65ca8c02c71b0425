/**
 DeviceManager of internal/core/device_manager.go: the object with its locked sections, and
 what one request after another leaves open. DeviceRaces treats overlapping requests.

 Drivers are parameters: `Answers` says what each call would return. A port forward or a WDA
 process is named by a number, a session by its id, and no two acquisitions get the same name.
 */
module DeviceManagers {
  import opened Options

  datatype DeviceInfo = DeviceInfo(udid: string, name: string, iosVersion: string, productType: string)

  const WDA_URL := "http://localhost:8100"

  datatype Resource = Forward(id: nat) | Process(id: nat) | Session(sid: string)

  datatype Event = Opened(r: Resource) | Closed(r: Resource)

  // ---------------------------------------------------------------- the fields

  /** The fields under dm.mu. */
  datatype Fields = Fields(
    connected: Option<DeviceInfo>,
    sessionID: string,
    url: string,
    mode: string,
    forwarder: Option<nat>,
    process: Option<nat>)
  {
    /** What the fields hold, in the order Connect acquires it. */
    function Held(): seq<Resource> {
      (if forwarder.Some? then [Forward(forwarder.value)] else [])
      + (if process.Some? then [Process(process.value)] else [])
      + (if sessionID != "" then [Session(sessionID)] else [])
    }

    /** What every reader of the fields may rely on. */
    predicate Consistent() {
      && (connected.None? <==> mode == "")
      && (connected.None? <==> url == "")
      && (mode == "" || mode == "full" || mode == "degraded")
      && (mode == "full" <==> sessionID != "")
    }

    function Committed(info: DeviceInfo, session: Option<string>): Fields {
      this.(connected := Some(info), url := WDA_URL,
            sessionID := if session.Some? then session.value else "",
            mode := if session.Some? then "full" else "degraded")
    }
  }

  const NOTHING := Fields(None, "", "", "", None, None)

  /** The WDADriver contract: a created session has a non-empty id. */
  predicate GoodSession(session: Option<string>) {
    session.Some? ==> session.value != ""
  }

  lemma CommittedIsConsistent(f: Fields, info: DeviceInfo, session: Option<string>)
    requires GoodSession(session)
    ensures f.Committed(info, session).Consistent()
  {}

  // ---------------------------------------------------------------- what a Connect gets

  /** Which drivers the manager was built with. */
  datatype Drivers = Drivers(tunnel: bool, wda: bool, wdaProcess: bool)

  datatype Answers = Answers(
    listed: Option<seq<DeviceInfo>>,   // ListDevices
    found: map<string, DeviceInfo>,    // GetDevice, for each udid it might be asked for
    forward: Option<nat>,              // ForwardPort
    aliveFirst: bool,                  // Status
    started: Option<nat>,              // StartWDA
    aliveThen: bool,                   // Status after a start
    session: Option<string>)           // CreateSession

  /** The device a Connect settles on, or None if it fails before acquiring anything. */
  function Target(udid: string, a: Answers): Option<DeviceInfo> {
    if udid != "" then Found(udid, a)
    else if a.listed.None? || |a.listed.value| != 1 then None
    else Found(a.listed.value[0].udid, a)
  }

  function Found(udid: string, a: Answers): Option<DeviceInfo> {
    if udid in a.found then Some(a.found[udid]) else None
  }

  function NewForward(d: Drivers, a: Answers): Option<nat> {
    if d.tunnel then a.forward else None
  }

  function NewProcess(d: Drivers, a: Answers): Option<nat> {
    if d.wda && !a.aliveFirst && d.wdaProcess then a.started else None
  }

  function NewSession(d: Drivers, a: Answers): Option<string> {
    if d.wda && (a.aliveFirst || (NewProcess(d, a).Some? && a.aliveThen)) then a.session else None
  }

  /** What a successful Connect acquires, in order. */
  function Acquired(d: Drivers, a: Answers): seq<Resource> {
    (if NewForward(d, a).Some? then [Forward(NewForward(d, a).value)] else [])
    + (if NewProcess(d, a).Some? then [Process(NewProcess(d, a).value)] else [])
    + (if NewSession(d, a).Some? then [Session(NewSession(d, a).value)] else [])
  }

  function AllOpened(rs: seq<Resource>): seq<Event> {
    seq(|rs|, i requires 0 <= i < |rs| => Opened(rs[i]))
  }

  /** Closings from the last acquired to the first. */
  function AllClosed(rs: seq<Resource>): seq<Event> {
    seq(|rs|, i requires 0 <= i < |rs| => Closed(rs[|rs| - 1 - i]))
  }

  /** The fields and the acquisitions and releases so far. */
  datatype Device = Device(fields: Fields, events: seq<Event>)

  function AfterConnect(d: Drivers, dev: Device, udid: string, a: Answers): Device {
    if Target(udid, a).None? then dev
    else
      var f := dev.fields.(
        forwarder := if NewForward(d, a).Some? then NewForward(d, a) else dev.fields.forwarder,
        process := if NewProcess(d, a).Some? then NewProcess(d, a) else dev.fields.process);
      Device(f.Committed(Target(udid, a).value, NewSession(d, a)), dev.events + AllOpened(Acquired(d, a)))
  }

  function AfterDisconnect(d: Drivers, dev: Device): Device {
    if dev.fields.connected.None? then dev
    else
      var held := if d.wda then dev.fields.Held() else dev.fields.(sessionID := "").Held();
      Device(NOTHING, dev.events + AllClosed(held))
  }

  datatype DeviceStatus = DeviceStatus(connected: bool, udid: string, name: string, iosVersion: string,
                                       wdaStatus: string, wdaMode: string)

  /** buildStatus. */
  function StatusOf(f: Fields): DeviceStatus {
    match f.connected
    case None => DeviceStatus(false, "", "", "", "", "")
    case Some(info) =>
      var wdaStatus := if f.mode == "full" then "running" else "stopped";
      DeviceStatus(true, info.udid, info.name, info.iosVersion, wdaStatus, f.mode)
  }

  /** A status never shows a mode without a device, nor WDA running without a session. */
  lemma StatusIsCoherent(f: Fields)
    requires f.Consistent()
    ensures var s := StatusOf(f);
            && (s.connected <==> s.wdaMode != "") && (s.connected <==> f.url != "")
            && (s.wdaStatus == "running" <==> f.sessionID != "")
            && (s.wdaStatus == "stopped" <==> s.connected && f.sessionID == "")
            && s.wdaMode == f.mode && (s.connected <==> f.connected.Some?)
            && (s.connected ==>
                  var info := f.connected.value; s.udid == info.udid && s.name == info.name
                                                 && s.iosVersion == info.iosVersion)
  {}

  /** The udid that GetDevice is asked for: the one given, or that of the only device listed. */
  predicate Asks(udid: string, a: Answers, asked: string) {
    if udid != "" then asked == udid
    else a.listed.Some? && |a.listed.value| == 1 && asked == a.listed.value[0].udid
  }

  /** WDA answers at once, or is started and then answers. */
  predicate WDAUp(d: Drivers, a: Answers) {
    d.wda && (a.aliveFirst || (d.wdaProcess && a.started.Some? && a.aliveThen))
  }

  /**
   What a Connect does, from the drivers' answers: refused, it leaves everything as it was; else
   it connects the device found, forwards a port if it can, starts WDA only if WDA does not
   answer, and opens a session only if WDA is up.
   */
  lemma ConnectsExactly(d: Drivers, dev: Device, udid: string, a: Answers)
    ensures var f, after := dev.fields, AfterConnect(d, dev, udid, a);
            var forwards := d.tunnel && a.forward.Some?;
            var starts := d.wda && !a.aliveFirst && d.wdaProcess && a.started.Some?;
            var opens := WDAUp(d, a) && a.session.Some?;
            && ((forall asked | Asks(udid, a, asked) :: asked !in a.found) ==> after == dev)
            && forall asked | Asks(udid, a, asked) && asked in a.found ::
                 && after.fields == Fields(
                      Some(a.found[asked]), if opens then a.session.value else "", WDA_URL,
                      if opens then "full" else "degraded",
                      if forwards then a.forward else f.forwarder, if starts then a.started else f.process)
                 && after.events == dev.events
                      + (if forwards then [Opened(Forward(a.forward.value))] else [])
                      + (if starts then [Opened(Process(a.started.value))] else [])
                      + (if opens then [Opened(Session(a.session.value))] else [])
  {
    if udid == "" && a.listed.Some? && |a.listed.value| == 1 {
      assert Asks(udid, a, a.listed.value[0].udid);
    } else if udid != "" {
      assert Asks(udid, a, udid);
    }
  }

  // ---------------------------------------------------------------- the object

  class DeviceManager {
    const drivers: Drivers
    var connected: Option<DeviceInfo>
    var wdaSessionID: string
    var wdaURL: string
    var mode: string
    var portForwarder: Option<nat>
    var wdaProcess: Option<nat>
    ghost var events: seq<Event>

    function View(): Fields
      reads this
    {
      Fields(connected, wdaSessionID, wdaURL, mode, portForwarder, wdaProcess)
    }

    ghost function Now(): Device
      reads this
    {
      Device(View(), events)
    }

    constructor (drivers: Drivers)
      ensures this.drivers == drivers && Now() == Device(NOTHING, [])
    {
      this.drivers := drivers;
      connected, wdaSessionID, wdaURL, mode, portForwarder, wdaProcess := None, "", "", "", None, None;
      events := [];
    }

    method Resolve(udid: string, a: Answers) returns (info: Option<DeviceInfo>)
      ensures info == Target(udid, a)
      ensures info.Some? <==>
                || (udid != "" && udid in a.found)
                || (udid == "" && a.listed.Some? && |a.listed.value| == 1 && a.listed.value[0].udid in a.found)
      ensures info.Some? ==> info.value == a.found[if udid != "" then udid else a.listed.value[0].udid]
    {
      var asked := udid;
      if udid == "" {
        if a.listed.None? || |a.listed.value| == 0 || |a.listed.value| > 1 {
          return None;
        }
        asked := a.listed.value[0].udid;
      }
      if asked !in a.found {
        return None;
      }
      info := Some(a.found[asked]);
    }

    method Connect(udid: string, a: Answers) returns (status: Option<DeviceStatus>)
      modifies this
      ensures Now() == AfterConnect(drivers, old(Now()), udid, a)
      ensures status.Some? <==>
                || (udid != "" && udid in a.found)
                || (udid == "" && a.listed.Some? && |a.listed.value| == 1 && a.listed.value[0].udid in a.found)
      ensures status.Some? ==> status.value == StatusOf(View())
      ensures status.Some? ==> connected == Some(a.found[if udid != "" then udid else a.listed.value[0].udid])
      ensures status.None? ==> Now() == old(Now())
    {
      var info := Resolve(udid, a);
      if info.None? {
        return None;
      }
      ghost var before := events;
      if drivers.tunnel && a.forward.Some? {
        events := events + [Opened(Forward(a.forward.value))];
        portForwarder := a.forward;
      }
      var sessionID, newMode := ProbeWDA(a);
      assert events == before + AllOpened(Acquired(drivers, a));

      connected := info;
      wdaURL := WDA_URL;
      wdaSessionID := sessionID;
      mode := newMode;
      status := Some(StatusOf(View()));
    }

    method ProbeWDA(a: Answers) returns (sessionID: string, newMode: string)
      modifies this`events, this`wdaProcess
      ensures wdaProcess == if NewProcess(drivers, a).Some? then NewProcess(drivers, a) else old(wdaProcess)
      ensures events == old(events)
                + (if NewProcess(drivers, a).Some? then [Opened(Process(NewProcess(drivers, a).value))] else [])
                + (if NewSession(drivers, a).Some? then [Opened(Session(NewSession(drivers, a).value))] else [])
      ensures sessionID == if NewSession(drivers, a).Some? then NewSession(drivers, a).value else ""
      ensures newMode == if NewSession(drivers, a).Some? then "full" else "degraded"
    {
      sessionID := "";
      newMode := "degraded";
      if drivers.wda {
        var alive := a.aliveFirst;
        if !alive && drivers.wdaProcess && a.started.Some? {
          events := events + [Opened(Process(a.started.value))];
          wdaProcess := a.started;
          alive := a.aliveThen;
        }
        if alive && a.session.Some? {
          events := events + [Opened(Session(a.session.value))];
          sessionID := a.session.value;
          newMode := "full";
        }
      }
    }

    method Disconnect()
      modifies this
      ensures Now() == AfterDisconnect(drivers, old(Now()))
    {
      if connected.None? {
        return;
      }
      ghost var before := events;
      ghost var held := if drivers.wda then View().Held() else View().(sessionID := "").Held();
      if drivers.wda && wdaSessionID != "" {
        events := events + [Closed(Session(wdaSessionID))];
      }
      if wdaProcess.Some? {
        events := events + [Closed(Process(wdaProcess.value))];
        wdaProcess := None;
      }
      if portForwarder.Some? {
        events := events + [Closed(Forward(portForwarder.value))];
        portForwarder := None;
      }
      assert events == before + AllClosed(held);
      connected := None;
      wdaSessionID := "";
      wdaURL := "";
      mode := "";
    }
  }
}
