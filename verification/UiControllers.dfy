/**
 The guards of internal/core/ui_controller.go. A gesture reads connected, mode, URL and session
 one after another, each under its own lock, so that a Connect or Disconnect handled on another
 connection can come in between.
 */
module UiControllers {
  import opened Options
  import opened DeviceManagers
  import opened DeviceAccounting
  import Handlers
  import opened DeviceRaces

  datatype Gesture =
    | Tap(x: int, y: int)
    | Swipe(x1: int, y1: int, x2: int, y2: int)
    | Input(text: string)
    | Press(key: string)

  datatype ActResult = Refused(code: int) | Sent(url: string, session: string, gesture: Gesture)

  const DEVICE_NOT_CONNECTED := -32001
  const WDA_UNAVAILABLE := -32003

  /**
   Tap, Swipe, Input and Press, given the fields as they are at each of the four reads. The
   first three call requireFullMode, Press repeats its tests inline.
   */
  function ActOver(atConnected: Fields, atMode: Fields, atURL: Fields, atSession: Fields, g: Gesture): ActResult {
    if atConnected.connected.None? then Refused(DEVICE_NOT_CONNECTED)
    else if atMode.mode == "degraded" then Refused(WDA_UNAVAILABLE)
    else Sent(atURL.url, atSession.sessionID, g)
  }

  function Act(f: Fields, g: Gesture): ActResult {
    ActOver(f, f, f, f, g)
  }

  /**
   After any requests, a gesture that nothing interrupts reaches the driver exactly in full
   mode, and then with the current session and URL, neither of them empty; otherwise the
   refusal says why.
   */
  lemma GesturesReachTheSession<C>(d: Drivers, qs: seq<Request>, g: Gesture)
    requires Handlers.GoodSessions(qs)
    ensures var f := Handlers.HandleAll<C>(d, Handlers.Fresh(), qs).dev.fields;
            && (f.sessionID != "" ==> f.url != "" && Act(f, g) == Sent(f.url, f.sessionID, g))
            && (f.sessionID == "" ==>
                  Act(f, g) == Refused(if f.url == "" then DEVICE_NOT_CONNECTED else WDA_UNAVAILABLE))
  {
    Handlers.ConnectedImpliesCapture<C>(d, qs);
  }

  // ---------------------------------------------------------------- among overlapping requests

  /** Only these write the fields a gesture reads. */
  predicate Changes(a: Action) {
    a.Commit? || a.Disconnect?
  }

  /** The step leaves no session behind: a Disconnect, or the commit of a Connect that got none. */
  predicate EndsSession(s: State, a: Action) {
    a.Disconnect? || (a.Commit? && a.t in s.conns && s.conns[a.t].Ready? && s.conns[a.t].session.None?)
  }

  /** Step k is the last one in from..to that writes the fields. */
  ghost predicate LastChange(actions: seq<Action>, from: nat, k: nat, to: nat) {
    && from <= k < to <= |actions| && Changes(actions[k])
    && forall j | k < j < to :: !Changes(actions[j])
  }

  ghost predicate Unchanged(actions: seq<Action>, from: nat, to: nat) {
    to <= |actions| && forall j | from <= j < to :: !Changes(actions[j])
  }

  ghost predicate SameReads(f: Fields, g: Fields) {
    f.connected == g.connected && f.mode == g.mode && f.url == g.url && f.sessionID == g.sessionID
  }

  lemma {:induction false} FieldsStay(states: seq<State>, actions: seq<Action>, i: nat, j: nat)
    requires IsRun(states, actions) && i <= j && Unchanged(actions, i, j)
    ensures SameReads(states[i].dev.fields, states[j].dev.fields)
  {
    if i < j {
      FieldsStay(states, actions, i, j - 1);
      assert !Changes(actions[j - 1]);
    }
  }

  lemma {:induction false} ChangedOrNot(actions: seq<Action>, i: nat, j: nat) returns (k: nat)
    requires i <= j <= |actions|
    ensures Unchanged(actions, i, j) || LastChange(actions, i, k, j)
  {
    k := i;
    if i < j {
      if Changes(actions[j - 1]) {
        k := j - 1;
      } else {
        k := ChangedOrNot(actions, i, j - 1);
      }
    }
  }

  /** What the last change leaves behind. */
  lemma AfterLastChange(states: seq<State>, actions: seq<Action>, i: nat, k: nat, j: nat)
    requires IsRun(states, actions) && LastChange(actions, i, k, j)
    ensures var f := states[j].dev.fields;
            && (f.url == "" <==> actions[k].Disconnect?) && (f.url != "" ==> f.url == WDA_URL)
            && (f.sessionID == "" <==> EndsSession(states[k], actions[k]))
            && (f.sessionID != "" ==> Session(f.sessionID) in Hands(states[k].conns))
  {
    FieldsStay(states, actions, k + 1, j);
    InvAlongRun(states, actions, k);
    InvAlongRun(states, actions, k + 1);
    if actions[k].Commit? {
      HandInHands(states[k].conns, actions[k].t);
    }
  }

  /** A session once held is never in a Connect's hand again. */
  ghost predicate OutOfHands(s: State, r: Resource) {
    Opened(r) in s.dev.events && r !in Hands(s.conns)
  }

  lemma OutOfHandsStays(s: State, a: Action, r: Resource)
    requires Enabled(s, a) && OutOfHands(s, r)
    ensures OutOfHands(Do(s, a), r)
  {
    var t := Do(s, a);
    forall u | u in t.conns
      ensures r !in Hand(t.conns[u])
    {
      if u in s.conns {
        HandInHands(s.conns, u);
      }
    }
  }

  lemma HandInHands(conns: map<nat, Conn>, u: nat)
    requires u in conns
    ensures Hand(conns[u]) <= Hands(conns)
  {}

  lemma {:induction false} OutOfHandsAlong(states: seq<State>, actions: seq<Action>, i: nat, j: nat, r: Resource)
    requires IsRun(states, actions) && i <= j <= |actions| && OutOfHands(states[i], r)
    ensures OutOfHands(states[j], r)
  {
    if i < j {
      OutOfHandsAlong(states, actions, i, j - 1, r);
      OutOfHandsStays(states[j - 1], actions[j - 1], r);
    }
  }

  lemma HeldIsOutOfHands(s: State)
    requires Inv(s) && s.dev.fields.sessionID != ""
    ensures OutOfHands(s, Session(s.dev.fields.sessionID))
  {
    var r := Session(s.dev.fields.sessionID);
    MembersOf(s.dev.fields, r);
    assert Live(s.dev.events, r);
    forall t | t in s.conns
      ensures r !in Hand(s.conns[t])
    {
      assert InHand(s.conns[t]).Some? ==> InHand(s.conns[t]).value !in s.dev.fields.Held();
    }
  }

  /** The session a gesture is sent with is still the first read's exactly if nothing wrote the fields since. */
  lemma SessionKeptExactly(states: seq<State>, actions: seq<Action>, p: nat, q: nat)
    requires IsRun(states, actions) && p <= q <= |actions| && states[p].dev.fields.sessionID != ""
    ensures states[q].dev.fields.sessionID == states[p].dev.fields.sessionID <==> Unchanged(actions, p, q)
  {
    var k := ChangedOrNot(actions, p, q);
    if Unchanged(actions, p, q) {
      FieldsStay(states, actions, p, q);
    } else {
      InvAlongRun(states, actions, p);
      HeldIsOutOfHands(states[p]);
      OutOfHandsAlong(states, actions, p, k, Session(states[p].dev.fields.sessionID));
      AfterLastChange(states, actions, p, k, q);
    }
  }

  ghost predicate DisconnectedLast(actions: seq<Action>, from: nat, to: nat) {
    exists k: nat :: LastChange(actions, from, k, to) && actions[k].Disconnect?
  }

  ghost predicate SessionEndedLast(states: seq<State>, actions: seq<Action>, from: nat, to: nat)
    requires |actions| <= |states|
  {
    exists k: nat :: LastChange(actions, from, k, to) && EndsSession(states[k], actions[k])
  }

  lemma OneLastChange(actions: seq<Action>, from: nat, j: nat, k: nat, to: nat)
    requires LastChange(actions, from, j, to) && LastChange(actions, from, k, to)
    ensures j == k
  {}

  lemma {:induction false} URLIsKnown(states: seq<State>, actions: seq<Action>, i: nat)
    requires IsRun(states, actions) && i <= |actions|
    ensures states[i].dev.fields.url == "" || states[i].dev.fields.url == WDA_URL
  {
    if i > 0 {
      URLIsKnown(states, actions, i - 1);
    }
  }

  lemma URLReadExactly(states: seq<State>, actions: seq<Action>, p: nat, u: nat)
    requires IsRun(states, actions) && p <= u <= |actions| && states[p].dev.fields.connected.Some?
    ensures states[u].dev.fields.url == "" <==> DisconnectedLast(actions, p, u)
  {
    var k := ChangedOrNot(actions, p, u);
    InvAlongRun(states, actions, p);
    if Unchanged(actions, p, u) {
      FieldsStay(states, actions, p, u);
    } else {
      AfterLastChange(states, actions, p, k, u);
      forall j: nat | LastChange(actions, p, j, u)
        ensures j == k
      {
        OneLastChange(actions, p, j, k, u);
      }
    }
  }

  lemma SessionReadExactly(states: seq<State>, actions: seq<Action>, p: nat, v: nat)
    requires IsRun(states, actions) && p <= v <= |actions|
    requires Unchanged(actions, p, v) ==> states[p].dev.fields.sessionID != ""
    ensures states[v].dev.fields.sessionID == "" <==> SessionEndedLast(states, actions, p, v)
  {
    var k := ChangedOrNot(actions, p, v);
    if Unchanged(actions, p, v) {
      FieldsStay(states, actions, p, v);
    } else {
      AfterLastChange(states, actions, p, k, v);
      forall j: nat | LastChange(actions, p, j, v)
        ensures j == k
      {
        OneLastChange(actions, p, j, k, v);
      }
    }
  }

  /** Past the guard, no session at the first read means that a Connect or Disconnect came in before the second. */
  lemma GuardPassed(states: seq<State>, actions: seq<Action>, p: nat, q: nat)
    requires IsRun(states, actions) && p <= q <= |actions|
    requires states[p].dev.fields.connected.Some? && states[q].dev.fields.mode != "degraded"
    ensures Unchanged(actions, p, q) ==> states[p].dev.fields.sessionID != ""
  {
    InvAlongRun(states, actions, p);
    if Unchanged(actions, p, q) {
      FieldsStay(states, actions, p, q);
    }
  }

  /**
   A gesture whose reads meet positions p, q, u and v of any run, if it is sent at all. The URL
   is empty exactly if the last change since the first read is a Disconnect, the session exactly
   if the last change leaves none; and the session is that of the first read, and not empty,
   exactly if nothing changed.
   */
  lemma GestureSentExactly(states: seq<State>, actions: seq<Action>, p: nat, q: nat, u: nat, v: nat, g: Gesture)
    requires IsRun(states, actions) && p <= q <= u <= v <= |actions|
    ensures var (fp, fq, fu, fv) :=
              (states[p].dev.fields, states[q].dev.fields, states[u].dev.fields, states[v].dev.fields);
            var r := ActOver(fp, fq, fu, fv, g);
            r.Sent? ==>
              && (r.url == "" <==> DisconnectedLast(actions, p, u)) && (r.url != "" ==> r.url == WDA_URL)
              && (r.session == "" <==> SessionEndedLast(states, actions, p, v))
              && (r.session == fp.sessionID != "" <==> Unchanged(actions, p, v))
  {
    var fp, fq := states[p].dev.fields, states[q].dev.fields;
    if fp.connected.Some? && fq.mode != "degraded" {
      GuardPassed(states, actions, p, q);
      URLIsKnown(states, actions, u);
      URLReadExactly(states, actions, p, u);
      SessionReadExactly(states, actions, p, v);
      if fp.sessionID != "" {
        SessionKeptExactly(states, actions, p, v);
      }
    }
  }

  /** A Disconnect between guard and reads: the gesture goes out with neither URL nor session. */
  lemma GestureSentNowhere(info: DeviceInfo, g: Gesture) returns (states: seq<State>, actions: seq<Action>)
    ensures IsRun(states, actions) && |actions| == 6
    ensures var before, after := states[5].dev.fields, states[6].dev.fields;
            before.sessionID != "" && ActOver(before, before, after, after, g) == Sent("", "", g)
  {
    actions := [Begin(0, info), ForwardPort(0, None), StartWDA(0, None), CreateSession(0, Some("s")), Commit(0),
                Action.Disconnect];
    var s0 := State(Device(NOTHING, []), map[]);
    var s1 := Do(s0, actions[0]);
    var s2 := Do(s1, actions[1]);
    var s3 := Do(s2, actions[2]);
    var s4 := Do(s3, actions[3]);
    var s5 := Do(s4, actions[4]);
    states := [s0, s1, s2, s3, s4, s5, Do(s5, actions[5])];
  }
}
