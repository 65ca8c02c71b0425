/**
 The log pipeline told from the actions of a run alone: who is subscribed, what a driver read,
 whether an epoch is live, and which subscribers get an entry.
 */
module LogDelivery {
  import opened RingBuffers
  import opened LogManagers
  import opened LogPipeline
  import opened LogGuarantees

  // ---------------------------------------------------------------- who is subscribed

  function Subscribes(actions: seq<Action>): nat {
    if actions == [] then 0
    else Subscribes(actions[..|actions| - 1]) + if actions[|actions| - 1].Subscribe? then 1 else 0
  }

  /** The c-th Subscribe, from 0 on, has come, and its unsubscribe function has not been called. */
  ghost predicate Subscribed(actions: seq<Action>, c: nat) {
    c < Subscribes(actions) && Unsubscribe(c) !in actions
  }

  lemma SubscribersStep(s: State, a: Action, c: nat)
    requires SubsOk(s) && Enabled(s, a)
    ensures |Do(s, a).subs| == |s.subs| + if a.Subscribe? then 1 else 0
    ensures c in Do(s, a).control.subscribers <==>
              (c in s.control.subscribers && a != Unsubscribe(c)) || (a.Subscribe? && c == |s.subs|)
  {
    if a.Unsubscribe? {
      WithoutIsExact(s.control.subscribers, a.sub);
    }
  }

  /** The subscribers are those that the actions say. */
  ghost predicate SubscribersOk(s: State, actions: seq<Action>, c: nat) {
    && |s.subs| == Subscribes(actions)
    && (Unsubscribe(c) in actions ==> c < |s.subs|)
    && (c in s.control.subscribers <==> Subscribed(actions, c))
  }

  lemma SubscribersOkStep(s: State, a: Action, actions: seq<Action>, c: nat)
    requires SubsOk(s) && Enabled(s, a) && SubscribersOk(s, actions, c)
    ensures SubscribersOk(Do(s, a), actions + [a], c)
  {
    SubscribersStep(s, a, c);
    SubscribedPush(actions, a, c);
  }

  lemma SubsAlongRun(states: seq<State>, actions: seq<Action>, i: nat)
    requires IsHistory(states, actions) && i <= |actions|
    ensures SubsOk(states[i])
  {
    InvAlongRun(states, actions, i);
  }

  lemma {:induction false} SubscribedExactly(states: seq<State>, actions: seq<Action>, i: nat, c: nat)
    requires IsHistory(states, actions) && i <= |actions|
    ensures SubscribersOk(states[i], actions[..i], c)
  {
    if i > 0 {
      SubscribedExactly(states, actions, i - 1, c);
      SubsAlongRun(states, actions, i - 1);
      assert actions[..i] == actions[..i - 1] + [actions[i - 1]];
      SubscribersOkStep(states[i - 1], actions[i - 1], actions[..i - 1], c);
    }
  }

  lemma SubscribedPush(actions: seq<Action>, a: Action, c: nat)
    ensures Subscribes(actions + [a]) == Subscribes(actions) + if a.Subscribe? then 1 else 0
    ensures Unsubscribe(c) in actions + [a] <==> Unsubscribe(c) in actions || a == Unsubscribe(c)
    ensures (Unsubscribe(c) in actions ==> c < Subscribes(actions)) ==>
              (Subscribed(actions + [a], c) <==>
                (Subscribed(actions, c) && a != Unsubscribe(c))
                || (a.Subscribe? && c == Subscribes(actions)))
  {
    assert (actions + [a])[..|actions|] == actions;
  }

  // ---------------------------------------------------------------- the fan-out of an entry

  /** Step i copies the subscribers for the fan-out of x. */
  predicate CopiesAt(states: seq<State>, actions: seq<Action>, i: nat, x: Item)
    requires i < |states| && i < |actions|
  {
    && actions[i] == Go(x.epoch, Copy)
    && x.epoch < |states[i].epochs| && states[i].epochs[x.epoch].drain == DrainPc.Stored(x)
  }

  /** The step finds c's channel with its full 100 and leaves x out. */
  predicate Refuses(s: State, a: Action, x: Item, c: nat) {
    && a.Go? && a.move.Deliver? && a.epoch < |s.epochs| && CanMove(s.epochs[a.epoch], false, Deliver)
    && s.epochs[a.epoch].drain.item == x && Target(s.epochs[a.epoch]) == c
    && c < |s.subs| && |s.subs[c].queue| == 100
  }

  ghost predicate Refused(states: seq<State>, actions: seq<Action>, n: nat, x: Item, c: nat)
    requires n <= |actions| && n <= |states|
  {
    exists j :: 0 <= j < n && Refuses(states[j], actions[j], x, c)
  }

  lemma {:induction false} SnapshotStays(states: seq<State>, actions: seq<Action>, i: nat, n: nat, x: Item)
    requires IsHistory(states, actions) && i <= n <= |actions| && x in states[i].snapshots
    ensures x in states[n].snapshots && states[n].snapshots[x] == states[i].snapshots[x]
  {
    if i < n {
      SnapshotStays(states, actions, i, n - 1, x);
      InvAlongRun(states, actions, n - 1);
      SnapshotsKept(states[n - 1], actions[n - 1]);
    }
  }

  lemma OnlyCopyMakesSnapshot(s: State, a: Action, x: Item)
    requires Enabled(s, a) && x !in s.snapshots && x in Do(s, a).snapshots
    ensures a.Go? && a.move.Copy? && s.epochs[a.epoch].drain == DrainPc.Stored(x)
    ensures Do(s, a).snapshots[x] == s.control.subscribers
  {}

  lemma CopyMakesSnapshot(s: State, a: Action, x: Item)
    requires EpochsOk(s.epochs, s.history) && Enabled(s, a) && x !in s.snapshots && x in Do(s, a).snapshots
    ensures a == Go(x.epoch, Copy) && s.epochs[x.epoch].drain == DrainPc.Stored(x)
    ensures Do(s, a).snapshots[x] == s.control.subscribers
  {
    OnlyCopyMakesSnapshot(s, a, x);
    LastStored(s.epochs[a.epoch], a.epoch, Of(s.history, a.epoch));
  }

  lemma {:induction false} CopyHappened(states: seq<State>, actions: seq<Action>, n: nat, x: Item) returns (i: nat)
    requires IsHistory(states, actions) && n <= |actions| && x in states[n].snapshots
    ensures i < n && CopiesAt(states, actions, i, x) && states[n].snapshots[x] == states[i].control.subscribers
  {
    if x in states[n - 1].snapshots {
      i := CopyHappened(states, actions, n - 1, x);
      SnapshotStays(states, actions, n - 1, n, x);
    } else {
      i := n - 1;
      EpochsAlongRun(states, actions, i);
      CopyMakesSnapshot(states[i], actions[i], x);
    }
  }

  /** An entry is fanned out once. */
  lemma CopiedOnce(states: seq<State>, actions: seq<Action>, i: nat, j: nat, x: Item)
    requires IsHistory(states, actions) && i < j < |actions|
    requires CopiesAt(states, actions, i, x)
    ensures !CopiesAt(states, actions, j, x)
  {
    SnapshotStays(states, actions, i + 1, j, x);
    InvAlongRun(states, actions, j);
    if x.epoch < |states[j].epochs| {
      assert DrainOk(states[j].epochs[x.epoch].drain, x.epoch, states[j].snapshots);
    }
  }

  lemma {:induction false} DroppedStays(states: seq<State>, actions: seq<Action>, i: nat, n: nat, x: Item, c: nat)
    requires IsHistory(states, actions) && i <= n <= |actions| && (x, c) in states[i].dropped
    ensures (x, c) in states[n].dropped
  {
    if i < n {
      DroppedStays(states, actions, i, n - 1, x, c);
    }
  }

  lemma RefusalRecords(s: State, a: Action, x: Item, c: nat)
    requires SnapshotsOk(s) && Enabled(s, a) && Refuses(s, a, x, c)
    ensures Do(s, a).panicked ==> !FanOutDone(Do(s, a), x)
    ensures !Do(s, a).panicked ==> (x, c) in Do(s, a).dropped
  {
    assert DrainOk(s.epochs[a.epoch].drain, a.epoch, s.snapshots);
  }

  lemma PanicIsLast(states: seq<State>, actions: seq<Action>, m: nat, n: nat)
    requires IsHistory(states, actions) && m < n <= |actions|
    ensures !states[m].panicked
  {
    assert Enabled(states[m], actions[m]);
  }

  /** Refusing is what puts an entry on record, unless the run ends there on a closed channel. */
  lemma RefusedIsRecorded(states: seq<State>, actions: seq<Action>, n: nat, j: nat, x: Item, c: nat)
    requires IsHistory(states, actions) && j < n <= |actions| && Refuses(states[j], actions[j], x, c)
    requires FanOutDone(states[n], x)
    ensures (x, c) in states[n].dropped
  {
    InvAlongRun(states, actions, j);
    RefusalRecords(states[j], actions[j], x, c);
    if j + 1 < n {
      PanicIsLast(states, actions, j + 1, n);
    }
    DroppedStays(states, actions, j + 1, n, x, c);
  }

  /**
   Over every run: an entry's fan-out copies the subscribers once, and when it is over a channel
   has the entry exactly if it was subscribed at that copy, and the entry did not find it full.
   */
  lemma DeliveredExactly(states: seq<State>, actions: seq<Action>, n: nat, x: Item, c: nat) returns (i: nat)
    requires IsHistory(states, actions) && n <= |actions|
    requires x in states[n].history && c < |states[n].subs| && FanOutDone(states[n], x)
    ensures i < n && CopiesAt(states, actions, i, x)
    ensures forall j | 0 <= j < n && CopiesAt(states, actions, j, x) :: j == i
    ensures x in states[n].subs[c].Log() <==> Subscribed(actions[..i], c) && !Refused(states, actions, n, x, c)
  {
    ReachedAt(states, actions, n);
    DeliveredFromSnapshot(states[n], x, c);
    i := CopyHappened(states, actions, n, x);
    forall j | 0 <= j < n && CopiesAt(states, actions, j, x)
      ensures j == i
    {
      if j < i {
        CopiedOnce(states, actions, j, i, x);
      } else if i < j {
        CopiedOnce(states, actions, i, j, x);
      }
    }
    SubscribedExactly(states, actions, i, c);
    if (x, c) in states[n].dropped {
      var j := RefusedOnlyWhenFull(states, actions, n, x, c);
      assert Refuses(states[j], actions[j], x, c);
    }
    if Refused(states, actions, n, x, c) {
      var j :| 0 <= j < n && Refuses(states[j], actions[j], x, c);
      RefusedIsRecorded(states, actions, n, j, x, c);
    }
  }

  lemma ReachedAt(states: seq<State>, actions: seq<Action>, n: nat)
    requires IsHistory(states, actions) && n <= |actions|
    ensures Reachable(states[n])
  {
    assert IsHistory(states[..n + 1], actions[..n]) && states[..n + 1][|actions[..n]|] == states[n];
  }

  // ---------------------------------------------------------------- the step relation and the object agree

  function Left(d: DrainPc): nat {
    if d.Fanning? && d.next <= |d.subs| then |d.subs| - d.next else 0
  }

  /** The sends of epoch e's fan-out in a row. */
  function SendRest(s: State, e: nat): State
    decreases if e < |s.epochs| then Left(s.epochs[e].drain) else 0
  {
    if Enabled(s, Go(e, Deliver)) && !Do(s, Go(e, Deliver)).panicked then SendRest(Do(s, Go(e, Deliver)), e) else s
  }

  /** A fan-out of the present subscribers is under way, and has come to the next-th. */
  ghost predicate FanningOut(s: State, e: nat, x: Item, next: nat) {
    && SubsOk(s) && !s.panicked && e < |s.epochs| && next <= |s.control.subscribers|
    && s.epochs[e].drain == Fanning(x, s.control.subscribers, next)
  }

  /** Of the channels, those among `chans` with a free slot have x in addition. */
  ghost predicate SentTo(before: seq<Sub>, after: seq<Sub>, chans: seq<nat>, x: Item) {
    && |after| == |before|
    && forall c | 0 <= c < |before| ::
         after[c].queue == before[c].queue + if c in chans && |before[c].queue| < 100 then [x] else []
  }

  lemma SentToNone(subs: seq<Sub>, x: Item)
    ensures SentTo(subs, subs, [], x)
  {
    assert forall c | 0 <= c < |subs| :: subs[c].queue + [] == subs[c].queue;
  }

  lemma SentToBoth(a: seq<Sub>, b: seq<Sub>, c: seq<Sub>, to: nat, rest: seq<nat>, x: Item)
    requires SentTo(a, b, [to], x) && SentTo(b, c, rest, x) && to !in rest
    ensures SentTo(a, c, [to] + rest, x)
  {
    forall k | 0 <= k < |a|
      ensures c[k].queue == a[k].queue + if k in [to] + rest && |a[k].queue| < 100 then [x] else []
    {
      assert a[k].queue + [] == a[k].queue && b[k].queue + [] == b[k].queue;
    }
  }

  lemma SendNext(s: State, e: nat, x: Item, next: nat)
    requires FanningOut(s, e, x, next) && next < |s.control.subscribers|
    ensures Enabled(s, Go(e, Deliver))
    ensures var t := Do(s, Go(e, Deliver));
            && FanningOut(t, e, x, next + 1) && t.control == s.control
            && SentTo(s.subs, t.subs, [s.control.subscribers[next]], x)
  {
    var to := s.control.subscribers[next];
    assert to in s.control.subscribers;
    assert forall c | 0 <= c < |s.subs| :: s.subs[c].queue + [] == s.subs[c].queue;
  }

  /** Uninterrupted, it does what LogManager.FanOut does: each subscriber with a free slot gets the entry, once. */
  lemma {:induction false} UninterruptedFanOut(s: State, e: nat, x: Item, next: nat)
    requires FanningOut(s, e, x, next)
    ensures var t := SendRest(s, e);
            && FanningOut(t, e, x, |s.control.subscribers|) && t.control == s.control
            && SentTo(s.subs, t.subs, s.control.subscribers[next..], x)
    decreases |s.control.subscribers| - next
  {
    var subscribers := s.control.subscribers;
    if next < |subscribers| {
      SendNext(s, e, x, next);
      var t := Do(s, Go(e, Deliver));
      UninterruptedFanOut(t, e, x, next + 1);
      assert subscribers[next..] == [subscribers[next]] + subscribers[next + 1..];
      SentToBoth(s.subs, t.subs, SendRest(t, e).subs, subscribers[next], subscribers[next + 1..], x);
    } else {
      SentToNone(s.subs, x);
    }
  }

  // ---------------------------------------------------------------- what a driver read

  /** The entries that epoch e's driver got from the device. */
  function EntriesRead(actions: seq<Action>, e: nat): seq<LogEntry> {
    if actions == [] then []
    else
      var a := actions[|actions| - 1];
      EntriesRead(actions[..|actions| - 1], e)
      + (if a.Go? && a.epoch == e && a.move.Read? && a.move.ok then [a.move.entry] else [])
  }

  /** Sent, being offered, or given up at the end. */
  ghost predicate ReadOk(ep: Epoch, read: seq<LogEntry>) {
    match ep.driver
    case Offering(item) => read == ep.sent + [item.entry]
    case Finished => ep.sent <= read && |read| <= |ep.sent| + 1
    case _ => read == ep.sent
  }

  lemma ReadMoved(ep: Epoch, e: nat, cancelled: bool, subscribers: seq<nat>, m: Move, read: seq<LogEntry>)
    requires CanMove(ep, cancelled, m) && ReadOk(ep, read)
    ensures ReadOk(Moved(ep, e, cancelled, subscribers, m), read + if m.Read? && m.ok then [m.entry] else [])
  {
    assert read + [] == read;
  }

  lemma {:induction false} ReadAlongRun(states: seq<State>, actions: seq<Action>, i: nat, e: nat)
    requires IsHistory(states, actions) && i <= |actions|
    ensures if e < |states[i].epochs| then ReadOk(states[i].epochs[e], EntriesRead(actions[..i], e))
            else EntriesRead(actions[..i], e) == []
  {
    if i > 0 {
      ReadAlongRun(states, actions, i - 1, e);
      assert actions[..i][..i - 1] == actions[..i - 1];
      ReadStep(states[i - 1], actions[i - 1], e, EntriesRead(actions[..i - 1], e));
    }
  }

  lemma ReadStep(s: State, a: Action, e: nat, read: seq<LogEntry>)
    requires Enabled(s, a) && if e < |s.epochs| then ReadOk(s.epochs[e], read) else read == []
    ensures var more := read + if a.Go? && a.epoch == e && a.move.Read? && a.move.ok then [a.move.entry] else [];
            if e < |Do(s, a).epochs| then ReadOk(Do(s, a).epochs[e], more) else more == []
  {
    assert read + [] == read;
    if a.Go? && a.epoch == e {
      ReadMoved(s.epochs[e], e, Cancelled(s, e), s.control.subscribers, a.move, read);
    }
  }

  /** Over every run, an epoch's stored entries are a prefix of those its driver read, each with its position. */
  lemma StoredIsPrefixOfRead(states: seq<State>, actions: seq<Action>, n: nat, e: nat)
    requires IsHistory(states, actions) && n <= |actions| && e < |states[n].epochs|
    ensures Of(states[n].history, e) <= Tagged(e, EntriesRead(actions[..n], e))
  {
    ReachedAt(states, actions, n);
    StoredIsPrefixOfSent(states[n], e);
    ReadAlongRun(states, actions, n, e);
    var sent, read := states[n].epochs[e].sent, EntriesRead(actions[..n], e);
    assert sent <= read;
    assert Tagged(e, sent) <= Tagged(e, read);
  }

  /** The driver's last read, or its attempt to open the stream, failed. */
  ghost predicate Failed(actions: seq<Action>, e: nat) {
    || Go(e, Open(false)) in actions
    || exists entry :: Go(e, Read(false, entry)) in actions
  }

  /** A driver that has finished under a live context has failed, and has sent all it read. */
  ghost predicate DriverOk(ep: Epoch, cancelled: bool, read: seq<LogEntry>, failed: bool) {
    && ReadOk(ep, read)
    && (ep.driver.Finished? && !cancelled ==> failed && read == ep.sent)
    && (failed ==> ep.driver.Finished?)
  }

  lemma DriverMoved(ep: Epoch, e: nat, cancelled: bool, subscribers: seq<nat>, m: Move, read: seq<LogEntry>,
                    failed: bool)
    requires CanMove(ep, cancelled, m) && DriverOk(ep, cancelled, read, failed)
    ensures DriverOk(Moved(ep, e, cancelled, subscribers, m), cancelled,
                     read + (if m.Read? && m.ok then [m.entry] else []),
                     failed || ((m.Read? || m.Open?) && !m.ok))
  {
    assert read + [] == read;
  }

  lemma FailedPush(actions: seq<Action>, a: Action, e: nat)
    ensures Failed(actions + [a], e) <==>
              Failed(actions, e) || (a.Go? && a.epoch == e && (a.move.Read? || a.move.Open?) && !a.move.ok)
  {
    if a.Go? && a.epoch == e && a.move.Read? && !a.move.ok {
      assert Go(e, Read(false, a.move.entry)) in actions + [a];
    }
    if exists entry :: Go(e, Read(false, entry)) in actions {
      var entry :| Go(e, Read(false, entry)) in actions;
      assert Go(e, Read(false, entry)) in actions + [a];
    }
  }

  ghost predicate DriversOk(s: State, actions: seq<Action>, e: nat) {
    if e < |s.epochs| then DriverOk(s.epochs[e], Cancelled(s, e), EntriesRead(actions, e), Failed(actions, e))
    else EntriesRead(actions, e) == [] && !Failed(actions, e)
  }

  lemma DriversStep(s: State, a: Action, actions: seq<Action>, e: nat)
    requires ControlOk(s) && Enabled(s, a) && DriversOk(s, actions, e)
    ensures DriversOk(Do(s, a), actions + [a], e)
  {
    FailedPush(actions, a, e);
    assert (actions + [a])[..|actions|] == actions;
    assert EntriesRead(actions, e) + [] == EntriesRead(actions, e);
    if Cancelled(s, e) {
      CancelledStays(s, a, e);
    }
    if a.Go? && a.epoch == e {
      DriverMoved(s.epochs[e], e, Cancelled(s, e), s.control.subscribers, a.move, EntriesRead(actions, e),
                  Failed(actions, e));
    }
  }

  /**
   Over every run: while its context is live, a driver finishes exactly by failing to open or
   read, and then it has sent all that it read; a driver that failed makes no further move.
   */
  lemma {:induction false} DriverEndsExactly(states: seq<State>, actions: seq<Action>, i: nat, e: nat)
    requires IsHistory(states, actions) && i <= |actions|
    ensures DriversOk(states[i], actions[..i], e)
    ensures e < |states[i].epochs| && !Cancelled(states[i], e) ==>
              && (states[i].epochs[e].driver.Finished? <==> Failed(actions[..i], e))
              && (states[i].epochs[e].driver.Finished? ==> EntriesRead(actions[..i], e) == states[i].epochs[e].sent)
  {
    if i > 0 {
      DriverEndsExactly(states, actions, i - 1, e);
      ControlAlongRun(states, actions, i - 1);
      assert actions[..i] == actions[..i - 1] + [actions[i - 1]];
      DriversStep(states[i - 1], actions[i - 1], actions[..i - 1], e);
    }
  }

  lemma ControlAlongRun(states: seq<State>, actions: seq<Action>, i: nat)
    requires IsHistory(states, actions) && i <= |actions|
    ensures ControlOk(states[i])
  {
    InvAlongRun(states, actions, i);
  }

  // ---------------------------------------------------------------- which epoch is live

  /** The last Start or Stop was a Start. */
  function Running(actions: seq<Action>): bool {
    actions != [] &&
    var a := actions[|actions| - 1];
    a.Start? || (!a.Stop? && Running(actions[..|actions| - 1]))
  }

  /** Starts that found nothing running. */
  function Started(actions: seq<Action>): nat {
    if actions == [] then 0
    else
      var before, a := actions[..|actions| - 1], actions[|actions| - 1];
      Started(before) + if a.Start? && !Running(before) then 1 else 0
  }

  /** Over every run, an epoch is live exactly if it is the newest and no Stop came after the last Start. */
  lemma {:induction false} LiveExactly(states: seq<State>, actions: seq<Action>, i: nat)
    requires IsHistory(states, actions) && i <= |actions|
    ensures states[i].control.running == Running(actions[..i]) && |states[i].epochs| == Started(actions[..i])
    ensures forall e | 0 <= e < |states[i].epochs| ::
              !Cancelled(states[i], e) <==> Running(actions[..i]) && e == Started(actions[..i]) - 1
  {
    InvAlongRun(states, actions, i);
    if i > 0 {
      LiveExactly(states, actions, i - 1);
      InvAlongRun(states, actions, i - 1);
      assert actions[..i][..i - 1] == actions[..i - 1];
      RunningStep(states[i - 1], actions[i - 1]);
    }
  }

  lemma RunningStep(s: State, a: Action)
    requires ControlOk(s) && Enabled(s, a)
    ensures Do(s, a).control.running == (a.Start? || (!a.Stop? && s.control.running))
    ensures |Do(s, a).epochs| == |s.epochs| + if a.Start? && !s.control.running then 1 else 0
  {}
}
