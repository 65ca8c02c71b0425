/**
 The goroutines of the log pipeline as an interleaving of atomic steps.

 Each Start makes an epoch: a context, a 256-slot channel, a driver goroutine that reads the
 device and sends (internal/driver/goios/syslog.go), and a drain goroutine that receives,
 stores and fans out (internal/core/log_manager.go). Epochs may overlap. A step is what runs
 without releasing a lock or touching a channel twice; consumers take from their channels at
 any time, and a send on a closed channel panics, which ends the run.
 */
module LogPipeline {
  import opened RingBuffers
  import opened LogManagers

  const QUEUE_SLOTS := 256

  /** The index-th entry that an epoch's driver sent. */
  datatype Item = Item(epoch: nat, index: nat, entry: LogEntry)

  datatype DriverPc =
    | Opening                    // GetDevice and syslog.New
    | Polling                    // the non-blocking look at ctx.Done()
    | Reading                    // blocked in ReadLogMessage
    | Offering(item: Item)       // select: send or ctx.Done()
    | Finished

  datatype DrainPc =
    | Selecting                              // select: receive or ctx.Done()
    | Holding(item: Item)                    // received, not yet stored
    | Stored(item: Item)                     // in the ring, fanOut not yet begun
    | Fanning(item: Item, subs: seq<nat>, next: nat)
    | Returned

  datatype Epoch = Epoch(driver: DriverPc, queue: seq<Item>, drain: DrainPc, sent: seq<LogEntry>)

  /** A subscriber's channel: what is queued, what its reader took, and how often it was closed. */
  datatype Sub = Sub(queue: seq<Item>, received: seq<Item>, closes: nat)
  {
    function Log(): seq<Item> {
      received + queue
    }
  }

  datatype State = State(
    capacity: nat,
    control: Control<nat>,               // subscribers are indices into subs
    epochs: seq<Epoch>,
    subs: seq<Sub>,
    ring: seq<Item>,
    history: seq<Item>,                  // every Add, oldest first
    snapshots: map<Item, seq<nat>>,      // the copy fanOut made for an item
    dropped: set<(Item, nat)>,           // sends that found the channel full
    panicked: bool)

  /** A step of one of an epoch's two goroutines. */
  datatype Move =
    | Open(ok: bool)                      // driver
    | Poll
    | Read(ok: bool, entry: LogEntry)
    | Send
    | Quit
    | Receive                             // drain
    | Return
    | Add
    | Copy
    | Deliver
    | Loop

  datatype Action =
    | Start(device: string)
    | Stop
    | Subscribe
    | Unsubscribe(sub: nat)
    | Take(sub: nat)
    | Go(epoch: nat, move: Move)

  function Initial(capacity: nat): State {
    State(capacity, Control(false, "", [], []), [], [], [], [], map[], {}, false)
  }

  predicate Cancelled(s: State, e: nat) {
    e < |s.control.cancelled| && s.control.cancelled[e]
  }

  /** Whether an epoch in this state can make the move. */
  predicate CanMove(ep: Epoch, cancelled: bool, m: Move) {
    match m
    case Open(_) => ep.driver.Opening?
    case Poll => ep.driver.Polling?
    case Read(_, _) => ep.driver.Reading?
    case Send => ep.driver.Offering? && |ep.queue| < QUEUE_SLOTS
    case Quit => ep.driver.Offering? && cancelled
    case Receive => ep.drain.Selecting? && ep.queue != []
    case Return => ep.drain.Selecting? && cancelled
    case Add => ep.drain.Holding?
    case Copy => ep.drain.Stored?
    case Deliver => ep.drain.Fanning? && ep.drain.next < |ep.drain.subs|
    case Loop => ep.drain.Fanning? && ep.drain.next >= |ep.drain.subs|
  }

  /** The epoch's own state after the move; e is its number. */
  function Moved(ep: Epoch, e: nat, cancelled: bool, subscribers: seq<nat>, m: Move): Epoch
    requires CanMove(ep, cancelled, m)
  {
    match m
    case Open(ok) => ep.(driver := if ok then Polling else Finished)
    case Poll => ep.(driver := if cancelled then Finished else Reading)
    case Read(ok, entry) => ep.(driver := if ok then Offering(Item(e, |ep.sent|, entry)) else Finished)
    case Send =>
      ep.(driver := Polling, queue := ep.queue + [ep.driver.item], sent := ep.sent + [ep.driver.item.entry])
    case Quit => ep.(driver := Finished)
    case Receive => ep.(queue := ep.queue[1..], drain := Holding(ep.queue[0]))
    case Return => ep.(drain := Returned)
    case Add => ep.(drain := Stored(ep.drain.item))
    case Copy => ep.(drain := Fanning(ep.drain.item, subscribers, 0))
    case Deliver => ep.(drain := ep.drain.(next := ep.drain.next + 1))
    case Loop => ep.(drain := Selecting)
  }

  /** The channel the fan-out of an epoch sends to next. */
  function Target(ep: Epoch): nat
    requires CanMove(ep, false, Deliver)
  {
    ep.drain.subs[ep.drain.next]
  }

  predicate Enabled(s: State, a: Action) {
    !s.panicked &&
    match a
    case Start(_) => true
    case Stop => true
    case Subscribe => true
    case Unsubscribe(c) => c < |s.subs|
    case Take(c) => c < |s.subs| && s.subs[c].queue != []
    case Go(e, m) =>
      && e < |s.epochs| && CanMove(s.epochs[e], Cancelled(s, e), m)
      && (m.Deliver? ==> Target(s.epochs[e]) < |s.subs|)
  }

  function RingPush(ring: seq<Item>, x: Item, capacity: nat): seq<Item> {
    (if |ring| < capacity || ring == [] then ring else ring[1..]) + [x]
  }

  function Do(s: State, a: Action): State
    requires Enabled(s, a)
  {
    match a
    case Start(device) =>
      s.(control := s.control.Started(device),
         epochs := if s.control.running then s.epochs else s.epochs + [Epoch(Opening, [], Selecting, [])])
    case Stop => s.(control := s.control.Stopped())
    case Subscribe =>
      s.(control := s.control.(subscribers := s.control.subscribers + [|s.subs|]), subs := s.subs + [Sub([], [], 0)])
    case Unsubscribe(c) =>
      if c in s.control.subscribers then
        s.(control := s.control.(subscribers := Without(s.control.subscribers, c)),
           subs := s.subs[c := s.subs[c].(closes := s.subs[c].closes + 1)])
      else s
    case Take(c) =>
      var q := s.subs[c].queue;
      s.(subs := s.subs[c := s.subs[c].(queue := q[1..], received := s.subs[c].received + [q[0]])])
    case Go(e, m) =>
      var ep := s.epochs[e];
      var t := s.(epochs := s.epochs[e := Moved(ep, e, Cancelled(s, e), s.control.subscribers, m)]);
      if m.Add? then
        t.(ring := RingPush(s.ring, ep.drain.item, s.capacity), history := s.history + [ep.drain.item])
      else if m.Copy? then
        t.(snapshots := s.snapshots[ep.drain.item := s.control.subscribers])
      else if m.Deliver? then
        var c := Target(ep);
        if s.subs[c].closes > 0 then s.(panicked := true)
        else if |s.subs[c].queue| < SUBSCRIBER_SLOTS then
          t.(subs := s.subs[c := s.subs[c].(queue := s.subs[c].queue + [ep.drain.item])])
        else t.(dropped := s.dropped + {(ep.drain.item, c)})
      else t
  }

  // ---------------------------------------------------------------- runs

  ghost predicate IsRun(states: seq<State>, actions: seq<Action>) {
    && |states| == |actions| + 1
    && forall i | 0 <= i < |actions| :: Enabled(states[i], actions[i]) && states[i + 1] == Do(states[i], actions[i])
  }

  /** A run from the state NewLogManager leaves. */
  ghost predicate IsHistory(states: seq<State>, actions: seq<Action>) {
    IsRun(states, actions) && states[0].capacity > 0 && states[0] == Initial(states[0].capacity)
  }

  ghost predicate Reachable(s: State) {
    exists states, actions :: IsHistory(states, actions) && states[|actions|] == s
  }

  // ---------------------------------------------------------------- the invariant

  /** The items of one epoch, in order. */
  function Of(s: seq<Item>, e: nat): (r: seq<Item>)
    ensures forall x :: x in r <==> x in s && x.epoch == e
  {
    if s == [] then []
    else Of(s[..|s| - 1], e) + (if s[|s| - 1].epoch == e then [s[|s| - 1]] else [])
  }

  lemma OfPush(s: seq<Item>, x: Item, e: nat)
    ensures Of(s + [x], e) == Of(s, e) + (if x.epoch == e then [x] else [])
  {
    assert (s + [x])[..|s|] == s;
  }

  /** What an epoch's driver sent, tagged with positions. */
  function Tagged(e: nat, sent: seq<LogEntry>): (r: seq<Item>)
    ensures |r| == |sent| && forall i | 0 <= i < |r| :: r[i] == Item(e, i, sent[i])
  {
    seq(|sent|, i requires 0 <= i < |sent| => Item(e, i, sent[i]))
  }

  function InHand(d: DrainPc): seq<Item> {
    if d.Holding? then [d.item] else []
  }

  /**
   Stored, held or queued: before the ring, nothing that was sent is lost, repeated or
   reordered. `stored` is what the epoch has in the history.
   */
  ghost predicate EpochOk(ep: Epoch, e: nat, stored: seq<Item>) {
    && |ep.queue| <= QUEUE_SLOTS
    && stored + InHand(ep.drain) + ep.queue == Tagged(e, ep.sent)
    && (ep.driver.Offering? ==> ep.driver.item == Item(e, |ep.sent|, ep.driver.item.entry))
    && (ep.drain.Stored? || ep.drain.Fanning? ==> stored != [] && ep.drain.item == stored[|stored| - 1])
  }

  ghost predicate ControlOk(s: State) {
    |s.control.cancelled| == |s.epochs| && s.control.Consistent()
  }

  ghost predicate RingOk(s: State) {
    s.capacity > 0 && s.ring == LastN(s.history, s.capacity)
  }

  ghost predicate EpochsOk(epochs: seq<Epoch>, history: seq<Item>) {
    && (forall x | x in history :: x.epoch < |epochs|)
    && forall e | 0 <= e < |epochs| :: EpochOk(epochs[e], e, Of(history, e))
  }

  ghost predicate SubsOk(s: State) {
    && Distinct(s.control.subscribers)
    && (forall c | c in s.control.subscribers :: c < |s.subs|)
    && forall c | 0 <= c < |s.subs| ::
         && |s.subs[c].queue| <= SUBSCRIBER_SLOTS
         && s.subs[c].closes == if c in s.control.subscribers then 0 else 1
  }

  /** How many of an epoch's stored items the fan-out may already have offered to c. */
  function Offered(ep: Epoch, stored: nat, c: nat): int {
    match ep.drain
    case Stored(item) => item.index
    case Fanning(item, subs, next) => if next <= |subs| && c in subs[..next] then item.index + 1 else item.index
    case _ => stored
  }

  ghost predicate Ordered(items: seq<Item>) {
    forall i, j | 0 <= i < j < |items| && items[i].epoch == items[j].epoch :: items[i].index < items[j].index
  }

  /** For each epoch, how many of its items may have been offered to c. */
  function Limits(epochs: seq<Epoch>, history: seq<Item>, c: nat): (r: seq<int>)
    ensures |r| == |epochs|
  {
    seq(|epochs|, e requires 0 <= e < |epochs| => Offered(epochs[e], |Of(history, e)|, c))
  }

  /** What ever reached a channel: stored items, each epoch's in order, none beyond its limit. */
  ghost predicate LogOk(log: seq<Item>, history: seq<Item>, limits: seq<int>) {
    && Ordered(log)
    && forall x | x in log :: x in history && x.epoch < |limits| && x.index < limits[x.epoch]
  }

  ghost predicate FanOk(ep: Epoch, subs: nat) {
    ep.drain.Fanning? ==>
      && ep.drain.next <= |ep.drain.subs|
      && Distinct(ep.drain.subs)
      && forall c | c in ep.drain.subs :: c < subs
  }

  ghost predicate DeliveryOk(s: State) {
    && (forall e | 0 <= e < |s.epochs| :: FanOk(s.epochs[e], |s.subs|))
    && forall c | 0 <= c < |s.subs| :: LogOk(s.subs[c].Log(), s.history, Limits(s.epochs, s.history, c))
  }

  /** How far through its snapshot the fan-out of a stored item has come. */
  function Progress(d: DrainPc, x: Item, subs: seq<nat>): nat {
    if d.Fanning? && d.item == x then d.next else |subs|
  }

  ghost predicate Settled(subs: seq<Sub>, dropped: set<(Item, nat)>, x: Item, c: nat) {
    (c < |subs| && x in subs[c].Log()) || (x, c) in dropped
  }

  /** The channels the fan-out of x has passed got it, or were full. */
  ghost predicate FannedOut(d: DrainPc, x: Item, snapshot: seq<nat>, subs: seq<Sub>, dropped: set<(Item, nat)>) {
    forall j | 0 <= j < Progress(d, x, snapshot) && j < |snapshot| :: Settled(subs, dropped, x, snapshot[j])
  }

  /** Each stored item has a snapshot, unless its fan-out has yet to begin. */
  ghost predicate SnapshotsOk(s: State) {
    && (forall x | x in s.snapshots :: x in s.history && x.epoch < |s.epochs|)
    && (forall x | x in s.history ::
          x in s.snapshots || (x.epoch < |s.epochs| && s.epochs[x.epoch].drain == DrainPc.Stored(x)))
    && (forall e | 0 <= e < |s.epochs| :: DrainOk(s.epochs[e].drain, e, s.snapshots))
    && forall x | x in s.snapshots ::
         FannedOut(s.epochs[x.epoch].drain, x, s.snapshots[x], s.subs, s.dropped)
  }

  ghost predicate DrainOk(d: DrainPc, e: nat, snapshots: map<Item, seq<nat>>) {
    && (d.Stored? ==> d.item !in snapshots)
    && (d.Fanning? ==> d.item.epoch == e && d.item in snapshots && snapshots[d.item] == d.subs)
  }

  ghost predicate Inv(s: State) {
    && ControlOk(s) && RingOk(s) && EpochsOk(s.epochs, s.history)
    && SubsOk(s) && DeliveryOk(s) && SnapshotsOk(s)
  }

  // ---------------------------------------------------------------- preservation

  lemma EpochMoved(ep: Epoch, e: nat, cancelled: bool, subscribers: seq<nat>, m: Move, stored: seq<Item>)
    requires EpochOk(ep, e, stored) && CanMove(ep, cancelled, m)
    ensures EpochOk(Moved(ep, e, cancelled, subscribers, m), e, stored + if m.Add? then [ep.drain.item] else [])
  {
    match m {
      case Send =>
        SendMoved(ep, e, stored);
      case Receive =>
        assert stored + [ep.queue[0]] + ep.queue[1..] == stored + [] + ep.queue;
        assert stored + [] == stored;
      case Add =>
        assert stored + [ep.drain.item] + [] + ep.queue == stored + [ep.drain.item] + ep.queue;
      case _ =>
        assert stored + [] == stored;
    }
  }

  lemma SendMoved(ep: Epoch, e: nat, stored: seq<Item>)
    requires EpochOk(ep, e, stored) && CanMove(ep, false, Send)
    ensures stored + InHand(ep.drain) + (ep.queue + [ep.driver.item]) == Tagged(e, ep.sent + [ep.driver.item.entry])
    ensures stored + [] == stored
  {
    assert Tagged(e, ep.sent + [ep.driver.item.entry]) == Tagged(e, ep.sent) + [ep.driver.item];
  }

  /** What the drain holds belongs to its own epoch. */
  lemma HeldItem(ep: Epoch, e: nat, stored: seq<Item>)
    requires EpochOk(ep, e, stored) && ep.drain.Holding?
    ensures ep.drain.item.epoch == e && ep.drain.item.index == |stored|
  {
    assert (stored + InHand(ep.drain) + ep.queue)[|stored|] == ep.drain.item;
  }

  lemma ControlPreserved(s: State, a: Action)
    requires ControlOk(s) && Enabled(s, a)
    ensures ControlOk(Do(s, a))
  {}

  lemma RingPreserved(s: State, a: Action)
    requires RingOk(s) && Enabled(s, a)
    ensures RingOk(Do(s, a))
  {
    if a.Go? && a.move.Add? {
      LastNPush(s.history, s.epochs[a.epoch].drain.item, s.capacity);
    }
  }

  lemma {:induction false} NoneOf(s: seq<Item>, e: nat)
    requires forall x | x in s :: x.epoch < e
    ensures Of(s, e) == []
  {
    if s != [] {
      NoneOf(s[..|s| - 1], e);
    }
  }

  lemma EpochsPreserved(s: State, a: Action)
    requires EpochsOk(s.epochs, s.history) && Enabled(s, a)
    ensures EpochsOk(Do(s, a).epochs, Do(s, a).history)
  {
    match a {
      case Start(device) =>
        EpochStarted(s.epochs, s.history);
      case Go(e, m) =>
        assert s.history + [] == s.history;
        EpochsMoved(s.epochs, s.history, e, Cancelled(s, e), s.control.subscribers, m);
      case _ =>
    }
  }

  lemma EpochStarted(epochs: seq<Epoch>, history: seq<Item>)
    requires EpochsOk(epochs, history)
    ensures EpochsOk(epochs + [Epoch(Opening, [], Selecting, [])], history)
  {
    NoneOf(history, |epochs|);
    assert [] + [] + [] == Tagged(|epochs|, []);
  }

  lemma EpochsMoved(epochs: seq<Epoch>, history: seq<Item>, e: nat, cancelled: bool, subscribers: seq<nat>, m: Move)
    requires EpochsOk(epochs, history) && e < |epochs| && CanMove(epochs[e], cancelled, m)
    ensures EpochsOk(epochs[e := Moved(epochs[e], e, cancelled, subscribers, m)],
                     history + if m.Add? then [epochs[e].drain.item] else [])
  {
    var ep, stored := epochs[e], Of(history, e);
    EpochMoved(ep, e, cancelled, subscribers, m, stored);
    if m.Add? {
      HeldItem(ep, e, stored);
    }
    EpochsUpdated(epochs, history, e, Moved(ep, e, cancelled, subscribers, m),
                  if m.Add? then [ep.drain.item] else []);
  }

  lemma EpochsUpdated(epochs: seq<Epoch>, history: seq<Item>, e: nat, moved: Epoch, added: seq<Item>)
    requires EpochsOk(epochs, history) && e < |epochs|
    requires |added| <= 1 && forall x | x in added :: x.epoch == e
    requires EpochOk(moved, e, Of(history, e) + added)
    ensures EpochsOk(epochs[e := moved], history + added)
  {
    forall k: nat | k < |epochs|
      ensures EpochOk(epochs[e := moved][k], k, Of(history + added, k))
    {
      OfAdded(history, e, added, k);
      assert k != e ==> Of(history, k) + [] == Of(history, k);
    }
  }

  lemma SubsPreserved(s: State, a: Action)
    requires SubsOk(s) && Enabled(s, a)
    ensures SubsOk(Do(s, a))
  {
    if a.Unsubscribe? {
      WithoutIsExact(s.control.subscribers, a.sub);
    } else if a.Subscribe? {
      assert |s.subs| !in s.control.subscribers;
    }
  }

  lemma OfferedMoved(ep: Epoch, e: nat, cancelled: bool, subscribers: seq<nat>, m: Move, stored: seq<Item>, c: nat)
    requires EpochOk(ep, e, stored) && CanMove(ep, cancelled, m)
    ensures Offered(Moved(ep, e, cancelled, subscribers, m), |stored| + (if m.Add? then 1 else 0), c)
         >= Offered(ep, |stored|, c)
  {
    if ep.drain.Holding? {
      HeldItem(ep, e, stored);
    } else if ep.drain.Stored? || ep.drain.Fanning? {
      LastStored(ep, e, stored);
    }
    if m.Deliver? {
      var subs, next := ep.drain.subs, ep.drain.next;
      assert subs[..next + 1][..next] == subs[..next];
      assert c in subs[..next] ==> c in subs[..next + 1];
    }
  }

  lemma LastStored(ep: Epoch, e: nat, stored: seq<Item>)
    requires EpochOk(ep, e, stored) && (ep.drain.Stored? || ep.drain.Fanning?)
    ensures ep.drain.item.index == |stored| - 1 && ep.drain.item.epoch == e
  {
    assert (stored + InHand(ep.drain) + ep.queue)[|stored| - 1] == ep.drain.item;
  }

  lemma OfAdded(history: seq<Item>, e: nat, added: seq<Item>, k: nat)
    requires |added| <= 1 && forall x | x in added :: x.epoch == e
    ensures Of(history + added, k) == Of(history, k) + if k == e then added else []
  {
    if added == [] {
      assert history + added == history && Of(history, k) + [] == Of(history, k);
    } else {
      OfPush(history, added[0], k);
      assert [added[0]] == added;
    }
  }

  ghost predicate NotBelow(a: seq<int>, b: seq<int>) {
    |b| <= |a| && forall k | 0 <= k < |b| :: a[k] >= b[k]
  }

  lemma LogKept(log: seq<Item>, history: seq<Item>, limits: seq<int>, history': seq<Item>, limits': seq<int>)
    requires LogOk(log, history, limits) && NotBelow(limits', limits) && history <= history'
    ensures LogOk(log, history', limits')
  {}

  lemma LimitsMoved(epochs: seq<Epoch>, history: seq<Item>, e: nat, moved: Epoch, added: seq<Item>, c: nat)
    requires e < |epochs| && |added| <= 1 && forall x | x in added :: x.epoch == e
    requires Offered(moved, |Of(history, e)| + |added|, c) >= Offered(epochs[e], |Of(history, e)|, c)
    ensures NotBelow(Limits(epochs[e := moved], history + added, c), Limits(epochs, history, c))
  {
    forall k: nat | k < |epochs|
      ensures Limits(epochs[e := moved], history + added, c)[k] >= Limits(epochs, history, c)[k]
    {
      OfAdded(history, e, added, k);
      if k != e {
        assert epochs[e := moved][k] == epochs[k] && Of(history, k) + [] == Of(history, k);
      }
    }
  }

  /** The send step: the item is newer than all that the channel ever got from this epoch. */
  lemma LogDelivered(log: seq<Item>, history: seq<Item>, limits: seq<int>, limits': seq<int>, x: Item)
    requires LogOk(log, history, limits) && NotBelow(limits', limits)
    requires x in history && x.epoch < |limits| && limits[x.epoch] <= x.index < limits'[x.epoch]
    ensures LogOk(log + [x], history, limits')
  {
    forall i | 0 <= i < |log| && log[i].epoch == x.epoch
      ensures log[i].index < x.index
    {
      assert log[i] in log;
    }
  }

  lemma TargetLimits(ep: Epoch, e: nat, stored: seq<Item>, subs: nat)
    requires EpochOk(ep, e, stored) && FanOk(ep, subs) && CanMove(ep, false, Deliver)
    ensures Offered(ep, |stored|, Target(ep)) == ep.drain.item.index
    ensures Offered(ep.(drain := ep.drain.(next := ep.drain.next + 1)), |stored|, Target(ep)) == ep.drain.item.index + 1
    ensures ep.drain.item in stored && ep.drain.item.epoch == e
  {
    LastStored(ep, e, stored);
    var d, c := ep.drain, Target(ep);
    assert c !in d.subs[..d.next];
    assert d.subs[..d.next + 1][d.next] == c;
  }

  lemma DeliveryPreserved(s: State, a: Action)
    requires EpochsOk(s.epochs, s.history) && SubsOk(s) && DeliveryOk(s) && Enabled(s, a)
    ensures DeliveryOk(Do(s, a))
  {
    var t := Do(s, a);
    match a {
      case Start(device) =>
        forall c | 0 <= c < |s.subs|
          ensures LogOk(s.subs[c].Log(), s.history, Limits(t.epochs, s.history, c))
        {
          LogKept(s.subs[c].Log(), s.history, Limits(s.epochs, s.history, c), s.history,
                  Limits(t.epochs, s.history, c));
        }
      case Take(c) =>
        assert t.subs[c].Log() == s.subs[c].Log();
      case Go(e, m) =>
        DeliveryMoved(s, e, m);
      case _ =>
    }
  }

  lemma FanMoved(ep: Epoch, e: nat, cancelled: bool, subscribers: seq<nat>, m: Move, subs: nat)
    requires FanOk(ep, subs) && CanMove(ep, cancelled, m)
    requires Distinct(subscribers) && forall c | c in subscribers :: c < subs
    ensures FanOk(Moved(ep, e, cancelled, subscribers, m), subs)
  {}

  lemma LogMoved(s: State, e: nat, m: Move, c: nat)
    requires EpochsOk(s.epochs, s.history) && DeliveryOk(s) && Enabled(s, Go(e, m)) && c < |s.subs|
    ensures var moved := Moved(s.epochs[e], e, Cancelled(s, e), s.control.subscribers, m);
            var history := s.history + if m.Add? then [s.epochs[e].drain.item] else [];
            var before, after := Limits(s.epochs, s.history, c), Limits(s.epochs[e := moved], history, c);
            NotBelow(after, before) && LogOk(s.subs[c].Log(), history, after)
  {
    var ep, stored := s.epochs[e], Of(s.history, e);
    var added := if m.Add? then [ep.drain.item] else [];
    var moved := Moved(ep, e, Cancelled(s, e), s.control.subscribers, m);
    if m.Add? {
      HeldItem(ep, e, stored);
    }
    OfferedMoved(ep, e, Cancelled(s, e), s.control.subscribers, m, stored, c);
    LimitsMoved(s.epochs, s.history, e, moved, added, c);
    LogKept(s.subs[c].Log(), s.history, Limits(s.epochs, s.history, c),
            s.history + added, Limits(s.epochs[e := moved], s.history + added, c));
  }

  lemma DeliveryMoved(s: State, e: nat, m: Move)
    requires EpochsOk(s.epochs, s.history) && SubsOk(s) && DeliveryOk(s) && Enabled(s, Go(e, m))
    ensures DeliveryOk(Do(s, Go(e, m)))
  {
    var t := Do(s, Go(e, m));
    FanMoved(s.epochs[e], e, Cancelled(s, e), s.control.subscribers, m, |s.subs|);
    if !t.panicked {
      assert s.history + [] == s.history;
      forall c | 0 <= c < |s.subs|
        ensures LogOk(t.subs[c].Log(), t.history, Limits(t.epochs, t.history, c))
      {
        LogMoved(s, e, m, c);
        if m.Deliver? && c == Target(s.epochs[e]) && |s.subs[c].queue| < SUBSCRIBER_SLOTS {
          DeliveredTo(s, e);
        }
      }
    }
  }

  lemma DeliveredTo(s: State, e: nat)
    requires EpochsOk(s.epochs, s.history) && DeliveryOk(s) && Enabled(s, Go(e, Deliver))
    requires s.subs[Target(s.epochs[e])].closes == 0 && |s.subs[Target(s.epochs[e])].queue| < SUBSCRIBER_SLOTS
    ensures var t, c := Do(s, Go(e, Deliver)), Target(s.epochs[e]);
            LogOk(t.subs[c].Log(), s.history, Limits(t.epochs, s.history, c))
  {
    var t, c, ep := Do(s, Go(e, Deliver)), Target(s.epochs[e]), s.epochs[e];
    LogMoved(s, e, Deliver, c);
    assert s.history + [] == s.history;
    TargetLimits(ep, e, Of(s.history, e), |s.subs|);
    LogDelivered(s.subs[c].Log(), s.history, Limits(s.epochs, s.history, c), Limits(t.epochs, s.history, c),
                 ep.drain.item);
    assert t.subs[c].Log() == s.subs[c].Log() + [ep.drain.item];
  }

  /** Logs and the record of full channels only grow. */
  ghost predicate Grown(s: State, t: State) {
    && |s.subs| <= |t.subs| && s.dropped <= t.dropped
    && forall c, x | 0 <= c < |s.subs| && x in s.subs[c].Log() :: x in t.subs[c].Log()
  }

  lemma LogsGrow(s: State, a: Action)
    requires Enabled(s, a)
    ensures Grown(s, Do(s, a))
  {
    if a.Take? {
      assert Do(s, a).subs[a.sub].Log() == s.subs[a.sub].Log();
    }
  }

  lemma FannedOutKept(d: DrainPc, d': DrainPc, x: Item, snapshot: seq<nat>, s: State, t: State)
    requires FannedOut(d, x, snapshot, s.subs, s.dropped) && Grown(s, t)
    requires Progress(d', x, snapshot) <= Progress(d, x, snapshot) || |snapshot| <= Progress(d, x, snapshot)
    ensures FannedOut(d', x, snapshot, t.subs, t.dropped)
  {
    forall j | 0 <= j < Progress(d', x, snapshot) && j < |snapshot|
      ensures Settled(t.subs, t.dropped, x, snapshot[j])
    {
      assert Settled(s.subs, s.dropped, x, snapshot[j]);
    }
  }

  lemma SnapshotsPreserved(s: State, a: Action)
    requires EpochsOk(s.epochs, s.history) && SnapshotsOk(s) && Enabled(s, a)
    ensures SnapshotsOk(Do(s, a))
  {
    if a.Go? {
      match a.move {
        case Add => SnapshotsAtAdd(s, a.epoch);
        case Copy => SnapshotsAtCopy(s, a.epoch);
        case Deliver => SnapshotsAtDeliver(s, a.epoch);
        case _ => SnapshotsAtOther(s, a.epoch, a.move);
      }
    } else {
      SnapshotsAtRest(s, a);
    }
  }

  lemma SnapshotsAtRest(s: State, a: Action)
    requires SnapshotsOk(s) && Enabled(s, a) && !a.Go?
    ensures SnapshotsOk(Do(s, a))
  {
    var t := Do(s, a);
    LogsGrow(s, a);
    forall x | x in s.snapshots
      ensures FannedOut(t.epochs[x.epoch].drain, x, t.snapshots[x], t.subs, t.dropped)
    {
      FannedOutKept(s.epochs[x.epoch].drain, t.epochs[x.epoch].drain, x, s.snapshots[x], s, t);
    }
  }

  lemma SnapshotsAtAdd(s: State, e: nat)
    requires EpochsOk(s.epochs, s.history) && SnapshotsOk(s) && Enabled(s, Go(e, Add))
    ensures SnapshotsOk(Do(s, Go(e, Add)))
  {
    var t, item := Do(s, Go(e, Add)), s.epochs[e].drain.item;
    NewItem(s, e);
    LogsGrow(s, Go(e, Add));
    forall x | x in s.snapshots
      ensures FannedOut(t.epochs[x.epoch].drain, x, t.snapshots[x], t.subs, t.dropped)
    {
      FannedOutKept(s.epochs[x.epoch].drain, t.epochs[x.epoch].drain, x, s.snapshots[x], s, t);
    }
  }

  /** What the drain is about to store has not been stored before. */
  lemma NewItem(s: State, e: nat)
    requires EpochsOk(s.epochs, s.history) && e < |s.epochs| && s.epochs[e].drain.Holding?
    ensures s.epochs[e].drain.item !in s.history && s.epochs[e].drain.item.epoch == e
  {
    var ep, stored := s.epochs[e], Of(s.history, e);
    HeldItem(ep, e, stored);
    forall k | 0 <= k < |stored|
      ensures stored[k].index == k
    {
      assert stored[k] == (stored + InHand(ep.drain) + ep.queue)[k];
    }
  }

  lemma SnapshotsAtCopy(s: State, e: nat)
    requires EpochsOk(s.epochs, s.history) && SnapshotsOk(s) && Enabled(s, Go(e, Copy))
    ensures SnapshotsOk(Do(s, Go(e, Copy)))
  {
    var t, item := Do(s, Go(e, Copy)), s.epochs[e].drain.item;
    LastStored(s.epochs[e], e, Of(s.history, e));
    assert DrainOk(s.epochs[e].drain, e, s.snapshots);
    assert item in Of(s.history, e);
    LogsGrow(s, Go(e, Copy));
    forall k | 0 <= k < |t.epochs|
      ensures DrainOk(t.epochs[k].drain, k, t.snapshots)
    {
      assert DrainOk(s.epochs[k].drain, k, s.snapshots);
      if k != e && t.epochs[k].drain.Stored? {
        LastStored(s.epochs[k], k, Of(s.history, k));
      }
    }
    forall x | x in t.snapshots
      ensures FannedOut(t.epochs[x.epoch].drain, x, t.snapshots[x], t.subs, t.dropped)
    {
      if x != item {
        FannedOutKept(s.epochs[x.epoch].drain, t.epochs[x.epoch].drain, x, s.snapshots[x], s, t);
      }
    }
  }

  lemma FannedOutNext(d: DrainPc, x: Item, s: State, t: State)
    requires d.Fanning? && d.item == x && d.next < |d.subs| && Grown(s, t)
    requires FannedOut(d, x, d.subs, s.subs, s.dropped) && Settled(t.subs, t.dropped, x, d.subs[d.next])
    ensures FannedOut(d.(next := d.next + 1), x, d.subs, t.subs, t.dropped)
  {
    forall j | 0 <= j < d.next
      ensures Settled(t.subs, t.dropped, x, d.subs[j])
    {
      assert Settled(s.subs, s.dropped, x, d.subs[j]);
    }
  }

  /** The send step leaves the target with the item, or on record as full. */
  lemma TargetSettled(s: State, e: nat)
    requires Enabled(s, Go(e, Deliver)) && !Do(s, Go(e, Deliver)).panicked
    ensures var t := Do(s, Go(e, Deliver));
            Settled(t.subs, t.dropped, s.epochs[e].drain.item, Target(s.epochs[e]))
  {}

  lemma SnapshotsAtDeliver(s: State, e: nat)
    requires SnapshotsOk(s) && Enabled(s, Go(e, Deliver))
    ensures SnapshotsOk(Do(s, Go(e, Deliver)))
  {
    var t, d := Do(s, Go(e, Deliver)), s.epochs[e].drain;
    if !t.panicked {
      assert DrainOk(d, e, s.snapshots);
      LogsGrow(s, Go(e, Deliver));
      TargetSettled(s, e);
      forall x | x in s.snapshots
        ensures FannedOut(t.epochs[x.epoch].drain, x, s.snapshots[x], t.subs, t.dropped)
      {
        if x == d.item {
          FannedOutNext(d, x, s, t);
        } else {
          FannedOutKept(s.epochs[x.epoch].drain, t.epochs[x.epoch].drain, x, s.snapshots[x], s, t);
        }
      }
    }
  }

  /** No other move takes a fan-out forward. */
  lemma ProgressKept(ep: Epoch, e: nat, cancelled: bool, subscribers: seq<nat>, m: Move, x: Item, snapshot: seq<nat>)
    requires CanMove(ep, cancelled, m) && !m.Copy? && !m.Deliver?
    requires ep.drain.Fanning? && ep.drain.item == x ==> ep.drain.subs == snapshot
    ensures var d, d' := ep.drain, Moved(ep, e, cancelled, subscribers, m).drain;
            Progress(d', x, snapshot) <= Progress(d, x, snapshot) || |snapshot| <= Progress(d, x, snapshot)
  {}

  lemma SnapshotsAtOther(s: State, e: nat, m: Move)
    requires SnapshotsOk(s) && Enabled(s, Go(e, m))
    requires !m.Add? && !m.Copy? && !m.Deliver?
    ensures SnapshotsOk(Do(s, Go(e, m)))
  {
    var t := Do(s, Go(e, m));
    assert DrainOk(s.epochs[e].drain, e, s.snapshots);
    LogsGrow(s, Go(e, m));
    forall x | x in s.snapshots
      ensures FannedOut(t.epochs[x.epoch].drain, x, t.snapshots[x], t.subs, t.dropped)
    {
      if x.epoch == e {
        ProgressKept(s.epochs[e], e, Cancelled(s, e), s.control.subscribers, m, x, s.snapshots[x]);
      }
      FannedOutKept(s.epochs[x.epoch].drain, t.epochs[x.epoch].drain, x, s.snapshots[x], s, t);
    }
  }

  lemma InvPreserved(s: State, a: Action)
    requires Inv(s) && Enabled(s, a)
    ensures Inv(Do(s, a))
  {
    ControlPreserved(s, a);
    RingPreserved(s, a);
    EpochsPreserved(s, a);
    SubsPreserved(s, a);
    DeliveryPreserved(s, a);
    SnapshotsPreserved(s, a);
  }

  lemma {:induction false} InvAlongRun(states: seq<State>, actions: seq<Action>, i: nat)
    requires IsHistory(states, actions) && i <= |actions|
    ensures Inv(states[i])
  {
    if i > 0 {
      InvAlongRun(states, actions, i - 1);
      InvPreserved(states[i - 1], actions[i - 1]);
    }
  }

  lemma ReachableInv(s: State)
    requires Reachable(s)
    ensures Inv(s)
  {
    var states, actions :| IsHistory(states, actions) && states[|actions|] == s;
    InvAlongRun(states, actions, |actions|);
  }

  lemma EpochsAlongRun(states: seq<State>, actions: seq<Action>, i: nat)
    requires IsHistory(states, actions) && i <= |actions|
    ensures EpochsOk(states[i].epochs, states[i].history)
  {
    InvAlongRun(states, actions, i);
  }
}
