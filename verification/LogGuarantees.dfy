/** What the log pipeline promises over every run: order, loss, shutdown, and when a send panics. */
module LogGuarantees {
  import opened RingBuffers
  import opened LogManagers
  import opened LogPipeline

  // ---------------------------------------------------------------- storage

  /** An epoch's stored entries are a prefix of what its driver sent, whatever the other epochs do. */
  lemma StoredIsPrefixOfSent(s: State, e: nat)
    requires Reachable(s) && e < |s.epochs|
    ensures Of(s.history, e) <= Tagged(e, s.epochs[e].sent)
    ensures s.ring == LastN(s.history, s.capacity)
  {
    ReachableInv(s);
    assert EpochOk(s.epochs[e], e, Of(s.history, e));
  }

  lemma OneLiveEpoch(s: State)
    requires Reachable(s)
    ensures forall e | 0 <= e < |s.epochs| :: !Cancelled(s, e) <==> s.control.running && e == |s.epochs| - 1
    ensures s.control.running ==> s.epochs != []
  {
    ReachableInv(s);
  }

  // ---------------------------------------------------------------- after Stop

  /** What a cancelled epoch can still store. */
  function Remaining(ep: Epoch): nat {
    |InHand(ep.drain)| + |ep.queue| + if ep.driver.Reading? || ep.driver.Offering? then 1 else 0
  }

  lemma MovePays(ep: Epoch, e: nat, subscribers: seq<nat>, m: Move)
    requires CanMove(ep, true, m)
    ensures Remaining(Moved(ep, e, true, subscribers, m)) + (if m.Add? then 1 else 0) <= Remaining(ep)
  {}

  lemma CancelledStays(s: State, a: Action, e: nat)
    requires Enabled(s, a) && Cancelled(s, e)
    ensures Cancelled(Do(s, a), e)
  {}

  lemma RemainingPaysForAdds(s: State, a: Action, e: nat)
    requires EpochsOk(s.epochs, s.history) && Enabled(s, a) && e < |s.epochs| && Cancelled(s, e)
    ensures var t := Do(s, a);
            && e < |t.epochs| && Cancelled(t, e)
            && |Of(t.history, e)| + Remaining(t.epochs[e]) <= |Of(s.history, e)| + Remaining(s.epochs[e])
  {
    CancelledStays(s, a, e);
    if a.Go? {
      var ep := s.epochs[a.epoch];
      if a.move.Add? {
        HeldItem(ep, a.epoch, Of(s.history, a.epoch));
        OfPush(s.history, ep.drain.item, e);
      }
      if a.epoch == e {
        MovePays(ep, e, s.control.subscribers, a.move);
      }
    }
  }

  lemma {:induction false} RemainingAlongRun(states: seq<State>, actions: seq<Action>, i: nat, j: nat, e: nat)
    requires IsHistory(states, actions) && i <= j <= |actions|
    requires e < |states[i].epochs| && Cancelled(states[i], e)
    ensures e < |states[j].epochs| && Cancelled(states[j], e)
    ensures |Of(states[j].history, e)| + Remaining(states[j].epochs[e])
         <= |Of(states[i].history, e)| + Remaining(states[i].epochs[e])
  {
    if i < j {
      RemainingAlongRun(states, actions, i, j - 1, e);
      RemainingStep(states, actions, j - 1, e);
    }
  }

  lemma RemainingStep(states: seq<State>, actions: seq<Action>, j: nat, e: nat)
    requires IsHistory(states, actions) && j < |actions| && e < |states[j].epochs| && Cancelled(states[j], e)
    ensures e < |states[j + 1].epochs| && Cancelled(states[j + 1], e)
    ensures |Of(states[j + 1].history, e)| + Remaining(states[j + 1].epochs[e])
         <= |Of(states[j].history, e)| + Remaining(states[j].epochs[e])
  {
    EpochsAlongRun(states, actions, j);
    RemainingPaysForAdds(states[j], actions[j], e);
  }

  /** A stopped epoch stores at most 258 more: 256 queued, one in hand, one last send. */
  lemma StoppedEpochStoresAtMost258(states: seq<State>, actions: seq<Action>, i: nat, j: nat, e: nat)
    requires IsHistory(states, actions) && i <= j <= |actions|
    requires e < |states[i].epochs| && Cancelled(states[i], e)
    ensures |Of(states[j].history, e)| <= |Of(states[i].history, e)| + 258
  {
    EpochsAlongRun(states, actions, i);
    assert EpochOk(states[i].epochs[e], e, Of(states[i].history, e));
    RemainingAlongRun(states, actions, i, j, e);
  }

  ghost predicate InfiniteRun(run: nat -> State, steps: nat -> Action) {
    forall n: nat :: Enabled(run(n), steps(n)) && run(n + 1) == Do(run(n), steps(n))
  }

  /** Steps left for the two goroutines, not counting the sends of a fan-out. */
  function Work(ep: Epoch): nat {
    (match ep.driver
     case Opening => 2
     case Polling => 1
     case Reading => 8
     case Offering(_) => 7
     case Finished => 0)
    + 5 * |ep.queue|
    + (match ep.drain
       case Selecting => 1
       case Holding(_) => 5
       case Stored(_) => 4
       case Fanning(_, _, _) => 3
       case Returned => 0)
  }

  /** Sends left in the present fan-out. */
  function Sends(ep: Epoch): nat {
    if ep.drain.Fanning? && ep.drain.next <= |ep.drain.subs| then |ep.drain.subs| - ep.drain.next else 0
  }

  lemma WorkShrinks(s: State, e: nat, m: Move)
    requires Enabled(s, Go(e, m)) && Cancelled(s, e) && !Do(s, Go(e, m)).panicked
    ensures var t := Do(s, Go(e, m));
            && e < |t.epochs| && Cancelled(t, e)
            && (Work(t.epochs[e]) < Work(s.epochs[e])
                || (Work(t.epochs[e]) == Work(s.epochs[e]) && Sends(t.epochs[e]) < Sends(s.epochs[e])))
  {}

  lemma IdleStep(s: State, a: Action, e: nat)
    requires Enabled(s, a) && e < |s.epochs| && Cancelled(s, e) && !(a.Go? && a.epoch == e)
    ensures var t := Do(s, a); e < |t.epochs| && t.epochs[e] == s.epochs[e] && Cancelled(t, e)
  {}

  lemma {:induction false} EpochIdles(run: nat -> State, steps: nat -> Action, e: nat, n: nat, m: nat)
    requires InfiniteRun(run, steps) && n <= m && e < |run(n).epochs| && Cancelled(run(n), e)
    requires forall k | n <= k < m :: !(steps(k).Go? && steps(k).epoch == e)
    ensures e < |run(m).epochs| && run(m).epochs[e] == run(n).epochs[e] && Cancelled(run(m), e)
    decreases m - n
  {
    if n < m {
      EpochIdles(run, steps, e, n, m - 1);
      IdleStep(run(m - 1), steps(m - 1), e);
      assert run(m - 1 + 1) == Do(run(m - 1), steps(m - 1));
    }
  }

  ghost predicate SilentFrom(steps: nat -> Action, e: nat, n: nat) {
    forall m: nat | n <= m :: !(steps(m).Go? && steps(m).epoch == e)
  }

  /** In every infinite run, a stopped epoch's goroutines take only finitely many more steps. */
  lemma {:induction false} StoppedEpochFallsSilent(run: nat -> State, steps: nat -> Action, e: nat, n: nat)
    returns (last: nat)
    requires InfiniteRun(run, steps) && e < |run(n).epochs| && Cancelled(run(n), e)
    ensures n <= last && SilentFrom(steps, e, last)
    decreases Work(run(n).epochs[e]), Sends(run(n).epochs[e])
  {
    if SilentFrom(steps, e, n) {
      return n;
    }
    var m := FirstStep(steps, e, n);
    EpochIdles(run, steps, e, n, m);
    assert run(m + 1) == Do(run(m), steps(m)) && Enabled(run(m + 1), steps(m + 1));
    WorkShrinks(run(m), e, steps(m).move);
    last := StoppedEpochFallsSilent(run, steps, e, m + 1);
  }

  lemma FirstStep(steps: nat -> Action, e: nat, n: nat) returns (m: nat)
    requires !SilentFrom(steps, e, n)
    ensures n <= m && steps(m).Go? && steps(m).epoch == e
    ensures forall k | n <= k < m :: !(steps(k).Go? && steps(k).epoch == e)
  {
    var bound: nat :| n <= bound && steps(bound).Go? && steps(bound).epoch == e;
    m := n;
    while !(steps(m).Go? && steps(m).epoch == e)
      invariant n <= m <= bound
      invariant forall k | n <= k < m :: !(steps(k).Go? && steps(k).epoch == e)
      decreases bound - m
    {
      m := m + 1;
    }
  }

  // ---------------------------------------------------------------- no deadlock

  predicate IsDrainMove(m: Move) {
    m.Receive? || m.Return? || m.Add? || m.Copy? || m.Deliver? || m.Loop?
  }

  ghost predicate ReturnedOnlyIfCancelled(s: State) {
    forall e | 0 <= e < |s.epochs| && s.epochs[e].drain.Returned? :: Cancelled(s, e)
  }

  lemma {:induction false} LiveAlongRun(states: seq<State>, actions: seq<Action>, i: nat)
    requires IsHistory(states, actions) && i <= |actions|
    ensures ReturnedOnlyIfCancelled(states[i])
  {
    if i > 0 {
      LiveAlongRun(states, actions, i - 1);
      LiveKept(states[i - 1], actions[i - 1]);
    }
  }

  lemma LiveKept(s: State, a: Action)
    requires ReturnedOnlyIfCancelled(s) && Enabled(s, a)
    ensures ReturnedOnlyIfCancelled(Do(s, a))
  {
    forall e | 0 <= e < |s.epochs| && Cancelled(s, e)
      ensures Cancelled(Do(s, a), e)
    {
      CancelledStays(s, a, e);
    }
  }

  /** The drain of an epoch that was not stopped is there for good. */
  lemma LiveEpochKeepsItsDrain(s: State, e: nat)
    requires Reachable(s) && e < |s.epochs| && !Cancelled(s, e)
    ensures !s.epochs[e].drain.Returned?
  {
    var states, actions :| IsHistory(states, actions) && states[|actions|] == s;
    LiveAlongRun(states, actions, |actions|);
  }

  /** As long as it has not returned, a drain with anything to do can take a step. */
  lemma DrainIsNeverStuck(s: State, e: nat) returns (m: Move)
    requires Reachable(s) && !s.panicked && e < |s.epochs|
    requires var ep := s.epochs[e]; !ep.drain.Returned? && (ep.drain.Selecting? ==> ep.queue != [])
    ensures IsDrainMove(m) && Enabled(s, Go(e, m))
  {
    ReachableInv(s);
    var ep := s.epochs[e];
    assert FanOk(ep, |s.subs|);
    match ep.drain {
      case Selecting => m := Receive;
      case Holding(_) => m := Add;
      case Stored(_) => m := Copy;
      case Fanning(_, subs, next) =>
        if next < |subs| {
          m := Deliver;
          assert subs[next] in subs;
        } else {
          m := Loop;
        }
    }
  }

  /** A driver that waits for a free slot never waits for nothing: its drain can go on. */
  lemma FullQueueDrains(s: State, e: nat) returns (m: Move)
    requires Reachable(s) && !s.panicked && e < |s.epochs| && !Cancelled(s, e)
    requires s.epochs[e].driver.Offering? && !Enabled(s, Go(e, Send))
    ensures IsDrainMove(m) && Enabled(s, Go(e, m))
  {
    LiveEpochKeepsItsDrain(s, e);
    m := DrainIsNeverStuck(s, e);
  }

  // ---------------------------------------------------------------- delivery

  lemma StoredAt(s: State, x: Item)
    requires Inv(s) && x in s.history
    ensures x.epoch < |s.epochs| && x.index < |Of(s.history, x.epoch)| && Of(s.history, x.epoch)[x.index] == x
  {
    var ep, stored := s.epochs[x.epoch], Of(s.history, x.epoch);
    assert EpochOk(ep, x.epoch, stored) && x in stored;
    var k :| 0 <= k < |stored| && stored[k] == x;
    assert (stored + InHand(ep.drain) + ep.queue)[k] == x;
  }

  lemma {:induction false} OfOrdered(log: seq<Item>, e: nat)
    requires Ordered(log)
    ensures Ordered(Of(log, e))
  {
    if log != [] {
      var n := |log| - 1;
      OfOrdered(log[..n], e);
      var init := Of(log[..n], e);
      forall i | 0 <= i < |init| && log[n].epoch == e
        ensures init[i].index < log[n].index
      {
        assert init[i] in init;
        var k :| 0 <= k < n && log[..n][k] == init[i];
      }
    }
  }

  /**
   What a subscriber received or has queued of an epoch is an order-preserving, repetition-free
   selection of that epoch's stored entries: `index` embeds the one in the other.
   */
  lemma SubscriberSeesSubsequence(s: State, c: nat, e: nat)
    requires Reachable(s) && c < |s.subs| && e < |s.epochs|
    ensures var seen, stored := Of(s.subs[c].Log(), e), Of(s.history, e);
            && (forall i | 0 <= i < |seen| :: seen[i].index < |stored| && stored[seen[i].index] == seen[i])
            && forall i, j | 0 <= i < j < |seen| :: seen[i].index < seen[j].index
  {
    ReachableInv(s);
    var log := s.subs[c].Log();
    var seen := Of(log, e);
    assert LogOk(log, s.history, Limits(s.epochs, s.history, c));
    OfOrdered(log, e);
    forall i | 0 <= i < |seen|
      ensures seen[i].epoch == e
      ensures seen[i].index < |Of(s.history, e)| && Of(s.history, e)[seen[i].index] == seen[i]
    {
      assert seen[i] in seen;
      StoredAt(s, seen[i]);
    }
  }

  /** The fan-out of x is over. */
  predicate FanOutDone(s: State, x: Item) {
    && x.epoch < |s.epochs|
    && s.epochs[x.epoch].drain != DrainPc.Stored(x)
    && !(s.epochs[x.epoch].drain.Fanning? && s.epochs[x.epoch].drain.item == x)
  }

  /** Received or refused items were in the snapshot, and nothing is both. */
  ghost predicate ExactFor(c: nat, log: seq<Item>, snapshots: map<Item, seq<nat>>, dropped: set<(Item, nat)>,
                           limits: seq<int>)
  {
    && (forall x | x in log :: x in snapshots && c in snapshots[x] && (x, c) !in dropped)
    && forall x | (x, c) in dropped ::
         x in snapshots && c in snapshots[x] && x.epoch < |limits| && x.index < limits[x.epoch]
  }

  ghost predicate ExactOk(s: State) {
    && (forall x, c | (x, c) in s.dropped :: c < |s.subs|)
    && forall c | 0 <= c < |s.subs| ::
         ExactFor(c, s.subs[c].Log(), s.snapshots, s.dropped, Limits(s.epochs, s.history, c))
  }

  lemma ExactKept(c: nat, log: seq<Item>, snapshots: map<Item, seq<nat>>, dropped: set<(Item, nat)>,
                  limits: seq<int>, snapshots': map<Item, seq<nat>>, limits': seq<int>)
    requires ExactFor(c, log, snapshots, dropped, limits) && NotBelow(limits', limits)
    requires forall x | x in snapshots :: x in snapshots' && snapshots'[x] == snapshots[x]
    ensures ExactFor(c, log, snapshots', dropped, limits')
  {}

  lemma LimitsGrow(s: State, a: Action, c: nat)
    requires EpochsOk(s.epochs, s.history) && DeliveryOk(s) && Enabled(s, a) && c < |s.subs|
    ensures var t := Do(s, a); NotBelow(Limits(t.epochs, t.history, c), Limits(s.epochs, s.history, c))
  {
    if a.Go? && !Do(s, a).panicked {
      LogMoved(s, a.epoch, a.move, c);
      assert s.history + [] == s.history;
    }
  }

  lemma SnapshotsKept(s: State, a: Action)
    requires SnapshotsOk(s) && Enabled(s, a)
    ensures forall x | x in s.snapshots :: x in Do(s, a).snapshots && Do(s, a).snapshots[x] == s.snapshots[x]
  {
    if a.Go? {
      assert DrainOk(s.epochs[a.epoch].drain, a.epoch, s.snapshots);
    }
  }

  lemma ExactPreserved(s: State, a: Action)
    requires Inv(s) && ExactOk(s) && Enabled(s, a)
    ensures ExactOk(Do(s, a))
  {
    var t := Do(s, a);
    if a.Go? && a.move.Deliver? && !t.panicked {
      ExactAtDeliver(s, a.epoch);
    } else {
      SameLogs(s, a);
      forall c | 0 <= c < |t.subs|
        ensures ExactFor(c, t.subs[c].Log(), t.snapshots, t.dropped, Limits(t.epochs, t.history, c))
      {
        if c < |s.subs| {
          ExactAtOther(s, a, c);
        }
      }
    }
  }

  /** Only a send adds to what reached a channel or to what was refused. */
  lemma SameLogs(s: State, a: Action)
    requires Enabled(s, a) && (a.Go? && a.move.Deliver? ==> Do(s, a).panicked)
    ensures var t := Do(s, a);
            && t.dropped == s.dropped && |s.subs| <= |t.subs|
            && (forall c | 0 <= c < |s.subs| :: t.subs[c].Log() == s.subs[c].Log())
            && (forall c | |s.subs| <= c < |t.subs| :: t.subs[c].Log() == [])
  {
    if a.Take? {
      assert Do(s, a).subs[a.sub].Log() == s.subs[a.sub].Log();
    }
  }

  lemma ExactAtOther(s: State, a: Action, c: nat)
    requires EpochsOk(s.epochs, s.history) && DeliveryOk(s) && SnapshotsOk(s) && Enabled(s, a) && c < |s.subs|
    requires ExactFor(c, s.subs[c].Log(), s.snapshots, s.dropped, Limits(s.epochs, s.history, c))
    ensures var t := Do(s, a);
            ExactFor(c, s.subs[c].Log(), t.snapshots, s.dropped, Limits(t.epochs, t.history, c))
  {
    var t := Do(s, a);
    SnapshotsKept(s, a);
    LimitsGrow(s, a, c);
    ExactKept(c, s.subs[c].Log(), s.snapshots, s.dropped, Limits(s.epochs, s.history, c),
              t.snapshots, Limits(t.epochs, t.history, c));
  }

  /** The item of a fan-out is neither in its next target's log nor refused there. */
  lemma TargetIsNew(s: State, e: nat)
    requires Inv(s) && ExactOk(s) && Enabled(s, Go(e, Deliver))
    ensures var item, c := s.epochs[e].drain.item, Target(s.epochs[e]);
            && item !in s.subs[c].Log() && (item, c) !in s.dropped
            && item in s.snapshots && c in s.snapshots[item] && item.epoch == e
            && Limits(s.epochs, s.history, c)[e] == item.index
  {
    var ep, c := s.epochs[e], Target(s.epochs[e]);
    assert EpochOk(ep, e, Of(s.history, e)) && FanOk(ep, |s.subs|) && DrainOk(ep.drain, e, s.snapshots);
    TargetLimits(ep, e, Of(s.history, e), |s.subs|);
    assert LogOk(s.subs[c].Log(), s.history, Limits(s.epochs, s.history, c));
    assert ExactFor(c, s.subs[c].Log(), s.snapshots, s.dropped, Limits(s.epochs, s.history, c));
  }

  lemma ExactAppend(c: nat, log: seq<Item>, snapshots: map<Item, seq<nat>>, dropped: set<(Item, nat)>,
                    limits: seq<int>, x: Item)
    requires ExactFor(c, log, snapshots, dropped, limits)
    requires x in snapshots && c in snapshots[x] && (x, c) !in dropped
    ensures ExactFor(c, log + [x], snapshots, dropped, limits)
  {}

  lemma ExactRefuse(c: nat, log: seq<Item>, snapshots: map<Item, seq<nat>>, dropped: set<(Item, nat)>,
                    limits: seq<int>, x: Item, d: nat)
    requires ExactFor(c, log, snapshots, dropped, limits)
    requires c == d ==> x !in log && x in snapshots && c in snapshots[x]
                        && x.epoch < |limits| && x.index < limits[x.epoch]
    ensures ExactFor(c, log, snapshots, dropped + {(x, d)}, limits)
  {}

  lemma ExactAtDeliver(s: State, e: nat)
    requires Inv(s) && ExactOk(s) && Enabled(s, Go(e, Deliver)) && !Do(s, Go(e, Deliver)).panicked
    ensures ExactOk(Do(s, Go(e, Deliver)))
  {
    var t, target := Do(s, Go(e, Deliver)), Target(s.epochs[e]);
    var item := s.epochs[e].drain.item;
    TargetIsNew(s, e);
    forall c | 0 <= c < |s.subs|
      ensures ExactFor(c, t.subs[c].Log(), t.snapshots, t.dropped, Limits(t.epochs, t.history, c))
    {
      ExactAtTarget(s, e, c);
    }
  }

  lemma ExactBeforeSend(s: State, e: nat, c: nat)
    requires EpochsOk(s.epochs, s.history) && DeliveryOk(s) && ExactOk(s) && Enabled(s, Go(e, Deliver)) && c < |s.subs|
    ensures var t := Do(s, Go(e, Deliver));
            ExactFor(c, s.subs[c].Log(), s.snapshots, s.dropped, Limits(t.epochs, t.history, c))
  {
    var t := Do(s, Go(e, Deliver));
    LimitsGrow(s, Go(e, Deliver), c);
    ExactKept(c, s.subs[c].Log(), s.snapshots, s.dropped, Limits(s.epochs, s.history, c), s.snapshots,
              Limits(t.epochs, t.history, c));
  }

  lemma ExactAtTarget(s: State, e: nat, c: nat)
    requires Inv(s) && ExactOk(s) && Enabled(s, Go(e, Deliver)) && !Do(s, Go(e, Deliver)).panicked && c < |s.subs|
    ensures var t := Do(s, Go(e, Deliver));
            ExactFor(c, t.subs[c].Log(), t.snapshots, t.dropped, Limits(t.epochs, t.history, c))
  {
    var t := Do(s, Go(e, Deliver));
    TargetIsNew(s, e);
    ExactBeforeSend(s, e, c);
    if |s.subs[Target(s.epochs[e])].queue| < SUBSCRIBER_SLOTS {
      ExactWhenRoom(s, e, c, Limits(t.epochs, t.history, c));
    } else {
      TargetLimitAfter(s, e);
      ExactRefuse(c, s.subs[c].Log(), s.snapshots, s.dropped, Limits(t.epochs, t.history, c),
                  s.epochs[e].drain.item, Target(s.epochs[e]));
    }
  }

  lemma ExactWhenRoom(s: State, e: nat, c: nat, limits: seq<int>)
    requires Enabled(s, Go(e, Deliver)) && !Do(s, Go(e, Deliver)).panicked && c < |s.subs|
    requires ExactFor(c, s.subs[c].Log(), s.snapshots, s.dropped, limits)
    requires |s.subs[Target(s.epochs[e])].queue| < SUBSCRIBER_SLOTS
    requires var item := s.epochs[e].drain.item;
             && item in s.snapshots && Target(s.epochs[e]) in s.snapshots[item]
             && (item, Target(s.epochs[e])) !in s.dropped
    ensures var t := Do(s, Go(e, Deliver)); ExactFor(c, t.subs[c].Log(), t.snapshots, t.dropped, limits)
  {
    var t, item := Do(s, Go(e, Deliver)), s.epochs[e].drain.item;
    if c == Target(s.epochs[e]) {
      ExactAppend(c, s.subs[c].Log(), s.snapshots, s.dropped, limits, item);
      assert t.subs[c].Log() == s.subs[c].Log() + [item];
    }
  }

  lemma TargetLimitAfter(s: State, e: nat)
    requires EpochsOk(s.epochs, s.history) && DeliveryOk(s)
    requires Enabled(s, Go(e, Deliver)) && !Do(s, Go(e, Deliver)).panicked
    ensures Limits(Do(s, Go(e, Deliver)).epochs, s.history, Target(s.epochs[e]))[e] == s.epochs[e].drain.item.index + 1
  {
    TargetLimits(s.epochs[e], e, Of(s.history, e), |s.subs|);
  }

  lemma {:induction false} ExactAlongRun(states: seq<State>, actions: seq<Action>, i: nat)
    requires IsHistory(states, actions) && i <= |actions|
    ensures ExactOk(states[i])
  {
    if i > 0 {
      ExactAlongRun(states, actions, i - 1);
      InvAlongRun(states, actions, i - 1);
      ExactPreserved(states[i - 1], actions[i - 1]);
    }
  }

  lemma ReachableExact(s: State)
    requires Reachable(s)
    ensures Inv(s) && ExactOk(s)
  {
    var states, actions :| IsHistory(states, actions) && states[|actions|] == s;
    InvAlongRun(states, actions, |actions|);
    ExactAlongRun(states, actions, |actions|);
  }

  /**
   Once an entry's fan-out is over, a subscriber has it exactly when it was in the snapshot
   and its channel was not full.
   */
  lemma DeliveredFromSnapshot(s: State, x: Item, c: nat)
    requires Reachable(s) && x in s.history && c < |s.subs| && FanOutDone(s, x)
    ensures x in s.snapshots
    ensures x in s.subs[c].Log() <==> c in s.snapshots[x] && (x, c) !in s.dropped
  {
    ReachableExact(s);
    assert ExactFor(c, s.subs[c].Log(), s.snapshots, s.dropped, Limits(s.epochs, s.history, c));
    var d, snapshot := s.epochs[x.epoch].drain, s.snapshots[x];
    assert FannedOut(d, x, snapshot, s.subs, s.dropped);
    if c in snapshot {
      var j :| 0 <= j < |snapshot| && snapshot[j] == c;
      assert Settled(s.subs, s.dropped, x, snapshot[j]);
    }
  }

  lemma RefusedNow(s: State, a: Action, x: Item, c: nat)
    requires SubsOk(s) && Enabled(s, a) && (x, c) !in s.dropped && (x, c) in Do(s, a).dropped
    ensures c < |s.subs| && |s.subs[c].queue| == SUBSCRIBER_SLOTS && a.Go? && a.move.Deliver?
    ensures s.epochs[a.epoch].drain.item == x && Target(s.epochs[a.epoch]) == c
  {}

  /** An entry is refused only by a channel that holds its full 100 at that very step. */
  lemma {:induction false} RefusedOnlyWhenFull(states: seq<State>, actions: seq<Action>, n: nat, x: Item, c: nat)
    returns (i: nat)
    requires IsHistory(states, actions) && n <= |actions| && (x, c) in states[n].dropped
    ensures i < n && c < |states[i].subs| && |states[i].subs[c].queue| == 100
    ensures actions[i].Go? && actions[i].move.Deliver?
    ensures var ep := states[i].epochs[actions[i].epoch]; ep.drain.item == x && Target(ep) == c
  {
    if (x, c) in states[n - 1].dropped {
      i := RefusedOnlyWhenFull(states, actions, n - 1, x, c);
    } else {
      i := n - 1;
      InvAlongRun(states, actions, i);
      RefusedNow(states[i], actions[i], x, c);
    }
  }

  // ---------------------------------------------------------------- subscriptions

  /** Subscribed channels are distinct and open; the others were closed once. */
  lemma SubscribersAreOpen(s: State)
    requires Reachable(s)
    ensures Distinct(s.control.subscribers)
    ensures forall c | 0 <= c < |s.subs| ::
              s.subs[c].closes <= 1 && (s.subs[c].closes == 0 <==> c in s.control.subscribers)
  {
    ReachableInv(s);
  }

  /** Calling the same unsubscribe function again does nothing. */
  lemma UnsubscribeTwice(s: State, c: nat)
    requires Reachable(s) && Enabled(s, Unsubscribe(c))
    ensures var t := Do(s, Unsubscribe(c)); Enabled(t, Unsubscribe(c)) && Do(t, Unsubscribe(c)) == t
  {
    ReachableInv(s);
    WithoutIsExact(s.control.subscribers, c);
  }

  /** The process panics exactly when a fan-out reaches a channel unsubscribed since its snapshot. */
  lemma PanicsExactly(s: State, a: Action)
    requires Reachable(s) && Enabled(s, a)
    ensures Do(s, a).panicked <==>
              a.Go? && a.move.Deliver? && Target(s.epochs[a.epoch]) !in s.control.subscribers
  {
    ReachableInv(s);
  }

  lemma Reach(s: State, a: Action)
    requires Reachable(s) && Enabled(s, a)
    ensures Reachable(Do(s, a))
  {
    var states, actions :| IsHistory(states, actions) && states[|actions|] == s;
    var t := Do(s, a);
    var states', actions' := states + [t], actions + [a];
    forall i | 0 <= i < |actions'|
      ensures Enabled(states'[i], actions'[i]) && states'[i + 1] == Do(states'[i], actions'[i])
    {
      assert i < |actions| ==> states'[i] == states[i] && states'[i + 1] == states[i + 1];
    }
    assert IsHistory(states', actions') && states'[|actions'|] == t;
  }

  /** Such a run exists: one subscriber leaves between the snapshot and the send. */
  lemma UnsubscribeDuringFanOutPanics(entry: LogEntry) returns (s: State)
    ensures Reachable(s) && s.panicked
  {
    s := ReadyToFanOut(entry);
    var t := Do(s, Unsubscribe(0));
    Reach(s, Unsubscribe(0));
    WithoutIsExact(s.control.subscribers, 0);
    Reach(t, Go(0, Deliver));
    s := Do(t, Go(0, Deliver));
  }

  /** One subscriber, one epoch, nothing stored yet. */
  ghost predicate Small(s: State, ep: Epoch) {
    && Reachable(s) && !s.panicked && s.epochs == [ep]
    && s.control == Control(true, "", [false], [0]) && s.subs == [Sub([], [], 0)]
  }

  lemma SmallStep(s: State, ep: Epoch, m: Move) returns (t: State, moved: Epoch)
    requires Small(s, ep) && CanMove(ep, false, m) && !m.Deliver?
    ensures moved == Moved(ep, 0, false, [0], m) && Small(t, moved)
  {
    Reach(s, Go(0, m));
    t, moved := Do(s, Go(0, m)), Moved(ep, 0, false, [0], m);
  }

  lemma Begin() returns (s: State)
    ensures Small(s, Epoch(Opening, [], Selecting, []))
  {
    s := Initial(1);
    var none: seq<Action> := [];
    assert IsHistory([s], none) && [s][|none|] == s;
    Reach(s, Subscribe);
    s := Do(s, Subscribe);
    Reach(s, Start(""));
    s := Do(s, Start(""));
  }

  lemma ReadyToFanOut(entry: LogEntry) returns (s: State)
    ensures Small(s, Epoch(Polling, [], Fanning(Item(0, 0, entry), [0], 0), [entry]))
  {
    s := Begin();
    var ep := Epoch(Opening, [], Selecting, []);
    s, ep := SmallStep(s, ep, Open(true));
    s, ep := SmallStep(s, ep, Poll);
    s, ep := SmallStep(s, ep, Read(true, entry));
    s, ep := SmallStep(s, ep, Send);
    assert ep == Epoch(Polling, [Item(0, 0, entry)], Selecting, [entry]);
    s, ep := SmallStep(s, ep, Receive);
    assert ep == Epoch(Polling, [], Holding(Item(0, 0, entry)), [entry]);
    s, ep := SmallStep(s, ep, Add);
    s, ep := SmallStep(s, ep, Copy);
  }
}
