/** ensureDaemon of internal/cli/root.go: what a client that dials, starts a daemon and dials again can rely on. */
module DaemonClients {
  import opened Options
  import opened DaemonProtocol

  datatype Outcome = Connected(attempt: nat, daemon: nat) | StartFailed | NotAvailable

  const RETRIES := 50

  lemma AnsweringAt(states: seq<State>, actions: seq<Action>, i: nat)
    requires IsRun(states, actions) && Clean(states[0]) && i <= |actions|
    ensures forall p: nat :: DialReaches(states[i]) == Some(p) <==> Answering(actions[..i], p)
    ensures DialReaches(states[i]).Some? ==> DialReaches(states[i]) == states[i].lock
  {
    var none: seq<Action> := [];
    assert IsRun([states[0]], none) && Clean([states[0]][0]) && [states[0]][|none|] == states[0];
    forall p: nat
      ensures DialReaches(states[i]) == Some(p) <==> Answering(actions[..i], p)
    {
      DialledExactly(states, actions, p, i);
    }
    InvAlongRun(states, actions, i);
    OnlyHolderDialled(states[i]);
  }

  /** What answers now and did not before has begun to listen in between. */
  lemma ListenedBetween(actions: seq<Action>, p: nat, i: nat, j: nat)
    requires i <= j <= |actions| && Answering(actions[..j], p) && !Answering(actions[..i], p)
    ensures By(p, Listen(true)) in actions[i..j]
  {
    var b :| 0 <= b < j && AnswersSince(actions[..j], p, b);
    var k :| b + 1 <= k < j && actions[..j][k] == By(p, Listen(true));
    if k < i {
      AnsweredBefore(actions, p, b, k, i, j);
    }
    assert actions[i..j][k - i] == By(p, Listen(true));
  }

  lemma AnsweredBefore(actions: seq<Action>, p: nat, b: nat, k: nat, i: nat, j: nat)
    requires b < k < i <= j <= |actions| && AnswersSince(actions[..j], p, b) && actions[k] == By(p, Listen(true))
    ensures Answering(actions[..i], p)
  {
    assert actions[..i][b + 1..] <= actions[..j][b + 1..];
    assert actions[..i][b + 1..][k - b - 1] == By(p, Listen(true));
    assert AnswersSince(actions[..i], p, b);
  }

  ghost predicate SomeoneAnswers(actions: seq<Action>) {
    exists p :: Answering(actions, p)
  }

  /**
   ensureDaemon in the middle of any run: one dial, one start, then up to 50 more dials, the
   i-th of them at position `at[i]`. Process `pid` is the one it starts.
   */
  method EnsureDaemon(states: seq<State>, actions: seq<Action>, at: seq<nat>, pid: nat, startWorks: bool)
    returns (outcome: Outcome, starts: nat)
    requires IsRun(states, actions) && Clean(states[0])
    requires |at| == RETRIES + 1 && forall i, j | 0 <= i <= j < |at| :: at[i] <= at[j] <= |actions|
    requires DialReaches(states[at[0]]).None? && startWorks ==> Spawn(pid) in actions[at[0]..at[1]]
    ensures outcome.Connected? <==>
              exists k | 0 <= k <= 50 :: SomeoneAnswers(actions[..at[k]]) && (k == 0 || startWorks)
    ensures outcome.Connected? ==>
              && outcome.attempt <= RETRIES && Answering(actions[..at[outcome.attempt]], outcome.daemon)
              && states[at[outcome.attempt]].lock == Some(outcome.daemon)
              && forall j | 0 <= j < outcome.attempt :: !SomeoneAnswers(actions[..at[j]])
    ensures outcome.Connected? && outcome.attempt > 0 ==>
              By(outcome.daemon, Listen(true)) in actions[at[outcome.attempt - 1]..at[outcome.attempt]]
    ensures outcome.StartFailed? <==> !SomeoneAnswers(actions[..at[0]]) && !startWorks
    ensures starts == if SomeoneAnswers(actions[..at[0]]) then 0 else 1
    ensures starts == 1 && startWorks ==> pid !in states[at[0]].procs && pid in states[at[1]].procs
  {
    var reached := DialReaches(states[at[0]]);
    AnsweringAt(states, actions, at[0]);
    if reached.Some? {
      return Connected(0, reached.value), 0;
    }
    starts := 1;
    if !startWorks {
      return StartFailed, starts;
    }
    SpawnedBetween(states, actions, pid, at[0], at[1]);
    for i := 0 to RETRIES
      invariant forall j | 0 <= j <= i :: !SomeoneAnswers(actions[..at[j]])
    {
      reached := DialReaches(states[at[i + 1]]);
      AnsweringAt(states, actions, at[i + 1]);
      if reached.Some? {
        ListenedBetween(actions, reached.value, at[i], at[i + 1]);
        return Connected(i + 1, reached.value), starts;
      }
    }
    outcome := NotAvailable;
  }

  lemma {:induction false} ProcsStay(states: seq<State>, actions: seq<Action>, i: nat, j: nat)
    requires IsRun(states, actions) && i <= j <= |actions|
    ensures states[i].procs.Keys <= states[j].procs.Keys
  {
    if i < j {
      ProcsStay(states, actions, i, j - 1);
    }
  }

  lemma SpawnedBetween(states: seq<State>, actions: seq<Action>, pid: nat, i: nat, j: nat)
    requires IsRun(states, actions) && i <= j <= |actions| && Spawn(pid) in actions[i..j]
    ensures pid !in states[i].procs && pid in states[j].procs
  {
    var k :| i <= k < j && actions[k] == Spawn(pid);
    ProcsStay(states, actions, i, k);
    ProcsStay(states, actions, k + 1, j);
  }
}
