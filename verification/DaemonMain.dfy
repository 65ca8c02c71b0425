/**
 runDaemonServe as straight-line code over the shared files, deferred calls included
 (internal/cli/root.go, internal/daemon/lifecycle.go, internal/daemon/server.go). Between any
 two effects other processes, and this one's own idle timer, do as they please. Each effect is
 the step of DaemonProtocol that bears its name, so all that happens is one run of it.
 */
module DaemonMain {
  import opened Options
  import opened DaemonProtocol

  /** Which system calls of the start-up succeed. */
  datatype Luck = Luck(lockOpens: bool, pidOpens: bool, pidWrites: bool, binds: bool, listens: bool)
  {
    predicate Starts() {
      pidOpens && pidWrites && binds && listens
    }
  }

  predicate OfTimer(m: Move) {
    m.IdleFire? || m.IdleUnlink? || m.IdleClose? || m.IdleWait? || m.IdleRemove?
  }

  predicate IsMain(a: Action, pid: nat) {
    a.By? && a.pid == pid && !OfTimer(a.move)
  }

  /** What the main goroutine of pid does in a run. */
  function MainMoves(actions: seq<Action>, pid: nat): seq<Move> {
    if actions == [] then []
    else
      var n := |actions| - 1;
      MainMoves(actions[..n], pid) + (if IsMain(actions[n], pid) then [actions[n].move] else [])
  }

  lemma MainMovesPush(actions: seq<Action>, a: Action, pid: nat)
    ensures MainMoves(actions + [a], pid) == MainMoves(actions, pid) + if IsMain(a, pid) then [a.move] else []
  {
    assert (actions + [a])[..|actions|] == actions;
  }

  /** The ways through runDaemonServe: whatever was set up is taken down in reverse, the lock last. */
  function WayOut(luck: Luck, locked: bool): seq<Move> {
    [Acquire(luck.lockOpens)] + (if locked then [Configure] + WithLock(luck) + [Release] else [])
  }

  function WithLock(luck: Luck): seq<Move> {
    if !luck.pidOpens then [OpenPid(false)]
    else [OpenPid(true), WritePid(luck.pidWrites)] + if luck.pidWrites then Starting(luck) + [DropPid] else []
  }

  function Starting(luck: Luck): seq<Move> {
    if !luck.binds then [ClearSocket, Bind(false)]
    else [ClearSocket, Bind(true), Listen(luck.listens)]
         + if luck.listens then [Signal, Unlink, Close, Wait, Remove] else []
  }

  /** What is not main's own leaves main where it is. */
  lemma OthersKeepPc(s: State, a: Action, pid: nat)
    requires Enabled(s, a) && !IsMain(a, pid) && pid in s.procs
    ensures pid in Do(s, a).procs && Do(s, a).procs[pid].pc == s.procs[pid].pc
    ensures Do(s, a).procs[pid].graceful == s.procs[pid].graceful
  {}

  // ---------------------------------------------------------------- runs as one function

  /** Where the actions lead from s, or None if one of them cannot be taken. */
  function LeadsTo(s: State, actions: seq<Action>): Option<State> {
    if actions == [] then Some(s)
    else
      var before, a := LeadsTo(s, actions[..|actions| - 1]), actions[|actions| - 1];
      if before.Some? && Enabled(before.value, a) then Some(Do(before.value, a)) else None
  }

  lemma LeadsToNext(s: State, actions: seq<Action>, a: Action)
    requires LeadsTo(s, actions).Some? && Enabled(LeadsTo(s, actions).value, a)
    ensures LeadsTo(s, actions + [a]) == Some(Do(LeadsTo(s, actions).value, a))
  {
    assert (actions + [a])[..|actions|] == actions;
  }

  /** The same thing as a run that ends there. */
  lemma {:induction false} LeadsToIsRun(s: State, actions: seq<Action>) returns (states: seq<State>)
    requires LeadsTo(s, actions).Some?
    ensures IsRun(states, actions) && states[0] == s && states[|actions|] == LeadsTo(s, actions).value
  {
    states := [s];
    if actions != [] {
      var n := |actions| - 1;
      var init := LeadsToIsRun(s, actions[..n]);
      states := init + [LeadsTo(s, actions).value];
      forall i | 0 <= i < |actions|
        ensures Enabled(states[i], actions[i]) && states[i + 1] == Do(states[i], actions[i])
      {
        assert i < n ==> actions[i] == actions[..n][i] && states[i] == init[i] && states[i + 1] == init[i + 1];
      }
    }
  }

  lemma LeadsToInv(s: State, actions: seq<Action>)
    requires Reachable(s) && LeadsTo(s, actions).Some?
    ensures Inv(LeadsTo(s, actions).value)
  {
    ReachableInv(s);
    var states := LeadsToIsRun(s, actions);
    InvAlongRun(states, actions, |actions|);
  }

  // ---------------------------------------------------------------- the process

  class Host {
    var lock: Option<nat>
    var pidFile: PidFile
    var sock: Option<nat>
    var procs: map<nat, Proc>
    const pid: nat                // the process that runs the code
    ghost const start: State
    ghost var actions: seq<Action>
    ghost var moves: seq<Move>    // those of them that are main's own

    function Now(): State
      reads this
    {
      State(lock, pidFile, sock, procs)
    }

    /** The actions so far make a run of the protocol from `start` to here. */
    ghost predicate Valid()
      reads this
    {
      LeadsTo(start, actions) == Some(Now()) && moves == MainMoves(actions, pid) && pid in procs
    }

    ghost predicate At(pc: Pc, graceful: bool)
      reads this
    {
      Valid() && procs[pid].pc == pc && procs[pid].graceful == graceful
    }

    constructor (pid: nat, start: State)
      requires pid in start.procs
      ensures Valid() && Now() == start && this.start == start && this.pid == pid && actions == []
    {
      this.pid := pid;
      lock, pidFile, sock, procs := start.lock, start.pidFile, start.sock, start.procs;
      this.start, actions, moves := start, [], [];
    }

    /** The main goroutine's move m is all that has happened. */
    twostate predicate Did(m: Move)
      reads this
    {
      Valid() && actions == old(actions) + [By(pid, m)] && moves == old(moves) + [m]
    }

    /** Those of the actions that are possible when their turn comes and are not main's own. */
    method Others(env: seq<Action>)
      requires Valid()
      modifies this
      ensures At(old(procs[pid].pc), old(procs[pid].graceful)) && moves == old(moves)
    {
      for i := 0 to |env|
        invariant At(old(procs[pid].pc), old(procs[pid].graceful)) && moves == old(moves)
      {
        if Enabled(Now(), env[i]) && !IsMain(env[i], pid) {
          TakeOther(env[i]);
        }
      }
    }

    method TakeOther(a: Action)
      requires Valid() && Enabled(Now(), a) && !IsMain(a, pid)
      modifies this
      ensures At(old(procs[pid].pc), old(procs[pid].graceful)) && moves == old(moves)
    {
      LeadsToNext(start, actions, a);
      MainMovesPush(actions, a, pid);
      OthersKeepPc(Now(), a, pid);
      var after := Do(Now(), a);
      actions := actions + [a];
      lock, pidFile, sock, procs := after.lock, after.pidFile, after.sock, after.procs;
    }

    /** The files have been seen to; the process moves on, and the step is noted. */
    method Advance(before: State, m: Move)
      requires LeadsTo(start, actions) == Some(before) && moves == MainMoves(actions, pid)
      requires Enabled(before, By(pid, m)) && !OfTimer(m)
      requires Now().(procs := map[]) == Do(before, By(pid, m)).(procs := map[])
      modifies this`procs, this`actions, this`moves
      ensures Did(m) && procs[pid] == Moved(before, before.procs[pid], m)
    {
      LeadsToNext(start, actions, By(pid, m));
      MainMovesPush(actions, By(pid, m), pid);
      actions, moves := actions + [By(pid, m)], moves + [m];
      procs := Do(before, By(pid, m)).procs;
    }

    method AcquireLock(opens: bool) returns (ok: bool)
      requires At(Begun, false)
      modifies this
      ensures Did(Acquire(opens)) && At(if ok then Locked else Exited, false)
      ensures ok <==> opens && old(lock).None?
    {
      var before := Now();
      ok := false;
      if opens && lock.None? {
        lock := Some(pid);
        ok := true;
      }
      Advance(before, Acquire(opens));
    }

    method ReleaseLock()
      requires Valid() && procs[pid].pc == Releasing
      modifies this
      ensures Did(Release) && At(Returning, old(procs[pid].graceful))
      ensures pidFile == old(pidFile) && sock == old(sock)
    {
      var before := Now();
      lock := None;
      Advance(before, Release);
    }

    method MakeIdleTimer()
      requires At(Locked, false)
      modifies this
      ensures Did(Configure) && At(Configured, false)
    {
      Advance(Now(), Configure);
    }

    method OpenPidFile(ok: bool)
      requires At(Configured, false)
      modifies this
      ensures Did(OpenPid(ok)) && At(if ok then PidOpened else Releasing, false)
    {
      var before := Now();
      if ok {
        pidFile := Empty;
      }
      Advance(before, OpenPid(ok));
    }

    /** Should `daemon stop` have deleted the file, writing goes where no one sees it. */
    method WriteToPidFile(ok: bool)
      requires At(PidOpened, false)
      modifies this
      ensures Did(WritePid(ok)) && At(if ok then PidWritten else Releasing, false)
    {
      var before := Now();
      if ok && !pidFile.NoFile? {
        pidFile := Names(pid);
      }
      Advance(before, WritePid(ok));
    }

    method RemovePidFile()
      requires Valid() && procs[pid].pc == DroppingPid
      modifies this
      ensures Did(DropPid) && At(Releasing, old(procs[pid].graceful))
    {
      var before := Now();
      pidFile := NoFile;
      Advance(before, DropPid);
    }

    method RemoveStaleSocket()
      requires At(PidWritten, false)
      modifies this
      ensures Did(ClearSocket) && At(Cleared, false)
    {
      var before := Now();
      sock := None;
      Advance(before, ClearSocket);
    }

    /** Nobody can have bound the path since it was cleared. */
    method BindSocket(works: bool) returns (ok: bool)
      requires Reachable(start) && At(Cleared, false)
      modifies this
      ensures Did(Bind(works)) && At(if ok then Bound else DroppingPid, false) && ok == works
    {
      PathIsFree();
      var before := Now();
      ok := works && sock.None?;
      if ok {
        sock := Some(pid);
      }
      Advance(before, Bind(works));
    }

    method ListenOnSocket(works: bool)
      requires At(Bound, false)
      modifies this
      ensures Did(Listen(works)) && At(if works then Serving else DroppingPid, false)
    {
      Advance(Now(), Listen(works));
    }

    method AwaitSignal()
      requires At(Serving, false)
      modifies this
      ensures Did(Signal) && At(Closing, true)
    {
      Advance(Now(), Signal);
    }

    /** The listener's Close unlinks its file unless an idle Stop has closed it before. */
    method UnlinkSocket()
      requires At(Closing, true)
      modifies this
      ensures Did(Unlink) && At(Unlinked, true)
    {
      var before := Now();
      if !procs[pid].unlinkDone {
        sock := None;
      }
      Advance(before, Unlink);
    }

    method CloseSocket()
      requires At(Unlinked, true)
      modifies this
      ensures Did(Close) && At(Waiting, true)
    {
      Advance(Now(), Close);
    }

    method WaitForConnections()
      requires At(Waiting, true)
      modifies this
      ensures Did(Wait) && At(Removing, true)
    {
      Advance(Now(), Wait);
    }

    method RemoveSocket()
      requires At(Removing, true)
      modifies this
      ensures Did(Remove) && At(DroppingPid, true)
    {
      var before := Now();
      sock := None;
      Advance(before, Remove);
    }

    /** WritePIDFile. */
    method WritePIDFile(opens: bool, writes: bool, env: nat -> seq<Action>) returns (ok: bool)
      requires At(Configured, false)
      modifies this
      ensures (ok <==> opens && writes) && At(if ok then PidWritten else Releasing, false)
      ensures moves == old(moves) + if opens then [OpenPid(true), WritePid(writes)] else [OpenPid(false)]
    {
      OpenPidFile(opens);
      if !opens {
        return false;
      }
      Others(env(3));
      WriteToPidFile(writes);
      ok := writes;
    }

    /** net.Listen. */
    method ListenUnix(binds: bool, listens: bool, env: nat -> seq<Action>) returns (ok: bool)
      requires Reachable(start) && At(Cleared, false)
      modifies this
      ensures (ok <==> binds && listens) && At(if ok then Serving else DroppingPid, false)
      ensures moves == old(moves) + if binds then [Bind(true), Listen(listens)] else [Bind(false)]
    {
      var bound := BindSocket(binds);
      if !bound {
        return false;
      }
      Others(env(6));
      ListenOnSocket(listens);
      ok := listens;
    }

    /** The listener's Close. */
    method CloseListener(env: nat -> seq<Action>)
      requires At(Closing, true)
      modifies this
      ensures At(Waiting, true) && moves == old(moves) + [Unlink, Close]
    {
      UnlinkSocket();
      Others(env(9));
      CloseSocket();
    }

    method RemoveWhenDone(env: nat -> seq<Action>)
      requires At(Waiting, true)
      modifies this
      ensures At(DroppingPid, true) && moves == old(moves) + [Wait, Remove]
    {
      WaitForConnections();
      Others(env(11));
      RemoveSocket();
    }

    /** srv.Start. */
    method StartServer(binds: bool, listens: bool, env: nat -> seq<Action>) returns (ok: bool)
      requires Reachable(start) && At(PidWritten, false)
      modifies this
      ensures (ok <==> binds && listens) && At(if ok then Serving else DroppingPid, false)
      ensures moves == old(moves)
                         + if binds then [ClearSocket, Bind(true), Listen(listens)] else [ClearSocket, Bind(false)]
    {
      RemoveStaleSocket();
      Others(env(5));
      ok := ListenUnix(binds, listens, env);
    }

    /** srv.Stop. */
    method StopServer(env: nat -> seq<Action>)
      requires At(Closing, true)
      modifies this
      ensures At(DroppingPid, true) && moves == old(moves) + [Unlink, Close, Wait, Remove]
    {
      CloseListener(env);
      Others(env(10));
      RemoveWhenDone(env);
    }

    /**
     From AcquireLock to the last deferred call, with anything at all going on in between. Main
     takes one of the ways out; on each the lock ends up not held by this process. Exit code 0
     means a signal after a successful start, and then neither file is left.
     */
    method RunDaemonServe(luck: Luck, env: nat -> seq<Action>) returns (code: int)
      requires Reachable(start) && At(Begun, false) && moves == []
      modifies this
      ensures Valid() && (procs[pid].pc.Returning? || procs[pid].pc.Exited?) && lock != Some(pid)
      ensures moves == WayOut(luck, procs[pid].pc.Returning?)
      ensures code == 0 <==> procs[pid].pc.Returning? && luck.Starts()
      ensures code == 0 ==> pidFile.NoFile? && sock.None?
    {
      var locked := TryLock(luck.lockOpens, env);
      if locked {
        var served := WithLockHeld(luck, env);
        code := if served then 0 else 1;
      } else {
        NotHeld();
        code := 1;
      }
    }

    method TryLock(opens: bool, env: nat -> seq<Action>) returns (locked: bool)
      requires At(Begun, false)
      modifies this
      ensures At(if locked then Locked else Exited, false) && moves == old(moves) + [Acquire(opens)]
    {
      Others(env(0));
      locked := AcquireLock(opens);
    }

    /** From the lock's acquisition to its deferred release. */
    method WithLockHeld(luck: Luck, env: nat -> seq<Action>) returns (served: bool)
      requires Reachable(start) && At(Locked, false)
      modifies this
      ensures At(Returning, served) && moves == old(moves) + [Configure] + WithLock(luck) + [Release]
      ensures (served <==> luck.Starts()) && lock != Some(pid)
      ensures served ==> pidFile.NoFile? && sock.None?
    {
      Others(env(1));
      MakeIdleTimer();
      Others(env(2));
      served := ServeWithLock(luck, env);
      NothingLeft();
      ReleaseLock();
      NotHeld();
    }

    /** From WritePIDFile to the deferred RemovePIDFile. */
    method ServeWithLock(luck: Luck, env: nat -> seq<Action>) returns (served: bool)
      requires Reachable(start) && At(Configured, false)
      modifies this
      ensures At(Releasing, served) && moves == old(moves) + WithLock(luck) && (served <==> luck.Starts())
    {
      var written := WritePIDFile(luck.pidOpens, luck.pidWrites, env);
      if written {
        Others(env(4));
        served := ServeAndDropPid(luck, env);
      } else {
        served := false;
      }
      Others(env(13));
    }

    method ServeAndDropPid(luck: Luck, env: nat -> seq<Action>) returns (served: bool)
      requires Reachable(start) && At(PidWritten, false)
      modifies this
      ensures At(Releasing, served) && moves == old(moves) + Starting(luck) + [DropPid]
      ensures served <==> luck.binds && luck.listens
    {
      served := Serve(luck, env);
      Others(env(12));
      RemovePidFile();
    }

    method Serve(luck: Luck, env: nat -> seq<Action>) returns (served: bool)
      requires Reachable(start) && At(PidWritten, false)
      modifies this
      ensures At(DroppingPid, served) && moves == old(moves) + Starting(luck)
      ensures served <==> luck.binds && luck.listens
    {
      served := StartServer(luck.binds, luck.listens, env);
      if served {
        Others(env(7));
        AwaitAndStop(env);
      }
    }

    method AwaitAndStop(env: nat -> seq<Action>)
      requires At(Serving, false)
      modifies this
      ensures At(DroppingPid, true) && moves == old(moves) + [Signal, Unlink, Close, Wait, Remove]
    {
      AwaitSignal();
      Others(env(8));
      StopServer(env);
    }

    lemma NotHeld()
      requires Reachable(start) && Valid() && !Holds(procs[pid].pc)
      ensures lock != Some(pid)
    {
      LeadsToInv(start, actions);
    }

    lemma PathIsFree()
      requires Reachable(start) && At(Cleared, false)
      ensures sock.None?
    {
      LeadsToInv(start, actions);
      assert SockFor(sock, pid, procs[pid]);
    }

    lemma NothingLeft()
      requires Reachable(start) && Valid() && procs[pid].pc == Releasing
      ensures procs[pid].graceful ==> pidFile.NoFile? && sock.None?
    {
      LeadsToInv(start, actions);
      assert ListenerOk(procs[pid]) && PidFor(pidFile, pid, procs[pid]) && SockFor(sock, pid, procs[pid]);
    }
  }
}
