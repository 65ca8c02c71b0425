/**
 Any number of daemon processes over one lock file, PID file and socket path
 (internal/cli/root.go, internal/daemon/lifecycle.go, internal/daemon/server.go).

 A process is a program counter of runDaemonServe, the progress of each srv.Stop that its
 idle timer has set off in another goroutine, and the state of its listener. A crash can come
 at any step of a live process: it frees the lock, closes the listener, and leaves files
 behind. Process ids are never reused. A timer may fire at any moment once it exists.
 */
module DaemonProtocol {
  import opened Options

  datatype Pc =
    | Begun           // before AcquireLock
    | Locked          // holds the lock; the idle timer does not exist yet
    | Configured      // idle timer made, before WritePIDFile opens its file
    | PidOpened       // the PID file is created or truncated, not yet written
    | PidWritten      // before srv.Start removes a stale socket
    | Cleared         // before bind
    | Bound           // the socket file exists, not yet listening
    | Serving         // in <-sigCh
    | Closing         // signalled: srv.Stop, before the listener unlinks its file
    | Unlinked        // before the listener's descriptor is closed
    | Waiting         // listener closed, in wg.Wait
    | Removing        // before srv.Stop's os.Remove
    | DroppingPid     // deferred RemovePIDFile
    | Releasing       // deferred ReleaseLock
    | Returning       // lock released, the process has yet to exit
    | Exited
    | Crashed

  /** Where one idle-timer call of srv.Stop stands. */
  datatype IdlePc =
    | Fired(sawListener: bool)
    | IdleUnlinked
    | IdleWaiting
    | IdleRemoving
    | IdleDone

  /**
   `published` is whether srv.listener is set, `unlinkDone` whether the listener has unlinked
   its file (it does so once, whoever closes it), `listening` whether it accepts.
   `graceful` marks the way out through a signal, as opposed to a failed start.
   */
  datatype Proc = Proc(pc: Pc, published: bool, listening: bool, unlinkDone: bool, graceful: bool, idle: seq<IdlePc>)

  datatype PidFile = NoFile | Empty | Names(pid: nat)

  /** `sock` is the process that bound the socket file, if the file exists. */
  datatype State = State(lock: Option<nat>, pidFile: PidFile, sock: Option<nat>, procs: map<nat, Proc>)

  datatype Move =
    | Acquire(ok: bool)      // false: mkdir or open fails; a held lock fails in any case
    | Configure
    | OpenPid(ok: bool)
    | WritePid(ok: bool)
    | ClearSocket
    | Bind(ok: bool)
    | Listen(ok: bool)
    | Signal
    | Unlink
    | Close
    | Wait
    | Remove
    | DropPid
    | Release
    | Exit
    | IdleFire
    | IdleUnlink(k: nat)
    | IdleClose(k: nat)
    | IdleWait(k: nat)
    | IdleRemove(k: nat)
    | Crash

  datatype Action =
    | Spawn(pid: nat)
    | StopDeletesPidFile     // `daemon stop` removes a PID file it takes for stale
    | By(pid: nat, move: Move)

  predicate Alive(pc: Pc) {
    !pc.Exited? && !pc.Crashed?
  }

  predicate HasTimer(pc: Pc) {
    Alive(pc) && !pc.Begun? && !pc.Locked?
  }

  predicate CanMove(p: Proc, m: Move) {
    match m
    case Acquire(_) => p.pc.Begun?
    case Configure => p.pc.Locked?
    case OpenPid(_) => p.pc.Configured?
    case WritePid(_) => p.pc.PidOpened?
    case ClearSocket => p.pc.PidWritten?
    case Bind(_) => p.pc.Cleared?
    case Listen(_) => p.pc.Bound?
    case Signal => p.pc.Serving?
    case Unlink => p.pc.Closing?
    case Close => p.pc.Unlinked?
    case Wait => p.pc.Waiting?
    case Remove => p.pc.Removing?
    case DropPid => p.pc.DroppingPid?
    case Release => p.pc.Releasing?
    case Exit => p.pc.Returning?
    case IdleFire => HasTimer(p.pc)
    case IdleUnlink(k) => HasTimer(p.pc) && k < |p.idle| && p.idle[k] == Fired(true)
    case IdleClose(k) => HasTimer(p.pc) && k < |p.idle| && p.idle[k].IdleUnlinked?
    case IdleWait(k) => HasTimer(p.pc) && k < |p.idle| && (p.idle[k] == Fired(false) || p.idle[k].IdleWaiting?)
    case IdleRemove(k) => HasTimer(p.pc) && k < |p.idle| && p.idle[k].IdleRemoving?
    case Crash => Alive(p.pc)
  }

  predicate Enabled(s: State, a: Action) {
    match a
    case Spawn(pid) => pid !in s.procs
    case StopDeletesPidFile => true
    case By(pid, m) => pid in s.procs && CanMove(s.procs[pid], m)
  }

  /** Whether Bind finds the path free. */
  predicate BindWorks(s: State, ok: bool) {
    ok && s.sock.None?
  }

  /** The process after its move. */
  function Moved(s: State, p: Proc, m: Move): Proc
    requires CanMove(p, m)
  {
    match m
    case Acquire(ok) => p.(pc := if ok && s.lock.None? then Locked else Exited)
    case Configure => p.(pc := Configured)
    case OpenPid(ok) => p.(pc := if ok then PidOpened else Releasing)
    case WritePid(ok) => p.(pc := if ok then PidWritten else Releasing)
    case ClearSocket => p.(pc := Cleared)
    case Bind(ok) => p.(pc := if BindWorks(s, ok) then Bound else DroppingPid)
    case Listen(ok) => if ok then p.(pc := Serving, published := true, listening := true) else p.(pc := DroppingPid)
    case Signal => p.(pc := Closing, graceful := true)
    case Unlink => p.(pc := Unlinked, unlinkDone := true)
    case Close => p.(pc := Waiting, listening := false)
    case Wait => p.(pc := Removing)
    case Remove => p.(pc := DroppingPid)
    case DropPid => p.(pc := Releasing)
    case Release => p.(pc := Returning)
    case Exit => p.(pc := Exited)
    case IdleFire => p.(idle := p.idle + [Fired(p.published)])
    case IdleUnlink(k) => p.(unlinkDone := true, idle := p.idle[k := IdleUnlinked])
    case IdleClose(k) => p.(listening := false, idle := p.idle[k := IdleWaiting])
    case IdleWait(k) => p.(idle := p.idle[k := IdleRemoving])
    case IdleRemove(k) => p.(idle := p.idle[k := IdleDone])
    case Crash => p.(pc := Crashed, listening := false)
  }

  /** Whether the move removes whatever file is at the socket path. */
  predicate Unlinks(p: Proc, m: Move) {
    match m
    case ClearSocket => true
    case Unlink => !p.unlinkDone
    case Remove => true
    case IdleUnlink(_) => !p.unlinkDone
    case IdleRemove(_) => true
    case _ => false
  }

  function LockAfter(s: State, pid: nat, m: Move): Option<nat> {
    match m
    case Acquire(ok) => if ok && s.lock.None? then Some(pid) else s.lock
    case Release => None
    case Crash => if s.lock == Some(pid) then None else s.lock
    case _ => s.lock
  }

  /** Writing goes to the file that OpenPid opened; once that is deleted, no file appears. */
  function PidFileAfter(s: State, pid: nat, m: Move): PidFile {
    match m
    case OpenPid(ok) => if ok then Empty else s.pidFile
    case WritePid(ok) => if ok && !s.pidFile.NoFile? then Names(pid) else s.pidFile
    case DropPid => NoFile
    case _ => s.pidFile
  }

  function SockAfter(s: State, pid: nat, p: Proc, m: Move): Option<nat> {
    if Unlinks(p, m) then None
    else if m.Bind? && BindWorks(s, m.ok) then Some(pid)
    else s.sock
  }

  function Do(s: State, a: Action): State
    requires Enabled(s, a)
  {
    match a
    case Spawn(pid) => s.(procs := s.procs[pid := Proc(Begun, false, false, false, false, [])])
    case StopDeletesPidFile => s.(pidFile := NoFile)
    case By(pid, m) =>
      var p := s.procs[pid];
      State(LockAfter(s, pid, m), PidFileAfter(s, pid, m), SockAfter(s, pid, p, m), s.procs[pid := Moved(s, p, m)])
  }

  /** The process a Dial reaches: the one that bound the file at the path, if it is listening. */
  function DialReaches(s: State): Option<nat> {
    if s.sock.Some? && s.sock.value in s.procs && s.procs[s.sock.value].listening then s.sock else None
  }

  // ---------------------------------------------------------------- runs

  /** Before the run: no live process, but files that long-gone daemons left may be lying around. */
  ghost predicate Clean(s: State) {
    && s.lock.None?
    && (forall p | p in s.procs :: s.procs[p] == Proc(Crashed, false, false, false, false, []))
    && (s.pidFile.Names? ==> s.pidFile.pid in s.procs)
    && (s.sock.Some? ==> s.sock.value in s.procs)
  }

  ghost predicate IsRun(states: seq<State>, actions: seq<Action>) {
    && |states| == |actions| + 1
    && forall i | 0 <= i < |actions| :: Enabled(states[i], actions[i]) && states[i + 1] == Do(states[i], actions[i])
  }

  ghost predicate Reachable(s: State) {
    exists states, actions :: IsRun(states, actions) && Clean(states[0]) && states[|actions|] == s
  }

  // ---------------------------------------------------------------- the invariant

  /** Between AcquireLock and ReleaseLock. */
  predicate Holds(pc: Pc) {
    !pc.Begun? && !pc.Returning? && Alive(pc)
  }

  ghost predicate LockOk(s: State) {
    && (forall p | p in s.procs :: Holds(s.procs[p].pc) <==> s.lock == Some(p))
    && (s.lock.Some? ==> s.lock.value in s.procs)
  }

  predicate BeforeListen(pc: Pc) {
    pc.Begun? || pc.Locked? || pc.Configured? || pc.PidOpened? || pc.PidWritten? || pc.Cleared? || pc.Bound?
  }

  predicate AfterListen(pc: Pc) {
    pc.Serving? || pc.Closing? || pc.Unlinked? || pc.Waiting? || pc.Removing?
  }

  /** What main and the idle goroutines of one process agree on about its listener. */
  ghost predicate ListenerOk(p: Proc) {
    MainOk(p) && IdleOk(p)
  }

  ghost predicate IdleOk(p: Proc) {
    && (forall k | 0 <= k < |p.idle| && p.idle[k] == Fired(true) :: p.published)
    && forall k | 0 <= k < |p.idle| && p.idle[k].IdleUnlinked? :: p.unlinkDone
  }

  predicate MainOk(p: Proc) {
    && (p.listening ==> p.published && (p.pc.Serving? || p.pc.Closing? || p.pc.Unlinked?))
    && (p.published && Alive(p.pc) && !p.pc.Serving? && !p.pc.Closing? ==> p.unlinkDone)
    && (p.unlinkDone ==> p.published)
    && (p.published ==> p.pc.Serving? || p.graceful || p.pc.Crashed?)
    && (AfterListen(p.pc) ==> p.published)
    && (BeforeListen(p.pc) ==> !p.published)
    && (p.graceful ==> p.published && !p.pc.Serving?)
    && (p.pc.Begun? || p.pc.Locked? ==> p.idle == [])
  }

  /** From srv.Start's removal of a stale socket to the deferred RemovePIDFile. */
  predicate PastClear(pc: Pc) {
    pc.Cleared? || pc.Bound? || AfterListen(pc) || pc.DroppingPid?
  }

  /** Past ClearSocket, a socket file can only be the one that p bound and has not unlinked. */
  predicate SockFor(sock: Option<nat>, p: nat, proc: Proc) {
    sock.Some? && (PastClear(proc.pc) || (proc.pc.Releasing? && proc.graceful)) ==>
      sock == Some(p) && !proc.pc.Cleared? && !proc.unlinkDone
  }

  ghost predicate SockOk(s: State) {
    && (s.sock.Some? ==> s.sock.value in s.procs)
    && forall p | p in s.procs :: SockFor(s.sock, p, s.procs[p])
  }

  /** A PID file names p only from its WritePid to its DropPid, or when p has ended. */
  predicate PidFor(file: PidFile, p: nat, proc: Proc) {
    && (file == Names(p) ==> !Alive(proc.pc) || PastClear(proc.pc) || proc.pc.PidWritten?)
    && (proc.pc.Releasing? && proc.graceful ==> file.NoFile?)
  }

  ghost predicate PidOk(s: State) {
    && (s.pidFile.Names? ==> s.pidFile.pid in s.procs)
    && forall p | p in s.procs :: PidFor(s.pidFile, p, s.procs[p])
  }

  ghost predicate Inv(s: State) {
    LockOk(s) && (forall p | p in s.procs :: ListenerOk(s.procs[p])) && SockOk(s) && PidOk(s)
  }

  lemma ListenerMoved(s: State, p: Proc, m: Move)
    requires ListenerOk(p) && CanMove(p, m)
    ensures ListenerOk(Moved(s, p, m))
  {
    MainMoved(s, p, m);
  }

  lemma MainMoved(s: State, p: Proc, m: Move)
    requires ListenerOk(p) && CanMove(p, m)
    ensures MainOk(Moved(s, p, m))
  {}

  lemma InvPreserved(s: State, a: Action)
    requires Inv(s) && Enabled(s, a)
    ensures Inv(Do(s, a))
  {
    match a {
      case By(pid, m) =>
        ListenerMoved(s, s.procs[pid], m);
        LockMoved(s, pid, m);
        FilesMoved(s, pid, m);
      case _ =>
    }
  }

  lemma LockMoved(s: State, pid: nat, m: Move)
    requires LockOk(s) && Enabled(s, By(pid, m))
    ensures LockOk(Do(s, By(pid, m)))
  {
    var p := s.procs[pid];
    var after := Moved(s, p, m);
    assert Holds(after.pc) <==> LockAfter(s, pid, m) == Some(pid);
    assert forall q | q in s.procs && q != pid :: LockAfter(s, pid, m) == Some(q) <==> s.lock == Some(q);
  }

  /** While pid is in the guarded part of the code, no other process is. */
  lemma Alone(s: State, pid: nat)
    requires LockOk(s) && pid in s.procs && Holds(s.procs[pid].pc)
    ensures forall q | q in s.procs && q != pid :: !Holds(s.procs[q].pc)
  {}

  lemma SelfMoved(s: State, pid: nat, m: Move)
    requires Enabled(s, By(pid, m)) && ListenerOk(s.procs[pid])
    requires SockFor(s.sock, pid, s.procs[pid]) && PidFor(s.pidFile, pid, s.procs[pid])
    ensures SockFor(SockAfter(s, pid, s.procs[pid], m), pid, Moved(s, s.procs[pid], m))
    ensures PidFor(PidFileAfter(s, pid, m), pid, Moved(s, s.procs[pid], m))
  {}

  lemma OthersKept(s: State, pid: nat, m: Move, q: nat)
    requires Enabled(s, By(pid, m)) && q in s.procs && q != pid
    requires Holds(s.procs[pid].pc) ==> !Holds(s.procs[q].pc)
    requires SockFor(s.sock, q, s.procs[q]) && PidFor(s.pidFile, q, s.procs[q])
    ensures SockFor(SockAfter(s, pid, s.procs[pid], m), q, s.procs[q])
    ensures PidFor(PidFileAfter(s, pid, m), q, s.procs[q])
  {}

  lemma FilesMoved(s: State, pid: nat, m: Move)
    requires LockOk(s) && SockOk(s) && PidOk(s) && Enabled(s, By(pid, m)) && ListenerOk(s.procs[pid])
    ensures SockOk(Do(s, By(pid, m))) && PidOk(Do(s, By(pid, m)))
  {
    var t := Do(s, By(pid, m));
    SelfMoved(s, pid, m);
    if Holds(s.procs[pid].pc) {
      Alone(s, pid);
    }
    forall q | q in t.procs
      ensures SockFor(t.sock, q, t.procs[q]) && PidFor(t.pidFile, q, t.procs[q])
    {
      if q != pid {
        OthersKept(s, pid, m, q);
      }
    }
  }

  lemma {:induction false} InvAlongRun(states: seq<State>, actions: seq<Action>, i: nat)
    requires IsRun(states, actions) && Inv(states[0]) && i <= |actions|
    ensures Inv(states[i])
  {
    if i > 0 {
      InvAlongRun(states, actions, i - 1);
      InvPreserved(states[i - 1], actions[i - 1]);
    }
  }

  lemma ReachableInv(s: State)
    requires Reachable(s)
    ensures Inv(s)
  {
    var states, actions :| IsRun(states, actions) && Clean(states[0]) && states[|actions|] == s;
    InvAlongRun(states, actions, |actions|);
  }

  // ---------------------------------------------------------------- one daemon

  /** At most one process is between AcquireLock and ReleaseLock. */
  lemma OneHolder(s: State, p: nat, q: nat)
    requires Reachable(s) && p in s.procs && q in s.procs
    requires Holds(s.procs[p].pc) && Holds(s.procs[q].pc)
    ensures p == q && s.lock == Some(p)
  {
    ReachableInv(s);
  }

  /** Every open listener belongs to the lock's holder, and a Dial that succeeds reaches it. */
  lemma DialReachesHolder(s: State)
    requires Reachable(s)
    ensures forall p | p in s.procs && s.procs[p].listening :: s.lock == Some(p)
    ensures DialReaches(s).Some? ==> DialReaches(s) == s.lock
  {
    ReachableInv(s);
    OnlyHolderDialled(s);
  }

  /** q has bound the socket path and has not begun to take it down. */
  predicate Bears(s: State, q: nat) {
    s.sock == Some(q) && q in s.procs && (s.procs[q].pc.Bound? || s.procs[q].pc.Serving? || s.procs[q].pc.Closing?)
  }

  /** The step removes the socket file that another, live process bound. */
  predicate TakesAnothersSocket(s: State, a: Action) {
    && a.By? && a.pid in s.procs && Unlinks(s.procs[a.pid], a.move)
    && s.sock.Some? && s.sock.value != a.pid && Bears(s, s.sock.value)
  }

  /**
   A process takes another's live socket exactly when an idle-timer Stop outlives its own
   main's ReleaseLock and gets to its os.Remove after the next daemon has bound the path.
   */
  lemma TakesAnothersSocketExactly(s: State, a: Action)
    requires Reachable(s) && Enabled(s, a)
    ensures TakesAnothersSocket(s, a) <==>
              && a.By? && a.move.IdleRemove? && s.procs[a.pid].pc.Returning?
              && s.sock.Some? && Bears(s, s.sock.value)
  {
    ReachableInv(s);
    if a.By? {
      assert ListenerOk(s.procs[a.pid]);
    }
  }

  // ---------------------------------------------------------------- files

  lemma PidFileNamesHolderOrDead(s: State)
    requires Reachable(s) && s.pidFile.Names?
    ensures s.pidFile.pid in s.procs
    ensures s.lock == Some(s.pidFile.pid) || !Alive(s.procs[s.pidFile.pid].pc)
  {
    ReachableInv(s);
  }

  /** When a signalled daemon comes to its ReleaseLock, neither file exists, and no one can have made one. */
  lemma GracefulExitLeavesNothing(s: State, p: nat)
    requires Reachable(s) && p in s.procs && s.procs[p].pc.Releasing? && s.procs[p].graceful
    ensures s.pidFile.NoFile? && s.sock.None?
    ensures Do(s, By(p, Release)).pidFile.NoFile? && Do(s, By(p, Release)).sock.None?
  {
    ReachableInv(s);
    assert ListenerOk(s.procs[p]);
  }

  // ---------------------------------------------------------------- when the PID file names p

  /** Between opening its PID file and removing it. */
  predicate HasPidFile(pc: Pc) {
    pc.PidOpened? || pc.PidWritten? || PastClear(pc)
  }

  predicate Left(pc: Pc) {
    pc.Releasing? || pc.Returning? || !Alive(pc)
  }

  /** Where p and its PID file stand since p opened it, from what has happened since. */
  predicate PidStage(file: PidFile, p: nat, pc: Pc, written: bool, dropped: bool, deleted: bool) {
    if Left(pc) then Alive(pc) ==> dropped || !written
    else
      && HasPidFile(pc) && (pc.PidOpened? <==> !written) && !dropped
      && file == if deleted then NoFile else if written then Names(p) else Empty
  }

  lemma PidStageOwnMove(s: State, p: nat, m: Move, written: bool, dropped: bool, deleted: bool)
    requires Enabled(s, By(p, m)) && PidStage(s.pidFile, p, s.procs[p].pc, written, dropped, deleted)
    ensures PidStage(PidFileAfter(s, p, m), p, Moved(s, s.procs[p], m).pc, written || m == WritePid(true),
                     dropped || m.DropPid?, deleted)
  {
    match m {
      case OpenPid(_) =>
      case WritePid(_) =>
      case DropPid =>
      case _ =>
    }
  }

  lemma PidStageStep(s: State, a: Action, p: nat, written: bool, dropped: bool, deleted: bool)
    requires LockOk(s) && Enabled(s, a) && p in s.procs
    requires PidStage(s.pidFile, p, s.procs[p].pc, written, dropped, deleted)
    ensures PidStage(Do(s, a).pidFile, p, Do(s, a).procs[p].pc, written || a == By(p, WritePid(true)),
                     dropped || a == By(p, DropPid), deleted || a.StopDeletesPidFile?)
  {
    if a.By? {
      if a.pid == p {
        PidStageOwnMove(s, p, a.move, written, dropped, deleted);
      } else if Holds(s.procs[p].pc) {
        Alone(s, p);
      }
    }
  }

  lemma {:induction false} PidStageAlongRun(states: seq<State>, actions: seq<Action>, p: nat, o: nat, i: nat)
    requires IsRun(states, actions) && Inv(states[0]) && o < i <= |actions| && actions[o] == By(p, OpenPid(true))
    ensures p in states[i].procs
    ensures var since := actions[o + 1..i];
            PidStage(states[i].pidFile, p, states[i].procs[p].pc, By(p, WritePid(true)) in since,
                     By(p, DropPid) in since, StopDeletesPidFile in since)
  {
    if o + 1 < i {
      PidStageAlongRun(states, actions, p, o, i - 1);
      InvAlongRun(states, actions, i - 1);
      var before, a := actions[o + 1..i - 1], actions[i - 1];
      assert actions[o + 1..i] == before + [a];
      PidStageStep(states[i - 1], a, p, By(p, WritePid(true)) in before, By(p, DropPid) in before,
                   StopDeletesPidFile in before);
    }
  }

  /**
   Over every run: from its WritePIDFile to its RemovePIDFile the file names a live p, exactly
   as long as no `daemon stop` has deleted the file since p opened it; else there is no file.
   */
  lemma PidFileNamesExactly(states: seq<State>, actions: seq<Action>, p: nat, o: nat, i: nat)
    requires IsRun(states, actions) && Reachable(states[0]) && o < i <= |actions| && actions[o] == By(p, OpenPid(true))
    requires By(p, WritePid(true)) in actions[o + 1..i] && By(p, DropPid) !in actions[o + 1..i]
    requires p in states[i].procs && Alive(states[i].procs[p].pc)
    ensures states[i].pidFile == Names(p) <==> StopDeletesPidFile !in actions[o + 1..i]
    ensures states[i].pidFile == Names(p) || states[i].pidFile.NoFile?
  {
    ReachableInv(states[0]);
    PidStageAlongRun(states, actions, p, o, i);
  }

  // ---------------------------------------------------------------- when a Dial reaches p

  /** p bound the file at the path, and listens or has yet to. */
  predicate Up(s: State, p: nat) {
    s.sock == Some(p) && p in s.procs && (s.procs[p].pc.Bound? || s.procs[p].listening)
  }

  /** Takes p's socket away: p unlinks it, p dies, or any process comes to the os.Remove of an idle srv.Stop. */
  predicate Silences(a: Action, p: nat) {
    a.By? && (a.move.IdleRemove? || (a.pid == p && (a.move.Unlink? || a.move.IdleUnlink? || a.move.Crash?)))
  }

  /** Where p stands after its Bind, from whether it has listened and whether it has been silenced since. */
  predicate StageOf(sock: Option<nat>, p: nat, proc: Proc, listened: bool, silenced: bool) {
    var up := sock == Some(p) && (proc.pc.Bound? || proc.listening);
    && (BeforeListen(proc.pc) ==> proc.pc.Bound?) && (proc.pc.Serving? ==> listened)
    && if silenced then !up else if listened then up && proc.listening else up <==> proc.pc.Bound?
  }

  predicate Stage(s: State, p: nat, listened: bool, silenced: bool) {
    p in s.procs && StageOf(s.sock, p, s.procs[p], listened, silenced)
  }

  lemma StageAtBind(s: State, p: nat)
    requires Inv(s) && Enabled(s, By(p, Bind(true)))
    ensures Stage(Do(s, By(p, Bind(true))), p, false, false)
  {
    assert SockFor(s.sock, p, s.procs[p]) && ListenerOk(s.procs[p]);
  }

  lemma StageOwnMove(s: State, p: nat, m: Move, listened: bool, silenced: bool)
    requires Enabled(s, By(p, m)) && ListenerOk(s.procs[p]) && SockFor(s.sock, p, s.procs[p])
    requires StageOf(s.sock, p, s.procs[p], listened, silenced)
    ensures StageOf(SockAfter(s, p, s.procs[p], m), p, Moved(s, s.procs[p], m),
                    listened || m == Listen(true), silenced || Silences(By(p, m), p))
  {}

  lemma StageOthersMove(s: State, p: nat, q: nat, m: Move, listened: bool, silenced: bool)
    requires Enabled(s, By(q, m)) && q != p && p in s.procs && ListenerOk(s.procs[p]) && ListenerOk(s.procs[q])
    requires Holds(s.procs[p].pc) ==> !Holds(s.procs[q].pc)
    requires StageOf(s.sock, p, s.procs[p], listened, silenced)
    ensures StageOf(SockAfter(s, q, s.procs[q], m), p, s.procs[p], listened, silenced || Silences(By(q, m), p))
  {}

  lemma StageStep(s: State, a: Action, p: nat, listened: bool, silenced: bool)
    requires Inv(s) && Enabled(s, a) && Stage(s, p, listened, silenced)
    ensures Stage(Do(s, a), p, listened || a == By(p, Listen(true)), silenced || Silences(a, p))
  {
    match a {
      case By(q, m) =>
        if q == p {
          StageOwnMove(s, p, m, listened, silenced);
        } else {
          if Holds(s.procs[p].pc) {
            Alone(s, p);
          }
          StageOthersMove(s, p, q, m, listened, silenced);
        }
      case _ =>
    }
  }

  lemma NotUpBeforeBind(s: State, a: Action, p: nat)
    requires Inv(s) && Enabled(s, a) && !Up(s, p) && a != By(p, Bind(true))
    ensures !Up(Do(s, a), p)
  {
    if p in s.procs {
      assert SockFor(s.sock, p, s.procs[p]);
    }
  }

  ghost predicate Silenced(actions: seq<Action>, p: nat) {
    exists a :: a in actions && Silences(a, p)
  }

  ghost predicate AnswersSince(actions: seq<Action>, p: nat, b: nat)
    requires b < |actions|
  {
    && actions[b] == By(p, Bind(true))
    && By(p, Listen(true)) in actions[b + 1..] && !Silenced(actions[b + 1..], p)
  }

  /** Some Bind of p is followed by its Listen, and by nothing that takes the socket away. */
  ghost predicate Answering(actions: seq<Action>, p: nat) {
    exists b :: 0 <= b < |actions| && AnswersSince(actions, p, b)
  }

  lemma {:induction false} StageAlongRun(states: seq<State>, actions: seq<Action>, p: nat, b: nat, listened: bool,
                                         i: nat)
    requires IsRun(states, actions) && Inv(states[0]) && b <= i <= |actions| && Stage(states[b], p, listened, false)
    ensures Stage(states[i], p, listened || By(p, Listen(true)) in actions[b..i], Silenced(actions[b..i], p))
  {
    if b < i {
      StageAlongRun(states, actions, p, b, listened, i - 1);
      var before, a := actions[b..i - 1], actions[i - 1];
      assert actions[b..i] == before + [a];
      SilencedPush(before, a, p);
      StageNext(states, actions, p, i - 1, listened || By(p, Listen(true)) in before, Silenced(before, p));
    }
  }

  lemma SilencedPush(actions: seq<Action>, a: Action, p: nat)
    ensures Silenced(actions + [a], p) <==> Silenced(actions, p) || Silences(a, p)
  {}

  lemma StageNext(states: seq<State>, actions: seq<Action>, p: nat, i: nat, listened: bool, silenced: bool)
    requires IsRun(states, actions) && Inv(states[0]) && i < |actions| && Stage(states[i], p, listened, silenced)
    ensures Stage(states[i + 1], p, listened || actions[i] == By(p, Listen(true)), silenced || Silences(actions[i], p))
  {
    InvAlongRun(states, actions, i);
    StageStep(states[i], actions[i], p, listened, silenced);
  }

  lemma {:induction false} NeverBound(states: seq<State>, actions: seq<Action>, p: nat, i: nat)
    requires IsRun(states, actions) && Inv(states[0]) && !Up(states[0], p) && i <= |actions|
    requires By(p, Bind(true)) !in actions[..i]
    ensures !Up(states[i], p)
  {
    if i > 0 {
      assert actions[..i][..i - 1] == actions[..i - 1] && actions[i - 1] in actions[..i];
      NeverBound(states, actions, p, i - 1);
      InvAlongRun(states, actions, i - 1);
      NotUpBeforeBind(states[i - 1], actions[i - 1], p);
    }
  }

  lemma DialNeedsUp(s: State, p: nat)
    requires Inv(s)
    ensures DialReaches(s) == Some(p) <==> Up(s, p) && s.procs[p].listening
    ensures forall l, x :: Stage(s, p, l, x) ==> (DialReaches(s) == Some(p) <==> l && !x)
  {
    if p in s.procs {
      assert ListenerOk(s.procs[p]);
    }
  }

  /** Over every run, a Dial reaches p exactly when p has bound and listened and nothing has silenced it since. */
  lemma DialledExactly(states: seq<State>, actions: seq<Action>, p: nat, i: nat)
    requires IsRun(states, actions) && Reachable(states[0]) && !Up(states[0], p) && i <= |actions|
    ensures DialReaches(states[i]) == Some(p) <==> Answering(actions[..i], p)
  {
    ReachableInv(states[0]);
    InvAlongRun(states, actions, i);
    DialNeedsUp(states[i], p);
    forall b | 0 <= b < i && actions[b] == By(p, Bind(true))
      ensures DialReaches(states[i]) == Some(p) <==> AnswersSince(actions[..i], p, b)
    {
      InvAlongRun(states, actions, b);
      StageAtBind(states[b], p);
      StageAlongRun(states, actions, p, b + 1, false, i);
      assert actions[..i][b + 1..] == actions[b + 1..i];
    }
    if By(p, Bind(true)) in actions[..i] {
      var b :| 0 <= b < i && actions[..i][b] == By(p, Bind(true));
      assert DialReaches(states[i]) == Some(p) <==> AnswersSince(actions[..i], p, b);
    } else {
      NeverBound(states, actions, p, i);
    }
  }

  /** Once dialled, p stays so exactly until the first step that silences it. */
  lemma DialledUntilSilenced(states: seq<State>, actions: seq<Action>, p: nat, i: nat)
    requires IsRun(states, actions) && Reachable(states[0]) && DialReaches(states[0]) == Some(p) && i <= |actions|
    ensures DialReaches(states[i]) == Some(p) <==> !Silenced(actions[..i], p)
  {
    ReachableInv(states[0]);
    InvAlongRun(states, actions, i);
    DialNeedsUp(states[0], p);
    DialNeedsUp(states[i], p);
    assert ListenerOk(states[0].procs[p]);
    StageAlongRun(states, actions, p, 0, true, i);
  }

  // ---------------------------------------------------------------- serving, but out of reach

  /** p holds the lock and waits for a signal, but no Dial reaches it. */
  predicate Deaf(s: State, p: nat) {
    s.lock == Some(p) && p in s.procs && s.procs[p].pc.Serving? && DialReaches(s).None?
  }

  /** A serving daemon is deaf exactly when something has silenced it since its Bind. */
  lemma DeafExactly(states: seq<State>, actions: seq<Action>, p: nat, b: nat, i: nat)
    requires IsRun(states, actions) && Reachable(states[0]) && b < i <= |actions| && actions[b] == By(p, Bind(true))
    requires p in states[i].procs && states[i].procs[p].pc.Serving?
    ensures Deaf(states[i], p) <==> Silenced(actions[b + 1..i], p)
  {
    ReachableInv(states[0]);
    InvAlongRun(states, actions, b);
    InvAlongRun(states, actions, i);
    StageAtBind(states[b], p);
    StageAlongRun(states, actions, p, b + 1, false, i);
    DeafFromStage(states[i], p, By(p, Listen(true)) in actions[b + 1..i], Silenced(actions[b + 1..i], p));
  }

  lemma DeafFromStage(s: State, p: nat, listened: bool, silenced: bool)
    requires Inv(s) && Stage(s, p, listened, silenced) && s.procs[p].pc.Serving?
    ensures Deaf(s, p) <==> silenced
  {
    DialNeedsUp(s, p);
    OnlyHolderDialled(s);
  }

  lemma OnlyHolderDialled(s: State)
    requires Inv(s)
    ensures forall p | p in s.procs && s.procs[p].listening :: s.lock == Some(p)
    ensures DialReaches(s).Some? ==> DialReaches(s) == s.lock
  {
    assert forall p | p in s.procs && s.procs[p].listening :: ListenerOk(s.procs[p]);
  }

  lemma DeafStays(s: State, a: Action, p: nat)
    requires Enabled(s, a) && Inv(s) && Inv(Do(s, a)) && Deaf(s, p) && a != By(p, Signal) && a != By(p, Crash)
    ensures Deaf(Do(s, a), p)
  {
    DialNeedsUp(s, p);
    DialNeedsUp(Do(s, a), p);
    OnlyHolderDialled(Do(s, a));
    assert ListenerOk(s.procs[p]) && ListenerOk(Do(s, a).procs[p]);
    StageStep(s, a, p, true, true);
  }

  /**
   A daemon that serves out of reach neither exits nor frees the lock: until someone signals
   or kills it, no Dial succeeds, whatever other processes start.
   */
  lemma {:induction false} DeafLocksEveryoneOut(states: seq<State>, actions: seq<Action>, p: nat, i: nat)
    requires IsRun(states, actions) && Reachable(states[0]) && Deaf(states[0], p) && i <= |actions|
    requires By(p, Signal) !in actions && By(p, Crash) !in actions
    ensures Deaf(states[i], p) && DialReaches(states[i]).None?
  {
    if i > 0 {
      DeafLocksEveryoneOut(states, actions, p, i - 1);
      assert actions[i - 1] in actions;
      DeafStaysAt(states, actions, i - 1, p);
    }
  }

  lemma DeafStaysAt(states: seq<State>, actions: seq<Action>, i: nat, p: nat)
    requires IsRun(states, actions) && Reachable(states[0]) && i < |actions| && Deaf(states[i], p)
    requires actions[i] != By(p, Signal) && actions[i] != By(p, Crash)
    ensures Deaf(states[i + 1], p)
  {
    ReachableInv(states[0]);
    InvAlongRun(states, actions, i);
    InvAlongRun(states, actions, i + 1);
    DeafStays(states[i], actions[i], p);
  }

  // ---------------------------------------------------------------- two runs

  lemma Reach(s: State, a: Action)
    requires Reachable(s) && Enabled(s, a)
    ensures Reachable(Do(s, a))
  {
    var states, actions :| IsRun(states, actions) && Clean(states[0]) && states[|actions|] == s;
    var states', actions' := states + [Do(s, a)], actions + [a];
    forall i | 0 <= i < |actions'|
      ensures Enabled(states'[i], actions'[i]) && states'[i + 1] == Do(states'[i], actions'[i])
    {
      assert i < |actions| ==> states'[i] == states[i] && states'[i + 1] == states[i + 1];
    }
    assert IsRun(states', actions') && states'[|actions'|] == Do(s, a);
  }

  const EMPTY := State(None, NoFile, None, map[])

  lemma EmptyReachable()
    ensures Reachable(EMPTY)
  {
    var none: seq<Action> := [];
    assert IsRun([EMPTY], none) && Clean([EMPTY][0]) && [EMPTY][|none|] == EMPTY;
  }

  lemma Step(s: State, pid: nat, m: Move) returns (t: State, p: Proc)
    requires Reachable(s) && Enabled(s, By(pid, m))
    ensures Reachable(t) && p == Moved(s, s.procs[pid], m) && t.procs == s.procs[pid := p]
    ensures t.lock == LockAfter(s, pid, m) && t.sock == SockAfter(s, pid, s.procs[pid], m)
    ensures t.pidFile == PidFileAfter(s, pid, m)
  {
    Reach(s, By(pid, m));
    t, p := Do(s, By(pid, m)), Moved(s, s.procs[pid], m);
  }

  lemma TakesLock(s: State, pid: nat) returns (t: State)
    requires Reachable(s) && s.lock.None? && pid !in s.procs
    ensures Reachable(t) && t.lock == Some(pid)
    ensures t.procs == s.procs[pid := Proc(Configured, false, false, false, false, [])]
  {
    Reach(s, Spawn(pid));
    t := Do(s, Spawn(pid));
    var p;
    t, p := Step(t, pid, Acquire(true));
    t, p := Step(t, pid, Configure);
  }

  /** A new process comes up when the lock is free. */
  lemma ComesUp(s: State, pid: nat) returns (t: State)
    requires Reachable(s) && s.lock.None? && pid !in s.procs
    ensures Reachable(t) && t.lock == Some(pid) && t.sock == Some(pid) && t.pidFile == Names(pid)
    ensures t.procs == s.procs[pid := Proc(Serving, true, true, false, false, [])]
  {
    t := TakesLock(s, pid);
    var p;
    t, p := Step(t, pid, OpenPid(true));
    t, p := Step(t, pid, WritePid(true));
    t, p := Step(t, pid, ClearSocket);
    t, p := Step(t, pid, Bind(true));
    t, p := Step(t, pid, Listen(true));
  }

  /** Its idle timer fires and the Stop it sets off gets as far as closing the listener. */
  lemma IdleStops(s: State, pid: nat) returns (t: State)
    requires Reachable(s) && s.lock == s.sock == Some(pid)
    requires pid in s.procs && s.procs[pid] == Proc(Serving, true, true, false, false, [])
    ensures Reachable(t) && t.lock == Some(pid) && t.sock.None?
    ensures t.procs == s.procs[pid := Proc(Serving, true, false, true, false, [IdleWaiting])]
  {
    var p;
    t, p := Step(s, pid, IdleFire);
    assert p == Proc(Serving, true, true, false, false, [Fired(true)]);
    t, p := Step(t, pid, IdleUnlink(0));
    assert p == Proc(Serving, true, true, true, false, [IdleUnlinked]);
    t, p := Step(t, pid, IdleClose(0));
    assert p == Proc(Serving, true, false, true, false, [IdleWaiting]);
  }

  /** An idle Stop closes the listener while main goes on waiting for a signal. */
  lemma IdleDeafReachable() returns (s: State)
    ensures Reachable(s) && Deaf(s, 1) && !s.procs[1].listening
  {
    EmptyReachable();
    s := ComesUp(EMPTY, 1);
    s := IdleStops(s, 1);
  }

  lemma TimerFiresEarly() returns (s: State)
    ensures Reachable(s) && s.lock == Some(1)
    ensures s.procs == map[1 := Proc(Configured, false, false, false, false, [IdleRemoving])]
  {
    EmptyReachable();
    s := TakesLock(EMPTY, 1);
    var p;
    s, p := Step(s, 1, IdleFire);
    assert p == Proc(Configured, false, false, false, false, [Fired(false)]);
    s, p := Step(s, 1, IdleWait(0));
    assert p == Proc(Configured, false, false, false, false, [IdleRemoving]);
  }

  /** An idle Stop that began before srv.Start finds no listener, and removes the file after the Listen. */
  lemma ListeningDeafReachable() returns (s: State)
    ensures Reachable(s) && Deaf(s, 1) && s.procs[1].listening
  {
    s := TimerFiresEarly();
    var p;
    s, p := Step(s, 1, OpenPid(true));
    s, p := Step(s, 1, WritePid(true));
    s, p := Step(s, 1, ClearSocket);
    s, p := Step(s, 1, Bind(true));
    s, p := Step(s, 1, Listen(true));
    assert p == Proc(Serving, true, true, false, false, [IdleRemoving]);
    s, p := Step(s, 1, IdleRemove(0));
  }

  /** A crash leaves both files behind and frees the lock, and the next daemon comes up over them. */
  lemma CrashedThenReplaced() returns (s: State, t: State)
    ensures Reachable(s) && s.lock.None? && s.sock == Some(1) && s.pidFile == Names(1)
    ensures 1 in s.procs && s.procs[1].pc.Crashed?
    ensures Reachable(t) && t.procs.Keys == {1, 2} && t.pidFile == Names(2) && DialReaches(t) == Some(2)
  {
    EmptyReachable();
    s := ComesUp(EMPTY, 1);
    var p;
    s, p := Step(s, 1, Crash);
    t := ComesUp(s, 2);
  }

  lemma SignalledAndReleased(s: State, pid: nat) returns (t: State)
    requires Reachable(s) && s.lock == Some(pid) && s.sock.None?
    requires pid in s.procs && s.procs[pid] == Proc(Serving, true, false, true, false, [IdleRemoving])
    ensures Reachable(t) && t.lock.None?
    ensures t.procs == s.procs[pid := Proc(Returning, true, false, true, true, [IdleRemoving])]
  {
    var p;
    t, p := Step(s, pid, Signal);
    t, p := Step(t, pid, Unlink);
    t, p := Step(t, pid, Close);
    t, p := Step(t, pid, Wait);
    t, p := Step(t, pid, Remove);
    t, p := Step(t, pid, DropPid);
    t, p := Step(t, pid, Release);
  }

  lemma FirstDaemonReleased() returns (s: State)
    ensures Reachable(s) && s.lock.None?
    ensures s.procs == map[1 := Proc(Returning, true, false, true, true, [IdleRemoving])]
  {
    EmptyReachable();
    s := ComesUp(EMPTY, 1);
    s := IdleStops(s, 1);
    var p;
    s, p := Step(s, 1, IdleWait(0));
    assert p == Proc(Serving, true, false, true, false, [IdleRemoving]);
    s := SignalledAndReleased(s, 1);
  }

  /** The case TakesAnothersSocketExactly singles out does happen. */
  lemma LateIdleRemoveReachable() returns (s: State)
    ensures Reachable(s) && Enabled(s, By(1, IdleRemove(0))) && TakesAnothersSocket(s, By(1, IdleRemove(0)))
  {
    s := FirstDaemonReleased();
    s := ComesUp(s, 2);
  }
}
