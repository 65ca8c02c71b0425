# ios-pilot: a verified model

A Dafny 4.11 model of the parts of ios-pilot that carry state, concurrency or arithmetic, with
proofs of what they promise. `dafny verify dfyconfig.toml` checks all of it.

| file | what it models |
|---|---|
| `RingBuffers.dfy` | the circular log buffer as a refinement of a plain history |
| `LogManagers.dfy` | `LogManager` as an object: start, stop, the subscriber slice edited in place, fan-out, filtered reads |
| `LogPipeline.dfy` | the pipeline's goroutines as an interleaving of atomic steps, with the invariant every step keeps |
| `LogGuarantees.dfy` | what the pipeline promises over every run: order, loss, shutdown, deadlock, panics |
| `LogDelivery.dfy` | the same told from the actions of a run alone: who is subscribed, what was read, who gets an entry |
| `DaemonProtocol.dfy` | any number of daemon processes over one lock, PID file and socket, crashes and idle timers included |
| `DaemonClients.dfy` | the client's dial, start and retry loop at points of such a run |
| `DaemonMain.dfy` | `runDaemonServe` as straight-line code whose effects are the protocol's steps, with anything going on in between |
| `DeviceManagers.dfy` | `DeviceManager` as an object, driver results as parameters |
| `DeviceAccounting.dfy` | which forwards, processes and sessions a series of requests leaves open |
| `DeviceRaces.dfy` | overlapping Connects and Disconnects, one lock section at a time |
| `Handlers.dfy` | the request handlers that tie device and log capture together |
| `UiControllers.dfy` | the gestures' guards, alone and among overlapping requests |
| `Float64s.dfy` | integers as float64 holds them and `encoding/json` writes them, for request ids |
| `LineProtocol.dfy` | messages, request ids, and one response for each line |
| `ClientCalls.dfy` | the client, its scanner, and its calls to one server goroutine over two line streams |
| `ServerShutdown.dfy` | the server's connections while `Stop` waits for them |
| `Elements.dfy` | integer parsing, the element tree walk, the type filter, the numbering |
| `Raster.dfy` | borders, label backgrounds and the painter's loop, pixel by pixel; colour parsing |
| `GoInt.dfy`, `Options.dfy` | Go's 64-bit int, decimal text, an option type |

Two forms appear throughout. Where the program updates an object, a class has its fields and the
methods are proved against functions on values. Where goroutines or processes interleave, a
function `Do` gives the state after an atomic step, `Enabled` says when it can be taken, and the
theorems are about every run. The two share the functions of the locked sections: `Control` in the
log pipeline, `Fields` in the device manager, `Moved` and its companions in the daemon.

## What the proofs found

Where the obvious claim fails, the model keeps the code as it is and states exactly when it holds.

- **A daemon that serves is not always within reach.** Along every run a `Dial` reaches a process
  exactly when it has bound and listened and no later step took its socket away: its own unlink
  or crash, or the `os.Remove` of any process's idle `Stop` (`DialledExactly`, `DeafExactly`).
  Two ways of losing it leave the daemon serving. `docs/design.md` says the process exits when
  idle, but the timer's `srv.Stop` only closes the listener, while main goes on waiting for a
  signal (`IdleDeafReachable`). And a timer that fires before `srv.Start` finds no listener to
  close, and may come to its `os.Remove` when the socket is already open (`ListeningDeafReachable`).
  Either way main keeps the lock, so no `Dial` succeeds, whatever else is started, until someone
  signals or kills the process (`DeafLocksEveryoneOut`).
- **An idle `Stop` can outlive its main's `ReleaseLock`** and then remove the socket that the next
  daemon has bound. This is the only way in which a process takes another's live socket
  (`TakesAnothersSocketExactly`; `LateIdleRemoveReachable` shows a run).
- **Unsubscribing during a fan-out panics** with a send on a closed channel, exactly when the
  channel was in the snapshot and is no longer subscribed (`PanicsExactly`,
  `UnsubscribeDuringFanOutPanics`).
- **A Connect over a live connection leaks** exactly when it stores over a held forwarder, process
  or session (`ReconnectLeaksExactly`, `RunsAccountExactly`; `ConnectTwiceLeaks` shows a run).
- **The captured log is that of the first device** connected since the last `device.disconnect`,
  even after a later `device.connect` to another one (`CaptureIsOfFirstDevice`,
  `CaptureMatchesExactly`; `ConnectOverAnother` shows a run).
- **Request ids above 2^53** may come back changed, because the server decodes them into a float64
  and writes the shortest decimal that decodes to it. On the line an id comes back as it was
  exactly when no other number of the same float64 ends in more zeros, or in as many and nearer
  (`IdEchoedExactly`); 2^56 comes back as 72057594037927940 (`LargeRewritten`). The client decodes
  into a float64 again, so what it compares is its id exactly when that is a float64
  (`CallReturnsItsOwnResponse`, `Float64Exact`).
- **A response can arrive one `Call` late.** At a response line of exactly 65536 bytes the client's
  scanner stops, but its buffer holds the whole response, and the next `Call` to come to its read
  returns that one instead of its own (`StaleResponse` shows a run). Apart from this case, a `Call`
  returns a response exactly if a line of fewer bytes came in for it, and that is its own, and once
  a `Call` has failed in writing or reading all later ones fail (`CallReturnsExactly`,
  `CallReturnsItsOwnResponse`, `FailureIsForGood`, `InheritedOnce`).
- **A gesture can go out without a session.** The guards read connected, mode, URL and session under
  separate locks. A gesture that passes them carries an empty URL exactly if the last change since
  the first read is a Disconnect, an empty session exactly if that change leaves none, and the
  session it started with exactly if nothing changed (`GestureSentExactly`; `GestureSentNowhere`
  shows a run).
- **`Stop` can return before a handler starts**, exactly if the accept loop held a connection that it
  had not yet counted; there is at most one (`LateHandlersExactly`; `LateHandlerReachable` shows a
  run).
- A border is drawn outside its frame when the frame is thinner than the border
  (`BorderLeavesFrame`), and an edge whose end passes 2^63 is not drawn where it should be
  (`RunExact`).
- The centre of an element can lie outside its frame when the sum wraps around (`CenterInside`).

Other places where the code and its comments or documents differ, and the model follows the code:
`ParseSource` says it skips application nodes and elements without a position, but only `AppiumAUT`
and unnamed nodes are skipped; the design document has the CLI take the lock and check the socket
again, but the daemon process takes it; the design document disconnects the device on shutdown, but
`runDaemonServe` does not; a line that is not JSON is answered with -32600, where section 5.1 of the
JSON-RPC 2.0 specification has -32700; and a handler that succeeds with nil yields a response with
neither a result nor an error member (`OneMember`).

## Model

| member | source | states |
|---|---|---|
| `RingBuffers.RingBuffer.constructor` | internal/core/log_manager.go:21-26 | a new buffer has an empty history; capacity 0 is allowed |
| `RingBuffers.RingBuffer.Add` | internal/core/log_manager.go:29-38 | the history grows by the entry, and the slots, unrolled from the oldest, are its last `size` entries |
| `RingBuffers.RingBuffer.GetLast` | internal/core/log_manager.go:42-75 | the last min(n, stored) entries of the history in order, all stored ones for n <= 0, across wraparound |
| `RingBuffers.RingBuffer.GetAll` | internal/core/log_manager.go:78-80 | all stored entries in order |
| `RingBuffers.UnrolledPush` | internal/core/log_manager.go:33-37 | writing at head and advancing it modulo size drops the oldest element and appends the new one |
| `RingBuffers.WindowIsLast` | internal/core/log_manager.go:60-72 | reading n slots from the computed index, wrapping once, gives the last n stored entries |
| `RingBuffers.StartIsOldestKept` | internal/core/log_manager.go:57-70 | the discarded `start` formula equals the first physical index really read |
| `LogManagers.LogManager.constructor` | internal/core/log_manager.go:103-109 | not running, no context, no subscriber |
| `LogManagers.LogManager.Start` | internal/core/log_manager.go:113-127 | no effect while running; else records the udid and makes one new live context |
| `LogManagers.LogManager.Stop` | internal/core/log_manager.go:153-162 | cancels the newest context and nothing else; no effect while stopped |
| `LogManagers.LogManager.Append` | internal/core/log_manager.go:209 | the slice gains the channel at its end, in the same array or in a fresh larger one |
| `LogManagers.LogManager.DeleteAt` | internal/core/log_manager.go:217 | the in-place deletion drops just that index and keeps the rest in order |
| `LogManagers.LogManager.Subscribe` | internal/core/log_manager.go:205-211 | a fresh open channel is subscribed last |
| `LogManagers.LogManager.Unsubscribe` | internal/core/log_manager.go:212-222 | removes and closes the channel if subscribed, else changes nothing; writes no array but the slice's own |
| `LogManagers.LogManager.Snapshot` | internal/core/log_manager.go:229-232 | a fresh array with the present subscribers |
| `LogManagers.LogManager.FanOut` | internal/core/log_manager.go:228-241 | every subscriber with a free slot gets the entry once, full ones stay as they were |
| `LogManagers.Chan.TrySend` | internal/core/log_manager.go:235-239 | appends when fewer than 100 are queued, else drops |
| `LogManagers.LogManager.GetLogs` | internal/core/log_manager.go:173-201 | the filter of the last n entries (all for n <= 0), and of those exactly the ones with the process and level asked for and with the text in the message or the raw line |
| `LogManagers.MatchingSelects` | internal/core/log_manager.go:182-198 | the filter keeps each entry that has the process and level asked for and in whose message or raw line the text occurs, as often as it is there, and no other |
| `LogManagers.MatchingConcat` | internal/core/log_manager.go:182-198 | it keeps the order: filtering a concatenation is concatenating the filtered parts |
| `LogManagers.ContainsIsSubstring` | internal/core/log_manager.go:194 | the search predicate is substring containment |
| `LogManagers.LogViewGrows` | internal/core/log_manager.go:173-201 | an answer for fewer entries is a suffix of the answer for more, or for all |
| `LogManagers.WithoutIsExact` | internal/core/log_manager.go:215-217 | removing one of distinct channels keeps all others, in order, and distinct |
| `LogPipeline.EpochMoved` | internal/core/log_manager.go:129-147 | whatever a goroutine does, stored, held and queued entries together remain what the driver sent, in order |
| `LogPipeline.EpochsPreserved` | internal/core/log_manager.go:111-150 | the same for all overlapping epochs at once, under every step of any of them |
| `LogPipeline.RingPreserved` | internal/core/log_manager.go:141 | the ring stays the last `capacity` entries of the history of Adds |
| `LogPipeline.DeliveryPreserved` | internal/core/log_manager.go:228-241 | each subscriber's log stays ordered per epoch and never runs ahead of the fan-out |
| `LogPipeline.SnapshotsPreserved` | internal/core/log_manager.go:229-240 | every stored entry has the snapshot its fan-out took, and each target passed got it or was full |
| `LogPipeline.InvPreserved` | internal/core/log_manager.go:113-241 | every atomic step of the pipeline keeps the whole invariant |
| `LogGuarantees.StoredIsPrefixOfSent` | internal/core/log_manager.go:111-150 | an epoch's entries in the history are a prefix of what its driver sent; the ring is the history's tail |
| `LogGuarantees.OneLiveEpoch` | internal/core/log_manager.go:117-162 | exactly the newest epoch is uncancelled while running, none otherwise |
| `LogGuarantees.MovePays` | internal/driver/goios/syslog.go:42-71 | after cancellation every store is paid for by what was queued, in hand, or about to be sent |
| `LogGuarantees.StoppedEpochStoresAtMost258` | internal/core/log_manager.go:126-162 | along every run a stopped epoch stores at most 258 more entries |
| `LogGuarantees.WorkShrinks` | internal/core/log_manager.go:129-147 | every step of a cancelled epoch lowers a lexicographic measure |
| `LogGuarantees.StoppedEpochFallsSilent` | internal/core/log_manager.go:111-162 | in every infinite run there is a point after which a stopped epoch's goroutines take no step |
| `LogGuarantees.LiveEpochKeepsItsDrain` | internal/core/log_manager.go:134-147 | the drain of an epoch that was not stopped has not returned |
| `LogGuarantees.DrainIsNeverStuck` | internal/core/log_manager.go:134-147 | a drain with anything to do can always take a step |
| `LogGuarantees.FullQueueDrains` | internal/driver/goios/syslog.go:66-70 | a driver blocked on the full channel of a live epoch waits for a drain that can go on |
| `LogGuarantees.SubscriberSeesSubsequence` | internal/core/log_manager.go:205-241 | what a subscriber has of an epoch is an order-preserving selection, without repetition, of that epoch's stores |
| `LogDelivery.DeliveredExactly` | internal/core/log_manager.go:228-241 | over every run, once an entry's fan-out is over, a channel has it iff its Subscribe and no Unsubscribe came before the one step that copies the subscribers for that entry, and no send of it found the channel's 100 slots taken |
| `LogDelivery.SubscribedExactly` | internal/core/log_manager.go:205-222 | over every run, the subscribers are those whose Subscribe has come and whose unsubscribe function has not been called |
| `LogDelivery.CopiedOnce` | internal/core/log_manager.go:228-232 | an entry is fanned out once |
| `LogDelivery.UninterruptedFanOut` | internal/core/log_manager.go:228-241 | the sends of one fan-out in a row do what `LogManager.FanOut` does |
| `LogDelivery.StoredIsPrefixOfRead` | internal/driver/goios/syslog.go:42-71 | over every run, an epoch's stored entries are a prefix of those its driver read, unchanged |
| `LogDelivery.DriverEndsExactly` | internal/driver/goios/syslog.go:42-71 | while its context is live, a driver finishes iff it failed to open or read, and then it has sent all it read |
| `LogDelivery.LiveExactly` | internal/core/log_manager.go:113-162 | over every run, an epoch is live iff it is the newest and no Stop came after the last Start |
| `LogGuarantees.RefusedOnlyWhenFull` | internal/core/log_manager.go:235-239 | an entry is dropped only at a step at which that channel holds its full 100 |
| `LogGuarantees.SubscribersAreOpen` | internal/core/log_manager.go:208-222 | subscribed channels are distinct and open, all others were closed exactly once |
| `LogGuarantees.UnsubscribeTwice` | internal/core/log_manager.go:212-222 | calling an unsubscribe function again changes nothing |
| `LogGuarantees.PanicsExactly` | internal/core/log_manager.go:228-241 | a step panics exactly when a fan-out reaches a channel unsubscribed since its snapshot |
| `LogGuarantees.UnsubscribeDuringFanOutPanics` | internal/core/log_manager.go:212-241 | such a run exists, for any log entry |
| `DaemonProtocol.InvPreserved` | internal/cli/root.go:205-283 | every step of any process, crash or deletion keeps lock, listener, socket and PID file consistent |
| `DaemonProtocol.OneHolder` | internal/daemon/lifecycle.go:56-72 | at most one process is between AcquireLock and ReleaseLock |
| `DaemonProtocol.DialReachesHolder` | internal/daemon/server.go:58-87 | every open listener is the lock holder's, and every successful Dial reaches it |
| `DaemonProtocol.TakesAnothersSocketExactly` | internal/daemon/server.go:77-87 | a process unlinks another's live socket exactly when its idle Stop outlives its own ReleaseLock |
| `DaemonProtocol.LateIdleRemoveReachable` | internal/cli/root.go:257-259 | that case is reachable |
| `DaemonProtocol.PidFileNamesHolderOrDead` | internal/cli/root.go:262-267 | a PID in the file is the lock holder's or that of an ended process, with `daemon stop` deleting the file at any moment |
| `DaemonProtocol.PidFileNamesExactly` | internal/daemon/lifecycle.go:17-25 | over every run, a live process between its WritePIDFile and its RemovePIDFile is named in the PID file iff no `daemon stop` has deleted the file since it was opened; else there is no file |
| `DaemonProtocol.CrashedThenReplaced` | internal/cli/root.go:205-273 | a crash leaves socket and PID file behind, frees the lock, and the next daemon comes up over them |
| `DaemonProtocol.GracefulExitLeavesNothing` | internal/cli/root.go:267-285 | at a signalled daemon's ReleaseLock neither PID file nor socket exists |
| `DaemonProtocol.DialledExactly` | internal/daemon/server.go:58-87 | over every run a Dial reaches p iff p's Bind was followed by its Listen and by nothing that takes the socket away |
| `DaemonProtocol.DialledUntilSilenced` | internal/daemon/server.go:77-87 | once dialled, p stays so exactly until it unlinks or dies, or an idle Stop of any process removes the file |
| `DaemonProtocol.DeafExactly` | internal/cli/root.go:253-278 | a daemon waiting for its signal is out of reach iff such a step came after its Bind |
| `DaemonProtocol.DeafLocksEveryoneOut` | internal/cli/root.go:253-278 | from then on no Dial succeeds along any run without a signal to, or crash of, that process |
| `DaemonProtocol.IdleDeafReachable` | internal/cli/root.go:257-278 | this happens with the listener closed by an idle Stop |
| `DaemonProtocol.ListeningDeafReachable` | internal/daemon/server.go:77-87 | and with the listener open, by an idle Stop that began before srv.Start |
| `DaemonProtocol.ComesUp` | internal/cli/root.go:205-273 | whenever the lock is free a new process can come up, over any leftover files, with its PID in the file |
| `DaemonClients.EnsureDaemon` | internal/cli/root.go:117-138 | at any 51 points of one run: connects iff someone answers at one of them and, after a failed first dial, the start works; starts at most one process, new to the run; what it reaches holds the lock, and after a failed dial began to listen since the one before |
| `DaemonMain.Host.AcquireLock` | internal/daemon/lifecycle.go:56-66 | is the protocol's Acquire; succeeds iff the file opens and the lock is free |
| `DaemonMain.Host.ReleaseLock` | internal/daemon/lifecycle.go:69-72 | is the protocol's Release |
| `DaemonMain.Host.Others` | internal/cli/root.go:257-259 | whatever other processes and this one's idle timer do extends the run and leaves main where it is |
| `DaemonMain.Host.WritePIDFile` | internal/daemon/lifecycle.go:17-20 | is the protocol's OpenPid and, if that works, WritePid |
| `DaemonMain.Host.RemovePidFile` | internal/daemon/lifecycle.go:23-25 | is the protocol's DropPid |
| `DaemonMain.Host.BindSocket` | internal/daemon/server.go:62-65 | is the protocol's Bind; whatever others do, it finds the path free |
| `DaemonMain.Host.StartServer` | internal/daemon/server.go:58-73 | is ClearSocket, Bind and, if that works, Listen; on success main serves |
| `DaemonMain.Host.StopServer` | internal/daemon/server.go:77-87 | is Unlink, Close, Wait and Remove, in that order |
| `DaemonMain.Host.RunDaemonServe` | internal/cli/root.go:198-286 | with anything going on in between, all that happens is one run of the protocol, in which main takes one of the ways out; the lock ends up not held by it; exit code 0 iff it got the lock and all steps worked, and then neither file is left at the lock's release |
| `DaemonMain.LeadsToIsRun` | internal/cli/root.go:198-286 | what such a host records is a run in the protocol's sense |
| `DeviceManagers.DeviceManager.constructor` | internal/core/device_manager.go:51-65 | nothing connected, nothing held |
| `DeviceManagers.DeviceManager.Connect` | internal/core/device_manager.go:76-162 | succeeds iff GetDevice finds the udid given, or without one that of the only device listed; then that device is connected and its status returned, else nothing changes |
| `DeviceManagers.ConnectsExactly` | internal/core/device_manager.go:76-159 | for every mix of driver results, the new fields and what was acquired in which order: WDA is started only if it does not answer, a session opened only if it is up |
| `DeviceManagers.DeviceManager.Disconnect` | internal/core/device_manager.go:165-195 | clears all fields and closes what they held; no effect while disconnected |
| `DeviceManagers.CommittedIsConsistent` | internal/core/device_manager.go:153-159 | the committed fields fit each other, given a non-empty session id |
| `DeviceManagers.StatusIsCoherent` | internal/core/device_manager.go:247-270 | a status shows the connected device's udid, name and version, a mode iff a device, and WDA running iff there is a session |
| `DeviceAccounting.ConnectAccounted` | internal/core/device_manager.go:105-159 | from a disconnected manager, exactly what Connect holds afterwards is open |
| `DeviceAccounting.DisconnectAccounted` | internal/core/device_manager.go:165-195 | Disconnect leaves nothing open and nothing held |
| `DeviceAccounting.ReleasedInReverse` | internal/core/device_manager.go:173-188 | Disconnect after Connect closes each acquisition once, in reverse order |
| `DeviceAccounting.RestartsExactly` | internal/daemon/state.go:331-345 | a restart closes all that was held and connects the same udid, or stays disconnected if that is not found |
| `DeviceAccounting.ReconnectLeaksExactly` | internal/core/device_manager.go:109-158 | a Connect over a live connection keeps the account iff it overwrites nothing held |
| `DeviceAccounting.RunsAccountExactly` | internal/daemon/state.go:77-109 | over every run whose drivers keep their contracts, the account is right after each request iff no Connect stores over what is held |
| `DeviceAccounting.ConnectTwiceLeaks` | internal/core/device_manager.go:105-159 | two connects to one device leave the first forward and process open and unheld |
| `DeviceAccounting.OrderlyRunsAccount` | internal/daemon/state.go:77-109 | after any series of connect, disconnect and restart in which Connects start disconnected, the open resources are those in the fields |
| `DeviceRaces.InvPreserved` | internal/core/device_manager.go:105-195 | every lock section and driver call of overlapping requests keeps each resource in one place |
| `DeviceRaces.FieldsAlwaysConsistent` | internal/core/device_manager.go:105-195 | under any interleaving: connected, mode, URL and session fit each other |
| `DeviceRaces.OpenIsHeldOrLost` | internal/core/device_manager.go:105-195 | under any interleaving: what is open is exactly what is held, in a Connect's hand, or was overwritten by a store or commit, and never two of these |
| `DeviceRaces.NothingClosedTwice` | internal/core/device_manager.go:173-188 | under any interleaving: nothing is closed twice, nor opened again after being closed |
| `DeviceRaces.ClosedAfterOpened` | internal/core/device_manager.go:105-188 | under any interleaving: nothing is closed before it was opened |
| `DeviceRaces.UninterruptedConnect` | internal/core/device_manager.go:76-162 | the steps of one Connect in a row do what the method does |
| `Handlers.State.HandleDeviceConnect` | internal/daemon/state.go:77-95 | the effect on both managers of a connect request, failures included |
| `Handlers.State.HandleDeviceDisconnect` | internal/daemon/state.go:101-109 | the effect on both managers of a disconnect request |
| `Handlers.State.HandleWDARestart` | internal/daemon/state.go:331-345 | the effect on both managers of a restart request; there is a status iff a device was connected and is found again |
| `Handlers.State.HandleLog` | internal/daemon/state.go:244-264 | the filtered last n entries, 50 for n <= 0 |
| `Handlers.ConnectedImpliesCapture` | internal/daemon/state.go:77-109 | after any requests: connected implies the log is captured, and the fields are consistent |
| `Handlers.CaptureIsOfFirstDevice` | internal/core/log_manager.go:113-119 | the capture runs for the first device connected since the last disconnect request |
| `Handlers.CaptureMatchesExactly` | internal/daemon/state.go:77-109 | captured and connected device agree after every request iff no request connects over another device |
| `Handlers.ConnectOverAnother` | internal/core/log_manager.go:113-119 | a connect to a second device leaves the first one's log captured |
| `UiControllers.GesturesReachTheSession` | internal/core/ui_controller.go:25-85 | after any requests a gesture that nothing interrupts reaches the driver iff there is a session, with the current session and URL; otherwise the refusal says why |
| `UiControllers.SessionKeptExactly` | internal/core/device_manager.go:105-195 | under any interleaving: a session read later is still the one read first iff no commit or Disconnect came in between |
| `UiControllers.GestureSentExactly` | internal/core/ui_controller.go:25-52 | under any interleaving with its four reads, a gesture that is sent has an empty URL, an empty session, or another session, each exactly when the last commit or Disconnect since the first read says so |
| `UiControllers.GestureSentNowhere` | internal/core/ui_controller.go:25-46 | a Disconnect after the guard: sent with neither URL nor session |
| `LineProtocol.HandleConn` | internal/daemon/server.go:104-129 | one response for each line, in order, up to the end, an over-long line or a failed write; one timer reset for each line read; the id written back is a number of the same float64, the preferred one |
| `LineProtocol.OneMember` | internal/daemon/server.go:132-165 | never both result and error; neither exactly for a successful nil |
| `LineProtocol.IdEchoedExactly` | internal/protocol/jsonrpc.go:7-20 | an id is written back unchanged iff it is the preferred number of its float64, as all up to 2^53 are |
| `Float64s.NearestIsNear` | internal/protocol/jsonrpc.go:7-12 | float64 decoding of an id gives a multiple of the spacing, at most half of it away, and an even one if two are |
| `Float64s.Float64Exact` | internal/protocol/jsonrpc.go:7-12 | an id is a float64 exactly if it is such a multiple, as all ids up to 2^53 are |
| `Float64s.Float64Monotone` | internal/protocol/jsonrpc.go:7-12 | decoding keeps the order of ids |
| `Float64s.FirstInexact` | internal/protocol/jsonrpc.go:7-12 | 2^53 + 1 is not one |
| `Float64s.WrittenIsShortest` | internal/protocol/jsonrpc.go:15-20 | what is written decodes to the same float64; nothing that does ends in more zeros, and of what ends in as many it is nearest |
| `Float64s.Rewritten` | internal/protocol/jsonrpc.go:7-20 | decoding and encoding an integer keeps its float64, and the integer iff it is the preferred one |
| `Float64s.LargeRewritten` | internal/protocol/jsonrpc.go:15-20 | the float64 2^56 is written as 72057594037927940 |
| `ClientCalls.Client.ScanLine` | internal/client/client.go:67-72 | the scanner's next state and result: it stops at an over-long line and hands out its buffer at the next Scan |
| `ClientCalls.Client.Call` | internal/client/client.go:47-84 | the client's next state and the result for every outcome of marshalling, writing, setting the deadline and scanning, in every state of the scanner |
| `ClientCalls.InvPreserved` | internal/client/client.go:47-84 | while the client works, all that is in flight belongs to the present Call; what the scanner kept belongs to the last Call that read |
| `ClientCalls.CallReturnsExactly` | internal/client/client.go:67-84 | over every run, a Call returns a response iff a line under 65536 bytes came in for it, or it is the first to read after a line of exactly 65536 bytes |
| `ClientCalls.CallReturnsItsOwnResponse` | internal/client/client.go:47-84 | over every run, the response carries the float64 of the Call's own id, or in the second case of the id of the Call that failed; up to the 2^53rd Call the id is its own iff it is not the second case |
| `ClientCalls.CallGetsItsReply` | internal/client/client.go:47-84 | over every run, the response carries what the handler made of the owner's request at the one step that served it: an error iff the method is unknown or the handler failed, with the code of that case, else the handler's value |
| `ClientCalls.FailureIsForGood` | internal/client/client.go:60-82 | once a Call failed in writing or reading, a later one returns a response iff it is the first to read after a line of exactly 65536 bytes |
| `ClientCalls.InheritedOnce` | internal/client/client.go:67-82 | and after that one all fail |
| `ClientCalls.StaleResponse` | internal/client/client.go:67-82 | the run in which the second Call returns the first one's response |
| `ServerShutdown.LateHandlersExactly` | internal/daemon/server.go:77-102 | after a Stop that closed the listener, a handler runs exactly from the wg.Add of a connection the loop held at its Wait to that handler's end; at most one |
| `ServerShutdown.LateHandlerReachable` | internal/daemon/server.go:77-102 | this happens |
| `Elements.Atoi` | internal/driver/wda/elements.go:131-153 | the value of the optional sign and longest digit prefix, modulo 2^64 into the signed range |
| `Elements.PrintThenParse` | internal/driver/wda/elements.go:131-153 | parsing inverts decimal printing on every int64, with any text after it that does not start with a digit |
| `Elements.TrailingTextIgnored` | internal/driver/wda/elements.go:142-148 | appending text that starts with a non-digit to a non-empty string changes nothing |
| `Elements.PrefixValueExactly` | internal/driver/wda/elements.go:131-153 | for every text, as an optional sign, digits and a rest: the value of the signed digits |
| `Elements.NodeToElement` | internal/driver/wda/elements.go:59-82 | type, label, frame and centre of a node |
| `Elements.ElementFromAttributes` | internal/driver/wda/elements.go:59-82 | the text is the first of name, label, value that is not empty; the frame's sides are x, y, width, height, read back exactly if they were printed |
| `Elements.AttrIsFirst` | internal/driver/wda/elements.go:20-27 | an attribute's value is that of the first one by the name |
| `Elements.TypeNamesExactly` | internal/driver/wda/elements.go:85-109 | seven types have names of their own, all others lose the prefix and their capitals |
| `Elements.CollectElements` | internal/driver/wda/elements.go:44-55 | appends the elements of the named nodes, parents first, and keeps what was there |
| `Elements.WalkIsDocumentOrder` | internal/driver/wda/elements.go:44-55 | the walk meets exactly the nodes named other than AppiumAUT, each once, in strictly increasing document order |
| `Elements.FilterInteractive` | internal/driver/wda/elements.go:111-128 | keeps in order the elements of the listed kinds, all of them for an empty list |
| `Elements.KeptExactly` | internal/driver/wda/elements.go:111-128 | what is kept: each element of a kind asked for, as often as it is there, in order |
| `Elements.FilterAfterIsFilterDuring` | internal/driver/wda/elements.go:44-128 | filtering the finished list keeps what filtering during the walk would keep |
| `Elements.NumberElements` | internal/core/screen_capture.go:135-147 | the survivors numbered 1..n in order, with their frames and recomputed centres |
| `Elements.InteractiveInfos` | internal/core/screen_capture.go:127-147 | tree to numbered survivors; Look's centres are the parser's |
| `Elements.CenterInside` | internal/core/screen_capture.go:138-139 | the centre is inside the frame iff both sizes are positive and neither middle passes 2^63 |
| `Elements.CenterIsMiddle` | internal/driver/wda/elements.go:79 | the centre is half of each size from the corner, rounded toward it |
| `Raster.DrawRect` | internal/core/screen_capture.go:275-308 | exactly the border's pixels inside the image change, with wrapping coordinates |
| `Raster.FillRect` | internal/core/screen_capture.go:311-322 | exactly the rectangle's pixels inside the image change |
| `Raster.DrawElement` | internal/core/screen_capture.go:245-261 | one element paints its border and its label background |
| `Raster.LabelLies` | internal/core/screen_capture.go:248-258 | for every frame, the label's strip on the screen: 13 rows above the frame if they fit, else from its top; 7 columns for each digit and 4 more |
| `Raster.MarkedExactly` | internal/core/screen_capture.go:241-258 | what one element marks on the screen: a rim two pixels thick and the strip |
| `Raster.DrawAnnotations` | internal/core/screen_capture.go:237-265 | the source with the colour on exactly the union of all borders and label backgrounds, all other pixels kept |
| `Raster.AnnotatedIgnoresOrder` | internal/core/screen_capture.go:244-265 | the painted set does not depend on the order of the elements |
| `Raster.PaintTwice` | internal/core/screen_capture.go:237-265 | painting the result again, in any order, changes no pixel |
| `Raster.BorderBands` | internal/core/screen_capture.go:275-308 | for frames of any size the painted set is four bands |
| `Raster.BorderIsRim` | internal/core/screen_capture.go:275-308 | when w and h reach the thickness it is the frame without the frame inset by the thickness |
| `Raster.BorderLeavesFrame` | internal/core/screen_capture.go:275-308 | it leaves the frame iff it is drawn and the frame is thinner than it |
| `Raster.RunExact` | internal/core/screen_capture.go:282-301 | a loop over lo..lo+n covers that interval iff its end is an int64 |
| `Raster.PrintThenParseColor` | internal/core/screen_capture.go:221-233 | parsing inverts printing of opaque colours |
| `Raster.ParseThenPrintColor` | internal/core/screen_capture.go:221-233 | parsing loses only letter case and the '#'; malformed text is red |

## Left out

- `UiControllers.GesturesReachTheSession`: for a gesture that nothing interrupts; `UiControllers.GestureSentExactly` is about the others.
- `DaemonProtocol.PidFileNamesHolderOrDead`: takes it that a failed write leaves the PID file empty rather than partly written, and that process ids are not reused.
- `ClientCalls.FailureIsForGood`: for a server that writes nothing but responses. A whole line that does not decode would fail one Call and leave the client usable, as `ClientCalls.Client.Call` has it; this server writes none.
- `LineProtocol.HandleConn`: an id is null, an integer or text here. Fractions, truth values, arrays and objects, which the code echoes too, are not modelled, nor is text that is not valid UTF-8; an integer beyond float64's range does not decode.
- `ClientCalls.CallReturnsItsOwnResponse`: for a client used by one goroutine at a time, as the CLI does.
- `LogGuarantees.StoppedEpochFallsSilent`: says nothing of how long a driver stays blocked in ReadLogMessage, which is an external library's call.
- Glyphs of the labels: decided by golang.org/x/image, which is not part of this model; only the label's background is.
- PNG, base64, XML and JSON encoding, how bytes split into lines, and HTTP to WebDriverAgent: external; their results are parameters.
- go-ios calls, tunnels and WDA start-up: their success or failure, and what they return, are parameters.
- How a raw syslog line becomes an entry: the parser is go-ios's; entries are arbitrary values here.
- Upper-case letters outside ASCII in element type names: lower-casing is modelled for ASCII.
- `ServerShutdown.LateHandlersExactly`: for a Stop that found a listener. One that ran before `srv.Start` waits for nobody.
- bufio.Scanner's buffer growth and partial reads: a Scan is a function of how many bytes of the line come in.
- Goroutine scheduling fairness, timeouts and polling intervals: any step may come at any time, and a timer may fire at any moment.
- The crash driver, AppManager, Checker, configuration loading, the CLI's argument parsing and printing, and screenshot files: no state or arithmetic with a hard property.
