/**
 The client of internal/client/client.go, and its calls over one connection to the server's
 handleConn, as atomic steps of both ends.

 bufio.Scanner matters in detail. It stops at a line that fills its 64 KiB buffer without a
 newline, but keeps the buffer; the next Scan hands it out without reading anything. After any
 other read error it hands out what it has at once, and nothing from then on.
 */
module ClientCalls {
  import opened GoInt
  import opened Options
  import opened Float64s
  import opened LineProtocol

  // ---------------------------------------------------------------- the scanner

  /** Kept: stopped by an over-long line, with what the first 64 KiB of it decode to. Spent: nothing left. */
  datatype Scanner = Working | Kept(left: Option<Response>) | Spent

  /**
   What a working scanner meets. Garbled is a whole line that does not decode. LastWhole and
   LastPiece are what had arrived of a line when reading failed: all but its newline, or less.
   */
  datatype Token =
    | Whole(resp: Response)
    | Garbled
    | TooLong(left: Option<Response>)
    | LastWhole(resp: Response)
    | LastPiece
    | NoToken

  /** What Scan returns, and what Unmarshal makes of it. */
  datatype Scanned = Stopped | Got(decoded: Option<Response>)

  function Scan(scanner: Scanner, token: Token): (r: (Scanner, Scanned)) {
    match scanner
    case Kept(left) => (Spent, Got(left))
    case Spent => (Spent, Stopped)
    case Working =>
      match token
      case Whole(resp) => (Working, Got(Some(resp)))
      case Garbled => (Working, Got(None))
      case TooLong(left) => (Kept(left), Stopped)
      case LastWhole(resp) => (Spent, Got(Some(resp)))
      case LastPiece => (Spent, Got(None))
      case NoToken => (Spent, Stopped)
  }

  // ---------------------------------------------------------------- the client

  /** `encFailed` is the sticky error of the JSON encoder, `closed` whether the connection was closed on this side. */
  datatype ClientState = ClientState(nextID: int, encFailed: bool, scanner: Scanner, closed: bool)

  datatype Sent = SentId(id: int) | MarshalFailed | WriteFailed

  /** Call up to its write: the id is used up even if the params cannot be marshalled. */
  function Send(c: ClientState, marshals: bool, writes: bool): (r: (ClientState, Sent)) {
    var id := Wrap64(c.nextID + 1);
    var counted := c.(nextID := id);
    if !marshals then (counted, MarshalFailed)
    else if c.encFailed || c.closed || !writes then (counted.(encFailed := true), WriteFailed)
    else (counted, SentId(id))
  }

  /** Call from its Scan on. */
  function Receive(c: ClientState, token: Token): (r: (ClientState, Option<Response>)) {
    var (scanner, scanned) := Scan(c.scanner, token);
    (c.(scanner := scanner), if scanned.Got? then scanned.decoded else None)
  }

  class Client {
    var nextID: int
    var encFailed: bool
    var scanner: Scanner
    var closed: bool

    function View(): ClientState
      reads this
    {
      ClientState(nextID, encFailed, scanner, closed)
    }

    constructor ()
      ensures View() == ClientState(0, false, Working, false)
    {
      nextID, encFailed, scanner, closed := 0, false, Working, false;
    }

    method ScanLine(token: Token) returns (scanned: Scanned)
      modifies this`scanner
      ensures (scanner, scanned) == Scan(old(scanner), token)
    {
      match scanner {
        case Kept(left) =>
          scanner, scanned := Spent, Got(left);
        case Spent =>
          scanned := Stopped;
        case Working =>
          match token {
            case Whole(r) =>
              scanned := Got(Some(r));
            case Garbled =>
              scanned := Got(None);
            case TooLong(left) =>
              scanner, scanned := Kept(left), Stopped;
            case LastWhole(r) =>
              scanner, scanned := Spent, Got(Some(r));
            case LastPiece =>
              scanner, scanned := Spent, Got(None);
            case NoToken =>
              scanner, scanned := Spent, Stopped;
          }
      }
    }

    /** `deadline` is whether SetReadDeadline works. */
    method Call(marshals: bool, writes: bool, deadline: bool, token: Token) returns (resp: Option<Response>)
      modifies this
      ensures var (c, sent) := Send(old(View()), marshals, writes);
              if sent.SentId? && deadline then View() == Receive(c, token).0 && resp == Receive(c, token).1
              else View() == c && resp == None
    {
      nextID := Wrap64(nextID + 1);
      if !marshals {
        return None;
      }
      if encFailed || closed || !writes {
        encFailed := true;
        return None;
      }
      if !deadline {
        return None;
      }
      var scanned := ScanLine(token);
      if scanned.Stopped? {
        return None;
      }
      resp := scanned.decoded;
    }
  }

  // ---------------------------------------------------------------- both ends

  /** A response on its way, its length in bytes without the newline, and whether all of it was written. */
  datatype ReplyLine = ReplyLine(resp: Response, size: nat, complete: bool)

  /** What the scanner meets when the first `arrived` bytes of a line, newline included, come in and no more. */
  function TokenOf(line: ReplyLine, arrived: nat): Token {
    if line.size >= MAX_TOKEN && arrived >= MAX_TOKEN then
      TooLong(if line.size == MAX_TOKEN then Some(Read(line.resp)) else None)
    else if arrived > line.size then Whole(Read(line.resp))
    else if arrived == 0 then NoToken
    else if arrived == line.size then LastWhole(Read(line.resp))
    else LastPiece
  }

  /** How a Call read: not at all, so many bytes of that line if there was one, or what the scanner had left. */
  datatype Reading = NotTried | FromStream(line: Option<ReplyLine>, arrived: nat) | FromBuffer

  /** A finished Call: its id, whether the request was written, how it read, and what it returned. */
  datatype Record = Record(id: int, sent: Sent, read: Reading, result: Option<Response>)

  datatype Conversation = Conversation(
    client: ClientState,
    waiting: Option<int>,          // the id of the Call under way
    toServer: seq<Request>,
    toClient: seq<ReplyLine>,
    records: seq<Record>)

  datatype Action =
    | BeginCall(name: string, params: string, marshals: bool, writes: bool, arrives: bool)
    | Serve(methods: set<string>, outcome: HandlerOutcome, size: nat, complete: bool)
    | EndCall(arrived: nat)
    | DeadlineFails                // SetReadDeadline on a connection closed meanwhile
    | CloseConnection

  const START := Conversation(ClientState(0, false, Working, false), None, [], [], [])

  /** The line a Call reads from, if it reads from the stream and there is one. */
  function Incoming(s: Conversation): Option<ReplyLine> {
    if s.client.scanner.Working? && s.toClient != [] then Some(s.toClient[0]) else None
  }

  function Most(line: Option<ReplyLine>): nat {
    match line
    case None => 0
    case Some(l) => if l.complete then l.size + 1 else l.size
  }

  /** The server writes responses and nothing else, so no line is garbled. */
  predicate Enabled(s: Conversation, a: Action) {
    match a
    case BeginCall(_, _, _, _, _) => s.waiting.None?
    case Serve(_, _, size, _) => s.toServer != [] && size > 0
    case EndCall(arrived) => s.waiting.Some? && arrived <= Most(Incoming(s))
    case DeadlineFails => s.waiting.Some? && s.client.closed
    case CloseConnection => true
  }

  function Ended(s: Conversation, read: Reading, result: Option<Response>): Conversation
    requires s.waiting.Some?
  {
    s.(waiting := None, records := s.records + [Record(s.waiting.value, SentId(s.waiting.value), read, result)])
  }

  function ReadingOf(s: Conversation, arrived: nat): Reading {
    if s.client.scanner.Working? then FromStream(Incoming(s), arrived) else FromBuffer
  }

  /** A request whose write failed may still have arrived. */
  function Do(s: Conversation, a: Action): Conversation
    requires Enabled(s, a)
  {
    match a
    case BeginCall(name, params, marshals, writes, arrives) =>
      var (c, sent) := Send(s.client, marshals, writes);
      var request := Request(Number(c.nextID), name, params);
      match sent {
        case SentId(id) => s.(client := c, waiting := Some(id), toServer := s.toServer + [request])
        case MarshalFailed => s.(client := c, records := s.records + [Record(c.nextID, sent, NotTried, None)])
        case WriteFailed =>
          s.(client := c, records := s.records + [Record(c.nextID, sent, NotTried, None)],
             toServer := if arrives then s.toServer + [request] else s.toServer)
      }
    case Serve(methods, outcome, size, complete) =>
      var resp := OnLine(Dispatch(Line(Some(s.toServer[0]), 0), methods, outcome));
      s.(toServer := s.toServer[1..], toClient := s.toClient + [ReplyLine(resp, size, complete)])
    case EndCall(arrived) =>
      var token := if Incoming(s).Some? then TokenOf(Incoming(s).value, arrived) else NoToken;
      var (c, result) := Receive(s.client, token);
      Ended(s, ReadingOf(s, arrived), result)
        .(client := c, toClient := if Incoming(s).Some? then s.toClient[1..] else s.toClient)
    case DeadlineFails => Ended(s, NotTried, None)
    case CloseConnection => s.(client := s.client.(closed := true))
  }

  ghost predicate IsRun(states: seq<Conversation>, actions: seq<Action>) {
    |states| == |actions| + 1 && states[0] == START && forall i | 0 <= i < |actions| :: StepAt(states, actions, i)
  }

  ghost predicate StepAt(states: seq<Conversation>, actions: seq<Action>, i: nat)
    requires i < |actions| < |states|
  {
    Enabled(states[i], actions[i]) && states[i + 1] == Do(states[i], actions[i])
  }

  // ---------------------------------------------------------------- what a Call gets

  /** A line below the limit came in, up to its last byte at least. */
  predicate Complete(r: Record) {
    && r.read.FromStream? && r.read.line.Some?
    && 0 < r.read.arrived && r.read.line.value.size <= r.read.arrived && r.read.line.value.size < MAX_TOKEN
  }

  /** The line of exactly 65536 bytes: too long, but the buffer holds the whole response. */
  predicate Leaves(r: Record) {
    r.read.FromStream? && r.read.line.Some? && r.read.line.value.size == MAX_TOKEN <= r.read.arrived
  }

  /** The last Call that came to its read. */
  function LastReader(records: seq<Record>): (r: Option<Record>)
    ensures r.Some? ==> r.value in records && !r.value.read.NotTried?
  {
    if records == [] then None
    else
      var last := records[|records| - 1];
      if !last.read.NotTried? then Some(last) else LastReader(records[..|records| - 1])
  }

  /** r is the first Call to come to its read after one that met a line of exactly 65536 bytes. */
  predicate Inherits(before: seq<Record>, r: Record) {
    !r.read.NotTried? && LastReader(before).Some? && Leaves(LastReader(before).value)
  }

  /** Failed in writing or reading. */
  predicate Fatal(r: Record) {
    r.result.None? && !r.sent.MarshalFailed?
  }

  ghost predicate RequestHas(r: Request, id: int) {
    r.id == Number(id)
  }

  /** In the client's memory. */
  ghost predicate ResponseHas(r: Response, id: int) {
    r.id == Number(Float64(id))
  }

  /** The response on the line that r met. */
  function GotLine(r: Record): Option<Response> {
    if r.read.FromStream? && r.read.line.Some? then Some(Read(r.read.line.value.resp)) else None
  }

  // ---------------------------------------------------------------- the invariant

  ghost predicate Explained(before: seq<Record>, r: Record) {
    match r.read
    case NotTried => r.result.None?
    case FromStream(_, _) =>
      && r.sent.SentId? && (r.result.Some? <==> Complete(r))
      && (r.result.Some? ==> r.result == GotLine(r) && ResponseHas(r.result.value, r.id))
      && forall x | x in before :: !Fatal(x)
    case FromBuffer =>
      && LastReader(before).Some? && r.sent.SentId?
      && (r.result.Some? <==> Leaves(LastReader(before).value))
      && (r.result.Some? ==> r.result == GotLine(LastReader(before).value))
      && (r.result.Some? ==> ResponseHas(r.result.value, LastReader(before).value.id))
  }

  ghost predicate RecordsOk(records: seq<Record>) {
    forall k | 0 <= k < |records| :: Explained(records[..k], records[k])
  }

  ghost predicate ScannerOk(scanner: Scanner, records: seq<Record>) {
    var last := LastReader(records);
    match scanner
    case Working => last.Some? ==> Complete(last.value)
    case Kept(left) =>
      && last.Some? && !Complete(last.value) && (left.Some? <==> Leaves(last.value))
      && (left.Some? ==> left == GotLine(last.value) && ResponseHas(left.value, last.value.id))
    case Spent => last.Some? && !Leaves(last.value)
  }

  /** No further Call on this client reads from the stream. */
  predicate Broken(c: ClientState) {
    c.encFailed || !c.scanner.Working? || c.closed
  }

  /** While the client works, what is under way between the two ends belongs to the present Call alone. */
  ghost predicate InFlightOk(s: Conversation) {
    && (s.waiting.None? && !Broken(s.client) ==> s.toServer == [] && s.toClient == [])
    && (s.waiting.Some? && !s.client.encFailed && s.client.scanner.Working? ==>
          && |s.toServer| + |s.toClient| <= 1
          && (forall r | r in s.toServer :: RequestHas(r, s.waiting.value))
          && forall l | l in s.toClient :: l.size > 0 && ResponseHas(Read(l.resp), s.waiting.value))
    && (s.waiting.Some? ==> !s.client.encFailed)
  }

  ghost predicate StickyOk(s: Conversation) {
    (exists r :: r in s.records && Fatal(r)) ==>
      Broken(s.client) && (s.waiting.Some? ==> !s.client.scanner.Working?)
  }

  /** Calls are numbered from 1 on, with wrap-around. */
  ghost predicate IdsOk(s: Conversation) {
    && s.client.nextID == Wrap64(|s.records| + if s.waiting.Some? then 1 else 0)
    && (s.waiting.Some? ==> s.waiting.value == s.client.nextID)
    && forall k | 0 <= k < |s.records| :: s.records[k].id == Wrap64(k + 1)
  }

  ghost predicate Inv(s: Conversation) {
    InFlightOk(s) && RecordsOk(s.records) && ScannerOk(s.client.scanner, s.records) && StickyOk(s) && IdsOk(s)
  }

  lemma RecordsPush(records: seq<Record>, r: Record)
    requires RecordsOk(records) && Explained(records, r)
    ensures RecordsOk(records + [r])
  {
    var after := records + [r];
    forall k | 0 <= k < |after|
      ensures Explained(after[..k], after[k])
    {
      assert after[..k] == if k < |records| then records[..k] else records;
    }
  }

  lemma LastReaderPush(records: seq<Record>, r: Record)
    ensures LastReader(records + [r]) == if r.read.NotTried? then LastReader(records) else Some(r)
  {
    assert (records + [r])[..|records|] == records;
  }

  lemma InFlightPreserved(s: Conversation, a: Action)
    requires InFlightOk(s) && Enabled(s, a)
    ensures InFlightOk(Do(s, a))
  {
    if a.Serve? {
      assert s.toServer[0] in s.toServer;
      IdEchoedExactly(s.toServer[0].id);
    } else if a.EndCall? && s.toClient != [] {
      assert s.toClient == [s.toClient[0]] + s.toClient[1..];
    }
  }

  /** How a Call ends from each state of the scanner. */
  lemma EndExplained(s: Conversation, arrived: nat)
    requires InFlightOk(s) && StickyOk(s) && ScannerOk(s.client.scanner, s.records) && Enabled(s, EndCall(arrived))
    ensures var t := Do(s, EndCall(arrived)); var r := t.records[|s.records|];
            Explained(s.records, r) && ScannerOk(t.client.scanner, s.records + [r]) && t.records == s.records + [r]
  {
    var t := Do(s, EndCall(arrived));
    LastReaderPush(s.records, t.records[|s.records|]);
    if Incoming(s).Some? {
      assert s.toClient[0] in s.toClient;
    }
  }

  lemma RecordsPreserved(s: Conversation, a: Action)
    requires InFlightOk(s) && StickyOk(s) && RecordsOk(s.records) && ScannerOk(s.client.scanner, s.records)
    requires Enabled(s, a)
    ensures RecordsOk(Do(s, a).records) && ScannerOk(Do(s, a).client.scanner, Do(s, a).records)
  {
    var t := Do(s, a);
    if a.EndCall? {
      EndExplained(s, a.arrived);
      RecordsPush(s.records, t.records[|s.records|]);
    } else if t.records != s.records {
      var r := t.records[|s.records|];
      assert t.records == s.records + [r];
      RecordsPush(s.records, r);
      LastReaderPush(s.records, r);
    }
  }

  lemma StickyPreserved(s: Conversation, a: Action)
    requires InFlightOk(s) && StickyOk(s) && Enabled(s, a)
    ensures StickyOk(Do(s, a))
  {}

  lemma IdsPreserved(s: Conversation, a: Action)
    requires IdsOk(s) && Enabled(s, a)
    ensures IdsOk(Do(s, a))
  {
    WrapNext(|s.records|);
  }

  lemma InvPreserved(s: Conversation, a: Action)
    requires Inv(s) && Enabled(s, a)
    ensures Inv(Do(s, a))
  {
    InFlightPreserved(s, a);
    RecordsPreserved(s, a);
    StickyPreserved(s, a);
    IdsPreserved(s, a);
  }

  lemma {:induction false} InvAlongRun(states: seq<Conversation>, actions: seq<Action>, i: nat)
    requires IsRun(states, actions) && i <= |actions|
    ensures Inv(states[i])
  {
    if i > 0 {
      InvAlongRun(states, actions, i - 1);
      assert StepAt(states, actions, i - 1);
      InvPreserved(states[i - 1], actions[i - 1]);
    }
  }

  // ---------------------------------------------------------------- over every run

  lemma LeavingIsFatal(records: seq<Record>, r: Record)
    requires RecordsOk(records) && r in records && Leaves(r)
    ensures Fatal(r)
  {
    var m :| 0 <= m < |records| && records[m] == r;
    assert Explained(records[..m], records[m]);
  }

  lemma PrefixOk(records: seq<Record>, k: nat)
    requires RecordsOk(records) && k <= |records|
    ensures RecordsOk(records[..k])
  {
    forall m | 0 <= m < k
      ensures Explained(records[..k][..m], records[..k][m])
    {
      assert records[..k][..m] == records[..m];
    }
  }

  /**
   A Call returns a response exactly when a line below the limit came in for it, or when it
   inherits the line of exactly 65536 bytes at which the last reading Call before it failed.
   */
  lemma CallReturnsExactly(states: seq<Conversation>, actions: seq<Action>, i: nat, k: nat)
    requires IsRun(states, actions) && i <= |actions| && k < |states[i].records|
    ensures var before, r := states[i].records[..k], states[i].records[k];
            && (r.result.Some? <==> Complete(r) || Inherits(before, r))
            && !(Complete(r) && Inherits(before, r))
  {
    InvAlongRun(states, actions, i);
    var before, r := states[i].records[..k], states[i].records[k];
    assert Explained(before, r);
    PrefixOk(states[i].records, k);
    if Inherits(before, r) {
      LeavingIsFatal(before, LastReader(before).value);
    }
  }

  /**
   The response is the Call's own, or if it inherits one the response of the Call that failed;
   the id is the float64 of that Call's. Up to the 2^53rd Call the id tells the two apart.
   */
  lemma CallReturnsItsOwnResponse(states: seq<Conversation>, actions: seq<Action>, i: nat, k: nat)
    requires IsRun(states, actions) && i <= |actions|
    requires k < |states[i].records| && states[i].records[k].result.Some?
    ensures var before, r := states[i].records[..k], states[i].records[k];
            var owner := if Inherits(before, r) then LastReader(before).value else r;
            && r.result.value.id == Number(Float64(owner.id))
            && (Inherits(before, r) ==> Fatal(owner))
            && (r.result.value.id == Number(owner.id) <==> FloatExact(owner.id))
            && (k < TWO53 ==> (r.result.value.id == Number(r.id) <==> !Inherits(before, r)))
  {
    InvAlongRun(states, actions, i);
    CallReturnsExactly(states, actions, i, k);
    var records := states[i].records;
    var before, r := records[..k], records[k];
    assert Explained(before, r);
    Float64Exact(r.id);
    if Inherits(before, r) {
      var owner := LastReader(before).value;
      PrefixOk(records, k);
      LeavingIsFatal(before, owner);
      Float64Exact(owner.id);
      var m :| 0 <= m < k && before[m] == owner;
      assert records[m].id == Wrap64(m + 1);
    }
  }

  /**
   Once a Call has failed in writing or reading, a later one returns a response exactly if it
   inherits it; without a line of exactly 65536 bytes, none does.
   */
  lemma FailureIsForGood(states: seq<Conversation>, actions: seq<Action>, i: nat, j: nat, k: nat)
    requires IsRun(states, actions) && i <= |actions| && j < k < |states[i].records| && Fatal(states[i].records[j])
    ensures states[i].records[k].result.Some? <==> Inherits(states[i].records[..k], states[i].records[k])
  {
    InvAlongRun(states, actions, i);
    CallReturnsExactly(states, actions, i, k);
    assert Explained(states[i].records[..k], states[i].records[k]);
    assert states[i].records[j] in states[i].records[..k];
  }

  lemma {:induction false} LastReaderFrom(records: seq<Record>, k: nat) returns (m: nat)
    requires k < |records| && !records[k].read.NotTried?
    ensures k <= m < |records| && LastReader(records) == Some(records[m])
  {
    m := |records| - 1;
    if records[m].read.NotTried? {
      m := LastReaderFrom(records[..m], k);
    }
  }

  /** And that happens once: after a Call that inherits, all fail. */
  lemma InheritedOnce(states: seq<Conversation>, actions: seq<Action>, i: nat, k: nat, n: nat)
    requires IsRun(states, actions) && i <= |actions| && k < n < |states[i].records|
    requires Inherits(states[i].records[..k], states[i].records[k])
    ensures states[i].records[n].result.None?
  {
    InvAlongRun(states, actions, i);
    var records := states[i].records;
    PrefixOk(records, k);
    var leaver := LastReader(records[..k]).value;
    LeavingIsFatal(records[..k], leaver);
    var j :| 0 <= j < k && records[..k][j] == leaver;
    FailureIsForGood(states, actions, i, j, n);
    var m := LastReaderFrom(records[..n], k);
    assert records[j] in records[..m];
    assert Explained(records[..m], records[m]);
  }

  // ---------------------------------------------------------------- from the request to the reply

  predicate Ends(a: Action) {
    a.EndCall? || a.DeadlineFails?
  }

  function BeginCalls(actions: seq<Action>): nat {
    if actions == [] then 0
    else BeginCalls(actions[..|actions| - 1]) + if actions[|actions| - 1].BeginCall? then 1 else 0
  }

  lemma {:induction false} CallsCounted(states: seq<Conversation>, actions: seq<Action>, i: nat)
    requires IsRun(states, actions) && i <= |actions|
    ensures BeginCalls(actions[..i]) == |states[i].records| + if states[i].waiting.Some? then 1 else 0
  {
    if i > 0 {
      CallsCounted(states, actions, i - 1);
      assert StepAt(states, actions, i - 1);
      assert actions[..i][..i - 1] == actions[..i - 1];
    }
  }

  /** The k-th record was made at step e. */
  lemma {:induction false} RecordMade(states: seq<Conversation>, actions: seq<Action>, i: nat, k: nat) returns (e: nat)
    requires IsRun(states, actions) && i <= |actions| && k < |states[i].records|
    ensures e < i && states[e].records == states[i].records[..k] && states[e + 1].records == states[i].records[..k + 1]
  {
    assert i > 0 && StepAt(states, actions, i - 1);
    var before := states[i - 1].records;
    assert states[i].records == before || states[i].records == before + [states[i].records[|before|]];
    if k < |before| {
      e := RecordMade(states, actions, i - 1, k);
    } else {
      e := i - 1;
    }
  }

  /** The Call under way at e began at b, and nothing was read since. */
  lemma {:induction false} CallBegan(states: seq<Conversation>, actions: seq<Action>, e: nat) returns (b: nat)
    requires IsRun(states, actions) && e <= |actions| && states[e].waiting.Some?
    ensures b < e && actions[b].BeginCall? && states[b + 1].waiting == states[e].waiting
    ensures states[b].client.scanner == states[e].client.scanner && states[b].records == states[e].records
    ensures forall m | b < m < e :: !Ends(actions[m])
  {
    b := e - 1;
    assert StepAt(states, actions, b);
    if !actions[b].BeginCall? {
      b := CallBegan(states, actions, e - 1);
    }
  }

  /** One request is under way, or its answer. */
  ghost predicate InFlight(s: Conversation, request: Request, answer: Option<ReplyLine>) {
    && s.waiting.Some? && s.client.scanner.Working?
    && s.toServer == (if answer.None? then [request] else [])
    && s.toClient == (if answer.None? then [] else [answer.value])
  }

  lemma FlightBegins(s: Conversation, a: Action)
    requires InFlightOk(s) && Enabled(s, a) && a.BeginCall? && Do(s, a).waiting.Some? && s.client.scanner.Working?
    ensures InFlight(Do(s, a), Request(Number(Do(s, a).waiting.value), a.name, a.params), None)
  {}

  lemma FlightStep(s: Conversation, a: Action, request: Request, answer: Option<ReplyLine>)
    requires Enabled(s, a) && InFlight(s, request, answer) && !Ends(a)
    ensures a.Serve? ==> answer.None?
    ensures InFlight(Do(s, a), request, if a.Serve? then Some(AnswerTo(request, a)) else answer)
  {}

  function AnswerTo(request: Request, a: Action): ReplyLine
    requires a.Serve?
  {
    ReplyLine(OnLine(Dispatch(Line(Some(request), 0), a.methods, a.outcome)), a.size, a.complete)
  }

  /** At step v the server answers the request, and at no other from b to e. */
  ghost predicate ServedAt(states: seq<Conversation>, actions: seq<Action>, b: nat, v: nat, e: nat, request: Request)
    requires e <= |actions| <= |states|
  {
    b < v < e && actions[v].Serve? && states[v].toServer == [request] && NoServe(actions[b + 1..v] + actions[v + 1..e])
  }

  ghost predicate NoServe(actions: seq<Action>) {
    forall a | a in actions :: !a.Serve?
  }

  /** How far the request of the Call that began at b has come. */
  ghost predicate Progress(states: seq<Conversation>, actions: seq<Action>, b: nat, e: nat, request: Request,
                           answer: Option<ReplyLine>, v: nat)
    requires b < e <= |actions| <= |states|
  {
    if answer.None? then NoServe(actions[b + 1..e])
    else ServedAt(states, actions, b, v, e, request) && answer.value == AnswerTo(request, actions[v])
  }

  lemma ProgressNext(states: seq<Conversation>, actions: seq<Action>, b: nat, e: nat, request: Request,
                     answer: Option<ReplyLine>, v: nat)
    requires b < e < |actions| <= |states| && Progress(states, actions, b, e, request, answer, v) && !actions[e].Serve?
    ensures Progress(states, actions, b, e + 1, request, answer, v)
  {
    if answer.None? {
      assert actions[b + 1..e + 1] == actions[b + 1..e] + [actions[e]];
    } else {
      assert actions[v + 1..e + 1] == actions[v + 1..e] + [actions[e]];
    }
  }

  lemma ProgressServed(states: seq<Conversation>, actions: seq<Action>, b: nat, e: nat, request: Request, v: nat)
    requires b < e < |actions| <= |states| && Progress(states, actions, b, e, request, None, v)
    requires actions[e].Serve? && states[e].toServer == [request]
    ensures Progress(states, actions, b, e + 1, request, Some(AnswerTo(request, actions[e])), e)
  {
    assert actions[b + 1..e] + actions[e + 1..e + 1] == actions[b + 1..e];
  }

  lemma FlightNext(states: seq<Conversation>, actions: seq<Action>, b: nat, e: nat, request: Request,
                   answer: Option<ReplyLine>, v: nat)
    returns (answer': Option<ReplyLine>, v': nat)
    requires IsRun(states, actions) && b < e < |actions| && !Ends(actions[e])
    requires InFlight(states[e], request, answer) && Progress(states, actions, b, e, request, answer, v)
    ensures InFlight(states[e + 1], request, answer') && Progress(states, actions, b, e + 1, request, answer', v')
  {
    assert StepAt(states, actions, e);
    FlightStep(states[e], actions[e], request, answer);
    if actions[e].Serve? {
      answer', v' := Some(AnswerTo(request, actions[e])), e;
      ProgressServed(states, actions, b, e, request, v);
    } else {
      answer', v' := answer, v;
      ProgressNext(states, actions, b, e, request, answer, v);
    }
  }

  lemma {:induction false} FlightAlong(states: seq<Conversation>, actions: seq<Action>, b: nat, e: nat,
                                       request: Request)
    returns (answer: Option<ReplyLine>, v: nat)
    requires IsRun(states, actions) && b < e <= |actions| && InFlight(states[b + 1], request, None)
    requires forall m | b < m < e :: !Ends(actions[m])
    ensures InFlight(states[e], request, answer) && Progress(states, actions, b, e, request, answer, v)
    decreases e
  {
    if b + 1 == e {
      answer, v := None, 0;
    } else {
      answer, v := FlightAlong(states, actions, b, e - 1, request);
      answer, v := FlightNext(states, actions, b, e - 1, request, answer, v);
    }
  }

  lemma LineMet(s: Conversation, a: Action)
    requires Enabled(s, a) && |Do(s, a).records| == |s.records| + 1
    requires var r := Do(s, a).records[|s.records|]; r.read.FromStream? && r.read.line.Some?
    ensures a.EndCall? && s.waiting.Some? && s.client.scanner.Working?
    ensures s.toClient != [] && Do(s, a).records[|s.records|].read.line.value == s.toClient[0]
  {}

  /** The line that the o-th Call met is the server's answer to the request of that very Call. */
  lemma LineAnswersRequest(states: seq<Conversation>, actions: seq<Action>, i: nat, o: nat)
    returns (b: nat, v: nat, e: nat)
    requires IsRun(states, actions) && i <= |actions| && o < |states[i].records|
    requires states[i].records[o].read.FromStream? && states[i].records[o].read.line.Some?
    ensures b < v < e < i && |states[e].records| == o && actions[e].EndCall?
    ensures actions[b].BeginCall? && BeginCalls(actions[..b]) == o
    ensures var request := Request(Number(Wrap64(o + 1)), actions[b].name, actions[b].params);
            && ServedAt(states, actions, b, v, e, request)
            && states[i].records[o].read.line.value == AnswerTo(request, actions[v])
  {
    e := RecordMade(states, actions, i, o);
    assert states[e + 1].records[o] == states[i].records[o];
    assert StepAt(states, actions, e);
    LineMet(states[e], actions[e]);
    b := CallBegan(states, actions, e);
    InvAlongRun(states, actions, b);
    InvAlongRun(states, actions, b + 1);
    CallsCounted(states, actions, b);
    assert StepAt(states, actions, b);
    FlightBegins(states[b], actions[b]);
    var request := Request(Number(Wrap64(o + 1)), actions[b].name, actions[b].params);
    var answer;
    answer, v := FlightAlong(states, actions, b, e, request);
  }

  /** What a reply says of a request by that name, served with these methods and that outcome. */
  ghost predicate RepliesTo(reply: Reply, name: string, methods: set<string>, outcome: HandlerOutcome) {
    && (reply.Error? <==> name !in methods || !outcome.Ok?)
    && (reply.Result? ==> reply.value == outcome.value)
    && (reply.Error? ==> reply.code == if name !in methods then METHOD_NOT_FOUND
                                       else if outcome.ProtocolError? then outcome.code else INTERNAL_ERROR)
  }

  /** Whose response it is: the Call's own, or the last reading one's if it inherits. */
  ghost predicate Owns(records: seq<Record>, k: nat, o: nat)
    requires k < |records|
  {
    o <= k && if Inherits(records[..k], records[k]) then LastReader(records[..k]) == Some(records[o]) else o == k
  }

  /**
   Over every run: a response carries what the server's handler made of the owner's request. The
   owner began at b with a method and its params, the server answered that request at v and no
   other until the owner ended at e, and the reply tells the outcome of that step.
   */
  lemma CallGetsItsReply(states: seq<Conversation>, actions: seq<Action>, i: nat, k: nat)
    returns (o: nat, b: nat, v: nat, e: nat)
    requires IsRun(states, actions) && i <= |actions|
    requires k < |states[i].records| && states[i].records[k].result.Some?
    ensures Owns(states[i].records, k, o) && b < v < e < i && |states[e].records| == o && actions[e].EndCall?
    ensures actions[b].BeginCall? && BeginCalls(actions[..b]) == o
    ensures ServedAt(states, actions, b, v, e, Request(Number(Wrap64(o + 1)), actions[b].name, actions[b].params))
    ensures var r := states[i].records[k].result.value;
            && RepliesTo(r.reply, actions[b].name, actions[v].methods, actions[v].outcome)
            && r.id == Number(Float64(Wrap64(o + 1)))
  {
    InvAlongRun(states, actions, i);
    CallReturnsExactly(states, actions, i, k);
    var records := states[i].records;
    assert Explained(records[..k], records[k]);
    o := k;
    if Inherits(records[..k], records[k]) {
      o :| 0 <= o < k && records[..k][o] == LastReader(records[..k]).value;
    }
    b, v, e := LineAnswersRequest(states, actions, i, o);
  }

  // ---------------------------------------------------------------- a response that comes one Call late

  const ASK_LOG := BeginCall("log", "", true, true, true)
  const ASK_STATUS := BeginCall("status", "", true, true, true)
  const ANSWER := Serve({"log"}, Ok(None), MAX_TOKEN, true)
  const FIRST := Response(Number(1), Result(None))

  lemma FirstAnswered() returns (s: Conversation, t: Conversation)
    ensures Enabled(START, ASK_LOG) && s == Do(START, ASK_LOG) && Enabled(s, ANSWER) && t == Do(s, ANSWER)
    ensures t == Conversation(ClientState(1, false, Working, false), Some(1), [],
                              [ReplyLine(FIRST, MAX_TOKEN, true)], [])
  {
    s := Do(START, ASK_LOG);
    t := Do(s, ANSWER);
    IdEchoedExactly(Number(1));
  }

  lemma FirstFails(s: Conversation) returns (t: Conversation)
    requires s == Conversation(ClientState(1, false, Working, false), Some(1), [],
                               [ReplyLine(FIRST, MAX_TOKEN, true)], [])
    ensures Enabled(s, EndCall(MAX_TOKEN)) && t == Do(s, EndCall(MAX_TOKEN))
    ensures var met := FromStream(Some(ReplyLine(FIRST, MAX_TOKEN, true)), MAX_TOKEN);
            t == Conversation(ClientState(1, false, Kept(Some(FIRST)), false), None, [], [],
                              [Record(1, SentId(1), met, None)])
  {
    t := Do(s, EndCall(MAX_TOKEN));
    Float64Exact(1);
  }

  lemma SecondInherits(s: Conversation) returns (t: Conversation, u: Conversation)
    requires s.client == ClientState(1, false, Kept(Some(FIRST)), false) && s.waiting.None? && |s.records| == 1
    ensures Enabled(s, ASK_STATUS) && t == Do(s, ASK_STATUS) && Enabled(t, EndCall(0)) && u == Do(t, EndCall(0))
    ensures u.records == s.records + [Record(2, SentId(2), FromBuffer, Some(FIRST))]
  {
    t := Do(s, ASK_STATUS);
    u := Do(t, EndCall(0));
  }

  /** The first Call fails on a response of exactly 65536 bytes, and the second returns that response. */
  lemma StaleResponse() returns (states: seq<Conversation>, actions: seq<Action>)
    ensures IsRun(states, actions) && |actions| == 5
    ensures var r := states[5].records;
            && |r| == 2 && r[0].id == 1 && r[0].sent == SentId(1) && r[0].result.None?
            && r[1].id == 2 && r[1].result.Some? && r[1].result.value.id == Number(1)
  {
    actions := [ASK_LOG, ANSWER, EndCall(MAX_TOKEN), ASK_STATUS, EndCall(0)];
    var s1, s2 := FirstAnswered();
    var s3 := FirstFails(s2);
    var s4, s5 := SecondInherits(s3);
    states := [START, s1, s2, s3, s4, s5];
    FiveSteps(states, actions);
  }

  lemma FiveSteps(states: seq<Conversation>, actions: seq<Action>)
    requires |states| == 6 && |actions| == 5 && states[0] == START
    requires Enabled(states[0], actions[0]) && states[1] == Do(states[0], actions[0])
    requires Enabled(states[1], actions[1]) && states[2] == Do(states[1], actions[1])
    requires Enabled(states[2], actions[2]) && states[3] == Do(states[2], actions[2])
    requires Enabled(states[3], actions[3]) && states[4] == Do(states[3], actions[3])
    requires Enabled(states[4], actions[4]) && states[5] == Do(states[4], actions[4])
    ensures IsRun(states, actions)
  {
    assert StepAt(states, actions, 0) && StepAt(states, actions, 1) && StepAt(states, actions, 2);
    assert StepAt(states, actions, 3) && StepAt(states, actions, 4);
  }
}
