/**
 Newline-delimited JSON-RPC as the server speaks it: messages, request ids, and one response for
 each line (internal/daemon/server.go, internal/protocol/jsonrpc.go).

 A request id is a float64 in the server, which decodes it into an untyped field, and goes back
 as that float64's shortest decimal. How bytes are split into lines is not part of this model,
 but the scanner's limit on a line is.
 */
module LineProtocol {
  import opened GoInt
  import opened Options
  import opened Float64s

  // ---------------------------------------------------------------- messages

  /** On a line, Number holds the number the digits denote; in memory, one that is a float64. */
  datatype Id = Null | Number(n: int) | Text(s: string)

  datatype Request = Request(id: Id, name: string, params: string)

  /** The result is None when the handler returned nil: the `result` member is then left out. */
  datatype Reply = Result(value: Option<string>) | Error(code: int)

  datatype Response = Response(id: Id, reply: Reply)

  /** What a handler returns: a value, a *protocol.Error with its own code, or another error. */
  datatype HandlerOutcome = Ok(value: Option<string>) | ProtocolError(code: int) | OtherError

  const INVALID_REQUEST := -32600
  const METHOD_NOT_FOUND := -32601
  const INTERNAL_ERROR := -32603

  /** One line as the server sees it: what JSON decoding makes of it, and its length in bytes. */
  datatype Line = Line(decoded: Option<Request>, size: nat)

  /** The scanner's buffer holds 64 KiB, the newline included. */
  const MAX_TOKEN := 65536

  predicate Fits(size: nat) {
    size + 1 <= MAX_TOKEN
  }

  function DecodedId(id: Id): Id {
    match id
    case Number(n) => Number(Float64(n))
    case _ => id
  }

  function EncodedId(id: Id): Id {
    match id
    case Number(v) => Number(Written(v))
    case _ => id
  }

  /** The line that a response in memory is written as, and what a response line is read as. */
  function OnLine(r: Response): Response {
    r.(id := EncodedId(r.id))
  }

  function Read(r: Response): Response {
    r.(id := DecodedId(r.id))
  }

  /** What may come back for an id: a number of the same float64, and of those the preferred one. */
  ghost predicate EchoOf(id: Id, back: Id) {
    match id
    case Number(n) => back.Number? && Float64(back.n) == Float64(n) && Preferred(Abs(back.n))
    case _ => back == id
  }

  /** An id comes back unchanged exactly if it is itself preferred, as all up to 2^53 are. */
  lemma IdEchoedExactly(id: Id)
    ensures EchoOf(id, EncodedId(DecodedId(id)))
    ensures EncodedId(DecodedId(id)) == id <==> !id.Number? || Preferred(Abs(id.n))
    ensures id.Number? && -TWO53 <= id.n <= TWO53 ==> EncodedId(DecodedId(id)) == id
  {
    if id.Number? {
      Rewritten(id.n);
    }
  }

  // ---------------------------------------------------------------- the server's side

  function Dispatch(line: Line, methods: set<string>, outcome: HandlerOutcome): Response {
    match line.decoded
    case None => Response(Null, Error(INVALID_REQUEST))
    case Some(req) =>
      var id := DecodedId(req.id);
      if req.name !in methods then Response(id, Error(METHOD_NOT_FOUND))
      else
        match outcome
        case Ok(value) => Response(id, Result(value))
        case ProtocolError(code) => Response(id, Error(code))
        case OtherError => Response(id, Error(INTERNAL_ERROR))
  }

  /** The line was understood, names a method, and its handler succeeded. */
  predicate Succeeds(line: Line, methods: set<string>, outcome: HandlerOutcome) {
    line.decoded.Some? && line.decoded.value.name in methods && outcome.Ok?
  }

  /** Section 5 of the JSON-RPC 2.0 specification, for the response r written to a line. */
  ghost predicate Answers(r: Response, line: Line, methods: set<string>, outcome: HandlerOutcome) {
    && EchoOf(if line.decoded.Some? then line.decoded.value.id else Null, r.id)
    && (r.reply.Error? <==> !Succeeds(line, methods, outcome))
    && (r.reply.Result? ==> r.reply.value == outcome.value)
    && (line.decoded.None? ==> r.reply == Error(INVALID_REQUEST))
    && (r.reply.Error? && line.decoded.Some? ==>
          r.reply.code == if line.decoded.value.name !in methods then METHOD_NOT_FOUND
                          else if outcome.ProtocolError? then outcome.code else INTERNAL_ERROR)
  }

  predicate HasResult(r: Response) {
    r.reply.Result? && r.reply.value.Some?
  }

  predicate HasError(r: Response) {
    r.reply.Error?
  }

  /** Never both members; neither of them exactly when a successful handler returned nil. */
  lemma OneMember(line: Line, methods: set<string>, outcome: HandlerOutcome)
    ensures var r := Dispatch(line, methods, outcome);
            && !(HasResult(r) && HasError(r))
            && (HasResult(r) || HasError(r) <==> !(Succeeds(line, methods, outcome) && outcome.value.None?))
  {}

  lemma WrittenAnswers(line: Line, methods: set<string>, outcome: HandlerOutcome)
    ensures Answers(OnLine(Dispatch(line, methods, outcome)), line, methods, outcome)
  {
    IdEchoedExactly(if line.decoded.Some? then line.decoded.value.id else Null);
  }

  /**
   handleConn: one response for each line, in order, until the input ends, a line exceeds the
   scanner's buffer, or a response cannot be written. `resets` counts the idle timer's resets.
   */
  method HandleConn(lines: seq<Line>, methods: set<string>, outcomes: nat -> HandlerOutcome, writes: nat -> bool)
    returns (out: seq<Response>, resets: nat)
    ensures |out| <= |lines|
    ensures forall i | 0 <= i < |out| :: Fits(lines[i].size) && Answers(out[i], lines[i], methods, outcomes(i))
    ensures |out| == |lines| || !Fits(lines[|out|].size) || !writes(|out|)
    ensures forall i | 0 <= i < |out| :: writes(i)
    ensures |out| <= resets <= |out| + 1
    ensures resets == |out| + 1 <==> |out| < |lines| && Fits(lines[|out|].size)
  {
    out := [];
    resets := 0;
    for i := 0 to |lines|
      invariant |out| == i && resets == i
      invariant forall k | 0 <= k < i :: Fits(lines[k].size) && writes(k)
      invariant forall k | 0 <= k < i :: Answers(out[k], lines[k], methods, outcomes(k))
    {
      if !Fits(lines[i].size) {
        return;
      }
      resets := resets + 1;
      var resp := Dispatch(lines[i], methods, outcomes(i));
      if !writes(i) {
        return;
      }
      WrittenAnswers(lines[i], methods, outcomes(i));
      out := out + [OnLine(resp)];
    }
  }
}
