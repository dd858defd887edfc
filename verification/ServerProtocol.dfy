/** What the protocol promises of single lines and of the lifecycle over whole sessions. */
module ServerProtocol {
  import opened Options
  import opened Bytes
  import opened ServerModel

  // ---------- Framing ----------

  datatype Frame = Oversized | Complete(bytes: seq<Byte>)

  function FrameOf(line: seq<Byte>, maxRequestBytes: nat): Frame {
    if |line| > maxRequestBytes then Oversized else Complete(DropCarriageReturn(line))
  }

  /** One frame for every newline-terminated line, and for a last line that lacks its newline. */
  function Frames(s: seq<Byte>, lines: seq<Line>, maxRequestBytes: nat): seq<Frame>
    requires InFile(s, lines)
  {
    if lines == [] then []
    else [FrameOf(Text(s, lines[0]), maxRequestBytes)] + Frames(s, lines[1..], maxRequestBytes)
  }

  lemma FramesAppend(input: seq<Byte>, frames: seq<Frame>, start: nat, offset: nat, maxRequestBytes: nat)
    requires start <= offset <= |input| && NEWLINE !in input[start..offset] && start < |input|
    requires offset == |input| || input[offset] == NEWLINE
    ensures frames + Frames(input, Lines(input, start), maxRequestBytes)
            == frames + [FrameOf(input[start..offset], maxRequestBytes)]
               + Frames(input, if offset < |input| then Lines(input, offset + 1) else [], maxRequestBytes)
  {
    hide Lines, FrameOf;
    LinesFrom(input, start, offset);
    var lines := Lines(input, start);
    assert Frames(input, lines, maxRequestBytes)
        == [FrameOf(input[start..offset], maxRequestBytes)] + Frames(input, lines[1..], maxRequestBytes);
  }

  /** run_stdio's loop over the input, up to a normal end: the bounded line buffer and the oversize
      flag yield exactly the frames of the newline-split lines. */
  method ReadFrames(input: seq<Byte>, maxRequestBytes: nat) returns (frames: seq<Frame>)
    ensures frames == Frames(input, Lines(input, 0), maxRequestBytes)
  {
    hide Frames, Lines, FrameOf, LineEnd;
    frames := [];
    var line: seq<Byte>, oversized := [], false;
    ghost var start := 0;
    var index := 0;
    FramesNone(input, maxRequestBytes);
    while index < |input|
      invariant 0 <= start <= index <= |input| && NEWLINE !in input[start..index]
      invariant Buffered(input[start..index], line, oversized, maxRequestBytes)
      invariant Frames(input, Lines(input, 0), maxRequestBytes) == frames + Frames(input, Lines(input, start), maxRequestBytes)
    {
      var character := input[index];
      assert input[start..index + 1] == input[start..index] + [character];
      if character == NEWLINE {
        FramesAppend(input, frames, start, index, maxRequestBytes);
        CurrentFrame(input[start..index], line, oversized, maxRequestBytes);
        frames := frames + [if oversized then Oversized else Complete(DropCarriageReturn(line))];
        line, oversized, start := [], false, index + 1;
        assert input[start..index + 1] == [];
      } else if !oversized {
        if |line| >= maxRequestBytes {
          oversized := true;
        } else {
          line := line + [character];
        }
      }
      index := index + 1;
    }
    if oversized || line != [] {
      FramesAppend(input, frames, start, index, maxRequestBytes);
      CurrentFrame(input[start..index], line, oversized, maxRequestBytes);
      frames := frames + [if oversized then Oversized else Complete(DropCarriageReturn(line))];
    } else {
      LinesNone(input, start);
    }
  }

  /** The buffer holds the line so far, or its first bytes once it is oversized. */
  ghost predicate Buffered(read: seq<Byte>, line: seq<Byte>, oversized: bool, maxRequestBytes: nat) {
    if oversized then |read| > maxRequestBytes else line == read && |read| <= maxRequestBytes
  }

  lemma CurrentFrame(read: seq<Byte>, line: seq<Byte>, oversized: bool, maxRequestBytes: nat)
    requires Buffered(read, line, oversized, maxRequestBytes)
    ensures (if oversized then Oversized else Complete(DropCarriageReturn(line))) == FrameOf(read, maxRequestBytes)
  {
  }

  lemma FramesNone(input: seq<Byte>, maxRequestBytes: nat)
    ensures Frames(input, [], maxRequestBytes) == []
  {
  }

  lemma LinesNone(input: seq<Byte>, start: nat)
    requires start == |input|
    ensures Lines(input, start) == []
  {
  }

  // ---------- Single lines ----------

  /** A line that parses to an object the envelope checks look into. */
  predicate Readable(cfg: Config, line: InputLine) {
    line.length <= cfg.maxRequestBytes && line.preflight.Passed? && line.parsed.Some? && line.parsed.value.Obj?
  }

  predicate IsRequest(cfg: Config, line: InputLine) {
    Readable(cfg, line) && line.parsed.value.Find("id").Some? && IsValidId(line.parsed.value.Find("id").value)
  }

  function RequestId(line: InputLine): Json {
    if line.parsed.None? then Null
    else match line.parsed.value.Find("id") case Some(id) => id case None => Null
  }

  /** A notification in the sense of section 4.1 of JSON-RPC 2.0, or one with a broken envelope. */
  predicate IsNotification(cfg: Config, line: InputLine) {
    Readable(cfg, line) && line.parsed.value.Find("id").None? && HasString(line.parsed.value, "method")
  }

  lemma EnvelopeId(id: Json, result: Json, code: int, message: string)
    ensures MakeResult(id, result).Find("id") == Some(id)
    ensures MakeError(id, code, message).Find("id") == Some(id)
  {
  }

  /** A handler's answer to a request: under its id, without a diagnostic. */
  ghost predicate AnswersUnder(h: HandlerResult, id: Json) {
    h.response.Some? && h.response.value.Find("id") == Some(id) && h.diagnostic.None?
  }

  lemma ErrorAnswers(id: Json, code: int, message: string)
    ensures AnswersUnder(RequestError(id, code, message), id) && RequestError(id, code, message).nextState.None?
  {
    EnvelopeId(id, Null, code, message);
  }

  lemma InitializeShape(cfg: Config, message: Json, id: Json, state: Lifecycle)
    ensures var h := HandleInitialize(cfg, message, id, state);
            && AnswersUnder(h, id)
            && (h.nextState.Some? ==> state.Uninitialized? && h.nextState == Some(AwaitingInitialized)
                                      && h.response == Some(MakeResult(id, InitializeResult(cfg))))
  {
    hide MakeError, RequestError, InitializeResult, ValidInitializeParams, HasObject;
    ErrorAnswers(id, LIFECYCLE_ERROR, "Initialization has already started");
    ErrorAnswers(id, INVALID_PARAMS, "initialize requires object params");
    ErrorAnswers(id, INVALID_PARAMS, "Invalid initialize parameters");
    EnvelopeId(id, InitializeResult(cfg), 0, "");
  }

  lemma ToolsListShape(cfg: Config, message: Json, id: Json, state: Lifecycle)
    ensures var h := HandleToolsList(cfg, message, id, state);
            AnswersUnder(h, id) && h.nextState.None?
  {
    hide MakeError, RequestError;
    ErrorAnswers(id, LIFECYCLE_ERROR, "Server is not ready for tool discovery");
    ErrorAnswers(id, INVALID_PARAMS, "tools/list params must be an object");
    ErrorAnswers(id, INVALID_PARAMS, "tools/list cursor must be a string");
    EnvelopeId(id, Obj(map["tools" := if cfg.tools.None? then Arr([]) else cfg.tools.value.definitions]), 0, "");
  }

  /** What a handler may answer and where it may move the state. */
  ghost predicate Dispatched(cfg: Config, methodName: string, id: Json, notification: bool, state: Lifecycle, h: HandlerResult) {
    (if notification then h.response.None? else AnswersUnder(h, id)) &&
    (h.nextState.Some? ==>
       || (methodName == "initialize" && !notification && state.Uninitialized? && h.nextState == Some(AwaitingInitialized)
           && h.response == Some(MakeResult(id, InitializeResult(cfg))))
       || (methodName == "notifications/initialized" && notification && state.AwaitingInitialized? && h.nextState == Some(Ready)))
  }

  lemma DispatchShape(cfg: Config, message: Json, methodName: string, id: Json, notification: bool, state: Lifecycle)
    ensures Dispatched(cfg, methodName, id, notification, state, Dispatch(cfg, message, methodName, id, notification, state))
  {
    hide Dispatched, Dispatch;
    if notification {
      DispatchNotification(cfg, message, methodName, id, state);
    } else {
      DispatchRequest(cfg, message, methodName, id, state);
    }
  }

  lemma DispatchNotification(cfg: Config, message: Json, methodName: string, id: Json, state: Lifecycle)
    ensures Dispatched(cfg, methodName, id, true, state, Dispatch(cfg, message, methodName, id, true, state))
  {
    hide MakeResult, RequestError, HandleInitialize, HandleToolsList, ValidOptionalParams;
  }

  lemma DispatchRequest(cfg: Config, message: Json, methodName: string, id: Json, state: Lifecycle)
    ensures Dispatched(cfg, methodName, id, false, state, Dispatch(cfg, message, methodName, id, false, state))
  {
    hide MakeResult, MakeError, RequestError, InitializeResult, HandleInitialize, HandleToolsList, AnswersUnder, ValidOptionalParams;
    InitializeShape(cfg, message, id, state);
    ToolsListShape(cfg, message, id, state);
    ErrorAnswers(id, INVALID_PARAMS, "ping params must be an object");
    ErrorAnswers(id, INVALID_REQUEST, "notifications/initialized must be a notification");
    ErrorAnswers(id, METHOD_NOT_FOUND, "Method not found");
    PongAnswers(id);
  }

  lemma PongAnswers(id: Json)
    ensures AnswersUnder(Handler(Some(MakeResult(id, Obj(map[]))), None, None), id)
  {
    EnvelopeId(id, Obj(map[]), 0, "");
  }

  lemma PrepareShape(cfg: Config, message: Json, id: Json, state: Lifecycle)
    ensures match PrepareToolsCall(cfg, message, id, state)
            case Refused(error) => error.Find("id") == Some(id)
            case Prepared(call) => call.requestId == id && state.Ready? && cfg.tools.Some? && call.name in cfg.tools.value.names
  {
    hide MakeError;
    EnvelopeId(id, Null, LIFECYCLE_ERROR, "Server is not ready for tool calls");
    EnvelopeId(id, Null, INVALID_PARAMS, "tools/call requires object params");
    EnvelopeId(id, Null, INVALID_PARAMS, "Task-augmented tool execution is not supported");
    EnvelopeId(id, Null, INVALID_PARAMS, "tools/call requires a nonempty tool name");
    EnvelopeId(id, Null, INVALID_PARAMS, "tools/call arguments must be an object");
    EnvelopeId(id, Null, INVALID_PARAMS, "Unknown tool");
  }

  // ---------- What the limit does to answers ----------

  /** The same server without a limit on its responses. */
  function Unlimited(cfg: Config): Config {
    cfg.(size := (_: Json) => 0)
  }

  /** serialize_bounded as far as the response goes. */
  function Bounded(cfg: Config, response: Json): Option<Json> {
    SerializeBounded(cfg, response, None, Ready).0.response
  }

  /** The limit changes nothing about an action but that its response is bounded. */
  ghost predicate BoundedAction(cfg: Config, limited: Action, wanted: Action) {
    if limited.Immediate? && wanted.Immediate? then
      limited.result.response == (if wanted.result.response.None? then None else Bounded(cfg, wanted.result.response.value))
    else limited == wanted
  }

  lemma SameHandlers(cfg: Config, message: Json, methodName: string, id: Json, notification: bool, state: Lifecycle)
    ensures Dispatch(Unlimited(cfg), message, methodName, id, notification, state) == Dispatch(cfg, message, methodName, id, notification, state)
    ensures PrepareToolsCall(Unlimited(cfg), message, id, state) == PrepareToolsCall(cfg, message, id, state)
  {
    hide MakeResult, MakeError, RequestError, ValidInitializeParams, HasObject, ValidOptionalParams, NonemptyString;
    SameInitialize(cfg, message, id, state);
  }

  lemma SameInitialize(cfg: Config, message: Json, id: Json, state: Lifecycle)
    ensures HandleInitialize(Unlimited(cfg), message, id, state) == HandleInitialize(cfg, message, id, state)
    ensures HandleToolsList(Unlimited(cfg), message, id, state) == HandleToolsList(cfg, message, id, state)
  {
    hide MakeResult, MakeError, RequestError, ValidInitializeParams, HasObject, ValidOptionalParams;
  }

  lemma BoundedReply(cfg: Config)
    ensures forall response, next, state :: SerializeBounded(cfg, response, next, state).0.response == Bounded(cfg, response)
    ensures forall response, next, state :: SerializeBounded(Unlimited(cfg), response, next, state).0 == ProcessResult(Some(response), None)
  {
    hide MakeError;
  }

  lemma DispatchedIsBounded(cfg: Config, message: Json, methodName: string, id: Json, notification: bool, state: Lifecycle)
    ensures BoundedAction(cfg, AcceptDispatched(cfg, message, methodName, id, notification, state).0,
                          AcceptDispatched(Unlimited(cfg), message, methodName, id, notification, state).0)
  {
    hide Dispatch, SerializeBounded, Bounded, PrepareToolsCall, Unlimited;
    SameHandlers(cfg, message, methodName, id, notification, state);
    BoundedReply(cfg);
  }

  lemma CancelledIsBounded(cfg: Config, message: Json, id: Json, notification: bool, state: Lifecycle)
    ensures BoundedAction(cfg, AcceptCancelled(cfg, message, id, notification, state).0,
                          AcceptCancelled(Unlimited(cfg), message, id, notification, state).0)
  {
    hide SerializeBounded, Bounded, MakeError, Unlimited;
    BoundedReply(cfg);
  }

  lemma MessageIsBounded(cfg: Config, message: Json, state: Lifecycle)
    ensures BoundedAction(cfg, AcceptMessage(cfg, message, state).0, AcceptMessage(Unlimited(cfg), message, state).0)
  {
    hide SerializeBounded, Bounded, MakeError, Unlimited, AcceptDispatched, AcceptCancelled, Dispatch, PrepareToolsCall;
    var id, method_ := message.Find("id"), message.Find("method");
    var requestId := if id.Some? then id.value else Null;
    BoundedReply(cfg);
    CancelledIsBounded(cfg, message, requestId, id.None?, state);
    if method_.Some? && method_.value.Str? {
      SameHandlers(cfg, message, method_.value.s, requestId, id.None?, state);
      DispatchedIsBounded(cfg, message, method_.value.s, requestId, id.None?, state);
    }
  }

  /** What accept_line does with a line is what it would do without a limit, the response bounded. */
  lemma AcceptIsBounded(cfg: Config, line: InputLine, state: Lifecycle)
    ensures BoundedAction(cfg, Accept(cfg, line, state).0, Accept(Unlimited(cfg), line, state).0)
  {
    hide SerializeBounded, Bounded, MakeError, AcceptMessage;
    BoundedReply(cfg);
    if line.parsed.Some? {
      MessageIsBounded(cfg, line.parsed.value, state);
    }
  }

  /** The response to a line before it is bounded. */
  function Wanted(cfg: Config, line: InputLine, state: Lifecycle): Json {
    match Accept(Unlimited(cfg), line, state).0
    case Immediate(r) => if r.response.Some? then r.response.value else Null
    case _ => Null
  }

  /** `response` is `wanted` bounded, and `wanted` carries the id of the line, or null for a line
      that is no request. */
  ghost predicate Correlated(cfg: Config, line: InputLine, wanted: Json, response: Json) {
    Bounded(cfg, wanted) == Some(response) && IdOf(wanted) == if IsRequest(cfg, line) then RequestId(line) else Null
  }

  /** What a correlated answer tells: the response itself if it fits; and the answer to a request
      carries another id if and only if neither the response nor the short error under the request's
      id fits the limit, and is then the error under null. */
  lemma CorrelatedIs(cfg: Config, line: InputLine, wanted: Json, response: Json)
    requires AdmitsBareError(cfg) && Correlated(cfg, line, wanted, response)
    ensures Fits(cfg, response) && (Fits(cfg, wanted) ==> response == wanted)
    ensures IsRequest(cfg, line) ==>
              && (IdOf(response) != RequestId(line) <==> !Fits(cfg, wanted) && !Fits(cfg, ShortError(RequestId(line))))
              && (IdOf(response) != RequestId(line) ==> response == ShortError(Null))
    ensures !IsRequest(cfg, line) ==> IdOf(response) == Null
  {
    hide AdmitsBareError, SerializeBounded, Fits;
    SerializeBoundedIs(cfg, wanted, None, Ready);
    EnvelopeId(Null, Null, RESPONSE_TOO_LARGE, TOO_LARGE);
  }

  // Without a limit, a request is answered under its own id.
  lemma WantedForRequest(cfg: Config, line: InputLine, state: Lifecycle)
    requires IsRequest(cfg, line)
    ensures match Accept(Unlimited(cfg), line, state).0
            case Immediate(r) => r.response.Some? && IdOf(r.response.value) == RequestId(line)
            case Call(call) => call.requestId == RequestId(line)
            case Cancellation(_) => false
  {
    hide SerializeBounded, Dispatch, MakeError, MakeResult, PrepareToolsCall, Bounded;
    var message, id, free := line.parsed.value, RequestId(line), Unlimited(cfg);
    BoundedReply(cfg);
    PrepareShape(free, message, id, state);
    EnvelopeId(id, Null, INVALID_REQUEST, "Invalid Request");
    EnvelopeId(id, Null, INVALID_REQUEST, "notifications/cancelled must be a notification");
    if message.Find("method").Some? && message.Find("method").value.Str? {
      DispatchShape(free, message, message.Find("method").value.s, id, false, state);
    }
  }

  /** A request is never dropped by accept_line: it is answered at once, by the bounded form of a
      response under its own id, or handed on as a tool call with its id. */
  lemma RequestTaken(cfg: Config, line: InputLine, state: Lifecycle)
    requires AdmitsBareError(cfg) && IsRequest(cfg, line)
    ensures match Accept(cfg, line, state).0
            case Immediate(r) => r.response.Some? && Correlated(cfg, line, Wanted(cfg, line, state), r.response.value)
            case Call(call) => call.requestId == RequestId(line)
            case Cancellation(_) => false
  {
    hide Accept, AdmitsBareError, SerializeBounded, Unlimited, IsRequest;
    WantedForRequest(cfg, line, state);
    AcceptIsBounded(cfg, line, state);
    SerializeBoundedIs(cfg, Wanted(cfg, line, state), None, Ready);
  }

  /** A notification is never answered. */
  lemma NotificationUnanswered(cfg: Config, line: InputLine, state: Lifecycle)
    requires IsNotification(cfg, line)
    ensures match Accept(cfg, line, state).0
            case Immediate(r) => r.response.None?
            case Call(_) => false
            case Cancellation(_) => true
  {
    hide SerializeBounded, Dispatch, PrepareToolsCall, MakeError, MakeResult, AcceptCancelled;
    var message := line.parsed.value;
    CancelledSilent(cfg, message, Null, true, state);
    DispatchShape(cfg, message, message.Find("method").value.s, Null, true, state);
  }

  lemma CancelledSilent(cfg: Config, message: Json, id: Json, notification: bool, state: Lifecycle)
    ensures var r := AcceptCancelled(cfg, message, id, notification, state);
            r.1 == state && !r.0.Call? && (notification && r.0.Immediate? ==> r.0.result.response.None?)
  {
    hide MakeError, SerializeBounded;
  }

  lemma WantedForMalformed(cfg: Config, line: InputLine, state: Lifecycle)
    requires !IsRequest(cfg, line) && !IsNotification(cfg, line)
    ensures match Accept(Unlimited(cfg), line, state).0
            case Immediate(r) => r.response.Some? && IdOf(r.response.value) == Null
            case _ => false
  {
    hide SerializeBounded, Dispatch, MakeError, Bounded;
    BoundedReply(cfg);
    EnvelopeId(Null, Null, PARSE_ERROR, "Parse error");
    EnvelopeId(Null, Null, INVALID_REQUEST, "Invalid Request");
    EnvelopeId(Null, Null, REQUEST_TOO_LARGE, "Request exceeds configured limit");
  }

  /** Any other line gets one error under null. */
  lemma MalformedAnswered(cfg: Config, line: InputLine, state: Lifecycle)
    requires AdmitsBareError(cfg) && !IsRequest(cfg, line) && !IsNotification(cfg, line)
    ensures match Accept(cfg, line, state).0
            case Immediate(r) =>
              r.response.Some? && Correlated(cfg, line, Wanted(cfg, line, state), r.response.value) && IdOf(r.response.value) == Null
            case _ => false
  {
    hide Accept, AdmitsBareError, SerializeBounded, Unlimited, IsRequest, IsNotification, Correlated;
    WantedForMalformed(cfg, line, state);
    AcceptIsBounded(cfg, line, state);
    var wanted := Wanted(cfg, line, state);
    SerializeBoundedIs(cfg, wanted, None, Ready);
    MalformedCorrelated(cfg, line, wanted);
    CorrelatedIs(cfg, line, wanted, Bounded(cfg, wanted).value);
  }

  lemma MalformedCorrelated(cfg: Config, line: InputLine, wanted: Json)
    requires !IsRequest(cfg, line) && IdOf(wanted) == Null && Bounded(cfg, wanted).Some?
    ensures Correlated(cfg, line, wanted, Bounded(cfg, wanted).value)
  {
  }

  // ---------- An answer without its id ----------

  /** A ping under an id longer than the response limit is answered under null, against section 5 of
      JSON-RPC 2.0, which asks for the id of the request. This is so for every configuration that
      admits the error under null and every serialization in which a value's id takes at least as many
      bytes as it has characters. */
  lemma IdTooLong(cfg: Config, line: InputLine, s: string)
    requires AdmitsBareError(cfg) && forall j :: IdOf(j).Str? ==> cfg.size(j) >= |IdOf(j).s|
    requires line.length <= cfg.maxRequestBytes && line.preflight.Passed?
    requires line.parsed == Some(Obj(map["jsonrpc" := Str("2.0"), "id" := Str(s), "method" := Str("ping")]))
    requires |s| > cfg.maxResponseBytes
    ensures var action := Accept(cfg, line, Ready).0;
            && IsRequest(cfg, line) && RequestId(line) == Str(s)
            && action.Immediate? && action.result.response == Some(ShortError(Null))
  {
    hide Accept, SerializeBounded, MakeResult, MakeError, IsRequest;
    var id, pong := Str(s), MakeResult(Str(s), Obj(map[]));
    PingShape(cfg, line, id);
    EnvelopeId(id, Obj(map[]), RESPONSE_TOO_LARGE, TOO_LARGE);
    SerializeBoundedIs(cfg, pong, None, Ready);
  }

  lemma PingShape(cfg: Config, line: InputLine, id: Json)
    requires line.length <= cfg.maxRequestBytes && line.preflight.Passed? && IsValidId(id)
    requires line.parsed == Some(Obj(map["jsonrpc" := Str("2.0"), "id" := id, "method" := Str("ping")]))
    ensures IsRequest(cfg, line) && RequestId(line) == id
    ensures Accept(cfg, line, Ready).0.Immediate? &&
            Accept(cfg, line, Ready).0.result.response == SerializeBounded(cfg, MakeResult(id, Obj(map[])), None, Ready).0.response
  {
    hide SerializeBounded, MakeResult, MakeError;
  }

  // ---------- The lifecycle over a session ----------

  /** The line is an initialize request answered with the initialize result. */
  ghost predicate Initializes(cfg: Config, line: InputLine, state: Lifecycle) {
    IsRequest(cfg, line) && line.parsed.value.Find("method") == Some(Str("initialize")) && state.Uninitialized? &&
    Accept(cfg, line, state) == (Immediate(ProcessResult(Some(MakeResult(RequestId(line), InitializeResult(cfg))), None)), AwaitingInitialized)
  }

  ghost predicate Confirms(cfg: Config, line: InputLine, state: Lifecycle) {
    IsNotification(cfg, line) && line.parsed.value.Find("method") == Some(Str("notifications/initialized")) &&
    state.AwaitingInitialized?
  }

  // The next state is committed only with the response it belongs to.
  lemma SerializeMoves(cfg: Config, state: Lifecycle)
    ensures forall response, next :: var (r, after) := SerializeBounded(cfg, response, next, state);
              after == state || (next == Some(after) && r == ProcessResult(Some(response), None))
  {
    hide MakeError;
  }

  /** The state moves only forward, only by the two lines of the handshake, and an initialize whose
      answer did not fit moves nothing. */
  lemma Transition(cfg: Config, line: InputLine, state: Lifecycle)
    ensures var after := Accept(cfg, line, state).1;
            || after == state
            || (after.AwaitingInitialized? && Initializes(cfg, line, state))
            || (after.Ready? && Confirms(cfg, line, state))
  {
    hide MakeResult, AcceptDispatched, Accept, InitializeResult;
    AcceptMoves(cfg, line, state);
    if Readable(cfg, line) && HasString(line.parsed.value, "method") {
      var message := line.parsed.value;
      DispatchMoves(cfg, message, message.Find("method").value.s, RequestId(line), message.Find("id").None?, state);
    }
  }

  // Only a line that is dispatched can move the state.
  lemma AcceptMoves(cfg: Config, line: InputLine, state: Lifecycle)
    ensures Accept(cfg, line, state).1 != state ==>
              Readable(cfg, line) && HasString(line.parsed.value, "method") && (IsRequest(cfg, line) || IsNotification(cfg, line)) &&
              Accept(cfg, line, state) == AcceptDispatched(cfg, line.parsed.value, line.parsed.value.Find("method").value.s,
                                                           RequestId(line), line.parsed.value.Find("id").None?, state)
  {
    hide MakeError, PrepareToolsCall, SerializeBounded, AcceptDispatched, RequestTooLarge, AcceptCancelled;
    if line.parsed.Some? {
      CancelledSilent(cfg, line.parsed.value, RequestId(line), line.parsed.value.Find("id").None?, state);
    }
  }

  lemma DispatchMoves(cfg: Config, message: Json, methodName: string, id: Json, notification: bool, state: Lifecycle)
    ensures var r := AcceptDispatched(cfg, message, methodName, id, notification, state);
            || r.1 == state
            || (methodName == "initialize" && !notification && state.Uninitialized? &&
                r == (Immediate(ProcessResult(Some(MakeResult(id, InitializeResult(cfg))), None)), AwaitingInitialized))
            || (methodName == "notifications/initialized" && notification && state.AwaitingInitialized? && r.1 == Ready)
  {
    hide Dispatch, MakeResult, InitializeResult, SerializeBounded;
    SerializeMoves(cfg, state);
    DispatchShape(cfg, message, methodName, id, notification, state);
  }

  /** Only a ready server with that tool makes a tool call of a line. */
  lemma CallNeedsReady(cfg: Config, line: InputLine, state: Lifecycle)
    requires Accept(cfg, line, state).0.Call?
    ensures state.Ready? && Accept(cfg, line, state).1 == state && IsRequest(cfg, line)
    ensures cfg.tools.Some? && Accept(cfg, line, state).0.call.name in cfg.tools.value.names
  {
    hide Dispatch, SerializeBounded, PrepareToolsCall, MakeError, AcceptDispatched, RequestTooLarge, AcceptCancelled;
    DispatchedIsImmediate(cfg, line, state);
    if line.parsed.Some? {
      CancelledSilent(cfg, line.parsed.value, RequestId(line), line.parsed.value.Find("id").None?, state);
    }
    PrepareShape(cfg, line.parsed.value, RequestId(line), state);
  }

  lemma DispatchedIsImmediate(cfg: Config, line: InputLine, state: Lifecycle)
    ensures forall message, methodName, id, notification ::
              AcceptDispatched(cfg, message, methodName, id, notification, state).0.Immediate?
  {
    hide Dispatch, SerializeBounded;
  }

  function StateAfter(cfg: Config, lines: seq<InputLine>): Lifecycle {
    if lines == [] then Uninitialized
    else Accept(cfg, lines[|lines| - 1], StateAfter(cfg, lines[..|lines| - 1])).1
  }

  /** `lines[i]` moved the session into the state `to`. */
  ghost predicate Moved(cfg: Config, lines: seq<InputLine>, i: nat, to: Lifecycle)
    requires i < |lines|
  {
    var before := StateAfter(cfg, lines[..i]);
    if to.Ready? then Confirms(cfg, lines[i], before) else Initializes(cfg, lines[i], before)
  }

  lemma {:induction false} AwaitingSince(cfg: Config, lines: seq<InputLine>) returns (j: nat)
    requires !StateAfter(cfg, lines).Uninitialized?
    ensures j < |lines| && Moved(cfg, lines, j, AwaitingInitialized)
  {
    hide Accept;
    var n := |lines| - 1;
    var before := StateAfter(cfg, lines[..n]);
    Transition(cfg, lines[n], before);
    if before.Uninitialized? {
      j := n;
    } else {
      j := AwaitingSince(cfg, lines[..n]);
      assert lines[..n][..j] == lines[..j];
    }
  }

  lemma {:induction false} ReadySince(cfg: Config, lines: seq<InputLine>) returns (k: nat)
    requires StateAfter(cfg, lines).Ready?
    ensures k < |lines| && Moved(cfg, lines, k, Ready)
  {
    hide Accept;
    var n := |lines| - 1;
    var before := StateAfter(cfg, lines[..n]);
    Transition(cfg, lines[n], before);
    if before.Ready? {
      k := ReadySince(cfg, lines[..n]);
      assert lines[..n][..k] == lines[..k];
    } else {
      k := n;
    }
  }

  /** In every session, a line becomes a tool call only after an earlier initialize request was
      answered with the initialize result and a still later notification confirmed it. */
  lemma CallsFollowHandshake(cfg: Config, lines: seq<InputLine>, i: nat) returns (j: nat, k: nat)
    requires i < |lines| && Accept(cfg, lines[i], StateAfter(cfg, lines[..i])).0.Call?
    ensures j < k < i && Moved(cfg, lines, j, AwaitingInitialized) && Moved(cfg, lines, k, Ready)
  {
    hide Accept;
    CallNeedsReady(cfg, lines[i], StateAfter(cfg, lines[..i]));
    k := ReadySince(cfg, lines[..i]);
    assert lines[..i][..k] == lines[..k];
    j := AwaitingSince(cfg, lines[..k]);
    assert lines[..k][..j] == lines[..j];
  }
}
