/** The protocol server: JSON-RPC envelopes, the MCP lifecycle and bounded serialization. */
module ServerModel {
  import opened Options

  /** A parsed JSON value; the preflight has already refused repeated keys. */
  datatype Json =
    | Null | Bool(b: bool) | Int(i: int) | UInt(u: nat) | Float(text: string) | Str(s: string)
    | Arr(items: seq<Json>) | Obj(members: map<string, Json>)
  {
    function Find(key: string): Option<Json> {
      if Obj? && key in members then Some(members[key]) else None
    }
  }

  const PARSE_ERROR := -32700
  const INVALID_REQUEST := -32600
  const METHOD_NOT_FOUND := -32601
  const INVALID_PARAMS := -32602
  const REQUEST_TOO_LARGE := -32001
  const LIFECYCLE_ERROR := -32002
  const RESPONSE_TOO_LARGE := -32003

  predicate IsValidId(id: Json) {
    id.Str? || id.Int? || id.UInt?
  }

  function MakeResult(id: Json, result: Json): Json {
    Obj(map["jsonrpc" := Str("2.0"), "id" := id, "result" := result])
  }

  function MakeError(id: Json, code: int, message: string): Json {
    Obj(map["jsonrpc" := Str("2.0"), "id" := id,
            "error" := Obj(map["code" := Int(code), "message" := Str(message)])])
  }

  datatype Lifecycle = Uninitialized | AwaitingInitialized | Ready

  datatype ProcessResult = ProcessResult(response: Option<Json>, diagnostic: Option<string>)
  datatype HandlerResult = Handler(response: Option<Json>, diagnostic: Option<string>, nextState: Option<Lifecycle>)
  datatype ToolCall = ToolCall(requestId: Json, name: string, arguments: Json)

  /** LineAction: exactly one of its members is set. */
  datatype Action = Immediate(result: ProcessResult) | Call(call: ToolCall) | Cancellation(requestId: Json)

  /** The tools a server offers; `None` stands for a null tool service. */
  datatype Tools = Tools(names: set<string>, definitions: Json)

  /** `size` is the length of a value's serialization, and `toolError` the result object that
      format_tool_error builds around one; a library computes both. */
  datatype Config = Config(maxRequestBytes: nat, maxResponseBytes: nat, tools: Option<Tools>, version: string,
                           size: Json -> nat, toolError: string -> Json)

  // ---------- Bounded serialization ----------

  const TOO_LARGE := "Response exceeds configured limit"

  /** serialize_bounded: the result, and the lifecycle state after it. */
  function SerializeBounded(cfg: Config, response: Json, next: Option<Lifecycle>, state: Lifecycle): (ProcessResult, Lifecycle) {
    if cfg.size(response) <= cfg.maxResponseBytes then
      (ProcessResult(Some(response), None), if next.Some? then next.value else state)
    else
      var id := match response.Find("id") case Some(i) => (if IsValidId(i) then i else Null) case None => Null;
      var fallback := MakeError(id, RESPONSE_TOO_LARGE, TOO_LARGE);
      var bare := MakeError(Null, RESPONSE_TOO_LARGE, TOO_LARGE);
      if cfg.size(fallback) <= cfg.maxResponseBytes then
        (ProcessResult(Some(fallback), Some("replaced oversized response with bounded error")), state)
      else if cfg.size(bare) <= cfg.maxResponseBytes then
        (ProcessResult(Some(bare), Some("replaced oversized response with uncorrelated bounded error")), state)
      else (ProcessResult(None, Some("response limit too small for a JSON-RPC error")), state)
  }

  /** The configured limit admits the error that has no id. */
  ghost predicate AdmitsBareError(cfg: Config) {
    cfg.size(MakeError(Null, RESPONSE_TOO_LARGE, TOO_LARGE)) <= cfg.maxResponseBytes
  }

  function IdOf(response: Json): Json {
    match response.Find("id") case Some(i) => i case None => Null
  }

  predicate Fits(cfg: Config, response: Json) {
    cfg.size(response) <= cfg.maxResponseBytes
  }

  /** The error that stands in for a response under this id that is too long. */
  function ShortError(id: Json): Json {
    MakeError(id, RESPONSE_TOO_LARGE, TOO_LARGE)
  }

  /** There is always an answer within the limit, and the next state is committed exactly with the
      response it belongs to. The id of a response that has one is lost if and only if neither the
      response nor the short error under that id fits; then the answer is the error under null. */
  lemma SerializeBoundedIs(cfg: Config, response: Json, next: Option<Lifecycle>, state: Lifecycle)
    requires AdmitsBareError(cfg)
    ensures var (r, after) := SerializeBounded(cfg, response, next, state);
            && r.response.Some? && Fits(cfg, r.response.value)
            && (Fits(cfg, response) <==> r == ProcessResult(Some(response), None))
            && (after != state ==> r == ProcessResult(Some(response), None) && next == Some(after))
            && (next.Some? && after != next.value ==> !Fits(cfg, response))
    ensures var id, r := IdOf(response), SerializeBounded(cfg, response, next, state).0.response.value;
            && (!Fits(cfg, response) ==> r == ShortError(id) || r == ShortError(Null))
            && (IsValidId(id) ==>
                  && (IdOf(r) != id <==> !Fits(cfg, response) && !Fits(cfg, ShortError(id)))
                  && (IdOf(r) != id ==> r == ShortError(Null)))
  {
  }

  // ---------- Handlers ----------

  function RequestError(id: Json, code: int, message: string): HandlerResult {
    Handler(Some(MakeError(id, code, message)), None, None)
  }

  function Diagnostic(message: string): HandlerResult {
    Handler(None, Some(message), None)
  }

  predicate ValidOptionalParams(message: Json) {
    var params := message.Find("params");
    params.None? || params.value.Obj?
  }

  predicate NonemptyString(value: Json, key: string) {
    var member := value.Find(key);
    member.Some? && member.value.Str? && member.value.s != ""
  }

  predicate HasString(value: Json, key: string) {
    var member := value.Find(key);
    member.Some? && member.value.Str?
  }

  predicate HasObject(value: Json, key: string) {
    var member := value.Find(key);
    member.Some? && member.value.Obj?
  }

  predicate ValidInitializeParams(params: Json) {
    HasString(params, "protocolVersion") && HasObject(params, "capabilities") && HasObject(params, "clientInfo") &&
    NonemptyString(params.Find("clientInfo").value, "name") && NonemptyString(params.Find("clientInfo").value, "version")
  }

  function InitializeResult(cfg: Config): Json {
    Obj(map["protocolVersion" := Str("2025-11-25"),
            "capabilities" := Obj(map["tools" := Obj(map[])]),
            "serverInfo" := Obj(map["name" := Str("native-mcp-sandbox"), "version" := Str(cfg.version)])])
  }

  function HandleInitialize(cfg: Config, message: Json, id: Json, state: Lifecycle): HandlerResult {
    if !state.Uninitialized? then RequestError(id, LIFECYCLE_ERROR, "Initialization has already started")
    else if !HasObject(message, "params") then RequestError(id, INVALID_PARAMS, "initialize requires object params")
    else if !ValidInitializeParams(message.Find("params").value) then
      RequestError(id, INVALID_PARAMS, "Invalid initialize parameters")
    else Handler(Some(MakeResult(id, InitializeResult(cfg))), None, Some(AwaitingInitialized))
  }

  function HandleToolsList(cfg: Config, message: Json, id: Json, state: Lifecycle): HandlerResult {
    if !state.Ready? then RequestError(id, LIFECYCLE_ERROR, "Server is not ready for tool discovery")
    else if !ValidOptionalParams(message) then RequestError(id, INVALID_PARAMS, "tools/list params must be an object")
    else
      var params := message.Find("params");
      var cursor := if params.Some? then params.value.Find("cursor") else None;
      if cursor.Some? && !cursor.value.Str? then RequestError(id, INVALID_PARAMS, "tools/list cursor must be a string")
      else
        var definitions := if cfg.tools.None? then Arr([]) else cfg.tools.value.definitions;
        Handler(Some(MakeResult(id, Obj(map["tools" := definitions]))), None, None)
  }

  datatype Preparation = Prepared(call: ToolCall) | Refused(error: Json)

  function PrepareToolsCall(cfg: Config, message: Json, id: Json, state: Lifecycle): Preparation {
    if !state.Ready? then Refused(MakeError(id, LIFECYCLE_ERROR, "Server is not ready for tool calls"))
    else if !HasObject(message, "params") then
      Refused(MakeError(id, INVALID_PARAMS, "tools/call requires object params"))
    else
      var params := message.Find("params").value;
      var arguments := params.Find("arguments");
      if params.Find("task").Some? then
        Refused(MakeError(id, INVALID_PARAMS, "Task-augmented tool execution is not supported"))
      else if !NonemptyString(params, "name") then
        Refused(MakeError(id, INVALID_PARAMS, "tools/call requires a nonempty tool name"))
      else if arguments.Some? && !arguments.value.Obj? then
        Refused(MakeError(id, INVALID_PARAMS, "tools/call arguments must be an object"))
      else
        var name := params.Find("name").value.s;
        if cfg.tools.None? || name !in cfg.tools.value.names then
          Refused(MakeError(id, INVALID_PARAMS, "Unknown tool"))
        else Prepared(ToolCall(id, name, if arguments.Some? then arguments.value else Obj(map[])))
  }

  function Dispatch(cfg: Config, message: Json, methodName: string, id: Json, notification: bool, state: Lifecycle): HandlerResult {
    if methodName == "ping" then
      if !ValidOptionalParams(message) then
        if notification then Diagnostic("ignored ping notification with invalid params")
        else RequestError(id, INVALID_PARAMS, "ping params must be an object")
      else if notification then Diagnostic("ignored ping notification")
      else Handler(Some(MakeResult(id, Obj(map[]))), None, None)
    else if methodName == "initialize" then
      if notification then Diagnostic("ignored initialize notification")
      else HandleInitialize(cfg, message, id, state)
    else if methodName == "notifications/initialized" then
      if !notification then RequestError(id, INVALID_REQUEST, "notifications/initialized must be a notification")
      else if !ValidOptionalParams(message) then Diagnostic("ignored initialized notification with invalid params")
      else if !state.AwaitingInitialized? then
        Diagnostic("ignored initialized notification in invalid lifecycle state")
      else Handler(None, None, Some(Ready))
    else if methodName == "tools/list" then
      if notification then Diagnostic("ignored tools/list notification")
      else HandleToolsList(cfg, message, id, state)
    else if methodName == "tools/call" && notification then Diagnostic("ignored tools/call notification")
    else if notification then Diagnostic("ignored unsupported notification")
    else RequestError(id, METHOD_NOT_FOUND, "Method not found")
  }

  // ---------- accept_line ----------

  datatype Preflight = Passed | Malformed | Unsafe

  /** A line as accept_line sees it: its length, the preflight's verdict, and what the parser
      made of it (`None` if it discarded the text). */
  datatype InputLine = InputLine(length: nat, preflight: Preflight, parsed: Option<Json>)

  function Reply(cfg: Config, response: Json, state: Lifecycle): (Action, Lifecycle) {
    (Immediate(SerializeBounded(cfg, response, None, state).0), state)
  }

  function Note(message: string, state: Lifecycle): (Action, Lifecycle) {
    (Immediate(ProcessResult(None, Some(message))), state)
  }

  function RequestTooLarge(cfg: Config): ProcessResult {
    SerializeBounded(cfg, MakeError(Null, REQUEST_TOO_LARGE, "Request exceeds configured limit"), None, Ready).0
  }

  function AcceptCancelled(cfg: Config, message: Json, id: Json, notification: bool, state: Lifecycle): (Action, Lifecycle) {
    if !notification then
      Reply(cfg, MakeError(id, INVALID_REQUEST, "notifications/cancelled must be a notification"), state)
    else if !HasObject(message, "params") then Note("ignored cancellation notification with invalid params", state)
    else
      var params := message.Find("params").value;
      var cancelled, reason := params.Find("requestId"), params.Find("reason");
      if cancelled.None? || !IsValidId(cancelled.value) || (reason.Some? && !reason.value.Str?) then
        Note("ignored malformed cancellation notification", state)
      else (Cancellation(cancelled.value), state)
  }

  function AcceptDispatched(cfg: Config, message: Json, methodName: string, id: Json, notification: bool, state: Lifecycle)
    : (Action, Lifecycle)
  {
    var handled := Dispatch(cfg, message, methodName, id, notification, state);
    if handled.response.None? then
      (Immediate(ProcessResult(None, handled.diagnostic)), if handled.nextState.Some? then handled.nextState.value else state)
    else
      var (result, after) := SerializeBounded(cfg, handled.response.value, handled.nextState, state);
      (Immediate(if result.diagnostic.None? && handled.diagnostic.Some? then result.(diagnostic := handled.diagnostic) else result),
       after)
  }

  /** accept_line on a message that is an object with no id or a valid one. */
  function AcceptMessage(cfg: Config, message: Json, state: Lifecycle): (Action, Lifecycle) {
    var id, jsonrpc, methodMember := message.Find("id"), message.Find("jsonrpc"), message.Find("method");
    var notification := id.None?;
    var requestId := if id.Some? then id.value else Null;
    if jsonrpc != Some(Str("2.0")) || methodMember.None? || !methodMember.value.Str? then
      if notification && methodMember.Some? && methodMember.value.Str? then Note("ignored malformed notification envelope", state)
      else Reply(cfg, MakeError(requestId, INVALID_REQUEST, "Invalid Request"), state)
    else
      var methodName := methodMember.value.s;
      if methodName == "tools/call" && !notification then
        match PrepareToolsCall(cfg, message, requestId, state)
        case Refused(error) => Reply(cfg, error, state)
        case Prepared(call) => (Call(call), state)
      else if methodName == "notifications/cancelled" then AcceptCancelled(cfg, message, requestId, notification, state)
      else AcceptDispatched(cfg, message, methodName, requestId, notification, state)
  }

  function Accept(cfg: Config, line: InputLine, state: Lifecycle): (Action, Lifecycle) {
    if line.length > cfg.maxRequestBytes then (Immediate(RequestTooLarge(cfg)), state)
    else if line.preflight.Malformed? then Reply(cfg, MakeError(Null, PARSE_ERROR, "Parse error"), state)
    else if line.preflight.Unsafe? then Reply(cfg, MakeError(Null, INVALID_REQUEST, "Invalid Request"), state)
    else if line.parsed.None? then Reply(cfg, MakeError(Null, PARSE_ERROR, "Parse error"), state)
    else
      var message := line.parsed.value;
      var id := message.Find("id");
      if !message.Obj? || (id.Some? && !IsValidId(id.value)) then
        Reply(cfg, MakeError(Null, INVALID_REQUEST, "Invalid Request"), state)
      else AcceptMessage(cfg, message, state)
  }

  /** The server object: its lifecycle state changes line by line. */
  class Server {
    const cfg: Config
    var state: Lifecycle

    constructor (cfg: Config)
      ensures this.cfg == cfg && state == Uninitialized
    {
      this.cfg := cfg;
      state := Uninitialized;
    }

    /** serialize_bounded, which commits the next state only with the response it belongs to. */
    method Serialize(response: Json, next: Option<Lifecycle>) returns (result: ProcessResult)
      modifies this
      ensures (result, state) == SerializeBounded(cfg, response, next, old(state))
    {
      if cfg.size(response) <= cfg.maxResponseBytes {
        if next.Some? {
          state := next.value;
        }
        return ProcessResult(Some(response), None);
      }
      var responseId := Null;
      var id := response.Find("id");
      if id.Some? && IsValidId(id.value) {
        responseId := id.value;
      }
      var fallback := MakeError(responseId, RESPONSE_TOO_LARGE, TOO_LARGE);
      if cfg.size(fallback) <= cfg.maxResponseBytes {
        return ProcessResult(Some(fallback), Some("replaced oversized response with bounded error"));
      }
      fallback := MakeError(Null, RESPONSE_TOO_LARGE, TOO_LARGE);
      if cfg.size(fallback) <= cfg.maxResponseBytes {
        return ProcessResult(Some(fallback), Some("replaced oversized response with uncorrelated bounded error"));
      }
      return ProcessResult(None, Some("response limit too small for a JSON-RPC error"));
    }

    method AcceptLine(line: InputLine) returns (action: Action)
      modifies this
      ensures (action, state) == Accept(cfg, line, old(state))
    {
      var result;
      if line.length > cfg.maxRequestBytes {
        return Immediate(RequestTooLarge(cfg));
      }
      if !line.preflight.Passed? {
        var syntax := line.preflight.Malformed?;
        result := Serialize(MakeError(Null, if syntax then PARSE_ERROR else INVALID_REQUEST,
                                      if syntax then "Parse error" else "Invalid Request"), None);
        return Immediate(result);
      }
      if line.parsed.None? {
        result := Serialize(MakeError(Null, PARSE_ERROR, "Parse error"), None);
        return Immediate(result);
      }
      var message := line.parsed.value;
      var id := message.Find("id");
      if !message.Obj? || (id.Some? && !IsValidId(id.value)) {
        result := Serialize(MakeError(Null, INVALID_REQUEST, "Invalid Request"), None);
        return Immediate(result);
      }
      action := AcceptObject(message);
    }

    method AcceptObject(message: Json) returns (action: Action)
      modifies this
      ensures (action, state) == AcceptMessage(cfg, message, old(state))
    {
      hide Dispatch, PrepareToolsCall, SerializeBounded;
      var id, jsonrpc, methodMember := message.Find("id"), message.Find("jsonrpc"), message.Find("method");
      var notification := id.None?;
      var requestId := if id.Some? then id.value else Null;
      var result;
      if jsonrpc != Some(Str("2.0")) || methodMember.None? || !methodMember.value.Str? {
        if notification && methodMember.Some? && methodMember.value.Str? {
          return Immediate(ProcessResult(None, Some("ignored malformed notification envelope")));
        }
        result := Serialize(MakeError(requestId, INVALID_REQUEST, "Invalid Request"), None);
        KeepsState(cfg, MakeError(requestId, INVALID_REQUEST, "Invalid Request"), old(state));
        return Immediate(result);
      }
      var methodName := methodMember.value.s;
      if methodName == "tools/call" && !notification {
        var prepared := PrepareToolsCall(cfg, message, requestId, state);
        if prepared.Refused? {
          result := Serialize(prepared.error, None);
          KeepsState(cfg, prepared.error, old(state));
          return Immediate(result);
        }
        return Call(prepared.call);
      }
      if methodName == "notifications/cancelled" {
        var (act, _) := AcceptCancelled(cfg, message, requestId, notification, state);
        return act;
      }
      var handled := Dispatch(cfg, message, methodName, requestId, notification, state);
      if handled.response.None? {
        if handled.nextState.Some? {
          state := handled.nextState.value;
        }
        return Immediate(ProcessResult(None, handled.diagnostic));
      }
      result := Serialize(handled.response.value, handled.nextState);
      if result.diagnostic.None? && handled.diagnostic.Some? {
        result := result.(diagnostic := handled.diagnostic);
      }
      return Immediate(result);
    }
  }

  lemma KeepsState(cfg: Config, response: Json, state: Lifecycle)
    ensures SerializeBounded(cfg, response, None, state).1 == state
  {
  }
}
