/** What a client can count on, method by method: which lines move the lifecycle, become tool calls or
    cancel one, and what every other line is answered. It is told by the members of a message alone. */
module ServerMethods {
  import opened Options
  import opened ServerModel
  import opened ServerProtocol

  type Members = map<string, Json>

  // ---------- Messages and answers ----------

  predicate Arrives(cfg: Config, line: InputLine, m: Members) {
    line.length <= cfg.maxRequestBytes && line.preflight.Passed? && line.parsed == Some(Obj(m))
  }

  /** A request in the sense of section 4 of JSON-RPC 2.0, with a string or an integer for its id. */
  predicate Asks(cfg: Config, line: InputLine, m: Members, id: Json, methodName: string) {
    Arrives(cfg, line, m) && Speaks(m, methodName) && "id" in m && m["id"] == id && (id.Str? || id.Int? || id.UInt?)
  }

  predicate Notifies(cfg: Config, line: InputLine, m: Members, methodName: string) {
    Arrives(cfg, line, m) && Speaks(m, methodName) && "id" !in m
  }

  predicate Speaks(m: Members, methodName: string) {
    "jsonrpc" in m && m["jsonrpc"] == Str("2.0") && "method" in m && m["method"] == Str(methodName)
  }

  /** Sections 5 and 5.1 of JSON-RPC 2.0. */
  predicate IsError(j: Json, id: Json, code: int, text: string) {
    j.Obj? && j.members.Keys == {"jsonrpc", "id", "error"} && j.members["jsonrpc"] == Str("2.0") && j.members["id"] == id &&
    var error := j.members["error"];
    error.Obj? && error.members.Keys == {"code", "message"} && error.members["code"] == Int(code) && error.members["message"] == Str(text)
  }

  predicate IsResult(j: Json, id: Json, result: Json) {
    j.Obj? && j.members.Keys == {"jsonrpc", "id", "result"} && j.members["jsonrpc"] == Str("2.0") && j.members["id"] == id &&
    j.members["result"] == result
  }

  lemma EnvelopeIs(id: Json, result: Json, code: int, text: string)
    ensures IsError(MakeError(id, code, text), id, code, text) && IsResult(MakeResult(id, result), id, result)
    ensures IsError(ShortError(id), id, -32003, "Response exceeds configured limit")
  {
  }

  /** The line is answered at once, by the bounded form of `wanted`, and moves nothing. */
  ghost predicate Replies(cfg: Config, line: InputLine, state: Lifecycle, wanted: Json) {
    var (action, after) := Accept(cfg, line, state);
    action.Immediate? && action.result.response == Bounded(cfg, wanted) && after == state
  }

  ghost predicate RepliesError(cfg: Config, line: InputLine, state: Lifecycle, id: Json, code: int, text: string) {
    exists wanted :: IsError(wanted, id, code, text) && Replies(cfg, line, state, wanted)
  }

  ghost predicate RepliesResult(cfg: Config, line: InputLine, state: Lifecycle, id: Json, result: Json) {
    exists wanted :: IsResult(wanted, id, result) && Replies(cfg, line, state, wanted)
  }

  predicate OptionalParams(m: Members) {
    "params" !in m || m["params"].Obj?
  }

  predicate StringAt(j: Json, key: string) {
    j.Obj? && key in j.members && j.members[key].Str?
  }

  predicate ObjectAt(j: Json, key: string) {
    j.Obj? && key in j.members && j.members[key].Obj?
  }

  predicate NameAt(j: Json, key: string) {
    StringAt(j, key) && j.members[key].s != ""
  }

  // ---------- Where a message goes ----------

  // A request other than a tool call is dispatched under its id.
  lemma Routed(cfg: Config, line: InputLine, m: Members, id: Json, methodName: string, state: Lifecycle)
    requires Asks(cfg, line, m, id, methodName) && methodName != "tools/call" && methodName != "notifications/cancelled"
    ensures Accept(cfg, line, state) == AcceptDispatched(cfg, Obj(m), methodName, id, false, state)
  {
    hide AcceptDispatched, SerializeBounded, MakeError, PrepareToolsCall;
  }

  lemma RoutedNotice(cfg: Config, line: InputLine, m: Members, methodName: string, state: Lifecycle)
    requires Notifies(cfg, line, m, methodName) && methodName != "notifications/cancelled"
    ensures Accept(cfg, line, state) == AcceptDispatched(cfg, Obj(m), methodName, Null, true, state)
  {
    hide AcceptDispatched, SerializeBounded, MakeError, PrepareToolsCall;
  }

  lemma RepliesHandled(cfg: Config, line: InputLine, state: Lifecycle, m: Members, id: Json, methodName: string, wanted: Json)
    requires Asks(cfg, line, m, id, methodName) && methodName != "tools/call" && methodName != "notifications/cancelled"
    requires Dispatch(cfg, Obj(m), methodName, id, false, state) == Handler(Some(wanted), None, None)
    ensures Replies(cfg, line, state, wanted)
  {
    hide Dispatch, SerializeBounded, Bounded, Accept;
    Routed(cfg, line, m, id, methodName, state);
    BoundedReply(cfg);
    KeepsState(cfg, wanted, state);
  }

  // ---------- The methods ----------

  /** A ping is answered in every state. */
  lemma Ping(cfg: Config, line: InputLine, m: Members, id: Json, state: Lifecycle)
    requires Asks(cfg, line, m, id, "ping")
    ensures OptionalParams(m) ==> RepliesResult(cfg, line, state, id, Obj(map[]))
    ensures !OptionalParams(m) ==> RepliesError(cfg, line, state, id, -32602, "ping params must be an object")
  {
    hide Accept, MakeResult, MakeError, Replies, IsError, IsResult;
    var text := "ping params must be an object";
    EnvelopeIs(id, Obj(map[]), -32602, text);
    if OptionalParams(m) {
      RepliesHandled(cfg, line, state, m, id, "ping", MakeResult(id, Obj(map[])));
    } else {
      RepliesHandled(cfg, line, state, m, id, "ping", MakeError(id, -32602, text));
    }
  }

  /** Any method that is not named here is not found. */
  lemma Unknown(cfg: Config, line: InputLine, m: Members, id: Json, methodName: string, state: Lifecycle)
    requires Asks(cfg, line, m, id, methodName)
    requires methodName !in {"ping", "initialize", "notifications/initialized", "tools/list", "tools/call", "notifications/cancelled"}
    ensures RepliesError(cfg, line, state, id, -32601, "Method not found")
  {
    hide Accept, MakeResult, MakeError, Replies, IsError, HandleInitialize, HandleToolsList;
    EnvelopeIs(id, Null, -32601, "Method not found");
    RepliesHandled(cfg, line, state, m, id, methodName, MakeError(id, -32601, "Method not found"));
  }

  /** The params that MCP asks of initialize. */
  predicate IntroducesClient(m: Members) {
    "params" in m && StringAt(m["params"], "protocolVersion") && ObjectAt(m["params"], "capabilities") && ObjectAt(m["params"], "clientInfo") &&
    var client := m["params"].members["clientInfo"];
    NameAt(client, "name") && NameAt(client, "version")
  }

  function ServerIntroduction(cfg: Config): Json {
    Obj(map[
      "protocolVersion" := Str("2025-11-25"),
      "capabilities" := Obj(map["tools" := Obj(map[])]),
      "serverInfo" := Obj(map["name" := Str("native-mcp-sandbox"), "version" := Str(cfg.version)])])
  }

  lemma IntroductionIs(cfg: Config)
    ensures InitializeResult(cfg) == ServerIntroduction(cfg)
  {
  }

  lemma ValidParamsAre(m: Members)
    ensures HasObject(Obj(m), "params") <==> "params" in m && m["params"].Obj?
    ensures HasObject(Obj(m), "params") ==> (ValidInitializeParams(m["params"]) <==> IntroducesClient(m))
    ensures IntroducesClient(m) ==> HasObject(Obj(m), "params")
  {
  }

  /** An initialize request moves a fresh server on if and only if it introduces the client as MCP asks
      and the answer fits; it is then answered by the server's introduction. Params that do not are an
      error, and so is any initialize in another state. */
  lemma Initialize(cfg: Config, line: InputLine, m: Members, id: Json, state: Lifecycle)
    requires Asks(cfg, line, m, id, "initialize")
    ensures !state.Uninitialized? ==> RepliesError(cfg, line, state, id, -32002, "Initialization has already started")
    ensures state.Uninitialized? && !("params" in m && m["params"].Obj?) ==>
              RepliesError(cfg, line, state, id, -32602, "initialize requires object params")
    ensures state.Uninitialized? && "params" in m && m["params"].Obj? && !IntroducesClient(m) ==>
              RepliesError(cfg, line, state, id, -32602, "Invalid initialize parameters")
    ensures state.Uninitialized? && IntroducesClient(m) ==>
              exists wanted :: IsResult(wanted, id, ServerIntroduction(cfg)) && Initialized(cfg, line, wanted)
  {
    hide Accept, MakeResult, MakeError, Replies, IsError, IsResult, ValidInitializeParams, HasObject, InitializeResult, SerializeBounded,
         HandleToolsList, ServerIntroduction, IntroducesClient, Initialized;
    ValidParamsAre(m);
    if !state.Uninitialized? {
      ErrorHandled(cfg, line, m, id, "initialize", state, LIFECYCLE_ERROR, "Initialization has already started");
    } else if !HasObject(Obj(m), "params") {
      ErrorHandled(cfg, line, m, id, "initialize", state, INVALID_PARAMS, "initialize requires object params");
    } else if !IntroducesClient(m) {
      ErrorHandled(cfg, line, m, id, "initialize", state, INVALID_PARAMS, "Invalid initialize parameters");
    } else {
      IntroductionIs(cfg);
      EnvelopeIs(id, ServerIntroduction(cfg), 0, "");
      Introduced(cfg, line, m, id);
    }
  }

  /** The answer to initialize, and the state after it. */
  ghost predicate Initialized(cfg: Config, line: InputLine, wanted: Json) {
    var (action, after) := Accept(cfg, line, Uninitialized);
    action.Immediate? && action.result.response == Bounded(cfg, wanted) &&
    after == if cfg.size(wanted) <= cfg.maxResponseBytes then AwaitingInitialized else Uninitialized
  }

  lemma Introduced(cfg: Config, line: InputLine, m: Members, id: Json)
    requires Asks(cfg, line, m, id, "initialize")
    requires Dispatch(cfg, Obj(m), "initialize", id, false, Uninitialized)
             == Handler(Some(MakeResult(id, InitializeResult(cfg))), None, Some(AwaitingInitialized))
    ensures Initialized(cfg, line, MakeResult(id, InitializeResult(cfg)))
  {
    hide Dispatch, Accept, MakeResult, MakeError, InitializeResult;
    Routed(cfg, line, m, id, "initialize", Uninitialized);
  }

  lemma ErrorHandled(cfg: Config, line: InputLine, m: Members, id: Json, methodName: string, state: Lifecycle, code: int, text: string)
    requires Asks(cfg, line, m, id, methodName) && methodName != "tools/call" && methodName != "notifications/cancelled"
    requires Dispatch(cfg, Obj(m), methodName, id, false, state) == RequestError(id, code, text)
    ensures RepliesError(cfg, line, state, id, code, text)
  {
    hide Accept, Dispatch, MakeError, Replies, IsError;
    EnvelopeIs(id, Null, code, text);
    RepliesHandled(cfg, line, state, m, id, methodName, MakeError(id, code, text));
  }

  /** A notification is never answered. The state moves exactly by notifications/initialized with no
      params or an object for them, when the server waits for it, and then always to Ready; and a
      cancellation names its request exactly if it is well-formed. */
  lemma Notice(cfg: Config, line: InputLine, m: Members, methodName: string, state: Lifecycle)
    requires Notifies(cfg, line, m, methodName)
    ensures var (action, after) := Accept(cfg, line, state);
            && (action.Immediate? ==> action.result.response.None?) && !action.Call?
            && after == (if methodName == "notifications/initialized" && state.AwaitingInitialized? && OptionalParams(m) then Ready else state)
            && (action.Cancellation? <==> methodName == "notifications/cancelled" && NamesRequest(m))
            && (action.Cancellation? ==> action.requestId == m["params"].members["requestId"])
  {
    hide MakeError, MakeResult, Accept, HandleInitialize, HandleToolsList, SerializeBounded;
    if methodName == "notifications/cancelled" {
      CancelNotice(cfg, line, m, state);
    } else {
      RoutedNotice(cfg, line, m, methodName, state);
      NoticeHandled(cfg, m, methodName, state);
    }
  }

  lemma NoticeHandled(cfg: Config, m: Members, methodName: string, state: Lifecycle)
    ensures var h := Dispatch(cfg, Obj(m), methodName, Null, true, state);
            && h.response.None?
            && h.nextState == (if methodName == "notifications/initialized" && state.AwaitingInitialized? && OptionalParams(m) then Some(Ready) else None)
  {
    hide HandleInitialize, HandleToolsList, MakeResult, MakeError, RequestError, OptionalParams, ValidOptionalParams;
    OptionalParamsAre(m);
  }

  lemma OptionalParamsAre(m: Members)
    ensures ValidOptionalParams(Obj(m)) <==> OptionalParams(m)
  {
  }

  /** A cancellation as MCP describes it: a request id, and a reason that is a string if there is one. */
  predicate NamesRequest(m: Members) {
    "params" in m && m["params"].Obj? &&
    var params := m["params"].members;
    "requestId" in params && (params["requestId"].Str? || params["requestId"].Int? || params["requestId"].UInt?) &&
    ("reason" !in params || params["reason"].Str?)
  }

  lemma CancelNotice(cfg: Config, line: InputLine, m: Members, state: Lifecycle)
    requires Notifies(cfg, line, m, "notifications/cancelled")
    ensures var (action, after) := Accept(cfg, line, state);
            && after == state && !action.Call? && (action.Immediate? ==> action.result.response.None?)
            && (action.Cancellation? <==> NamesRequest(m))
            && (action.Cancellation? ==> action.requestId == m["params"].members["requestId"])
  {
    hide MakeError, SerializeBounded, AcceptDispatched, PrepareToolsCall, Accept, AcceptCancelled;
    RoutedCancel(cfg, line, m, state);
    CancelHandled(cfg, m, state);
  }

  lemma RoutedCancel(cfg: Config, line: InputLine, m: Members, state: Lifecycle)
    requires Notifies(cfg, line, m, "notifications/cancelled")
    ensures Accept(cfg, line, state) == AcceptCancelled(cfg, Obj(m), Null, true, state)
  {
    hide AcceptDispatched, SerializeBounded, MakeError, PrepareToolsCall, AcceptCancelled;
  }

  lemma CancelHandled(cfg: Config, m: Members, state: Lifecycle)
    ensures var (action, after) := AcceptCancelled(cfg, Obj(m), Null, true, state);
            && after == state && !action.Call? && (action.Immediate? ==> action.result.response.None?)
            && (action.Cancellation? <==> NamesRequest(m))
            && (action.Cancellation? ==> action.requestId == m["params"].members["requestId"])
  {
    hide MakeError, Reply;
  }

  /** The two notifications are errors as requests. */
  lemma NoticeAsRequest(cfg: Config, line: InputLine, m: Members, id: Json, state: Lifecycle)
    ensures Asks(cfg, line, m, id, "notifications/initialized") ==>
              RepliesError(cfg, line, state, id, -32600, "notifications/initialized must be a notification")
    ensures Asks(cfg, line, m, id, "notifications/cancelled") ==>
              RepliesError(cfg, line, state, id, -32600, "notifications/cancelled must be a notification")
  {
    hide MakeError, Replies, IsError, Asks, Dispatch;
    if Asks(cfg, line, m, id, "notifications/initialized") {
      InitializedAsRequest(cfg, m, id, state);
      ErrorHandled(cfg, line, m, id, "notifications/initialized", state, -32600, "notifications/initialized must be a notification");
    }
    if Asks(cfg, line, m, id, "notifications/cancelled") {
      EnvelopeIs(id, Null, -32600, "notifications/cancelled must be a notification");
      CancelAsRequest(cfg, line, m, id, state);
    }
  }

  lemma InitializedAsRequest(cfg: Config, m: Members, id: Json, state: Lifecycle)
    ensures Dispatch(cfg, Obj(m), "notifications/initialized", id, false, state)
            == RequestError(id, -32600, "notifications/initialized must be a notification")
  {
    hide MakeError, RequestError;
  }

  lemma CancelAsRequest(cfg: Config, line: InputLine, m: Members, id: Json, state: Lifecycle)
    requires Asks(cfg, line, m, id, "notifications/cancelled")
    ensures Replies(cfg, line, state, MakeError(id, -32600, "notifications/cancelled must be a notification"))
  {
    hide MakeError, SerializeBounded, AcceptDispatched, PrepareToolsCall;
    BoundedReply(cfg);
  }

  /** A ready server lists its tools, for a request with no params or an object whose cursor, if there is
      one, is a string. */
  lemma ListTools(cfg: Config, line: InputLine, m: Members, id: Json, state: Lifecycle)
    requires Asks(cfg, line, m, id, "tools/list")
    ensures !state.Ready? ==> RepliesError(cfg, line, state, id, -32002, "Server is not ready for tool discovery")
    ensures state.Ready? && !OptionalParams(m) ==> RepliesError(cfg, line, state, id, -32602, "tools/list params must be an object")
    ensures state.Ready? && OptionalParams(m) && BadCursor(m) ==> RepliesError(cfg, line, state, id, -32602, "tools/list cursor must be a string")
    ensures state.Ready? && OptionalParams(m) && !BadCursor(m) ==>
              RepliesResult(cfg, line, state, id, Obj(map["tools" := if cfg.tools.Some? then cfg.tools.value.definitions else Arr([])]))
  {
    hide Accept, MakeResult, MakeError, Replies, IsError, IsResult, HandleInitialize, SerializeBounded;
    if !state.Ready? {
      ErrorHandled(cfg, line, m, id, "tools/list", state, LIFECYCLE_ERROR, "Server is not ready for tool discovery");
    } else if !OptionalParams(m) {
      ErrorHandled(cfg, line, m, id, "tools/list", state, INVALID_PARAMS, "tools/list params must be an object");
    } else if BadCursor(m) {
      ErrorHandled(cfg, line, m, id, "tools/list", state, INVALID_PARAMS, "tools/list cursor must be a string");
    } else {
      var result := Obj(map["tools" := if cfg.tools.Some? then cfg.tools.value.definitions else Arr([])]);
      EnvelopeIs(id, result, 0, "");
      RepliesHandled(cfg, line, state, m, id, "tools/list", MakeResult(id, result));
    }
  }

  predicate BadCursor(m: Members) {
    "params" in m && m["params"].Obj? && "cursor" in m["params"].members && !m["params"].members["cursor"].Str?
  }

  /** What is wrong with the params of a tool call, in the order in which it is looked for. */
  function CallFault(cfg: Config, m: Members): Option<string> {
    if !("params" in m && m["params"].Obj?) then Some("tools/call requires object params")
    else
      var params := m["params"];
      if "task" in params.members then Some("Task-augmented tool execution is not supported")
      else if !NameAt(params, "name") then Some("tools/call requires a nonempty tool name")
      else if "arguments" in params.members && !params.members["arguments"].Obj? then Some("tools/call arguments must be an object")
      else if !(cfg.tools.Some? && params.members["name"].s in cfg.tools.value.names) then Some("Unknown tool")
      else None
  }

  /** A ready server makes the call of every tools/call that names a tool it offers, has no task, and has
      an object for its arguments or none: under the request's id, for that tool, with those arguments.
      Any other is an error that says what is wrong. */
  lemma CallTool(cfg: Config, line: InputLine, m: Members, id: Json, state: Lifecycle)
    requires Asks(cfg, line, m, id, "tools/call")
    ensures !state.Ready? ==> RepliesError(cfg, line, state, id, -32002, "Server is not ready for tool calls")
    ensures state.Ready? && CallFault(cfg, m).Some? ==> RepliesError(cfg, line, state, id, -32602, CallFault(cfg, m).value)
    ensures state.Ready? && CallFault(cfg, m).None? ==>
              var params := m["params"].members;
              Accept(cfg, line, state) ==
                (Call(ToolCall(id, params["name"].s, if "arguments" in params then params["arguments"] else Obj(map[]))), state)
  {
    hide MakeResult, MakeError, Replies, IsError, PrepareToolsCall, SerializeBounded, Accept, Bounded;
    CallRouted(cfg, line, m, id, state);
    CallPrepared(cfg, m, id, state);
    BoundedReply(cfg);
    if !state.Ready? {
      EnvelopeIs(id, Null, -32002, "Server is not ready for tool calls");
      assert Replies(cfg, line, state, MakeError(id, -32002, "Server is not ready for tool calls"));
    } else if CallFault(cfg, m).Some? {
      EnvelopeIs(id, Null, -32602, CallFault(cfg, m).value);
      assert Replies(cfg, line, state, MakeError(id, -32602, CallFault(cfg, m).value));
    }
  }

  lemma CallRouted(cfg: Config, line: InputLine, m: Members, id: Json, state: Lifecycle)
    requires Asks(cfg, line, m, id, "tools/call")
    ensures match PrepareToolsCall(cfg, Obj(m), id, state)
            case Refused(error) => Replies(cfg, line, state, error)
            case Prepared(call) => Accept(cfg, line, state) == (Call(call), state)
  {
    hide AcceptDispatched, SerializeBounded, MakeError, PrepareToolsCall;
    BoundedReply(cfg);
  }

  lemma CallPrepared(cfg: Config, m: Members, id: Json, state: Lifecycle)
    ensures var p := PrepareToolsCall(cfg, Obj(m), id, state);
            && (!state.Ready? ==> p == Refused(MakeError(id, -32002, "Server is not ready for tool calls")))
            && (state.Ready? && CallFault(cfg, m).Some? ==> p == Refused(MakeError(id, -32602, CallFault(cfg, m).value)))
            && (state.Ready? && CallFault(cfg, m).None? ==>
                  var params := m["params"].members;
                  p == Prepared(ToolCall(id, params["name"].s, if "arguments" in params then params["arguments"] else Obj(map[]))))
  {
    hide MakeError, PrepareToolsCall, CallFault;
    if state.Ready? {
      ParamsFault(cfg, m, id);
    } else {
      NotReady(cfg, m, id, state);
    }
  }

  lemma NotReady(cfg: Config, m: Members, id: Json, state: Lifecycle)
    requires !state.Ready?
    ensures PrepareToolsCall(cfg, Obj(m), id, state) == Refused(MakeError(id, -32002, "Server is not ready for tool calls"))
  {
    hide MakeError;
  }

  lemma ParamsFault(cfg: Config, m: Members, id: Json)
    ensures CallFault(cfg, m).Some? ==> PrepareToolsCall(cfg, Obj(m), id, Ready) == Refused(MakeError(id, -32602, CallFault(cfg, m).value))
    ensures CallFault(cfg, m).None? ==>
              && "params" in m && NameAt(m["params"], "name")
              && var params := m["params"].members;
                 PrepareToolsCall(cfg, Obj(m), id, Ready)
                 == Prepared(ToolCall(id, params["name"].s, if "arguments" in params then params["arguments"] else Obj(map[])))
  {
    hide MakeError, NonemptyString, NameAt, HasObject;
    ValidParamsAre(m);
    if "params" in m {
      NamesAre(m["params"]);
    }
  }

  lemma NamesAre(params: Json)
    ensures NonemptyString(params, "name") <==> NameAt(params, "name")
    ensures NameAt(params, "name") ==> params.Obj? && "name" in params.members && params.members["name"].Str?
  {
  }

  // ---------- Lines that are no proper message ----------

  /** What a line is answered that is too long, no JSON, unsafe, no object, or an object that is neither
      a request nor a notification; a notification with a broken envelope is not answered. */
  lemma Improper(cfg: Config, line: InputLine, state: Lifecycle)
    ensures line.length > cfg.maxRequestBytes ==> RepliesError(cfg, line, state, Null, -32001, "Request exceeds configured limit")
    ensures line.length <= cfg.maxRequestBytes ==>
              && (line.preflight.Malformed? || (line.preflight.Passed? && line.parsed.None?) ==>
                    RepliesError(cfg, line, state, Null, -32700, "Parse error"))
              && (line.preflight.Unsafe? || (line.preflight.Passed? && line.parsed.Some? && !line.parsed.value.Obj?) ==>
                    RepliesError(cfg, line, state, Null, -32600, "Invalid Request"))
  {
    hide MakeError, Replies, IsError, SerializeBounded, AcceptMessage;
    EnvelopeIs(Null, Null, -32001, "Request exceeds configured limit");
    EnvelopeIs(Null, Null, -32700, "Parse error");
    EnvelopeIs(Null, Null, -32600, "Invalid Request");
    ImproperReplies(cfg, line, state);
  }

  lemma ImproperReplies(cfg: Config, line: InputLine, state: Lifecycle)
    ensures line.length > cfg.maxRequestBytes ==> Replies(cfg, line, state, MakeError(Null, -32001, "Request exceeds configured limit"))
    ensures line.length <= cfg.maxRequestBytes ==>
              && (line.preflight.Malformed? || (line.preflight.Passed? && line.parsed.None?) ==>
                    Replies(cfg, line, state, MakeError(Null, -32700, "Parse error")))
              && (line.preflight.Unsafe? || (line.preflight.Passed? && line.parsed.Some? && !line.parsed.value.Obj?) ==>
                    Replies(cfg, line, state, MakeError(Null, -32600, "Invalid Request")))
  {
    hide MakeError, SerializeBounded, AcceptMessage;
    BoundedReply(cfg);
  }

  predicate Proper(m: Members) {
    "jsonrpc" in m && m["jsonrpc"] == Str("2.0") && "method" in m && m["method"].Str?
  }

  /** An object with an id that is neither a string nor an integer, or one that does not say "2.0" and
      name a method. */
  lemma Broken(cfg: Config, line: InputLine, m: Members, state: Lifecycle)
    requires Arrives(cfg, line, m)
    ensures "id" in m && !(m["id"].Str? || m["id"].Int? || m["id"].UInt?) ==> RepliesError(cfg, line, state, Null, -32600, "Invalid Request")
    ensures "id" in m && (m["id"].Str? || m["id"].Int? || m["id"].UInt?) && !Proper(m) ==>
              RepliesError(cfg, line, state, m["id"], -32600, "Invalid Request")
    ensures "id" !in m && !Proper(m) ==>
              if "method" in m && m["method"].Str?
              then Accept(cfg, line, state).1 == state && Accept(cfg, line, state).0.Immediate? && Accept(cfg, line, state).0.result.response.None?
              else RepliesError(cfg, line, state, Null, -32600, "Invalid Request")
  {
    hide MakeError, IsError, SerializeBounded, AcceptDispatched, PrepareToolsCall, AcceptCancelled;
    EnvelopeIs(Null, Null, -32600, "Invalid Request");
    if "id" in m {
      EnvelopeIs(m["id"], Null, -32600, "Invalid Request");
    }
    BrokenReplies(cfg, line, m, state);
  }

  lemma BrokenReplies(cfg: Config, line: InputLine, m: Members, state: Lifecycle)
    requires Arrives(cfg, line, m)
    ensures "id" in m && !IsValidId(m["id"]) ==> Replies(cfg, line, state, MakeError(Null, -32600, "Invalid Request"))
    ensures "id" in m && IsValidId(m["id"]) && !Proper(m) ==>
              Replies(cfg, line, state, MakeError(m["id"], -32600, "Invalid Request"))
    ensures "id" !in m && !Proper(m) && !("method" in m && m["method"].Str?) ==> Replies(cfg, line, state, MakeError(Null, -32600, "Invalid Request"))
    ensures "id" !in m && !Proper(m) && "method" in m && m["method"].Str? ==>
              Accept(cfg, line, state).1 == state && Accept(cfg, line, state).0.Immediate? && Accept(cfg, line, state).0.result.response.None?
  {
    hide MakeError, SerializeBounded, AcceptDispatched, PrepareToolsCall, AcceptCancelled;
    BoundedReply(cfg);
  }
}
