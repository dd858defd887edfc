/** The session that a running server is in: whatever the workers do meanwhile, its lifecycle state is
    that of the lines served so far, and its answers are those due in that state. */
module ServerSession {
  import opened Options
  import opened ServerModel
  import opened ServerSystem

  /** The state in which the line is served. */
  function Before(cfg: Config, lines: seq<InputLine>, i: nat): Lifecycle
    requires i <= |lines|
  {
    P.StateAfter(cfg, lines[..i])
  }

  /** What accept_line makes of the line after the lines before it. */
  function ActionOn(cfg: Config, lines: seq<InputLine>, i: nat): Action
    requires i < |lines|
  {
    Accept(cfg, lines[i], Before(cfg, lines, i)).0
  }

  /** The output is what the line asked for in its session: the bounded answer that accept_line gives
      at once, or a result under the id of its call. */
  ghost predicate Tells(cfg: Config, lines: seq<InputLine>, o: Output) {
    o.line < |lines| &&
    match ActionOn(cfg, lines, o.line)
    case Immediate(r) =>
      r.response == Some(o.response) && o.wanted == P.Wanted(cfg, lines[o.line], Before(cfg, lines, o.line)) &&
      P.Bounded(cfg, o.wanted) == Some(o.response)
    case Call(call) =>
      (exists result :: o.wanted == MakeResult(call.requestId, result)) && P.Bounded(cfg, o.wanted) == Some(o.response)
    case Cancellation(_) => false
  }

  ghost predicate IsCall(cfg: Config, lines: seq<InputLine>, i: nat, id: Json) {
    i < |lines| && ActionOn(cfg, lines, i).Call? && ActionOn(cfg, lines, i).call.requestId == id
  }

  ghost predicate InSession(cfg: Config, lines: seq<InputLine>, s: Sys) {
    s.next <= |lines| && s.state == Before(cfg, lines, s.next) &&
    (s.pc.Submitted? ==> s.pc.c < |s.calls| && s.calls[s.pc.c].line == s.next) &&
    (forall c :: 0 <= c < |s.calls| ==> IsCall(cfg, lines, s.calls[c].line, s.calls[c].id)) &&
    (forall k :: 0 <= k < |s.output| ==> Tells(cfg, lines, s.output[k]))
  }

  // A call leaves the state as it is; any other line makes its own step.
  lemma BeforeNext(cfg: Config, lines: seq<InputLine>, i: nat)
    requires i < |lines|
    ensures Before(cfg, lines, i + 1) == Accept(cfg, lines[i], Before(cfg, lines, i)).1
    ensures ActionOn(cfg, lines, i).Call? ==> Before(cfg, lines, i + 1) == Before(cfg, lines, i)
  {
    hide Accept;
    assert lines[..i + 1][..i] == lines[..i];
    if ActionOn(cfg, lines, i).Call? {
      P.CallNeedsReady(cfg, lines[i], Before(cfg, lines, i));
    }
  }

  lemma ToolTells(cfg: Config, lines: seq<InputLine>, i: nat, id: Json, result: Json)
    requires AdmitsBareError(cfg) && IsCall(cfg, lines, i, id)
    ensures var r := ToolResponse(cfg, id, result).response;
            r.Some? && Tells(cfg, lines, Output(i, MakeResult(id, result), r.value))
  {
    hide AdmitsBareError, MakeResult, ActionOn, SerializeBounded;
    SerializeBoundedIs(cfg, MakeResult(id, result), None, Ready);
  }

  lemma ImmediateTells(cfg: Config, lines: seq<InputLine>, i: nat)
    requires AdmitsBareError(cfg) && i < |lines| && ActionOn(cfg, lines, i).Immediate? && ActionOn(cfg, lines, i).result.response.Some?
    ensures Tells(cfg, lines, Output(i, P.Wanted(cfg, lines[i], Before(cfg, lines, i)), ActionOn(cfg, lines, i).result.response.value))
  {
    hide Accept, AdmitsBareError, P.Bounded, Before;
    P.AcceptIsBounded(cfg, lines[i], Before(cfg, lines, i));
  }

  lemma ServeInSession(cfg: Config, lines: seq<InputLine>, s: Sys, deadline: nat)
    requires AdmitsBareError(cfg) && InSession(cfg, lines, s) && s.pc.Reading? && s.next < |lines|
    requires |s.calls| == |s.sched.life|
    ensures InSession(cfg, lines, ServeStep(cfg, lines[s.next], s, deadline))
  {
    hide Accept, AdmitsBareError, Tells, M.Apply, M.Admit, MakeResult, Before, ToolResponse;
    BeforeNext(cfg, lines, s.next);
    match ActionOn(cfg, lines, s.next)
    case Immediate(r) =>
      if r.response.Some? {
        ImmediateTells(cfg, lines, s.next);
      }
    case Cancellation(_) =>
    case Call(call) =>
      ToolTells(cfg, lines, s.next, call.requestId, cfg.toolError("server_busy"));
      ToolTells(cfg, lines, s.next, call.requestId, cfg.toolError("duplicate_request_id"));
      ToolTells(cfg, lines, s.next, call.requestId, cfg.toolError("server_stopping"));
  }

  lemma StepInSession(cfg: Config, lines: seq<InputLine>, s: Sys, e: SysEvent)
    requires AdmitsBareError(cfg) && InSession(cfg, lines, s) && SysInv(cfg, lines, s) && Enabled(lines, s, e)
    ensures InSession(cfg, lines, Apply(cfg, lines, s, e))
  {
    hide AdmitsBareError, Tells, ServeStep, SysInv, M.Apply, MakeResult, Before, ToolResponse, IsCall;
    match e
    case ServeLine(deadline) =>
      CallsCounted(cfg, lines, s);
      ServeInSession(cfg, lines, s, deadline);
    case LaunchReturns => LaunchedBefore(cfg, lines, s);
    case LaunchThrows =>
      LaunchedBefore(cfg, lines, s);
      ToolTells(cfg, lines, s.next, s.calls[s.pc.c].id, cfg.toolError("server_stopping"));
    case CompletionWritten(w, result) =>
      var record := s.calls[s.sched.workers[w].c];
      ToolTells(cfg, lines, record.line, record.id, result);
    case _ =>
  }

  lemma CallsCounted(cfg: Config, lines: seq<InputLine>, s: Sys)
    requires SysInv(cfg, lines, s)
    ensures |s.calls| == |s.sched.life|
  {
  }

  // The call being submitted did not move the state.
  lemma LaunchedBefore(cfg: Config, lines: seq<InputLine>, s: Sys)
    requires InSession(cfg, lines, s) && s.pc.Submitted?
    ensures s.next < |lines| && Before(cfg, lines, s.next + 1) == s.state
  {
    hide Before, Tells;
    BeforeNext(cfg, lines, s.next);
  }

  lemma {:induction false} RunInSession(cfg: Config, lines: seq<InputLine>, s: Sys, es: seq<SysEvent>)
    requires AdmitsBareError(cfg) && InSession(cfg, lines, s) && SysInv(cfg, lines, s) && IsRun(cfg, lines, s, es)
    ensures InSession(cfg, lines, After(cfg, lines, s, es))
    decreases |es|
  {
    hide SysInv, Enabled, Apply, InSession, AdmitsBareError;
    if es != [] {
      StepKeeps(cfg, lines, s, es[0]);
      StepInSession(cfg, lines, s, es[0]);
      RunInSession(cfg, lines, Apply(cfg, lines, s, es[0]), es[1..]);
    }
  }

  /** In every interleaving the state is that of the lines served, and every output is what its line
      asked for after the lines before it. */
  lemma SessionFollowed(cfg: Config, lines: seq<InputLine>, s: Sys, es: seq<SysEvent>)
    requires AdmitsBareError(cfg) && Init(s) && IsRun(cfg, lines, s, es)
    ensures var t := After(cfg, lines, s, es);
            && t.next <= |lines| && t.state == P.StateAfter(cfg, lines[..t.next])
            && forall k :: 0 <= k < |t.output| ==> Tells(cfg, lines, t.output[k])
  {
    hide AdmitsBareError, SysInv, Tells, IsRun, After;
    assert InSession(cfg, lines, s) by { assert lines[..0] == []; }
    InitInv(cfg, lines, s);
    RunInSession(cfg, lines, s, es);
  }

  /** Every call that the scheduler ever admitted came from a line that followed the handshake: an
      initialize request answered with its result, and a later notification that confirmed it. */
  lemma AdmittedAfterHandshake(cfg: Config, lines: seq<InputLine>, s: Sys, es: seq<SysEvent>, c: M.CallId) returns (j: nat, k: nat)
    requires AdmitsBareError(cfg) && Init(s) && IsRun(cfg, lines, s, es) && c < |After(cfg, lines, s, es).sched.life|
    ensures var t := After(cfg, lines, s, es);
            && c < |t.calls| && j < k < t.calls[c].line < |lines|
            && P.Moved(cfg, lines, j, AwaitingInitialized) && P.Moved(cfg, lines, k, Ready)
  {
    hide AdmitsBareError, SysInv, Tells, IsRun, After, Accept, P.Moved;
    assert InSession(cfg, lines, s) by { assert lines[..0] == []; }
    InitInv(cfg, lines, s);
    RunInSession(cfg, lines, s, es);
    RunKeeps(cfg, lines, s, es);
    var t := After(cfg, lines, s, es);
    CallsCounted(cfg, lines, t);
    assert IsCall(cfg, lines, t.calls[c].line, t.calls[c].id);
    j, k := P.CallsFollowHandshake(cfg, lines, t.calls[c].line);
  }

  // ---------- What becomes of a call line ----------

  /** The line is answered with a tool error of this kind. */
  ghost predicate RefusedWith(cfg: Config, s: Sys, t: Sys, id: Json, code: string) {
    t.output == Write(s.output, s.next, MakeResult(id, cfg.toolError(code)), ToolResponse(cfg, id, cfg.toolError(code))) &&
    t.pc.Reading? && t.next == s.next + 1 && t.calls == s.calls
  }

  /** A call is admitted under its key exactly if admission is open, no call is in flight under that key
      and the limit is not reached; otherwise it is answered at once with the error for the reason. */
  lemma CallServed(cfg: Config, line: InputLine, s: Sys, deadline: nat)
    requires Accept(cfg, line, s.state).0.Call?
    ensures var t, id := ServeStep(cfg, line, s, deadline), Accept(cfg, line, s.state).0.call.requestId;
            var sh := s.sched.sh;
            if !sh.accepting then RefusedWith(cfg, s, t, id, "server_stopping")
            else if KeyOf(id) in sh.inFlight then RefusedWith(cfg, s, t, id, "duplicate_request_id")
            else if |sh.inFlight| >= s.sched.limit then RefusedWith(cfg, s, t, id, "server_busy")
            else t.pc == Submitted(|s.sched.life|) && t.output == s.output && t.calls == s.calls + [CallRecord(s.next, id)] &&
                 t.sched.sh.inFlight == sh.inFlight[KeyOf(id) := |sh.controls|]
  {
    hide Accept, ToolResponse, MakeResult, KeyOf, Write;
  }
}
