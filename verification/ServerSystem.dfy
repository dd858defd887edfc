/** run_stdio as a whole: the thread that serves the input lines and the scheduler's workers,
    interleaved in any way, up to a normal end of input with working output. */
module ServerSystem {
  import opened Options
  import opened ServerModel
  import B = Bytes
  import P = ServerProtocol
  import K = RequestKey
  import M = SchedulerModel
  import I = SchedulerInvariant
  import S = SchedulerSafety

  /** A response written to the output, the input line it answers, and what it was before it was bounded. */
  datatype Output = Output(line: nat, wanted: Json, response: Json)

  /** What became of a served line. */
  datatype Disposition = Silent | Answered | Scheduled(c: M.CallId)

  /** The serving thread: between lines, inside submit after the call was admitted, or past the input. */
  datatype Pc = Reading | Submitted(c: M.CallId) | Closing

  /** The line and the id of an admitted call. */
  datatype CallRecord = CallRecord(line: nat, id: Json)

  datatype Sys = Sys(state: Lifecycle, next: nat, pc: Pc, sched: M.State, calls: seq<CallRecord>,
                     served: seq<Disposition>, output: seq<Output>)

  datatype SysEvent =
    | ServeLine(deadline: nat)
    | LaunchReturns | LaunchThrows
    | Internal(e: M.Event)
    | CompletionWritten(w: nat, result: Json)
    | EndOfInput

  function KeyOf(id: Json): string {
    K.Key(match id
          case Null => K.Id.Null
          case Str(s) => K.Text(s)
          case Int(i) => K.Integer(i)
          case UInt(u) => K.Unsigned(u)
          case _ => K.Other(""))
  }

  /** format_tool_result. */
  function ToolResponse(cfg: Config, id: Json, result: Json): ProcessResult {
    SerializeBounded(cfg, MakeResult(id, result), None, Ready).0
  }

  /** The scheduler steps that are neither the serving thread's nor the end of a callback. */
  predicate IsInternal(e: M.Event) {
    match e
    case Submit(_, _) => false
    case Launch(_) => false
    case LaunchFail(_) => false
    case CallbackEnd(_) => false
    case CancelCall(_) => false
    case StopAll => false
    case ShutdownOnWorker(_) => false
    case ShutdownBegin => false
    case _ => true
  }

  predicate Enabled(lines: seq<InputLine>, s: Sys, e: SysEvent) {
    match e
    case ServeLine(_) => s.pc.Reading? && s.next < |lines|
    case LaunchReturns => s.pc.Submitted? && M.Enabled(s.sched, M.Event.Launch(s.pc.c)) && s.pc.c < |s.calls|
    case LaunchThrows => s.pc.Submitted? && M.Enabled(s.sched, M.LaunchFail(s.pc.c)) && s.pc.c < |s.calls|
    case Internal(e) => IsInternal(e) && M.Enabled(s.sched, e)
    case CompletionWritten(w, _) => M.Enabled(s.sched, M.CallbackEnd(w)) && s.sched.workers[w].c < |s.calls|
    case EndOfInput => s.pc.Reading? && s.next == |lines| && M.Enabled(s.sched, M.ShutdownBegin)
  }

  function Write(output: seq<Output>, line: nat, wanted: Json, r: ProcessResult): seq<Output> {
    if r.response.Some? then output + [Output(line, wanted, r.response.value)] else output
  }

  function Rejection(status: M.SubmitStatus): string {
    match status
    case QueueFull => "server_busy"
    case DuplicateRequestId => "duplicate_request_id"
    case _ => "server_stopping"
  }

  /** The line is finished and the thread reads on. */
  function Served(s: Sys, d: Disposition): Sys {
    s.(next := s.next + 1, pc := Reading, served := s.served + [d])
  }

  function ServeStep(cfg: Config, line: InputLine, s: Sys, deadline: nat): Sys {
    var (action, state) := Accept(cfg, line, s.state);
    match action
    case Immediate(r) =>
      Served(s.(state := state, output := Write(s.output, s.next, P.Wanted(cfg, line, s.state), r)),
             if r.response.Some? then Answered else Silent)
    case Cancellation(id) =>
      Served(s.(state := state, sched := M.Apply(s.sched, M.CancelCall(KeyOf(id)))), Silent)
    case Call(call) =>
      var key := KeyOf(call.requestId);
      var status := M.Admit(s.sched.sh, s.sched.limit, key, deadline).1;
      var submitted := s.(state := state, sched := M.Apply(s.sched, M.Submit(key, deadline)));
      if status.Accepted? then
        submitted.(pc := Submitted(|s.sched.life|), calls := s.calls + [CallRecord(s.next, call.requestId)])
      else
        var rejection := cfg.toolError(Rejection(status));
        Served(submitted.(output := Write(s.output, s.next, MakeResult(call.requestId, rejection), ToolResponse(cfg, call.requestId, rejection))), Answered)
  }

  function Apply(cfg: Config, lines: seq<InputLine>, s: Sys, e: SysEvent): Sys
    requires Enabled(lines, s, e)
  {
    match e
    case ServeLine(deadline) => ServeStep(cfg, lines[s.next], s, deadline)
    case LaunchReturns => Served(s.(sched := M.Apply(s.sched, M.Event.Launch(s.pc.c))), Scheduled(s.pc.c))
    case LaunchThrows =>
      var id, rejection := s.calls[s.pc.c].id, cfg.toolError(Rejection(M.SubmitStatus.Stopped));
      Served(s.(sched := M.Apply(s.sched, M.LaunchFail(s.pc.c)),
                output := Write(s.output, s.next, MakeResult(id, rejection), ToolResponse(cfg, id, rejection))), Answered)
    case Internal(e) => s.(sched := M.Apply(s.sched, e))
    case CompletionWritten(w, result) =>
      var record := s.calls[s.sched.workers[w].c];
      s.(sched := M.Apply(s.sched, M.CallbackEnd(w)),
         output := Write(s.output, record.line, MakeResult(record.id, result), ToolResponse(cfg, record.id, result)))
    case EndOfInput => s.(sched := M.Apply(s.sched, M.ShutdownBegin), pc := Closing)
  }

  ghost predicate Init(s: Sys) {
    s.state.Uninitialized? && s.next == 0 && s.pc.Reading? && M.Init(s.sched) && s.calls == [] && s.served == [] && s.output == []
  }

  ghost predicate IsRun(cfg: Config, lines: seq<InputLine>, s: Sys, es: seq<SysEvent>)
    decreases |es|
  {
    es == [] || (Enabled(lines, s, es[0]) && IsRun(cfg, lines, Apply(cfg, lines, s, es[0]), es[1..]))
  }

  ghost function After(cfg: Config, lines: seq<InputLine>, s: Sys, es: seq<SysEvent>): Sys
    requires IsRun(cfg, lines, s, es)
    decreases |es|
  {
    if es == [] then s else After(cfg, lines, Apply(cfg, lines, s, es[0]), es[1..])
  }

  // ---------- The invariant ----------

  /** How many responses answer line `i`. */
  function Answers(output: seq<Output>, i: nat): nat {
    if output == [] then 0
    else Answers(output[..|output| - 1], i) + if output[|output| - 1].line == i then 1 else 0
  }

  lemma AnswersWrite(output: seq<Output>, line: nat, wanted: Json, r: ProcessResult, i: nat)
    ensures Answers(Write(output, line, wanted, r), i) == Answers(output, i) + if r.response.Some? && line == i then 1 else 0
  {
    if r.response.Some? {
      assert (output + [Output(line, wanted, r.response.value)])[..|output|] == output;
    }
  }

  /** Answers due so far to a line with this disposition. */
  function Due(sched: M.State, d: Disposition): nat {
    match d
    case Silent => 0
    case Answered => 1
    case Scheduled(c) => if c < |sched.life| then sched.life[c].ended else 0
  }

  ghost predicate OutputOk(s: Sys) {
    forall i: nat :: Answers(s.output, i) == if i < |s.served| then Due(s.sched, s.served[i]) else 0
  }

  /** Calls and lines name each other; only the call being submitted is still launching. */
  ghost predicate CallOk(s: Sys, c: M.CallId)
    requires c < |s.calls| == |s.sched.life|
  {
    if s.sched.life[c].phase.Launching? then s.pc == Submitted(c) && s.calls[c].line == s.next
    else s.calls[c].line < |s.served| &&
         (!s.sched.life[c].phase.LaunchFailed? ==> s.served[s.calls[c].line] == Scheduled(c))
  }

  ghost predicate LineOk(s: Sys, i: nat)
    requires i < |s.served|
  {
    match s.served[i]
    case Scheduled(c) =>
      c < |s.calls| == |s.sched.life| && s.calls[c].line == i &&
      !s.sched.life[c].phase.Launching? && !s.sched.life[c].phase.LaunchFailed?
    case _ => true
  }

  ghost predicate ServingOk(lines: seq<InputLine>, s: Sys) {
    |s.served| == s.next <= |lines| && |s.calls| == |s.sched.life| &&
    (s.pc.Submitted? ==> s.pc.c < |s.calls| && s.sched.life[s.pc.c].phase.Launching? && s.next < |lines|) &&
    (s.pc.Closing? ==> s.next == |lines|) &&
    (forall c :: 0 <= c < |s.calls| ==> CallOk(s, c)) &&
    (forall i :: 0 <= i < |s.served| ==> LineOk(s, i))
  }

  /** Requests are answered or scheduled, notifications are not answered, the rest is answered. */
  ghost predicate Fair(cfg: Config, line: InputLine, d: Disposition) {
    if P.IsRequest(cfg, line) then !d.Silent? else if P.IsNotification(cfg, line) then d.Silent? else d.Answered?
  }

  ghost predicate FairOk(cfg: Config, lines: seq<InputLine>, s: Sys) {
    s.next <= |lines| && |s.served| == s.next && (s.pc.Submitted? ==> s.next < |lines| && P.IsRequest(cfg, lines[s.next])) &&
    forall i :: 0 <= i < |s.served| ==> Fair(cfg, lines[i], s.served[i])
  }

  /** Every response is the bounded form of one under the id of the line it answers, and pending calls
      carry the id of their request. */
  ghost predicate IdsOk(cfg: Config, lines: seq<InputLine>, s: Sys) {
    (forall k :: 0 <= k < |s.output| ==>
       s.output[k].line < |lines| && P.Correlated(cfg, lines[s.output[k].line], s.output[k].wanted, s.output[k].response)) &&
    (forall c :: 0 <= c < |s.calls| ==>
       s.calls[c].line < |lines| && P.IsRequest(cfg, lines[s.calls[c].line]) && s.calls[c].id == P.RequestId(lines[s.calls[c].line]))
  }

  ghost predicate SysInv(cfg: Config, lines: seq<InputLine>, s: Sys) {
    I.Inv(s.sched) && OutputOk(s) && ServingOk(lines, s) && FairOk(cfg, lines, s) && IdsOk(cfg, lines, s)
  }

  lemma InitInv(cfg: Config, lines: seq<InputLine>, s: Sys)
    requires Init(s)
    ensures SysInv(cfg, lines, s)
  {
    I.InitInv(s.sched);
  }

  // ---------- Scheduler steps seen from outside ----------

  /** The two scheduler states agree on everything the server counts. */
  ghost predicate SameCalls(a: M.State, b: M.State) {
    |a.life| == |b.life| &&
    forall c :: 0 <= c < |a.life| ==>
      a.life[c].ended == b.life[c].ended &&
      (a.life[c].phase.Launching? <==> b.life[c].phase.Launching?) &&
      (a.life[c].phase.LaunchFailed? <==> b.life[c].phase.LaunchFailed?)
  }

  lemma InternalSameCalls(s: M.State, e: M.Event)
    requires I.Inv(s) && M.Enabled(s, e) && IsInternal(e)
    ensures SameCalls(s, M.Apply(s, e))
  {
    hide I.CountsOk, I.StopOk, I.WakeOk, I.MapOk;
    match e
    case Check(w) =>
      if s.sh.ready != [] {
        assert I.CallOk(s.sh, s.life[s.sh.ready[0]], s.workers, s.sh.ready[0]);
      }
    case FinishCall(w) => assert I.WorkerOk(s.sh, s.life, s.workers[w], w);
    case FinishNotify(w) => assert I.WorkerOk(s.sh, s.life, s.workers[w], w);
    case _ =>
  }

  // A step that the server does not count keeps its part of the invariant.
  lemma SameCallsKeep(cfg: Config, lines: seq<InputLine>, s: Sys, sched: M.State)
    requires SysInv(cfg, lines, s) && SameCalls(s.sched, sched) && I.Inv(sched)
    ensures SysInv(cfg, lines, s.(sched := sched))
  {
    hide I.Inv, Fair;
    var t := s.(sched := sched);
    forall i: nat ensures Answers(t.output, i) == if i < |t.served| then Due(t.sched, t.served[i]) else 0 {
      assert i < |s.served| ==> LineOk(s, i);
    }
    forall c | 0 <= c < |t.calls| ensures CallOk(t, c) {
      assert CallOk(s, c);
    }
    forall i | 0 <= i < |t.served| ensures LineOk(t, i) {
      assert LineOk(s, i);
    }
  }

  // Serving a line to the end adds its disposition and its answer.
  lemma ServedKeeps(cfg: Config, lines: seq<InputLine>, s: Sys, state: Lifecycle, wanted: Json, r: ProcessResult)
    requires SysInv(cfg, lines, s) && s.pc.Reading? && s.next < |lines|
    requires r.response.Some? ==> P.Correlated(cfg, lines[s.next], wanted, r.response.value)
    requires Fair(cfg, lines[s.next], if r.response.Some? then Answered else Silent)
    ensures SysInv(cfg, lines, Served(s.(state := state, output := Write(s.output, s.next, wanted, r)), if r.response.Some? then Answered else Silent))
  {
    hide I.Inv, Fair, Answers;
    var t := Served(s.(state := state, output := Write(s.output, s.next, wanted, r)), if r.response.Some? then Answered else Silent);
    forall i: nat ensures Answers(t.output, i) == if i < |t.served| then Due(t.sched, t.served[i]) else 0 {
      AnswersWrite(s.output, s.next, wanted, r, i);
      assert i < |s.served| ==> LineOk(s, i);
    }
    forall c | 0 <= c < |t.calls| ensures CallOk(t, c) {
      assert CallOk(s, c);
    }
    forall i | 0 <= i < |t.served| ensures LineOk(t, i) {
      assert i < |s.served| ==> LineOk(s, i);
    }
  }

  lemma ToolResponseIs(cfg: Config, line: InputLine, id: Json, result: Json)
    requires AdmitsBareError(cfg) && P.IsRequest(cfg, line) && id == P.RequestId(line)
    ensures var r := ToolResponse(cfg, id, result).response;
            r.Some? && P.Correlated(cfg, line, MakeResult(id, result), r.value)
  {
    hide SerializeBounded, MakeResult, AdmitsBareError;
    SerializeBoundedIs(cfg, MakeResult(id, result), None, Ready);
    P.EnvelopeId(id, result, 0, "");
  }

  // ---------- The serving thread ----------

  lemma LineShape(cfg: Config, line: InputLine, state: Lifecycle)
    requires AdmitsBareError(cfg)
    ensures match Accept(cfg, line, state).0
            case Immediate(r) =>
              && (r.response.Some? ==> P.Correlated(cfg, line, P.Wanted(cfg, line, state), r.response.value))
              && Fair(cfg, line, if r.response.Some? then Answered else Silent)
            case Cancellation(_) => Fair(cfg, line, Silent)
            case Call(call) => P.IsRequest(cfg, line) && call.requestId == P.RequestId(line)
  {
    hide Accept, AdmitsBareError, P.Correlated, P.Wanted;
    if P.IsRequest(cfg, line) {
      P.RequestTaken(cfg, line, state);
    } else if P.IsNotification(cfg, line) {
      P.NotificationUnanswered(cfg, line, state);
    } else {
      P.MalformedAnswered(cfg, line, state);
    }
  }

  lemma CancelSame(s: M.State, key: string)
    requires I.Inv(s)
    ensures SameCalls(s, M.Apply(s, M.CancelCall(key))) && I.Inv(M.Apply(s, M.CancelCall(key)))
  {
    I.StepKeeps(s, M.CancelCall(key));
  }

  lemma SubmitSame(s: M.State, key: string, deadline: nat)
    requires I.Inv(s)
    ensures var t := M.Apply(s, M.Submit(key, deadline));
            && I.Inv(t)
            && if M.Admit(s.sh, s.limit, key, deadline).1.Accepted?
               then t.life == s.life + [M.Life(M.Launching, 0, 0)]
               else SameCalls(s, t)
  {
    I.StepKeeps(s, M.Submit(key, deadline));
  }

  lemma AdmittedKeeps(cfg: Config, lines: seq<InputLine>, s: Sys, state: Lifecycle, sched: M.State)
    requires SysInv(cfg, lines, s) && s.pc.Reading? && s.next < |lines| && P.IsRequest(cfg, lines[s.next])
    requires I.Inv(sched) && sched.life == s.sched.life + [M.Life(M.Launching, 0, 0)]
    ensures SysInv(cfg, lines, s.(state := state, sched := sched, pc := Submitted(|s.sched.life|),
                                  calls := s.calls + [CallRecord(s.next, P.RequestId(lines[s.next]))]))
  {
    hide I.Inv, Fair, Answers;
    var t := s.(state := state, sched := sched, pc := Submitted(|s.sched.life|),
                calls := s.calls + [CallRecord(s.next, P.RequestId(lines[s.next]))]);
    forall i: nat ensures Answers(t.output, i) == if i < |t.served| then Due(t.sched, t.served[i]) else 0 {
      assert i < |s.served| ==> LineOk(s, i);
    }
    forall c | 0 <= c < |t.calls| ensures CallOk(t, c) {
      assert c < |s.calls| ==> CallOk(s, c);
    }
    forall i | 0 <= i < |t.served| ensures LineOk(t, i) {
      assert LineOk(s, i);
    }
  }

  lemma ServeKeeps(cfg: Config, lines: seq<InputLine>, s: Sys, deadline: nat)
    requires AdmitsBareError(cfg) && SysInv(cfg, lines, s) && s.pc.Reading? && s.next < |lines|
    ensures SysInv(cfg, lines, ServeStep(cfg, lines[s.next], s, deadline))
  {
    hide SysInv, Accept, AdmitsBareError, M.Apply, M.Admit, ToolResponse, SameCalls, P.Correlated, P.Wanted, MakeResult;
    var line := lines[s.next];
    var (action, state) := Accept(cfg, line, s.state);
    LineShape(cfg, line, s.state);
    assert I.Inv(s.sched) by { SysInvSched(cfg, lines, s); }
    match action
    case Immediate(r) => ServedKeeps(cfg, lines, s, state, P.Wanted(cfg, line, s.state), r);
    case Cancellation(id) =>
      var sched := M.Apply(s.sched, M.CancelCall(KeyOf(id)));
      CancelSame(s.sched, KeyOf(id));
      SameCallsKeep(cfg, lines, s, sched);
      ServedKeeps(cfg, lines, s.(sched := sched), state, Null, ProcessResult(None, None));
    case Call(call) =>
      var key := KeyOf(call.requestId);
      var sched := M.Apply(s.sched, M.Submit(key, deadline));
      var status := M.Admit(s.sched.sh, s.sched.limit, key, deadline).1;
      SubmitSame(s.sched, key, deadline);
      if status.Accepted? {
        AdmittedKeeps(cfg, lines, s, state, sched);
      } else {
        SameCallsKeep(cfg, lines, s, sched);
        var rejection := cfg.toolError(Rejection(status));
        ToolResponseIs(cfg, line, call.requestId, rejection);
        ServedKeeps(cfg, lines, s.(sched := sched), state, MakeResult(call.requestId, rejection), ToolResponse(cfg, call.requestId, rejection));
      }
  }

  lemma SysInvSched(cfg: Config, lines: seq<InputLine>, s: Sys)
    requires SysInv(cfg, lines, s)
    ensures I.Inv(s.sched)
  {
  }

  // ---------- The launch ----------

  /** Only the phase of call `c` differs, and it has left the launch. */
  ghost predicate LaunchOver(a: M.State, b: M.State, c: M.CallId, phase: M.Phase) {
    c < |a.life| == |b.life| && a.life[c].phase.Launching? &&
    b.life == a.life[c := a.life[c].(phase := phase)]
  }

  lemma LaunchReturnsKeeps(cfg: Config, lines: seq<InputLine>, s: Sys, sched: M.State)
    requires SysInv(cfg, lines, s) && s.pc.Submitted? && I.Inv(sched) && LaunchOver(s.sched, sched, s.pc.c, M.Queued)
    ensures SysInv(cfg, lines, Served(s.(sched := sched), Scheduled(s.pc.c)))
  {
    hide Answers;
    var t, c := Served(s.(sched := sched), Scheduled(s.pc.c)), s.pc.c;
    assert CallOk(s, c);
    assert t.sched.life[c].ended == 0 by {
      assert I.CallOk(sched.sh, sched.life[c], sched.workers, c);
    }
    forall i: nat ensures Answers(t.output, i) == if i < |t.served| then Due(t.sched, t.served[i]) else 0 {
      assert i < |s.served| ==> LineOk(s, i);
    }
    forall d | 0 <= d < |t.calls| ensures CallOk(t, d) {
      assert CallOk(s, d);
    }
    forall i | 0 <= i < |t.served| ensures LineOk(t, i) {
      assert i < |s.served| ==> LineOk(s, i);
    }
  }

  lemma LaunchThrowsKeeps(cfg: Config, lines: seq<InputLine>, s: Sys, sched: M.State, wanted: Json, r: ProcessResult)
    requires SysInv(cfg, lines, s) && s.pc.Submitted? && I.Inv(sched) && LaunchOver(s.sched, sched, s.pc.c, M.LaunchFailed)
    requires r.response.Some? && s.next < |lines| && P.Correlated(cfg, lines[s.next], wanted, r.response.value)
    ensures SysInv(cfg, lines, Served(s.(sched := sched, output := Write(s.output, s.next, wanted, r)), Answered))
  {
    hide I.Inv, Answers, P.Correlated;
    var t, c := Served(s.(sched := sched, output := Write(s.output, s.next, wanted, r)), Answered), s.pc.c;
    assert CallOk(s, c);
    forall i: nat ensures Answers(t.output, i) == if i < |t.served| then Due(t.sched, t.served[i]) else 0 {
      AnswersWrite(s.output, s.next, wanted, r, i);
      assert i < |s.served| ==> LineOk(s, i);
    }
    forall d | 0 <= d < |t.calls| ensures CallOk(t, d) {
      assert CallOk(s, d);
    }
    forall i | 0 <= i < |t.served| ensures LineOk(t, i) {
      assert i < |s.served| ==> LineOk(s, i);
    }
  }

  // ---------- Completions ----------

  lemma CompletionKeeps(cfg: Config, lines: seq<InputLine>, s: Sys, w: nat, wanted: Json, r: ProcessResult)
    requires SysInv(cfg, lines, s) && M.Enabled(s.sched, M.CallbackEnd(w)) && s.sched.workers[w].c < |s.calls|
    requires var record := s.calls[s.sched.workers[w].c];
             r.response.Some? && record.line < |lines| && P.Correlated(cfg, lines[record.line], wanted, r.response.value)
    ensures var record := s.calls[s.sched.workers[w].c];
            SysInv(cfg, lines, s.(sched := M.Apply(s.sched, M.CallbackEnd(w)), output := Write(s.output, record.line, wanted, r)))
  {
    hide P.Correlated, Answers, I.CountsOk, I.StopOk, I.WakeOk, I.MapOk, I.ReadyOk;
    var c := s.sched.workers[w].c;
    var record := s.calls[c];
    var t := s.(sched := M.Apply(s.sched, M.CallbackEnd(w)), output := Write(s.output, record.line, wanted, r));
    I.StepKeeps(s.sched, M.CallbackEnd(w));
    assert I.WorkerOk(s.sched.sh, s.sched.life, s.sched.workers[w], w);
    assert CallOk(s, c);
    forall i: nat ensures Answers(t.output, i) == if i < |t.served| then Due(t.sched, t.served[i]) else 0 {
      AnswersWrite(s.output, record.line, wanted, r, i);
      assert i < |s.served| ==> LineOk(s, i);
    }
    forall d | 0 <= d < |t.calls| ensures CallOk(t, d) {
      assert CallOk(s, d);
    }
    forall i | 0 <= i < |t.served| ensures LineOk(t, i) {
      assert LineOk(s, i);
    }
  }

  lemma ClosingKeeps(cfg: Config, lines: seq<InputLine>, s: Sys, sched: M.State)
    requires SysInv(cfg, lines, s) && s.pc.Reading? && s.next == |lines| && I.Inv(sched) && sched.life == s.sched.life
    ensures SysInv(cfg, lines, s.(sched := sched, pc := Closing))
  {
    hide I.Inv, Fair, Answers;
    var t := s.(sched := sched, pc := Closing);
    forall i: nat ensures Answers(t.output, i) == if i < |t.served| then Due(t.sched, t.served[i]) else 0 {
      assert i < |s.served| ==> LineOk(s, i);
    }
    forall c | 0 <= c < |t.calls| ensures CallOk(t, c) {
      assert CallOk(s, c);
    }
    forall i | 0 <= i < |t.served| ensures LineOk(t, i) {
      assert LineOk(s, i);
    }
  }

  lemma CallHasRequest(cfg: Config, lines: seq<InputLine>, s: Sys, c: M.CallId)
    requires SysInv(cfg, lines, s) && c < |s.calls|
    ensures s.calls[c].line < |lines| && P.IsRequest(cfg, lines[s.calls[c].line]) && s.calls[c].id == P.RequestId(lines[s.calls[c].line])
    ensures s.pc == Submitted(c) ==> s.calls[c].line == s.next
  {
    assert s.pc == Submitted(c) ==> CallOk(s, c);
  }

  // ---------- Every step, every run ----------

  lemma StepKeeps(cfg: Config, lines: seq<InputLine>, s: Sys, e: SysEvent)
    requires AdmitsBareError(cfg) && SysInv(cfg, lines, s) && Enabled(lines, s, e)
    ensures SysInv(cfg, lines, Apply(cfg, lines, s, e))
  {
    hide SysInv, I.Inv, ServeStep, ToolResponse, AdmitsBareError, SameCalls, P.Correlated, MakeResult;
    SysInvSched(cfg, lines, s);
    match e
    case ServeLine(deadline) => ServeKeeps(cfg, lines, s, deadline);
    case LaunchReturns =>
      I.StepKeeps(s.sched, M.Event.Launch(s.pc.c));
      LaunchReturnsKeeps(cfg, lines, s, M.Apply(s.sched, M.Event.Launch(s.pc.c)));
    case LaunchThrows =>
      I.StepKeeps(s.sched, M.LaunchFail(s.pc.c));
      var result := cfg.toolError(Rejection(M.SubmitStatus.Stopped));
      var id := s.calls[s.pc.c].id;
      CallHasRequest(cfg, lines, s, s.pc.c);
      ToolResponseIs(cfg, lines[s.next], id, result);
      LaunchThrowsKeeps(cfg, lines, s, M.Apply(s.sched, M.LaunchFail(s.pc.c)), MakeResult(id, result), ToolResponse(cfg, id, result));
    case Internal(e) =>
      I.StepKeeps(s.sched, e);
      InternalSameCalls(s.sched, e);
      SameCallsKeep(cfg, lines, s, M.Apply(s.sched, e));
    case CompletionWritten(w, result) =>
      var record := s.calls[s.sched.workers[w].c];
      CallHasRequest(cfg, lines, s, s.sched.workers[w].c);
      ToolResponseIs(cfg, lines[record.line], record.id, result);
      CompletionKeeps(cfg, lines, s, w, MakeResult(record.id, result), ToolResponse(cfg, record.id, result));
    case EndOfInput =>
      I.StepKeeps(s.sched, M.ShutdownBegin);
      ClosingKeeps(cfg, lines, s, M.Apply(s.sched, M.ShutdownBegin));
  }

  lemma {:induction false} RunKeeps(cfg: Config, lines: seq<InputLine>, s: Sys, es: seq<SysEvent>)
    requires AdmitsBareError(cfg) && SysInv(cfg, lines, s) && IsRun(cfg, lines, s, es)
    ensures SysInv(cfg, lines, After(cfg, lines, s, es))
    decreases |es|
  {
    hide SysInv, Enabled, Apply, AdmitsBareError;
    if es != [] {
      StepKeeps(cfg, lines, s, es[0]);
      RunKeeps(cfg, lines, Apply(cfg, lines, s, es[0]), es[1..]);
    }
  }

  /** At no point of any run has a line been answered twice, or a notification at all, and every
      response is the bounded form of one under the id of the line it answers. */
  lemma NeverAnsweredTwice(cfg: Config, lines: seq<InputLine>, s: Sys, es: seq<SysEvent>, i: nat)
    requires AdmitsBareError(cfg) && Init(s) && IsRun(cfg, lines, s, es) && i < |lines|
    ensures var t := After(cfg, lines, s, es);
            && Answers(t.output, i) <= 1
            && (P.IsNotification(cfg, lines[i]) ==> Answers(t.output, i) == 0)
            && IdsOk(cfg, lines, t)
  {
    InitInv(cfg, lines, s);
    RunKeeps(cfg, lines, s, es);
    var t := After(cfg, lines, s, es);
    if i < |t.served| {
      assert LineOk(t, i) && Fair(cfg, lines[i], t.served[i]);
      if t.served[i].Scheduled? {
        var c := t.served[i].c;
        assert I.CallOk(t.sched.sh, t.sched.life[c], t.sched.workers, c);
      }
    }
  }

  /** Over every run, the answer to a request carries another id if and only if neither the response it
      stands for nor the short error under the request's id fits the limit; then it is the error under
      null. A response that fits is written as it is, and a request whose short error fits always gets
      an answer under its own id. */
  lemma AnsweredUnderId(cfg: Config, lines: seq<InputLine>, s: Sys, es: seq<SysEvent>, k: nat)
    requires AdmitsBareError(cfg) && Init(s) && IsRun(cfg, lines, s, es) && k < |After(cfg, lines, s, es).output|
    ensures var o := After(cfg, lines, s, es).output[k];
            && o.line < |lines| && Fits(cfg, o.response) && (Fits(cfg, o.wanted) ==> o.response == o.wanted)
            && (P.IsRequest(cfg, lines[o.line]) ==>
                  var id := P.RequestId(lines[o.line]);
                  && IdOf(o.wanted) == id
                  && (IdOf(o.response) != id <==> !Fits(cfg, o.wanted) && !Fits(cfg, ShortError(id)))
                  && (IdOf(o.response) != id ==> o.response == ShortError(Null)))
            && (!P.IsRequest(cfg, lines[o.line]) ==> IdOf(o.response) == Null)
  {
    hide AdmitsBareError, Init, IsRun, After, Fits, P.Bounded, I.Inv, OutputOk, ServingOk, FairOk;
    InitInv(cfg, lines, s);
    RunKeeps(cfg, lines, s, es);
    var t := After(cfg, lines, s, es);
    P.CorrelatedIs(cfg, lines[t.output[k].line], t.output[k].wanted, t.output[k].response);
  }

  /** When run_stdio has reached the end of its input and its shutdown has returned, every request
      line has been answered exactly once, unless it became a call that finished as cancelled; then
      it has no answer. Lines that are neither requests nor notifications have one answer too. */
  lemma EveryRequestAnswered(cfg: Config, lines: seq<InputLine>, s: Sys, es: seq<SysEvent>, i: nat)
    requires AdmitsBareError(cfg) && Init(s) && IsRun(cfg, lines, s, es) && i < |lines|
    requires var t := After(cfg, lines, s, es); t.pc.Closing? && t.sched.joined
    ensures var t := After(cfg, lines, s, es);
            && |t.served| == |lines|
            && (P.IsRequest(cfg, lines[i]) ==>
                  if t.served[i].Scheduled? && t.served[i].c < |t.sched.life| && t.sched.life[t.served[i].c].phase.Cancelled?
                  then Answers(t.output, i) == 0 else Answers(t.output, i) == 1)
            && (!P.IsRequest(cfg, lines[i]) ==> Answers(t.output, i) == if P.IsNotification(cfg, lines[i]) then 0 else 1)
  {
    InitInv(cfg, lines, s);
    RunKeeps(cfg, lines, s, es);
    var t := After(cfg, lines, s, es);
    assert LineOk(t, i) && Fair(cfg, lines[i], t.served[i]);
    if t.served[i].Scheduled? {
      S.ShutdownReturned(t.sched, [], t.served[i].c);
    }
  }

  // ---------- From the bytes on ----------

  /** A framed line as accept_line meets it; `parse` is the preflight and the JSON parser. An
      oversized line gets the answer of one over the limit. */
  function Received(frame: P.Frame, maxRequestBytes: nat, parse: seq<B.Byte> -> (Preflight, Option<Json>)): InputLine {
    match frame
    case Oversized => InputLine(maxRequestBytes + 1, Preflight.Malformed, None)
    case Complete(bytes) => InputLine(|bytes|, parse(bytes).0, parse(bytes).1)
  }

  /** The lines that run_stdio serves for an input stream. */
  function LinesServed(input: seq<B.Byte>, maxRequestBytes: nat, parse: seq<B.Byte> -> (Preflight, Option<Json>)): seq<InputLine> {
    var frames := P.Frames(input, B.Lines(input, 0), maxRequestBytes);
    seq(|frames|, i requires 0 <= i < |frames| => Received(frames[i], maxRequestBytes, parse))
  }

  lemma {:induction false} FrameAt(input: seq<B.Byte>, lines: seq<B.Line>, maxRequestBytes: nat, i: nat)
    requires B.InFile(input, lines) && i < |lines|
    ensures |P.Frames(input, lines, maxRequestBytes)| == |lines|
    ensures P.Frames(input, lines, maxRequestBytes)[i] == P.FrameOf(B.Text(input, lines[i]), maxRequestBytes)
  {
    if |lines| > 1 {
      FrameAt(input, lines[1..], maxRequestBytes, if i > 0 then i - 1 else 0);
    }
  }

  /** For every stream of bytes: the line that a request stands in is answered exactly once, or was a
      call that finished as cancelled; one over the limit is answered once, with an error under null. */
  lemma StreamAnswered(cfg: Config, input: seq<B.Byte>, parse: seq<B.Byte> -> (Preflight, Option<Json>), s: Sys, es: seq<SysEvent>, i: nat)
    requires var lines := LinesServed(input, cfg.maxRequestBytes, parse);
             AdmitsBareError(cfg) && Init(s) && IsRun(cfg, lines, s, es) &&
             After(cfg, lines, s, es).pc.Closing? && After(cfg, lines, s, es).sched.joined
    requires i < |B.Lines(input, 0)|
    ensures var lines, text := LinesServed(input, cfg.maxRequestBytes, parse), B.Text(input, B.Lines(input, 0)[i]);
            var t := After(cfg, lines, s, es);
            && |t.served| == |lines| == |B.Lines(input, 0)|
            && (|text| > cfg.maxRequestBytes ==> !P.IsRequest(cfg, lines[i]) && Answers(t.output, i) == 1)
            && (|text| <= cfg.maxRequestBytes ==> lines[i] == Received(P.Complete(B.DropCarriageReturn(text)), cfg.maxRequestBytes, parse))
            && (P.IsRequest(cfg, lines[i]) ==>
                  if t.served[i].Scheduled? && t.served[i].c < |t.sched.life| && t.sched.life[t.served[i].c].phase.Cancelled?
                  then Answers(t.output, i) == 0 else Answers(t.output, i) == 1)
  {
    hide B.Lines, P.Frames, IsRun, After, Init, AdmitsBareError, Answers;
    var lines := LinesServed(input, cfg.maxRequestBytes, parse);
    FrameAt(input, B.Lines(input, 0), cfg.maxRequestBytes, i);
    EveryRequestAnswered(cfg, lines, s, es, i);
  }

  // ---------- Why a request may go unanswered ----------

  /** The line is a cancellation notice for the calls with this key, in whatever state. */
  ghost predicate Cancels(cfg: Config, line: InputLine, key: string) {
    exists state :: Accept(cfg, line, state).0.Cancellation? && KeyOf(Accept(cfg, line, state).0.requestId) == key
  }

  /** A call carries the key of its request, and is flagged only after a later notice for that key. */
  ghost predicate FlagOk(cfg: Config, lines: seq<InputLine>, record: CallRecord, control: M.Control, next: nat)
    requires next <= |lines|
  {
    control.key == KeyOf(record.id) &&
    (control.cancelled ==> exists k :: record.line < k < next && Cancels(cfg, lines[k], control.key))
  }

  ghost predicate FlagsOk(cfg: Config, lines: seq<InputLine>, s: Sys) {
    s.next <= |lines| && |s.calls| == |s.sched.sh.controls| &&
    forall c :: 0 <= c < |s.calls| ==> FlagOk(cfg, lines, s.calls[c], s.sched.sh.controls[c], s.next)
  }

  lemma ControlsStay(s: M.State, e: M.Event)
    requires M.Enabled(s, e) && (IsInternal(e) || e.Launch? || e.LaunchFail? || e.CallbackEnd? || e.ShutdownBegin?)
    ensures M.Apply(s, e).sh.controls == s.sh.controls
  {
  }

  // Moving on to later lines keeps the flags explained.
  lemma FlagsMove(cfg: Config, lines: seq<InputLine>, s: Sys, t: Sys)
    requires FlagsOk(cfg, lines, s) && t.calls == s.calls && t.sched.sh.controls == s.sched.sh.controls
    requires s.next <= t.next <= |lines|
    ensures FlagsOk(cfg, lines, t)
  {
    hide Cancels;
    forall c | 0 <= c < |t.calls| ensures FlagOk(cfg, lines, t.calls[c], t.sched.sh.controls[c], t.next) {
      assert FlagOk(cfg, lines, s.calls[c], s.sched.sh.controls[c], s.next);
    }
  }

  lemma NoticeFlags(cfg: Config, lines: seq<InputLine>, s: Sys, t: Sys, key: string)
    requires FlagsOk(cfg, lines, s) && I.Inv(s.sched) && ServingOk(lines, s) && s.pc.Reading? && s.next < |lines|
    requires Cancels(cfg, lines[s.next], key) && t.calls == s.calls && t.next == s.next + 1
    requires t.sched.sh.controls == M.Cancel(s.sched.sh, key).0.controls
    ensures FlagsOk(cfg, lines, t)
  {
    hide Cancels, I.CallsOk, I.WorkersOk, I.CountsOk, I.StopOk, I.WakeOk, I.ReadyOk;
    forall c | 0 <= c < |t.calls| ensures FlagOk(cfg, lines, t.calls[c], t.sched.sh.controls[c], t.next) {
      assert FlagOk(cfg, lines, s.calls[c], s.sched.sh.controls[c], s.next);
      assert CallOk(s, c);
      if t.sched.sh.controls[c] != s.sched.sh.controls[c] {
        assert t.sched.sh.controls[c].key == key;
        assert t.calls[c].line < s.next < t.next && Cancels(cfg, lines[s.next], key);
      }
    }
  }

  lemma SubmitFlags(cfg: Config, lines: seq<InputLine>, s: Sys, t: Sys, id: Json, deadline: nat)
    requires FlagsOk(cfg, lines, s) && s.next <= t.next <= |lines|
    requires var (sh, status) := M.Admit(s.sched.sh, s.sched.limit, KeyOf(id), deadline);
             && t.sched.sh == sh
             && t.calls == if status.Accepted? then s.calls + [CallRecord(s.next, id)] else s.calls
    ensures FlagsOk(cfg, lines, t)
  {
    hide Cancels;
    forall c | 0 <= c < |t.calls| ensures FlagOk(cfg, lines, t.calls[c], t.sched.sh.controls[c], t.next) {
      if c < |s.calls| {
        assert FlagOk(cfg, lines, s.calls[c], s.sched.sh.controls[c], s.next);
      }
    }
  }

  lemma ServeFlags(cfg: Config, lines: seq<InputLine>, s: Sys, deadline: nat)
    requires SysInv(cfg, lines, s) && FlagsOk(cfg, lines, s) && s.pc.Reading? && s.next < |lines|
    ensures FlagsOk(cfg, lines, ServeStep(cfg, lines[s.next], s, deadline))
  {
    hide Accept, I.Inv, OutputOk, FairOk, IdsOk, FlagsOk, ServingOk;
    var t := ServeStep(cfg, lines[s.next], s, deadline);
    match Accept(cfg, lines[s.next], s.state).0
    case Immediate(_) => FlagsMove(cfg, lines, s, t);
    case Cancellation(id) => NoticeFlags(cfg, lines, s, t, KeyOf(id));
    case Call(call) => SubmitFlags(cfg, lines, s, t, call.requestId, deadline);
  }

  lemma StepFlags(cfg: Config, lines: seq<InputLine>, s: Sys, e: SysEvent)
    requires SysInv(cfg, lines, s) && FlagsOk(cfg, lines, s) && Enabled(lines, s, e)
    ensures FlagsOk(cfg, lines, Apply(cfg, lines, s, e))
  {
    hide I.Inv, OutputOk, FairOk, IdsOk, FlagsOk, ServeStep, M.Enabled, M.Apply, ToolResponse;
    var t := Apply(cfg, lines, s, e);
    match e
    case ServeLine(deadline) => ServeFlags(cfg, lines, s, deadline);
    case LaunchReturns => ControlsStay(s.sched, M.Event.Launch(s.pc.c)); FlagsMove(cfg, lines, s, t);
    case LaunchThrows => ControlsStay(s.sched, M.LaunchFail(s.pc.c)); FlagsMove(cfg, lines, s, t);
    case Internal(e) => ControlsStay(s.sched, e); FlagsMove(cfg, lines, s, t);
    case CompletionWritten(w, _) => ControlsStay(s.sched, M.CallbackEnd(w)); FlagsMove(cfg, lines, s, t);
    case EndOfInput => ControlsStay(s.sched, M.ShutdownBegin); FlagsMove(cfg, lines, s, t);
  }

  lemma {:induction false} RunFlags(cfg: Config, lines: seq<InputLine>, s: Sys, es: seq<SysEvent>)
    requires AdmitsBareError(cfg) && SysInv(cfg, lines, s) && FlagsOk(cfg, lines, s) && IsRun(cfg, lines, s, es)
    ensures FlagsOk(cfg, lines, After(cfg, lines, s, es))
    decreases |es|
  {
    hide SysInv, Enabled, Apply, FlagsOk, AdmitsBareError;
    if es != [] {
      StepKeeps(cfg, lines, s, es[0]);
      StepFlags(cfg, lines, s, es[0]);
      RunFlags(cfg, lines, Apply(cfg, lines, s, es[0]), es[1..]);
    }
  }

  /** A request that is left without an answer at the end was cancelled by the client itself: a
      later line is a cancellation notice for the same request id. */
  lemma UnansweredWasCancelled(cfg: Config, lines: seq<InputLine>, s: Sys, es: seq<SysEvent>, i: nat) returns (k: nat)
    requires AdmitsBareError(cfg) && Init(s) && IsRun(cfg, lines, s, es) && i < |lines| && P.IsRequest(cfg, lines[i])
    requires var t := After(cfg, lines, s, es); t.pc.Closing? && t.sched.joined && Answers(t.output, i) != 1
    ensures i < k < |lines| && Cancels(cfg, lines[k], KeyOf(P.RequestId(lines[i])))
  {
    hide Cancels;
    EveryRequestAnswered(cfg, lines, s, es, i);
    InitInv(cfg, lines, s);
    RunKeeps(cfg, lines, s, es);
    RunFlags(cfg, lines, s, es);
    var t := After(cfg, lines, s, es);
    var c := t.served[i].c;
    assert LineOk(t, i);
    assert I.CallOk(t.sched.sh, t.sched.life[c], t.sched.workers, c);
    assert FlagOk(cfg, lines, t.calls[c], t.sched.sh.controls[c], t.next);
    k :| t.calls[c].line < k < t.next && Cancels(cfg, lines[k], t.sched.sh.controls[c].key);
  }

  // Equal keys name equal ids: the notice is for this request.
  lemma SameRequest(a: Json, b: Json)
    requires IsValidId(a) && IsValidId(b)
    ensures KeyOf(a) == KeyOf(b) <==> (a == b || (a.Int? && b.UInt? && a.i == b.u) || (a.UInt? && b.Int? && a.u == b.i))
  {
    var x := match a case Str(s) => K.Text(s) case Int(i) => K.Integer(i) case UInt(u) => K.Unsigned(u) case _ => K.Id.Null;
    var y := match b case Str(s) => K.Text(s) case Int(i) => K.Integer(i) case UInt(u) => K.Unsigned(u) case _ => K.Id.Null;
    K.KeyIdentifies(x, y);
  }
}
