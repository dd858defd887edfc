/** run_stdio comes to its end: the serving thread and the scheduler together use up a finite measure,
    and until the shutdown has returned some step is possible. */
module ServerProgress {
  import opened ServerModel
  import opened ServerSystem
  import G = SchedulerProgress

  /** The steps of the server's own threads. */
  predicate IsWork(e: SysEvent) {
    match e
    case Internal(e) => G.IsWork(e)
    case _ => true
  }

  /** Shutdown is begun by the end of the input and by nothing else. */
  ghost predicate ClosingOk(s: Sys) {
    if s.pc.Closing? then G.Begun(s.sched) && !s.sched.sh.accepting
    else s.sched.shutdown.NotRunning? && !s.sched.joined
  }

  // A scheduler step other than the start of a shutdown.
  lemma OtherStep(s: M.State, e: M.Event)
    requires M.Enabled(s, e) && !e.ShutdownBegin?
    ensures G.Begun(s) <==> G.Begun(M.Apply(s, e))
    ensures !s.sh.accepting ==> !M.Apply(s, e).sh.accepting
    ensures |M.Apply(s, e).workers| == |s.workers|
  {
  }

  lemma ServeClosing(cfg: Config, lines: seq<InputLine>, s: Sys, deadline: nat)
    requires ClosingOk(s) && s.pc.Reading? && s.next < |lines|
    ensures ClosingOk(ServeStep(cfg, lines[s.next], s, deadline))
  {
    hide Accept, M.Apply, P.Wanted, ToolResponse, M.Admit;
    match Accept(cfg, lines[s.next], s.state).0
    case Immediate(_) =>
    case Cancellation(id) => OtherStep(s.sched, M.CancelCall(KeyOf(id)));
    case Call(call) => OtherStep(s.sched, M.Submit(KeyOf(call.requestId), deadline));
  }

  lemma StepClosing(cfg: Config, lines: seq<InputLine>, s: Sys, e: SysEvent)
    requires ClosingOk(s) && Enabled(lines, s, e)
    ensures ClosingOk(Apply(cfg, lines, s, e))
  {
    hide ServeStep, M.Apply, ToolResponse;
    match e
    case ServeLine(deadline) => ServeClosing(cfg, lines, s, deadline);
    case LaunchReturns => OtherStep(s.sched, M.Event.Launch(s.pc.c));
    case LaunchThrows => OtherStep(s.sched, M.LaunchFail(s.pc.c));
    case Internal(e) => OtherStep(s.sched, e);
    case CompletionWritten(w, _) => OtherStep(s.sched, M.CallbackEnd(w));
    case EndOfInput => Begins(s.sched);
  }

  lemma Begins(s: M.State)
    requires M.Enabled(s, M.ShutdownBegin) && !s.joined
    ensures G.Begun(M.Apply(s, M.ShutdownBegin)) && !M.Apply(s, M.ShutdownBegin).sh.accepting
  {
  }

  lemma {:induction false} RunClosing(cfg: Config, lines: seq<InputLine>, s: Sys, es: seq<SysEvent>)
    requires ClosingOk(s) && IsRun(cfg, lines, s, es)
    ensures ClosingOk(After(cfg, lines, s, es))
    decreases |es|
  {
    hide ClosingOk, Enabled, Apply;
    if es != [] {
      StepClosing(cfg, lines, s, es[0]);
      RunClosing(cfg, lines, Apply(cfg, lines, s, es[0]), es[1..]);
    }
  }

  // ---------- Never stuck ----------

  ghost predicate CanWork(lines: seq<InputLine>, s: Sys) {
    exists e :: IsWork(e) && Enabled(lines, s, e)
  }

  lemma NoneLaunching(cfg: Config, lines: seq<InputLine>, s: Sys)
    requires SysInv(cfg, lines, s) && s.pc.Closing?
    ensures |s.calls| == |s.sched.life| && forall c :: 0 <= c < |s.sched.life| ==> !s.sched.life[c].phase.Launching?
  {
    hide I.Inv, OutputOk, FairOk, IdsOk;
    forall c | 0 <= c < |s.sched.life| ensures !s.sched.life[c].phase.Launching? {
      assert CallOk(s, c);
    }
  }

  // After the input, a step that the scheduler can take the server can take.
  lemma SchedulerCanWork(cfg: Config, lines: seq<InputLine>, s: Sys, e: M.Event)
    requires SysInv(cfg, lines, s) && s.pc.Closing? && G.IsWork(e) && M.Enabled(s.sched, e)
    ensures CanWork(lines, s)
  {
    hide I.Inv, SysInv;
    NoneLaunching(cfg, lines, s);
    if e.CallbackEnd? {
      assert IsWork(CompletionWritten(e.w, Null)) && Enabled(lines, s, CompletionWritten(e.w, Null));
    } else {
      assert IsWork(Internal(e)) && Enabled(lines, s, Internal(e));
    }
  }

  /** Until its shutdown has returned, the server always has a step of work. */
  lemma NeverStuck(cfg: Config, lines: seq<InputLine>, s: Sys)
    requires SysInv(cfg, lines, s) && ClosingOk(s) && !(s.pc.Closing? && s.sched.joined)
    ensures CanWork(lines, s)
  {
    hide I.Inv, OutputOk, FairOk, IdsOk;
    match s.pc
    case Reading =>
      if s.next < |lines| {
        assert IsWork(ServeLine(0)) && Enabled(lines, s, ServeLine(0));
      } else {
        assert IsWork(EndOfInput) && Enabled(lines, s, EndOfInput);
      }
    case Submitted(c) => assert IsWork(LaunchReturns) && Enabled(lines, s, LaunchReturns);
    case Closing =>
      G.ShutdownCanWork(s.sched);
      var e :| G.IsWork(e) && M.Enabled(s.sched, e);
      SchedulerCanWork(cfg, lines, s, e);
  }

  // ---------- Finitely many steps ----------

  /** Work left to the serving thread: lines to serve, a launch to return from, the input to end. */
  function ServingWeight(lines: seq<InputLine>, s: Sys): int {
    match s.pc
    case Reading => 12 * (|lines| - s.next) + |s.sched.workers| + 5
    case Submitted(_) => 12 * (|lines| - s.next) - 11 + |s.sched.workers| + 5
    case Closing => 0
  }

  function Measure(lines: seq<InputLine>, s: Sys): int {
    ServingWeight(lines, s) + G.Measure(s.sched)
  }

  /** Spurious wake-ups are all that comes from outside. */
  function Adds(e: SysEvent): nat {
    if e.Internal? && (e.e.WakeSpuriously? || e.e.WakeDrainSpuriously?) then 1 else 0
  }

  function WorkSteps(es: seq<SysEvent>): nat {
    if es == [] then 0 else (if IsWork(es[0]) then 1 else 0) + WorkSteps(es[1..])
  }

  function Added(es: seq<SysEvent>): nat {
    if es == [] then 0 else Adds(es[0]) + Added(es[1..])
  }

  lemma SubmitMeasure(s: M.State, key: string, deadline: nat)
    ensures var t := M.Apply(s, M.Submit(key, deadline));
            && |t.workers| == |s.workers|
            && G.Measure(t) <= G.Measure(s) + if M.Admit(s.sh, s.limit, key, deadline).1.Accepted? then 10 else 0
  {
    hide G.WorkerSum;
    var life := s.life + [M.Life(M.Launching, 0, 0)];
    assert life[..|life| - 1] == s.life;
  }

  lemma CancelMeasure(s: M.State, key: string)
    ensures var t := M.Apply(s, M.CancelCall(key)); |t.workers| == |s.workers| && G.Measure(t) == G.Measure(s)
  {
    hide G.WorkerSum, G.CallSum;
  }

  lemma ServeAccounts(cfg: Config, lines: seq<InputLine>, s: Sys, deadline: nat)
    requires s.pc.Reading? && s.next < |lines|
    ensures 1 + Measure(lines, ServeStep(cfg, lines[s.next], s, deadline)) <= Measure(lines, s)
  {
    hide Accept, M.Apply, P.Wanted, ToolResponse, M.Admit, G.Measure;
    match Accept(cfg, lines[s.next], s.state).0
    case Immediate(_) =>
    case Cancellation(id) => CancelMeasure(s.sched, KeyOf(id));
    case Call(call) => SubmitMeasure(s.sched, KeyOf(call.requestId), deadline);
  }

  lemma WorkAccounts(s: M.State, e: M.Event)
    requires I.Inv(s) && M.Enabled(s, e) && G.IsWork(e)
    ensures G.Measure(M.Apply(s, e)) < G.Measure(s) && |M.Apply(s, e).workers| == |s.workers|
  {
    hide I.Inv, G.Measure;
    G.WorkDecreases(s, e);
  }

  lemma IdleAccounts(s: M.State, e: M.Event)
    requires M.Enabled(s, e) && IsInternal(e) && !G.IsWork(e)
    ensures G.Measure(M.Apply(s, e)) <= G.Measure(s) + Adds(Internal(e)) && |M.Apply(s, e).workers| == |s.workers|
  {
    hide G.CallSum, G.WorkerSum;
    if e.WakeSpuriously? {
      G.WorkerSumUpdate(s.workers, e.w, M.Checking);
    }
  }

  lemma BeginAccounts(s: M.State)
    requires M.Enabled(s, M.ShutdownBegin)
    ensures G.Measure(M.Apply(s, M.ShutdownBegin)) <= G.Measure(s) + |s.workers| + 4
  {
    hide G.CallSum, G.WorkerSum;
  }

  /** Every step of work uses up the measure, and nothing but a spurious wake-up adds to it. */
  lemma StepAccounts(cfg: Config, lines: seq<InputLine>, s: Sys, e: SysEvent)
    requires SysInv(cfg, lines, s) && Enabled(lines, s, e)
    ensures (if IsWork(e) then 1 else 0) + Measure(lines, Apply(cfg, lines, s, e)) <= Measure(lines, s) + Adds(e)
  {
    hide SysInv, I.Inv, ServeStep, M.Apply, ToolResponse, G.Measure;
    SysInvSched(cfg, lines, s);
    match e
    case ServeLine(deadline) => ServeAccounts(cfg, lines, s, deadline);
    case LaunchReturns => WorkAccounts(s.sched, M.Event.Launch(s.pc.c));
    case LaunchThrows => WorkAccounts(s.sched, M.LaunchFail(s.pc.c));
    case Internal(e) => if G.IsWork(e) { WorkAccounts(s.sched, e); } else { IdleAccounts(s.sched, e); }
    case CompletionWritten(w, _) => WorkAccounts(s.sched, M.CallbackEnd(w));
    case EndOfInput => BeginAccounts(s.sched);
  }

  lemma MeasureIsNat(cfg: Config, lines: seq<InputLine>, s: Sys)
    requires SysInv(cfg, lines, s)
    ensures Measure(lines, s) >= 0
  {
    hide I.Inv, OutputOk, FairOk, IdsOk, G.Measure;
  }

  lemma {:induction false} RunAccounts(cfg: Config, lines: seq<InputLine>, s: Sys, es: seq<SysEvent>)
    requires AdmitsBareError(cfg) && SysInv(cfg, lines, s) && IsRun(cfg, lines, s, es)
    ensures WorkSteps(es) + Measure(lines, After(cfg, lines, s, es)) <= Measure(lines, s) + Added(es)
    decreases |es|
  {
    hide SysInv, Enabled, Apply, Measure, AdmitsBareError, IsWork, Adds;
    if es != [] {
      StepAccounts(cfg, lines, s, es[0]);
      StepKeeps(cfg, lines, s, es[0]);
      RunAccounts(cfg, lines, Apply(cfg, lines, s, es[0]), es[1..]);
    }
  }

  /** Every run of the server takes boundedly many steps of work, twelve for each line and a constant
      for each worker, not counting spurious wake-ups; and when no step of work is left, the input is
      at its end, the shutdown has returned, and every request has its answer, or was a call that
      finished as cancelled. */
  lemma ServerEnds(cfg: Config, lines: seq<InputLine>, s: Sys, es: seq<SysEvent>, i: nat)
    requires AdmitsBareError(cfg) && Init(s) && IsRun(cfg, lines, s, es)
    ensures WorkSteps(es) <= Measure(lines, s) + Added(es)
    ensures var t := After(cfg, lines, s, es);
            !CanWork(lines, t) ==>
              && t.pc.Closing? && t.sched.joined && |t.served| == |lines|
              && (i < |lines| && P.IsRequest(cfg, lines[i]) ==>
                    if t.served[i].Scheduled? && t.served[i].c < |t.sched.life| && t.sched.life[t.served[i].c].phase.Cancelled?
                    then Answers(t.output, i) == 0 else Answers(t.output, i) == 1)
  {
    hide SysInv, IsRun, After, CanWork, Measure, AdmitsBareError, Answers;
    InitInv(cfg, lines, s);
    RunKeeps(cfg, lines, s, es);
    RunAccounts(cfg, lines, s, es);
    RunClosing(cfg, lines, s, es);
    var t := After(cfg, lines, s, es);
    MeasureIsNat(cfg, lines, t);
    if !CanWork(lines, t) {
      if !(t.pc.Closing? && t.sched.joined) {
        NeverStuck(cfg, lines, t);
      } else if i < |lines| {
        EveryRequestAnswered(cfg, lines, s, es, i);
      } else {
        AllServed(cfg, lines, t);
      }
    }
  }

  lemma AllServed(cfg: Config, lines: seq<InputLine>, s: Sys)
    requires SysInv(cfg, lines, s) && s.pc.Closing?
    ensures |s.served| == |lines|
  {
  }
}
