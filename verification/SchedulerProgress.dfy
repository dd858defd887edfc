/** The scheduler cannot get stuck, and a drain ends: every step of work uses up a finite measure,
    and while any is left some step of work is possible. */
module SchedulerProgress {
  import opened SchedulerModel
  import opened SchedulerInvariant
  import opened SchedulerSafety

  // ---------- The measure ----------

  function CallWeight(l: Life): nat {
    match l.phase
    case Launching => 10
    case Queued => 7
    case _ => 0
  }

  function WorkerWeight(w: Worker): nat {
    match w
    case Checking => 1
    case Calling(_) => 2
    case Finished(_, _) => 4
    case Executed(_, _, _) => 5
    case Executing(_) => 6
    case Resumed(_) => 7
    case _ => 0
  }

  function ShutdownWeight(d: Shutdown, workers: nat): nat {
    match d
    case NotRunning => 0
    case Joining => 1
    case Notifying => workers + 2
    case DrainAsleep => workers + 3
    case Draining => workers + 4
  }

  function CallSum(life: seq<Life>): nat {
    if life == [] then 0 else CallSum(life[..|life| - 1]) + CallWeight(life[|life| - 1])
  }

  function WorkerSum(workers: seq<Worker>): nat {
    if workers == [] then 0 else WorkerSum(workers[..|workers| - 1]) + WorkerWeight(workers[|workers| - 1])
  }

  function Measure(s: State): nat {
    CallSum(s.life) + WorkerSum(s.workers) + 2 * s.readyNotices + 2 * s.doneNotices
    + ShutdownWeight(s.shutdown, |s.workers|)
  }

  lemma {:induction false} CallSumUpdate(life: seq<Life>, c: nat, l: Life)
    requires c < |life|
    ensures CallSum(life[c := l]) + CallWeight(life[c]) == CallSum(life) + CallWeight(l)
  {
    var n := |life| - 1;
    if c == n {
      assert life[c := l][..n] == life[..n];
    } else {
      assert life[c := l][..n] == life[..n][c := l];
      CallSumUpdate(life[..n], c, l);
    }
  }

  lemma {:induction false} WorkerSumUpdate(workers: seq<Worker>, w: nat, x: Worker)
    requires w < |workers|
    ensures WorkerSum(workers[w := x]) + WorkerWeight(workers[w]) == WorkerSum(workers) + WorkerWeight(x)
  {
    var n := |workers| - 1;
    if w == n {
      assert workers[w := x][..n] == workers[..n];
    } else {
      assert workers[w := x][..n] == workers[..n][w := x];
      WorkerSumUpdate(workers[..n], w, x);
    }
  }

  lemma {:induction false} WakeAllSum(workers: seq<Worker>)
    ensures WorkerSum(WakeAll(workers)) <= WorkerSum(workers) + |workers|
  {
    if workers != [] {
      var n := |workers| - 1;
      assert WakeAll(workers)[..n] == WakeAll(workers[..n]);
      WakeAllSum(workers[..n]);
    }
  }

  // ---------- Work uses up the measure ----------

  /** The steps the scheduler's own threads take, an executor returning and a callback ending
      included; the rest comes from outside, from the clock, or is a spurious wake-up. */
  predicate IsWork(e: Event) {
    match e
    case Tick => false
    case Submit(_, _) => false
    case WakeSpuriously(_) => false
    case WakeDrainSpuriously => false
    case CancelCall(_) => false
    case StopAll => false
    case ShutdownOnWorker(_) => false
    case ShutdownBegin => false
    case _ => true
  }

  lemma WorkerWorkDecreases(s: State, e: Event)
    requires Inv(s) && Enabled(s, e)
    requires e.Inspect? || e.Return? || e.FinishCall? || e.FinishNotify? || e.CallbackEnd? || e.NotifyReady?
    ensures Measure(Apply(s, e)) < Measure(s)
  {
    hide CallSum, WorkerSum, CountsOk, StopOk, WakeOk, MapOk, ReadyOk;
    var s' := Apply(s, e);
    WorkerSumUpdate(s.workers, e.w, s'.workers[e.w]);
    if !e.NotifyReady? {
      var c := s.workers[e.w].c;
      assert WorkerOk(s.sh, s.life, s.workers[e.w], e.w);
      if e.FinishCall? || e.FinishNotify? || e.CallbackEnd? {
        CallSumUpdate(s.life, c, s'.life[c]);
      }
    }
  }

  lemma CheckDecreases(s: State, w: nat)
    requires Inv(s) && Enabled(s, Check(w))
    ensures Measure(CheckStep(s, w)) < Measure(s)
  {
    hide CallSum, WorkerSum, CountsOk, StopOk, WakeOk, MapOk;
    var s' := CheckStep(s, w);
    WorkerSumUpdate(s.workers, w, s'.workers[w]);
    if s.sh.ready != [] {
      var c := s.sh.ready[0];
      assert CallOk(s.sh, s.life[c], s.workers, c);
      CallSumUpdate(s.life, c, s'.life[c]);
    }
  }

  /** Every step of work strictly decreases the measure. */
  lemma WorkDecreases(s: State, e: Event)
    requires Inv(s) && Enabled(s, e) && IsWork(e)
    ensures Measure(Apply(s, e)) < Measure(s)
  {
    hide CallSum, WorkerSum, Inv, CheckStep;
    match e
    case Launch(c) => CallSumUpdate(s.life, c, Apply(s, e).life[c]);
    case LaunchFail(c) => CallSumUpdate(s.life, c, Apply(s, e).life[c]);
    case Check(w) => CheckDecreases(s, w);
    case NotifyAll => WakeAllSum(s.workers);
    case NotifyDone =>
    case DrainCheck =>
    case Join =>
    case _ => WorkerWorkDecreases(s, e);
  }

  /** Steps from outside that do not start a shutdown or wake a thread for nothing. */
  predicate IsQuiet(e: Event) {
    !IsWork(e) && !e.WakeSpuriously? && !e.WakeDrainSpuriously? && !e.ShutdownBegin?
  }

  // With admission closed, nothing from outside adds work, not even shutdown on every worker.
  lemma QuietKeepsMeasure(s: State, e: Event)
    requires Enabled(s, e) && IsQuiet(e) && !s.sh.accepting
    ensures Measure(Apply(s, e)) == Measure(s) && !Apply(s, e).sh.accepting
  {
    hide CallSum, WorkerSum;
  }

  lemma WorkKeepsClosed(s: State, e: Event)
    requires Enabled(s, e) && !s.sh.accepting
    ensures !Apply(s, e).sh.accepting
  {
  }

  function WorkSteps(es: seq<Event>): nat {
    if es == [] then 0 else (if IsWork(es[0]) then 1 else 0) + WorkSteps(es[1..])
  }

  /** What a step from outside can add to the work: a thread woken for nothing looks once more, and
      a shutdown drains, wakes every worker and joins. */
  function Adds(e: Event, workers: nat): nat {
    match e
    case WakeSpuriously(_) => 1
    case WakeDrainSpuriously => 1
    case ShutdownBegin => workers + 4
    case _ => 0
  }

  function Added(es: seq<Event>, workers: nat): nat {
    if es == [] then 0 else Adds(es[0], workers) + Added(es[1..], workers)
  }

  /** With admission closed, one step of any kind. */
  lemma StepAccounts(s: State, e: Event)
    requires Inv(s) && Enabled(s, e) && !s.sh.accepting
    ensures (if IsWork(e) then 1 else 0) + Measure(Apply(s, e)) <= Measure(s) + Adds(e, |s.workers|)
    ensures |Apply(s, e).workers| == |s.workers|
  {
    hide Inv, CallSum, WorkerSum;
    if IsWork(e) {
      WorkDecreases(s, e);
    } else if e.WakeSpuriously? {
      WorkerSumUpdate(s.workers, e.w, Checking);
    } else if !e.WakeDrainSpuriously? && !e.ShutdownBegin? {
      QuietKeepsMeasure(s, e);
    }
  }

  /** After admission has closed, every run, whatever comes from outside, takes at most as many steps
      of work as the measure and what the outside added allow: the drain ends. */
  lemma {:induction false} DrainEnds(s: State, es: seq<Event>)
    requires Inv(s) && !s.sh.accepting && IsRun(s, es)
    ensures WorkSteps(es) + Measure(After(s, es)) <= Measure(s) + Added(es, |s.workers|)
    decreases |es|
  {
    hide Inv, Enabled, Apply, Measure, IsWork, Adds;
    if es != [] {
      StepKeeps(s, es[0]);
      WorkKeepsClosed(s, es[0]);
      StepAccounts(s, es[0]);
      DrainEnds(Apply(s, es[0]), es[1..]);
    }
  }

  // ---------- No deadlock ----------

  ghost predicate CanWork(s: State) {
    exists e :: IsWork(e) && Enabled(s, e)
  }

  // A worker that is neither asleep nor gone has a step.
  lemma AwakeCanWork(s: State, w: nat)
    requires Inv(s) && w < |s.workers| && Awake(s.workers[w])
    ensures CanWork(s)
  {
    assert WorkerOk(s.sh, s.life, s.workers[w], w);
    var e := match s.workers[w]
      case Checking => Check(w)
      case Resumed(_) => Inspect(w)
      case Executing(_) => Return(w)
      case Executed(_, _, _) => FinishCall(w)
      case Finished(_, _) => FinishNotify(w)
      case Calling(_) => CallbackEnd(w)
      case Asleep => NotifyAll
      case Exited => NotifyAll;
    assert IsWork(e) && Enabled(s, e);
  }

  lemma NoticeCanWork(s: State)
    requires Inv(s) && (s.readyNotices > 0 || s.doneNotices > 0)
    ensures CanWork(s)
  {
    if s.doneNotices > 0 {
      assert IsWork(NotifyDone) && Enabled(s, NotifyDone);
    } else if AnyAsleep(s.workers) {
      var w :| 0 <= w < |s.workers| && s.workers[w].Asleep?;
      assert IsWork(NotifyReady(w)) && Enabled(s, NotifyReady(w));
    } else {
      assert IsWork(NotifyReady(0)) && Enabled(s, NotifyReady(0));
    }
  }

  // A call in flight is being launched, is queued with a worker or a notice for it, or is run.
  lemma LiveCanWork(s: State, c: CallId)
    requires Inv(s) && c < |s.life| && Live(s.life[c].phase)
    ensures CanWork(s)
  {
    assert CallOk(s.sh, s.life[c], s.workers, c);
    if s.life[c].phase.Launching? {
      assert IsWork(Event.Launch(c)) && Enabled(s, Event.Launch(c));
    } else if s.life[c].phase.Active? {
      AwakeCanWork(s, s.life[c].phase.w);
    } else if s.readyNotices > 0 {
      NoticeCanWork(s);
    } else {
      var w :| 0 <= w < |s.workers| && Awake(s.workers[w]);
      AwakeCanWork(s, w);
    }
  }

  /** A shutdown that has begun and not returned always has a step of work to wait for. */
  lemma ShutdownCanWork(s: State)
    requires Inv(s) && !s.shutdown.NotRunning?
    ensures CanWork(s)
  {
    match s.shutdown
    case Draining => assert IsWork(DrainCheck) && Enabled(s, DrainCheck);
    case Notifying => assert IsWork(NotifyAll) && Enabled(s, NotifyAll);
    case DrainAsleep =>
      if s.sh.inFlight != map[] {
        var key :| key in s.sh.inFlight;
        var c := s.sh.inFlight[key];
        assert CallOk(s.sh, s.life[c], s.workers, c);
        LiveCanWork(s, c);
      } else if s.doneNotices > 0 {
        NoticeCanWork(s);
      } else {
        var w :| 0 <= w < |s.workers| && s.workers[w].Finished?;
        AwakeCanWork(s, w);
      }
    case Joining =>
      if AllExited(s.workers) {
        assert IsWork(Join) && Enabled(s, Join);
      } else {
        var w :| 0 <= w < |s.workers| && !s.workers[w].Exited?;
        AwakeCanWork(s, w);
      }
  }

  lemma {:induction false} PositiveCallSum(life: seq<Life>) returns (c: nat)
    requires CallSum(life) > 0
    ensures c < |life| && (life[c].phase.Launching? || life[c].phase.Queued?)
  {
    var n := |life| - 1;
    if CallWeight(life[n]) > 0 {
      c := n;
    } else {
      c := PositiveCallSum(life[..n]);
    }
  }

  lemma {:induction false} PositiveWorkerSum(workers: seq<Worker>) returns (w: nat)
    requires WorkerSum(workers) > 0
    ensures w < |workers| && Awake(workers[w])
  {
    var n := |workers| - 1;
    if WorkerWeight(workers[n]) > 0 {
      w := n;
    } else {
      w := PositiveWorkerSum(workers[..n]);
    }
  }

  /** No reachable state is stuck: while the measure is positive some step of work is enabled. */
  lemma NoDeadlock(s: State)
    requires Inv(s) && Measure(s) > 0
    ensures CanWork(s)
  {
    if s.readyNotices > 0 || s.doneNotices > 0 {
      NoticeCanWork(s);
    } else if !s.shutdown.NotRunning? {
      ShutdownCanWork(s);
    } else if WorkerSum(s.workers) > 0 {
      var w := PositiveWorkerSum(s.workers);
      AwakeCanWork(s, w);
    } else {
      var c := PositiveCallSum(s.life);
      LiveCanWork(s, c);
    }
  }

  /** A run after which no work is left has drained: nothing is in flight or queued, and no
      shutdown is still waiting. */
  lemma DrainedWhenIdle(s: State)
    requires Inv(s) && !CanWork(s)
    ensures s.sh.inFlight == map[] && s.sh.ready == [] && s.shutdown.NotRunning? && Measure(s) == 0
  {
    if Measure(s) > 0 {
      NoDeadlock(s);
    }
    if s.sh.inFlight != map[] {
      var key :| key in s.sh.inFlight;
      assert CallOk(s.sh, s.life[s.sh.inFlight[key]], s.workers, s.sh.inFlight[key]);
      LiveCanWork(s, s.sh.inFlight[key]);
    }
    ReadyFits(s);
  }

  // ---------- Shutdown returns ----------

  /** A shutdown from outside the workers has begun, and perhaps returned. */
  predicate Begun(s: State) {
    !s.shutdown.NotRunning? || s.joined
  }

  lemma {:induction false} BegunStays(s: State, es: seq<Event>)
    requires Begun(s) && IsRun(s, es)
    ensures Begun(After(s, es))
    decreases |es|
  {
    hide Enabled, Apply, Begun;
    if es != [] {
      BegunStep(s, es[0]);
      BegunStays(Apply(s, es[0]), es[1..]);
    }
  }

  lemma BegunStep(s: State, e: Event)
    requires Begun(s) && Enabled(s, e)
    ensures Begun(Apply(s, e))
  {
  }

  /** A run that has begun a shutdown and has no step of work left has returned from it, with nothing
      in flight; and it got there within the measure. */
  lemma ShutdownReturns(s: State, before: seq<Event>, later: seq<Event>)
    requires Init(s) && IsRun(s, before + [ShutdownBegin] + later)
    requires !CanWork(After(s, before + [ShutdownBegin] + later))
    ensures var t := After(s, before + [ShutdownBegin] + later);
            t.joined && t.sh.inFlight == map[] && t.sh.ready == [] && AllExited(t.workers)
    ensures IsRun(s, before + [ShutdownBegin])
    ensures var begun := After(s, before + [ShutdownBegin]);
            WorkSteps(later) <= Measure(begun) + Added(later, |begun.workers|)
  {
    hide Enabled, Apply, CanWork, Measure;
    RunSplit(s, before + [ShutdownBegin], later);
    RunSplit(s, before, [ShutdownBegin]);
    Reachable(s, before);
    var at, begun := After(s, before), After(s, before + [ShutdownBegin]);
    BeginsShutdown(at);
    RunKeeps(begun, later);
    BegunStays(begun, later);
    DrainEnds(begun, later);
    DrainedWhenIdle(After(begun, later));
  }

  lemma BeginsShutdown(s: State)
    requires Inv(s) && IsRun(s, [ShutdownBegin])
    ensures var t := After(s, [ShutdownBegin]); Inv(t) && Begun(t) && !t.sh.accepting
  {
    StepKeeps(s, ShutdownBegin);
    assert [ShutdownBegin][1..] == [];
    assert After(s, [ShutdownBegin]) == Apply(s, ShutdownBegin);
  }
}
