/** What becomes of a call between its resumption and its end: when it is executed, when it is timed
    out instead, and what the counters say about it, over every run. */
module SchedulerExecution {
  import opened Options
  import opened SchedulerModel
  import opened SchedulerInvariant
  import opened SchedulerSafety

  // ---------- Watching a run ----------

  /** What a worker saw when it looked at a call: the time, and whether the call was cancelled. */
  datatype Look = Look(at: nat, flagged: bool)

  /** A call as seen from outside: the look after its resumption, how often its executor was entered,
      and the look after the executor returned. */
  datatype Trace = Trace(resumed: Option<Look>, runs: nat, returned: Option<Look>)

  const UNTOUCHED := Trace(None, 0, None)

  function LookAt(s: State, c: CallId): Look
    requires c < |s.sh.controls|
  {
    Look(s.now, s.sh.controls[c].cancelled)
  }

  /** The traces after a step; it is told by the states before and after, and not by what a step does. */
  function Watch(s: State, h: seq<Trace>, e: Event): seq<Trace>
    requires Enabled(s, e)
  {
    var t := Apply(s, e);
    match e
    case Submit(_, _) => if |t.life| > |h| then h + [UNTOUCHED] else h
    case Inspect(w) =>
      var c := s.workers[w].c;
      if c >= |h| then h
      else h[c := h[c].(resumed := Some(LookAt(s, c)), runs := h[c].runs + if w < |t.workers| && t.workers[w].Executing? then 1 else 0)]
    case Return(w) =>
      var c := s.workers[w].c;
      if c >= |h| then h else h[c := h[c].(returned := Some(LookAt(s, c)))]
    case _ => h
  }

  ghost function Watched(s: State, h: seq<Trace>, es: seq<Event>): seq<Trace>
    requires IsRun(s, es)
    decreases |es|
  {
    if es == [] then h else Watched(Apply(s, es[0]), Watch(s, h, es[0]), es[1..])
  }

  // ---------- What is due ----------

  /** A call is executed if it was neither cancelled nor late when its worker looked, and only then. */
  predicate RunsAsDue(x: Trace, deadline: nat) {
    x.resumed.Some? && x.runs == (if !x.resumed.value.flagged && x.resumed.value.at < deadline then 1 else 0)
  }

  /** The last look at an uncancelled call was at or after its deadline. */
  predicate Late(x: Trace, deadline: nat) {
    var last := if x.returned.Some? then x.returned else x.resumed;
    last.Some? && !last.value.flagged && last.value.at >= deadline
  }

  /** A call that has left its executor, or never entered it. */
  predicate Judged(x: Trace, deadline: nat) {
    RunsAsDue(x, deadline) && (x.returned.Some? <==> x.runs == 1)
  }

  predicate Dated(x: Trace, now: nat) {
    (x.resumed.Some? ==> x.resumed.value.at <= now) &&
    (x.returned.Some? ==> x.resumed.Some? && x.resumed.value.at <= x.returned.value.at <= now)
  }

  /** A call that was seen cancelled is. */
  predicate FlaggedFor(x: Trace, control: Control) {
    (x.resumed.Some? && x.resumed.value.flagged) || (x.returned.Some? && x.returned.value.flagged) ==> control.cancelled
  }

  /** The trace fits the phase of its call, and what its worker holds. */
  ghost predicate TraceOk(s: State, x: Trace, c: CallId)
    requires c < |s.life| == |s.sh.controls|
  {
    var deadline := s.sh.controls[c].deadline;
    Dated(x, s.now) && FlaggedFor(x, s.sh.controls[c]) &&
    match s.life[c].phase
    case Active(w) =>
      (match if w < |s.workers| then s.workers[w] else Checking
       case Executing(_) => RunsAsDue(x, deadline) && x.runs == 1 && x.returned.None?
       case Executed(_, _, timedOut) => Judged(x, deadline) && timedOut == Late(x, deadline)
       case _ => x == UNTOUCHED)
    case Delivering(_) => Judged(x, deadline)
    case Delivered => Judged(x, deadline)
    case Cancelled => Judged(x, deadline)
    case _ => x == UNTOUCHED
  }

  ghost predicate TracesOk(s: State, h: seq<Trace>) {
    |h| == |s.life| == |s.sh.controls| && forall c :: 0 <= c < |h| ==> TraceOk(s, h[c], c)
  }

  /** How many calls completed late. */
  function LateCalls(life: seq<Life>, controls: seq<Control>, h: seq<Trace>): nat
    requires |life| == |controls| == |h|
  {
    if life == [] then 0
    else
      var n := |life| - 1;
      LateCalls(life[..n], controls[..n], h[..n]) + LateCall(life[n], controls[n], h[n])
  }

  function LateCall(l: Life, control: Control, x: Trace): nat {
    if FateOf(l.phase) == Complete && Late(x, control.deadline) then 1 else 0
  }

  // ---------- Every step keeps the traces in order ----------

  /** The call is as it was, and so is the worker that holds it. */
  ghost predicate Untouched(s: State, t: State, c: CallId) {
    c < |s.life| == |s.sh.controls| && c < |t.life| == |t.sh.controls| && s.now <= t.now &&
    t.life[c].phase == s.life[c].phase && t.sh.controls[c].deadline == s.sh.controls[c].deadline &&
    (s.sh.controls[c].cancelled ==> t.sh.controls[c].cancelled) &&
    (s.life[c].phase.Active? ==> s.life[c].phase.w < |s.workers| == |t.workers| && t.workers[s.life[c].phase.w] == s.workers[s.life[c].phase.w])
  }

  lemma UntouchedKeeps(s: State, t: State, x: Trace, c: CallId)
    requires Untouched(s, t, c) && TraceOk(s, x, c)
    ensures TraceOk(t, x, c)
  {
  }

  /** A step that only flags calls, moves workers that hold none, or does neither. */
  predicate IsAside(s: State, e: Event) {
    e.Tick? || e.NotifyReady? || e.NotifyDone? || e.WakeSpuriously? || e.WakeDrainSpuriously? || e.CancelCall? || e.StopAll? ||
    e.ShutdownOnWorker? || e.ShutdownBegin? || e.DrainCheck? || e.NotifyAll? || e.Join? || (e.Check? && s.sh.ready == [])
  }

  lemma AsideUntouched(s: State, e: Event, c: CallId)
    requires Inv(s) && Enabled(s, e) && IsAside(s, e) && c < |s.life|
    ensures Untouched(s, Apply(s, e), c) && |Apply(s, e).life| == |s.life| && Apply(s, e).sh.stats == s.sh.stats
  {
    hide MapOk, ReadyOk, WorkersOk, CountsOk, StopOk, WakeOk;
    assert CallOk(s.sh, s.life[c], s.workers, c);
  }

  // A worker that moves on with a call in its hands touches no other call.
  lemma OthersUntouched(s: State, t: State, w: nat, c: CallId, d: CallId)
    requires Inv(s) && w < |s.workers| && c < |s.life| && d < |s.life| && d != c
    requires |t.workers| == |s.workers| && (forall v :: 0 <= v < |s.workers| && v != w ==> t.workers[v] == s.workers[v])
    requires Empty(s.workers[w]) || s.workers[w].c == c
    requires |t.life| == |s.life| && t.life == s.life[c := t.life[c]] && t.sh.controls == s.sh.controls && t.now == s.now
    ensures Untouched(s, t, d)
  {
    hide MapOk, ReadyOk, WorkersOk, CountsOk, StopOk, WakeOk;
    assert CallOk(s.sh, s.life[d], s.workers, d);
  }

  lemma InspectTrace(s: State, x: Trace, w: nat)
    requires Inv(s) && Enabled(s, Inspect(w)) && |s.life| == |s.sh.controls| && s.workers[w].c < |s.life| && TraceOk(s, x, s.workers[w].c)
    ensures var t, c := Apply(s, Inspect(w)), s.workers[w].c;
            TraceOk(t, x.(resumed := Some(LookAt(s, c)), runs := x.runs + if t.workers[w].Executing? then 1 else 0), c)
  {
    hide MapOk, ReadyOk, CallsOk, CountsOk, StopOk, WakeOk;
    assert WorkerOk(s.sh, s.life, s.workers[w], w);
  }

  lemma ReturnTrace(s: State, x: Trace, w: nat)
    requires Inv(s) && Enabled(s, Return(w)) && |s.life| == |s.sh.controls| && s.workers[w].c < |s.life| && TraceOk(s, x, s.workers[w].c)
    ensures TraceOk(Apply(s, Return(w)), x.(returned := Some(LookAt(s, s.workers[w].c))), s.workers[w].c)
  {
    hide MapOk, ReadyOk, CallsOk, CountsOk, StopOk, WakeOk;
    assert WorkerOk(s.sh, s.life, s.workers[w], w);
  }

  lemma FinishTrace(s: State, x: Trace, w: nat)
    requires Inv(s) && Enabled(s, FinishCall(w)) && TraceOk(s, x, s.workers[w].c)
    ensures var t, c := FinishStep(s, w), s.workers[w].c;
            && c < |t.life| == |t.sh.controls| && TraceOk(t, x, c)
            && t.sh.stats.timedOut == s.sh.stats.timedOut + LateCall(t.life[c], t.sh.controls[c], x)
  {
    hide MapOk, ReadyOk, CallsOk, CountsOk, StopOk, WakeOk;
    assert WorkerOk(s.sh, s.life, s.workers[w], w);
    FinishErases(s, w);
  }

  lemma DeliverTrace(s: State, x: Trace, e: Event, w: nat)
    requires Inv(s) && Enabled(s, e) && (e == FinishNotify(w) || e == CallbackEnd(w))
    requires |s.life| == |s.sh.controls| && TraceOk(s, x, s.workers[w].c)
    ensures var t, c := Apply(s, e), s.workers[w].c;
            && c < |t.life| == |t.sh.controls| && TraceOk(t, x, c)
            && LateCall(t.life[c], t.sh.controls[c], x) == LateCall(s.life[c], s.sh.controls[c], x)
  {
    hide MapOk, ReadyOk, CallsOk, CountsOk, StopOk, WakeOk;
    assert WorkerOk(s.sh, s.life, s.workers[w], w);
  }

  /** The worker of a step that moves one call, and that call. */
  predicate Moves(s: State, e: Event, w: nat, c: CallId) {
    w < |s.workers| && c < |s.life| &&
    match e
    case Check(v) => v == w && s.sh.ready != [] && s.sh.ready[0] == c && Empty(s.workers[w])
    case Inspect(v) => v == w && !Empty(s.workers[w]) && s.workers[w].c == c
    case Return(v) => v == w && !Empty(s.workers[w]) && s.workers[w].c == c
    case FinishCall(v) => v == w && !Empty(s.workers[w]) && s.workers[w].c == c
    case FinishNotify(v) => v == w && !Empty(s.workers[w]) && s.workers[w].c == c
    case CallbackEnd(v) => v == w && !Empty(s.workers[w]) && s.workers[w].c == c
    case _ => false
  }

  lemma MovesOne(s: State, e: Event, w: nat, c: CallId, d: CallId)
    requires Inv(s) && Enabled(s, e) && Moves(s, e, w, c) && d < |s.life| && d != c
    ensures Untouched(s, Apply(s, e), d) && |Apply(s, e).life| == |s.life|
  {
    hide Inv, FinishStep;
    if e.FinishCall? {
      FinishErases(s, w);
    }
    OthersUntouched(s, Apply(s, e), w, c, d);
  }

  lemma LaunchTrace(s: State, h: seq<Trace>, e: Event, c: CallId)
    requires Inv(s) && TracesOk(s, h) && Enabled(s, e) && (e == Event.Launch(c) || e == LaunchFail(c))
    ensures TracesOk(Apply(s, e), h)
  {
    hide MapOk, ReadyOk, WorkersOk, CountsOk, StopOk, WakeOk;
    var t := Apply(s, e);
    forall d | 0 <= d < |h| ensures TraceOk(t, h[d], d) {
      assert TraceOk(s, h[d], d);
      assert CallOk(s.sh, s.life[d], s.workers, d);
      if d != c {
        assert Untouched(s, t, d);
      }
    }
  }

  lemma SubmitTrace(s: State, h: seq<Trace>, key: string, deadline: nat)
    requires Inv(s) && TracesOk(s, h)
    ensures TracesOk(SubmitStep(s, key, deadline), Watch(s, h, Submit(key, deadline)))
  {
    hide MapOk, ReadyOk, WorkersOk, CountsOk, StopOk, WakeOk;
    var t := SubmitStep(s, key, deadline);
    forall d | 0 <= d < |h| ensures TraceOk(t, h[d], d) {
      assert TraceOk(s, h[d], d);
      assert CallOk(s.sh, s.life[d], s.workers, d);
      assert Untouched(s, t, d);
    }
  }

  lemma TakeTrace(s: State, x: Trace, w: nat)
    requires Inv(s) && Enabled(s, Check(w)) && s.sh.ready != [] && s.sh.ready[0] < |s.life| == |s.sh.controls| && TraceOk(s, x, s.sh.ready[0])
    ensures TraceOk(CheckStep(s, w), x, s.sh.ready[0])
  {
    hide MapOk, WorkersOk, CountsOk, StopOk, WakeOk;
    assert CallOk(s.sh, s.life[s.sh.ready[0]], s.workers, s.sh.ready[0]);
  }

  // ---------- The count of late calls ----------

  ghost predicate Accounted(s: State, h: seq<Trace>) {
    TracesOk(s, h) && s.sh.stats.timedOut == LateCalls(s.life, s.sh.controls, h)
  }

  function LateAt(s: State, h: seq<Trace>, c: CallId): nat
    requires c < |s.life| == |s.sh.controls| == |h|
  {
    LateCall(s.life[c], s.sh.controls[c], h[c])
  }

  // Calls that are late or not as before give the same count, and one that becomes late adds itself.
  lemma {:induction false} LateUpdate(life: seq<Life>, controls: seq<Control>, h: seq<Trace>,
                                      life': seq<Life>, controls': seq<Control>, h': seq<Trace>, c: nat, more: nat)
    requires |life| == |controls| == |h| == |life'| == |controls'| == |h'|
    requires forall d :: 0 <= d < |life| ==>
               LateCall(life'[d], controls'[d], h'[d]) == LateCall(life[d], controls[d], h[d]) + if d == c then more else 0
    ensures LateCalls(life', controls', h') == LateCalls(life, controls, h) + if c < |life| then more else 0
  {
    hide LateCall;
    if life != [] {
      var n := |life| - 1;
      LateUpdate(life[..n], controls[..n], h[..n], life'[..n], controls'[..n], h'[..n], c, more);
    }
  }

  lemma UntouchedLate(s: State, t: State, h: seq<Trace>, h': seq<Trace>, d: CallId)
    requires Untouched(s, t, d) && |h| == |s.life| && |h'| == |t.life| && h[d] == h'[d]
    ensures LateAt(t, h', d) == LateAt(s, h, d)
  {
  }

  /** One call moved: the others stay accounted for. */
  lemma OneMoved(s: State, h: seq<Trace>, t: State, x: Trace, c: CallId, more: nat)
    requires Accounted(s, h) && c < |h| == |t.life| == |t.sh.controls| && TraceOk(t, x, c)
    requires forall d :: 0 <= d < |h| && d != c ==> Untouched(s, t, d)
    requires LateCall(t.life[c], t.sh.controls[c], x) == LateAt(s, h, c) + more && t.sh.stats.timedOut == s.sh.stats.timedOut + more
    ensures Accounted(t, h[c := x])
  {
    hide TraceOk, Untouched, LateCall;
    var h' := h[c := x];
    forall d | 0 <= d < |h| ensures TraceOk(t, h'[d], d) && LateAt(t, h', d) == LateAt(s, h, d) + if d == c then more else 0 {
      if d != c {
        assert Untouched(s, t, d);
        UntouchedKeeps(s, t, h[d], d);
        UntouchedLate(s, t, h, h', d);
      }
    }
    assert forall d :: 0 <= d < |h| ==> LateCall(t.life[d], t.sh.controls[d], h'[d]) == LateAt(t, h', d);
    assert forall d :: 0 <= d < |h| ==> LateCall(s.life[d], s.sh.controls[d], h[d]) == LateAt(s, h, d);
    LateUpdate(s.life, s.sh.controls, h, t.life, t.sh.controls, h', c, more);
  }

  lemma AsideAccounted(s: State, h: seq<Trace>, e: Event)
    requires Inv(s) && Accounted(s, h) && Enabled(s, e) && IsAside(s, e)
    ensures Accounted(Apply(s, e), h)
  {
    hide Inv, TraceOk, Untouched, Apply, Enabled, IsAside, LateCall;
    var t := Apply(s, e);
    assert |t.life| == |t.sh.controls| == |h| && t.sh.stats == s.sh.stats by { AsideSize(s, e); }
    forall d | 0 <= d < |h| ensures TraceOk(t, h[d], d) && LateAt(t, h, d) == LateAt(s, h, d) {
      AsideUntouched(s, e, d);
      UntouchedKeeps(s, t, h[d], d);
      UntouchedLate(s, t, h, h, d);
    }
    assert forall d :: 0 <= d < |h| ==> LateCall(t.life[d], t.sh.controls[d], h[d]) == LateAt(t, h, d);
    assert forall d :: 0 <= d < |h| ==> LateCall(s.life[d], s.sh.controls[d], h[d]) == LateAt(s, h, d);
    LateUpdate(s.life, s.sh.controls, h, t.life, t.sh.controls, h, 0, 0);
  }

  lemma AsideSize(s: State, e: Event)
    requires Enabled(s, e) && IsAside(s, e)
    ensures var t := Apply(s, e); |t.life| == |s.life| && |t.sh.controls| == |s.sh.controls| && t.sh.stats == s.sh.stats
  {
  }

  lemma LaunchAccounted(s: State, h: seq<Trace>, e: Event, c: CallId)
    requires Inv(s) && Accounted(s, h) && Enabled(s, e) && (e == Event.Launch(c) || e == LaunchFail(c))
    ensures Accounted(Apply(s, e), h)
  {
    hide Inv, TraceOk;
    var t := Apply(s, e);
    LaunchTrace(s, h, e, c);
    LateUpdate(s.life, s.sh.controls, h, t.life, t.sh.controls, h, c, 0);
  }

  lemma SubmitAccounted(s: State, h: seq<Trace>, key: string, deadline: nat)
    requires Inv(s) && Accounted(s, h)
    ensures Accounted(SubmitStep(s, key, deadline), Watch(s, h, Submit(key, deadline)))
  {
    hide Inv, TraceOk, LateCalls;
    SubmitTrace(s, h, key, deadline);
    LateAppend(s.life, s.sh.controls, h, Life(Launching, 0, 0), Control(key, deadline, false));
  }

  lemma LateAppend(life: seq<Life>, controls: seq<Control>, h: seq<Trace>, l: Life, control: Control)
    requires |life| == |controls| == |h| && FateOf(l.phase) == Undecided
    ensures LateCalls(life + [l], controls + [control], h + [UNTOUCHED]) == LateCalls(life, controls, h)
  {
    var n := |life|;
    assert (life + [l])[..n] == life && (controls + [control])[..n] == controls && (h + [UNTOUCHED])[..n] == h;
  }

  lemma MoveAccounted(s: State, h: seq<Trace>, e: Event, w: nat, c: CallId)
    requires Inv(s) && Accounted(s, h) && Enabled(s, e) && Moves(s, e, w, c)
    ensures Accounted(Apply(s, e), Watch(s, h, e))
  {
    hide Inv, Untouched, FinishStep, TraceOk, LateCalls, FinishNotifyStep, CallbackEndStep;
    var t := Apply(s, e);
    forall d | 0 <= d < |h| && d != c ensures Untouched(s, t, d) {
      MovesOne(s, e, w, c, d);
    }
    assert TraceOk(s, h[c], c) && h[c := h[c]] == h;
    if !e.FinishNotify? && !e.CallbackEnd? {
      HeldNow(s, e, w, c);
    }
    match e
    case Check(_) =>
      TakeTrace(s, h[c], w);
      OneMoved(s, h, t, h[c], c, 0);
    case Inspect(_) =>
      InspectTrace(s, h[c], w);
      OneMoved(s, h, t, Watch(s, h, e)[c], c, 0);
    case Return(_) =>
      ReturnTrace(s, h[c], w);
      OneMoved(s, h, t, Watch(s, h, e)[c], c, 0);
    case FinishCall(_) =>
      FinishTrace(s, h[c], w);
      OneMoved(s, h, t, h[c], c, LateCall(t.life[c], t.sh.controls[c], h[c]));
    case FinishNotify(_) => DeliverAccounted(s, h, e, w, c);
    case CallbackEnd(_) => DeliverAccounted(s, h, e, w, c);
  }

  // Up to its end a call is not counted yet.
  lemma HeldNow(s: State, e: Event, w: nat, c: CallId)
    requires Inv(s) && Enabled(s, e) && Moves(s, e, w, c) && !e.FinishNotify? && !e.CallbackEnd?
    ensures FateOf(s.life[c].phase) == Undecided && |Apply(s, e).life| == |Apply(s, e).sh.controls| == |s.life|
    ensures !e.FinishCall? ==> FateOf(Apply(s, e).life[c].phase) == Undecided && Apply(s, e).sh.stats == s.sh.stats
  {
    hide MapOk, ReadyOk, CountsOk, StopOk, WakeOk;
    assert WorkerOk(s.sh, s.life, s.workers[w], w) && CallOk(s.sh, s.life[c], s.workers, c);
  }

  lemma DeliverAccounted(s: State, h: seq<Trace>, e: Event, w: nat, c: CallId)
    requires Inv(s) && Accounted(s, h) && Enabled(s, e) && Moves(s, e, w, c) && (e == FinishNotify(w) || e == CallbackEnd(w))
    requires forall d :: 0 <= d < |h| && d != c ==> Untouched(s, Apply(s, e), d)
    ensures Accounted(Apply(s, e), h)
  {
    hide Inv, Untouched, TraceOk, LateCalls;
    assert TraceOk(s, h[c], c) && h[c := h[c]] == h;
    DeliverTrace(s, h[c], e, w);
    OneMoved(s, h, Apply(s, e), h[c], c, 0);
  }

  // ---------- Every run ----------

  lemma StepAccounted(s: State, h: seq<Trace>, e: Event)
    requires Inv(s) && Accounted(s, h) && Enabled(s, e)
    ensures Accounted(Apply(s, e), Watch(s, h, e))
  {
    hide Inv, Accounted, FinishStep, FinishNotifyStep, CallbackEndStep, InspectStep, ReturnStep;
    assert |h| == |s.life| by { AccountedSize(s, h); }
    if IsAside(s, e) {
      AsideAccounted(s, h, e);
    } else {
      match e
      case Submit(key, deadline) => SubmitAccounted(s, h, key, deadline);
      case Launch(c) => LaunchAccounted(s, h, e, c);
      case LaunchFail(c) => LaunchAccounted(s, h, e, c);
      case Check(w) =>
        CallsInRange(s);
        MoveAccounted(s, h, e, w, s.sh.ready[0]);
      case Inspect(w) => CallsInRange(s); MoveAccounted(s, h, e, w, s.workers[w].c);
      case Return(w) => CallsInRange(s); MoveAccounted(s, h, e, w, s.workers[w].c);
      case FinishCall(w) => MoveAccounted(s, h, e, w, s.workers[w].c);
      case FinishNotify(w) => MoveAccounted(s, h, e, w, s.workers[w].c);
      case CallbackEnd(w) => MoveAccounted(s, h, e, w, s.workers[w].c);
    }
  }

  lemma AccountedSize(s: State, h: seq<Trace>)
    requires Accounted(s, h)
    ensures |h| == |s.life| == |s.sh.controls|
  {
  }

  lemma CallsInRange(s: State)
    requires Inv(s)
    ensures |s.life| == |s.sh.controls| && (s.sh.ready != [] ==> s.sh.ready[0] < |s.life|)
  {
  }

  lemma {:induction false} RunAccounted(s: State, h: seq<Trace>, es: seq<Event>)
    requires Inv(s) && Accounted(s, h) && IsRun(s, es)
    ensures Accounted(After(s, es), Watched(s, h, es))
    decreases |es|
  {
    hide Inv, Accounted, Enabled, Apply, Watch;
    if es != [] {
      StepAccounted(s, h, es[0]);
      StepKeeps(s, es[0]);
      RunAccounted(Apply(s, es[0]), Watch(s, h, es[0]), es[1..]);
    }
  }

  lemma Accounts(s: State, es: seq<Event>)
    requires Init(s) && IsRun(s, es)
    ensures Inv(After(s, es)) && Accounted(After(s, es), Watched(s, [], es))
  {
    InitInv(s);
    Reachable(s, es);
    RunAccounted(s, [], es);
  }

  /** Over every run: a call is executed at most once, and by the time it is finished exactly if its
      worker found it uncancelled and before its deadline. A call that completed was executed if it was
      resumed before its deadline and never if at or after it. A worker gives a call up as late only
      from its deadline on, and the counter counts the completed calls whose last look was that late. */
  lemma ExecutedAsDue(s: State, es: seq<Event>, c: CallId)
    requires Init(s) && IsRun(s, es) && c < |After(s, es).life|
    ensures var t, h := After(s, es), Watched(s, [], es);
            && c < |h| == |t.life| == |t.sh.controls|
            && var x, l, deadline := h[c], t.life[c], t.sh.controls[c].deadline;
               && x.runs <= 1
               && (x.runs == 1 ==> x.resumed.Some? && !x.resumed.value.flagged && x.resumed.value.at < deadline)
               && (FateOf(l.phase) == Complete || l.phase.Cancelled? ==> Judged(x, deadline))
               && (FateOf(l.phase) == Complete ==>
                     x.resumed.Some? && (x.runs == 1 <==> x.resumed.value.at < deadline) &&
                     (Late(x, deadline) <==> if x.runs == 1 then x.returned.value.at >= deadline else true))
               && (l.phase.Launching? || l.phase.Queued? || l.phase.LaunchFailed? ==> x == UNTOUCHED)
               && (forall w :: 0 <= w < |t.workers| && t.workers[w].Executed? && t.workers[w].c == c && t.workers[w].timedOut ==> t.now >= deadline)
               && t.sh.stats.timedOut == LateCalls(t.life, t.sh.controls, h)
  {
    hide IsRun, Init, After, Watched, MapOk, ReadyOk, CountsOk, StopOk, WakeOk, LateCalls;
    Accounts(s, es);
    var t, h := After(s, es), Watched(s, [], es);
    assert TraceOk(t, h[c], c) && CallOk(t.sh, t.life[c], t.workers, c);
    forall w | 0 <= w < |t.workers| && t.workers[w].Executed? && t.workers[w].c == c && t.workers[w].timedOut
      ensures t.now >= t.sh.controls[c].deadline
    {
      assert WorkerOk(t.sh, t.life, t.workers[w], w);
    }
  }

  // ---------- Refused submissions ----------

  /** How many submissions of a run came while admission was open and found their key taken, or their
      key free and the limit reached. */
  ghost function Refusals(s: State, es: seq<Event>, taken: bool): nat
    requires IsRun(s, es)
    decreases |es|
  {
    if es == [] then 0 else (if Refuses(s, es[0], taken) then 1 else 0) + Refusals(Apply(s, es[0]), es[1..], taken)
  }

  predicate Refuses(s: State, e: Event, taken: bool) {
    e.Submit? && s.sh.accepting && if taken then e.key in s.sh.inFlight else e.key !in s.sh.inFlight && |s.sh.inFlight| >= s.limit
  }

  /** The two counters of rejections count exactly those. */
  lemma {:induction false} RefusalsCounted(s: State, es: seq<Event>)
    requires IsRun(s, es)
    ensures After(s, es).sh.stats.duplicateRejections == s.sh.stats.duplicateRejections + Refusals(s, es, true)
    ensures After(s, es).sh.stats.queueRejections == s.sh.stats.queueRejections + Refusals(s, es, false)
    decreases |es|
  {
    hide Enabled, Apply, Refuses;
    if es != [] {
      RefusalCounted(s, es[0]);
      RefusalsCounted(Apply(s, es[0]), es[1..]);
    }
  }

  lemma RefusalCounted(s: State, e: Event)
    requires Enabled(s, e)
    ensures var before, after := s.sh.stats, Apply(s, e).sh.stats;
            && after.duplicateRejections == before.duplicateRejections + (if Refuses(s, e, true) then 1 else 0)
            && after.queueRejections == before.queueRejections + (if Refuses(s, e, false) then 1 else 0)
  {
  }

  // ---------- The surroundings ----------

  /** In every state time can pass, and calls can be submitted and cancelled, all of them stopped, and a
      shutdown asked for by an executor or a callback on any worker, or from outside when no other
      shutdown is on its way. */
  lemma AnytimeOpen(s: State, key: string, deadline: nat, w: nat)
    ensures Enabled(s, Tick) && Enabled(s, Submit(key, deadline)) && Enabled(s, CancelCall(key)) && Enabled(s, StopAll)
    ensures w < |s.workers| ==>
              (Enabled(s, ShutdownOnWorker(w)) <==> exists c :: s.workers[w] == Executing(c) || s.workers[w] == Calling(c))
    ensures Enabled(s, ShutdownBegin) <==> s.shutdown == NotRunning
  {
  }
}
