/** What every step of the scheduler keeps, in every interleaving. */
module SchedulerInvariant {
  import opened SchedulerModel

  predicate Owns(sh: Shared, c: CallId)
    requires c < |sh.controls|
  {
    sh.controls[c].key in sh.inFlight && sh.inFlight[sh.controls[c].key] == c
  }

  predicate Holds(w: Worker, c: CallId) {
    (w.Resumed? || w.Executing? || w.Executed?) && w.c == c
  }

  predicate Delivers(w: Worker, c: CallId) {
    (w.Finished? && w.c == c && w.send) || (w.Calling? && w.c == c)
  }

  /** The admission map holds exactly the live calls, each under its own key. */
  ghost predicate MapOk(sh: Shared) {
    forall key :: key in sh.inFlight ==>
      sh.inFlight[key] < |sh.controls| && sh.controls[sh.inFlight[key]].key == key
  }

  ghost predicate ReadyOk(sh: Shared) {
    (forall i :: 0 <= i < |sh.ready| ==> sh.ready[i] < |sh.controls|) &&
    (forall i, j :: 0 <= i < j < |sh.ready| ==> sh.ready[i] != sh.ready[j])
  }

  /** How often the callback of a call in this phase has been started and ended. */
  ghost predicate Counted(l: Life, workers: seq<Worker>) {
    match l.phase
    case Delivering(w) => l.ended == 0 && l.started == if w < |workers| && workers[w].Calling? then 1 else 0
    case Delivered => l.started == 1 && l.ended == 1
    case _ => l.started == 0 && l.ended == 0
  }

  ghost predicate CallOk(sh: Shared, l: Life, workers: seq<Worker>, c: CallId)
    requires c < |sh.controls|
  {
    (Live(l.phase) <==> Owns(sh, c)) &&
    (l.phase.Queued? <==> c in sh.ready) &&
    (l.phase.Active? ==> l.phase.w < |workers| && Holds(workers[l.phase.w], c)) &&
    (l.phase.Delivering? ==> l.phase.w < |workers| && Delivers(workers[l.phase.w], c)) &&
    (l.phase.Delivering? || l.phase.Delivered? ==> !sh.controls[c].cancelled) &&
    (l.phase.Cancelled? ==> sh.controls[c].cancelled) &&
    !l.phase.Silent? && Counted(l, workers)
  }

  ghost predicate CallsOk(s: State) {
    |s.life| == |s.sh.controls| &&
    forall c :: 0 <= c < |s.life| ==> CallOk(s.sh, s.life[c], s.workers, c)
  }

  /** What a worker holds agrees with the call's phase; no result means a cancelled call. */
  ghost predicate WorkerOk(sh: Shared, life: seq<Life>, worker: Worker, w: nat)
    requires |life| == |sh.controls|
  {
    match worker
    case Resumed(c) => c < |life| && life[c].phase == Active(w)
    case Executing(c) => c < |life| && life[c].phase == Active(w)
    case Executed(c, haveResult, _) => c < |life| && life[c].phase == Active(w) && (haveResult || sh.controls[c].cancelled)
    case Finished(c, send) => c < |life| && (send ==> life[c].phase == Delivering(w))
    case Calling(c) => c < |life| && life[c].phase == Delivering(w)
    case _ => true
  }

  ghost predicate WorkersOk(s: State) {
    |s.life| == |s.sh.controls| && |s.workers| > 0 &&
    forall w :: 0 <= w < |s.workers| ==> WorkerOk(s.sh, s.life, s.workers[w], w)
  }

  ghost predicate CountsOk(s: State) {
    var st := s.sh.stats;
    st.accepted == |s.sh.controls| &&
    st.accepted == st.completed + st.cancelled + |s.sh.inFlight| + s.failedLaunches &&
    st.timedOut <= st.completed && |s.sh.inFlight| <= s.limit
  }

  predicate AllExited(workers: seq<Worker>) {
    forall w :: 0 <= w < |workers| ==> workers[w].Exited?
  }

  ghost predicate StopOk(s: State) {
    (s.sh.stopping <==> s.shutdown.Notifying? || s.shutdown.Joining? || s.joined) &&
    (s.sh.stopping ==> s.sh.inFlight == map[]) &&
    (!s.shutdown.NotRunning? || s.joined ==> !s.sh.accepting) &&
    (s.joined ==> s.shutdown.NotRunning? && AllExited(s.workers)) &&
    ((exists w :: 0 <= w < |s.workers| && s.workers[w].Exited?) ==> s.sh.stopping)
  }

  predicate Awake(w: Worker) {
    !w.Asleep? && !w.Exited?
  }

  /** Someone is up for the queue, a drain that can go on is about to be told, and nobody sleeps
      through the join. */
  ghost predicate WakeOk(s: State) {
    (s.sh.ready != [] ==> s.readyNotices > 0 || exists w :: 0 <= w < |s.workers| && Awake(s.workers[w])) &&
    (s.shutdown.DrainAsleep? && s.sh.inFlight == map[] ==>
       s.doneNotices > 0 || exists w :: 0 <= w < |s.workers| && s.workers[w].Finished?) &&
    (s.shutdown.Joining? ==> forall w :: 0 <= w < |s.workers| ==> !s.workers[w].Asleep?)
  }

  ghost predicate Inv(s: State) {
    MapOk(s.sh) && ReadyOk(s.sh) && CallsOk(s) && WorkersOk(s) && CountsOk(s) && StopOk(s) && WakeOk(s)
  }

  lemma InitInv(s: State)
    requires Init(s)
    ensures Inv(s)
  {
  }

  // ---------- Admission ----------

  lemma SubmitCalls(s: State, key: string, deadline: nat)
    requires MapOk(s.sh) && ReadyOk(s.sh) && CallsOk(s) && WorkersOk(s)
    ensures CallsOk(SubmitStep(s, key, deadline)) && WorkersOk(SubmitStep(s, key, deadline))
  {
    var s' := SubmitStep(s, key, deadline);
    if s'.life != s.life {
      forall c | 0 <= c < |s'.life| ensures CallOk(s'.sh, s'.life[c], s'.workers, c) {
        if c < |s.life| {
          assert CallOk(s.sh, s.life[c], s.workers, c);
        }
      }
      forall w | 0 <= w < |s'.workers| ensures WorkerOk(s'.sh, s'.life, s'.workers[w], w) {
        assert WorkerOk(s.sh, s.life, s.workers[w], w);
      }
    }
  }

  lemma SubmitKeeps(s: State, key: string, deadline: nat)
    requires Inv(s)
    ensures Inv(SubmitStep(s, key, deadline))
  {
    hide CallOk, WorkerOk;
    SubmitCalls(s, key, deadline);
  }

  lemma LaunchKeeps(s: State, c: CallId)
    requires Inv(s) && Enabled(s, Event.Launch(c))
    ensures Inv(Apply(s, Event.Launch(c)))
  {
    var s' := Apply(s, Event.Launch(c));
    assert CallOk(s.sh, s.life[c], s.workers, c);
    forall d | 0 <= d < |s'.life| ensures CallOk(s'.sh, s'.life[d], s'.workers, d) {
      assert CallOk(s.sh, s.life[d], s.workers, d);
    }
    forall w | 0 <= w < |s'.workers| ensures WorkerOk(s'.sh, s'.life, s'.workers[w], w) {
      assert WorkerOk(s.sh, s.life, s.workers[w], w);
    }
  }

  lemma LaunchFailKeeps(s: State, c: CallId)
    requires Inv(s) && Enabled(s, LaunchFail(c))
    ensures Inv(Apply(s, LaunchFail(c)))
  {
    var s' := Apply(s, LaunchFail(c));
    assert CallOk(s.sh, s.life[c], s.workers, c);
    forall d | 0 <= d < |s'.life| ensures CallOk(s'.sh, s'.life[d], s'.workers, d) {
      assert CallOk(s.sh, s.life[d], s.workers, d);
    }
    forall w | 0 <= w < |s'.workers| ensures WorkerOk(s'.sh, s'.life, s'.workers[w], w) {
      assert WorkerOk(s.sh, s.life, s.workers[w], w);
    }
  }

  // ---------- Workers ----------

  predicate Empty(w: Worker) {
    w.Checking? || w.Asleep? || w.Exited?
  }

  // A worker that holds no call can sleep, wake or exit without touching any call.
  lemma EmptyMove(s: State, workers: seq<Worker>)
    requires CallsOk(s) && WorkersOk(s) && |workers| == |s.workers|
    requires forall w :: 0 <= w < |workers| ==> workers[w] == s.workers[w] || (Empty(s.workers[w]) && Empty(workers[w]))
    ensures CallsOk(s.(workers := workers)) && WorkersOk(s.(workers := workers))
  {
    forall c | 0 <= c < |s.life| ensures CallOk(s.sh, s.life[c], workers, c) {
      assert CallOk(s.sh, s.life[c], s.workers, c);
    }
    forall w | 0 <= w < |workers| ensures WorkerOk(s.sh, s.life, workers[w], w) {
      assert WorkerOk(s.sh, s.life, s.workers[w], w);
    }
  }

  lemma NotJoined(s: State, w: nat)
    requires StopOk(s) && w < |s.workers| && !s.workers[w].Exited?
    ensures !s.joined
  {
  }

  lemma NotifyReadyKeeps(s: State, w: nat)
    requires Inv(s) && Enabled(s, NotifyReady(w))
    ensures Inv(Apply(s, NotifyReady(w)))
  {
    var s' := Apply(s, NotifyReady(w));
    EmptyMove(s, s'.workers);
    if s.sh.ready != [] {
      assert !s.sh.stopping by {
        assert CallOk(s.sh, s.life[s.sh.ready[0]], s.workers, s.sh.ready[0]);
      }
      assert Awake(s'.workers[w]);
    }
    forall v | 0 <= v < |s'.workers| && s'.workers[v].Exited? ensures s.sh.stopping {
      assert s.workers[v].Exited?;
    }
    assert forall v :: 0 <= v < |s.workers| && s.workers[v].Finished? ==> s'.workers[v].Finished?;
  }

  lemma WakeSpuriouslyKeeps(s: State, w: nat)
    requires Inv(s) && Enabled(s, WakeSpuriously(w))
    ensures Inv(Apply(s, WakeSpuriously(w)))
  {
    var s' := Apply(s, WakeSpuriously(w));
    EmptyMove(s, s'.workers);
    assert Awake(s'.workers[w]);
    forall v | 0 <= v < |s'.workers| && s'.workers[v].Exited? ensures s.sh.stopping {
      assert s.workers[v].Exited?;
    }
    assert forall v :: 0 <= v < |s.workers| && s.workers[v].Finished? ==> s'.workers[v].Finished?;
  }

  // A worker that finds nothing to do exits only when the scheduler is stopping.
  lemma CheckIdleKeeps(s: State, w: nat)
    requires Inv(s) && Enabled(s, Check(w)) && s.sh.ready == []
    ensures Inv(CheckStep(s, w))
  {
    var s' := CheckStep(s, w);
    EmptyMove(s, s'.workers);
    forall v | 0 <= v < |s'.workers| && s'.workers[v].Exited? ensures s.sh.stopping {
      assert v != w ==> s.workers[v].Exited?;
    }
    NotJoined(s, w);
    assert forall v :: 0 <= v < |s.workers| && s.workers[v].Finished? ==> s'.workers[v].Finished?;
  }

  lemma CheckTakeKeeps(s: State, w: nat)
    requires Inv(s) && Enabled(s, Check(w)) && s.sh.ready != []
    ensures Inv(CheckStep(s, w))
  {
    var s', c := CheckStep(s, w), s.sh.ready[0];
    assert CallOk(s.sh, s.life[c], s.workers, c);
    assert forall d :: d in s'.sh.ready <==> d in s.sh.ready && d != c;
    forall d | 0 <= d < |s'.life| ensures CallOk(s'.sh, s'.life[d], s'.workers, d) {
      assert CallOk(s.sh, s.life[d], s.workers, d);
    }
    forall v | 0 <= v < |s'.workers| ensures WorkerOk(s'.sh, s'.life, s'.workers[v], v) {
      assert WorkerOk(s.sh, s.life, s.workers[v], v);
    }
    NotJoined(s, w);
    assert Awake(s'.workers[w]);
    OthersKeep(s, s', w);
  }

  // What the other workers contribute to the stop and wake conditions survives a move of `w`.
  lemma OthersKeep(s: State, s': State, w: nat)
    requires w < |s.workers| == |s'.workers| && forall v :: 0 <= v < |s.workers| && v != w ==> s'.workers[v] == s.workers[v]
    requires !s'.workers[w].Exited? && !s.workers[w].Finished?
    ensures (exists v :: 0 <= v < |s'.workers| && s'.workers[v].Exited?) ==> exists v :: 0 <= v < |s.workers| && s.workers[v].Exited?
    ensures (exists v :: 0 <= v < |s.workers| && s.workers[v].Finished?) ==> exists v :: 0 <= v < |s'.workers| && s'.workers[v].Finished?
  {
    if v :| 0 <= v < |s'.workers| && s'.workers[v].Exited? {
      assert s.workers[v].Exited?;
    }
    if v :| 0 <= v < |s.workers| && s.workers[v].Finished? {
      assert s'.workers[v].Finished?;
    }
  }

  // A worker moving within run, the call it holds unchanged.
  lemma HoldMove(s: State, w: nat, next: Worker)
    requires Inv(s) && w < |s.workers| && (s.workers[w].Resumed? || s.workers[w].Executing?)
    requires Holds(next, s.workers[w].c) && (next.Executed? && !next.haveResult ==> next.c < |s.sh.controls| && s.sh.controls[next.c].cancelled)
    ensures Inv(s.(workers := s.workers[w := next]))
  {
    var s' := s.(workers := s.workers[w := next]);
    assert WorkerOk(s.sh, s.life, s.workers[w], w);
    forall c | 0 <= c < |s'.life| ensures CallOk(s'.sh, s'.life[c], s'.workers, c) {
      assert CallOk(s.sh, s.life[c], s.workers, c);
    }
    forall v | 0 <= v < |s'.workers| ensures WorkerOk(s'.sh, s'.life, s'.workers[v], v) {
      assert WorkerOk(s.sh, s.life, s.workers[v], v);
    }
    NotJoined(s, w);
    assert Awake(s'.workers[w]);
    OthersKeep(s, s', w);
  }

  // finish erases exactly its own entry, and never fails its identity check.
  lemma FinishErases(s: State, w: nat)
    requires Inv(s) && Enabled(s, FinishCall(w))
    ensures var c := s.workers[w].c;
            && Owns(s.sh, c) && s.life[c].phase == Active(w)
            && (!s.sh.controls[c].cancelled ==> s.workers[w].haveResult)
            && FinishStep(s, w) == s.(
                 sh := s.sh.(inFlight := s.sh.inFlight - {s.sh.controls[c].key}, stats := FinishStep(s, w).sh.stats),
                 workers := s.workers[w := Finished(c, !s.sh.controls[c].cancelled)],
                 life := SetPhase(s.life, c, if s.sh.controls[c].cancelled then Phase.Cancelled else Delivering(w)))
            && |FinishStep(s, w).sh.inFlight| == |s.sh.inFlight| - 1
  {
    assert WorkerOk(s.sh, s.life, s.workers[w], w);
    assert CallOk(s.sh, s.life[s.workers[w].c], s.workers, s.workers[w].c);
  }

  lemma FinishCalls(s: State, w: nat)
    requires Inv(s) && Enabled(s, FinishCall(w))
    ensures CallsOk(FinishStep(s, w))
  {
    hide StopOk, WakeOk, CountsOk, FinishStep, Finish;
    var s', c := FinishStep(s, w), s.workers[w].c;
    FinishErases(s, w);
    forall d | 0 <= d < |s'.life| ensures CallOk(s'.sh, s'.life[d], s'.workers, d) {
      assert CallOk(s.sh, s.life[d], s.workers, d);
      assert d != c ==> (Owns(s'.sh, d) <==> Owns(s.sh, d));
    }
  }

  lemma FinishWorkers(s: State, w: nat)
    requires Inv(s) && Enabled(s, FinishCall(w))
    ensures WorkersOk(FinishStep(s, w))
  {
    hide StopOk, WakeOk, CountsOk, FinishStep, Finish;
    var s' := FinishStep(s, w);
    FinishErases(s, w);
    forall v | 0 <= v < |s'.workers| ensures WorkerOk(s'.sh, s'.life, s'.workers[v], v) {
      assert WorkerOk(s.sh, s.life, s.workers[v], v);
    }
  }

  lemma FinishKeeps(s: State, w: nat)
    requires Inv(s) && Enabled(s, FinishCall(w))
    ensures Inv(FinishStep(s, w))
  {
    hide CallsOk, WorkersOk;
    var s' := FinishStep(s, w);
    FinishCalls(s, w);
    FinishWorkers(s, w);
    FinishErases(s, w);
    NotJoined(s, w);
    assert s'.workers[w].Finished? && Awake(s'.workers[w]);
    OthersKeep(s, s', w);
  }

  lemma FinishNotifyKeeps(s: State, w: nat)
    requires Inv(s) && Enabled(s, FinishNotify(w))
    ensures Inv(FinishNotifyStep(s, w))
  {
    var s', c := FinishNotifyStep(s, w), s.workers[w].c;
    assert WorkerOk(s.sh, s.life, s.workers[w], w);
    forall d | 0 <= d < |s'.life| ensures CallOk(s'.sh, s'.life[d], s'.workers, d) {
      assert CallOk(s.sh, s.life[d], s.workers, d);
    }
    forall v | 0 <= v < |s'.workers| ensures WorkerOk(s'.sh, s'.life, s'.workers[v], v) {
      assert WorkerOk(s.sh, s.life, s.workers[v], v);
    }
    NotJoined(s, w);
    assert Awake(s'.workers[w]);
    forall v | 0 <= v < |s'.workers| && s'.workers[v].Exited? ensures s.workers[v].Exited? {
    }
  }

  lemma CallbackEndKeeps(s: State, w: nat)
    requires Inv(s) && Enabled(s, CallbackEnd(w))
    ensures Inv(CallbackEndStep(s, w))
  {
    var s', c := CallbackEndStep(s, w), s.workers[w].c;
    assert WorkerOk(s.sh, s.life, s.workers[w], w);
    assert CallOk(s.sh, s.life[c], s.workers, c);
    forall d | 0 <= d < |s'.life| ensures CallOk(s'.sh, s'.life[d], s'.workers, d) {
      assert CallOk(s.sh, s.life[d], s.workers, d);
    }
    forall v | 0 <= v < |s'.workers| ensures WorkerOk(s'.sh, s'.life, s'.workers[v], v) {
      assert WorkerOk(s.sh, s.life, s.workers[v], v);
    }
    NotJoined(s, w);
    assert Awake(s'.workers[w]);
    OthersKeep(s, s', w);
  }

  // ---------- Cancellation and shutdown ----------

  // Setting the flag of calls in flight disturbs nothing.
  lemma FlagsKeep(s: State, controls: seq<Control>, accepting: bool)
    requires Inv(s) && |controls| == |s.sh.controls| && (accepting ==> s.sh.accepting)
    requires forall c :: 0 <= c < |controls| ==>
               controls[c] == s.sh.controls[c] || (Owns(s.sh, c) && controls[c] == s.sh.controls[c].(cancelled := true))
    ensures Inv(s.(sh := s.sh.(controls := controls, accepting := accepting)))
  {
    var s' := s.(sh := s.sh.(controls := controls, accepting := accepting));
    assert forall c :: 0 <= c < |controls| ==> controls[c].key == s.sh.controls[c].key;
    forall c | 0 <= c < |s'.life| ensures CallOk(s'.sh, s'.life[c], s'.workers, c) {
      assert CallOk(s.sh, s.life[c], s.workers, c);
    }
    forall w | 0 <= w < |s'.workers| ensures WorkerOk(s'.sh, s'.life, s'.workers[w], w) {
      assert WorkerOk(s.sh, s.life, s.workers[w], w);
    }
  }

  lemma CancelKeeps(s: State, key: string)
    requires Inv(s)
    ensures Inv(s.(sh := Cancel(s.sh, key).0))
  {
    var sh := Cancel(s.sh, key).0;
    FlagsKeep(s, sh.controls, s.sh.accepting);
    assert sh == s.sh.(controls := sh.controls, accepting := s.sh.accepting);
  }

  lemma RequestStopKeeps(s: State)
    requires Inv(s)
    ensures Inv(s.(sh := RequestStop(s.sh)))
  {
    var sh := RequestStop(s.sh);
    FlagsKeep(s, sh.controls, false);
    assert sh == s.sh.(controls := sh.controls, accepting := false);
  }

  lemma CloseKeeps(s: State)
    requires Inv(s)
    ensures Inv(s.(sh := CloseAdmission(s.sh)))
  {
    FlagsKeep(s, s.sh.controls, false);
  }

  lemma SameCalls(s: State, s': State)
    requires CallsOk(s) && WorkersOk(s) && s'.life == s.life && s'.workers == s.workers
    requires s'.sh.(stopping := s.sh.stopping, accepting := s.sh.accepting) == s.sh
    ensures CallsOk(s') && WorkersOk(s')
  {
    forall c | 0 <= c < |s'.life| ensures CallOk(s'.sh, s'.life[c], s'.workers, c) {
      assert CallOk(s.sh, s.life[c], s.workers, c);
    }
    forall w | 0 <= w < |s'.workers| ensures WorkerOk(s'.sh, s'.life, s'.workers[w], w) {
      assert WorkerOk(s.sh, s.life, s.workers[w], w);
    }
  }

  lemma ShutdownKeeps(s: State, e: Event)
    requires Inv(s) && Enabled(s, e)
    requires e.ShutdownBegin? || e.DrainCheck? || e.Join? || e.WakeDrainSpuriously? || e.NotifyDone? || e.Tick?
    ensures Inv(Apply(s, e))
  {
    SameCalls(s, Apply(s, e));
  }

  lemma NotifyAllKeeps(s: State)
    requires Inv(s) && Enabled(s, NotifyAll)
    ensures Inv(Apply(s, NotifyAll))
  {
    var s' := Apply(s, NotifyAll);
    EmptyMove(s, s'.workers);
    if w :| 0 <= w < |s'.workers| && s'.workers[w].Exited? {
      assert s.workers[w].Exited?;
    }
    if s.sh.ready != [] {
      assert CallOk(s.sh, s.life[s.sh.ready[0]], s.workers, s.sh.ready[0]);
    }
  }

  // ---------- Every step ----------

  lemma StepKeeps(s: State, e: Event)
    requires Inv(s) && Enabled(s, e)
    ensures Inv(Apply(s, e))
  {
    hide Inv;
    match e
    case Submit(key, deadline) => SubmitKeeps(s, key, deadline);
    case Launch(c) => LaunchKeeps(s, c);
    case LaunchFail(c) => LaunchFailKeeps(s, c);
    case NotifyReady(w) => NotifyReadyKeeps(s, w);
    case Check(w) => if s.sh.ready == [] { CheckIdleKeeps(s, w); } else { CheckTakeKeeps(s, w); }
    case WakeSpuriously(w) => WakeSpuriouslyKeeps(s, w);
    case Inspect(w) => HoldMove(s, w, InspectStep(s, w).workers[w]);
    case Return(w) => HoldMove(s, w, ReturnStep(s, w).workers[w]);
    case FinishCall(w) => FinishKeeps(s, w);
    case FinishNotify(w) => FinishNotifyKeeps(s, w);
    case CallbackEnd(w) => CallbackEndKeeps(s, w);
    case CancelCall(key) => CancelKeeps(s, key);
    case StopAll => RequestStopKeeps(s);
    case ShutdownOnWorker(_) => CloseKeeps(s);
    case NotifyAll => NotifyAllKeeps(s);
    case _ => ShutdownKeeps(s, e);
  }

  /** Every reachable state satisfies the invariant. */
  lemma {:induction false} RunKeeps(s: State, es: seq<Event>)
    requires Inv(s) && IsRun(s, es)
    ensures Inv(After(s, es))
    decreases |es|
  {
    hide Inv, Enabled, Apply;
    if es != [] {
      StepKeeps(s, es[0]);
      RunKeeps(Apply(s, es[0]), es[1..]);
    }
  }
}
