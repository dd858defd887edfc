/** What holds of the scheduler over whole runs. */
module SchedulerSafety {
  import opened SchedulerModel
  import opened SchedulerInvariant

  // ---------- Runs ----------

  lemma {:induction false} RunSplit(s: State, a: seq<Event>, b: seq<Event>)
    requires IsRun(s, a + b)
    ensures IsRun(s, a) && IsRun(After(s, a), b) && After(s, a + b) == After(After(s, a), b)
    decreases |a|
  {
    hide Enabled, Apply;
    if a == [] {
      assert a + b == b;
    } else {
      assert (a + b)[1..] == a[1..] + b;
      RunSplit(Apply(s, a[0]), a[1..], b);
    }
  }

  lemma Reachable(s: State, es: seq<Event>)
    requires Init(s) && IsRun(s, es)
    ensures Inv(After(s, es))
  {
    InitInv(s);
    RunKeeps(s, es);
  }

  // ---------- Conservation ----------

  datatype Fate = Undecided | Complete | Dropped | Unlaunched

  function FateOf(p: Phase): Fate {
    match p
    case Delivering(_) => Complete
    case Delivered => Complete
    case Silent => Complete
    case Cancelled => Dropped
    case LaunchFailed => Unlaunched
    case _ => Undecided
  }

  /** How many calls met this fate. */
  function Tally(life: seq<Life>, f: Fate): nat {
    if life == [] then 0
    else Tally(life[..|life| - 1], f) + if FateOf(life[|life| - 1].phase) == f then 1 else 0
  }

  function One(p: Phase, f: Fate): nat {
    if FateOf(p) == f then 1 else 0
  }

  lemma {:induction false} TallyUpdate(life: seq<Life>, c: nat, l: Life, f: Fate)
    requires c < |life|
    ensures Tally(life[c := l], f) + One(life[c].phase, f) == Tally(life, f) + One(l.phase, f)
  {
    var n := |life| - 1;
    if c == n {
      assert life[c := l][..n] == life[..n];
    } else {
      assert life[c := l][..n] == life[..n][c := l];
      TallyUpdate(life[..n], c, l, f);
    }
  }

  lemma TallyAppend(life: seq<Life>, l: Life, f: Fate)
    ensures Tally(life + [l], f) == Tally(life, f) + One(l.phase, f)
  {
    assert (life + [l])[..|life|] == life;
  }

  /** The counters count exactly the calls that met each fate. */
  ghost predicate Tallied(s: State) {
    s.sh.stats.completed == Tally(s.life, Complete) &&
    s.sh.stats.cancelled == Tally(s.life, Dropped) &&
    s.failedLaunches == Tally(s.life, Unlaunched)
  }

  // Setting one call's phase moves it between tallies.
  lemma PhaseTallied(s: State, c: CallId, l: Life)
    requires c < |s.life|
    ensures forall f :: Tally(s.life[c := l], f) + One(s.life[c].phase, f) == Tally(s.life, f) + One(l.phase, f)
  {
    forall f {
      TallyUpdate(s.life, c, l, f);
    }
  }

  lemma FinishTallied(s: State, w: nat)
    requires Inv(s) && Tallied(s) && Enabled(s, FinishCall(w))
    ensures Tallied(FinishStep(s, w))
  {
    hide Inv, Tally;
    FinishErases(s, w);
    var c := s.workers[w].c;
    PhaseTallied(s, c, FinishStep(s, w).life[c]);
  }

  lemma CheckTallied(s: State, w: nat)
    requires Inv(s) && Tallied(s) && Enabled(s, Check(w))
    ensures Tallied(CheckStep(s, w))
  {
    hide Tally;
    if s.sh.ready != [] {
      var c := s.sh.ready[0];
      assert CallOk(s.sh, s.life[c], s.workers, c);
      PhaseTallied(s, c, CheckStep(s, w).life[c]);
    }
  }

  lemma CallbackTallied(s: State, w: nat)
    requires Inv(s) && Tallied(s)
    ensures Enabled(s, FinishNotify(w)) ==> Tallied(FinishNotifyStep(s, w))
    ensures Enabled(s, CallbackEnd(w)) ==> Tallied(CallbackEndStep(s, w))
  {
    hide Tally;
    if Enabled(s, FinishNotify(w)) || Enabled(s, CallbackEnd(w)) {
      var c := s.workers[w].c;
      assert WorkerOk(s.sh, s.life, s.workers[w], w);
      PhaseTallied(s, c, s.life[c].(started := s.life[c].started + 1));
      PhaseTallied(s, c, Life(Delivered, s.life[c].started, s.life[c].ended + 1));
    }
  }

  lemma StepTallied(s: State, e: Event)
    requires Inv(s) && Tallied(s) && Enabled(s, e)
    ensures Tallied(Apply(s, e))
  {
    hide Tally, Inv, FinishStep, CheckStep, FinishNotifyStep, CallbackEndStep;
    var s' := Apply(s, e);
    match e
    case Submit(key, deadline) =>
      forall f {
        TallyAppend(s.life, Life(Launching, 0, 0), f);
      }
    case Launch(c) => PhaseTallied(s, c, s'.life[c]);
    case LaunchFail(c) => PhaseTallied(s, c, s'.life[c]);
    case Check(w) => CheckTallied(s, w);
    case FinishCall(w) => FinishTallied(s, w);
    case FinishNotify(w) => CallbackTallied(s, w);
    case CallbackEnd(w) => CallbackTallied(s, w);
    case _ =>
  }

  lemma {:induction false} RunTallied(s: State, es: seq<Event>)
    requires Inv(s) && Tallied(s) && IsRun(s, es)
    ensures Tallied(After(s, es))
    decreases |es|
  {
    hide Inv, Tallied, Enabled, Apply;
    if es != [] {
      StepTallied(s, es[0]);
      StepKeeps(s, es[0]);
      RunTallied(Apply(s, es[0]), es[1..]);
    }
  }

  /** In every reachable state every accepted call is counted once: as completed, as cancelled,
      as in flight, or as a launch that failed; and each counter counts the calls it names. */
  lemma Conservation(s: State, es: seq<Event>)
    requires Init(s) && IsRun(s, es)
    ensures var t := After(s, es);
            var st := t.sh.stats;
            && st.accepted == st.completed + st.cancelled + |t.sh.inFlight| + t.failedLaunches
            && st.accepted == |t.life| && Tallied(t) && st.timedOut <= st.completed
            && |t.life| == |t.sh.controls|
            && forall c :: 0 <= c < |t.life| ==> (FateOf(t.life[c].phase) == Undecided <==> Owns(t.sh, c))
  {
    Reachable(s, es);
    InitInv(s);
    RunTallied(s, es);
    var t := After(s, es);
    forall c | 0 <= c < |t.life| ensures FateOf(t.life[c].phase) == Undecided <==> Owns(t.sh, c) {
      assert CallOk(t.sh, t.life[c], t.workers, c);
    }
  }

  // ---------- Capacity ----------

  ghost predicate AllOwn(sh: Shared, ready: seq<CallId>) {
    forall i :: 0 <= i < |ready| ==> ready[i] < |sh.controls| && Owns(sh, ready[i])
  }

  /** The keys of the queued calls. */
  ghost function Keys(sh: Shared, ready: seq<CallId>): set<string>
    requires AllOwn(sh, ready)
  {
    if ready == [] then {}
    else Keys(sh, ready[..|ready| - 1]) + {sh.controls[ready[|ready| - 1]].key}
  }

  // A call that is not in the queue does not share its key with one that is.
  lemma {:induction false} OtherKey(sh: Shared, ready: seq<CallId>, c: CallId)
    requires AllOwn(sh, ready) && c < |sh.controls| && Owns(sh, c) && c !in ready
    ensures sh.controls[c].key !in Keys(sh, ready)
  {
    if ready != [] {
      OtherKey(sh, ready[..|ready| - 1], c);
    }
  }

  lemma {:induction false} DistinctKeys(sh: Shared, ready: seq<CallId>)
    requires AllOwn(sh, ready)
    requires forall i, j :: 0 <= i < j < |ready| ==> ready[i] != ready[j]
    ensures |Keys(sh, ready)| == |ready| && Keys(sh, ready) <= sh.inFlight.Keys
  {
    if ready != [] {
      var n := |ready| - 1;
      DistinctKeys(sh, ready[..n]);
      OtherKey(sh, ready[..n], ready[n]);
    }
  }

  lemma SubsetSize(a: set<string>, b: set<string>)
    requires a <= b
    ensures |a| <= |b|
  {
    assert b == a + (b - a);
  }

  /** The ready queue never outgrows the calls in flight, nor those the admission limit: the
      capacity reserved at construction is enough for the noexcept push. */
  lemma ReadyFits(s: State)
    requires Inv(s)
    ensures |s.sh.ready| <= |s.sh.inFlight| <= s.limit
    ensures forall i :: 0 <= i < |s.sh.ready| ==> s.sh.ready[i] < |s.sh.controls| && Owns(s.sh, s.sh.ready[i])
  {
    forall i | 0 <= i < |s.sh.ready| ensures Owns(s.sh, s.sh.ready[i]) {
      assert CallOk(s.sh, s.life[s.sh.ready[i]], s.workers, s.sh.ready[i]);
    }
    DistinctKeys(s.sh, s.sh.ready);
    SubsetSize(Keys(s.sh, s.sh.ready), s.sh.inFlight.Keys);
  }

  // A launch pushes only while there is room for it.
  lemma LaunchFits(s: State, c: CallId)
    requires Inv(s) && Enabled(s, Event.Launch(c))
    ensures |s.sh.ready| < s.limit
  {
    LaunchKeeps(s, c);
    ReadyFits(Apply(s, Event.Launch(c)));
  }

  // ---------- Callbacks and cancellation ----------

  /** In every reachable state a call's callback has been started at most once, ended at most as
      often, and started only for a call that completed and was never cancelled. */
  lemma CallbackAtMostOnce(s: State, es: seq<Event>, c: CallId)
    requires Init(s) && IsRun(s, es) && c < |After(s, es).life|
    ensures var t := After(s, es);
            && c < |t.sh.controls| && t.life[c].ended <= t.life[c].started <= 1
            && (t.life[c].started == 1 ==> FateOf(t.life[c].phase) == Complete && !t.sh.controls[c].cancelled)
  {
    Reachable(s, es);
    var t := After(s, es);
    assert CallOk(t.sh, t.life[c], t.workers, c);
  }

  // No step clears a cancellation flag or forgets a call.
  lemma FlagStays(s: State, e: Event, c: CallId)
    requires Enabled(s, e) && c < |s.sh.controls| && s.sh.controls[c].cancelled
    ensures c < |Apply(s, e).sh.controls| && Apply(s, e).sh.controls[c].cancelled
  {
  }

  lemma {:induction false} FlagStaysRun(s: State, es: seq<Event>, c: CallId)
    requires IsRun(s, es) && c < |s.sh.controls| && s.sh.controls[c].cancelled
    ensures c < |After(s, es).sh.controls| && After(s, es).sh.controls[c].cancelled
    decreases |es|
  {
    hide Enabled, Apply;
    if es != [] {
      FlagStays(s, es[0], c);
      FlagStaysRun(Apply(s, es[0]), es[1..], c);
    }
  }

  // A flagged call has no callback, now or ever.
  lemma FlaggedIsSilent(s: State, es: seq<Event>, c: CallId)
    requires Inv(s) && IsRun(s, es) && c < |s.sh.controls| && s.sh.controls[c].cancelled
    ensures var t := After(s, es);
            c < |t.life| && t.life[c].started == 0 && FateOf(t.life[c].phase) != Complete
  {
    FlagStaysRun(s, es, c);
    RunKeeps(s, es);
    var t := After(s, es);
    assert CallOk(t.sh, t.life[c], t.workers, c);
  }

  /** Once cancel has returned true for a call, the callback of that call never runs, whatever
      happens before and after, and although its request id may be reused. */
  lemma CancelSilences(s: State, before: seq<Event>, key: string, later: seq<Event>)
    requires Init(s) && IsRun(s, before + [CancelCall(key)] + later)
    ensures IsRun(s, before)
    ensures var at := After(s, before);
            var t := After(s, before + [CancelCall(key)] + later);
            Cancel(at.sh, key).1 ==>
              && key in at.sh.inFlight
              && var c := at.sh.inFlight[key];
                 c < |t.life| && t.life[c].started == 0 && FateOf(t.life[c].phase) != Complete
  {
    hide Inv, Enabled, Apply;
    var es := before + [CancelCall(key)];
    RunSplit(s, es, later);
    RunSplit(s, before, [CancelCall(key)]);
    Reachable(s, before);
    var at := After(s, before);
    var next := After(s, es);
    CancelStep(at, key);
    if Cancel(at.sh, key).1 {
      FlaggedIsSilent(next, later, at.sh.inFlight[key]);
    }
  }

  lemma CancelStep(s: State, key: string)
    requires Inv(s) && IsRun(s, [CancelCall(key)])
    ensures var next := After(s, [CancelCall(key)]);
            && Inv(next)
            && (Cancel(s.sh, key).1 ==> key in s.sh.inFlight && s.sh.inFlight[key] < |next.sh.controls|
                                        && next.sh.controls[s.sh.inFlight[key]].cancelled)
  {
    StepKeeps(s, CancelCall(key));
    assert [CancelCall(key)][1..] == [];
    assert After(s, [CancelCall(key)]) == Apply(s, CancelCall(key));
  }

  /** The same for request_stop and every call in flight when it runs. */
  lemma StopSilences(s: State, before: seq<Event>, later: seq<Event>, c: CallId)
    requires Init(s) && IsRun(s, before + [StopAll] + later)
    requires IsRun(s, before) && c in After(s, before).sh.inFlight.Values
    ensures var t := After(s, before + [StopAll] + later);
            c < |t.life| && t.life[c].started == 0 && FateOf(t.life[c].phase) != Complete
  {
    hide Inv, Enabled, Apply;
    RunSplit(s, before + [StopAll], later);
    RunSplit(s, before, [StopAll]);
    Reachable(s, before);
    StopStep(After(s, before), c);
    FlaggedIsSilent(After(s, before + [StopAll]), later, c);
  }

  lemma StopStep(s: State, c: CallId)
    requires Inv(s) && IsRun(s, [StopAll]) && c in s.sh.inFlight.Values
    ensures var next := After(s, [StopAll]);
            Inv(next) && c < |next.sh.controls| && next.sh.controls[c].cancelled
  {
    StepKeeps(s, StopAll);
    assert [StopAll][1..] == [];
    assert After(s, [StopAll]) == Apply(s, StopAll);
  }

  // ---------- Stopping and shutdown ----------

  lemma StoppingStays(s: State, e: Event)
    requires Enabled(s, e)
    ensures s.sh.stopping ==> Apply(s, e).sh.stopping
    ensures s.joined ==> Apply(s, e).joined
  {
  }

  lemma {:induction false} StoppingStaysRun(s: State, es: seq<Event>)
    requires IsRun(s, es)
    ensures s.sh.stopping ==> After(s, es).sh.stopping
    ensures s.joined ==> After(s, es).joined
    decreases |es|
  {
    hide Enabled, Apply;
    if es != [] {
      StoppingStays(s, es[0]);
      StoppingStaysRun(Apply(s, es[0]), es[1..]);
    }
  }

  /** Once stopping is set no call is in flight or queued, then and ever after; and no worker
      exits before that, so none leaves work behind. */
  lemma StoppingIsFinal(s: State, es: seq<Event>)
    requires Inv(s) && IsRun(s, es)
    requires s.sh.stopping || exists w :: 0 <= w < |s.workers| && s.workers[w].Exited?
    ensures var t := After(s, es);
            t.sh.stopping && t.sh.inFlight == map[] && t.sh.ready == [] && !t.sh.accepting
  {
    StoppingStaysRun(s, es);
    RunKeeps(s, es);
    var t := After(s, es);
    ReadyFits(t);
  }

  /** When a shutdown from outside the workers has returned, and in every later state, each call
      was counted as cancelled, failed to launch, or had its callback run to the end exactly once. */
  lemma ShutdownReturned(s: State, es: seq<Event>, c: CallId)
    requires Inv(s) && s.joined && IsRun(s, es) && c < |After(s, es).life|
    ensures var l := After(s, es).life[c];
            || l == Life(Delivered, 1, 1)
            || (l.phase.Cancelled? && l.started == 0)
            || (l.phase.LaunchFailed? && l.started == 0)
  {
    StoppingStaysRun(s, es);
    RunKeeps(s, es);
    var t := After(s, es);
    assert CallOk(t.sh, t.life[c], t.workers, c);
  }
}
