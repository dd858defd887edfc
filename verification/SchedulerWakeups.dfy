/** No wake-up is lost: queued calls and sleeping workers never stand side by side unless a notice, or a
    worker about to look at the queue, is on its way for each of the calls. */
module SchedulerWakeups {
  import opened SchedulerModel

  /** How many workers are about to take the mutex and look at the queue. */
  function Looking(workers: seq<Worker>): nat {
    if workers == [] then 0 else Looking(workers[..|workers| - 1]) + Checks(workers[|workers| - 1])
  }

  function Checks(w: Worker): nat {
    if w.Checking? then 1 else 0
  }

  /** While any worker sleeps, every queued call has its own wake-up: a pending notice or a worker
      that is about to look. */
  ghost predicate Noticed(s: State) {
    AnyAsleep(s.workers) ==> |s.sh.ready| <= s.readyNotices + Looking(s.workers)
  }

  lemma {:induction false} LookingUpdate(workers: seq<Worker>, w: nat, x: Worker)
    requires w < |workers|
    ensures Looking(workers[w := x]) + Checks(workers[w]) == Looking(workers) + Checks(x)
  {
    var n := |workers| - 1;
    if w == n {
      assert workers[w := x][..n] == workers[..n];
    } else {
      assert workers[w := x][..n] == workers[..n][w := x];
      LookingUpdate(workers[..n], w, x);
    }
  }

  // A worker that moves without going to sleep, and without leaving the look it was about to take.
  lemma MoveNoticed(s: State, s': State, w: nat, x: Worker)
    requires Noticed(s) && w < |s.workers| && s'.workers == s.workers[w := x] && !x.Asleep?
    requires |s'.sh.ready| + s.readyNotices + Checks(s.workers[w]) <= |s.sh.ready| + s'.readyNotices + Checks(x)
    ensures Noticed(s')
  {
    LookingUpdate(s.workers, w, x);
    if AnyAsleep(s'.workers) {
      var v :| 0 <= v < |s'.workers| && s'.workers[v].Asleep?;
      assert s.workers[v].Asleep?;
    }
  }

  lemma StepNoticed(s: State, e: Event)
    requires Noticed(s) && Enabled(s, e)
    ensures Noticed(Apply(s, e))
  {
    hide Looking;
    var s' := Apply(s, e);
    match e
    case NotifyReady(w) =>
      if s.workers[w].Asleep? {
        MoveNoticed(s, s', w, Checking);
      } else {
        assert s'.workers == s.workers;
      }
    case Check(w) =>
      if s.sh.ready != [] {
        MoveNoticed(s, s', w, s'.workers[w]);
      }
    case WakeSpuriously(w) => MoveNoticed(s, s', w, Checking);
    case Inspect(w) => MoveNoticed(s, s', w, s'.workers[w]);
    case Return(w) => MoveNoticed(s, s', w, s'.workers[w]);
    case FinishCall(w) => MoveNoticed(s, s', w, s'.workers[w]);
    case FinishNotify(w) => MoveNoticed(s, s', w, s'.workers[w]);
    case CallbackEnd(w) => MoveNoticed(s, s', w, s'.workers[w]);
    case _ =>
  }

  lemma {:induction false} RunNoticed(s: State, es: seq<Event>)
    requires Noticed(s) && IsRun(s, es)
    ensures Noticed(After(s, es))
    decreases |es|
  {
    hide Enabled, Apply, Noticed;
    if es != [] {
      StepNoticed(s, es[0]);
      RunNoticed(Apply(s, es[0]), es[1..]);
    }
  }

  /** In every reachable state of every interleaving, each queued call beside a sleeping worker has a
      wake-up of its own on its way; so the sleeper can be woken, or someone is about to look. */
  lemma NoLostWakeup(s: State, es: seq<Event>, w: nat)
    requires Init(s) && IsRun(s, es)
    ensures var t := After(s, es);
            && Noticed(t)
            && (w < |t.workers| && t.workers[w].Asleep? && t.sh.ready != [] ==>
                  Enabled(t, NotifyReady(w)) || exists v :: 0 <= v < |t.workers| && t.workers[v].Checking?)
  {
    RunNoticed(s, es);
    var t := After(s, es);
    if Looking(t.workers) > 0 {
      var v := SomeoneLooks(t.workers);
    }
  }

  lemma {:induction false} SomeoneLooks(workers: seq<Worker>) returns (v: nat)
    requires Looking(workers) > 0
    ensures v < |workers| && workers[v].Checking?
  {
    var n := |workers| - 1;
    if workers[n].Checking? {
      v := n;
    } else {
      v := SomeoneLooks(workers[..n]);
    }
  }
}
