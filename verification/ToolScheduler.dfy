/** The scheduler object: the fields its mutex guards, and one method for each block that runs under the
    mutex. The object carries the state of the whole system as a ghost; every method is one step of it,
    so that what holds of all runs holds of the object. */
module ToolSchedulerObject {
  import M = SchedulerModel
  import I = SchedulerInvariant
  import S = SchedulerSafety

  class ToolScheduler {
    const limit: nat
    var inFlight: map<string, M.CallId>
    var ready: seq<M.CallId>
    var controls: seq<M.Control>
    var stats: M.Stats
    var accepting: bool
    var stopping: bool
    var joined: bool
    ghost var system: M.State

    ghost function View(): M.Shared
      reads this
    {
      M.Shared(inFlight, ready, controls, stats, accepting, stopping)
    }

    /** The fields are the guarded part of a system state that satisfies the invariant. */
    ghost predicate Valid()
      reads this
    {
      I.Inv(system) && system.sh == View() && system.limit == limit && system.joined == joined
    }

    constructor (limit: nat, workers: nat)
      requires limit > 0 && workers > 0
      ensures Valid() && M.Init(system) && this.limit == limit && |system.workers| == workers
    {
      this.limit := limit;
      inFlight, ready, controls := map[], [], [];
      stats := M.Stats(0, 0, 0, 0, 0, 0);
      accepting, stopping, joined := true, false, false;
      system := M.State(M.Shared(map[], [], [], M.Stats(0, 0, 0, 0, 0, 0), true, false), [], seq(workers, _ => M.Checking),
                        M.NotRunning, false, 0, 0, 0, 0, limit);
      new;
      I.InitInv(system);
    }

    // A step of some thread outside the mutex, such as a notification or an executor returning.
    ghost method Elsewhere(e: M.Event)
      requires Valid() && M.Enabled(system, e) && M.Apply(system, e).sh == system.sh && M.Apply(system, e).joined == system.joined
      modifies this`system
      ensures Valid() && system == M.Apply(old(system), e)
    {
      hide I.Inv, M.Enabled;
      I.StepKeeps(system, e);
      LimitStays(system, e);
      system := M.Apply(system, e);
    }

    /** The locked block of submit: a new call is admitted exactly when admission is open, its key is
        free and the limit is not reached; then it is in flight under its key, never cancelled before. */
    method Admit(key: string, deadline: nat) returns (status: M.SubmitStatus)
      requires Valid()
      modifies this
      ensures Valid() && system == M.Apply(old(system), M.Submit(key, deadline))
      ensures status.Accepted? <==> old(accepting) && key !in old(inFlight) && |old(inFlight)| < limit
      ensures status.DuplicateRequestId? <==> old(accepting) && key in old(inFlight)
      ensures status.Stopped? <==> !old(accepting)
      ensures status.Accepted? ==> inFlight == old(inFlight)[key := |old(controls)|] && controls == old(controls) + [M.Control(key, deadline, false)]
      ensures !status.Accepted? ==> inFlight == old(inFlight) && controls == old(controls)
      ensures |inFlight| <= limit && stats.accepted == |controls|
    {
      hide I.Inv;
      I.StepKeeps(system, M.Submit(key, deadline));
      Counted(M.Apply(system, M.Submit(key, deadline)));
      system := M.Apply(system, M.Submit(key, deadline));
      if !accepting {
        return M.Stopped;
      }
      if key in inFlight {
        stats := stats.(duplicateRejections := stats.duplicateRejections + 1);
        return M.DuplicateRequestId;
      }
      if |inFlight| >= limit {
        stats := stats.(queueRejections := stats.queueRejections + 1);
        return M.QueueFull;
      }
      inFlight := inFlight[key := |controls|];
      controls := controls + [M.Control(key, deadline, false)];
      stats := stats.(accepted := stats.accepted + 1);
      return M.Accepted;
    }

    /** The locked block of submit's catch clause: the erase by key alone removes the failed call's
        entry and no other. */
    method EraseFailed(c: M.CallId)
      requires Valid() && M.Enabled(system, M.LaunchFail(c))
      modifies this
      ensures Valid() && system == M.Apply(old(system), M.LaunchFail(c))
      ensures c < |controls| && controls[c].key in old(inFlight) && old(inFlight)[controls[c].key] == c
      ensures inFlight == old(inFlight) - {controls[c].key} && c !in inFlight.Values
    {
      hide I.Inv;
      I.StepKeeps(system, M.LaunchFail(c));
      LaunchingOwns(system, c);
      system := M.Apply(system, M.LaunchFail(c));
      inFlight := inFlight - {controls[c].key};
    }

    /** The noexcept push: the queue keeps within the capacity reserved for it and holds the call once. */
    method Enqueue(c: M.CallId)
      requires Valid() && M.Enabled(system, M.Event.Launch(c))
      modifies this
      ensures Valid() && system == M.Apply(old(system), M.Event.Launch(c))
      ensures ready == old(ready) + [c] && c !in old(ready) && |ready| <= |inFlight| <= limit
    {
      hide I.Inv;
      I.LaunchKeeps(system, c);
      LaunchingNotQueued(system, c);
      system := M.Apply(system, M.Event.Launch(c));
      ready := ready + [c];
      S.ReadyFits(system);
    }

    /** The locked block of worker_loop: the front call goes to this worker alone and is still in
        flight; a worker exits only when nothing is left and nothing can come. */
    method Take(w: nat) returns (taken: M.Taken)
      requires Valid() && M.Enabled(system, M.Check(w))
      modifies this
      ensures Valid() && system == M.Apply(old(system), M.Check(w))
      ensures taken.Take? ==> old(ready) == [taken.c] + ready && taken.c !in ready && taken.c in inFlight.Values
      ensures taken.Take? ==> forall v :: 0 <= v < |system.workers| && v != w ==> !I.Holds(system.workers[v], taken.c)
      ensures taken.Wait? ==> old(ready) == [] && ready == []
      ensures taken.Exit? ==> inFlight == map[] && ready == [] && stopping && !accepting
    {
      hide I.Inv, I.Holds;
      I.StepKeeps(system, M.Check(w));
      FrontIsLive(system, w);
      system := M.Apply(system, M.Check(w));
      if ready == [] {
        return if stopping then M.Exit else M.Wait;
      }
      taken := M.Take(ready[0]);
      ready := ready[1..];
    }

    /** The locked block of finish: the entry under the key is this call's own, it is removed, and the
        callback is due exactly when the call was not cancelled. */
    method Finish(w: nat, c: M.CallId, haveResult: bool, timedOut: bool) returns (send: bool)
      requires Valid() && M.Enabled(system, M.FinishCall(w)) && system.workers[w] == M.Executed(c, haveResult, timedOut)
      modifies this
      ensures Valid() && system == M.Apply(old(system), M.FinishCall(w))
      ensures controls == old(controls) && ready == old(ready) && c < |controls|
      ensures controls[c].key in old(inFlight) && old(inFlight)[controls[c].key] == c
      ensures inFlight == old(inFlight) - {controls[c].key} && |inFlight| == |old(inFlight)| - 1
      ensures send <==> !controls[c].cancelled
      ensures stats.completed + stats.cancelled == old(stats).completed + old(stats).cancelled + 1
    {
      hide I.Inv;
      I.FinishErases(system, w);
      I.StepKeeps(system, M.FinishCall(w));
      system := M.Apply(system, M.FinishCall(w));
      send := false;
      var key := controls[c].key;
      if key in inFlight && inFlight[key] == c {
        if controls[c].cancelled {
          stats := stats.(cancelled := stats.cancelled + 1);
        } else if timedOut {
          stats := stats.(timedOut := stats.timedOut + 1);
          stats := stats.(completed := stats.completed + 1);
          send := haveResult;
        } else {
          stats := stats.(completed := stats.completed + 1);
          send := haveResult;
        }
        inFlight := inFlight - {key};
      }
    }

    /** Found exactly when a call is in flight under the key; that call, and only that one, is then
        flagged, and its callback has not begun. */
    method Cancel(key: string) returns (found: bool)
      requires Valid()
      modifies this
      ensures Valid() && system == M.Apply(old(system), M.CancelCall(key))
      ensures found <==> key in old(inFlight)
      ensures inFlight == old(inFlight) && |controls| == |old(controls)| == |system.life|
      ensures forall c :: 0 <= c < |controls| && !(found && c == inFlight[key]) ==> controls[c] == old(controls)[c]
      ensures found ==> inFlight[key] < |controls| && controls[inFlight[key]].cancelled && system.life[inFlight[key]].started == 0
    {
      hide I.Inv;
      FoundIsLive(system, key);
      I.StepKeeps(system, M.CancelCall(key));
      system := M.Apply(system, M.CancelCall(key));
      if key !in inFlight {
        return false;
      }
      var c := inFlight[key];
      controls := controls[c := controls[c].(cancelled := true)];
      return true;
    }

    /** The locked block of request_stop, a loop over the calls in flight: exactly they are flagged. */
    method RequestStop()
      requires Valid()
      modifies this
      ensures Valid() && system == M.Apply(old(system), M.StopAll)
      ensures !accepting && inFlight == old(inFlight) && |controls| == |old(controls)|
      ensures forall c :: 0 <= c < |controls| ==>
                controls[c] == if c in inFlight.Values then old(controls)[c].(cancelled := true) else old(controls)[c]
    {
      hide I.Inv;
      InMap(system);
      I.StepKeeps(system, M.StopAll);
      system := M.Apply(system, M.StopAll);
      accepting := false;
      FlagPending();
      assert View() == M.RequestStop(old(View()));
    }

    method FlagPending()
      requires I.MapOk(View())
      modifies this`controls
      ensures |controls| == |old(controls)|
      ensures forall c :: 0 <= c < |controls| ==>
                controls[c] == if c in inFlight.Values then old(controls)[c].(cancelled := true) else old(controls)[c]
    {
      var pending := inFlight.Keys;
      while pending != {}
        invariant pending <= inFlight.Keys && |controls| == |old(controls)|
        invariant forall c :: 0 <= c < |controls| ==>
          controls[c] == if c in Flagged(pending) then old(controls)[c].(cancelled := true) else old(controls)[c]
        decreases pending
      {
        var key :| key in pending;
        assert Flagged(pending - {key}) == Flagged(pending) + {inFlight[key]};
        controls := controls[inFlight[key] := controls[inFlight[key]].(cancelled := true)];
        pending := pending - {key};
      }
      assert Flagged({}) == inFlight.Values;
    }

    /** The calls whose keys the loop has already visited. */
    ghost function Flagged(pending: set<string>): set<M.CallId>
      reads this
    {
      set key | key in inFlight && key !in pending :: inFlight[key]
    }

    /** shutdown called on a worker: admission closes, and nothing waits. */
    method CloseAdmission(w: nat)
      requires Valid() && M.Enabled(system, M.ShutdownOnWorker(w))
      modifies this
      ensures Valid() && system == M.Apply(old(system), M.ShutdownOnWorker(w))
      ensures !accepting && system.shutdown == old(system).shutdown && system.workers == old(system).workers
    {
      hide I.Inv;
      I.StepKeeps(system, M.ShutdownOnWorker(w));
      system := M.Apply(system, M.ShutdownOnWorker(w));
      accepting := false;
    }

    /** The start of shutdown on any other thread; after an earlier one has returned there is nothing to do. */
    method BeginShutdown() returns (done: bool)
      requires Valid() && M.Enabled(system, M.ShutdownBegin)
      modifies this
      ensures Valid() && system == M.Apply(old(system), M.ShutdownBegin)
      ensures !accepting && (if done then joined && system == old(system) else system.shutdown.Draining?)
    {
      hide I.Inv;
      I.StepKeeps(system, M.ShutdownBegin);
      JoinedIsClosed(system);
      system := M.Apply(system, M.ShutdownBegin);
      if joined {
        return true;
      }
      accepting := false;
      done := false;
    }

    /** shutdown's wait: stopping is set, in the same hold of the mutex, exactly when nothing is in
        flight, and then nothing is queued either. */
    method Drain() returns (drained: bool)
      requires Valid() && M.Enabled(system, M.DrainCheck)
      modifies this
      ensures Valid() && system == M.Apply(old(system), M.DrainCheck)
      ensures drained == (inFlight == map[]) == stopping
      ensures drained ==> ready == [] && !accepting
    {
      hide I.Inv;
      I.StepKeeps(system, M.DrainCheck);
      NotStopping(system);
      system := M.Apply(system, M.DrainCheck);
      drained := inFlight == map[];
      if drained {
        stopping := true;
      }
      S.ReadyFits(system);
    }

    /** The end of shutdown, after every worker has exited: each call was cancelled, failed to launch,
        or had its callback run to the end exactly once. */
    method FinishShutdown()
      requires Valid() && M.Enabled(system, M.Join)
      modifies this
      ensures Valid() && system == M.Apply(old(system), M.Join) && joined
      ensures forall c :: 0 <= c < |system.life| ==>
                system.life[c] == M.Life(M.Delivered, 1, 1) ||
                ((system.life[c].phase.Cancelled? || system.life[c].phase.LaunchFailed?) && system.life[c].started == 0)
    {
      hide I.Inv;
      I.StepKeeps(system, M.Join);
      system := M.Apply(system, M.Join);
      joined := true;
      forall c | 0 <= c < |system.life|
        ensures system.life[c] == M.Life(M.Delivered, 1, 1) ||
                ((system.life[c].phase.Cancelled? || system.life[c].phase.LaunchFailed?) && system.life[c].started == 0)
      {
        S.ShutdownReturned(system, [], c);
      }
    }
  }

  lemma LimitStays(s: M.State, e: M.Event)
    requires M.Enabled(s, e)
    ensures M.Apply(s, e).limit == s.limit
  {
  }

  lemma Counted(s: M.State)
    requires I.Inv(s)
    ensures |s.sh.inFlight| <= s.limit && s.sh.stats.accepted == |s.sh.controls|
  {
  }

  lemma LaunchingOwns(s: M.State, c: M.CallId)
    requires I.Inv(s) && M.Enabled(s, M.LaunchFail(c))
    ensures c < |s.sh.controls| && I.Owns(s.sh, c) && I.MapOk(s.sh)
  {
    assert I.CallOk(s.sh, s.life[c], s.workers, c);
  }

  lemma LaunchingNotQueued(s: M.State, c: M.CallId)
    requires I.Inv(s) && M.Enabled(s, M.Event.Launch(c))
    ensures c !in s.sh.ready
  {
    assert I.CallOk(s.sh, s.life[c], s.workers, c);
  }

  lemma FrontIsLive(s: M.State, w: nat)
    requires I.Inv(s) && M.Enabled(s, M.Check(w))
    ensures s.sh.ready != [] ==>
              var c := s.sh.ready[0];
              && c in s.sh.inFlight.Values && c !in s.sh.ready[1..]
              && forall v :: 0 <= v < |s.workers| ==> !I.Holds(s.workers[v], c)
    ensures s.sh.ready == [] && s.sh.stopping ==> s.sh.inFlight == map[] && !s.sh.accepting
  {
    if s.sh.ready != [] {
      var c := s.sh.ready[0];
      assert I.CallOk(s.sh, s.life[c], s.workers, c);
      forall v | 0 <= v < |s.workers| ensures !I.Holds(s.workers[v], c) {
        assert I.WorkerOk(s.sh, s.life, s.workers[v], v);
      }
    }
  }

  lemma InMap(s: M.State)
    requires I.Inv(s)
    ensures I.MapOk(s.sh)
  {
  }

  lemma FoundIsLive(s: M.State, key: string)
    requires I.Inv(s)
    ensures |s.life| == |s.sh.controls|
    ensures key in s.sh.inFlight ==> s.sh.inFlight[key] < |s.sh.controls| && s.life[s.sh.inFlight[key]].started == 0
  {
    if key in s.sh.inFlight {
      assert I.CallOk(s.sh, s.life[s.sh.inFlight[key]], s.workers, s.sh.inFlight[key]);
    }
  }

  lemma JoinedIsClosed(s: M.State)
    requires I.Inv(s)
    ensures s.joined ==> !s.sh.accepting
  {
  }

  lemma NotStopping(s: M.State)
    requires I.Inv(s) && s.shutdown.Draining?
    ensures !s.sh.stopping && !s.sh.accepting
  {
  }
}
