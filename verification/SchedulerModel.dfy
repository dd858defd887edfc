/** The tool scheduler: the state its mutex guards, the blocks that run under the mutex, and the
    threads between those blocks, as one transition system. */
module SchedulerModel {

  type CallId = nat

  datatype SubmitStatus = Accepted | QueueFull | DuplicateRequestId | Stopped

  datatype Stats = Stats(accepted: nat, completed: nat, cancelled: nat, timedOut: nat,
                         queueRejections: nat, duplicateRejections: nat)

  /** What an accepted call keeps: `cancelled` is cancelled_by_client. */
  datatype Control = Control(key: string, deadline: nat, cancelled: bool)

  /** Everything the mutex guards. Calls are named by the order of their acceptance. */
  datatype Shared = Shared(inFlight: map<string, CallId>, ready: seq<CallId>, controls: seq<Control>,
                           stats: Stats, accepting: bool, stopping: bool)

  // ---------- Blocks under the mutex ----------

  function Admit(sh: Shared, limit: nat, key: string, deadline: nat): (Shared, SubmitStatus) {
    if !sh.accepting then (sh, Stopped)
    else if key in sh.inFlight then
      (sh.(stats := sh.stats.(duplicateRejections := sh.stats.duplicateRejections + 1)), DuplicateRequestId)
    else if |sh.inFlight| >= limit then
      (sh.(stats := sh.stats.(queueRejections := sh.stats.queueRejections + 1)), QueueFull)
    else
      (sh.(inFlight := sh.inFlight[key := |sh.controls|],
           controls := sh.controls + [Control(key, deadline, false)],
           stats := sh.stats.(accepted := sh.stats.accepted + 1)), Accepted)
  }

  /** The erase after a launch that threw: by key, without an identity check. */
  function EraseFailed(sh: Shared, c: CallId): Shared
    requires c < |sh.controls|
  {
    sh.(inFlight := sh.inFlight - {sh.controls[c].key})
  }

  function Enqueue(sh: Shared, c: CallId): Shared {
    sh.(ready := sh.ready + [c])
  }

  datatype Taken = Exit | Wait | Take(c: CallId)

  /** What a worker that holds the mutex finds. */
  function Next(sh: Shared): Taken {
    if sh.ready != [] then Take(sh.ready[0]) else if sh.stopping then Exit else Wait
  }

  function Finish(sh: Shared, c: CallId, haveResult: bool, timedOut: bool): (Shared, bool)
    requires c < |sh.controls|
  {
    var key := sh.controls[c].key;
    if key in sh.inFlight && sh.inFlight[key] == c then
      var erased := sh.(inFlight := sh.inFlight - {key});
      if sh.controls[c].cancelled then
        (erased.(stats := sh.stats.(cancelled := sh.stats.cancelled + 1)), false)
      else if timedOut then
        (erased.(stats := sh.stats.(timedOut := sh.stats.timedOut + 1, completed := sh.stats.completed + 1)), haveResult)
      else
        (erased.(stats := sh.stats.(completed := sh.stats.completed + 1)), haveResult)
    else (sh, false)
  }

  function Cancel(sh: Shared, key: string): (Shared, bool) {
    if key in sh.inFlight && sh.inFlight[key] < |sh.controls| then
      var c := sh.inFlight[key];
      (sh.(controls := sh.controls[c := sh.controls[c].(cancelled := true)]), true)
    else (sh, false)
  }

  function RequestStop(sh: Shared): Shared {
    sh.(accepting := false,
        controls := seq(|sh.controls|, c requires 0 <= c < |sh.controls| =>
          if c in sh.inFlight.Values then sh.controls[c].(cancelled := true) else sh.controls[c]))
  }

  function CloseAdmission(sh: Shared): Shared {
    sh.(accepting := false)
  }

  function SetStopping(sh: Shared): Shared {
    sh.(stopping := true)
  }

  // ---------- Threads ----------

  /** Where a worker is. `Checking` is about to take the mutex in worker_loop, `Asleep` waits on
      ready_cv, `Resumed` is at the first cancellation test of run, `Finished` has left finish's
      locked block and not yet notified done_cv, `Calling` is inside the completion callback. */
  datatype Worker =
    | Checking | Asleep | Exited
    | Resumed(c: CallId) | Executing(c: CallId) | Executed(c: CallId, haveResult: bool, timedOut: bool)
    | Finished(c: CallId, send: bool) | Calling(c: CallId)

  /** Where the thread that holds shutdown_mutex is. */
  datatype Shutdown = NotRunning | Draining | DrainAsleep | Notifying | Joining

  /** How far an accepted call has come; `Silent` would be a call that completes without a callback. */
  datatype Phase =
    | Launching | Queued | Active(w: nat) | Delivering(w: nat) | Delivered
    | Cancelled | LaunchFailed | Silent

  /** A call's history: its phase, and how often its callback was started and ended. */
  datatype Life = Life(phase: Phase, started: nat, ended: nat)

  datatype State = State(sh: Shared, life: seq<Life>, workers: seq<Worker>, shutdown: Shutdown, joined: bool,
                         readyNotices: nat, doneNotices: nat, failedLaunches: nat, now: nat, limit: nat)

  datatype Event =
    | Tick
    | Submit(key: string, deadline: nat)
    | Launch(c: CallId) | LaunchFail(c: CallId)
    | NotifyReady(w: nat) | NotifyDone
    | Check(w: nat) | WakeSpuriously(w: nat) | WakeDrainSpuriously
    | Inspect(w: nat) | Return(w: nat) | FinishCall(w: nat) | FinishNotify(w: nat) | CallbackEnd(w: nat)
    | CancelCall(key: string) | StopAll | ShutdownOnWorker(w: nat)
    | ShutdownBegin | DrainCheck | NotifyAll | Join

  predicate Live(p: Phase) {
    p.Launching? || p.Queued? || p.Active?
  }

  predicate AnyAsleep(workers: seq<Worker>) {
    exists w :: 0 <= w < |workers| && workers[w].Asleep?
  }

  predicate Enabled(s: State, e: Event) {
    match e
    case Tick => true
    case Submit(_, _) => true
    case Launch(c) => c < |s.life| && s.life[c].phase.Launching?
    case LaunchFail(c) => c < |s.life| && s.life[c].phase.Launching? && |s.life| == |s.sh.controls|
    case NotifyReady(w) =>
      s.readyNotices > 0 && w < |s.workers| && (s.workers[w].Asleep? || !AnyAsleep(s.workers))
    case NotifyDone => s.doneNotices > 0
    case Check(w) => w < |s.workers| && s.workers[w].Checking?
    case WakeSpuriously(w) => w < |s.workers| && s.workers[w].Asleep?
    case WakeDrainSpuriously => s.shutdown.DrainAsleep?
    case Inspect(w) => w < |s.workers| && s.workers[w].Resumed? && s.workers[w].c < |s.sh.controls|
    case Return(w) => w < |s.workers| && s.workers[w].Executing? && s.workers[w].c < |s.sh.controls|
    case FinishCall(w) =>
      w < |s.workers| && s.workers[w].Executed? && s.workers[w].c < |s.sh.controls| == |s.life|
    case FinishNotify(w) => w < |s.workers| && s.workers[w].Finished? && s.workers[w].c < |s.life|
    case CallbackEnd(w) => w < |s.workers| && s.workers[w].Calling? && s.workers[w].c < |s.life|
    case CancelCall(_) => true
    case StopAll => true
    case ShutdownOnWorker(w) => w < |s.workers| && (s.workers[w].Executing? || s.workers[w].Calling?)
    case ShutdownBegin => s.shutdown.NotRunning?
    case DrainCheck => s.shutdown.Draining?
    case NotifyAll => s.shutdown.Notifying?
    case Join => s.shutdown.Joining? && forall w :: 0 <= w < |s.workers| ==> s.workers[w].Exited?
  }

  function WakeOne(w: Worker): Worker {
    if w.Asleep? then Checking else w
  }

  function WakeAll(workers: seq<Worker>): (r: seq<Worker>)
    ensures |r| == |workers| && forall w :: 0 <= w < |r| ==> r[w] == WakeOne(workers[w])
  {
    seq(|workers|, w requires 0 <= w < |workers| => WakeOne(workers[w]))
  }

  function WakeDrain(d: Shutdown): Shutdown {
    if d.DrainAsleep? then Draining else d
  }

  function SetPhase(life: seq<Life>, c: CallId, p: Phase): seq<Life>
    requires c < |life|
  {
    life[c := life[c].(phase := p)]
  }

  // ---------- Steps ----------

  function SubmitStep(s: State, key: string, deadline: nat): State {
    var (sh, status) := Admit(s.sh, s.limit, key, deadline);
    s.(sh := sh, life := if status.Accepted? then s.life + [Life(Launching, 0, 0)] else s.life)
  }

  function CheckStep(s: State, w: nat): State
    requires w < |s.workers|
  {
    match Next(s.sh)
    case Exit => s.(workers := s.workers[w := Exited])
    case Wait => s.(workers := s.workers[w := Asleep])
    case Take(c) =>
      s.(sh := s.sh.(ready := s.sh.ready[1..]), workers := s.workers[w := Resumed(c)],
         life := if c < |s.life| then SetPhase(s.life, c, Active(w)) else s.life)
  }

  function InspectStep(s: State, w: nat): State
    requires w < |s.workers| && s.workers[w].Resumed? && s.workers[w].c < |s.sh.controls|
  {
    var c := s.workers[w].c;
    var next := if s.sh.controls[c].cancelled then Executed(c, false, false)
                else if s.now >= s.sh.controls[c].deadline then Executed(c, true, true)
                else Executing(c);
    s.(workers := s.workers[w := next])
  }

  function ReturnStep(s: State, w: nat): State
    requires w < |s.workers| && s.workers[w].Executing? && s.workers[w].c < |s.sh.controls|
  {
    var c := s.workers[w].c;
    s.(workers := s.workers[w := Executed(c, true, !s.sh.controls[c].cancelled && s.now >= s.sh.controls[c].deadline)])
  }

  function FinishStep(s: State, w: nat): State
    requires w < |s.workers| && s.workers[w].Executed? && s.workers[w].c < |s.sh.controls| == |s.life|
  {
    var Executed(c, haveResult, timedOut) := s.workers[w];
    var (sh, send) := Finish(s.sh, c, haveResult, timedOut);
    s.(sh := sh, workers := s.workers[w := Finished(c, send)],
       life := SetPhase(s.life, c, if send then Delivering(w) else if s.sh.controls[c].cancelled then Cancelled else Silent))
  }

  function FinishNotifyStep(s: State, w: nat): State
    requires w < |s.workers| && s.workers[w].Finished? && s.workers[w].c < |s.life|
  {
    var Finished(c, send) := s.workers[w];
    var woken := s.(shutdown := WakeDrain(s.shutdown));
    if send then
      woken.(workers := s.workers[w := Calling(c)], life := s.life[c := s.life[c].(started := s.life[c].started + 1)])
    else woken.(workers := s.workers[w := Checking])
  }

  function CallbackEndStep(s: State, w: nat): State
    requires w < |s.workers| && s.workers[w].Calling? && s.workers[w].c < |s.life|
  {
    var c := s.workers[w].c;
    s.(workers := s.workers[w := Checking], life := s.life[c := Life(Delivered, s.life[c].started, s.life[c].ended + 1)])
  }

  function Apply(s: State, e: Event): State
    requires Enabled(s, e)
  {
    match e
    case Tick => s.(now := s.now + 1)
    case Submit(key, deadline) => SubmitStep(s, key, deadline)
    case Launch(c) =>
      s.(sh := Enqueue(s.sh, c), life := SetPhase(s.life, c, Queued), readyNotices := s.readyNotices + 1)
    case LaunchFail(c) =>
      s.(sh := EraseFailed(s.sh, c), life := SetPhase(s.life, c, LaunchFailed),
         doneNotices := s.doneNotices + 1, failedLaunches := s.failedLaunches + 1)
    case NotifyReady(w) =>
      s.(readyNotices := s.readyNotices - 1, workers := s.workers[w := WakeOne(s.workers[w])])
    case NotifyDone => s.(doneNotices := s.doneNotices - 1, shutdown := WakeDrain(s.shutdown))
    case Check(w) => CheckStep(s, w)
    case WakeSpuriously(w) => s.(workers := s.workers[w := Checking])
    case WakeDrainSpuriously => s.(shutdown := Draining)
    case Inspect(w) => InspectStep(s, w)
    case Return(w) => ReturnStep(s, w)
    case FinishCall(w) => FinishStep(s, w)
    case FinishNotify(w) => FinishNotifyStep(s, w)
    case CallbackEnd(w) => CallbackEndStep(s, w)
    case CancelCall(key) => s.(sh := Cancel(s.sh, key).0)
    case StopAll => s.(sh := RequestStop(s.sh))
    case ShutdownOnWorker(_) => s.(sh := CloseAdmission(s.sh))
    case ShutdownBegin => if s.joined then s else s.(sh := CloseAdmission(s.sh), shutdown := Draining)
    case DrainCheck =>
      if s.sh.inFlight == map[] then s.(sh := SetStopping(s.sh), shutdown := Notifying) else s.(shutdown := DrainAsleep)
    case NotifyAll => s.(workers := WakeAll(s.workers), shutdown := Joining)
    case Join => s.(joined := true, shutdown := NotRunning)
  }

  ghost predicate Init(s: State) {
    s.sh == Shared(map[], [], [], Stats(0, 0, 0, 0, 0, 0), true, false) && s.life == [] &&
    |s.workers| > 0 && (forall w :: 0 <= w < |s.workers| ==> s.workers[w].Checking?) &&
    s.shutdown.NotRunning? && !s.joined && s.readyNotices == s.doneNotices == s.failedLaunches == 0 && s.limit > 0
  }

  /** The events can be taken one after another. */
  ghost predicate IsRun(s: State, es: seq<Event>)
    decreases |es|
  {
    es == [] || (Enabled(s, es[0]) && IsRun(Apply(s, es[0]), es[1..]))
  }

  ghost function After(s: State, es: seq<Event>): State
    requires IsRun(s, es)
    decreases |es|
  {
    if es == [] then s else After(Apply(s, es[0]), es[1..])
  }
}
