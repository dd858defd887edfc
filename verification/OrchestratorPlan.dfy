/** The plan of a run: what each part of it wants to note and how it then ends, as a function of the
    limits and of the world around the orchestrator; and what becomes of a plan when an entry cannot be
    noted. */
module OrchestratorPlan {
  import opened Transcript
  import opened OrchestratorModel

  // ---------- Counting ----------

  /** The number of proposals in all turns before `turn`. */
  function CallsBefore(world: World, turn: nat): nat {
    if turn == 0 then 0 else CallsBefore(world, turn - 1) + |Calls(world.reply(turn - 1))|
  }

  /** How often the clock and the cancellation flag have been asked before `turn`: thrice in every
      turn, and twice for every call. */
  function Asked(world: World, turn: nat): nat {
    3 * turn + 2 * CallsBefore(world, turn)
  }

  function ActionsOf(calls: seq<Proposal>): set<ActionId> {
    set i | 0 <= i < |calls| :: calls[i].action
  }

  function CallIdsOf(calls: seq<Proposal>): set<CallId> {
    set i | 0 <= i < |calls| :: calls[i].callId
  }

  function ActionsBefore(world: World, turn: nat): set<ActionId> {
    if turn == 0 then {} else ActionsBefore(world, turn - 1) + ActionsOf(Calls(world.reply(turn - 1)))
  }

  function CallIdsBefore(world: World, turn: nat): set<CallId> {
    if turn == 0 then {} else CallIdsBefore(world, turn - 1) + CallIdsOf(Calls(world.reply(turn - 1)))
  }

  // ---------- What lets a run go on ----------

  /** The proposal at `i` repeats an earlier one of its turn, or one that was authorized before. */
  predicate Repeats(calls: seq<Proposal>, i: nat, actions: set<ActionId>, callIds: set<CallId>)
    requires i < |calls|
  {
    calls[i].callId in callIds || calls[i].action in actions ||
    exists j :: 0 <= j < i && (calls[j].callId == calls[i].callId || calls[j].action == calls[i].action)
  }

  /** The first `n` proposals are known, valid and new. */
  predicate Sound(calls: seq<Proposal>, n: nat, actions: set<ActionId>, callIds: set<CallId>)
    requires n <= |calls|
  {
    forall i :: 0 <= i < n ==> calls[i].known && calls[i].valid && !Repeats(calls, i, actions, callIds)
  }

  predicate TooMany(limits: RunLimits, calls: seq<Proposal>) {
    |calls| > limits.proposals || |calls| > limits.callsPerTurn
  }

  predicate HasBytes(reply: Reply) {
    reply.Final? || reply.Proposals?
  }

  function BytesOf(reply: Reply): nat {
    if HasBytes(reply) then reply.bytes else 0
  }

  function RequestBytes(world: World, turn: nat): nat {
    if world.request(turn).Encoded? then world.request(turn).bytes else 0
  }

  predicate InTime(world: World, turn: nat) {
    !world.cancelled(Asked(world, turn)) && !world.expired(Asked(world, turn) + 1)
  }

  predicate RequestFits(limits: RunLimits, world: World, turn: nat) {
    world.request(turn).Encoded? && world.request(turn).bytes <= limits.requestBytes
  }

  predicate ReplyInTime(limits: RunLimits, world: World, turn: nat) {
    InTime(world, turn) && RequestFits(limits, world, turn) && !world.reply(turn).Raises? && !world.expired(Asked(world, turn) + 2)
  }

  predicate ReplyFits(limits: RunLimits, reply: Reply) {
    HasBytes(reply) && reply.bytes <= limits.responseBytes
  }

  /** The turn gets to its proposals. */
  predicate Proposes(limits: RunLimits, world: World, turn: nat) {
    ReplyInTime(limits, world, turn) && ReplyFits(limits, world.reply(turn)) && world.reply(turn).Proposals? &&
    !TooMany(limits, world.reply(turn).calls)
  }

  predicate SoundUpTo(world: World, turn: nat, n: nat)
    requires n <= |Calls(world.reply(turn))|
  {
    Sound(Calls(world.reply(turn)), n, ActionsBefore(world, turn), CallIdsBefore(world, turn))
  }

  /** The question before a call: the first about cancellation, the one after it about the deadline. */
  function CallQuestion(world: World, turn: nat, index: nat): nat {
    Asked(world, turn) + 3 + 2 * index
  }

  predicate CallAllowed(limits: RunLimits, world: World, turn: nat, index: nat) {
    !world.cancelled(CallQuestion(world, turn, index)) && CallsBefore(world, turn) + index < limits.totalCalls &&
    !world.expired(CallQuestion(world, turn, index) + 1)
  }

  predicate CallPasses(limits: RunLimits, world: World, turn: nat, index: nat) {
    CallAllowed(limits, world, turn, index) && world.execution(turn, index).Answer?
  }

  /** The turn reaches its call at `index`: its proposals were accepted as a whole, and all calls
      before were answered. */
  predicate Reaches(limits: RunLimits, world: World, turn: nat, index: nat) {
    Proposes(limits, world, turn) && SoundUpTo(world, turn, |Calls(world.reply(turn))|) && index <= |Calls(world.reply(turn))| &&
    forall i :: 0 <= i < index ==> CallPasses(limits, world, turn, i)
  }

  /** The turn goes through to the next one. */
  predicate Passes(limits: RunLimits, world: World, turn: nat) {
    Reaches(limits, world, turn, |Calls(world.reply(turn))|)
  }

  // ---------- Plans ----------

  /** An entry to note. A refusal raises to the outer handler, or, for an entry about a call under way,
      to the handler of the call, which skips the later calls. */
  datatype Item = Outer(entry: Entry) | Inner(entry: Entry, later: seq<Proposal>)

  datatype Plan = Plan(items: seq<Item>, end: Ending)

  function Then(p: Plan, q: Plan): Plan {
    if p.end.GoOn? then Plan(p.items + q.items, q.end) else p
  }

  /** The request id of the first call of a turn. */
  function FirstId(world: World, turn: nat): nat {
    (if world.start.Started? then world.start.nextId else 1) + CallsBefore(world, turn)
  }

  function OpenPlan(world: World): Plan {
    match world.start
    case StartFails(f) => Plan([Outer(Plain(InitializeRequest))], Throw(f))
    case Started(initializeId, listId, surface, _) =>
      Plan([Outer(Plain(InitializeRequest)), Outer(ResponseEntry(InitializeResponse, initializeId)),
            Outer(Plain(InitializedNotification)), Outer(Plain(ToolsListRequest)),
            Outer(ResponseEntry(ToolsListResponse, listId)), Outer(SurfaceEntry(surface))], GoOn)
  }

  function AskPlan(limits: RunLimits, world: World, turn: nat): Plan {
    if world.cancelled(Asked(world, turn)) then Plan([], End(CancelledRun))
    else if world.expired(Asked(world, turn) + 1) then Plan([], Throw(McpTimeout))
    else
      match world.request(turn)
      case NotEncoded(f) => Plan([], Throw(f))
      case Encoded(bytes) =>
        if bytes > limits.requestBytes then Plan([], Throw(REQUEST_TOO_LARGE))
        else Then(Plan([Outer(TurnEntry(ProviderTurnStart, turn, bytes))], GoOn), HearPlan(limits, world, turn))
  }

  function HearPlan(limits: RunLimits, world: World, turn: nat): Plan {
    var reply := world.reply(turn);
    if reply.Raises? then Plan([], Throw(reply.f))
    else if world.expired(Asked(world, turn) + 2) then Plan([], End(DeadlineRun))
    else if !ReplyFits(limits, reply) then Plan([], End(FailedRun))
    else
      Plan([Outer(TurnEntry(ProviderTurnResponse, turn, reply.bytes))],
           if reply.Final? then End(FinalRun) else if TooMany(limits, reply.calls) then End(RejectedRun) else GoOn)
  }

  /** The first proposal from `i` on that stops the turn. */
  function FirstBad(calls: seq<Proposal>, i: nat, actions: set<ActionId>, callIds: set<CallId>): (n: nat)
    requires i <= |calls|
    ensures i <= n <= |calls|
    decreases |calls| - i
  {
    if i < |calls| && calls[i].known && calls[i].valid && !Repeats(calls, i, actions, callIds) then FirstBad(calls, i + 1, actions, callIds) else i
  }

  function SkipItems(calls: seq<Proposal>): seq<Item> {
    seq(|calls|, i requires 0 <= i < |calls| => Outer(ProposalEntry(Skipped, calls[i].callId)))
  }

  function RejectPlan(calls: seq<Proposal>, i: nat): Plan
    requires i < |calls|
  {
    var p := calls[i];
    if !p.known then Plan([Outer(ProposalEntry(ProposalRejected, p.callId))], End(RejectedRun))
    else if !p.valid then Plan([Outer(ProposalEntry(ProposalRejected, p.callId))] + SkipItems(calls[i + 1..]), End(RejectedRun))
    else Plan([Outer(ProposalEntry(ProposalDuplicate, p.callId))], End(DuplicateRun))
  }

  function ValidatePlan(world: World, turn: nat): Plan {
    var calls := Calls(world.reply(turn));
    var i := FirstBad(calls, 0, ActionsBefore(world, turn), CallIdsBefore(world, turn));
    if i < |calls| then RejectPlan(calls, i) else Plan([], GoOn)
  }

  function StopPlan(kind: Kind, id: CallId, outcome: Outcome): Plan {
    Plan([Outer(Plain(kind)), Outer(ProposalEntry(Skipped, id))], End(outcome))
  }

  function CheckPlan(limits: RunLimits, world: World, turn: nat, i: nat): Plan
    requires i < |Calls(world.reply(turn))|
  {
    var n, id := CallQuestion(world, turn, i), Calls(world.reply(turn))[i].callId;
    if world.cancelled(n) then StopPlan(Kind.Cancelled, id, CancelledRun)
    else if CallsBefore(world, turn) + i >= limits.totalCalls || world.expired(n + 1) then StopPlan(DeadlinePassed, id, DeadlineRun)
    else Plan([], GoOn)
  }

  function FailOutcome(f: FailureClass): Outcome {
    if f == CancelledFailure then CancelledRun else FailedRun
  }

  /** A call that was let through: authorized and requested, and then answered or not. */
  function SendPlan(world: World, turn: nat, i: nat): Plan
    requires i < |Calls(world.reply(turn))|
  {
    var x := world.execution(turn, i);
    if x.NotAuthorized? then Plan([], Throw(x.f))
    else Then(Plan([Outer(AuthorizedEntry(Calls(world.reply(turn))[i]))], GoOn), RequestPlan(world, turn, i))
  }

  function RequestPlan(world: World, turn: nat, i: nat): Plan
    requires i < |Calls(world.reply(turn))|
  {
    var calls, id := Calls(world.reply(turn)), FirstId(world, turn) + i;
    var action, later := calls[i].action, calls[i + 1..];
    Then(Plan([Inner(CallEntry(McpRequest, action, id), later)], GoOn), AnswerPlan(action, world.execution(turn, i), id, later))
  }

  function ReportItems(action: ActionId, id: nat, later: seq<Proposal>): seq<Item> {
    [Inner(CallEntry(McpResponse, action, id), later), Inner(CallEntry(EvidenceValidated, action, id), later)]
  }

  function AnswerPlan(action: ActionId, x: Execution, id: nat, later: seq<Proposal>): Plan {
    if x.Answer? then Plan(ReportItems(action, id, later), GoOn)
    else Plan([Outer(FailureEntry(x.f))] + SkipItems(later), End(FailOutcome(x.f)))
  }

  function CallPlan(limits: RunLimits, world: World, turn: nat, i: nat): Plan
    requires i < |Calls(world.reply(turn))|
  {
    Then(CheckPlan(limits, world, turn, i), SendPlan(world, turn, i))
  }

  /** The calls of a turn from `i` on. */
  function CallsPlan(limits: RunLimits, world: World, turn: nat, i: nat): Plan
    requires i <= |Calls(world.reply(turn))|
    decreases |Calls(world.reply(turn))| - i
  {
    if i == |Calls(world.reply(turn))| then Plan([], GoOn)
    else Then(CallPlan(limits, world, turn, i), CallsPlan(limits, world, turn, i + 1))
  }

  function TurnPlan(limits: RunLimits, world: World, turn: nat): Plan {
    Then(AskPlan(limits, world, turn), Then(ValidatePlan(world, turn), CallsPlan(limits, world, turn, 0)))
  }

  // ---------- Playing a plan ----------

  /** The transcript is limited once these entries have been noted: they do not leave room for the
      terminal marker any more. */
  predicate Overflows(limits: Limits, stream: seq<Entry>) {
    stream != [] && (|stream| >= limits.transcriptEventCount || |Text(stream + [TERMINAL], true)| > limits.transcriptBytes)
  }

  /** add refuses an entry that does not fit its schema, unless it ignores all entries. */
  predicate Refuses(limits: Limits, stream: seq<Entry>, entry: Entry) {
    !Notable(entry) && !Overflows(limits, stream)
  }

  datatype Played = Played(stream: seq<Entry>, end: Ending)

  /** What comes of a plan: all of it, or the part before the first entry that is refused. */
  function Play(limits: Limits, stream: seq<Entry>, items: seq<Item>, end: Ending): Played
    decreases |items|
  {
    if items == [] then Played(stream, end)
    else if Refuses(limits, stream, items[0].entry) then Stopped(limits, stream, items[0])
    else Play(limits, stream + [Kept(items[0].entry)], items[1..], end)
  }

  function PlayPlan(limits: Limits, stream: seq<Entry>, p: Plan): Played {
    Play(limits, stream, p.items, p.end)
  }

  /** A refused entry is a local failure, for the outer handler or for that of the call. */
  function Stopped(limits: Limits, stream: seq<Entry>, item: Item): Played {
    match item
    case Outer(_) => Played(stream, Throw(LOCAL_VALIDATION))
    case Inner(_, later) => PlaySkips(limits, stream + [Kept(FailureEntry(LOCAL_VALIDATION))], later, End(FailedRun))
  }

  function PlaySkips(limits: Limits, stream: seq<Entry>, later: seq<Proposal>, end: Ending): Played
    decreases |later|
  {
    if later == [] then Played(stream, end)
    else
      var entry := ProposalEntry(Skipped, later[0].callId);
      if Refuses(limits, stream, entry) then Played(stream, Throw(LOCAL_VALIDATION))
      else PlaySkips(limits, stream + [Kept(entry)], later[1..], end)
  }

  /** The turns of a run from `turn` on. */
  function StoryFrom(limits: RunLimits, world: World, turn: nat, stream: seq<Entry>): Played
    decreases limits.turns - turn
  {
    if turn >= limits.turns then Played(stream, End(BudgetRun))
    else
      var r := PlayPlan(limits.transcript, stream, TurnPlan(limits, world, turn));
      if r.end.GoOn? then StoryFrom(limits, world, turn + 1, r.stream) else r
  }

  /** The whole run up to its ending: everything noted, and how it ends. */
  function Story(limits: RunLimits, world: World): Played {
    var r := PlayPlan(limits.transcript, [Plain(ProcessStart)], OpenPlan(world));
    if r.end.GoOn? then StoryFrom(limits, world, 0, r.stream) else r
  }

  function HandledAs(f: FailureClass): Outcome {
    match f
    case CancelledFailure => CancelledRun
    case McpTimeout => DeadlineRun
    case TotalRequestTimeout => DeadlineRun
    case OtherFailure(_) => FailedRun
  }

  function HandlerEntry(f: FailureClass): Entry {
    match HandledAs(f)
    case CancelledRun => Plain(Kind.Cancelled)
    case DeadlineRun => Plain(DeadlinePassed)
    case _ => Kept(FailureEntry(f))
  }

  /** The outcome of a run that ends so, and the entry of the outer handler, if it comes to that. */
  function OutcomeOf(e: Ending): Outcome
    requires !e.GoOn?
  {
    if e.End? then e.outcome else HandledAs(e.f)
  }

  function Handling(e: Ending): seq<Entry> {
    if e.Throw? then [HandlerEntry(e.f)] else []
  }

  // ---------- Laws of playing ----------

  lemma PlayOne(limits: Limits, stream: seq<Entry>, item: Item, items: seq<Item>, end: Ending)
    ensures Play(limits, stream, [item] + items, end) ==
            if Refuses(limits, stream, item.entry) then Stopped(limits, stream, item)
            else Play(limits, stream + [Kept(item.entry)], items, end)
  {
    hide Refuses, Stopped, Kept;
    assert ([item] + items)[1..] == items;
  }

  lemma {:induction false} SkipsStop(limits: Limits, stream: seq<Entry>, later: seq<Proposal>, end: Ending)
    ensures var r := PlaySkips(limits, stream, later, GoOn);
            && (r.end.GoOn? || r.end == Throw(LOCAL_VALIDATION))
            && PlaySkips(limits, stream, later, end) == if r.end.GoOn? then Played(r.stream, end) else r
    decreases |later|
  {
    hide Refuses, Kept;
    if later != [] {
      SkipsStop(limits, stream + [Kept(ProposalEntry(Skipped, later[0].callId))], later[1..], end);
    }
  }

  lemma StoppedEnds(limits: Limits, stream: seq<Entry>, item: Item)
    ensures Stopped(limits, stream, item).end == Throw(LOCAL_VALIDATION) || Stopped(limits, stream, item).end == End(FailedRun)
  {
    hide PlaySkips;
    if item.Inner? {
      SkipsStop(limits, stream + [Kept(FailureEntry(LOCAL_VALIDATION))], item.later, End(FailedRun));
    }
  }

  lemma {:induction false} SkipsPlay(limits: Limits, stream: seq<Entry>, later: seq<Proposal>, end: Ending)
    ensures Play(limits, stream, SkipItems(later), end) == PlaySkips(limits, stream, later, end)
    decreases |later|
  {
    hide Refuses, Kept;
    if later != [] {
      var entry := ProposalEntry(Skipped, later[0].callId);
      assert SkipItems(later) == [Outer(entry)] + SkipItems(later[1..]);
      PlayOne(limits, stream, Outer(entry), SkipItems(later[1..]), end);
      SkipsPlay(limits, stream + [Kept(entry)], later[1..], end);
    }
  }

  /** One plan after another: the second is played where the first goes on. */
  lemma {:induction false} PlayBoth(limits: Limits, stream: seq<Entry>, items: seq<Item>, more: seq<Item>, end: Ending)
    ensures var r := Play(limits, stream, items, GoOn);
            Play(limits, stream, items + more, end) == if r.end.GoOn? then Play(limits, r.stream, more, end) else r
    decreases |items|
  {
    hide Refuses, Kept, Stopped;
    if items == [] {
      assert items + more == more;
    } else {
      assert items + more == [items[0]] + (items[1..] + more);
      PlayOne(limits, stream, items[0], items[1..] + more, end);
      StoppedEnds(limits, stream, items[0]);
      PlayBoth(limits, stream + [Kept(items[0].entry)], items[1..], more, end);
    }
  }

  lemma {:induction false} PlayEnds(limits: Limits, stream: seq<Entry>, items: seq<Item>, end: Ending)
    requires !end.GoOn?
    ensures !Play(limits, stream, items, end).end.GoOn?
    decreases |items|
  {
    hide Refuses, Kept, Stopped;
    if items != [] {
      StoppedEnds(limits, stream, items[0]);
      PlayEnds(limits, stream + [Kept(items[0].entry)], items[1..], end);
    }
  }

  lemma PlayThen(limits: Limits, stream: seq<Entry>, p: Plan, q: Plan)
    ensures var r := PlayPlan(limits, stream, p);
            PlayPlan(limits, stream, Then(p, q)) == if r.end.GoOn? then PlayPlan(limits, r.stream, q) else r
  {
    hide Play;
    if p.end.GoOn? {
      PlayBoth(limits, stream, p.items, q.items, q.end);
    } else {
      PlayEnds(limits, stream, p.items, p.end);
    }
  }

  lemma {:induction false} StoryFromEnds(limits: RunLimits, world: World, turn: nat, stream: seq<Entry>)
    ensures !StoryFrom(limits, world, turn, stream).end.GoOn?
    decreases limits.turns - turn
  {
    hide PlayPlan, TurnPlan;
    if turn < limits.turns {
      StoryFromEnds(limits, world, turn + 1, PlayPlan(limits.transcript, stream, TurnPlan(limits, world, turn)).stream);
    }
  }

  lemma StoryEnds(limits: RunLimits, world: World)
    ensures !Story(limits, world).end.GoOn?
  {
    hide PlayPlan, StoryFrom;
    StoryFromEnds(limits, world, 0, PlayPlan(limits.transcript, [Plain(ProcessStart)], OpenPlan(world)).stream);
  }

  // ---------- Pieces of plans, played ----------

  predicate IsMark(kind: Kind) {
    !kind.Unknown? && !kind.TranscriptLimit? && Schema(kind) == {}
  }

  lemma MarkIs(kind: Kind)
    requires IsMark(kind)
    ensures IsPlain(Plain(kind)) && Notable(Plain(kind)) && Kept(Plain(kind)) == Plain(kind)
  {
    assert RedactAll(map[]) == map[];
  }

  lemma FailureNotable(f: FailureClass)
    ensures IsPlain(FailureEntry(f)) && Notable(FailureEntry(f)) && FailureEntry(f).kind == Failure
  {
    hide FailureText;
  }

  lemma NothingPlayed(limits: Limits, stream: seq<Entry>)
    ensures forall end :: PlayPlan(limits, stream, Plan([], end)) == Played(stream, end)
  {
  }

  lemma PlayLast(limits: Limits, stream: seq<Entry>, item: Item, end: Ending)
    ensures Play(limits, stream, [item], end) ==
            if Refuses(limits, stream, item.entry) then Stopped(limits, stream, item) else Played(stream + [Kept(item.entry)], end)
  {
    hide Refuses, Stopped, Kept;
    assert [item][1..] == [];
  }

  lemma PlayTwo(limits: Limits, stream: seq<Entry>, a: Item, b: Item, end: Ending)
    ensures Play(limits, stream, [a, b], end) ==
            if Refuses(limits, stream, a.entry) then Stopped(limits, stream, a)
            else if Refuses(limits, stream + [Kept(a.entry)], b.entry) then Stopped(limits, stream + [Kept(a.entry)], b)
            else Played(stream + [Kept(a.entry)] + [Kept(b.entry)], end)
  {
    hide Refuses, Stopped, Kept, Play;
    assert [a, b] == [a] + [b];
    PlayOne(limits, stream, a, [b], end);
    PlayLast(limits, stream + [Kept(a.entry)], b, end);
  }

  lemma RejectIs(limits: Limits, stream: seq<Entry>, calls: seq<Proposal>, i: nat)
    requires i < |calls|
    ensures var p := calls[i];
            var entry := ProposalEntry(if p.known && p.valid then ProposalDuplicate else ProposalRejected, p.callId);
            PlayPlan(limits, stream, RejectPlan(calls, i)) ==
            if Refuses(limits, stream, entry) then Played(stream, Throw(LOCAL_VALIDATION))
            else if p.known && !p.valid then PlaySkips(limits, stream + [Kept(entry)], calls[i + 1..], End(RejectedRun))
            else Played(stream + [Kept(entry)], if p.known && p.valid then End(DuplicateRun) else End(RejectedRun))
  {
    hide Refuses, Kept, Play, PlaySkips, SkipItems;
    var p := calls[i];
    var entry := ProposalEntry(if p.known && p.valid then ProposalDuplicate else ProposalRejected, p.callId);
    PlayOne(limits, stream, Outer(entry), SkipItems(calls[i + 1..]), End(RejectedRun));
    SkipsPlay(limits, stream + [Kept(entry)], calls[i + 1..], End(RejectedRun));
    PlayLast(limits, stream, Outer(entry), RejectPlan(calls, i).end);
  }

  lemma SendIs(limits: Limits, stream: seq<Entry>, world: World, turn: nat, i: nat)
    requires i < |Calls(world.reply(turn))|
    ensures var x, entry := world.execution(turn, i), AuthorizedEntry(Calls(world.reply(turn))[i]);
            PlayPlan(limits, stream, SendPlan(world, turn, i)) ==
            if x.NotAuthorized? then Played(stream, Throw(x.f))
            else if Refuses(limits, stream, entry) then Played(stream, Throw(LOCAL_VALIDATION))
            else PlayPlan(limits, stream + [Kept(entry)], RequestPlan(world, turn, i))
  {
    hide Refuses, Kept, Play, RequestPlan, AuthorizedEntry;
    NothingPlayed(limits, stream);
    var rest := RequestPlan(world, turn, i);
    PlayOne(limits, stream, Outer(AuthorizedEntry(Calls(world.reply(turn))[i])), rest.items, rest.end);
  }

  lemma RequestIs(limits: Limits, stream: seq<Entry>, world: World, turn: nat, i: nat)
    requires i < |Calls(world.reply(turn))|
    ensures var calls, id := Calls(world.reply(turn)), FirstId(world, turn) + i;
            var action, later, x := calls[i].action, calls[i + 1..], world.execution(turn, i);
            var entry := CallEntry(McpRequest, action, id);
            var requested := stream + [Kept(entry)];
            PlayPlan(limits, stream, RequestPlan(world, turn, i)) ==
            if Refuses(limits, stream, entry) then PlaySkips(limits, stream + [Kept(FailureEntry(LOCAL_VALIDATION))], later, End(FailedRun))
            else if x.Answer? then Play(limits, requested, ReportItems(action, id, later), GoOn)
            else PlaySkips(limits, requested + [Kept(FailureEntry(x.f))], later, End(FailOutcome(x.f)))
  {
    hide Refuses, Kept, Play, PlaySkips, CallEntry, SkipItems, FailureEntry, FirstId, ReportItems;
    var calls, x, id := Calls(world.reply(turn)), world.execution(turn, i), FirstId(world, turn) + i;
    var p, later := calls[i], calls[i + 1..];
    var entry, answer := CallEntry(McpRequest, p.action, id), AnswerPlan(p.action, x, id, later);
    PlayOne(limits, stream, Inner(entry, later), answer.items, answer.end);
    if !x.Answer? {
      FailureRefused(limits, stream + [Kept(entry)], x.f);
      PlayOne(limits, stream + [Kept(entry)], Outer(FailureEntry(x.f)), SkipItems(later), answer.end);
      SkipsPlay(limits, stream + [Kept(entry)] + [Kept(FailureEntry(x.f))], later, answer.end);
    }
  }

  lemma FailureRefused(limits: Limits, stream: seq<Entry>, f: FailureClass)
    ensures !Refuses(limits, stream, FailureEntry(f))
  {
    hide FailureEntry, Notable;
    FailureNotable(f);
  }

  lemma MarkRefused(limits: Limits, stream: seq<Entry>, kind: Kind)
    requires IsMark(kind)
    ensures !Refuses(limits, stream, Plain(kind)) && Kept(Plain(kind)) == Plain(kind)
  {
    hide Notable, IsMark, Kept;
    MarkIs(kind);
  }

  lemma OpenIs(limits: Limits, stream: seq<Entry>, world: World)
    ensures var r := PlayPlan(limits, stream, OpenPlan(world));
            var begun := stream + [Plain(InitializeRequest)];
            match world.start
            case StartFails(f) => r == Played(begun, Throw(f))
            case Started(initializeId, listId, surface, _) =>
              var first, second, third := ResponseEntry(InitializeResponse, initializeId), ResponseEntry(ToolsListResponse, listId), SurfaceEntry(surface);
              var between := begun + [Kept(first)] + [Plain(InitializedNotification)] + [Plain(ToolsListRequest)];
              r == if Refuses(limits, begun, first) then Played(begun, Throw(LOCAL_VALIDATION))
                   else if Refuses(limits, between, second) then Played(between, Throw(LOCAL_VALIDATION))
                   else if Refuses(limits, between + [Kept(second)], third) then Played(between + [Kept(second)], Throw(LOCAL_VALIDATION))
                   else Played(between + [Kept(second)] + [Kept(third)], GoOn)
  {
    hide Refuses, Kept, Play, ResponseEntry, SurfaceEntry;
    var begun := stream + [Plain(InitializeRequest)];
    MarkRefused(limits, stream, InitializeRequest);
    match world.start
    case StartFails(f) => PlayLast(limits, stream, Outer(Plain(InitializeRequest)), Throw(f));
    case Started(initializeId, listId, surface, _) =>
      var first, second, third := ResponseEntry(InitializeResponse, initializeId), ResponseEntry(ToolsListResponse, listId), SurfaceEntry(surface);
      var items := OpenPlan(world).items;
      assert items == [items[0]] + ([items[1]] + ([items[2]] + ([items[3]] + [items[4], items[5]])));
      PlayOne(limits, stream, items[0], [items[1]] + ([items[2]] + ([items[3]] + [items[4], items[5]])), GoOn);
      PlayOne(limits, begun, items[1], [items[2]] + ([items[3]] + [items[4], items[5]]), GoOn);
      MarkRefused(limits, begun + [Kept(first)], InitializedNotification);
      PlayOne(limits, begun + [Kept(first)], items[2], [items[3]] + [items[4], items[5]], GoOn);
      MarkRefused(limits, begun + [Kept(first)] + [Plain(InitializedNotification)], ToolsListRequest);
      PlayOne(limits, begun + [Kept(first)] + [Plain(InitializedNotification)], items[3], [items[4], items[5]], GoOn);
      PlayTwo(limits, begun + [Kept(first)] + [Plain(InitializedNotification)] + [Plain(ToolsListRequest)], items[4], items[5], GoOn);
  }

  // ---------- The writer behind a story ----------

  /** The events of a transcript are the stream, or its longest prefix that leaves room for the terminal
      marker, and the marker. */
  ghost predicate Cut(limits: Limits, events: seq<Entry>, limited: bool, stream: seq<Entry>) {
    if !limited then events == stream && !Overflows(limits, stream)
    else
      events != [] && |events| <= |stream| && events == stream[..|events| - 1] + [TERMINAL] &&
      !Overflows(limits, stream[..|events| - 1]) && Overflows(limits, stream[..|events|])
  }

  lemma OverflowStays(limits: Limits, stream: seq<Entry>, e: Entry)
    requires Overflows(limits, stream)
    ensures Overflows(limits, stream + [e])
  {
    hide EntryText;
    var more := stream + [e];
    assert (more + [TERMINAL])[..|more|] == more && (stream + [TERMINAL])[..|stream|] == stream && more[..|stream|] == stream;
    assert EntriesText(more + [TERMINAL]) == EntriesText(more) + "," + EntryText(TERMINAL);
    assert EntriesText(more) == EntriesText(stream) + "," + EntryText(e);
    assert EntriesText(stream + [TERMINAL]) == EntriesText(stream) + "," + EntryText(TERMINAL);
  }

  lemma {:induction false} OverflowsOn(limits: Limits, stream: seq<Entry>, n: nat)
    requires n <= |stream| && Overflows(limits, stream[..n])
    ensures Overflows(limits, stream)
    decreases |stream| - n
  {
    hide Overflows;
    if n == |stream| {
      assert stream[..n] == stream;
    } else {
      assert stream[..n + 1] == stream[..n] + [stream[n]];
      OverflowStays(limits, stream[..n], stream[n]);
      OverflowsOn(limits, stream, n + 1);
    }
  }

  /** A transcript is limited exactly when its stream overflows. */
  lemma CutIsLimited(limits: Limits, events: seq<Entry>, limited: bool, stream: seq<Entry>)
    requires Cut(limits, events, limited, stream)
    ensures limited <==> Overflows(limits, stream)
  {
    hide Overflows;
    if limited {
      OverflowsOn(limits, stream, |events|);
    }
  }

  /** The writer's step keeps the cut, and refuses exactly what the story says it refuses. */
  lemma CutKeeps(limits: Limits, events: seq<Entry>, limited: bool, stream: seq<Entry>, e: Entry)
    requires WriterOk(limits, events, limited) && limits.transcriptEventCount > 0 && events != [] && !e.kind.TranscriptLimit?
    requires Cut(limits, events, limited, stream)
    ensures var (events', limited', r) := AddStep(limits, events, limited, e);
            && (r.Added? <==> !Refuses(limits, stream, e))
            && (if r.Added? then Cut(limits, events', limited', stream + [Kept(e)]) else Cut(limits, events', limited', stream))
  {
    hide Text, SchemaOk, ValuesOk, RedactAll, WriterOk;
    AddKeeps(limits, events, limited, e);
    CutIsLimited(limits, events, limited, stream);
    var more := stream + [Kept(e)];
    if limited {
      assert more[..|events| - 1] == stream[..|events| - 1] && more[..|events|] == stream[..|events|];
    } else {
      assert more[..|events|] == events && more[..|events| + 1] == more;
    }
  }

  /** There is one transcript for a stream. */
  lemma CutUnique(limits: Limits, events: seq<Entry>, limited: bool, events': seq<Entry>, limited': bool, stream: seq<Entry>)
    requires Cut(limits, events, limited, stream) && Cut(limits, events', limited', stream)
    ensures events == events' && limited == limited'
  {
    hide Overflows;
    CutIsLimited(limits, events, limited, stream);
    CutIsLimited(limits, events', limited', stream);
    if limited {
      if |events| < |events'| {
        assert stream[..|events'| - 1][..|events|] == stream[..|events|];
        OverflowsOn(limits, stream[..|events'| - 1], |events|);
      } else if |events'| < |events| {
        assert stream[..|events| - 1][..|events'|] == stream[..|events'|];
        OverflowsOn(limits, stream[..|events| - 1], |events'|);
      }
    }
  }

  lemma CutRecorded(limits: Limits, events: seq<Entry>, limited: bool, stream: seq<Entry>)
    requires Cut(limits, events, limited, stream)
    ensures Recorded(events, limited, stream)
  {
    hide Overflows;
  }

  // ---------- The books of a run ----------

  /** How many requests a stream notes. */
  function Requests(stream: seq<Entry>): nat {
    if stream == [] then 0
    else Requests(stream[..|stream| - 1]) + if stream[|stream| - 1].kind.McpRequest? then 1 else 0
  }

  lemma RequestsMore(stream: seq<Entry>, e: Entry)
    ensures Requests(stream + [e]) == Requests(stream) + if e.kind.McpRequest? then 1 else 0
  {
    assert (stream + [e])[..|stream|] == stream;
  }

  /** The request ids are those of the places of the calls. */
  ghost predicate Numbered(world: World, sent: seq<Sent>) {
    forall k :: 0 <= k < |sent| ==> sent[k].requestId == FirstId(world, sent[k].turn) + sent[k].index
  }

  /** Each request that was noted was sent and answered, but for the last one: it may not have been
      written, or not been answered, and then because its execution came to that. */
  ghost predicate Settled(world: World, requests: nat, sent: seq<Sent>, order: seq<ActionId>, place: (nat, nat)) {
    Numbered(world, sent) &&
    (requests == |sent| == |order|
     || (requests == |order| + 1 && if |sent| == |order| then Unwritten(world, place) else Unanswered(world, place)))
  }

  predicate Unwritten(world: World, place: (nat, nat)) {
    place.1 < |Calls(world.reply(place.0))| &&
    (world.execution(place.0, place.1).NotStarted? || world.execution(place.0, place.1).NotWritten?)
  }

  predicate Unanswered(world: World, place: (nat, nat)) {
    place.1 > 0 && world.execution(place.0, place.1 - 1).NoAnswer?
  }
}
