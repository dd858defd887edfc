/** The account of a run: which turns went through, what decided the end, and what the transcript then
    says. It tells the plan of a turn by what happened in it, and the story of a run by its turns. */
module OrchestratorAccount {
  import opened Options
  import opened Transcript
  import opened OrchestratorModel
  import opened OrchestratorPlan

  // ---------- What decides a turn ----------

  /** The reply, failure, limit or question that ends a run in a turn, if every entry can be noted. */
  datatype Decision =
    | TurnCancelled(turn: nat) | TurnTooLate(turn: nat) | RequestRefused(turn: nat) | ProviderRaises(turn: nat)
    | ReplyTooLate(turn: nat) | ReplyUnfit(turn: nat) | FinalReply(turn: nat) | TooManyProposals(turn: nat)
    | BadProposal(turn: nat, index: nat)
    | CallCancelled(turn: nat, index: nat) | CallsUsedUp(turn: nat, index: nat) | CallTooLate(turn: nat, index: nat)
    | CallUnauthorized(turn: nat, index: nat) | CallFails(turn: nat, index: nat)

  predicate IsCallDecision(d: Decision) {
    d.CallCancelled? || d.CallsUsedUp? || d.CallTooLate? || d.CallUnauthorized? || d.CallFails?
  }

  /** The decision is what happens in this world, all before it in its turn having gone well. */
  predicate Happens(limits: RunLimits, world: World, d: Decision) {
    match d
    case TurnCancelled(t) => world.cancelled(Asked(world, t))
    case TurnTooLate(t) => !world.cancelled(Asked(world, t)) && world.expired(Asked(world, t) + 1)
    case RequestRefused(t) => InTime(world, t) && !RequestFits(limits, world, t)
    case ProviderRaises(t) => InTime(world, t) && RequestFits(limits, world, t) && world.reply(t).Raises?
    case ReplyTooLate(t) =>
      InTime(world, t) && RequestFits(limits, world, t) && !world.reply(t).Raises? && world.expired(Asked(world, t) + 2)
    case ReplyUnfit(t) => ReplyInTime(limits, world, t) && !ReplyFits(limits, world.reply(t))
    case FinalReply(t) => ReplyInTime(limits, world, t) && ReplyFits(limits, world.reply(t)) && world.reply(t).Final?
    case TooManyProposals(t) =>
      ReplyInTime(limits, world, t) && ReplyFits(limits, world.reply(t)) && TooMany(limits, Calls(world.reply(t)))
    case BadProposal(t, i) =>
      Proposes(limits, world, t) && i < |Calls(world.reply(t))| && SoundUpTo(world, t, i) && !SoundUpTo(world, t, i + 1)
    case CallCancelled(t, i) => AtCall(limits, world, t, i) && world.cancelled(CallQuestion(world, t, i))
    case CallsUsedUp(t, i) =>
      AtCall(limits, world, t, i) && !world.cancelled(CallQuestion(world, t, i)) && CallsBefore(world, t) + i >= limits.totalCalls
    case CallTooLate(t, i) =>
      AtCall(limits, world, t, i) && !world.cancelled(CallQuestion(world, t, i)) && CallsBefore(world, t) + i < limits.totalCalls &&
      world.expired(CallQuestion(world, t, i) + 1)
    case CallUnauthorized(t, i) =>
      AtCall(limits, world, t, i) && CallAllowed(limits, world, t, i) && world.execution(t, i).NotAuthorized?
    case CallFails(t, i) =>
      AtCall(limits, world, t, i) && CallAllowed(limits, world, t, i) && !world.execution(t, i).NotAuthorized? && !world.execution(t, i).Answer?
  }

  predicate AtCall(limits: RunLimits, world: World, turn: nat, index: nat) {
    Reaches(limits, world, turn, index) && index < |Calls(world.reply(turn))|
  }

  // ---------- What a turn wants to note ----------

  function AskItems(world: World, turn: nat): seq<Item> {
    [Outer(TurnEntry(ProviderTurnStart, turn, RequestBytes(world, turn))), Outer(TurnEntry(ProviderTurnResponse, turn, BytesOf(world.reply(turn))))]
  }

  /** A call that is answered. */
  function CallItems(world: World, turn: nat, i: nat): seq<Item> {
    var calls, id := Calls(world.reply(turn)), FirstId(world, turn) + i;
    if i >= |calls| then []
    else
      [Outer(AuthorizedEntry(calls[i])), Inner(CallEntry(McpRequest, calls[i].action, id), calls[i + 1..])]
      + ReportItems(calls[i].action, id, calls[i + 1..])
  }

  function CallsItems(world: World, turn: nat, n: nat): seq<Item> {
    if n == 0 then [] else CallsItems(world, turn, n - 1) + CallItems(world, turn, n - 1)
  }

  /** A turn whose calls are all answered. */
  function TurnItems(world: World, turn: nat): seq<Item> {
    AskItems(world, turn) + CallsItems(world, turn, |Calls(world.reply(turn))|)
  }

  /** What the part of the turn before the decision wants to note. */
  function Lead(world: World, d: Decision): seq<Item> {
    if d.BadProposal? then AskItems(world, d.turn)
    else if IsCallDecision(d) then AskItems(world, d.turn) + CallsItems(world, d.turn, d.index)
    else []
  }

  /** What is to be noted of the decision itself. */
  function Noted(world: World, d: Decision): seq<Item> {
    var calls, start := Calls(world.reply(d.turn)), [Outer(TurnEntry(ProviderTurnStart, d.turn, RequestBytes(world, d.turn)))];
    match d
    case ProviderRaises(_) => start
    case ReplyTooLate(_) => start
    case ReplyUnfit(_) => start
    case FinalReply(t) => AskItems(world, t)
    case TooManyProposals(t) => AskItems(world, t)
    case BadProposal(_, i) =>
      if i >= |calls| then []
      else if !calls[i].known then [Outer(ProposalEntry(ProposalRejected, calls[i].callId))]
      else if !calls[i].valid then [Outer(ProposalEntry(ProposalRejected, calls[i].callId))] + SkipItems(calls[i + 1..])
      else [Outer(ProposalEntry(ProposalDuplicate, calls[i].callId))]
    case CallCancelled(_, i) => StopItems(Kind.Cancelled, calls, i)
    case CallsUsedUp(_, i) => StopItems(DeadlinePassed, calls, i)
    case CallTooLate(_, i) => StopItems(DeadlinePassed, calls, i)
    case CallFails(t, i) =>
      if i >= |calls| || world.execution(t, i).Answer? then []
      else
        [Outer(AuthorizedEntry(calls[i])), Inner(CallEntry(McpRequest, calls[i].action, FirstId(world, t) + i), calls[i + 1..]),
         Outer(FailureEntry(world.execution(t, i).f))] + SkipItems(calls[i + 1..])
    case _ => []
  }

  function StopItems(kind: Kind, calls: seq<Proposal>, i: nat): seq<Item> {
    if i >= |calls| then [] else [Outer(Plain(kind)), Outer(ProposalEntry(Skipped, calls[i].callId))]
  }

  /** How the decision ends the run: with an outcome, or with a failure for the outer handler. */
  function Verdict(world: World, d: Decision): Ending {
    match d
    case TurnCancelled(_) => End(CancelledRun)
    case TurnTooLate(_) => Throw(McpTimeout)
    case RequestRefused(t) => Throw(if world.request(t).NotEncoded? then world.request(t).f else REQUEST_TOO_LARGE)
    case ProviderRaises(t) => if world.reply(t).Raises? then Throw(world.reply(t).f) else GoOn
    case ReplyTooLate(_) => End(DeadlineRun)
    case ReplyUnfit(_) => End(FailedRun)
    case FinalReply(_) => End(FinalRun)
    case TooManyProposals(_) => End(RejectedRun)
    case BadProposal(t, i) =>
      var calls := Calls(world.reply(t));
      End(if i < |calls| && calls[i].known && calls[i].valid then DuplicateRun else RejectedRun)
    case CallCancelled(_, _) => End(CancelledRun)
    case CallsUsedUp(_, _) => End(DeadlineRun)
    case CallTooLate(_, _) => End(DeadlineRun)
    case CallUnauthorized(t, i) => if world.execution(t, i).NotAuthorized? then Throw(world.execution(t, i).f) else GoOn
    case CallFails(t, i) =>
      var x := world.execution(t, i);
      End(if x.Answer? then FailedRun else FailOutcome(x.f))
  }

  // ---------- One thing decides ----------

  lemma NotPast(limits: RunLimits, world: World, d: Decision, j: nat)
    requires IsCallDecision(d) && Happens(limits, world, d) && j > d.index
    ensures !Reaches(limits, world, d.turn, j)
  {
    hide Proposes, SoundUpTo, CallAllowed;
    if Reaches(limits, world, d.turn, j) {
      assert CallPasses(limits, world, d.turn, d.index);
      Disallowed(limits, world, d);
    }
  }

  lemma Disallowed(limits: RunLimits, world: World, d: Decision)
    requires IsCallDecision(d) && Happens(limits, world, d)
    ensures !CallPasses(limits, world, d.turn, d.index) && Reaches(limits, world, d.turn, d.index)
  {
    hide Reaches;
  }

  lemma CallDecisionUnique(limits: RunLimits, world: World, d: Decision, other: Decision)
    requires Happens(limits, world, d) && Happens(limits, world, other) && IsCallDecision(d) && IsCallDecision(other) && d.turn == other.turn
    ensures d == other
  {
    hide Reaches;
    Disallowed(limits, world, d);
    Disallowed(limits, world, other);
    if d.index < other.index {
      NotPast(limits, world, d, other.index);
    } else if other.index < d.index {
      NotPast(limits, world, other, d.index);
    }
  }

  /** Within a turn one thing decides, and a turn in which something decides does not go through. */
  lemma DecisionUnique(limits: RunLimits, world: World, turn: nat, d: Decision, other: Decision)
    requires Happens(limits, world, d) && d.turn == turn
    ensures !Passes(limits, world, turn)
    ensures Happens(limits, world, other) && other.turn == turn ==> d == other
  {
    hide CallPasses, CallAllowed, Sound;
    if IsCallDecision(d) {
      Disallowed(limits, world, d);
      NotPast(limits, world, d, |Calls(world.reply(turn))|);
    }
    if Happens(limits, world, other) && other.turn == turn && IsCallDecision(other) && IsCallDecision(d) {
      CallDecisionUnique(limits, world, d, other);
    }
    SoundPrefixes(world, turn);
  }

  lemma SoundPrefixes(world: World, turn: nat)
    ensures forall i, n :: 0 <= i <= n <= |Calls(world.reply(turn))| && SoundUpTo(world, turn, n) ==> SoundUpTo(world, turn, i)
  {
    hide Repeats;
  }

  // ---------- The plan of a turn, told by what happens in it ----------

  lemma AskDecides(limits: RunLimits, world: World, turn: nat) returns (d: Option<Decision>)
    ensures d.None? <==> Proposes(limits, world, turn)
    ensures d.None? ==> AskPlan(limits, world, turn) == Plan(AskItems(world, turn), GoOn)
    ensures d.Some? ==> Happens(limits, world, d.value) && d.value.turn == turn && Lead(world, d.value) == [] &&
                        AskPlan(limits, world, turn) == Plan(Noted(world, d.value), Verdict(world, d.value)) && !Verdict(world, d.value).GoOn?
  {
    hide TurnEntry, Asked;
    var n, reply := Asked(world, turn), world.reply(turn);
    d := if world.cancelled(n) then Some(TurnCancelled(turn))
         else if world.expired(n + 1) then Some(TurnTooLate(turn))
         else if !RequestFits(limits, world, turn) then Some(RequestRefused(turn))
         else if reply.Raises? then Some(ProviderRaises(turn))
         else if world.expired(n + 2) then Some(ReplyTooLate(turn))
         else if !ReplyFits(limits, reply) then Some(ReplyUnfit(turn))
         else if reply.Final? then Some(FinalReply(turn))
         else if TooMany(limits, reply.calls) then Some(TooManyProposals(turn))
         else None;
  }

  lemma {:induction false} FirstBadIs(calls: seq<Proposal>, i: nat, actions: set<ActionId>, callIds: set<CallId>)
    requires i <= |calls| && Sound(calls, i, actions, callIds)
    ensures var n := FirstBad(calls, i, actions, callIds);
            Sound(calls, n, actions, callIds) && (n < |calls| ==> !Sound(calls, n + 1, actions, callIds))
    decreases |calls| - i
  {
    hide Repeats;
    if i < |calls| && calls[i].known && calls[i].valid && !Repeats(calls, i, actions, callIds) {
      FirstBadIs(calls, i + 1, actions, callIds);
    }
  }

  lemma ValidateDecides(limits: RunLimits, world: World, turn: nat) returns (d: Option<Decision>)
    requires Proposes(limits, world, turn)
    ensures d.None? <==> SoundUpTo(world, turn, |Calls(world.reply(turn))|)
    ensures d.None? ==> ValidatePlan(world, turn) == Plan([], GoOn)
    ensures d.Some? ==> d.value.BadProposal? && Happens(limits, world, d.value) && d.value.turn == turn &&
                        ValidatePlan(world, turn) == Plan(Noted(world, d.value), Verdict(world, d.value)) && !Verdict(world, d.value).GoOn?
  {
    hide Proposes, Repeats, ActionsBefore, CallIdsBefore, Sound;
    var calls := Calls(world.reply(turn));
    var i := FirstBad(calls, 0, ActionsBefore(world, turn), CallIdsBefore(world, turn));
    SoundNone(calls, ActionsBefore(world, turn), CallIdsBefore(world, turn));
    FirstBadIs(calls, 0, ActionsBefore(world, turn), CallIdsBefore(world, turn));
    SoundPrefixes(world, turn);
    assert i < |calls| ==> !SoundUpTo(world, turn, i + 1);
    d := if i < |calls| then Some(BadProposal(turn, i)) else None;
  }

  lemma SoundNone(calls: seq<Proposal>, actions: set<ActionId>, callIds: set<CallId>)
    ensures Sound(calls, 0, actions, callIds)
  {
  }

  lemma CheckDecides(limits: RunLimits, world: World, turn: nat, i: nat) returns (d: Option<Decision>)
    requires Reaches(limits, world, turn, i) && i < |Calls(world.reply(turn))|
    ensures d.None? <==> CallAllowed(limits, world, turn, i)
    ensures d.None? ==> CheckPlan(limits, world, turn, i) == Plan([], GoOn)
    ensures d.Some? ==> IsCallDecision(d.value) && Happens(limits, world, d.value) && d.value.turn == turn && d.value.index == i &&
                        CheckPlan(limits, world, turn, i) == Plan(Noted(world, d.value), Verdict(world, d.value)) && !Verdict(world, d.value).GoOn?
  {
    hide Reaches, CallQuestion, CallsBefore;
    var n := CallQuestion(world, turn, i);
    d := if world.cancelled(n) then Some(CallCancelled(turn, i))
         else if CallsBefore(world, turn) + i >= limits.totalCalls then Some(CallsUsedUp(turn, i))
         else if world.expired(n + 1) then Some(CallTooLate(turn, i))
         else None;
  }

  lemma SendDecides(limits: RunLimits, world: World, turn: nat, i: nat) returns (d: Option<Decision>)
    requires Reaches(limits, world, turn, i) && i < |Calls(world.reply(turn))| && CallAllowed(limits, world, turn, i)
    ensures d.None? <==> world.execution(turn, i).Answer?
    ensures d.None? ==> SendPlan(world, turn, i) == Plan(CallItems(world, turn, i), GoOn)
    ensures d.Some? ==> IsCallDecision(d.value) && Happens(limits, world, d.value) && d.value.turn == turn && d.value.index == i &&
                        SendPlan(world, turn, i) == Plan(Noted(world, d.value), Verdict(world, d.value)) && !Verdict(world, d.value).GoOn?
  {
    hide Reaches, CallAllowed, AuthorizedEntry, CallEntry, FailureEntry, SkipItems, FirstId;
    var x := world.execution(turn, i);
    d := if x.NotAuthorized? then Some(CallUnauthorized(turn, i)) else if !x.Answer? then Some(CallFails(turn, i)) else None;
  }

  lemma CallDecides(limits: RunLimits, world: World, turn: nat, i: nat) returns (d: Option<Decision>)
    requires Reaches(limits, world, turn, i) && i < |Calls(world.reply(turn))|
    ensures d.None? <==> CallPasses(limits, world, turn, i)
    ensures d.None? ==> CallPlan(limits, world, turn, i) == Plan(CallItems(world, turn, i), GoOn)
    ensures d.Some? ==> IsCallDecision(d.value) && Happens(limits, world, d.value) && d.value.turn == turn && d.value.index == i &&
                        CallPlan(limits, world, turn, i) == Plan(Noted(world, d.value), Verdict(world, d.value)) && !Verdict(world, d.value).GoOn?
  {
    hide Reaches, CallAllowed, CheckPlan, SendPlan, Noted, Verdict, Happens, CallItems;
    d := CheckDecides(limits, world, turn, i);
    if d.None? {
      d := SendDecides(limits, world, turn, i);
    }
  }

  lemma {:induction false} CallsDecide(limits: RunLimits, world: World, turn: nat, i: nat) returns (d: Option<Decision>)
    requires Reaches(limits, world, turn, i)
    ensures d.None? <==> Passes(limits, world, turn)
    ensures var p, n := CallsPlan(limits, world, turn, i), |Calls(world.reply(turn))|;
            && (d.None? ==> p.end.GoOn? && CallsItems(world, turn, i) + p.items == CallsItems(world, turn, n))
            && (d.Some? ==> IsCallDecision(d.value) && Happens(limits, world, d.value) && d.value.turn == turn && d.value.index < n &&
                            CallsItems(world, turn, i) + p.items == CallsItems(world, turn, d.value.index) + Noted(world, d.value) &&
                            p.end == Verdict(world, d.value) && !p.end.GoOn?)
    decreases |Calls(world.reply(turn))| - i
  {
    hide CallPlan, CallItems, CallPasses, Proposes, SoundUpTo, Happens, Noted, Verdict;
    if i == |Calls(world.reply(turn))| {
      d := None;
    } else {
      d := CallDecides(limits, world, turn, i);
      if d.None? {
        d := CallsDecide(limits, world, turn, i + 1);
      }
    }
  }

  lemma TurnPlanIs(limits: RunLimits, world: World, turn: nat)
    ensures var ask, validate, calls, whole := AskPlan(limits, world, turn), ValidatePlan(world, turn), CallsPlan(limits, world, turn, 0), TurnPlan(limits, world, turn);
            && (!ask.end.GoOn? ==> whole == ask)
            && (ask.end.GoOn? && !validate.end.GoOn? ==> whole == Plan(ask.items + validate.items, validate.end))
            && (ask.end.GoOn? && validate == Plan([], GoOn) ==> whole == Plan(ask.items + calls.items, calls.end))
  {
    hide AskPlan, ValidatePlan, CallsPlan;
  }

  lemma CallsLead(world: World, d: Decision, items: seq<Item>)
    requires IsCallDecision(d) && CallsItems(world, d.turn, 0) + items == CallsItems(world, d.turn, d.index) + Noted(world, d)
    ensures AskItems(world, d.turn) + items == Lead(world, d) + Noted(world, d)
  {
    hide Noted, AskItems;
    assert items == CallsItems(world, d.turn, 0) + items;
    assert AskItems(world, d.turn) + items == AskItems(world, d.turn) + CallsItems(world, d.turn, d.index) + Noted(world, d);
  }

  // The other turns begin with what was asked, too.
  lemma AskLeads(world: World, turn: nat, items: seq<Item>)
    ensures CallsItems(world, turn, 0) + items == CallsItems(world, turn, |Calls(world.reply(turn))|) ==>
              AskItems(world, turn) + items == TurnItems(world, turn)
    ensures forall d: Decision :: d.BadProposal? && d.turn == turn ==> Lead(world, d) == AskItems(world, turn)
  {
    hide AskItems;
    assert CallsItems(world, turn, 0) + items == items;
  }

  lemma PassesIs(limits: RunLimits, world: World, turn: nat)
    ensures Passes(limits, world, turn) ==> Proposes(limits, world, turn) && SoundUpTo(world, turn, |Calls(world.reply(turn))|)
    ensures Proposes(limits, world, turn) && SoundUpTo(world, turn, |Calls(world.reply(turn))|) ==> Reaches(limits, world, turn, 0)
  {
    hide Proposes, SoundUpTo;
  }

  /** A turn goes through exactly if it passes, and its plan is then that of a turn with all calls
      answered; otherwise one thing decides, and the plan is what is noted up to that, with its verdict. */
  lemma PlanDecides(limits: RunLimits, world: World, turn: nat) returns (d: Option<Decision>)
    ensures d.None? <==> Passes(limits, world, turn)
    ensures d.None? ==> TurnPlan(limits, world, turn) == Plan(TurnItems(world, turn), GoOn)
    ensures d.Some? ==> Happens(limits, world, d.value) && d.value.turn == turn && !Verdict(world, d.value).GoOn? &&
                        TurnPlan(limits, world, turn) == Plan(Lead(world, d.value) + Noted(world, d.value), Verdict(world, d.value))
  {
    hide AskPlan, ValidatePlan, CallsPlan, TurnPlan, Passes, Reaches, Proposes, SoundUpTo, Happens, Noted, Verdict, Lead,
         AskItems, CallsItems, TurnItems;
    TurnPlanIs(limits, world, turn);
    AskLeads(world, turn, CallsPlan(limits, world, turn, 0).items);
    PassesIs(limits, world, turn);
    d := AskDecides(limits, world, turn);
    if d.Some? {
      return;
    }
    d := ValidateDecides(limits, world, turn);
    if d.Some? {
      return;
    }
    d := CallsDecide(limits, world, turn, 0);
    if d.Some? {
      CallsLead(world, d.value, CallsPlan(limits, world, turn, 0).items);
    }
  }

  // ---------- The story of a run, told by its turns ----------

  function KeptAll(items: seq<Item>): seq<Entry> {
    if items == [] then [] else KeptAll(items[..|items| - 1]) + [Kept(items[|items| - 1].entry)]
  }

  lemma KeptMore(items: seq<Item>, item: Item)
    ensures KeptAll(items + [item]) == KeptAll(items) + [Kept(item.entry)]
  {
    assert (items + [item])[..|items|] == items;
  }

  /** None of the first `n` items is refused. */
  ghost predicate NotesUpTo(limits: Limits, stream: seq<Entry>, items: seq<Item>, n: nat)
    requires n <= |items|
  {
    forall k :: 0 <= k < n ==> !Refuses(limits, stream + KeptAll(items[..k]), items[k].entry)
  }

  /** A plan is noted as a whole, or up to the first item that is refused. */
  ghost predicate ComesTo(limits: Limits, stream: seq<Entry>, p: Plan, n: nat, r: Played) {
    n <= |p.items| && NotesUpTo(limits, stream, p.items, n) &&
    var noted := stream + KeptAll(p.items[..n]);
    if n == |p.items| then r == Played(noted, p.end)
    else Refuses(limits, noted, p.items[n].entry) && r == Stopped(limits, noted, p.items[n])
  }

  lemma {:induction false} PlayComesTo(limits: Limits, stream: seq<Entry>, p: Plan, i: nat) returns (n: nat)
    requires i <= |p.items| && NotesUpTo(limits, stream, p.items, i)
    ensures ComesTo(limits, stream, p, n, Play(limits, stream + KeptAll(p.items[..i]), p.items[i..], p.end))
    decreases |p.items| - i
  {
    hide Refuses, Stopped, Kept, KeptAll;
    var noted := stream + KeptAll(p.items[..i]);
    if i == |p.items| || Refuses(limits, noted, p.items[i].entry) {
      n := i;
    } else {
      assert p.items[..i + 1] == p.items[..i] + [p.items[i]] && p.items[i..][1..] == p.items[i + 1..];
      KeptMore(p.items[..i], p.items[i]);
      assert noted + [Kept(p.items[i].entry)] == stream + KeptAll(p.items[..i + 1]);
      n := PlayComesTo(limits, stream, p, i + 1);
    }
  }

  lemma PlanComesTo(limits: Limits, stream: seq<Entry>, p: Plan) returns (n: nat)
    ensures ComesTo(limits, stream, p, n, PlayPlan(limits, stream, p))
  {
    hide Play, Refuses;
    assert p.items[..0] == [] && p.items[0..] == p.items && stream + [] == stream;
    n := PlayComesTo(limits, stream, p, 0);
  }

  /** Everything noted by `done` turns that went through, after an opening that did. */
  function Base(world: World, done: nat): seq<Entry> {
    if done == 0 then [Plain(ProcessStart)] + KeptAll(OpenPlan(world).items) else Base(world, done - 1) + KeptAll(TurnItems(world, done - 1))
  }

  /** Where a run ends: in its opening, or after `done` turns, in the next or with the budget. */
  datatype Place = InOpening | AfterTurns(done: nat)

  function PlanAt(limits: RunLimits, world: World, place: Place): Plan {
    match place
    case InOpening => OpenPlan(world)
    case AfterTurns(done) => if done < limits.turns then TurnPlan(limits, world, done) else Plan([], End(BudgetRun))
  }

  function BaseAt(world: World, place: Place): seq<Entry> {
    match place
    case InOpening => [Plain(ProcessStart)]
    case AfterTurns(done) => Base(world, done)
  }

  /** The story ends at this place, after `n` items of the plan there were noted; everything before
      went through. */
  ghost predicate EndsAt(limits: RunLimits, world: World, place: Place, n: nat) {
    ComesTo(limits.transcript, BaseAt(world, place), PlanAt(limits, world, place), n, Story(limits, world)) &&
    !Story(limits, world).end.GoOn? &&
    match place
    case InOpening => true
    case AfterTurns(done) => world.start.Started? && done <= limits.turns && forall t :: 0 <= t < done ==> Passes(limits, world, t)
  }

  lemma {:induction false} StoryFromIs(limits: RunLimits, world: World, turn: nat) returns (place: Place, n: nat)
    requires world.start.Started? && turn <= limits.turns && forall t :: 0 <= t < turn ==> Passes(limits, world, t)
    requires Story(limits, world) == StoryFrom(limits, world, turn, Base(world, turn))
    ensures EndsAt(limits, world, place, n)
    decreases limits.turns - turn
  {
    hide Story, PlayPlan, TurnPlan, Passes, Refuses, Stopped, KeptAll, TurnItems, OpenPlan;
    StoryFromEnds(limits, world, turn, Base(world, turn));
    place := AfterTurns(turn);
    var p := PlanAt(limits, world, place);
    n := PlanComesTo(limits.transcript, Base(world, turn), p);
    if turn == limits.turns {
      PlayNothing(limits.transcript, Base(world, turn), End(BudgetRun));
    } else {
      var d := PlanDecides(limits, world, turn);
      if PlayPlan(limits.transcript, Base(world, turn), p).end.GoOn? {
        GoesOn(limits.transcript, Base(world, turn), p, n);
        place, n := StoryFromIs(limits, world, turn + 1);
      }
    }
  }

  lemma PlayNothing(limits: Limits, stream: seq<Entry>, end: Ending)
    ensures PlayPlan(limits, stream, Plan([], end)) == Played(stream, end)
  {
  }

  // A plan that goes on was noted as a whole.
  lemma GoesOn(limits: Limits, stream: seq<Entry>, p: Plan, n: nat)
    requires ComesTo(limits, stream, p, n, PlayPlan(limits, stream, p)) && PlayPlan(limits, stream, p).end.GoOn?
    ensures n == |p.items| && p.end.GoOn? && PlayPlan(limits, stream, p).stream == stream + KeptAll(p.items)
  {
    hide PlayPlan, Refuses, KeptAll, Stopped;
    if n < |p.items| {
      StoppedEnds(limits, stream + KeptAll(p.items[..n]), p.items[n]);
    } else {
      assert p.items[..n] == p.items;
    }
  }

  /** Every run ends at some place: in an opening that fails, at an entry that is refused, in a turn in
      which something decides, or with its budget of turns; and all turns before went through. */
  lemma StoryIs(limits: RunLimits, world: World) returns (place: Place, n: nat)
    ensures EndsAt(limits, world, place, n)
  {
    hide PlayPlan, Refuses, Stopped, KeptAll, StoryFrom, OpenPlan;
    var p := OpenPlan(world);
    place := InOpening;
    n := PlanComesTo(limits.transcript, [Plain(ProcessStart)], p);
    StoryEnds(limits, world);
    if PlayPlan(limits.transcript, [Plain(ProcessStart)], p).end.GoOn? {
      GoesOn(limits.transcript, [Plain(ProcessStart)], p, n);
      OpenGoesOn(world);
      place, n := StoryFromIs(limits, world, 0);
    }
  }

  lemma OpenGoesOn(world: World)
    ensures OpenPlan(world).end.GoOn? ==> world.start.Started?
  {
  }

  // ---------- What an outcome tells ----------

  /** The failure of the child, the provider or a call that the plan of a place ends in, if it is one. */
  function FailureOf(world: World, d: Decision): Option<FailureClass> {
    match d
    case RequestRefused(t) => if world.request(t).NotEncoded? then Some(world.request(t).f) else None
    case ProviderRaises(t) => if world.reply(t).Raises? then Some(world.reply(t).f) else None
    case CallUnauthorized(t, i) => if world.execution(t, i).NotAuthorized? then Some(world.execution(t, i).f) else None
    case CallFails(t, i) => if world.execution(t, i).Answer? then None else Some(world.execution(t, i).f)
    case _ => None
  }

  /** The replies, failures, limits and questions that each outcome stands for. */
  ghost predicate Because(limits: RunLimits, world: World, d: Decision, outcome: Outcome) {
    var failure := FailureOf(world, d);
    match outcome
    case FinalRun => d.FinalReply?
    case BudgetRun => false
    case RejectedRun =>
      d.TooManyProposals? || (d.BadProposal? && d.index < |Calls(world.reply(d.turn))| && var p := Calls(world.reply(d.turn))[d.index]; !(p.known && p.valid))
    case DuplicateRun =>
      d.BadProposal? && d.index < |Calls(world.reply(d.turn))| &&
      Calls(world.reply(d.turn))[d.index].known && Calls(world.reply(d.turn))[d.index].valid &&
      Repeats(Calls(world.reply(d.turn)), d.index, ActionsBefore(world, d.turn), CallIdsBefore(world, d.turn))
    case CancelledRun => d.TurnCancelled? || d.CallCancelled? || failure == Some(CancelledFailure)
    case DeadlineRun =>
      || d.TurnTooLate? || d.ReplyTooLate? || d.CallTooLate? || d.CallsUsedUp?
      || (!d.CallFails? && (failure == Some(McpTimeout) || failure == Some(TotalRequestTimeout)))
    case FailedRun =>
      || d.ReplyUnfit?
      || (d.RequestRefused? && world.request(d.turn).Encoded? && world.request(d.turn).bytes > limits.requestBytes)
      || (failure.Some? && (failure.value.OtherFailure? || (d.CallFails? && failure.value != CancelledFailure)))
  }

  lemma DecisionBecause(limits: RunLimits, world: World, d: Decision)
    requires Happens(limits, world, d)
    ensures !Verdict(world, d).GoOn? && forall outcome :: Because(limits, world, d, outcome) <==> outcome == OutcomeOf(Verdict(world, d))
  {
    hide Reaches, CallAllowed, ActionsBefore, CallIdsBefore, ReplyInTime, ReplyFits;
  }

  /** Why a run ends as it does, exactly one of these: an entry that does not fit its schema is refused
      by a transcript that is not limited, and the run fails; or the child does not start; or the budget
      of turns is used up; or one thing decides in the turn after those that went through, and the
      outcome is the one for it. */
  lemma OutcomeBecause(limits: RunLimits, world: World) returns (place: Place, n: nat, d: Option<Decision>)
    ensures EndsAt(limits, world, place, n)
    ensures var p, noted := PlanAt(limits, world, place), BaseAt(world, place);
            var outcome := OutcomeOf(Story(limits, world).end);
            if n < |p.items| then outcome == FailedRun && Refuses(limits.transcript, noted + KeptAll(p.items[..n]), p.items[n].entry)
            else if place.InOpening? then world.start.StartFails? && Story(limits, world).end == Throw(world.start.f)
            else if place.done == limits.turns then outcome == BudgetRun
            else d.Some? && Happens(limits, world, d.value) && d.value.turn == place.done &&
                 forall other :: Because(limits, world, d.value, other) <==> other == outcome
    ensures d.Some? ==> place.AfterTurns? && place.done < limits.turns && n == |PlanAt(limits, world, place).items|
  {
    hide Story, Passes, Because, Happens, Refuses, Stopped, NotesUpTo, KeptAll, Verdict, Lead, Noted, TurnPlan, TurnItems, Base;
    place, n := StoryIs(limits, world);
    var p := PlanAt(limits, world, place);
    d := None;
    if n < |p.items| {
      StoppedEnds(limits.transcript, BaseAt(world, place) + KeptAll(p.items[..n]), p.items[n]);
    } else if place.AfterTurns? && place.done < limits.turns {
      d := PlanDecides(limits, world, place.done);
      if d.Some? {
        DecisionBecause(limits, world, d.value);
      }
    }
  }

  // ---------- Runs without unnotable entries ----------

  predicate Short(n: nat) {
    |Number(n)| <= 64
  }

  /** All numbers that a run notes have at most 64 digits and all call ids at most 64 characters. */
  ghost predicate Tidy(limits: RunLimits, world: World) {
    (world.start.Started? ==> Short(world.start.initializeId) && Short(world.start.listId)) &&
    forall t :: 0 <= t < limits.turns ==> TidyTurn(world, t)
  }

  ghost predicate TidyTurn(world: World, turn: nat) {
    var calls := Calls(world.reply(turn));
    Short(turn) && Short(RequestBytes(world, turn)) && Short(BytesOf(world.reply(turn))) &&
    (forall i :: 0 <= i < |calls| ==> |calls[i].callId| <= 64) &&
    (forall id :: FirstId(world, turn) <= id < FirstId(world, turn) + |calls| ==> Short(id))
  }

  ghost predicate AllNotable(items: seq<Item>) {
    forall k :: 0 <= k < |items| ==> Notable(items[k].entry)
  }

  lemma ShortIs(n: nat)
    requires Short(n)
    ensures ValidValue(Number(n))
  {
    NumberIsHex(n);
  }

  lemma CallNotable(p: Proposal, id: nat)
    requires |p.callId| <= 64
    ensures Notable(AuthorizedEntry(p)) && Notable(ProposalEntry(Skipped, p.callId))
    ensures Notable(ProposalEntry(ProposalRejected, p.callId)) && Notable(ProposalEntry(ProposalDuplicate, p.callId))
    ensures Short(id) ==> forall kind :: IsCallKind(kind) ==> Notable(CallEntry(kind, p.action, id))
  {
    if Short(id) {
      ShortIs(id);
    }
  }

  lemma TurnNotable(kind: Kind, turn: nat, bytes: nat)
    requires (kind.ProviderTurnStart? || kind.ProviderTurnResponse?) && Short(turn) && Short(bytes)
    ensures Notable(TurnEntry(kind, turn, bytes))
  {
    ShortIs(turn);
    ShortIs(bytes);
  }

  lemma OpenNotable(limits: RunLimits, world: World)
    requires Tidy(limits, world)
    ensures AllNotable(OpenPlan(world).items)
  {
    hide Number, Short, TidyTurn, Notable, Plain, ResponseEntry, SurfaceEntry;
    PlainNotable();
    if world.start.Started? {
      ResponseNotable(world.start.initializeId);
      ResponseNotable(world.start.listId);
      SurfaceNotable(world.start.surface);
    }
  }

  lemma PlainNotable()
    ensures Notable(Plain(InitializeRequest)) && Notable(Plain(InitializedNotification)) && Notable(Plain(ToolsListRequest))
  {
  }

  lemma ResponseNotable(id: nat)
    requires Short(id)
    ensures Notable(ResponseEntry(InitializeResponse, id)) && Notable(ResponseEntry(ToolsListResponse, id))
  {
    hide Number;
    ShortIs(id);
  }

  lemma SurfaceNotable(surface: SurfaceId)
    ensures Notable(SurfaceEntry(surface))
  {
  }

  lemma ThenNotable(p: Plan, q: Plan)
    requires AllNotable(p.items) && (p.end.GoOn? ==> AllNotable(q.items))
    ensures AllNotable(Then(p, q).items)
  {
    hide Notable;
  }

  lemma AskNotable(limits: RunLimits, world: World, turn: nat)
    requires Tidy(limits, world) && turn < limits.turns
    ensures AllNotable(AskPlan(limits, world, turn).items)
  {
    hide Notable, TurnEntry, Short, Asked, FirstId;
    assert TidyTurn(world, turn);
    TurnNotable(ProviderTurnStart, turn, RequestBytes(world, turn));
    TurnNotable(ProviderTurnResponse, turn, BytesOf(world.reply(turn)));
  }

  lemma SkipsNotable(calls: seq<Proposal>)
    requires forall i :: 0 <= i < |calls| ==> |calls[i].callId| <= 64
    ensures AllNotable(SkipItems(calls))
  {
    hide Notable;
    forall k | 0 <= k < |calls| ensures Notable(SkipItems(calls)[k].entry) {
      CallNotable(calls[k], 0);
    }
  }

  lemma ValidateNotable(limits: RunLimits, world: World, turn: nat)
    requires Tidy(limits, world) && turn < limits.turns
    ensures AllNotable(ValidatePlan(world, turn).items)
  {
    hide Notable, ProposalEntry, Short, SkipItems, ActionsBefore, CallIdsBefore, FirstId, FirstBad;
    assert TidyTurn(world, turn);
    var calls := Calls(world.reply(turn));
    var i := FirstBad(calls, 0, ActionsBefore(world, turn), CallIdsBefore(world, turn));
    if i < |calls| {
      CallNotable(calls[i], 0);
      SkipsNotable(calls[i + 1..]);
    }
  }

  lemma CheckNotable(limits: RunLimits, world: World, turn: nat, i: nat)
    requires TidyTurn(world, turn) && i < |Calls(world.reply(turn))|
    ensures AllNotable(CheckPlan(limits, world, turn, i).items)
  {
    hide Notable, Plain, ProposalEntry, Short, FirstId, CallQuestion, CallsBefore;
    CallNotable(Calls(world.reply(turn))[i], 0);
    MarkIs(Kind.Cancelled);
    MarkIs(DeadlinePassed);
  }

  lemma SendNotable(world: World, turn: nat, i: nat)
    requires TidyTurn(world, turn) && i < |Calls(world.reply(turn))|
    ensures AllNotable(SendPlan(world, turn, i).items)
  {
    hide Notable, ProposalEntry, AuthorizedEntry, CallEntry, FailureEntry, Short, SkipItems, FirstId;
    var calls, x := Calls(world.reply(turn)), world.execution(turn, i);
    CallNotable(calls[i], FirstId(world, turn) + i);
    SkipsNotable(calls[i + 1..]);
    if !x.Answer? {
      FailureNotable(x.f);
    }
  }

  lemma CallPlanNotable(limits: RunLimits, world: World, turn: nat, i: nat)
    requires Tidy(limits, world) && turn < limits.turns && i < |Calls(world.reply(turn))|
    ensures AllNotable(CallPlan(limits, world, turn, i).items)
  {
    hide AllNotable, CheckPlan, SendPlan, TidyTurn, Then;
    CheckNotable(limits, world, turn, i);
    SendNotable(world, turn, i);
    ThenNotable(CheckPlan(limits, world, turn, i), SendPlan(world, turn, i));
  }

  lemma {:induction false} CallsNotable(limits: RunLimits, world: World, turn: nat, i: nat)
    requires Tidy(limits, world) && turn < limits.turns && i <= |Calls(world.reply(turn))|
    ensures AllNotable(CallsPlan(limits, world, turn, i).items)
    decreases |Calls(world.reply(turn))| - i
  {
    hide Tidy, CallPlan, AllNotable, Then;
    if i == |Calls(world.reply(turn))| {
      NothingNotable();
    } else {
      CallPlanNotable(limits, world, turn, i);
      CallsNotable(limits, world, turn, i + 1);
      ThenNotable(CallPlan(limits, world, turn, i), CallsPlan(limits, world, turn, i + 1));
    }
  }

  lemma NothingNotable()
    ensures AllNotable([])
  {
  }

  lemma PlanNotable(limits: RunLimits, world: World, place: Place)
    requires Tidy(limits, world)
    ensures AllNotable(PlanAt(limits, world, place).items)
  {
    hide Tidy, AllNotable, AskPlan, ValidatePlan, CallsPlan, OpenPlan, Then;
    NothingNotable();
    match place
    case InOpening => OpenNotable(limits, world);
    case AfterTurns(done) =>
      if done < limits.turns {
        AskNotable(limits, world, done);
        ValidateNotable(limits, world, done);
        CallsNotable(limits, world, done, 0);
        ThenNotable(ValidatePlan(world, done), CallsPlan(limits, world, done, 0));
        ThenNotable(AskPlan(limits, world, done), Then(ValidatePlan(world, done), CallsPlan(limits, world, done, 0)));
      }
  }

  lemma NoneRefused(limits: Limits, stream: seq<Entry>, items: seq<Item>, n: nat)
    requires AllNotable(items) && n < |items|
    ensures !Refuses(limits, stream + KeptAll(items[..n]), items[n].entry)
  {
    hide Notable, Overflows, KeptAll;
  }

  /** With short call ids and numbers nothing is refused: the run ends where its plan ends. */
  lemma TidyRuns(limits: RunLimits, world: World, place: Place, n: nat)
    requires Tidy(limits, world) && EndsAt(limits, world, place, n)
    ensures var p := PlanAt(limits, world, place);
            n == |p.items| && Story(limits, world) == Played(BaseAt(world, place) + KeptAll(p.items), p.end)
  {
    hide Tidy, Story, PlanAt, BaseAt, KeptAll, Notable, Overflows, Passes;
    var p := PlanAt(limits, world, place);
    PlanNotable(limits, world, place);
    if n < |p.items| {
      NoneRefused(limits.transcript, BaseAt(world, place), p.items, n);
    }
    assert p.items[..|p.items|] == p.items;
  }

  // ---------- One result ----------

  /** The result of a run is the one of its limits and its world. */
  ghost predicate IsRun(limits: RunLimits, world: World, r: RunResult) {
    var story := Story(limits, world);
    r.Done? && !story.end.GoOn? && r.outcome == OutcomeOf(story.end) &&
    Cut(limits.transcript, r.events, r.limited, story.stream + Handling(story.end) + Closing(world.close, OutcomeOf(story.end)))
  }

  /** Two runs with the same limits in the same world return the same outcome and transcript. */
  lemma ResultUnique(limits: RunLimits, world: World, r: RunResult, other: RunResult)
    requires IsRun(limits, world, r) && IsRun(limits, world, other)
    ensures r == other
  {
    hide Cut, Story, Handling, Closing, OutcomeOf;
    var story := Story(limits, world);
    CutUnique(limits.transcript, r.events, r.limited, other.events, other.limited,
              story.stream + Handling(story.end) + Closing(world.close, OutcomeOf(story.end)));
  }

  // ---------- One record ----------

  /** What a run sent and what it drew from the answers. */
  datatype Record = Record(sent: seq<Sent>, order: seq<ActionId>, evidence: seq<Evidence>, place: (nat, nat))

  /** The record is one of a run that noted so many requests. */
  ghost predicate IsRecord(limits: RunLimits, world: World, requests: nat, kept: Record) {
    (forall k :: 0 <= k < |kept.sent| ==> SentFrom(limits, world, kept.sent[k])) && EvidenceOk(world, kept.sent, kept.order, kept.evidence) &&
    SlotsOf(kept.sent) == Slots(world, kept.place.0, kept.place.1) && Settled(world, requests, kept.sent, kept.order, kept.place)
  }

  lemma {:induction false} SlotsWithin(world: World, turn: nat, i: nat, n: nat)
    requires i <= n
    ensures Slots(world, turn, i) <= Slots(world, turn, n)
    decreases n
  {
    if i < n {
      SlotsWithin(world, turn, i, n - 1);
    }
  }

  // The places before one are the first of those before any later turn.
  lemma {:induction false} SlotsBefore(world: World, turn: nat, i: nat, later: nat)
    requires turn < later && i <= |Calls(world.reply(turn))|
    ensures Slots(world, turn, i) <= Slots(world, later, 0)
    decreases later
  {
    var n := |Calls(world.reply(later - 1))|;
    if turn == later - 1 {
      SlotsWithin(world, turn, i, n);
    } else {
      SlotsBefore(world, turn, i, later - 1);
      SlotsWithin(world, later - 1, 0, n);
    }
  }

  /** The last request that was noted tells by its execution how far the record goes. */
  lemma LastRequest(limits: RunLimits, world: World, requests: nat, kept: Record, all: seq<(nat, nat)>, later: nat)
    requires IsRecord(limits, world, requests, kept) && all == Slots(world, later, 0) && kept.place.0 < later
    ensures SlotsOf(kept.sent) <= all && |kept.order| <= |kept.sent| <= requests <= |all|
    ensures requests > 0 ==> var x := world.execution(all[requests - 1].0, all[requests - 1].1);
                             && |kept.order| == (if x.Answer? then requests else requests - 1)
                             && |kept.sent| == (if x.Answer? || x.NoAnswer? then requests else requests - 1)
  {
    hide Slots, SentFrom, Numbered;
    PlaceFits(limits, world, requests, kept);
    SlotsBefore(world, kept.place.0, kept.place.1, later);
    if |kept.order| == |kept.sent| < requests {
      SlotsBefore(world, kept.place.0, kept.place.1 + 1, later);
      SlotNow(world, kept.place.0, kept.place.1);
    } else if requests > 0 {
      assert all[requests - 1] == SlotsOf(kept.sent)[requests - 1];
      if |kept.order| < requests {
        SlotNow(world, kept.place.0, kept.place.1 - 1);
      }
    }
  }

  lemma SlotNow(world: World, turn: nat, i: nat)
    ensures Slots(world, turn, i + 1) == Slots(world, turn, i) + [(turn, i)]
  {
  }

  lemma PlaceFits(limits: RunLimits, world: World, requests: nat, kept: Record)
    requires IsRecord(limits, world, requests, kept)
    ensures kept.place.1 <= |Calls(world.reply(kept.place.0))|
  {
    hide Settled, EvidenceOk;
    if kept.place.1 > 0 {
      SlotNow(world, kept.place.0, kept.place.1 - 1);
      assert SlotsOf(kept.sent)[|kept.sent| - 1] == (kept.place.0, kept.place.1 - 1);
    }
  }

  /** Two runs that noted the same number of requests in the same world sent the same requests, under
      the same ids and in the same order, and drew the same evidence from the answers. */
  lemma RecordUnique(limits: RunLimits, world: World, requests: nat, kept: Record, other: Record)
    requires IsRecord(limits, world, requests, kept) && IsRecord(limits, world, requests, other)
    ensures kept.sent == other.sent && kept.order == other.order && kept.evidence == other.evidence
  {
    hide Slots, Unwritten, Unanswered;
    var later := kept.place.0 + other.place.0 + 1;
    var all := Slots(world, later, 0);
    LastRequest(limits, world, requests, kept, all, later);
    LastRequest(limits, world, requests, other, all, later);
    forall k | 0 <= k < |kept.sent| ensures kept.sent[k] == other.sent[k] {
      assert SlotsOf(kept.sent)[k] == all[k] == SlotsOf(other.sent)[k];
    }
  }
}
