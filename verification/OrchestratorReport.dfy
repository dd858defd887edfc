/** What the transcript of a run says, in its own words: the outcome at its end, and the numbers and
    names in its entries. */
module OrchestratorReport {
  import opened Options
  import opened Transcript
  import opened OrchestratorModel
  import opened OrchestratorPlan
  import opened OrchestratorAccount
  import opened TranscriptValues

  // ---------- The last event ----------

  ghost predicate Says(e: Entry, text: string) {
    e == Entry(OutcomeKind, map[OutcomeKey := text])
  }

  lemma KeptOutcome(o: Outcome, text: string)
    requires OutcomeText(o) == text && IsMild(text)
    ensures Says(Kept(OutcomeEntry(o)), text)
  {
    hide IsMild, Redact, OutcomeText;
    MildIsShown(text);
  }

  lemma OutcomeSaid(o: Outcome)
    ensures var e := Kept(OutcomeEntry(o));
            match o
            case CancelledRun => Says(e, "cancelled")
            case DeadlineRun => Says(e, "deadline")
            case FailedRun => Says(e, "failed")
            case FinalRun => Says(e, "final")
            case RejectedRun => Says(e, "rejected")
            case DuplicateRun => Says(e, "duplicate")
            case BudgetRun => Says(e, "budget")
  {
    hide IsMild, Kept, OutcomeEntry, Says;
    match o
    case CancelledRun => CancelledIsMild(); KeptOutcome(o, "cancelled");
    case DeadlineRun => DeadlineIsMild(); KeptOutcome(o, "deadline");
    case FailedRun => FailedIsMild(); KeptOutcome(o, "failed");
    case FinalRun => FinalIsMild(); KeptOutcome(o, "final");
    case RejectedRun => RejectedIsMild(); KeptOutcome(o, "rejected");
    case DuplicateRun => DuplicateIsMild(); KeptOutcome(o, "duplicate");
    case BudgetRun => BudgetIsMild(); KeptOutcome(o, "budget");
  }

  lemma SaysOne(e: Entry, a: string, b: string)
    requires Says(e, a) && Says(e, b)
    ensures a == b
  {
    assert e.metadata[OutcomeKey] == a && e.metadata[OutcomeKey] == b;
  }

  // The seven texts differ.
  lemma OutcomeSaidOnly(o: Outcome, e: Entry)
    requires e == Kept(OutcomeEntry(o))
    ensures (Says(e, "cancelled") <==> o == CancelledRun) && (Says(e, "deadline") <==> o == DeadlineRun) && (Says(e, "failed") <==> o == FailedRun)
    ensures (Says(e, "final") <==> o == FinalRun) && (Says(e, "rejected") <==> o == RejectedRun) && (Says(e, "duplicate") <==> o == DuplicateRun)
    ensures Says(e, "budget") <==> o == BudgetRun
  {
    hide Kept, OutcomeEntry, Says;
    OutcomeSaid(o);
    forall a, b | Says(e, a) && Says(e, b) ensures a == b {
      SaysOne(e, a, b);
    }
    assert "cancelled"[0] == 'c' && "deadline"[1] == 'e' && "duplicate"[1] == 'u' && "failed"[1] == 'a' && "final"[1] == 'i' &&
           "rejected"[0] == 'r' && "budget"[0] == 'b' && "deadline"[0] == "duplicate"[0] == 'd' && "failed"[0] == "final"[0] == 'f';
  }

  /** How a run came to its end, if neither an entry was refused nor anything decided in a turn. */
  ghost predicate Refused(limits: RunLimits, world: World, place: Place, n: nat) {
    n < |PlanAt(limits, world, place).items|
  }

  ghost predicate NeverStarted(limits: RunLimits, world: World, place: Place, n: nat) {
    !Refused(limits, world, place, n) && place.InOpening? && world.start.StartFails?
  }

  predicate IsTimeout(f: FailureClass) {
    f == McpTimeout || f == TotalRequestTimeout
  }

  /** The last event of a transcript that was not limited names the outcome, and each name stands for
      exactly these ends of a run. */
  lemma OutcomeTold(limits: RunLimits, world: World, r: RunResult) returns (place: Place, n: nat, d: Option<Decision>)
    requires IsRun(limits, world, r) && !r.limited
    ensures EndsAt(limits, world, place, n)
    ensures d.Some? ==> Happens(limits, world, d.value) && place == AfterTurns(d.value.turn) && !Refused(limits, world, place, n)
    ensures r.events != [] &&
            var e := r.events[|r.events| - 1];
            && (Says(e, "final") <==> d.Some? && d.value.FinalReply?)
            && (Says(e, "budget") <==> !Refused(limits, world, place, n) && place == AfterTurns(limits.turns))
            && (Says(e, "duplicate") <==> d.Some? && Because(limits, world, d.value, DuplicateRun))
            && (Says(e, "rejected") <==> d.Some? && Because(limits, world, d.value, RejectedRun))
            && (Says(e, "cancelled") <==> (NeverStarted(limits, world, place, n) && world.start.f == CancelledFailure)
                                          || (d.Some? && Because(limits, world, d.value, CancelledRun)))
            && (Says(e, "deadline") <==> (NeverStarted(limits, world, place, n) && IsTimeout(world.start.f))
                                         || (d.Some? && Because(limits, world, d.value, DeadlineRun)))
            && (Says(e, "failed") <==> Refused(limits, world, place, n)
                                       || (NeverStarted(limits, world, place, n) && world.start.f.OtherFailure?)
                                       || (d.Some? && Because(limits, world, d.value, FailedRun)))
  {
    hide Says, Kept, OutcomeEntry, Cut, Story, Because, Happens, ComesTo, Handling, ShutdownEntries, PlanAt, BaseAt, KeptAll;
    place, n, d := OutcomeBecause(limits, world);
    var story := Story(limits, world);
    var outcome := OutcomeOf(story.end);
    assert r.events == story.stream + Handling(story.end) + Closing(world.close, outcome) by { CutWhole(limits.transcript, r.events, story.stream + Handling(story.end) + Closing(world.close, outcome)); }
    assert r.events[|r.events| - 1] == Kept(OutcomeEntry(outcome));
    OutcomeSaidOnly(outcome, r.events[|r.events| - 1]);
    FinalOnly(limits, world, d);
  }

  lemma CutWhole(limits: Limits, events: seq<Entry>, stream: seq<Entry>)
    requires Cut(limits, events, false, stream)
    ensures events == stream
  {
  }

  lemma FinalOnly(limits: RunLimits, world: World, d: Option<Decision>)
    ensures d.Some? ==> (Because(limits, world, d.value, FinalRun) <==> d.value.FinalReply?) && !Because(limits, world, d.value, BudgetRun)
  {
  }

  // ---------- The entries of a run ----------

  function Decimal(n: nat): string {
    RequestKey.Decimal(n)
  }

  lemma NumberShown(n: nat)
    ensures Redact(Number(n)) == Decimal(n)
  {
    hide Redact;
    NumberIsHex(n);
    HexIsPlain(Number(n));
  }

  lemma KeptBare(kind: Kind)
    ensures Kept(Plain(kind)) == Entry(kind, map[])
  {
    assert RedactAll(map[]) == map[];
  }

  lemma KeptValue(kind: Kind, key: Key, value: string)
    ensures Kept(Entry(kind, map[key := value])) == Entry(kind, map[key := Redact(value)])
  {
    hide Redact;
    assert RedactAll(map[key := value]) == map[key := Redact(value)];
  }

  lemma KeptPair(kind: Kind, key: Key, value: string, other: Key, second: string)
    requires key != other
    ensures Kept(Entry(kind, map[key := value, other := second])) == Entry(kind, map[key := Redact(value), other := Redact(second)])
  {
    hide Redact;
    assert RedactAll(map[key := value, other := second]) == map[key := Redact(value), other := Redact(second)];
  }

  /** The opening names the ids of its two answers and the surface of the tools. */
  lemma OpeningTold(world: World)
    requires world.start.Started?
    ensures KeptAll(OpenPlan(world).items) == [
              Entry(InitializeRequest, map[]), Entry(InitializeResponse, map[ResponseKey := Decimal(world.start.initializeId)]),
              Entry(InitializedNotification, map[]), Entry(ToolsListRequest, map[]),
              Entry(ToolsListResponse, map[ResponseKey := Decimal(world.start.listId)]),
              Entry(SurfaceCaptured, map[SurfaceKey := world.start.surface])]
  {
    hide Redact, Decimal, Number, Kept;
    NumberShown(world.start.initializeId);
    NumberShown(world.start.listId);
    HexIsPlain(world.start.surface);
    KeptBare(InitializeRequest);
    KeptBare(InitializedNotification);
    KeptBare(ToolsListRequest);
    KeptValue(InitializeResponse, ResponseKey, Number(world.start.initializeId));
    KeptValue(ToolsListResponse, ResponseKey, Number(world.start.listId));
    KeptValue(SurfaceCaptured, SurfaceKey, world.start.surface);
    KeptSix(OpenPlan(world).items);
  }

  lemma KeptTwo(items: seq<Item>)
    requires |items| == 2
    ensures KeptAll(items) == [Kept(items[0].entry), Kept(items[1].entry)]
  {
    hide Kept;
    assert items[..1][..0] == [];
    assert KeptAll(items[..1]) == [Kept(items[0].entry)];
  }

  lemma KeptFour(items: seq<Item>)
    requires |items| == 4
    ensures KeptAll(items) == [Kept(items[0].entry), Kept(items[1].entry), Kept(items[2].entry), Kept(items[3].entry)]
  {
    hide Kept;
    assert items[..3][..2] == items[..2];
    KeptTwo(items[..2]);
    assert KeptAll(items[..3]) == KeptAll(items[..2]) + [Kept(items[2].entry)];
  }

  lemma KeptSix(items: seq<Item>)
    requires |items| == 6
    ensures KeptAll(items) == [Kept(items[0].entry), Kept(items[1].entry), Kept(items[2].entry), Kept(items[3].entry), Kept(items[4].entry), Kept(items[5].entry)]
  {
    hide Kept;
    assert items[..5][..4] == items[..4];
    KeptFour(items[..4]);
    assert KeptAll(items[..5]) == KeptAll(items[..4]) + [Kept(items[4].entry)];
  }

  /** A turn that proposes calls names its number and the sizes of its request and its reply. */
  lemma TurnTold(limits: RunLimits, world: World, turn: nat)
    requires Proposes(limits, world, turn)
    ensures world.request(turn).Encoded? && world.reply(turn).Proposals?
    ensures KeptAll(AskItems(world, turn)) == [
              Entry(ProviderTurnStart, map[TurnKey := Decimal(turn), BytesKey := Decimal(world.request(turn).bytes)]),
              Entry(ProviderTurnResponse, map[TurnKey := Decimal(turn), BytesKey := Decimal(world.reply(turn).bytes)])]
  {
    hide Redact, Decimal, Number, Asked, Kept;
    KeptPair(ProviderTurnStart, TurnKey, Number(turn), BytesKey, Number(world.request(turn).bytes));
    KeptPair(ProviderTurnResponse, TurnKey, Number(turn), BytesKey, Number(world.reply(turn).bytes));
    NumberShown(turn);
    NumberShown(world.request(turn).bytes);
    NumberShown(world.reply(turn).bytes);
    KeptTwo(AskItems(world, turn));
  }

  /** A call that is answered names its action and proposal, and then the action and the id of the
      request, which counts on from the first id over all proposals before. */
  lemma CallTold(world: World, turn: nat, i: nat)
    requires i < |Calls(world.reply(turn))| && world.start.Started?
    ensures var p, id := Calls(world.reply(turn))[i], world.start.nextId + CallsBefore(world, turn) + i;
            KeptAll(CallItems(world, turn, i)) == [
              Entry(Authorized, map[ActionKey := p.action, ProposalKey := if Sensitive(p.callId) then "redacted" else p.callId]),
              Entry(McpRequest, map[ActionKey := p.action, ResponseKey := Decimal(id)]),
              Entry(McpResponse, map[ActionKey := p.action, ResponseKey := Decimal(id)]),
              Entry(EvidenceValidated, map[ActionKey := p.action, ResponseKey := Decimal(id)])]
  {
    hide Redact, Decimal, Number, CallsBefore, Sensitive, Kept;
    var p, id := Calls(world.reply(turn))[i], world.start.nextId + CallsBefore(world, turn) + i;
    KeptPair(Authorized, ActionKey, p.action, ProposalKey, p.callId);
    KeptPair(McpRequest, ActionKey, p.action, ResponseKey, Number(id));
    KeptPair(McpResponse, ActionKey, p.action, ResponseKey, Number(id));
    KeptPair(EvidenceValidated, ActionKey, p.action, ResponseKey, Number(id));
    NumberShown(id);
    HexIsPlain(p.action);
    RedactIs(p.callId);
    KeptFour(CallItems(world, turn, i));
  }

  /** What is noted of a failure: inside a call always its class, outside only if it is neither a
      cancellation nor a timeout; a class with a sensitive word in its name is hidden. */
  lemma FailureTold(f: FailureClass)
    ensures Kept(FailureEntry(f)) == Entry(Failure, map[FailureKey := match f
              case CancelledFailure => "cancelled"
              case McpTimeout => "mcp_timeout"
              case TotalRequestTimeout => "total_request_timeout"
              case OtherFailure(name) => if Sensitive(name) then "redacted" else name])
    ensures HandlerEntry(f) == match f
              case CancelledFailure => Entry(Kind.Cancelled, map[])
              case OtherFailure(_) => Kept(FailureEntry(f))
              case _ => Entry(DeadlinePassed, map[])
  {
    hide Redact, Sensitive, IsMild, Kept, FailureText;
    KeptBare(Kind.Cancelled);
    KeptBare(DeadlinePassed);
    KeptValue(Failure, FailureKey, FailureText(f));
    FailureTextIs(f);
    match f
    case CancelledFailure => CancelledIsMild(); MildIsShown("cancelled");
    case McpTimeout => TimeoutIsMild(); MildIsShown("mcp_timeout");
    case TotalRequestTimeout => TotalIsMild(); MildIsShown("total_request_timeout");
    case OtherFailure(name) => RedactIs(name);
  }

  lemma FailureTextIs(f: FailureClass)
    ensures FailureText(f) == match f
              case CancelledFailure => "cancelled"
              case McpTimeout => "mcp_timeout"
              case TotalRequestTimeout => "total_request_timeout"
              case OtherFailure(name) => name
  {
  }

  /** A refused entry and a request that is too large are noted under these names. */
  lemma LocalFailureTold(limits: Limits, stream: seq<Entry>, entry: Entry)
    ensures Stopped(limits, stream, Outer(entry)) == Played(stream, Throw(OtherFailure("local_validation_failure")))
    ensures Kept(FailureEntry(OtherFailure("local_validation_failure"))) == Entry(Failure, map[FailureKey := "local_validation_failure"])
  {
    hide Redact, IsMild;
    LocalIsMild();
    MildIsShown("local_validation_failure");
  }

  /** So is a request to the provider that is too large. */
  lemma TooLargeTold(world: World, d: Decision)
    requires d.RequestRefused? && world.request(d.turn).Encoded?
    ensures Verdict(world, d) == Throw(OtherFailure("request_too_large_before_transmission"))
  {
  }

  /** The class of a refused authorization is not shown. */
  lemma AuthorizationHidden()
    ensures Kept(FailureEntry(OtherFailure("local_authorization_failure"))) == Entry(Failure, map[FailureKey := "redacted"])
  {
    hide Redact;
    var name := "local_authorization_failure";
    assert CarriesAt(name, "authorization", 6);
    RedactIs(name);
  }
}
