/** Orchestrator.run: bounded provider turns, each validated as a whole before any of its tool calls
    is sent, with every step noted in the control transcript. */
module OrchestratorModel {
  import opened Transcript
  import opened TranscriptParser

  type ActionId = s: string | |s| == 32 && IsHex(s) witness "00000000000000000000000000000000"
  type SurfaceId = s: string | |s| == 64 && IsHex(s)
    witness seq(64, _ => '0')
  /** A ToolCallId: ASCII, not empty, at most 128 characters, so possibly too long for the transcript. */
  type CallId = s: string | 0 < |s| <= 128 && IsAscii(s) witness "call-0"
  type FailureName = s: string | ValidValue(s) witness "mcp_protocol_failure"

  datatype FailureClass = CancelledFailure | McpTimeout | TotalRequestTimeout | OtherFailure(name: FailureName)

  const LOCAL_VALIDATION: FailureClass := OtherFailure("local_validation_failure")
  const OVERSIZED_RESPONSE: FailureClass := OtherFailure("oversized_response")
  const REQUEST_TOO_LARGE: FailureClass := OtherFailure("request_too_large_before_transmission")

  function FailureText(f: FailureClass): (s: string)
    ensures ValidValue(s)
  {
    match f
    case CancelledFailure => "cancelled"
    case McpTimeout => "mcp_timeout"
    case TotalRequestTimeout => "total_request_timeout"
    case OtherFailure(name) => name
  }

  /** A proposed call: whether its tool is advertised, whether its arguments fit the tool's schema,
      and the local identity of the action, a digest of surface, name, arguments and context. */
  datatype Proposal = Proposal(callId: CallId, known: bool, valid: bool, action: ActionId)

  datatype Encoded = Encoded(bytes: nat) | NotEncoded(f: FailureClass)
  datatype Reply = Raises(f: FailureClass) | Unencodable | Final(bytes: nat) | Proposals(bytes: nat, calls: seq<Proposal>)

  /** What an authorized call comes to: authorize refuses it; execute refuses it before it takes an
      id; it takes an id and is not written; it is written and gets no valid answer; it is answered. */
  datatype Execution =
    | NotAuthorized(f: FailureClass) | NotStarted(f: FailureClass) | NotWritten(f: FailureClass)
    | NoAnswer(f: FailureClass) | Answer(result: string)

  datatype Start = StartFails(f: FailureClass) | Started(initializeId: nat, listId: nat, surface: SurfaceId, nextId: nat)
  datatype CloseMode = NoProcess | Terminated | Killed | LeftUnreaped

  /** Everything outside the orchestrator: the child, the provider, the clock and the cancellation
      flag. The last two are asked again and again; `n` counts the questions. */
  datatype World = World(start: Start, request: nat -> Encoded, reply: nat -> Reply, execution: (nat, nat) -> Execution,
                         cancelled: nat -> bool, expired: nat -> bool, close: CloseMode)

  datatype RunLimits = RunLimits(turns: nat, proposals: nat, callsPerTurn: nat, totalCalls: nat,
                                 requestBytes: nat, responseBytes: nat, transcript: Limits)

  datatype Outcome = CancelledRun | DeadlineRun | FailedRun | FinalRun | RejectedRun | DuplicateRun | BudgetRun

  function OutcomeText(o: Outcome): (s: string)
    ensures ValidValue(s)
  {
    match o
    case CancelledRun => "cancelled"
    case DeadlineRun => "deadline"
    case FailedRun => "failed"
    case FinalRun => "final"
    case RejectedRun => "rejected"
    case DuplicateRun => "duplicate"
    case BudgetRun => "budget"
  }

  datatype Evidence = Evidence(action: ActionId, requestId: nat, result: string)

  /** One tools/call request written to the child, and the proposal it came from. */
  datatype Sent = Sent(turn: nat, index: nat, callId: CallId, action: ActionId, requestId: nat)

  /** How a part of the run ends: go on, return an outcome, or raise to the outer handler. */
  datatype Ending = GoOn | End(outcome: Outcome) | Throw(f: FailureClass)

  datatype RunResult = Raised | Done(outcome: Outcome, events: seq<Entry>, limited: bool)

  // ---------- The stream of events ----------

  /** An entry as the writer keeps it. */
  function Kept(e: Entry): Entry {
    Entry(e.kind, RedactAll(e.metadata))
  }

  predicate IsCallKind(k: Kind) {
    k.McpRequest? || k.McpResponse? || k.EvidenceValidated?
  }

  /** The provenance of everything noted so far, and where its actions and response ids come from. */
  ghost predicate StreamOk(stream: seq<Entry>, actions: set<ActionId>, bound: nat) {
    Provenance(stream) &&
    (forall i :: 0 <= i < |stream| && (stream[i].kind.Authorized? || IsCallKind(stream[i].kind)) ==>
       Value(stream[i], ActionKey) in actions) &&
    (forall i :: 0 <= i < |stream| && stream[i].kind.McpRequest? ==>
       exists n: nat :: n < bound && Value(stream[i], ResponseKey) == Number(n))
  }

  lemma TracedPrefix(es: seq<Entry>, e: Entry, i: nat)
    requires i < |es|
    ensures Traced(es + [e], i) <==> Traced(es, i)
  {
    hide Value, Pair;
    var fs := es + [e];
    forall k, a ensures ActionBefore(fs, i, k, a) <==> ActionBefore(es, i, k, a) {
      assert forall j :: 0 <= j < i ==> fs[j] == es[j];
    }
    forall k, r ensures ResponseBefore(fs, i, k, r) <==> ResponseBefore(es, i, k, r) {
      assert forall j :: 0 <= j < i ==> fs[j] == es[j];
    }
    forall k, p ensures PairBefore(fs, i, k, p) <==> PairBefore(es, i, k, p) {
      assert forall j :: 0 <= j < i ==> fs[j] == es[j];
    }
  }

  // Provenance is a matter of what came before, so one entry more needs one check more.
  lemma ProvenanceAppend(es: seq<Entry>, e: Entry)
    requires Provenance(es)
    ensures Provenance(es + [e]) <==> Traced(es + [e], |es|)
  {
    hide Traced;
    forall i | 0 <= i < |es| ensures Traced(es + [e], i) {
      TracedPrefix(es, e, i);
    }
  }

  lemma {:induction false} ProvenancePrefix(es: seq<Entry>, n: nat)
    requires Provenance(es) && n <= |es|
    ensures Provenance(es[..n])
    decreases |es| - n
  {
    hide Traced;
    if n == |es| {
      assert es[..n] == es;
    } else {
      ProvenancePrefix(es, n + 1);
      var shorter, e := es[..n], es[n];
      assert es[..n + 1] == shorter + [e];
      forall i | 0 <= i < n ensures Traced(shorter, i) {
        TracedPrefix(shorter, e, i);
      }
    }
  }

  // Entries that carry no provenance can be noted at any time.
  lemma PlainKeeps(stream: seq<Entry>, actions: set<ActionId>, bound: nat, e: Entry)
    requires StreamOk(stream, actions, bound) && !e.kind.Authorized? && !IsCallKind(e.kind)
    ensures StreamOk(stream + [e], actions, bound)
  {
    hide Value, Pair;
    ProvenanceAppend(stream, e);
  }

  lemma AuthorizedKeeps(stream: seq<Entry>, actions: set<ActionId>, bound: nat, e: Entry, action: ActionId)
    requires StreamOk(stream, actions, bound) && action !in actions && e.kind.Authorized? && Value(e, ActionKey) == action
    ensures StreamOk(stream + [e], actions + {action}, bound)
  {
    hide Pair;
    ProvenanceAppend(stream, e);
  }

  /** `action` is authorized and no call entry mentions it yet. */
  ghost predicate Authorizes(stream: seq<Entry>, action: ActionId) {
    ActionBefore(stream, |stream|, Authorized, action) &&
    forall i :: 0 <= i < |stream| && IsCallKind(stream[i].kind) ==> Value(stream[i], ActionKey) != action
  }

  lemma AuthorizesNow(stream: seq<Entry>, actions: set<ActionId>, bound: nat, e: Entry, action: ActionId)
    requires StreamOk(stream, actions, bound) && action !in actions && e.kind.Authorized? && Value(e, ActionKey) == action
    ensures Authorizes(stream + [e], action)
  {
    assert (stream + [e])[|stream|] == e;
  }

  lemma RequestKeeps(stream: seq<Entry>, actions: set<ActionId>, n: nat, e: Entry, action: ActionId)
    requires StreamOk(stream, actions, n) && action in actions && Authorizes(stream, action)
    requires e.kind.McpRequest? && Pair(e) == (action, Number(n))
    ensures StreamOk(stream + [e], actions, n + 1)
  {
    var after := stream + [e];
    ProvenanceAppend(stream, e);
    assert !ResponseBefore(after, |stream|, McpRequest, Number(n)) by {
      forall j | 0 <= j < |stream| && stream[j].kind.McpRequest? ensures Value(stream[j], ResponseKey) != Number(n) {
        var m: nat :| m < n && Value(stream[j], ResponseKey) == Number(m);
        if Number(m) == Number(n) {
          RequestKey.DecimalInjective(m, n);
        }
      }
    }
    assert ActionBefore(after, |stream|, Authorized, action) by {
      var j :| 0 <= j < |stream| && stream[j].kind.Authorized? && Value(stream[j], ActionKey) == action;
      assert after[j] == stream[j];
    }
  }

  /** The last entry is of kind `k` with `pair`, and none of kind `next` has this action. */
  ghost predicate Awaits(stream: seq<Entry>, k: Kind, next: Kind, pair: (string, string)) {
    stream != [] && stream[|stream| - 1].kind == k && Pair(stream[|stream| - 1]) == pair &&
    forall i :: 0 <= i < |stream| && stream[i].kind == next ==> Pair(stream[i]) != pair
  }

  // A response after its request, or evidence after its response, is traced.
  lemma FollowKeeps(stream: seq<Entry>, actions: set<ActionId>, bound: nat, e: Entry, k: Kind, pair: (string, string))
    requires StreamOk(stream, actions, bound) && Pair(e) == pair && pair.0 in actions && Awaits(stream, k, e.kind, pair)
    requires (k.McpRequest? && e.kind.McpResponse?) || (k.McpResponse? && e.kind.EvidenceValidated?)
    ensures StreamOk(stream + [e], actions, bound)
  {
    var after := stream + [e];
    ProvenanceAppend(stream, e);
    assert PairBefore(after, |stream|, k, pair) by {
      assert after[|stream| - 1] == stream[|stream| - 1];
    }
  }

  // ---------- The writer's copy of the stream ----------

  /** The transcript holds the stream, or the prefix that fitted and the terminal marker. */
  ghost predicate Recorded(events: seq<Entry>, limited: bool, stream: seq<Entry>) {
    if limited then
      events != [] && |events| - 1 <= |stream| && events == stream[..|events| - 1] + [TERMINAL]
    else events == stream
  }

  /** Limits at which the parser's JSON bounds cannot get in the way of a transcript. */
  predicate Roomy(limits: Limits) {
    limits.transcriptEventCount > 0 && limits.jsonNestingDepth >= 4 && limits.objectArrayItems >= 3 && limits.stringBytes >= 64
  }

  lemma NameIsShort(e: Entry)
    requires SchemaOk(e)
    ensures |Name(e.kind)| <= 64
  {
  }

  lemma MetadataIsSmall(e: Entry)
    requires SchemaOk(e)
    ensures |e.metadata| <= 2
  {
    assert |e.metadata| == |e.metadata.Keys|;
  }

  /** A transcript that the writer built, whose stream is traced, is accepted by the parser. */
  lemma WrittenIsAccepted(limits: Limits, events: seq<Entry>, limited: bool, stream: seq<Entry>)
    requires Roomy(limits) && WriterOk(limits, events, limited) && events != [] && Recorded(events, limited, stream) && Provenance(stream)
    ensures Accepted(limits, events, limited)
  {
    hide Text, SchemaOk, Traced;
    WriterFits(limits, events, limited);
    forall i | 0 <= i < |events| ensures EntryJsonOk(limits, events[i]) && ShortValues(events[i]) {
      assert SchemaOk(events[i]) && ValuesOk(events[i].metadata);
      NameIsShort(events[i]);
      MetadataIsSmall(events[i]);
    }
    if limited {
      var kept := stream[..|events| - 1];
      ProvenancePrefix(stream, |events| - 1);
      ProvenanceAppend(kept, TERMINAL);
      TerminalTraced(kept);
    }
  }

  lemma TerminalTraced(es: seq<Entry>)
    ensures Traced(es + [TERMINAL], |es|)
  {
  }

  // ---------- The ledger ----------

  predicate Acceptable(limits: RunLimits, reply: Reply) {
    reply.Proposals? && |reply.calls| <= limits.proposals && |reply.calls| <= limits.callsPerTurn &&
    (forall i :: 0 <= i < |reply.calls| ==> reply.calls[i].known && reply.calls[i].valid) &&
    (forall i, j :: 0 <= i < j < |reply.calls| ==>
       reply.calls[i].callId != reply.calls[j].callId && reply.calls[i].action != reply.calls[j].action)
  }

  function Calls(reply: Reply): seq<Proposal> {
    if reply.Proposals? then reply.calls else []
  }

  /** The places of all proposals up to, not including, the one at `turn`, `index`. */
  function Slots(world: World, turn: nat, index: nat): seq<(nat, nat)>
    decreases turn, index
  {
    if index > 0 then Slots(world, turn, index - 1) + [(turn, index - 1)]
    else if turn > 0 then Slots(world, turn - 1, |Calls(world.reply(turn - 1))|)
    else []
  }

  function SlotsOf(sent: seq<Sent>): seq<(nat, nat)> {
    seq(|sent|, k requires 0 <= k < |sent| => (sent[k].turn, sent[k].index))
  }

  /** The request was written for an authorized proposal of a turn that was accepted as a whole. */
  ghost predicate SentFrom(limits: RunLimits, world: World, s: Sent) {
    s.turn < limits.turns && Acceptable(limits, world.reply(s.turn)) && s.index < |Calls(world.reply(s.turn))| &&
    Calls(world.reply(s.turn))[s.index].action == s.action && Calls(world.reply(s.turn))[s.index].callId == s.callId &&
    !world.execution(s.turn, s.index).NotAuthorized?
  }

  /** No proposal of `reply` repeats the action or the call id of `s`. */
  ghost predicate Unlike(reply: Reply, s: Sent) {
    forall i :: 0 <= i < |Calls(reply)| ==> Calls(reply)[i].action != s.action && Calls(reply)[i].callId != s.callId
  }

  /** Each action and call id is sent once, under increasing request ids, and a turn that repeats
      anything sent in an earlier turn sends nothing. */
  ghost predicate SentOk(limits: RunLimits, world: World, sent: seq<Sent>, actions: set<ActionId>, callIds: set<CallId>, nextId: nat) {
    (forall k :: 0 <= k < |sent| ==>
       SentFrom(limits, world, sent[k]) && sent[k].action in actions && sent[k].callId in callIds && sent[k].requestId < nextId) &&
    (forall k, l :: 0 <= k < l < |sent| ==>
       sent[k].action != sent[l].action && sent[k].callId != sent[l].callId && sent[k].requestId < sent[l].requestId) &&
    (forall k, l :: 0 <= k < l < |sent| && sent[k].turn < sent[l].turn ==> Unlike(world.reply(sent[l].turn), sent[k]))
  }

  ghost predicate NotSent(sent: seq<Sent>, action: ActionId, callId: CallId) {
    forall k :: 0 <= k < |sent| ==> sent[k].action != action && sent[k].callId != callId
  }

  lemma SentAppend(limits: RunLimits, world: World, sent: seq<Sent>, actions: set<ActionId>, callIds: set<CallId>, nextId: nat, s: Sent)
    requires SentOk(limits, world, sent, actions, callIds, nextId)
    requires s.action in actions && s.callId in callIds && s.requestId == nextId && SentFrom(limits, world, s)
    requires NotSent(sent, s.action, s.callId)
    requires forall k :: 0 <= k < |sent| && sent[k].turn < s.turn ==> Unlike(world.reply(s.turn), sent[k])
    ensures SentOk(limits, world, sent + [s], actions, callIds, nextId + 1)
  {
    hide SentFrom, Unlike;
  }

  lemma SentGrow(limits: RunLimits, world: World, sent: seq<Sent>, actions: set<ActionId>, callIds: set<CallId>, nextId: nat,
                 actions': set<ActionId>, callIds': set<CallId>, nextId': nat)
    requires SentOk(limits, world, sent, actions, callIds, nextId)
    requires actions <= actions' && callIds <= callIds' && nextId <= nextId'
    ensures SentOk(limits, world, sent, actions', callIds', nextId')
  {
    hide SentFrom, Unlike;
  }

  /** Evidence is what the requests brought, item by item and in execution order; only the last
      request can have gone without. */
  ghost predicate EvidenceOk(world: World, sent: seq<Sent>, order: seq<ActionId>, evidence: seq<Evidence>) {
    |order| == |evidence| && |order| <= |sent| <= |order| + 1 &&
    forall k :: 0 <= k < |order| ==>
      order[k] == sent[k].action && evidence[k].action == order[k] && evidence[k].requestId == sent[k].requestId &&
      world.execution(sent[k].turn, sent[k].index) == Answer(evidence[k].result)
  }

  lemma StreamGrow(stream: seq<Entry>, actions: set<ActionId>, bound: nat, actions': set<ActionId>, bound': nat)
    requires StreamOk(stream, actions, bound) && actions <= actions' && bound <= bound'
    ensures StreamOk(stream, actions', bound')
  {
    hide Value, Provenance;
  }

  // ---------- Entries ----------

  function Plain(kind: Kind): Entry { Entry(kind, map[]) }
  function ProposalEntry(kind: Kind, id: CallId): Entry { Entry(kind, map[ProposalKey := id]) }
  function AuthorizedEntry(p: Proposal): Entry { Entry(Authorized, map[ActionKey := p.action, ProposalKey := p.callId]) }
  function CallEntry(kind: Kind, action: ActionId, id: nat): Entry { Entry(kind, map[ActionKey := action, ResponseKey := Number(id)]) }
  function TurnEntry(kind: Kind, turn: nat, bytes: nat): Entry { Entry(kind, map[TurnKey := Number(turn), BytesKey := Number(bytes)]) }

  function OutcomeEntry(outcome: Outcome): Entry { Entry(OutcomeKind, map[OutcomeKey := OutcomeText(outcome)]) }

  function ResponseEntry(kind: Kind, id: nat): Entry { Entry(kind, map[ResponseKey := Number(id)]) }
  function SurfaceEntry(surface: SurfaceId): Entry { Entry(SurfaceCaptured, map[SurfaceKey := surface]) }
  function FailureEntry(f: FailureClass): Entry { Entry(Failure, map[FailureKey := FailureText(f)]) }

  predicate IsPlain(e: Entry) {
    !e.kind.Authorized? && !IsCallKind(e.kind) && !e.kind.TranscriptLimit?
  }

  predicate Notable(e: Entry) {
    SchemaOk(e) && ValuesOk(e.metadata)
  }

  lemma KeptCall(kind: Kind, action: ActionId, id: nat)
    ensures Pair(Kept(CallEntry(kind, action, id))) == (action, Number(id)) && Kept(CallEntry(kind, action, id)).kind == kind
    ensures CallEntry(kind, action, id).kind == kind
  {
    hide Redact;
    HexIsPlain(action);
    NumberIsHex(id);
    HexIsPlain(Number(id));
  }

  lemma KeptAuthorized(p: Proposal)
    ensures AuthorizedEntry(p).kind.Authorized? && Kept(AuthorizedEntry(p)).kind.Authorized? && Value(Kept(AuthorizedEntry(p)), ActionKey) == p.action
  {
    hide Redact;
    HexIsPlain(p.action);
  }

  /** What _outcome notes of the end of the child. */
  function ShutdownEntries(close: CloseMode): seq<Entry> {
    [Plain(ShutdownStart)] +
    match close
    case NoProcess => [Plain(ShutdownComplete)]
    case Terminated => [Plain(ShutdownTerminate), Plain(ShutdownComplete)]
    case Killed => [Plain(ShutdownTerminate), Plain(ShutdownKill), Plain(ShutdownComplete)]
    case LeftUnreaped => [Plain(ShutdownTerminate), Plain(ShutdownKill), Plain(ShutdownUnreaped)]
  }

  function Closing(close: CloseMode, outcome: Outcome): seq<Entry> {
    ShutdownEntries(close) + [Kept(OutcomeEntry(outcome))]
  }
}
