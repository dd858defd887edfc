/** The orchestrator object: one run against an arbitrary child, provider, clock and cancellation. */
module OrchestratorObject {
  import opened Options
  import opened Transcript
  import opened TranscriptParser
  import opened OrchestratorModel
  import opened OrchestratorPlan
  import Account = OrchestratorAccount

  class Orchestrator {
    const limits: RunLimits
    const world: World
    const transcript: BoundedTranscript
    var actions: set<ActionId>
    var callIds: set<CallId>
    var evidence: seq<Evidence>
    var order: seq<ActionId>
    var nextId: nat
    var tick: nat
    ghost var sent: seq<Sent>
    ghost var stream: seq<Entry>
    ghost var place: (nat, nat)
    ghost var noted: nat
    ghost var requests: nat

    constructor (limits: RunLimits, world: World)
      ensures this.limits == limits && this.world == world && fresh(transcript)
      ensures transcript.limits == limits.transcript && transcript.events == [] && !transcript.limited && tick == 0
      ensures actions == {} && callIds == {} && evidence == [] && order == [] && sent == [] && stream == [] && place == (0, 0) && noted == 0 && requests == 0
    {
      this.limits, this.world := limits, world;
      transcript := new BoundedTranscript(limits.transcript);
      actions, callIds, evidence, order, nextId, tick := {}, {}, [], [], 1, 0;
      sent, stream, place, noted, requests := [], [], (0, 0), 0, 0;
    }

    ghost predicate Wrote()
      reads this`stream, transcript
    {
      transcript.limits == limits.transcript && limits.transcript.transcriptEventCount > 0 && transcript.events != [] &&
      WriterOk(limits.transcript, transcript.events, transcript.limited) &&
      Cut(limits.transcript, transcript.events, transcript.limited, stream)
    }

    ghost predicate Ledger()
      reads this`sent, this`place, this`actions, this`callIds, this`nextId, this`order, this`evidence
    {
      SentOk(limits, world, sent, actions, callIds, nextId) && EvidenceOk(world, sent, order, evidence) &&
      |sent| <= limits.totalCalls && SlotsOf(sent) == Slots(world, place.0, place.1)
    }

    ghost predicate Traceable()
      reads this`stream, this`actions, this`noted, this`requests
    {
      StreamOk(stream, actions, noted) && requests == Requests(stream)
    }

    /** Every request noted so far was sent and answered, but perhaps for the one that ends the run. */
    ghost predicate Books()
      reads this`sent, this`order, this`place, this`requests
    {
      Settled(world, requests, sent, order, place)
    }

    /** The transcript only grew, and not at all once limited. */
    ghost predicate Grown(events: seq<Entry>, limited: bool)
      reads transcript
    {
      events <= transcript.events && (limited ==> transcript.limited && transcript.events == events)
    }

    method Cancelled() returns (b: bool)
      modifies this`tick
      ensures b == world.cancelled(old(tick)) && tick == old(tick) + 1
    {
      b := world.cancelled(tick);
      tick := tick + 1;
    }

    method Expired() returns (b: bool)
      modifies this`tick
      ensures b == world.expired(old(tick)) && tick == old(tick) + 1
    {
      b := world.expired(tick);
      tick := tick + 1;
    }

    /** Note an entry: refused exactly when it does not fit its schema and the transcript is not limited. */
    method Note(e: Entry) returns (ok: bool)
      requires Wrote() && !e.kind.TranscriptLimit?
      modifies this`stream, transcript
      ensures Wrote() && stream == (if ok then old(stream) + [Kept(e)] else old(stream))
      ensures ok <==> !Refuses(limits.transcript, old(stream), e)
      ensures Grown(old(transcript.events), old(transcript.limited))
    {
      hide AddStep, WriterOk, Cut, Refuses;
      AddKeeps(limits.transcript, transcript.events, transcript.limited, e);
      CutKeeps(limits.transcript, transcript.events, transcript.limited, stream, e);
      RefusalKeeps(limits.transcript, transcript.events, transcript.limited, e);
      var r := transcript.Add(e);
      ok := r.Added?;
      if ok {
        stream := stream + [Kept(e)];
      }
    }

    /** Note an entry without provenance; a refusal raises to the caller. */
    method Tell(e: Entry) returns (ok: bool)
      requires Wrote() && Traceable() && IsPlain(e)
      modifies this`stream, transcript
      ensures Wrote() && Traceable() && stream == (if ok then old(stream) + [Kept(e)] else old(stream))
      ensures ok <==> !Refuses(limits.transcript, old(stream), e)
      ensures Grown(old(transcript.events), old(transcript.limited))
    {
      hide StreamOk, Wrote, Refuses, Requests;
      PlainKeeps(stream, actions, noted, Kept(e));
      RequestsMore(stream, Kept(e));
      ok := Note(e);
    }

    /** Note an entry that is only a name, which is never refused. */
    method Mark(kind: Kind)
      requires Wrote() && Traceable() && IsMark(kind)
      modifies this`stream, transcript
      ensures Wrote() && Traceable() && stream == old(stream) + [Plain(kind)]
      ensures Grown(old(transcript.events), old(transcript.limited))
    {
      hide Wrote, Traceable, IsPlain, Notable, Kept;
      MarkIs(kind);
      var _ := Tell(Plain(kind));
    }

    // ---------- The end of a run ----------

    /** _outcome: `ok` says whether the parser takes the transcript it then serializes. */
    method Finish(outcome: Outcome, mode: CloseMode) returns (ok: bool)
      requires Wrote() && Traceable()
      modifies this`stream, transcript
      ensures Wrote() && Traceable() && stream == old(stream) + Closing(mode, outcome)
      ensures ok <==> Accepted(limits.transcript, transcript.events, transcript.limited)
      ensures Roomy(limits.transcript) ==> ok
      ensures Grown(old(transcript.events), old(transcript.limited))
    {
      hide Wrote, Traceable, IsPlain, Notable, Kept, Accepted, Closing, ShutdownEntries;
      OutcomeNotable(outcome);
      ClosingIs(mode, outcome);
      Close(mode);
      var _ := Tell(OutcomeEntry(outcome));
      ok := Parse(limits.transcript, transcript.events, transcript.limited);
      if Roomy(limits.transcript) {
        FinishedAccepted();
      }
    }

    /** The shutdown of the child, as far as it is noted. */
    method Close(mode: CloseMode)
      requires Wrote() && Traceable()
      modifies this`stream, transcript
      ensures Wrote() && Traceable() && stream == old(stream) + ShutdownEntries(mode)
      ensures Grown(old(transcript.events), old(transcript.limited))
    {
      hide Wrote, Traceable;
      Mark(ShutdownStart);
      match mode {
        case NoProcess =>
        case Terminated =>
          Mark(ShutdownTerminate);
        case Killed =>
          Mark(ShutdownTerminate);
          Mark(ShutdownKill);
        case LeftUnreaped =>
          Mark(ShutdownTerminate);
          Mark(ShutdownKill);
          Mark(ShutdownUnreaped);
      }
      if mode != LeftUnreaped {
        Mark(ShutdownComplete);
      }
    }

    lemma FinishedAccepted()
      requires Wrote() && Traceable() && Roomy(limits.transcript)
      ensures Accepted(limits.transcript, transcript.events, transcript.limited)
    {
      hide WriterOk, Cut, Recorded, Provenance, Accepted;
      CutRecorded(limits.transcript, transcript.events, transcript.limited, stream);
      WrittenIsAccepted(limits.transcript, transcript.events, transcript.limited, stream);
    }

    // ---------- The calls of one turn ----------

    /** Between two calls of a turn that was validated as a whole. */
    ghost predicate Ready(turn: nat, index: nat)
      reads this`sent, this`place, this`actions, this`callIds, this`order, this`nextId, this`noted, this`requests
    {
      turn < limits.turns && Acceptable(limits, world.reply(turn)) && place == (turn, index) && Even() && noted <= nextId &&
      Fresh(world.reply(turn), turn, index, sent, actions, callIds) && Counts(turn, index)
    }

    /** Every request noted so far was sent and answered. */
    ghost predicate Even()
      reads this`sent, this`order, this`requests
    {
      |order| == |sent| == requests && Numbered(world, sent)
    }

    /** What has been used up when the call at `index` comes up. */
    ghost predicate Counts(turn: nat, index: nat)
      reads this`actions, this`callIds, this`order, this`nextId
    {
      index <= |Calls(world.reply(turn))| && |order| == CallsBefore(world, turn) + index && nextId == FirstId(world, turn) + index &&
      actions == ActionsBefore(world, turn) + ActionsOf(Calls(world.reply(turn))[..index]) &&
      callIds == CallIdsBefore(world, turn) + CallIdsOf(Calls(world.reply(turn))[..index])
    }

    method Skip(calls: seq<Proposal>) returns (ok: bool)
      requires Wrote() && Traceable()
      modifies this`stream, transcript
      ensures Wrote() && Traceable()
      ensures Played(stream, if ok then GoOn else Throw(LOCAL_VALIDATION)) == PlaySkips(limits.transcript, old(stream), calls, GoOn)
    {
      hide Wrote, Traceable, Refuses, Kept;
      var i := 0;
      while i < |calls|
        invariant 0 <= i <= |calls| && Wrote() && Traceable()
        invariant PlaySkips(limits.transcript, stream, calls[i..], GoOn) == PlaySkips(limits.transcript, old(stream), calls, GoOn)
      {
        ok := Tell(ProposalEntry(Skipped, calls[i].callId));
        if !ok {
          return;
        }
        assert calls[i..][1..] == calls[i + 1..];
        i := i + 1;
      }
      ok := true;
    }

    /** The call at `turn`, `index` has been authorized and can be sent. */
    ghost predicate Sendable(turn: nat, index: nat)
      reads this`sent, this`place, this`actions, this`callIds, this`order
    {
      turn < limits.turns && Acceptable(limits, world.reply(turn)) && index < |Calls(world.reply(turn))| &&
      place == (turn, index) && |order| == |sent| < limits.totalCalls &&
      !world.execution(turn, index).NotAuthorized? &&
      (forall k :: 0 <= k < |sent| && sent[k].turn < turn ==> Unlike(world.reply(turn), sent[k])) &&
      var p := Calls(world.reply(turn))[index];
      p.action in actions && p.callId in callIds && NotSent(sent, p.action, p.callId)
    }

    /** _request takes the next id, and writes the request unless it is too large. */
    method Issue(turn: nat, index: nat, written: bool) returns (id: nat)
      requires Ledger() && Sendable(turn, index)
      modifies this`sent, this`place, this`nextId
      ensures Ledger() && id == old(nextId) && nextId == id + 1
      ensures !written ==> sent == old(sent) && place == old(place)
      ensures written ==> SentNow(turn, index, old(sent), id)
    {
      hide Slots, SentOk, Unlike, NotSent;
      id := nextId;
      nextId := nextId + 1;
      if written {
        var p := Calls(world.reply(turn))[index];
        ghost var s := Sent(turn, index, p.callId, p.action, id);
        SentAppend(limits, world, sent, actions, callIds, id, s);
        SlotNext(world, sent, s);
        sent, place := sent + [s], (turn, index + 1);
      } else {
        SentGrow(limits, world, sent, actions, callIds, id, actions, callIds, nextId);
      }
    }

    ghost predicate SentNow(turn: nat, index: nat, before: seq<Sent>, id: nat)
      reads this`sent, this`place
    {
      index < |Calls(world.reply(turn))| && place == (turn, index + 1) &&
      var p := Calls(world.reply(turn))[index];
      sent == before + [Sent(turn, index, p.callId, p.action, id)]
    }

    /** Note the next request of an authorized call: its entry is traced, and nothing follows it yet. */
    method NoteRequest(action: ActionId) returns (ok: bool)
      requires Wrote() && Traceable() && action in actions && noted <= nextId && Authorizes(stream, action)
      modifies this`stream, this`noted, this`requests, transcript
      ensures Wrote() && Traceable() && requests == old(requests) + if ok then 1 else 0
      ensures ok <==> !Refuses(limits.transcript, old(stream), CallEntry(McpRequest, action, nextId))
      ensures stream == (if ok then old(stream) + [Kept(CallEntry(McpRequest, action, nextId))] else old(stream))
      ensures if ok then noted == nextId + 1 && Awaiting(stream, action, nextId) else noted == old(noted)
    {
      hide Wrote, StreamOk, Authorizes, Awaits, Refuses, Kept, CallEntry, Requests;
      var requested := CallEntry(McpRequest, action, nextId);
      KeptCall(McpRequest, action, nextId);
      StreamGrow(stream, actions, noted, actions, nextId);
      RequestKeeps(stream, actions, nextId, Kept(requested), action);
      RequestAwaits(stream, Kept(requested), (action, Number(nextId)));
      RequestsMore(stream, Kept(requested));
      ok := Note(requested);
      if ok {
        noted, requests := nextId + 1, requests + 1;
      }
    }

    /** The guarded part of a call and its handler: note the request, send it, keep and note its evidence. */
    method Request(turn: nat, index: nat) returns (e: Ending)
      requires Wrote() && Traceable() && Ledger() && Sendable(turn, index) && nextId == FirstId(world, turn) + index
      requires noted <= nextId && Authorizes(stream, Calls(world.reply(turn))[index].action) && Even()
      modifies this`stream, this`noted, this`requests, this`nextId, this`sent, this`place, this`order, this`evidence, transcript
      ensures Wrote() && Traceable() && Ledger() && Books()
      ensures Played(stream, e) == PlayPlan(limits.transcript, old(stream), RequestPlan(world, turn, index))
      ensures e.GoOn? ==> SentNow(turn, index, old(sent), old(nextId)) && Even() && noted <= nextId == old(nextId) + 1
    {
      hide Wrote, Traceable, Ledger, Authorizes, Awaiting, Unlike, Refuses, Kept, CallEntry, NotSent, PlayPlan, PlaySkips, Play, FirstId, ReportItems,
           FailureEntry;
      var action, later := Calls(world.reply(turn))[index].action, Calls(world.reply(turn))[index + 1..];
      RequestIs(limits.transcript, stream, world, turn, index);
      var ok := NoteRequest(action);
      if !ok {
        e := Fail(LOCAL_VALIDATION, later);
        return;
      }
      var failure := Exchange(turn, index);
      if failure.Some? {
        e := Fail(failure.value, later);
        return;
      }
      e := Report(action, nextId - 1, later);
    }

    /** execute, and the evidence kept when it returns. */
    method Exchange(turn: nat, index: nat) returns (failure: Option<FailureClass>)
      requires Ledger() && Sendable(turn, index)
      modifies this`nextId, this`sent, this`place, this`order, this`evidence
      ensures Ledger()
      ensures failure.Some? ==> !world.execution(turn, index).Answer? && failure.value == world.execution(turn, index).f && order == old(order)
      ensures failure.Some? ==> if world.execution(turn, index).NoAnswer? then SentNow(turn, index, old(sent), old(nextId))
                                else sent == old(sent) && place == old(place)
      ensures failure.None? ==>
                world.execution(turn, index).Answer? &&
                SentNow(turn, index, old(sent), old(nextId)) && |order| == |sent| == |old(order)| + 1 && nextId == old(nextId) + 1
    {
      hide Slots, SlotsOf, SentOk, Unlike, NotSent, EvidenceOk;
      var x := world.execution(turn, index);
      if x.NotStarted? {
        return Some(x.f);
      }
      ghost var sent0, order0, evidence0 := sent, order, evidence;
      var id := Issue(turn, index, !x.NotWritten?);
      if !x.Answer? {
        return Some(x.f);
      }
      var action := Calls(world.reply(turn))[index].action;
      order, evidence := order + [action], evidence + [Evidence(action, id, x.result)];
      LedgerGains(sent0, order0, evidence0, turn, index, id, x.result);
      failure := None;
    }

    lemma LedgerGains(sent0: seq<Sent>, order0: seq<ActionId>, evidence0: seq<Evidence>, turn: nat, index: nat, id: nat, result: string)
      requires SentNow(turn, index, sent0, id) && SentOk(limits, world, sent, actions, callIds, nextId) && |sent| <= limits.totalCalls
      requires SlotsOf(sent) == Slots(world, place.0, place.1) && EvidenceOk(world, sent0, order0, evidence0) && |order0| == |sent0|
      requires world.execution(turn, index) == Answer(result)
      requires order == order0 + [Calls(world.reply(turn))[index].action]
      requires evidence == evidence0 + [Evidence(Calls(world.reply(turn))[index].action, id, result)]
      ensures Ledger()
    {
      hide SentOk, Slots, SlotsOf;
    }

    /** Note the answer to request `id` and the evidence drawn from it. */
    method Report(action: ActionId, id: nat, later: seq<Proposal>) returns (e: Ending)
      requires Wrote() && Traceable() && action in actions && Awaiting(stream, action, id)
      modifies this`stream, transcript
      ensures Wrote() && Traceable()
      ensures Played(stream, e) == Play(limits.transcript, old(stream), ReportItems(action, id, later), GoOn)
    {
      hide Wrote, StreamOk, Refuses, Kept, CallEntry, Pair, Number, Play, PlaySkips, Requests;
      ghost var pair := (action, Number(id));
      var response, evidenced := CallEntry(McpResponse, action, id), CallEntry(EvidenceValidated, action, id);
      KeptCall(McpResponse, action, id);
      KeptCall(EvidenceValidated, action, id);
      FollowKeeps(stream, actions, noted, Kept(response), McpRequest, pair);
      assert Awaits(stream + [Kept(response)], McpResponse, EvidenceValidated, pair);
      FollowKeeps(stream + [Kept(response)], actions, noted, Kept(evidenced), McpResponse, pair);
      RequestsMore(stream, Kept(response));
      RequestsMore(stream + [Kept(response)], Kept(evidenced));
      PlayTwo(limits.transcript, stream, Inner(response, later), Inner(evidenced, later), GoOn);
      var ok := Note(response);
      if !ok {
        e := Fail(LOCAL_VALIDATION, later);
        return;
      }
      ok := Note(evidenced);
      if !ok {
        e := Fail(LOCAL_VALIDATION, later);
        return;
      }
      e := GoOn;
    }

    /** The handler inside a call: the failure is noted and ends the turn, and the later calls are skipped. */
    method Fail(f: FailureClass, later: seq<Proposal>) returns (e: Ending)
      requires Wrote() && Traceable()
      modifies this`stream, transcript
      ensures Wrote() && Traceable() && !e.GoOn?
      ensures Played(stream, e) == PlaySkips(limits.transcript, old(stream) + [Kept(FailureEntry(f))], later, End(FailOutcome(f)))
    {
      hide Wrote, Traceable, Kept, Notable, IsPlain, FailureEntry, PlaySkips;
      FailureNotable(f);
      var _ := Tell(FailureEntry(f));
      SkipsStop(limits.transcript, stream, later, End(FailOutcome(f)));
      var ok := Skip(later);
      e := if !ok then Throw(LOCAL_VALIDATION) else if f == CancelledFailure then End(CancelledRun) else End(FailedRun);
    }

    /** One prepared call, from the last checks before it to its evidence. */
    method Call(turn: nat, index: nat) returns (e: Ending)
      requires Wrote() && Traceable() && Ledger() && Ready(turn, index) && index < |Calls(world.reply(turn))|
      requires tick == CallQuestion(world, turn, index)
      modifies this, transcript
      ensures Wrote() && Traceable() && Ledger() && Books()
      ensures Played(stream, e) == PlayPlan(limits.transcript, old(stream), CallPlan(limits, world, turn, index))
      ensures e.GoOn? ==> Ready(turn, index + 1) && tick == CallQuestion(world, turn, index + 1)
    {
      hide Wrote, Traceable, Ledger, Kept, Refuses, Acceptable, Fresh, Sendable, Authorizes, AuthorizedEntry, Counts, PlayPlan, CheckPlan, SendPlan,
           CallEntry, CallsBefore, ActionsOf, CallIdsOf, FirstId, RequestPlan;
      CountsMean(turn, index);
      PlayThen(limits.transcript, stream, CheckPlan(limits, world, turn, index), SendPlan(world, turn, index));
      e := Check(turn, index);
      if !e.GoOn? {
        return;
      }
      SendIs(limits.transcript, stream, world, turn, index);
      var x := world.execution(turn, index);
      if x.NotAuthorized? {
        return Throw(x.f);
      }
      var ok := Authorize(turn, index);
      if !ok {
        return Throw(LOCAL_VALIDATION);
      }
      e := Request(turn, index);
      if e.GoOn? {
        ghost var p := Calls(world.reply(turn))[index];
        FreshNext(limits, world.reply(turn), turn, index, old(sent), old(actions), old(callIds), Sent(turn, index, p.callId, p.action, old(nextId)));
        CountsNext(turn, index, old(actions), old(callIds));
      }
    }

    lemma CountsMean(turn: nat, index: nat)
      requires Counts(turn, index)
      ensures |order| == CallsBefore(world, turn) + index && nextId == FirstId(world, turn) + index
      ensures index <= |Calls(world.reply(turn))|
      ensures actions == ActionsBefore(world, turn) + ActionsOf(Calls(world.reply(turn))[..index])
      ensures callIds == CallIdsBefore(world, turn) + CallIdsOf(Calls(world.reply(turn))[..index])
    {
    }

    // One more call answered is counted.
    lemma CountsNext(turn: nat, index: nat, actions0: set<ActionId>, callIds0: set<CallId>)
      requires index < |Calls(world.reply(turn))|
      requires |order| == CallsBefore(world, turn) + index + 1 && nextId == FirstId(world, turn) + index + 1
      requires actions0 == ActionsBefore(world, turn) + ActionsOf(Calls(world.reply(turn))[..index])
      requires callIds0 == CallIdsBefore(world, turn) + CallIdsOf(Calls(world.reply(turn))[..index])
      requires actions == actions0 + {Calls(world.reply(turn))[index].action} && callIds == callIds0 + {Calls(world.reply(turn))[index].callId}
      ensures Counts(turn, index + 1)
    {
      OneCallMore(Calls(world.reply(turn)), index);
    }

    /** The last checks before a call: cancellation, the budget of calls, and the deadline. */
    method Check(turn: nat, index: nat) returns (e: Ending)
      requires Wrote() && Traceable() && index < |Calls(world.reply(turn))| && Counts(turn, index) && tick == CallQuestion(world, turn, index)
      modifies this`tick, this`stream, transcript
      ensures Wrote() && Traceable()
      ensures Played(stream, e) == PlayPlan(limits.transcript, old(stream), CheckPlan(limits, world, turn, index))
      ensures e.GoOn? <==> CallAllowed(limits, world, turn, index)
      ensures e.GoOn? ==> tick == CallQuestion(world, turn, index + 1) && stream == old(stream)
    {
      hide Wrote, Traceable, StopPlan, Counts, Play, PlayPlan, CallsBefore, Asked;
      CountsMean(turn, index);
      NothingPlayed(limits.transcript, stream);
      var id := Calls(world.reply(turn))[index].callId;
      var stop := Cancelled();
      if stop {
        e := Stop(Kind.Cancelled, CancelledRun, id);
        return;
      }
      stop := |order| >= limits.totalCalls;
      if !stop {
        stop := Expired();
      }
      if stop {
        e := Stop(DeadlinePassed, DeadlineRun, id);
        return;
      }
      e := GoOn;
    }

    /** A check that stops the run: the reason is noted, and the call is skipped. */
    method Stop(kind: Kind, outcome: Outcome, id: CallId) returns (e: Ending)
      requires Wrote() && Traceable() && IsMark(kind)
      modifies this`stream, transcript
      ensures Wrote() && Traceable() && !e.GoOn?
      ensures Played(stream, e) == PlayPlan(limits.transcript, old(stream), StopPlan(kind, id, outcome))
    {
      hide Wrote, Traceable, Kept, Notable, IsMark, Play;
      MarkIs(kind);
      PlayTwo(limits.transcript, stream, Outer(Plain(kind)), Outer(ProposalEntry(Skipped, id)), End(outcome));
      Mark(kind);
      var ok := Tell(ProposalEntry(Skipped, id));
      e := if ok then End(outcome) else Throw(LOCAL_VALIDATION);
    }

    /** authorize succeeded: the call id and the action are taken from here on, whatever follows. */
    method Authorize(turn: nat, index: nat) returns (ok: bool)
      requires Wrote() && Traceable() && Ledger() && Ready(turn, index) && index < |Calls(world.reply(turn))|
      requires |order| < limits.totalCalls && !world.execution(turn, index).NotAuthorized?
      modifies this`stream, this`actions, this`callIds, transcript
      ensures Wrote() && Traceable() && Ledger()
      ensures var p := Calls(world.reply(turn))[index];
              && actions == old(actions) + {p.action} && callIds == old(callIds) + {p.callId}
              && (ok <==> !Refuses(limits.transcript, old(stream), AuthorizedEntry(p))) && (!ok ==> stream == old(stream))
              && (ok ==> Sendable(turn, index) && Authorizes(stream, p.action) && stream == old(stream) + [Kept(AuthorizedEntry(p))])
    {
      hide Wrote, StreamOk, Kept, Refuses, Acceptable, Unlike, AuthorizedEntry, Authorizes, Slots, SlotsOf, EvidenceOk, SentFrom, Counts, Requests;
      var p := Calls(world.reply(turn))[index];
      KeptAuthorized(p);
      AuthorizedKeeps(stream, actions, noted, Kept(AuthorizedEntry(p)), p.action);
      AuthorizesNow(stream, actions, noted, Kept(AuthorizedEntry(p)), p.action);
      StreamGrow(stream, actions, noted, actions + {p.action}, noted);
      SentGrow(limits, world, sent, actions, callIds, nextId, actions + {p.action}, callIds + {p.callId}, nextId);
      RequestsMore(stream, Kept(AuthorizedEntry(p)));
      callIds, actions := callIds + {p.callId}, actions + {p.action};
      ok := Note(AuthorizedEntry(p));
      assert !ok ==> stream == old(stream);
    }

    // ---------- One provider turn ----------

    /** The first pass over a turn: it goes on exactly when no proposal is unknown, invalid or repeated;
        otherwise it ends at the first one that is. */
    method Validate(turn: nat) returns (e: Ending)
      requires Wrote() && Traceable() && actions == ActionsBefore(world, turn) && callIds == CallIdsBefore(world, turn)
      modifies this`stream, transcript
      ensures Wrote() && Traceable()
      ensures Played(stream, e) == PlayPlan(limits.transcript, old(stream), ValidatePlan(world, turn))
      ensures e.GoOn? <==> SoundUpTo(world, turn, |Calls(world.reply(turn))|)
      ensures e.GoOn? ==> stream == old(stream)
    {
      hide Wrote, Traceable, Kept, Repeats, ActionsBefore, CallIdsBefore, RejectPlan, PlayPlan;
      var calls := Calls(world.reply(turn));
      var i := 0;
      while i < |calls|
        invariant 0 <= i <= |calls| && Wrote() && Traceable() && stream == old(stream)
        invariant SoundUpTo(world, turn, i)
        invariant FirstBad(calls, 0, ActionsBefore(world, turn), CallIdsBefore(world, turn)) == FirstBad(calls, i, ActionsBefore(world, turn), CallIdsBefore(world, turn))
      {
        var p := calls[i];
        if !(p.known && p.valid) || Repeats(calls, i, actions, callIds) {
          assert !SoundUpTo(world, turn, |calls|);
          e := Reject(calls, i);
          return;
        }
        i := i + 1;
      }
      NothingPlayed(limits.transcript, stream);
      e := GoOn;
    }

    /** A proposal that ends its turn: an invalid one skips the later ones, an unknown one does not. */
    method Reject(calls: seq<Proposal>, index: nat) returns (e: Ending)
      requires Wrote() && Traceable() && index < |calls|
      modifies this`stream, transcript
      ensures Wrote() && Traceable() && !e.GoOn?
      ensures Played(stream, e) == PlayPlan(limits.transcript, old(stream), RejectPlan(calls, index))
    {
      hide Wrote, Traceable, Kept, Refuses, Play, PlaySkips, SkipItems;
      var p := calls[index];
      var entry := ProposalEntry(if p.known && p.valid then ProposalDuplicate else ProposalRejected, p.callId);
      RejectIs(limits.transcript, stream, calls, index);
      var ok := Tell(entry);
      if ok && p.known && !p.valid {
        SkipsStop(limits.transcript, stream, calls[index + 1..], End(RejectedRun));
        ok := Skip(calls[index + 1..]);
      }
      e := if !ok then Throw(LOCAL_VALIDATION) else if p.known && p.valid then End(DuplicateRun) else End(RejectedRun);
    }

    /** Between two turns, questions aside. */
    ghost predicate Between(turn: nat)
      reads this`sent, this`place, this`order, this`nextId, this`noted, this`actions, this`callIds, this`requests
    {
      place == (turn, 0) && Even() && |order| == CallsBefore(world, turn) && noted <= nextId == FirstId(world, turn) &&
      actions == ActionsBefore(world, turn) && callIds == CallIdsBefore(world, turn)
    }

    ghost predicate AtTurn(turn: nat)
      reads this`sent, this`place, this`order, this`nextId, this`noted, this`actions, this`callIds, this`tick, this`requests
    {
      Between(turn) && tick == Asked(world, turn)
    }

    // A turn whose proposals passed can start its calls.
    lemma ReadyStart(turn: nat)
      requires Ledger() && Between(turn) && turn < limits.turns && Proposes(limits, world, turn) && SoundUpTo(world, turn, |Calls(world.reply(turn))|)
      ensures Ready(turn, 0)
    {
      hide EvidenceOk, Slots, SlotsOf, CallsBefore, ActionsBefore, CallIdsBefore, ReplyInTime, ReplyFits, SentOk, Sound;
      SoundFresh(limits, world, turn, sent, actions, callIds, nextId);
      assert Calls(world.reply(turn))[..0] == [];
    }

    // A turn whose calls were all answered goes over into the next.
    ghost method EndTurn(turn: nat)
      requires Ledger() && Ready(turn, |Calls(world.reply(turn))|)
      modifies this`place
      ensures Ledger() && Between(turn + 1)
    {
      hide EvidenceOk, SlotsOf, SentOk, Fresh, Acceptable;
      assert Calls(world.reply(turn))[..|Calls(world.reply(turn))|] == Calls(world.reply(turn));
      place := (turn + 1, 0);
    }

    /** The part of a turn before its proposals are looked at. */
    method Ask(turn: nat) returns (e: Ending)
      requires Wrote() && Traceable() && tick == Asked(world, turn)
      modifies this`tick, this`stream, transcript
      ensures Wrote() && Traceable()
      ensures Played(stream, e) == PlayPlan(limits.transcript, old(stream), AskPlan(limits, world, turn))
      ensures e.GoOn? ==> Proposes(limits, world, turn) && tick == CallQuestion(world, turn, 0)
    {
      hide Wrote, Traceable, Kept, Refuses, TurnEntry, Asked, HearPlan, Play, ReplyFits;
      TurnIsPlain();
      NothingPlayed(limits.transcript, stream);
      var stop := Cancelled();
      if stop {
        return End(CancelledRun);
      }
      stop := Expired();
      if stop {
        return Throw(McpTimeout);
      }
      var raw := world.request(turn);
      if raw.NotEncoded? {
        return Throw(raw.f);
      }
      if raw.bytes > limits.requestBytes {
        return Throw(REQUEST_TOO_LARGE);
      }
      var entry := TurnEntry(ProviderTurnStart, turn, raw.bytes);
      PlayOne(limits.transcript, stream, Outer(entry), HearPlan(limits, world, turn).items, HearPlan(limits, world, turn).end);
      var ok := Tell(entry);
      if !ok {
        return Throw(LOCAL_VALIDATION);
      }
      e := Hear(turn);
    }

    /** What becomes of the provider's reply. */
    method Hear(turn: nat) returns (e: Ending)
      requires Wrote() && Traceable() && tick == Asked(world, turn) + 2 && InTime(world, turn) && RequestFits(limits, world, turn)
      modifies this`tick, this`stream, transcript
      ensures Wrote() && Traceable()
      ensures Played(stream, e) == PlayPlan(limits.transcript, old(stream), HearPlan(limits, world, turn))
      ensures e.GoOn? ==> Proposes(limits, world, turn) && tick == CallQuestion(world, turn, 0)
    {
      hide Wrote, Traceable, Kept, Refuses, TurnEntry, Asked, InTime, RequestFits, Play;
      TurnIsPlain();
      NothingPlayed(limits.transcript, stream);
      var reply := world.reply(turn);
      if reply.Raises? {
        return Throw(reply.f);
      }
      var stop := Expired();
      if stop {
        return End(DeadlineRun);
      }
      if reply.Unencodable? || reply.bytes > limits.responseBytes {
        return End(FailedRun);
      }
      var entry := TurnEntry(ProviderTurnResponse, turn, reply.bytes);
      PlayLast(limits.transcript, stream, Outer(entry), HearPlan(limits, world, turn).end);
      var ok := Tell(entry);
      if !ok {
        return Throw(LOCAL_VALIDATION);
      }
      if reply.Final? {
        return End(FinalRun);
      }
      if TooMany(limits, reply.calls) {
        return End(RejectedRun);
      }
      e := GoOn;
    }

    method Turn(turn: nat) returns (e: Ending)
      requires Wrote() && Traceable() && Ledger() && AtTurn(turn) && turn < limits.turns
      modifies this, transcript
      ensures Wrote() && Traceable() && Ledger() && Books()
      ensures Played(stream, e) == PlayPlan(limits.transcript, old(stream), TurnPlan(limits, world, turn))
      ensures e.GoOn? ==> AtTurn(turn + 1)
    {
      hide Wrote, Traceable, Ledger, Between, Ready, Kept, Proposes, SoundUpTo, PlayPlan, AskPlan, ValidatePlan, CallsPlan, Then, Settled;
      BetweenMeans(turn);
      ghost var validated, called := ValidatePlan(world, turn), CallsPlan(limits, world, turn, 0);
      PlayThen(limits.transcript, stream, AskPlan(limits, world, turn), Then(validated, called));
      e := Ask(turn);
      if !e.GoOn? {
        return;
      }
      PlayThen(limits.transcript, stream, validated, called);
      e := Validate(turn);
      if !e.GoOn? {
        return;
      }
      ReadyStart(turn);
      e := CallAll(turn);
      if e.GoOn? {
        EndTurn(turn);
        BetweenMeans(turn + 1);
      }
    }

    lemma BetweenMeans(turn: nat)
      requires Between(turn)
      ensures actions == ActionsBefore(world, turn) && callIds == CallIdsBefore(world, turn) && Books()
    {
    }

    /** The second pass over a turn: its calls in order, up to one that ends the run. */
    method CallAll(turn: nat) returns (e: Ending)
      requires Wrote() && Traceable() && Ledger() && Ready(turn, 0) && tick == CallQuestion(world, turn, 0)
      modifies this, transcript
      ensures Wrote() && Traceable() && Ledger() && Books()
      ensures Played(stream, e) == PlayPlan(limits.transcript, old(stream), CallsPlan(limits, world, turn, 0))
      ensures e.GoOn? ==> Ready(turn, |Calls(world.reply(turn))|) && tick == CallQuestion(world, turn, |Calls(world.reply(turn))|)
    {
      hide Wrote, Traceable, Ledger, Kept, Ready, CallPlan, PlayPlan, Settled;
      ghost var whole := PlayPlan(limits.transcript, stream, CallsPlan(limits, world, turn, 0));
      var n, index := |Calls(world.reply(turn))|, 0;
      while index < n
        invariant 0 <= index <= n
        invariant Wrote() && Traceable() && Ledger() && Ready(turn, index) && tick == CallQuestion(world, turn, index)
        invariant PlayPlan(limits.transcript, stream, CallsPlan(limits, world, turn, index)) == whole
      {
        PlayThen(limits.transcript, stream, CallPlan(limits, world, turn, index), CallsPlan(limits, world, turn, index + 1));
        e := Call(turn, index);
        if !e.GoOn? {
          return;
        }
        index := index + 1;
      }
      ReadyMeans(turn, index);
      NothingPlayed(limits.transcript, stream);
      e := GoOn;
    }

    lemma ReadyMeans(turn: nat, index: nat)
      requires Ready(turn, index)
      ensures Books()
    {
    }

    // ---------- The whole run ----------

    /** Nothing has been sent or asked yet. */
    ghost predicate Unused()
      reads this`sent, this`order, this`evidence, this`noted, this`place, this`actions, this`callIds, this`tick, this`requests
    {
      requests == 0 && sent == [] && order == [] && evidence == [] && noted == 0 && place == (0, 0) && actions == {} && callIds == {} && tick == 0
    }

    /** From the initialize request to the captured tool surface. */
    method Open() returns (e: Ending)
      requires Wrote() && Traceable() && Unused()
      modifies this`stream, this`nextId, transcript
      ensures Wrote() && Traceable() && Unused()
      ensures Played(stream, e) == PlayPlan(limits.transcript, old(stream), OpenPlan(world))
      ensures e.GoOn? ==> world.start.Started? && nextId == world.start.nextId
    {
      hide Wrote, Traceable, Kept, Refuses, ResponseEntry, SurfaceEntry, Unused, Play, PlaySkips;
      OpenIsPlain();
      OpenIs(limits.transcript, stream, world);
      Mark(InitializeRequest);
      var start := world.start;
      if start.StartFails? {
        return Throw(start.f);
      }
      nextId := start.nextId;
      var ok := Tell(ResponseEntry(InitializeResponse, start.initializeId));
      if !ok {
        return Throw(LOCAL_VALIDATION);
      }
      Mark(InitializedNotification);
      Mark(ToolsListRequest);
      ok := Tell(ResponseEntry(ToolsListResponse, start.listId));
      if !ok {
        return Throw(LOCAL_VALIDATION);
      }
      ok := Tell(SurfaceEntry(start.surface));
      e := if ok then GoOn else Throw(LOCAL_VALIDATION);
    }

    /** The handler around the whole run: what a failure that reaches it makes of the run. */
    method Handle(f: FailureClass) returns (outcome: Outcome)
      requires Wrote() && Traceable()
      modifies this`stream, transcript
      ensures Wrote() && Traceable()
      ensures outcome == HandledAs(f) && stream == old(stream) + [HandlerEntry(f)]
      ensures Grown(old(transcript.events), old(transcript.limited))
    {
      hide Wrote, Traceable, Kept, Notable, FailureEntry, IsPlain;
      match f {
        case CancelledFailure =>
          Mark(Kind.Cancelled);
          outcome := CancelledRun;
        case McpTimeout =>
          Mark(DeadlinePassed);
          outcome := DeadlineRun;
        case TotalRequestTimeout =>
          Mark(DeadlinePassed);
          outcome := DeadlineRun;
        case OtherFailure(_) =>
          FailureNotable(f);
          var _ := Tell(FailureEntry(f));
          outcome := FailedRun;
      }
    }

    /** The opening, then the turns of the budget, up to where one of them ends the run. */
    method Drive() returns (e: Ending)
      requires Wrote() && Traceable() && Unused() && stream == [Plain(ProcessStart)]
      modifies this, transcript
      ensures Wrote() && Traceable() && Ledger() && Books() && Played(stream, e) == Story(limits, world)
    {
      hide Wrote, Traceable, Ledger, Between, Unused, PlayPlan, OpenPlan, TurnPlan, Settled;
      e := Open();
      if !e.GoOn? {
        LedgerStart();
        return;
      }
      BetweenStart();
      var turn := 0;
      while turn < limits.turns
        invariant 0 <= turn <= limits.turns
        invariant Wrote() && Traceable() && Ledger() && AtTurn(turn)
        invariant StoryFrom(limits, world, turn, stream) == Story(limits, world)
      {
        e := Turn(turn);
        if !e.GoOn? {
          return;
        }
        turn := turn + 1;
      }
      BetweenMeans(turn);
      e := End(BudgetRun);
    }

    lemma LedgerStart()
      requires Unused()
      ensures Ledger() && Books()
    {
    }

    lemma BetweenStart()
      requires Unused() && world.start.Started? && nextId == world.start.nextId
      ensures Ledger() && AtTurn(0)
    {
    }

    /** A whole run. It raises when not even the terminal marker fits the transcript; otherwise, when
        the JSON limits leave room for transcripts at all, it returns one that the parser accepts. What
        is noted and how the run ends are the story of its limits and its world, with the handler, if
        the story ends in a failure, and the closing; and the transcript is the cut of that. What was sent
        and what came of it is the record of so many requests. */
    method Run() returns (r: RunResult)
      requires limits.transcript.transcriptEventCount > 0 && transcript.limits == limits.transcript
      requires transcript.events == [] && !transcript.limited && stream == [] && Unused()
      modifies this, transcript
      ensures Ledger()
      ensures |Text([TERMINAL], true)| > limits.transcript.transcriptBytes ==> r.Raised? && sent == []
      ensures |Text([TERMINAL], true)| <= limits.transcript.transcriptBytes && Roomy(limits.transcript) ==> r.Done?
      ensures r.Done? ==> Accepted(limits.transcript, r.events, r.limited) && Account.IsRun(limits, world, r)
      ensures r.Done? ==> Account.IsRecord(limits, world, Requests(Story(limits, world).stream), Account.Record(sent, order, evidence, place))
    {
      hide Wrote, Traceable, Ledger, Unused, Accepted, Roomy, Text, Closing, Kept, AddStep, Notable, IsPlain, FailureEntry, Story, Cut, Requests, Books,
           Account.IsRecord;
      var entry := Plain(ProcessStart);
      MarkIs(ProcessStart);
      FirstEntry(limits.transcript, entry);
      var added := transcript.Add(entry);
      LedgerStart();
      NothingSent();
      if added.Refused? {
        // The handler's own entry is refused in the same way, and that failure leaves the run.
        FailureNotable(OVERSIZED_RESPONSE);
        FirstEntry(limits.transcript, FailureEntry(OVERSIZED_RESPONSE));
        added := transcript.Add(FailureEntry(OVERSIZED_RESPONSE));
        return Raised;
      }
      stream := [entry];
      Started(entry);
      var end := Drive();
      StoryEnds(limits, world);
      BooksMean();
      r := Conclude(end);
    }

    /** What the end of the turns makes of the run: its outcome, or the handler's. A parser that refuses
        the transcript raises into the handler, whose transcript it then refuses as well. */
    method Conclude(end: Ending) returns (r: RunResult)
      requires Wrote() && Traceable() && !end.GoOn?
      modifies this`stream, transcript
      ensures Roomy(limits.transcript) ==> r.Done?
      ensures r.Done? ==> Accepted(limits.transcript, r.events, r.limited) && Cut(limits.transcript, r.events, r.limited, stream)
      ensures r.Done? ==> r.outcome == OutcomeOf(end) && stream == old(stream) + Handling(end) + Closing(world.close, OutcomeOf(end))
    {
      hide Wrote, Traceable, Accepted, Roomy, Closing, HandledAs, HandlerEntry, Cut, WriterOk;
      if end.End? {
        var ok := Finish(end.outcome, world.close);
        WroteStream();
        if ok {
          return Done(end.outcome, transcript.events, transcript.limited);
        }
        ghost var events, limited := transcript.events, transcript.limited;
        var outcome := Handle(LOCAL_VALIDATION);
        ok := Finish(outcome, NoProcess);
        WroteStream();
        RefusedAgain(limits.transcript, events, limited, transcript.events, transcript.limited);
        return Raised;
      }
      var outcome := Handle(end.f);
      var ok := Finish(outcome, world.close);
      WroteStream();
      return if ok then Done(outcome, transcript.events, transcript.limited) else Raised;
    }

    lemma WroteStream()
      requires Wrote()
      ensures Cut(limits.transcript, transcript.events, transcript.limited, stream) && WriterOk(limits.transcript, transcript.events, transcript.limited)
      ensures transcript.events != []
    {
    }

    lemma NothingSent()
      requires Unused()
      ensures sent == [] && requests == 0
    {
    }

    lemma BooksMean()
      requires Traceable() && Books() && Ledger()
      ensures Account.IsRecord(limits, world, Requests(stream), Account.Record(sent, order, evidence, place))
    {
      hide EvidenceOk, Slots, SlotsOf, SentFrom, Unlike, StreamOk, Settled;
    }

    lemma Started(entry: Entry)
      requires stream == [entry] && requests == 0 && IsPlain(entry) && transcript.limits == limits.transcript && limits.transcript.transcriptEventCount > 0
      requires WriterOk(limits.transcript, transcript.events, transcript.limited) && transcript.events != []
      requires Cut(limits.transcript, transcript.events, transcript.limited, stream)
      ensures Wrote() && Traceable()
    {
    }
  }

  // A transcript that only grew is not accepted where its beginning was refused.
  lemma RefusedAgain(limits: Limits, events: seq<Entry>, limited: bool, events': seq<Entry>, limited': bool)
    requires WriterOk(limits, events, limited) && events != [] && events <= events' && (limited ==> limited' && events' == events)
    ensures Accepted(limits, events', limited') ==> Accepted(limits, events, limited)
  {
    hide Text, SchemaOk, Traced, EntryJsonOk, ShortValues;
    if Accepted(limits, events', limited') && !limited {
      WriterFits(limits, events, limited);
      ProvenancePrefix(events', |events|);
      assert events'[..|events|] == events;
      assert forall i :: 0 <= i < |events| ==> events[i] == events'[i];
    }
  }

  /** Nothing in the turn from `index` on has been authorized, and nothing in it was sent in an earlier turn. */
  ghost predicate Fresh(reply: Reply, turn: nat, index: nat, sent: seq<Sent>, actions: set<ActionId>, callIds: set<CallId>) {
    (forall i :: index <= i < |Calls(reply)| ==> Calls(reply)[i].action !in actions && Calls(reply)[i].callId !in callIds) &&
    (forall k :: 0 <= k < |sent| && sent[k].turn < turn ==> Unlike(reply, sent[k]))
  }

  lemma FreshNext(limits: RunLimits, reply: Reply, turn: nat, index: nat, sent: seq<Sent>, actions: set<ActionId>, callIds: set<CallId>, s: Sent)
    requires Acceptable(limits, reply) && index < |Calls(reply)| && Fresh(reply, turn, index, sent, actions, callIds) && s.turn == turn
    ensures Fresh(reply, turn, index + 1, sent + [s], actions + {Calls(reply)[index].action}, callIds + {Calls(reply)[index].callId})
  {
  }

  lemma OpenIsPlain()
    ensures forall kind: Kind, id: nat :: kind.InitializeResponse? || kind.ToolsListResponse? ==> IsPlain(ResponseEntry(kind, id))
    ensures forall surface: SurfaceId :: IsPlain(SurfaceEntry(surface))
  {
  }

  lemma TurnIsPlain()
    ensures forall kind: Kind, turn: nat, bytes: nat :: kind.ProviderTurnStart? || kind.ProviderTurnResponse? ==> IsPlain(TurnEntry(kind, turn, bytes))
  {
  }

  // A turn that passed the checks can start: none of it repeats what was authorized, so none what was sent.
  lemma SoundFresh(limits: RunLimits, world: World, turn: nat, sent: seq<Sent>, actions: set<ActionId>, callIds: set<CallId>, nextId: nat)
    requires SentOk(limits, world, sent, actions, callIds, nextId) && Proposes(limits, world, turn)
    requires actions == ActionsBefore(world, turn) && callIds == CallIdsBefore(world, turn)
    requires SoundUpTo(world, turn, |Calls(world.reply(turn))|)
    ensures Acceptable(limits, world.reply(turn)) && Fresh(world.reply(turn), turn, 0, sent, actions, callIds)
  {
    hide SentFrom, ReplyInTime, ActionsBefore, CallIdsBefore;
    var calls := world.reply(turn).calls;
    forall i, j | 0 <= i < j < |calls| ensures calls[i].callId != calls[j].callId && calls[i].action != calls[j].action {
      assert !Repeats(calls, j, actions, callIds);
    }
  }

  // The first entry is refused exactly when not even the terminal marker fits.
  lemma FirstEntry(limits: Limits, e: Entry)
    requires limits.transcriptEventCount > 0 && Notable(e) && e.kind != TranscriptLimit
    ensures var (es, limited, r) := AddStep(limits, [], false, e);
            && (r.Refused? <==> |Text([TERMINAL], true)| > limits.transcriptBytes)
            && (r.Refused? ==> es == [] && !limited)
            && (r.Added? ==> WriterOk(limits, es, limited) && es != [] && Cut(limits, es, limited, [Kept(e)]))
  {
    hide Text, SchemaOk, ValuesOk, RedactAll, WriterOk;
    assert WriterOk(limits, [], false) by { NothingWritten(limits); }
    AddKeeps(limits, [], false, e);
    assert [] + [Kept(e)] == [Kept(e)] && [] + [TERMINAL] == [TERMINAL] && [Kept(e)][..0] == [] && [Kept(e)][..1] == [Kept(e)];
    ReserveCovers([Kept(e)]);
  }

  lemma NothingWritten(limits: Limits)
    ensures WriterOk(limits, [], false)
  {
  }

  lemma SlotNext(world: World, sent: seq<Sent>, s: Sent)
    requires SlotsOf(sent) == Slots(world, s.turn, s.index)
    ensures SlotsOf(sent + [s]) == Slots(world, s.turn, s.index + 1)
  {
    assert SlotsOf(sent + [s]) == SlotsOf(sent) + [(s.turn, s.index)];
  }

  /** The request under this id is the last entry, with neither response nor evidence. */
  ghost predicate Awaiting(stream: seq<Entry>, action: ActionId, id: nat) {
    Awaits(stream, McpRequest, McpResponse, (action, Number(id))) &&
    forall i :: 0 <= i < |stream| && stream[i].kind.EvidenceValidated? ==> Pair(stream[i]) != (action, Number(id))
  }

  lemma RequestAwaits(stream: seq<Entry>, e: Entry, pair: (ActionId, string))
    requires Authorizes(stream, pair.0) && e.kind.McpRequest? && Pair(e) == pair
    ensures Awaits(stream + [e], McpRequest, McpResponse, pair)
    ensures forall i :: 0 <= i < |stream + [e]| && (stream + [e])[i].kind.EvidenceValidated? ==> Pair((stream + [e])[i]) != pair
  {
  }

  lemma OutcomeNotable(outcome: Outcome)
    ensures IsPlain(OutcomeEntry(outcome)) && Notable(OutcomeEntry(outcome))
  {
    hide OutcomeText;
  }

  lemma ClosingIs(mode: CloseMode, outcome: Outcome)
    ensures Closing(mode, outcome) == ShutdownEntries(mode) + [Kept(OutcomeEntry(outcome))]
  {
    hide Kept, OutcomeText, Redact;
  }

  lemma RefusalKeeps(limits: Limits, es: seq<Entry>, limited: bool, e: Entry)
    ensures var (es', limited', r) := AddStep(limits, es, limited, e); r.Refused? ==> es' == es && limited' == limited
  {
  }

  lemma OneCallMore(calls: seq<Proposal>, i: nat)
    requires i < |calls|
    ensures ActionsOf(calls[..i + 1]) == ActionsOf(calls[..i]) + {calls[i].action}
    ensures CallIdsOf(calls[..i + 1]) == CallIdsOf(calls[..i]) + {calls[i].callId}
  {
  }
}
