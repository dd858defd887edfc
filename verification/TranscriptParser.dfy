/** parse_bounded_transcript, from the point where the JSON text has become a document. */
module TranscriptParser {
  import opened Numbers
  import opened Transcript

  function Value(e: Entry, key: Key): string {
    if key in e.metadata then e.metadata[key] else ""
  }

  function Pair(e: Entry): (string, string) {
    (Value(e, ActionKey), Value(e, ResponseKey))
  }

  // ---------- What is accepted, told by positions ----------

  /** An earlier entry of this kind with this action. */
  ghost predicate ActionBefore(es: seq<Entry>, i: int, k: Kind, action: string) {
    exists j :: 0 <= j < i && j < |es| && es[j].kind == k && Value(es[j], ActionKey) == action
  }

  ghost predicate ResponseBefore(es: seq<Entry>, i: int, k: Kind, response: string) {
    exists j :: 0 <= j < i && j < |es| && es[j].kind == k && Value(es[j], ResponseKey) == response
  }

  ghost predicate PairBefore(es: seq<Entry>, i: int, k: Kind, pair: (string, string)) {
    exists j :: 0 <= j < i && j < |es| && es[j].kind == k && Pair(es[j]) == pair
  }

  /** Authorizations are fresh; a request follows its authorization, under an action and a response
      id no request had; a response answers one request, and evidence one response, once. */
  ghost predicate Traced(es: seq<Entry>, i: nat)
    requires i < |es|
  {
    var e := es[i];
    match e.kind
    case Authorized => !ActionBefore(es, i, Authorized, Value(e, ActionKey))
    case McpRequest =>
      ActionBefore(es, i, Authorized, Value(e, ActionKey)) &&
      !ActionBefore(es, i, McpRequest, Value(e, ActionKey)) && !ResponseBefore(es, i, McpRequest, Value(e, ResponseKey))
    case McpResponse => PairBefore(es, i, McpRequest, Pair(e)) && !PairBefore(es, i, McpResponse, Pair(e))
    case EvidenceValidated => PairBefore(es, i, McpResponse, Pair(e)) && !PairBefore(es, i, EvidenceValidated, Pair(e))
    case _ => true
  }

  ghost predicate Provenance(es: seq<Entry>) {
    forall i :: 0 <= i < |es| ==> Traced(es, i)
  }

  predicate ShortValues(e: Entry) {
    forall key :: key in e.metadata ==> |e.metadata[key]| <= 64
  }

  ghost predicate TerminalOk(es: seq<Entry>, limited: bool) {
    forall i :: 0 <= i < |es| ==> (es[i].kind.TranscriptLimit? <==> limited && i == |es| - 1)
  }

  /** What parse_closed_json demands of one entry: depth, item counts and string sizes. */
  predicate EntryJsonOk(limits: Limits, e: Entry) {
    var items := Max(limits.objectArrayItems, limits.transcriptEventCount);
    limits.jsonNestingDepth >= (if e.metadata == map[] then 3 else 4) && 2 <= items && |e.metadata| <= items &&
    |Name(e.kind)| <= limits.stringBytes &&
    forall key :: key in e.metadata ==> |e.metadata[key]| <= limits.stringBytes
  }

  predicate JsonOk(limits: Limits, es: seq<Entry>, limited: bool) {
    var items := Max(limits.objectArrayItems, limits.transcriptEventCount);
    |Text(es, limited)| <= limits.transcriptBytes && limits.jsonNestingDepth >= 1 && 3 <= items && |es| <= items &&
    forall i :: 0 <= i < |es| ==> EntryJsonOk(limits, es[i])
  }

  ghost predicate Accepted(limits: Limits, es: seq<Entry>, limited: bool) {
    JsonOk(limits, es, limited) && |es| <= limits.transcriptEventCount &&
    (forall i :: 0 <= i < |es| ==> SchemaOk(es[i]) && ShortValues(es[i])) &&
    Provenance(es) && (limited ==> es != []) && TerminalOk(es, limited)
  }

  // ---------- The parser ----------

  function Actions(es: seq<Entry>, n: nat, k: Kind): set<string>
    requires n <= |es|
  {
    set j | 0 <= j < n && es[j].kind == k :: Value(es[j], ActionKey)
  }

  function Responses(es: seq<Entry>, n: nat, k: Kind): set<string>
    requires n <= |es|
  {
    set j | 0 <= j < n && es[j].kind == k :: Value(es[j], ResponseKey)
  }

  function Pairs(es: seq<Entry>, n: nat, k: Kind): set<(string, string)>
    requires n <= |es|
  {
    set j | 0 <= j < n && es[j].kind == k :: Pair(es[j])
  }

  lemma SetsGrow(es: seq<Entry>, n: nat, k: Kind)
    requires n < |es|
    ensures Actions(es, n + 1, k) == Actions(es, n, k) + (if es[n].kind == k then {Value(es[n], ActionKey)} else {})
    ensures Responses(es, n + 1, k) == Responses(es, n, k) + (if es[n].kind == k then {Value(es[n], ResponseKey)} else {})
    ensures Pairs(es, n + 1, k) == Pairs(es, n, k) + (if es[n].kind == k then {Pair(es[n])} else {})
  {
    hide Value, Pair;
  }

  // The six sets that the loop keeps.
  lemma SixGrow(es: seq<Entry>, n: nat)
    requires n < |es|
    ensures var e := es[n];
            && Actions(es, n + 1, Authorized) == Actions(es, n, Authorized) + (if e.kind.Authorized? then {Value(e, ActionKey)} else {})
            && Actions(es, n + 1, McpRequest) == Actions(es, n, McpRequest) + (if e.kind.McpRequest? then {Value(e, ActionKey)} else {})
            && Responses(es, n + 1, McpRequest) == Responses(es, n, McpRequest) + (if e.kind.McpRequest? then {Value(e, ResponseKey)} else {})
            && Pairs(es, n + 1, McpRequest) == Pairs(es, n, McpRequest) + (if e.kind.McpRequest? then {Pair(e)} else {})
            && Pairs(es, n + 1, McpResponse) == Pairs(es, n, McpResponse) + (if e.kind.McpResponse? then {Pair(e)} else {})
            && Pairs(es, n + 1, EvidenceValidated) == Pairs(es, n, EvidenceValidated) + (if e.kind.EvidenceValidated? then {Pair(e)} else {})
  {
    hide Value, Pair, Actions, Responses, Pairs;
    SetsGrow(es, n, Authorized);
    SetsGrow(es, n, McpRequest);
    SetsGrow(es, n, McpResponse);
    SetsGrow(es, n, EvidenceValidated);
  }

  // The correlation sets say what came before.
  lemma SetsTrace(es: seq<Entry>, n: nat)
    requires n < |es|
    ensures forall a :: a in Actions(es, n, Authorized) <==> ActionBefore(es, n, Authorized, a)
    ensures forall a :: a in Actions(es, n, McpRequest) <==> ActionBefore(es, n, McpRequest, a)
    ensures forall r :: r in Responses(es, n, McpRequest) <==> ResponseBefore(es, n, McpRequest, r)
    ensures forall p, k :: p in Pairs(es, n, k) <==> PairBefore(es, n, k, p)
  {
    hide Value, Pair;
  }

  // A pair that was requested names an action that was requested.
  lemma PairImpliesAction(es: seq<Entry>, n: nat, pair: (string, string))
    requires n <= |es| && pair in Pairs(es, n, McpRequest)
    ensures pair.0 in Actions(es, n, McpRequest)
  {
  }

  // An entry is traced exactly if the sets of the earlier ones let it pass.
  lemma SetsDecide(es: seq<Entry>, n: nat)
    requires n < |es|
    ensures var e, action, pair := es[n], Value(es[n], ActionKey), Pair(es[n]);
            && pair == (action, Value(e, ResponseKey))
            && match e.kind
               case Authorized => Traced(es, n) <==> action !in Actions(es, n, Authorized)
               case McpRequest =>
                 Traced(es, n) <==>
                 action in Actions(es, n, Authorized) && pair !in Pairs(es, n, McpRequest) &&
                 action !in Actions(es, n, McpRequest) && pair.1 !in Responses(es, n, McpRequest)
               case McpResponse => Traced(es, n) <==> pair in Pairs(es, n, McpRequest) && pair !in Pairs(es, n, McpResponse)
               case EvidenceValidated =>
                 Traced(es, n) <==> pair in Pairs(es, n, McpResponse) && pair !in Pairs(es, n, EvidenceValidated)
               case _ => Traced(es, n)
  {
    hide Value, Pair, Actions, Responses, Pairs, ActionBefore, ResponseBefore, PairBefore;
    SetsTrace(es, n);
    PairIs(es[n]);
    if Pair(es[n]) in Pairs(es, n, McpRequest) {
      PairImpliesAction(es, n, Pair(es[n]));
    }
  }

  /** The loop over the events with its growing correlation sets decides exactly what is accepted. */
  method Parse(limits: Limits, es: seq<Entry>, limited: bool) returns (ok: bool)
    ensures ok <==> Accepted(limits, es, limited)
  {
    hide JsonOk, TerminalOk, SchemaOk, ShortValues, Traced, Value, Pair, Actions, Responses, Pairs;
    if !JsonOk(limits, es, limited) || |es| > limits.transcriptEventCount {
      return false;
    }
    var authorized: set<string>, requestActions: set<string>, requestResponses: set<string> := {}, {}, {};
    var requested: set<(string, string)>, responded: set<(string, string)>, evidenced: set<(string, string)> := {}, {}, {};
    SetsStart(es);
    var n := 0;
    while n < |es|
      invariant 0 <= n <= |es|
      invariant authorized == Actions(es, n, Authorized) && requestActions == Actions(es, n, McpRequest)
      invariant requestResponses == Responses(es, n, McpRequest) && requested == Pairs(es, n, McpRequest)
      invariant responded == Pairs(es, n, McpResponse) && evidenced == Pairs(es, n, EvidenceValidated)
      invariant forall i :: 0 <= i < n ==> SchemaOk(es[i]) && ShortValues(es[i]) && Traced(es, i)
    {
      var e := es[n];
      SetsDecide(es, n);
      SixGrow(es, n);
      if !SchemaOk(e) || !ShortValues(e) {
        return false;
      }
      var action, pair := Value(e, ActionKey), Pair(e);
      match e.kind {
        case Authorized =>
          if action in authorized {
            return false;
          }
          authorized := authorized + {action};
        case McpRequest =>
          if pair.0 !in authorized || pair in requested || pair.0 in requestActions || pair.1 in requestResponses {
            return false;
          }
          requested, requestActions, requestResponses := requested + {pair}, requestActions + {pair.0}, requestResponses + {pair.1};
        case McpResponse =>
          if pair !in requested || pair in responded {
            return false;
          }
          responded := responded + {pair};
        case EvidenceValidated =>
          if pair !in responded || pair in evidenced {
            return false;
          }
          evidenced := evidenced + {pair};
        case _ =>
      }
      n := n + 1;
    }
    ok := CheckTerminal(es, limited);
  }

  lemma PairIs(e: Entry)
    ensures Pair(e) == (Value(e, ActionKey), Value(e, ResponseKey))
  {
  }

  lemma SetsStart(es: seq<Entry>)
    ensures forall k :: Actions(es, 0, k) == {} && Responses(es, 0, k) == {} && Pairs(es, 0, k) == {}
  {
  }

  /** terminal_indexes is [last] in a limited transcript and empty in any other. */
  method CheckTerminal(es: seq<Entry>, limited: bool) returns (ok: bool)
    ensures ok <==> (limited ==> es != []) && TerminalOk(es, limited)
  {
    var indexes: seq<nat> := [];
    var i := 0;
    while i < |es|
      invariant 0 <= i <= |es|
      invariant forall k :: 0 <= k < |indexes| ==> indexes[k] < i && es[indexes[k]].kind.TranscriptLimit?
      invariant forall j :: 0 <= j < i && es[j].kind.TranscriptLimit? ==> j in indexes
      invariant forall k, l :: 0 <= k < l < |indexes| ==> indexes[k] < indexes[l]
    {
      if es[i].kind.TranscriptLimit? {
        indexes := indexes + [i];
      }
      i := i + 1;
    }
    ok := if limited then es != [] && indexes == [|es| - 1] else indexes == [];
    if indexes != [] {
      assert es[indexes[0]].kind.TranscriptLimit?;
      assert |indexes| > 1 ==> es[indexes[1]].kind.TranscriptLimit?;
    }
    if limited && es != [] && TerminalOk(es, limited) {
      assert |es| - 1 in indexes;
      assert forall k :: 0 <= k < |indexes| ==> indexes[k] == |es| - 1;
      assert indexes == [|es| - 1];
    }
  }
}
