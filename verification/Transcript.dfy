/** The bounded control transcript: its events, their exact JSON text, and the writer that never loses
    an accepted event. */
module Transcript {
  import opened Numbers
  import RequestKey

  datatype Kind =
    | ProcessStart | InitializeRequest | InitializeResponse | InitializedNotification
    | ToolsListRequest | ToolsListResponse | SurfaceCaptured | SurfaceRevalidated
    | ProviderTurnStart | ProviderTurnResponse | ProposalRejected | ProposalDuplicate
    | Authorized | McpRequest | McpResponse | EvidenceValidated | Skipped
    | DeadlinePassed | Cancelled | Failure
    | ShutdownStart | ShutdownTerminate | ShutdownKill | ShutdownComplete | ShutdownUnreaped
    | OutcomeKind | TranscriptLimit | Surface | ProviderTurn | Failed
    | Unknown(name: string)

  datatype Key = ActionKey | BytesKey | FailureKey | OutcomeKey | ProposalKey | ResponseKey | SurfaceKey | TurnKey
               | OtherKey(name: string)

  datatype Entry = Entry(kind: Kind, metadata: map<Key, string>)

  /** The parts of Limits that the transcript looks at. */
  datatype Limits = Limits(transcriptBytes: nat, transcriptEventCount: nat, jsonNestingDepth: nat,
                           objectArrayItems: nat, stringBytes: nat)

  function Schema(k: Kind): set<Key> {
    match k
    case InitializeResponse => {ResponseKey}
    case ToolsListResponse => {ResponseKey}
    case SurfaceCaptured => {SurfaceKey}
    case SurfaceRevalidated => {SurfaceKey}
    case Surface => {SurfaceKey}
    case ProviderTurnStart => {TurnKey, BytesKey}
    case ProviderTurnResponse => {TurnKey, BytesKey}
    case ProviderTurn => {TurnKey, BytesKey}
    case ProposalRejected => {ProposalKey}
    case ProposalDuplicate => {ProposalKey}
    case Skipped => {ProposalKey}
    case Authorized => {ActionKey, ProposalKey}
    case McpRequest => {ActionKey, ResponseKey}
    case McpResponse => {ActionKey, ResponseKey}
    case EvidenceValidated => {ActionKey, ResponseKey}
    case Failure => {FailureKey}
    case Failed => {FailureKey, ActionKey}
    case OutcomeKind => {OutcomeKey}
    case _ => {}
  }

  predicate SchemaOk(e: Entry) {
    !e.kind.Unknown? && (e.metadata.Keys == Schema(e.kind) || (e.kind.Failed? && e.metadata.Keys == {FailureKey}))
  }

  // ---------- Values ----------

  predicate IsAscii(s: string) {
    forall i :: 0 <= i < |s| ==> s[i] as int < 128
  }

  predicate ValidValue(s: string) {
    0 < |s| <= 64 && IsAscii(s)
  }

  function Lower(c: char): char {
    if 'A' <= c <= 'Z' then c - 'A' + 'a' else c
  }

  predicate At(value: string, part: string, i: nat) {
    i + |part| <= |value| && forall j :: 0 <= j < |part| ==> Lower(value[i + j]) == part[j]
  }

  /** `part in value.lower()`. */
  predicate Contains(value: string, part: string) {
    exists i :: 0 <= i <= |value| && At(value, part, i)
  }

  const SUSPICIOUS: seq<string> := ["authorization", "proxy-authorization", "bearer", "api-key", "api-", "apikey",
                                    "sk-", "password", "secret", "token"]

  predicate MustHide(value: string) {
    (exists k :: 0 <= k < |SUSPICIOUS| && Contains(value, SUSPICIOUS[k])) ||
    (value != "" && value[0] == '/') || '\\' in value
  }

  const REDACTED := "redacted"

  function Redact(value: string): string {
    if MustHide(value) then REDACTED else value
  }

  function RedactAll(metadata: map<Key, string>): map<Key, string> {
    map key | key in metadata :: Redact(metadata[key])
  }

  predicate IsHex(s: string) {
    forall i :: 0 <= i < |s| ==> '0' <= s[i] <= '9' || 'a' <= s[i] <= 'f'
  }

  lemma NotInHex(value: string, part: string, j: nat)
    requires IsHex(value) && j < |part| && !('0' <= part[j] <= '9' || 'a' <= part[j] <= 'f')
    ensures !Contains(value, part)
  {
    if i :| 0 <= i <= |value| && At(value, part, i) {
      assert Lower(value[i + j]) == part[j];
    }
  }

  // Hexadecimal identities and decimal numbers are never redacted.
  lemma HexIsPlain(value: string)
    requires IsHex(value)
    ensures Redact(value) == value
  {
    hide Contains;
    NotInHex(value, "authorization", 1);
    NotInHex(value, "proxy-authorization", 0);
    NotInHex(value, "bearer", 3);
    NotInHex(value, "api-key", 1);
    NotInHex(value, "api-", 1);
    NotInHex(value, "apikey", 1);
    NotInHex(value, "sk-", 0);
    NotInHex(value, "password", 0);
    NotInHex(value, "secret", 0);
    NotInHex(value, "token", 0);
  }

  function Number(n: nat): string {
    RequestKey.Decimal(n)
  }

  lemma {:induction false} NumberIsHex(n: nat)
    ensures IsHex(Number(n)) && IsAscii(Number(n)) && |Number(n)| > 0
  {
    if n >= 10 {
      NumberIsHex(n / 10);
    }
  }

  // ---------- Serialization ----------

  function Name(k: Kind): string {
    match k
    case ProcessStart => "process_start"
    case InitializeRequest => "initialize_request"
    case InitializeResponse => "initialize_response"
    case InitializedNotification => "initialized_notification"
    case ToolsListRequest => "tools_list_request"
    case ToolsListResponse => "tools_list_response"
    case SurfaceCaptured => "surface_captured"
    case SurfaceRevalidated => "surface_revalidated"
    case ProviderTurnStart => "provider_turn_start"
    case ProviderTurnResponse => "provider_turn_response"
    case ProposalRejected => "proposal_rejected"
    case ProposalDuplicate => "proposal_duplicate"
    case Authorized => "authorized"
    case McpRequest => "mcp_request"
    case McpResponse => "mcp_response"
    case EvidenceValidated => "evidence_validated"
    case Skipped => "skipped"
    case DeadlinePassed => "deadline"
    case Cancelled => "cancelled"
    case Failure => "failure"
    case ShutdownStart => "shutdown_start"
    case ShutdownTerminate => "shutdown_terminate"
    case ShutdownKill => "shutdown_kill"
    case ShutdownComplete => "shutdown_complete"
    case ShutdownUnreaped => "shutdown_unreaped"
    case OutcomeKind => "outcome"
    case TranscriptLimit => "transcript_limit"
    case Surface => "surface"
    case ProviderTurn => "provider_turn"
    case Failed => "failed"
    case Unknown(name) => name
  }

  /** The keys that pass the schema, in the order sort_keys writes them. */
  const SORTED_KEYS: seq<Key> :=
    [ActionKey, BytesKey, FailureKey, OutcomeKey, ProposalKey, ResponseKey, SurfaceKey, TurnKey]

  function KeyName(k: Key): string {
    match k
    case ActionKey => "action"
    case BytesKey => "bytes"
    case FailureKey => "failure"
    case OutcomeKey => "outcome"
    case ProposalKey => "proposal"
    case ResponseKey => "response"
    case SurfaceKey => "surface"
    case TurnKey => "turn"
    case OtherKey(name) => name
  }

  /** One character of a JSON string under ensure_ascii; only ASCII values pass the writer. */
  function EscapeChar(c: char): string {
    if c == '"' then "\\\""
    else if c == '\\' then "\\\\"
    else if c == '\n' then "\\n"
    else if c == '\r' then "\\r"
    else if c == '\t' then "\\t"
    else if c == 8 as char then "\\b"
    else if c == 12 as char then "\\f"
    else if c as int < 32 || c as int == 127 then "\\u00" + [LowerHexDigit(c as int / 16), LowerHexDigit(c as int % 16)]
    else [c]
  }

  function EscapeText(s: string): string {
    if s == "" then "" else EscapeText(s[..|s| - 1]) + EscapeChar(s[|s| - 1])
  }

  function Quote(s: string): string {
    "\"" + EscapeText(s) + "\""
  }

  function FieldsText(metadata: map<Key, string>, keys: seq<Key>): string {
    if keys == [] then ""
    else
      var rest := FieldsText(metadata, keys[1..]);
      if keys[0] !in metadata then rest
      else Quote(KeyName(keys[0])) + ":" + Quote(metadata[keys[0]]) + (if rest == "" then "" else "," + rest)
  }

  function EntryText(e: Entry): (s: string)
    ensures |s| > 0
  {
    "{\"event\":" + Quote(Name(e.kind)) + ",\"metadata\":{" + FieldsText(e.metadata, SORTED_KEYS) + "}}"
  }

  function EntriesText(es: seq<Entry>): string {
    if es == [] then ""
    else EntriesText(es[..|es| - 1]) + (if |es| == 1 then "" else ",") + EntryText(es[|es| - 1])
  }

  /** _transcript_bytes. */
  function Text(es: seq<Entry>, limited: bool): string {
    "{\"events\":[" + EntriesText(es) + "],\"limited\":" + (if limited then "true" else "false") + ",\"schemaVersion\":2}"
  }

  const TERMINAL := Entry(TranscriptLimit, map[])

  // Reserving the terminal event reserves room for the unlimited form too.
  lemma ReserveCovers(es: seq<Entry>)
    ensures |Text(es, false)| <= |Text(es + [TERMINAL], true)|
    ensures |Text([TERMINAL], true)| <= |Text(es + [TERMINAL], true)|
  {
    hide EntryText;
    assert (es + [TERMINAL])[..|es|] == es;
    assert [TERMINAL][..0] == [];
    assert EntriesText([TERMINAL]) == EntryText(TERMINAL);
    assert EntriesText(es + [TERMINAL]) == EntriesText(es) + (if es == [] then "" else ",") + EntryText(TERMINAL);
  }

  // ---------- The writer ----------

  datatype AddError = InvalidEvent | InvalidMetadata | TerminalCannotFit
  datatype AddResult = Added | Refused(error: AddError)

  predicate ValuesOk(metadata: map<Key, string>) {
    forall key :: key in metadata ==> ValidValue(metadata[key])
  }

  /** What add does to the events and the flag. */
  function AddStep(limits: Limits, es: seq<Entry>, limited: bool, e: Entry): (seq<Entry>, bool, AddResult) {
    if limited then (es, true, Added)
    else if !SchemaOk(e) then (es, false, Refused(InvalidEvent))
    else if !ValuesOk(e.metadata) then (es, false, Refused(InvalidMetadata))
    else
      var candidate := es + [Entry(e.kind, RedactAll(e.metadata))];
      if e.kind != TranscriptLimit && |candidate| < limits.transcriptEventCount
         && |Text(candidate + [TERMINAL], true)| <= limits.transcriptBytes then (candidate, false, Added)
      else if |Text(es + [TERMINAL], true)| > limits.transcriptBytes then (es, false, Refused(TerminalCannotFit))
      else (es + [TERMINAL], true, Added)
  }

  class BoundedTranscript {
    const limits: Limits
    var events: seq<Entry>
    var limited: bool

    constructor (limits: Limits)
      ensures this.limits == limits && events == [] && !limited
    {
      this.limits := limits;
      events, limited := [], false;
    }

    method Add(e: Entry) returns (r: AddResult)
      modifies this
      ensures (events, limited, r) == AddStep(limits, old(events), old(limited), e)
    {
      if limited {
        return Added;
      }
      if !SchemaOk(e) {
        return Refused(InvalidEvent);
      }
      if !ValuesOk(e.metadata) {
        return Refused(InvalidMetadata);
      }
      var candidate := events + [Entry(e.kind, RedactAll(e.metadata))];
      if e.kind != TranscriptLimit && |candidate| < limits.transcriptEventCount
         && |Text(candidate + [TERMINAL], true)| <= limits.transcriptBytes {
        events := candidate;
        return Added;
      }
      var terminal := events + [TERMINAL];
      if |Text(terminal, true)| > limits.transcriptBytes {
        return Refused(TerminalCannotFit);
      }
      events, limited := terminal, true;
      return Added;
    }
  }

  /** Holds of every transcript that add has built: the terminal marker is there exactly when the
      transcript is limited, once and last, and there is room for it while it is not. */
  ghost predicate WriterOk(limits: Limits, es: seq<Entry>, limited: bool) {
    (forall i :: 0 <= i < |es| ==> SchemaOk(es[i]) && ValuesOk(es[i].metadata)) &&
    (forall i :: 0 <= i < |es| && es[i].kind.TranscriptLimit? ==> limited && i == |es| - 1) &&
    (limited ==> es != [] && es[|es| - 1] == TERMINAL && |Text(es, true)| <= limits.transcriptBytes && |es| <= limits.transcriptEventCount) &&
    (!limited && es != [] ==> |Text(es + [TERMINAL], true)| <= limits.transcriptBytes && |es| < limits.transcriptEventCount)
  }

  lemma RedactedSchema(e: Entry)
    requires SchemaOk(e) && ValuesOk(e.metadata)
    ensures var kept := Entry(e.kind, RedactAll(e.metadata)); SchemaOk(kept) && ValuesOk(kept.metadata)
  {
    hide MustHide;
    var kept := RedactAll(e.metadata);
    assert kept.Keys == e.metadata.Keys;
    forall key | key in kept ensures ValidValue(kept[key]) {
      assert ValidValue(e.metadata[key]);
      assert ValidValue(REDACTED);
    }
  }

  /** Every step of the writer keeps its invariant, extends the transcript and takes back nothing;
      and it fails for want of room only while the transcript is empty. */
  lemma AddKeeps(limits: Limits, es: seq<Entry>, limited: bool, e: Entry)
    requires WriterOk(limits, es, limited) && limits.transcriptEventCount > 0
    ensures var (es', limited', r) := AddStep(limits, es, limited, e);
            && WriterOk(limits, es', limited')
            && es <= es' && (limited ==> limited' && es' == es)
            && (r == Refused(TerminalCannotFit) ==> es == [] && |Text([TERMINAL], true)| > limits.transcriptBytes)
  {
    hide Text, SchemaOk, ValuesOk, RedactAll;
    if SchemaOk(e) && ValuesOk(e.metadata) {
      RedactedSchema(e);
    }
    TerminalSchema();
    assert [] + [TERMINAL] == [TERMINAL];
  }

  lemma TerminalSchema()
    ensures SchemaOk(TERMINAL) && ValuesOk(TERMINAL.metadata)
  {
  }

  /** Every transcript that add has built fits both limits in its serialized form. */
  lemma WriterFits(limits: Limits, es: seq<Entry>, limited: bool)
    requires WriterOk(limits, es, limited) && es != []
    ensures |Text(es, limited)| <= limits.transcriptBytes && |es| <= limits.transcriptEventCount
  {
    hide Text;
    ReserveCovers(es);
  }
}
