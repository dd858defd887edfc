/** The text of a transcript can be read back: what to_json_bytes writes is JSON, and its events are the
    events written. */
module TranscriptText {
  import opened Options
  import opened Numbers
  import opened Transcript
  import opened TranscriptParser
  import opened JsonText

  // ---------- Strings ----------

  lemma DigitReads(n: int)
    requires 0 <= n < 16
    ensures HexValue(LowerHexDigit(n)) == Some(n)
  {
  }

  /** A character is read back from its escaped form. */
  lemma CharReads(c: char, s: string, rest: string)
    requires s == EscapeChar(c) + rest
    ensures ReadChars(s) == match ReadChars(rest) case None => None case Some(r) => Some(Reading([c] + r.value, r.rest))
  {
    hide LowerHexDigit, HexValue, ReadChars;
    var form := EscapeChar(c);
    FormReads(c, rest);
    assert s[|form|..] == rest;
    ReadCharsStep(s);
    if form[0] == '\\' {
      assert s[1..] == form[1..] + rest;
    } else {
      assert s[1..] == rest;
    }
  }

  lemma FormReads(c: char, rest: string)
    ensures var form := EscapeChar(c);
            && form != "" && form[0] != '"'
            && (if form[0] == '\\' then ReadEscape(form[1..] + rest) == Some((c, |form| - 1)) && |form| > 1 else form == [c])
  {
    hide LowerHexDigit, HexValue;
    if c as int < 32 || c as int == 127 {
      DigitReads(c as int / 16);
      DigitReads(c as int % 16);
    }
  }

  lemma ReadCharsStep(s: string)
    requires s != "" && s[0] != '"'
    ensures s[0] != '\\' ==> ReadChars(s) == match ReadChars(s[1..]) case None => None case Some(r) => Some(Reading([s[0]] + r.value, r.rest))
    ensures s[0] == '\\' && ReadEscape(s[1..]).Some? && ReadEscape(s[1..]).value.1 < |s| ==>
              var e := ReadEscape(s[1..]).value;
              ReadChars(s) == match ReadChars(s[1 + e.1..]) case None => None case Some(r) => Some(Reading([e.0] + r.value, r.rest))
  {
    hide ReadEscape;
  }

  lemma {:induction false} EscapeTextCons(c: char, v: string)
    ensures EscapeText([c] + v) == EscapeChar(c) + EscapeText(v)
  {
    hide EscapeChar;
    if v == "" {
      assert [c] + v == [c] && [c][..0] == "";
    } else {
      var n := |v| - 1;
      assert ([c] + v)[..n + 1] == [c] + v[..n];
      EscapeTextCons(c, v[..n]);
    }
  }

  /** A string is read back from its quoted form. */
  lemma {:induction false} TextReads(v: string, s: string, rest: string)
    requires s == EscapeText(v) + "\"" + rest
    ensures ReadChars(s) == Some(Reading(v, rest))
    decreases |v|
  {
    hide EscapeChar, EscapeText;
    if v == "" {
      EscapeNothing();
      assert s[1..] == rest;
    } else {
      EscapeTextCons(v[0], v[1..]);
      assert v == [v[0]] + v[1..];
      var s' := EscapeText(v[1..]) + "\"" + rest;
      assert s == EscapeChar(v[0]) + s';
      CharReads(v[0], s, s');
      TextReads(v[1..], s', rest);
    }
  }

  lemma EscapeNothing()
    ensures EscapeText("") == ""
  {
  }

  lemma QuoteReads(v: string, s: string, rest: string)
    requires s == Quote(v) + rest
    ensures s != "" && s[0] == '"' && ReadChars(s[1..]) == Some(Reading(v, rest)) && ReadValue(s) == Some(Reading(JString(v), rest))
  {
    hide EscapeText;
    assert s[1..] == EscapeText(v) + "\"" + rest;
    TextReads(v, s[1..], rest);
  }

  // ---------- Objects and arrays ----------

  lemma MemberReads(name: string, value: Tree, s: string, body: string, rest: string)
    requires s == Quote(name) + ":" + body && ReadValue(body) == Some(Reading(value, rest))
    ensures ReadMember(s) == Some(Reading(Member(name, value), rest))
  {
    hide Quote, ReadValue, ReadChars;
    assert s == Quote(name) + (":" + body);
    QuoteReads(name, s, ":" + body);
    assert (":" + body)[1..] == body;
  }

  lemma MembersMore(s: string, m: Member, more: string, ms: seq<Member>, rest: string)
    requires ReadMember(s) == Some(Reading(m, "," + more)) && ReadMembers(more) == Some(Reading(ms, rest))
    ensures ReadMembers(s) == Some(Reading([m] + ms, rest))
  {
    hide ReadMember;
    assert ("," + more)[1..] == more;
  }

  lemma MembersLast(s: string, m: Member, rest: string)
    requires ReadMember(s) == Some(Reading(m, "}" + rest))
    ensures ReadMembers(s) == Some(Reading([m], rest))
  {
    hide ReadMember;
    assert ("}" + rest)[1..] == rest;
  }

  lemma ObjectReads(s: string, body: string, ms: seq<Member>, rest: string)
    requires s == "{" + body && ReadMembers(body) == Some(Reading(ms, rest)) && body != "" && body[0] != '}'
    ensures ReadValue(s) == Some(Reading(JObject(ms), rest))
  {
    hide ReadMembers;
    assert s[1..] == body && s[..2][1] == body[0];
  }

  /** The metadata of an entry in the order in which it is written. */
  function MembersOf(metadata: map<Key, string>, keys: seq<Key>): seq<Member> {
    if keys == [] then []
    else
      (if keys[0] in metadata then [Member(KeyName(keys[0]), JString(metadata[keys[0]]))] else []) + MembersOf(metadata, keys[1..])
  }

  lemma FieldJoined(name: string, value: string, later: string, rest: string)
    ensures name + ":" + value + (if later == "" then "" else "," + later) + "}" + rest
            == name + ":" + (value + if later == "" then "}" + rest else "," + (later + "}" + rest))
  {
    if later == "" {
      assert value + "" + "}" + rest == value + ("}" + rest);
      assert name + ":" + value + "" + "}" + rest == name + ":" + (value + "" + "}" + rest);
    } else {
      assert value + ("," + later) + "}" + rest == value + ("," + (later + "}" + rest));
      assert name + ":" + value + ("," + later) + "}" + rest == name + ":" + (value + ("," + later) + "}" + rest);
    }
  }

  lemma OneField(name: string, value: string, later: string, ms: seq<Member>, s: string, rest: string)
    requires s == Quote(name) + ":" + Quote(value) + (if later == "" then "" else "," + later) + "}" + rest
    requires if later == "" then ms == [] else ReadMembers(later + "}" + rest) == Some(Reading(ms, rest))
    ensures ReadMembers(s) == Some(Reading([Member(name, JString(value))] + ms, rest))
  {
    hide Quote, ReadMember, ReadMembers, ReadValue, ReadChars;
    var tail := if later == "" then "}" + rest else "," + (later + "}" + rest);
    QuoteReads(value, Quote(value) + tail, tail);
    FieldJoined(Quote(name), Quote(value), later, rest);
    MemberReads(name, JString(value), s, Quote(value) + tail, tail);
    if later == "" {
      MembersLast(s, Member(name, JString(value)), rest);
      assert [Member(name, JString(value))] + ms == [Member(name, JString(value))];
    } else {
      MembersMore(s, Member(name, JString(value)), later + "}" + rest, ms, rest);
    }
  }

  lemma FieldsStep(metadata: map<Key, string>, keys: seq<Key>)
    requires keys != []
    ensures var later, ms := FieldsText(metadata, keys[1..]), MembersOf(metadata, keys[1..]);
            if keys[0] in metadata then
              && FieldsText(metadata, keys) == Quote(KeyName(keys[0])) + ":" + Quote(metadata[keys[0]]) + (if later == "" then "" else "," + later)
              && MembersOf(metadata, keys) == [Member(KeyName(keys[0]), JString(metadata[keys[0]]))] + ms
            else FieldsText(metadata, keys) == later && MembersOf(metadata, keys) == ms
  {
    hide Quote, KeyName;
  }

  lemma {:induction false} FieldsRead(metadata: map<Key, string>, keys: seq<Key>, rest: string)
    ensures FieldsText(metadata, keys) == "" <==> MembersOf(metadata, keys) == []
    ensures FieldsText(metadata, keys) != "" ==>
              FieldsText(metadata, keys)[0] == '"' &&
              ReadMembers(FieldsText(metadata, keys) + "}" + rest) == Some(Reading(MembersOf(metadata, keys), rest))
    decreases |keys|
  {
    hide Quote, KeyName, ReadMember, ReadMembers, ReadValue, ReadChars;
    if keys != [] {
      hide FieldsText, MembersOf;
      FieldsStep(metadata, keys);
      FieldsRead(metadata, keys[1..], rest);
      if keys[0] in metadata {
        var name, value := KeyName(keys[0]), metadata[keys[0]];
        QuoteReads(name, Quote(name) + "", "");
        OneField(name, value, FieldsText(metadata, keys[1..]), MembersOf(metadata, keys[1..]), FieldsText(metadata, keys) + "}" + rest, rest);
      }
    }
  }

  function EntryTree(e: Entry): Tree {
    JObject([Member("event", JString(Name(e.kind))), Member("metadata", JObject(MembersOf(e.metadata, SORTED_KEYS)))])
  }

  lemma MetadataReads(metadata: map<Key, string>, s: string, rest: string)
    requires s == "{" + FieldsText(metadata, SORTED_KEYS) + "}" + rest
    ensures ReadValue(s) == Some(Reading(JObject(MembersOf(metadata, SORTED_KEYS)), rest))
  {
    hide FieldsText, ReadMembers, MembersOf;
    var body := FieldsText(metadata, SORTED_KEYS) + "}" + rest;
    FieldsRead(metadata, SORTED_KEYS, rest);
    if FieldsText(metadata, SORTED_KEYS) == "" {
      assert s[..2] == "{}" && s[2..] == rest;
    } else {
      assert s == "{" + body;
      ObjectReads(s, body, MembersOf(metadata, SORTED_KEYS), rest);
    }
  }

  predicate IsLetter(c: char) {
    'A' <= c <= 'Z' || 'a' <= c <= 'z'
  }

  lemma LetterIsPlain(c: char)
    requires IsLetter(c)
    ensures EscapeChar(c) == [c]
  {
  }

  lemma {:induction false} LettersArePlain(v: string)
    requires forall i :: 0 <= i < |v| ==> IsLetter(v[i])
    ensures EscapeText(v) == v
  {
    hide EscapeChar, IsLetter;
    if v != "" {
      LettersArePlain(v[..|v| - 1]);
      LetterIsPlain(v[|v| - 1]);
    }
  }

  lemma PlainText(v: string)
    requires forall i :: 0 <= i < |v| ==> IsLetter(v[i])
    ensures Quote(v) == "\"" + v + "\""
  {
    hide EscapeText, IsLetter;
    LettersArePlain(v);
  }

  lemma EntryReads(e: Entry, s: string, rest: string)
    requires s == EntryText(e) + rest
    ensures ReadValue(s) == Some(Reading(EntryTree(e), rest))
  {
    hide Quote, FieldsText, ReadMember, ReadMembers, ReadValue, ReadChars, MembersOf, Name;
    EntryNames();
    var fields := FieldsText(e.metadata, SORTED_KEYS);
    var last := "{" + fields + "}" + ("}" + rest);
    MetadataReads(e.metadata, last, "}" + rest);
    var second := Quote("metadata") + ":" + last;
    MemberReads("metadata", JObject(MembersOf(e.metadata, SORTED_KEYS)), second, last, "}" + rest);
    MembersLast(second, Member("metadata", JObject(MembersOf(e.metadata, SORTED_KEYS))), rest);
    var name := Quote(Name(e.kind)) + ("," + second);
    QuoteReads(Name(e.kind), name, "," + second);
    var first := Quote("event") + ":" + name;
    MemberReads("event", JString(Name(e.kind)), first, name, "," + second);
    MembersMore(first, Member("event", JString(Name(e.kind))), second, [Member("metadata", JObject(MembersOf(e.metadata, SORTED_KEYS)))], rest);
    EntryJoined(Quote("event"), Quote(Name(e.kind)), Quote("metadata"), fields, rest);
    assert first == Quote("event") + (":" + name);
    QuoteReads("event", first, ":" + name);
    assert EntryTree(e).fields == [Member("event", JString(Name(e.kind)))] + [Member("metadata", JObject(MembersOf(e.metadata, SORTED_KEYS)))];
    ObjectReads(s, first, EntryTree(e).fields, rest);
  }

  lemma EntryNames()
    ensures "{\"event\":" == "{" + Quote("event") + ":" && ",\"metadata\":{" == "," + Quote("metadata") + ":{"
  {
    hide Quote;
    PlainText("event");
    PlainText("metadata");
  }

  lemma EntryJoined(event: string, name: string, metadata: string, fields: string, rest: string)
    ensures "{" + event + ":" + name + ("," + metadata + ":{") + fields + "}}" + rest
            == "{" + (event + ":" + (name + ("," + (metadata + ":" + ("{" + fields + "}" + ("}" + rest))))))
  {
  }

  // ---------- The whole text ----------

  lemma EntriesLast(es: seq<Entry>, e: Entry)
    ensures EntriesText(es + [e]) == EntriesText(es) + (if es == [] then "" else ",") + EntryText(e)
    ensures EntriesText([]) == ""
  {
    hide EntryText;
    assert (es + [e])[..|es|] == es;
  }

  lemma {:induction false} EntriesCons(e: Entry, es: seq<Entry>)
    ensures EntriesText([e] + es) == EntryText(e) + if es == [] then "" else "," + EntriesText(es)
  {
    hide EntryText, EntriesText;
    if es == [] {
      assert [e] + es == [] + [e];
      EntriesLast([], e);
    } else {
      var n := |es| - 1;
      var front, last := es[..n], es[n];
      EntriesCons(e, front);
      EntriesLast([e] + front, last);
      EntriesLast(front, last);
      assert [e] + es == ([e] + front) + [last] && es == front + [last];
    }
  }

  function Trees(es: seq<Entry>): seq<Tree> {
    if es == [] then [] else [EntryTree(es[0])] + Trees(es[1..])
  }

  lemma ItemsMore(s: string, t: Tree, more: string, ts: seq<Tree>, rest: string)
    requires ReadValue(s) == Some(Reading(t, "," + more)) && ReadItems(more) == Some(Reading(ts, rest))
    ensures ReadItems(s) == Some(Reading([t] + ts, rest))
  {
    hide ReadValue;
    assert ("," + more)[1..] == more;
  }

  lemma ItemsLast(s: string, t: Tree, rest: string)
    requires ReadValue(s) == Some(Reading(t, "]" + rest))
    ensures ReadItems(s) == Some(Reading([t], rest))
  {
    hide ReadValue;
    assert ("]" + rest)[1..] == rest;
  }

  lemma {:induction false} EntriesRead(es: seq<Entry>, rest: string)
    requires es != []
    ensures ReadItems(EntriesText(es) + "]" + rest) == Some(Reading(Trees(es), rest))
    ensures EntriesText(es) != "" && EntriesText(es)[0] == '{'
  {
    hide EntriesText, EntryText, EntryTree, ReadItems, ReadValue;
    EntriesCons(es[0], es[1..]);
    assert es == [es[0]] + es[1..];
    EntryStarts(es[0]);
    var s := EntriesText(es) + "]" + rest;
    if |es| == 1 {
      assert s == EntryText(es[0]) + ("]" + rest);
      EntryReads(es[0], s, "]" + rest);
      ItemsLast(s, EntryTree(es[0]), rest);
      assert es[1..] == [] && Trees(es) == [EntryTree(es[0])];
    } else {
      var more := EntriesText(es[1..]) + "]" + rest;
      assert s == EntryText(es[0]) + ("," + more);
      EntryReads(es[0], s, "," + more);
      EntriesRead(es[1..], rest);
      ItemsMore(s, EntryTree(es[0]), more, Trees(es[1..]), rest);
    }
  }

  lemma EntryStarts(e: Entry)
    ensures EntryText(e) != "" && EntryText(e)[0] == '{'
  {
    hide Quote, Name;
  }

  lemma ListReads(es: seq<Entry>, s: string, rest: string)
    requires s == "[" + EntriesText(es) + "]" + rest
    ensures ReadValue(s) == Some(Reading(JArray(Trees(es)), rest))
  {
    hide EntryTree, ReadItems, EntryText;
    if es == [] {
      assert s[..2] == "[]" && s[2..] == rest;
    } else {
      hide EntriesText, Trees;
      EntriesRead(es, rest);
      assert s[1..] == EntriesText(es) + "]" + rest;
      assert s[..2][1] == '{';
    }
  }

  function TranscriptTree(es: seq<Entry>, limited: bool): Tree {
    JObject([Member("events", JArray(Trees(es))), Member("limited", JBool(limited)), Member("schemaVersion", JNumber(2))])
  }

  lemma FlagReads(b: bool, s: string, rest: string)
    requires s == (if b then "true" else "false") + rest
    ensures ReadValue(s) == Some(Reading(JBool(b), rest))
  {
    if b {
      assert s[..4] == "true" && s[4..] == rest;
    } else {
      assert s[..5] == "false" && s[5..] == rest && s[..4][0] == 'f';
    }
  }

  lemma VersionReads(s: string)
    requires s == "2}"
    ensures ReadValue(s) == Some(Reading(JNumber(2), "}"))
  {
    assert s[1..] == "}";
    assert ReadDigits("}", 2) == Reading(2, "}");
  }

  /** The text of a transcript is JSON, of this value and nothing after it. */
  lemma TextIsJson(es: seq<Entry>, limited: bool)
    ensures ReadValue(Text(es, limited)) == Some(Reading(TranscriptTree(es, limited), ""))
  {
    hide Quote, EntriesText, Trees, ReadMember, ReadMembers, ReadValue, ReadChars;
    EventsName();
    LimitedName();
    VersionName();
    var flag, listed := if limited then "true" else "false", EntriesText(es);
    var third := Quote("schemaVersion") + ":" + "2}";
    VersionReads("2}");
    assert "}" + "" == "}";
    MemberReads("schemaVersion", JNumber(2), third, "2}", "}");
    MembersLast(third, Member("schemaVersion", JNumber(2)), "");
    FlagReads(limited, flag + ("," + third), "," + third);
    var second := Quote("limited") + ":" + (flag + ("," + third));
    MemberReads("limited", JBool(limited), second, flag + ("," + third), "," + third);
    MembersMore(second, Member("limited", JBool(limited)), third, [Member("schemaVersion", JNumber(2))], "");
    var list := "[" + listed + "]" + ("," + second);
    ListReads(es, list, "," + second);
    var first := Quote("events") + ":" + list;
    MemberReads("events", JArray(Trees(es)), first, list, "," + second);
    MembersMore(first, Member("events", JArray(Trees(es))), second, [Member("limited", JBool(limited))] + [Member("schemaVersion", JNumber(2))], "");
    TextJoined(Quote("events"), listed, Quote("limited"), flag, Quote("schemaVersion"));
    assert TranscriptTree(es, limited).fields
           == [Member("events", JArray(Trees(es)))] + ([Member("limited", JBool(limited))] + [Member("schemaVersion", JNumber(2))]);
    assert first == Quote("events") + (":" + list);
    QuoteReads("events", first, ":" + list);
    ObjectReads(Text(es, limited), first, TranscriptTree(es, limited).fields, "");
  }

  lemma EventsName()
    ensures "{\"events\":[" == "{" + Quote("events") + ":["
  {
    hide Quote;
    PlainText("events");
  }

  lemma LimitedName()
    ensures "],\"limited\":" == "]," + Quote("limited") + ":"
  {
    hide Quote;
    PlainText("limited");
  }

  lemma VersionName()
    ensures ",\"schemaVersion\":2}" == "," + Quote("schemaVersion") + ":2}"
  {
    hide Quote;
    PlainText("schemaVersion");
  }

  lemma TextJoined(events: string, list: string, limited: string, flag: string, version: string)
    ensures "{" + events + ":[" + list + ("]," + limited + ":") + flag + ("," + version + ":2}")
            == "{" + (events + ":" + ("[" + list + "]" + ("," + (limited + ":" + (flag + ("," + (version + ":" + "2}")))))))
  {
  }

  // ---------- Back to the events ----------

  function KindNamed(name: string): Kind {
    match name
    case "process_start" => ProcessStart
    case "initialize_request" => InitializeRequest
    case "initialize_response" => InitializeResponse
    case "initialized_notification" => InitializedNotification
    case "tools_list_request" => ToolsListRequest
    case "tools_list_response" => ToolsListResponse
    case "surface_captured" => SurfaceCaptured
    case "surface_revalidated" => SurfaceRevalidated
    case "provider_turn_start" => ProviderTurnStart
    case "provider_turn_response" => ProviderTurnResponse
    case "proposal_rejected" => ProposalRejected
    case "proposal_duplicate" => ProposalDuplicate
    case "authorized" => Authorized
    case "mcp_request" => McpRequest
    case "mcp_response" => McpResponse
    case "evidence_validated" => EvidenceValidated
    case "skipped" => Skipped
    case "deadline" => DeadlinePassed
    case "cancelled" => Cancelled
    case "failure" => Failure
    case "shutdown_start" => ShutdownStart
    case "shutdown_terminate" => ShutdownTerminate
    case "shutdown_kill" => ShutdownKill
    case "shutdown_complete" => ShutdownComplete
    case "shutdown_unreaped" => ShutdownUnreaped
    case "outcome" => OutcomeKind
    case "transcript_limit" => TranscriptLimit
    case "surface" => Surface
    case "provider_turn" => ProviderTurn
    case "failed" => Failed
    case _ => Unknown(name)
  }

  function KeyNamed(name: string): Key {
    match name
    case "action" => ActionKey
    case "bytes" => BytesKey
    case "failure" => FailureKey
    case "outcome" => OutcomeKey
    case "proposal" => ProposalKey
    case "response" => ResponseKey
    case "surface" => SurfaceKey
    case "turn" => TurnKey
    case _ => OtherKey(name)
  }

  lemma OpeningKindReads(k: Kind)
    requires k.ProcessStart? || k.InitializeRequest? || k.InitializeResponse? || k.InitializedNotification? || k.ToolsListRequest? || k.ToolsListResponse?
    ensures KindNamed(Name(k)) == k
  {
  }

  lemma TurnKindReads(k: Kind)
    requires k.SurfaceCaptured? || k.SurfaceRevalidated? || k.ProviderTurnStart? || k.ProviderTurnResponse?
    ensures KindNamed(Name(k)) == k
  {
  }

  lemma ProposalKindReads(k: Kind)
    requires k.ProposalRejected? || k.ProposalDuplicate? || k.Authorized? || k.McpRequest?
    ensures KindNamed(Name(k)) == k
  {
  }

  lemma CallKindReads(k: Kind)
    requires k.McpResponse? || k.EvidenceValidated? || k.Skipped?
    ensures KindNamed(Name(k)) == k
  {
  }

  lemma StopKindReads(k: Kind)
    requires k.DeadlinePassed? || k.Cancelled? || k.Failure?
    ensures KindNamed(Name(k)) == k
  {
  }

  lemma ShutdownKindReads(k: Kind)
    requires k.ShutdownStart? || k.ShutdownTerminate?
    ensures KindNamed(Name(k)) == k
  {
  }

  lemma ClosingKindReads(k: Kind)
    requires k.ShutdownKill? || k.ShutdownComplete?
    ensures KindNamed(Name(k)) == k
  {
  }

  lemma EndKindReads(k: Kind)
    requires k.ShutdownUnreaped? || k.OutcomeKind?
    ensures KindNamed(Name(k)) == k
  {
  }

  lemma LimitKindReads(k: Kind)
    requires k.TranscriptLimit? || k.Surface?
    ensures KindNamed(Name(k)) == k
  {
  }

  lemma OtherKindReads(k: Kind)
    requires k.ProviderTurn? || k.Failed?
    ensures KindNamed(Name(k)) == k
  {
  }

  lemma KindReads(k: Kind)
    requires !k.Unknown?
    ensures KindNamed(Name(k)) == k
  {
    hide KindNamed, Name;
    if k.ProcessStart? || k.InitializeRequest? || k.InitializeResponse? || k.InitializedNotification? || k.ToolsListRequest? || k.ToolsListResponse? {
      OpeningKindReads(k);
    } else if k.SurfaceCaptured? || k.SurfaceRevalidated? || k.ProviderTurnStart? || k.ProviderTurnResponse? {
      TurnKindReads(k);
    } else if k.ProposalRejected? || k.ProposalDuplicate? || k.Authorized? || k.McpRequest? {
      ProposalKindReads(k);
    } else if k.McpResponse? || k.EvidenceValidated? || k.Skipped? {
      CallKindReads(k);
    } else if k.DeadlinePassed? || k.Cancelled? || k.Failure? {
      StopKindReads(k);
    } else if k.ShutdownStart? || k.ShutdownTerminate? {
      ShutdownKindReads(k);
    } else if k.ShutdownKill? || k.ShutdownComplete? {
      ClosingKindReads(k);
    } else if k.ShutdownUnreaped? || k.OutcomeKind? {
      EndKindReads(k);
    } else if k.TranscriptLimit? || k.Surface? {
      LimitKindReads(k);
    } else {
      OtherKindReads(k);
    }
  }

  lemma KeyReads(k: Key)
    requires !k.OtherKey?
    ensures KeyNamed(KeyName(k)) == k
  {
  }

  function ValuesOf(ms: seq<Member>): Option<map<Key, string>> {
    if ms == [] then Some(map[])
    else
      var rest := ValuesOf(ms[1..]);
      if rest.None? || !ms[0].value.JString? then None else Some(rest.value[KeyNamed(ms[0].name) := ms[0].value.s])
  }

  function EntryOf(t: Tree): Option<Entry> {
    if t.JObject? && |t.fields| == 2 && t.fields[0].name == "event" && t.fields[0].value.JString? &&
       t.fields[1].name == "metadata" && t.fields[1].value.JObject? && ValuesOf(t.fields[1].value.fields).Some?
    then Some(Entry(KindNamed(t.fields[0].value.s), ValuesOf(t.fields[1].value.fields).value)) else None
  }

  function EntriesOf(ts: seq<Tree>): Option<seq<Entry>> {
    if ts == [] then Some([])
    else
      var first, rest := EntryOf(ts[0]), EntriesOf(ts[1..]);
      if first.None? || rest.None? then None else Some([first.value] + rest.value)
  }

  /** What a text says: its events, and whether it was limited. */
  function ReadTranscript(s: string): Option<(seq<Entry>, bool)> {
    match ReadValue(s)
    case Some(Reading(JObject(ms), "")) =>
      if |ms| == 3 && ms[0].name == "events" && ms[0].value.JArray? && ms[1].name == "limited" && ms[1].value.JBool? &&
         ms[2] == Member("schemaVersion", JNumber(2)) && EntriesOf(ms[0].value.items).Some?
      then Some((EntriesOf(ms[0].value.items).value, ms[1].value.b)) else None
    case _ => None
  }

  function Under(metadata: map<Key, string>, keys: seq<Key>): map<Key, string> {
    map k | k in metadata && k in keys :: metadata[k]
  }

  lemma UnderStep(metadata: map<Key, string>, keys: seq<Key>)
    ensures keys == [] ==> Under(metadata, keys) == map[]
    ensures keys != [] && keys[0] in metadata ==> Under(metadata, keys) == Under(metadata, keys[1..])[keys[0] := metadata[keys[0]]]
    ensures keys != [] && keys[0] !in metadata ==> Under(metadata, keys) == Under(metadata, keys[1..])
  {
    if keys != [] {
      assert forall k :: k in keys <==> k == keys[0] || k in keys[1..];
    }
  }

  lemma {:induction false} ValuesRead(metadata: map<Key, string>, keys: seq<Key>)
    requires forall i :: 0 <= i < |keys| ==> !keys[i].OtherKey?
    ensures ValuesOf(MembersOf(metadata, keys)) == Some(Under(metadata, keys))
  {
    hide KeyNamed, KeyName, Under, FieldsText;
    UnderStep(metadata, keys);
    if keys != [] {
      ValuesRead(metadata, keys[1..]);
      FieldsStep(metadata, keys);
      KeyReads(keys[0]);
      if keys[0] in metadata {
        assert MembersOf(metadata, keys)[1..] == MembersOf(metadata, keys[1..]);
      }
    }
  }

  lemma KnownKeys(e: Entry)
    requires SchemaOk(e)
    ensures forall k :: k in e.metadata ==> k in SORTED_KEYS
  {
    assert forall k: Key :: !k.OtherKey? ==> k in SORTED_KEYS by { AllSorted(); }
  }

  lemma AllSorted()
    ensures forall k: Key :: !k.OtherKey? ==> k in SORTED_KEYS
  {
    assert SORTED_KEYS[0] == ActionKey && SORTED_KEYS[1] == BytesKey && SORTED_KEYS[2] == FailureKey && SORTED_KEYS[3] == OutcomeKey &&
           SORTED_KEYS[4] == ProposalKey && SORTED_KEYS[5] == ResponseKey && SORTED_KEYS[6] == SurfaceKey && SORTED_KEYS[7] == TurnKey;
  }

  lemma EntryReadBack(e: Entry)
    requires SchemaOk(e)
    ensures EntryOf(EntryTree(e)) == Some(e)
  {
    hide KindNamed, Name, MembersOf, ValuesOf, Schema;
    KindReads(e.kind);
    KnownKeys(e);
    ValuesRead(e.metadata, SORTED_KEYS);
    assert Under(e.metadata, SORTED_KEYS) == e.metadata;
  }

  lemma {:induction false} EntriesReadBack(es: seq<Entry>)
    requires forall i :: 0 <= i < |es| ==> SchemaOk(es[i])
    ensures EntriesOf(Trees(es)) == Some(es)
  {
    hide SchemaOk, EntryOf, EntryTree;
    if es != [] {
      EntryReadBack(es[0]);
      EntriesReadBack(es[1..]);
      assert Trees(es)[1..] == Trees(es[1..]) && es == [es[0]] + es[1..];
    }
  }

  /** The events and the flag are read back from the text that was written of them. */
  lemma ReadBack(es: seq<Entry>, limited: bool)
    requires forall i :: 0 <= i < |es| ==> SchemaOk(es[i])
    ensures ReadTranscript(Text(es, limited)) == Some((es, limited))
  {
    hide SchemaOk, ReadValue, Text, Trees, EntriesOf;
    TextIsJson(es, limited);
    EntriesReadBack(es);
  }

  // ---------- The parser's limits ----------

  predicate Distinct(keys: seq<Key>) {
    forall i, j :: 0 <= i < j < |keys| ==> keys[i] != keys[j]
  }

  lemma {:induction false} MembersCount(metadata: map<Key, string>, keys: seq<Key>)
    requires Distinct(keys)
    ensures |MembersOf(metadata, keys)| == |Under(metadata, keys)|
  {
    hide KeyName, Under;
    UnderStep(metadata, keys);
    if keys != [] {
      MembersCount(metadata, keys[1..]);
      NotUnder(metadata, keys);
    }
  }

  lemma NotUnder(metadata: map<Key, string>, keys: seq<Key>)
    requires Distinct(keys) && keys != []
    ensures keys[0] !in Under(metadata, keys[1..])
  {
  }

  predicate AllWithin(ms: seq<Member>, depth: nat, maxDepth: nat, maxItems: nat, maxString: nat) {
    forall i :: 0 <= i < |ms| ==> ms[i].name != "" && Within(ms[i].value, depth, maxDepth, maxItems, maxString)
  }

  lemma AllWithinCons(m: Member, ms: seq<Member>, depth: nat, maxDepth: nat, maxItems: nat, maxString: nat)
    ensures AllWithin([m] + ms, depth, maxDepth, maxItems, maxString) <==>
              m.name != "" && Within(m.value, depth, maxDepth, maxItems, maxString) && AllWithin(ms, depth, maxDepth, maxItems, maxString)
  {
    hide Within;
    var all := [m] + ms;
    assert all[0] == m && forall i :: 0 <= i < |ms| ==> all[i + 1] == ms[i];
    if AllWithin(all, depth, maxDepth, maxItems, maxString) {
      forall i | 0 <= i < |ms| ensures ms[i].name != "" && Within(ms[i].value, depth, maxDepth, maxItems, maxString) {
        assert all[i + 1] == ms[i];
      }
    }
  }

  predicate ShortUnder(metadata: map<Key, string>, keys: seq<Key>, maxString: nat) {
    forall k :: k in metadata && k in keys ==> |metadata[k]| <= maxString
  }

  lemma {:induction false} MembersWithin(metadata: map<Key, string>, keys: seq<Key>, maxDepth: nat, maxItems: nat, maxString: nat)
    requires forall i :: 0 <= i < |keys| ==> !keys[i].OtherKey?
    ensures AllWithin(MembersOf(metadata, keys), 4, maxDepth, maxItems, maxString) <==>
              (MembersOf(metadata, keys) == [] || maxDepth >= 4) && ShortUnder(metadata, keys, maxString)
  {
    hide KeyName, FieldsText, AllWithin;
    if keys == [] {
      NoneWithin(maxDepth, maxItems, maxString);
    } else {
      MembersWithin(metadata, keys[1..], maxDepth, maxItems, maxString);
      FieldsStep(metadata, keys);
      NamedKey(keys[0]);
      assert forall k :: k in keys <==> k == keys[0] || k in keys[1..];
      if keys[0] in metadata {
        AllWithinCons(Member(KeyName(keys[0]), JString(metadata[keys[0]])), MembersOf(metadata, keys[1..]), 4, maxDepth, maxItems, maxString);
      }
    }
  }

  lemma NoneWithin(maxDepth: nat, maxItems: nat, maxString: nat)
    ensures AllWithin([], 4, maxDepth, maxItems, maxString)
  {
  }

  lemma NamedKey(k: Key)
    requires !k.OtherKey?
    ensures KeyName(k) != ""
  {
  }

  lemma SortedDistinct()
    ensures Distinct(SORTED_KEYS)
  {
  }

  /** The metadata keeps to the limits exactly if there are not too many values and none is too long. */
  lemma MetadataWithin(e: Entry, maxDepth: nat, maxItems: nat, maxString: nat)
    requires SchemaOk(e)
    ensures Within(JObject(MembersOf(e.metadata, SORTED_KEYS)), 3, maxDepth, maxItems, maxString) <==>
              maxDepth >= (if e.metadata == map[] then 3 else 4) && |e.metadata| <= maxItems &&
              forall k :: k in e.metadata ==> |e.metadata[k]| <= maxString
  {
    hide MembersOf, Schema;
    KnownKeys(e);
    SortedDistinct();
    MembersCount(e.metadata, SORTED_KEYS);
    MembersWithin(e.metadata, SORTED_KEYS, maxDepth, maxItems, maxString);
    assert Under(e.metadata, SORTED_KEYS) == e.metadata;
    var ms := MembersOf(e.metadata, SORTED_KEYS);
    assert |ms| == |e.metadata|;
    assert e.metadata == map[] <==> |e.metadata| == 0;
  }

  lemma EntryWithin(e: Entry, maxDepth: nat, maxItems: nat, maxString: nat)
    requires SchemaOk(e)
    ensures Within(EntryTree(e), 2, maxDepth, maxItems, maxString) <==>
              2 <= maxItems && |Name(e.kind)| <= maxString && maxDepth >= (if e.metadata == map[] then 3 else 4) && |e.metadata| <= maxItems &&
              forall k :: k in e.metadata ==> |e.metadata[k]| <= maxString
  {
    hide MembersOf, Schema, Name;
    MetadataWithin(e, maxDepth, maxItems, maxString);
    var fields := EntryTree(e).fields;
    var metadata := JObject(MembersOf(e.metadata, SORTED_KEYS));
    assert fields[0].value == JString(Name(e.kind)) && fields[1].value == metadata;
    assert Within(fields[0].value, 3, maxDepth, maxItems, maxString) <==> 3 <= maxDepth && |Name(e.kind)| <= maxString;
  }

  lemma {:induction false} TreesAre(es: seq<Entry>)
    ensures |Trees(es)| == |es| && forall i :: 0 <= i < |es| ==> Trees(es)[i] == EntryTree(es[i])
  {
    hide EntryTree;
    if es != [] {
      TreesAre(es[1..]);
    }
  }

  /** The limits that the parser puts on a transcript are those of _json_value on what its text says, and
      the limit on its bytes. */
  lemma JsonOkIs(limits: Limits, es: seq<Entry>, limited: bool)
    requires forall i :: 0 <= i < |es| ==> SchemaOk(es[i])
    ensures var items := Max(limits.objectArrayItems, limits.transcriptEventCount);
            JsonOk(limits, es, limited) <==>
              |Text(es, limited)| <= limits.transcriptBytes &&
              Within(TranscriptTree(es, limited), 0, limits.jsonNestingDepth, items, limits.stringBytes)
  {
    hide Text, SchemaOk, Trees, EntryTree, Name;
    var depth, items, size := limits.jsonNestingDepth, Max(limits.objectArrayItems, limits.transcriptEventCount), limits.stringBytes;
    TreesAre(es);
    forall i | 0 <= i < |es| ensures Within(Trees(es)[i], 2, depth, items, size) <==> EntryJsonOk(limits, es[i]) {
      EntryWithin(es[i], depth, items, size);
    }
    var fields := TranscriptTree(es, limited).fields;
    assert fields[0].value == JArray(Trees(es)) && fields[1].value == JBool(limited) && fields[2].value == JNumber(2);
    assert Within(JArray(Trees(es)), 1, depth, items, size) <==>
             1 <= depth && |es| <= items && forall i :: 0 <= i < |es| ==> EntryJsonOk(limits, es[i]);
  }
}

