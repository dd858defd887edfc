/** Which values the transcript keeps and which it hides, told without the writer's own words. */
module TranscriptValues {
  import opened Transcript
  import opened TranscriptParser

  // ---------- Hidden values ----------

  /** The character is this letter or sign, in either case. */
  predicate Spells(c: char, sign: char) {
    c == sign || ('a' <= sign <= 'z' && c as int == sign as int - 32)
  }

  /** The value has the part somewhere, in any letter case. */
  ghost predicate Carries(value: string, part: string) {
    exists i :: 0 <= i && CarriesAt(value, part, i)
  }

  predicate CarriesAt(value: string, part: string, i: nat) {
    i + |part| <= |value| && forall j :: 0 <= j < |part| ==> Spells(value[i + j], part[j])
  }

  predicate IsLowerText(part: string) {
    forall j :: 0 <= j < |part| ==> !('A' <= part[j] <= 'Z')
  }

  lemma SpellsIs(c: char, sign: char)
    requires !('A' <= sign <= 'Z')
    ensures Spells(c, sign) <==> Lower(c) == sign
  {
  }

  lemma CarriesIs(value: string, part: string)
    requires IsLowerText(part)
    ensures Carries(value, part) <==> Contains(value, part)
  {
    hide Spells, Lower;
    forall i: nat ensures CarriesAt(value, part, i) <==> At(value, part, i) {
      forall j | 0 <= j < |part| && i + |part| <= |value| ensures Spells(value[i + j], part[j]) <==> Lower(value[i + j]) == part[j] {
        SpellsIs(value[i + j], part[j]);
      }
    }
  }

  /** What must not be shown: the ten parts in any case, a path, or a backslash. */
  ghost predicate Sensitive(value: string) {
    || Carries(value, "authorization") || Carries(value, "proxy-authorization") || Carries(value, "bearer")
    || Carries(value, "api-key") || Carries(value, "api-") || Carries(value, "apikey") || Carries(value, "sk-")
    || Carries(value, "password") || Carries(value, "secret") || Carries(value, "token")
    || (|value| > 0 && value[0] == '/')
    || exists i :: 0 <= i < |value| && value[i] == '\\'
  }

  /** The writer hides exactly the sensitive values and keeps every other one as it is. */
  lemma RedactIs(value: string)
    ensures Redact(value) == if Sensitive(value) then "redacted" else value
  {
    hide Contains, Carries;
    CarriesIs(value, "authorization");
    CarriesIs(value, "proxy-authorization");
    CarriesIs(value, "bearer");
    CarriesIs(value, "api-key");
    CarriesIs(value, "api-");
    CarriesIs(value, "apikey");
    CarriesIs(value, "sk-");
    CarriesIs(value, "password");
    CarriesIs(value, "secret");
    CarriesIs(value, "token");
    assert forall k :: 0 <= k < |SUSPICIOUS| ==>
      SUSPICIOUS[k] in {"authorization", "proxy-authorization", "bearer", "api-key", "api-", "apikey", "sk-", "password", "secret", "token"};
    assert SUSPICIOUS[0] == "authorization" && SUSPICIOUS[1] == "proxy-authorization" && SUSPICIOUS[2] == "bearer" &&
           SUSPICIOUS[3] == "api-key" && SUSPICIOUS[4] == "api-" && SUSPICIOUS[5] == "apikey" && SUSPICIOUS[6] == "sk-" &&
           SUSPICIOUS[7] == "password" && SUSPICIOUS[8] == "secret" && SUSPICIOUS[9] == "token";
  }

  predicate Lacks(value: string, sign: char) {
    forall i :: 0 <= i < |value| ==> !Spells(value[i], sign)
  }

  lemma LacksPart(value: string, part: string, j: nat)
    requires j < |part| && Lacks(value, part[j])
    ensures !Carries(value, part)
  {
    hide Spells;
  }

  /** Words without some letters are not sensitive. */
  predicate IsMild(value: string) {
    LacksMost(value) && (Lacks(value, 'b') || Lacks(value, 'a')) && (Lacks(value, 's') || Lacks(value, 'c'))
  }

  predicate LacksMost(value: string) {
    Lacks(value, 'h') && Lacks(value, 'k') && Lacks(value, 'w') && Lacks(value, '-') && Lacks(value, '/') && Lacks(value, '\\')
  }

  lemma MildJoin(a: string, b: string, sign: char)
    requires LacksMost(a) && LacksMost(b) && Lacks(a, 'b') && Lacks(b, 'b') && Lacks(a, sign) && Lacks(b, sign) && (sign == 's' || sign == 'c')
    ensures IsMild(a + b)
  {
    hide Spells;
  }

  lemma MildIsShown(value: string)
    requires IsMild(value)
    ensures Redact(value) == value && !Sensitive(value)
  {
    hide Carries, Lacks, Redact;
    RedactIs(value);
    LacksPart(value, "authorization", 3);
    LacksPart(value, "proxy-authorization", 5);
    LacksPart(value, "bearer", if Lacks(value, 'b') then 0 else 2);
    LacksPart(value, "api-key", 3);
    LacksPart(value, "api-", 3);
    LacksPart(value, "apikey", 3);
    LacksPart(value, "sk-", 1);
    LacksPart(value, "password", 4);
    LacksPart(value, "secret", if Lacks(value, 's') then 0 else 2);
    LacksPart(value, "token", 2);
    LacksSign(value);
  }

  lemma LacksSign(value: string)
    requires Lacks(value, '/') && Lacks(value, '\\')
    ensures !(|value| > 0 && value[0] == '/') && !exists i :: 0 <= i < |value| && value[i] == '\\'
  {
  }

  lemma CancelledIsMild()
    ensures IsMild("cancelled")
  {
  }

  lemma DeadlineIsMild()
    ensures IsMild("deadline")
  {
  }

  lemma FailedIsMild()
    ensures IsMild("failed")
  {
  }

  lemma FinalIsMild()
    ensures IsMild("final")
  {
  }

  lemma RejectedIsMild()
    ensures IsMild("rejected")
  {
  }

  lemma DuplicateIsMild()
    ensures IsMild("duplicate")
  {
  }

  lemma BudgetIsMild()
    ensures IsMild("budget")
  {
  }

  lemma MarkerIsMild()
    ensures IsMild("redacted")
  {
  }

  lemma TimeoutIsMild()
    ensures IsMild("mcp_timeout")
  {
  }

  lemma TotalIsMild()
    ensures IsMild("total_request_timeout")
  {
    hide Spells;
    TotalLacks();
    RequestTimeoutLacks();
    assert "total_" + "request_timeout" == "total_request_timeout";
    MildJoin("total_", "request_timeout", 'c');
  }

  lemma TotalLacks()
    ensures LacksMost("total_") && Lacks("total_", 'b') && Lacks("total_", 'c')
  {
  }

  lemma RequestTimeoutLacks()
    ensures LacksMost("request_timeout") && Lacks("request_timeout", 'b') && Lacks("request_timeout", 'c')
  {
  }

  lemma LocalIsMild()
    ensures IsMild("local_validation_failure")
  {
    hide Spells;
    LocalValidationLacks();
    FailureLacks();
    assert "local_validation" + "_failure" == "local_validation_failure";
    MildJoin("local_validation", "_failure", 's');
  }

  lemma LocalValidationLacks()
    ensures LacksMost("local_validation") && Lacks("local_validation", 'b') && Lacks("local_validation", 's')
  {
  }

  lemma FailureLacks()
    ensures LacksMost("_failure") && Lacks("_failure", 'b') && Lacks("_failure", 's')
  {
  }

  /** Nothing sensitive is kept. */
  lemma NothingSensitiveKept(value: string)
    ensures !Sensitive(Redact(value))
  {
    hide Sensitive, IsMild, Redact;
    RedactIs(value);
    MarkerIsMild();
    MildIsShown("redacted");
  }

  // ---------- Which values an event has ----------

  /** The events that carry each kind of value; no other value is in any schema. */
  lemma SchemaByKey(k: Kind)
    ensures ActionKey in Schema(k) <==> k.Authorized? || k.McpRequest? || k.McpResponse? || k.EvidenceValidated? || k.Failed?
    ensures ProposalKey in Schema(k) <==> k.Authorized? || k.ProposalRejected? || k.ProposalDuplicate? || k.Skipped?
    ensures ResponseKey in Schema(k) <==>
              k.InitializeResponse? || k.ToolsListResponse? || k.McpRequest? || k.McpResponse? || k.EvidenceValidated?
    ensures SurfaceKey in Schema(k) <==> k.SurfaceCaptured? || k.SurfaceRevalidated? || k.Surface?
    ensures TurnKey in Schema(k) <==> k.ProviderTurnStart? || k.ProviderTurnResponse? || k.ProviderTurn?
    ensures BytesKey in Schema(k) <==> TurnKey in Schema(k)
    ensures FailureKey in Schema(k) <==> k.Failure? || k.Failed?
    ensures OutcomeKey in Schema(k) <==> k.OutcomeKind?
    ensures forall key :: key in Schema(k) ==> !key.OtherKey?
  {
  }

  /** A value is taken if it is an ASCII text of one to 64 characters. */
  lemma ValidValueIs(value: string)
    ensures ValidValue(value) <==> value != "" && |value| <= 64 && forall c :: c in value ==> c <= 127 as char
  {
    if ValidValue(value) {
      forall c | c in value ensures c <= 127 as char {
        var i :| 0 <= i < |value| && value[i] == c;
        assert value[i] as int < 128;
      }
    } else if value != "" && |value| <= 64 {
      var i :| 0 <= i < |value| && value[i] as int >= 128;
      assert value[i] in value;
    }
  }

  /** The parser bounds every value by 64 characters. */
  lemma ShortValuesIs(e: Entry)
    ensures ShortValues(e) <==> forall value :: value in e.metadata.Values ==> |value| <= 64
  {
    if ShortValues(e) {
      forall value | value in e.metadata.Values ensures |value| <= 64 {
        var key :| key in e.metadata && e.metadata[key] == value;
      }
    } else {
      var key :| key in e.metadata && |e.metadata[key]| > 64;
      assert e.metadata[key] in e.metadata.Values;
    }
  }

  /** An event is taken with exactly the values of its schema; only a failed event may leave out its
      action, and an unknown one is never taken. */
  lemma SchemaOkIs(e: Entry)
    ensures e.kind.Unknown? ==> !SchemaOk(e)
    ensures !e.kind.Unknown? && !e.kind.Failed? ==> (SchemaOk(e) <==> forall key :: key in e.metadata <==> key in Schema(e.kind))
    ensures e.kind.Failed? ==>
              (SchemaOk(e) <==> FailureKey in e.metadata && forall key :: key in e.metadata ==> key == FailureKey || key == ActionKey)
  {
    hide Schema;
    SchemaByKey(e.kind);
    if e.kind.Failed? {
      FailedSchema();
    }
    if !e.kind.Unknown? && forall key :: key in e.metadata <==> key in Schema(e.kind) {
      assert e.metadata.Keys == Schema(e.kind);
    }
    if e.kind.Failed? && FailureKey in e.metadata && forall key :: key in e.metadata ==> key == FailureKey || key == ActionKey {
      assert e.metadata.Keys == if ActionKey in e.metadata then {FailureKey, ActionKey} else {FailureKey};
    }
  }

  lemma FailedSchema()
    ensures Schema(Failed) == {FailureKey, ActionKey}
  {
  }
}
