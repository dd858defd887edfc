/** The redaction primitives: secret spans are found, sorted, merged and replaced before the text is
    cut to its byte bound. Text is a sequence of code points, lone surrogates included. */
module Redaction {
  import Utf8
  type Text = Utf8.Text
  datatype Span = Span(start: nat, end: nat)

  // "<redacted>"
  const REDACTED: Text := [60, 114, 101, 100, 97, 99, 116, 101, 100, 62]

  // ---------- What is redacted ----------

  predicate OccursAt(text: Text, secret: Text, i: nat) {
    i + |secret| <= |text| && text[i..i + |secret|] == secret
  }

  ghost predicate IsSecretSpan(text: Text, secrets: seq<Text>, span: Span) {
    exists k :: 0 <= k < |secrets| && secrets[k] != [] && OccursAt(text, secrets[k], span.start) && span.end == span.start + |secrets[k]|
  }

  predicate Within(text: Text, spans: seq<Span>) {
    forall k :: 0 <= k < |spans| ==> spans[k].start < spans[k].end <= |text|
  }

  predicate Covers(spans: seq<Span>, p: nat) {
    exists k :: 0 <= k < |spans| && spans[k].start <= p < spans[k].end
  }

  function Hidden(text: Text, spans: seq<Span>): seq<bool> {
    seq(|text|, p requires 0 <= p < |text| => Covers(spans, p))
  }

  /** The reference: characters that are not hidden stay, and each maximal run of hidden ones is one marker. */
  function Mask(text: Text, hidden: seq<bool>, n: nat): Text
    requires n <= |text| == |hidden|
  {
    if n == 0 then []
    else if !hidden[n - 1] then Mask(text, hidden, n - 1) + [text[n - 1]]
    else if n > 1 && hidden[n - 2] then Mask(text, hidden, n - 1)
    else Mask(text, hidden, n - 1) + REDACTED
  }

  lemma {:induction false} MaskPlain(text: Text, hidden: seq<bool>, a: nat, b: nat)
    requires a <= b <= |text| == |hidden| && forall p :: a <= p < b ==> !hidden[p]
    ensures Mask(text, hidden, b) == Mask(text, hidden, a) + text[a..b]
  {
    if a < b {
      MaskPlain(text, hidden, a, b - 1);
      assert text[a..b] == text[a..b - 1] + [text[b - 1]];
    }
  }

  lemma {:induction false} MaskRun(text: Text, hidden: seq<bool>, a: nat, b: nat)
    requires a < b <= |text| == |hidden| && (a == 0 || !hidden[a - 1]) && forall p :: a <= p < b ==> hidden[p]
    ensures Mask(text, hidden, b) == Mask(text, hidden, a) + REDACTED
  {
    if a < b - 1 {
      MaskRun(text, hidden, a, b - 1);
    }
  }

  /** Some occurrence of some secret includes the character at `p`. */
  ghost predicate InSecret(text: Text, secrets: seq<Text>, p: nat) {
    exists span :: IsSecretSpan(text, secrets, span) && span.start <= p < span.end
  }

  ghost function SecretText(text: Text, secrets: seq<Text>): seq<bool> {
    seq(|text|, p requires 0 <= p < |text| => InSecret(text, secrets, p))
  }

  // ---------- Finding ----------

  /** text.find(secret, start), None where it returns a negative number. */
  method Find(text: Text, secret: Text, start: nat) returns (found: bool, index: nat)
    ensures found ==> start <= index && OccursAt(text, secret, index)
    ensures forall i: nat :: start <= i && OccursAt(text, secret, i) ==> found && index <= i
  {
    index := start;
    while index + |secret| <= |text|
      invariant start <= index
      invariant forall i: nat :: start <= i < index ==> !OccursAt(text, secret, i)
    {
      if text[index..index + |secret|] == secret {
        return true, index;
      }
      index := index + 1;
    }
    found := false;
  }

  /** Every occurrence of every secret, overlapping ones included, and nothing else. */
  method SecretSpans(text: Text, secrets: seq<Text>) returns (spans: seq<Span>)
    ensures forall span :: span in spans <==> IsSecretSpan(text, secrets, span)
    ensures Within(text, spans)
  {
    hide OccursAt;
    spans := [];
    var k := 0;
    while k < |secrets|
      invariant 0 <= k <= |secrets|
      invariant forall span :: span in spans <==> IsSecretSpan(text, secrets[..k], span)
    {
      var secret := secrets[k];
      if secret != [] {
        ghost var before := spans;
        var start := 0;
        while true
          invariant forall span :: span in spans <==>
                      span in before || (span.start < start && OccursAt(text, secret, span.start) && span.end == span.start + |secret|)
          decreases |text| + 1 - start
        {
          var found, index := Find(text, secret, start);
          if !found {
            break;
          }
          FoundInside(text, secret, index);
          spans := spans + [Span(index, index + |secret|)];
          start := index + 1;
        }
      }
      OneSecretMore(text, secrets, k);
      k := k + 1;
    }
    assert secrets[..k] == secrets;
    SecretSpansFit(text, secrets, spans);
  }

  lemma FoundInside(text: Text, secret: Text, i: nat)
    requires OccursAt(text, secret, i)
    ensures i + |secret| <= |text|
  {
  }

  lemma OneSecretMore(text: Text, secrets: seq<Text>, k: nat)
    requires k < |secrets|
    ensures forall span :: IsSecretSpan(text, secrets[..k + 1], span) <==>
              IsSecretSpan(text, secrets[..k], span) ||
              (secrets[k] != [] && OccursAt(text, secrets[k], span.start) && span.end == span.start + |secrets[k]|)
  {
    hide OccursAt;
    var some, more := secrets[..k], secrets[..k + 1];
    assert more == some + [secrets[k]];
    forall span ensures IsSecretSpan(text, more, span) <==>
              IsSecretSpan(text, some, span) ||
              (secrets[k] != [] && OccursAt(text, secrets[k], span.start) && span.end == span.start + |secrets[k]|) {
      if IsSecretSpan(text, some, span) {
        var i :| 0 <= i < |some| && some[i] != [] && OccursAt(text, some[i], span.start) && span.end == span.start + |some[i]|;
        assert more[i] == some[i];
      }
      assert more[k] == secrets[k];
    }
  }

  lemma SecretSpansFit(text: Text, secrets: seq<Text>, spans: seq<Span>)
    requires forall span :: span in spans ==> IsSecretSpan(text, secrets, span)
    ensures Within(text, spans)
  {
    forall k | 0 <= k < |spans| ensures spans[k].start < spans[k].end <= |text| {
      assert spans[k] in spans;
    }
  }

  // ---------- Sorting and merging ----------

  predicate Before(a: Span, b: Span) {
    a.start < b.start || (a.start == b.start && a.end <= b.end)
  }

  predicate Sorted(spans: seq<Span>) {
    forall i, k :: 0 <= i < k < |spans| ==> Before(spans[i], spans[k])
  }

  /** How many of the sorted spans stay in front of `span`. */
  function Place(spans: seq<Span>, span: Span): (i: nat)
    ensures i <= |spans|
    ensures forall k :: 0 <= k < i ==> !Before(span, spans[k])
    ensures i < |spans| ==> Before(span, spans[i])
  {
    if spans == [] || Before(span, spans[0]) then 0 else 1 + Place(spans[1..], span)
  }

  function Insert(spans: seq<Span>, span: Span): (r: seq<Span>) {
    var i := Place(spans, span);
    spans[..i] + [span] + spans[i..]
  }

  lemma InsertSorts(spans: seq<Span>, span: Span)
    requires Sorted(spans)
    ensures Sorted(Insert(spans, span)) && multiset(Insert(spans, span)) == multiset(spans) + multiset{span}
  {
    hide Place;
    var i, r := Place(spans, span), Insert(spans, span);
    assert spans == spans[..i] + spans[i..];
    forall a, b | 0 <= a < b < |r| ensures Before(r[a], r[b]) {
      // The neighbour of `span` stands between it and the rest.
      if a < i == b {
        assert r[a] == spans[a];
      } else if a == i && b > i + 1 {
        assert Before(spans[i], spans[b - 1]);
      }
    }
  }

  /** list.sort on spans. */
  function Sort(spans: seq<Span>): (r: seq<Span>)
    ensures Sorted(r) && multiset(r) == multiset(spans)
  {
    if spans == [] then []
    else
      var rest, last := spans[..|spans| - 1], spans[|spans| - 1];
      assert spans == rest + [last];
      InsertSorts(Sort(rest), last);
      Insert(Sort(rest), last)
  }

  /** Apart: in order, with an uncovered character between neighbours. */
  predicate Apart(spans: seq<Span>) {
    forall k :: 0 < k < |spans| ==> spans[k - 1].end < spans[k].start
  }

  /** The merging loop: the same characters are covered by spans that lie apart. */
  method Merge(text: Text, spans: seq<Span>) returns (merged: seq<Span>)
    requires Within(text, spans) && Sorted(spans)
    ensures Within(text, merged) && Apart(merged)
    ensures forall p: nat :: Covers(merged, p) <==> Covers(spans, p)
  {
    hide Covers;
    merged := [];
    CoversNothing();
    var i := 0;
    while i < |spans|
      invariant 0 <= i <= |spans| && Within(text, merged) && Apart(merged)
      invariant forall p: nat :: Covers(merged, p) <==> Covers(spans[..i], p)
      invariant merged != [] && i < |spans| ==> merged[|merged| - 1].start <= spans[i].start
    {
      var span, last := spans[i], |merged| - 1;
      assert spans[..i + 1] == spans[..i] + [span];
      CoversAppend(spans[..i], span);
      if merged != [] && span.start <= merged[last].end {
        var joined := Span(merged[last].start, if merged[last].end >= span.end then merged[last].end else span.end);
        JoinCovers(merged, span, joined);
        ghost var before := merged;
        merged := merged[..last] + [joined];
        assert forall p: nat :: Covers(merged, p) <==> Covers(before, p) || span.start <= p < span.end;
      } else {
        CoversAppend(merged, span);
        merged := merged + [span];
      }
      i := i + 1;
      assert i < |spans| ==> Before(span, spans[i]);
    }
    assert spans[..i] == spans;
  }

  // The last span and one that starts within it or at its end cover what their union covers.
  lemma JoinCovers(merged: seq<Span>, span: Span, joined: Span)
    requires merged != [] && merged[|merged| - 1].start <= span.start <= merged[|merged| - 1].end
    requires joined.start == merged[|merged| - 1].start
    requires joined.end == if merged[|merged| - 1].end >= span.end then merged[|merged| - 1].end else span.end
    ensures forall p: nat :: Covers(merged[..|merged| - 1] + [joined], p) <==> Covers(merged, p) || span.start <= p < span.end
  {
    hide Covers;
    var last := |merged| - 1;
    CoversAppend(merged[..last], merged[last]);
    CoversAppend(merged[..last], joined);
    assert merged == merged[..last] + [merged[last]];
  }

  lemma CoversNothing()
    ensures forall p: nat :: !Covers([], p)
  {
  }

  lemma CoversAppend(spans: seq<Span>, span: Span)
    ensures forall p: nat :: Covers(spans + [span], p) <==> Covers(spans, p) || span.start <= p < span.end
  {
    var all := spans + [span];
    forall p: nat ensures Covers(all, p) <==> Covers(spans, p) || span.start <= p < span.end {
      assert all[|spans|] == span;
      assert forall k :: 0 <= k < |spans| ==> all[k] == spans[k];
    }
  }

  lemma CoversSame(a: seq<Span>, b: seq<Span>)
    requires multiset(a) == multiset(b)
    ensures forall p: nat :: Covers(a, p) <==> Covers(b, p)
  {
    forall p: nat ensures Covers(a, p) <==> Covers(b, p) {
      if Covers(a, p) {
        CoversMore(a, b, p);
      }
      if Covers(b, p) {
        CoversMore(b, a, p);
      }
    }
  }

  lemma CoversMore(a: seq<Span>, b: seq<Span>, p: nat)
    requires multiset(a) == multiset(b) && Covers(a, p)
    ensures Covers(b, p)
  {
    var k :| 0 <= k < |a| && a[k].start <= p < a[k].end;
    assert a[k] in multiset(b);
  }

  lemma SortFits(text: Text, spans: seq<Span>)
    requires Within(text, spans)
    ensures Within(text, Sort(spans))
  {
    var sorted := Sort(spans);
    forall k | 0 <= k < |sorted| ensures sorted[k].start < sorted[k].end <= |text| {
      assert sorted[k] in multiset(sorted);
    }
  }

  // Spans that lie apart leave the gap before each of them uncovered, up to the end of the one before.
  lemma Gap(spans: seq<Span>, text: Text, k: nat, p: nat)
    requires Within(text, spans) && Apart(spans) && k <= |spans|
    requires k > 0 ==> spans[k - 1].end <= p
    requires k < |spans| ==> p < spans[k].start
    ensures !Covers(spans, p)
  {
    forall i | 0 <= i < |spans| ensures !(spans[i].start <= p < spans[i].end) {
      InOrder(spans, text, i, k);
    }
  }

  lemma {:induction false} InOrder(spans: seq<Span>, text: Text, i: nat, k: nat)
    requires Within(text, spans) && Apart(spans) && i < |spans| && k <= |spans|
    ensures i < k ==> spans[i].end <= spans[k - 1].end
    ensures k <= i ==> spans[k].start <= spans[i].start
    decreases if i < k then k - i else i - k
  {
    if i < k - 1 {
      InOrder(spans, text, i, k - 1);
    } else if k < i {
      InOrder(spans, text, i, k + 1);
    }
  }

  /** The replacing loop produces the reference text for every set of spans. */
  method ReplaceSpans(text: Text, spans: seq<Span>) returns (output: Text)
    requires Within(text, spans)
    ensures output == Mask(text, Hidden(text, spans), |text|)
  {
    hide Covers, Mask, Sort, Apart;
    ghost var hidden := Hidden(text, spans);
    MaskNothing(text, hidden);
    if spans == [] {
      CoversNothing();
      MaskPlain(text, hidden, 0, |text|);
      return text;
    }
    SortFits(text, spans);
    CoversSame(spans, Sort(spans));
    var merged := Merge(text, Sort(spans));
    assert hidden == Hidden(text, merged);
    output := [];
    var cursor, k := 0, 0;
    while k < |merged|
      invariant 0 <= k <= |merged| && cursor == (if k == 0 then 0 else merged[k - 1].end)
      invariant cursor <= |text| && output == Mask(text, hidden, cursor)
    {
      var span := merged[k];
      OneSpan(text, merged, k);
      output := output + text[cursor..span.start] + REDACTED;
      cursor := span.end;
      k := k + 1;
    }
    forall p | cursor <= p < |text| ensures !hidden[p] {
      Gap(merged, text, k, p);
    }
    MaskPlain(text, hidden, cursor, |text|);
    output := output + text[cursor..];
  }

  lemma MaskNothing(text: Text, hidden: seq<bool>)
    requires |text| == |hidden|
    ensures Mask(text, hidden, 0) == []
  {
  }

  lemma OneSpan(text: Text, merged: seq<Span>, k: nat)
    requires Within(text, merged) && Apart(merged) && k < |merged|
    ensures var cursor, span, hidden := if k == 0 then 0 else merged[k - 1].end, merged[k], Hidden(text, merged);
            cursor <= span.start &&
            Mask(text, hidden, span.end) == Mask(text, hidden, cursor) + text[cursor..span.start] + REDACTED
  {
    hide Mask, Covers;
    var cursor, span, hidden := if k == 0 then 0 else merged[k - 1].end, merged[k], Hidden(text, merged);
    forall p | cursor <= p < span.start ensures !hidden[p] {
      Gap(merged, text, k, p);
    }
    forall p | span.start <= p < span.end ensures hidden[p] {
      CoveredBy(merged, k, p);
    }
    MaskPlain(text, hidden, cursor, span.start);
    MaskRun(text, hidden, span.start, span.end);
  }

  lemma CoveredBy(spans: seq<Span>, k: nat, p: nat)
    requires k < |spans| && spans[k].start <= p < spans[k].end
    ensures Covers(spans, p)
  {
  }

  // ---------- The whole ----------

  /** Everything inside an occurrence of a secret gives way to markers, everything else stays, and then
      the text is cut to its bound; without a positive bound nothing is shown. */
  ghost function Redacted(text: Text, secrets: seq<Text>, maximum: int): Text {
    if maximum <= 0 then REDACTED else Utf8.Bounded(Mask(text, SecretText(text, secrets), |text|), maximum)
  }

  /** redact_text. */
  method RedactText(text: Text, secrets: seq<Text>, maximum: int) returns (r: Text)
    ensures r == Redacted(text, secrets, maximum)
  {
    hide Mask, Within;
    if maximum <= 0 {
      return REDACTED;
    }
    var spans := SecretSpans(text, secrets);
    SpansHideSecrets(text, secrets, spans);
    var whole := ReplaceSpans(text, spans);
    r := Utf8.Bounded(whole, maximum);
  }

  lemma SpansHideSecrets(text: Text, secrets: seq<Text>, spans: seq<Span>)
    requires forall span :: span in spans <==> IsSecretSpan(text, secrets, span)
    ensures Hidden(text, spans) == SecretText(text, secrets)
  {
    hide IsSecretSpan;
    forall p | 0 <= p < |text| ensures Covers(spans, p) <==> InSecret(text, secrets, p) {
      if Covers(spans, p) {
        var k :| 0 <= k < |spans| && spans[k].start <= p < spans[k].end;
        assert spans[k] in spans;
      }
    }
  }
}
