/** Which secrets redact_text keeps out of its result, whatever the text, the other secrets and the
    bound: all but those that can be pieced together from a marker and its surroundings, and those with
    a question mark, which the cut puts in the place of a lone surrogate. */
module RedactionSecrets {
  import opened Utf8
  import opened Redaction

  ghost predicate Occurs(text: Text, secret: Text) {
    exists i: nat :: OccursAt(text, secret, i)
  }

  /** Laid over the marker at some offset, the secret shares a place with it and agrees with it wherever
      both have a character. */
  ghost predicate FitsMarker(secret: Text) {
    exists d: int :: -|secret| < d < |REDACTED| && Agrees(secret, d)
  }

  predicate Agrees(secret: Text, d: int) {
    forall i :: 0 <= i < |secret| && 0 <= d + i < |REDACTED| ==> secret[i] == REDACTED[d + i]
  }

  /** The cut can make the secret out of a text with lone surrogates. */
  predicate FitsCut(secret: Text) {
    63 in secret && forall i :: 0 <= i < |secret| ==> !IsSurrogate(secret[i])
  }

  /** No call with this secret among its secrets shows it. */
  ghost predicate KeptOut(secret: Text) {
    forall text: Text, secrets: seq<Text>, maximum: int ::
      secret in secrets ==> !Occurs(Redacted(text, secrets, maximum), secret)
  }

  // ---------- What masking leaves ----------

  lemma OccursIs(text: Text, secret: Text, i: nat)
    ensures OccursAt(text, secret, i) <==> i + |secret| <= |text| && forall j :: 0 <= j < |secret| ==> secret[j] == text[i + j]
  {
    if i + |secret| <= |text| {
      var part := text[i..i + |secret|];
      assert part == secret <==> forall j :: 0 <= j < |secret| ==> secret[j] == part[j];
    }
  }

  // A secret that touches a marker in the result agrees with it there.
  lemma TouchesMarker(x: Text, y: Text, secret: Text, i: nat)
    requires OccursAt(x + REDACTED + y, secret, i) && i < |x| + |REDACTED| && i + |secret| > |x|
    ensures FitsMarker(secret)
  {
    hide OccursAt;
    OccursIs(x + REDACTED + y, secret, i);
    assert Agrees(secret, i - |x|);
  }

  lemma AfterPrefix(x: Text, y: Text, secret: Text, i: nat)
    requires OccursAt(x + y, secret, i) && i >= |x|
    ensures OccursAt(y, secret, i - |x|)
  {
    hide OccursAt;
    OccursIs(x + y, secret, i);
    OccursIs(y, secret, i - |x|);
  }

  lemma InSlice(text: Text, a: nat, b: nat, secret: Text, i: nat)
    requires a <= b <= |text| && OccursAt(text[a..b], secret, i)
    ensures OccursAt(text, secret, a + i)
  {
    hide OccursAt;
    OccursIs(text[a..b], secret, i);
    OccursIs(text, secret, a + i);
  }

  /** Where the run of equal flags before `n` starts. */
  function RunStart(hidden: seq<bool>, n: nat): (a: nat)
    requires 0 < n <= |hidden|
    ensures a < n && forall p :: a <= p < n ==> hidden[p] == hidden[n - 1]
    ensures a > 0 ==> hidden[a - 1] != hidden[n - 1]
  {
    if n == 1 || hidden[n - 2] != hidden[n - 1] then n - 1 else RunStart(hidden, n - 1)
  }

  /** What occurs in a masked text without touching a marker occurs in the text, outside of what was hidden. */
  lemma {:induction false} MaskShows(text: Text, hidden: seq<bool>, n: nat, secret: Text, i: nat) returns (p: nat)
    requires n <= |text| == |hidden| && secret != [] && !FitsMarker(secret) && OccursAt(Mask(text, hidden, n), secret, i)
    ensures OccursAt(text, secret, p) && p < n && !hidden[p]
    decreases n, 0
  {
    hide Mask, FitsMarker, RunStart;
    p := 0;
    if n == 0 {
      MaskNothing(text, hidden);
      return;
    }
    var a := RunStart(hidden, n);
    if hidden[n - 1] {
      MaskRun(text, hidden, a, n);
      p := BeforeMarker(text, hidden, a, [], secret, i);
    } else {
      MaskPlain(text, hidden, a, n);
      var before := Mask(text, hidden, a);
      if i >= |before| {
        p := a + i - |before|;
        AfterPrefix(before, text[a..n], secret, i);
        InSlice(text, a, n, secret, i - |before|);
      } else if a == 0 {
        MaskNothing(text, hidden);
      } else {
        var b := RunStart(hidden, a);
        MaskRun(text, hidden, b, a);
        p := BeforeMarker(text, hidden, b, text[a..n], secret, i);
      }
    }
  }

  lemma {:induction false} BeforeMarker(text: Text, hidden: seq<bool>, b: nat, y: Text, secret: Text, i: nat) returns (p: nat)
    requires b <= |text| == |hidden| && secret != [] && !FitsMarker(secret)
    requires OccursAt(Mask(text, hidden, b) + REDACTED + y, secret, i) && i < |Mask(text, hidden, b)| + |REDACTED|
    ensures OccursAt(text, secret, p) && p < b && !hidden[p]
    decreases b, 1
  {
    hide Mask, FitsMarker;
    var x := Mask(text, hidden, b);
    if i + |secret| > |x| {
      TouchesMarker(x, y, secret, i);
    }
    assert x[i..i + |secret|] == (x + REDACTED + y)[i..i + |secret|];
    p := MaskShows(text, hidden, b, secret, i);
  }

  // What survives the cut without a question mark of its own was there before.
  lemma CutShows(whole: Text, k: nat, secret: Text, i: nat)
    requires k <= |whole| && 63 !in secret && OccursAt(ReplacedAll(whole)[..k], secret, i)
    ensures OccursAt(whole, secret, i)
  {
    hide OccursAt;
    OccursIs(ReplacedAll(whole)[..k], secret, i);
    OccursIs(whole, secret, i);
  }

  lemma CutHasNoSurrogate(whole: Text, k: nat, secret: Text, i: nat)
    requires k <= |whole| && OccursAt(ReplacedAll(whole)[..k], secret, i)
    ensures forall j :: 0 <= j < |secret| ==> !IsSurrogate(secret[j])
  {
    hide OccursAt;
    OccursIs(ReplacedAll(whole)[..k], secret, i);
  }

  /** A secret that fits neither the marker nor the cut is nowhere in the result, cut or not. */
  lemma SecretGone(text: Text, secrets: seq<Text>, maximum: int, secret: Text)
    requires secret in secrets && secret != [] && !FitsMarker(secret) && !FitsCut(secret)
    ensures !Occurs(Redacted(text, secrets, maximum), secret)
  {
    hide Mask, Bounded, FitsMarker, Encode;
    if Occurs(Redacted(text, secrets, maximum), secret) {
      var i: nat :| OccursAt(Redacted(text, secrets, maximum), secret, i);
      if maximum <= 0 {
        assert [] + REDACTED + [] == REDACTED;
        TouchesMarker([], [], secret, i);
      } else {
        var hidden := SecretText(text, secrets);
        var whole := Mask(text, hidden, |text|);
        BoundedIs(whole, maximum);
        if |Encode(whole)| > maximum {
          var k :| 0 <= k < |whole| && Bounded(whole, maximum) == ReplacedAll(whole)[..k];
          CutHasNoSurrogate(whole, k, secret, i);
          CutShows(whole, k, secret, i);
        }
        var p := MaskShows(text, hidden, |text|, secret, i);
        ShownIsHidden(text, secrets, secret, p);
      }
    }
  }

  lemma ShownIsHidden(text: Text, secrets: seq<Text>, secret: Text, p: nat)
    requires secret in secrets && secret != [] && OccursAt(text, secret, p)
    ensures p + |secret| <= |text| && forall q :: p <= q < p + |secret| ==> SecretText(text, secrets)[q]
  {
    var k :| 0 <= k < |secrets| && secrets[k] == secret;
    assert IsSecretSpan(text, secrets, Span(p, p + |secret|));
  }

  // ---------- How the others are shown ----------

  /** A character that is none of these. */
  function Other(a: CodePoint, b: CodePoint, c: CodePoint, d: CodePoint): (r: CodePoint)
    ensures r != a && r != b && r != c && r != d
  {
    if 0 !in {a, b, c, d} then 0 else if 1 !in {a, b, c, d} then 1 else if 2 !in {a, b, c, d} then 2
    else if 3 !in {a, b, c, d} then 3 else 4
  }

  ghost predicate IsFiller(u: Text, v: Text, secret: Text, c: CodePoint) {
    secret != [] && c != secret[0] && c != secret[|secret| - 1] && |u| < |secret| && |v| < |secret| &&
    (u != [] ==> c != u[|u| - 1]) && (v != [] ==> c != v[0])
  }

  function Fill(c: CodePoint, n: nat): Text {
    seq(n, _ => c)
  }

  // In a text filled up by a long enough run of one such character the secret does not occur at all.
  lemma NotInFilled(u: Text, v: Text, secret: Text, c: CodePoint, n: nat, i: nat)
    requires IsFiller(u, v, secret, c) && n > |secret|
    ensures !OccursAt(u + Fill(c, n) + v, secret, i)
  {
    hide OccursAt;
    OccursIs(u + Fill(c, n) + v, secret, i);
  }

  // The filling occurs only where it is.
  lemma FilledOnce(u: Text, v: Text, secret: Text, c: CodePoint, n: nat, i: nat)
    requires IsFiller(u, v, secret, c) && n > |secret|
    ensures OccursAt(u + Fill(c, n) + v, Fill(c, n), i) <==> i == |u|
  {
    hide OccursAt;
    var text := u + Fill(c, n) + v;
    OccursIs(text, Fill(c, n), i);
    assert i + n <= |text| && i < |u| ==> text[i + (|u| - 1 - i)] == u[|u| - 1] && Fill(c, n)[|u| - 1 - i] == c;
    assert i + n <= |text| && i > |u| ==> text[i + (|u| + n - i)] == v[0] && Fill(c, n)[|u| + n - i] == c;
  }

  lemma FilledHidden(u: Text, v: Text, secret: Text, c: CodePoint, n: nat, p: nat)
    requires IsFiller(u, v, secret, c) && n > |secret|
    ensures InSecret(u + Fill(c, n) + v, [secret, Fill(c, n)], p) <==> |u| <= p < |u| + n
  {
    hide OccursAt, IsFiller, Fill;
    var text, secrets := u + Fill(c, n) + v, [secret, Fill(c, n)];
    assert |Fill(c, n)| == n by { FillIs(c, n); }
    forall span ensures IsSecretSpan(text, secrets, span) <==> span == Span(|u|, |u| + n) {
      NotInFilled(u, v, secret, c, n, span.start);
      FilledOnce(u, v, secret, c, n, span.start);
      assert secrets[1] == Fill(c, n);
    }
    assert IsSecretSpan(text, secrets, Span(|u|, |u| + n));
  }

  lemma FillIs(c: CodePoint, n: nat)
    ensures |Fill(c, n)| == n
  {
  }

  lemma FilledMask(u: Text, v: Text, secret: Text, c: CodePoint, n: nat)
    requires IsFiller(u, v, secret, c) && n > |secret|
    ensures var text := u + Fill(c, n) + v; Mask(text, SecretText(text, [secret, Fill(c, n)]), |text|) == u + REDACTED + v
  {
    hide IsFiller, Fill, Mask, InSecret;
    FillIs(c, n);
    var text := u + Fill(c, n) + v;
    var hidden := SecretText(text, [secret, Fill(c, n)]);
    forall p | 0 <= p < |text| ensures hidden[p] <==> |u| <= p < |u| + n {
      FilledHidden(u, v, secret, c, n, p);
    }
    MaskNothing(text, hidden);
    MaskPlain(text, hidden, 0, |u|);
    MaskRun(text, hidden, |u|, |u| + n);
    MaskPlain(text, hidden, |u| + n, |text|);
    assert text[0..|u|] == u && text[|u| + n..|text|] == v;
  }

  lemma AroundMarker(secret: Text, d: int) returns (u: Text, v: Text)
    requires secret != [] && -|secret| < d < |REDACTED| && Agrees(secret, d)
    ensures |u| < |secret| && |v| < |secret| && OccursAt(u + REDACTED + v, secret, if d < 0 then 0 else d)
  {
    u := if d < 0 then secret[..-d] else [];
    v := if d + |secret| > |REDACTED| then secret[|REDACTED| - d..] else [];
    hide OccursAt;
    var whole, i := u + REDACTED + v, if d < 0 then 0 else d;
    forall j | 0 <= j < |secret| ensures i + j < |whole| && secret[j] == whole[i + j] {
      if j < -d {
        assert secret[j] == u[j];
      } else if d + j < |REDACTED| {
        assert secret[j] == REDACTED[d + j];
      } else {
        assert secret[j] == v[d + j - |REDACTED|];
      }
    }
    OccursIs(whole, secret, i);
  }

  /** A secret that fits the marker is shown in some call, between the others it is given with. */
  lemma MarkerShows(secret: Text) returns (text: Text, secrets: seq<Text>, maximum: int)
    requires secret != [] && FitsMarker(secret)
    ensures secret in secrets && Occurs(Redacted(text, secrets, maximum), secret)
  {
    hide Mask, Encode, OccursAt, Fill;
    var d :| -|secret| < d < |REDACTED| && Agrees(secret, d);
    var u, v := AroundMarker(secret, d);
    var c := Other(secret[0], secret[|secret| - 1], if u != [] then u[|u| - 1] else secret[0], if v != [] then v[0] else secret[0]);
    text, secrets := u + Fill(c, |secret| + 1) + v, [secret, Fill(c, |secret| + 1)];
    FilledMask(u, v, secret, c, |secret| + 1);
    maximum := |Encode(u + REDACTED + v)| + 1;
    assert secrets[0] == secret;
    assert Redacted(text, secrets, maximum) == u + REDACTED + v;
  }

  // A text that none of the secrets occurs in is masked nowhere.
  lemma NothingMasked(text: Text, secrets: seq<Text>)
    requires forall k, i: nat :: 0 <= k < |secrets| ==> !OccursAt(text, secrets[k], i)
    ensures Mask(text, SecretText(text, secrets), |text|) == text
  {
    hide Mask, OccursAt;
    var hidden := SecretText(text, secrets);
    MaskNothing(text, hidden);
    MaskPlain(text, hidden, 0, |text|);
  }

  /** A lone surrogate for every question mark. */
  function Disguised(secret: Text): Text {
    seq(|secret|, i requires 0 <= i < |secret| => if secret[i] == 63 then 0xD800 else secret[i])
  }

  lemma {:induction false} EncodeGrows(text: Text, k: nat)
    requires k <= |text|
    ensures |Encode(text[..k])| <= |Encode(text)|
  {
    hide EncodeOne;
    if k > 0 {
      EncodeGrows(text[1..], k - 1);
      assert text[..k][1..] == text[1..][..k - 1];
    }
  }

  // Cut right before its last character, a text shows what its other characters are encoded as.
  lemma CutBeforeLast(text: Text, secret: Text, last: CodePoint)
    requires ReplacedAll(text) == secret + [last]
    ensures |Encode(text)| > |Encode(secret)| && Bounded(text, |Encode(secret)|) == secret
  {
    hide Encode, Bounded;
    EncodeReplaced(text);
    EncodeLast(secret, last);
    BoundedIs(text, |Encode(secret)|);
    var k :| 0 <= k < |text| && Bounded(text, |Encode(secret)|) == (secret + [last])[..k] && |Encode((secret + [last])[..k + 1])| > |Encode(secret)|;
    if k < |secret| {
      assert (secret + [last])[..k + 1] == secret[..k + 1];
      EncodeGrows(secret, k + 1);
    }
    assert (secret + [last])[..|secret|] == secret;
  }

  lemma {:induction false} EncodeLast(text: Text, last: CodePoint)
    ensures |Encode(text + [last])| > |Encode(text)|
  {
    hide EncodeOne;
    if text != [] {
      EncodeLast(text[1..], last);
      assert (text + [last])[1..] == text[1..] + [last];
    }
  }

  /** A secret that fits the cut is shown for a text in which it does not even occur. */
  lemma CutMakes(secret: Text) returns (text: Text, maximum: int)
    requires FitsCut(secret)
    ensures !Occurs(text, secret) && Occurs(Redacted(text, [secret], maximum), secret)
  {
    hide Mask, Encode, Bounded, OccursAt, Disguised;
    text, maximum := Disguised(secret) + [97], |Encode(secret)|;
    assert ReplacedAll(text) == secret + [97] by { DisguiseReplaced(secret); }
    DisguiseHides(secret);
    NothingMasked(text, [secret]);
    CutBeforeLast(text, secret, 97);
    EncodedSome(secret);
    assert Redacted(text, [secret], maximum) == secret;
    OccursIs(secret, secret, 0);
  }

  lemma EncodedSome(text: Text)
    ensures text != [] ==> |Encode(text)| > 0
  {
  }

  lemma DisguiseReplaced(secret: Text)
    requires FitsCut(secret)
    ensures ReplacedAll(Disguised(secret) + [97]) == secret + [97]
  {
  }

  lemma DisguiseHides(secret: Text)
    requires FitsCut(secret)
    ensures forall i: nat :: !OccursAt(Disguised(secret) + [97], secret, i)
  {
    hide OccursAt;
    forall i: nat ensures !OccursAt(Disguised(secret) + [97], secret, i) {
      OccursIs(Disguised(secret) + [97], secret, i);
    }
  }

  // ---------- Exactly which secrets are kept out ----------

  /** redact_text keeps a secret out of all its results if and only if the secret fits neither the marker
      nor the cut. */
  lemma KeptOutExactly(secret: Text)
    requires secret != []
    ensures KeptOut(secret) <==> !FitsMarker(secret) && !FitsCut(secret)
  {
    hide FitsMarker, FitsCut, Redacted, Occurs;
    if FitsMarker(secret) {
      var text, secrets, maximum := MarkerShows(secret);
      assert secret in secrets && Occurs(Redacted(text, secrets, maximum), secret);
    } else if FitsCut(secret) {
      var text, maximum := CutMakes(secret);
      assert secret in [secret] && Occurs(Redacted(text, [secret], maximum), secret);
    } else {
      forall text: Text, secrets: seq<Text>, maximum: int | secret in secrets ensures !Occurs(Redacted(text, secrets, maximum), secret) {
        SecretGone(text, secrets, maximum, secret);
      }
    }
  }

  /** In particular secrets that share no character with the marker and have no question mark are. */
  lemma ForeignKeptOut(secret: Text)
    requires secret != [] && 63 !in secret && forall i :: 0 <= i < |secret| ==> secret[i] !in REDACTED
    ensures KeptOut(secret)
  {
    hide KeptOut;
    if FitsMarker(secret) {
      SharesCharacter(secret);
    }
    KeptOutExactly(secret);
  }

  lemma SharesCharacter(secret: Text)
    requires secret != [] && FitsMarker(secret)
    ensures exists i :: 0 <= i < |secret| && secret[i] in REDACTED
  {
    var d :| -|secret| < d < |REDACTED| && Agrees(secret, d);
    var i := if d < 0 then -d else 0;
    assert secret[i] == REDACTED[d + i];
  }

  lemma {:induction false} EncodeAtMost(text: Text)
    ensures |Encode(text)| <= 4 * |text|
  {
    hide EncodeOne;
    if text != [] {
      EncodeAtMost(text[1..]);
    }
  }

  /** The marker as text. */
  lemma MarkerSpelled()
    ensures |REDACTED| == |"<redacted>"| && forall i :: 0 <= i < |REDACTED| ==> REDACTED[i] == "<redacted>"[i] as int
  {
  }

  /** The secret "red" given alone, for the text "red": the marker that replaces it shows it again. */
  lemma MarkerSaysRed()
    ensures var red: Text := [114, 101, 100];
            Redacted(red, [red], 4096) == REDACTED && OccursAt(REDACTED, red, 1) && !KeptOut(red)
  {
    hide Mask, Encode, InSecret;
    var red: Text := [114, 101, 100];
    var hidden := SecretText(red, [red]);
    assert red in [red];
    ShownIsHidden(red, [red], red, 0);
    MaskRun(red, hidden, 0, 3);
    MaskNothing(red, hidden);
    assert Mask(red, hidden, |red|) == REDACTED;
    EncodeAtMost(REDACTED);
    assert Redacted(red, [red], 4096) == REDACTED;
  }
}
