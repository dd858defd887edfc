/** UTF-8 as str.encode("utf-8", "replace") and bytes.decode("utf-8", "ignore") use it. */
module Utf8 {
  type CodePoint = c: int | 0 <= c < 0x110000
  type Text = seq<CodePoint>
  type Byte = b: int | 0 <= b < 256

  predicate IsSurrogate(c: CodePoint) {
    0xD800 <= c < 0xE000
  }

  /** The surrogates are the 2048 code points above 27 times that, and continuation bytes start with the
      bits 10. */
  lemma Ranges(c: CodePoint, b: Byte)
    ensures IsSurrogate(c) <==> c / 2048 == 27
    ensures Continues(b) <==> b / 64 == 2
  {
  }

  /** A lone surrogate cannot be encoded and becomes a question mark. */
  function Replaced(c: CodePoint): CodePoint {
    if IsSurrogate(c) then 63 else c
  }

  function ReplacedAll(text: Text): Text {
    seq(|text|, i requires 0 <= i < |text| => Replaced(text[i]))
  }

  function EncodeOne(c: CodePoint): (r: seq<Byte>)
    ensures 1 <= |r| <= 4
  {
    if IsSurrogate(c) then [63]
    else if c < 0x80 then [c]
    else if c < 0x800 then [0xC0 + c / 64, 0x80 + c % 64]
    else if c < 0x10000 then [0xE0 + c / 4096, 0x80 + c / 64 % 64, 0x80 + c % 64]
    else [0xF0 + c / 262144, 0x80 + c / 4096 % 64, 0x80 + c / 64 % 64, 0x80 + c % 64]
  }

  function Encode(text: Text): seq<Byte> {
    if text == [] then [] else EncodeOne(text[0]) + Encode(text[1..])
  }

  predicate Continues(b: Byte) {
    0x80 <= b < 0xC0
  }

  /** The six bits that a continuation byte carries. */
  function Bits(b: Byte): int {
    b as int - 0x80
  }

  /** The code point at the front of `bytes` and its length, or 0 where there is none. */
  function DecodeOne(bytes: seq<Byte>): (r: (CodePoint, nat))
    requires bytes != []
    ensures r.1 <= |bytes|
  {
    var b: int := bytes[0];
    if b < 0x80 then (b, 1)
    else if 0xC2 <= b < 0xE0 && |bytes| >= 2 && Continues(bytes[1]) then ((b - 0xC0) * 64 + Bits(bytes[1]), 2)
    else if 0xE0 <= b < 0xF0 && |bytes| >= 3 && Continues(bytes[1]) && Continues(bytes[2]) then
      var c: int := (b - 0xE0) * 4096 + Bits(bytes[1]) * 64 + Bits(bytes[2]);
      if c < 0x800 || 0xD800 <= c < 0xE000 then (0, 0) else (c, 3)
    else if 0xF0 <= b < 0xF5 && |bytes| >= 4 && Continues(bytes[1]) && Continues(bytes[2]) && Continues(bytes[3]) then
      var c: int := (b - 0xF0) * 262144 + Bits(bytes[1]) * 4096 + Bits(bytes[2]) * 64 + Bits(bytes[3]);
      if c < 0x10000 || c >= 0x110000 then (0, 0) else (c, 4)
    else (0, 0)
  }

  function Decode(bytes: seq<Byte>): Text
    decreases |bytes|
  {
    if bytes == [] then []
    else
      var (c, n) := DecodeOne(bytes);
      if n == 0 then Decode(bytes[1..]) else [c] + Decode(bytes[n..])
  }

  // The digits of a code point to the base 64.
  lemma Digits(c: CodePoint)
    ensures c == c / 64 * 64 + c % 64
    ensures c / 64 == c / 4096 * 64 + c / 64 % 64
    ensures c / 4096 == c / 262144 * 64 + c / 4096 % 64
  {
  }

  lemma DecodeEncoded(c: CodePoint, rest: seq<Byte>)
    ensures DecodeOne(EncodeOne(c) + rest) == (Replaced(c), |EncodeOne(c)|)
  {
    Digits(c);
    var bytes := EncodeOne(c) + rest;
    assert bytes[..|EncodeOne(c)|] == EncodeOne(c);
    if c < 0x800 || IsSurrogate(c) {
    } else if c < 0x10000 {
      DecodeThree(c, bytes);
    } else {
      DecodeFour(c, bytes);
    }
  }

  lemma DecodeThree(c: CodePoint, bytes: seq<Byte>)
    requires 0x800 <= c < 0x10000 && !IsSurrogate(c) && |bytes| >= 3 && bytes[..3] == EncodeOne(c)
    ensures DecodeOne(bytes) == (c, 3)
  {
    var high, middle, low := c / 4096, c / 64 % 64, c % 64;
    Digits(c);
    assert bytes[0] == bytes[..3][0] && bytes[1] == bytes[..3][1] && bytes[2] == bytes[..3][2];
    assert c == high * 4096 + middle * 64 + low;
  }

  lemma DecodeFour(c: CodePoint, bytes: seq<Byte>)
    requires 0x10000 <= c && |bytes| >= 4 && bytes[..4] == EncodeOne(c)
    ensures DecodeOne(bytes) == (c, 4)
  {
    var top, high, middle, low := c / 262144, c / 4096 % 64, c / 64 % 64, c % 64;
    Digits(c);
    assert bytes[0] == bytes[..4][0] && bytes[1] == bytes[..4][1] && bytes[2] == bytes[..4][2] && bytes[3] == bytes[..4][3];
    assert c == top * 262144 + high * 4096 + middle * 64 + low;
  }

  // Continuation bytes alone, and a lead byte without them, decode to nothing.
  lemma {:induction false} Dropped(bytes: seq<Byte>)
    requires forall i :: 0 <= i < |bytes| ==> Continues(bytes[i])
    ensures Decode(bytes) == []
  {
    if bytes != [] {
      Dropped(bytes[1..]);
    }
  }

  lemma CutShort(c: CodePoint, n: nat)
    requires n < |EncodeOne(c)|
    ensures Decode(EncodeOne(c)[..n]) == []
  {
    if n > 0 {
      var cut := EncodeOne(c)[..n];
      Dropped(cut[1..]);
      assert DecodeOne(cut).1 == 0;
    }
  }

  /** How many code points fit into `n` bytes. */
  function Fit(text: Text, n: nat): (k: nat)
    ensures k <= |text|
  {
    if text == [] || |EncodeOne(text[0])| > n then 0 else 1 + Fit(text[1..], n - |EncodeOne(text[0])|)
  }

  lemma {:induction false} FitIsLongest(text: Text, n: nat)
    ensures |Encode(text[..Fit(text, n)])| <= n
    ensures Fit(text, n) < |text| ==> |Encode(text[..Fit(text, n) + 1])| > n
  {
    hide EncodeOne;
    if text != [] && |EncodeOne(text[0])| <= n {
      var k := Fit(text[1..], n - |EncodeOne(text[0])|);
      FitIsLongest(text[1..], n - |EncodeOne(text[0])|);
      assert text[..k + 1][1..] == text[1..][..k];
      assert k + 1 < |text| ==> text[..k + 2][1..] == text[1..][..k + 1];
    } else if text != [] {
      assert text[..1][1..] == [];
    }
  }

  /** Cutting the bytes anywhere and decoding what is left gives the code points that fit whole. */
  lemma {:induction false} CutDecodes(text: Text, n: nat)
    requires n <= |Encode(text)|
    ensures Decode(Encode(text)[..n]) == ReplacedAll(text)[..Fit(text, n)]
  {
    hide EncodeOne, DecodeOne;
    if text != [] {
      var one, rest := EncodeOne(text[0]), Encode(text[1..]);
      if |one| > n {
        assert Encode(text)[..n] == one[..n];
        CutShort(text[0], n);
      } else {
        var m := n - |one|;
        assert Encode(text)[..n] == one + rest[..m];
        DecodeEncoded(text[0], rest[..m]);
        assert (one + rest[..m])[|one|..] == rest[..m];
        CutDecodes(text[1..], m);
        assert ReplacedAll(text) == [Replaced(text[0])] + ReplacedAll(text[1..]);
      }
    }
  }

  /** _bounded. */
  function Bounded(value: Text, maximum: nat): Text {
    var encoded := Encode(value);
    if |encoded| <= maximum then value else Decode(encoded[..maximum])
  }

  lemma {:induction false} EncodeReplaced(text: Text)
    ensures Encode(ReplacedAll(text)) == Encode(text)
  {
    if text != [] {
      EncodeReplaced(text[1..]);
      assert ReplacedAll(text)[1..] == ReplacedAll(text[1..]);
    }
  }

  /** Bounding gives the text itself when it fits; otherwise the longest prefix that fits, in which
      lone surrogates have become question marks. */
  lemma BoundedIs(value: Text, maximum: nat)
    ensures |Encode(value)| <= maximum ==> Bounded(value, maximum) == value
    ensures |Encode(value)| > maximum ==>
              exists k :: 0 <= k < |value| && Bounded(value, maximum) == ReplacedAll(value)[..k] &&
                          |Encode(ReplacedAll(value)[..k])| <= maximum < |Encode(ReplacedAll(value)[..k + 1])|
    ensures |Encode(Bounded(value, maximum))| <= maximum
  {
    hide Encode, Decode;
    if |Encode(value)| > maximum {
      var k := Fit(value, maximum);
      CutDecodes(value, maximum);
      FitIsLongest(value, maximum);
      assert value[..|value|] == value;
      assert k < |value|;
      assert ReplacedAll(value)[..k] == ReplacedAll(value[..k]) && ReplacedAll(value)[..k + 1] == ReplacedAll(value[..k + 1]);
      EncodeReplaced(value[..k]);
      EncodeReplaced(value[..k + 1]);
    }
  }

  /** What is cut off a text is a suffix, for every bound, exactly when the part kept has no lone surrogate. */
  lemma BoundedIsPrefix(value: Text, maximum: nat)
    requires |Encode(value)| > maximum
    ensures Bounded(value, maximum) <= value <==> forall i :: 0 <= i < Fit(value, maximum) ==> !IsSurrogate(value[i])
  {
    hide Encode, Decode;
    CutDecodes(value, maximum);
    var k := Fit(value, maximum);
    assert Bounded(value, maximum) == ReplacedAll(value)[..k];
    assert |Bounded(value, maximum)| == k;
    if Bounded(value, maximum) <= value {
      forall i | 0 <= i < k ensures !IsSurrogate(value[i]) {
        assert Bounded(value, maximum)[i] == value[i];
      }
    }
  }

  /** A lone surrogate and a letter, cut to one byte, show a question mark that the text does not have. */
  lemma SurrogateCut()
    ensures Bounded([0xD800, 97], 1) == [63] && !(Bounded([0xD800, 97], 1) <= [0xD800, 97])
  {
    var text: Text := [0xD800, 97];
    assert text[1..] == [97] && [97][1..] == [];
    assert Encode([97]) == [97] && Encode(text) == [63, 97];
    assert Encode(text)[..1] == [63] && [63][1..] == [];
    assert Decode([63]) == [63];
  }
}
