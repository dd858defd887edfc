/** What the escaped previews and names show, and when the bytes can be told from them again. */
module Escapes {
  import opened Numbers
  import opened Options
  import opened Bytes
  import opened LogModel
  import opened Elf
  import opened ElfNotes

  predicate IsPrintable(c: char) {
    ' ' <= c <= '~'
  }

  /** The value of a hexadecimal digit in capitals. */
  function HexValue(c: char): Option<nat> {
    if '0' <= c <= '9' then Some(c as int - '0' as int)
    else if 'A' <= c <= 'F' then Some(10 + c as int - 'A' as int)
    else None
  }

  /** The byte that two such digits stand for. */
  function HexPair(high: char, low: char): Option<Byte> {
    if HexValue(high).Some? && HexValue(low).Some? && HexValue(high).value < 16 && HexValue(low).value < 16
    then Some((16 * HexValue(high).value + HexValue(low).value) as Byte) else None
  }

  /** A backslash, an x and two digits. */
  predicate IsHexForm(s: string, b: Byte) {
    |s| == 4 && s[0] == '\\' && s[1] == 'x' && HexPair(s[2], s[3]) == Some(b)
  }

  lemma DigitIs(n: int)
    requires 0 <= n < 16
    ensures HexValue(UpperHexDigit(n)) == Some(n)
  {
  }

  lemma ByteDigits(b: Byte)
    ensures HexPair(UpperHexDigit(b as int / 16), UpperHexDigit(b as int % 16)) == Some(b)
  {
    hide UpperHexDigit, HexValue;
    DigitIs(b as int / 16);
    DigitIs(b as int % 16);
  }

  // ---------- escape_preview ----------

  lemma {:induction false} EscapeCons(b: Byte, s: seq<Byte>)
    ensures Escape([b] + s) == EscapeByte(b) + Escape(s)
  {
    hide EscapeByte;
    if s == [] {
      assert [b] + s == [b] && [b][..0] == [];
    } else {
      var n := |s| - 1;
      assert ([b] + s)[..n + 1] == [b] + s[..n];
      EscapeCons(b, s[..n]);
    }
  }

  /** A tab is \t, printable bytes are themselves, and every other byte is its hexadecimal form. */
  lemma EscapeByteIs(b: Byte)
    ensures b == 9 ==> EscapeByte(b) == "\\t"
    ensures IsPrintable(b as char) ==> EscapeByte(b) == [b as char]
    ensures b != 9 && !IsPrintable(b as char) ==> IsHexForm(EscapeByte(b), b)
  {
    hide UpperHexDigit, HexPair;
    ByteDigits(b);
  }

  /** The escaped text is printable, and a printable text is shown as it is. */
  lemma {:induction false} EscapePrintable(s: seq<Byte>)
    ensures forall i :: 0 <= i < |Escape(s)| ==> IsPrintable(Escape(s)[i])
    ensures (forall i :: 0 <= i < |s| ==> IsPrintable(s[i] as char)) ==>
              |Escape(s)| == |s| && forall i :: 0 <= i < |s| ==> Escape(s)[i] == s[i] as char
  {
    hide EscapeByte, IsPrintable;
    if s != [] {
      var n := |s| - 1;
      EscapePrintable(s[..n]);
      EscapeByteIs(s[n]);
      ByteFormPrintable(s[n]);
    }
  }

  lemma ByteFormPrintable(b: Byte)
    ensures forall i :: 0 <= i < |EscapeByte(b)| ==> IsPrintable(EscapeByte(b)[i])
  {
  }

  predicate ReadsTab(s: string) {
    |s| >= 1 && s[0] == 't'
  }

  predicate ReadsHex(s: string) {
    |s| >= 3 && s[0] == 'x' && HexPair(s[1], s[2]).Some?
  }

  function Chars(s: seq<Byte>): string {
    seq(|s|, i requires 0 <= i < |s| => s[i] as char)
  }

  /** Reading an escaped preview back. */
  function Unescape(s: string): seq<Byte> {
    if s == "" then []
    else if s[0] == '\\' && ReadsTab(s[1..]) then [9] + Unescape(s[2..])
    else if s[0] == '\\' && ReadsHex(s[1..]) then [HexPair(s[2], s[3]).value] + Unescape(s[4..])
    else [if s[0] as int < 256 then s[0] as Byte else 0] + Unescape(s[1..])
  }

  /** A backslash among the bytes that with those after it reads like the form of another byte. */
  predicate Misread(s: seq<Byte>, i: nat)
    requires i < |s|
  {
    s[i] as char == '\\' && (ReadsTab(Chars(s[i + 1..])) || ReadsHex(Chars(s[i + 1..])))
  }

  lemma EscapeFirst(s: seq<Byte>)
    requires s != []
    ensures Escape(s) == EscapeByte(s[0]) + Escape(s[1..])
  {
    hide EscapeByte;
    assert s == [s[0]] + s[1..];
    EscapeCons(s[0], s[1..]);
  }

  /** The first characters of an escaped text are the bytes themselves, up to the first backslash. */
  lemma {:induction false} EscapeStarts(s: seq<Byte>, k: nat)
    requires k < |s| && forall i :: 0 <= i < k ==> IsPrintable(s[i] as char)
    ensures k < |Escape(s)| && forall i :: 0 <= i < k ==> Escape(s)[i] == s[i] as char
    ensures Escape(s)[k] == if IsPrintable(s[k] as char) then s[k] as char else '\\'
    ensures Escape(s[..k]) <= Escape(s) && Escape(s)[k..] == Escape(s[k..])
  {
    hide EscapeByte, Escape;
    EscapeFirst(s);
    EscapeByteIs(s[0]);
    EscapeNothing();
    if k > 0 {
      assert forall i :: 0 <= i < k - 1 ==> s[1..][i] == s[i + 1];
      EscapeStarts(s[1..], k - 1);
      assert s[1..][..k - 1] == s[..k][1..] && s[1..][k - 1..] == s[k..];
      EscapeFirst(s[..k]);
    } else {
      ByteStarts(s[0]);
    }
  }

  lemma ByteStarts(b: Byte)
    ensures EscapeByte(b) != "" && EscapeByte(b)[0] == if IsPrintable(b as char) then b as char else '\\'
  {
  }

  lemma PairNeedsDigits(high: char, low: char)
    ensures HexPair(high, low).Some? ==> IsPrintable(high) && IsPrintable(low) && high != '\\' && low != '\\'
  {
  }

  // After a backslash, the escaped bytes read like a form exactly if the bytes do.
  lemma ReadsAlike(rest: seq<Byte>)
    ensures ReadsTab(Escape(rest)) <==> ReadsTab(Chars(rest))
    ensures ReadsHex(Escape(rest)) <==> ReadsHex(Chars(rest))
    ensures ReadsTab(Escape(rest)) ==> Escape(rest)[1..] == Escape(rest[1..])
    ensures ReadsHex(Escape(rest)) ==> Escape(rest)[3..] == Escape(rest[3..])
  {
    hide EscapeByte, HexPair, Escape;
    EscapeNothing();
    if rest != [] {
      EscapeStarts(rest, 0);
      if rest[0] as char == 't' {
        EscapeFirst(rest);
        EscapeByteIs(rest[0]);
      } else if rest[0] as char == 'x' {
        ReadsHexAlike(rest);
      }
    }
  }

  lemma ReadsHexAlike(rest: seq<Byte>)
    requires rest != [] && rest[0] as char == 'x'
    ensures ReadsHex(Escape(rest)) <==> ReadsHex(Chars(rest))
    ensures ReadsHex(Escape(rest)) ==> Escape(rest)[3..] == Escape(rest[3..])
  {
    hide EscapeByte, HexPair, Escape;
    var e := Escape(rest);
    if |e| >= 3 {
      PairNeedsDigits(e[1], e[2]);
    }
    if |rest| >= 3 {
      PairNeedsDigits(rest[1] as char, rest[2] as char);
    }
    if |rest| == 1 {
      assert rest == [rest[0]];
      OneChar(rest[0]);
    } else {
      EscapeStarts(rest, 1);
      if IsPrintable(rest[1] as char) {
        if |rest| == 2 {
          EscapePrintable(rest);
        } else {
          EscapeStarts(rest, 2);
          if IsPrintable(rest[2] as char) {
            EscapeFirst(rest[2..]);
            EscapeByteIs(rest[2]);
            assert rest[2..][1..] == rest[3..];
          }
        }
      }
    }
  }

  lemma EscapeNothing()
    ensures Escape([]) == ""
  {
  }

  lemma OneChar(b: Byte)
    requires IsPrintable(b as char)
    ensures |Escape([b])| == 1
  {
    EscapePrintable([b]);
  }

  ghost predicate AnyMisread(s: seq<Byte>) {
    exists i :: 0 <= i < |s| && Misread(s, i)
  }

  lemma MisreadLater(s: seq<Byte>)
    requires s != []
    ensures AnyMisread(s) <==> Misread(s, 0) || AnyMisread(s[1..])
  {
    hide ReadsTab, ReadsHex;
    if AnyMisread(s[1..]) {
      var i :| 0 <= i < |s[1..]| && Misread(s[1..], i);
      assert s[1..][i + 1..] == s[i + 2..];
      assert Misread(s, i + 1);
    }
    if i :| 0 < i < |s| && Misread(s, i) {
      assert s[1..][i..] == s[i + 1..];
      assert Misread(s[1..], i - 1);
    }
  }

  // A byte that is not a backslash is read back from its own form.
  lemma UnescapeByte(b: Byte, rest: string)
    requires b as char != '\\'
    ensures Unescape(EscapeByte(b) + rest) == [b] + Unescape(rest)
  {
    hide EscapeByte, HexPair;
    var s := EscapeByte(b) + rest;
    EscapeByteIs(b);
    ByteStarts(b);
    if b == 9 {
      assert s[2..] == rest && s[1..][0] == 't';
    } else if IsPrintable(b as char) {
      assert s[1..] == rest;
    } else {
      assert s[4..] == rest && s[1..][0] == 'x' && s[1..][1] == EscapeByte(b)[2] && s[1..][2] == EscapeByte(b)[3];
    }
  }

  /** The bytes can be read back from their preview if and only if no backslash among them reads like
      the form of another byte; escape_preview leaves backslashes as they are. */
  lemma {:induction false} ReadBack(s: seq<Byte>)
    ensures |Unescape(Escape(s))| <= |s|
    ensures Unescape(Escape(s)) == s <==> !AnyMisread(s)
    ensures AnyMisread(s) ==> |Unescape(Escape(s))| < |s|
  {
    hide EscapeByte, HexPair, ReadsTab, ReadsHex, Escape;
    if s == [] {
      EscapeNothing();
      return;
    }
    var rest := s[1..];
    EscapeFirst(s);
    MisreadLater(s);
    ReadBack(rest);
    if s[0] as char != '\\' {
      UnescapeByte(s[0], Escape(rest));
    } else {
      EscapeByteIs(s[0]);
      assert Escape(s)[1..] == Escape(rest);
      ReadsAlike(rest);
      ReadsSome(Escape(rest));
      ReadsSome(Chars(rest));
      if ReadsTab(Escape(rest)) {
        assert Escape(s)[2..] == Escape(rest[1..]);
        ReadBack(rest[1..]);
      } else if ReadsHex(Escape(rest)) {
        assert Escape(s)[4..] == Escape(rest[3..]);
        ReadBack(rest[3..]);
      }
    }
  }

  lemma ReadsSome(s: string)
    ensures ReadsTab(s) ==> |s| >= 1
    ensures ReadsHex(s) ==> |s| >= 3
  {
  }

  /** A tab, and a backslash before a t: two texts with one preview. */
  lemma SamePreview()
    ensures Escape([9]) == Escape([92, 116]) == "\\t"
  {
    EscapePrintable([92, 116]);
    assert [9][..0] == [];
  }

  // ---------- The end of a line ----------

  /** One carriage return is dropped from the end, and nothing else. */
  lemma DropsOneReturn(s: seq<Byte>)
    ensures if s != [] && s[|s| - 1] as char == '\r' then s == DropCarriageReturn(s) + ['\r' as Byte] else s == DropCarriageReturn(s)
  {
  }

  // ---------- Names and build ids of ELF files ----------

  /** Reading an escaped name back. */
  function UnescapeName(s: string): seq<Byte> {
    if s == "" then []
    else if |s| >= 2 && s[0] == '\\' && s[1] == '\\' then ['\\' as Byte] + UnescapeName(s[2..])
    else if |s| >= 4 && s[0] == '\\' && s[1] == 'x' && HexPair(s[2], s[3]).Some? then [HexPair(s[2], s[3]).value] + UnescapeName(s[4..])
    else [if s[0] as int < 256 then s[0] as Byte else 0] + UnescapeName(s[1..])
  }

  lemma EscapeOneIs(b: Byte)
    ensures b as char == '\\' ==> EscapeOne(b) == "\\\\"
    ensures IsPrintable(b as char) && b as char != '\\' ==> EscapeOne(b) == [b as char]
    ensures !IsPrintable(b as char) ==> IsHexForm(EscapeOne(b), b)
  {
    hide UpperHexDigit, HexPair;
    ByteDigits(b);
  }

  lemma {:induction false} EscapeBytesCons(b: Byte, s: seq<Byte>)
    ensures EscapeBytes([b] + s) == EscapeOne(b) + EscapeBytes(s)
  {
    hide EscapeOne;
    if s == [] {
      assert [b] + s == [b] && [b][..0] == [];
    } else {
      var n := |s| - 1;
      assert ([b] + s)[..n + 1] == [b] + s[..n];
      EscapeBytesCons(b, s[..n]);
    }
  }

  lemma UnescapeOne(b: Byte, rest: string)
    ensures UnescapeName(EscapeOne(b) + rest) == [b] + UnescapeName(rest)
  {
    hide EscapeOne, HexPair;
    var s := EscapeOne(b) + rest;
    EscapeOneIs(b);
    if b as char == '\\' {
      assert s[2..] == rest;
    } else if IsPrintable(b as char) {
      assert s[1..] == rest;
    } else {
      assert s[4..] == rest;
    }
  }

  /** The bytes of a name can always be read back from its escaped form. */
  lemma {:induction false} NameReadBack(s: seq<Byte>)
    ensures UnescapeName(EscapeBytes(s)) == s
  {
    hide EscapeOne, UnescapeName;
    if s == [] {
      UnescapeNothing();
    } else {
      assert s == [s[0]] + s[1..];
      EscapeBytesCons(s[0], s[1..]);
      NameReadBack(s[1..]);
      UnescapeOne(s[0], EscapeBytes(s[1..]));
    }
  }

  lemma UnescapeNothing()
    ensures UnescapeName("") == []
  {
  }

  /** A build id is shown by two digits for each byte, the higher one first. */
  lemma {:induction false} BuildIdDigits(s: seq<Byte>, i: nat)
    requires i < |s|
    ensures |HexBytes(s)| == 2 * |s| && HexPair(HexBytes(s)[2 * i], HexBytes(s)[2 * i + 1]) == Some(s[i])
  {
    hide UpperHexDigit, HexPair;
    var n := |s| - 1;
    ByteDigits(s[n]);
    if n > 0 {
      BuildIdDigits(s[..n], if i < n then i else 0);
    }
  }
}
