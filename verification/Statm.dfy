/** parse_statm: seven page counts of a process, as the kernel prints them. */
module Statm {
  import opened Options
  import ElfReader
  import RequestKey

  type U64 = ElfReader.U64

  predicate IsSpace(c: char) {
    c == ' ' || c == '\t' || c == '\n' || c == '\r'
  }

  // ---------- Fields ----------

  /** The end of the field at `start`: the next space, or the end of the text. */
  function FieldEnd(text: string, start: nat): (end: nat)
    requires start <= |text|
    ensures start <= end <= |text| && (end < |text| ==> IsSpace(text[end]))
    ensures forall i :: start <= i < end ==> !IsSpace(text[i])
    decreases |text| - start
  {
    if start == |text| || IsSpace(text[start]) then start else FieldEnd(text, start + 1)
  }

  /** The fields from `start` on: the maximal runs of characters that are not spaces. */
  function Fields(text: string, start: nat): seq<string>
    requires start <= |text|
    decreases |text| - start
  {
    if start == |text| then []
    else if IsSpace(text[start]) then Fields(text, start + 1)
    else [text[start..FieldEnd(text, start)]] + Fields(text, FieldEnd(text, start))
  }

  function Decimal(s: string): nat
    requires IsDecimal(s)
  {
    if s == "" then 0 else Decimal(s[..|s| - 1]) * 10 + (s[|s| - 1] as int - '0' as int)
  }

  predicate IsDecimal(s: string) {
    forall i :: 0 <= i < |s| ==> '0' <= s[i] <= '9'
  }

  /** A nonempty run of digits whose value has 64 bits. */
  function ParseUnsigned(s: string): Option<U64> {
    if s == "" || !IsDecimal(s) || Decimal(s) > ElfReader.U64_MAX then None else Some(Decimal(s))
  }

  /** A field is a number exactly if it has digits alone and their value has 64 bits. */
  lemma ParseUnsignedIs(s: string)
    ensures ParseUnsigned(s).Some? <==>
              s != "" && (forall c :: c in s ==> c in "0123456789") && RequestKey.DecimalValue(s) < 0x1_0000_0000_0000_0000
    ensures ParseUnsigned(s).Some? ==> ParseUnsigned(s).value == RequestKey.DecimalValue(s)
  {
    DigitsAre(s);
    if IsDecimal(s) {
      ValueIs(s);
    }
  }

  lemma DigitsAre(s: string)
    ensures IsDecimal(s) <==> forall c :: c in s ==> c in "0123456789"
  {
    DigitChars();
    if IsDecimal(s) {
      forall c | c in s ensures c in "0123456789" {
        var i :| 0 <= i < |s| && s[i] == c;
      }
    } else {
      var i :| 0 <= i < |s| && !('0' <= s[i] <= '9');
      assert s[i] in s;
    }
  }

  lemma DigitChars()
    ensures forall c :: c in "0123456789" <==> '0' <= c <= '9'
  {
    var digits := "0123456789";
    forall c | '0' <= c <= '9' ensures c in digits {
      assert digits[c as int - '0' as int] == c;
    }
  }

  lemma {:induction false} ValueIs(s: string)
    requires IsDecimal(s)
    ensures Decimal(s) == RequestKey.DecimalValue(s)
  {
    if s != "" {
      ValueIs(s[..|s| - 1]);
    }
  }

  lemma SpacesAre(c: char)
    ensures IsSpace(c) <==> c in " \t\n\r"
  {
  }

  predicate AllNumbers(fields: seq<string>) {
    forall i :: 0 <= i < |fields| ==> ParseUnsigned(fields[i]).Some?
  }

  function Numbers(fields: seq<string>): seq<U64>
    requires AllNumbers(fields)
  {
    seq(|fields|, i requires 0 <= i < |fields| => ParseUnsigned(fields[i]).value)
  }

  // ---------- The loops ----------

  method SkipSpaces(text: string, start: nat) returns (position: nat)
    requires start <= |text|
    ensures start <= position <= |text| && Fields(text, position) == Fields(text, start)
    ensures position < |text| ==> !IsSpace(text[position])
    ensures forall i :: start <= i < position ==> IsSpace(text[i])
  {
    position := start;
    while position < |text| && IsSpace(text[position])
      invariant start <= position <= |text| && Fields(text, position) == Fields(text, start)
      invariant forall i :: start <= i < position ==> IsSpace(text[i])
    {
      position := position + 1;
    }
  }

  /** The position is at the start of the text or behind a space. */
  predicate AtBreak(text: string, position: nat) {
    position <= |text| && (position == 0 || IsSpace(text[position - 1]))
  }

  ghost predicate Taken(text: string, position: nat, pages: seq<U64>, fields: seq<string>) {
    position <= |text| && |pages| <= 7 && AllNumbers(fields) && pages == Numbers(fields) && Fields(text, 0) == fields + Fields(text, position)
  }

  /** The last field runs to the end of the text, and the position is still in front of it. */
  predicate Unfinished(text: string, position: nat) {
    position < |text| && !IsSpace(text[position]) && !IsSpace(text[|text| - 1])
  }

  /** The field-reading loop, up to seven numbers; `rest` is where it stopped. */
  method ReadPages(text: string) returns (pages: Option<seq<U64>>, rest: nat, ghost fields: seq<string>)
    ensures pages.None? ==> !AllNumbers(Fields(text, 0))
    ensures pages.Some? ==>
              (Taken(text, rest, pages.value, fields) && AtBreak(text, rest) && (|pages.value| == 7 || rest == |text|)) || Unfinished(text, rest)
  {
    hide ParseUnsigned, IsSpace;
    var some: seq<U64> := [];
    rest, fields := 0, [];
    while rest < |text| && |some| < 7
      invariant Taken(text, rest, some, fields) && AtBreak(text, rest)
      decreases |text| - rest
    {
      rest := SkipSpaces(text, rest);
      if rest >= |text| {
        return Some(some), rest, fields;
      }
      var end := FieldEnd(text, rest);
      var token := text[rest..end];
      assert Fields(text, rest) == [token] + Fields(text, end);
      var value := ParseUnsigned(token);
      if value.None? {
        assert Fields(text, 0)[|fields|] == token;
        return None, rest, fields;
      }
      some, fields := some + [value.value], fields + [token];
      if end == |text| {
        return Some(some), rest, fields;
      }
      assert Fields(text, end) == Fields(text, end + 1);
      rest := end + 1;
    }
    pages := Some(some);
  }

  datatype Memory = Memory(virtualBytes: U64, residentBytes: U64, sharedBytes: U64, textBytes: U64, dataAndStackBytes: U64)

  /** Seven numbers, and a space after the last of them. */
  predicate WellFormed(text: string) {
    text != "" && |Fields(text, 0)| == 7 && AllNumbers(Fields(text, 0)) && IsSpace(text[|text| - 1])
  }

  function Product(left: U64, right: U64): nat {
    left * right
  }

  /** The five counts that are reported fit 64 bits once they are bytes. */
  predicate Convertible(pages: seq<U64>, pageSize: U64)
    requires |pages| == 7
  {
    forall i :: i in [0, 1, 2, 3, 5] ==> Product(pages[i], pageSize) <= ElfReader.U64_MAX
  }

  method Parse(text: string, pageSize: U64) returns (r: Option<Memory>)
    ensures r.Some? <==> WellFormed(text) && Convertible(Numbers(Fields(text, 0)), pageSize)
    ensures r.Some? ==>
              var pages := Numbers(Fields(text, 0));
              r.value == Memory(Product(pages[0], pageSize), Product(pages[1], pageSize), Product(pages[2], pageSize),
                                Product(pages[3], pageSize), Product(pages[5], pageSize))
  {
    hide ParseUnsigned, IsSpace, Product, Fields, ElfReader.CheckedMultiply;
    var pages, rest, fields := ReadPages(text);
    if pages.None? {
      return None;
    }
    var end := SkipSpaces(text, rest);
    NoFieldsAtEnd(text);
    if |pages.value| != 7 || end != |text| {
      if end < |text| {
        FieldThere(text, end);
      }
      return None;
    }
    r := Convert(pages.value, pageSize);
  }

  lemma NoFieldsAtEnd(text: string)
    ensures Fields(text, |text|) == []
  {
  }

  lemma FieldThere(text: string, position: nat)
    requires position < |text| && !IsSpace(text[position])
    ensures Fields(text, position) != []
  {
  }

  method Convert(pages: seq<U64>, pageSize: U64) returns (r: Option<Memory>)
    requires |pages| == 7
    ensures r.Some? <==> Convertible(pages, pageSize)
    ensures r.Some? ==> r.value == Memory(Product(pages[0], pageSize), Product(pages[1], pageSize), Product(pages[2], pageSize),
                                          Product(pages[3], pageSize), Product(pages[5], pageSize))
  {
    hide Product, ElfReader.CheckedMultiply;
    forall i | 0 <= i < 7 ensures
        ElfReader.CheckedMultiply(pages[i], pageSize) == if Product(pages[i], pageSize) <= ElfReader.U64_MAX then Some(Product(pages[i], pageSize)) else None {
      ProductChecked(pages[i], pageSize);
    }
    assert Convertible(pages, pageSize) <==>
           (Product(pages[0], pageSize) <= ElfReader.U64_MAX && Product(pages[1], pageSize) <= ElfReader.U64_MAX &&
            Product(pages[2], pageSize) <= ElfReader.U64_MAX && Product(pages[3], pageSize) <= ElfReader.U64_MAX &&
            Product(pages[5], pageSize) <= ElfReader.U64_MAX);
    var virtual := ElfReader.CheckedMultiply(pages[0], pageSize);
    var resident := ElfReader.CheckedMultiply(pages[1], pageSize);
    var shared := ElfReader.CheckedMultiply(pages[2], pageSize);
    var code := ElfReader.CheckedMultiply(pages[3], pageSize);
    var data := ElfReader.CheckedMultiply(pages[5], pageSize);
    if virtual.None? || resident.None? || shared.None? || code.None? || data.None? {
      return None;
    }
    r := Some(Memory(virtual.value, resident.value, shared.value, code.value, data.value));
  }

  lemma ProductChecked(left: U64, right: U64)
    ensures ElfReader.CheckedMultiply(left, right) == if Product(left, right) <= ElfReader.U64_MAX then Some(Product(left, right)) else None
  {
    ElfReader.CheckedMultiplyIs(left, right);
  }

  /** Seven numbers are not enough: without a space after the last one the text is refused. */
  lemma Unterminated()
    ensures var text := "1 1 1 1 1 1 1";
            |Fields(text, 0)| == 7 && AllNumbers(Fields(text, 0)) && !WellFormed(text) && WellFormed(text + "\n")
  {
    hide Fields, ParseUnsigned, AllNumbers;
    var text, ended := "1 1 1 1 1 1 1", "1 1 1 1 1 1 1\n";
    assert text + "\n" == ended;
    Ones(text, 0);
    Ones(ended, 0);
  }

  // The fields of a text in which ones and spaces alternate.
  lemma {:induction false} Ones(text: string, start: nat)
    requires start <= |text| && start % 2 == 0
    requires forall i :: 0 <= i < |text| ==> if i % 2 == 0 then text[i] == '1' else IsSpace(text[i])
    ensures AllNumbers(Fields(text, start)) && |Fields(text, start)| == (|text| - start + 1) / 2
    decreases |text| - start
  {
    if start < |text| {
      assert FieldEnd(text, start) == start + 1;
      assert text[start..start + 1] == "1" && ParseUnsigned("1") == Some(1) by { One(); }
      if start + 1 < |text| {
        assert Fields(text, start + 1) == Fields(text, start + 2);
        Ones(text, start + 2);
      }
    }
  }

  lemma One()
    ensures ParseUnsigned("1") == Some(1)
  {
    assert "1"[..0] == "";
  }
}
