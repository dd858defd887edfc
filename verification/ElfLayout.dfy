/** The layout of ELF structures, written the other way round: fields in the order and with the sizes of
    the System V gABI, one after another. What inspection parses is what is written there. */
module ElfLayout {
  import opened Bytes
  import opened ElfReader
  import opened ElfNotes
  import opened Elf
  import opened ElfInspect

  // ---------- Words ----------

  function LittleBytes(n: nat, size: nat): (r: seq<Byte>)
    ensures |r| == size
  {
    if size == 0 then [] else [(n % 256) as Byte] + LittleBytes(n / 256, size - 1)
  }

  function BigBytes(n: nat, size: nat): (r: seq<Byte>)
    ensures |r| == size
  {
    if size == 0 then [] else BigBytes(n / 256, size - 1) + [(n % 256) as Byte]
  }

  function WordBytes(n: nat, size: nat, little: bool): (r: seq<Byte>)
    ensures |r| == size
  {
    if little then LittleBytes(n, size) else BigBytes(n, size)
  }

  /** A number that fits is read back from its bytes in the same order. */
  lemma {:induction false} WordReadBack(n: nat, size: nat, little: bool)
    requires n < Pow256(size)
    ensures Word(WordBytes(n, size, little), little) == n
  {
    if size > 0 {
      WordReadBack(n / 256, size - 1, little);
    }
  }

  // ---------- Structures ----------

  datatype Field = Field(value: nat, size: nat)

  function Written(fields: seq<Field>, little: bool): seq<Byte> {
    if fields == [] then []
    else Written(fields[..|fields| - 1], little) + WordBytes(fields[|fields| - 1].value, fields[|fields| - 1].size, little)
  }

  /** Where the field at index `k` begins. */
  function Begins(fields: seq<Field>, k: nat): nat
    requires k <= |fields|
  {
    if k == 0 then 0 else Begins(fields, k - 1) + fields[k - 1].size
  }

  ghost predicate Fit(fields: seq<Field>) {
    forall k :: 0 <= k < |fields| ==> fields[k].value < Pow256(fields[k].size)
  }

  lemma {:induction false} WrittenSize(fields: seq<Field>, little: bool)
    ensures |Written(fields, little)| == Begins(fields, |fields|)
  {
    if fields != [] {
      var n := |fields| - 1;
      WrittenSize(fields[..n], little);
      BeginsPrefix(fields, n, n);
    }
  }

  lemma {:induction false} BeginsPrefix(fields: seq<Field>, n: nat, k: nat)
    requires k <= n <= |fields|
    ensures Begins(fields[..n], k) == Begins(fields, k)
  {
    if k > 0 {
      BeginsPrefix(fields, n, k - 1);
    }
  }

  /** Every field is read back from its place. */
  lemma {:induction false} FieldReadBack(fields: seq<Field>, little: bool, k: nat)
    requires Fit(fields) && k < |fields|
    ensures Begins(fields, k) + fields[k].size <= |Written(fields, little)|
    ensures Word(Written(fields, little)[Begins(fields, k)..Begins(fields, k) + fields[k].size], little) == fields[k].value
  {
    hide Pow256, Word, WordBytes;
    var n := |fields| - 1;
    var before, bytes := Written(fields[..n], little), Written(fields, little);
    WrittenSize(fields[..n], little);
    BeginsPrefix(fields, n, n);
    BeginsPrefix(fields, n, k);
    if k == n {
      assert bytes[|before|..|before| + fields[k].size] == WordBytes(fields[k].value, fields[k].size, little);
      WordReadBack(fields[k].value, fields[k].size, little);
    } else {
      FieldReadBack(fields[..n], little, k);
      assert bytes[Begins(fields, k)..Begins(fields, k) + fields[k].size] == before[Begins(fields, k)..Begins(fields, k) + fields[k].size];
    }
  }

  // ---------- Program headers ----------

  datatype Segment = Segment(kind: nat, flags: nat, offset: U64, address: U64, physical: nat, fileSize: U64, memorySize: U64, align: nat)

  /** Elf64_Phdr and Elf32_Phdr. */
  function SegmentFields(p: Segment, is64: bool): seq<Field> {
    if is64 then
      [Field(p.kind, 4), Field(p.flags, 4), Field(p.offset, 8), Field(p.address, 8), Field(p.physical, 8),
       Field(p.fileSize, 8), Field(p.memorySize, 8), Field(p.align, 8)]
    else
      [Field(p.kind, 4), Field(p.offset, 4), Field(p.address, 4), Field(p.physical, 4),
       Field(p.fileSize, 4), Field(p.memorySize, 4), Field(p.flags, 4), Field(p.align, 4)]
  }

  lemma ReadAt(fields: seq<Field>, f: Format, k: nat, at: nat, size: nat)
    requires Fit(fields) && k < |fields| && at == Begins(fields, k) && fields[k].size == size <= 8
    ensures at + size <= |Written(fields, f.little)| && WordAt(Written(fields, f.little), f, at, size) == fields[k].value
  {
    hide Written, Begins, Word;
    FieldReadBack(fields, f.little, k);
  }

  /** A program header is parsed as it was written, for both word sizes and both byte orders. */
  lemma SegmentReadBack(p: Segment, f: Format)
    requires Fit(SegmentFields(p, f.is64))
    ensures var raw := Written(SegmentFields(p, f.is64), f.little);
            |raw| == ProgramBytes(f) && ParseProgramHeader(raw, f) == ProgramHeader(p.kind, p.offset, p.address, p.fileSize, p.memorySize)
  {
    hide Written, WordAt, Fit;
    var fields := SegmentFields(p, f.is64);
    WrittenSize(fields, f.little);
    SegmentBegins(p, f.is64);
    if f.is64 {
      ReadAt(fields, f, 0, 0, 4);
      ReadAt(fields, f, 2, 8, 8);
      ReadAt(fields, f, 3, 16, 8);
      ReadAt(fields, f, 5, 32, 8);
      ReadAt(fields, f, 6, 40, 8);
    } else {
      ReadAt(fields, f, 0, 0, 4);
      ReadAt(fields, f, 1, 4, 4);
      ReadAt(fields, f, 2, 8, 4);
      ReadAt(fields, f, 4, 16, 4);
      ReadAt(fields, f, 5, 20, 4);
    }
  }

  lemma SegmentBegins(p: Segment, is64: bool)
    ensures var fields := SegmentFields(p, is64);
            && Begins(fields, 0) == 0 && Begins(fields, 8) == (if is64 then 56 else 32)
            && (if is64 then Begins(fields, 2) == 8 && Begins(fields, 3) == 16 && Begins(fields, 5) == 32 && Begins(fields, 6) == 40
                else Begins(fields, 1) == 4 && Begins(fields, 2) == 8 && Begins(fields, 4) == 16 && Begins(fields, 5) == 20)
  {
    var fields := SegmentFields(p, is64);
    assert Begins(fields, 1) == 4;
    assert Begins(fields, 2) == Begins(fields, 1) + fields[1].size;
    assert Begins(fields, 3) == Begins(fields, 2) + fields[2].size;
    assert Begins(fields, 4) == Begins(fields, 3) + fields[3].size;
    assert Begins(fields, 5) == Begins(fields, 4) + fields[4].size;
    assert Begins(fields, 6) == Begins(fields, 5) + fields[5].size;
    assert Begins(fields, 7) == Begins(fields, 6) + fields[6].size;
  }

  // ---------- The file header ----------

  /** Elf64_Ehdr and Elf32_Ehdr after the sixteen bytes of identification. */
  datatype ElfHeader = ElfHeader(kind: nat, machine: nat, version: nat, entry: nat, programOffset: U64, sectionOffset: nat, flags: nat,
                                 headerSize: nat, entrySize: U64, count: U64, sectionSize: nat, sections: nat, names: nat)

  function HeaderFields(h: ElfHeader, is64: bool): seq<Field> {
    var word := if is64 then 8 else 4;
    [Field(h.kind, 2), Field(h.machine, 2), Field(h.version, 4), Field(h.entry, word), Field(h.programOffset, word), Field(h.sectionOffset, word),
     Field(h.flags, 4), Field(h.headerSize, 2), Field(h.entrySize, 2), Field(h.count, 2), Field(h.sectionSize, 2), Field(h.sections, 2), Field(h.names, 2)]
  }

  lemma ReadAfter(front: seq<Byte>, fields: seq<Field>, f: Format, k: nat, at: nat, size: nat)
    requires Fit(fields) && k < |fields| && at == |front| + Begins(fields, k) && fields[k].size == size <= 8
    ensures var bytes := front + Written(fields, f.little);
            at + size <= |bytes| && WordAt(bytes, f, at, size) == fields[k].value
  {
    hide Written, Begins, Word;
    FieldReadBack(fields, f.little, k);
    var bytes, from := front + Written(fields, f.little), Begins(fields, k);
    assert bytes[at..at + size] == Written(fields, f.little)[from..from + size];
  }

  /** The file header is parsed as it was written after the identification. */
  lemma HeaderReadBack(id: seq<Byte>, h: ElfHeader, f: Format)
    requires |id| == 16 && Fit(HeaderFields(h, f.is64))
    ensures var bytes := id + Written(HeaderFields(h, f.is64), f.little);
            && |bytes| == HeaderBytes(f)
            && ParseFileHeader(bytes, f) == FileHeader(h.kind, h.machine, h.version, h.programOffset, h.headerSize, h.entrySize, h.count)
  {
    hide Written, WordAt, Fit, Begins;
    var fields := HeaderFields(h, f.is64);
    WrittenSize(fields, f.little);
    HeaderBegins(h, f.is64);
    ReadAfter(id, fields, f, 0, 16, 2);
    ReadAfter(id, fields, f, 1, 18, 2);
    ReadAfter(id, fields, f, 2, 20, 4);
    if f.is64 {
      ReadAfter(id, fields, f, 4, 32, 8);
      ReadAfter(id, fields, f, 7, 52, 2);
      ReadAfter(id, fields, f, 8, 54, 2);
      ReadAfter(id, fields, f, 9, 56, 2);
    } else {
      ReadAfter(id, fields, f, 4, 28, 4);
      ReadAfter(id, fields, f, 7, 40, 2);
      ReadAfter(id, fields, f, 8, 42, 2);
      ReadAfter(id, fields, f, 9, 44, 2);
    }
  }

  lemma HeaderBegins(h: ElfHeader, is64: bool)
    ensures var fields, word := HeaderFields(h, is64), if is64 then 8 else 4;
            && Begins(fields, 0) == 0 && Begins(fields, 1) == 2 && Begins(fields, 2) == 4 && Begins(fields, 4) == 8 + word
            && Begins(fields, 7) == 12 + 3 * word && Begins(fields, 8) == 14 + 3 * word && Begins(fields, 9) == 16 + 3 * word
            && Begins(fields, 13) == 24 + 3 * word
  {
    var fields := HeaderFields(h, is64);
    assert Begins(fields, 1) == 2 && Begins(fields, 2) == 4;
    assert Begins(fields, 3) == Begins(fields, 2) + fields[2].size;
    assert Begins(fields, 4) == Begins(fields, 3) + fields[3].size;
    assert Begins(fields, 5) == Begins(fields, 4) + fields[4].size;
    assert Begins(fields, 6) == Begins(fields, 5) + fields[5].size;
    assert Begins(fields, 7) == Begins(fields, 6) + fields[6].size;
    assert Begins(fields, 8) == Begins(fields, 7) + fields[7].size;
    assert Begins(fields, 9) == Begins(fields, 8) + fields[8].size;
    assert Begins(fields, 10) == Begins(fields, 9) + fields[9].size;
    assert Begins(fields, 11) == Begins(fields, 10) + fields[10].size;
    assert Begins(fields, 12) == Begins(fields, 11) + fields[11].size;
    assert Begins(fields, 13) == Begins(fields, 12) + fields[12].size;
  }

  /** The bytes that identify a file, with any operating system, version and padding after them. */
  function Identification(f: Format, rest: seq<Byte>): seq<Byte> {
    [0x7F, 'E' as Byte, 'L' as Byte, 'F' as Byte, if f.is64 then 2 else 1, if f.little then 1 else 2, 1] + rest
  }

  lemma Identified(f: Format, rest: seq<Byte>)
    requires |rest| == 9
    ensures IdentifiesAs(Identification(f, rest), f)
  {
  }

  // ---------- The dynamic table ----------

  /** Elf64_Dyn and Elf32_Dyn, one after another. */
  function TableFields(entries: seq<Dynamic>, is64: bool): seq<Field> {
    if entries == [] then []
    else
      var last, size := entries[|entries| - 1], if is64 then 8 else 4;
      TableFields(entries[..|entries| - 1], is64) + [Field(last.tag, size), Field(last.value, size)]
  }

  lemma {:induction false} TableBegins(entries: seq<Dynamic>, is64: bool, i: nat)
    requires i < |entries|
    ensures var fields, size := TableFields(entries, is64), if is64 then 8 else 4;
            && |fields| == 2 * |entries| && fields[2 * i] == Field(entries[i].tag, size) && fields[2 * i + 1] == Field(entries[i].value, size)
            && Begins(fields, 2 * i) == 2 * size * i && Begins(fields, 2 * i + 1) == 2 * size * i + size
            && Begins(fields, |fields|) == 2 * size * |entries|
  {
    var n, fields := |entries| - 1, TableFields(entries, is64);
    if n > 0 {
      TableBegins(entries[..n], is64, if i < n then i else 0);
      assert fields[..2 * n] == TableFields(entries[..n], is64);
      BeginsPrefix(fields, 2 * n, 2 * n);
      if i < n {
        BeginsPrefix(fields, 2 * n, 2 * i);
        BeginsPrefix(fields, 2 * n, 2 * i + 1);
      }
    }
    assert Begins(fields, 2 * n + 1) == Begins(fields, 2 * n) + fields[2 * n].size;
    assert Begins(fields, 2 * n + 2) == Begins(fields, 2 * n + 1) + fields[2 * n + 1].size;
  }

  /** Every entry of a dynamic table is read as it was written. */
  lemma EntryReadBack(entries: seq<Dynamic>, f: Format, i: nat)
    requires i < |entries| && Fit(TableFields(entries, f.is64))
    ensures var bytes := Written(TableFields(entries, f.is64), f.little);
            EntryStart(f, i + 1) <= |bytes| && EntryAt(bytes, f, i) == entries[i]
  {
    hide Written, TableFields, Begins, Word;
    var fields := TableFields(entries, f.is64);
    TableBegins(entries, f.is64, i);
    WrittenSize(fields, f.little);
    FieldReadBack(fields, f.little, 2 * i);
    FieldReadBack(fields, f.little, 2 * i + 1);
  }

  // ---------- Notes ----------

  function Padded(s: seq<Byte>): seq<Byte> {
    s + seq((4 - |s| % 4) % 4, _ => 0)
  }

  /** Elf64_Nhdr, which is Elf32_Nhdr, with its name and description. */
  function NoteBytes(note: Note, little: bool): seq<Byte> {
    Written([Field(|note.name|, 4), Field(|note.description|, 4), Field(note.kind, 4)], little) + Padded(note.name) + Padded(note.description)
  }

  /** A note is found as it was written, wherever it stands. */
  lemma NoteReadBack(front: seq<Byte>, note: Note, back: seq<Byte>, little: bool)
    requires |note.name| < Pow256(4) && |note.description| < Pow256(4) && note.kind < Pow256(4)
    ensures IsNote(front + NoteBytes(note, little) + back, |front|, |front| + |NoteBytes(note, little)|, little, note)
  {
    hide Written, Word, Pow256;
    var fields := [Field(|note.name|, 4), Field(|note.description|, 4), Field(note.kind, 4)];
    var words, bytes, start := Written(fields, little), front + NoteBytes(note, little) + back, |front|;
    WrittenSize(fields, little);
    assert Begins(fields, 1) == 4 && Begins(fields, 2) == 8 && Begins(fields, 3) == 12;
    FieldReadBack(fields, little, 0);
    FieldReadBack(fields, little, 1);
    FieldReadBack(fields, little, 2);
    assert bytes[start..start + 4] == words[0..4] && bytes[start + 4..start + 8] == words[4..8] && bytes[start + 8..start + 12] == words[8..12];
    PaddedSize(note.name);
    PaddedSize(note.description);
    var name, description := start + 12, start + 12 + |Padded(note.name)|;
    assert bytes[name..name + |note.name|] == note.name;
    assert bytes[description..description + |note.description|] == note.description;
  }

  lemma PaddedSize(s: seq<Byte>)
    ensures |Padded(s)| == Align4(|s|)
  {
  }

  // ---------- Numbers of the gABI ----------

  /** The numbers by which segments, dynamic entries and the build id are told. */
  lemma Registered()
    ensures PT_LOAD == 1 && PT_DYNAMIC == 2 && PT_INTERP == 3 && PT_NOTE == 4 && PN_XNUM == 0xFFFF
    ensures DT_NULL == 0 && DT_NEEDED == 1 && DT_STRTAB == 5 && DT_STRSZ == 10
    ensures forall note :: IsBuildId(note) <==> note.kind == 3 && note.name == ['G' as Byte, 'N' as Byte, 'U' as Byte, 0]
    ensures U64_MAX + 1 == Pow256(8)
  {
    assert Pow256(4) == 0x1_0000_0000 && Pow256(8) == Pow256(4) * 0x1_0000_0000 by {
      assert Pow256(2) == 0x1_0000 && Pow256(6) == Pow256(4) * 0x1_0000;
    }
  }
}
