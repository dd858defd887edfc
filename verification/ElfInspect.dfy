/** ElfAnalyzer::inspect: headers, interpreter, needed libraries and build id, from a bounded reader
    over arbitrary bytes. */
module ElfInspect {
  import opened Options
  import opened Bytes
  import opened LogModel
  import opened ElfReader
  import opened ElfNotes
  import opened Elf

  // ---------- The file header ----------

  datatype FileHeader = FileHeader(kind: nat, machine: nat, version: nat, programOffset: U64, headerSize: nat, entrySize: U64, count: U64)

  function HeaderBytes(f: Format): nat {
    if f.is64 then 64 else 52
  }

  function ProgramBytes(f: Format): nat {
    if f.is64 then 56 else 32
  }

  function WordAt(bytes: seq<Byte>, f: Format, at: nat, size: nat): (w: U64)
    requires at + size <= |bytes| && size <= 8
  {
    WordIsU64(bytes[at..at + size], f.little);
    Word(bytes[at..at + size], f.little)
  }

  function ParseFileHeader(bytes: seq<Byte>, f: Format): FileHeader
    requires |bytes| == HeaderBytes(f)
  {
    FileHeader(WordAt(bytes, f, 16, 2), WordAt(bytes, f, 18, 2), WordAt(bytes, f, 20, 4),
               if f.is64 then WordAt(bytes, f, 32, 8) else WordAt(bytes, f, 28, 4),
               WordAt(bytes, f, if f.is64 then 52 else 40, 2), WordAt(bytes, f, if f.is64 then 54 else 42, 2),
               WordAt(bytes, f, if f.is64 then 56 else 44, 2))
  }

  function ParseProgramHeader(raw: seq<Byte>, f: Format): ProgramHeader
    requires |raw| == ProgramBytes(f)
  {
    if f.is64 then
      ProgramHeader(WordAt(raw, f, 0, 4), WordAt(raw, f, 8, 8), WordAt(raw, f, 16, 8), WordAt(raw, f, 32, 8), WordAt(raw, f, 40, 8))
    else
      ProgramHeader(WordAt(raw, f, 0, 4), WordAt(raw, f, 4, 4), WordAt(raw, f, 8, 4), WordAt(raw, f, 16, 4), WordAt(raw, f, 20, 4))
  }

  /** What the identification bytes and the header must be for inspection to go on. */
  predicate HeaderOk(h: FileHeader, f: Format, limits: ElfLimits, fileLimit: nat) {
    h.version == 1 && h.headerSize == HeaderBytes(f) && h.count != PN_XNUM && h.count <= limits.maxProgramHeaders &&
    (h.count > 0 ==> h.entrySize == ProgramBytes(f) && h.entrySize <= limits.maxProgramHeaderEntryBytes) &&
    h.programOffset + h.count * h.entrySize <= fileLimit
  }

  predicate IdentifiesAs(id: seq<Byte>, f: Format) {
    |id| == 16 && id[..4] == [0x7F, 69, 76, 70] && id[4] == (if f.is64 then 2 else 1) && id[5] == (if f.little then 1 else 2) && id[6] == 1
  }

  lemma FormatUnique(id: seq<Byte>, f: Format, g: Format)
    requires IdentifiesAs(id, f) && IdentifiesAs(id, g)
    ensures f == g
  {
  }

  method ReadIdentification(reader: Reader) returns (r: Result<Format>)
    requires reader.Valid() && reader.Clean()
    modifies reader
    ensures reader.Valid() && reader.Thrifty() && (r.Ok? ==> reader.Clean())
    ensures r.Ok? ==> Readable(reader.file, 0, 16) && IdentifiesAs(Slice(reader.file.content, 0, 16), r.value) &&
                      reader.bytesRead == old(reader.bytesRead) + 16
    ensures Undisturbed(old(reader.turns)) ==>
              Undisturbed(reader.turns) && (Readable(reader.file, 0, 16) && old(reader.bytesRead) + 16 <= reader.metadataLimit && (exists f :: IdentifiesAs(Slice(reader.file.content, 0, 16), f)) ==> r.Ok?)
  {
    hide Slice, Undisturbed, Fetched;
    var id := reader.Read(0, 16);
    if id.Err? {
      return Err(id.code);
    }
    var bytes := id.value;
    if bytes[0] != 0x7F || bytes[1] != 69 || bytes[2] != 76 || bytes[3] != 70 {
      assert bytes[..4] != [0x7F, 69, 76, 70];
      return Err(InvalidFormat);
    }
    if bytes[4] != 2 && bytes[4] != 1 {
      return Err(UnsupportedFeature);
    }
    if bytes[5] != 1 && bytes[5] != 2 {
      return Err(UnsupportedFeature);
    }
    if bytes[6] != 1 {
      return Err(InvalidFormat);
    }
    r := Ok(Format(bytes[4] == 2, bytes[5] == 1));
  }

  /** The header of the file, if it can be read and is one to go on with. */
  ghost predicate HeaderIs(file: ReadOnlyFile, f: Format, limits: ElfLimits, h: FileHeader) {
    var bytes := Slice(file.content, 0, HeaderBytes(f));
    Readable(file, 0, HeaderBytes(f)) && |bytes| == HeaderBytes(f) && h == ParseFileHeader(bytes, f) && HeaderOk(h, f, limits, file.ReadLimit())
  }

  method ReadHeader(reader: Reader, f: Format, limits: ElfLimits) returns (r: Result<FileHeader>)
    requires reader.Valid() && reader.Clean() && reader.FileLimit() <= U64_MAX
    modifies reader
    ensures reader.Valid() && reader.Thrifty() && (r.Ok? ==> reader.Clean())
    ensures r.Ok? ==> HeaderIs(reader.file, f, limits, r.value) && reader.bytesRead == old(reader.bytesRead) + HeaderBytes(f)
    ensures Undisturbed(old(reader.turns)) ==>
              Undisturbed(reader.turns) && (old(reader.bytesRead) + HeaderBytes(f) <= reader.metadataLimit && (exists h :: HeaderIs(reader.file, f, limits, h)) ==> r.Ok?)
  {
    hide Slice, Undisturbed, Word, Fetched, ReadOnlyFile.ReadLimit, ParseFileHeader;
    var bytes := reader.Read(0, HeaderBytes(f));
    if bytes.Err? {
      return Err(bytes.code);
    }
    var h := ParseFileHeader(bytes.value, f);
    if h.version != 1 || h.headerSize != HeaderBytes(f) {
      return Err(InvalidFormat);
    }
    if h.count == PN_XNUM {
      return Err(UnsupportedFeature);
    }
    if h.count > limits.maxProgramHeaders {
      return Err(MetadataTooLarge);
    }
    if h.count > 0 && (h.entrySize != ProgramBytes(f) || h.entrySize > limits.maxProgramHeaderEntryBytes) {
      return Err(InvalidFormat);
    }
    CheckedMultiplyIs(h.count, h.entrySize);
    var table := CheckedMultiply(h.count, h.entrySize);
    if table.None? || !RangeInside(h.programOffset, table.value, reader.FileLimit()) {
      return Err(InvalidFormat);
    }
    r := Ok(h);
  }

  // ---------- Program headers ----------

  function ProgramStart(f: Format, i: nat): nat {
    if f.is64 then 56 * i else 32 * i
  }

  /** The program header at index `i` of the file, one to go on with. */
  ghost predicate IsHeader(file: ReadOnlyFile, f: Format, programOffset: nat, i: nat, h: ProgramHeader) {
    var place := programOffset + ProgramStart(f, i);
    var raw := Slice(file.content, place, ProgramBytes(f));
    Readable(file, place, ProgramBytes(f)) && |raw| == ProgramBytes(f) && h == ParseProgramHeader(raw, f) && Sound(h, file.ReadLimit())
  }

  ghost predicate AreHeaders(file: ReadOnlyFile, f: Format, h: FileHeader, headers: seq<ProgramHeader>) {
    |headers| == h.count && forall i :: 0 <= i < |headers| ==> IsHeader(file, f, h.programOffset, i, headers[i])
  }

  lemma HeadersUnique(file: ReadOnlyFile, f: Format, h: FileHeader, one: seq<ProgramHeader>, other: seq<ProgramHeader>)
    requires AreHeaders(file, f, h, one) && AreHeaders(file, f, h, other)
    ensures one == other
  {
    hide ParseProgramHeader, Slice, Sound, Readable;
    forall i | 0 <= i < |one| ensures one[i] == other[i] {
      assert IsHeader(file, f, h.programOffset, i, one[i]) && IsHeader(file, f, h.programOffset, i, other[i]);
    }
  }

  method ReadProgramHeaders(reader: Reader, f: Format, h: FileHeader, limits: ElfLimits) returns (r: Result<seq<ProgramHeader>>)
    requires reader.Valid() && reader.Clean() && HeaderOk(h, f, limits, reader.FileLimit()) && reader.FileLimit() <= U64_MAX
    modifies reader
    ensures reader.Valid() && reader.Thrifty() && (r.Ok? ==> reader.Clean())
    ensures r.Ok? ==> AreHeaders(reader.file, f, h, r.value) && reader.bytesRead == old(reader.bytesRead) + ProgramStart(f, h.count)
    ensures Undisturbed(old(reader.turns)) ==>
              Undisturbed(reader.turns) && (old(reader.bytesRead) + ProgramStart(f, h.count) <= reader.metadataLimit && (exists headers :: AreHeaders(reader.file, f, h, headers)) ==> r.Ok?)
  {
    hide Slice, Undisturbed, ParseProgramHeader, Fetched, ReadOnlyFile.ReadLimit, Readable;
    var headers: seq<ProgramHeader> := [];
    var index := 0;
    while index < h.count
      invariant 0 <= index <= h.count && |headers| == index && reader.Valid() && reader.Clean()
      invariant forall i :: 0 <= i < index ==> IsHeader(reader.file, f, h.programOffset, i, headers[i])
      invariant reader.bytesRead == old(reader.bytesRead) + ProgramStart(f, index)
      invariant Undisturbed(old(reader.turns)) ==> Undisturbed(reader.turns)
    {
      OffsetInTable(f, index, h);
      var offset: U64 := h.programOffset + index * h.entrySize;
      var raw := reader.Read(offset, h.entrySize);
      if raw.Err? {
        assert forall all :: AreHeaders(reader.file, f, h, all) ==> IsHeader(reader.file, f, h.programOffset, index, all[index]);
        return Err(raw.code);
      }
      var parsed := ParseProgramHeader(raw.value, f);
      if (parsed.fileSize > 0 && !RangeInside(parsed.offset, parsed.fileSize, reader.FileLimit())) ||
         (parsed.kind == PT_LOAD && parsed.memorySize < parsed.fileSize) {
        assert forall all :: AreHeaders(reader.file, f, h, all) ==> IsHeader(reader.file, f, h.programOffset, index, all[index]);
        return Err(InvalidFormat);
      }
      headers := headers + [parsed];
      index := index + 1;
    }
    r := Ok(headers);
  }

  // The offset of an entry is computed without wrapping around.
  lemma OffsetInTable(f: Format, index: nat, h: FileHeader)
    requires index < h.count && h.entrySize == ProgramBytes(f)
    ensures index * h.entrySize == ProgramStart(f, index) && (index + 1) * h.entrySize <= h.count * h.entrySize
  {
    assert (index + 1) * h.entrySize <= h.count * h.entrySize;
  }


  // ---------- Segments ----------

  function OfKind(headers: seq<ProgramHeader>, kind: nat): seq<ProgramHeader> {
    if headers == [] then []
    else
      var last := headers[|headers| - 1];
      OfKind(headers[..|headers| - 1], kind) + (if last.kind == kind then [last] else [])
  }

  function SizeOf(segments: seq<ProgramHeader>): nat {
    if segments == [] then 0 else SizeOf(segments[..|segments| - 1]) + segments[|segments| - 1].fileSize
  }

  function AtMostOne<T>(o: Option<T>): seq<T> {
    if o.None? then [] else [o.value]
  }

  function Contents(content: seq<Byte>, h: ProgramHeader): seq<Byte> {
    Slice(content, h.offset, h.fileSize)
  }

  /** The segment names an interpreter. */
  ghost predicate Names(file: ReadOnlyFile, h: ProgramHeader, limits: ElfLimits, interpreter: string) {
    0 < h.fileSize <= limits.maxInterpreterBytes && Readable(file, h.offset, h.fileSize) &&
    exists name :: IsName(Contents(file.content, h), 0, name) && interpreter == EscapeBytes(name)
  }

  /** The interpreter is named by the one interpreter segment, if there is one. */
  ghost predicate InterpreterIs(file: ReadOnlyFile, segments: seq<ProgramHeader>, limits: ElfLimits, interpreter: Option<string>) {
    if interpreter.None? then segments == [] else |segments| == 1 && Names(file, segments[0], limits, interpreter.value)
  }

  datatype Scan = Scan(interpreter: Option<string>, dynamic: Option<ProgramHeader>, notes: seq<ProgramHeader>)

  ghost predicate ScanIs(file: ReadOnlyFile, headers: seq<ProgramHeader>, limits: ElfLimits, scan: Scan) {
    scan.notes == OfKind(headers, PT_NOTE) && AtMostOne(scan.dynamic) == OfKind(headers, PT_DYNAMIC) &&
    InterpreterIs(file, OfKind(headers, PT_INTERP), limits, scan.interpreter)
  }

  /** The segments can be scanned within this many bytes. */
  ghost predicate Scannable(file: ReadOnlyFile, headers: seq<ProgramHeader>, limits: ElfLimits, room: int) {
    SizeOf(OfKind(headers, PT_INTERP)) <= room && exists scan :: ScanIs(file, headers, limits, scan)
  }

  lemma NamedOnce(file: ReadOnlyFile, h: ProgramHeader, limits: ElfLimits, one: string, other: string)
    requires Names(file, h, limits, one) && Names(file, h, limits, other)
    ensures one == other
  {
    hide IsName, EscapeBytes, Contents;
    var a :| IsName(Contents(file.content, h), 0, a) && one == EscapeBytes(a);
    var b :| IsName(Contents(file.content, h), 0, b) && other == EscapeBytes(b);
    NameUnique(Contents(file.content, h), 0, a, b);
  }

  lemma OfKindMore(headers: seq<ProgramHeader>, n: nat)
    requires n < |headers|
    ensures forall kind :: OfKind(headers[..n + 1], kind) ==
              if headers[n].kind == kind then OfKind(headers[..n], kind) + [headers[n]] else OfKind(headers[..n], kind)
  {
    assert headers[..n + 1][..n] == headers[..n];
  }

  lemma {:induction false} OfKindPrefix(headers: seq<ProgramHeader>, n: nat, kind: nat)
    requires n <= |headers|
    ensures OfKind(headers[..n], kind) <= OfKind(headers, kind)
    decreases |headers| - n
  {
    if n == |headers| {
      assert headers[..n] == headers;
    } else {
      OfKindPrefix(headers, n + 1, kind);
      OfKindMore(headers, n);
    }
  }

  lemma {:induction false} SizeOfPrefix(segments: seq<ProgramHeader>, n: nat)
    requires n <= |segments|
    ensures SizeOf(segments[..n]) <= SizeOf(segments)
    decreases |segments| - n
  {
    if n == |segments| {
      assert segments[..n] == segments;
    } else {
      SizeOfPrefix(segments, n + 1);
      assert segments[..n + 1][..n] == segments[..n];
    }
  }

  method ReadInterpreter(reader: Reader, h: ProgramHeader, limits: ElfLimits) returns (r: Result<string>)
    requires reader.Valid() && reader.Clean()
    modifies reader
    ensures reader.Valid() && reader.Thrifty() && (r.Ok? ==> reader.Clean())
    ensures r.Ok? ==> Names(reader.file, h, limits, r.value) && reader.bytesRead == old(reader.bytesRead) + h.fileSize
    ensures Undisturbed(old(reader.turns)) ==>
              Undisturbed(reader.turns) &&
              (old(reader.bytesRead) + h.fileSize <= reader.metadataLimit && (exists name :: Names(reader.file, h, limits, name)) ==> r.Ok?)
  {
    hide Slice, Undisturbed, IsName, EscapeBytes, Fetched, Readable, ReadOnlyFile.ReadLimit;
    if h.fileSize == 0 || h.fileSize > limits.maxInterpreterBytes {
      return Err(MetadataTooLarge);
    }
    var bytes := reader.Read(h.offset, h.fileSize);
    if bytes.Err? {
      return Err(bytes.code);
    }
    var name := FindName(bytes.value, 0, |bytes.value|);
    if name.None? {
      NoNameAtAll(bytes.value);
      return Err(InvalidFormat);
    }
    r := Ok(EscapeBytes(name.value));
  }

  lemma NoNameAtAll(table: seq<Byte>)
    requires !HasName(table, 0, |table|)
    ensures forall name :: !IsName(table, 0, name)
  {
  }

  /** The loop over the segments: at most one interpreter and one dynamic segment, and all notes. */
  method ScanSegments(reader: Reader, headers: seq<ProgramHeader>, limits: ElfLimits) returns (r: Result<Scan>)
    requires reader.Valid() && reader.Clean()
    modifies reader
    ensures reader.Valid() && reader.Thrifty() && (r.Ok? ==> reader.Clean())
    ensures r.Ok? ==> ScanIs(reader.file, headers, limits, r.value) &&
                      reader.bytesRead == old(reader.bytesRead) + SizeOf(OfKind(headers, PT_INTERP))
    ensures Undisturbed(old(reader.turns)) ==>
              Undisturbed(reader.turns) &&
              (Scannable(reader.file, headers, limits, reader.metadataLimit - old(reader.bytesRead)) ==> r.Ok?)
  {
    hide InterpreterIs, OfKind, Undisturbed, Slice, Fetched, SizeOf;
    var scan := Scan(None, None, []);
    NoSegments(reader.file, limits);
    var i := 0;
    while i < |headers|
      invariant 0 <= i <= |headers| && reader.Valid() && reader.Clean() && ScanIs(reader.file, headers[..i], limits, scan)
      invariant reader.bytesRead == old(reader.bytesRead) + SizeOf(OfKind(headers[..i], PT_INTERP))
      invariant Undisturbed(old(reader.turns)) ==> Undisturbed(reader.turns)
    {
      var h := headers[i];
      OfKindMore(headers, i);
      OfKindPrefix(headers, i + 1, PT_DYNAMIC);
      var stopped := reader.CheckOperation();
      if stopped.Some? {
        return Err(stopped.value);
      }
      if h.kind == PT_INTERP {
        OnlyInterpreter(reader.file, headers, i, limits, scan);
        if scan.interpreter.Some? {
          return Err(UnsupportedFeature);
        }
        var interpreter := ReadInterpreter(reader, h, limits);
        if interpreter.Err? {
          return Err(interpreter.code);
        }
        OneNamed(reader.file, h, limits, interpreter.value);
        scan := scan.(interpreter := Some(interpreter.value));
      }
      if h.kind == PT_DYNAMIC {
        if scan.dynamic.Some? {
          return Err(UnsupportedFeature);
        }
        scan := scan.(dynamic := Some(h));
      }
      if h.kind == PT_NOTE {
        scan := scan.(notes := scan.notes + [h]);
      }
      i := i + 1;
    }
    assert headers[..i] == headers;
    r := Ok(scan);
  }

  // If the whole file has a scan, the first interpreter segment is the only one and has a name.
  lemma OnlyInterpreter(file: ReadOnlyFile, headers: seq<ProgramHeader>, i: nat, limits: ElfLimits, scan: Scan)
    requires i < |headers| && headers[i].kind == PT_INTERP && InterpreterIs(file, OfKind(headers[..i], PT_INTERP), limits, scan.interpreter)
    ensures scan.interpreter.None? ==>
              OfKind(headers[..i], PT_INTERP) == [] && SizeOf(OfKind(headers[..i], PT_INTERP)) == 0 &&
              OfKind(headers[..i + 1], PT_INTERP) == [headers[i]] && headers[i].fileSize <= SizeOf(OfKind(headers, PT_INTERP))
    ensures (exists all :: ScanIs(file, headers, limits, all)) ==> scan.interpreter.None? && exists name :: Names(file, headers[i], limits, name)
  {
    hide Names, OfKind;
    OfKindMore(headers, i);
    OfKindPrefix(headers, i + 1, PT_INTERP);
    var before, all := OfKind(headers[..i], PT_INTERP), OfKind(headers, PT_INTERP);
    if scan.interpreter.None? {
      SizeOfPrefix(all, 1);
      SizeOfOne(headers[i]);
      assert all[..1] == [headers[i]];
    }
  }

  lemma SizeOfOne(h: ProgramHeader)
    ensures SizeOf([h]) == h.fileSize && SizeOf([]) == 0
  {
    assert [h][..0] == [];
  }

  lemma OneNamed(file: ReadOnlyFile, h: ProgramHeader, limits: ElfLimits, interpreter: string)
    requires Names(file, h, limits, interpreter)
    ensures InterpreterIs(file, [h], limits, Some(interpreter)) && SizeOf([h]) == h.fileSize
  {
    SizeOfOne(h);
  }

  lemma NoSegments(file: ReadOnlyFile, limits: ElfLimits)
    ensures (forall kind :: OfKind([], kind) == []) && InterpreterIs(file, [], limits, None) && SizeOf([]) == 0
  {
  }

  // ---------- Notes ----------

  /** The notes of each segment; a segment without file content has none. */
  ghost predicate AreNotes(file: ReadOnlyFile, little: bool, segments: seq<ProgramHeader>, notes: seq<seq<Note>>) {
    |notes| == |segments| &&
    forall i :: 0 <= i < |segments| ==>
      IsNotes(Contents(file.content, segments[i]), little, notes[i]) &&
      (segments[i].fileSize > 0 ==> Readable(file, segments[i].offset, segments[i].fileSize))
  }

  function Flat(notes: seq<seq<Note>>): seq<Note> {
    if notes == [] then [] else Flat(notes[..|notes| - 1]) + notes[|notes| - 1]
  }

  /** The first build id of all note segments, in file order; it and the notes keep to their limits. */
  ghost predicate BuildIdIs(file: ReadOnlyFile, little: bool, segments: seq<ProgramHeader>, limits: ElfLimits, buildId: Option<string>) {
    SizeOf(segments) <= limits.maxNoteBytes &&
    exists notes :: AreNotes(file, little, segments, notes) && Fitting(None, Flat(notes), limits.maxBuildIdBytes) &&
                    buildId == FirstBuildId(None, Flat(notes))
  }

  lemma NotesAgree(file: ReadOnlyFile, little: bool, segments: seq<ProgramHeader>, some: seq<seq<Note>>, all: seq<seq<Note>>)
    requires |some| <= |segments| && AreNotes(file, little, segments[..|some|], some) && AreNotes(file, little, segments, all)
    ensures some == all[..|some|]
  {
    hide IsNotes, Contents, Readable;
    forall i | 0 <= i < |some| ensures some[i] == all[i] {
      assert segments[..|some|][i] == segments[i];
      NotesUnique(Contents(file.content, segments[i]), little, some[i], all[i]);
    }
  }

  lemma {:induction false} FirstBuildIdJoins(found: Option<string>, before: seq<Note>, notes: seq<Note>)
    ensures FirstBuildId(found, before + notes) == FirstBuildId(FirstBuildId(found, before), notes)
  {
    hide IsBuildId, HexBytes;
    if notes == [] {
      assert before + notes == before;
    } else {
      FirstBuildIdJoins(found, before, notes[..|notes| - 1]);
      assert (before + notes)[..|before + notes| - 1] == before + notes[..|notes| - 1];
    }
  }

  lemma FittingJoins(before: seq<Note>, notes: seq<Note>, limit: nat)
    requires Fitting(None, before, limit) && Fitting(FirstBuildId(None, before), notes, limit)
    ensures Fitting(None, before + notes, limit)
  {
    hide FirstBuildId, IsBuildId;
    var all := before + notes;
    forall k | 0 <= k < |all| && IsBuildId(all[k]) && FirstBuildId(None, all[..k]).None? ensures |all[k].description| <= limit {
      if k < |before| {
        assert all[..k] == before[..k];
      } else {
        assert all[..k] == before + notes[..k - |before|];
        FirstBuildIdJoins(None, before, notes[..k - |before|]);
      }
    }
  }

  lemma EmptySegment(file: ReadOnlyFile, little: bool, h: ProgramHeader)
    requires h.fileSize == 0
    ensures IsNotes(Contents(file.content, h), little, [])
  {
    assert Contents(file.content, h) == [];
    assert Tiles([], little, [0], []);
  }

  lemma FlatMore(notes: seq<seq<Note>>, more: seq<Note>)
    ensures Flat(notes + [more]) == Flat(notes) + more
  {
    assert (notes + [more])[..|notes|] == notes;
  }

  lemma {:induction false} FlatPrefix(all: seq<seq<Note>>, n: nat)
    requires n <= |all|
    ensures Flat(all[..n]) <= Flat(all)
    decreases |all| - n
  {
    if n == |all| {
      assert all[..n] == all;
    } else {
      FlatPrefix(all, n + 1);
      assert all[..n + 1] == all[..n] + [all[n]];
      FlatMore(all[..n], all[n]);
    }
  }

  // A build id that is too long where the walk stopped is too long in the whole file.
  lemma NotFitting(all: seq<seq<Note>>, i: nat, seen: seq<Note>, limit: nat)
    requires i < |all| && seen != [] && seen <= all[i]
    requires FirstBuildId(FirstBuildId(None, Flat(all[..i])), seen[..|seen| - 1]).None?
    requires IsBuildId(seen[|seen| - 1]) && |seen[|seen| - 1].description| > limit
    ensures !Fitting(None, Flat(all), limit)
  {
    hide FirstBuildId, IsBuildId, Flat;
    var flat, before := Flat(all), Flat(all[..i]);
    FlatPrefix(all, i + 1);
    assert all[..i + 1] == all[..i] + [all[i]];
    FlatMore(all[..i], all[i]);
    SeenIn(flat, before, all[i], seen);
    FirstBuildIdJoins(None, before, seen[..|seen| - 1]);
  }

  lemma SeenIn(flat: seq<Note>, before: seq<Note>, notes: seq<Note>, seen: seq<Note>)
    requires before + notes <= flat && seen <= notes && seen != []
    ensures var k := |before| + |seen| - 1; k < |flat| && flat[k] == seen[|seen| - 1] && flat[..k] == before + seen[..|seen| - 1]
  {
    var k := |before| + |seen| - 1;
    assert forall i :: 0 <= i < |before + notes| ==> flat[i] == (before + notes)[i];
    assert forall i :: 0 <= i < |seen| ==> notes[i] == seen[i];
  }

  /** The notes can be parsed within this many bytes. */
  ghost predicate Parseable(file: ReadOnlyFile, little: bool, segments: seq<ProgramHeader>, limits: ElfLimits, room: int) {
    SizeOf(segments) <= room && exists buildId :: BuildIdIs(file, little, segments, limits, buildId)
  }

  /** One note segment of parse_notes. */
  method ParseSegment(reader: Reader, h: ProgramHeader, little: bool, limits: ElfLimits, found: Option<string>)
      returns (r: Result<Option<string>>, ghost notes: seq<Note>)
    requires reader.Valid() && reader.Clean() && h.fileSize > 0
    modifies reader
    ensures reader.Valid() && reader.Thrifty() && (r.Ok? ==> reader.Clean())
    ensures r.Ok? ==> Readable(reader.file, h.offset, h.fileSize) && reader.bytesRead == old(reader.bytesRead) + h.fileSize
    ensures r.Ok? ==> IsNotes(Contents(reader.file.content, h), little, notes) && Fitting(found, notes, limits.maxBuildIdBytes) &&
                      r.value == FirstBuildId(found, notes)
    ensures Undisturbed(old(reader.turns)) ==> Undisturbed(reader.turns)
    ensures Undisturbed(old(reader.turns)) && Readable(reader.file, h.offset, h.fileSize) && r.Err? ==>
              || old(reader.bytesRead) + h.fileSize > reader.metadataLimit
              || (!exists all :: IsNotes(Contents(reader.file.content, h), little, all))
              || (notes != [] && FirstBuildId(found, notes[..|notes| - 1]).None? && IsBuildId(notes[|notes| - 1]) &&
                  |notes[|notes| - 1].description| > limits.maxBuildIdBytes &&
                  forall all :: IsNotes(Contents(reader.file.content, h), little, all) ==> notes <= all)
  {
    hide Slice, Undisturbed, IsNotes, FirstBuildId, Fitting, IsBuildId, Fetched, Readable;
    notes := [];
    var bytes := reader.Read(h.offset, h.fileSize);
    if bytes.Err? {
      return Err(bytes.code), notes;
    }
    r, notes := WalkNotes(bytes.value, little, limits.maxBuildIdBytes, found);
  }

  /** parse_notes. */
  method ParseNotes(reader: Reader, segments: seq<ProgramHeader>, little: bool, limits: ElfLimits) returns (r: Result<Option<string>>)
    requires reader.Valid() && reader.Clean()
    requires forall i :: 0 <= i < |segments| ==> segments[i].kind == PT_NOTE
    modifies reader
    ensures reader.Valid() && reader.Thrifty() && (r.Ok? ==> reader.Clean())
    ensures r.Ok? ==> BuildIdIs(reader.file, little, segments, limits, r.value) && reader.bytesRead == old(reader.bytesRead) + SizeOf(segments)
    ensures Undisturbed(old(reader.turns)) ==>
              Undisturbed(reader.turns) &&
              (Parseable(reader.file, little, segments, limits, reader.metadataLimit - old(reader.bytesRead)) ==> r.Ok?)
  {
    hide Slice, Undisturbed, IsNotes, FirstBuildId, Flat, Contents, Fitting, Fetched, SizeOf, Readable, IsBuildId;
    var noteBytes, buildId := 0, None;
    ghost var notes: seq<seq<Note>> := [];
    NothingFound(limits.maxBuildIdBytes);
    var i := 0;
    while i < |segments|
      invariant 0 <= i <= |segments| && |notes| == i && reader.Valid() && reader.Clean()
      invariant noteBytes == SizeOf(segments[..i]) <= limits.maxNoteBytes && reader.bytesRead == old(reader.bytesRead) + noteBytes
      invariant AreNotes(reader.file, little, segments[..i], notes)
      invariant Fitting(None, Flat(notes), limits.maxBuildIdBytes) && buildId == FirstBuildId(None, Flat(notes))
      invariant Undisturbed(old(reader.turns)) ==> Undisturbed(reader.turns)
    {
      var h := segments[i];
      ghost var more: seq<Note> := [];
      SizeOfMore(segments, i);
      if h.fileSize == 0 {
        EmptySegment(reader.file, little, h);
        NoteNothing(buildId, limits.maxBuildIdBytes);
      } else {
        if h.fileSize > limits.maxNoteBytes - noteBytes {
          return Err(MetadataTooLarge);
        }
        noteBytes := noteBytes + h.fileSize;
        var found := buildId;
        var walked, seen := ParseSegment(reader, h, little, limits, found);
        if walked.Err? {
          if Undisturbed(old(reader.turns)) && old(reader.bytesRead) + noteBytes <= reader.metadataLimit {
            SegmentFails(reader.file, little, segments, limits, notes, found, seen);
          }
          return Err(walked.code);
        }
        buildId, more := walked.value, seen;
      }
      FirstBuildIdJoins(None, Flat(notes), more);
      FittingJoins(Flat(notes), more, limits.maxBuildIdBytes);
      FlatMore(notes, more);
      assert segments[..i + 1] == segments[..i] + [h];
      notes := notes + [more];
      i := i + 1;
    }
    assert segments[..i] == segments;
    r := Ok(buildId);
  }

  // A segment of a file whose notes can be parsed is readable, and its walk ends well.
  lemma SegmentFails(file: ReadOnlyFile, little: bool, segments: seq<ProgramHeader>, limits: ElfLimits, notes: seq<seq<Note>>,
                     found: Option<string>, seen: seq<Note>)
    requires |notes| < |segments| && AreNotes(file, little, segments[..|notes|], notes) && found == FirstBuildId(None, Flat(notes))
    requires segments[|notes|].fileSize > 0
    requires var h := segments[|notes|];
             || !Readable(file, h.offset, h.fileSize)
             || (!exists all :: IsNotes(Contents(file.content, h), little, all))
             || (seen != [] && FirstBuildId(found, seen[..|seen| - 1]).None? && IsBuildId(seen[|seen| - 1]) &&
                 |seen[|seen| - 1].description| > limits.maxBuildIdBytes &&
                 forall all :: IsNotes(Contents(file.content, h), little, all) ==> seen <= all)
    ensures forall buildId :: !BuildIdIs(file, little, segments, limits, buildId)
  {
    hide IsNotes, FirstBuildId, Flat, Contents, Fitting, SizeOf, Readable, IsBuildId;
    var n := |notes|;
    forall all | AreNotes(file, little, segments, all) ensures !Fitting(None, Flat(all), limits.maxBuildIdBytes) {
      NotesAgree(file, little, segments, notes, all);
      assert IsNotes(Contents(file.content, segments[n]), little, all[n]);
      NotFitting(all, n, seen, limits.maxBuildIdBytes);
    }
  }

  lemma SizeOfMore(segments: seq<ProgramHeader>, n: nat)
    requires n < |segments|
    ensures SizeOf(segments[..n + 1]) == SizeOf(segments[..n]) + segments[n].fileSize <= SizeOf(segments)
  {
    assert segments[..n + 1][..n] == segments[..n];
    SizeOfPrefix(segments, n + 1);
  }

  lemma NothingFound(limit: nat)
    ensures FirstBuildId(None, Flat([])) == None && Fitting(None, Flat([]), limit) && SizeOf([]) == 0
  {
  }

  lemma NoteNothing(found: Option<string>, limit: nat)
    ensures FirstBuildId(found, []) == found && Fitting(found, [], limit)
  {
  }

  // ---------- Needed libraries ----------

  /** The first segment that holds the range. */
  ghost predicate FirstBacking(headers: seq<ProgramHeader>, i: int, address: U64, size: U64) {
    0 <= i < |headers| && Backs(headers[i], address, size) && forall j :: 0 <= j < i ==> !Backs(headers[j], address, size)
  }

  lemma FirstIsUnique(headers: seq<ProgramHeader>, i: int, address: U64, size: U64)
    requires FirstBacking(headers, i, address, size)
    ensures forall j :: FirstBacking(headers, j, address, size) ==> j == i
  {
    hide Backs;
  }

  /** The place in the file of an address in the segment. */
  function PlaceOf(h: ProgramHeader, address: U64): nat {
    if address < h.address then 0 else h.offset + (address - h.address)
  }

  /** The libraries are exactly the names at the needed offsets of the table at `place`. */
  ghost predicate TableIs(file: ReadOnlyFile, limits: ElfLimits, place: nat, size: nat, needed: seq<U64>, libraries: seq<string>, truncated: bool) {
    Readable(file, place, size) && AreNamed(Slice(file.content, place, size), needed, limits.maxLibraryNameBytes, libraries) &&
    |libraries| == Min(|needed|, limits.maxNeededLibraries) && (truncated <==> |needed| > limits.maxNeededLibraries)
  }

  /** The string table lies wholly in the file's part of one load segment and in the approved range;
      `cost` is how much of it is read. */
  ghost predicate TableNames(file: ReadOnlyFile, limits: ElfLimits, headers: seq<ProgramHeader>, info: DynamicInfo,
                             libraries: seq<string>, truncated: bool, cost: nat) {
    if info.needed == [] then libraries == [] && !truncated && cost == 0
    else
      info.tableAddress.Some? && info.tableSize.Some? && info.tableSize.value <= limits.maxDynamicStringBytes && cost == info.tableSize.value &&
      exists i :: FirstBacking(headers, i, info.tableAddress.value, info.tableSize.value) &&
        TableIs(file, limits, PlaceOf(headers[i], info.tableAddress.value), info.tableSize.value, info.needed, libraries, truncated)
  }

  function InfoOf(entries: seq<Dynamic>): DynamicInfo {
    DynamicInfo(LastValue(entries, DT_STRTAB), LastValue(entries, DT_STRSZ), Values(entries, DT_NEEDED))
  }

  predicate DynamicOk(file: ReadOnlyFile, f: Format, limits: ElfLimits, d: ProgramHeader) {
    d.fileSize % EntrySize(f) == 0 && d.fileSize / EntrySize(f) <= limits.maxDynamicEntries && Readable(file, d.offset, d.fileSize)
  }

  ghost predicate LibrariesAre(file: ReadOnlyFile, limits: ElfLimits, f: Format, headers: seq<ProgramHeader>,
                               libraries: seq<string>, truncated: bool, cost: nat) {
    var dynamic := OfKind(headers, PT_DYNAMIC);
    |dynamic| <= 1 &&
    if dynamic == [] || dynamic[0].fileSize == 0 then libraries == [] && !truncated && cost == 0
    else
      DynamicOk(file, f, limits, dynamic[0]) && cost >= dynamic[0].fileSize &&
      exists entries :: IsTable(Contents(file.content, dynamic[0]), f, entries) &&
                        TableNames(file, limits, headers, InfoOf(entries), libraries, truncated, cost - dynamic[0].fileSize)
  }

  lemma TableNamesUnique(file: ReadOnlyFile, limits: ElfLimits, headers: seq<ProgramHeader>, info: DynamicInfo,
                         libraries: seq<string>, truncated: bool, cost: nat, libraries': seq<string>, truncated': bool, cost': nat)
    requires TableNames(file, limits, headers, info, libraries, truncated, cost)
    requires TableNames(file, limits, headers, info, libraries', truncated', cost')
    ensures libraries == libraries' && truncated == truncated' && cost == cost'
  {
    hide Backs, AreNamed, Slice, Readable, PlaceOf;
    if info.needed != [] {
      var address, size := info.tableAddress.value, info.tableSize.value;
      var i :| FirstBacking(headers, i, address, size) &&
               TableIs(file, limits, PlaceOf(headers[i], address), size, info.needed, libraries, truncated);
      var j :| FirstBacking(headers, j, address, size) &&
               TableIs(file, limits, PlaceOf(headers[j], address), size, info.needed, libraries', truncated');
      FirstIsUnique(headers, i, address, size);
      NamesUnique(Slice(file.content, PlaceOf(headers[i], address), size), info.needed, limits.maxLibraryNameBytes, libraries, libraries');
    }
  }

  lemma LibrariesUnique(file: ReadOnlyFile, limits: ElfLimits, f: Format, headers: seq<ProgramHeader>,
                        libraries: seq<string>, truncated: bool, cost: nat, libraries': seq<string>, truncated': bool, cost': nat)
    requires LibrariesAre(file, limits, f, headers, libraries, truncated, cost)
    requires LibrariesAre(file, limits, f, headers, libraries', truncated', cost')
    ensures libraries == libraries' && truncated == truncated' && cost == cost'
  {
    hide IsTable, TableNames, InfoOf, Contents, DynamicOk;
    var dynamic := OfKind(headers, PT_DYNAMIC);
    if dynamic != [] && dynamic[0].fileSize > 0 {
      var size, bytes := dynamic[0].fileSize, Contents(file.content, dynamic[0]);
      var one :| IsTable(bytes, f, one) && TableNames(file, limits, headers, InfoOf(one), libraries, truncated, cost - size);
      var other :| IsTable(bytes, f, other) && TableNames(file, limits, headers, InfoOf(other), libraries', truncated', cost' - size);
      TableUnique(bytes, f, one, other);
      TableNamesUnique(file, limits, headers, InfoOf(one), libraries, truncated, cost - size, libraries', truncated', cost' - size);
    }
  }

  lemma NoneBacks(headers: seq<ProgramHeader>, address: U64, size: U64)
    requires forall i :: 0 <= i < |headers| ==> !Backs(headers[i], address, size)
    ensures forall i :: !FirstBacking(headers, i, address, size)
  {
    hide Backs;
  }

  lemma BackedBy(headers: seq<ProgramHeader>, address: U64, size: U64, place: U64) returns (i: int)
    requires exists i :: 0 <= i < |headers| && Backs(headers[i], address, size) &&
                         place == headers[i].offset + (address - headers[i].address) &&
                         forall j :: 0 <= j < i ==> !Backs(headers[j], address, size)
    ensures FirstBacking(headers, i, address, size) && place == PlaceOf(headers[i], address)
  {
    i :| 0 <= i < |headers| && Backs(headers[i], address, size) && place == headers[i].offset + (address - headers[i].address) &&
         forall j :: 0 <= j < i ==> !Backs(headers[j], address, size);
  }

  /** The names can be read within this many bytes. */
  ghost predicate Nameable(file: ReadOnlyFile, limits: ElfLimits, headers: seq<ProgramHeader>, info: DynamicInfo, room: int) {
    exists libraries, truncated, cost: nat :: TableNames(file, limits, headers, info, libraries, truncated, cost) && cost <= room
  }

  method ReadNames(reader: Reader, headers: seq<ProgramHeader>, info: DynamicInfo, limits: ElfLimits) returns (r: Result<(seq<string>, bool)>)
    requires reader.Valid() && reader.Clean()
    modifies reader
    ensures reader.Valid() && reader.Thrifty() && (r.Ok? ==> reader.Clean())
    ensures r.Ok? ==> reader.bytesRead >= old(reader.bytesRead) &&
                      TableNames(reader.file, limits, headers, info, r.value.0, r.value.1, reader.bytesRead - old(reader.bytesRead))
    ensures Undisturbed(old(reader.turns)) ==>
              Undisturbed(reader.turns) &&
              (Nameable(reader.file, limits, headers, info, reader.metadataLimit - old(reader.bytesRead)) ==> r.Ok?)
  {
    hide Slice, Undisturbed, AreNamed, Fetched, Backs, HasName, Readable, ReadOnlyFile.ReadLimit, FirstBacking, PlaceOf;
    if info.needed == [] {
      return Ok(([], false));
    }
    if info.tableAddress.None? || info.tableSize.None? || info.tableSize.value > limits.maxDynamicStringBytes {
      return Err(MetadataTooLarge);
    }
    var address, size := info.tableAddress.value, info.tableSize.value;
    var place := VirtualToFile(headers, address, size);
    if place.None? {
      NoneBacks(headers, address, size);
      return Err(InvalidFormat);
    }
    ghost var i := BackedBy(headers, address, size, place.value);
    FirstIsUnique(headers, i, address, size);
    var strings := reader.Read(place.value, size);
    if strings.Err? {
      return Err(strings.code);
    }
    r := NameLibraries(reader, strings.value, info.needed, limits);
    if r.Err? {
      forall libraries, truncated ensures
          (r.code.Interrupted? || !TableIs(reader.file, limits, place.value, size, info.needed, libraries, truncated)) {
        if AreNamed(strings.value, info.needed, limits.maxLibraryNameBytes, libraries) {
          NamesExist(strings.value, info.needed, limits.maxLibraryNameBytes, libraries);
        }
      }
    }
  }

  /** The libraries can be read within this many bytes. */
  ghost predicate Listable(file: ReadOnlyFile, limits: ElfLimits, f: Format, headers: seq<ProgramHeader>, room: int) {
    exists libraries, truncated, cost: nat :: LibrariesAre(file, limits, f, headers, libraries, truncated, cost) && cost <= room
  }

  method ReadLibraries(reader: Reader, f: Format, headers: seq<ProgramHeader>, dynamic: Option<ProgramHeader>, limits: ElfLimits)
      returns (r: Result<(seq<string>, bool)>)
    requires reader.Valid() && reader.Clean() && AtMostOne(dynamic) == OfKind(headers, PT_DYNAMIC)
    modifies reader
    ensures reader.Valid() && reader.Thrifty() && (r.Ok? ==> reader.Clean())
    ensures r.Ok? ==> reader.bytesRead >= old(reader.bytesRead) &&
                      LibrariesAre(reader.file, limits, f, headers, r.value.0, r.value.1, reader.bytesRead - old(reader.bytesRead))
    ensures Undisturbed(old(reader.turns)) ==>
              Undisturbed(reader.turns) &&
              (Listable(reader.file, limits, f, headers, reader.metadataLimit - old(reader.bytesRead)) ==> r.Ok?)
  {
    hide Slice, Undisturbed, OfKind, IsTable, TableNames, Values, LastValue, Fetched, ReadOnlyFile.ReadLimit, Readable;
    if dynamic.None? || dynamic.value.fileSize == 0 {
      return Ok(([], false));
    }
    var d := dynamic.value;
    if d.fileSize % EntrySize(f) != 0 || d.fileSize / EntrySize(f) > limits.maxDynamicEntries {
      return Err(MetadataTooLarge);
    }
    var bytes := reader.Read(d.offset, d.fileSize);
    if bytes.Err? {
      return Err(bytes.code);
    }
    var info, entries := ReadDynamic(reader, bytes.value, f);
    if info.Err? {
      return Err(info.code);
    }
    forall other | IsTable(bytes.value, f, other) ensures other == entries {
      TableUnique(bytes.value, f, entries, other);
    }
    assert info.value == InfoOf(entries) && reader.bytesRead == old(reader.bytesRead) + d.fileSize;
    r := ReadNames(reader, headers, info.value, limits);
    if r.Ok? {
      assert TableNames(reader.file, limits, headers, InfoOf(entries), r.value.0, r.value.1,
                        reader.bytesRead - old(reader.bytesRead) - d.fileSize);
    }
  }

  // ---------- The inspection ----------

  datatype Inspection = Inspection(format: Format, header: FileHeader, headers: seq<ProgramHeader>, interpreter: Option<string>,
                                   libraries: seq<string>, librariesTruncated: bool, buildId: Option<string>, metadataBytesRead: nat)

  /** The bytes read for the headers. */
  function HeadCost(x: Inspection): nat {
    16 + HeaderBytes(x.format) + ProgramStart(x.format, x.header.count)
  }

  /** The inspection says of the file what its bytes say, and counts what must be read to know. */
  ghost predicate Describes(file: ReadOnlyFile, limits: ElfLimits, x: Inspection) {
    && Readable(file, 0, 16) && IdentifiesAs(Slice(file.content, 0, 16), x.format)
    && HeaderIs(file, x.format, limits, x.header)
    && AreHeaders(file, x.format, x.header, x.headers)
    && |OfKind(x.headers, PT_DYNAMIC)| <= 1
    && InterpreterIs(file, OfKind(x.headers, PT_INTERP), limits, x.interpreter)
    && BuildIdIs(file, x.format.little, OfKind(x.headers, PT_NOTE), limits, x.buildId)
    && var others := HeadCost(x) + SizeOf(OfKind(x.headers, PT_INTERP)) + SizeOf(OfKind(x.headers, PT_NOTE));
       x.metadataBytesRead >= others &&
       LibrariesAre(file, limits, x.format, x.headers, x.libraries, x.librariesTruncated, x.metadataBytesRead - others)
  }

  lemma {:induction false} OfKindIs(headers: seq<ProgramHeader>, kind: nat)
    ensures forall i :: 0 <= i < |OfKind(headers, kind)| ==> OfKind(headers, kind)[i].kind == kind
  {
    if headers != [] {
      OfKindIs(headers[..|headers| - 1], kind);
    }
  }

  lemma InterpreterUnique(file: ReadOnlyFile, segments: seq<ProgramHeader>, limits: ElfLimits, one: Option<string>, other: Option<string>)
    requires InterpreterIs(file, segments, limits, one) && InterpreterIs(file, segments, limits, other)
    ensures one == other
  {
    hide Names;
    if one.Some? {
      NamedOnce(file, segments[0], limits, one.value, other.value);
    }
  }

  lemma BuildIdUnique(file: ReadOnlyFile, little: bool, segments: seq<ProgramHeader>, limits: ElfLimits, one: Option<string>, other: Option<string>)
    requires BuildIdIs(file, little, segments, limits, one) && BuildIdIs(file, little, segments, limits, other)
    ensures one == other
  {
    hide Fitting, FirstBuildId, Flat, AreNotes, SizeOf;
    var a :| AreNotes(file, little, segments, a) && one == FirstBuildId(None, Flat(a));
    var b :| AreNotes(file, little, segments, b) && other == FirstBuildId(None, Flat(b));
    assert segments[..|segments|] == segments;
    assert |a| == |segments| == |b| by { NotesCount(file, little, segments, a); NotesCount(file, little, segments, b); }
    NotesAgree(file, little, segments, a, b);
    assert b[..|a|] == b;
  }

  lemma NotesCount(file: ReadOnlyFile, little: bool, segments: seq<ProgramHeader>, notes: seq<seq<Note>>)
    requires AreNotes(file, little, segments, notes)
    ensures |notes| == |segments|
  {
  }

  /** There is one description of a file. */
  lemma DescriptionUnique(file: ReadOnlyFile, limits: ElfLimits, x: Inspection, y: Inspection)
    requires Describes(file, limits, x) && Describes(file, limits, y)
    ensures x == y
  {
    hide IdentifiesAs, HeaderOk, AreHeaders, InterpreterIs, BuildIdIs, LibrariesAre, OfKind, SizeOf, Slice, Readable, ParseFileHeader;
    FormatUnique(Slice(file.content, 0, 16), x.format, y.format);
    HeadersUnique(file, x.format, x.header, x.headers, y.headers);
    InterpreterUnique(file, OfKind(x.headers, PT_INTERP), limits, x.interpreter, y.interpreter);
    BuildIdUnique(file, x.format.little, OfKind(x.headers, PT_NOTE), limits, x.buildId, y.buildId);
    var others := HeadCost(x) + SizeOf(OfKind(x.headers, PT_INTERP)) + SizeOf(OfKind(x.headers, PT_NOTE));
    LibrariesUnique(file, limits, x.format, x.headers, x.libraries, x.librariesTruncated, x.metadataBytesRead - others,
                    y.libraries, y.librariesTruncated, y.metadataBytesRead - others);
  }

  // ---------- A file that has a description can be inspected ----------

  ghost predicate Affordable(file: ReadOnlyFile, limits: ElfLimits, x: Inspection) {
    Describes(file, limits, x) && x.metadataBytesRead <= limits.maxMetadataBytes
  }

  lemma CanIdentify(file: ReadOnlyFile, limits: ElfLimits, x: Inspection)
    requires Affordable(file, limits, x)
    ensures Readable(file, 0, 16) && IdentifiesAs(Slice(file.content, 0, 16), x.format)
    ensures HeadCost(x) + SizeOf(OfKind(x.headers, PT_INTERP)) + SizeOf(OfKind(x.headers, PT_NOTE)) <= limits.maxMetadataBytes
  {
    hide IdentifiesAs, HeaderIs, AreHeaders, InterpreterIs, BuildIdIs, LibrariesAre, OfKind, SizeOf, Slice, Readable, HeadCost;
  }

  lemma CanReadHeader(file: ReadOnlyFile, limits: ElfLimits, x: Inspection, f: Format)
    requires Affordable(file, limits, x) && IdentifiesAs(Slice(file.content, 0, 16), f)
    ensures f == x.format && HeaderIs(file, f, limits, x.header) && forall h :: HeaderIs(file, f, limits, h) ==> h == x.header
    ensures AreHeaders(file, f, x.header, x.headers)
  {
    hide IdentifiesAs, AreHeaders, InterpreterIs, BuildIdIs, LibrariesAre, OfKind, SizeOf, Slice, Readable, ParseFileHeader, HeaderOk;
    FormatUnique(Slice(file.content, 0, 16), f, x.format);
  }

  lemma CanScan(file: ReadOnlyFile, limits: ElfLimits, x: Inspection, headers: seq<ProgramHeader>)
    requires Affordable(file, limits, x) && AreHeaders(file, x.format, x.header, headers)
    ensures headers == x.headers && Scannable(file, headers, limits, limits.maxMetadataBytes - HeadCost(x))
  {
    hide IdentifiesAs, HeaderIs, AreHeaders, InterpreterIs, BuildIdIs, LibrariesAre, OfKind, SizeOf, Slice, Readable, HeadCost;
    HeadersUnique(file, x.format, x.header, headers, x.headers);
    var dynamic := OfKind(headers, PT_DYNAMIC);
    var scan := Scan(x.interpreter, if dynamic == [] then None else Some(dynamic[0]), OfKind(headers, PT_NOTE));
    assert ScanIs(file, headers, limits, scan);
  }

  lemma CanList(file: ReadOnlyFile, limits: ElfLimits, x: Inspection)
    requires Affordable(file, limits, x)
    ensures Listable(file, limits, x.format, x.headers, limits.maxMetadataBytes - HeadCost(x) - SizeOf(OfKind(x.headers, PT_INTERP)))
  {
    hide IdentifiesAs, HeaderIs, AreHeaders, InterpreterIs, BuildIdIs, LibrariesAre, OfKind, SizeOf, Slice, Readable, HeadCost;
  }

  lemma CanParse(file: ReadOnlyFile, limits: ElfLimits, x: Inspection, libraries: seq<string>, truncated: bool, cost: nat)
    requires Affordable(file, limits, x) && LibrariesAre(file, limits, x.format, x.headers, libraries, truncated, cost)
    ensures Parseable(file, x.format.little, OfKind(x.headers, PT_NOTE), limits,
                      limits.maxMetadataBytes - HeadCost(x) - SizeOf(OfKind(x.headers, PT_INTERP)) - cost)
  {
    hide IdentifiesAs, HeaderIs, AreHeaders, InterpreterIs, BuildIdIs, LibrariesAre, OfKind, SizeOf, Slice, Readable, HeadCost;
    var others := HeadCost(x) + SizeOf(OfKind(x.headers, PT_INTERP)) + SizeOf(OfKind(x.headers, PT_NOTE));
    LibrariesUnique(file, limits, x.format, x.headers, x.libraries, x.librariesTruncated, x.metadataBytesRead - others,
                    libraries, truncated, cost);
  }

  /** The headers of the file, format first. */
  method ReadHead(reader: Reader, limits: ElfLimits, ghost x: Option<Inspection>) returns (r: Result<(Format, FileHeader, seq<ProgramHeader>)>)
    requires reader.Valid() && reader.Clean() && reader.FileLimit() <= U64_MAX && reader.bytesRead == 0
    requires reader.metadataLimit == limits.maxMetadataBytes && (x.Some? ==> Affordable(reader.file, limits, x.value))
    modifies reader
    ensures reader.Valid() && reader.Thrifty() && (r.Ok? ==> reader.Clean())
    ensures r.Ok? ==> Readable(reader.file, 0, 16) && IdentifiesAs(Slice(reader.file.content, 0, 16), r.value.0) &&
                      HeaderIs(reader.file, r.value.0, limits, r.value.1) && AreHeaders(reader.file, r.value.0, r.value.1, r.value.2)
    ensures r.Ok? ==> reader.bytesRead == 16 + HeaderBytes(r.value.0) + ProgramStart(r.value.0, r.value.1.count)
    ensures Undisturbed(old(reader.turns)) ==> Undisturbed(reader.turns) && (x.Some? ==> r.Ok? && r.value.0 == x.value.format && r.value.1 == x.value.header)
  {
    hide Slice, Undisturbed, OfKind, SizeOf, Fetched, IdentifiesAs, AreHeaders, ReadOnlyFile.ReadLimit, Affordable, Readable;
    if x.Some? {
      CanIdentify(reader.file, limits, x.value);
    }
    var format := ReadIdentification(reader);
    if format.Err? {
      return Err(format.code);
    }
    var f := format.value;
    if x.Some? {
      CanReadHeader(reader.file, limits, x.value, f);
    }
    var header := ReadHeader(reader, f, limits);
    if header.Err? {
      return Err(header.code);
    }
    var headers := ReadProgramHeaders(reader, f, header.value, limits);
    if headers.Err? {
      return Err(headers.code);
    }
    r := Ok((f, header.value, headers.value));
  }

  /** inspect, after its first check of the operation. */
  method InspectWith(reader: Reader, limits: ElfLimits, ghost x: Option<Inspection>) returns (r: Result<Inspection>)
    requires reader.Valid() && reader.Clean() && reader.FileLimit() <= U64_MAX && reader.bytesRead == 0
    requires reader.metadataLimit == limits.maxMetadataBytes && (x.Some? ==> Affordable(reader.file, limits, x.value))
    modifies reader
    ensures reader.Valid() && reader.Thrifty()
    ensures r.Ok? ==> Describes(reader.file, limits, r.value) && reader.Clean() && r.value.metadataBytesRead == reader.bytesRead
    ensures Undisturbed(old(reader.turns)) && x.Some? ==> r.Ok?
  {
    hide Slice, Undisturbed, OfKind, SizeOf, Fetched, IdentifiesAs, HeaderIs, AreHeaders, InterpreterIs, LibrariesAre, BuildIdIs,
         ReadOnlyFile.ReadLimit, Affordable, Readable, Scannable, Listable, Parseable;
    var head := ReadHead(reader, limits, x);
    if head.Err? {
      return Err(head.code);
    }
    var f, header, headers := head.value.0, head.value.1, head.value.2;
    if x.Some? && f == x.value.format && header == x.value.header {
      CanScan(reader.file, limits, x.value, headers);
      CanList(reader.file, limits, x.value);
    }
    var scan := ScanSegments(reader, headers, limits);
    if scan.Err? {
      return Err(scan.code);
    }
    ghost var before := reader.bytesRead;
    var libraries := ReadLibraries(reader, f, headers, scan.value.dynamic, limits);
    if libraries.Err? {
      return Err(libraries.code);
    }
    if x.Some? && f == x.value.format && header == x.value.header {
      CanParse(reader.file, limits, x.value, libraries.value.0, libraries.value.1, reader.bytesRead - before);
    }
    OfKindIs(headers, PT_NOTE);
    var buildId := ParseNotes(reader, scan.value.notes, f.little, limits);
    if buildId.Err? {
      return Err(buildId.code);
    }
    r := Ok(Inspection(f, header, headers, scan.value.interpreter, libraries.value.0, libraries.value.1, buildId.value, reader.bytesRead));
  }

  /** Whatever the bytes, the limits and the disturbances: every pread, successful or not, asks for a
      range in the approved part of the file, all bytes fetched together keep to the budget, and what
      is reported is what the file says. Undisturbed, it succeeds exactly on the files that have a
      description, one that costs no more than the budget. */
  method Inspect(file: ReadOnlyFile, limits: ElfLimits, turns: seq<Turn>) returns (r: Result<Inspection>, ghost asked: seq<Request>)
    requires file.ReadLimit() <= U64_MAX
    ensures Fetched(asked) <= limits.maxMetadataBytes
    ensures forall i :: 0 <= i < |asked| ==> asked[i].offset + asked[i].size <= file.ReadLimit()
    ensures r.Ok? ==> Describes(file, limits, r.value) && r.value.metadataBytesRead == Fetched(asked)
    ensures Undisturbed(turns) ==> (r.Ok? <==> exists x :: Affordable(file, limits, x))
  {
    hide Describes, Fetched, ReadOnlyFile.ReadLimit, Undisturbed;
    var reader := new Reader(file, limits.maxMetadataBytes, turns);
    var stopped := reader.CheckOperation();
    if stopped.Some? {
      return Err(stopped.value), reader.asked;
    }
    ghost var x: Option<Inspection> := None;
    if any :| Affordable(file, limits, any) {
      x := Some(any);
    }
    r := InspectWith(reader, limits, x);
    assert r.Ok? ==> Affordable(file, limits, r.value);
    asked := reader.asked;
  }
}
