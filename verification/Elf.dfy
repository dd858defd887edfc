/** The tables of an ELF file: names, load segments and the dynamic table. */
module Elf {
  import opened Numbers
  import opened Options
  import opened Bytes
  import opened LogModel
  import opened ElfReader

  const PT_LOAD := 1
  const PT_DYNAMIC := 2
  const PT_INTERP := 3
  const PT_NOTE := 4
  const PN_XNUM := 0xFFFF
  const DT_NULL := 0
  const DT_NEEDED := 1
  const DT_STRTAB := 5
  const DT_STRSZ := 10

  datatype ElfLimits = ElfLimits(maxProgramHeaders: nat, maxProgramHeaderEntryBytes: nat, maxInterpreterBytes: nat,
                                 maxDynamicEntries: nat, maxDynamicStringBytes: nat, maxNeededLibraries: nat,
                                 maxLibraryNameBytes: nat, maxNoteBytes: nat, maxBuildIdBytes: nat, maxMetadataBytes: nat)

  /** Word size and byte order. */
  datatype Format = Format(is64: bool, little: bool)

  datatype ProgramHeader = ProgramHeader(kind: nat, offset: U64, address: U64, fileSize: U64, memorySize: U64)

  // ---------- Names in tables ----------

  function EscapeOne(b: Byte): string {
    if b == 92 then "\\\\"
    else if 0x20 <= b <= 0x7E then [b as char]
    else "\\x" + [UpperHexDigit(b as int / 16), UpperHexDigit(b as int % 16)]
  }

  function EscapeBytes(s: seq<Byte>): string {
    if s == [] then "" else EscapeBytes(s[..|s| - 1]) + EscapeOne(s[|s| - 1])
  }

  /** `name` is the NUL-terminated string at `start`. */
  predicate IsName(table: seq<Byte>, start: nat, name: seq<Byte>) {
    start + |name| < |table| && table[start..start + |name|] == name && table[start + |name|] == 0 && 0 !in name
  }

  ghost predicate HasName(table: seq<Byte>, start: nat, limit: nat) {
    exists name :: IsName(table, start, name) && |name| <= limit
  }

  lemma NameBytes(table: seq<Byte>, start: nat, name: seq<Byte>)
    requires IsName(table, start, name)
    ensures table[start + |name|] == 0 && forall i :: start <= i < start + |name| ==> table[i] != 0
  {
    forall i | start <= i < start + |name| ensures table[i] != 0 {
      assert table[i] == name[i - start];
    }
  }

  lemma NameUnique(table: seq<Byte>, start: nat, name: seq<Byte>, other: seq<Byte>)
    requires IsName(table, start, name) && IsName(table, start, other)
    ensures name == other
  {
    NameBytes(table, start, name);
    NameBytes(table, start, other);
  }

  /** The inner loop: the string at `start`, if it ends within the table and the limit. */
  method FindName(table: seq<Byte>, start: nat, limit: nat) returns (name: Option<seq<Byte>>)
    requires start < |table|
    ensures name.Some? ==> IsName(table, start, name.value) && |name.value| <= limit
    ensures name.None? ==> !HasName(table, start, limit)
  {
    var end := start;
    while end < |table| && table[end] != 0 && end - start <= limit
      invariant start <= end <= |table| && end - start <= limit + 1
      invariant forall i :: start <= i < end ==> table[i] != 0
    {
      end := end + 1;
    }
    if end >= |table| || table[end] != 0 || end - start > limit {
      forall other | IsName(table, start, other) ensures |other| > limit {
        NameBytes(table, start, other);
      }
      return None;
    }
    return Some(table[start..end]);
  }

  /** The libraries named at the first `n` offsets, in order. */
  ghost predicate AreNamed(table: seq<Byte>, offsets: seq<U64>, limit: nat, libraries: seq<string>) {
    |libraries| <= |offsets| &&
    forall k :: 0 <= k < |libraries| ==>
      exists name :: IsName(table, offsets[k], name) && |name| <= limit && libraries[k] == EscapeBytes(name)
  }

  /** The loop over the needed offsets: exactly the names at them, in order and up to the cap, with an
      exact flag; it fails only at an offset, below the cap, where no name of bounded length stands. */
  method NameLibraries(reader: Reader, table: seq<Byte>, offsets: seq<U64>, limits: ElfLimits)
      returns (r: Result<(seq<string>, bool)>)
    modifies reader`turns
    ensures r.Ok? ==> AreNamed(table, offsets, limits.maxLibraryNameBytes, r.value.0) &&
                      |r.value.0| == Min(|offsets|, limits.maxNeededLibraries) &&
                      (r.value.1 <==> |offsets| > limits.maxNeededLibraries)
    ensures r.Err? && !r.code.Interrupted? ==>
              exists k :: 0 <= k < Min(|offsets|, limits.maxNeededLibraries) && !HasName(table, offsets[k], limits.maxLibraryNameBytes)
    ensures Undisturbed(old(reader.turns)) ==> Undisturbed(reader.turns) && (r.Err? ==> !r.code.Interrupted?)
  {
    hide IsName, EscapeBytes, Undisturbed;
    var libraries: seq<string> := [];
    var k := 0;
    while k < |offsets|
      invariant 0 <= k <= |offsets| && k <= limits.maxNeededLibraries && |libraries| == k
      invariant AreNamed(table, offsets, limits.maxLibraryNameBytes, libraries)
      invariant Undisturbed(old(reader.turns)) ==> Undisturbed(reader.turns)
    {
      var stopped := reader.CheckOperation();
      if stopped.Some? {
        return Err(stopped.value);
      }
      if |libraries| >= limits.maxNeededLibraries {
        return Ok((libraries, true));
      }
      if offsets[k] >= |table| {
        NoNameBeyond(table, offsets[k], limits.maxLibraryNameBytes);
        return Err(InvalidFormat);
      }
      var name := FindName(table, offsets[k], limits.maxLibraryNameBytes);
      if name.None? {
        return Err(MetadataTooLarge);
      }
      libraries := libraries + [EscapeBytes(name.value)];
      k := k + 1;
    }
    r := Ok((libraries, false));
  }

  lemma NamesUnique(table: seq<Byte>, offsets: seq<U64>, limit: nat, one: seq<string>, other: seq<string>)
    requires AreNamed(table, offsets, limit, one) && AreNamed(table, offsets, limit, other) && |one| == |other|
    ensures one == other
  {
    hide IsName, EscapeBytes;
    forall k | 0 <= k < |one| ensures one[k] == other[k] {
      var a :| IsName(table, offsets[k], a) && one[k] == EscapeBytes(a);
      var b :| IsName(table, offsets[k], b) && other[k] == EscapeBytes(b);
      NameUnique(table, offsets[k], a, b);
    }
  }

  lemma NamesExist(table: seq<Byte>, offsets: seq<U64>, limit: nat, libraries: seq<string>)
    requires AreNamed(table, offsets, limit, libraries)
    ensures forall k :: 0 <= k < |libraries| ==> HasName(table, offsets[k], limit)
  {
    hide IsName, EscapeBytes;
  }

  lemma NoNameBeyond(table: seq<Byte>, start: nat, limit: nat)
    requires start >= |table|
    ensures !HasName(table, start, limit)
  {
  }

  // ---------- Segments ----------

  /** The segment holds `size` bytes of file content for `address`. */
  predicate Backs(h: ProgramHeader, address: U64, size: U64) {
    h.kind == PT_LOAD && h.address <= address && address - h.address + size <= h.fileSize &&
    h.offset + (address - h.address) <= U64_MAX
  }

  /** virtual_to_file: the place of the first load segment that holds the whole range, if any does. */
  method VirtualToFile(headers: seq<ProgramHeader>, address: U64, size: U64) returns (r: Option<U64>)
    ensures r.Some? ==> exists i :: 0 <= i < |headers| && Backs(headers[i], address, size) &&
                                    r.value == headers[i].offset + (address - headers[i].address) &&
                                    forall j :: 0 <= j < i ==> !Backs(headers[j], address, size)
    ensures r.None? ==> forall i :: 0 <= i < |headers| ==> !Backs(headers[i], address, size)
  {
    var i := 0;
    while i < |headers|
      invariant 0 <= i <= |headers|
      invariant forall j :: 0 <= j < i ==> !Backs(headers[j], address, size)
    {
      var h := headers[i];
      if h.kind == PT_LOAD && address >= h.address {
        var delta: U64 := address - h.address;
        if delta <= h.fileSize && size <= h.fileSize - delta {
          var place := CheckedAdd(h.offset, delta);
          if place.Some? {
            return place;
          }
        }
      }
      i := i + 1;
    }
    r := None;
  }

  /** What inspect demands of every program header. */
  predicate Sound(h: ProgramHeader, limit: nat) {
    (h.fileSize > 0 ==> h.offset + h.fileSize <= limit) && (h.kind == PT_LOAD ==> h.memorySize >= h.fileSize)
  }

  /** A nonempty range that a sound segment holds lies within the segment's part of the file, and so
      within the approved range. */
  lemma BackedInFile(h: ProgramHeader, limit: nat, address: U64, size: U64)
    requires Sound(h, limit) && Backs(h, address, size) && size > 0
    ensures var place := h.offset + (address - h.address);
            h.offset <= place && place + size <= h.offset + h.fileSize <= limit
  {
  }

  // ---------- The dynamic table ----------

  datatype Dynamic = Dynamic(tag: nat, value: U64)

  function EntrySize(f: Format): nat {
    if f.is64 then 16 else 8
  }

  lemma WordIsU64(bytes: seq<Byte>, little: bool)
    requires |bytes| <= 8
    ensures Word(bytes, little) <= U64_MAX
  {
    WordFits(bytes, little);
    PowGrows(|bytes|);
  }

  lemma PowGrows(n: nat)
    requires n <= 8
    ensures Pow256(n) <= U64_MAX + 1
  {
    assert Pow256(2) == 0x1_0000 && Pow256(4) == 0x1_0000_0000 && Pow256(6) == 0x1_0000_0000_0000;
  }

  function EntryStart(f: Format, i: nat): nat {
    if f.is64 then 16 * i else 8 * i
  }

  /** The entry at index `i` of a dynamic table. */
  function EntryAt(bytes: seq<Byte>, f: Format, i: nat): (d: Dynamic)
    requires EntryStart(f, i + 1) <= |bytes|
  {
    var at, half := EntryStart(f, i), if f.is64 then 8 else 4;
    WordIsU64(bytes[at + half..at + 2 * half], f.little);
    Dynamic(Word(bytes[at..at + half], f.little), Word(bytes[at + half..at + 2 * half], f.little))
  }

  /** The values of all entries with the tag, in order. */
  function Values(entries: seq<Dynamic>, tag: nat): seq<U64> {
    if entries == [] then []
    else
      var last := entries[|entries| - 1];
      Values(entries[..|entries| - 1], tag) + (if last.tag == tag then [last.value] else [])
  }

  function LastValue(entries: seq<Dynamic>, tag: nat): Option<U64> {
    if entries == [] then None
    else if entries[|entries| - 1].tag == tag then Some(entries[|entries| - 1].value)
    else LastValue(entries[..|entries| - 1], tag)
  }

  /** The first entries of the table, none of them terminating. */
  ghost predicate AreEntries(bytes: seq<Byte>, f: Format, entries: seq<Dynamic>) {
    EntryStart(f, |entries|) <= |bytes| &&
    forall i :: 0 <= i < |entries| ==> entries[i] == EntryAt(bytes, f, i) && entries[i].tag != DT_NULL
  }

  /** The entries before the terminating one. */
  ghost predicate IsTable(bytes: seq<Byte>, f: Format, entries: seq<Dynamic>) {
    AreEntries(bytes, f, entries) && EntryStart(f, |entries| + 1) <= |bytes| && EntryAt(bytes, f, |entries|).tag == DT_NULL
  }

  lemma EntriesMore(bytes: seq<Byte>, f: Format, entries: seq<Dynamic>, e: Dynamic)
    requires AreEntries(bytes, f, entries) && EntryStart(f, |entries| + 1) <= |bytes|
    requires e == EntryAt(bytes, f, |entries|) && e.tag != DT_NULL
    ensures AreEntries(bytes, f, entries + [e])
    ensures forall tag :: Values(entries + [e], tag) == Values(entries, tag) + (if e.tag == tag then [e.value] else [])
    ensures forall tag :: LastValue(entries + [e], tag) == if e.tag == tag then Some(e.value) else LastValue(entries, tag)
  {
    assert (entries + [e])[..|entries|] == entries;
  }

  datatype DynamicInfo = DynamicInfo(tableAddress: Option<U64>, tableSize: Option<U64>, needed: seq<U64>)

  /** The loop over the dynamic table, up to its terminating entry; without one it fails. */
  method ReadDynamic(reader: Reader, bytes: seq<Byte>, f: Format) returns (r: Result<DynamicInfo>, ghost entries: seq<Dynamic>)
    requires |bytes| % EntrySize(f) == 0
    modifies reader`turns
    ensures r.Ok? ==> IsTable(bytes, f, entries)
    ensures r.Ok? ==> r.value == DynamicInfo(LastValue(entries, DT_STRTAB), LastValue(entries, DT_STRSZ), Values(entries, DT_NEEDED))
    ensures r.Err? && !r.code.Interrupted? ==> r.code == InvalidFormat && !exists table :: IsTable(bytes, f, table)
    ensures Undisturbed(old(reader.turns)) ==> Undisturbed(reader.turns) && (r.Err? ==> !r.code.Interrupted?)
  {
    hide Word, Values, LastValue, Undisturbed;
    var count := |bytes| / EntrySize(f);
    var info := DynamicInfo(None, None, []);
    entries := [];
    NoEntries();
    var index := 0;
    while index < count
      invariant 0 <= index <= count && |entries| == index && AreEntries(bytes, f, entries)
      invariant info == DynamicInfo(LastValue(entries, DT_STRTAB), LastValue(entries, DT_STRSZ), Values(entries, DT_NEEDED))
      invariant Undisturbed(old(reader.turns)) ==> Undisturbed(reader.turns)
    {
      if index % 64 == 0 {
        var stopped := reader.CheckOperation();
        if stopped.Some? {
          return Err(stopped.value), entries;
        }
      }
      var at, half := index * EntrySize(f), EntrySize(f) / 2;
      assert at == EntryStart(f, index);
      var tag := ReadWord(bytes[at..at + half], f.little);
      var value := ReadWord(bytes[at + half..at + 2 * half], f.little);
      WordIsU64(bytes[at + half..at + 2 * half], f.little);
      ghost var entry := EntryAt(bytes, f, index);
      if tag == DT_NULL {
        return Ok(info), entries;
      }
      EntriesMore(bytes, f, entries, entry);
      entries := entries + [entry];
      if tag == DT_STRTAB {
        info := info.(tableAddress := Some(value));
      } else if tag == DT_STRSZ {
        info := info.(tableSize := Some(value));
      } else if tag == DT_NEEDED {
        info := info.(needed := info.needed + [value]);
      }
      index := index + 1;
    }
    forall table ensures !IsTable(bytes, f, table) {
      if IsTable(bytes, f, table) {
        TablesAgree(bytes, f, entries, table);
      }
    }
    r := Err(InvalidFormat);
  }

  // Entries that go on past a terminating one do not exist.
  lemma TablesAgree(bytes: seq<Byte>, f: Format, entries: seq<Dynamic>, table: seq<Dynamic>)
    requires AreEntries(bytes, f, entries) && IsTable(bytes, f, table)
    ensures |entries| <= |table| && entries == table[..|entries|]
  {
    hide Word;
  }

  lemma TableUnique(bytes: seq<Byte>, f: Format, one: seq<Dynamic>, other: seq<Dynamic>)
    requires IsTable(bytes, f, one) && IsTable(bytes, f, other)
    ensures one == other
  {
    hide AreEntries;
    TablesAgree(bytes, f, one, other);
    TablesAgree(bytes, f, other, one);
  }

  lemma NoEntries()
    ensures forall tag :: LastValue([], tag) == None && Values([], tag) == []
  {
  }
}
