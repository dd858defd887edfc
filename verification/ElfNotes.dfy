/** The GNU build id of an ELF file: a walk over note segments. */
module ElfNotes {
  import opened Numbers
  import opened Options
  import opened Bytes
  import opened ElfReader

  const NT_GNU_BUILD_ID := 3
  const GNU: seq<Byte> := [71, 78, 85, 0]

  datatype Note = Note(kind: nat, name: seq<Byte>, description: seq<Byte>)

  function Align4(n: nat): (r: nat)
    ensures n <= r < n + 4 && r % 4 == 0
  {
    (n + 3) / 4 * 4
  }

  function HexBytes(s: seq<Byte>): string {
    if s == [] then ""
    else
      var b := s[|s| - 1] as int;
      HexBytes(s[..|s| - 1]) + [UpperHexDigit(b / 16), UpperHexDigit(b % 16)]
  }

  // ---------- What a note segment says ----------

  /** The note occupies bytes[start..end]: three words, then the name and the description, each
      padded to a multiple of four. */
  ghost predicate IsNote(bytes: seq<Byte>, start: nat, end: nat, little: bool, note: Note) {
    var name, description := start + 12, start + 12 + Align4(|note.name|);
    end == description + Align4(|note.description|) && end <= |bytes| &&
    Word(bytes[start..start + 4], little) == |note.name| &&
    Word(bytes[start + 4..start + 8], little) == |note.description| &&
    Word(bytes[start + 8..start + 12], little) == note.kind &&
    bytes[name..name + |note.name|] == note.name &&
    bytes[description..description + |note.description|] == note.description
  }

  /** The notes tile the bytes before the last of `starts`. */
  ghost predicate Tiles(bytes: seq<Byte>, little: bool, starts: seq<nat>, notes: seq<Note>) {
    |starts| == |notes| + 1 && starts[0] == 0 &&
    forall k :: 0 <= k < |notes| ==> IsNote(bytes, starts[k], starts[k + 1], little, notes[k])
  }

  /** The whole segment is this sequence of notes. */
  ghost predicate IsNotes(bytes: seq<Byte>, little: bool, notes: seq<Note>) {
    exists starts :: Tiles(bytes, little, starts, notes) && starts[|notes|] == |bytes|
  }

  // There is one way to read a note at a given place.
  lemma NoteUnique(bytes: seq<Byte>, start: nat, end: nat, end': nat, little: bool, note: Note, note': Note)
    requires IsNote(bytes, start, end, little, note) && IsNote(bytes, start, end', little, note')
    ensures note == note' && end == end'
  {
    hide Word, Align4;
  }

  lemma {:induction false} TilesAgree(bytes: seq<Byte>, little: bool, starts: seq<nat>, notes: seq<Note>, starts': seq<nat>, notes': seq<Note>, k: nat)
    requires Tiles(bytes, little, starts, notes) && Tiles(bytes, little, starts', notes') && k <= |notes| && k <= |notes'|
    ensures starts[k] == starts'[k] && forall i :: 0 <= i < k ==> notes[i] == notes'[i]
  {
    hide IsNote;
    if k > 0 {
      TilesAgree(bytes, little, starts, notes, starts', notes', k - 1);
      NoteUnique(bytes, starts[k - 1], starts[k], starts'[k], little, notes[k - 1], notes'[k - 1]);
    }
  }

  lemma {:induction false} TilesInside(bytes: seq<Byte>, little: bool, starts: seq<nat>, notes: seq<Note>, k: nat)
    requires Tiles(bytes, little, starts, notes) && k <= |notes|
    ensures starts[k] <= |bytes| && (k < |notes| ==> starts[k] < |bytes|)
  {
    hide Word;
    if k < |notes| {
      assert IsNote(bytes, starts[k], starts[k + 1], little, notes[k]);
    } else if k > 0 {
      assert IsNote(bytes, starts[k - 1], starts[k], little, notes[k - 1]);
    }
  }

  /** A segment is a sequence of notes in one way only. */
  lemma NotesUnique(bytes: seq<Byte>, little: bool, notes: seq<Note>, notes': seq<Note>)
    requires IsNotes(bytes, little, notes) && IsNotes(bytes, little, notes')
    ensures notes == notes'
  {
    hide IsNote;
    var starts :| Tiles(bytes, little, starts, notes) && starts[|notes|] == |bytes|;
    var starts' :| Tiles(bytes, little, starts', notes') && starts'[|notes'|] == |bytes|;
    var k := if |notes| <= |notes'| then |notes| else |notes'|;
    TilesAgree(bytes, little, starts, notes, starts', notes', k);
    TilesInside(bytes, little, starts, notes, k);
    TilesInside(bytes, little, starts', notes', k);
  }

  /** No note can be read at `start`. */
  ghost predicate NoNoteAt(bytes: seq<Byte>, start: nat, little: bool) {
    forall end: nat, note :: !IsNote(bytes, start, end, little, note)
  }

  lemma NoteThere(bytes: seq<Byte>, little: bool, starts: seq<nat>, notes: seq<Note>, k: nat)
    requires Tiles(bytes, little, starts, notes) && k < |notes|
    ensures !NoNoteAt(bytes, starts[k], little)
  {
    hide IsNote;
    assert IsNote(bytes, starts[k], starts[k + 1], little, notes[k]);
  }

  lemma NotNotes(bytes: seq<Byte>, little: bool, starts: seq<nat>, notes: seq<Note>)
    requires Tiles(bytes, little, starts, notes) && starts[|notes|] < |bytes| && NoNoteAt(bytes, starts[|notes|], little)
    ensures !exists all :: IsNotes(bytes, little, all)
  {
    hide IsNote;
    if all :| IsNotes(bytes, little, all) {
      var starts' :| Tiles(bytes, little, starts', all) && starts'[|all|] == |bytes|;
      if |all| <= |notes| {
        TilesAgree(bytes, little, starts, notes, starts', all, |all|);
        TilesInside(bytes, little, starts, notes, |all|);
      } else {
        NoteThere(bytes, little, starts', all, |notes|);
        TilesAgree(bytes, little, starts, notes, starts', all, |notes|);
      }
    }
  }

  lemma TilesMore(bytes: seq<Byte>, little: bool, starts: seq<nat>, notes: seq<Note>, end: nat, note: Note)
    requires Tiles(bytes, little, starts, notes) && IsNote(bytes, starts[|notes|], end, little, note)
    ensures Tiles(bytes, little, starts + [end], notes + [note])
  {
    hide IsNote;
  }

  // ---------- The build id ----------

  predicate IsBuildId(note: Note) {
    note.kind == NT_GNU_BUILD_ID && note.name == GNU
  }

  /** What was found before, or else the first build id among the notes. */
  function FirstBuildId(found: Option<string>, notes: seq<Note>): Option<string> {
    if notes == [] then found
    else
      var before, last := FirstBuildId(found, notes[..|notes| - 1]), notes[|notes| - 1];
      if before.None? && IsBuildId(last) then Some(HexBytes(last.description)) else before
  }

  /** The build id that is found first among the notes, if any, is not too long. */
  ghost predicate Fitting(found: Option<string>, notes: seq<Note>, limit: nat) {
    forall k :: 0 <= k < |notes| && IsBuildId(notes[k]) && FirstBuildId(found, notes[..k]).None? ==> |notes[k].description| <= limit
  }

  lemma NothingToFit(found: Option<string>, limit: nat)
    ensures Fitting(found, [], limit)
  {
  }

  lemma FittingMore(found: Option<string>, notes: seq<Note>, note: Note, limit: nat)
    requires Fitting(found, notes, limit)
    requires IsBuildId(note) && FirstBuildId(found, notes).None? ==> |note.description| <= limit
    ensures Fitting(found, notes + [note], limit)
  {
    hide FirstBuildId, IsBuildId;
    var more := notes + [note];
    assert forall k :: 0 <= k <= |notes| ==> more[..k] == notes[..k];
    assert notes[..|notes|] == notes;
  }

  lemma {:induction false} TilesPrefix(bytes: seq<Byte>, little: bool, starts: seq<nat>, notes: seq<Note>, all: seq<Note>)
    requires Tiles(bytes, little, starts, notes) && IsNotes(bytes, little, all)
    ensures notes <= all
  {
    hide IsNote;
    var starts' :| Tiles(bytes, little, starts', all) && starts'[|all|] == |bytes|;
    if |notes| <= |all| {
      TilesAgree(bytes, little, starts, notes, starts', all, |notes|);
    } else {
      TilesInside(bytes, little, starts, notes, |all|);
      TilesAgree(bytes, little, starts, notes, starts', all, |all|);
    }
  }

  /** The walk over one segment: it fails exactly on a segment that is no sequence of notes, or at a
      build id that is too long; otherwise it ends at the end of the segment. */
  method WalkNotes(bytes: seq<Byte>, little: bool, maxBuildIdBytes: nat, found: Option<string>) returns (r: Result<Option<string>>, ghost notes: seq<Note>)
    requires |bytes| <= U64_MAX
    ensures r.Ok? ==> IsNotes(bytes, little, notes) && r.value == FirstBuildId(found, notes)
    ensures r.Err? ==> r.code == InvalidFormat || r.code == MetadataTooLarge
    ensures r.Err? && r.code == InvalidFormat ==> !exists all :: IsNotes(bytes, little, all)
    ensures r.Err? && r.code == MetadataTooLarge ==>
              notes != [] && FirstBuildId(found, notes[..|notes| - 1]).None? && IsBuildId(notes[|notes| - 1]) &&
              |notes[|notes| - 1].description| > maxBuildIdBytes && forall all :: IsNotes(bytes, little, all) ==> notes <= all
    ensures r.Ok? ==> Fitting(found, notes, maxBuildIdBytes)
  {
    hide IsNote, HexBytes, Word, Pow256, NoNoteAt, Align4, Fitting, IsNotes;
    var position, buildId := 0, found;
    notes := [];
    NothingToFit(found, maxBuildIdBytes);
    ghost var starts: seq<nat> := [0];
    while position < |bytes|
      invariant 0 <= position <= |bytes| && Tiles(bytes, little, starts, notes) && starts[|notes|] == position
      invariant buildId == FirstBuildId(found, notes) && Fitting(found, notes, maxBuildIdBytes)
    {
      if |bytes| - position < 12 {
        NoRoom(bytes, position, little);
        NotNotes(bytes, little, starts, notes);
        return Err(InvalidFormat), notes;
      }
      var nameSize := ReadWord(bytes[position..position + 4], little);
      var descriptionSize := ReadWord(bytes[position + 4..position + 8], little);
      var kind := ReadWord(bytes[position + 8..position + 12], little);
      FourBytes();
      var name := position + 12;
      var description := CheckedAdd(name, Align4(nameSize));
      var next := if description.Some? then CheckedAdd(description.value, Align4(descriptionSize)) else None;
      if next.None? || next.value > |bytes| {
        NoPayload(bytes, position, little);
        NotNotes(bytes, little, starts, notes);
        return Err(InvalidFormat), notes;
      }
      ghost var note := Note(kind, bytes[name..name + nameSize], bytes[description.value..description.value + descriptionSize]);
      NoteIs(bytes, position, next.value, little, note);
      TilesMore(bytes, little, starts, notes, next.value, note);
      assert (notes + [note])[..|notes|] == notes;
      ghost var before := notes;
      starts, notes := starts + [next.value], notes + [note];
      if buildId.None? && kind == NT_GNU_BUILD_ID && nameSize == 4 && bytes[name..name + 4] == GNU {
        if descriptionSize > maxBuildIdBytes {
          forall all | IsNotes(bytes, little, all) ensures notes <= all {
            TilesPrefix(bytes, little, starts, notes, all);
          }
          return Err(MetadataTooLarge), notes;
        }
        buildId := Some(HexBytes(bytes[description.value..description.value + descriptionSize]));
      }
      FittingMore(found, before, note, maxBuildIdBytes);
      position := next.value;
    }
    assert IsNotes(bytes, little, notes) by { TilesAll(bytes, little, starts, notes); }
    r := Ok(buildId);
  }

  lemma TilesAll(bytes: seq<Byte>, little: bool, starts: seq<nat>, notes: seq<Note>)
    requires Tiles(bytes, little, starts, notes) && starts[|notes|] == |bytes|
    ensures IsNotes(bytes, little, notes)
  {
  }

  lemma FourBytes()
    ensures Pow256(4) == 0x1_0000_0000
  {
    assert Pow256(2) == 0x1_0000;
  }

  lemma NoRoom(bytes: seq<Byte>, start: nat, little: bool)
    requires start < |bytes| < start + 12
    ensures NoNoteAt(bytes, start, little)
  {
    hide Word;
  }

  lemma NoPayload(bytes: seq<Byte>, start: nat, little: bool)
    requires start + 12 <= |bytes|
    requires start + 12 + Align4(Word(bytes[start..start + 4], little)) + Align4(Word(bytes[start + 4..start + 8], little)) > |bytes|
    ensures NoNoteAt(bytes, start, little)
  {
    hide Word, Align4;
  }

  lemma NoteIs(bytes: seq<Byte>, start: nat, end: nat, little: bool, note: Note)
    requires start + 12 <= |bytes| && end <= |bytes|
    requires |note.name| == Word(bytes[start..start + 4], little) && |note.description| == Word(bytes[start + 4..start + 8], little)
    requires note.kind == Word(bytes[start + 8..start + 12], little)
    requires end == start + 12 + Align4(|note.name|) + Align4(|note.description|)
    requires note.name == bytes[start + 12..start + 12 + |note.name|]
    requires var at := start + 12 + Align4(|note.name|); note.description == bytes[at..at + |note.description|]
    ensures IsNote(bytes, start, end, little, note)
  {
    hide Word, Align4;
  }
}
