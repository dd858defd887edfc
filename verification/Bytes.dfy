/** Bytes, and the newline-terminated lines that both the log tools and the protocol read. */
module Bytes {
  newtype Byte = x: int | 0 <= x < 256

  const NEWLINE: Byte := 10
  const CARRIAGE_RETURN: Byte := 13

  function DropCarriageReturn(s: seq<Byte>): seq<Byte> {
    if s != [] && s[|s| - 1] == CARRIAGE_RETURN then s[..|s| - 1] else s
  }

  /** A line is content[start..end], without its newline. */
  datatype Line = Line(start: nat, end: nat)

  ghost predicate InFile(s: seq<Byte>, lines: seq<Line>) {
    forall i :: 0 <= i < |lines| ==> lines[i].start <= lines[i].end <= |s|
  }

  function LineEnd(s: seq<Byte>, start: nat): (e: nat)
    requires start <= |s|
    ensures start <= e <= |s| && NEWLINE !in s[start..e]
    ensures e < |s| ==> s[e] == NEWLINE
    decreases |s| - start
  {
    if start == |s| || s[start] == NEWLINE then start
    else
      var e := LineEnd(s, start + 1);
      assert s[start..e] == [s[start]] + s[start + 1..e];
      e
  }

  /** The lines from `start` on; bytes after the last newline are a line only if there are any. */
  function Lines(s: seq<Byte>, start: nat): (r: seq<Line>)
    requires start <= |s|
    ensures InFile(s, r)
    decreases |s| - start
  {
    if start == |s| then []
    else
      var e := LineEnd(s, start);
      [Line(start, e)] + if e == |s| then [] else Lines(s, e + 1)
  }

  // A stretch without newlines, up to a newline or the end, is the line that starts there.
  lemma LineEndIs(s: seq<Byte>, start: nat, e: nat)
    requires start <= e <= |s| && NEWLINE !in s[start..e]
    requires e == |s| || s[e] == NEWLINE
    ensures LineEnd(s, start) == e
    decreases e - start
  {
    if start < e {
      assert s[start] == s[start..e][0];
      assert forall b :: b in s[start + 1..e] ==> b in s[start..e];
      LineEndIs(s, start + 1, e);
    }
  }

  // The same for the list of lines.
  lemma LinesFrom(s: seq<Byte>, start: nat, e: nat)
    requires start <= e <= |s| && NEWLINE !in s[start..e] && start < |s|
    requires e == |s| || s[e] == NEWLINE
    ensures Lines(s, start) != [] && Lines(s, start)[0] == Line(start, e)
    ensures Lines(s, start)[1..] == if e < |s| then Lines(s, e + 1) else []
  {
    LineEndIs(s, start, e);
  }

  function Text(s: seq<Byte>, line: Line): seq<Byte>
    requires line.start <= line.end <= |s|
  {
    s[line.start..line.end]
  }

  /** The bytes the lines stand for, newlines put back; the last line may lack its newline. */
  function Join(s: seq<Byte>, lines: seq<Line>): seq<Byte>
    requires InFile(s, lines)
  {
    if lines == [] then []
    else Text(s, lines[0]) + (if lines[0].end < |s| then [NEWLINE] else []) + Join(s, lines[1..])
  }

  lemma JoinCons(s: seq<Byte>, line: Line, rest: seq<Line>)
    requires line.start <= line.end <= |s| && InFile(s, rest)
    ensures InFile(s, [line] + rest)
    ensures Join(s, [line] + rest) == Text(s, line) + (if line.end < |s| then [NEWLINE] else []) + Join(s, rest)
  {
    assert ([line] + rest)[1..] == rest;
  }

  lemma JoinLast(s: seq<Byte>, line: Line)
    requires line.start <= line.end == |s|
    ensures InFile(s, [line]) && Join(s, [line]) == s[line.start..]
  {
    assert [line][1..] == [];
    assert Text(s, line) == s[line.start..];
  }

  lemma JoinNone(s: seq<Byte>)
    ensures Join(s, []) == s[|s|..]
  {
  }

  lemma SplitAt(s: seq<Byte>, start: nat, e: nat)
    requires start <= e < |s| && s[e] == NEWLINE
    ensures s[start..] == s[start..e] + [NEWLINE] + s[e + 1..]
  {
  }

  lemma LinesEnd(s: seq<Byte>)
    ensures Lines(s, |s|) == []
  {
  }

  // Splitting loses nothing: the lines rejoin to the content.
  lemma {:induction false} LinesRejoin(s: seq<Byte>, start: nat)
    requires start <= |s|
    ensures Join(s, Lines(s, start)) == s[start..]
    decreases |s| - start
  {
    hide LineEnd, InFile, Join, Lines;
    if start < |s| {
      var e := LineEnd(s, start);
      LinesFrom(s, start, e);
      var rest := Lines(s, start)[1..];
      assert Lines(s, start) == [Line(start, e)] + rest;
      if e < |s| {
        LinesRejoin(s, e + 1);
        JoinCons(s, Line(start, e), rest);
        SplitAt(s, start, e);
      } else {
        assert Lines(s, start) == [Line(start, e)];
        JoinLast(s, Line(start, e));
      }
    } else {
      LinesEnd(s);
      JoinNone(s);
    }
  }

  // No line contains a newline.
  lemma {:induction false} LinesHaveNoNewline(s: seq<Byte>, start: nat, i: nat)
    requires start <= |s| && i < |Lines(s, start)|
    ensures NEWLINE !in Text(s, Lines(s, start)[i])
    decreases |s| - start
  {
    if i > 0 {
      LinesHaveNoNewline(s, LineEnd(s, start) + 1, i - 1);
    }
  }
}
