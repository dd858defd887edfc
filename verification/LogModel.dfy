/** What log search and tail promise, stated on whole file contents and not on chunks. */
module LogModel {
  import opened Numbers
  import opened Options
  import opened Bytes
  import opened Kmp

  const TAB: Byte := 9

  datatype Limits = Limits(maxScanBytes: nat, maxQueryBytes: nat, maxMatches: nat, maxTailLines: nat,
                           maxPreviewBytes: nat, readChunkBytes: nat)

  /** The opened file: what reads can see, and the size and read bound recorded at opening. */
  datatype ReadOnlyFile = ReadOnlyFile(content: seq<Byte>, observedSize: nat, maxReadBytes: nat) {
    function ReadLimit(): nat {
      if observedSize <= maxReadBytes then observedSize else maxReadBytes
    }
    /** The bytes a scan can reach before its limit or the end of the file. */
    function Reachable(): seq<Byte> {
      if ReadLimit() <= |content| then content[..ReadLimit()] else content
    }
  }

  datatype StopReason = Cancelled | DeadlineExceeded
  datatype ErrorCode = InvalidArguments | InputTooLarge | ReadFailed | Stopped(reason: StopReason)

  /** One turn of the read loop as the surroundings see it: the operation context's answer,
      then what pread does. `Give(n)` is a read of at least one and at most `n + 1` bytes. */
  datatype ReadBehaviour = Interrupt | Fail | Give(n: nat)
  datatype Turn = Turn(stop: Option<StopReason>, read: ReadBehaviour)

  /** No cancellation, no deadline and no read error: only interrupted and short reads. */
  ghost predicate Undisturbed(turns: seq<Turn>) {
    forall i :: 0 <= i < |turns| ==> turns[i].stop.None? && !turns[i].read.Fail?
  }

  /** An error code that some turn accounts for. */
  ghost predicate CausedBy(turns: seq<Turn>, code: ErrorCode) {
    exists i :: 0 <= i < |turns| &&
      (match turns[i].stop
       case Some(reason) => code == Stopped(reason)
       case None => turns[i].read.Fail? && code == ReadFailed)
  }

  function FoldAscii(b: Byte): Byte {
    if 65 <= b <= 90 then b + 32 else b
  }

  function Comparable(b: Byte, caseSensitive: bool): Byte {
    if caseSensitive then b else FoldAscii(b)
  }

  function Fold(s: seq<Byte>, caseSensitive: bool): (r: seq<Byte>)
    ensures |r| == |s| && forall i :: 0 <= i < |s| ==> r[i] == Comparable(s[i], caseSensitive)
  {
    seq(|s|, i requires 0 <= i < |s| => Comparable(s[i], caseSensitive))
  }

  /** The same byte or, where case does not matter, the same ASCII letter. */
  predicate Similar(a: Byte, b: Byte, caseSensitive: bool) {
    a == b || (!caseSensitive && (SameLetter(a, b) || SameLetter(b, a)))
  }

  predicate SameLetter(upper: Byte, lower: Byte) {
    'A' <= upper as char <= 'Z' && lower as int - 'a' as int == upper as int - 'A' as int
  }

  // Bytes are compared as equal exactly if they are similar.
  lemma ComparableIs(a: Byte, b: Byte, caseSensitive: bool)
    ensures Comparable(a, caseSensitive) == Comparable(b, caseSensitive) <==> Similar(a, b, caseSensitive)
  {
  }

  function EscapeByte(b: Byte): string {
    if b == TAB then "\\t"
    else if 0x20 <= b <= 0x7E then [b as char]
    else "\\x" + [UpperHexDigit(b as int / 16), UpperHexDigit(b as int % 16)]
  }

  function Escape(s: seq<Byte>): string {
    if s == [] then "" else Escape(s[..|s| - 1]) + EscapeByte(s[|s| - 1])
  }

  function LastN<T>(s: seq<T>, n: nat): seq<T> {
    if |s| <= n then s else s[|s| - n..]
  }

  function Min(a: nat, b: nat): nat {
    if a <= b then a else b
  }

  // ---------- Search ----------

  /** A prepared search: the comparable pattern and the bounds that shape its answer. */
  datatype Query = Query(pattern: seq<Byte>, caseSensitive: bool, previewBytes: nat, maxMatches: nat) {
    ghost predicate Valid() {
      |pattern| > 0 && previewBytes > 0 && maxMatches > 0
    }
    function RecentCapacity(): nat {
      Min(previewBytes, previewBytes / 2 + |pattern|)
    }
    /** Where in its line the preview of a match at `at` starts. */
    function WindowStart(at: nat): nat {
      var matchEnd := at + |pattern|;
      if matchEnd <= RecentCapacity() then 0 else matchEnd - RecentCapacity()
    }
    function WindowEnd(line: seq<Byte>, at: nat): nat {
      Min(|line|, WindowStart(at) + previewBytes)
    }
    function Window(line: seq<Byte>, at: nat): seq<Byte>
      requires WindowStart(at) <= |line|
    {
      line[WindowStart(at)..WindowEnd(line, at)]
    }
  }

  datatype Match = Match(lineNumber: nat, byteOffset: nat, preview: string,
                         truncatedStart: bool, truncatedEnd: bool)

  datatype SearchResult = SearchResult(bytesScanned: nat, linesScanned: nat, matchLimitReached: bool,
                                       fileChanged: bool, matches: seq<Match>)

  /** Position of the leftmost occurrence at or after `from`, if any, by trying them all. */
  function FindFrom(p: seq<Byte>, t: seq<Byte>, from: nat): (r: Option<nat>)
    requires from <= |t|
    ensures r.Some? ==> r.value + |p| <= |t|
    decreases |t| - from
  {
    if from + |p| > |t| then None
    else if t[from..from + |p|] == p then Some(from)
    else if from == |t| then None
    else FindFrom(p, t, from + 1)
  }

  lemma FindFromIs(p: seq<Byte>, t: seq<Byte>, from: nat)
    requires from <= |t| && forall j :: OccursAt(p, t, j) ==> from <= j
    ensures FindFrom(p, t, from).Some? ==> IsLeftmost(p, t, FindFrom(p, t, from).value)
    ensures FindFrom(p, t, from).None? ==> Absent(p, t)
    decreases |t| - from
  {
    if from + |p| <= |t| && t[from..from + |p|] != p && from < |t| {
      FindFromIs(p, t, from + 1);
    }
  }

  function Find(q: Query, line: seq<Byte>): (r: Option<nat>)
    ensures r.Some? ==> r.value + |q.pattern| <= |line|
  {
    FindFrom(q.pattern, Fold(line, q.caseSensitive), 0)
  }

  // Find answers the leftmost occurrence of the pattern, and nothing else is one.
  lemma FindLeftmost(q: Query, line: seq<Byte>)
    ensures match Find(q, line)
            case Some(at) => IsLeftmost(q.pattern, Fold(line, q.caseSensitive), at)
            case None => Absent(q.pattern, Fold(line, q.caseSensitive))
    ensures forall at: nat :: IsLeftmost(q.pattern, Fold(line, q.caseSensitive), at) ==> Find(q, line) == Some(at)
  {
    FindFromIs(q.pattern, Fold(line, q.caseSensitive), 0);
  }

  /** The line has the query at `i`, byte for byte, up to case where that does not matter. */
  ghost predicate FoundAt(query: seq<Byte>, line: seq<Byte>, caseSensitive: bool, i: int) {
    0 <= i && i + |query| <= |line| && forall j :: 0 <= j < |query| ==> Similar(query[j], line[i + j], caseSensitive)
  }

  ghost predicate FirstFoundAt(query: seq<Byte>, line: seq<Byte>, caseSensitive: bool, i: int) {
    FoundAt(query, line, caseSensitive, i) && forall j :: FoundAt(query, line, caseSensitive, j) ==> i <= j
  }

  lemma OccursMeans(query: seq<Byte>, line: seq<Byte>, caseSensitive: bool, i: int)
    ensures OccursAt(Fold(query, caseSensitive), Fold(line, caseSensitive), i) <==> FoundAt(query, line, caseSensitive, i)
  {
    hide Similar, Comparable, Fold;
    var p, t := Fold(query, caseSensitive), Fold(line, caseSensitive);
    if 0 <= i && i + |query| <= |line| {
      var part := t[i..i + |p|];
      assert part == p <==> forall j :: 0 <= j < |query| ==> p[j] == part[j];
      forall j | 0 <= j < |query| ensures p[j] == part[j] <==> Similar(query[j], line[i + j], caseSensitive) {
        ComparableIs(query[j], line[i + j], caseSensitive);
      }
    }
  }

  /** For a prepared query, Find answers the leftmost place at which every byte of the line is similar
      to that of the query, and none exactly if there is no such place. */
  lemma FindIs(q: Query, query: seq<Byte>, line: seq<Byte>)
    requires q.pattern == Fold(query, q.caseSensitive)
    ensures forall at: nat :: Find(q, line) == Some(at) <==> FirstFoundAt(query, line, q.caseSensitive, at)
    ensures Find(q, line).None? <==> forall i :: !FoundAt(query, line, q.caseSensitive, i)
  {
    hide OccursAt, FoundAt, Fold, Find;
    FindLeftmost(q, line);
    forall i ensures OccursAt(q.pattern, Fold(line, q.caseSensitive), i) <==> FoundAt(query, line, q.caseSensitive, i) {
      OccursMeans(query, line, q.caseSensitive, i);
    }
  }

  /** The match reported for a line whose leftmost occurrence is at `at`. */
  function MatchIn(q: Query, line: seq<Byte>, start: nat, lineNumber: nat, at: nat): Match
    requires q.WindowStart(at) <= |line|
  {
    Match(lineNumber, start + at, Escape(DropCarriageReturn(q.Window(line, at))),
          q.WindowStart(at) > 0, q.WindowEnd(line, at) < |line|)
  }

  /** All matches of the lines, the first of which has number `lineNumber`. */
  function Matches(s: seq<Byte>, q: Query, lines: seq<Line>, lineNumber: nat): seq<Match>
    requires InFile(s, lines)
  {
    if lines == [] then []
    else
      var found := Find(q, Text(s, lines[0]));
      (if found.Some? then [MatchIn(q, Text(s, lines[0]), lines[0].start, lineNumber, found.value)] else [])
      + Matches(s, q, lines[1..], lineNumber + 1)
  }

  /** Number of lines up to and including the one with the n-th match; all if there are fewer. */
  function LinesUntil(s: seq<Byte>, q: Query, lines: seq<Line>, n: nat): (k: nat)
    requires InFile(s, lines)
    ensures k <= |lines| && (n > 0 && lines != [] ==> k > 0)
  {
    if n == 0 || lines == [] then 0
    else 1 + LinesUntil(s, q, lines[1..], if Find(q, Text(s, lines[0])).Some? then n - 1 else n)
  }

  /** What search returns: the first `maxMatches` matching lines and where it stopped. */
  function SearchSpec(file: ReadOnlyFile, q: Query, sizeChanged: bool): SearchResult
    requires q.Valid()
  {
    var text := file.Reachable();
    var lines := Lines(text, 0);
    var matches := Matches(text, q, lines, 1);
    var limited := |matches| >= q.maxMatches;
    var scanned := LinesUntil(text, q, lines, q.maxMatches);
    var stoppedAt := if limited then lines[scanned - 1].end else |text|;
    SearchResult(
      Min(stoppedAt + 1, |text|), scanned, limited,
      (|file.content| < file.ReadLimit() && stoppedAt == |text|) || sizeChanged,
      matches[..Min(q.maxMatches, |matches|)])
  }

  /** `m` reports the line its number names: there, and at the leftmost occurrence. */
  ghost predicate Reports(s: seq<Byte>, q: Query, lines: seq<Line>, lineNumber: nat, m: Match)
    requires InFile(s, lines)
  {
    lineNumber <= m.lineNumber < lineNumber + |lines| &&
    ReportsLine(s, q, lines[m.lineNumber - lineNumber], m)
  }

  ghost predicate ReportsLine(s: seq<Byte>, q: Query, line: Line, m: Match)
    requires line.start <= line.end <= |s|
  {
    match Find(q, Text(s, line))
    case None => false
    case Some(at) => m == MatchIn(q, Text(s, line), line.start, m.lineNumber, at)
  }

  // Every reported match is that of a line containing the query, and the numbers increase.
  lemma {:induction false} MatchesSound(s: seq<Byte>, q: Query, lines: seq<Line>, lineNumber: nat, k: nat)
    requires InFile(s, lines) && k < |Matches(s, q, lines, lineNumber)|
    ensures Reports(s, q, lines, lineNumber, Matches(s, q, lines, lineNumber)[k])
    ensures k > 0 ==> Matches(s, q, lines, lineNumber)[k - 1].lineNumber < Matches(s, q, lines, lineNumber)[k].lineNumber
  {
    hide ReportsLine, MatchIn, Find, Text;
    if lines == [] {
      return;
    }
    hide Matches;
    var ms, rest := Matches(s, q, lines, lineNumber), Matches(s, q, lines[1..], lineNumber + 1);
    var shift := |ms| - |rest|;
    MatchesCons(s, q, lines, lineNumber);
    if shift <= k {
      MatchesSound(s, q, lines[1..], lineNumber + 1, k - shift);
    }
  }

  /** What a reported match says: its line has the query, first at the offset given. */
  lemma MatchesMean(s: seq<Byte>, q: Query, query: seq<Byte>, lines: seq<Line>, lineNumber: nat, k: nat)
    requires q.pattern == Fold(query, q.caseSensitive) && InFile(s, lines) && k < |Matches(s, q, lines, lineNumber)|
    ensures var m := Matches(s, q, lines, lineNumber)[k];
            && lineNumber <= m.lineNumber < lineNumber + |lines|
            && var line := lines[m.lineNumber - lineNumber];
               FirstFoundAt(query, Text(s, line), q.caseSensitive, m.byteOffset - line.start)
  {
    hide Matches, Find, Fold, FirstFoundAt;
    MatchesSound(s, q, lines, lineNumber, k);
    var m := Matches(s, q, lines, lineNumber)[k];
    FindIs(q, query, Text(s, lines[m.lineNumber - lineNumber]));
  }

  lemma MatchesCons(s: seq<Byte>, q: Query, lines: seq<Line>, lineNumber: nat)
    requires InFile(s, lines) && lines != []
    ensures var ms, rest := Matches(s, q, lines, lineNumber), Matches(s, q, lines[1..], lineNumber + 1);
            if Find(q, Text(s, lines[0])).None? then ms == rest
            else ms != [] && ms[1..] == rest && ms[0].lineNumber == lineNumber && ReportsLine(s, q, lines[0], ms[0])
  {
  }

  // Every line that contains the query is reported.
  lemma {:induction false} MatchesComplete(s: seq<Byte>, q: Query, lines: seq<Line>, lineNumber: nat, i: nat)
    returns (k: nat)
    requires InFile(s, lines) && i < |lines| && Find(q, Text(s, lines[i])).Some?
    ensures k < |Matches(s, q, lines, lineNumber)| && Matches(s, q, lines, lineNumber)[k].lineNumber == lineNumber + i
  {
    hide ReportsLine, MatchIn, Find, Text, Matches;
    MatchesCons(s, q, lines, lineNumber);
    if i == 0 {
      k := 0;
    } else {
      k := MatchesComplete(s, q, lines[1..], lineNumber + 1, i - 1);
      k := k + |Matches(s, q, lines, lineNumber)| - |Matches(s, q, lines[1..], lineNumber + 1)|;
    }
  }

  // The preview is one contiguous piece of the line within the budget; it holds the whole match
  // exactly when the query fits the budget, and the flags say exactly what was cut off.
  lemma PreviewWindow(q: Query, line: seq<Byte>, start: nat, lineNumber: nat)
    requires q.Valid() && Find(q, line).Some?
    ensures var at := Find(q, line).value;
            var m := MatchIn(q, line, start, lineNumber, at);
            var lo, hi := q.WindowStart(at), q.WindowEnd(line, at);
            && lo <= hi <= |line| && hi - lo <= q.previewBytes
            && m.preview == Escape(DropCarriageReturn(line[lo..hi]))
            && m.truncatedStart == (line[..lo] != []) && m.truncatedEnd == (line[hi..] != [])
            && (lo <= at && at + |q.pattern| <= hi <==> |q.pattern| <= q.previewBytes)
            // Half the budget goes to what stands before the match, less only if the match itself needs it.
            && (|q.pattern| <= q.previewBytes - q.previewBytes / 2 ==> at - lo == Min(at, q.previewBytes / 2))
            && (|q.pattern| >= q.previewBytes - q.previewBytes / 2 ==> lo == 0 || lo + q.previewBytes == at + |q.pattern|)
            // The window is used up, unless the line ends first.
            && (hi == |line| || hi - lo == q.previewBytes)
  {
    hide Escape, FindFrom;
  }

  // Without truncation the preview is the whole line.
  lemma ShortLinePreview(q: Query, line: seq<Byte>, start: nat, lineNumber: nat)
    requires q.Valid() && Find(q, line).Some? && 2 * |line| <= q.previewBytes
    ensures MatchIn(q, line, start, lineNumber, Find(q, line).value)
            == Match(lineNumber, start + Find(q, line).value, Escape(DropCarriageReturn(line)), false, false)
  {
    assert q.Window(line, Find(q, line).value) == line;
  }

  // ---------- Tail ----------

  datatype TailLine = TailLine(lineNumber: nat, byteOffset: nat, preview: string, truncatedStart: bool)
  datatype TailResult = TailResult(bytesScanned: nat, linesScanned: nat, fileChanged: bool, lines: seq<TailLine>)

  function TailOf(line: seq<Byte>, start: nat, lineNumber: nat, previewBytes: nat): TailLine {
    TailLine(lineNumber, start, Escape(DropCarriageReturn(LastN(line, previewBytes))), |line| > previewBytes)
  }

  /** Every line as tail shows it, the first of which has number `lineNumber`. */
  function TailLines(s: seq<Byte>, lines: seq<Line>, lineNumber: nat, previewBytes: nat): (r: seq<TailLine>)
    requires InFile(s, lines)
    ensures |r| == |lines|
  {
    if lines == [] then []
    else [TailOf(Text(s, lines[0]), lines[0].start, lineNumber, previewBytes)]
         + TailLines(s, lines[1..], lineNumber + 1, previewBytes)
  }

  // The i-th of them shows the i-th line, with its true number and start.
  lemma {:induction false} TailLineAt(s: seq<Byte>, lines: seq<Line>, lineNumber: nat, previewBytes: nat, i: nat)
    requires InFile(s, lines) && i < |lines|
    ensures TailLines(s, lines, lineNumber, previewBytes)[i]
            == TailOf(Text(s, lines[i]), lines[i].start, lineNumber + i, previewBytes)
  {
    if i > 0 {
      TailLineAt(s, lines[1..], lineNumber + 1, previewBytes, i - 1);
    }
  }

  function TailSpec(file: ReadOnlyFile, maxLines: nat, previewBytes: nat, sizeChanged: bool): TailResult {
    var text := file.Reachable();
    var lines := Lines(text, 0);
    TailResult(|text|, |lines|, |file.content| < file.ReadLimit() || sizeChanged,
               LastN(TailLines(text, lines, 1, previewBytes), maxLines))
  }

  lemma LastNIs<T>(s: seq<T>, n: nat)
    ensures LastN(s, n) == s[|s| - Min(n, |s|)..]
  {
  }

  // Tail returns the last min(maxLines, line count) lines, in order, each under its own number
  // and offset, with the escaped last bytes of the line and a flag that says what was cut off.
  lemma TailSpecExact(file: ReadOnlyFile, maxLines: nat, previewBytes: nat, sizeChanged: bool, k: nat)
    requires k < |TailSpec(file, maxLines, previewBytes, sizeChanged).lines|
    ensures var text := file.Reachable();
            var lines := Lines(text, 0);
            var shown := TailSpec(file, maxLines, previewBytes, sizeChanged).lines;
            && |shown| == Min(maxLines, |lines|)
            && var i := |lines| - |shown| + k;
               var line := Text(text, lines[i]);
               && shown[k].lineNumber == i + 1 && shown[k].byteOffset == lines[i].start
               && shown[k].preview == Escape(DropCarriageReturn(line[|line| - Min(previewBytes, |line|)..]))
               && (shown[k].truncatedStart <==> |line| > previewBytes)
  {
    hide Lines, TailLines, Escape, DropCarriageReturn, ReadOnlyFile.Reachable, LastN, Text;
    var text := file.Reachable();
    var lines := Lines(text, 0);
    var all := TailLines(text, lines, 1, previewBytes);
    LastNIs(all, maxLines);
    var i := |lines| - Min(maxLines, |lines|) + k;
    TailLineAt(text, lines, 1, previewBytes, i);
    LastNIs(Text(text, lines[i]), previewBytes);
  }
}
