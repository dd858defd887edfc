/** LogAnalyzer::search: one pass over the file in chunks of any size, keeping for the current
    line only a KMP state and a bounded preview. */
module LogSearch {
  import opened Options
  import opened Bytes
  import opened Kmp
  import opened LogModel

  datatype SearchOptions = SearchOptions(query: seq<Byte>, caseSensitive: bool, maxMatches: nat)
  datatype SearchOutcome = Found(result: SearchResult) | Error(code: ErrorCode)

  /** The scan's local variables; the fields after `lineBytes` are what reset_line clears. */
  datatype Cursor = Cursor(offset: nat, lineNumber: nat, lineStart: nat, lineBytes: nat, matched: nat,
                           recent: seq<Byte>, preview: seq<Byte>, found: bool,
                           truncatedStart: bool, truncatedEnd: bool, matchOffset: nat,
                           captureRemaining: nat, unterminated: bool)

  function LineBegin(offset: nat, lineNumber: nat): Cursor {
    Cursor(offset, lineNumber, offset, 0, 0, [], [], false, false, false, 0, 0, false)
  }

  predicate QueryIsValid(query: seq<Byte>, limits: Limits) {
    0 < |query| <= limits.maxQueryBytes &&
    0 !in query && NEWLINE !in query && CARRIAGE_RETURN !in query
  }

  predicate ArgumentsValid(options: SearchOptions, limits: Limits) {
    QueryIsValid(options.query, limits) && 0 < options.maxMatches <= limits.maxMatches &&
    limits.maxPreviewBytes > 0 && limits.readChunkBytes > 0
  }

  function Prepare(options: SearchOptions, limits: Limits): (q: Query)
    ensures ArgumentsValid(options, limits) ==> q.Valid()
  {
    Query(Fold(options.query, options.caseSensitive), options.caseSensitive, limits.maxPreviewBytes, options.maxMatches)
  }

  // ---------- The current line ----------

  ghost predicate Searching(q: Query, c: Cursor, line: seq<Byte>) {
    !c.found && !c.truncatedEnd && c.matched < |q.pattern| &&
    c.matched == MatchLength(q.pattern, Fold(line, q.caseSensitive)) &&
    Find(q, line) == None && c.recent == LastN(line, q.RecentCapacity())
  }

  /** The preview is the window of the line that belongs to the match. */
  ghost predicate Capturing(q: Query, c: Cursor, line: seq<Byte>) {
    c.found && c.lineStart <= c.matchOffset &&
    var at := c.matchOffset - c.lineStart;
    at + |q.pattern| <= |line| && Find(q, line) == Some(at) &&
    c.preview == q.Window(line, at) && c.captureRemaining == q.previewBytes - |c.preview| &&
    c.truncatedStart == (q.WindowStart(at) > 0) && c.truncatedEnd == (q.WindowEnd(line, at) < |line|)
  }

  /** The cursor has read `line` since the last newline. */
  ghost predicate OnLine(q: Query, c: Cursor, line: seq<Byte>) {
    c.offset == c.lineStart + |line| && c.lineBytes == |line| && c.unterminated == (line != []) &&
    (Searching(q, c, line) || Capturing(q, c, line))
  }

  /** The cursor stands in `text`, inside the line that starts at `lineStart`. */
  ghost predicate AtCursor(text: seq<Byte>, q: Query, c: Cursor) {
    c.lineStart <= c.offset <= |text| &&
    NEWLINE !in text[c.lineStart..c.offset] && OnLine(q, c, text[c.lineStart..c.offset])
  }

  lemma LineBeginAtCursor(text: seq<Byte>, q: Query, offset: nat, lineNumber: nat)
    requires q.Valid() && offset <= |text|
    ensures AtCursor(text, q, LineBegin(offset, lineNumber))
  {
    assert text[offset..offset] == [];
    MatchLengthIs(q.pattern, [], 0);
    assert Fold([], q.caseSensitive) == [];
  }

  lemma FoldAppend(line: seq<Byte>, b: Byte, caseSensitive: bool)
    ensures Fold(line + [b], caseSensitive) == Fold(line, caseSensitive) + [Comparable(b, caseSensitive)]
  {
  }

  /** The non-newline branch of the byte loop. */
  method TakeByte(q: Query, failure: seq<nat>, c: Cursor, ghost line: seq<Byte>, value: Byte)
      returns (next: Cursor, ghost fallbacks: nat)
    requires q.Valid() && IsFailureTable(q.pattern, failure) && OnLine(q, c, line)
    ensures OnLine(q, next, line + [value]) && next.offset == c.offset + 1
    ensures next.lineStart == c.lineStart && next.lineNumber == c.lineNumber
    ensures fallbacks + Potential(next) <= Potential(c) + 1
  {
    hide IsFailureTable, MatchLength, Find, Fold, LastN, Query.Window, Query.WindowStart, Query.WindowEnd, Query.RecentCapacity;
    fallbacks := 0;
    if c.found {
      CaptureByte(q, c, line, value);
      if c.captureRemaining > 0 {
        next := c.(preview := c.preview + [value], captureRemaining := c.captureRemaining - 1);
      } else {
        next := c.(truncatedEnd := true);
      }
    } else {
      next, fallbacks := MatchByte(q, failure, c, line, value);
    }
    next := next.(unterminated := true, lineBytes := c.lineBytes + 1, offset := c.offset + 1);
  }

  /** Failure links that the bytes read so far can still pay for. */
  ghost function Potential(c: Cursor): nat {
    if c.found then 0 else c.matched
  }

  /** The part of the byte loop that looks for the pattern. */
  method MatchByte(q: Query, failure: seq<nat>, c: Cursor, ghost line: seq<Byte>, value: Byte)
      returns (next: Cursor, ghost fallbacks: nat)
    requires q.Valid() && IsFailureTable(q.pattern, failure)
    requires Searching(q, c, line) && c.offset == c.lineStart + |line| && c.lineBytes == |line|
    ensures Searching(q, next, line + [value]) || Capturing(q, next, line + [value])
    ensures next.lineStart == c.lineStart && next.lineNumber == c.lineNumber
    ensures fallbacks + Potential(next) <= c.matched + 1
  {
    hide IsBorder, MatchLength, Find, Fold, LastN, Query.Window, Query.WindowStart, Query.WindowEnd, Query.RecentCapacity;
    var recent := c.recent + [value];
    if |recent| > q.RecentCapacity() {
      recent := recent[1..];
    }
    FoldAppend(line, value, q.caseSensitive);
    var matched: nat;
    matched, fallbacks := Step(q.pattern, failure, c.matched, Comparable(value, q.caseSensitive), Fold(line, q.caseSensitive));
    MatchByteKeeps(q, c, line, value);
    next := c.(recent := recent, matched := matched);
    if matched == |q.pattern| {
      next := next.(found := true, matchOffset := c.offset + 1 - |q.pattern|, preview := recent,
        truncatedStart := c.lineBytes + 1 > |recent|, captureRemaining := q.previewBytes - |recent|);
      assert Capturing(q, next, line + [value]);
    } else {
      assert Searching(q, next, line + [value]);
    }
  }

  // What MatchByte does, given the KMP state after the byte.
  lemma MatchByteKeeps(q: Query, c: Cursor, line: seq<Byte>, value: Byte)
    requires q.Valid() && Searching(q, c, line)
    ensures var longer := line + [value];
            var recent := if |c.recent + [value]| > q.RecentCapacity() then (c.recent + [value])[1..] else c.recent + [value];
            && recent == LastN(longer, q.RecentCapacity())
            && if MatchLength(q.pattern, Fold(longer, q.caseSensitive)) == |q.pattern| then
                 && |q.pattern| <= |longer| && Find(q, longer) == Some(|longer| - |q.pattern|)
                 && q.WindowStart(|longer| - |q.pattern|) <= |longer| == q.WindowEnd(longer, |longer| - |q.pattern|)
                 && q.Window(longer, |longer| - |q.pattern|) == recent && |recent| <= q.previewBytes
                 && (|longer| > |recent| <==> q.WindowStart(|longer| - |q.pattern|) > 0)
               else Find(q, longer) == None
  {
    hide IsBorder, MatchLength, Find, Fold, LastN, Query.Window, Query.WindowStart, Query.WindowEnd;
    RecentExtends(line, value, q.RecentCapacity());
    FoundWhenComplete(q, line, value);
    if |q.pattern| <= |line| + 1 {
      WindowOpens(q, line + [value]);
    }
  }

  // A match that has been found stays the leftmost one.
  lemma FoundStays(q: Query, line: seq<Byte>, value: Byte)
    requires Find(q, line).Some?
    ensures Find(q, line + [value]) == Find(q, line)
  {
    FoldAppend(line, value, q.caseSensitive);
    FindLeftmost(q, line);
    LeftmostExtends(q.pattern, Fold(line, q.caseSensitive), Comparable(value, q.caseSensitive), Find(q, line).value);
    FindLeftmost(q, line + [value]);
  }

  // The first match appears with the byte that makes the KMP state reach the whole pattern.
  lemma FoundWhenComplete(q: Query, line: seq<Byte>, value: Byte)
    requires q.Valid() && Find(q, line).None?
    ensures var longer := line + [value];
            if MatchLength(q.pattern, Fold(longer, q.caseSensitive)) == |q.pattern|
            then |q.pattern| <= |longer| && Find(q, longer) == Some(|longer| - |q.pattern|)
            else Find(q, longer) == None
  {
    FoldAppend(line, value, q.caseSensitive);
    FindLeftmost(q, line);
    AbsentExtends(q.pattern, Fold(line, q.caseSensitive), Comparable(value, q.caseSensitive));
    FindLeftmost(q, line + [value]);
  }

  // The bounded deque holds the last bytes of the line.
  lemma RecentExtends(line: seq<Byte>, value: Byte, capacity: nat)
    requires capacity > 0
    ensures var recent := LastN(line, capacity) + [value];
            LastN(line + [value], capacity) == if |recent| > capacity then recent[1..] else recent
  {
  }

  // At the byte that completes the match, the recent bytes are its window.
  lemma WindowOpens(q: Query, line: seq<Byte>)
    requires q.Valid() && |q.pattern| <= |line|
    ensures var at := |line| - |q.pattern|;
            var recent := LastN(line, q.RecentCapacity());
            && q.WindowStart(at) <= |line| == q.WindowEnd(line, at)
            && q.Window(line, at) == recent && |recent| <= q.previewBytes
            && (|line| > |recent| <==> q.WindowStart(at) > 0)
  {
  }

  // A byte after the match either extends the captured window or is cut off behind it.
  lemma CaptureByte(q: Query, c: Cursor, line: seq<Byte>, value: Byte)
    requires q.Valid() && Capturing(q, c, line)
    ensures c.captureRemaining > 0 ==>
              Capturing(q, c.(preview := c.preview + [value], captureRemaining := c.captureRemaining - 1), line + [value])
    ensures c.captureRemaining == 0 ==> Capturing(q, c.(truncatedEnd := true), line + [value])
  {
    hide Find;
    FoundStays(q, line, value);
    WindowExtends(q, line, value, c.matchOffset - c.lineStart);
  }

  lemma WindowExtends(q: Query, line: seq<Byte>, value: Byte, at: nat)
    requires q.WindowStart(at) <= |line|
    ensures |q.Window(line, at)| < q.previewBytes ==>
              q.WindowEnd(line, at) == |line| && q.Window(line + [value], at) == q.Window(line, at) + [value]
    ensures |q.Window(line, at)| >= q.previewBytes ==>
              q.Window(line + [value], at) == q.Window(line, at)
  {
  }

  // ---------- Finished lines ----------

  /** finish_line without its reset. */
  function FinishLine(q: Query, c: Cursor, r: SearchResult): SearchResult {
    var counted := r.(linesScanned := r.linesScanned + 1);
    if c.found then
      var matches := r.matches + [Match(c.lineNumber, c.matchOffset, Escape(DropCarriageReturn(c.preview)),
                                        c.truncatedStart, c.truncatedEnd)];
      counted.(matches := matches, matchLimitReached := r.matchLimitReached || |matches| >= q.maxMatches)
    else counted
  }

  /** The lines before `rest` have been accounted for in `r`. */
  ghost predicate AccountedFor(text: seq<Byte>, q: Query, rest: seq<Line>, lineNumber: nat, r: SearchResult) {
    InFile(text, rest) && |r.matches| <= q.maxMatches && lineNumber == r.linesScanned + 1 &&
    r.matchLimitReached == (|r.matches| == q.maxMatches) &&
    r.linesScanned <= |Lines(text, 0)| && Lines(text, 0)[r.linesScanned..] == rest &&
    Matches(text, q, Lines(text, 0), 1) == r.matches + Matches(text, q, rest, lineNumber) &&
    LinesUntil(text, q, Lines(text, 0), q.maxMatches)
    == r.linesScanned + LinesUntil(text, q, rest, q.maxMatches - |r.matches|)
  }

  ghost predicate Progress(text: seq<Byte>, q: Query, rest: seq<Line>, lineNumber: nat, r: SearchResult) {
    AccountedFor(text, q, rest, lineNumber, r) && !r.matchLimitReached
  }

  /** The scan may stop: nothing that is left can change the answer. */
  ghost predicate Complete(text: seq<Byte>, q: Query, r: SearchResult) {
    var all := Lines(text, 0);
    var matches := Matches(text, q, all, 1);
    r.matches == matches[..Min(q.maxMatches, |matches|)] &&
    r.matchLimitReached == (|matches| >= q.maxMatches) &&
    r.linesScanned == LinesUntil(text, q, all, q.maxMatches)
  }

  lemma InitialProgress(text: seq<Byte>, q: Query)
    requires q.Valid()
    ensures Progress(text, q, Lines(text, 0), 1, SearchResult(0, 0, false, false, []))
  {
  }

  lemma NothingLeft(text: seq<Byte>, q: Query, rest: seq<Line>, lineNumber: nat, r: SearchResult)
    requires AccountedFor(text, q, rest, lineNumber, r) && (rest == [] || r.matchLimitReached)
    ensures Complete(text, q, r)
  {
    hide Lines;
    assert r.matchLimitReached ==> (r.matches + Matches(text, q, rest, lineNumber))[..q.maxMatches] == r.matches;
  }

  /** What finishing a line must do, told by the line alone. */
  function Account(text: seq<Byte>, q: Query, line: Line, lineNumber: nat, r: SearchResult): SearchResult
    requires line.start <= line.end <= |text|
  {
    var counted := r.(linesScanned := r.linesScanned + 1);
    match Find(q, Text(text, line))
    case None => counted
    case Some(at) =>
      var matches := r.matches + [MatchIn(q, Text(text, line), line.start, lineNumber, at)];
      counted.(matches := matches, matchLimitReached := r.matchLimitReached || |matches| >= q.maxMatches)
  }

  lemma FinishLineAccounts(text: seq<Byte>, q: Query, c: Cursor, r: SearchResult)
    requires AtCursor(text, q, c)
    ensures FinishLine(q, c, r) == Account(text, q, Line(c.lineStart, c.offset), c.lineNumber, r)
  {
    hide Escape, Find, Query.Window, Query.WindowStart, Query.WindowEnd, MatchLength, LastN, DropCarriageReturn;
  }

  // Accounting for the first remaining line keeps the sums.
  lemma LineAccounted(text: seq<Byte>, q: Query, lines: seq<Line>, lineNumber: nat, r: SearchResult)
    requires InFile(text, lines) && lines != [] && |r.matches| < q.maxMatches && !r.matchLimitReached
    ensures var done := Account(text, q, lines[0], lineNumber, r);
            && done.linesScanned == r.linesScanned + 1 && |done.matches| <= q.maxMatches
            && done.matchLimitReached == (|done.matches| == q.maxMatches)
            && r.matches + Matches(text, q, lines, lineNumber)
               == done.matches + Matches(text, q, lines[1..], lineNumber + 1)
            && r.linesScanned + LinesUntil(text, q, lines, q.maxMatches - |r.matches|)
               == done.linesScanned + LinesUntil(text, q, lines[1..], q.maxMatches - |done.matches|)
  {
    hide Find, MatchIn, Text;
    var found, rest := Find(q, Text(text, lines[0])), Matches(text, q, lines[1..], lineNumber + 1);
    if found.Some? {
      var m := MatchIn(q, Text(text, lines[0]), lines[0].start, lineNumber, found.value);
      assert Matches(text, q, lines, lineNumber) == [m] + rest;
      assert r.matches + ([m] + rest) == (r.matches + [m]) + rest;
    } else {
      assert Matches(text, q, lines, lineNumber) == rest;
    }
  }

  // Hence it keeps the progress, or completes the search at the limit or at the last line.
  lemma ProgressKept(text: seq<Byte>, q: Query, lines: seq<Line>, lineNumber: nat, r: SearchResult)
    requires q.Valid() && Progress(text, q, lines, lineNumber, r) && lines != []
    ensures var done := Account(text, q, lines[0], lineNumber, r);
            && 0 < done.linesScanned <= |Lines(text, 0)|
            && Lines(text, 0)[done.linesScanned - 1] == lines[0]
            && AccountedFor(text, q, lines[1..], lineNumber + 1, done)
            && (lines[1..] == [] || done.matchLimitReached ==> Complete(text, q, done))
  {
    hide Lines, Account, Matches, LinesUntil, Complete;
    LineAccounted(text, q, lines, lineNumber, r);
    var all, done := Lines(text, 0), Account(text, q, lines[0], lineNumber, r);
    assert all[r.linesScanned] == all[r.linesScanned..][0];
    assert all[r.linesScanned + 1..] == all[r.linesScanned..][1..];
    if lines[1..] == [] || done.matchLimitReached {
      NothingLeft(text, q, lines[1..], lineNumber + 1, done);
    }
  }

  // Finishing a line accounts for exactly that line.
  lemma LineFinished(text: seq<Byte>, q: Query, c: Cursor, r: SearchResult)
    requires q.Valid() && AtCursor(text, q, c) && Progress(text, q, Lines(text, c.lineStart), c.lineNumber, r)
    requires if c.offset < |text| then text[c.offset] == NEWLINE else c.unterminated
    ensures var done := FinishLine(q, c, r);
            && 0 < done.linesScanned <= |Lines(text, 0)|
            && Lines(text, 0)[done.linesScanned - 1] == Line(c.lineStart, c.offset)
            && (c.offset == |text| || done.matchLimitReached ==> Complete(text, q, done))
            && (c.offset < |text| && !done.matchLimitReached ==>
                  Progress(text, q, Lines(text, c.offset + 1), c.lineNumber + 1, done))
  {
    hide AccountedFor, Complete, Lines, Account, FinishLine, Searching, Capturing;
    FinishLineAccounts(text, q, c, r);
    LinesFrom(text, c.lineStart, c.offset);
    ProgressKept(text, q, Lines(text, c.lineStart), c.lineNumber, r);
  }

  // ---------- The scan ----------

  /** Between two bytes: either the search has stopped at its limit, or it stands at the cursor. */
  ghost predicate Scanning(text: seq<Byte>, q: Query, c: Cursor, r: SearchResult, stop: bool) {
    c.offset <= |text| && c.lineStart <= c.offset &&
    if stop then
      Complete(text, q, r) && r.matchLimitReached && 0 < r.linesScanned <= |Lines(text, 0)| &&
      Lines(text, 0)[r.linesScanned - 1].end + 1 == c.offset
    else AtCursor(text, q, c) && Progress(text, q, Lines(text, c.lineStart), c.lineNumber, r)
  }

  /** One byte of the file: finish_line at a newline, otherwise the current line goes on. */
  method ScanByte(ghost text: seq<Byte>, q: Query, failure: seq<nat>, value: Byte, cursor: Cursor, result: SearchResult)
      returns (c: Cursor, r: SearchResult, stop: bool, ghost fallbacks: nat)
    requires q.Valid() && IsFailureTable(q.pattern, failure) && Scanning(text, q, cursor, result, false)
    requires cursor.offset < |text| && value == text[cursor.offset]
    ensures Scanning(text, q, c, r, stop)
    ensures c.offset == cursor.offset + 1
    ensures fallbacks + Potential(c) <= Potential(cursor) + 1
  {
    hide OnLine, Progress, Complete, Lines, IsFailureTable;
    if value == NEWLINE {
      LineFinished(text, q, cursor, result);
      r := FinishLine(q, cursor, result);
      stop := r.matchLimitReached;
      c := LineBegin(cursor.offset + 1, cursor.lineNumber + 1);
      fallbacks := 0;
      LineBeginAtCursor(text, q, c.offset, c.lineNumber);
    } else {
      ghost var line := text[cursor.lineStart..cursor.offset];
      ByteTaken(text, cursor.lineStart, cursor.offset);
      c, fallbacks := TakeByte(q, failure, cursor, line, value);
      r, stop := result, false;
      assert AtCursor(text, q, c);
    }
  }

  lemma ByteTaken(text: seq<Byte>, start: nat, offset: nat)
    requires start <= offset < |text| && text[offset] != NEWLINE && NEWLINE !in text[start..offset]
    ensures text[start..offset + 1] == text[start..offset] + [text[offset]]
    ensures NEWLINE !in text[start..offset + 1]
  {
  }

  /** The loop over one buffer of bytes. */
  method ScanChunk(ghost text: seq<Byte>, q: Query, failure: seq<nat>, buffer: seq<Byte>, cursor: Cursor, result: SearchResult)
      returns (c: Cursor, r: SearchResult, stop: bool, ghost fallbacks: nat)
    requires q.Valid() && IsFailureTable(q.pattern, failure) && Scanning(text, q, cursor, result, false)
    requires cursor.offset + |buffer| <= |text| && text[cursor.offset..cursor.offset + |buffer|] == buffer
    ensures Scanning(text, q, c, r, stop)
    ensures if stop then cursor.offset < c.offset <= cursor.offset + |buffer| else c.offset == cursor.offset + |buffer|
    ensures fallbacks + Potential(c) + cursor.offset <= Potential(cursor) + c.offset
  {
    hide Scanning, IsFailureTable;
    c, r, stop, fallbacks := cursor, result, false, 0;
    var index := 0;
    while index < |buffer| && !stop
      invariant 0 <= index <= |buffer| && c.offset == cursor.offset + index
      invariant Scanning(text, q, c, r, stop)
      invariant stop ==> index > 0
      invariant fallbacks + Potential(c) <= Potential(cursor) + index
    {
      ghost var falls := 0;
      c, r, stop, falls := ScanByte(text, q, failure, buffer[index], c, r);
      fallbacks := fallbacks + falls;
      index := index + 1;
    }
  }

  lemma ScanStarts(text: seq<Byte>, q: Query)
    requires q.Valid()
    ensures Scanning(text, q, LineBegin(0, 1), SearchResult(0, 0, false, false, []), false)
  {
    LineBeginAtCursor(text, q, 0, 1);
    InitialProgress(text, q);
  }

  lemma ReachableSlice(file: ReadOnlyFile, offset: nat, count: nat)
    requires offset + count <= |file.content| && offset + count <= file.ReadLimit()
    ensures offset + count <= |file.Reachable()|
    ensures file.Reachable()[offset..offset + count] == file.content[offset..offset + count]
  {
  }

  /** The read loop of search. `turns` is what the surroundings do, one entry for each turn of
      the loop; after them every read returns all that was asked for. */
  method Scan(file: ReadOnlyFile, chunk: nat, q: Query, turns: seq<Turn>)
      returns (c: Cursor, r: SearchResult, stop: bool, endedEarly: bool, failed: Option<ErrorCode>, ghost fallbacks: nat)
    requires q.Valid() && chunk > 0
    ensures failed.Some? ==> CausedBy(turns, failed.value)
    ensures Undisturbed(turns) ==> failed.None?
    ensures failed.None? ==> Scanning(file.Reachable(), q, c, r, stop) && (!stop ==> c.offset == |file.Reachable()|)
    ensures failed.None? ==> endedEarly == (!stop && |file.content| < file.ReadLimit())
    ensures fallbacks <= c.offset
  {
    hide Scanning, IsFailureTable, Query.Valid;
    var failure, _ := BuildFailureTable(q.pattern);
    var readLimit := if file.maxReadBytes < file.observedSize then file.maxReadBytes else file.observedSize;
    ghost var text := file.Reachable();
    c, r, stop, endedEarly, failed := LineBegin(0, 1), SearchResult(0, 0, false, false, []), false, false, None;
    fallbacks := 0;
    ScanStarts(text, q);
    var turn := 0;
    while c.offset < readLimit && !stop
      invariant 0 <= turn <= |turns| && c.offset <= |text|
      invariant Scanning(text, q, c, r, stop) && failed.None?
      invariant fallbacks + Potential(c) <= c.offset
      decreases readLimit - c.offset, |turns| - turn
    {
      var now := Turn(None, Give(readLimit));
      if turn < |turns| {
        now := turns[turn];
        turn := turn + 1;
      }
      if now.stop.Some? {
        failed := Some(Stopped(now.stop.value));
        return;
      }
      if now.read.Fail? {
        failed := Some(ReadFailed);
        return;
      }
      if now.read.Give? {
        var available := Min(Min(now.read.n + 1, Min(readLimit - c.offset, chunk)), |file.content| - c.offset);
        if available == 0 {
          endedEarly := true;
          return;
        }
        ghost var falls := 0;
        ReachableSlice(file, c.offset, available);
        c, r, stop, falls := ScanChunk(text, q, failure, file.content[c.offset..c.offset + available], c, r);
        fallbacks := fallbacks + falls;
      }
    }
  }

  // Where the scan ends, its result is the specified one.
  lemma Concluded(file: ReadOnlyFile, q: Query, c: Cursor, r: SearchResult, stop: bool, sizeChanged: bool)
    requires q.Valid() && Scanning(file.Reachable(), q, c, r, stop) && (!stop ==> c.offset == |file.Reachable()|)
    ensures var last := if !stop && c.unterminated then FinishLine(q, c, r) else r;
            last.(bytesScanned := c.offset, fileChanged := (!stop && |file.content| < file.ReadLimit()) || sizeChanged)
            == SearchSpec(file, q, sizeChanged)
  {
    var text := file.Reachable();
    if !stop {
      if c.unterminated {
        LineFinished(text, q, c, r);
      } else {
        NothingLeft(text, q, [], c.lineNumber, r);
      }
    }
  }

  ghost predicate Accepted(file: ReadOnlyFile, limits: Limits, options: SearchOptions, initialStop: Option<StopReason>) {
    initialStop.None? && ArgumentsValid(options, limits) && file.observedSize <= limits.maxScanBytes
  }

  /** LogAnalyzer::search. */
  method Search(file: ReadOnlyFile, limits: Limits, options: SearchOptions,
                initialStop: Option<StopReason>, turns: seq<Turn>, sizeChanged: bool)
      returns (outcome: SearchOutcome, ghost fallbacks: nat)
    ensures initialStop.Some? ==> outcome == Error(Stopped(initialStop.value))
    ensures initialStop.None? && !ArgumentsValid(options, limits) ==> outcome == Error(InvalidArguments)
    ensures initialStop.None? && ArgumentsValid(options, limits) && file.observedSize > limits.maxScanBytes ==>
              outcome == Error(InputTooLarge)
    ensures Accepted(file, limits, options, initialStop) ==>
              match outcome
              case Found(result) => result == SearchSpec(file, Prepare(options, limits), sizeChanged)
              case Error(code) => CausedBy(turns, code)
    ensures Accepted(file, limits, options, initialStop) && Undisturbed(turns) ==> outcome.Found?
    ensures outcome.Found? ==> fallbacks <= outcome.result.bytesScanned
  {
    if initialStop.Some? {
      return Error(Stopped(initialStop.value)), 0;
    }
    var query := options.query;
    if |query| == 0 || |query| > limits.maxQueryBytes || 0 in query || 10 in query || 13 in query || options.maxMatches == 0 ||
       options.maxMatches > limits.maxMatches || limits.maxPreviewBytes == 0 || limits.readChunkBytes == 0 {
      return Error(InvalidArguments), 0;
    }
    if file.observedSize > limits.maxScanBytes {
      return Error(InputTooLarge), 0;
    }
    var pattern, i := [], 0;
    while i < |query|
      invariant 0 <= i <= |query| && pattern == Fold(query[..i], options.caseSensitive)
    {
      pattern := pattern + [Comparable(query[i], options.caseSensitive)];
      i := i + 1;
    }
    assert query[..i] == query;
    var q := Query(pattern, options.caseSensitive, limits.maxPreviewBytes, options.maxMatches);
    hide Scanning, SearchSpec, FinishLine;
    var c, r, stop, endedEarly, failed;
    c, r, stop, endedEarly, failed, fallbacks := Scan(file, limits.readChunkBytes, q, turns);
    if failed.Some? {
      return Error(failed.value), fallbacks;
    }
    Concluded(file, q, c, r, stop, sizeChanged);
    if !stop && c.unterminated {
      r := FinishLine(q, c, r);
    }
    outcome := Found(r.(bytesScanned := c.offset, fileChanged := endedEarly || sizeChanged));
  }
}
