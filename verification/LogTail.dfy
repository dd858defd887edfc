/** LogAnalyzer::tail: the last lines of the file in one pass, in bounded memory. */
module LogTail {
  import opened Options
  import opened Bytes
  import opened LogModel

  datatype TailOutcome = Tailed(result: TailResult) | Error(code: ErrorCode)

  datatype Cursor = Cursor(offset: nat, lineNumber: nat, lineStart: nat, lineBytes: nat,
                           linePreview: seq<Byte>, unterminated: bool, retained: seq<TailLine>)

  predicate ArgumentsValid(maxLines: nat, limits: Limits) {
    0 < maxLines <= limits.maxTailLines && limits.maxPreviewBytes > 0 && limits.readChunkBytes > 0
  }

  /** All lines before `rest`, as tail would show them if it kept every one. */
  ghost predicate Shown(text: seq<Byte>, rest: seq<Line>, lineNumber: nat, previewBytes: nat, shown: seq<TailLine>) {
    InFile(text, rest) && lineNumber == |shown| + 1 &&
    TailLines(text, Lines(text, 0), 1, previewBytes) == shown + TailLines(text, rest, lineNumber, previewBytes)
  }

  ghost predicate OnLine(c: Cursor, line: seq<Byte>, previewBytes: nat) {
    c.lineBytes == |line| && c.unterminated == (line != []) && c.linePreview == LastN(line, previewBytes)
  }

  ghost predicate Scanning(text: seq<Byte>, c: Cursor, maxLines: nat, previewBytes: nat, shown: seq<TailLine>) {
    c.lineStart <= c.offset <= |text| && NEWLINE !in text[c.lineStart..c.offset] &&
    OnLine(c, text[c.lineStart..c.offset], previewBytes) &&
    Shown(text, Lines(text, c.lineStart), c.lineNumber, previewBytes, shown) && c.retained == LastN(shown, maxLines)
  }

  /** finish_line. */
  function FinishLine(c: Cursor, maxLines: nat): Cursor {
    var retained := c.retained + [ShowLine(c)];
    Cursor(c.offset + 1, c.lineNumber + 1, c.offset + 1, 0, [], false,
           if |retained| > maxLines then retained[1..] else retained)
  }

  lemma RetainedExtends(shown: seq<TailLine>, line: TailLine, maxLines: nat)
    requires maxLines > 0
    ensures var retained := LastN(shown, maxLines) + [line];
            LastN(shown + [line], maxLines) == if |retained| > maxLines then retained[1..] else retained
  {
  }

  lemma PreviewExtends(line: seq<Byte>, value: Byte, previewBytes: nat)
    requires previewBytes > 0
    ensures var preview := LastN(line, previewBytes) + [value];
            LastN(line + [value], previewBytes) == if |preview| > previewBytes then preview[1..] else preview
  {
  }

  /** The line as finish_line shows it. */
  function ShowLine(c: Cursor): TailLine {
    TailLine(c.lineNumber, c.lineStart, Escape(DropCarriageReturn(c.linePreview)), c.lineBytes > |c.linePreview|)
  }

  lemma ShowLineIs(c: Cursor, line: seq<Byte>, previewBytes: nat)
    requires OnLine(c, line, previewBytes)
    ensures ShowLine(c) == TailOf(line, c.lineStart, c.lineNumber, previewBytes)
  {
    hide Escape, DropCarriageReturn;
  }

  // Showing the first remaining line moves it to the lines already shown.
  lemma ShownExtends(text: seq<Byte>, lines: seq<Line>, lineNumber: nat, previewBytes: nat, shown: seq<TailLine>)
    requires Shown(text, lines, lineNumber, previewBytes, shown) && lines != []
    ensures Shown(text, lines[1..], lineNumber + 1, previewBytes,
                  shown + [TailOf(Text(text, lines[0]), lines[0].start, lineNumber, previewBytes)])
  {
    hide Lines, TailOf;
    var line := TailOf(Text(text, lines[0]), lines[0].start, lineNumber, previewBytes);
    var rest := TailLines(text, lines[1..], lineNumber + 1, previewBytes);
    assert TailLines(text, lines, lineNumber, previewBytes) == [line] + rest;
    assert shown + ([line] + rest) == (shown + [line]) + rest;
  }

  // The line that ends at the cursor is the next one to show.
  lemma LineFinished(text: seq<Byte>, c: Cursor, maxLines: nat, previewBytes: nat, shown: seq<TailLine>)
    requires Scanning(text, c, maxLines, previewBytes, shown) && maxLines > 0
    requires if c.offset < |text| then text[c.offset] == NEWLINE else c.unterminated
    ensures FinishLine(c, maxLines).retained == LastN(shown + [ShowLine(c)], maxLines)
    ensures Shown(text, if c.offset < |text| then Lines(text, c.offset + 1) else [], c.lineNumber + 1,
                  previewBytes, shown + [ShowLine(c)])
  {
    hide Lines, Shown, TailOf, ShowLine, LastN;
    LinesFrom(text, c.lineStart, c.offset);
    ShowLineIs(c, text[c.lineStart..c.offset], previewBytes);
    RetainedExtends(shown, ShowLine(c), maxLines);
    ShownExtends(text, Lines(text, c.lineStart), c.lineNumber, previewBytes, shown);
  }

  lemma FreshLine(c: Cursor, previewBytes: nat)
    requires c.lineBytes == 0 && !c.unterminated && c.linePreview == []
    ensures OnLine(c, [], previewBytes)
  {
  }

  method ScanByte(ghost text: seq<Byte>, maxLines: nat, previewBytes: nat, value: Byte, cursor: Cursor, ghost shown: seq<TailLine>)
      returns (c: Cursor, ghost shown': seq<TailLine>)
    requires Scanning(text, cursor, maxLines, previewBytes, shown) && maxLines > 0 && previewBytes > 0
    requires cursor.offset < |text| && value == text[cursor.offset]
    ensures Scanning(text, c, maxLines, previewBytes, shown') && c.offset == cursor.offset + 1
  {
    hide Lines, Shown, LastN, ShowLine;
    if value == NEWLINE {
      LineFinished(text, cursor, maxLines, previewBytes, shown);
      c, shown' := FinishLine(cursor, maxLines), shown + [ShowLine(cursor)];
      FreshLine(c, previewBytes);
      assert text[c.lineStart..c.offset] == [];
    } else {
      ghost var line := text[cursor.lineStart..cursor.offset];
      assert text[cursor.lineStart..cursor.offset + 1] == line + [value];
      PreviewExtends(line, value, previewBytes);
      var preview := cursor.linePreview + [value];
      c := cursor.(unterminated := true, lineBytes := cursor.lineBytes + 1, offset := cursor.offset + 1,
        linePreview := if |preview| > previewBytes then preview[1..] else preview);
      shown' := shown;
    }
  }

  lemma ScanStarts(text: seq<Byte>, maxLines: nat, previewBytes: nat)
    ensures Scanning(text, Cursor(0, 1, 0, 0, [], false, []), maxLines, previewBytes, [])
  {
  }

  /** The read loop of tail. */
  method Scan(file: ReadOnlyFile, chunk: nat, maxLines: nat, previewBytes: nat, turns: seq<Turn>)
      returns (c: Cursor, ghost shown: seq<TailLine>, endedEarly: bool, failed: Option<ErrorCode>)
    requires maxLines > 0 && previewBytes > 0 && chunk > 0
    ensures failed.Some? ==> CausedBy(turns, failed.value)
    ensures Undisturbed(turns) ==> failed.None?
    ensures failed.None? ==> Scanning(file.Reachable(), c, maxLines, previewBytes, shown) && c.offset == |file.Reachable()|
    ensures failed.None? ==> endedEarly == (|file.content| < file.ReadLimit())
  {
    hide Scanning;
    var readLimit := if file.maxReadBytes < file.observedSize then file.maxReadBytes else file.observedSize;
    ghost var text := file.Reachable();
    c, shown, endedEarly, failed := Cursor(0, 1, 0, 0, [], false, []), [], false, None;
    ScanStarts(text, maxLines, previewBytes);
    var turn := 0;
    while c.offset < readLimit
      invariant 0 <= turn <= |turns| && c.offset <= |text|
      invariant Scanning(text, c, maxLines, previewBytes, shown) && failed.None?
      decreases readLimit - c.offset, |turns| - turn
    {
      var now := Turn(None, Give(readLimit));
      if turn < |turns| {
        now := turns[turn];
        turn := turn + 1;
      }
      if now.stop.Some? {
        failed := Some(Stopped(now.stop.value));
        return;
      }
      if now.read.Fail? {
        failed := Some(ReadFailed);
        return;
      }
      if now.read.Give? {
        var available := Min(Min(now.read.n + 1, Min(readLimit - c.offset, chunk)), |file.content| - c.offset);
        if available == 0 {
          endedEarly := true;
          return;
        }
        var start := c.offset;
        var index := 0;
        while index < available
          invariant 0 <= index <= available && c.offset == start + index
          invariant Scanning(text, c, maxLines, previewBytes, shown)
        {
          c, shown := ScanByte(text, maxLines, previewBytes, file.content[start + index], c, shown);
          index := index + 1;
        }
      }
    }
  }

  // Where the scan ends, the retained lines are the specified ones.
  lemma Concluded(file: ReadOnlyFile, c: Cursor, maxLines: nat, previewBytes: nat, shown: seq<TailLine>)
    requires Scanning(file.Reachable(), c, maxLines, previewBytes, shown) && c.offset == |file.Reachable()|
    requires maxLines > 0 && previewBytes > 0
    ensures var last := if c.unterminated then FinishLine(c, maxLines) else c;
            && last.retained == TailSpec(file, maxLines, previewBytes, false).lines
            && last.lineNumber - 1 == |Lines(file.Reachable(), 0)|
  {
    var text := file.Reachable();
    hide ShowLine;
    if c.unterminated {
      LineFinished(text, c, maxLines, previewBytes, shown);
      assert shown + [ShowLine(c)] == TailLines(text, Lines(text, 0), 1, previewBytes);
    } else {
      assert Lines(text, c.lineStart) == [];
      assert shown == TailLines(text, Lines(text, 0), 1, previewBytes);
    }
  }

  ghost predicate Accepted(file: ReadOnlyFile, limits: Limits, maxLines: nat, initialStop: Option<StopReason>) {
    initialStop.None? && ArgumentsValid(maxLines, limits) && file.observedSize <= limits.maxScanBytes
  }

  /** LogAnalyzer::tail. */
  method Tail(file: ReadOnlyFile, limits: Limits, maxLines: nat,
              initialStop: Option<StopReason>, turns: seq<Turn>, sizeChanged: bool)
      returns (outcome: TailOutcome)
    ensures initialStop.Some? ==> outcome == Error(Stopped(initialStop.value))
    ensures initialStop.None? && !ArgumentsValid(maxLines, limits) ==> outcome == Error(InvalidArguments)
    ensures initialStop.None? && ArgumentsValid(maxLines, limits) && file.observedSize > limits.maxScanBytes ==>
              outcome == Error(InputTooLarge)
    ensures Accepted(file, limits, maxLines, initialStop) ==>
              match outcome
              case Tailed(result) => result == TailSpec(file, maxLines, limits.maxPreviewBytes, sizeChanged)
              case Error(code) => CausedBy(turns, code)
    ensures Accepted(file, limits, maxLines, initialStop) && Undisturbed(turns) ==> outcome.Tailed?
  {
    if initialStop.Some? {
      return Error(Stopped(initialStop.value));
    }
    if maxLines == 0 || maxLines > limits.maxTailLines || limits.maxPreviewBytes == 0 || limits.readChunkBytes == 0 {
      return Error(InvalidArguments);
    }
    if file.observedSize > limits.maxScanBytes {
      return Error(InputTooLarge);
    }
    hide Scanning;
    var c, shown, endedEarly, failed := Scan(file, limits.readChunkBytes, maxLines, limits.maxPreviewBytes, turns);
    if failed.Some? {
      return Error(failed.value);
    }
    Concluded(file, c, maxLines, limits.maxPreviewBytes, shown);
    var scanned := c.offset;
    if c.unterminated {
      c := FinishLine(c, maxLines);
    }
    outcome := Tailed(TailResult(scanned, c.lineNumber - 1, endedEarly || sizeChanged, c.retained));
  }
}
