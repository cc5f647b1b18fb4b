/** water_parser: the pairwise alignment report of the zero-repeat path.
    Every stripped line that is not blank, not a '#' comment and not a
    match line (one holding '|') is an alignment row
    `name start bases end`; the rows alternate between the first and the
    second sequence. The result is, for each sequence, the 0-based start of
    its first row and the 0-based end of its last row, together with the
    concatenated gapped bases written to partial.fasta. */
module WaterParsing {
  import opened Wrappers
  import opened Text

  /** One alignment row. */
  datatype AlignRow = AlignRow(start: int, bases: string, end: int)

  /** Why a row cannot be read: `line.split()[2]` or `[3]` past the end
      (IndexError), or `int()` of a non-number (ValueError). */
  datatype RowError = TooFewFields | NotANumber

  /** A bad row with its line index; no row for the first or for the
      second sequence (`posFirstSeq[0]` on an empty list). */
  datatype WaterError = BadRow(lineIndex: nat, reason: RowError) | NoFirstRows | NoSecondRows

  /** The loop's variables. */
  datatype WaterState = WaterState(
    tempFirst: seq<string>, tempSecond: seq<string>,
    posFirst: seq<int>, posSecond: seq<int>, lineNum: nat)

  const Start := WaterState([], [], [], [], 0)

  /** The indices of each sequence's aligned stretch, 0-based, and the
      gapped sequences written to partial.fasta. */
  datatype WaterOutput = WaterOutput(first: Span, second: Span, partial: (string, string))

  /** A pair of indices into a sequence, first and last (inclusive). */
  datatype Span = Span(start: int, end: int)

  /** Lines that are not alignment rows (the line is already stripped). */
  predicate Skipped(line: string) {
    line == [] || StartsWith(line, "#") || Contains(line, "|")
  }

  /** The fields of an alignment row, in the order the source reads them:
      the bases (third word), then the start (second), then the end
      (fourth). */
  function ParseRow(line: string): Result<AlignRow, RowError> {
    var words := Split(line);
    if |words| < 3 then Err(TooFewFields)
    else
      match ParseInt(words[1])
      case None => Err(NotANumber)
      case Some(start) =>
        if |words| < 4 then Err(TooFewFields)
        else
          match ParseInt(words[3])
          case None => Err(NotANumber)
          case Some(end) => Ok(AlignRow(start, words[2], end))
  }

  /** An even row goes to the first sequence, an odd one to the second. */
  function AddRow(st: WaterState, row: AlignRow): WaterState {
    if st.lineNum % 2 == 0 then
      WaterState(st.tempFirst + [row.bases], st.tempSecond,
                 st.posFirst + [row.start, row.end], st.posSecond, st.lineNum + 1)
    else
      WaterState(st.tempFirst, st.tempSecond + [row.bases],
                 st.posFirst, st.posSecond + [row.start, row.end], st.lineNum + 1)
  }

  /** The state after the given lines, or the first bad row. */
  function WaterScan(lines: seq<string>): Result<WaterState, WaterError> {
    if lines == [] then Ok(Start)
    else
      match WaterScan(lines[..|lines| - 1])
      case Err(e) => Err(e)
      case Ok(st) => LineStep(st, |lines| - 1, lines[|lines| - 1])
  }

  /** One line of the report, the index-th: skipped, a bad row, or a row
      added to the state. */
  function LineStep(st: WaterState, index: nat, raw: string): Result<WaterState, WaterError> {
    var line := Strip(raw);
    if Skipped(line) then Ok(st)
    else
      match ParseRow(line)
      case Err(reason) => Err(BadRow(index, reason))
      case Ok(row) => Ok(AddRow(st, row))
  }

  /** What water_parser returns for the report's lines. */
  function WaterParse(lines: seq<string>): Result<WaterOutput, WaterError> {
    match WaterScan(lines)
    case Err(e) => Err(e)
    case Ok(st) => Output(st)
  }

  /** The indices and partial.fasta after the loop. */
  function Output(st: WaterState): Result<WaterOutput, WaterError> {
      if st.posFirst == [] then Err(NoFirstRows)
      else if st.posSecond == [] then Err(NoSecondRows)
      else
        Ok(WaterOutput(
          Span(st.posFirst[0] - 1, st.posFirst[|st.posFirst| - 1] - 1),
          Span(st.posSecond[0] - 1, st.posSecond[|st.posSecond| - 1] - 1),
          (Concat(st.tempFirst), Concat(st.tempSecond))))
  }

  /** The loop of water_parser over the lines of align.whatever. */
  method ScanReport(lines: seq<string>) returns (r: Result<WaterState, WaterError>)
    ensures r == WaterScan(lines)
  {
    var lineNum: nat := 0;
    var posFirstSeq: seq<int> := [];
    var posSecondSeq: seq<int> := [];
    var tempFirst: seq<string> := [];
    var tempSecond: seq<string> := [];
    var i := 0;
    while i < |lines|
      invariant 0 <= i <= |lines|
      invariant ScanPrefix(lines, i) == Ok(WaterState(tempFirst, tempSecond, posFirstSeq, posSecondSeq, lineNum))
    {
      ghost var before := WaterState(tempFirst, tempSecond, posFirstSeq, posSecondSeq, lineNum);
      var skip, parsed := ReadRow(lines[i]);
      PrefixStep(lines, i, before, skip, parsed);
      if !skip {
        if parsed.Err? {
          PrefixScan(lines, i + 1);
          ScanErrorSticks(lines, i + 1);
          return Err(BadRow(i, parsed.error));
        }
        tempFirst, tempSecond, posFirstSeq, posSecondSeq, lineNum :=
          AppendRow(tempFirst, tempSecond, posFirstSeq, posSecondSeq, lineNum, parsed.value);
      }
      i := i + 1;
    }
    PrefixScan(lines, i);
    assert lines[..i] == lines;
    return Ok(WaterState(tempFirst, tempSecond, posFirstSeq, posSecondSeq, lineNum));
  }

  /** One row goes to the first sequence when the rows so far are even in
      number, to the second otherwise. */
  method AppendRow(tempFirst: seq<string>, tempSecond: seq<string>, posFirstSeq: seq<int>,
                   posSecondSeq: seq<int>, lineNum: nat, row: AlignRow)
    returns (tempFirst': seq<string>, tempSecond': seq<string>, posFirstSeq': seq<int>,
             posSecondSeq': seq<int>, lineNum': nat)
    ensures WaterState(tempFirst', tempSecond', posFirstSeq', posSecondSeq', lineNum')
         == AddRow(WaterState(tempFirst, tempSecond, posFirstSeq, posSecondSeq, lineNum), row)
  {
    tempFirst', tempSecond', posFirstSeq', posSecondSeq' := tempFirst, tempSecond, posFirstSeq, posSecondSeq;
    if lineNum % 2 == 0 {
      tempFirst' := tempFirst' + [row.bases];
      posFirstSeq' := posFirstSeq' + [row.start];
      posFirstSeq' := posFirstSeq' + [row.end];
      assert posFirstSeq' == posFirstSeq + [row.start, row.end];
    } else {
      tempSecond' := tempSecond' + [row.bases];
      posSecondSeq' := posSecondSeq' + [row.start];
      posSecondSeq' := posSecondSeq' + [row.end];
      assert posSecondSeq' == posSecondSeq + [row.start, row.end];
    }
    lineNum' := lineNum + 1;
  }

  /** The state after the first n lines, or the first bad row among them,
      counted from the front. */
  function ScanPrefix(lines: seq<string>, n: nat): Result<WaterState, WaterError>
    requires n <= |lines|
  {
    if n == 0 then Ok(Start)
    else
      match ScanPrefix(lines, n - 1)
      case Err(e) => Err(e)
      case Ok(st) => LineStep(st, n - 1, lines[n - 1])
  }

  /** One more line, given what ReadRow makes of it. */
  lemma PrefixStep(lines: seq<string>, i: nat, st: WaterState, skip: bool, parsed: Result<AlignRow, RowError>)
    requires i < |lines| && ScanPrefix(lines, i) == Ok(st)
    requires skip == Skipped(Strip(lines[i]))
    requires !skip ==> parsed == ParseRow(Strip(lines[i]))
    ensures skip ==> ScanPrefix(lines, i + 1) == Ok(st)
    ensures !skip && parsed.Err? ==> ScanPrefix(lines, i + 1) == Err(BadRow(i, parsed.error))
    ensures !skip && parsed.Ok? ==> ScanPrefix(lines, i + 1) == Ok(AddRow(st, parsed.value))
  {
  }

  /** ScanPrefix is WaterScan of the first n lines. */
  lemma {:induction false} PrefixScan(lines: seq<string>, n: nat)
    requires n <= |lines|
    ensures ScanPrefix(lines, n) == WaterScan(lines[..n])
  {
    if n > 0 {
      PrefixScan(lines, n - 1);
      assert lines[..n][..n - 1] == lines[..n - 1];
      assert lines[..n][n - 1] == lines[n - 1];
    }
  }

  /** One line of the report: whether it is skipped, and if not, its row. */
  method ReadRow(raw: string) returns (skip: bool, parsed: Result<AlignRow, RowError>)
    ensures skip == Skipped(Strip(raw))
    ensures !skip ==> parsed == ParseRow(Strip(raw))
  {
    var line := Strip(raw);
    skip := Skipped(line);
    parsed := ParseRow(line);
  }

  /** water_parser(): the loop, then the indices of each sequence. */
  method WaterParser(lines: seq<string>) returns (r: Result<WaterOutput, WaterError>)
    ensures r == WaterParse(lines)
  {
    var scanned := ScanReport(lines);
    if scanned.Err? {
      return Err(scanned.error);
    }
    r := Indices(scanned.value);
  }

  /** After the loop: the first start and the last end of each sequence,
      made 0-based, and the gapped sequences for partial.fasta. */
  method Indices(st: WaterState) returns (r: Result<WaterOutput, WaterError>)
    ensures r == Output(st)
  {
    var posFirstSeq := st.posFirst;
    var posSecondSeq := st.posSecond;
    if posFirstSeq == [] {
      return Err(NoFirstRows);
    }
    if posSecondSeq == [] {
      return Err(NoSecondRows);
    }
    var firstSeqIndeces := Span(posFirstSeq[0] - 1, posFirstSeq[|posFirstSeq| - 1] - 1);
    var secondSeqIndeces := Span(posSecondSeq[0] - 1, posSecondSeq[|posSecondSeq| - 1] - 1);
    var partial := (Concat(st.tempFirst), Concat(st.tempSecond));
    return Ok(WaterOutput(firstSeqIndeces, secondSeqIndeces, partial));
  }

  /** Once a row has failed, the whole report fails with that error. */
  lemma {:induction false} ScanErrorSticks(lines: seq<string>, n: nat)
    requires n <= |lines| && WaterScan(lines[..n]).Err?
    ensures WaterScan(lines) == WaterScan(lines[..n])
    decreases |lines| - n
  {
    if n < |lines| {
      assert lines[..n + 1][..n] == lines[..n];
      ScanErrorSticks(lines, n + 1);
    } else {
      assert lines[..n] == lines;
    }
  }

  // ---------------------------------------------------------------------
  // Properties

  /** The state after some rows, independent of the report's layout. */
  function RowsState(rows: seq<AlignRow>): WaterState {
    if rows == [] then Start else AddRow(RowsState(rows[..|rows| - 1]), rows[|rows| - 1])
  }

  /** The rows alternate: the first sequence gets the rows with an even
      index (one more than the second when their number is odd), and each
      row adds a start and an end. */
  lemma {:induction false} RowsCounts(rows: seq<AlignRow>)
    ensures var st := RowsState(rows);
      && st.lineNum == |rows|
      && |st.tempFirst| == (|rows| + 1) / 2 && |st.tempSecond| == |rows| / 2
      && |st.posFirst| == 2 * |st.tempFirst| && |st.posSecond| == 2 * |st.tempSecond|
  {
    if rows != [] {
      RowsCounts(rows[..|rows| - 1]);
    }
  }

  /** The index of the last row with an even index among n rows. */
  function LastEven(n: nat): (k: nat)
    requires n >= 1
    ensures k < n && k + 2 >= n && k % 2 == 0
  {
    if n <= 2 then 0 else LastEven(n - 2) + 2
  }

  /** The index of the last row with an odd index among n rows. */
  function LastOdd(n: nat): (k: nat)
    requires n >= 2
    ensures k < n && k + 2 >= n && k % 2 == 1
  {
    if n <= 3 then 1 else LastOdd(n - 2) + 2
  }

  /** The indices water_parser reports for the first sequence: the start
      of the first row and the end of the last row with an even index. */
  lemma {:induction false} FirstEnds(rows: seq<AlignRow>)
    requires |rows| >= 1
    ensures RowsState(rows).posFirst != []
    ensures RowsState(rows).posFirst[0] == rows[0].start
    ensures RowsState(rows).posFirst[|RowsState(rows).posFirst| - 1] == rows[LastEven(|rows|)].end
  {
    var n := |rows|;
    var init := rows[..n - 1];
    var prev := RowsState(init);
    var row := rows[n - 1];
    RowsCounts(init);
    assert RowsState(rows) == AddRow(prev, row);
    if n == 1 {
      AddRowEven(prev, row);
    } else {
      FirstEnds(init);
      assert init[0] == rows[0];
      if (n - 1) % 2 == 0 {
        EvenLast(n);
        AddRowEven(prev, row);
      } else {
        if n > 2 {
          OddLast(n);
        }
        var lastEven := LastEven(n);
        assert init[lastEven] == rows[lastEven];
        AddRowOdd(prev, row);
      }
    }
  }

  /** The same for the second sequence: the start of the second row and
      the end of the last row with an odd index. */
  lemma {:induction false} SecondEnds(rows: seq<AlignRow>)
    requires |rows| >= 2
    ensures RowsState(rows).posSecond != []
    ensures RowsState(rows).posSecond[0] == rows[1].start
    ensures RowsState(rows).posSecond[|RowsState(rows).posSecond| - 1] == rows[LastOdd(|rows|)].end
  {
    var n := |rows|;
    var init := rows[..n - 1];
    var prev := RowsState(init);
    var row := rows[n - 1];
    RowsCounts(init);
    assert RowsState(rows) == AddRow(prev, row);
    if n == 2 {
      AddRowOdd(prev, row);
    } else {
      SecondEnds(init);
      assert init[1] == rows[1];
      if (n - 1) % 2 == 0 {
        EvenLast(n);
        var lastOdd := LastOdd(n);
        assert init[lastOdd] == rows[lastOdd];
        AddRowEven(prev, row);
      } else {
        OddLast(n);
        AddRowOdd(prev, row);
      }
    }
  }

  /** A row with an even number goes to the first sequence only. */
  lemma AddRowEven(st: WaterState, row: AlignRow)
    requires st.lineNum % 2 == 0
    ensures AddRow(st, row).posFirst == st.posFirst + [row.start, row.end]
    ensures AddRow(st, row).posSecond == st.posSecond
  {
  }

  /** A row with an odd number goes to the second sequence only. */
  lemma AddRowOdd(st: WaterState, row: AlignRow)
    requires st.lineNum % 2 == 1
    ensures AddRow(st, row).posSecond == st.posSecond + [row.start, row.end]
    ensures AddRow(st, row).posFirst == st.posFirst
  {
  }

  /** When the last of n rows has an even index, it is the last even one
      and the last odd one is unchanged. */
  lemma EvenLast(n: nat)
    requires n >= 3 && (n - 1) % 2 == 0
    ensures LastEven(n) == n - 1 && LastOdd(n) == LastOdd(n - 1)
  {
  }

  /** When the last of n rows has an odd index, it is the last odd one and
      the last even one is unchanged. */
  lemma OddLast(n: nat)
    requires n >= 3 && (n - 1) % 2 == 1
    ensures LastOdd(n) == n - 1 && LastEven(n) == LastEven(n - 1)
  {
  }

  /** The report fails for want of rows exactly when it has none (no
      first sequence) or only one (no second sequence). */
  lemma {:induction false} MissingRows(lines: seq<string>)
    requires WaterScan(lines).Ok?
    ensures WaterParse(lines) == Err(NoFirstRows) <==> WaterScan(lines).value.lineNum == 0
    ensures WaterParse(lines) == Err(NoSecondRows) <==> WaterScan(lines).value.lineNum == 1
    ensures WaterParse(lines).Ok? <==> WaterScan(lines).value.lineNum >= 2
  {
    ScanRows(lines);
    var rows :| WaterScan(lines).value == RowsState(rows);
    RowsCounts(rows);
  }

  /** Every successful scan is the state of the rows it read. */
  lemma {:induction false} ScanRows(lines: seq<string>)
    requires WaterScan(lines).Ok?
    ensures exists rows :: WaterScan(lines).value == RowsState(rows)
  {
    if lines == [] {
      assert WaterScan(lines).value == RowsState([]);
    } else {
      var init := lines[..|lines| - 1];
      ScanRows(init);
      var rows :| WaterScan(init).value == RowsState(rows);
      var line := Strip(lines[|lines| - 1]);
      if !Skipped(line) {
        var row := ParseRow(line).value;
        assert (rows + [row])[..|rows|] == rows;
        assert WaterScan(lines).value == RowsState(rows + [row]);
      }
    }
  }

  // ---------------------------------------------------------------------
  // Round trip

  /** A row that reads back unchanged: a name and bases that are single
      words without '|', the name not starting with '#'. */
  predicate Writable(name: string, row: AlignRow) {
    name != [] && NoSpace(name) && name[0] != '#' && '|' !in name
    && row.bases != [] && NoSpace(row.bases) && '|' !in row.bases
  }

  /** An alignment row as water prints it (one space between fields). */
  function RenderRow(name: string, row: AlignRow): string {
    name + " " + (IntToString(row.start) + " " + (row.bases + " " + IntToString(row.end)))
  }

  /** A rendered row is its own strip() and holds no '|'. */
  lemma RowPlain(name: string, row: AlignRow)
    requires Writable(name, row)
    ensures Strip(RenderRow(name, row)) == RenderRow(name, row)
    ensures !Skipped(RenderRow(name, row))
  {
    var s1 := IntToString(row.start);
    var s2 := IntToString(row.end);
    IntToStringPlain(row.start);
    IntToStringPlain(row.end);
    var line := RenderRow(name, row);
    assert line[0] == name[0];
    assert line[|line| - 1] == s2[|s2| - 1];
    StripUnchanged(line);
    assert '|' !in line by {
      assert line == name + " " + s1 + " " + row.bases + " " + s2;
    }
    NotContains(line, '|');
  }

  /** A rendered row splits into its four fields. */
  lemma RowWords(name: string, row: AlignRow)
    requires Writable(name, row)
    ensures Split(RenderRow(name, row)) == [name, IntToString(row.start), row.bases, IntToString(row.end)]
  {
    var s1 := IntToString(row.start);
    var s2 := IntToString(row.end);
    IntToStringPlain(row.start);
    IntToStringPlain(row.end);
    SplitWord(s2);
    SplitWordThen(row.bases, s2);
    SplitWordThen(s1, row.bases + " " + s2);
    SplitWordThen(name, s1 + " " + (row.bases + " " + s2));
  }

  /** A rendered row is not skipped and parses back to the row. */
  lemma RowRoundTrip(name: string, row: AlignRow)
    requires Writable(name, row)
    ensures Strip(RenderRow(name, row)) == RenderRow(name, row)
    ensures !Skipped(RenderRow(name, row))
    ensures ParseRow(RenderRow(name, row)) == Ok(row)
  {
    RowPlain(name, row);
    RowWords(name, row);
    ParseIntToString(row.start);
    ParseIntToString(row.end);
  }

  function Render(names: seq<string>, rows: seq<AlignRow>): seq<string>
    requires |names| == |rows|
  {
    if rows == [] then []
    else Render(names[..|names| - 1], rows[..|rows| - 1]) + [RenderRow(names[|names| - 1], rows[|rows| - 1])]
  }

  /** Rows printed one per line scan to the state of those rows. */
  lemma {:induction false} ScanRendered(names: seq<string>, rows: seq<AlignRow>)
    requires |names| == |rows|
    requires forall i :: 0 <= i < |rows| ==> Writable(names[i], rows[i])
    ensures WaterScan(Render(names, rows)) == Ok(RowsState(rows))
  {
    if rows != [] {
      var n := |rows| - 1;
      ScanRendered(names[..n], rows[..n]);
      RowRoundTrip(names[n], rows[n]);
      var lines := Render(names, rows);
      assert lines[..|lines| - 1] == Render(names[..n], rows[..n]);
    }
  }

  /** The bases of the rows whose index has the given parity, in order. */
  function Bases(rows: seq<AlignRow>, parity: nat): seq<string> {
    if rows == [] then []
    else
      var n := |rows| - 1;
      Bases(rows[..n], parity) + (if n % 2 == parity then [rows[n].bases] else [])
  }

  /** The first sequence collects the bases of the even rows, the second
      those of the odd rows. */
  lemma {:induction false} RowsBases(rows: seq<AlignRow>)
    ensures RowsState(rows).tempFirst == Bases(rows, 0)
    ensures RowsState(rows).tempSecond == Bases(rows, 1)
  {
    if rows != [] {
      var n := |rows| - 1;
      RowsBases(rows[..n]);
      RowsCounts(rows[..n]);
    }
  }

  /** Two or more rows printed one per line are read back as the first
      row's start and the last row's end for each sequence (0-based), and
      the bases of the even and of the odd rows, each joined in order. */
  lemma WaterRoundTrip(names: seq<string>, rows: seq<AlignRow>)
    requires |names| == |rows| >= 2
    requires forall i :: 0 <= i < |rows| ==> Writable(names[i], rows[i])
    ensures WaterParse(Render(names, rows)).Ok?
    ensures WaterParse(Render(names, rows)).value.first == Span(rows[0].start - 1, rows[LastEven(|rows|)].end - 1)
    ensures WaterParse(Render(names, rows)).value.second == Span(rows[1].start - 1, rows[LastOdd(|rows|)].end - 1)
    ensures WaterParse(Render(names, rows)).value.partial == (Concat(Bases(rows, 0)), Concat(Bases(rows, 1)))
  {
    assert WaterParse(Render(names, rows)) == Output(RowsState(rows)) by {
      ScanRendered(names, rows);
      ParseOfScan(Render(names, rows), RowsState(rows));
    }
    RowsFirst(rows);
    RowsSecond(rows);
    RowsPartial(rows);
  }

  /** What the state after two or more rows reports: the span of the
      first sequence ... */
  lemma RowsFirst(rows: seq<AlignRow>)
    requires |rows| >= 2
    ensures Output(RowsState(rows)).Ok?
    ensures Output(RowsState(rows)).value.first == Span(rows[0].start - 1, rows[LastEven(|rows|)].end - 1)
  {
    var st := RowsState(rows);
    FirstEnds(rows);
    SecondEnds(rows);
    OutputParts(st, rows[0].start, rows[LastEven(|rows|)].end,
                st.posSecond[0], st.posSecond[|st.posSecond| - 1]);
  }

  /** ... the span of the second sequence ... */
  lemma RowsSecond(rows: seq<AlignRow>)
    requires |rows| >= 2
    ensures Output(RowsState(rows)).Ok?
    ensures Output(RowsState(rows)).value.second == Span(rows[1].start - 1, rows[LastOdd(|rows|)].end - 1)
  {
    var st := RowsState(rows);
    FirstEnds(rows);
    SecondEnds(rows);
    OutputParts(st, st.posFirst[0], st.posFirst[|st.posFirst| - 1],
                rows[1].start, rows[LastOdd(|rows|)].end);
  }

  /** ... and the bases of the even and of the odd rows. */
  lemma RowsPartial(rows: seq<AlignRow>)
    requires |rows| >= 2
    ensures Output(RowsState(rows)).Ok?
    ensures Output(RowsState(rows)).value.partial == (Concat(Bases(rows, 0)), Concat(Bases(rows, 1)))
  {
    var st := RowsState(rows);
    FirstEnds(rows);
    SecondEnds(rows);
    RowsBases(rows);
    OutputParts(st, st.posFirst[0], st.posFirst[|st.posFirst| - 1],
                st.posSecond[0], st.posSecond[|st.posSecond| - 1]);
  }

  /** The output of a state with rows for both sequences, part by part. */
  lemma OutputParts(st: WaterState, firstStart: int, firstEnd: int, secondStart: int, secondEnd: int)
    requires st.posFirst != [] && st.posSecond != []
    requires st.posFirst[0] == firstStart && st.posFirst[|st.posFirst| - 1] == firstEnd
    requires st.posSecond[0] == secondStart && st.posSecond[|st.posSecond| - 1] == secondEnd
    ensures Output(st).Ok?
    ensures Output(st).value.first == Span(firstStart - 1, firstEnd - 1)
    ensures Output(st).value.second == Span(secondStart - 1, secondEnd - 1)
    ensures Output(st).value.partial == (Concat(st.tempFirst), Concat(st.tempSecond))
  {
  }

  lemma ParseOfScan(lines: seq<string>, st: WaterState)
    requires WaterScan(lines) == Ok(st)
    ensures WaterParse(lines) == Output(st)
  {
  }
}
