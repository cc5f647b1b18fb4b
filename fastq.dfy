/** read_fastq_file: the lines of a FASTQ file into a list of entries. Blank
    lines are skipped and do not advance the line counter; the counter
    modulo 4 says what a line is. A header line starting with '@' opens a
    read named by its first space-separated word, with seed 40; the next
    line is appended as the sequence; the line after that only sets
    lastPlus; the fourth is appended as the quality and closes the read
    (the list becomes a tuple, with the sequence length at the end). */
module FastqReader {
  import opened Wrappers
  import opened Text

  /** The seed every read is given. */
  const Seed: int := 40

  /** A read still being built (a list) or a finished one (a tuple). The
      items are the lines appended after name and seed; a finished read
      also records the length of its first item, `len(read[2])`. */
  datatype Entry =
    | Open(name: string, seed: int, items: seq<string>)
    | Closed(name: string, seed: int, items: seq<string>, length: nat)

  /** `read_list[-1].append` with no read yet is an IndexError; on a
      finished read (a tuple) it is an AttributeError. */
  datatype FastqError = NoRead | ReadClosed

  datatype FastqState = FastqState(entries: seq<Entry>, lineNum: nat, lastPlus: bool)

  const Start := FastqState([], 0, false)

  /** Append a line to the last read. */
  function AppendLine(entries: seq<Entry>, line: string, close: bool): Result<seq<Entry>, FastqError> {
    if entries == [] then Err(NoRead)
    else
      match entries[|entries| - 1]
      case Closed(_, _, _, _) => Err(ReadClosed)
      case Open(name, seed, items) =>
        var items' := items + [line];
        Ok(entries[..|entries| - 1] + [if close then Closed(name, seed, items', |items'[0]|) else Open(name, seed, items')])
  }

  /** The name on a header line: `line[1:].split(' ')[0]`. */
  function ReadName(line: string): string
    requires line != []
  {
    SplitOn(line[1..], ' ')[0]
  }

  /** One line of the loop. */
  function FastqStep(st: FastqState, raw: string): Result<FastqState, FastqError> {
    var line := RStrip(raw);
    if line == [] then Ok(st)
    else
      var k := st.lineNum % 4;
      var next := st.lineNum + 1;
      if k == 0 then
        if line[0] == '@' then Ok(FastqState(st.entries + [Open(ReadName(line), Seed, [])], next, st.lastPlus))
        else Ok(FastqState(st.entries, next, st.lastPlus))
      else if k == 1 then
        match AppendLine(st.entries, line, false)
        case Err(e) => Err(e)
        case Ok(entries) => Ok(FastqState(entries, next, st.lastPlus))
      else if k == 2 then Ok(FastqState(st.entries, next, true))
      else if st.lastPlus then
        match AppendLine(st.entries, line, true)
        case Err(e) => Err(e)
        case Ok(entries) => Ok(FastqState(entries, next, st.lastPlus))
      else Ok(FastqState(st.entries, next, st.lastPlus))
  }

  /** The state after the given lines, or the first error. */
  function FastqScan(lines: seq<string>): Result<FastqState, FastqError> {
    if lines == [] then Ok(Start)
    else
      match FastqScan(lines[..|lines| - 1])
      case Err(e) => Err(e)
      case Ok(st) => FastqStep(st, lines[|lines| - 1])
  }

  /** read_fastq_file(seq_file) over the file's lines. */
  method ReadFastqFile(lines: seq<string>) returns (r: Result<seq<Entry>, FastqError>)
    ensures FastqScan(lines).Err? ==> r == Err(FastqScan(lines).error)
    ensures FastqScan(lines).Ok? ==> r == Ok(FastqScan(lines).value.entries)
  {
    var readList: seq<Entry> := [];
    var lineNum: nat := 0;
    var lastPlus := false;
    var i := 0;
    while i < |lines|
      invariant 0 <= i <= |lines|
      invariant FastqScan(lines[..i]) == Ok(FastqState(readList, lineNum, lastPlus))
    {
      assert lines[..i + 1][..i] == lines[..i];
      var line := RStrip(lines[i]);
      if line != [] {
        if lineNum % 4 == 0 && line[0] == '@' {
          var root := SplitOn(line[1..], ' ')[0];
          readList := readList + [Open(root, Seed, [])];
        }
        if lineNum % 4 == 1 {
          var appended := AppendLine(readList, line, false);
          if appended.Err? {
            ScanErrorSticks(lines, i + 1);
            return Err(appended.error);
          }
          readList := appended.value;
        }
        if lineNum % 4 == 2 {
          lastPlus := true;
        }
        if lineNum % 4 == 3 && lastPlus {
          var appended := AppendLine(readList, line, true);
          if appended.Err? {
            ScanErrorSticks(lines, i + 1);
            return Err(appended.error);
          }
          readList := appended.value;
        }
        lineNum := lineNum + 1;
      }
      i := i + 1;
    }
    assert lines[..i] == lines;
    return Ok(readList);
  }

  /** Once a line has failed, the whole file fails with that error. */
  lemma {:induction false} ScanErrorSticks(lines: seq<string>, n: nat)
    requires n <= |lines| && FastqScan(lines[..n]).Err?
    ensures FastqScan(lines) == FastqScan(lines[..n])
    decreases |lines| - n
  {
    if n < |lines| {
      assert lines[..n + 1][..n] == lines[..n];
      ScanErrorSticks(lines, n + 1);
    } else {
      assert lines[..n] == lines;
    }
  }

  // ---------------------------------------------------------------------
  // Properties

  /** The shape of the entries at each point of the 4-line cycle: every read
      but the last is finished with exactly a sequence and a quality, and
      the last is finished too, or is open with as many items as the cycle
      has reached (none after the header, the sequence after that). */
  predicate WellShaped(st: FastqState) {
    && (st.lastPlus <==> st.lineNum >= 3)
    && (forall i :: 0 <= i < |st.entries| ==> st.entries[i].seed == Seed)
    && (forall i :: 0 <= i < |st.entries| - 1 ==> Finished(st.entries[i]))
    && (st.entries != [] ==> LastFits(st.entries[|st.entries| - 1], st.lineNum % 4))
  }

  /** A read closed with one sequence and one quality, its length that of
      the sequence. */
  predicate Finished(e: Entry) {
    e.Closed? && |e.items| == 2 && e.length == |e.items[0]|
  }

  predicate LastFits(e: Entry, k: nat) {
    Finished(e) || (e.Open? && k != 0 && |e.items| == (if k == 1 then 0 else 1))
  }

  /** What appending to the last read does when it succeeds: the reads
      before it are untouched and the last one, which was open, gets the
      line as one more item (and is closed with the length of its first
      item when `close` is set). */
  lemma AppendShape(entries: seq<Entry>, line: string, close: bool)
    requires AppendLine(entries, line, close).Ok?
    ensures var r := AppendLine(entries, line, close).value;
      var last := entries[|entries| - 1];
      && |r| == |entries| && last.Open?
      && (forall i :: 0 <= i < |r| - 1 ==> r[i] == entries[i])
      && r[|r| - 1].seed == last.seed
      && r[|r| - 1].items == last.items + [line]
      && r[|r| - 1].Closed? == close
      && (close ==> r[|r| - 1].length == |r[|r| - 1].items[0]|)
  {
  }

  /** Every line keeps the entries well shaped; in particular lastPlus is
      always set by the time a quality line comes, so that test never
      skips one. */
  lemma StepWellShaped(st: FastqState, raw: string)
    requires WellShaped(st) && FastqStep(st, raw).Ok?
    ensures WellShaped(FastqStep(st, raw).value)
  {
    var line := RStrip(raw);
    var k := st.lineNum % 4;
    if line != [] {
      if k == 1 {
        AppendWellShaped(st, line, false);
      } else if k == 3 && st.lastPlus {
        AppendWellShaped(st, line, true);
      } else if k == 0 && line[0] == '@' {
        HeaderShape(st, ReadName(line));
      }
    }
  }

  /** The sequence or quality line appended to the open read. */
  lemma AppendWellShaped(st: FastqState, line: string, close: bool)
    requires WellShaped(st) && AppendLine(st.entries, line, close).Ok?
    requires st.lineNum % 4 == (if close then 3 else 1)
    ensures WellShaped(FastqState(AppendLine(st.entries, line, close).value, st.lineNum + 1, st.lastPlus))
  {
    AppendShape(st.entries, line, close);
  }

  lemma HeaderShape(st: FastqState, name: string)
    requires WellShaped(st) && st.lineNum % 4 == 0
    ensures WellShaped(FastqState(st.entries + [Open(name, Seed, [])], st.lineNum + 1, st.lastPlus))
  {
  }

  lemma {:induction false} ScanWellShaped(lines: seq<string>)
    requires FastqScan(lines).Ok?
    ensures WellShaped(FastqScan(lines).value)
  {
    if lines != [] {
      var init := lines[..|lines| - 1];
      ScanWellShaped(init);
      StepWellShaped(FastqScan(init).value, lines[|lines| - 1]);
    }
  }

  /** What read_fastq_file returns for a file it accepts: every read has
      seed 40, every read but the last is finished with one sequence and
      one quality, and the last one is finished too when the file ends at
      a record boundary. */
  lemma ReadsShape(lines: seq<string>)
    requires FastqScan(lines).Ok?
    ensures var st := FastqScan(lines).value;
      && (forall i :: 0 <= i < |st.entries| ==> st.entries[i].seed == Seed)
      && (forall i :: 0 <= i < |st.entries| - 1 ==> Finished(st.entries[i]))
      && (st.lineNum % 4 == 0 && st.entries != [] ==> Finished(st.entries[|st.entries| - 1]))
  {
    ScanWellShaped(lines);
  }

  // ---------------------------------------------------------------------
  // Round trip

  /** A read that comes back unchanged when written as four lines: no
      whitespace anywhere, and a non-empty sequence and quality. */
  predicate Writable(r: FastqRecord) {
    NoSpace(r.name) && r.sequence != [] && NoSpace(r.sequence) && r.quality != [] && NoSpace(r.quality)
  }

  datatype FastqRecord = FastqRecord(name: string, sequence: string, quality: string)

  function Render(records: seq<FastqRecord>): seq<string> {
    if records == [] then []
    else
      var r := records[|records| - 1];
      Render(records[..|records| - 1]) + ["@" + r.name, r.sequence, "+", r.quality]
  }

  /** The finished read a record is read back as. */
  function ReadBack(r: FastqRecord): Entry {
    Closed(r.name, Seed, [r.sequence, r.quality], |r.sequence|)
  }

  function Expected(records: seq<FastqRecord>): (entries: seq<Entry>)
    ensures |entries| == |records|
  {
    seq(|records|, i requires 0 <= i < |records| => ReadBack(records[i]))
  }

  lemma ScanAppend(lines: seq<string>, line: string)
    requires FastqScan(lines).Ok?
    ensures FastqScan(lines + [line]) == FastqStep(FastqScan(lines).value, line)
  {
    assert (lines + [line])[..|lines|] == lines;
  }

  /** A line without whitespace is read as it is. */
  lemma Unstripped(line: string)
    requires line != [] && NoSpace(line)
    ensures RStrip(line) == line
  {
    StripUnchanged(line);
  }

  /** The header line opens the read, named in full. */
  lemma HeaderLine(entries: seq<Entry>, n: nat, name: string)
    requires NoSpace(name)
    ensures FastqStep(FastqState(entries, 4 * n, n > 0), "@" + name)
      == Ok(FastqState(entries + [Open(name, Seed, [])], 4 * n + 1, n > 0))
  {
    var header := "@" + name;
    assert NoSpace(header) by {
      forall i | 0 <= i < |header| ensures !IsSpace(header[i]) {
        if i > 0 { assert header[i] == name[i - 1]; }
      }
    }
    Unstripped(header);
    assert header[1..] == name;
    assert IsSpace(' ');
    assert ReadName(header) == name;
  }

  /** The sequence line becomes the open read's first item. */
  lemma SequenceLine(entries: seq<Entry>, n: nat, name: string, s: string, lastPlus: bool)
    requires s != [] && NoSpace(s)
    ensures FastqStep(FastqState(entries + [Open(name, Seed, [])], 4 * n + 1, lastPlus), s)
      == Ok(FastqState(entries + [Open(name, Seed, [s])], 4 * n + 2, lastPlus))
  {
    Unstripped(s);
    assert (4 * n + 1) % 4 == 1;
    var st := FastqState(entries + [Open(name, Seed, [])], 4 * n + 1, lastPlus);
    assert st.entries[..|entries|] == entries;
    assert [] + [s] == [s];
    assert AppendLine(st.entries, s, false) == Ok(entries + [Open(name, Seed, [s])]);
  }

  /** The '+' line only sets lastPlus. */
  lemma PlusLine(entries: seq<Entry>, n: nat, lastPlus: bool)
    ensures FastqStep(FastqState(entries, 4 * n + 2, lastPlus), "+")
      == Ok(FastqState(entries, 4 * n + 3, true))
  {
    Unstripped("+");
    assert (4 * n + 2) % 4 == 2;
  }

  /** The quality line finishes the read. */
  lemma QualityLine(entries: seq<Entry>, n: nat, r: FastqRecord)
    requires Writable(r)
    ensures FastqStep(FastqState(entries + [Open(r.name, Seed, [r.sequence])], 4 * n + 3, true), r.quality)
      == Ok(FastqState(entries + [ReadBack(r)], 4 * n + 4, true))
  {
    Unstripped(r.quality);
    assert (4 * n + 3) % 4 == 3;
    var st := FastqState(entries + [Open(r.name, Seed, [r.sequence])], 4 * n + 3, true);
    assert st.entries[..|entries|] == entries;
    assert [r.sequence] + [r.quality] == [r.sequence, r.quality];
    assert AppendLine(st.entries, r.quality, true) == Ok(entries + [ReadBack(r)]);
  }

  /** The four lines of one record, after whole records, finish one more
      read: `whole` is `lines` followed by the record's lines, and `after`
      the reads of `lines` followed by the record's. */
  lemma RecordLines(lines: seq<string>, entries: seq<Entry>, n: nat, r: FastqRecord, whole: seq<string>, after: seq<Entry>, m: nat, some: bool)
    requires Writable(r)
    requires FastqScan(lines) == Ok(FastqState(entries, 4 * n, n > 0))
    requires whole == lines + ["@" + r.name, r.sequence, "+", r.quality]
    requires after == entries + [ReadBack(r)]
    requires m == 4 * n + 4 && some
    ensures FastqScan(whole) == Ok(FastqState(after, m, some))
  {
    var l1 := lines + ["@" + r.name];
    var l2 := l1 + [r.sequence];
    var l3 := l2 + ["+"];
    ScanAppend(lines, "@" + r.name);
    HeaderLine(entries, n, r.name);
    ScanAppend(l1, r.sequence);
    SequenceLine(entries, n, r.name, r.sequence, n > 0);
    ScanAppend(l2, "+");
    PlusLine(entries + [Open(r.name, Seed, [r.sequence])], n, n > 0);
    ScanAppend(l3, r.quality);
    QualityLine(entries, n, r);
    assert whole == l3 + [r.quality];
  }

  /** The reads of the records, built up from the back as Render is. */
  function ReadsBack(records: seq<FastqRecord>): seq<Entry> {
    if records == [] then []
    else ReadsBack(records[..|records| - 1]) + [ReadBack(records[|records| - 1])]
  }

  /** Records written as '@name', sequence, '+', quality are read back as
      finished reads with seed 40 and the length of their sequence. */
  lemma FastqRoundTrip(records: seq<FastqRecord>)
    requires forall i :: 0 <= i < |records| ==> Writable(records[i])
    ensures FastqScan(Render(records)) == Ok(FastqState(Expected(records), 4 * |records|, |records| > 0))
  {
    ScanRender(records);
    ReadsBackExpected(records);
  }

  lemma {:induction false} ScanRender(records: seq<FastqRecord>)
    requires forall i :: 0 <= i < |records| ==> Writable(records[i])
    ensures FastqScan(Render(records)) == Ok(FastqState(ReadsBack(records), 4 * |records|, |records| > 0))
  {
    if records != [] {
      var init := records[..|records| - 1];
      var r := records[|records| - 1];
      WritablePrefix(records);
      ScanRender(init);
      RecordLines(Render(init), ReadsBack(init), |init|, r, Render(records), ReadsBack(records), 4 * |records|, |records| > 0);
    }
  }

  lemma WritablePrefix(records: seq<FastqRecord>)
    requires records != []
    requires forall i :: 0 <= i < |records| ==> Writable(records[i])
    ensures var init := records[..|records| - 1];
      && (forall i :: 0 <= i < |init| ==> Writable(init[i]))
      && Writable(records[|records| - 1])
  {
  }

  lemma {:induction false} ReadsBackExpected(records: seq<FastqRecord>)
    ensures ReadsBack(records) == Expected(records)
  {
    if records != [] {
      var init := records[..|records| - 1];
      ReadsBackExpected(init);
      forall i | 0 <= i < |records| ensures ReadsBack(records)[i] == Expected(records)[i] {
        if i < |init| { assert records[i] == init[i]; }
      }
    }
  }
}
