/** read_fasta: the lines of a FASTA file into a dict from header name to
    upper-cased sequence. Lines are taken as the file yields them, with or
    without their line break (each one is rstripped first). */
module FastaReader {
  import opened Wrappers
  import opened Text
  import opened Dicts

  /** The loop's variables: the header names, the finished sequences (one
      pushed at every header, starting with whatever came before the first
      header) and the lines of the sequence being read. */
  datatype FastaState = FastaState(headers: seq<string>, sequences: seq<string>, tempSeqs: seq<string>)

  /** `line.split()[0][1:]` for a header line: its first word without the
      '>'. */
  function HeaderName(line: string): string
    requires StartsWith(line, ">")
  {
    assert !AllSpace(line) by { assert !IsSpace(line[0]); }
    var first := Split(line)[0];
    first[1..]
  }

  /** One line of the loop. */
  function FastaStep(st: FastaState, raw: string): FastaState {
    var line := RStrip(raw);
    if line == [] then st
    else if StartsWith(line, ">") then
      FastaState(st.headers + [HeaderName(line)], st.sequences + [Upper(Concat(st.tempSeqs))], [])
    else FastaState(st.headers, st.sequences, st.tempSeqs + [line])
  }

  /** The state after the given lines. */
  function FastaScan(lines: seq<string>): (st: FastaState)
    ensures |st.sequences| == |st.headers|
  {
    if lines == [] then FastaState([], [], [])
    else FastaStep(FastaScan(lines[..|lines| - 1]), lines[|lines| - 1])
  }

  /** After the loop: push the last sequence and drop the first one. */
  function FinalSequences(st: FastaState): (seqs: seq<string>)
    ensures |seqs| == |st.sequences|
  {
    (st.sequences + [Upper(Concat(st.tempSeqs))])[1..]
  }

  /** `readDict[headers[i]] = sequences[i]` for i below n. */
  function BuildDict(headers: seq<string>, sequences: seq<string>, n: nat): Dict
    requires n <= |headers| && n <= |sequences|
  {
    if n == 0 then [] else Assign(BuildDict(headers, sequences, n - 1), headers[n - 1], sequences[n - 1])
  }

  /** What read_fasta returns for the lines of a file. */
  function ReadFastaSpec(lines: seq<string>): Dict {
    var st := FastaScan(lines);
    BuildDict(st.headers, FinalSequences(st), |st.headers|)
  }

  /** read_fasta(inFile) over the file's lines. */
  method ReadFasta(lines: seq<string>) returns (readDict: Dict)
    ensures readDict == ReadFastaSpec(lines)
  {
    var headers: seq<string> := [];
    var sequences: seq<string> := [];
    var tempSeqs: seq<string> := [];
    var i := 0;
    while i < |lines|
      invariant 0 <= i <= |lines|
      invariant FastaState(headers, sequences, tempSeqs) == FastaScan(lines[..i])
    {
      assert lines[..i + 1][..i] == lines[..i];
      headers, sequences, tempSeqs := ReadLine(headers, sequences, tempSeqs, lines[i]);
      i := i + 1;
    }
    assert lines[..i] == lines;
    ghost var st := FastaState(headers, sequences, tempSeqs);
    sequences := sequences + [Upper(Concat(tempSeqs))];
    sequences := sequences[1..];
    assert sequences == FinalSequences(st);
    readDict := FillDict(headers, sequences);
  }

  /** The loop filling readDict from the two lists. */
  method FillDict(headers: seq<string>, sequences: seq<string>) returns (readDict: Dict)
    requires |headers| == |sequences|
    ensures readDict == BuildDict(headers, sequences, |headers|)
  {
    readDict := [];
    var j := 0;
    while j < |headers|
      invariant 0 <= j <= |headers|
      invariant readDict == BuildDict(headers, sequences, j)
    {
      readDict := Assign(readDict, headers[j], sequences[j]);
      j := j + 1;
    }
  }

  /** The body of the loop over the lines. */
  method ReadLine(headers: seq<string>, sequences: seq<string>, tempSeqs: seq<string>, raw: string)
    returns (headers': seq<string>, sequences': seq<string>, tempSeqs': seq<string>)
    ensures FastaState(headers', sequences', tempSeqs') == FastaStep(FastaState(headers, sequences, tempSeqs), raw)
  {
    headers', sequences', tempSeqs' := headers, sequences, tempSeqs;
    var line := RStrip(raw);
    if line != [] {
      if StartsWith(line, ">") {
        headers' := headers' + [HeaderName(line)];
      }
      if StartsWith(line, ">") {
        sequences' := sequences' + [Upper(Concat(tempSeqs'))];
        tempSeqs' := [];
      } else {
        tempSeqs' := tempSeqs' + [line];
      }
    }
  }

  // ---------------------------------------------------------------------
  // Properties

  /** The dict's keys are distinct. */
  lemma {:induction false} BuildDictUnique(headers: seq<string>, sequences: seq<string>, n: nat)
    requires n <= |headers| && n <= |sequences|
    ensures UniqueKeys(BuildDict(headers, sequences, n))
  {
    if n > 0 {
      BuildDictUnique(headers, sequences, n - 1);
      AssignUnique(BuildDict(headers, sequences, n - 1), headers[n - 1], sequences[n - 1]);
    }
  }

  /** A name that heads no record is not in the dict. */
  lemma {:induction false} BuildDictMissing(headers: seq<string>, sequences: seq<string>, n: nat, h: string)
    requires n <= |headers| && n <= |sequences|
    requires forall j :: 0 <= j < n ==> headers[j] != h
    ensures Lookup(BuildDict(headers, sequences, n), h) == None
  {
    if n > 0 {
      BuildDictMissing(headers, sequences, n - 1, h);
    }
  }

  /** A name maps to the sequence of its last record: later records with
      the same name override earlier ones. */
  lemma {:induction false} BuildDictLast(headers: seq<string>, sequences: seq<string>, n: nat, j: nat)
    requires n <= |headers| && n <= |sequences| && j < n
    requires forall k :: j < k < n ==> headers[k] != headers[j]
    ensures Lookup(BuildDict(headers, sequences, n), headers[j]) == Some(sequences[j])
  {
    if j < n - 1 {
      BuildDictLast(headers, sequences, n - 1, j);
    }
  }

  /** A record that read_fasta reads back unchanged when written as a
      '>' line and one sequence line: a name and a sequence without
      whitespace, the sequence already upper case and not starting with
      '>'. */
  predicate Writable(r: (string, string)) {
    NoSpace(r.0) && NoSpace(r.1) && Upper(r.1) == r.1 && (r.1 == [] || r.1[0] != '>')
  }

  /** The lines of a FASTA file holding the records, one line each for
      header and sequence. */
  function Render(records: Dict): seq<string> {
    if records == [] then []
    else
      var r := records[|records| - 1];
      Render(records[..|records| - 1]) + [">" + r.0, r.1]
  }

  /** The sequence lines waiting after a record's sequence line. */
  function Pending(s: string): seq<string> {
    if s == [] then [] else [s]
  }

  /** The loop state after the lines of the records. */
  function RenderedState(records: Dict): FastaState {
    if records == [] then FastaState([], [], [])
    else
      var init := records[..|records| - 1];
      FastaState(Keys(records), [""] + Values(init), Pending(records[|records| - 1].1))
  }

  lemma ScanAppend(lines: seq<string>, line: string)
    ensures FastaScan(lines + [line]) == FastaStep(FastaScan(lines), line)
  {
    assert (lines + [line])[..|lines|] == lines;
  }

  /** The header line of a writable record adds its name and pushes the
      previous sequence. */
  lemma HeaderStep(st: FastaState, name: string)
    requires NoSpace(name)
    ensures FastaStep(st, ">" + name) ==
      FastaState(st.headers + [name], st.sequences + [Upper(Concat(st.tempSeqs))], [])
  {
    var line := ">" + name;
    assert NoSpace(line) by {
      forall i | 0 <= i < |line| ensures !IsSpace(line[i]) {
        if i > 0 { assert line[i] == name[i - 1]; }
      }
    }
    StripUnchanged(line);
    SplitWord(line);
    assert line[1..] == name;
  }

  /** The sequence line of a writable record becomes the pending line (none
      when it is empty, since empty lines are skipped). */
  lemma SequenceStep(st: FastaState, s: string)
    requires st.tempSeqs == [] && NoSpace(s) && (s == [] || s[0] != '>')
    ensures FastaStep(st, s) == FastaState(st.headers, st.sequences, Pending(s))
  {
    if s != [] {
      StripUnchanged(s);
    }
  }

  /** Joining and upper-casing the pending line gives the sequence back. */
  lemma PendingJoin(s: string)
    requires Upper(s) == s
    ensures Upper(Concat(Pending(s))) == s
  {
    if s != [] {
      assert Concat([s]) == Concat([]) + s;
    }
  }

  /** The state after one more record. */
  lemma RenderedStep(records: Dict)
    requires records != [] && Writable(records[|records| - 1])
    requires |records| >= 2 ==> Writable(records[|records| - 2])
    ensures var init := records[..|records| - 1];
      var st := RenderedState(init);
      var r := records[|records| - 1];
      RenderedState(records) ==
        FastaState(st.headers + [r.0], st.sequences + [Upper(Concat(st.tempSeqs))], Pending(r.1))
  {
    var init := records[..|records| - 1];
    assert Keys(records) == Keys(init) + [records[|records| - 1].0];
    if init != [] {
      var prev := init[|init| - 1].1;
      PendingJoin(prev);
      assert Values(init) == Values(init[..|init| - 1]) + [prev];
    }
  }

  /** The lines of the records leave the loop in RenderedState. */
  lemma {:induction false} ScanRendered(records: Dict)
    requires forall i :: 0 <= i < |records| ==> Writable(records[i])
    ensures FastaScan(Render(records)) == RenderedState(records)
  {
    if records != [] {
      var init := records[..|records| - 1];
      var r := records[|records| - 1];
      var lines := Render(init);
      ScanRendered(init);
      ScanAppend(lines, ">" + r.0);
      assert lines + [">" + r.0, r.1] == (lines + [">" + r.0]) + [r.1];
      ScanAppend(lines + [">" + r.0], r.1);
      var before := FastaScan(lines);
      HeaderStep(before, r.0);
      SequenceStep(FastaStep(before, ">" + r.0), r.1);
      RenderedStep(records);
    }
  }

  /** Written with one header and one sequence line per record, records with
      distinct names read back as the same dict, in the same order. */
  lemma FastaRoundTrip(records: Dict)
    requires forall i :: 0 <= i < |records| ==> Writable(records[i])
    requires UniqueKeys(records)
    ensures ReadFastaSpec(Render(records)) == records
  {
    ScanRendered(records);
    FinalRendered(records);
    BuildDictRecords(records, |records|);
    assert records[..|records|] == records;
  }

  /** After the records' lines, the final sequence list is their
      sequences. */
  lemma FinalRendered(records: Dict)
    requires forall i :: 0 <= i < |records| ==> Writable(records[i])
    ensures RenderedState(records).headers == Keys(records)
    ensures FinalSequences(RenderedState(records)) == Values(records)
  {
    if records != [] {
      var init := records[..|records| - 1];
      var last := records[|records| - 1].1;
      var st := RenderedState(records);
      assert st.sequences == [""] + Values(init);
      assert Upper(Concat(st.tempSeqs)) == last by {
        PendingJoin(last);
      }
      assert FinalSequences(st) == Values(init) + [last] by {
        assert FinalSequences(st) == ([""] + Values(init) + [last])[1..];
      }
      ValuesLast(records);
    }
  }

  lemma ValuesLast(records: Dict)
    requires records != []
    ensures Values(records) == Values(records[..|records| - 1]) + [records[|records| - 1].1]
  {
  }

  lemma {:induction false} BuildDictRecords(records: Dict, n: nat)
    requires UniqueKeys(records) && n <= |records|
    ensures BuildDict(Keys(records), Values(records), n) == records[..n]
  {
    if n > 0 {
      BuildDictRecords(records, n - 1);
      assert records[n - 1].0 !in Keys(records[..n - 1]);
      AssignNew(records[..n - 1], records[n - 1].0, records[n - 1].1);
      assert records[..n] == records[..n - 1] + [records[n - 1]];
    }
  }
}
