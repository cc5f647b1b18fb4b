/** determine_consensus: given the peaks of a read and the median distance
    between them, choose how to rebuild the read.
    - Several repeats (median above the cutoff and more than one peak): cut
      the read into subreads, align them with poa, and polish a draft with
      minimap2 and racon. With exactly three peaks (repeat label '2') the
      draft is made by consensus.py from the aligned subreads; otherwise it
      is poa's own consensus row, gaps removed.
    - A single peak (zero repeats): the water alignment of the read against
      itself gives the two overlapping portions, consensus.py merges them,
      and the flanks are put back around the merged piece.
    - Anything else: no consensus.
    The external programs are parameters: each maps what it is given to
    the lines of the file it writes. */
module Consensus {
  import opened Wrappers
  import opened Text
  import opened Dicts
  import opened Lists
  import opened Segments
  import opened FastaReader
  import opened WaterParsing

  /** Default of --mdistcutoff. */
  const DefaultMedianCutoff: int := 500

  /** What goes to racon as the draft: for the pairwise path the aligned
      subreads handed to consensus.py, otherwise poa's consensus row (if
      the alignment has one) written as `>name` and its gap-free bases. */
  datatype Draft = PairDraft(records: Dict) | PoaDraft(consensus: Option<(string, string)>)

  /** The programs determine_consensus runs.
      poa: subreads FASTA to the lines of the aligned (PIR) FASTA;
      polish: the draft and the subreads FASTQ to the lines of the
      racon-polished FASTA; mergePartial: partial.fasta and the two-read
      FASTQ to the lines consensus.py writes. */
  datatype Programs = Programs(
    poa: seq<FastaRecord> -> seq<string>,
    polish: (Draft, seq<FastqRecord>) -> seq<string>,
    mergePartial: ((string, string), seq<FastqRecord>) -> seq<string>)

  /** The branches of determine_consensus. */
  datatype Regime = MultiRepeat | ZeroRepeat | NoConsensus

  /** The returned pair: the corrected consensus and the repeat label. */
  datatype Decision = Decision(consensus: string, repeats: string)

  /** The zero-repeat path fails when water_parser fails (an IndexError or
      ValueError) or when consensus.py wrote no record named 'consensus'
      (the KeyError). */
  datatype ConsensusError = WaterFailed(WaterError) | NoMergedRecord

  /** `median_distance > medDistCutoff and len(peaks) > 1`, then
      `len(peaks) == 1`. A NaN median (None) compares false. */
  function RegimeOf(peaks: seq<int>, median: Option<real>, cutoff: int): Regime {
    if median.Some? && median.value > cutoff as real && |peaks| > 1 then MultiRepeat
    else if |peaks| == 1 then ZeroRepeat
    else NoConsensus
  }

  // ---------------------------------------------------------------------
  // The loops over poa's alignment and over the polished FASTA

  /** `reads[read].replace('-', '')` */
  function RemoveGaps(s: string): (r: string)
    ensures '-' !in r && |r| <= |s|
  {
    if s == [] then []
    else RemoveGaps(s[..|s| - 1]) + (if s[|s| - 1] == '-' then [] else [s[|s| - 1]])
  }

  /** One character fewer per '-', and every other character kept with
      its count. */
  lemma {:induction false} RemoveGapsCount(s: string)
    ensures |RemoveGaps(s)| == |s| - multiset(s)['-']
    ensures multiset(RemoveGaps(s)) == multiset(s)['-' := 0]
  {
    if s != [] {
      var init, c := s[..|s| - 1], s[|s| - 1];
      RemoveGapsCount(init);
      assert s == init + [c];
      var kept := if c == '-' then [] else [c];
      assert multiset(s)['-' := 0] == multiset(init)['-' := 0] + multiset(kept);
    }
  }

  /** The records written to the pairwise file: those whose name does not
      contain 'CONSENS', in dict order. */
  function PairRecords(records: Dict): Dict {
    if records == [] then []
    else
      var r := records[|records| - 1];
      PairRecords(records[..|records| - 1]) + (if Contains(r.0, "CONSENS") then [] else [r])
  }

  /** A record poa marks as its consensus row: its name contains
      'CONSENS0'. */
  predicate Marked(r: (string, string)) {
    Contains(r.0, "CONSENS0")
  }

  /** poa_cons after the loop: rewritten by every record whose name
      contains 'CONSENS0', so the last one wins; never written when there
      is none. */
  function PoaConsensus(name: string, records: Dict): Option<(string, string)> {
    if records == [] then None
    else
      var r := records[|records| - 1];
      if Marked(r) then Some((name, RemoveGaps(r.1)))
      else PoaConsensus(name, records[..|records| - 1])
  }

  /** `for read in reads: corrected_consensus = reads[read]`: the last
      value, or '' when the file has no record. */
  function LastValue(records: Dict): string {
    if records == [] then "" else records[|records| - 1].1
  }

  /** The pairwise loop: `if 'CONSENS' not in read: write it`. */
  method WritePairwise(records: Dict) returns (written: Dict)
    ensures written == PairRecords(records)
  {
    written := [];
    var i := 0;
    while i < |records|
      invariant 0 <= i <= |records|
      invariant written == PairRecords(records[..i])
    {
      assert records[..i + 1][..i] == records[..i];
      if !Contains(records[i].0, "CONSENS") {
        written := written + [records[i]];
      }
      i := i + 1;
    }
    assert records[..i] == records;
  }

  /** The poa consensus loop: `if 'CONSENS0' in read: rewrite poa_cons`. */
  method WritePoaConsensus(name: string, records: Dict) returns (poaCons: Option<(string, string)>)
    ensures poaCons == PoaConsensus(name, records)
  {
    poaCons := None;
    var i := 0;
    while i < |records|
      invariant 0 <= i <= |records|
      invariant poaCons == PoaConsensus(name, records[..i])
    {
      assert records[..i + 1][..i] == records[..i];
      if Marked(records[i]) {
        poaCons := Some((name, RemoveGaps(records[i].1)));
      }
      i := i + 1;
    }
    assert records[..i] == records;
  }

  /** The loop that records the polished consensus back. */
  method LastRecord(records: Dict) returns (corrected: string)
    ensures corrected == LastValue(records)
  {
    corrected := "";
    var i := 0;
    while i < |records|
      invariant 0 <= i <= |records|
      invariant corrected == LastValue(records[..i])
    {
      corrected := records[i].1;
      i := i + 1;
    }
    assert records[..i] == records;
  }

  // ---------------------------------------------------------------------
  // The branches

  /** The draft racon polishes, from the subreads' repeat label and poa's
      alignment. */
  function DraftOf(name: string, repeats: string, aligned: Dict): Draft {
    if repeats == "2" then PairDraft(PairRecords(aligned)) else PoaDraft(PoaConsensus(name, aligned))
  }

  /** The several-repeats branch for at least two peaks. */
  function MultiConsensus(name: string, s: string, peaks: seq<int>, qual: string, programs: Programs): Decision
    requires |peaks| >= 2
  {
    var split := Segments.Split(peaks, s, qual, name);
    var aligned := ReadFastaSpec(programs.poa(split.fasta));
    var draft := DraftOf(name, split.repeats, aligned);
    Decision(LastValue(ReadFastaSpec(programs.polish(draft, split.fastq))), split.repeats)
  }

  /** The two-read FASTQ of the zero-repeat branch: the stretch of each
      aligned portion, inclusive of its end index. */
  function OverlapReads(name: string, s: string, qual: string, before: Span, after: Span): seq<FastqRecord> {
    [FastqRecord(name, Slice(s, before.start, before.end + 1), Slice(qual, before.start, before.end + 1)),
     FastqRecord(name, Slice(s, after.start, after.end + 1), Slice(qual, after.start, after.end + 1))]
  }

  /** The zero-repeat branch: the bases from the seed to the start of the
      second aligned portion, the merged overlap, then the bases from the
      end of the first aligned portion to the seed. */
  function ZeroConsensus(name: string, s: string, qual: string, seed: int, report: seq<string>, programs: Programs)
    : Result<Decision, ConsensusError>
  {
    match WaterParse(report)
    case Err(e) => Err(WaterFailed(e))
    case Ok(out) =>
      var before, after := out.first, out.second;
      var endPortion := Slice(s, before.end, seed);
      var begPortion := Slice(s, seed, after.start);
      var merged := ReadFastaSpec(programs.mergePartial(out.partial, OverlapReads(name, s, qual, before, after)));
      match Lookup(merged, "consensus")
      case None => Err(NoMergedRecord)
      case Some(fromConsensus) => Ok(Decision(begPortion + fromConsensus + endPortion, "0"))
  }

  /** What determine_consensus returns; `report` is the water report the
      zero-repeat branch parses. */
  function Decide(name: string, s: string, peaks: seq<int>, qual: string, median: Option<real>, seed: int,
                  cutoff: int, report: seq<string>, programs: Programs): Result<Decision, ConsensusError>
  {
    match RegimeOf(peaks, median, cutoff)
    case MultiRepeat => Ok(MultiConsensus(name, s, peaks, qual, programs))
    case ZeroRepeat => ZeroConsensus(name, s, qual, seed, report, programs)
    case NoConsensus => Ok(Decision("", ""))
  }

  /** determine_consensus(name, seq, peaks, qual, median_distance, seed) */
  method DetermineConsensus(name: string, s: string, peaks: seq<int>, qual: string, median: Option<real>, seed: int,
                            cutoff: int, report: seq<string>, programs: Programs)
    returns (r: Result<Decision, ConsensusError>)
    ensures r == Decide(name, s, peaks, qual, median, seed, cutoff, report, programs)
  {
    if median.Some? && median.value > cutoff as real && |peaks| > 1 {
      var split := SplitRead(peaks, s, qual, name);
      var repeats := split.value.repeats;
      var aligned := ReadFasta(programs.poa(split.value.fasta));
      var draft: Draft;
      if repeats == "2" {
        var pairwise := WritePairwise(aligned);
        draft := PairDraft(pairwise);
      } else {
        var poaCons := WritePoaConsensus(name, aligned);
        draft := PoaDraft(poaCons);
      }
      var polished := ReadFasta(programs.polish(draft, split.value.fastq));
      var corrected := LastRecord(polished);
      return Ok(Decision(corrected, repeats));
    } else if |peaks| == 1 {
      var parsed := WaterParser(report);
      if parsed.Err? {
        return Err(WaterFailed(parsed.error));
      }
      var before, after := parsed.value.first, parsed.value.second;
      var endPortion := Slice(s, before.end, seed);
      var begPortion := Slice(s, seed, after.start);
      var toGetConsensus := ReadFasta(programs.mergePartial(parsed.value.partial, OverlapReads(name, s, qual, before, after)));
      var seqFromCons := Lookup(toGetConsensus, "consensus");
      if seqFromCons.None? {
        return Err(NoMergedRecord);
      }
      return Ok(Decision(begPortion + seqFromCons.value + endPortion, "0"));
    }
    return Ok(Decision("", ""));
  }

  // ---------------------------------------------------------------------
  // Properties

  /** A NaN median (fewer than two peaks) never takes the several-repeats
      branch, and a single peak always takes the zero-repeat branch,
      whatever the median and the cutoff. */
  lemma SinglePeakIsZeroRepeat(peaks: seq<int>, median: Option<real>, cutoff: int)
    ensures median.None? ==> RegimeOf(peaks, median, cutoff) != MultiRepeat
    ensures |peaks| == 1 <==> RegimeOf(peaks, median, cutoff) == ZeroRepeat
  {
  }

  /** Nothing is built outside the two branches. */
  lemma NoConsensusIsEmpty(name: string, s: string, peaks: seq<int>, qual: string, median: Option<real>, seed: int,
                           cutoff: int, report: seq<string>, programs: Programs)
    requires RegimeOf(peaks, median, cutoff) == NoConsensus
    ensures Decide(name, s, peaks, qual, median, seed, cutoff, report, programs) == Ok(Decision("", ""))
    ensures |peaks| == 0 || (|peaks| >= 2 && (median.None? || median.value <= cutoff as real))
  {
  }

  /** The pairwise path (repeat label '2') is taken exactly when there
      are three peaks, i.e. two inner subreads. */
  lemma PairIffThreePeaks(name: string, s: string, peaks: seq<int>, qual: string)
    requires |peaks| >= 2
    ensures Segments.Split(peaks, s, qual, name).repeats == "2" <==> |peaks| == 3
  {
    SplitRepeats(peaks, s, qual, name);
    NatToStringInjective(|peaks| - 1, 2);
    assert NatToString(2) == "2";
  }

  /** The several-repeats label is the number of peaks less one, and the
      consensus is the last record of the polished FASTA. */
  lemma MultiLabel(name: string, s: string, peaks: seq<int>, qual: string, programs: Programs)
    requires |peaks| >= 2
    ensures var d := MultiConsensus(name, s, peaks, qual, programs);
      && d.repeats == NatToString(|peaks| - 1)
      && d.repeats != "0"
  {
    SplitRepeats(peaks, s, qual, name);
    NatToStringInjective(|peaks| - 1, 0);
    assert NatToString(0) == "0";
  }

  /** Removing gaps keeps every other character in order: it is the
      identity on gap-free text and doing it twice changes nothing. */
  lemma RemoveGapsKeeps(s: string)
    ensures '-' !in s ==> RemoveGaps(s) == s
    ensures RemoveGaps(RemoveGaps(s)) == RemoveGaps(s)
  {
    if '-' !in s {
      GapFree(s);
    }
    GapFree(RemoveGaps(s));
  }

  /** Gaps are removed piece by piece, so what is kept stays in order. */
  lemma {:induction false} RemoveGapsConcat(a: string, b: string)
    ensures RemoveGaps(a + b) == RemoveGaps(a) + RemoveGaps(b)
    decreases |b|
  {
    if b != [] {
      assert (a + b)[..|a + b| - 1] == a + b[..|b| - 1];
      RemoveGapsConcat(a, b[..|b| - 1]);
    } else {
      assert a + b == a;
    }
  }

  lemma {:induction false} GapFree(s: string)
    requires '-' !in s
    ensures RemoveGaps(s) == s
  {
    if s != [] {
      var init := s[..|s| - 1];
      assert '-' !in init;
      GapFree(init);
      assert s == init + [s[|s| - 1]];
    }
  }

  /** The pairwise file holds exactly the aligned records whose name lacks
      'CONSENS'. */
  lemma {:induction false} PairRecordsMembers(records: Dict)
    ensures forall r :: r in PairRecords(records) <==> r in records && !Contains(r.0, "CONSENS")
  {
    if records != [] {
      var init := records[..|records| - 1];
      PairRecordsMembers(init);
      assert records == init + [records[|records| - 1]];
    }
  }

  /** The draft is poa's consensus row exactly when some record's name
      contains 'CONSENS0', and then it is the last such record, gaps
      removed. */
  lemma {:induction false} PoaConsensusLast(name: string, records: Dict)
    ensures PoaConsensus(name, records).None? <==> forall i :: 0 <= i < |records| ==> !Marked(records[i])
    ensures PoaConsensus(name, records).Some? ==>
      exists i :: 0 <= i < |records| && Marked(records[i])
        && PoaConsensus(name, records) == Some((name, RemoveGaps(records[i].1)))
        && forall j :: i < j < |records| ==> !Marked(records[j])
  {
    if records != [] {
      var n := |records| - 1;
      var init := records[..n];
      PoaConsensusLast(name, init);
      if Marked(records[n]) {
        assert PoaConsensus(name, records) == Some((name, RemoveGaps(records[n].1)));
      } else {
        assert PoaConsensus(name, records) == PoaConsensus(name, init);
        forall i | 0 <= i < n ensures records[i] == init[i] { }
        if PoaConsensus(name, init).Some? {
          var i :| 0 <= i < |init| && Marked(init[i])
            && PoaConsensus(name, init) == Some((name, RemoveGaps(init[i].1)))
            && forall j :: i < j < |init| ==> !Marked(init[j]);
          assert records[i] == init[i];
          forall j | i < j < |records| ensures !Marked(records[j]) {
            if j < n { assert records[j] == init[j]; }
          }
        } else {
          forall i | 0 <= i < |records| ensures !Marked(records[i]) {
            if i < n { assert records[i] == init[i]; }
          }
        }
      }
    }
  }

  /** The zero-repeat result: the read from the seed up to the second
      portion, the merged overlap, then the read from the end of the first
      portion up to the seed; its length adds up when the indices lie in
      order within the read. */
  lemma ZeroAssembly(name: string, s: string, qual: string, seed: int, report: seq<string>, programs: Programs)
    requires WaterParse(report).Ok?
    ensures var out := WaterParse(report).value;
      var merged := ReadFastaSpec(programs.mergePartial(out.partial, OverlapReads(name, s, qual, out.first, out.second)));
      && (Lookup(merged, "consensus").None? <==> ZeroConsensus(name, s, qual, seed, report, programs) == Err(NoMergedRecord))
      && (Lookup(merged, "consensus").Some? ==>
            var d := ZeroConsensus(name, s, qual, seed, report, programs).value;
            && d.repeats == "0"
            && d.consensus == Slice(s, seed, out.second.start) + Lookup(merged, "consensus").value + Slice(s, out.first.end, seed)
            && (0 <= out.first.end <= seed <= out.second.start <= |s| ==>
                  |d.consensus| == (out.second.start - seed) + |Lookup(merged, "consensus").value| + (seed - out.first.end)))
  {
  }

  /** A report water_parser cannot use stops the zero-repeat branch with
      its error. */
  lemma ZeroWaterFailure(name: string, s: string, qual: string, seed: int, report: seq<string>, programs: Programs)
    requires WaterParse(report).Err?
    ensures ZeroConsensus(name, s, qual, seed, report, programs) == Err(WaterFailed(WaterParse(report).error))
  {
  }

  /** The polished consensus is the sequence of the last record of the
      polished FASTA when its names are distinct. */
  lemma LastValueOfFasta(records: Dict)
    requires forall i :: 0 <= i < |records| ==> FastaReader.Writable(records[i])
    requires UniqueKeys(records) && records != []
    ensures LastValue(ReadFastaSpec(FastaReader.Render(records))) == records[|records| - 1].1
  {
    FastaRoundTrip(records);
  }
}
