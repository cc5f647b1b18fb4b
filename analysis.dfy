/** analyze_reads: for each read longer than the length cutoff, score the
    self-alignment diagonals on both sides of the seed, call the repeat
    peaks, fall back to aligning the whole read against itself when only
    the seed was found, and append the consensus determine_consensus builds
    to the output FASTA. The output file is the sequence of records
    written; the record header carries the read name, the average quality
    label, the read length, the repeat label and the consensus length. */
module Analysis {
  import opened Wrappers
  import opened Text
  import opened Lists
  import opened Bases
  import opened Diagonals
  import opened Smoothing
  import opened PeakCalling
  import opened Segments
  import opened FastqReader
  import opened Consensus

  /** Default of --slencutoff. */
  const DefaultLengthCutoff: int := 1000

  /** The two cutoffs from the command line. */
  datatype Settings = Settings(lengthCutoff: int, medianCutoff: int)

  /** The external pieces analyze_reads depends on: the water aligner
      behind split_SW, the lines of the water report (the alignment of the
      read with itself that water_parser reads after the whole-read
      split_SW), the smoothing filter, the programs determine_consensus
      runs, and `str(round(average_quals, 2))` of a quality line. */
  datatype Tools = Tools(
    align: Aligner,
    waterReport: (string, string) -> seq<string>,
    filter: Filter,
    programs: Programs,
    qualityLabel: string -> string)

  /** One unpacked entry of read_list. */
  datatype Read = Read(name: string, seed: int, sequence: string, quality: string, length: int)

  /** Why the loop stops: an entry that does not unpack into six values
      (a read left unfinished at the end of the file), a character revComp
      has no complement for, `peaks.remove(seed)` without the seed, or a
      failure inside determine_consensus. */
  datatype ReadError = NotUnpackable | BadBase(c: char) | SeedMissing | ConsensusFailed(e: ConsensusError)

  /** What one iteration does: fail, write nothing, or write a record. */
  type Outcome = Result<Option<FastaRecord>, ReadError>

  /** The records written before the loop ended, and why it ended early. */
  datatype Run = Run(written: seq<FastaRecord>, failure: Option<ReadError>)

  /** `for name, seed, seq, qual, average_quals, seq_length in read_list`:
      only a finished read is a six-tuple. */
  function Unpack(e: Entry): Option<Read> {
    if e.Closed? && |e.items| == 2 then Some(Read(e.name, e.seed, e.items[0], e.items[1], e.length))
    else None
  }

  /** The list split_SW returns for a sequence. */
  function ScoreList(s: string, sliding: bool, align: Aligner): seq<int> {
    Emit(Aggregate(map[], SplitWindows(s, sliding), align))
  }

  /** list.remove(x): drop the first occurrence, or None for the
      ValueError when x is absent. */
  function Remove(p: seq<int>, x: int): (r: Option<seq<int>>)
    ensures r.None? <==> x !in p
    ensures r.Some? ==> |r.value| == |p| - 1 && multiset(r.value) + multiset{x} == multiset(p)
    ensures r.Some? ==> exists k :: 0 <= k < |p| && p[k] == x && x !in p[..k] && r.value == p[..k] + p[k + 1..]
  {
    if p == [] then None
    else if p[0] == x then
      assert p == [p[0]] + p[1..];
      assert p[..0] == [];
      Some(p[1..])
    else
      match Remove(p[1..], x)
      case None => None
      case Some(rest) =>
        assert p == [p[0]] + p[1..];
        RemoveStep(p, x, rest);
        Some([p[0]] + rest)
  }

  /** The first occurrence in p[1..] is the first one in p when p[0] is
      not x. */
  lemma RemoveStep(p: seq<int>, x: int, rest: seq<int>)
    requires p != [] && p[0] != x
    requires exists k :: 0 <= k < |p| - 1 && p[1..][k] == x && x !in p[1..][..k] && rest == p[1..][..k] + p[1..][k + 1..]
    ensures exists k :: 0 <= k < |p| && p[k] == x && x !in p[..k] && [p[0]] + rest == p[..k] + p[k + 1..]
  {
    var k :| 0 <= k < |p| - 1 && p[1..][k] == x && x !in p[1..][..k] && rest == p[1..][..k] + p[1..][k + 1..];
    assert p[..k + 1] == [p[0]] + p[1..][..k];
    assert p[k + 2..] == p[1..][k + 1..];
  }

  /** The peaks and median distance handed to determine_consensus, or
      None for the `continue` when the whole-read alignment does not give
      exactly two peaks. */
  function PeaksFor(r: Read, tools: Tools): Result<Option<(seq<int>, Option<real>)>, ReadError> {
    match RevComp(Slice(r.sequence, 0, r.seed))
    case Err(c) => Err(BadBase(c))
    case Ok(reverse) =>
      var scoreF := ScoreList(Slice(r.sequence, r.seed, |r.sequence|), true, tools.align);
      var scoreR := ScoreList(reverse, true, tools.align);
      PeaksFrom(CalledPeaks(scoreF, scoreR, r.seed, tools.filter), ScoreList(r.sequence, false, tools.align), r.seed, tools.filter)
  }

  /** After the first callPeaks: keep its peaks unless it found only one,
      and then call peaks again on the whole-read scores. */
  function PeaksFrom(peaks: seq<int>, wholeScores: seq<int>, seed: int, filter: Filter)
    : Result<Option<(seq<int>, Option<real>)>, ReadError>
  {
    if |peaks| == 1 then Fallback(CalledPeaks(wholeScores, [], seed, filter), seed)
    else Ok(Some((peaks, Median(RoundedGaps(peaks)))))
  }

  /** `if len(peaks) == 2: peaks.remove(seed)`, else `continue`. */
  function Fallback(whole: seq<int>, seed: int): Result<Option<(seq<int>, Option<real>)>, ReadError> {
    if |whole| == 2 then
      match Remove(whole, seed)
      case None => Err(SeedMissing)
      case Some(rest) => Ok(Some((rest, Median(RoundedGaps(whole)))))
    else Ok(None)
  }

  /** The header line of a consensus record, without its '>'. */
  function Header(r: Read, quality: string, repeats: string, consensus: string): string {
    (r.name + "_") + (quality + "_" + IntToString(r.length) + "_" + repeats) + ("_" + NatToString(|consensus|))
  }

  /** determine_consensus and the write that follows it, for the peaks
      and median of a read. */
  function Finish(r: Read, called: (seq<int>, Option<real>), settings: Settings, tools: Tools)
    : Result<Option<FastaRecord>, ReadError>
  {
    var report := tools.waterReport(r.sequence, r.sequence);
    match Decide(r.name, r.sequence, called.0, r.quality, called.1, r.seed, settings.medianCutoff, report, tools.programs)
    case Err(e) => Err(ConsensusFailed(e))
    case Ok(d) => Ok(Written(r, tools.qualityLabel(r.quality), d))
  }

  /** `if final_consensus:` write the record. */
  function Written(r: Read, quality: string, d: Decision): Option<FastaRecord> {
    if d.consensus == [] then None
    else Some(FastaRecord(Header(r, quality, d.repeats, d.consensus), d.consensus))
  }

  /** What one iteration writes: nothing for a short read, a `continue`
      or an empty consensus, otherwise one record. */
  function ReadOutcome(r: Read, settings: Settings, tools: Tools): Result<Option<FastaRecord>, ReadError> {
    if !(settings.lengthCutoff < r.length) then Ok(None)
    else
      match PeaksFor(r, tools)
      case Err(e) => Err(e)
      case Ok(None) => Ok(None)
      case Ok(Some(called)) => Finish(r, called, settings, tools)
  }

  /** One entry of read_list: unpacked, then analysed. */
  function EntryOutcome(e: Entry, settings: Settings, tools: Tools): Result<Option<FastaRecord>, ReadError> {
    match Unpack(e)
    case None => Err(NotUnpackable)
    case Some(r) => ReadOutcome(r, settings, tools)
  }

  /** What the iterations over a list of entries produce, in order. */
  function Outcomes(entries: seq<Entry>, settings: Settings, tools: Tools): seq<Outcome> {
    seq(|entries|, i requires 0 <= i < |entries| => EntryOutcome(entries[i], settings, tools))
  }

  /** The loop over read_list, stopping at the first exception. */
  function Analyze(entries: seq<Entry>, settings: Settings, tools: Tools): Run {
    Fold(Outcomes(entries, settings, tools))
  }

  /** The records of the iterations in turn, up to the first failure. */
  function Fold(outcomes: seq<Outcome>): Run {
    if outcomes == [] then Run([], None)
    else
      var before := Fold(outcomes[..|outcomes| - 1]);
      if before.failure.Some? then before
      else
        match outcomes[|outcomes| - 1]
        case Err(e) => Run(before.written, Some(e))
        case Ok(None) => before
        case Ok(Some(record)) => Run(before.written + [record], None)
  }

  // ---------------------------------------------------------------------
  // The methods

  /** A score list as the array callPeaks clamps in place. */
  method ToArray(s: seq<int>) returns (a: array<int>)
    ensures fresh(a) && a[..] == s
  {
    a := new int[|s|](i requires 0 <= i < |s| => s[i]);
  }

  /** One iteration of analyze_reads. */
  method AnalyzeRead(r: Read, settings: Settings, tools: Tools) returns (out: Result<Option<FastaRecord>, ReadError>)
    ensures out == ReadOutcome(r, settings, tools)
  {
    if !(settings.lengthCutoff < r.length) {
      return Ok(None);
    }
    var forward := Slice(r.sequence, r.seed, |r.sequence|);
    var scoreListF := SplitSW(forward, true, tools.align);
    var reverse := RevComp(Slice(r.sequence, 0, r.seed));
    if reverse.Err? {
      return Err(BadBase(reverse.error));
    }
    var scoreListR := SplitSW(reverse.value, true, tools.align);
    var f := ToArray(scoreListF);
    var b := ToArray(scoreListR);
    var peaks, medianDistance := CallPeaks(f, b, r.seed, tools.filter);
    if |peaks| == 1 {
      var scoreList := SplitSW(r.sequence, false, tools.align);
      var whole := ToArray(scoreList);
      var slr := ToArray([]);
      peaks, medianDistance := CallPeaks(whole, slr, r.seed, tools.filter);
      if |peaks| == 2 {
        var rest := Remove(peaks, r.seed);
        if rest.None? {
          return Err(SeedMissing);
        }
        peaks := rest.value;
      } else {
        return Ok(None);
      }
    }
    var report := tools.waterReport(r.sequence, r.sequence);
    var decided := DetermineConsensus(r.name, r.sequence, peaks, r.quality, medianDistance, r.seed,
                                      settings.medianCutoff, report, tools.programs);
    if decided.Err? {
      return Err(ConsensusFailed(decided.error));
    }
    var finalConsensus := decided.value.consensus;
    if finalConsensus == [] {
      return Ok(None);
    }
    var header := Header(r, tools.qualityLabel(r.quality), decided.value.repeats, finalConsensus);
    return Ok(Some(FastaRecord(header, finalConsensus)));
  }

  /** One entry: unpack it, then analyse the read. */
  method AnalyzeEntry(e: Entry, settings: Settings, tools: Tools) returns (out: Result<Option<FastaRecord>, ReadError>)
    ensures out == EntryOutcome(e, settings, tools)
  {
    var r := Unpack(e);
    if r.None? {
      return Err(NotUnpackable);
    }
    out := AnalyzeRead(r.value, settings, tools);
  }

  /** analyze_reads(read_list): the records appended to the output file. */
  method AnalyzeReads(entries: seq<Entry>, settings: Settings, tools: Tools) returns (run: Run)
    ensures run == Analyze(entries, settings, tools)
  {
    ghost var outcomes := Outcomes(entries, settings, tools);
    var written: seq<FastaRecord> := [];
    var i := 0;
    while i < |entries|
      invariant 0 <= i <= |entries|
      invariant Fold(outcomes[..i]) == Run(written, None)
    {
      var out := AnalyzeEntry(entries[i], settings, tools);
      assert out == outcomes[i];
      FoldStep(outcomes, i);
      if out.Err? {
        FoldStopsAfter(outcomes, i + 1);
        return Run(written, Some(out.error));
      }
      if out.value.Some? {
        written := written + [out.value.value];
      }
      i := i + 1;
    }
    assert outcomes[..i] == outcomes;
    return Run(written, None);
  }

  // ---------------------------------------------------------------------
  // The loop

  /** One more iteration, when the ones before it all went through. */
  lemma FoldStep(outcomes: seq<Outcome>, i: nat)
    requires i < |outcomes|
    requires Fold(outcomes[..i]).failure.None?
    ensures var before := Fold(outcomes[..i]);
      Fold(outcomes[..i + 1]) ==
        match outcomes[i]
        case Err(e) => Run(before.written, Some(e))
        case Ok(None) => before
        case Ok(Some(record)) => Run(before.written + [record], None)
  {
    assert outcomes[..i + 1][..i] == outcomes[..i];
  }

  /** Once an iteration fails, the ones after it change nothing. */
  lemma {:induction false} FoldStopsAfter(outcomes: seq<Outcome>, n: nat)
    requires n <= |outcomes|
    requires Fold(outcomes[..n]).failure.Some?
    ensures Fold(outcomes) == Fold(outcomes[..n])
  {
    if n < |outcomes| {
      var init := outcomes[..|outcomes| - 1];
      assert init[..n] == outcomes[..n];
      FoldStopsAfter(init, n);
    } else {
      assert outcomes[..n] == outcomes;
    }
  }

  /** The loop ends early exactly when some iteration fails, and then with
      the error of the first one that does. */
  lemma {:induction false} FoldFailure(outcomes: seq<Outcome>)
    ensures Fold(outcomes).failure.None? <==> forall i :: 0 <= i < |outcomes| ==> outcomes[i].Ok?
    ensures Fold(outcomes).failure.Some? ==>
      exists i :: 0 <= i < |outcomes| && outcomes[i] == Err(Fold(outcomes).failure.value)
        && forall j :: 0 <= j < i ==> outcomes[j].Ok?
  {
    if outcomes != [] {
      var n := |outcomes| - 1;
      var init := outcomes[..n];
      FoldFailure(init);
      forall i | 0 <= i < n ensures init[i] == outcomes[i] { }
      if Fold(init).failure.Some? {
        var i :| 0 <= i < |init| && init[i] == Err(Fold(init).failure.value)
          && forall j :: 0 <= j < i ==> init[j].Ok?;
        assert outcomes[i] == init[i];
      }
    }
  }

  /** The records of the successful iterations, in order. */
  function Records(outcomes: seq<Outcome>): seq<FastaRecord> {
    if outcomes == [] then []
    else
      var last := outcomes[|outcomes| - 1];
      Records(outcomes[..|outcomes| - 1]) + (if last.Ok? && last.value.Some? then [last.value.value] else [])
  }

  /** When no iteration fails, the loop writes exactly the records the
      iterations produce, in order. */
  lemma {:induction false} FoldRecords(outcomes: seq<Outcome>)
    requires forall i :: 0 <= i < |outcomes| ==> outcomes[i].Ok?
    ensures Fold(outcomes) == Run(Records(outcomes), None)
  {
    if outcomes != [] {
      var n := |outcomes| - 1;
      FoldRecords(outcomes[..n]);
    }
  }

  /** Every record written is the record of some iteration, and records
      appear in the order of their iterations. */
  lemma {:induction false} FoldWritten(outcomes: seq<Outcome>)
    ensures forall k :: 0 <= k < |Fold(outcomes).written| ==>
      exists i :: 0 <= i < |outcomes| && outcomes[i] == Ok(Some(Fold(outcomes).written[k]))
  {
    if outcomes != [] {
      var n := |outcomes| - 1;
      var init := outcomes[..n];
      FoldWritten(init);
      var run := Fold(outcomes);
      var before := Fold(init);
      forall k | 0 <= k < |run.written|
        ensures exists i :: 0 <= i < |outcomes| && outcomes[i] == Ok(Some(run.written[k]))
      {
        if k < |before.written| {
          assert run.written[k] == before.written[k];
          var i :| 0 <= i < |init| && init[i] == Ok(Some(before.written[k]));
          assert outcomes[i] == init[i];
        } else {
          assert outcomes[n] == Ok(Some(run.written[k]));
        }
      }
    } else {
      assert Fold(outcomes).written == [];
    }
  }

  // ---------------------------------------------------------------------
  // Properties

  /** Reads no longer than the length cutoff are passed over. */
  lemma ShortReadSkipped(r: Read, settings: Settings, tools: Tools)
    requires r.length <= settings.lengthCutoff
    ensures ReadOutcome(r, settings, tools) == Ok(None)
  {
  }

  /** When the whole-read alignment gives two peaks, the first is the
      seed, so `peaks.remove(seed)` leaves the other one, at least 200
      bases further on: the ValueError cannot happen. */
  lemma FallbackRemovesSeed(scores: seq<int>, seed: int, filter: Filter)
    requires |CalledPeaks(scores, [], seed, filter)| == 2
    ensures var p := CalledPeaks(scores, [], seed, filter);
      && p[0] == seed
      && Remove(p, seed) == Some([p[1]])
      && p[1] >= seed + MergeDistance
  {
    var p := CalledPeaks(scores, [], seed, filter);
    assert NoiseClamped([], Reverse) == [];
    CalledPeaksShape(scores, [], seed, filter);
    assert p[1..] == [p[1]];
  }

  /** The peaks determine_consensus receives: never empty, ascending and
      200 apart; a single peak only after the whole-read fallback, and it
      lies at least 200 bases past the seed; several peaks always come
      with a median of at least 200. */
  lemma PeaksForShape(r: Read, tools: Tools)
    requires PeaksFor(r, tools).Ok? && PeaksFor(r, tools).value.Some?
    ensures var (p, m) := PeaksFor(r, tools).value.value;
      && p != [] && StrictlyIncreasing(p) && WellSpaced(p)
      && (|p| == 1 ==> p[0] >= r.seed + MergeDistance)
      && (|p| >= 2 ==> m.Some? && m.value >= 200.0)
  {
    var reverse := RevComp(Slice(r.sequence, 0, r.seed)).value;
    var scoreF := ScoreList(Slice(r.sequence, r.seed, |r.sequence|), true, tools.align);
    var scoreR := ScoreList(reverse, true, tools.align);
    var wholeScores := ScoreList(r.sequence, false, tools.align);
    CalledPeaksShape(scoreF, scoreR, r.seed, tools.filter);
    CalledPeaksMedian(scoreF, scoreR, r.seed, tools.filter);
    PeaksFromShape(scoreF, scoreR, wholeScores, r.seed, tools.filter);
  }

  lemma PeaksFromShape(scoreF: seq<int>, scoreR: seq<int>, wholeScores: seq<int>, seed: int, filter: Filter)
    requires var peaks := CalledPeaks(scoreF, scoreR, seed, filter);
      var out := PeaksFrom(peaks, wholeScores, seed, filter);
      out.Ok? && out.value.Some?
    ensures var out := PeaksFrom(CalledPeaks(scoreF, scoreR, seed, filter), wholeScores, seed, filter);
      var (p, m) := out.value.value;
      && p != [] && StrictlyIncreasing(p) && WellSpaced(p)
      && (|p| == 1 ==> p[0] >= seed + MergeDistance)
      && (|p| >= 2 ==> m.Some? && m.value >= 200.0)
  {
    var peaks := CalledPeaks(scoreF, scoreR, seed, filter);
    CalledPeaksShape(scoreF, scoreR, seed, filter);
    if |peaks| == 1 {
      FallbackRemovesSeed(wholeScores, seed, filter);
    } else {
      CalledPeaksMedian(scoreF, scoreR, seed, filter);
    }
  }

  /** The whole-read fallback never fails on the seed. */
  lemma SeedNeverMissing(r: Read, settings: Settings, tools: Tools)
    ensures PeaksFor(r, tools) != Err(SeedMissing)
    ensures ReadOutcome(r, settings, tools) != Err(SeedMissing)
  {
    PeaksNeverSeed(r, tools);
    var called := PeaksFor(r, tools);
    if called.Ok? && called.value.Some? {
      FinishNeverSeed(r, called.value.value, settings, tools);
    }
  }

  lemma PeaksNeverSeed(r: Read, tools: Tools)
    ensures PeaksFor(r, tools) != Err(SeedMissing)
  {
    var wholeScores := ScoreList(r.sequence, false, tools.align);
    FallbackNeverSeed(wholeScores, r.seed, tools.filter);
  }

  lemma FallbackNeverSeed(wholeScores: seq<int>, seed: int, filter: Filter)
    ensures Fallback(CalledPeaks(wholeScores, [], seed, filter), seed) != Err(SeedMissing)
  {
    if |CalledPeaks(wholeScores, [], seed, filter)| == 2 {
      FallbackRemovesSeed(wholeScores, seed, filter);
    }
  }

  lemma FinishNeverSeed(r: Read, called: (seq<int>, Option<real>), settings: Settings, tools: Tools)
    ensures Finish(r, called, settings, tools) != Err(SeedMissing)
  {
  }

  /** Which branch determine_consensus takes for a read: the zero-repeat
      branch exactly when the fallback left one peak; with a median cutoff
      below 200 every read with several peaks takes the several-repeats
      branch. */
  lemma RegimeForRead(r: Read, cutoff: int, tools: Tools)
    requires PeaksFor(r, tools).Ok? && PeaksFor(r, tools).value.Some?
    ensures var (p, m) := PeaksFor(r, tools).value.value;
      && (RegimeOf(p, m, cutoff) == ZeroRepeat <==> |p| == 1)
      && (cutoff < 200 ==> RegimeOf(p, m, cutoff) != NoConsensus)
  {
    PeaksForShape(r, tools);
  }

  /** Every record written is what some entry's iteration produced. */
  lemma WrittenRecords(entries: seq<Entry>, settings: Settings, tools: Tools)
    ensures var run := Analyze(entries, settings, tools);
      forall k :: 0 <= k < |run.written| ==>
        exists i :: 0 <= i < |entries| && EntryOutcome(entries[i], settings, tools) == Ok(Some(run.written[k]))
  {
    var outcomes := Outcomes(entries, settings, tools);
    FoldWritten(outcomes);
    var run := Fold(outcomes);
    forall k | 0 <= k < |run.written|
      ensures exists i :: 0 <= i < |entries| && EntryOutcome(entries[i], settings, tools) == Ok(Some(run.written[k]))
    {
      var i :| 0 <= i < |outcomes| && outcomes[i] == Ok(Some(run.written[k]));
      assert outcomes[i] == EntryOutcome(entries[i], settings, tools);
    }
  }

  /** A record written for an entry carries a non-empty consensus, and its
      header starts with the read name and ends with the consensus
      length. */
  lemma RecordShape(e: Entry, settings: Settings, tools: Tools)
    requires EntryOutcome(e, settings, tools).Ok? && EntryOutcome(e, settings, tools).value.Some?
    ensures var rec := EntryOutcome(e, settings, tools).value.value;
      && rec.sequence != []
      && StartsWith(rec.header, e.name + "_")
      && EndsWith(rec.header, "_" + NatToString(|rec.sequence|))
  {
    var r := Unpack(e).value;
    var called := PeaksFor(r, tools).value.value;
    var report := tools.waterReport(r.sequence, r.sequence);
    var d := Decide(r.name, r.sequence, called.0, r.quality, called.1, r.seed, settings.medianCutoff, report, tools.programs).value;
    assert EntryOutcome(e, settings, tools) == Ok(Written(r, tools.qualityLabel(r.quality), d));
    HeaderShape(r, tools.qualityLabel(r.quality), d.repeats, d.consensus);
  }

  /** The header starts with `name_` and ends with `_` and the consensus
      length. */
  lemma HeaderShape(r: Read, quality: string, repeats: string, consensus: string)
    ensures StartsWith(Header(r, quality, repeats, consensus), r.name + "_")
    ensures EndsWith(Header(r, quality, repeats, consensus), "_" + NatToString(|consensus|))
  {
    Ends(r.name + "_", quality + "_" + IntToString(r.length) + "_" + repeats, "_" + NatToString(|consensus|));
  }

  lemma Ends(head: string, middle: string, tail: string)
    ensures StartsWith(head + middle + tail, head)
    ensures EndsWith(head + middle + tail, tail)
  {
    var h := head + middle + tail;
    assert h[..|head|] == head;
    assert h[|h| - |tail|..] == tail;
  }

  /** The loop runs to the end exactly when every entry unpacks and no
      iteration fails, and then it writes the record of every read that
      produced one, in order. */
  lemma AnalyzeCompletes(entries: seq<Entry>, settings: Settings, tools: Tools)
    ensures Analyze(entries, settings, tools).failure.None? <==>
      forall i :: 0 <= i < |entries| ==> EntryOutcome(entries[i], settings, tools).Ok?
    ensures Analyze(entries, settings, tools).failure.None? ==>
      Analyze(entries, settings, tools).written == Records(Outcomes(entries, settings, tools))
  {
    var outcomes := Outcomes(entries, settings, tools);
    FoldFailure(outcomes);
    assert forall i :: 0 <= i < |entries| ==> outcomes[i] == EntryOutcome(entries[i], settings, tools);
    if Fold(outcomes).failure.None? {
      FoldRecords(outcomes);
    }
  }
}
