/** split_read: cut a read at consecutive peak positions into subreads.
    Every piece between two peaks longer than 30 bases becomes a subread
    labelled with its index + 1; the head before the first peak (number 0)
    and the tail after the last one (number = number of peaks) are kept when
    longer than 50 bases. The records are returned instead of written. */
module Segments {
  import opened Wrappers
  import opened Text
  import opened Lists

  /** A piece between two peaks must be longer than this. */
  const InnerMin: nat := 30
  /** The head and the tail must be longer than this. */
  const EndMin: nat := 50

  /** One subread: its number, bases and qualities. */
  datatype Segment = Segment(number: nat, sequence: string, quality: string)

  /** A FASTA record (header without '>') and a FASTQ record (header
      without '@'). */
  datatype FastaRecord = FastaRecord(header: string, sequence: string)
  datatype FastqRecord = FastqRecord(header: string, sequence: string, quality: string)

  /** What split_read writes: the FASTA file of inner subreads, the FASTQ
      file of all kept subreads, the records appended to the shared
      subreads file, and the repeat count it returns. */
  datatype SplitOutput = SplitOutput(
    fasta: seq<FastaRecord>,
    fastq: seq<FastqRecord>,
    subreads: seq<FastqRecord>,
    repeats: string)

  /** No peaks: split_list[0] raises IndexError. One peak: the loop never
      binds split2 and the tail check raises UnboundLocalError. */
  datatype SplitError = NoPeaks | SinglePeak

  function FastaOf(seg: Segment): FastaRecord {
    FastaRecord(NatToString(seg.number), seg.sequence)
  }

  function FastqOf(seg: Segment): FastqRecord {
    FastqRecord(NatToString(seg.number), seg.sequence, seg.quality)
  }

  /** The subreads-file record `name_label`; the inner subreads' header
      carries a trailing space, the head's and tail's do not. */
  function SubreadOf(name: string, seg: Segment, trailingSpace: bool): FastqRecord {
    FastqRecord(name + "_" + NatToString(seg.number) + (if trailingSpace then " " else ""), seg.sequence, seg.quality)
  }

  function FastaFile(segs: seq<Segment>): (r: seq<FastaRecord>)
    ensures |r| == |segs|
  {
    seq(|segs|, j requires 0 <= j < |segs| => FastaOf(segs[j]))
  }

  function FastqFile(segs: seq<Segment>): (r: seq<FastqRecord>)
    ensures |r| == |segs|
  {
    seq(|segs|, j requires 0 <= j < |segs| => FastqOf(segs[j]))
  }

  function SubreadFile(name: string, segs: seq<Segment>, trailingSpace: bool): (r: seq<FastqRecord>)
    ensures |r| == |segs|
  {
    seq(|segs|, j requires 0 <= j < |segs| => SubreadOf(name, segs[j], trailingSpace))
  }

  /** The piece between peaks i and i + 1 (Python slicing, so any peak
      values are accepted). */
  function Piece(peaks: seq<int>, s: string, q: string, i: nat): Segment
    requires i + 1 < |peaks|
  {
    Segment(i + 1, Slice(s, peaks[i], peaks[i + 1]), Slice(q, peaks[i], peaks[i + 1]))
  }

  /** The pieces between consecutive peaks, numbered 1 .. len(peaks) - 1. */
  function Pieces(peaks: seq<int>, s: string, q: string): (ps: seq<Segment>)
    ensures |ps| == if peaks == [] then 0 else |peaks| - 1
    ensures forall i :: 0 <= i < |ps| ==> ps[i] == Piece(peaks, s, q, i)
  {
    if peaks == [] then []
    else seq(|peaks| - 1, i requires 0 <= i < |peaks| - 1 => Piece(peaks, s, q, i))
  }

  /** The segments longer than min bases, in their order. */
  function LongOnes(segs: seq<Segment>, min: nat): seq<Segment> {
    if segs == [] then []
    else
      var last := segs[|segs| - 1];
      LongOnes(segs[..|segs| - 1], min) + (if |last.sequence| > min then [last] else [])
  }

  /** The inner subreads: the pieces longer than 30 bases. */
  function KeptInner(peaks: seq<int>, s: string, q: string): seq<Segment> {
    LongOnes(Pieces(peaks, s, q), InnerMin)
  }

  /** The head subread, when the part before the first peak is long enough. */
  function Head(peaks: seq<int>, s: string, q: string): seq<Segment>
    requires peaks != []
  {
    var head := Segment(0, Slice(s, 0, peaks[0]), Slice(q, 0, peaks[0]));
    if |head.sequence| > EndMin then [head] else []
  }

  /** The tail subread, when the part after the last peak is long enough. */
  function Tail(peaks: seq<int>, s: string, q: string): seq<Segment>
    requires peaks != []
  {
    var last := peaks[|peaks| - 1];
    var tail := Segment(|peaks|, Slice(s, last, |s|), Slice(q, last, |q|));
    if |tail.sequence| > EndMin then [tail] else []
  }

  /** Everything split_read produces for at least two peaks. */
  function Split(peaks: seq<int>, s: string, q: string, name: string): SplitOutput
    requires |peaks| >= 2
  {
    var inner := KeptInner(peaks, s, q);
    var ends := Head(peaks, s, q) + Tail(peaks, s, q);
    SplitOutput(
      FastaFile(inner),
      FastqFile(inner + ends),
      SubreadFile(name, inner, true) + SubreadFile(name, ends, false),
      NatToString(|peaks| - 1))
  }

  /** The loop over consecutive peak pairs: one record per file for each
      piece longer than 30 bases. */
  method InnerSubreads(peaks: seq<int>, sequence: string, qual: string, name: string)
    returns (fasta: seq<FastaRecord>, fastq: seq<FastqRecord>, subreads: seq<FastqRecord>)
    ensures var inner := KeptInner(peaks, sequence, qual);
      fasta == FastaFile(inner) && fastq == FastqFile(inner) && subreads == SubreadFile(name, inner, true)
  {
    fasta, fastq, subreads := [], [], [];
    ghost var pieces := Pieces(peaks, sequence, qual);
    var i := 0;
    while i < |peaks| - 1
      invariant 0 <= i <= |pieces|
      invariant fasta == FastaFile(LongOnes(pieces[..i], InnerMin))
      invariant fastq == FastqFile(LongOnes(pieces[..i], InnerMin))
      invariant subreads == SubreadFile(name, LongOnes(pieces[..i], InnerMin), true)
    {
      var split1, split2 := peaks[i], peaks[i + 1];
      ghost var before := LongOnes(pieces[..i], InnerMin);
      LongOnesStep(pieces, i, InnerMin);
      if |Slice(sequence, split1, split2)| > InnerMin {
        var seg := Segment(i + 1, Slice(sequence, split1, split2), Slice(qual, split1, split2));
        assert seg == pieces[i];
        FilesAppend(name, before, seg, true);
        fasta := fasta + [FastaOf(seg)];
        fastq := fastq + [FastqOf(seg)];
        subreads := subreads + [SubreadOf(name, seg, true)];
      }
      i := i + 1;
    }
    assert pieces[..i] == pieces;
  }

  /** One more segment considered by the filter. */
  lemma LongOnesStep(segs: seq<Segment>, i: nat, min: nat)
    requires i < |segs|
    ensures LongOnes(segs[..i + 1], min) == LongOnes(segs[..i], min) + (if |segs[i].sequence| > min then [segs[i]] else [])
  {
    assert segs[..i + 1][..i] == segs[..i];
  }

  /** Writing one more subread appends one record to each file. */
  lemma FilesAppend(name: string, segs: seq<Segment>, seg: Segment, trailingSpace: bool)
    ensures FastaFile(segs + [seg]) == FastaFile(segs) + [FastaOf(seg)]
    ensures FastqFile(segs + [seg]) == FastqFile(segs) + [FastqOf(seg)]
    ensures SubreadFile(name, segs + [seg], trailingSpace) == SubreadFile(name, segs, trailingSpace) + [SubreadOf(name, seg, trailingSpace)]
  {
  }

  /** split_read(split_list, sequence, ..., qual, ..., name) */
  method SplitRead(peaks: seq<int>, sequence: string, qual: string, name: string)
    returns (r: Result<SplitOutput, SplitError>)
    ensures peaks == [] ==> r == Err(NoPeaks)
    ensures |peaks| == 1 ==> r == Err(SinglePeak)
    ensures |peaks| >= 2 ==> r == Ok(Split(peaks, sequence, qual, name))
  {
    var fasta, fastq, subreads := InnerSubreads(peaks, sequence, qual, name);
    if peaks == [] {
      return Err(NoPeaks);
    }
    var head, tail;
    var split1 := peaks[0];
    fastq, subreads, head := KeepEnd(Segment(0, Slice(sequence, 0, split1), Slice(qual, 0, split1)), name, fastq, subreads);
    if |peaks| == 1 {
      return Err(SinglePeak);
    }
    var split2 := peaks[|peaks| - 1];
    fastq, subreads, tail := KeepEnd(Segment(|peaks|, Slice(sequence, split2, |sequence|), Slice(qual, split2, |qual|)), name, fastq, subreads);
    assert head == Head(peaks, sequence, qual) && tail == Tail(peaks, sequence, qual);
    ghost var inner := KeptInner(peaks, sequence, qual);
    FilesConcat(name, inner, head + tail);
    FilesConcat(name, head, tail);
    assert fastq == FastqFile(inner) + (FastqFile(head) + FastqFile(tail));
    assert subreads == SubreadFile(name, inner, true) + (SubreadFile(name, head, false) + SubreadFile(name, tail, false));
    return Ok(SplitOutput(fasta, fastq, subreads, NatToString(|peaks| - 1)));
  }

  /** The head or the tail: written to the FASTQ file and the subreads file
      (without a trailing space) when longer than 50 bases. */
  method KeepEnd(seg: Segment, name: string, fastq: seq<FastqRecord>, subreads: seq<FastqRecord>)
    returns (fastq': seq<FastqRecord>, subreads': seq<FastqRecord>, kept: seq<Segment>)
    ensures kept == if |seg.sequence| > EndMin then [seg] else []
    ensures fastq' == fastq + FastqFile(kept)
    ensures subreads' == subreads + SubreadFile(name, kept, false)
  {
    if |seg.sequence| > EndMin {
      FilesAppend(name, [], seg, false);
      return fastq + [FastqOf(seg)], subreads + [SubreadOf(name, seg, false)], [seg];
    }
    assert FastqFile([]) == [] && SubreadFile(name, [], false) == [];
    return fastq, subreads, [];
  }

  /** The files of two runs of subreads, one after the other. */
  lemma FilesConcat(name: string, a: seq<Segment>, b: seq<Segment>)
    ensures FastqFile(a + b) == FastqFile(a) + FastqFile(b)
    ensures forall t :: SubreadFile(name, a + b, t) == SubreadFile(name, a, t) + SubreadFile(name, b, t)
  {
  }

  // ---------------------------------------------------------------------
  // Properties

  function Numbers(segs: seq<Segment>): (r: seq<nat>)
    ensures |r| == |segs|
  {
    seq(|segs|, j requires 0 <= j < |segs| => segs[j].number)
  }

  /** The filter keeps exactly the long segments. */
  lemma {:induction false} LongOnesMembers(segs: seq<Segment>, min: nat)
    ensures forall x :: x in LongOnes(segs, min) <==> x in segs && |x.sequence| > min
  {
    if segs != [] {
      var init := segs[..|segs| - 1];
      LongOnesMembers(init, min);
      assert segs == init + [segs[|segs| - 1]];
    }
  }

  /** The filter keeps the segments' order. */
  lemma {:induction false} LongOnesIncreasing(segs: seq<Segment>, min: nat)
    requires StrictlyIncreasing(Numbers(segs))
    ensures StrictlyIncreasing(Numbers(LongOnes(segs, min)))
  {
    if segs != [] {
      var init := segs[..|segs| - 1];
      var last := segs[|segs| - 1];
      assert Numbers(init) == Numbers(segs)[..|segs| - 1];
      LongOnesIncreasing(init, min);
      if |last.sequence| > min {
        var kept := LongOnes(init, min);
        LongOnesMembers(init, min);
        forall j | 0 <= j < |kept| ensures kept[j].number < last.number {
          assert kept[j] in init;
          var k :| 0 <= k < |init| && init[k] == kept[j];
          assert Numbers(segs)[k] < Numbers(segs)[|segs| - 1];
        }
        assert Numbers(kept + [last]) == Numbers(kept) + [last.number];
      } else {
        assert LongOnes(segs, min) == LongOnes(init, min);
      }
    }
  }

  /** The inner subreads are exactly the pieces longer than 30 bases, in
      increasing number order. */
  lemma KeptInnerPieces(peaks: seq<int>, s: string, q: string)
    ensures forall i :: 0 <= i < |peaks| - 1 ==>
      (Piece(peaks, s, q, i) in KeptInner(peaks, s, q) <==> |Slice(s, peaks[i], peaks[i + 1])| > InnerMin)
    ensures forall x :: x in KeptInner(peaks, s, q) ==>
      exists i :: 0 <= i < |peaks| - 1 && x == Piece(peaks, s, q, i) && |x.sequence| > InnerMin
    ensures StrictlyIncreasing(Numbers(KeptInner(peaks, s, q)))
  {
    var ps := Pieces(peaks, s, q);
    assert forall i :: 0 <= i < |ps| ==> Numbers(ps)[i] == i + 1;
    LongOnesMembers(ps, InnerMin);
    LongOnesIncreasing(ps, InnerMin);
    forall x | x in KeptInner(peaks, s, q)
      ensures exists i :: 0 <= i < |peaks| - 1 && x == Piece(peaks, s, q, i) && |x.sequence| > InnerMin
    {
      var i :| 0 <= i < |ps| && ps[i] == x;
    }
  }

  /** The repeat count split_read returns is str(len(peaks) - 1), and its
      FASTA file holds only inner subreads numbered 1 .. len(peaks) - 1. */
  lemma SplitRepeats(peaks: seq<int>, s: string, q: string, name: string)
    requires |peaks| >= 2
    ensures Split(peaks, s, q, name).repeats == NatToString(|peaks| - 1)
    ensures forall r :: r in Split(peaks, s, q, name).fasta ==> exists i :: FastaFromPiece(peaks, s, i, r)
  {
    var kept := KeptInner(peaks, s, q);
    assert Split(peaks, s, q, name).fasta == FastaFile(kept);
    forall r | r in FastaFile(kept) ensures exists i :: FastaFromPiece(peaks, s, i, r) {
      var j :| 0 <= j < |kept| && FastaFile(kept)[j] == r;
      KeptFromPiece(peaks, s, q, kept[j]);
    }
  }

  /** An inner subread's FASTA record is that of one of the pieces. */
  lemma KeptFromPiece(peaks: seq<int>, s: string, q: string, x: Segment)
    requires x in KeptInner(peaks, s, q)
    ensures exists i :: FastaFromPiece(peaks, s, i, FastaOf(x))
  {
    KeptInnerPieces(peaks, s, q);
    var i :| 0 <= i < |peaks| - 1 && x == Piece(peaks, s, q, i) && |x.sequence| > InnerMin;
    assert FastaFromPiece(peaks, s, i, FastaOf(x));
  }

  /** r is the FASTA record of the piece between peaks i and i + 1. */
  predicate FastaFromPiece(peaks: seq<int>, s: string, i: int, r: FastaRecord) {
    0 <= i < |peaks| - 1 && r.header == NatToString(i + 1)
    && r.sequence == Slice(s, peaks[i], peaks[i + 1]) && |r.sequence| > InnerMin
  }

  /** A segment whose qualities are as many as its bases. */
  predicate Aligned(seg: Segment) {
    |seg.quality| == |seg.sequence|
  }

  lemma InnerAligned(peaks: seq<int>, s: string, q: string)
    requires |q| == |s|
    ensures forall x :: x in KeptInner(peaks, s, q) ==> Aligned(x)
  {
    KeptInnerPieces(peaks, s, q);
    forall x | x in KeptInner(peaks, s, q) ensures Aligned(x) {
      var i :| 0 <= i < |peaks| - 1 && x == Piece(peaks, s, q, i) && |x.sequence| > InnerMin;
      SliceSameLength(s, q, peaks[i], peaks[i + 1]);
    }
  }

  lemma FastqAligned(segs: seq<Segment>)
    requires forall x :: x in segs ==> Aligned(x)
    ensures forall r :: r in FastqFile(segs) ==> |r.quality| == |r.sequence|
  {
    forall r | r in FastqFile(segs) ensures |r.quality| == |r.sequence| {
      var j :| 0 <= j < |segs| && FastqFile(segs)[j] == r;
      assert segs[j] in segs;
    }
  }

  /** Every subread's quality has the length of its bases when the quality
      string is as long as the read. */
  lemma QualitiesAligned(peaks: seq<int>, s: string, q: string, name: string)
    requires |peaks| >= 2 && |q| == |s|
    ensures forall r :: r in Split(peaks, s, q, name).fastq ==> |r.quality| == |r.sequence|
  {
    var inner := KeptInner(peaks, s, q);
    InnerAligned(peaks, s, q);
    var ends := Head(peaks, s, q) + Tail(peaks, s, q);
    SliceSameLength(s, q, 0, peaks[0]);
    SliceSameLength(s, q, peaks[|peaks| - 1], |s|);
    assert forall x :: x in ends ==> Aligned(x);
    FastqAligned(inner + ends);
  }

  /** Slicing two equally long strings at the same bounds gives equally long
      pieces. */
  lemma SliceSameLength(s: string, q: string, i: int, j: int)
    requires |s| == |q|
    ensures |Slice(s, i, j)| == |Slice(q, i, j)|
  {
  }

  /** The bases of the pieces between the first n + 1 peaks, put together. */
  function Joined(peaks: seq<int>, s: string, n: nat): string
    requires n < |peaks|
  {
    if n == 0 then [] else Joined(peaks, s, n - 1) + Slice(s, peaks[n - 1], peaks[n])
  }

  /** For sorted peaks inside the read, head, pieces and tail tile it:
      before filtering by length nothing is lost or repeated. */
  lemma {:induction false} PiecesTile(peaks: seq<int>, s: string)
    requires peaks != [] && Sorted(peaks)
    requires 0 <= peaks[0] && peaks[|peaks| - 1] <= |s|
    ensures Slice(s, 0, peaks[0]) + Joined(peaks, s, |peaks| - 1) + Slice(s, peaks[|peaks| - 1], |s|) == s
  {
    JoinedSpan(peaks, s, |peaks| - 1);
    SliceConcat(s, 0, peaks[0], peaks[|peaks| - 1]);
    SliceConcat(s, 0, peaks[|peaks| - 1], |s|);
  }

  lemma {:induction false} JoinedSpan(peaks: seq<int>, s: string, n: nat)
    requires n < |peaks| && Sorted(peaks)
    requires 0 <= peaks[0] && peaks[|peaks| - 1] <= |s|
    ensures 0 <= peaks[0] <= peaks[n] <= |s|
    ensures Joined(peaks, s, n) == Slice(s, peaks[0], peaks[n])
  {
    if n > 0 {
      JoinedSpan(peaks, s, n - 1);
      SliceConcat(s, peaks[0], peaks[n - 1], peaks[n]);
    }
  }
}
