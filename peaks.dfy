/** callPeaks: flatten the noise floor of the forward and reverse score
    lists in place, smooth them and pick their peaks, turn the peak indices
    into read positions around the seed, merge positions closer than 200,
    and take the median of the gaps rounded to 50. */
module PeakCalling {
  import opened Wrappers
  import opened Lists
  import opened Bases
  import opened Smoothing

  /** The two score lists: forward (the read after the seed) and reverse
      (the reverse-complemented part before it). */
  datatype Strand = Forward | Reverse

  /** How many leading scores set the noise level. */
  function NoiseWindow(strand: Strand): nat {
    match strand
    case Forward => 500
    case Reverse => 100
  }

  /** `v <= noise * 1.25` for forward scores and `v <= noise * 1.15` for
      reverse ones, over the rationals 5/4 and 23/20. */
  predicate AtNoiseLevel(strand: Strand, v: int, noise: int) {
    match strand
    case Forward => 4 * v <= 5 * noise
    case Reverse => 20 * v <= 23 * noise
  }

  /** Two peaks closer than this are merged into the first. */
  const MergeDistance: int := 200
  /** Gaps are rounded to a multiple of this before the median. */
  const GapBase: int := 50

  // ---------------------------------------------------------------------
  // Noise clamp

  /** The running maximum of the noise loop, started at 0. */
  function NoiseFloor(xs: seq<int>): int {
    if xs == [] then 0
    else
      var before := NoiseFloor(xs[..|xs| - 1]);
      if xs[|xs| - 1] > before then xs[|xs| - 1] else before
  }

  /** The noise level is the largest of 0 and the scores it looked at. */
  lemma {:induction false} NoiseFloorIsMax(xs: seq<int>)
    ensures NoiseFloor(xs) >= 0
    ensures forall i :: 0 <= i < |xs| ==> xs[i] <= NoiseFloor(xs)
    ensures NoiseFloor(xs) == 0 || exists i :: 0 <= i < |xs| && xs[i] == NoiseFloor(xs)
  {
    if xs != [] {
      var init := xs[..|xs| - 1];
      NoiseFloorIsMax(init);
      assert forall i :: 0 <= i < |init| ==> xs[i] == init[i];
      if NoiseFloor(init) != 0 && NoiseFloor(xs) == NoiseFloor(init) {
        var i :| 0 <= i < |init| && init[i] == NoiseFloor(init);
        assert xs[i] == NoiseFloor(xs);
      }
    }
  }

  /** The score list after the clamp. A list shorter than the noise window
      is left as it is: the noise loop indexes past its end and the
      IndexError skips the clamp. Otherwise every score at or below the
      threshold becomes 1. */
  function NoiseClamped(s: seq<int>, strand: Strand): (r: seq<int>)
    ensures |r| == |s|
  {
    if |s| < NoiseWindow(strand) then s
    else
      var noise := NoiseFloor(s[..NoiseWindow(strand)]);
      seq(|s|, j requires 0 <= j < |s| => if AtNoiseLevel(strand, s[j], noise) then 1 else s[j])
  }

  /** The clamp flattens the whole noise window: each of its scores is at
      most the noise level, hence at or below the threshold. Scores above
      the threshold (1.25 or 1.15 times the noise level) are kept, those at
      or below it become 1, and a score ends as 1 exactly when it lies in
      the window, is at or below the threshold, or already was 1. */
  lemma NoiseClampedWindow(s: seq<int>, strand: Strand)
    requires |s| >= NoiseWindow(strand)
    ensures forall j :: 0 <= j < NoiseWindow(strand) ==> NoiseClamped(s, strand)[j] == 1
    ensures forall j :: 0 <= j < |s| ==> NoiseClamped(s, strand)[j] == 1 || NoiseClamped(s, strand)[j] == s[j]
    ensures forall j :: 0 <= j < |s| && NoiseClamped(s, strand)[j] != 1 ==>
      s[j] > NoiseFloor(s[..NoiseWindow(strand)])
    ensures forall j :: 0 <= j < |s| && !AtNoiseLevel(strand, s[j], NoiseFloor(s[..NoiseWindow(strand)])) ==>
      NoiseClamped(s, strand)[j] == s[j]
    ensures forall j :: 0 <= j < |s| && AtNoiseLevel(strand, s[j], NoiseFloor(s[..NoiseWindow(strand)])) ==>
      NoiseClamped(s, strand)[j] == 1
    ensures forall j :: 0 <= j < |s| ==>
      (NoiseClamped(s, strand)[j] == 1 <==>
        j < NoiseWindow(strand) || AtNoiseLevel(strand, s[j], NoiseFloor(s[..NoiseWindow(strand)])) || s[j] == 1)
  {
    var w := s[..NoiseWindow(strand)];
    NoiseFloorIsMax(w);
    assert forall j :: 0 <= j < NoiseWindow(strand) ==> s[j] == w[j];
  }

  /** The clamp as callPeaks runs it on the caller's list. */
  method NoiseClamp(scores: array<int>, strand: Strand)
    modifies scores
    ensures scores[..] == NoiseClamped(old(scores[..]), strand)
  {
    var noise := 0;
    var i := 0;
    while i < NoiseWindow(strand)
      invariant 0 <= i <= NoiseWindow(strand) && i <= scores.Length
      invariant noise == NoiseFloor(scores[..i])
      invariant scores[..] == old(scores[..])
    {
      if i >= scores.Length {
        return; // IndexError: the clamp loop never starts
      }
      assert scores[..i + 1][..i] == scores[..i];
      if scores[i] > noise {
        noise := scores[i];
      }
      i := i + 1;
    }
    ghost var original := scores[..];
    assert noise == NoiseFloor(original[..NoiseWindow(strand)]);
    var j := 0;
    while j < scores.Length
      invariant 0 <= j <= scores.Length
      invariant scores[..j] == NoiseClamped(original, strand)[..j]
      invariant scores[j..] == original[j..]
    {
      assert scores[j] == original[j];
      if AtNoiseLevel(strand, scores[j], noise) {
        scores[j] := 1;
      }
      assert scores[..j + 1] == scores[..j] + [scores[j]];
      assert NoiseClamped(original, strand)[..j + 1] == NoiseClamped(original, strand)[..j] + [NoiseClamped(original, strand)[j]];
      assert scores[j + 1..] == original[j + 1..];
      j := j + 1;
    }
    assert scores[..] == scores[..scores.Length];
  }

  // ---------------------------------------------------------------------
  // Smoothing and peak positions

  function ToReals(s: seq<int>): seq<real> {
    seq(|s|, i requires 0 <= i < |s| => s[i] as real)
  }

  /** One pass with window 51 followed by `passes` passes with window 71,
      all of order 2. */
  function SmoothPasses(y: seq<real>, passes: nat, filter: Filter): seq<real> {
    if passes == 0 then filter(y, 51, 2) else filter(SmoothPasses(y, passes - 1, filter), 71, 2)
  }

  /** The curve whose peaks callPeaks picks: the four smoothing passes. */
  function Smoothed(scores: seq<int>, filter: Filter): seq<real> {
    SmoothPasses(ToReals(scores), 3, filter)
  }

  /** The peaks of the smoothed curve (window 51, order 1), as indices into
      the score list; none for an empty list. */
  function StrandPeaks(scores: seq<int>, filter: Filter): seq<nat> {
    if scores == [] then [] else PeakIndices(Diff(Clamped(filter(Smoothed(scores, filter), 51, 1))))
  }

  /** Where index p of a strand lies on the read: forward indices count
      from the seed, reverse ones count back from it. */
  function Position(seed: int, strand: Strand, p: nat): int {
    match strand
    case Forward => seed + p
    case Reverse => seed - p
  }

  function Positions(seed: int, strand: Strand, ps: seq<nat>): (r: seq<int>)
    ensures |r| == |ps|
    ensures forall i :: 0 <= i < |ps| ==> r[i] == Position(seed, strand, ps[i])
  {
    seq(|ps|, i requires 0 <= i < |ps| => Position(seed, strand, ps[i]))
  }

  /** allPeaks: the seed, then the shifted forward and reverse peaks. */
  function AllPeaks(seed: int, peaksF: seq<nat>, peaksR: seq<nat>): seq<int> {
    [seed] + Positions(seed, Forward, peaksF) + Positions(seed, Reverse, peaksR)
  }

  function Elements(s: seq<int>): set<int> {
    set x | x in s
  }

  // ---------------------------------------------------------------------
  // Merge pass

  /** The merge rule: position i of the sorted list is kept unless it lies
      strictly between its sorted predecessor and that predecessor + 200.
      The predecessor is the previous sorted position whether or not that
      one was kept. */
  predicate Keep(s: seq<int>, i: nat)
    requires i < |s|
  {
    i == 0 || !(s[i - 1] < s[i] < s[i - 1] + MergeDistance)
  }

  /** finalPeaks for a sorted list. */
  function Merged(s: seq<int>): seq<int> {
    if s == [] then []
    else Merged(s[..|s| - 1]) + (if Keep(s, |s| - 1) then [s[|s| - 1]] else [])
  }

  /** The merge loop of callPeaks. */
  method MergePeaks(sortedPeaks: seq<int>) returns (finalPeaks: seq<int>)
    ensures finalPeaks == Merged(sortedPeaks)
  {
    finalPeaks := [];
    var i := 0;
    while i < |sortedPeaks|
      invariant 0 <= i <= |sortedPeaks|
      invariant finalPeaks == Merged(sortedPeaks[..i])
    {
      var prefix := sortedPeaks[..i + 1];
      assert prefix[..i] == sortedPeaks[..i];
      assert Keep(prefix, i) == Keep(sortedPeaks, i);
      if i == 0 {
        finalPeaks := finalPeaks + [sortedPeaks[i]];
      } else if sortedPeaks[i - 1] < sortedPeaks[i] < sortedPeaks[i - 1] + MergeDistance {
      } else {
        finalPeaks := finalPeaks + [sortedPeaks[i]];
      }
      i := i + 1;
    }
    assert sortedPeaks[..i] == sortedPeaks;
  }

  /** Gaps of at least 200 between consecutive positions. */
  predicate WellSpaced(s: seq<int>) {
    forall k :: 0 <= k < |s| - 1 ==> s[k] + MergeDistance <= s[k + 1]
  }

  /** The merge keeps only positions of its input. */
  lemma {:induction false} MergedSubset(s: seq<int>)
    ensures forall x :: x in Merged(s) ==> x in s
  {
    if s != [] {
      var init := s[..|s| - 1];
      MergedSubset(init);
      assert forall x :: x in init ==> x in s;
    }
  }

  /** A bound on the input bounds what the merge keeps. */
  lemma MergedBelow(s: seq<int>, bound: int)
    requires forall k :: 0 <= k < |s| ==> s[k] <= bound
    ensures forall x :: x in Merged(s) ==> x <= bound
  {
    MergedSubset(s);
    forall x | x in Merged(s) ensures x <= bound {
      var k :| 0 <= k < |s| && s[k] == x;
    }
  }

  /** Consecutive gaps of 200 make a list strictly increasing. */
  lemma {:induction false} WellSpacedIncreasing(s: seq<int>)
    requires WellSpaced(s)
    ensures StrictlyIncreasing(s)
  {
    if |s| >= 2 {
      var init := s[..|s| - 1];
      assert WellSpaced(init) by {
        forall k | 0 <= k < |init| - 1 ensures init[k] + MergeDistance <= init[k + 1] {
          assert init[k] == s[k] && init[k + 1] == s[k + 1];
        }
      }
      WellSpacedIncreasing(init);
      forall i, j | 0 <= i < j < |s| ensures s[i] < s[j] {
        if j < |s| - 1 {
          assert init[i] == s[i] && init[j] == s[j];
        } else if i < |s| - 2 {
          assert init[i] == s[i] && init[|s| - 2] == s[|s| - 2];
        }
      }
    }
  }

  /** The spacing and first position of a merge of a strictly increasing
      list. */
  lemma {:induction false} MergedSpacing(s: seq<int>)
    requires StrictlyIncreasing(s)
    ensures WellSpaced(Merged(s))
    ensures s != [] ==> Merged(s) != [] && Merged(s)[0] == s[0]
  {
    if s != [] {
      var init := s[..|s| - 1];
      var last := s[|s| - 1];
      assert StrictlyIncreasing(init);
      MergedSpacing(init);
      var m := Merged(init);
      if !Keep(s, |s| - 1) {
        assert Merged(s) == m;
      } else if init == [] {
        assert Merged(s) == [last];
      } else {
        MergedBelow(init, s[|s| - 2]);
        assert m[|m| - 1] in m;
        assert Merged(s) == m + [last];
      }
    }
  }

  /** On a strictly increasing list the merge keeps the first position,
      keeps only positions of the list, and leaves them ascending with
      gaps of at least 200. */
  lemma MergedShape(s: seq<int>)
    requires StrictlyIncreasing(s)
    ensures StrictlyIncreasing(Merged(s)) && WellSpaced(Merged(s))
    ensures forall x :: x in Merged(s) ==> x in s
    ensures s != [] ==> Merged(s) != [] && Merged(s)[0] == s[0]
  {
    MergedSubset(s);
    MergedSpacing(s);
    WellSpacedIncreasing(Merged(s));
  }

  /** Which positions survive: the first one, and every other one exactly
      when it is at least 200 past its sorted predecessor. */
  lemma {:induction false} MergedKeeps(s: seq<int>, i: nat)
    requires StrictlyIncreasing(s) && i < |s|
    ensures s[i] in Merged(s) <==> i == 0 || s[i - 1] + MergeDistance <= s[i]
  {
    var init := s[..|s| - 1];
    if i == |s| - 1 {
      MergedBelow(init, s[i] - 1);
    } else {
      assert init[i] == s[i];
      MergedKeeps(init, i);
      if i > 0 { assert init[i - 1] == s[i - 1]; }
    }
  }

  /** A list already spaced 200 apart goes through the merge unchanged. */
  lemma {:induction false} MergedWellSpaced(t: seq<int>)
    requires WellSpaced(t)
    ensures Merged(t) == t
  {
    if t != [] {
      var init := t[..|t| - 1];
      assert WellSpaced(init) by {
        forall k | 0 <= k < |init| - 1 ensures init[k] + MergeDistance <= init[k + 1] {
          assert init[k] == t[k] && init[k + 1] == t[k + 1];
        }
      }
      MergedWellSpaced(init);
      assert t == init + [t[|t| - 1]];
    }
  }

  /** Merging the merged list again changes nothing. */
  lemma MergedIdempotent(s: seq<int>)
    requires StrictlyIncreasing(s)
    ensures Merged(Merged(s)) == Merged(s)
  {
    MergedShape(s);
    MergedWellSpaced(Merged(s));
  }

  /** A chain of close positions collapses onto its first one: 150 is
      within 200 of 0 and 300 within 200 of 150, so only 0 stays although
      300 is 300 past it. */
  lemma MergedChain()
    ensures Merged([0, 150, 300]) == [0]
  {
    assert [0, 150, 300][..2] == [0, 150];
    assert [0, 150][..1] == [0];
    assert [0][..0] == [];
  }

  // ---------------------------------------------------------------------
  // Median of the rounded gaps

  /** forMedian: the gaps between consecutive final peaks, each rounded to
      a multiple of 50. */
  function RoundedGaps(p: seq<int>): (r: seq<int>)
    ensures |r| == if |p| == 0 then 0 else |p| - 1
  {
    if |p| <= 1 then []
    else seq(|p| - 1, i requires 0 <= i < |p| - 1 => Rounding(p[i + 1] - p[i], GapBase))
  }

  /** np.median: the middle of the sorted values, or the mean of the two
      middle ones; None stands for the NaN of an empty list. */
  function Median(xs: seq<int>): (m: Option<real>)
    ensures m.None? <==> xs == []
  {
    if xs == [] then None
    else
      assert |Sort(xs)| == |xs| by { assert |multiset(Sort(xs))| == |multiset(xs)|; }
      Some(Middle(Sort(xs)))
  }

  /** The middle value of a non-empty sorted list, or the mean of the two
      middle values. */
  function Middle(s: seq<int>): real
    requires s != []
  {
    var n := |s|;
    if n % 2 == 1 then s[n / 2] as real
    else (s[n / 2 - 1] + s[n / 2]) as real / 2.0
  }

  /** The median does not depend on the order of the values. */
  lemma MedianPermutation(a: seq<int>, b: seq<int>)
    requires multiset(a) == multiset(b)
    ensures Median(a) == Median(b)
  {
    assert |a| == |b| by { assert |multiset(a)| == |multiset(b)|; }
    if a != [] {
      SortedUnique(Sort(a), Sort(b));
    }
  }

  /** The median lies between the smallest and the largest value. */
  lemma MedianBounds(xs: seq<int>)
    requires xs != []
    ensures exists i :: 0 <= i < |xs| && xs[i] as real <= Median(xs).value
    ensures exists j :: 0 <= j < |xs| && Median(xs).value <= xs[j] as real
  {
    var s := Sort(xs);
    assert |s| == |xs| by { assert |multiset(s)| == |multiset(xs)|; }
    var n := |s|;
    var lo := if n % 2 == 1 then n / 2 else n / 2 - 1;
    assert s[lo] <= s[n / 2];
    assert s[lo] as real <= Middle(s) <= s[n / 2] as real;
    assert s[lo] in multiset(s) && s[n / 2] in multiset(s);
    var i :| 0 <= i < |xs| && xs[i] == s[lo];
    var j :| 0 <= j < |xs| && xs[j] == s[n / 2];
  }

  /** A gap of at least 200 rounds to at least 200. */
  lemma RoundedGapAtLeast(g: int)
    requires g >= MergeDistance
    ensures Rounding(g, GapBase) >= MergeDistance
  {
    var k := RoundHalfEven(g, GapBase);
    if k < 4 {
      MulMonotonic(GapBase, k, 3);
    }
  }

  /** Gaps of final peaks round to at least 200, so their median is
      at least 200. */
  lemma WellSpacedMedian(p: seq<int>)
    requires WellSpaced(p) && |p| >= 2
    ensures Median(RoundedGaps(p)).Some? && Median(RoundedGaps(p)).value >= 200.0
  {
    var gaps := RoundedGaps(p);
    forall k | 0 <= k < |gaps| ensures gaps[k] >= MergeDistance {
      RoundedGapAtLeast(p[k + 1] - p[k]);
    }
    MedianBounds(gaps);
  }

  // ---------------------------------------------------------------------
  // callPeaks

  /** The sorted, merged peak positions callPeaks returns for the original
      score lists. */
  function CalledPeaks(scoresF: seq<int>, scoresR: seq<int>, seed: int, filter: Filter): seq<int> {
    var peaksF := StrandPeaks(NoiseClamped(scoresF, Forward), filter);
    var peaksR := StrandPeaks(NoiseClamped(scoresR, Reverse), filter);
    Merged(SortedSet(Elements(AllPeaks(seed, peaksF, peaksR))))
  }

  /** What callPeaks promises about its positions: at least one, ascending,
      200 apart, each the seed or a shifted peak, beginning with the
      smallest of them; and with no reverse peaks, beginning with the seed. */
  lemma CalledPeaksShape(scoresF: seq<int>, scoresR: seq<int>, seed: int, filter: Filter)
    ensures var p := CalledPeaks(scoresF, scoresR, seed, filter);
      var all := AllPeaks(seed, StrandPeaks(NoiseClamped(scoresF, Forward), filter),
                          StrandPeaks(NoiseClamped(scoresR, Reverse), filter));
      && p != [] && StrictlyIncreasing(p) && WellSpaced(p)
      && (forall x :: x in p ==> x in all)
      && (forall x :: x in all ==> p[0] <= x)
    ensures StrandPeaks(NoiseClamped(scoresR, Reverse), filter) == [] ==>
      CalledPeaks(scoresF, scoresR, seed, filter)[0] == seed
  {
    var peaksF := StrandPeaks(NoiseClamped(scoresF, Forward), filter);
    var peaksR := StrandPeaks(NoiseClamped(scoresR, Reverse), filter);
    var all := AllPeaks(seed, peaksF, peaksR);
    var sorted := SortedSet(Elements(all));
    assert all[0] == seed;
    assert seed in Elements(all);
    MergedShape(sorted);
    forall x | x in all ensures sorted[0] <= x {
      assert x in sorted;
      var k :| 0 <= k < |sorted| && sorted[k] == x;
    }
    if peaksR == [] {
      forall x | x in all ensures seed <= x {
        var k :| 0 <= k < |all| && all[k] == x;
        if k > 0 {
          assert all[k] == Positions(seed, Forward, peaksF)[k - 1];
        }
      }
      assert seed in sorted;
      var k :| 0 <= k < |sorted| && sorted[k] == seed;
      assert sorted[0] in all;
    }
  }

  /** The median of callPeaks: NaN (None) below two peaks, otherwise at
      least 200. */
  lemma CalledPeaksMedian(scoresF: seq<int>, scoresR: seq<int>, seed: int, filter: Filter)
    ensures var p := CalledPeaks(scoresF, scoresR, seed, filter);
      Median(RoundedGaps(p)).None? <==> |p| < 2
    ensures var p := CalledPeaks(scoresF, scoresR, seed, filter);
      |p| >= 2 ==> Median(RoundedGaps(p)).value >= 200.0
  {
    var p := CalledPeaks(scoresF, scoresR, seed, filter);
    CalledPeaksShape(scoresF, scoresR, seed, filter);
    if |p| >= 2 {
      WellSpacedMedian(p);
    }
  }

  /** One strand of callPeaks: clamp the list in place, then (if it is not
      empty) smooth it four times and pick the peaks. */
  method StrandPeakCall(scores: array<int>, strand: Strand, filter: Filter) returns (peaks: seq<nat>)
    modifies scores
    ensures scores[..] == NoiseClamped(old(scores[..]), strand)
    ensures peaks == StrandPeaks(scores[..], filter)
  {
    if scores.Length == 0 {
      return [];
    }
    NoiseClamp(scores, strand);
    peaks := SmoothAndPick(ToReals(scores[..]), filter);
  }

  /** The five savitzky_golay calls on one strand's (clamped) scores. */
  method SmoothAndPick(y: seq<real>, filter: Filter) returns (peaks: seq<nat>)
    requires y != []
    ensures peaks == PeakIndices(Diff(Clamped(filter(SmoothPasses(y, 3, filter), 51, 1))))
  {
    CallPeaksWindowsValid();
    var r := SavitzkyGolay(y, 51, 2, true, filter);
    var smoothed := r.value.values;
    var iteration := 0;
    while iteration < 3
      invariant 0 <= iteration <= 3
      invariant smoothed == SmoothPasses(y, iteration, filter)
    {
      r := SavitzkyGolay(smoothed, 71, 2, true, filter);
      smoothed := r.value.values;
      iteration := iteration + 1;
    }
    r := SavitzkyGolay(smoothed, 51, 1, false, filter);
    peaks := r.value.indices;
  }

  /** `list(seed + np.array(peaksF))` and `list(seed - np.array(peaksR))`. */
  method ShiftPeaks(seed: int, strand: Strand, peaks: seq<nat>) returns (shifted: seq<int>)
    ensures shifted == Positions(seed, strand, peaks)
  {
    shifted := [];
    var i := 0;
    while i < |peaks|
      invariant 0 <= i <= |peaks|
      invariant |shifted| == i
      invariant forall k :: 0 <= k < i ==> shifted[k] == Position(seed, strand, peaks[k])
    {
      shifted := shifted + [Position(seed, strand, peaks[i])];
      i := i + 1;
    }
  }

  /** forMedian: the consecutive gaps, then each one rounded to 50. */
  method GapsForMedian(finalPeaks: seq<int>) returns (forMedian: seq<int>)
    ensures forMedian == RoundedGaps(finalPeaks)
  {
    forMedian := [];
    var i := 0;
    while i < |finalPeaks| - 1
      invariant 0 <= i <= if |finalPeaks| == 0 then 0 else |finalPeaks| - 1
      invariant |forMedian| == i
      invariant forall k :: 0 <= k < i ==> forMedian[k] == finalPeaks[k + 1] - finalPeaks[k]
    {
      forMedian := forMedian + [finalPeaks[i + 1] - finalPeaks[i]];
      i := i + 1;
    }
    ghost var gaps := forMedian;
    i := 0;
    while i < |forMedian|
      invariant 0 <= i <= |forMedian| == |gaps|
      invariant forall k :: 0 <= k < i ==> forMedian[k] == Rounding(gaps[k], GapBase)
      invariant forall k :: i <= k < |forMedian| ==> forMedian[k] == gaps[k]
    {
      forMedian := forMedian[i := Rounding(forMedian[i], GapBase)];
      i := i + 1;
    }
    assert forall k :: 0 <= k < |forMedian| ==> forMedian[k] == RoundedGaps(finalPeaks)[k];
  }

  /** callPeaks(scoreListF, scoreListR, seed): both lists are clamped in
      place, and the result is the merged peak positions with the median
      of their rounded gaps. */
  method CallPeaks(scoreF: array<int>, scoreR: array<int>, seed: int, filter: Filter)
    returns (finalPeaks: seq<int>, medianDistance: Option<real>)
    requires scoreF != scoreR
    modifies scoreF, scoreR
    ensures scoreF[..] == NoiseClamped(old(scoreF[..]), Forward)
    ensures scoreR[..] == NoiseClamped(old(scoreR[..]), Reverse)
    ensures finalPeaks == CalledPeaks(old(scoreF[..]), old(scoreR[..]), seed, filter)
    ensures medianDistance == Median(RoundedGaps(finalPeaks))
  {
    var peaksF := StrandPeakCall(scoreF, Forward, filter);
    var peaksR := StrandPeakCall(scoreR, Reverse, filter);
    var allPeaks := [seed];
    var shiftedF := ShiftPeaks(seed, Forward, peaksF);
    allPeaks := allPeaks + shiftedF;
    var shiftedR := ShiftPeaks(seed, Reverse, peaksR);
    allPeaks := allPeaks + shiftedR;
    var sortedPeaks := SortedSet(Elements(allPeaks));
    finalPeaks := MergePeaks(sortedPeaks);
    var forMedian := GapsForMedian(finalPeaks);
    medianDistance := Median(forMedian);
  }
}
