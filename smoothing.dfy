/** savitzky_golay without its numerics: the window/order validation, and
    the peak picker that runs on the filtered curve (clamp values below 1,
    take first differences, report every rise followed by 44 falls). The
    polynomial fit and convolution are a function parameter. */
module Smoothing {
  import opened Wrappers

  /** The TypeErrors savitzky_golay raises for a bad window, and the
      IndexError of `y[0]` when the signal is empty. */
  datatype SgError = WindowNotPositiveOdd | WindowTooSmallForOrder | EmptySignal

  /** The fitted and convolved curve for a signal, window size and
      polynomial order (the coefficient computation and np.convolve).
      np.convolve in 'valid' mode returns max(M, N) - min(M, N) + 1 values,
      so never none. */
  type Filter = f: (seq<real>, nat, nat) -> seq<real> | forall y, w, o :: f(y, w, o) != []
    witness (y: seq<real>, w: nat, o: nat) => [0.0]

  /** The two modes of savitzky_golay: the smoothed scores, or the peaks
      found in them. */
  datatype SgOutput = Scores(values: seq<real>) | Peaks(indices: seq<nat>)

  /** How far the picker looks ahead: slopes[i+1 .. i+Lookahead-1] must all
      fall. */
  const Lookahead: nat := 45
  /** The picker skips the last Tail slopes. */
  const Tail: nat := 50

  function Abs(z: int): nat {
    if z < 0 then -z else z
  }

  /** The parameter checks: both are made non-negative, then the window
      must be odd and positive, and at least order + 2. */
  function CheckWindow(windowSize: int, order: int): (r: Result<(nat, nat), SgError>)
    ensures r.Ok? <==> Abs(windowSize) % 2 == 1 && Abs(windowSize) >= Abs(order) + 2
    ensures r.Ok? ==> r.value == (Abs(windowSize), Abs(order))
    ensures r == Err(WindowNotPositiveOdd) <==> Abs(windowSize) % 2 != 1
  {
    var w, o := Abs(windowSize), Abs(order);
    if w % 2 != 1 || w < 1 then Err(WindowNotPositiveOdd)
    else if w < o + 2 then Err(WindowTooSmallForOrder)
    else Ok((w, o))
  }

  /** The three calls callPeaks makes, (51, 2), (71, 2) and (51, 1), all
      pass the checks, while an even window or one too small fails. */
  lemma CallPeaksWindowsValid()
    ensures CheckWindow(51, 2) == Ok((51, 2))
    ensures CheckWindow(71, 2) == Ok((71, 2))
    ensures CheckWindow(51, 1) == Ok((51, 1))
    ensures CheckWindow(50, 2) == Err(WindowNotPositiveOdd)
    ensures CheckWindow(3, 2) == Err(WindowTooSmallForOrder)
  {
  }

  /** Every value below 1 set to 1 (posFiltered). */
  method ClampBelowOne(filtered: seq<real>) returns (posFiltered: seq<real>)
    ensures |posFiltered| == |filtered|
    ensures forall i :: 0 <= i < |filtered| ==> posFiltered[i] >= 1.0
    ensures forall i :: 0 <= i < |filtered| && filtered[i] >= 1.0 ==> posFiltered[i] == filtered[i]
    ensures forall i :: 0 <= i < |filtered| && filtered[i] < 1.0 ==> posFiltered[i] == 1.0
    ensures posFiltered == Clamped(filtered)
  {
    posFiltered := [];
    var i := 0;
    while i < |filtered|
      invariant 0 <= i <= |filtered|
      invariant |posFiltered| == i
      invariant forall k :: 0 <= k < i ==>
        posFiltered[k] == (if filtered[k] < 1.0 then 1.0 else filtered[k])
    {
      if 1.0 > filtered[i] {
        posFiltered := posFiltered + [1.0];
      } else {
        posFiltered := posFiltered + [filtered[i]];
      }
      i := i + 1;
    }
  }

  /** np.diff: consecutive differences. */
  function Diff(xs: seq<real>): (d: seq<real>)
    ensures |xs| >= 1 ==> |d| == |xs| - 1
    ensures |xs| == 0 ==> d == []
  {
    if |xs| <= 1 then [] else seq(|xs| - 1, i requires 0 <= i < |xs| - 1 => xs[i + 1] - xs[i])
  }

  /** The peak rule: a rise at i followed by falls at every one of the
      next Lookahead - 1 slopes, for i before the last Tail slopes. */
  predicate IsPeak(slopes: seq<real>, i: int) {
    0 <= i < |slopes| - Tail
    && slopes[i] > 0.0
    && forall k :: i < k < i + Lookahead ==> slopes[k] < 0.0
  }

  /** The indices below n that satisfy the peak rule, ascending. */
  function PeaksBelow(slopes: seq<real>, n: nat): (peaks: seq<nat>)
    ensures forall i :: i in peaks <==> 0 <= i < n && IsPeak(slopes, i)
    ensures forall k :: 0 <= k < |peaks| ==> peaks[k] < n
    ensures forall j, k :: 0 <= j < k < |peaks| ==> peaks[j] + Lookahead <= peaks[k]
  {
    if n == 0 then []
    else
      var before := PeaksBelow(slopes, n - 1);
      if IsPeak(slopes, n - 1) then
        PeaksApart(slopes, before, n - 1);
        before + [n - 1]
      else before
  }

  /** A rise right after another peak's rise would have to be a fall, so
      two peaks are at least Lookahead apart. */
  lemma PeaksApart(slopes: seq<real>, earlier: seq<nat>, b: nat)
    requires forall k :: 0 <= k < |earlier| ==> IsPeak(slopes, earlier[k]) && earlier[k] < b
    requires IsPeak(slopes, b)
    ensures forall k :: 0 <= k < |earlier| ==> earlier[k] + Lookahead <= b
  {
  }

  /** The peaks savitzky_golay reports for a curve's slopes. */
  function PeakIndices(slopes: seq<real>): seq<nat> {
    PeaksBelow(slopes, if |slopes| > Tail then |slopes| - Tail else 0)
  }

  /** The loop over slopes: exactly the indices that satisfy the peak rule,
      in increasing order and at least Lookahead apart, none in the last
      Tail slopes (so none at all when there are at most Tail slopes). */
  method FindPeaks(slopes: seq<real>) returns (peaks: seq<nat>)
    ensures forall i :: i in peaks <==> IsPeak(slopes, i)
    ensures forall k :: 0 <= k < |peaks| ==> peaks[k] < |slopes| - Tail
    ensures forall j, k :: 0 <= j < k < |peaks| ==> peaks[j] + Lookahead <= peaks[k]
    ensures peaks == PeakIndices(slopes)
  {
    peaks := [];
    var i := 0;
    while i < |slopes| - Tail
      invariant 0 <= i <= if |slopes| > Tail then |slopes| - Tail else 0
      invariant peaks == PeaksBelow(slopes, i)
    {
      if i > |slopes| - Lookahead {
        // The source keeps a wider check here; the loop bound never reaches it.
        assert false;
      } else {
        var dec := forall k :: i < k < i + Lookahead ==> slopes[k] < 0.0;
        if slopes[i] > 0.0 && dec {
          peaks := peaks + [i];
        }
      }
      i := i + 1;
    }
  }

  /** savitzky_golay(y, window_size, order, returnScoreList): validate, run
      the filter, and either return the curve or pick its peaks. */
  method SavitzkyGolay(y: seq<real>, windowSize: int, order: int, returnScoreList: bool, filter: Filter)
    returns (r: Result<SgOutput, SgError>)
    ensures r.Err? <==> CheckWindow(windowSize, order).Err? || y == []
    ensures CheckWindow(windowSize, order).Err? ==> r == Err(CheckWindow(windowSize, order).error)
    ensures CheckWindow(windowSize, order).Ok? && y == [] ==> r == Err(EmptySignal)
    ensures r.Ok? && returnScoreList ==>
      r.value == Scores(filter(y, Abs(windowSize), Abs(order)))
    ensures r.Ok? && !returnScoreList ==>
      r.value == Peaks(PeakIndices(Diff(Clamped(filter(y, Abs(windowSize), Abs(order))))))
  {
    var checked := CheckWindow(windowSize, order);
    if checked.Err? {
      return Err(checked.error);
    }
    if y == [] {
      return Err(EmptySignal);
    }
    var (w, o) := checked.value;
    var filtered := filter(y, w, o);
    if returnScoreList {
      return Ok(Scores(filtered));
    }
    var posFiltered := ClampBelowOne(filtered);
    var peaks := FindPeaks(Diff(posFiltered));
    return Ok(Peaks(peaks));
  }

  /** posFiltered as a value, for stating what the picker sees. */
  function Clamped(filtered: seq<real>): (r: seq<real>)
    ensures |r| == |filtered|
  {
    seq(|filtered|, i requires 0 <= i < |filtered| => if filtered[i] < 1.0 then 1.0 else filtered[i])
  }
}
