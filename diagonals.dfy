/** The diagonal-score aggregation of split_SW / run_water / parse_file:
    the self-alignment tool reports `offset:score` records per window; the
    scores are summed per absolute diagonal position |offset + step| across
    all windows, and emitted in ascending position order. */
module Diagonals {
  import opened Lists

  /** One `offset:score` line of the alignment tool's diagonal report. */
  datatype DiagRecord = DiagRecord(offset: int, score: int)

  /** One invocation of the self-alignment tool: the window of the read
      (seq1), the read's first 1000 bases (seq2), the window start (step)
      and whether the main diagonal is scored ('yes' only for step 0). */
  datatype Window = Window(step: nat, seq1: string, seq2: string, diagonal: bool)

  /** The self-alignment tool itself: the records it reports for seq1
      against seq2, with or without the main diagonal. */
  type Aligner = (string, string, bool) -> seq<DiagRecord>

  const WindowSize: nat := 1000

  function Abs(z: int): nat {
    if z < 0 then -z else z
  }

  function Min(a: int, b: int): int {
    if a < b then a else b
  }

  // ---------------------------------------------------------------------
  // Windows of split_SW with step=True

  /** The windows `for step in range(0, len(seq), 1000)` visits, from the
      k-th on. */
  function WindowsFrom(s: string, k: nat): (ws: seq<Window>)
    ensures forall i :: 0 <= i < |ws| ==> ws[i].step == WindowSize * (k + i) < |s|
    ensures forall i :: 0 <= i < |ws| ==> ws[i].seq1 == s[ws[i].step..Min(|s|, ws[i].step + WindowSize)]
    ensures forall i :: 0 <= i < |ws| ==> ws[i].seq2 == Slice(s, 0, WindowSize)
    ensures forall i :: 0 <= i < |ws| ==> ws[i].diagonal == (k + i == 0)
    ensures WindowSize * k < |s| ==> WindowSize * (k + |ws|) >= |s|
    decreases |s| - WindowSize * k
  {
    if WindowSize * k >= |s| then []
    else
      var step := WindowSize * k;
      [Window(step, s[step..Min(|s|, step + WindowSize)], Slice(s, 0, WindowSize), k == 0)] + WindowsFrom(s, k + 1)
  }

  function Windows(s: string): seq<Window> {
    WindowsFrom(s, 0)
  }

  function ConcatSeq1(ws: seq<Window>): string {
    if ws == [] then [] else ws[0].seq1 + ConcatSeq1(ws[1..])
  }

  /** The windows tile the read: their seq1 slices, in order, give the read
      back exactly. */
  lemma {:induction false} WindowsTile(s: string, k: nat)
    requires WindowSize * k <= |s|
    ensures ConcatSeq1(WindowsFrom(s, k)) == s[WindowSize * k..]
    decreases |s| - WindowSize * k
  {
    var step := WindowSize * k;
    if step < |s| {
      var next := Min(|s|, step + WindowSize);
      if next == |s| {
        assert WindowsFrom(s, k + 1) == [];
      } else {
        WindowsTile(s, k + 1);
      }
      assert s[step..] == s[step..next] + s[next..];
    }
  }

  // ---------------------------------------------------------------------
  // parse_file: summing scores per diagonal position

  function Get(m: map<int, int>, p: int): int {
    if p in m then m[p] else 0
  }

  /** One record: `diag_dict[|offset + step|] += score`, creating the entry
      when it is missing. */
  function AddRecord(m: map<int, int>, r: DiagRecord, step: int): map<int, int> {
    var p := Abs(r.offset + step);
    m[p := Get(m, p) + r.score]
  }

  /** The dictionary after the records of one window, in order. */
  function AddRecords(m: map<int, int>, rs: seq<DiagRecord>, step: int): map<int, int> {
    if rs == [] then m else AddRecord(AddRecords(m, rs[..|rs| - 1], step), rs[|rs| - 1], step)
  }

  /** The positions a window's records touch. */
  function Positions(rs: seq<DiagRecord>, step: int): set<int> {
    set r | r in rs :: Abs(r.offset + step) as int
  }

  /** What one record contributes at position p. */
  function Contribution(r: DiagRecord, step: int, p: int): int {
    if Abs(r.offset + step) == p then r.score else 0
  }

  /** The sum of the scores a window's records add at position p. */
  function ScoreAt(rs: seq<DiagRecord>, step: int, p: int): int {
    if rs == [] then 0 else ScoreAt(rs[..|rs| - 1], step, p) + Contribution(rs[|rs| - 1], step, p)
  }

  /** Closed form of a window's effect: the new keys are the touched
      positions, and every position gains exactly the sum of the scores
      reported for it. */
  lemma {:induction false} AddRecordsSum(m: map<int, int>, rs: seq<DiagRecord>, step: int)
    ensures AddRecords(m, rs, step).Keys == m.Keys + Positions(rs, step)
    ensures forall p :: Get(AddRecords(m, rs, step), p) == Get(m, p) + ScoreAt(rs, step, p)
  {
    if rs != [] {
      var init := rs[..|rs| - 1];
      AddRecordsSum(m, init, step);
      assert rs == init + [rs[|rs| - 1]];
      assert Positions(rs, step) == Positions(init, step) + {Abs(rs[|rs| - 1].offset + step)} by {
        forall r | r in rs ensures r in init || r == rs[|rs| - 1] {
          var i :| 0 <= i < |rs| && rs[i] == r;
          if i < |rs| - 1 { assert init[i] == r; }
        }
      }
    }
  }

  lemma {:induction false} ScoreAtConcat(a: seq<DiagRecord>, b: seq<DiagRecord>, step: int, p: int)
    ensures ScoreAt(a + b, step, p) == ScoreAt(a, step, p) + ScoreAt(b, step, p)
    decreases |b|
  {
    if b != [] {
      assert (a + b)[..|a + b| - 1] == a + b[..|b| - 1];
      ScoreAtConcat(a, b[..|b| - 1], step, p);
    } else {
      assert a + b == a;
    }
  }

  /** Taking one record out of a list removes exactly its contribution. */
  lemma ScoreAtRemove(b: seq<DiagRecord>, k: nat, step: int, p: int)
    requires k < |b|
    ensures ScoreAt(b, step, p) == ScoreAt(b[..k] + b[k + 1..], step, p) + Contribution(b[k], step, p)
    ensures multiset(b[..k] + b[k + 1..]) == multiset(b) - multiset{b[k]}
  {
    assert b == b[..k] + [b[k]] + b[k + 1..];
    ScoreAtConcat(b[..k] + [b[k]], b[k + 1..], step, p);
    ScoreAtConcat(b[..k], [b[k]], step, p);
    ScoreAtConcat(b[..k], b[k + 1..], step, p);
    assert [b[k]][..0] == [];
  }

  lemma {:induction false} ScoreAtPermutation(a: seq<DiagRecord>, b: seq<DiagRecord>, step: int, p: int)
    requires multiset(a) == multiset(b)
    ensures ScoreAt(a, step, p) == ScoreAt(b, step, p)
    decreases |a|
  {
    if a != [] {
      var x := a[|a| - 1];
      var init := a[..|a| - 1];
      assert a == init + [x];
      assert multiset(init) == multiset(a) - multiset{x};
      assert x in multiset(b);
      var k :| 0 <= k < |b| && b[k] == x;
      ScoreAtRemove(b, k, step, p);
      ScoreAtPermutation(init, b[..k] + b[k + 1..], step, p);
    } else {
      assert |multiset(b)| == 0;
    }
  }

  /** Accumulation is order-independent within a window: any reordering of
      the records gives the same dictionary. */
  lemma AddRecordsPermutation(m: map<int, int>, a: seq<DiagRecord>, b: seq<DiagRecord>, step: int)
    requires multiset(a) == multiset(b)
    ensures AddRecords(m, a, step) == AddRecords(m, b, step)
  {
    AddRecordsSum(m, a, step);
    AddRecordsSum(m, b, step);
    assert forall r :: r in a <==> r in b by {
      forall r ensures r in a <==> r in b { assert r in a <==> r in multiset(a); }
    }
    assert Positions(a, step) == Positions(b, step);
    forall p | p in AddRecords(m, a, step) ensures AddRecords(m, a, step)[p] == AddRecords(m, b, step)[p] {
      ScoreAtPermutation(a, b, step, p);
      assert Get(AddRecords(m, a, step), p) == Get(AddRecords(m, b, step), p);
    }
  }

  /** ... and across windows: two windows processed in either order leave
      the same dictionary, since revisited positions sum, never overwrite. */
  lemma AddRecordsCommute(m: map<int, int>, a: seq<DiagRecord>, s1: int, b: seq<DiagRecord>, s2: int)
    ensures AddRecords(AddRecords(m, a, s1), b, s2) == AddRecords(AddRecords(m, b, s2), a, s1)
  {
    var ab := AddRecords(AddRecords(m, a, s1), b, s2);
    var ba := AddRecords(AddRecords(m, b, s2), a, s1);
    AddRecordsSum(m, a, s1);
    AddRecordsSum(m, b, s2);
    AddRecordsSum(AddRecords(m, a, s1), b, s2);
    AddRecordsSum(AddRecords(m, b, s2), a, s1);
    forall p | p in ab ensures ab[p] == ba[p] {
      assert Get(ab, p) == Get(ba, p);
    }
  }

  // ---------------------------------------------------------------------
  // The dictionary and set that run_water threads through the windows

  /** diag_dict and diag_set of split_SW, updated in place by parse_file. */
  class DiagonalTable {
    var diagDict: map<int, int>
    var diagSet: set<int>

    ghost predicate Valid()
      reads this
    {
      diagSet == diagDict.Keys
    }

    constructor ()
      ensures Valid() && diagDict == map[] && diagSet == {}
    {
      diagDict := map[];
      diagSet := {};
    }

    /** parse_file: fold one window's records into the table. */
    method ParseFile(records: seq<DiagRecord>, step: int)
      requires Valid()
      modifies this
      ensures Valid()
      ensures diagDict == AddRecords(old(diagDict), records, step)
    {
      var i := 0;
      while i < |records|
        invariant 0 <= i <= |records|
        invariant Valid()
        invariant diagDict == AddRecords(old(diagDict), records[..i], step)
      {
        var position := Abs(records[i].offset + step);
        var value := records[i].score;
        diagSet := diagSet + {position};
        if position in diagDict {
          diagDict := diagDict[position := diagDict[position] + value];
        } else {
          diagDict := diagDict[position := value];
        }
        assert records[..i + 1][..i] == records[..i];
        i := i + 1;
      }
      assert records[..i] == records;
    }
  }

  // ---------------------------------------------------------------------
  // split_SW

  /** The dictionary after the given windows, in order. */
  function Aggregate(m: map<int, int>, ws: seq<Window>, align: Aligner): map<int, int> {
    if ws == [] then m
    else
      var w := ws[|ws| - 1];
      AddRecords(Aggregate(m, ws[..|ws| - 1], align), align(w.seq1, w.seq2, w.diagonal), w.step)
  }

  /** The windows split_SW runs: sliding 1000-base windows, or the whole
      read against itself with the main diagonal when step is False. */
  function SplitWindows(s: string, sliding: bool): seq<Window> {
    if sliding then Windows(s) else [Window(0, s, s, true)]
  }

  /** The score list split_SW returns for a final dictionary. */
  function Emit(m: map<int, int>): (scores: seq<int>)
    ensures |scores| == |m.Keys|
  {
    var positions := SortedSet(m.Keys);
    seq(|positions|, k requires 0 <= k < |positions| => m[positions[k]])
  }

  /** The emitted list has one score per position, and it follows the
      positions in ascending order: listing the positions in any strictly
      increasing order and reading their scores gives the same list. */
  lemma EmitAscending(m: map<int, int>, positions: seq<int>)
    requires StrictlyIncreasing(positions)
    requires forall p :: p in positions <==> p in m
    ensures |Emit(m)| == |positions|
    ensures forall k :: 0 <= k < |positions| ==> Emit(m)[k] == m[positions[k]]
  {
    StrictlyIncreasingUnique(SortedSet(m.Keys), positions);
  }

  /** run_water over every window in turn, threading one table through. */
  method RunWindows(ws: seq<Window>, align: Aligner) returns (table: DiagonalTable)
    ensures fresh(table) && table.Valid()
    ensures table.diagDict == Aggregate(map[], ws, align)
  {
    table := new DiagonalTable();
    var i := 0;
    while i < |ws|
      invariant 0 <= i <= |ws|
      invariant table.Valid()
      invariant table.diagDict == Aggregate(map[], ws[..i], align)
    {
      var w := ws[i];
      table.ParseFile(align(w.seq1, w.seq2, w.diagonal), w.step);
      assert ws[..i + 1][..i] == ws[..i];
      i := i + 1;
    }
    assert ws[..i] == ws;
  }

  /** The emission loop of split_SW: one score per position of diag_set,
      in ascending position order. */
  method EmitScores(diagDict: map<int, int>, diagSet: set<int>) returns (plotList: seq<int>)
    requires diagSet == diagDict.Keys
    ensures plotList == Emit(diagDict)
  {
    var positions := SortedSet(diagSet);
    ghost var emitted := Emit(diagDict);
    plotList := [];
    var j := 0;
    while j < |positions|
      invariant 0 <= j <= |positions|
      invariant plotList == emitted[..j]
    {
      plotList := plotList + [diagDict[positions[j]]];
      j := j + 1;
    }
  }

  /** split_SW: run the aligner on every window, fold the reports into one
      table, and list the summed scores by ascending diagonal position. */
  method SplitSW(s: string, sliding: bool, align: Aligner) returns (plotList: seq<int>)
    ensures plotList == Emit(Aggregate(map[], SplitWindows(s, sliding), align))
  {
    var table := RunWindows(SplitWindows(s, sliding), align);
    plotList := EmitScores(table.diagDict, table.diagSet);
  }
}
