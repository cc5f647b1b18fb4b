/** Two small helpers of the consensus caller: the reverse complement of a
    read and Python's round-half-to-even applied to peak distances. */
module Bases {
  import opened Wrappers

  /** The complement table of revComp; None for a character outside
      {A, C, G, T, N, -} (the KeyError). */
  function Complement(c: char): Option<char> {
    match c
    case 'A' => Some('T')
    case 'C' => Some('G')
    case 'G' => Some('C')
    case 'T' => Some('A')
    case 'N' => Some('N')
    case '-' => Some('-')
    case _ => None
  }

  predicate IsBase(c: char) {
    Complement(c).Some?
  }

  predicate AllBases(s: string) {
    forall i :: 0 <= i < |s| ==> IsBase(s[i])
  }

  /** revComp: complement every character (failing on the first one not in
      the table, scanning left to right), then reverse. */
  function RevComp(s: string): (r: Result<string, char>)
    ensures r.Ok? <==> AllBases(s)
    ensures r.Ok? ==> |r.value| == |s|
    ensures r.Ok? ==> forall i :: 0 <= i < |s| ==> Complement(s[i]) == Some(r.value[|s| - 1 - i])
    ensures r.Err? ==> exists i :: 0 <= i < |s| && s[i] == r.error && !IsBase(s[i]) && AllBases(s[..i])
  {
    if s == [] then Ok([])
    else
      match Complement(s[0])
      case None => assert AllBases(s[..0]); Err(s[0])
      case Some(c) =>
        match RevComp(s[1..])
        case Err(e) =>
          var i :| 0 <= i < |s[1..]| && s[1..][i] == e && !IsBase(s[1..][i]) && AllBases(s[1..][..i]);
          assert s[i + 1] == e && s[..i + 1] == [s[0]] + s[1..][..i];
          Err(e)
        case Ok(t) =>
          assert forall i :: 1 <= i < |s| ==> IsBase(s[i]) by {
            forall i | 1 <= i < |s| ensures IsBase(s[i]) { assert s[i] == s[1..][i - 1]; }
          }
          Ok(t + [c])
  }

  /** Complementing twice gives the character back. */
  lemma ComplementInvolution(c: char)
    requires IsBase(c)
    ensures IsBase(Complement(c).value) && Complement(Complement(c).value) == Some(c)
  {
  }

  /** revComp(revComp(s)) == s for every string over {A, C, G, T, N, -}. */
  lemma RevCompInvolution(s: string)
    requires AllBases(s)
    ensures RevComp(s).Ok? && AllBases(RevComp(s).value)
    ensures RevComp(RevComp(s).value) == Ok(s)
  {
    var t := RevComp(s).value;
    ComplementBack(s, t);
    ComplementAgain(s, t);
  }

  /** Reverse-complementing the reverse complement. */
  lemma ComplementAgain(s: string, t: string)
    requires |t| == |s| && AllBases(t)
    requires forall k :: 0 <= k < |t| ==> Complement(t[k]) == Some(s[|s| - 1 - k])
    ensures RevComp(t) == Ok(s)
  {
    var u := RevComp(t).value;
    forall i | 0 <= i < |s| ensures u[i] == s[i] {
      MirrorBack(s, t, u, i);
    }
    assert u == s;
  }

  /** The character at i after two reverse complements. */
  lemma MirrorBack(s: string, t: string, u: string, i: nat)
    requires |t| == |s| && |u| == |s| && i < |s|
    requires forall k :: 0 <= k < |t| ==> Complement(t[k]) == Some(s[|s| - 1 - k])
    requires forall k :: 0 <= k < |t| ==> Complement(t[k]) == Some(u[|t| - 1 - k])
    ensures u[i] == s[i]
  {
    var k := |s| - 1 - i;
    assert Complement(t[k]) == Some(s[i]);
  }

  /** The reverse complement of a string of bases is made of bases, each
      the complement of the mirrored character. */
  lemma ComplementBack(s: string, t: string)
    requires RevComp(s) == Ok(t)
    ensures AllBases(t)
    ensures forall i :: 0 <= i < |t| ==> Complement(t[i]) == Some(s[|s| - 1 - i])
  {
    forall i | 0 <= i < |t| ensures IsBase(t[i]) && Complement(t[i]) == Some(s[|s| - 1 - i]) {
      ComplementMirror(s, t, i);
    }
  }

  lemma ComplementMirror(s: string, t: string, i: nat)
    requires |t| == |s| && i < |t|
    requires forall k :: 0 <= k < |s| ==> Complement(s[k]) == Some(t[|s| - 1 - k])
    ensures IsBase(t[i]) && Complement(t[i]) == Some(s[|s| - 1 - i])
  {
    var c := s[|s| - 1 - i];
    assert Complement(c) == Some(t[i]);
    ComplementInvolution(c);
  }

  // ---------------------------------------------------------------------
  // rounding(x, base) == int(base * round(x / base))

  /** Python's round() of x / base: the nearest integer, halves going to
      the even neighbour. Exact for integer x. */
  function RoundHalfEven(x: int, base: int): (k: int)
    requires base > 0
  {
    var q, rem := x / base, x % base;
    if 2 * rem < base then q
    else if 2 * rem > base then q + 1
    else if q % 2 == 0 then q
    else q + 1
  }

  /** rounding(x, base): the multiple of base nearest to x, ties to the
      even multiple. */
  function Rounding(x: int, base: int): (r: int)
    requires base > 0
    ensures r == base * RoundHalfEven(x, base)
    ensures -base <= 2 * (r - x) <= base
    ensures 2 * (r - x) == base || 2 * (x - r) == base ==> RoundHalfEven(x, base) % 2 == 0
  {
    var k := RoundHalfEven(x, base);
    assert base * (x / base) == x - x % base;
    if k == x / base then x - x % base
    else
      assert base * k == base * (x / base) + base;
      x - x % base + base
  }

  /** No multiple of base is closer to x than rounding(x, base). */
  lemma RoundingIsNearest(x: int, base: int, m: int)
    requires base > 0
    ensures var r := Rounding(x, base); Abs(r - x) <= Abs(base * m - x)
  {
    var q := x / base;
    assert base * q == x - x % base;
    if m <= q {
      MulMonotonic(base, m, q);
    } else {
      MulMonotonic(base, q + 1, m);
      assert base * (q + 1) == base * q + base;
    }
  }

  lemma MulMonotonic(base: int, a: int, b: int)
    requires base > 0 && a <= b
    ensures base * a <= base * b
  {
    assert base * b - base * a == base * (b - a);
  }

  function Abs(z: int): int {
    if z < 0 then -z else z
  }

  /** The three halves that show the tie rule: 25 -> 0, 75 -> 100,
      125 -> 100. */
  lemma RoundingTies()
    ensures Rounding(25, 50) == 0 && Rounding(75, 50) == 100 && Rounding(125, 50) == 100
    ensures Rounding(-25, 50) == 0 && Rounding(-75, 50) == -100
  {
  }
}
