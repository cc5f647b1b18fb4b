/** The pieces of Python's string behaviour that the program relies on:
    str.isspace, str.rstrip()/strip(), str.split() and str.split(sep),
    str.startswith, the `in` test for substrings, str.upper() on ASCII
    letters, and the conversions str(int) and int(str). */
module Text {
  import opened Wrappers

  /** The characters str.isspace() accepts (ASCII and the Unicode
      separators and line/paragraph breaks). */
  predicate IsSpace(c: char) {
    c == ' ' || c == '\t' || c == '\n' || c == '\r' || c == '\U{0b}' || c == '\U{0c}'
    || ('\U{1c}' <= c <= '\U{1f}')
    || c == '\U{85}' || c == '\U{a0}' || c == '\U{1680}'
    || ('\U{2000}' <= c <= '\U{200a}')
    || c == '\U{2028}' || c == '\U{2029}' || c == '\U{202f}' || c == '\U{205f}' || c == '\U{3000}'
  }

  predicate NoSpace(s: string) {
    forall i :: 0 <= i < |s| ==> !IsSpace(s[i])
  }

  predicate AllSpace(s: string) {
    forall i :: 0 <= i < |s| ==> IsSpace(s[i])
  }

  /** str.rstrip(): drop the trailing whitespace. */
  function RStrip(s: string): (r: string)
    ensures r <= s
    ensures AllSpace(s[|r|..])
    ensures r == [] || !IsSpace(r[|r| - 1])
  {
    if s == [] || !IsSpace(s[|s| - 1]) then s
    else
      var r := RStrip(s[..|s| - 1]);
      assert s[|r|..] == s[..|s| - 1][|r|..] + [s[|s| - 1]];
      r
  }

  /** str.lstrip(): drop the leading whitespace. */
  function LStrip(s: string): (r: string)
    ensures |r| <= |s|
    ensures AllSpace(s[..|s| - |r|])
    ensures r == [] || !IsSpace(r[0])
  {
    if s == [] || !IsSpace(s[0]) then s else LStrip(s[1..])
  }

  /** What lstrip() keeps is the tail of the string. */
  lemma {:induction false} LStripSuffix(s: string)
    ensures LStrip(s) == s[|s| - |LStrip(s)|..]
  {
    if s != [] && IsSpace(s[0]) {
      LStripSuffix(s[1..]);
    }
  }

  /** str.strip() */
  function Strip(s: string): string {
    LStrip(RStrip(s))
  }

  /** Length of the leading run of non-whitespace characters. */
  function TokenLength(s: string): (n: nat)
    ensures n <= |s| && NoSpace(s[..n])
    ensures n == |s| || IsSpace(s[n])
  {
    if s == [] || IsSpace(s[0]) then 0
    else
      var n := 1 + TokenLength(s[1..]);
      assert s[..n] == [s[0]] + s[1..][..n - 1];
      n
  }

  /** str.split() with no argument: the maximal runs of non-whitespace
      characters, in order. */
  function Split(s: string): (words: seq<string>)
    ensures forall k :: 0 <= k < |words| ==> words[k] != [] && NoSpace(words[k])
    ensures AllSpace(s) <==> words == []
    decreases |s|
  {
    if s == [] then []
    else if IsSpace(s[0]) then
      var words := Split(s[1..]);
      assert AllSpace(s) <==> AllSpace(s[1..]) by {
        if AllSpace(s[1..]) { forall i | 0 <= i < |s| ensures IsSpace(s[i]) { if i > 0 { assert s[i] == s[1..][i - 1]; } } }
      }
      words
    else
      var n := TokenLength(s);
      [s[..n]] + Split(s[n..])
  }

  /** The non-whitespace characters of s, in order: what split() keeps. */
  function NonSpace(s: string): string {
    if s == [] then [] else (if IsSpace(s[0]) then [] else [s[0]]) + NonSpace(s[1..])
  }

  lemma {:induction false} NonSpaceConcat(a: string, b: string)
    ensures NonSpace(a + b) == NonSpace(a) + NonSpace(b)
  {
    if a != [] {
      assert (a + b)[1..] == a[1..] + b;
      NonSpaceConcat(a[1..], b);
    } else {
      assert a + b == b;
    }
  }

  lemma {:induction false} NonSpaceWord(w: string)
    requires NoSpace(w)
    ensures NonSpace(w) == w
  {
    if w != [] {
      assert NoSpace(w[1..]) by {
        forall i | 0 <= i < |w| - 1 ensures !IsSpace(w[1..][i]) { assert w[1..][i] == w[i + 1]; }
      }
      NonSpaceWord(w[1..]);
    }
  }

  lemma {:induction false} ConcatCons(w: string, ws: seq<string>)
    ensures Concat([w] + ws) == w + Concat(ws)
    decreases |ws|
  {
    if ws != [] {
      assert ([w] + ws)[..|ws|] == [w] + ws[..|ws| - 1];
      ConcatCons(w, ws[..|ws| - 1]);
    } else {
      assert Concat([w]) == Concat([]) + w;
    }
  }

  /** split() loses only whitespace: its words, joined, are exactly the
      non-whitespace characters of s. */
  lemma {:induction false} SplitCovers(s: string)
    ensures Concat(Split(s)) == NonSpace(s)
    decreases |s|
  {
    if s != [] {
      if IsSpace(s[0]) {
        SplitCovers(s[1..]);
      } else {
        var n := TokenLength(s);
        assert n >= 1;
        SplitCovers(s[n..]);
        ConcatCons(s[..n], Split(s[n..]));
        assert s == s[..n] + s[n..];
        NonSpaceConcat(s[..n], s[n..]);
        NonSpaceWord(s[..n]);
      }
    }
  }

  /** Words joined by single spaces split back into the same words. */
  lemma {:induction false} SplitSpaced(words: seq<string>)
    requires |words| >= 1
    requires forall k :: 0 <= k < |words| ==> words[k] != [] && NoSpace(words[k])
    ensures Split(Join(words, ' ')) == words
  {
    if |words| == 1 {
      SplitWord(words[0]);
    } else {
      SplitSpaced(words[1..]);
      SplitWordThen(words[0], Join(words[1..], ' '));
      assert words == [words[0]] + words[1..];
    }
  }

  /** The pieces of s between occurrences of sep, joined back by Join. */
  function Join(pieces: seq<string>, sep: char): string
    requires |pieces| >= 1
  {
    if |pieces| == 1 then pieces[0] else pieces[0] + [sep] + Join(pieces[1..], sep)
  }

  /** `''.join(pieces)` */
  function Concat(pieces: seq<string>): string {
    if pieces == [] then [] else Concat(pieces[..|pieces| - 1]) + pieces[|pieces| - 1]
  }

  /** str.split(sep) for a one-character separator: never empty, and
      joining the pieces with the separator gives back the string. */
  function SplitOn(s: string, sep: char): (pieces: seq<string>)
    ensures |pieces| >= 1
    ensures forall k :: 0 <= k < |pieces| ==> sep !in pieces[k]
    ensures Join(pieces, sep) == s
    decreases |s|
  {
    if sep !in s then [s]
    else
      var i := IndexOf(s, sep);
      var rest := SplitOn(s[i + 1..], sep);
      assert s == s[..i] + [sep] + s[i + 1..];
      [s[..i]] + rest
  }

  /** Index of the first occurrence of c in s. */
  function IndexOf(s: string, c: char): (i: nat)
    requires c in s
    ensures i < |s| && s[i] == c && c !in s[..i]
  {
    if s[0] == c then 0
    else
      var i := 1 + IndexOf(s[1..], c);
      assert s[..i] == [s[0]] + s[1..][..i - 1];
      i
  }

  /** str.startswith(prefix) */
  predicate StartsWith(s: string, prefix: string) {
    prefix <= s
  }

  /** str.endswith(suffix) */
  predicate EndsWith(s: string, suffix: string) {
    |suffix| <= |s| && s[|s| - |suffix|..] == suffix
  }

  /** Python's `sub in s` for strings. */
  predicate Contains(s: string, sub: string)
    decreases |s|
  {
    sub <= s || (s != [] && Contains(s[1..], sub))
  }

  /** str.upper() on ASCII letters; every other character is kept. */
  function UpperChar(c: char): char {
    if 'a' <= c <= 'z' then (c as int - 32) as char else c
  }

  function Upper(s: string): (r: string)
    ensures |r| == |s| && forall i :: 0 <= i < |s| ==> r[i] == UpperChar(s[i])
  {
    seq(|s|, i requires 0 <= i < |s| => UpperChar(s[i]))
  }

  predicate IsDigit(c: char) {
    '0' <= c <= '9'
  }

  predicate AllDigits(s: string) {
    forall i :: 0 <= i < |s| ==> IsDigit(s[i])
  }

  function DigitChar(d: nat): (c: char)
    requires d < 10
    ensures IsDigit(c) && c as int - '0' as int == d
  {
    ('0' as int + d) as char
  }

  /** The value of a string of decimal digits, most significant first. */
  function DigitsValue(s: string): nat
    requires AllDigits(s)
  {
    if s == [] then 0 else DigitsValue(s[..|s| - 1]) * 10 + (s[|s| - 1] as int - '0' as int)
  }

  /** str(n) for a non-negative integer. */
  function NatToString(n: nat): string
  {
    if n < 10 then [DigitChar(n)] else NatToString(n / 10) + [DigitChar(n % 10)]
  }

  /** str(i) for any integer. */
  function IntToString(i: int): string {
    if i < 0 then "-" + NatToString(-i) else NatToString(i)
  }

  /** Python's digit groups in an integer literal: at least one digit,
      and underscores only singly and between two digits ("1_000"). */
  predicate DigitGroups(s: string) {
    s != [] && IsDigit(s[0]) && GroupChars(s)
  }

  /** Every character is a digit or an underscore followed by a digit. */
  predicate GroupChars(s: string) {
    s == [] || ((IsDigit(s[0]) || (s[0] == '_' && |s| >= 2 && IsDigit(s[1]))) && GroupChars(s[1..]))
  }

  /** The value of digit groups, most significant first; underscores
      only separate. */
  function GroupsValue(s: string): nat {
    if s == [] then 0
    else if s[|s| - 1] == '_' then GroupsValue(s[..|s| - 1])
    else GroupsValue(s[..|s| - 1]) * 10 + (if IsDigit(s[|s| - 1]) then s[|s| - 1] as int - '0' as int else 0)
  }

  /** The literal after its optional sign. */
  function Unsigned(s: string): string {
    if |s| >= 1 && (s[0] == '-' || s[0] == '+') then s[1..] else s
  }

  /** int(token) for a token without surrounding whitespace (split() makes
      the tokens): an optional sign, then ASCII digit groups; anything else is
      the ValueError, here None. */
  function ParseInt(s: string): (r: Option<int>)
    ensures r.Some? ==> |s| >= 1
  {
    var d := Unsigned(s);
    if !DigitGroups(d) then None
    else if |s| >= 1 && s[0] == '-' then Some(-(GroupsValue(d) as int))
    else Some(GroupsValue(d))
  }

  /** Every piece is a non-empty run of ASCII digits. */
  predicate DigitPieces(g: seq<string>) {
    forall k :: 0 <= k < |g| ==> g[k] != [] && AllDigits(g[k])
  }

  /** What int() accepts and what it reads, in terms of the literal's
      pieces between underscores: the literal after its sign is accepted
      exactly when every piece is a non-empty run of digits, and then it
      reads as the digits of all pieces run together, negated after a
      '-'. */
  lemma ParseIntPieces(s: string)
    ensures ParseInt(s).Some? <==> DigitPieces(SplitOn(Unsigned(s), '_'))
    ensures ParseInt(s).Some? ==>
      AllDigits(Concat(SplitOn(Unsigned(s), '_'))) &&
      ParseInt(s).value == (if s[0] == '-' then -(DigitsValue(Concat(SplitOn(Unsigned(s), '_'))) as int)
                            else DigitsValue(Concat(SplitOn(Unsigned(s), '_'))))
  {
    var d := Unsigned(s);
    var g := SplitOn(d, '_');
    if DigitGroups(d) {
      GroupsPieces(d);
    }
    if DigitPieces(g) {
      JoinGroupChars(g);
      JoinGroupsValue(g);
    }
  }

  /** int() on a sign followed by digit runs joined by single
      underscores: the digits run together, negated after a '-'. */
  lemma ParseIntJoin(sign: string, g: seq<string>)
    requires sign == "" || sign == "-" || sign == "+"
    requires |g| >= 1 && DigitPieces(g)
    ensures AllDigits(Concat(g))
    ensures ParseInt(sign + Join(g, '_')).Some?
    ensures ParseInt(sign + Join(g, '_')).value ==
      (if sign == "-" then -(DigitsValue(Concat(g)) as int) else DigitsValue(Concat(g)))
  {
    JoinGroupChars(g);
    JoinGroupsValue(g);
    SignedGroups(sign, Join(g, '_'), DigitsValue(Concat(g)));
  }

  /** int() on a sign followed by digit groups of value v. */
  lemma SignedGroups(sign: string, d: string, v: nat)
    requires sign == "" || sign == "-" || sign == "+"
    requires DigitGroups(d) && GroupsValue(d) == v
    ensures ParseInt(sign + d) == Some(if sign == "-" then -(v as int) else v as int)
  {
    var s := sign + d;
    if sign == "" {
      assert s == d && !(s[0] == '-' || s[0] == '+');
    } else {
      assert s[0] == sign[0] && s[1..] == d;
    }
    assert Unsigned(s) == d;
  }

  /** Digit runs joined by underscores are digit groups. */
  lemma {:induction false} JoinGroupChars(g: seq<string>)
    requires |g| >= 1 && DigitPieces(g)
    ensures DigitGroups(Join(g, '_'))
  {
    if |g| == 1 {
      PlainChars(g[0]);
    } else {
      JoinGroupChars(g[1..]);
      var rest := Join(g[1..], '_');
      assert GroupChars(['_'] + rest) by {
        assert (['_'] + rest)[1..] == rest;
      }
      DigitsThenGroups(g[0], ['_'] + rest);
      assert Join(g, '_') == g[0] + (['_'] + rest);
    }
  }

  /** Digits in front of digit groups keep them digit groups. */
  lemma {:induction false} DigitsThenGroups(a: string, b: string)
    requires AllDigits(a) && GroupChars(b)
    ensures GroupChars(a + b)
  {
    if a != [] {
      DigitsThenGroups(a[1..], b);
      assert (a + b)[1..] == a[1..] + b;
    } else {
      assert a + b == b;
    }
  }

  /** The digits of digit runs joined by underscores read as the runs'
      digits run together. */
  lemma {:induction false} JoinGroupsValue(g: seq<string>)
    requires |g| >= 1 && DigitPieces(g)
    ensures AllDigits(Concat(g))
    ensures GroupsValue(Join(g, '_')) == DigitsValue(Concat(g))
  {
    var n := |g|;
    if n == 1 {
      assert g[..0] == [];
      assert Concat(g) == g[0];
      PlainGroups(g[0]);
    } else {
      var init := g[..n - 1];
      JoinGroupsValue(init);
      JoinLast(g, '_');
      var x := Join(init, '_');
      assert GroupsValue(x + ['_']) == GroupsValue(x) by {
        assert (x + ['_'])[..|x|] == x;
      }
      ExtendDigits(x + ['_'], Concat(init), g[n - 1]);
      assert Join(g, '_') == (x + ['_']) + g[n - 1];
    }
  }

  /** Digits appended to two strings of equal value keep them equal. */
  lemma {:induction false} ExtendDigits(x: string, c: string, y: string)
    requires AllDigits(c) && AllDigits(y) && GroupsValue(x) == DigitsValue(c)
    ensures AllDigits(c + y) && GroupsValue(x + y) == DigitsValue(c + y)
  {
    if y == [] {
      assert x + y == x && c + y == c;
    } else {
      var y' := y[..|y| - 1];
      ExtendDigits(x, c, y');
      assert (x + y)[..|x + y| - 1] == x + y';
      assert (c + y)[..|c + y| - 1] == c + y';
    }
  }

  /** Join taken from the other end: the last piece comes after the
      others' join and one separator. */
  lemma {:induction false} JoinLast(g: seq<string>, sep: char)
    requires |g| >= 2
    ensures Join(g, sep) == Join(g[..|g| - 1], sep) + [sep] + g[|g| - 1]
  {
    if |g| > 2 {
      JoinLast(g[1..], sep);
      assert g[1..][..|g| - 2] == g[..|g| - 1][1..];
    }
  }

  /** The pieces between underscores of digit groups are non-empty runs
      of digits. */
  lemma {:induction false} GroupsPieces(d: string)
    requires DigitGroups(d)
    ensures DigitPieces(SplitOn(d, '_'))
    decreases |d|
  {
    if '_' !in d {
      GroupCharsDigits(d);
    } else {
      var i := IndexOf(d, '_');
      GroupCharsAt(d, i);
      GroupCharsSuffix(d, i + 1);
      forall j | 0 <= j < i
        ensures IsDigit(d[..i][j])
      {
        GroupCharsAt(d, j);
      }
      GroupsPieces(d[i + 1..]);
    }
  }

  /** Digit groups without an underscore are digits. */
  lemma {:induction false} GroupCharsDigits(s: string)
    requires GroupChars(s) && '_' !in s
    ensures AllDigits(s)
  {
    if s != [] {
      GroupCharsDigits(s[1..]);
      assert forall j :: 1 <= j < |s| ==> s[j] == s[1..][j - 1];
    }
  }

  /** Each character of digit groups is a digit or an underscore followed
      by a digit. */
  lemma {:induction false} GroupCharsAt(s: string, j: nat)
    requires GroupChars(s) && j < |s|
    ensures IsDigit(s[j]) || (s[j] == '_' && j + 1 < |s| && IsDigit(s[j + 1]))
  {
    if j > 0 {
      GroupCharsAt(s[1..], j - 1);
    }
  }

  lemma {:induction false} GroupCharsSuffix(s: string, j: nat)
    requires GroupChars(s) && j <= |s|
    ensures GroupChars(s[j..])
  {
    if j > 0 {
      GroupCharsSuffix(s[1..], j - 1);
      assert s[1..][j - 1..] == s[j..];
    }
  }

  /** A plain digit string is its own digit groups, of the same value. */
  lemma {:induction false} PlainGroups(d: string)
    requires d != [] && AllDigits(d)
    ensures DigitGroups(d) && GroupsValue(d) == DigitsValue(d)
  {
    PlainChars(d);
    if |d| > 1 {
      PlainGroups(d[..|d| - 1]);
    }
  }

  lemma {:induction false} PlainChars(d: string)
    requires AllDigits(d)
    ensures GroupChars(d)
  {
    if d != [] {
      PlainChars(d[1..]);
    }
  }

  /** The value int() gives: a plain digit string, with or without a
      sign, reads as its decimal value; a grouped one as the value of its
      digits, negated after a '-'. */
  lemma ParseIntValue(s: string)
    ensures s != [] && AllDigits(s) ==> ParseInt(s) == Some(DigitsValue(s))
    ensures |s| >= 2 && s[0] == '-' && AllDigits(s[1..]) ==>
      ParseInt(s).Some? && ParseInt(s).value == -(DigitsValue(s[1..]) as int)
    ensures |s| >= 2 && s[0] == '+' && AllDigits(s[1..]) ==> ParseInt(s) == Some(DigitsValue(s[1..]))
    ensures ParseInt(s).Some? && |s| >= 1 && s[0] == '-' ==> ParseInt(s).value == -(GroupsValue(s[1..]) as int)
    ensures ParseInt(s).Some? && !(|s| >= 1 && s[0] == '-') ==> ParseInt(s).value == GroupsValue(Unsigned(s))
  {
    if s != [] && AllDigits(s) {
      assert IsDigit(s[0]);
      assert Unsigned(s) == s;
      PlainGroups(s);
    } else if |s| >= 2 && (s[0] == '-' || s[0] == '+') && AllDigits(s[1..]) {
      assert Unsigned(s) == s[1..];
      PlainGroups(s[1..]);
    }
  }

  /** int() reads "1_000" as 1000. */
  lemma ParseIntGrouped()
    ensures ParseInt("1_000") == Some(1000)
  {
    var s := "1_000";
    assert DigitGroups(s) by {
      assert s[1..] == "_000" && "_000"[1..] == "000" && "000"[1..] == "00" && "00"[1..] == "0" && "0"[1..] == "";
    }
    assert GroupsValue(s) == 1000 by {
      assert s[..4] == "1_00";
      assert "1_00"[..3] == "1_0";
      assert "1_0"[..2] == "1_";
      assert "1_"[..1] == "1";
      assert "1"[..0] == "";
    }
  }

  /** int() refuses a doubled, leading or trailing underscore, and a bare
      sign. */
  lemma ParseIntRefused()
    ensures ParseInt("1__0") == None
    ensures ParseInt("_1") == None
    ensures ParseInt("1_") == None
    ensures ParseInt("-") == None
    ensures ParseInt("") == None
  {
    assert "1__0"[1..] == "__0";
    assert "1_"[1..] == "_";
  }

  /** str(n) is a non-empty digit string that reads back as n. */
  lemma {:induction false} NatToStringDigits(n: nat)
    ensures NatToString(n) != [] && AllDigits(NatToString(n))
    ensures DigitsValue(NatToString(n)) == n
  {
    if n >= 10 {
      NatToStringDigits(n / 10);
      var s := NatToString(n);
      assert s[..|s| - 1] == NatToString(n / 10);
    }
  }

  /** int(str(i)) == i */
  lemma ParseIntToString(i: int)
    ensures ParseInt(IntToString(i)) == Some(i)
  {
    var n: nat := if i < 0 then -i else i;
    NatToStringDigits(n);
    PlainGroups(NatToString(n));
    if i < 0 {
      assert IntToString(i)[1..] == NatToString(n);
    }
  }

  /** str is injective on non-negative integers, so a label compares equal
      to str(k) exactly when the counts agree. */
  lemma NatToStringInjective(m: nat, n: nat)
    ensures NatToString(m) == NatToString(n) <==> m == n
  {
    NatToStringDigits(m);
    NatToStringDigits(n);
  }

  // ---------------------------------------------------------------------
  // Facts about well-formed tokens, for the parsers' round trips

  /** A string that does not end in whitespace is its own rstrip(), and
      one that also does not start with whitespace is its own strip(). */
  lemma StripUnchanged(s: string)
    requires s != [] && !IsSpace(s[0]) && !IsSpace(s[|s| - 1])
    ensures RStrip(s) == s && Strip(s) == s
  {
    assert RStrip(s) == s;
    assert LStrip(s) == s;
    assert Strip(s) == LStrip(RStrip(s));
  }

  /** A single word splits to itself. */
  lemma {:induction false} SplitWord(w: string)
    requires w != [] && NoSpace(w)
    ensures TokenLength(w) == |w|
    ensures Split(w) == [w]
  {
    if |w| > 1 {
      assert NoSpace(w[1..]) by {
        forall i | 0 <= i < |w| - 1 ensures !IsSpace(w[1..][i]) { assert w[1..][i] == w[i + 1]; }
      }
      SplitWord(w[1..]);
    }
    assert TokenLength(w) == |w|;
    assert w[..|w|] == w;
    assert w[|w|..] == [];
  }

  /** A word followed by a space and more text splits into the word and
      the split of the rest. */
  lemma SplitWordThen(w: string, rest: string)
    requires w != [] && NoSpace(w)
    ensures Split(w + " " + rest) == [w] + Split(rest)
  {
    var s := w + " " + rest;
    TokenLengthPrefix(w, " " + rest);
    assert s == w + (" " + rest);
    assert s[0] == w[0];
    assert s[..|w|] == w;
    assert s[|w|..] == " " + rest;
    assert Split(s) == [w] + Split(" " + rest);
    assert (" " + rest)[1..] == rest;
    assert Split(" " + rest) == Split(rest);
  }

  lemma {:induction false} TokenLengthPrefix(w: string, rest: string)
    requires NoSpace(w) && rest != [] && IsSpace(rest[0])
    ensures TokenLength(w + rest) == |w|
  {
    if w != [] {
      assert (w + rest)[1..] == w[1..] + rest;
      TokenLengthPrefix(w[1..], rest);
    } else {
      assert w + rest == rest;
    }
  }

  /** A string without the character c does not contain it as a substring. */
  lemma {:induction false} NotContains(s: string, c: char)
    requires c !in s
    ensures !Contains(s, [c])
  {
    if s != [] {
      assert s[0] in s;
      assert s[1..] <= s[1..];
      forall x | x in s[1..] ensures x in s { }
      NotContains(s[1..], c);
    }
  }

  /** str(i) is a non-empty run of digits after an optional '-': no
      whitespace and no '|'. */
  lemma IntToStringPlain(i: int)
    ensures IntToString(i) != [] && NoSpace(IntToString(i)) && '|' !in IntToString(i)
  {
    var n: nat := if i < 0 then -i else i;
    NatToStringDigits(n);
    var s := IntToString(i);
    forall k | 0 <= k < |s| ensures !IsSpace(s[k]) && s[k] != '|' {
      if i < 0 && k > 0 {
        assert s[k] == NatToString(n)[k - 1];
      }
    }
  }
}
