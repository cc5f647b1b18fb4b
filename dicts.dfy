/** Python's dict with its insertion order: a list of key/value pairs with
    distinct keys, where assigning to an existing key replaces its value in
    place and a new key goes to the end. */
module Dicts {
  import opened Wrappers

  /** The program's dicts map strings to strings. */
  type Dict = seq<(string, string)>

  function Keys(d: Dict): (ks: seq<string>)
    ensures |ks| == |d|
  {
    seq(|d|, i requires 0 <= i < |d| => d[i].0)
  }

  function Values(d: Dict): (vs: seq<string>)
    ensures |vs| == |d|
  {
    seq(|d|, i requires 0 <= i < |d| => d[i].1)
  }

  predicate UniqueKeys(d: Dict) {
    forall i, j :: 0 <= i < j < |d| ==> d[i].0 != d[j].0
  }

  /** `d.get(k)` */
  function Lookup(d: Dict, k: string): Option<string> {
    if d == [] then None
    else if d[0].0 == k then Some(d[0].1)
    else Lookup(d[1..], k)
  }

  /** `d[k] = v` */
  function Assign(d: Dict, k: string, v: string): (r: Dict)
    ensures Lookup(r, k) == Some(v)
    ensures forall k' :: k' != k ==> Lookup(r, k') == Lookup(d, k')
    ensures forall k' :: k' in Keys(r) <==> k' in Keys(d) || k' == k
  {
    if d == [] then
      assert Keys([(k, v)]) == [k];
      [(k, v)]
    else if d[0].0 == k then
      assert forall k' :: k' in Keys(d) <==> k' == k || k' in Keys(d[1..]) by {
        assert Keys(d) == [k] + Keys(d[1..]);
      }
      assert forall i :: 0 <= i < |d| ==> ([(k, v)] + d[1..])[i].0 == d[i].0;
      assert Keys([(k, v)] + d[1..]) == [k] + Keys(d[1..]);
      [(k, v)] + d[1..]
    else
      var rest := Assign(d[1..], k, v);
      assert Keys(d) == [d[0].0] + Keys(d[1..]);
      assert Keys([d[0]] + rest) == [d[0].0] + Keys(rest);
      assert ([d[0]] + rest)[1..] == rest;
      assert forall k' :: k' != d[0].0 ==> Lookup([d[0]] + rest, k') == Lookup(rest, k') && Lookup(d, k') == Lookup(d[1..], k');
      [d[0]] + rest
  }

  /** Assigning a key already present replaces its first pair where it
      stands: the length and the order of the other pairs are kept. */
  lemma {:induction false} AssignExisting(d: Dict, k: string, v: string)
    requires k in Keys(d)
    ensures exists i ::
      (0 <= i < |d| && d[i].0 == k && (forall j :: 0 <= j < i ==> d[j].0 != k) &&
       Assign(d, k, v) == d[i := (k, v)])
  {
    if d[0].0 == k {
      assert Assign(d, k, v) == d[0 := (k, v)];
    } else {
      assert Keys(d) == [d[0].0] + Keys(d[1..]);
      AssignExisting(d[1..], k, v);
      var i :| 0 <= i < |d[1..]| && d[1..][i].0 == k && (forall j :: 0 <= j < i ==> d[1..][j].0 != k) &&
        Assign(d[1..], k, v) == d[1..][i := (k, v)];
      AssignBehind(d, k, v, i);
    }
  }

  /** One pair further on: a key first found at i in the tail is first
      found at i + 1 in the dict. */
  lemma AssignBehind(d: Dict, k: string, v: string, i: nat)
    requires d != [] && d[0].0 != k
    requires i < |d| - 1 && d[1..][i].0 == k && (forall j :: 0 <= j < i ==> d[1..][j].0 != k)
    requires Assign(d[1..], k, v) == d[1..][i := (k, v)]
    ensures d[i + 1].0 == k && (forall j :: 0 <= j < i + 1 ==> d[j].0 != k)
    ensures Assign(d, k, v) == d[i + 1 := (k, v)]
  {
    assert Assign(d, k, v) == [d[0]] + Assign(d[1..], k, v);
    assert [d[0]] + d[1..][i := (k, v)] == d[i + 1 := (k, v)];
    forall j | 0 < j < i + 1
      ensures d[j].0 != k
    {
      assert d[j] == d[1..][j - 1];
    }
  }

  /** Assignment keeps the keys distinct. */
  lemma {:induction false} AssignUnique(d: Dict, k: string, v: string)
    requires UniqueKeys(d)
    ensures UniqueKeys(Assign(d, k, v))
  {
    if d != [] && d[0].0 != k {
      var rest := Assign(d[1..], k, v);
      AssignUnique(d[1..], k, v);
      assert d[0].0 !in Keys(d[1..]) by {
        forall i | 0 <= i < |d| - 1 ensures Keys(d[1..])[i] != d[0].0 { assert d[1..][i] == d[i + 1]; }
      }
      assert d[0].0 !in Keys(rest);
      var r := [d[0]] + rest;
      forall i, j | 0 <= i < j < |r| ensures r[i].0 != r[j].0 {
        if i == 0 {
          assert r[j].0 == Keys(rest)[j - 1];
        } else {
          assert r[i] == rest[i - 1] && r[j] == rest[j - 1];
        }
      }
    } else if d != [] {
      var r := [(k, v)] + d[1..];
      assert forall i :: 0 <= i < |d| ==> r[i].0 == d[i].0;
    }
  }

  /** The value a key has in a dict that lists it at position i. */
  lemma LookupAt(d: Dict, i: nat)
    requires UniqueKeys(d) && i < |d|
    ensures Lookup(d, d[i].0) == Some(d[i].1)
  {
    if i > 0 {
      LookupAt(d[1..], i - 1);
    }
  }

  /** A new key goes to the end. */
  lemma {:induction false} AssignNew(d: Dict, k: string, v: string)
    requires k !in Keys(d)
    ensures Assign(d, k, v) == d + [(k, v)]
  {
    if d != [] {
      assert Keys(d)[0] == d[0].0;
      assert Keys(d[1..]) == Keys(d)[1..];
      AssignNew(d[1..], k, v);
      assert d == [d[0]] + d[1..];
    }
  }

  /** A key has a value exactly when it is one of the keys. */
  lemma {:induction false} LookupIn(d: Dict, k: string)
    ensures Lookup(d, k).Some? <==> k in Keys(d)
  {
    if d != [] {
      assert Keys(d) == [d[0].0] + Keys(d[1..]);
      LookupIn(d[1..], k);
    }
  }
}
