/** Python dictionaries that remember insertion order, and small sequence helpers. */
module Dicts {

  predicate NoDup<T(==)>(s: seq<T>)
  {
    forall i, j :: 0 <= i < j < |s| ==> s[i] != s[j]
  }

  /** No duplicate, stated one element at a time: each is absent from the part before it. */
  predicate Unique<T(==)>(s: seq<T>)
    decreases |s|
  {
    s == [] || (Unique(s[..|s| - 1]) && s[|s| - 1] !in s[..|s| - 1])
  }

  lemma {:induction false} NoDupUnique<T>(s: seq<T>)
    requires NoDup(s)
    ensures Unique(s)
    decreases |s|
  {
    if s != [] {
      var n := |s| - 1;
      var pre := s[..n];
      forall a, b | 0 <= a < b < n ensures pre[a] != pre[b] {
        assert pre[a] == s[a] && pre[b] == s[b];
      }
      NoDupUnique(pre);
      forall a | 0 <= a < n ensures pre[a] != s[n] {
        assert pre[a] == s[a];
      }
    }
  }

  lemma {:induction false} NoDupPair<T>(s: seq<T>)
    requires NoDup(s) && |s| >= 2
    ensures s[0] != s[1]
  {
  }

  /** list.index(x): the first position of x. */
  function IndexOf<T(==)>(s: seq<T>, x: T): (r: nat)
    requires x in s
    ensures r < |s| && s[r] == x
    ensures forall j :: 0 <= j < r ==> s[j] != x
  {
    if s[0] == x then 0 else 1 + IndexOf(s[1..], x)
  }

  lemma {:induction false} IndexOfNoDup<T>(s: seq<T>, i: nat)
    requires NoDup(s) && i < |s|
    ensures IndexOf(s, s[i]) == i
  {
  }

  /** A dict: its keys in insertion order, and the key-to-value map. */
  datatype Dict<K(==), V> = Dict(keys: seq<K>, vals: map<K, V>)
  {
    predicate Valid()
    {
      NoDup(keys) && (forall i :: 0 <= i < |keys| ==> keys[i] in vals) && (forall k <- vals.Keys :: k in keys)
    }
  }

  function Empty<K(==), V>(): (r: Dict<K, V>)
    ensures r.Valid() && r.keys == []
  {
    Dict([], map[])
  }

  /** d[k] = v: a new key goes last, an existing key keeps its place. */
  function Put<K(==), V>(d: Dict<K, V>, k: K, v: V): (r: Dict<K, V>)
    requires d.Valid()
    ensures r.Valid()
    ensures r.vals == d.vals[k := v]
    ensures k in d.vals ==> r.keys == d.keys
    ensures k !in d.vals ==> r.keys == d.keys + [k]
  {
    if k in d.vals then Dict(d.keys, d.vals[k := v]) else Dict(d.keys + [k], d.vals[k := v])
  }

  /** The distinct elements of xs in order of first appearance: the key order of a dict filled
      with the elements of xs. */
  function Distinct<T(==)>(xs: seq<T>): seq<T>
    decreases |xs|
  {
    if xs == [] then []
    else
      var d := Distinct(xs[..|xs| - 1]);
      if xs[|xs| - 1] in d then d else d + [xs[|xs| - 1]]
  }

  lemma {:induction false} IndexOfPrefix<T>(xs: seq<T>, n: nat, x: T)
    requires n <= |xs| && x in xs[..n]
    ensures x in xs && IndexOf(xs, x) == IndexOf(xs[..n], x)
  {
    var i := IndexOf(xs[..n], x);
    assert xs[i] == x;
    assert forall k :: 0 <= k < i ==> xs[k] == xs[..n][k];
  }

  /** Distinct holds no duplicate, the same elements as xs, ordered by their first appearance. */
  lemma {:induction false} DistinctSpec<T>(xs: seq<T>)
    ensures NoDup(Distinct(xs))
    ensures forall x :: x in Distinct(xs) <==> x in xs
    ensures forall i, j :: 0 <= i < j < |Distinct(xs)| ==> IndexOf(xs, Distinct(xs)[i]) < IndexOf(xs, Distinct(xs)[j])
    decreases |xs|
  {
    if xs != [] {
      var n := |xs| - 1;
      var pre := xs[..n];
      DistinctSpec(pre);
      assert xs == pre + [xs[n]];
      var d := Distinct(pre);
      forall x | x in pre ensures x in xs && IndexOf(xs, x) == IndexOf(pre, x) {
        IndexOfPrefix(xs, n, x);
      }
      if xs[n] !in d {
        assert xs[n] !in pre;
        assert IndexOf(xs, xs[n]) == n;
        var e := d + [xs[n]];
        forall i, j | 0 <= i < j < |e| ensures e[i] != e[j] && IndexOf(xs, e[i]) < IndexOf(xs, e[j]) {
          assert e[i] == d[i] && d[i] in d;
          if j < |d| { assert e[j] == d[j]; }
        }
      }
    }
  }

  /** m with the entries of the first i keys taken from m': a loop that replaces the entries of
      a dictionary in the order of its key list. */
  ghost function Overlay<K, V>(m: map<K, V>, m': map<K, V>, keys: seq<K>, i: nat): map<K, V>
    requires m.Keys == m'.Keys && i <= |keys|
  {
    map k | k in m :: if k in keys[..i] then m'[k] else m[k]
  }

  lemma {:induction false} OverlayStep<K, V>(m: map<K, V>, m': map<K, V>, keys: seq<K>, i: nat)
    requires m.Keys == m'.Keys && i < |keys| && keys[i] in m
    ensures Overlay(m, m', keys, i + 1) == Overlay(m, m', keys, i)[keys[i] := m'[keys[i]]]
  {
    assert keys[..i + 1] == keys[..i] + [keys[i]];
  }

  lemma {:induction false} OverlayAll<K, V>(m: map<K, V>, m': map<K, V>, keys: seq<K>)
    requires m.Keys == m'.Keys && forall k <- m.Keys :: k in keys
    ensures Overlay(m, m', keys, |keys|) == m'
  {
    assert keys[..|keys|] == keys;
  }
}
