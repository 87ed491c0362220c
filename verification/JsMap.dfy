/** JavaScript's Map with string keys: it iterates in insertion order, overwriting a key keeps its
    place, and deleting it frees the place. */
module JsMaps {

  datatype JsMap<V> = JsMap(keys: seq<string>, at: map<string, V>) {

    ghost predicate Valid() {
      Distinct(keys) && at.Keys == Elements(keys)
    }

    function Set(k: string, v: V): (r: JsMap<V>)
      ensures r.at == at[k := v]
      ensures Valid() ==> r.Valid()
    {
      JsMap(if k in at then keys else keys + [k], at[k := v])
    }

    function Delete(k: string): (r: JsMap<V>)
      ensures r.at == at - {k}
      ensures Valid() ==> r.Valid()
    {
      JsMap(Without(keys, k), at - {k})
    }

    function Values(): (vs: seq<V>)
      requires Valid()
      ensures |vs| == |keys| && forall i :: 0 <= i < |vs| ==> vs[i] == at[keys[i]]
    {
      seq(|keys|, i requires 0 <= i < |keys| => at[keys[i]])
    }
  }

  function Empty<V>(): (m: JsMap<V>)
    ensures m.Valid() && m.at == map[]
  {
    JsMap([], map[])
  }

  ghost predicate Distinct<T(!new)>(s: seq<T>) {
    forall i, j :: 0 <= i < j < |s| ==> s[i] != s[j]
  }

  function Elements<T>(s: seq<T>): set<T> {
    set x | x in s
  }

  function Without(keys: seq<string>, k: string): (r: seq<string>)
    ensures Elements(r) == Elements(keys) - {k}
    ensures Distinct(keys) ==> Distinct(r)
  {
    if keys == [] then []
    else
      var r := Without(keys[1..], k);
      assert Elements(keys) == {keys[0]} + Elements(keys[1..]) by { assert keys == [keys[0]] + keys[1..]; }
      assert Elements([keys[0]] + r) == {keys[0]} + Elements(r);
      assert Distinct(keys) ==> keys[0] !in Elements(r);
      if keys[0] == k then r else [keys[0]] + r
  }

  lemma {:induction false} DistinctSize<T(!new)>(s: seq<T>)
    requires Distinct(s)
    ensures |Elements(s)| == |s|
  {
    if s != [] {
      DistinctSize(s[1..]);
      assert s == [s[0]] + s[1..];
      assert Elements(s) == {s[0]} + Elements(s[1..]);
    }
  }

  /** `m.size` */
  lemma SizeIsCardinality<V>(m: JsMap<V>)
    requires m.Valid()
    ensures |m.keys| == |m.at|
  {
    DistinctSize(m.keys);
  }

  /** The sum of a finite family of numbers. */
  ghost function Total(m: map<string, nat>): nat
    decreases m.Keys
  {
    if m == map[] then 0 else var k :| k in m; m[k] + Total(m - {k})
  }

  lemma {:induction false} TotalSplit(m: map<string, nat>, k: string)
    requires k in m
    ensures Total(m) == m[k] + Total(m - {k})
    decreases m.Keys
  {
    var c :| c in m && Total(m) == m[c] + Total(m - {c});
    if c != k {
      TotalSplit(m - {c}, k);
      TotalSplit(m - {k}, c);
      assert m - {c} - {k} == m - {k} - {c};
    }
  }

  /** Dropping keys raises neither the count nor the sum. */
  lemma DroppingKeys(m: map<string, nat>, ks: set<string>)
    ensures Total(m - ks) <= Total(m) && |m - ks| <= |m|
  {
    DroppingKeysTotal(m, ks);
    var dropped := m.Keys * ks;
    assert (m - ks).Keys == m.Keys - dropped;
  }

  lemma {:induction false} DroppingKeysTotal(m: map<string, nat>, ks: set<string>)
    ensures Total(m - ks) <= Total(m)
    decreases m.Keys
  {
    if m == map[] {
      assert m - ks == m;
    } else {
      var k :| k in m;
      var rest := m - {k};
      DroppingKeysTotal(rest, ks);
      TotalSplit(m, k);
      if k in ks {
        assert m - ks == rest - ks;
      } else {
        TotalSplit(m - ks, k);
        assert m - ks - {k} == rest - ks;
      }
    }
  }

  function SumKeys(m: map<string, nat>, keys: seq<string>): nat
    requires Elements(keys) <= m.Keys
  {
    if keys == [] then 0
    else
      var init, k := keys[..|keys| - 1], keys[|keys| - 1];
      assert k in Elements(keys) && Elements(init) <= Elements(keys);
      SumKeys(m, init) + m[k]
  }

  lemma {:induction false} SumKeysFrame(a: map<string, nat>, b: map<string, nat>, keys: seq<string>)
    requires Elements(keys) <= a.Keys && Elements(keys) <= b.Keys
    requires forall k :: k in keys ==> a[k] == b[k]
    ensures SumKeys(a, keys) == SumKeys(b, keys)
  {
    if keys != [] {
      assert Elements(keys[..|keys| - 1]) <= Elements(keys);
      SumKeysFrame(a, b, keys[..|keys| - 1]);
    }
  }

  /** Adding up in any order gives the total. */
  lemma {:induction false} SumKeysTotal(m: map<string, nat>, keys: seq<string>)
    requires Distinct(keys) && Elements(keys) == m.Keys
    ensures SumKeys(m, keys) == Total(m)
  {
    if keys == [] {
      assert m.Keys == {};
    } else {
      var init, k := keys[..|keys| - 1], keys[|keys| - 1];
      assert keys == init + [k];
      assert Elements(keys) == Elements(init) + {k} && k !in Elements(init);
      SumKeysTotal(m - {k}, init);
      SumKeysFrame(m, m - {k}, init);
      TotalSplit(m, k);
    }
  }

  function DeleteAll<V>(m: map<string, V>, keys: seq<string>): (r: map<string, V>)
    ensures r == m - Elements(keys)
  {
    if keys == [] then m
    else
      assert keys == keys[..|keys| - 1] + [keys[|keys| - 1]];
      DeleteAll(m, keys[..|keys| - 1]) - {keys[|keys| - 1]}
  }
}
