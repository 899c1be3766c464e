/** A Python `dict` keyed by strings. Python dicts remember insertion
    order, and re-assigning an existing key replaces its value but keeps
    its position; `get_section` depends on that order, so the model keeps
    the keys in a sequence beside the map. */
module PyDict {

  datatype Dict<V> = Dict(keys: seq<string>, values: map<string, V>)

  /** The keys are listed once each, and exactly the map's keys. */
  ghost predicate Valid<V>(d: Dict<V>) {
    && (forall a, b :: 0 <= a < b < |d.keys| ==> d.keys[a] != d.keys[b])
    && (forall k :: k in d.values <==> k in d.keys)
  }

  /** The dicts Python can build. */
  type ValidDict<V> = d: Dict<V> | Valid(d) witness Dict([], map[])

  function Empty<V>(): (d: Dict<V>)
    ensures Valid(d) && d.keys == []
  {
    Dict([], map[])
  }

  /** `d[k] = v`. */
  function Put<V>(d: Dict<V>, k: string, v: V): (r: Dict<V>)
    requires Valid(d)
    ensures Valid(r)
  {
    Dict(if k in d.values then d.keys else d.keys + [k], d.values[k := v])
  }

  /** The dict built by assigning `ks[0] = vs[0]`, `ks[1] = vs[1]`, ... in turn. */
  function FromPairs<V>(ks: seq<string>, vs: seq<V>): (r: Dict<V>)
    requires |ks| == |vs|
    ensures Valid(r)
  {
    if |ks| == 0 then Empty()
    else Put(FromPairs(ks[..|ks| - 1], vs[..|vs| - 1]), ks[|ks| - 1], vs[|vs| - 1])
  }

  /** Assigning pairs in turn: a key is present iff it was assigned. */
  lemma {:induction false} FromPairsKeys<V>(ks: seq<string>, vs: seq<V>)
    requires |ks| == |vs|
    ensures forall k :: k in FromPairs(ks, vs).values <==> k in ks
  {
    if |ks| > 0 {
      var n := |ks| - 1;
      FromPairsKeys(ks[..n], vs[..n]);
      assert ks == ks[..n] + [ks[n]];
    }
  }

  /** A key holds the value of its LAST assignment: a later pair with the
      same key replaces an earlier one. */
  lemma {:induction false} FromPairsLastWins<V>(ks: seq<string>, vs: seq<V>, i: nat)
    requires |ks| == |vs| && i < |ks|
    requires forall j :: i < j < |ks| ==> ks[j] != ks[i]
    ensures ks[i] in FromPairs(ks, vs).values && FromPairs(ks, vs).values[ks[i]] == vs[i]
  {
    var n := |ks| - 1;
    var d := FromPairs(ks[..n], vs[..n]);
    assert FromPairs(ks, vs) == Put(d, ks[n], vs[n]);
    if i < n {
      FromPairsLastWins(ks[..n], vs[..n], i);
      assert ks[..n][i] == ks[i] && vs[..n][i] == vs[i];
    }
  }

  /** The key order is the order of the FIRST assignments. */
  lemma {:induction false} FromPairsOrder<V>(ks: seq<string>, vs: seq<V>)
    requires |ks| == |vs|
    ensures InFirstOrder(FromPairs(ks, vs).keys, ks)
  {
    if |ks| > 0 {
      var n := |ks| - 1;
      var ks', vs' := ks[..n], vs[..n];
      FromPairsOrder(ks', vs');
      FromPairsKeys(ks', vs');
      var d := FromPairs(ks', vs');
      assert FromPairs(ks, vs) == Put(d, ks[n], vs[n]);
      assert ks' + [ks[n]] == ks;
      if ks[n] in d.values {
        OrderPrefix(d.keys, ks', ks[n]);
      } else {
        OrderAppend(d.keys, ks', ks[n]);
      }
    }
  }

  /** `keys` lists keys of `ks` in the order of their first occurrences. */
  ghost predicate InFirstOrder(keys: seq<string>, ks: seq<string>) {
    forall a, b :: 0 <= a < b < |keys| ==> FirstIndex(ks, keys[a]) < FirstIndex(ks, keys[b])
  }

  lemma OrderPrefix(keys: seq<string>, ks: seq<string>, x: string)
    requires forall k :: k in keys ==> k in ks
    requires InFirstOrder(keys, ks)
    ensures InFirstOrder(keys, ks + [x])
  {
    forall k | k in keys ensures FirstIndex(ks + [x], k) == FirstIndex(ks, k) {
      FirstIndexPrefix(ks, [x], k);
    }
  }

  lemma OrderAppend(keys: seq<string>, ks: seq<string>, x: string)
    requires forall k :: k in keys ==> k in ks
    requires x !in ks
    requires InFirstOrder(keys, ks)
    ensures InFirstOrder(keys + [x], ks + [x])
  {
    OrderPrefix(keys, ks, x);
    FirstIndexAppend(ks, x);
    var r := keys + [x];
    forall a, b | 0 <= a < b < |r| ensures FirstIndex(ks + [x], r[a]) < FirstIndex(ks + [x], r[b]) {
      assert r[a] == keys[a];
      if b < |keys| {
        assert r[b] == keys[b];
      } else {
        assert r[b] == x;
        assert keys[a] in ks;
      }
    }
  }

  /** The position of the first occurrence of `k` (|ks| when absent). */
  function FirstIndex(ks: seq<string>, k: string): (i: nat)
    ensures i <= |ks|
    ensures i < |ks| ==> ks[i] == k
    ensures forall j :: 0 <= j < i ==> ks[j] != k
    ensures k in ks <==> i < |ks|
  {
    if |ks| == 0 then 0 else if ks[0] == k then 0 else 1 + FirstIndex(ks[1..], k)
  }

  lemma FirstIndexPrefix(a: seq<string>, b: seq<string>, k: string)
    requires k in a
    ensures FirstIndex(a + b, k) == FirstIndex(a, k)
  {
    var i := FirstIndex(a, k);
    var j := FirstIndex(a + b, k);
    assert (a + b)[i] == k;
    assert j <= i;
    assert a[j] == (a + b)[j];
  }

  lemma FirstIndexAppend(a: seq<string>, k: string)
    requires k !in a
    ensures FirstIndex(a + [k], k) == |a|
  {
    var j := FirstIndex(a + [k], k);
    assert (a + [k])[|a|] == k;
  }

  /** The keys `for k in d` visits, as a set. */
  function KeySet<V>(d: Dict<V>): (s: set<string>)
    requires Valid(d)
    ensures s == d.values.Keys
  {
    set k | k in d.keys
  }
}
