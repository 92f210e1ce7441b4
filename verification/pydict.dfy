/** A Python dictionary, modelled as an association list in insertion order.
    Assigning to a present key overwrites its entry in place; assigning to an
    absent key appends.  Every dictionary the model builds has distinct keys
    (`Valid`). */
module PyDict {
  import opened Outcomes

  type Dict<K, V> = seq<(K, V)>

  function Keys<K, V>(d: Dict<K, V>): (r: set<K>)
    ensures forall i :: 0 <= i < |d| ==> d[i].0 in r
  {
    if d == [] then {} else {d[0].0} + Keys(d[1..])
  }

  /** Every key belongs to some entry. */
  lemma KeyEntry<K, V>(d: Dict<K, V>, k: K) returns (i: nat)
    requires k in Keys(d)
    ensures i < |d| && d[i].0 == k
  {
    if d[0].0 == k { i := 0; }
    else { var j := KeyEntry(d[1..], k); i := j + 1; }
  }

  /** No key occurs twice. */
  predicate Valid<K(==), V>(d: Dict<K, V>)
  {
    forall i, j :: 0 <= i < j < |d| ==> d[i].0 != d[j].0
  }

  /** `d.get(k)`: the value of the first entry with key `k`. */
  function Get<K(==), V>(d: Dict<K, V>, k: K): (r: Option<V>)
    ensures r.Some? <==> k in Keys(d)
    ensures r.Some? ==> (k, r.value) in d
  {
    if d == [] then None
    else if d[0].0 == k then Some(d[0].1)
    else Get(d[1..], k)
  }

  /** `d[k] = v`. */
  function Put<K(==,!new), V>(d: Dict<K, V>, k: K, v: V): (r: Dict<K, V>)
    ensures Keys(r) == Keys(d) + {k}
    ensures Get(r, k) == Some(v)
    ensures forall k' :: k' != k ==> Get(r, k') == Get(d, k')
    ensures k !in Keys(d) ==> r == d + [(k, v)]
    ensures k in Keys(d) ==> |r| == |d|
  {
    if d == [] then
      KeysCons((k, v), []);
      assert [(k, v)] == [(k, v)] + [];
      [(k, v)]
    else
      assert d == [d[0]] + d[1..];
      KeysCons(d[0], d[1..]);
      if d[0].0 == k then
        var r := [(k, v)] + d[1..];
        KeysCons((k, v), d[1..]);
        GetConsAll((k, v), d[1..]);
        GetConsAll(d[0], d[1..]);
        r
      else
        var rest := Put(d[1..], k, v);
        var r := [d[0]] + rest;
        KeysCons(d[0], rest);
        GetConsAll(d[0], rest);
        GetConsAll(d[0], d[1..]);
        r
  }

  /** `d.pop(k, None)`, keeping only the dictionary. */
  function Pop<K(==,!new), V>(d: Dict<K, V>, k: K): (r: Dict<K, V>)
    ensures Keys(r) == Keys(d) - {k}
    ensures Get(r, k) == None
    ensures forall k' :: k' != k ==> Get(r, k') == Get(d, k')
    ensures Valid(d) ==> Valid(r)
    ensures k !in Keys(d) ==> r == d
  {
    if d == [] then []
    else
      var rest := Pop(d[1..], k);
      assert d == [d[0]] + d[1..];
      KeysCons(d[0], d[1..]);
      ValidCons(d[0], d[1..]);
      GetConsAll(d[0], d[1..]);
      if d[0].0 == k then rest
      else
        KeysCons(d[0], rest);
        ValidCons(d[0], rest);
        GetConsAll(d[0], rest);
        [d[0]] + rest
  }

  /** `d.update(e)`: the entries of `e` assigned one by one, in order. */
  function Update<K(==,!new), V>(d: Dict<K, V>, e: Dict<K, V>): (r: Dict<K, V>)
    ensures Keys(r) == Keys(d) + Keys(e)
    ensures forall k :: k !in Keys(e) ==> Get(r, k) == Get(d, k)
    decreases |e|
  {
    if e == [] then d
    else
      assert e == [e[0]] + e[1..];
      KeysCons(e[0], e[1..]);
      Update(Put(d, e[0].0, e[0].1), e[1..])
  }

  /** After `d.update(e)` with distinct keys in `e`, every key of `e` has its value from `e`. */
  lemma UpdateGet<K(!new), V>(d: Dict<K, V>, e: Dict<K, V>, k: K)
    requires Valid(e) && k in Keys(e)
    ensures Get(Update(d, e), k) == Get(e, k)
    decreases |e|
  {
    assert e == [e[0]] + e[1..];
    KeysCons(e[0], e[1..]);
    ValidCons(e[0], e[1..]);
    GetConsAll(e[0], e[1..]);
    if k != e[0].0 {
      UpdateGet(Put(d, e[0].0, e[0].1), e[1..], k);
    }
  }

  /** The values in order (`d.values()`). */
  function ValuesOf<K, V>(d: Dict<K, V>): (r: seq<V>)
    ensures |r| == |d|
    ensures forall i :: 0 <= i < |d| ==> r[i] == d[i].1
  {
    seq(|d|, i requires 0 <= i < |d| => d[i].1)
  }

  lemma KeysCons<K, V>(e: (K, V), d: Dict<K, V>)
    ensures Keys([e] + d) == {e.0} + Keys(d)
  {
    assert ([e] + d)[1..] == d;
  }

  /** Assignment keeps keys distinct. */
  lemma PutValid<K(!new), V>(d: Dict<K, V>, k: K, v: V)
    requires Valid(d)
    ensures Valid(Put(d, k, v))
  {
    if d != [] {
      assert d == [d[0]] + d[1..];
      ValidCons(d[0], d[1..]);
      if d[0].0 == k {
        ValidCons((k, v), d[1..]);
      } else {
        PutValid(d[1..], k, v);
        ValidCons(d[0], Put(d[1..], k, v));
      }
    }
  }

  /** Assignment adds no entry besides the assigned one. */
  lemma PutEntries<K(!new), V>(d: Dict<K, V>, k: K, v: V)
    ensures forall e :: e in Put(d, k, v) ==> e in d || e == (k, v)
  {
    if d != [] && d[0].0 != k {
      PutEntries(d[1..], k, v);
    }
  }

  /** `d.pop(k, None)` for every key of `ks` in turn. */
  function PopAll<K(==,!new), V>(d: Dict<K, V>, ks: seq<K>): (r: Dict<K, V>)
    ensures forall k :: k !in ks ==> Get(r, k) == Get(d, k)
    ensures forall k :: k in ks ==> Get(r, k) == None
    decreases |ks|
  {
    if ks == [] then d
    else
      var r := PopAll(Pop(d, ks[0]), ks[1..]);
      assert forall k :: k in ks <==> k == ks[0] || k in ks[1..];
      r
  }

  /** A key no entry of `e` has keeps its value through `d.update(e)`. */
  lemma UpdateOther<K(!new), V>(d: Dict<K, V>, e: Dict<K, V>, k: K)
    requires forall i :: 0 <= i < |e| ==> e[i].0 != k
    ensures Get(Update(d, e), k) == Get(d, k)
  {
    if k in Keys(e) {
      var i := KeyEntry(e, k);
    }
  }

  /** `update` keeps keys distinct. */
  lemma UpdateValid<K(!new), V>(d: Dict<K, V>, e: Dict<K, V>)
    requires Valid(d)
    ensures Valid(Update(d, e))
    decreases |e|
  {
    if e != [] {
      PutValid(d, e[0].0, e[0].1);
      UpdateValid(Put(d, e[0].0, e[0].1), e[1..]);
    }
  }

  lemma GetConsAll<K, V>(e: (K, V), d: Dict<K, V>)
    ensures forall k :: Get([e] + d, k) == if e.0 == k then Some(e.1) else Get(d, k)
  {
    assert ([e] + d)[1..] == d;
  }

  lemma ValidCons<K, V>(e: (K, V), d: Dict<K, V>)
    ensures Valid([e] + d) <==> e.0 !in Keys(d) && Valid(d)
  {
    var s := [e] + d;
    if Valid(s) {
      forall i, j | 0 <= i < j < |d| ensures d[i].0 != d[j].0 {
        assert s[i + 1] == d[i] && s[j + 1] == d[j];
      }
      forall i | 0 <= i < |d| ensures d[i].0 != e.0 {
        assert s[i + 1] == d[i] && s[0] == e;
      }
    }
    if e.0 !in Keys(d) && Valid(d) {
      forall i, j | 0 <= i < j < |s| ensures s[i].0 != s[j].0 {
        if i == 0 { assert s[j].0 == d[j - 1].0; }
        else { assert s[i] == d[i - 1] && s[j] == d[j - 1]; }
      }
    }
  }

  lemma KeysAppend<K, V>(d: Dict<K, V>, e: Dict<K, V>)
    ensures Keys(d + e) == Keys(d) + Keys(e)
  {
    if d != [] {
      KeysAppend(d[1..], e);
      assert (d + e)[1..] == d[1..] + e;
    } else {
      assert d + e == e;
    }
  }

  /** In a dictionary without repeated keys, `Get` finds every entry. */
  lemma GetEntry<K, V>(d: Dict<K, V>, i: nat)
    requires Valid(d) && i < |d|
    ensures Get(d, d[i].0) == Some(d[i].1)
  {
    if i > 0 {
      assert d[1..][i - 1] == d[i];
      GetEntry(d[1..], i - 1);
    }
  }

  /** `Get` finds the first entry holding the key. */
  lemma GetAt<K, V>(d: Dict<K, V>, k: K, i: nat)
    requires i < |d| && d[i].0 == k
    requires forall j :: 0 <= j < i ==> d[j].0 != k
    ensures Get(d, k) == Some(d[i].1)
  {
    if i > 0 {
      assert d[1..][i - 1] == d[i];
      GetAt(d[1..], k, i - 1);
    }
  }

  /** Re-assigning the value a key already has leaves the dictionary unchanged. */
  lemma PutSame<K(!new), V>(d: Dict<K, V>, k: K, v: V)
    requires Get(d, k) == Some(v)
    ensures Put(d, k, v) == d
  {
    if d[0].0 != k {
      PutSame(d[1..], k, v);
      assert d == [d[0]] + d[1..];
    }
  }
  /** Entries whose keys are pairwise distinct values form a dictionary. */
  lemma ValidByKeys<K, V>(d: Dict<K, V>, ks: seq<K>)
    requires |d| == |ks| && forall i :: 0 <= i < |d| ==> d[i].0 == ks[i]
    requires forall i, j :: 0 <= i < j < |ks| ==> ks[i] != ks[j]
    ensures Valid(d)
  {
  }

  /** A key the prefix lacks is looked up in the rest. */
  lemma GetSkip<K, V>(pre: Dict<K, V>, d: Dict<K, V>, k: K)
    requires k !in Keys(pre)
    ensures Get(pre + d, k) == Get(d, k)
  {
    if pre != [] {
      assert (pre + d)[1..] == pre[1..] + d;
      GetSkip(pre[1..], d, k);
    } else {
      assert pre + d == d;
    }
  }

  /** A key the prefix holds is looked up there. */
  lemma GetPrefix<K, V>(pre: Dict<K, V>, d: Dict<K, V>, k: K)
    requires k in Keys(pre)
    ensures Get(pre + d, k) == Get(pre, k)
  {
    if pre[0].0 != k {
      assert (pre + d)[1..] == pre[1..] + d;
      GetPrefix(pre[1..], d, k);
    }
  }

  /** Looking a key up in a concatenation. */
  lemma GetSplit<K, V>(pre: Dict<K, V>, d: Dict<K, V>, k: K)
    ensures Get(pre + d, k) == if k in Keys(pre) then Get(pre, k) else Get(d, k)
  {
    if k in Keys(pre) { GetPrefix(pre, d, k); } else { GetSkip(pre, d, k); }
  }
}
