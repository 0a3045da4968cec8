/** Python's insertion-ordered `dict`, as an association list.

    Building a dict from pairs (`dict(pairs)`, a dict comprehension, or
    `d[k] = v` in a loop) keeps each key at the position where it was first
    inserted and gives it the value that was inserted last. */
module OrderedDict {
  import opened Common

  type Dict<K, V> = seq<(K, V)>

  function Keys<K, V>(d: Dict<K, V>): (ks: seq<K>)
    ensures |ks| == |d| && forall i :: 0 <= i < |d| ==> ks[i] == d[i].0
  {
    seq(|d|, i requires 0 <= i < |d| => d[i].0)
  }

  function Values<K, V>(d: Dict<K, V>): (vs: seq<V>)
    ensures |vs| == |d| && forall i :: 0 <= i < |d| ==> vs[i] == d[i].1
  {
    seq(|d|, i requires 0 <= i < |d| => d[i].1)
  }

  predicate Distinct<K(==)>(ks: seq<K>)
  {
    forall i, j :: 0 <= i < j < |ks| ==> ks[i] != ks[j]
  }

  /** The index of the first occurrence of `k`, or `|ks|` when `k` is absent. */
  function Find<K(==)>(ks: seq<K>, k: K): (i: nat)
    ensures i <= |ks|
    ensures i < |ks| <==> k in ks
    ensures i < |ks| ==> ks[i] == k
    ensures forall j :: 0 <= j < i ==> ks[j] != k
  {
    if |ks| == 0 then 0 else if ks[0] == k then 0 else 1 + Find(ks[1..], k)
  }

  /** `d[k] = v`. */
  function Put<K(==), V>(d: Dict<K, V>, k: K, v: V): Dict<K, V>
  {
    var i := Find(Keys(d), k);
    if i < |d| then d[i := (k, v)] else d + [(k, v)]
  }

  /** `dict(pairs)`: insert the pairs one after the other. */
  function FromPairs<K(==), V>(ps: seq<(K, V)>): Dict<K, V>
    decreases |ps|
  {
    if |ps| == 0 then [] else Put(FromPairs(ps[..|ps| - 1]), ps[|ps| - 1].0, ps[|ps| - 1].1)
  }

  /** `d.get(k)`. */
  function Lookup<K(==), V>(d: Dict<K, V>, k: K): Option<V>
  {
    var i := Find(Keys(d), k);
    if i < |d| then Some(d[i].1) else None
  }

  /** The keys in the order of their first occurrence, each once. */
  function Dedup<K(==)>(ks: seq<K>): seq<K>
    decreases |ks|
  {
    if |ks| == 0 then []
    else
      var p := Dedup(ks[..|ks| - 1]);
      if ks[|ks| - 1] in p then p else p + [ks[|ks| - 1]]
  }

  /** The value that the last pair with key `k` carries. */
  function LastValue<K(==), V>(ps: seq<(K, V)>, k: K): V
    requires k in Keys(ps)
    decreases |ps|
  {
    if ps[|ps| - 1].0 == k then ps[|ps| - 1].1
    else
      assert Keys(ps) == Keys(ps[..|ps| - 1]) + [ps[|ps| - 1].0];
      LastValue(ps[..|ps| - 1], k)
  }

  lemma KeysSnoc<K, V>(ps: seq<(K, V)>)
    requires |ps| > 0
    ensures Keys(ps) == Keys(ps[..|ps| - 1]) + [ps[|ps| - 1].0]
  {
  }

  /** One `Put` replaces the value of an existing key in place, or appends a new key. */
  lemma PutKeys<K, V>(d: Dict<K, V>, k: K, v: V)
    ensures Keys(Put(d, k, v)) == if k in Keys(d) then Keys(d) else Keys(d) + [k]
  {
    var i := Find(Keys(d), k);
    if i < |d| {
      assert Keys(d[i := (k, v)]) == Keys(d);
    } else {
      assert Keys(d + [(k, v)]) == Keys(d) + [k];
    }
  }

  lemma {:induction false} DedupDistinct<K>(ks: seq<K>)
    ensures Distinct(Dedup(ks))
    ensures forall k :: k in Dedup(ks) <==> k in ks
    decreases |ks|
  {
    if |ks| > 0 {
      var init := ks[..|ks| - 1];
      DedupDistinct(init);
      assert ks == init + [ks[|ks| - 1]];
    }
  }

  /** The keys of `dict(pairs)` are the distinct keys of the pairs, in first-occurrence order. */
  lemma {:induction false} FromPairsKeys<K, V>(ps: seq<(K, V)>)
    ensures Keys(FromPairs(ps)) == Dedup(Keys(ps))
    decreases |ps|
  {
    if |ps| > 0 {
      var init := ps[..|ps| - 1];
      FromPairsKeys(init);
      PutKeys(FromPairs(init), ps[|ps| - 1].0, ps[|ps| - 1].1);
      KeysSnoc(ps);
      assert Keys(ps)[..|Keys(ps)| - 1] == Keys(init);
    }
  }

  /** No key occurs twice in a dict built from pairs. */
  lemma FromPairsDistinct<K, V>(ps: seq<(K, V)>)
    ensures Distinct(Keys(FromPairs(ps)))
    ensures forall k :: k in Keys(FromPairs(ps)) <==> k in Keys(ps)
  {
    FromPairsKeys(ps);
    DedupDistinct(Keys(ps));
  }

  lemma PutLookup<K, V>(d: Dict<K, V>, k: K, v: V, x: K)
    ensures Lookup(Put(d, k, v), x) == if x == k then Some(v) else Lookup(d, x)
  {
    var i := Find(Keys(d), k);
    var d' := Put(d, k, v);
    if i < |d| {
      assert Keys(d') == Keys(d);
      var j := Find(Keys(d), x);
      if j < |d| && x != k {
        assert j != i;
      }
    } else {
      assert Keys(d') == Keys(d) + [k];
      FindAppend(Keys(d), k, x);
    }
  }

  lemma {:induction false} FindAppend<K>(ks: seq<K>, k: K, x: K)
    requires k !in ks
    ensures Find(ks + [k], x) == if x in ks then Find(ks, x) else if x == k then |ks| else |ks| + 1
    decreases |ks|
  {
    if |ks| > 0 {
      assert (ks + [k])[1..] == ks[1..] + [k];
      if ks[0] != x {
        assert x in ks <==> x in ks[1..];
        FindAppend(ks[1..], k, x);
      }
    }
  }

  /** Looking a key up in `dict(pairs)` yields the value of the last pair with that key. */
  lemma {:induction false} FromPairsLookup<K, V>(ps: seq<(K, V)>, k: K)
    ensures k in Keys(ps) ==> Lookup(FromPairs(ps), k) == Some(LastValue(ps, k))
    ensures k !in Keys(ps) ==> Lookup(FromPairs(ps), k) == None
    decreases |ps|
  {
    if |ps| == 0 {
    } else {
      var init := ps[..|ps| - 1];
      KeysSnoc(ps);
      FromPairsLookup(init, k);
      PutLookup(FromPairs(init), ps[|ps| - 1].0, ps[|ps| - 1].1, k);
    }
  }

  /** A list of pairs whose keys are already distinct is turned into a dict unchanged. */
  lemma {:induction false} FromPairsIdentity<K, V>(ps: seq<(K, V)>)
    requires Distinct(Keys(ps))
    ensures FromPairs(ps) == ps
    decreases |ps|
  {
    if |ps| > 0 {
      var init := ps[..|ps| - 1];
      KeysSnoc(ps);
      assert Distinct(Keys(init));
      FromPairsIdentity(init);
      assert ps[|ps| - 1].0 !in Keys(init);
      assert ps == init + [ps[|ps| - 1]];
    }
  }

  /** With distinct keys, Dedup changes nothing. */
  lemma {:induction false} DedupIdentity<K>(ks: seq<K>)
    requires Distinct(ks)
    ensures Dedup(ks) == ks
    decreases |ks|
  {
    if |ks| > 0 {
      var init := ks[..|ks| - 1];
      DedupIdentity(init);
      DedupDistinct(init);
      assert ks == init + [ks[|ks| - 1]];
    }
  }

  /** Every entry of `dict(pairs)` is one of the pairs. */
  lemma {:induction false} FromPairsSubset<K, V>(ps: seq<(K, V)>)
    ensures forall p :: p in FromPairs(ps) ==> p in ps
    decreases |ps|
  {
    if |ps| > 0 {
      var init := ps[..|ps| - 1];
      FromPairsSubset(init);
      var d := FromPairs(init);
      var i := Find(Keys(d), ps[|ps| - 1].0);
      assert ps == init + [ps[|ps| - 1]];
      if i < |d| {
        forall p | p in d[i := ps[|ps| - 1]] ensures p in ps {
          var j :| 0 <= j < |d| && d[i := ps[|ps| - 1]][j] == p;
          if j != i { assert p == d[j]; }
        }
      }
    }
  }

  /** In a list of distinct keys, the first occurrence of the i-th key is at i. */
  lemma FindDistinct<K>(ks: seq<K>, i: nat)
    requires Distinct(ks) && i < |ks|
    ensures Find(ks, ks[i]) == i
  {
    var j := Find(ks, ks[i]);
    assert j <= i;
  }

  /** Every entry of `dict(pairs)` carries the value of the last pair with its key. */
  lemma FromPairsValues<K, V>(ps: seq<(K, V)>)
    ensures forall k :: k in Keys(FromPairs(ps)) <==> k in Keys(ps)
    ensures forall i :: 0 <= i < |FromPairs(ps)| ==>
      FromPairs(ps)[i].0 in Keys(ps) && FromPairs(ps)[i].1 == LastValue(ps, FromPairs(ps)[i].0)
  {
    var d := FromPairs(ps);
    FromPairsDistinct(ps);
    forall i | 0 <= i < |d|
      ensures d[i].0 in Keys(ps) && d[i].1 == LastValue(ps, d[i].0)
    {
      assert Keys(d)[i] == d[i].0;
      FindDistinct(Keys(d), i);
      FromPairsLookup(ps, d[i].0);
    }
  }

  /** Inserting the same key twice keeps one entry, with the second value. */
  lemma FromPairsRepeat<K, V>(k: K, v: V, w: V)
    ensures FromPairs([(k, v), (k, w)]) == [(k, w)]
  {
    var ps := [(k, v), (k, w)];
    assert ps[..1] == [(k, v)];
    assert FromPairs([(k, v)]) == [(k, v)] by {
      assert [(k, v)][..0] == [];
    }
    assert Keys([(k, v)]) == [k];
  }
}
