/**
 * PHP ordered arrays with string keys, as a sequence of key/value pairs.
 * PHP arrays never repeat a key; `UniqueKeys` states that, and every operation
 * here preserves it.
 */
module PhpArray {
  import opened Wrappers

  type Arr<V> = seq<(string, V)>

  /** `array_keys($a)`, in order. */
  function Keys<V>(a: Arr<V>): (ks: seq<string>)
    ensures |ks| == |a|
    ensures forall i :: 0 <= i < |a| ==> ks[i] == a[i].0
  {
    if a == [] then [] else [a[0].0] + Keys(a[1..])
  }

  predicate HasKey<V>(a: Arr<V>, k: string) {
    k in Keys(a)
  }

  predicate UniqueKeys<V>(a: Arr<V>) {
    forall i, j :: 0 <= i < j < |a| ==> a[i].0 != a[j].0
  }

  /** `$a[$k] ?? null` for a stored value type without `null`. */
  function Get<V>(a: Arr<V>, k: string): (r: Option<V>)
    ensures r.Some? <==> HasKey(a, k)
    ensures r.Some? ==> (k, r.value) in a
    ensures r.None? ==> forall i :: 0 <= i < |a| ==> a[i].0 != k
  {
    if a == [] then None
    else if a[0].0 == k then Some(a[0].1)
    else Get(a[1..], k)
  }

  /** In an array with unique keys, looking up the key of an entry finds that entry. */
  lemma {:induction false} GetAt<V>(a: Arr<V>, i: nat)
    requires UniqueKeys(a)
    requires i < |a|
    ensures Get(a, a[i].0) == Some(a[i].1)
  {
    if i > 0 {
      assert a[0].0 != a[i].0;
      assert a[1..][i - 1] == a[i];
      GetAt(a[1..], i - 1);
    }
  }

  /** `$a[$k] = $v`: overwrite in place when the key exists, append otherwise. */
  function Put<V>(a: Arr<V>, k: string, v: V): (r: Arr<V>)
    ensures Keys(r) == if HasKey(a, k) then Keys(a) else Keys(a) + [k]
  {
    if a == [] then [(k, v)]
    else if a[0].0 == k then [(k, v)] + a[1..]
    else
      assert Keys(a) == [a[0].0] + Keys(a[1..]);
      [a[0]] + Put(a[1..], k, v)
  }

  /** After `Put`, the key holds the new value and every other key is untouched. */
  lemma {:induction false} PutGet<V>(a: Arr<V>, k: string, v: V, k': string)
    ensures Get(Put(a, k, v), k') == if k' == k then Some(v) else Get(a, k')
  {
    if a != [] && a[0].0 != k {
      PutGet(a[1..], k, v, k');
    }
  }

  /** `Put` never introduces a duplicate key. */
  lemma {:induction false} PutUnique<V>(a: Arr<V>, k: string, v: V)
    requires UniqueKeys(a)
    ensures UniqueKeys(Put(a, k, v))
  {
    var r := Put(a, k, v);
    var ks := Keys(r);
    if HasKey(a, k) {
      assert ks == Keys(a);
    } else {
      assert ks == Keys(a) + [k];
    }
    forall i, j | 0 <= i < j < |r|
      ensures r[i].0 != r[j].0
    {
      assert ks[i] == r[i].0 && ks[j] == r[j].0;
    }
  }

  /** When the key is new, `Put` is an append. */
  lemma PutFresh<V>(a: Arr<V>, k: string, v: V)
    requires !HasKey(a, k)
    ensures Put(a, k, v) == a + [(k, v)]
  {
    if a != [] {
      assert Keys(a) == [a[0].0] + Keys(a[1..]);
      PutFresh(a[1..], k, v);
      assert a == [a[0]] + a[1..];
    }
  }

  /** The keys of `ks` that are not in `excluded`, in order. */
  function KeysNotIn(ks: seq<string>, excluded: seq<string>): (r: seq<string>)
    ensures forall k :: k in r <==> k in ks && k !in excluded
  {
    if ks == [] then []
    else if ks[0] in excluded then KeysNotIn(ks[1..], excluded)
    else [ks[0]] + KeysNotIn(ks[1..], excluded)
  }

  /** `[...$a, ...$b]`: every entry of `b` is written into `a` in order. */
  function Spread<V>(a: Arr<V>, b: Arr<V>): (r: Arr<V>)
    decreases |b|
  {
    if b == [] then a else Spread(Put(a, b[0].0, b[0].1), b[1..])
  }

  /** A key of the spread comes from `b` when `b` has it, else from `a`. */
  lemma {:induction false} SpreadGet<V>(a: Arr<V>, b: Arr<V>, k: string)
    requires UniqueKeys(b)
    ensures Get(Spread(a, b), k) == if HasKey(b, k) then Get(b, k) else Get(a, k)
    decreases |b|
  {
    if b != [] {
      assert Keys(b) == [b[0].0] + Keys(b[1..]);
      SpreadGet(Put(a, b[0].0, b[0].1), b[1..], k);
      PutGet(a, b[0].0, b[0].1, k);
      if k == b[0].0 {
        assert !HasKey(b[1..], k);
      }
    }
  }

  /** Spreading into an array with unique keys keeps the keys unique. */
  lemma {:induction false} SpreadUnique<V>(a: Arr<V>, b: Arr<V>)
    requires UniqueKeys(a)
    ensures UniqueKeys(Spread(a, b))
    decreases |b|
  {
    if b != [] {
      PutUnique(a, b[0].0, b[0].1);
      SpreadUnique(Put(a, b[0].0, b[0].1), b[1..]);
    }
  }

  /** Keys removed by a filter that already excludes them change nothing. */
  lemma {:induction false} KeysNotInExtend(ks: seq<string>, excluded: seq<string>, k: string)
    requires k !in ks
    ensures KeysNotIn(ks, excluded + [k]) == KeysNotIn(ks, excluded)
  {
    if ks != [] {
      KeysNotInExtend(ks[1..], excluded, k);
    }
  }

  /** The head key of an array with unique keys does not recur in its tail. */
  lemma UniqueKeysTail<V>(b: Arr<V>)
    requires UniqueKeys(b)
    requires b != []
    ensures UniqueKeys(b[1..])
    ensures b[0].0 !in Keys(b[1..])
    ensures Keys(b) == [b[0].0] + Keys(b[1..])
  {
    var t := b[1..];
    forall i | 0 <= i < |t|
      ensures Keys(t)[i] != b[0].0
    {
      assert t[i] == b[i + 1];
    }
  }

  /** One step of the key-order argument: write a fresh-to-the-tail key into `a`. */
  lemma KeysNotInStep(a: seq<string>, k: string, rest: seq<string>)
    requires k !in rest
    ensures (if k in a then a else a + [k]) + KeysNotIn(rest, if k in a then a else a + [k])
         == a + KeysNotIn([k] + rest, a)
  {
    assert ([k] + rest)[1..] == rest;
    if k !in a {
      KeysNotInExtend(rest, a, k);
    }
  }

  /** Spread key order: the keys of `a`, then the keys only `b` has, in `b`'s order. */
  lemma {:induction false} SpreadKeys<V>(a: Arr<V>, b: Arr<V>)
    requires UniqueKeys(b)
    ensures Keys(Spread(a, b)) == Keys(a) + KeysNotIn(Keys(b), Keys(a))
    decreases |b|
  {
    if b != [] {
      UniqueKeysTail(b);
      var k := b[0].0;
      SpreadKeys(Put(a, k, b[0].1), b[1..]);
      KeysNotInStep(Keys(a), k, Keys(b[1..]));
    }
  }

  /** Filtering out a superset of the keys leaves nothing. */
  lemma {:induction false} KeysNotInCovered(ks: seq<string>, excluded: seq<string>)
    requires forall k :: k in ks ==> k in excluded
    ensures KeysNotIn(ks, excluded) == []
  {
    if ks != [] {
      assert ks[0] in excluded;
      KeysNotInCovered(ks[1..], excluded);
    }
  }

  /**
   * Spreading an array whose keys all exist already overwrites in place: same
   * length, same key order, each value taken from `b` when `b` has its key.
   */
  lemma SpreadInPlace<V>(a: Arr<V>, b: Arr<V>)
    requires UniqueKeys(a) && UniqueKeys(b)
    requires forall k :: k in Keys(b) ==> k in Keys(a)
    ensures |Spread(a, b)| == |a|
    ensures forall i :: 0 <= i < |a| ==>
      Spread(a, b)[i] == (a[i].0, if HasKey(b, a[i].0) then Get(b, a[i].0).value else a[i].1)
  {
    var r := Spread(a, b);
    SpreadKeys(a, b);
    SpreadUnique(a, b);
    KeysNotInCovered(Keys(b), Keys(a));
    assert Keys(r) == Keys(a);
    forall i | 0 <= i < |a|
      ensures r[i] == (a[i].0, if HasKey(b, a[i].0) then Get(b, a[i].0).value else a[i].1)
    {
      assert Keys(r)[i] == Keys(a)[i];
      GetAt(r, i);
      GetAt(a, i);
      SpreadGet(a, b, a[i].0);
    }
  }

  /** `array_map` over the values, keeping the keys. */
  function MapValues<V, W>(a: Arr<V>, f: V -> W): (r: Arr<W>)
    ensures |r| == |a|
    ensures forall i :: 0 <= i < |a| ==> r[i] == (a[i].0, f(a[i].1))
  {
    if a == [] then [] else [(a[0].0, f(a[0].1))] + MapValues(a[1..], f)
  }

  lemma {:induction false} MapValuesGet<V, W>(a: Arr<V>, f: V -> W, k: string)
    ensures Get(MapValues(a, f), k) == match Get(a, k) case Some(v) => Some(f(v)) case None => None
  {
    if a != [] {
      assert MapValues(a, f)[1..] == MapValues(a[1..], f);
      MapValuesGet(a[1..], f, k);
    }
  }

  /** Two arrays with unique keys, the same key order and the same lookups are equal. */
  lemma Extensionality<V>(a: Arr<V>, b: Arr<V>)
    requires UniqueKeys(a) && UniqueKeys(b)
    requires Keys(a) == Keys(b)
    requires forall k :: Get(a, k) == Get(b, k)
    ensures a == b
  {
    forall i | 0 <= i < |a|
      ensures a[i] == b[i]
    {
      assert Keys(a)[i] == Keys(b)[i];
      GetAt(a, i);
      GetAt(b, i);
    }
  }

  /** Filtering against nothing keeps every key. */
  lemma {:induction false} KeysNotInNothing(ks: seq<string>)
    ensures KeysNotIn(ks, []) == ks
  {
    if ks != [] {
      KeysNotInNothing(ks[1..]);
      assert ks == [ks[0]] + ks[1..];
    }
  }

  /** A prefix made only of excluded keys is dropped by the filter. */
  lemma {:induction false} KeysNotInSkip(p: seq<string>, r: seq<string>, excluded: seq<string>)
    requires forall k :: k in p ==> k in excluded
    ensures KeysNotIn(p + r, excluded) == KeysNotIn(r, excluded)
  {
    if p == [] {
      assert p + r == r;
    } else {
      assert p[0] in p;
      assert (p + r)[0] == p[0];
      assert (p + r)[1..] == p[1..] + r;
      KeysNotInSkip(p[1..], r, excluded);
    }
  }

  /** Filtering twice against the same keys is filtering once. */
  lemma {:induction false} KeysNotInIdempotent(ks: seq<string>, excluded: seq<string>)
    ensures KeysNotIn(KeysNotIn(ks, excluded), excluded) == KeysNotIn(ks, excluded)
  {
    if ks != [] {
      KeysNotInIdempotent(ks[1..], excluded);
      if ks[0] !in excluded {
        assert ([ks[0]] + KeysNotIn(ks[1..], excluded))[1..] == KeysNotIn(ks[1..], excluded);
      }
    }
  }
}
