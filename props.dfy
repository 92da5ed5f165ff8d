/**
 * JavaScript objects used as dictionaries (`list`, `attributes`, `lolData`):
 * string keys in insertion order. Assigning to an existing key keeps its place;
 * a new key goes last; `delete` takes the key out.
 */
module Props {
  import opened Outcomes

  type Props<V> = seq<(string, V)>

  /** The keys in insertion order, as `Object.keys` lists them. */
  function Keys<V>(m: Props<V>): (ks: seq<string>)
    ensures |ks| == |m|
  {
    if m == [] then [] else [m[0].0] + Keys(m[1..])
  }

  /** The keys come in insertion order: the `i`-th key is the key of the `i`-th entry. */
  lemma {:induction false} KeysInOrder<V>(m: Props<V>, i: nat)
    requires i < |m|
    ensures Keys(m)[i] == m[i].0
    decreases |m|
  {
    if i > 0 {
      KeysInOrder(m[1..], i - 1);
    }
  }

  /** No key appears twice, as in a JavaScript object. */
  predicate UniqueKeys<V>(m: Props<V>) {
    m == [] || (m[0].0 !in Keys(m[1..]) && UniqueKeys(m[1..]))
  }

  /** `obj[k]`, or None when `k` is not a key. */
  function Get<V>(m: Props<V>, k: string): (r: Option<V>)
    ensures r.Some? <==> k in Keys(m)
    ensures r.Some? ==> (k, r.value) in m
  {
    if m == [] then None
    else if m[0].0 == k then Some(m[0].1)
    else Get(m[1..], k)
  }

  /** `obj[k] = v` */
  function Put<V>(m: Props<V>, k: string, v: V): Props<V> {
    if m == [] then [(k, v)]
    else if m[0].0 == k then [(k, v)] + m[1..]
    else [m[0]] + Put(m[1..], k, v)
  }

  /** `delete obj[k]` */
  function Remove<V>(m: Props<V>, k: string): Props<V> {
    if m == [] then []
    else if m[0].0 == k then Remove(m[1..], k)
    else [m[0]] + Remove(m[1..], k)
  }

  lemma KeysCons<V>(x: (string, V), m: Props<V>)
    ensures Keys([x] + m) == [x.0] + Keys(m)
  {
    assert ([x] + m)[1..] == m;
  }

  lemma GetCons<V>(x: (string, V), m: Props<V>, k: string)
    ensures Get([x] + m, k) == if x.0 == k then Some(x.1) else Get(m, k)
  {
    assert ([x] + m)[1..] == m;
  }

  /** After `obj[k] = v`, `obj[k]` is `v` and every other key reads as before. */
  lemma {:induction false} PutGet<V>(m: Props<V>, k: string, v: V, k': string)
    ensures Get(Put(m, k, v), k') == if k' == k then Some(v) else Get(m, k')
  {
    if m == [] {
    } else if m[0].0 == k {
      GetCons((k, v), m[1..], k');
      GetCons(m[0], m[1..], k');
      assert m == [m[0]] + m[1..];
    } else {
      PutGet(m[1..], k, v, k');
      GetCons(m[0], Put(m[1..], k, v), k');
      GetCons(m[0], m[1..], k');
      assert m == [m[0]] + m[1..];
    }
  }

  /** Assigning to an existing key keeps the order of the keys; a new key is appended. */
  lemma {:induction false} PutKeys<V>(m: Props<V>, k: string, v: V)
    ensures k in Keys(m) ==> Keys(Put(m, k, v)) == Keys(m)
    ensures k !in Keys(m) ==> Keys(Put(m, k, v)) == Keys(m) + [k]
  {
    if m == [] {
    } else {
      KeysCons(m[0], m[1..]);
      assert m == [m[0]] + m[1..];
      if m[0].0 == k {
        KeysCons((k, v), m[1..]);
      } else {
        PutKeys(m[1..], k, v);
        KeysCons(m[0], Put(m[1..], k, v));
        var a, ks := m[0].0, Keys(m[1..]);
        assert [a] + (ks + [k]) == ([a] + ks) + [k];
      }
    }
  }

  /** Assignment keeps the keys of a dictionary distinct. */
  lemma {:induction false} PutUnique<V>(m: Props<V>, k: string, v: V)
    requires UniqueKeys(m)
    ensures UniqueKeys(Put(m, k, v))
  {
    if m != [] {
      PutKeys(m[1..], k, v);
      if m[0].0 != k {
        PutUnique(m[1..], k, v);
        assert Put(m, k, v)[1..] == Put(m[1..], k, v);
      } else {
        assert Put(m, k, v)[1..] == m[1..];
      }
    }
  }

  /** After `delete obj[k]`, `obj[k]` is undefined and every other key reads as before. */
  lemma {:induction false} RemoveGet<V>(m: Props<V>, k: string, k': string)
    ensures Get(Remove(m, k), k') == if k' == k then None else Get(m, k')
  {
    if m == [] {
    } else if m[0].0 == k {
      RemoveGet(m[1..], k, k');
      GetCons(m[0], m[1..], k');
      assert m == [m[0]] + m[1..];
    } else {
      RemoveGet(m[1..], k, k');
      GetCons(m[0], Remove(m[1..], k), k');
      GetCons(m[0], m[1..], k');
      assert m == [m[0]] + m[1..];
    }
  }

  /** `delete` takes exactly its key out of the list of keys. */
  lemma {:induction false} RemoveKeys<V>(m: Props<V>, k: string, k': string)
    ensures k' in Keys(Remove(m, k)) <==> k' in Keys(m) && k' != k
  {
    if m != [] {
      RemoveKeys(m[1..], k, k');
      KeysCons(m[0], m[1..]);
      assert m == [m[0]] + m[1..];
      if m[0].0 != k {
        KeysCons(m[0], Remove(m[1..], k));
      }
    }
  }

  /** `delete` of a key the dictionary does not hold changes nothing. */
  lemma {:induction false} RemoveAbsent<V>(m: Props<V>, k: string)
    requires k !in Keys(m)
    ensures Remove(m, k) == m
  {
    if m != [] {
      KeysCons(m[0], m[1..]);
      assert m == [m[0]] + m[1..];
      RemoveAbsent(m[1..], k);
    }
  }

  /** `delete` keeps the keys of a dictionary distinct. */
  lemma {:induction false} RemoveUnique<V>(m: Props<V>, k: string)
    requires UniqueKeys(m)
    ensures UniqueKeys(Remove(m, k))
  {
    if m != [] {
      RemoveUnique(m[1..], k);
      if m[0].0 != k {
        var r := Remove(m[1..], k);
        RemoveKeys(m[1..], k, m[0].0);
        assert ([m[0]] + r)[1..] == r;
      }
    }
  }

  /** The assignments `obj[k] = v` for the entries of `es`, one after the other. */
  function PutAll<V>(m: Props<V>, es: Props<V>): Props<V>
    decreases |es|
  {
    if es == [] then m else PutAll(Put(m, es[0].0, es[0].1), es[1..])
  }

  /** Assigning to a new key appends the entry. */
  lemma {:induction false} PutFresh<V>(m: Props<V>, k: string, v: V)
    requires k !in Keys(m)
    ensures Put(m, k, v) == m + [(k, v)]
  {
    if m != [] {
      KeysCons(m[0], m[1..]);
      assert m == [m[0]] + m[1..];
      PutFresh(m[1..], k, v);
    }
  }

  /** Assigning entries whose keys are distinct and new appends them in order. */
  lemma {:induction false} PutAllFresh<V>(m: Props<V>, es: Props<V>)
    requires UniqueKeys(es)
    requires forall k :: k in Keys(es) ==> k !in Keys(m)
    ensures PutAll(m, es) == m + es
    decreases |es|
  {
    if es != [] {
      var x, tail := es[0], es[1..];
      assert es == [x] + tail;
      KeysCons(x, tail);
      PutFresh(m, x.0, x.1);
      var m' := m + [x];
      KeysSnoc(m, x);
      forall k | k in Keys(tail) ensures k !in Keys(m') {
        assert k in Keys(es) && k != x.0;
      }
      PutAllFresh(m', tail);
      assert m' + tail == m + es;
    }
  }

  lemma {:induction false} KeysSnoc<V>(m: Props<V>, x: (string, V))
    ensures Keys(m + [x]) == Keys(m) + [x.0]
    decreases |m|
  {
    if m == [] {
      assert m + [x] == [x];
    } else {
      assert (m + [x])[1..] == m[1..] + [x];
      KeysSnoc(m[1..], x);
    }
  }

  /** Entries with distinct keys are rebuilt by assigning them to an empty object. */
  lemma PutAllOfUnique<V>(es: Props<V>)
    requires UniqueKeys(es)
    ensures PutAll([], es) == es
  {
    PutAllFresh([], es);
  }

  /** One more assignment after a run of them. */
  lemma {:induction false} PutAllSnoc<V>(m: Props<V>, es: Props<V>, k: string, v: V)
    ensures PutAll(m, es + [(k, v)]) == Put(PutAll(m, es), k, v)
    decreases |es|
  {
    if es == [] {
      assert es + [(k, v)] == [(k, v)];
    } else {
      assert (es + [(k, v)])[1..] == es[1..] + [(k, v)];
      PutAllSnoc(Put(m, es[0].0, es[0].1), es[1..], k, v);
    }
  }

  /** Of several assignments to one key, the last one wins. */
  lemma LastAssignmentWins<V>(m: Props<V>, es: Props<V>, k: string, v: V)
    ensures Get(PutAll(m, es + [(k, v)]), k) == Some(v)
  {
    PutAllSnoc(m, es, k, v);
    PutGet(PutAll(m, es), k, v, k);
  }
}
