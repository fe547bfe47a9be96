/**
 * PHP associative arrays with string keys: an ordered sequence of key/value
 * entries. Assigning to a key that exists replaces its value in place;
 * assigning to a new key appends it, so insertion order is kept.
 */
module OrderedMaps {
  import opened Wrappers

  function Keys<V>(m: seq<(string, V)>): (ks: seq<string>)
    ensures |ks| == |m|
    ensures forall i :: 0 <= i < |m| ==> ks[i] == m[i].0
  {
    seq(|m|, i requires 0 <= i < |m| => m[i].0)
  }

  predicate DistinctKeys<V>(m: seq<(string, V)>) {
    forall i, j :: 0 <= i < j < |m| ==> m[i].0 != m[j].0
  }

  /** The value stored under `k`, if any: PHP `isset($m[$k]) ? $m[$k] : null`. */
  function Get<V>(m: seq<(string, V)>, k: string): (r: Option<V>)
    ensures r.None? <==> k !in Keys(m)
    ensures r.Some? ==> exists i :: 0 <= i < |m| && m[i] == (k, r.value)
  {
    if m == [] then None
    else if m[0].0 == k then Some(m[0].1)
    else Get(m[1..], k)
  }

  /** PHP `$m[$k] = $v`. */
  function Put<V>(m: seq<(string, V)>, k: string, v: V): seq<(string, V)> {
    if m == [] then [(k, v)]
    else if m[0].0 == k then [(k, v)] + m[1..]
    else [m[0]] + Put(m[1..], k, v)
  }

  lemma KeysCons<V>(e: (string, V), t: seq<(string, V)>)
    ensures Keys([e] + t) == [e.0] + Keys(t)
  {
    assert forall i :: 0 < i < |t| + 1 ==> ([e] + t)[i] == t[i - 1];
  }

  lemma KeysSnoc<V>(m: seq<(string, V)>, e: (string, V))
    ensures Keys(m + [e]) == Keys(m) + [e.0]
  {
    assert forall i :: 0 <= i < |m| ==> (m + [e])[i] == m[i];
  }

  /** A new key is appended at the end. */
  lemma {:induction false} PutAppends<V>(m: seq<(string, V)>, k: string, v: V)
    requires k !in Keys(m)
    ensures Put(m, k, v) == m + [(k, v)]
  {
    if m != [] {
      assert Keys(m)[0] == m[0].0;
      KeysCons(m[0], m[1..]);
      assert [m[0]] + m[1..] == m;
      PutAppends(m[1..], k, v);
      assert [m[0]] + (m[1..] + [(k, v)]) == m + [(k, v)];
    }
  }

  /** An existing key keeps its place. */
  lemma {:induction false} PutReplaces<V>(m: seq<(string, V)>, k: string, v: V)
    requires k in Keys(m)
    ensures Keys(Put(m, k, v)) == Keys(m)
  {
    assert [m[0]] + m[1..] == m;
    KeysCons(m[0], m[1..]);
    if m[0].0 == k {
      KeysCons((k, v), m[1..]);
    } else {
      PutReplaces(m[1..], k, v);
      KeysCons(m[0], Put(m[1..], k, v));
    }
  }

  /** Nothing but the assignment is added. */
  lemma {:induction false} PutOnly<V>(m: seq<(string, V)>, k: string, v: V)
    ensures forall e :: e in Put(m, k, v) ==> e == (k, v) || e in m
  {
    if m != [] && m[0].0 != k {
      PutOnly(m[1..], k, v);
      assert forall e :: e in m[1..] ==> e in m;
    }
  }

  /**
   * `$m[$k] = $v` replaces the value of an existing key in place and appends
   * a new key; distinct keys stay distinct and nothing else is added.
   */
  lemma PutFacts<V>(m: seq<(string, V)>, k: string, v: V)
    ensures k in Keys(m) ==> Keys(Put(m, k, v)) == Keys(m)
    ensures k !in Keys(m) ==> Put(m, k, v) == m + [(k, v)]
    ensures k !in Keys(m) ==> Keys(Put(m, k, v)) == Keys(m) + [k]
    ensures DistinctKeys(m) ==> DistinctKeys(Put(m, k, v))
    ensures forall e :: e in Put(m, k, v) ==> e == (k, v) || e in m
  {
    PutOnly(m, k, v);
    var r := Put(m, k, v);
    if k in Keys(m) {
      PutReplaces(m, k, v);
      DistinctKeysByKeys(m, r);
    } else {
      PutAppends(m, k, v);
      assert Keys(r) == Keys(m) + [k];
      if DistinctKeys(m) {
        forall i, j | 0 <= i < j < |r| ensures r[i].0 != r[j].0 {
          if j == |m| {
            assert r[i].0 == Keys(m)[i];
          }
        }
      }
    }
  }

  /** The assignment is in the result, and so is every entry under another key. */
  lemma {:induction false} PutKeeps<V>(m: seq<(string, V)>, k: string, v: V)
    ensures (k, v) in Put(m, k, v)
    ensures forall e :: e in m && e.0 != k ==> e in Put(m, k, v)
  {
    if m != [] && m[0].0 != k {
      PutKeeps(m[1..], k, v);
      assert forall e :: e in m ==> e == m[0] || e in m[1..];
    }
  }

  lemma {:induction false} GetPut<V>(m: seq<(string, V)>, k: string, v: V, k': string)
    ensures Get(Put(m, k, v), k') == if k' == k then Some(v) else Get(m, k')
  {
    if m != [] && m[0].0 != k {
      GetPut(m[1..], k, v, k');
    }
  }

  /** In a map with distinct keys, the entry at position `i` is what `Get` finds. */
  lemma {:induction false} GetAt<V>(m: seq<(string, V)>, i: nat)
    requires DistinctKeys(m) && i < |m|
    ensures Get(m, m[i].0) == Some(m[i].1)
  {
    if i > 0 {
      assert m[0].0 != m[i].0;
      GetAt(m[1..], i - 1);
    }
  }

  /** Whether keys are distinct depends on the keys alone. */
  lemma DistinctKeysByKeys<V, W>(m: seq<(string, V)>, n: seq<(string, W)>)
    requires Keys(m) == Keys(n)
    ensures DistinctKeys(m) <==> DistinctKeys(n)
  {
    assert forall i :: 0 <= i < |m| ==> m[i].0 == Keys(m)[i] == n[i].0;
  }
}
