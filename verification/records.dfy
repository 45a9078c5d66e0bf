/**
 * A JavaScript plain object (`Record<string, V>`) as its entries in insertion
 * order, which is the order `Object.entries` reports for non-numeric keys.
 */
module Records {
  import opened Wrappers

  type Record<V> = seq<(string, V)>

  /** `Object.keys(obj)`. */
  function Keys<V>(r: Record<V>): seq<string> {
    if r == [] then [] else [r[0].0] + Keys(r[1..])
  }

  /** A JavaScript object holds each key once. */
  predicate UniqueKeys<V>(r: Record<V>) {
    r == [] || (r[0].0 !in Keys(r[1..]) && UniqueKeys(r[1..]))
  }

  /** `obj[k]`: the value stored under `k`, or `None` when `k` is not a key. */
  function Get<V>(r: Record<V>, k: string): (v: Option<V>)
    ensures v.Some? <==> k in Keys(r)
    ensures v.Some? ==> (k, v.value) in r
  {
    if r == [] then None
    else if r[0].0 == k then Some(r[0].1)
    else Get(r[1..], k)
  }

  /**
   * `obj[k] = v`: an existing key keeps its position and takes the new value,
   * a new key is added last.
   */
  function Put<V>(r: Record<V>, k: string, v: V): (r': Record<V>)
    ensures Get(r', k) == Some(v)
    ensures forall k' :: k' != k ==> Get(r', k') == Get(r, k')
    ensures k in Keys(r) ==> Keys(r') == Keys(r)
    ensures k !in Keys(r) ==> Keys(r') == Keys(r) + [k]
    ensures UniqueKeys(r) ==> UniqueKeys(r')
  {
    if r == [] then [(k, v)]
    else if r[0].0 == k then [(k, v)] + r[1..]
    else
      var rest := Put(r[1..], k, v);
      assert ([r[0]] + rest)[1..] == rest;
      [r[0]] + rest
  }

  /** Adding an entry last adds its key last. */
  lemma {:induction false} KeysSnoc<V>(r: Record<V>, e: (string, V))
    ensures Keys(r + [e]) == Keys(r) + [e.0]
  {
    if r != [] {
      assert (r + [e])[1..] == r[1..] + [e];
      KeysSnoc(r[1..], e);
    }
  }

  /** Looking up in a record with one more entry last: earlier keys win. */
  lemma {:induction false} GetSnoc<V>(r: Record<V>, e: (string, V), k: string)
    ensures Get(r + [e], k) == if k in Keys(r) then Get(r, k) else if k == e.0 then Some(e.1) else None
  {
    if r != [] {
      assert (r + [e])[1..] == r[1..] + [e];
      GetSnoc(r[1..], e, k);
    }
  }

  /** A record with unique keys stays so without its last entry, whose key is new. */
  lemma {:induction false} UniqueKeysSnoc<V>(r: Record<V>, e: (string, V))
    requires UniqueKeys(r + [e])
    ensures UniqueKeys(r) && e.0 !in Keys(r)
  {
    if r != [] {
      assert (r + [e])[1..] == r[1..] + [e];
      KeysSnoc(r[1..], e);
      UniqueKeysSnoc(r[1..], e);
    }
  }

  /** With unique keys, every entry is what a lookup of its key finds. */
  lemma {:induction false} GetAt<V>(r: Record<V>, i: nat)
    requires UniqueKeys(r) && i < |r|
    ensures Get(r, r[i].0) == Some(r[i].1)
  {
    if i > 0 {
      GetAt(r[1..], i - 1);
    }
  }

  /** The position of key `k`. */
  function IndexOfKey<V>(r: Record<V>, k: string): (i: nat)
    requires k in Keys(r)
    ensures i < |r| && r[i].0 == k
  {
    if r[0].0 == k then 0 else 1 + IndexOfKey(r[1..], k)
  }

  /** Writing a key the record does not have adds it last. */
  lemma {:induction false} PutNew<V>(r: Record<V>, k: string, v: V)
    requires k !in Keys(r)
    ensures Put(r, k, v) == r + [(k, v)]
  {
    if r != [] {
      PutNew(r[1..], k, v);
    }
  }
}
