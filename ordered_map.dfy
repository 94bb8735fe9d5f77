/**
 * java.util.LinkedHashMap with string keys: the entries in the order their keys were first
 * inserted; putting an existing key replaces its value in place.
 */
module OrderedMap {
  import opened Wrappers

  datatype Entry<V> = Entry(key: string, value: V)

  /** The keys in iteration order. */
  function Keys<V>(m: seq<Entry<V>>): (ks: seq<string>)
    ensures |ks| == |m| && forall i :: 0 <= i < |m| ==> ks[i] == m[i].key
  {
    if m == [] then [] else Keys(m[..|m| - 1]) + [m[|m| - 1].key]
  }

  /** The values in iteration order (`map.values()`). */
  function Values<V>(m: seq<Entry<V>>): (vs: seq<V>)
    ensures |vs| == |m| && forall i :: 0 <= i < |m| ==> vs[i] == m[i].value
  {
    if m == [] then [] else Values(m[..|m| - 1]) + [m[|m| - 1].value]
  }

  /** No key occurs twice. */
  predicate UniqueKeys<V>(m: seq<Entry<V>>) {
    forall i, j | 0 <= i < j < |m| :: m[i].key != m[j].key
  }

  /** The position of the first entry with key `k`, or -1. */
  function Find<V>(m: seq<Entry<V>>, k: string): (r: int)
    ensures -1 <= r < |m|
    ensures r >= 0 ==> m[r].key == k && forall i :: 0 <= i < r ==> m[i].key != k
    ensures r == -1 <==> k !in Keys(m)
  {
    if m == [] then -1
    else
      var r := Find(m[..|m| - 1], k);
      if r >= 0 then r else if m[|m| - 1].key == k then |m| - 1 else -1
  }

  /** `map.get(k)`: the value under `k`, or null. */
  function Get<V>(m: seq<Entry<V>>, k: string): Option<V> {
    var i := Find(m, k);
    if i >= 0 then Some(m[i].value) else None
  }

  /** The first entry answers for its own key; any other key is looked up in the entries after
      it. */
  lemma GetFront<V>(m: seq<Entry<V>>, k: string)
    requires m != []
    ensures Get(m, k) == if m[0].key == k then Some(m[0].value) else Get(m[1..], k)
  {
    var r := Find(m, k);
    var t := m[1..];
    if m[0].key == k {
      assert Keys(m)[0] == k;
    } else if r >= 0 {
      assert t[r - 1].key == k && Keys(t)[r - 1] == k;
      var q := Find(t, k);
      assert m[q + 1].key == k;
    }
  }

  /** `map.put(k, v)`. */
  function Put<V>(m: seq<Entry<V>>, k: string, v: V): seq<Entry<V>> {
    var i := Find(m, k);
    if i >= 0 then m[i := Entry(k, v)] else m + [Entry(k, v)]
  }

  /** Two entry sequences that agree on where `k` occurs, the longer one having no `k` beyond
      the shorter, find `k` at the same position. */
  lemma FindAgree<V>(m: seq<Entry<V>>, p: seq<Entry<V>>, k: string)
    requires |m| <= |p|
    requires forall a | 0 <= a < |m| :: (m[a].key == k) == (p[a].key == k)
    requires forall a | |m| <= a < |p| :: p[a].key != k
    ensures Find(p, k) == Find(m, k)
  {
    var i := Find(m, k);
    if i >= 0 {
      assert Keys(p)[i] == k;
      var j := Find(p, k);
      assert m[j].key == k;
    } else {
      assert k !in Keys(p) by {
        forall a | 0 <= a < |p| ensures Keys(p)[a] != k {
          if a < |m| {
            assert Keys(m)[a] == m[a].key;
          }
        }
      }
    }
  }

  /** Putting keeps the keys unique; afterwards `k` maps to `v` and every other key to what it
      mapped to before. */
  lemma PutGet<V>(m: seq<Entry<V>>, k: string, v: V)
    requires UniqueKeys(m)
    ensures UniqueKeys(Put(m, k, v))
    ensures Get(Put(m, k, v), k) == Some(v)
    ensures forall k2 | k2 != k :: Get(Put(m, k, v), k2) == Get(m, k2)
  {
    forall k2 | k2 != k ensures Get(Put(m, k, v), k2) == Get(m, k2) {
      PutOther(m, k, v, k2);
    }
    PutSame(m, k, v);
  }

  lemma PutOther<V>(m: seq<Entry<V>>, k: string, v: V, k2: string)
    requires k2 != k
    ensures Get(Put(m, k, v), k2) == Get(m, k2)
  {
    var p := Put(m, k, v);
    assert forall a | 0 <= a < |m| :: p[a].key == k2 <==> m[a].key == k2;
    FindAgree(m, p, k2);
    var i := Find(m, k2);
    if i >= 0 {
      assert p[i] == m[i];
    }
  }

  lemma PutSame<V>(m: seq<Entry<V>>, k: string, v: V)
    requires UniqueKeys(m)
    ensures UniqueKeys(Put(m, k, v))
    ensures Get(Put(m, k, v), k) == Some(v)
  {
    var p := Put(m, k, v);
    var i := Find(m, k);
    if i < 0 {
      assert forall a | 0 <= a < |m| :: m[a].key != k by {
        forall a | 0 <= a < |m| ensures m[a].key != k {
          assert Keys(m)[a] == m[a].key;
        }
      }
      assert p[..|p| - 1] == m;
      assert Find(p, k) == |m|;
    } else {
      assert forall a | 0 <= a < |m| :: p[a].key == k <==> m[a].key == k;
      FindAgree(m, p, k);
    }
  }

  /** Putting keeps the iteration order: a new key goes last, an existing key stays where it was. */
  lemma PutKeys<V>(m: seq<Entry<V>>, k: string, v: V)
    ensures Keys(Put(m, k, v)) == if k in Keys(m) then Keys(m) else Keys(m) + [k]
  {
  }
}
