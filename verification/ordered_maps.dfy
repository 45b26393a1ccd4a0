/**
 * Python dictionaries, which remember the order in which keys were first
 * inserted: a sequence of key/value pairs with no key twice. Assigning to a
 * present key replaces its value where it stands; a new key goes last.
 */
module OrderedMaps {
  import opened Wrappers

  type OMap<K, V> = seq<(K, V)>

  function Keys<K, V>(m: OMap<K, V>): (ks: seq<K>)
    ensures |ks| == |m| && forall i :: 0 <= i < |m| ==> ks[i] == m[i].0
  {
    seq(|m|, i requires 0 <= i < |m| => m[i].0)
  }

  predicate HasKey<K(==), V>(m: OMap<K, V>, k: K) {
    exists i :: 0 <= i < |m| && m[i].0 == k
  }

  /** No key occurs twice. */
  predicate UniqueKeys<K(==), V>(m: OMap<K, V>) {
    forall i, j :: 0 <= i < j < |m| ==> m[i].0 != m[j].0
  }

  /** `m.get(k)`: the value of the first pair with key `k`. */
  function Get<K(==), V>(m: OMap<K, V>, k: K): (r: Option<V>)
    ensures r.None? <==> !HasKey(m, k)
    ensures r.Some? ==> exists i :: 0 <= i < |m| && m[i] == (k, r.value)
  {
    if m == [] then None
    else if m[0].0 == k then Some(m[0].1)
    else
      var r := Get(m[1..], k);
      assert forall i :: 0 < i < |m| ==> m[i] == m[1..][i - 1];
      r
  }

  /** A key of `m` other than its first is a key of the rest. */
  lemma HasKeyTail<K, V>(m: OMap<K, V>, k: K)
    requires m != [] && m[0].0 != k
    ensures HasKey(m, k) <==> HasKey(m[1..], k)
  {
    if HasKey(m, k) {
      var i :| 0 <= i < |m| && m[i].0 == k;
      assert m[1..][i - 1].0 == k;
    }
    if HasKey(m[1..], k) {
      var i :| 0 <= i < |m| - 1 && m[1..][i].0 == k;
      assert m[i + 1].0 == k;
    }
  }

  /** The keys of a pair put in front. */
  lemma KeysCons<K, V>(x: (K, V), m: OMap<K, V>)
    ensures Keys([x] + m) == [x.0] + Keys(m)
  {
    assert forall i :: 0 < i <= |m| ==> ([x] + m)[i] == m[i - 1];
  }

  /** `m[k] = v` */
  function Put<K(==), V>(m: OMap<K, V>, k: K, v: V): (r: OMap<K, V>)
    ensures HasKey(m, k) ==> |r| == |m| && Keys(r) == Keys(m)
    ensures !HasKey(m, k) ==> r == m + [(k, v)]
  {
    if m == [] then [(k, v)]
    else if m[0].0 == k then
      KeysCons((k, v), m[1..]);
      KeysCons(m[0], m[1..]);
      assert [m[0]] + m[1..] == m;
      [(k, v)] + m[1..]
    else
      var rest := Put(m[1..], k, v);
      HasKeyTail(m, k);
      KeysCons(m[0], rest);
      KeysCons(m[0], m[1..]);
      assert [m[0]] + m[1..] == m;
      assert !HasKey(m, k) ==> [m[0]] + rest == m + [(k, v)] by {
        if !HasKey(m, k) {
          assert [m[0]] + (m[1..] + [(k, v)]) == ([m[0]] + m[1..]) + [(k, v)];
        }
      }
      [m[0]] + rest
  }

  /** Assignment keeps the keys unique. */
  lemma {:induction false} PutUnique<K, V>(m: OMap<K, V>, k: K, v: V)
    requires UniqueKeys(m)
    ensures UniqueKeys(Put(m, k, v))
  {
    var r := Put(m, k, v);
    if HasKey(m, k) {
      forall i, j | 0 <= i < j < |r| ensures r[i].0 != r[j].0 {
        assert Keys(r)[i] == Keys(m)[i] && Keys(r)[j] == Keys(m)[j];
      }
    }
  }

  /** After `m[k] = v`, `m[k]` is `v`. */
  lemma {:induction false} GetPutSame<K, V>(m: OMap<K, V>, k: K, v: V)
    ensures Get(Put(m, k, v), k) == Some(v)
  {
    if m != [] && m[0].0 != k {
      GetPutSame(m[1..], k, v);
    }
  }

  /** `m[k] = v` leaves every other key's value alone. */
  lemma {:induction false} GetPutOther<K, V>(m: OMap<K, V>, k: K, v: V, k': K)
    requires k' != k
    ensures Get(Put(m, k, v), k') == Get(m, k')
  {
    if m != [] && m[0].0 != k && m[0].0 != k' {
      GetPutOther(m[1..], k, v, k');
    }
  }

  /** Looking up in a map with one more pair at its end. */
  lemma {:induction false} GetSnoc<K, V>(m: OMap<K, V>, k: K, v: V, k': K)
    ensures Get(m + [(k, v)], k') == if HasKey(m, k') then Get(m, k') else if k == k' then Some(v) else None
  {
    if m != [] && m[0].0 != k' {
      assert (m + [(k, v)])[1..] == m[1..] + [(k, v)];
      GetSnoc(m[1..], k, v, k');
      assert HasKey(m, k') == HasKey(m[1..], k') by {
        if HasKey(m, k') {
          var i :| 0 <= i < |m| && m[i].0 == k';
          assert m[1..][i - 1].0 == k';
        }
        if HasKey(m[1..], k') {
          var i :| 0 <= i < |m[1..]| && m[1..][i].0 == k';
          assert m[i + 1].0 == k';
        }
      }
    }
  }

  /** The value of an existing key, or `default` (Python's `m.get(k, default)`). */
  function GetOr<K(==), V>(m: OMap<K, V>, k: K, default: V): V {
    Get(m, k).GetOr(default)
  }
}
