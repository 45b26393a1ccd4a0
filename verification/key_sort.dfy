/**
 * `sorted(d.items())` for a dictionary with string keys: the pairs in
 * ascending key order. Keys are unique, so the values never decide.
 */
module KeySort {
  import opened Strings

  predicate LexLeq(a: string, b: string) {
    a == b || LexLess(a, b)
  }

  /** Keys ascend from left to right. */
  predicate SortedByKey<V>(s: seq<(string, V)>) {
    forall i, j :: 0 <= i < j < |s| ==> LexLeq(s[i].0, s[j].0)
  }

  /** Put `x` before the first pair whose key is not below its key. */
  function Insert<V>(x: (string, V), s: seq<(string, V)>): (r: seq<(string, V)>)
    ensures |r| == |s| + 1 && multiset(r) == multiset(s) + multiset{x}
    decreases |s|
  {
    if s == [] || LexLeq(x.0, s[0].0) then [x] + s
    else
      var r := [s[0]] + Insert(x, s[1..]);
      assert s == [s[0]] + s[1..];
      r
  }

  lemma LexLeqTransitive(a: string, b: string, c: string)
    requires LexLeq(a, b) && LexLeq(b, c)
    ensures LexLeq(a, c)
  {
    if a != b && b != c {
      LexTransitive(a, b, c);
    }
  }

  /** Every key of `Insert(x, s)` is the key of `x` or a key of `s`. */
  lemma {:induction false} InsertKeys<V>(x: (string, V), s: seq<(string, V)>, i: nat)
    requires i < |s| + 1
    ensures Insert(x, s)[i].0 == x.0 || exists j :: 0 <= j < |s| && Insert(x, s)[i].0 == s[j].0
  {
    var r := Insert(x, s);
    assert r[i] in multiset(r);
    assert r[i] in multiset(s) + multiset{x};
    if r[i] != x {
      assert r[i] in s;
    }
  }

  /** Inserting into a sorted sequence keeps it sorted. */
  lemma {:induction false} InsertSorted<V>(x: (string, V), s: seq<(string, V)>)
    requires SortedByKey(s)
    ensures SortedByKey(Insert(x, s))
    decreases |s|
  {
    if s != [] && !LexLeq(x.0, s[0].0) {
      var tail := Insert(x, s[1..]);
      InsertSorted(x, s[1..]);
      LexTotal(x.0, s[0].0);
      var r := [s[0]] + tail;
      forall i, j | 0 <= i < j < |r| ensures LexLeq(r[i].0, r[j].0) {
        if i == 0 {
          InsertKeys(x, s[1..], j - 1);
          if r[j].0 != x.0 {
            var k :| 0 <= k < |s[1..]| && tail[j - 1].0 == s[1..][k].0;
            assert s[1..][k] == s[k + 1];
          }
        } else {
          assert r[i] == tail[i - 1] && r[j] == tail[j - 1];
        }
      }
    } else if s != [] {
      var r := [x] + s;
      forall i, j | 0 <= i < j < |r| ensures LexLeq(r[i].0, r[j].0) {
        if i == 0 && j > 1 {
          LexLeqTransitive(x.0, s[0].0, s[j - 1].0);
        } else if i > 0 {
          assert r[i] == s[i - 1] && r[j] == s[j - 1];
        }
      }
    }
  }

  /** `sorted(items)` */
  function SortByKey<V>(s: seq<(string, V)>): (r: seq<(string, V)>)
    ensures |r| == |s| && multiset(r) == multiset(s)
    ensures SortedByKey(r)
    decreases |s|
  {
    if s == [] then []
    else
      var rest := SortByKey(s[1..]);
      InsertSorted(s[0], rest);
      assert s == [s[0]] + s[1..];
      Insert(s[0], rest)
  }
}
