/** Sums of counters.  A dictionary of counters is a multiset: the multiplicity of a key is its count, and adding one
    dictionary of counters into another is multiset sum. */
module Totals {
  ghost function Any<T>(s: set<T>): (x: T)
    requires s != {}
    ensures x in s
  {
    var x :| x in s;
    x
  }

  function One(b: bool): nat { if b then 1 else 0 }

  /** The counter dictionary that holds `n` under `t` and nothing else. */
  function Times<T(!new)>(t: T, n: nat): (m: multiset<T>)
    ensures forall k: T :: m[k] == if k == t then n else 0
  {
    multiset{}[t := n]
  }

  /** The sum of the counters contributed under every key of `m`. */
  ghost function Total<K, V>(m: map<K, multiset<V>>): (t: multiset<V>)
    decreases |m|
  {
    if m == map[] then multiset{} else
      var k :| k in m;
      m[k] + Total(m - {k})
  }

  /** Any key may be taken out first: the sum does not depend on the order in which it is formed. */
  lemma {:induction false} TotalTakesAnyKey<K, V>(m: map<K, multiset<V>>, k: K)
    requires k in m
    ensures Total(m) == m[k] + Total(m - {k})
    decreases |m|
  {
    var j :| j in m && Total(m) == m[j] + Total(m - {j});
    if j != k {
      TotalTakesAnyKey(m - {j}, k);
      TotalTakesAnyKey(m - {k}, j);
      assert m - {j} - {k} == m - {k} - {j};
    }
  }

  lemma {:induction false} TotalAdds<K, V>(m: map<K, multiset<V>>, k: K, v: multiset<V>)
    requires k !in m
    ensures Total(m[k := v]) == Total(m) + v
  {
    TotalTakesAnyKey(m[k := v], k);
    assert m[k := v] - {k} == m;
  }

  lemma {:induction false} TotalOfUnion<K, V>(a: map<K, multiset<V>>, b: map<K, multiset<V>>)
    requires a.Keys !! b.Keys
    ensures Total(a + b) == Total(a) + Total(b)
    decreases |b|
  {
    if b == map[] {
      assert a + b == a;
    } else {
      var k :| k in b;
      var rest := b - {k};
      calc {
        Total(a + b);
        { TotalTakesAnyKey(a + b, k); UnionWithout(a, b, k); }
        b[k] + Total(a + rest);
        { TotalOfUnion(a, rest); }
        b[k] + (Total(a) + Total(rest));
        { SumsCommute(b[k], Total(a), Total(rest)); }
        Total(a) + (b[k] + Total(rest));
        { TotalTakesAnyKey(b, k); }
        Total(a) + Total(b);
      }
    }
  }

  lemma SumsCommute<V>(x: multiset<V>, y: multiset<V>, z: multiset<V>)
    ensures x + (y + z) == y + (x + z)
  {
  }

  lemma UnionWithout<K, V>(a: map<K, V>, b: map<K, V>, k: K)
    requires k in b && k !in a
    ensures (a + b)[k] == b[k]
    ensures a + b - {k} == a + (b - {k})
  {
  }

  /** A property of counter dictionaries that survives addition and holds of the empty one holds of every sum. */
  lemma {:induction false} TotalKeeps<K, V(!new)>(m: map<K, multiset<V>>, p: multiset<V> -> bool)
    requires p(multiset{})
    requires forall k :: k in m ==> p(m[k])
    requires forall x, y :: p(x) && p(y) ==> p(x + y)
    ensures p(Total(m))
    decreases |m|
  {
    if m != map[] {
      var k :| k in m;
      TotalKeeps(m - {k}, p);
      TotalTakesAnyKey(m, k);
    }
  }
}
