/** Totals over finite maps, and sizes of finite sets. */
module Sums {

  ghost function Total<K>(m: map<K, nat>): nat
    decreases |m|
  {
    if m == map[] then 0
    else
      var k :| k in m;
      assert |m - {k}| < |m|;
      m[k] + Total(m - {k})
  }

  /** The total does not depend on the order of summation. */
  lemma {:induction false} TotalRemove<K>(m: map<K, nat>, k: K)
    requires k in m
    ensures Total(m) == m[k] + Total(m - {k})
    decreases |m|
  {
    var j :| j in m && Total(m) == m[j] + Total(m - {j});
    if j != k {
      assert |m - {j}| < |m| && |m - {k}| < |m|;
      TotalRemove(m - {j}, k);
      TotalRemove(m - {k}, j);
      assert m - {j} - {k} == m - {k} - {j};
    }
  }

  lemma TotalInsert<K>(m: map<K, nat>, k: K, v: nat)
    requires k !in m
    ensures Total(m[k := v]) == Total(m) + v
  {
    TotalRemove(m[k := v], k);
    assert m[k := v] - {k} == m;
  }

  lemma TotalUpdate<K>(m: map<K, nat>, k: K, v: nat)
    requires k in m
    ensures Total(m[k := v]) == Total(m) - m[k] + v
  {
    TotalRemove(m, k);
    TotalRemove(m[k := v], k);
    assert m[k := v] - {k} == m - {k};
  }

  /** The sum of `w` over the values of a map. */
  ghost function Weigh<K, V>(m: map<K, V>, w: V -> int): int
    decreases |m|
  {
    if m == map[] then 0
    else
      var k :| k in m;
      assert |m - {k}| < |m|;
      w(m[k]) + Weigh(m - {k}, w)
  }

  lemma {:induction false} WeighRemove<K, V>(m: map<K, V>, w: V -> int, k: K)
    requires k in m
    ensures Weigh(m, w) == w(m[k]) + Weigh(m - {k}, w)
    decreases |m|
  {
    var j :| j in m && Weigh(m, w) == w(m[j]) + Weigh(m - {j}, w);
    if j != k {
      assert |m - {j}| < |m| && |m - {k}| < |m|;
      WeighRemove(m - {j}, w, k);
      WeighRemove(m - {k}, w, j);
      assert m - {j} - {k} == m - {k} - {j};
    }
  }

  lemma WeighInsert<K, V>(m: map<K, V>, w: V -> int, k: K, v: V)
    requires k !in m
    ensures Weigh(m[k := v], w) == Weigh(m, w) + w(v)
  {
    WeighRemove(m[k := v], w, k);
    assert m[k := v] - {k} == m;
  }

  lemma WeighOne<K, V>(m: map<K, V>, w: V -> int, k: K, v: V)
    requires m == map[k := v]
    ensures Weigh(m, w) == w(v)
  {
    WeighRemove(m, w, k);
    assert m - {k} == map[];
  }

  lemma {:induction false} WeighSame<K, V>(m: map<K, V>, n: map<K, V>, w: V -> int)
    requires m.Keys == n.Keys && forall k :: k in m ==> w(m[k]) == w(n[k])
    ensures Weigh(m, w) == Weigh(n, w)
    decreases |m|
  {
    if m == map[] {
      assert n == map[];
    } else {
      var k :| k in m;
      assert |m - {k}| < |m|;
      WeighRemove(m, w, k);
      WeighRemove(n, w, k);
      WeighSame(m - {k}, n - {k}, w);
    }
  }

  lemma {:induction false} WeighBound<K, V>(m: map<K, V>, w: V -> int, k: K)
    requires k in m && forall j :: j in m ==> w(m[j]) >= 0
    ensures 0 <= w(m[k]) <= Weigh(m, w)
  {
    WeighRemove(m, w, k);
    WeighNonNegative(m - {k}, w);
  }

  lemma {:induction false} WeighNonNegative<K, V>(m: map<K, V>, w: V -> int)
    requires forall j :: j in m ==> w(m[j]) >= 0
    ensures Weigh(m, w) >= 0
    decreases |m|
  {
    if m != map[] {
      var k :| k in m;
      assert |m - {k}| < |m|;
      WeighRemove(m, w, k);
      WeighNonNegative(m - {k}, w);
    }
  }

  ghost predicate Joins<K(!new), V>(j: map<K, V>, m: map<K, V>, n: map<K, V>) {
    && (forall x :: x in j <==> x in m || x in n)
    && (forall x :: x in m ==> x !in n && j[x] == m[x])
    && (forall x :: x in n ==> j[x] == n[x])
  }

  lemma {:induction false} WeighJoins<K(!new), V>(j: map<K, V>, m: map<K, V>, n: map<K, V>, w: V -> int)
    requires Joins(j, m, n)
    ensures Weigh(j, w) == Weigh(m, w) + Weigh(n, w)
    decreases |n|
  {
    if n == map[] {
      assert j == m;
    } else {
      var k :| k in n;
      assert n.Keys == (n - {k}).Keys + {k};
      WeighRemove(n, w, k);
      WeighRemove(j, w, k);
      WeighJoins(j - {k}, m, n - {k}, w);
    }
  }

  lemma WeighJoin<K(!new), V>(m: map<K, V>, n: map<K, V>, w: V -> int)
    requires m.Keys !! n.Keys
    ensures Weigh(m + n, w) == Weigh(m, w) + Weigh(n, w)
  {
    forall x | x in m ensures x !in n {
      assert x in m.Keys;
    }
    WeighJoins(m + n, m, n, w);
  }

  function Restrict<K, V>(m: map<K, V>, s: set<K>): map<K, V> {
    map k | k in m && k in s :: m[k]
  }

  lemma WeighSplit<K(!new), V>(m: map<K, V>, s: set<K>, w: V -> int)
    ensures Weigh(m, w) == Weigh(Restrict(m, s), w) + Weigh(m - s, w)
  {
    WeighJoins(m, Restrict(m, s), m - s, w);
  }

  lemma {:induction false} WeighZero<K, V>(m: map<K, V>, w: V -> int)
    requires forall k :: k in m ==> w(m[k]) == 0
    ensures Weigh(m, w) == 0
    decreases |m|
  {
    if m != map[] {
      var k :| k in m;
      assert |m - {k}| < |m|;
      WeighRemove(m, w, k);
      WeighZero(m - {k}, w);
    }
  }

  lemma SubsetSize<T>(a: set<T>, b: set<T>)
    requires a <= b
    ensures |a| <= |b|
  {
    assert b == a + (b - a);
  }

  /** The numbers below `n`. */
  lemma {:induction false} FullSize(s: set<nat>, n: nat)
    requires forall i: nat :: i in s <==> i < n
    ensures |s| == n
  {
    if n == 0 {
      assert s == {};
    } else {
      FullSize(s - {n - 1}, n - 1);
    }
  }
}
