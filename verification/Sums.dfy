/** Sums over finite maps (table rows) and over sequences (clients, result rows). */
module Sums {

  ghost function SumMap<K(!new), V(!new)>(m: map<K, V>, f: V -> int): int
    decreases |m|
  {
    if m == map[] then 0
    else
      var k :| k in m;
      f(m[k]) + SumMap(m - {k}, f)
  }

  /** The key taken out first does not matter. */
  lemma {:induction false} SumMapRemove<K(!new), V(!new)>(m: map<K, V>, f: V -> int, k: K)
    requires k in m
    ensures SumMap(m, f) == f(m[k]) + SumMap(m - {k}, f)
    decreases |m|
  {
    var j :| j in m && SumMap(m, f) == f(m[j]) + SumMap(m - {j}, f);
    if j != k {
      SumMapRemove(m - {j}, f, k);
      SumMapRemove(m - {k}, f, j);
      assert m - {j} - {k} == m - {k} - {j};
    }
  }

  lemma SumMapUpdate<K(!new), V(!new)>(m: map<K, V>, f: V -> int, k: K, v: V)
    ensures SumMap(m[k := v], f) == SumMap(m, f) + f(v) - (if k in m then f(m[k]) else 0)
  {
    var m' := m[k := v];
    SumMapRemove(m', f, k);
    assert m' - {k} == m - {k};
    if k in m {
      SumMapRemove(m, f, k);
    } else {
      assert m - {k} == m;
    }
  }

  /** Every row weighs something non-negative, so one row, or two different ones, weigh at most the whole. */
  lemma {:induction false} SumMapNonNegative<K(!new), V(!new)>(m: map<K, V>, f: V -> int)
    requires forall k :: k in m ==> f(m[k]) >= 0
    ensures SumMap(m, f) >= 0
    decreases |m|
  {
    if m != map[] {
      var j :| j in m && SumMap(m, f) == f(m[j]) + SumMap(m - {j}, f);
      SumMapNonNegative(m - {j}, f);
    }
  }

  lemma SumMapTwo<K(!new), V(!new)>(m: map<K, V>, f: V -> int, j: K, k: K)
    requires j in m && k in m && j != k
    requires forall i :: i in m ==> f(m[i]) >= 0
    ensures f(m[j]) + f(m[k]) <= SumMap(m, f)
  {
    SumMapRemove(m, f, j);
    SumMapRemove(m - {j}, f, k);
    SumMapNonNegative(m - {j} - {k}, f);
  }

  /** Two tables over the same keys whose rows weigh the same have the same sum. */
  lemma {:induction false} SumMapSame<K(!new), V(!new), W(!new)>(m: map<K, V>, f: V -> int, n: map<K, W>, g: W -> int)
    requires m.Keys == n.Keys
    requires forall k :: k in m ==> f(m[k]) == g(n[k])
    ensures SumMap(m, f) == SumMap(n, g)
    decreases |m|
  {
    if m == map[] {
      assert n == map[];
    } else {
      var j :| j in m && SumMap(m, f) == f(m[j]) + SumMap(m - {j}, f);
      SumMapSame(m - {j}, f, n - {j}, g);
      assert j in n;
      SumMapRemove(n, g, j);
    }
  }

  lemma {:induction false} SumMapZero<K(!new), V(!new)>(m: map<K, V>, f: V -> int)
    requires forall k :: k in m ==> f(m[k]) == 0
    ensures SumMap(m, f) == 0
    decreases |m|
  {
    if m != map[] {
      var k :| k in m && SumMap(m, f) == f(m[k]) + SumMap(m - {k}, f);
      SumMapZero(m - {k}, f);
    }
  }

  ghost function SumSeq<T(!new)>(s: seq<T>, f: T -> int): int
  {
    if s == [] then 0 else f(s[0]) + SumSeq(s[1..], f)
  }

  lemma {:induction false} SumSeqAppend<T(!new)>(a: seq<T>, b: seq<T>, f: T -> int)
    ensures SumSeq(a + b, f) == SumSeq(a, f) + SumSeq(b, f)
  {
    if a == [] {
      assert a + b == b;
    } else {
      SumSeqAppend(a[1..], b, f);
      assert (a + b)[1..] == a[1..] + b;
    }
  }

  lemma {:induction false} SumSeqUpdate<T(!new)>(s: seq<T>, f: T -> int, i: nat, v: T)
    requires i < |s|
    ensures SumSeq(s[i := v], f) == SumSeq(s, f) + f(v) - f(s[i])
  {
    if i > 0 {
      SumSeqUpdate(s[1..], f, i - 1, v);
      assert s[i := v][1..] == s[1..][i - 1 := v];
    }
  }

  lemma {:induction false} SumSeqBounds<T(!new)>(s: seq<T>, f: T -> int, i: nat)
    requires i < |s|
    requires forall x :: x in s ==> f(x) >= 0
    ensures SumSeq(s, f) >= f(s[i]) >= 0
    ensures SumSeq(s, f) >= 0
  {
    SumSeqNonNegative(s[1..], f);
    if i > 0 {
      SumSeqBounds(s[1..], f, i - 1);
    }
  }

  lemma {:induction false} SumSeqNonNegative<T(!new)>(s: seq<T>, f: T -> int)
    requires forall x :: x in s ==> f(x) >= 0
    ensures SumSeq(s, f) >= 0
  {
    if s != [] {
      SumSeqNonNegative(s[1..], f);
    }
  }

  lemma {:induction false} SumSeqZero<T(!new)>(s: seq<T>, f: T -> int)
    requires forall x :: x in s ==> f(x) == 0
    ensures SumSeq(s, f) == 0
  {
    if s != [] {
      SumSeqZero(s[1..], f);
    }
  }

  lemma {:induction false} SumSeqAtMost<T(!new), U(!new)>(s: seq<T>, f: T -> int, t: seq<U>, g: U -> int)
    requires |s| == |t| && forall i :: 0 <= i < |s| ==> f(s[i]) <= g(t[i])
    ensures SumSeq(s, f) <= SumSeq(t, g)
  {
    if s != [] {
      SumSeqAtMost(s[1..], f, t[1..], g);
    }
  }
}
