/** Selections, grouping and ordering over sequences of rows. */
module Relational {
  function Where<T>(s: seq<T>, p: T -> bool): seq<T>
  {
    if s == [] then [] else (if p(s[0]) then [s[0]] else []) + Where(s[1..], p)
  }

  lemma {:induction false} WhereAppend<T>(a: seq<T>, b: seq<T>, p: T -> bool)
    ensures Where(a + b, p) == Where(a, p) + Where(b, p)
  {
    if a == [] {
      assert a + b == b;
    } else {
      WhereAppend(a[1..], b, p);
      assert (a + b)[0] == a[0] && (a + b)[1..] == a[1..] + b;
      var head := if p(a[0]) then [a[0]] else [];
      assert head + (Where(a[1..], p) + Where(b, p)) == (head + Where(a[1..], p)) + Where(b, p);
    }
  }

  lemma {:induction false} WhereIn<T>(s: seq<T>, p: T -> bool, x: T)
    ensures x in Where(s, p) <==> x in s && p(x)
  {
    if s != [] { WhereIn(s[1..], p, x); }
  }

  lemma {:induction false} WhereNone<T>(s: seq<T>, p: T -> bool)
    requires forall x :: x in s ==> !p(x)
    ensures Where(s, p) == []
  {
    if s != [] { WhereNone(s[1..], p); }
  }

  lemma {:induction false} WhereAll<T>(s: seq<T>, p: T -> bool)
    requires forall x :: x in s ==> p(x)
    ensures Where(s, p) == s
  {
    if s != [] { WhereAll(s[1..], p); }
  }

  ghost predicate Unique<K>(s: seq<K>)
  {
    forall i, j :: 0 <= i < j < |s| ==> s[i] != s[j]
  }

  /** The distinct values, in order of first appearance. */
  function Distinct<K(==, !new)>(s: seq<K>): (d: seq<K>)
    ensures Unique(d)
    ensures forall k :: k in d <==> k in s
  {
    if s == [] then []
    else
      var d := Distinct(s[..|s| - 1]);
      assert s == s[..|s| - 1] + [s[|s| - 1]];
      if s[|s| - 1] in d then d else d + [s[|s| - 1]]
  }

  function Map<T, U>(s: seq<T>, f: T -> U): seq<U>
  {
    seq(|s|, i requires 0 <= i < |s| => f(s[i]))
  }

  lemma MapIn<T(!new), U>(s: seq<T>, f: T -> U, u: U)
    ensures u in Map(s, f) <==> exists x :: x in s && f(x) == u
  {
    if x :| x in s && f(x) == u {
      var i :| 0 <= i < |s| && s[i] == x;
      assert Map(s, f)[i] == u;
    }
    if u in Map(s, f) {
      var i :| 0 <= i < |s| && Map(s, f)[i] == u;
      assert s[i] in s;
    }
  }

  lemma {:induction false} UniqueCount<K>(s: seq<K>, k: K)
    requires Unique(s)
    ensures multiset(s)[k] == if k in s then 1 else 0
  {
    if s != [] {
      assert s == [s[0]] + s[1..];
      UniqueCount(s[1..], k);
    }
  }

  lemma {:induction false} WhereUnique<T(!new)>(s: seq<T>, p: T -> bool)
    requires Unique(s)
    ensures Unique(Where(s, p))
  {
    if s != [] {
      WhereUnique(s[1..], p);
      var w := Where(s[1..], p);
      forall j | 0 <= j < |w| ensures w[j] != s[0] { WhereIn(s[1..], p, w[j]); }
    }
  }

  /** Grouped lines: one per distinct value, kept if they satisfy the HAVING clause, are one per value still. */
  lemma GroupedOnce<T(!new), U(!new)>(groups: seq<T>, line: T -> U, having: U -> bool, u: U)
    requires Unique(groups) && forall x, y :: line(x) == line(y) ==> x == y
    ensures multiset(Where(Map(groups, line), having))[u] ==
            if having(u) && exists x :: x in groups && line(x) == u then 1 else 0
  {
    var lines := Map(groups, line);
    WhereUnique(lines, having);
    UniqueCount(Where(lines, having), u);
    WhereIn(lines, having, u);
    MapIn(groups, line, u);
  }

  // ----- ORDER BY ... DESC -----

  ghost predicate Descending<T>(s: seq<T>, f: T -> int)
  {
    forall i, j :: 0 <= i < j < |s| ==> f(s[i]) >= f(s[j])
  }

  function Place<T>(x: T, s: seq<T>, f: T -> int): seq<T>
  {
    if s == [] || f(x) >= f(s[0]) then [x] + s else [s[0]] + Place(x, s[1..], f)
  }

  function OrderByDesc<T>(s: seq<T>, f: T -> int): seq<T>
  {
    if s == [] then [] else Place(s[0], OrderByDesc(s[1..], f), f)
  }

  lemma {:induction false} PlaceSame<T>(x: T, s: seq<T>, f: T -> int)
    ensures multiset(Place(x, s, f)) == multiset{x} + multiset(s)
  {
    if s != [] {
      PlaceSame(x, s[1..], f);
      assert s == [s[0]] + s[1..];
    }
  }

  lemma {:induction false} PlaceDescends<T>(x: T, s: seq<T>, f: T -> int)
    requires Descending(s, f)
    ensures Descending(Place(x, s, f), f)
  {
    if s != [] && f(x) < f(s[0]) {
      PlaceDescends(x, s[1..], f);
      PlaceSame(x, s[1..], f);
      var p := Place(x, s[1..], f);
      forall i | 0 <= i < |p| ensures f(s[0]) >= f(p[i]) {
        assert p[i] in multiset(p);
        assert p[i] == x || p[i] in s[1..];
      }
    }
  }

  lemma {:induction false} OrderedSame<T>(s: seq<T>, f: T -> int)
    ensures multiset(OrderByDesc(s, f)) == multiset(s) && Descending(OrderByDesc(s, f), f)
  {
    if s != [] {
      OrderedSame(s[1..], f);
      PlaceSame(s[0], OrderByDesc(s[1..], f), f);
      PlaceDescends(s[0], OrderByDesc(s[1..], f), f);
      assert s == [s[0]] + s[1..];
    }
  }
}
