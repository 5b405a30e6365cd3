/** Sequences up to order: flattening, and sequences without repeats. */
module Bags {

  function Flat<X, Y>(f: X -> seq<Y>, s: seq<X>): seq<Y>
  {
    if s == [] then [] else Flat(f, s[..|s| - 1]) + f(s[|s| - 1])
  }

  lemma FlatOne<X, Y>(f: X -> seq<Y>, s: seq<X>, x: X)
    ensures Flat(f, s + [x]) == Flat(f, s) + f(x)
  {
    assert (s + [x])[..|s|] == s;
  }

  lemma {:induction false} FlatAppend<X, Y>(f: X -> seq<Y>, a: seq<X>, b: seq<X>)
    ensures Flat(f, a + b) == Flat(f, a) + Flat(f, b)
  {
    if b == [] {
      assert a + b == a;
    } else {
      var m := |b| - 1;
      FlatAppend(f, a, b[..m]);
      assert a + b == (a + b[..m]) + [b[m]];
      FlatOne(f, a + b[..m], b[m]);
      assert (Flat(f, a) + Flat(f, b[..m])) + f(b[m]) == Flat(f, a) + (Flat(f, b[..m]) + f(b[m]));
    }
  }

  /** The order of the elements does not matter. */
  lemma {:induction false} FlatOrder<X, Y>(f: X -> seq<Y>, a: seq<X>, b: seq<X>)
    requires multiset(a) == multiset(b)
    ensures multiset(Flat(f, a)) == multiset(Flat(f, b))
    decreases |a|
  {
    if a == [] {
      assert |multiset(a)| == |a| && |multiset(b)| == |b|;
    } else {
      var m, x := |a| - 1, a[|a| - 1];
      assert a == a[..m] + [x];
      assert x in multiset(b);
      var i :| 0 <= i < |b| && b[i] == x;
      var rest := b[..i] + b[i + 1..];
      assert b == (b[..i] + [x]) + b[i + 1..];
      assert multiset(a[..m]) == multiset(a) - multiset{x};
      assert multiset(rest) == multiset(b) - multiset{x};
      FlatOrder(f, a[..m], rest);
      FlatAppend(f, b[..i] + [x], b[i + 1..]);
      FlatOne(f, b[..i], x);
      FlatAppend(f, b[..i], b[i + 1..]);
    }
  }

  lemma {:induction false} FlatSame<X, Y>(f: X -> seq<Y>, g: X -> seq<Y>, s: seq<X>)
    requires forall i :: 0 <= i < |s| ==> f(s[i]) == g(s[i])
    ensures Flat(f, s) == Flat(g, s)
  {
    if s != [] { FlatSame(f, g, s[..|s| - 1]); }
  }

  lemma {:induction false} FlatMember<X, Y>(f: X -> seq<Y>, s: seq<X>, y: Y)
    ensures y in Flat(f, s) <==> exists i :: 0 <= i < |s| && y in f(s[i])
  {
    if s != [] {
      var m := |s| - 1;
      FlatMember(f, s[..m], y);
      if y in Flat(f, s[..m]) {
        var i :| 0 <= i < m && y in f(s[..m][i]);
        assert y in f(s[i]);
      }
      if i :| 0 <= i < |s| && y in f(s[i]) {
        if i < m { assert y in f(s[..m][i]); }
      }
    }
  }

  ghost predicate NoDup<X>(s: seq<X>)
  {
    forall i, j :: 0 <= i < j < |s| ==> s[i] != s[j]
  }

  lemma {:induction false} NoDupCount<X>(s: seq<X>, x: X)
    requires NoDup(s)
    ensures multiset(s)[x] == if x in s then 1 else 0
  {
    if s != [] {
      var m := |s| - 1;
      assert s == s[..m] + [s[m]];
      NoDupCount(s[..m], x);
      assert s[m] !in s[..m];
    }
  }

  /** The same elements, none repeated: the same bag. */
  lemma NoDupSame<X(!new)>(a: seq<X>, b: seq<X>)
    requires NoDup(a) && NoDup(b) && forall x :: x in a <==> x in b
    ensures multiset(a) == multiset(b)
  {
    forall x ensures multiset(a)[x] == multiset(b)[x] {
      NoDupCount(a, x);
      NoDupCount(b, x);
    }
  }
}
