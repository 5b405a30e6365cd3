/** Finite sums over sets of integers, used to count shards group by group. */
module Sums {

  /** Some element of a non-empty set. */
  ghost function Pick<T>(s: set<T>): (x: T)
    requires s != {}
    ensures x in s
  {
    var x :| x in s;
    x
  }

  ghost function Sum(s: set<int>, f: int -> int): int
  {
    if s == {} then 0 else
    var x := Pick(s);
    f(x) + Sum(s - {x}, f)
  }

  /** Any element can be taken out first. */
  lemma {:induction false} SumRemove(s: set<int>, f: int -> int, y: int)
    requires y in s
    ensures Sum(s, f) == f(y) + Sum(s - {y}, f)
    decreases |s|
  {
    var x := Pick(s);
    if x != y {
      SumRemove(s - {x}, f, y);
      SumRemove(s - {y}, f, x);
      assert s - {x} - {y} == s - {y} - {x};
    }
  }

  lemma {:induction false} SumMonotone(s: set<int>, f: int -> int, g: int -> int)
    requires forall x :: x in s ==> f(x) <= g(x)
    ensures Sum(s, f) <= Sum(s, g)
    decreases |s|
  {
    if s != {} {
      var x := Pick(s);
      SumRemove(s, f, x);
      SumRemove(s, g, x);
      SumMonotone(s - {x}, f, g);
    }
  }

  lemma SumSame(s: set<int>, f: int -> int, g: int -> int)
    requires forall x :: x in s ==> f(x) == g(x)
    ensures Sum(s, f) == Sum(s, g)
  {
    SumMonotone(s, f, g);
    SumMonotone(s, g, f);
  }

  /** The sum changes by `d` when one summand does and the others do not. */
  lemma SumChangeOne(s: set<int>, f: int -> int, g: int -> int, y: int, d: int)
    requires y in s
    requires g(y) == f(y) + d
    requires forall x :: x in s && x != y ==> f(x) == g(x)
    ensures Sum(s, g) == Sum(s, f) + d
  {
    SumRemove(s, f, y);
    SumRemove(s, g, y);
    SumSame(s - {y}, f, g);
  }

  lemma {:induction false} SumConstant(s: set<int>, c: int)
    ensures Sum(s, _ => c) == |s| * c
    decreases |s|
  {
    if s != {} {
      var x := Pick(s);
      SumRemove(s, _ => c, x);
      SumConstant(s - {x}, c);
      assert |s - {x}| == |s| - 1;
    }
  }
}
