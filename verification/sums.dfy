/**
 Sums of an integer-valued function over a finite set, the one arithmetic tool
 behind SQL's `sum`, `count(*)` and `count(DISTINCT …)` in the other modules.
 */
module Sums {

  ghost function Sum<T>(s: set<T>, f: T -> int): int
    decreases |s|
  {
    if s == {} then 0 else
      var x :| x in s;
      f(x) + Sum(s - {x}, f)
  }

  /** Any element may be taken out first. */
  lemma {:induction false} SumRemove<T>(s: set<T>, f: T -> int, x: T)
    requires x in s
    ensures Sum(s, f) == f(x) + Sum(s - {x}, f)
    decreases |s|
  {
    var y :| y in s && Sum(s, f) == f(y) + Sum(s - {y}, f);
    if y != x {
      SumRemove(s - {y}, f, x);
      SumRemove(s - {x}, f, y);
      assert s - {y} - {x} == s - {x} - {y};
    }
  }

  lemma {:induction false} SumAdd<T>(s: set<T>, f: T -> int, x: T)
    requires x !in s
    ensures Sum(s + {x}, f) == f(x) + Sum(s, f)
  {
    SumRemove(s + {x}, f, x);
    assert s + {x} - {x} == s;
  }

  lemma {:induction false} SubsetSize<T>(a: set<T>, b: set<T>)
    requires a <= b
    ensures |a| <= |b|
  {
    assert b == a + (b - a);
  }

  lemma {:induction false} SumUnion<T>(s: set<T>, t: set<T>, f: T -> int)
    requires s !! t
    ensures Sum(s + t, f) == Sum(s, f) + Sum(t, f)
    decreases |s|
  {
    if s == {} {
      assert s + t == t;
    } else {
      var x :| x in s;
      SumRemove(s, f, x);
      SumRemove(s + t, f, x);
      assert s + t - {x} == (s - {x}) + t;
      SumUnion(s - {x}, t, f);
    }
  }

  lemma {:induction false} SumSame<T>(s: set<T>, f: T -> int, g: T -> int)
    requires forall x | x in s :: f(x) == g(x)
    ensures Sum(s, f) == Sum(s, g)
    decreases |s|
  {
    if s != {} {
      var x :| x in s;
      SumRemove(s, f, x);
      SumRemove(s, g, x);
      SumSame(s - {x}, f, g);
    }
  }

  lemma {:induction false} SumBounds<T>(s: set<T>, f: T -> int, lo: int)
    requires forall x | x in s :: f(x) >= lo
    ensures Sum(s, f) >= lo * |s|
    decreases |s|
  {
    if s != {} {
      var x :| x in s;
      SumRemove(s, f, x);
      SumBounds(s - {x}, f, lo);
      assert |s| == |s - {x}| + 1;
    }
  }

  lemma {:induction false} SumConst<T>(s: set<T>, f: T -> int, n: int)
    requires forall x | x in s :: f(x) == n
    ensures Sum(s, f) == n * |s|
    decreases |s|
  {
    if s != {} {
      var x :| x in s;
      SumRemove(s, f, x);
      SumConst(s - {x}, f, n);
      assert |s| == |s - {x}| + 1;
    }
  }

  /** Elements worth nothing may be left out. */
  lemma {:induction false} SumSupport<T>(s: set<T>, t: set<T>, f: T -> int)
    requires s <= t && forall x | x in t - s :: f(x) == 0
    ensures Sum(t, f) == Sum(s, f)
  {
    SumUnion(s, t - s, f);
    assert s + (t - s) == t;
    SumConst(t - s, f, 0);
  }

  lemma {:induction false} SumPlus<T>(s: set<T>, f: T -> int, g: T -> int, h: T -> int)
    requires forall x | x in s :: h(x) == f(x) + g(x)
    ensures Sum(s, h) == Sum(s, f) + Sum(s, g)
    decreases |s|
  {
    if s != {} {
      var x :| x in s;
      SumRemove(s, f, x);
      SumRemove(s, g, x);
      SumRemove(s, h, x);
      SumPlus(s - {x}, f, g, h);
    }
  }

  /** Summing over an injective image. */
  lemma {:induction false} SumImage<T, U>(s: set<T>, image: set<U>, h: T -> U, f: U -> int, g: T -> int)
    requires forall x, y | x in s && y in s && h(x) == h(y) :: x == y
    requires forall x | x in s :: h(x) in image && f(h(x)) == g(x)
    requires forall u | u in image :: exists x :: x in s && h(x) == u
    ensures Sum(image, f) == Sum(s, g)
    decreases |s|
  {
    if s != {} {
      var x :| x in s;
      SumRemove(s, g, x);
      SumRemove(image, f, h(x));
      SumImage(s - {x}, image - {h(x)}, h, f, g);
    }
  }

  ghost function Fibre<T, U>(s: set<T>, p: T -> U, u: U): set<T> {
    set x | x in s && p(x) == u
  }

  /** Summing over a fibration: first inside each fibre of `p`, then over `t`. */
  lemma {:induction false} SumFibres<T, U>(s: set<T>, t: set<U>, p: T -> U, f: T -> int)
    requires forall x | x in s :: p(x) in t
    ensures Sum(s, f) == Sum(t, (u: U) => Sum(Fibre(s, p, u), f))
    decreases |t|
  {
    var g := (u: U) => Sum(Fibre(s, p, u), f);
    if t == {} {
      assert s == {};
    } else {
      var u :| u in t;
      var fibre := Fibre(s, p, u);
      var rest := s - fibre;
      SumUnion(fibre, rest, f);
      assert fibre + rest == s;
      SumFibres(rest, t - {u}, p, f);
      var h := (w: U) => Sum(Fibre(rest, p, w), f);
      forall w | w in t - {u} ensures g(w) == h(w) {
        assert Fibre(rest, p, w) == Fibre(s, p, w);
      }
      SumSame(t - {u}, g, h);
      SumRemove(t, g, u);
    }
  }

  /** The sum, computed. */
  method SumOver<T(==)>(s: set<T>, f: T -> int) returns (n: int)
    ensures n == Sum(s, f)
  {
    n := 0;
    var rest := s;
    while rest != {}
      invariant rest <= s
      invariant n + Sum(rest, f) == Sum(s, f)
      decreases |rest|
    {
      var x :| x in rest;
      SumRemove(rest, f, x);
      n := n + f(x);
      rest := rest - {x};
    }
  }
}
