/** Sums over finite sets, for totals over map-shaped state. */
module Sums {

  ghost function Sum<T(!new)>(s: set<T>, f: T -> int): int {
    if s == {} then 0 else var x :| x in s; f(x) + Sum(s - {x}, f)
  }

  /** Any element can be taken out first. */
  lemma {:induction false} SumRemove<T(!new)>(s: set<T>, f: T -> int, x: T)
    requires x in s
    ensures Sum(s, f) == f(x) + Sum(s - {x}, f)
    decreases |s|
  {
    var y :| y in s && Sum(s, f) == f(y) + Sum(s - {y}, f);
    if y != x {
      SumRemove(s - {y}, f, x);
      SumRemove(s - {x}, f, y);
      assert s - {y} - {x} == s - {x} - {y};
    }
  }

  lemma {:induction false} SumAdd<T(!new)>(s: set<T>, f: T -> int, x: T)
    requires x !in s
    ensures Sum(s + {x}, f) == Sum(s, f) + f(x)
  {
    SumRemove(s + {x}, f, x);
    assert s + {x} - {x} == s;
  }

  lemma {:induction false} SumSame<T(!new)>(s: set<T>, f: T -> int, g: T -> int)
    requires forall x :: x in s ==> f(x) == g(x)
    ensures Sum(s, f) == Sum(s, g)
    decreases |s|
  {
    if s != {} {
      var x :| x in s;
      SumRemove(s, f, x);
      SumRemove(s, g, x);
      SumSame(s - {x}, f, g);
    }
  }

  /** Two functions that differ at one element only. */
  lemma {:induction false} SumChange<T(!new)>(s: set<T>, f: T -> int, g: T -> int, x: T)
    requires x in s && forall y :: y in s && y != x ==> f(y) == g(y)
    ensures Sum(s, g) == Sum(s, f) + g(x) - f(x)
  {
    SumRemove(s, f, x);
    SumRemove(s, g, x);
    SumSame(s - {x}, f, g);
  }

  lemma {:induction false} SumNonNegative<T(!new)>(s: set<T>, f: T -> int)
    requires forall x :: x in s ==> f(x) >= 0
    ensures Sum(s, f) >= 0
    ensures forall x :: x in s ==> f(x) <= Sum(s, f)
    decreases |s|
  {
    if s != {} {
      var x :| x in s;
      SumRemove(s, f, x);
      SumNonNegative(s - {x}, f);
      forall y | y in s ensures f(y) <= Sum(s, f) {
        SumRemove(s, f, y);
        SumNonNegative(s - {y}, f);
      }
    }
  }

  /** A positive sum has a positive term. */
  lemma {:induction false} SumPositive<T(!new)>(s: set<T>, f: T -> int) returns (x: T)
    requires Sum(s, f) > 0
    ensures x in s && f(x) > 0
    decreases |s|
  {
    x :| x in s;
    SumRemove(s, f, x);
    if f(x) <= 0 { x := SumPositive(s - {x}, f); }
  }

  lemma {:induction false} SumPlus<T(!new)>(s: set<T>, f: T -> int, g: T -> int, h: T -> int)
    requires forall x :: x in s ==> h(x) == f(x) + g(x)
    ensures Sum(s, h) == Sum(s, f) + Sum(s, g)
    decreases |s|
  {
    if s != {} {
      var x :| x in s;
      SumRemove(s, f, x);
      SumRemove(s, g, x);
      SumRemove(s, h, x);
      SumPlus(s - {x}, f, g, h);
    }
  }

  /** Elements where the function is zero do not matter. */
  lemma {:induction false} SumExtend<T(!new)>(s: set<T>, t: set<T>, f: T -> int)
    requires s <= t && forall x :: x in t - s ==> f(x) == 0
    ensures Sum(t, f) == Sum(s, f)
    decreases |t - s|
  {
    if t - s != {} {
      var x :| x in t - s;
      SumRemove(t, f, x);
      assert (t - {x}) - s < t - s;
      SumExtend(s, t - {x}, f);
    } else {
      assert s == t;
    }
  }
}
