/** Sums over finite sets, which do not depend on the order of the summands. */
module Sums {
  ghost function Sum<T(!new)>(s: set<T>, f: T -> int): int {
    if s == {} then 0 else var x :| x in s; f(x) + Sum(s - {x}, f)
  }

  lemma {:induction false} SumWithout<T(!new)>(s: set<T>, f: T -> int, x: T)
    requires x in s
    ensures Sum(s, f) == f(x) + Sum(s - {x}, f)
    decreases s
  {
    var y :| y in s && Sum(s, f) == f(y) + Sum(s - {y}, f);
    if y != x {
      SumWithout(s - {y}, f, x);
      SumWithout(s - {x}, f, y);
      assert s - {y} - {x} == s - {x} - {y};
    }
  }

  lemma {:induction false} SumSame<T(!new)>(s: set<T>, f: T -> int, g: T -> int)
    requires forall x :: x in s ==> f(x) == g(x)
    ensures Sum(s, f) == Sum(s, g)
    decreases s
  {
    if s != {} {
      var x :| x in s;
      SumWithout(s, f, x);
      SumWithout(s, g, x);
      SumSame(s - {x}, f, g);
    }
  }

  /** Changing one summand. */
  lemma SumPoint<T(!new)>(s: set<T>, f: T -> int, g: T -> int, x: T)
    requires x in s && forall y :: y in s && y != x ==> f(y) == g(y)
    ensures Sum(s, g) == Sum(s, f) + g(x) - f(x)
  {
    SumWithout(s, f, x);
    SumWithout(s, g, x);
    SumSame(s - {x}, f, g);
  }

  lemma {:induction false} SumZero<T(!new)>(s: set<T>, f: T -> int)
    requires forall x :: x in s ==> f(x) == 0
    ensures Sum(s, f) == 0
    decreases s
  {
    if s != {} {
      var x :| x in s;
      SumWithout(s, f, x);
      SumZero(s - {x}, f);
    }
  }

  lemma {:induction false} SumPositive<T(!new)>(s: set<T>, f: T -> int)
    requires forall x :: x in s ==> f(x) >= 0
    ensures Sum(s, f) >= 0
    decreases s
  {
    if s != {} {
      var x :| x in s;
      SumWithout(s, f, x);
      SumPositive(s - {x}, f);
    }
  }

  /** A sum without negative summands is positive exactly if one of them is. */
  lemma {:induction false} SumSome<T(!new)>(s: set<T>, f: T -> int)
    requires forall x :: x in s ==> f(x) >= 0
    ensures Sum(s, f) > 0 <==> exists x :: x in s && f(x) > 0
    decreases s
  {
    if s != {} {
      var x :| x in s;
      SumWithout(s, f, x);
      SumSome(s - {x}, f);
      SumPositive(s - {x}, f);
      if y :| y in s && f(y) > 0 {
        assert y == x || y in s - {x};
      }
    }
  }

  /** Summands that are zero may be left out. */
  lemma {:induction false} SumWhere<T(!new)>(s: set<T>, f: T -> int, part: set<T>, g: T -> int)
    requires part <= s && (forall x :: x in part ==> f(x) == g(x)) && forall x :: x in s && x !in part ==> f(x) == 0
    ensures Sum(s, f) == Sum(part, g)
    decreases s
  {
    if s != {} {
      var x :| x in s;
      SumWithout(s, f, x);
      if x in part {
        SumWithout(part, g, x);
      } else {
        assert part - {x} == part;
      }
      SumWhere(s - {x}, f, part - {x}, g);
    }
  }
}
