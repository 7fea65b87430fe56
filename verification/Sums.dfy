/** Sums of a natural-number weight over a finite set. */
module Sums {

  ghost function Sum<T(!new)>(s: set<T>, weight: T -> nat): nat {
    if s == {} then 0
    else
      var x :| x in s;
      weight(x) + Sum(s - {x}, weight)
  }

  lemma {:induction false} SumTakesOut<T(!new)>(s: set<T>, weight: T -> nat, x: T)
    requires x in s
    ensures Sum(s, weight) == weight(x) + Sum(s - {x}, weight)
    decreases |s|
  {
    var y :| y in s && Sum(s, weight) == weight(y) + Sum(s - {y}, weight);
    if x != y {
      SumTakesOut(s - {y}, weight, x);
      SumTakesOut(s - {x}, weight, y);
      assert s - {y} - {x} == s - {x} - {y};
    }
  }

  lemma {:induction false} SumDependsOnMembers<T(!new)>(s: set<T>, f: T -> nat, g: T -> nat)
    requires forall x :: x in s ==> f(x) == g(x)
    ensures Sum(s, f) == Sum(s, g)
    decreases |s|
  {
    if s == {} {
    } else {
      var x :| x in s;
      SumTakesOut(s, f, x);
      SumTakesOut(s, g, x);
      SumDependsOnMembers(s - {x}, f, g);
    }
  }

  lemma {:induction false} SumOfDisjoint<T(!new)>(a: set<T>, b: set<T>, weight: T -> nat)
    requires a !! b
    ensures Sum(a + b, weight) == Sum(a, weight) + Sum(b, weight)
    decreases |a|
  {
    if a == {} {
      assert a + b == b;
    } else {
      var x :| x in a;
      SumTakesOut(a, weight, x);
      SumTakesOut(a + b, weight, x);
      assert a + b - {x} == (a - {x}) + b;
      SumOfDisjoint(a - {x}, b, weight);
    }
  }
}
