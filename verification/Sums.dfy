// Sums over finite sets of names.
module Sums {
  ghost function Sum(s: set<string>, f: string -> int): int {
    if s == {} then 0 else var x :| x in s; f(x) + Sum(s - {x}, f)
  }

  lemma {:induction false} SumTake(s: set<string>, f: string -> int, x: string)
    requires x in s
    ensures Sum(s, f) == f(x) + Sum(s - {x}, f)
    decreases |s|
  {
    var y :| y in s && Sum(s, f) == f(y) + Sum(s - {y}, f);
    if y != x {
      SumTake(s - {y}, f, x);
      SumTake(s - {x}, f, y);
      assert s - {y} - {x} == s - {x} - {y};
    }
  }

  lemma SumInsert(s: set<string>, f: string -> int, x: string)
    requires x !in s
    ensures Sum(s + {x}, f) == f(x) + Sum(s, f)
  {
    SumTake(s + {x}, f, x);
    assert s + {x} - {x} == s;
  }

  lemma {:induction false} SumPlus(s: set<string>, f: string -> int, a: string -> int, b: string -> int)
    requires forall n :: n in s ==> f(n) == a(n) + b(n)
    ensures Sum(s, f) == Sum(s, a) + Sum(s, b)
    decreases |s|
  {
    if x :| x in s {
      SumTake(s, f, x); SumTake(s, a, x); SumTake(s, b, x);
      SumPlus(s - {x}, f, a, b);
    }
  }

  // Names that contribute nothing may be left out.
  lemma {:induction false} SumSupport(s: set<string>, t: set<string>, f: string -> int, g: string -> int)
    requires t <= s && (forall n :: n in t ==> f(n) == g(n)) && (forall n :: n in s && n !in t ==> f(n) == 0)
    ensures Sum(s, f) == Sum(t, g)
    decreases |s|
  {
    if x :| x in s {
      SumTake(s, f, x);
      if x in t { SumTake(t, g, x); } else { assert t - {x} == t; }
      SumSupport(s - {x}, t - {x}, f, g);
    }
  }

  lemma {:induction false} SumBound(s: set<string>, f: string -> int, g: string -> int)
    requires forall n :: n in s ==> 0 <= f(n) <= g(n)
    ensures 0 <= Sum(s, f) <= Sum(s, g)
    decreases |s|
  {
    if x :| x in s {
      SumTake(s, f, x); SumTake(s, g, x);
      SumBound(s - {x}, f, g);
    }
  }

  // A sum of what is never negative is zero only if all of it is.
  lemma {:induction false} SumZeroIff(s: set<string>, f: string -> int)
    requires forall n :: n in s ==> f(n) >= 0
    ensures Sum(s, f) >= 0 && (Sum(s, f) == 0 <==> forall n :: n in s ==> f(n) == 0)
    decreases |s|
  {
    if x :| x in s {
      SumTake(s, f, x);
      SumZeroIff(s - {x}, f);
    }
  }

  // A sum of two parts, each of which is nothing outside its own names.
  lemma SumOfParts(s: set<string>, t: set<string>, u: set<string>, f: string -> int, a: string -> int, b: string -> int)
    requires t <= s && u <= s && forall n :: n in s ==> f(n) == a(n) + b(n)
    requires forall n :: n in s ==> (n !in t ==> a(n) == 0) && (n !in u ==> b(n) == 0)
    ensures Sum(s, f) == Sum(t, a) + Sum(u, b)
  {
    SumPlus(s, f, a, b);
    SumSupport(s, t, a, a);
    SumSupport(s, u, b, b);
  }
}
