/** Finite sums of amounts over sets, as the balance reports use them. */
module Sums {

  /** The sum of f over s; the order in which the members are taken does not matter (SumRemove). */
  ghost function Sum<T(!new)>(s: set<T>, f: T -> int): int
  {
    if s == {} then 0 else
      var x :| x in s;
      f(x) + Sum(s - {x}, f)
  }

  lemma {:induction false} SumRemove<T(!new)>(s: set<T>, f: T -> int, x: T)
    requires x in s
    ensures Sum(s, f) == f(x) + Sum(s - {x}, f)
    decreases |s|
  {
    var y :| y in s && Sum(s, f) == f(y) + Sum(s - {y}, f);
    if y != x {
      SumRemove(s - {y}, f, x);
      SumRemove(s - {x}, f, y);
      assert s - {y} - {x} == s - {x} - {y};
    }
  }

  lemma SumEmpty<T(!new)>(f: T -> int)
    ensures Sum({}, f) == 0
  {
  }

  lemma {:induction false} SumUnion<T(!new)>(a: set<T>, b: set<T>, f: T -> int)
    requires a !! b
    ensures Sum(a + b, f) == Sum(a, f) + Sum(b, f)
    decreases |a|
  {
    if a == {} {
      assert a + b == b;
    } else {
      var x :| x in a;
      SumRemove(a, f, x);
      SumRemove(a + b, f, x);
      assert a + b - {x} == (a - {x}) + b;
      SumUnion(a - {x}, b, f);
    }
  }

  /** Only the values on s matter. */
  lemma {:induction false} SumCong<T(!new)>(s: set<T>, f: T -> int, g: T -> int)
    requires forall x :: x in s ==> f(x) == g(x)
    ensures Sum(s, f) == Sum(s, g)
    decreases |s|
  {
    if s != {} {
      var x :| x in s;
      SumRemove(s, f, x);
      SumRemove(s, g, x);
      SumCong(s - {x}, f, g);
    }
  }

  lemma {:induction false} SumDifference<T(!new)>(s: set<T>, f: T -> int, g: T -> int, h: T -> int)
    requires forall x :: x in s ==> f(x) == g(x) - h(x)
    ensures Sum(s, f) == Sum(s, g) - Sum(s, h)
    decreases |s|
  {
    if s != {} {
      var x :| x in s;
      SumRemove(s, f, x);
      SumRemove(s, g, x);
      SumRemove(s, h, x);
      SumDifference(s - {x}, f, g, h);
    }
  }

  lemma {:induction false} SumNonNegative<T(!new)>(s: set<T>, f: T -> int)
    requires forall x :: x in s ==> f(x) >= 0
    ensures Sum(s, f) >= 0
    decreases |s|
  {
    if s != {} {
      var x :| x in s;
      SumRemove(s, f, x);
      SumNonNegative(s - {x}, f);
    }
  }

  lemma {:induction false} SumZeroIff<T(!new)>(s: set<T>, f: T -> int)
    requires forall x :: x in s ==> f(x) >= 0
    ensures Sum(s, f) == 0 <==> forall x :: x in s ==> f(x) == 0
    decreases |s|
  {
    if s != {} {
      var x :| x in s;
      SumRemove(s, f, x);
      SumNonNegative(s - {x}, f);
      SumZeroIff(s - {x}, f);
    }
  }

  ghost function Fibre<K(!new), T(!new)>(s: set<T>, key: T -> K, k: K): set<T>
  {
    set x | x in s && key(x) == k
  }

  /** Summing fibre by fibre gives the whole: every member of s has its key in keys. */
  lemma {:induction false} SumByKey<K(!new), T(!new)>(keys: set<K>, s: set<T>, key: T -> K, f: T -> int, part: K -> int)
    requires forall x :: x in s ==> key(x) in keys
    requires forall k :: k in keys ==> part(k) == Sum(Fibre(s, key, k), f)
    ensures Sum(keys, part) == Sum(s, f)
    decreases |keys|
  {
    hide Sum;
    if keys == {} {
      assert s == {};
      SumEmpty(f);
      SumEmpty(part);
    } else {
      var k :| k in keys;
      var here := Fibre(s, key, k);
      var rest := s - here;
      SumRemove(keys, part, k);
      forall j | j in keys - {k}
        ensures part(j) == Sum(Fibre(rest, key, j), f)
      {
        assert Fibre(rest, key, j) == Fibre(s, key, j);
      }
      SumByKey(keys - {k}, rest, key, f, part);
      SumUnion(here, rest, f);
      assert here + rest == s;
    }
  }
}
