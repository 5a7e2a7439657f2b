/** Sums over finite sets, and the regrouping laws the accounting proofs need. */
module Sums {

  ghost function Pick<T(!new)>(s: set<T>): T
    requires s != {}
  {
    var x :| x in s; x
  }

  ghost function Sum<T(!new)>(s: set<T>, f: T -> nat): nat {
    if s == {} then 0 else f(Pick(s)) + Sum(s - {Pick(s)}, f)
  }

  /** Any element can be the one that is split off. */
  lemma {:induction false} SumRemove<T(!new)>(s: set<T>, f: T -> nat, x: T)
    requires x in s
    ensures Sum(s, f) == f(x) + Sum(s - {x}, f)
    decreases s
  {
    var y := Pick(s);
    if x != y {
      SumRemove(s - {y}, f, x);
      SumRemove(s - {x}, f, y);
      assert s - {y} - {x} == s - {x} - {y};
    }
  }

  lemma {:induction false} SumUnion<T(!new)>(a: set<T>, b: set<T>, f: T -> nat)
    requires a !! b
    ensures Sum(a + b, f) == Sum(a, f) + Sum(b, f)
    decreases a
  {
    if a == {} {
      assert a + b == b;
    } else {
      var x := Pick(a);
      SumRemove(a + b, f, x);
      assert a + b - {x} == (a - {x}) + b;
      SumUnion(a - {x}, b, f);
    }
  }

  lemma SumSplit<T(!new)>(part: set<T>, whole: set<T>, f: T -> nat)
    requires part <= whole
    ensures Sum(whole, f) == Sum(part, f) + Sum(whole - part, f)
  {
    assert part + (whole - part) == whole;
    SumUnion(part, whole - part, f);
  }

  lemma {:induction false} SumAgree<T(!new)>(s: set<T>, f: T -> nat, g: T -> nat)
    requires forall x :: x in s ==> f(x) == g(x)
    ensures Sum(s, f) == Sum(s, g)
    decreases s
  {
    if s != {} {
      SumAgree(s - {Pick(s)}, f, g);
    }
  }

  lemma {:induction false} SumAdd<T(!new)>(s: set<T>, f: T -> nat, g: T -> nat, h: T -> nat)
    requires forall x :: x in s ==> h(x) == f(x) + g(x)
    ensures Sum(s, h) == Sum(s, f) + Sum(s, g)
    decreases s
  {
    if s != {} {
      SumAdd(s - {Pick(s)}, f, g, h);
    }
  }

  lemma {:induction false} SumConst<T(!new)>(s: set<T>, f: T -> nat, c: nat)
    requires forall x :: x in s ==> f(x) == c
    ensures Sum(s, f) == c * |s|
    decreases s
  {
    if s != {} {
      SumConst(s - {Pick(s)}, f, c);
    }
  }

  ghost function Image<T(!new), U>(s: set<T>, h: T -> U): set<U> {
    set x | x in s :: h(x)
  }

  /** Summing over the image of an injective map. */
  lemma {:induction false} SumImage<T(!new), U(!new)>(s: set<T>, h: T -> U, f: U -> nat, g: T -> nat)
    requires forall x, y :: x in s && y in s && h(x) == h(y) ==> x == y
    requires forall x :: x in s ==> g(x) == f(h(x))
    ensures Sum(Image(s, h), f) == Sum(s, g)
    ensures |Image(s, h)| == |s|
    decreases s
  {
    var image := Image(s, h);
    if s != {} {
      var x := Pick(s);
      SumImage(s - {x}, h, f, g);
      SumRemove(image, f, h(x));
      assert image - {h(x)} == Image(s - {x}, h);
    }
  }

  ghost function Class<T(!new), K>(s: set<T>, key: T -> K, k: K): set<T> {
    set x | x in s && key(x) == k
  }

  /** Summing class by class gives the sum over the whole set. */
  lemma {:induction false} SumGroup<T(!new), K(!new)>(
    s: set<T>, keys: set<K>, key: T -> K, f: T -> nat, g: K -> nat)
    requires forall x :: x in s ==> key(x) in keys
    requires forall k :: k in keys ==> g(k) == Sum(Class(s, key, k), f)
    ensures Sum(s, f) == Sum(keys, g)
    decreases keys
  {
    if keys != {} {
      var k := Pick(keys);
      var part := Class(s, key, k);
      var rest := s - part;
      SumSplit(part, s, f);
      forall j | j in keys - {k}
        ensures g(j) == Sum(Class(rest, key, j), f)
      {
        assert Class(rest, key, j) == Class(s, key, j);
      }
      SumGroup(rest, keys - {k}, key, f, g);
    }
  }
}
