/** Sums of integer weights over finite sets, and the option type the other modules share. */
module Sums {

  datatype Option<+T> = None | Some(value: T)

  /** The sum of the weights of the elements of a set, taken in an unspecified order. */
  ghost function Sum<T(!new)>(s: set<T>, w: T -> int): int {
    if s == {} then 0 else
      var x :| x in s;
      w(x) + Sum(s - {x}, w)
  }

  /** Any element may be taken out first: the order of summation is immaterial. */
  lemma {:induction false} SumPick<T(!new)>(s: set<T>, w: T -> int, x: T)
    requires x in s
    ensures Sum(s, w) == w(x) + Sum(s - {x}, w)
    decreases s
  {
    var y :| y in s && Sum(s, w) == w(y) + Sum(s - {y}, w);
    if y != x {
      SumPick(s - {y}, w, x);
      SumPick(s - {x}, w, y);
      assert s - {y} - {x} == s - {x} - {y};
    }
  }

  lemma SumAdd<T(!new)>(s: set<T>, w: T -> int, x: T)
    requires x !in s
    ensures Sum(s + {x}, w) == Sum(s, w) + w(x)
  {
    SumPick(s + {x}, w, x);
    assert s + {x} - {x} == s;
  }

  lemma {:induction false} SumUnion<T(!new)>(s: set<T>, t: set<T>, w: T -> int)
    requires s !! t
    ensures Sum(s + t, w) == Sum(s, w) + Sum(t, w)
    decreases t
  {
    if t == {} {
      assert s + t == s;
    } else {
      var x :| x in t;
      SumPick(t, w, x);
      SumPick(s + t, w, x);
      assert s + t - {x} == s + (t - {x});
      SumUnion(s, t - {x}, w);
    }
  }

  lemma {:induction false} SumSame<T(!new)>(s: set<T>, w: T -> int, v: T -> int)
    requires forall x :: x in s ==> w(x) == v(x)
    ensures Sum(s, w) == Sum(s, v)
    decreases s
  {
    if s != {} {
      var x :| x in s;
      SumPick(s, w, x);
      SumPick(s, v, x);
      SumSame(s - {x}, w, v);
    }
  }

  lemma {:induction false} SumNonNegative<T(!new)>(s: set<T>, w: T -> int)
    requires forall x :: x in s ==> w(x) >= 0
    ensures Sum(s, w) >= 0
    ensures forall x :: x in s ==> w(x) <= Sum(s, w)
    decreases s
  {
    forall x | x in s ensures w(x) <= Sum(s, w) {
      SumPick(s, w, x);
      SumNonNegative(s - {x}, w);
    }
  }

  /** An injective map onto a set carries a sum over. */
  lemma {:induction false} SumImage<T(!new), U(!new)>(s: set<T>, w: T -> int, f: T -> U, image: set<U>, v: U -> int)
    requires forall x, y :: x in s && y in s && f(x) == f(y) ==> x == y
    requires forall x :: x in s ==> f(x) in image && w(x) == v(f(x))
    requires forall u :: u in image ==> exists x :: x in s && f(x) == u
    ensures Sum(s, w) == Sum(image, v)
    ensures |s| == |image|
    decreases s
  {
    if s != {} {
      var x :| x in s;
      SumPick(s, w, x);
      SumPick(image, v, f(x));
      SumImage(s - {x}, w, f, image - {f(x)}, v);
    }
  }
}
