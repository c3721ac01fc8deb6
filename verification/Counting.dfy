/** Sizes of finite sets. */
module Counting {
  import opened Shared

  lemma {:induction false} SubsetSize<T>(a: set<T>, b: set<T>)
    requires a <= b
    ensures |a| <= |b|
  {
    if a != {} {
      var x :| x in a;
      SubsetSize(a - {x}, b - {x});
    }
  }

  lemma OneMore<T>(a: set<T>, x: T, b: set<T>)
    requires x !in a && b == a + {x}
    ensures |b| == |a| + 1
  {}

  /** A set of naturals below `n` has at most `n` elements. */
  lemma {:induction false} BelowSize(a: set<nat>, n: nat)
    requires forall v :: v in a ==> v < n
    ensures |a| <= n
  {
    if n == 0 {
      assert a == {};
    } else {
      BelowSize(a - {n - 1}, n - 1);
      if n - 1 in a {
        assert |a - {n - 1}| == |a| - 1;
      } else {
        assert a - {n - 1} == a;
      }
    }
  }

  function Image<A, B>(a: set<A>, f: A -> B): set<B> {
    set x | x in a :: f(x)
  }

  lemma {:induction false} ImageSize<A, B>(a: set<A>, f: A -> B)
    requires forall x, y :: x in a && y in a && f(x) == f(y) ==> x == y
    ensures |Image(a, f)| == |a|
  {
    if a != {} {
      var x :| x in a;
      ImageSize(a - {x}, f);
      assert Image(a, f) == Image(a - {x}, f) + {f(x)};
    }
  }

  /** An injection into the naturals below `n` bounds the size by `n`. */
  lemma PigeonHole<A>(a: set<A>, f: A -> nat, n: nat)
    requires forall x, y :: x in a && y in a && f(x) == f(y) ==> x == y
    requires forall x :: x in a ==> f(x) < n
    ensures |a| <= n
  {
    ImageSize(a, f);
    BelowSize(Image(a, f), n);
  }

  lemma {:induction false} DistinctSize<T>(l: seq<T>)
    requires Distinct(l)
    ensures |set x | x in l| == |l|
  {
    if l != [] {
      var init := l[..|l| - 1];
      DistinctSize(init);
      assert l == init + [l[|l| - 1]];
      assert (set x | x in l) == (set x | x in init) + {l[|l| - 1]};
    }
  }
}
