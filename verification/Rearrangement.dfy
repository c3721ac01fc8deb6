/** Positions that move forward and are then sorted: what ends up where. */
module Rearrangement {
  import opened Shared

  predicate Sorted(s: seq<nat>) {
    forall i, j :: 0 <= i < j < |s| ==> s[i] <= s[j]
  }

  /** Every position is sent to itself or further on. */
  predicate Forward(to: seq<nat>) {
    forall k :: 0 <= k < |to| ==> k <= to[k] < |to|
  }

  /** How many entries are below `m`. */
  function Below(s: seq<nat>, m: nat): (n: nat)
    ensures n <= |s|
  {
    if s == [] then 0 else Below(s[..|s| - 1], m) + if s[|s| - 1] < m then 1 else 0
  }

  lemma {:induction false} BelowConcat(a: seq<nat>, b: seq<nat>, m: nat)
    ensures Below(a + b, m) == Below(a, m) + Below(b, m)
  {
    if b == [] {
      assert a + b == a;
    } else {
      var init := b[..|b| - 1];
      BelowConcat(a, init, m);
      assert (a + b)[..|a + b| - 1] == a + init;
    }
  }

  lemma BelowOne(x: nat, m: nat)
    ensures Below([x], m) == if x < m then 1 else 0
  {
    assert [x][..0] == [];
  }

  lemma SplitOut<T>(s: seq<T>, j: nat)
    requires j < |s|
    ensures multiset(s) == multiset(s[..j] + s[j + 1..]) + multiset{s[j]}
  {
    assert s == s[..j] + [s[j]] + s[j + 1..];
  }

  /** Where the last element of one list is in a reordered one. */
  lemma MatchLast<T>(a: seq<T>, b: seq<T>) returns (j: nat)
    requires multiset(a) == multiset(b) && a != []
    ensures j < |b| && b[j] == a[|a| - 1] && multiset(a[..|a| - 1]) == multiset(b[..j] + b[j + 1..])
  {
    var init, x := a[..|a| - 1], a[|a| - 1];
    assert a == init + [x];
    assert x in multiset(b);
    j :| 0 <= j < |b| && b[j] == x;
    SplitOut(b, j);
    assert multiset(a) == multiset(init) + multiset{x};
    assert multiset(init) == multiset(a) - multiset{x};
  }

  function Mapped<A, B>(f: A -> B, s: seq<A>): (r: seq<B>)
    ensures |r| == |s| && forall k :: 0 <= k < |s| ==> r[k] == f(s[k])
  {
    seq(|s|, k requires 0 <= k < |s| => f(s[k]))
  }

  /** Applying a function to reordered lists gives reordered lists. */
  lemma {:induction false} MappedPermutes<A, B>(f: A -> B, a: seq<A>, b: seq<A>)
    requires multiset(a) == multiset(b)
    ensures multiset(Mapped(f, a)) == multiset(Mapped(f, b))
    decreases |a|
  {
    if a == [] {
      assert |multiset(b)| == 0;
    } else {
      var n := |a| - 1;
      var j := MatchLast(a, b);
      MappedPermutes(f, a[..n], b[..j] + b[j + 1..]);
      assert a[..n] == a[..n] + a[n + 1..];
      MappedWithout(f, a, n);
      MappedWithout(f, b, j);
    }
  }

  lemma MappedWithout<A, B>(f: A -> B, s: seq<A>, j: nat)
    requires j < |s|
    ensures multiset(Mapped(f, s)) == multiset(Mapped(f, s[..j] + s[j + 1..])) + multiset{f(s[j])}
  {
    var m := Mapped(f, s);
    SplitOut(m, j);
    assert Mapped(f, s[..j] + s[j + 1..]) == m[..j] + m[j + 1..];
  }

  /** Counting does not depend on the order. */
  lemma {:induction false} BelowPermutes(a: seq<nat>, b: seq<nat>, m: nat)
    requires multiset(a) == multiset(b)
    ensures Below(a, m) == Below(b, m)
    decreases |a|
  {
    if a == [] {
      assert |multiset(b)| == 0;
    } else {
      var init, x := a[..|a| - 1], a[|a| - 1];
      var j := MatchLast(a, b);
      assert b == b[..j] + [x] + b[j + 1..];
      BelowPermutes(init, b[..j] + b[j + 1..], m);
      BelowConcat(b[..j], b[j + 1..], m);
      BelowConcat(b[..j] + [x], b[j + 1..], m);
      BelowConcat(b[..j], [x], m);
      BelowOne(x, m);
    }
  }

  /** In a sorted list the entries below `m` come first. */
  lemma {:induction false} SortedBelow(s: seq<nat>, m: nat, k: nat)
    requires Sorted(s) && k < |s|
    ensures s[k] < m <==> k < Below(s, m)
  {
    var init, last := s[..|s| - 1], s[|s| - 1];
    if k < |init| {
      SortedBelow(init, m, k);
    }
    if last < m {
      AllBelow(init, m);
    }
  }

  lemma {:induction false} AllBelow(s: seq<nat>, m: nat)
    ensures (forall k :: 0 <= k < |s| ==> s[k] < m) ==> Below(s, m) == |s|
  {
    if s != [] {
      AllBelow(s[..|s| - 1], m);
    }
  }

  /** Some position before `m` is sent to `m` or beyond. */
  predicate Crossed(to: seq<nat>, m: nat) {
    exists i :: 0 <= i < m && i < |to| && m <= to[i]
  }

  lemma {:induction false} BelowIff(to: seq<nat>, m: nat, k: nat)
    requires Forward(to) && m <= |to| && k <= |to|
    ensures Below(to[..k], m) <= Min(k, m)
    ensures Below(to[..k], m) == Min(k, m) <==> forall i :: 0 <= i < Min(k, m) ==> to[i] < m
  {
    if k > 0 {
      BelowIff(to, m, k - 1);
      assert to[..k][..k - 1] == to[..k - 1];
    }
  }

  lemma BelowAll(to: seq<nat>, m: nat)
    requires Forward(to) && m <= |to|
    ensures Below(to, m) <= m
    ensures Below(to, m) == m <==> !Crossed(to, m)
  {
    BelowIff(to, m, |to|);
    assert to[..|to|] == to;
  }

  /** `at` lists in order where the positions are sent. */
  predicate Arranges(to: seq<nat>, at: seq<nat>) {
    |at| == |to| && Forward(to) && Sorted(at) && multiset(at) == multiset(to)
  }

  /** The k-th entry is below `m` exactly if more than k positions are sent below `m`. */
  lemma ArrangedIff(to: seq<nat>, at: seq<nat>, m: nat, k: nat)
    requires Arranges(to, at) && k < |at|
    ensures at[k] < m <==> k < Below(to, m)
  {
    BelowPermutes(at, to, m);
    SortedBelow(at, m, k);
  }

  /** No entry moves back, and it moves across crossed places only. */
  lemma ArrangedForward(to: seq<nat>, at: seq<nat>, k: nat)
    requires Arranges(to, at) && k < |at|
    ensures k <= at[k] < |at|
    ensures forall m :: k < m <= at[k] ==> Crossed(to, m)
  {
    ArrangedIff(to, at, k, k);
    BelowAll(to, k);
    ArrangedIff(to, at, |to|, k);
    BelowAll(to, |to|);
    forall m | k < m <= at[k]
      ensures Crossed(to, m)
    {
      ArrangedIff(to, at, m, k);
      BelowAll(to, m);
    }
  }

  /** Neighbours across every crossed place are the same. */
  predicate Smooth<T(==)>(to: seq<nat>, data: seq<T>)
    requires |data| == |to|
  {
    forall m :: 0 < m < |to| && Crossed(to, m) ==> data[m] == data[m - 1]
  }

  lemma {:induction false} SmoothRun<T>(to: seq<nat>, data: seq<T>, k: nat, n: nat)
    requires |data| == |to| && Smooth(to, data) && k <= n < |to| && forall m :: k < m <= n ==> Crossed(to, m)
    ensures data[n] == data[k]
  {
    if k < n {
      SmoothRun(to, data, k, n - 1);
    }
  }

  /** The first place after `k` that nothing crosses. */
  lemma {:induction false} NextUncrossed(to: seq<nat>, k: nat) returns (b: nat)
    requires Forward(to) && k < |to|
    ensures k < b <= |to| && !Crossed(to, b) && forall m :: k < m < b ==> Crossed(to, m)
    decreases |to| - k
  {
    if k + 1 == |to| || !Crossed(to, k + 1) {
      b := k + 1;
    } else {
      b := NextUncrossed(to, k + 1);
    }
  }

  predicate Unmoved<T(==)>(at: seq<nat>, data: seq<T>)
    requires |data| == |at|
  {
    forall k :: 0 <= k < |at| && at[k] < |at| ==> data[at[k]] == data[k]
  }

  lemma {:induction false} UnmovedRun<T>(to: seq<nat>, at: seq<nat>, data: seq<T>, k: nat, b: nat)
    requires Arranges(to, at) && |data| == |to| && Unmoved(at, data)
    requires k < b <= |to| && !Crossed(to, b) && forall m :: k < m < b ==> Crossed(to, m)
    ensures data[k] == data[b - 1]
    decreases b - k
  {
    if k + 1 < b {
      assert Crossed(to, k + 1);
      BelowAll(to, k + 1);
      ArrangedIff(to, at, k + 1, k);
      BelowAll(to, b);
      ArrangedIff(to, at, b, k);
      UnmovedRun(to, at, data, at[k], b);
    }
  }

  /** Reading the data at the sorted places gives every position its own data exactly if
      neighbours across every crossed place are the same. */
  lemma UnmovedIff<T>(to: seq<nat>, at: seq<nat>, data: seq<T>)
    requires Arranges(to, at) && |data| == |to|
    ensures Unmoved(at, data) <==> Smooth(to, data)
  {
    if Smooth(to, data) {
      forall k | 0 <= k < |at| && at[k] < |at|
        ensures data[at[k]] == data[k]
      {
        ArrangedForward(to, at, k);
        SmoothRun(to, data, k, at[k]);
      }
    }
    if Unmoved(at, data) {
      forall m | 0 < m < |to| && Crossed(to, m)
        ensures data[m] == data[m - 1]
      {
        var b := NextUncrossed(to, m - 1);
        UnmovedRun(to, at, data, m - 1, b);
        UnmovedRun(to, at, data, m, b);
      }
    }
  }
}
