/** Counting facts about finite sets and duplicate-free sequences. */
module Counting {

  /** A bijection preserves the number of elements. */
  lemma {:induction false} SameSize<A, B>(xs: set<A>, ys: set<B>, f: map<A, B>)
    requires f.Keys == xs && f.Values == ys
    requires forall a, b :: a in xs && b in xs && f[a] == f[b] ==> a == b
    ensures |xs| == |ys|
  {
    if xs == {} {
      assert ys == {};
    } else {
      var a :| a in xs;
      var g := map x | x in xs && x != a :: f[x];
      assert g.Values == ys - {f[a]} by {
        forall y | y in ys - {f[a]} ensures y in g.Values { var x :| x in f && f[x] == y; assert g[x] == y; }
      }
      SameSize(xs - {a}, ys - {f[a]}, g);
    }
  }

  lemma Without<T>(s: set<T>, l: T)
    ensures |s| == |s - {l}| + (if l in s then 1 else 0)
  {}

  lemma Minus<T>(s: set<T>, g: set<T>)
    requires g <= s
    ensures |s - g| + |g| == |s|
  {}

  ghost predicate NoDup<T>(q: seq<T>) {
    forall i, j :: 0 <= i < j < |q| ==> q[i] != q[j]
  }

  function Elements<T(==)>(q: seq<T>): set<T> {
    set x | x in q
  }

  lemma {:induction false} NoDupSize<T>(q: seq<T>)
    requires NoDup(q)
    ensures |Elements(q)| == |q|
  {
    if |q| > 0 {
      var n := |q| - 1;
      NoDupSize(q[..n]);
      assert Elements(q) == Elements(q[..n]) + {q[n]};
    } else {
      assert Elements(q) == {};
    }
  }

  /** The numbers below `n`. */
  function UpTo(n: nat): (r: set<nat>)
    ensures forall w: nat :: w in r <==> w < n
    ensures |r| == n
  {
    if n == 0 then {} else UpTo(n - 1) + {n - 1}
  }
}
