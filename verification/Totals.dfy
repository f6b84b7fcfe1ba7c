/** Totals of count tables, and how they split by label. */
module Totals {
  import opened Placement

  ghost function Some(m: map<nat, nat>): (p: nat)
    requires |m| > 0
    ensures p in m
  {
    var p :| p in m; p
  }

  ghost function Total(m: map<nat, nat>): nat {
    if |m| == 0 then 0 else m[Some(m)] + Total(m - {Some(m)})
  }

  lemma TotalFirst(m: map<nat, nat>, q: nat)
    requires |m| > 0 && q == Some(m)
    ensures Total(m) == m[q] + Total(m - {q})
  {}

  /** The total does not depend on the order of summation. */
  lemma {:induction false} TotalOut(m: map<nat, nat>, p: nat)
    requires p in m
    ensures Total(m) == m[p] + Total(m - {p})
    decreases |m|
  {
    hide Total;
    var q := Some(m);
    TotalFirst(m, q);
    if q != p {
      TotalOut(m - {q}, p);
      TotalOut(m - {p}, q);
      assert m - {q} - {p} == m - {p} - {q};
    }
  }

  lemma TotalPut(m: map<nat, nat>, p: nat, count: nat)
    ensures Total(m[p := count]) + Get(m, p) == Total(m) + count
  {
    hide Total;
    TotalOut(m[p := count], p);
    if p in m {
      TotalOut(m, p);
      assert m[p := count] - {p} == m - {p};
    } else {
      assert m[p := count] - {p} == m;
    }
  }

  lemma TotalNone(m: map<nat, nat>)
    requires |m| == 0
    ensures Total(m) == 0 && m == map[]
  {}

  lemma UnionWithout(a: map<nat, nat>, b: map<nat, nat>, p: nat)
    requires a.Keys !! b.Keys && p in b
    ensures p in a + b && (a + b)[p] == b[p] && (a + b) - {p} == a + (b - {p}) && a.Keys !! (b - {p}).Keys && |b - {p}| < |b|
  {
    assert p in b.Keys;
    assert p !in a;
    assert (b - {p}).Keys == b.Keys - {p};
  }

  lemma {:induction false} TotalUnion(a: map<nat, nat>, b: map<nat, nat>)
    requires a.Keys !! b.Keys
    ensures Total(a + b) == Total(a) + Total(b)
    decreases |b|
  {
    hide Total;
    if |b| == 0 {
      TotalNone(b);
      assert a + b == a;
    } else {
      var p := Some(b);
      UnionWithout(a, b, p);
      TotalOut(b, p);
      TotalOut(a + b, p);
      TotalUnion(a, b - {p});
    }
  }

  lemma {:induction false} TotalOfSum(m: map<nat, nat>, a: map<nat, nat>, b: map<nat, nat>)
    requires m.Keys == a.Keys == b.Keys && forall p :: p in m ==> m[p] == a[p] + b[p]
    ensures Total(m) == Total(a) + Total(b)
    decreases |m|
  {
    hide Total;
    if |m| > 0 {
      var p := Some(m);
      assert p in m.Keys;
      TotalOut(m, p);
      TotalOut(a, p);
      TotalOut(b, p);
      TotalOfSum(m - {p}, a - {p}, b - {p});
    } else {
      assert |m.Keys| == |a.Keys| == |b.Keys| == 0;
      TotalNone(m);
      TotalNone(a);
      TotalNone(b);
    }
  }

  /** The totals of the first `n` tables together. */
  ghost function TotalTo(ms: seq<map<nat, nat>>, n: nat): nat
    requires n <= |ms|
  {
    if n == 0 then 0 else TotalTo(ms, n - 1) + Total(ms[n - 1])
  }

  lemma {:induction false} TotalToPut(ms: seq<map<nat, nat>>, j: nat, m: map<nat, nat>, n: nat)
    requires j < |ms| && n <= |ms|
    ensures TotalTo(ms[j := m], n) + (if j < n then Total(ms[j]) else 0) == TotalTo(ms, n) + (if j < n then Total(m) else 0)
  {
    hide Total;
    if n > 0 { TotalToPut(ms, j, m, n - 1); }
  }

  /******* By label *******/

  /** The part of a table whose pages have a label in `X`. */
  ghost function Select<L(!new)>(w: map<nat, nat>, labels: map<nat, L>, X: set<L>): map<nat, nat> {
    map p | p in w && p in labels && labels[p] in X :: w[p]
  }

  /** What the first `n` tables hold under the labels in `X`. */
  ghost function Mass<L(!new)>(w: seq<map<nat, nat>>, labels: seq<map<nat, L>>, X: set<L>, n: nat): nat
    requires n <= |w| == |labels|
  {
    if n == 0 then 0 else Mass(w, labels, X, n - 1) + Total(Select(w[n - 1], labels[n - 1], X))
  }

  lemma SelectSplit<L(!new)>(w: map<nat, nat>, labels: map<nat, L>, X: set<L>, Y: set<L>)
    requires X !! Y
    ensures Total(Select(w, labels, X + Y)) == Total(Select(w, labels, X)) + Total(Select(w, labels, Y))
  {
    hide Total;
    var a, b := Select(w, labels, X), Select(w, labels, Y);
    assert Select(w, labels, X + Y) == a + b;
    TotalUnion(a, b);
  }

  lemma {:induction false} MassSplit<L(!new)>(w: seq<map<nat, nat>>, labels: seq<map<nat, L>>, X: set<L>, Y: set<L>, n: nat)
    requires n <= |w| == |labels| && X !! Y
    ensures Mass(w, labels, X + Y, n) == Mass(w, labels, X, n) + Mass(w, labels, Y, n)
  {
    hide Total;
    if n > 0 {
      MassSplit(w, labels, X, Y, n - 1);
      SelectSplit(w[n - 1], labels[n - 1], X, Y);
      hide Select;
    }
  }

  /** Two ways of labelling that select the same pages select the same mass. */
  lemma {:induction false} MassRegroup<L(!new), M(!new)>(
      w: seq<map<nat, nat>>, labels: seq<map<nat, L>>, X: set<L>, labels': seq<map<nat, M>>, Y: set<M>, n: nat)
    requires n <= |w| == |labels| == |labels'|
    requires forall i, p :: 0 <= i < n && p in w[i] ==> p in labels[i] && p in labels'[i] && (labels[i][p] in X <==> labels'[i][p] in Y)
    ensures Mass(w, labels, X, n) == Mass(w, labels', Y, n)
  {
    hide Total;
    if n > 0 {
      MassRegroup(w, labels, X, labels', Y, n - 1);
      assert Select(w[n - 1], labels[n - 1], X) == Select(w[n - 1], labels'[n - 1], Y);
    }
  }

  /** Labels that are all in `X` select everything. */
  lemma {:induction false} MassAll<L(!new)>(w: seq<map<nat, nat>>, labels: seq<map<nat, L>>, X: set<L>, n: nat)
    requires n <= |w| == |labels|
    requires forall i, p :: 0 <= i < n && p in w[i] ==> p in labels[i] && labels[i][p] in X
    ensures Mass(w, labels, X, n) == TotalTo(w, n)
  {
    hide Total;
    if n > 0 {
      MassAll(w, labels, X, n - 1);
      assert Select(w[n - 1], labels[n - 1], X) == w[n - 1];
    }
  }

  lemma {:induction false} MassOfSum<L(!new)>(
      m: seq<map<nat, nat>>, a: seq<map<nat, nat>>, b: seq<map<nat, nat>>, labels: seq<map<nat, L>>, X: set<L>, n: nat)
    requires n <= |m| == |a| == |b| == |labels|
    requires forall i :: 0 <= i < n ==> m[i].Keys == a[i].Keys == b[i].Keys
    requires forall i, p :: 0 <= i < n && p in m[i] ==> m[i][p] == Get(a[i], p) + Get(b[i], p)
    ensures Mass(m, labels, X, n) == Mass(a, labels, X, n) + Mass(b, labels, X, n)
  {
    hide Total;
    if n > 0 {
      MassOfSum(m, a, b, labels, X, n - 1);
      var i := n - 1;
      assert forall p :: (p in m[i].Keys <==> p in a[i].Keys) && (p in m[i].Keys <==> p in b[i].Keys);
      TotalOfSum(Select(m[i], labels[i], X), Select(a[i], labels[i], X), Select(b[i], labels[i], X));
    }
  }
}
