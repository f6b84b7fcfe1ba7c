/** Recency lists, most recent line first, and least-recently-used replacement on them. */
module Recency {
  import opened Mesi
  import opened Counting

  function Remove(q: seq<U64>, l: U64): (r: seq<U64>)
    ensures |r| <= |q|
  {
    if |q| == 0 then []
    else if q[|q| - 1] == l then Remove(q[..|q| - 1], l)
    else Remove(q[..|q| - 1], l) + [q[|q| - 1]]
  }

  function Take(q: seq<U64>, n: nat): seq<U64> {
    if |q| <= n then q else q[..n]
  }

  /** Move or add `l` to the front of a list of at most `ways` lines. */
  function Touch(q: seq<U64>, l: U64, ways: nat): seq<U64>
    requires ways > 0
  {
    [l] + Take(Remove(q, l), ways - 1)
  }

  lemma {:induction false} RemoveIs(q: seq<U64>, l: U64)
    requires NoDup(q)
    ensures NoDup(Remove(q, l))
    ensures forall x :: x in Remove(q, l) <==> x in q && x != l
    ensures |Remove(q, l)| == |q| - (if l in q then 1 else 0)
  {
    if |q| > 0 {
      var n := |q| - 1;
      RemoveIs(q[..n], l);
      assert q == q[..n] + [q[n]];
      AllButLast(q, q[n]);
      Append(Remove(q[..n], l), q[n]);
    }
  }

  lemma Append(q: seq<U64>, x: U64)
    requires NoDup(q)
    ensures x !in q ==> NoDup(q + [x])
  {}

  /** A subsequence that keeps the order: `f` maps its positions to those of `q`. */
  lemma {:induction false} RemoveOrder(q: seq<U64>, l: U64) returns (f: seq<nat>)
    ensures |f| == |Remove(q, l)|
    ensures forall i :: 0 <= i < |f| ==> f[i] < |q| && Remove(q, l)[i] == q[f[i]]
    ensures forall i, j :: 0 <= i < j < |f| ==> f[i] < f[j]
  {
    if |q| == 0 {
      f := [];
    } else {
      var n := |q| - 1;
      f := RemoveOrder(q[..n], l);
      if q[n] != l { f := f + [n]; }
    }
  }

  lemma {:induction false} RemoveAbsent(q: seq<U64>, l: U64)
    requires l !in q
    ensures Remove(q, l) == q
  {
    if |q| > 0 {
      RemoveAbsent(q[..|q| - 1], l);
      assert q[|q| - 1] in q;
    }
  }

  lemma AllButLast(q: seq<U64>, x: U64)
    requires NoDup(q) && |q| > 0
    ensures x in q[..|q| - 1] <==> x in q && x != q[|q| - 1]
  {}

  lemma {:induction false} RemovePrefix(p: seq<U64>, q: seq<U64>, l: U64)
    requires p <= q
    ensures Remove(p, l) <= Remove(q, l)
  {
    if |p| < |q| {
      assert p <= q[..|q| - 1];
      RemovePrefix(p, q[..|q| - 1], l);
    } else {
      assert p == q;
    }
  }

  /** More ways keep a longer list, and the shorter one is its beginning. */
  lemma TouchPrefix(p: seq<U64>, q: seq<U64>, l: U64, few: nat, many: nat)
    requires p <= q && 0 < few <= many
    ensures Touch(p, l, few) <= Touch(q, l, many)
  {
    RemovePrefix(p, q, l);
    var a, b := Remove(p, l), Remove(q, l);
    assert Take(a, few - 1) <= Take(b, many - 1);
  }
}
