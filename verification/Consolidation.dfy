/** From the threads' counts to the sockets' counts, and from those to the candidates, hottest first. */
module Consolidation {
  import opened Placement
  import opened LockedMerge
  import opened Totals

  const THREADS_PER_SOCKET: nat := 4

  function Add(m: map<nat, nat>, p: nat, count: nat): map<nat, nat> {
    m[p := Get(m, p) + count]
  }

  /** What the first `n` threads of socket `j` counted for a page. */
  function SocketSum(locals: seq<map<nat, nat>>, j: nat, p: nat, n: nat): nat
    requires n <= |locals|
  {
    if n == 0 then 0
    else SocketSum(locals, j, p, n - 1) + if (n - 1) / THREADS_PER_SOCKET == j then Get(locals[n - 1], p) else 0
  }

  /** Whether one of the first `n` threads is on socket `j` and knows the page. */
  predicate KnowsPage(locals: seq<map<nat, nat>>, j: nat, p: nat, n: nat)
    requires n <= |locals|
  {
    n > 0 && (KnowsPage(locals, j, p, n - 1) || ((n - 1) / THREADS_PER_SOCKET == j && p in locals[n - 1]))
  }

  lemma {:induction false} KnowsIs(locals: seq<map<nat, nat>>, j: nat, p: nat, n: nat)
    requires n <= |locals|
    ensures KnowsPage(locals, j, p, n) <==> exists t :: 0 <= t < n && t / THREADS_PER_SOCKET == j && p in locals[t]
  {
    if n > 0 {
      KnowsIs(locals, j, p, n - 1);
      if exists t :: 0 <= t < n && t / THREADS_PER_SOCKET == j && p in locals[t] {
        var t :| 0 <= t < n && t / THREADS_PER_SOCKET == j && p in locals[t];
      }
    }
  }

  /** What the first `m` sockets hold for a page. */
  function SumOverSockets(sockets: seq<map<nat, nat>>, p: nat, m: nat): nat
    requires m <= |sockets|
  {
    if m == 0 then 0 else SumOverSockets(sockets, p, m - 1) + Get(sockets[m - 1], p)
  }

  /** The sockets' counts are those of their threads, and know the same pages. */
  ghost predicate IsConsolidated(locals: seq<map<nat, nat>>, sockets: seq<map<nat, nat>>) {
    && |sockets| == N_SOCKETS
    && (forall j, p :: 0 <= j < N_SOCKETS ==> Get(sockets[j], p) == SocketSum(locals, j, p, |locals|))
    && (forall j, p :: 0 <= j < N_SOCKETS ==> (p in sockets[j] <==> KnowsPage(locals, j, p, |locals|)))
  }

  /** What the sockets hold after the threads below `i` and, of thread `i`, the pages of `done`. */
  ghost predicate Consolidating(locals: seq<map<nat, nat>>, sockets: seq<map<nat, nat>>, i: nat, done: set<nat>)
    requires i < |locals|
  {
    && |sockets| == N_SOCKETS
    && (forall j, p :: 0 <= j < N_SOCKETS ==>
          Get(sockets[j], p) == SocketSum(locals, j, p, i)
            + if i / THREADS_PER_SOCKET == j && p in done then Get(locals[i], p) else 0)
    && (forall j, p :: 0 <= j < N_SOCKETS ==>
          (p in sockets[j] <==> KnowsPage(locals, j, p, i) || (i / THREADS_PER_SOCKET == j && p in done)))
  }

  method Consolidate(locals: seq<map<nat, nat>>) returns (sockets: seq<map<nat, nat>>)
    requires |locals| <= N_SOCKETS * THREADS_PER_SOCKET
    ensures IsConsolidated(locals, sockets)
    ensures |sockets| == N_SOCKETS && TotalTo(sockets, N_SOCKETS) == TotalTo(locals, |locals|)
  {
    sockets := seq(N_SOCKETS, _ => map[]);
    NothingConsolidated(locals, sockets);
    hide IsConsolidated, Total;
    for i := 0 to |locals|
      invariant IsConsolidated(locals[..i], sockets)
      invariant |sockets| == N_SOCKETS && TotalTo(sockets, N_SOCKETS) == TotalTo(locals, i)
    {
      sockets := ConsolidateThread(locals, sockets, i);
    }
    assert locals[..|locals|] == locals;
  }

  /** Add the counts of thread `i` to its socket. */
  method ConsolidateThread(locals: seq<map<nat, nat>>, before: seq<map<nat, nat>>, i: nat) returns (sockets: seq<map<nat, nat>>)
    requires i < |locals| <= N_SOCKETS * THREADS_PER_SOCKET && |before| == N_SOCKETS && IsConsolidated(locals[..i], before)
    ensures IsConsolidated(locals[..i + 1], sockets)
    ensures |sockets| == N_SOCKETS && TotalTo(sockets, N_SOCKETS) == TotalTo(before, N_SOCKETS) + Total(locals[i])
  {
    hide IsConsolidated, Consolidating, Get, Total, TotalTo, Add;
    var j := i / THREADS_PER_SOCKET;
    var todo := locals[i].Keys;
    ghost var done: set<nat> := {};
    sockets := before;
    StartThread(locals, sockets, i);
    assert locals[i] - {} == locals[i];
    while todo != {}
      invariant todo <= locals[i].Keys && done == locals[i].Keys - todo
      invariant |sockets| == N_SOCKETS && Consolidating(locals, sockets, i, done)
      invariant TotalTo(sockets, N_SOCKETS) + Total(locals[i] - done) == TotalTo(before, N_SOCKETS) + Total(locals[i])
    {
      var p :| p in todo;
      OneMorePage(locals, sockets, i, done, p);
      OneMoreTotal(locals[i], sockets, j, done, p);
      sockets := sockets[j := Add(sockets[j], p, locals[i][p])];
      todo, done := todo - {p}, done + {p};
    }
    FinishThread(locals, sockets, i, done);
    AllDone(locals[i], done);
  }

  lemma NothingConsolidated(locals: seq<map<nat, nat>>, sockets: seq<map<nat, nat>>)
    requires |sockets| == N_SOCKETS && forall j :: 0 <= j < N_SOCKETS ==> sockets[j] == map[]
    ensures IsConsolidated(locals[..0], sockets) && TotalTo(sockets, N_SOCKETS) == 0
  {
    NoTotal(sockets, N_SOCKETS);
  }

  lemma {:induction false} NoTotal(sockets: seq<map<nat, nat>>, n: nat)
    requires n <= |sockets| && forall j :: 0 <= j < |sockets| ==> sockets[j] == map[]
    ensures TotalTo(sockets, n) == 0
  {
    if n > 0 { NoTotal(sockets, n - 1); }
  }

  lemma AllDone(m: map<nat, nat>, done: set<nat>)
    requires m.Keys <= done
    ensures Total(m - done) == 0
  {}

  /** Moving a page's count from a thread to a socket keeps the total. */
  lemma OneMoreTotal(m: map<nat, nat>, sockets: seq<map<nat, nat>>, j: nat, done: set<nat>, p: nat)
    requires j < |sockets| && p in m && p !in done
    ensures TotalTo(sockets[j := Add(sockets[j], p, m[p])], |sockets|) + Total(m - (done + {p}))
         == TotalTo(sockets, |sockets|) + Total(m - done)
  {
    hide Total;
    TotalPut(sockets[j], p, Get(sockets[j], p) + m[p]);
    TotalToPut(sockets, j, Add(sockets[j], p, m[p]), |sockets|);
    TotalOut(m - done, p);
    assert m - done - {p} == m - (done + {p});
  }

  lemma {:induction false} SocketSumPrefix(locals: seq<map<nat, nat>>, j: nat, p: nat, n: nat, i: nat)
    requires n <= i <= |locals|
    ensures SocketSum(locals[..i], j, p, n) == SocketSum(locals, j, p, n)
    ensures KnowsPage(locals[..i], j, p, n) == KnowsPage(locals, j, p, n)
  {
    if n > 0 { SocketSumPrefix(locals, j, p, n - 1, i); }
  }

  lemma StartThread(locals: seq<map<nat, nat>>, sockets: seq<map<nat, nat>>, i: nat)
    requires i < |locals| && IsConsolidated(locals[..i], sockets)
    ensures Consolidating(locals, sockets, i, {})
  {
    forall j, p
      ensures SocketSum(locals[..i], j, p, i) == SocketSum(locals, j, p, i) && KnowsPage(locals[..i], j, p, i) == KnowsPage(locals, j, p, i)
    {
      SocketSumPrefix(locals, j, p, i, i);
    }
    hide SocketSum, KnowsPage;
  }

  lemma OneMorePage(locals: seq<map<nat, nat>>, sockets: seq<map<nat, nat>>, i: nat, done: set<nat>, p: nat)
    requires i < |locals| <= N_SOCKETS * THREADS_PER_SOCKET && Consolidating(locals, sockets, i, done)
    requires p in locals[i] && p !in done
    ensures var j := i / THREADS_PER_SOCKET;
      Consolidating(locals, sockets[j := Add(sockets[j], p, locals[i][p])], i, done + {p})
  {}

  lemma FinishThread(locals: seq<map<nat, nat>>, sockets: seq<map<nat, nat>>, i: nat, done: set<nat>)
    requires i < |locals| && Consolidating(locals, sockets, i, done) && done == locals[i].Keys
    ensures IsConsolidated(locals[..i + 1], sockets)
  {
    var upto := locals[..i + 1];
    assert |upto| == i + 1 && upto[i] == locals[i];
    forall j, p
      ensures SocketSum(upto, j, p, |upto|)
           == SocketSum(locals, j, p, i) + if i / THREADS_PER_SOCKET == j then Get(locals[i], p) else 0
      ensures KnowsPage(upto, j, p, |upto|) <==> KnowsPage(locals, j, p, i) || (i / THREADS_PER_SOCKET == j && p in locals[i])
    {
      SocketSumPrefix(locals, j, p, i, i + 1);
    }
    hide SocketSum, KnowsPage;
    forall j, p | 0 <= j < N_SOCKETS ensures Get(sockets[j], p) == SocketSum(upto, j, p, |upto|) {
      assert p in done <==> p in locals[i];
    }
  }

  /******* Conservation *******/

  lemma {:induction false} SocketsAddUp(locals: seq<map<nat, nat>>, p: nat, n: nat, m: nat)
    requires n <= |locals| <= N_SOCKETS * THREADS_PER_SOCKET && m <= N_SOCKETS
    ensures SumOfSockets(locals, p, n, m) == SumBelow(locals, p, n, m)
    decreases m, n
  {
    if m > 0 {
      SocketsAddUp(locals, p, n, m - 1);
      OneMoreSocket(locals, p, n, m);
    } else {
      NoSocket(locals, p, n);
    }
  }

  /** The sums of the first `m` sockets, over the first `n` threads. */
  function SumOfSockets(locals: seq<map<nat, nat>>, p: nat, n: nat, m: nat): nat
    requires n <= |locals|
  {
    if m == 0 then 0 else SumOfSockets(locals, p, n, m - 1) + SocketSum(locals, m - 1, p, n)
  }

  /** What those of the first `n` threads counted that are on the first `m` sockets. */
  function SumBelow(locals: seq<map<nat, nat>>, p: nat, n: nat, m: nat): nat
    requires n <= |locals|
  {
    if n == 0 then 0
    else SumBelow(locals, p, n - 1, m) + if (n - 1) / THREADS_PER_SOCKET < m then Get(locals[n - 1], p) else 0
  }

  lemma {:induction false} NoSocket(locals: seq<map<nat, nat>>, p: nat, n: nat)
    requires n <= |locals|
    ensures SumBelow(locals, p, n, 0) == 0
  {
    if n > 0 { NoSocket(locals, p, n - 1); }
  }

  lemma {:induction false} OneMoreSocket(locals: seq<map<nat, nat>>, p: nat, n: nat, m: nat)
    requires n <= |locals| && m > 0
    ensures SumBelow(locals, p, n, m) == SumBelow(locals, p, n, m - 1) + SocketSum(locals, m - 1, p, n)
  {
    if n > 0 { OneMoreSocket(locals, p, n - 1, m); }
  }

  lemma {:induction false} AllBelow(locals: seq<map<nat, nat>>, p: nat, n: nat)
    requires n <= |locals| <= N_SOCKETS * THREADS_PER_SOCKET
    ensures SumBelow(locals, p, n, N_SOCKETS) == SumOf(locals, p, n)
  {
    if n > 0 { AllBelow(locals, p, n - 1); }
  }

  lemma {:induction false} SameSums(locals: seq<map<nat, nat>>, sockets: seq<map<nat, nat>>, p: nat, m: nat)
    requires IsConsolidated(locals, sockets) && m <= N_SOCKETS
    ensures SumOverSockets(sockets, p, m) == SumOfSockets(locals, p, |locals|, m)
  {
    hide SocketSum;
    if m > 0 { SameSums(locals, sockets, p, m - 1); }
  }

  /** For every page, the sockets' counts add up to the threads' counts. */
  lemma ConsolidationConserves(locals: seq<map<nat, nat>>, sockets: seq<map<nat, nat>>, p: nat)
    requires |locals| <= N_SOCKETS * THREADS_PER_SOCKET && IsConsolidated(locals, sockets)
    ensures SumOverSockets(sockets, p, N_SOCKETS) == SumOf(locals, p, |locals|)
  {
    SameSums(locals, sockets, p, N_SOCKETS);
    SocketsAddUp(locals, p, |locals|, N_SOCKETS);
    AllBelow(locals, p, |locals|);
  }

  lemma {:induction false} SameCounts(locals: seq<map<nat, nat>>, locals': seq<map<nat, nat>>, p: nat, n: nat)
    requires n <= |locals| == |locals'| && forall t :: 0 <= t < |locals| ==> Get(locals[t], p) == Get(locals'[t], p)
    ensures SumOf(locals, p, n) == SumOf(locals', p, n)
  {
    if n > 0 { SameCounts(locals, locals', p, n - 1); }
  }

  /** The table that the threads fill under the lock, in whatever order, agrees with the sockets' counts. The tables
      that the threads add to it need not know the same pages as those that are consolidated, if only they count the
      same. */
  lemma SharedTableIsSocketSums(
      locals: seq<map<nat, nat>>, run: seq<State>, locals': seq<map<nat, nat>>, sockets: seq<map<nat, nat>>, p: nat)
    requires Behavior(locals, run) && Done(run[|run| - 1])
    requires |locals| == |locals'| <= N_SOCKETS * THREADS_PER_SOCKET && IsConsolidated(locals', sockets)
    requires forall t :: 0 <= t < |locals| ==> Get(locals[t], p) == Get(locals'[t], p)
    ensures Get(run[|run| - 1].shared, p) == SumOverSockets(sockets, p, N_SOCKETS)
  {
    hide IsConsolidated, SumOf, SumOverSockets;
    SocketCount(locals', sockets);
    ConsolidationConserves(locals', sockets, p);
    EveryInterleavingSums(locals, run, p);
    SameCounts(locals, locals', p, |locals|);
  }

  /******* Candidates *******/

  ghost predicate Sorted(cands: seq<(nat, nat)>) {
    forall a, b :: 0 <= a <= b < |cands| ==> cands[b].1 <= cands[a].1
  }

  ghost predicate Distinct(cands: seq<(nat, nat)>) {
    forall a, b :: 0 <= a < b < |cands| ==> cands[a].0 != cands[b].0
  }

  ghost predicate Lists(cands: seq<(nat, nat)>, m: map<nat, nat>, pages: set<nat>) {
    && (forall a :: 0 <= a < |cands| ==> cands[a].0 in pages && cands[a].1 == Get(m, cands[a].0))
    && (forall p :: p in pages ==> exists a :: 0 <= a < |cands| && cands[a].0 == p)
  }

  /** The counts of all sockets together. */
  method Join(sockets: seq<map<nat, nat>>) returns (joined: map<nat, nat>)
    ensures forall p :: Get(joined, p) == SumOverSockets(sockets, p, |sockets|)
    ensures forall p :: p in joined <==> exists j :: 0 <= j < |sockets| && p in sockets[j]
  {
    hide SumOverSockets;
    joined := map[];
    assert forall p :: SumOverSockets(sockets, p, 0) == 0 by { NothingJoined(sockets); }
    for j := 0 to |sockets|
      invariant forall p :: Get(joined, p) == SumOverSockets(sockets, p, j)
      invariant forall p :: p in joined <==> exists k :: 0 <= k < j && p in sockets[k]
    {
      var todo := sockets[j].Keys;
      while todo != {}
        invariant todo <= sockets[j].Keys
        invariant forall p :: Get(joined, p) == SumOverSockets(sockets, p, j) + if p in sockets[j] && p !in todo then sockets[j][p] else 0
        invariant forall p :: p in joined <==> (exists k :: 0 <= k < j && p in sockets[k]) || (p in sockets[j] && p !in todo)
      {
        var p :| p in todo;
        joined := joined[p := Get(joined, p) + sockets[j][p]];
        todo := todo - {p};
      }
      forall p ensures SumOverSockets(sockets, p, j + 1) == SumOverSockets(sockets, p, j) + Get(sockets[j], p) {
        OneMoreJoined(sockets, p, j);
      }
    }
  }

  lemma NothingJoined(sockets: seq<map<nat, nat>>)
    ensures forall p :: SumOverSockets(sockets, p, 0) == 0
  {}

  lemma OneMoreJoined(sockets: seq<map<nat, nat>>, p: nat, j: nat)
    requires j < |sockets|
    ensures SumOverSockets(sockets, p, j + 1) == SumOverSockets(sockets, p, j) + Get(sockets[j], p)
  {}

  /** Insert behind all candidates that are at least as hot. */
  method InsertCandidate(cands: seq<(nat, nat)>, p: nat, count: nat) returns (r: seq<(nat, nat)>, ghost k: nat)
    requires Sorted(cands)
    ensures k <= |cands| && r == cands[..k] + [(p, count)] + cands[k..]
    ensures Sorted(r)
  {
    var i := |cands|;
    while i > 0 && cands[i - 1].1 < count
      invariant 0 <= i <= |cands|
      invariant forall a :: i <= a < |cands| ==> cands[a].1 < count
    {
      i := i - 1;
    }
    r, k := cands[..i] + [(p, count)] + cands[i..], i;
  }

  lemma Inserted(cands: seq<(nat, nat)>, m: map<nat, nat>, pages: set<nat>, p: nat, k: nat)
    requires Distinct(cands) && Lists(cands, m, pages) && p !in pages && k <= |cands|
    ensures var r := cands[..k] + [(p, Get(m, p))] + cands[k..]; Distinct(r) && Lists(r, m, pages + {p})
  {
    hide Get;
    var r := cands[..k] + [(p, Get(m, p))] + cands[k..];
    InsertedAll(cands, m, pages, p, k, r);
  }

  lemma InsertedAll(cands: seq<(nat, nat)>, m: map<nat, nat>, pages: set<nat>, p: nat, k: nat, r: seq<(nat, nat)>)
    requires Lists(cands, m, pages) && p !in pages && k <= |cands| && |r| == |cands| + 1
    requires r[k] == (p, Get(m, p))
    requires forall a :: 0 <= a < k ==> r[a] == cands[a]
    requires forall a :: k < a < |r| ==> r[a] == cands[a - 1]
    ensures Distinct(cands) ==> Distinct(r)
    ensures Lists(r, m, pages + {p})
  {
    hide Get;
    forall q | q in pages + {p} ensures exists a :: 0 <= a < |r| && r[a].0 == q {
      if q == p {
        assert r[k].0 == q;
      } else {
        var a :| 0 <= a < |cands| && cands[a].0 == q;
        assert r[if a < k then a else a + 1].0 == q;
      }
    }
  }

  /** All touched pages with their counts, hottest first. */
  method SortCandidates(joined: map<nat, nat>) returns (cands: seq<(nat, nat)>)
    ensures Sorted(cands) && Distinct(cands) && Lists(cands, joined, joined.Keys)
  {
    hide Distinct, Lists;
    cands := [];
    var todo := joined.Keys;
    NoCandidates(joined);
    while todo != {}
      invariant todo <= joined.Keys
      invariant Sorted(cands) && Distinct(cands) && Lists(cands, joined, joined.Keys - todo)
    {
      var p :| p in todo;
      ghost var before, k := cands, 0;
      cands, k := InsertCandidate(cands, p, joined[p]);
      Inserted(before, joined, joined.Keys - todo, p, k);
      assert joined.Keys - todo + {p} == joined.Keys - (todo - {p});
      todo := todo - {p};
    }
    assert joined.Keys - todo == joined.Keys;
  }

  lemma NoCandidates(m: map<nat, nat>)
    ensures Distinct([]) && Lists([], m, m.Keys - m.Keys)
  {}

  lemma IsShared(ph: Phase, p: nat)
    requires Sized(ph) && exists j :: 0 <= j < N_SOCKETS && p in ph.sampled[j]
    ensures |SharersOf(ph, p, N_SOCKETS)| > 0
  {}

  /** The pages that the sockets know. */
  ghost predicate AllPages(ph: Phase, pages: set<nat>)
    requires Sized(ph)
  {
    forall p :: p in pages <==> exists j :: 0 <= j < N_SOCKETS && p in ph.sampled[j]
  }

  lemma CandidatesAreShared(ph: Phase, joined: map<nat, nat>)
    requires Sized(ph) && AllPages(ph, joined.Keys) && Lists(ph.cands, joined, joined.Keys)
    ensures forall a :: 0 <= a < |ph.cands| ==> |SharersOf(ph, ph.cands[a].0, N_SOCKETS)| > 0
  {
    hide SharersOf, Get;
    forall a | 0 <= a < |ph.cands| ensures |SharersOf(ph, ph.cands[a].0, N_SOCKETS)| > 0 {
      assert ph.cands[a].0 in joined.Keys;
      IsShared(ph, ph.cands[a].0);
    }
  }

  lemma PagesAreCandidates(ph: Phase, joined: map<nat, nat>, j: nat, p: nat)
    requires Sized(ph) && AllPages(ph, joined.Keys) && Lists(ph.cands, joined, joined.Keys)
    requires j < N_SOCKETS && p in ph.sampled[j]
    ensures exists a :: 0 <= a < |ph.cands| && ph.cands[a].0 == p
  {
    hide Get;
    assert p in joined.Keys;
  }

  /** A phase built from the threads' sampled counts is what the reassignment loop relies on. */
  lemma PhaseIsGood(ph: Phase, joined: map<nat, nat>)
    requires Sized(ph) && AllPages(ph, joined.Keys)
    requires forall j, p :: 0 <= j < N_SOCKETS && p in ph.sampled[j] ==> ph.sampled[j][p] > 0
    requires Sorted(ph.cands) && Distinct(ph.cands) && Lists(ph.cands, joined, joined.Keys)
    ensures GoodPhase(ph)
  {
    hide SharersOf, Get, Lists, AllPages;
    CandidatesAreShared(ph, joined);
    forall j, p | 0 <= j < N_SOCKETS && p in ph.sampled[j] ensures exists a :: 0 <= a < |ph.cands| && ph.cands[a].0 == p {
      PagesAreCandidates(ph, joined, j, p);
    }
  }

  /** Positive counts of threads give positive counts of sockets. */
  lemma PositiveSockets(locals: seq<map<nat, nat>>, sockets: seq<map<nat, nat>>, j: nat, p: nat)
    requires IsConsolidated(locals, sockets) && j < N_SOCKETS && p in sockets[j]
    requires forall t, q :: 0 <= t < |locals| && q in locals[t] ==> locals[t][q] > 0
    ensures sockets[j][p] > 0
  {
    KnowsIs(locals, j, p, |locals|);
    hide SocketSum, KnowsPage;
    var t :| 0 <= t < |locals| && t / THREADS_PER_SOCKET == j && p in locals[t];
    SocketSumAtLeast(locals, j, p, |locals|, t);
  }

  lemma {:induction false} SocketSumAtLeast(locals: seq<map<nat, nat>>, j: nat, p: nat, n: nat, t: nat)
    requires t < n <= |locals| && t / THREADS_PER_SOCKET == j
    ensures SocketSum(locals, j, p, n) >= Get(locals[t], p)
  {
    if t < n - 1 { SocketSumAtLeast(locals, j, p, n - 1, t); }
  }

  /** From the threads' sampled counts to a phase for the reassignment loop, when any page was touched. */
  method BuildPhase(locals: seq<map<nat, nat>>, firstDraw: map<nat, nat>, draws: nat -> nat, evictDraws: nat -> nat) returns (ph: Phase)
    requires |locals| <= N_SOCKETS * THREADS_PER_SOCKET
    requires forall t, q :: 0 <= t < |locals| && q in locals[t] ==> locals[t][q] > 0
    ensures IsConsolidated(locals, ph.sampled)
    ensures forall a :: 0 <= a < |ph.cands| ==> ph.cands[a].1 == SumOf(locals, ph.cands[a].0, |locals|)
    ensures |ph.cands| > 0 ==> GoodPhase(ph)
    ensures forall j, p :: 0 <= j < |ph.sampled| && p in ph.sampled[j] ==> |ph.cands| > 0
    ensures ph.firstDraw == firstDraw && |ph.draws| == |ph.evictDraws| == |ph.cands|
    ensures forall n :: 0 <= n < |ph.cands| ==> ph.draws[n] == draws(n) && ph.evictDraws[n] == evictDraws(n)
  {
    hide IsConsolidated, GoodPhase, SumOf, SumOverSockets, TotalTo;
    var sockets := Consolidate(locals);
    assert |sockets| == N_SOCKETS by { SocketCount(locals, sockets); }
    forall j, p | 0 <= j < N_SOCKETS && p in sockets[j] ensures sockets[j][p] > 0 { PositiveSockets(locals, sockets, j, p); }
    var joined := Join(sockets);
    var cands := SortCandidates(joined);
    forall j, p | 0 <= j < N_SOCKETS && p in sockets[j] ensures |cands| > 0 { Listed(cands, joined, p); }
    forall p ensures SumOverSockets(sockets, p, N_SOCKETS) == SumOf(locals, p, |locals|) {
      ConsolidationConserves(locals, sockets, p);
    }
    ph := Phase(sockets, cands, firstDraw,
      seq(|cands|, n requires 0 <= n < |cands| => draws(n)), seq(|cands|, n requires 0 <= n < |cands| => evictDraws(n)));
    if |cands| > 0 {
      assert AllPages(ph, joined.Keys);
      PhaseIsGood(ph, joined);
    }
  }

  lemma Listed(cands: seq<(nat, nat)>, m: map<nat, nat>, p: nat)
    requires Lists(cands, m, m.Keys) && p in m
    ensures |cands| > 0
  {}

  lemma SocketCount(locals: seq<map<nat, nat>>, sockets: seq<map<nat, nat>>)
    requires IsConsolidated(locals, sockets)
    ensures |sockets| == N_SOCKETS
  {}
}
