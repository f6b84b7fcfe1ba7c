/** One phase from the threads' traces to the new page maps. */
module ProcessPhase {
  import opened Mesi
  import opened Placement
  import opened Pool
  import opened PlacementRuns
  import opened PageMigration
  import opened Sampling
  import opened LockedMerge
  import opened Consolidation
  import opened Totals
  import opened Histograms
  import opened HistogramLaws

  type Trace = s: seq<Line> | |s| > 0 witness [Line(0, 0)]

  /** All accesses of the first `n` threads. */
  ghost function AccessesTo(traces: seq<Trace>, end: nat, n: nat): nat
    requires n <= |traces|
  {
    if n == 0 then 0 else AccessesTo(traces, end, n - 1) + |Accesses(traces[n - 1], end)|
  }

  /** What is counted of a trace, and for the last two, counted once more for the shared tables. */
  datatype Kind = All | Reads | Writes | Samples | SharedReads | SharedWrites

  /** What a trace has of page `p` in the phase. */
  ghost function CountOf(kind: Kind, tr: Trace, end: nat, p: nat): nat {
    var recs := Accesses(tr, end);
    match kind
    case All => Touches(recs, p)
    case Reads => Touches(recs, p) - Sampling.Writes(recs, p)
    case SharedReads => Touches(recs, p) - Sampling.Writes(recs, p)
    case Writes => Sampling.Writes(recs, p)
    case SharedWrites => Sampling.Writes(recs, p)
    case Samples => Sampled(recs, tr[0].icount, p).count
  }

  /** What the traces of the first `n` threads have of it. */
  ghost function OnThreads(kind: Kind, traces: seq<Trace>, end: nat, p: nat, n: nat): nat
    requires n <= |traces|
  {
    if n == 0 then 0 else OnThreads(kind, traces, end, p, n - 1) + CountOf(kind, traces[n - 1], end, p)
  }

  /** What those of them have that run on socket `j`. */
  ghost function OnSocket(kind: Kind, traces: seq<Trace>, end: nat, j: nat, p: nat, n: nat): nat
    requires n <= |traces|
  {
    if n == 0 then 0
    else OnSocket(kind, traces, end, j, p, n - 1)
         + if (n - 1) / 4 == j then CountOf(kind, traces[n - 1], end, p) else 0
  }

  ghost predicate TalliesOf(tallies: seq<Tally>, traces: seq<Trace>, end: nat) {
    && |tallies| == |traces|
    && forall t :: 0 <= t < |traces| ==> TallyOf(tallies[t], Accesses(traces[t], end), traces[t][0].icount)
  }

  method ReadTraces(traces: seq<Trace>, end: nat) returns (tallies: seq<Tally>)
    ensures TalliesOf(tallies, traces, end)
  {
    hide TallyOf;
    tallies := [];
    for t := 0 to |traces|
      invariant |tallies| == t
      invariant forall u :: 0 <= u < t ==> TallyOf(tallies[u], Accesses(traces[u], end), traces[u][0].icount)
    {
      var tally := ReadTrace(traces[t], end);
      tallies := tallies + [tally];
    }
  }

  /******* The tables of all threads *******/

  function TableOf(kind: Kind, tally: Tally): map<nat, nat> {
    match kind
    case All => tally.all
    case Reads => tally.rds
    case Writes => tally.wrs
    case Samples => tally.sampled
    case SharedReads => tally.rdsTmp
    case SharedWrites => tally.wrsTmp
  }

  function TablesOf(kind: Kind, tallies: seq<Tally>): (r: seq<map<nat, nat>>)
    ensures |r| == |tallies|
  {
    seq(|tallies|, t requires 0 <= t < |tallies| => TableOf(kind, tallies[t]))
  }

  lemma TallyFacts(tally: Tally, recs: seq<Line>, first: U64, p: nat)
    requires TallyOf(tally, recs, first)
    ensures Get(tally.sampled, p) == Sampled(recs, first, p).count
    ensures p in tally.sampled <==> p in tally.all
    ensures (p in tally.rds <==> p in tally.all) && (p in tally.wrs <==> p in tally.all)
    ensures p in tally.sampled ==> tally.sampled[p] > 0
    ensures Get(tally.all, p) == Get(tally.wrs, p) + Get(tally.rds, p)
  {
    assert TallyAt(tally, recs, first, p);
    TouchedIsSampled(recs, first, p);
  }

  lemma TableCounts(kind: Kind, tally: Tally, tr: Trace, end: nat, p: nat)
    requires TallyOf(tally, Accesses(tr, end), tr[0].icount)
    ensures Get(TableOf(kind, tally), p) == CountOf(kind, tr, end, p)
  {
    hide Sampled, Touches, Sampling.Writes;
    assert TallyAt(tally, Accesses(tr, end), tr[0].icount, p);
  }

  /** The tables of all threads hold the counts of their traces. */
  lemma {:induction false} ThreadCounts(kind: Kind, tallies: seq<Tally>, traces: seq<Trace>, end: nat, p: nat, n: nat)
    requires TalliesOf(tallies, traces, end) && n <= |traces|
    ensures SumOf(TablesOf(kind, tallies), p, n) == OnThreads(kind, traces, end, p, n)
  {
    hide TallyOf, CountOf, TableOf;
    if n > 0 {
      ThreadCounts(kind, tallies, traces, end, p, n - 1);
      TableCounts(kind, tallies[n - 1], traces[n - 1], end, p);
    }
  }

  lemma {:induction false} SocketCounts(kind: Kind, tallies: seq<Tally>, traces: seq<Trace>, end: nat, j: nat, p: nat, n: nat)
    requires TalliesOf(tallies, traces, end) && n <= |traces|
    ensures SocketSum(TablesOf(kind, tallies), j, p, n) == OnSocket(kind, traces, end, j, p, n)
  {
    hide TallyOf, CountOf, TableOf;
    if n > 0 {
      SocketCounts(kind, tallies, traces, end, j, p, n - 1);
      TableCounts(kind, tallies[n - 1], traces[n - 1], end, p);
    }
  }

  /** The sockets' tables of one kind are those of their threads' traces. */
  ghost predicate CountsOn(kind: Kind, sockets: seq<map<nat, nat>>, traces: seq<Trace>, end: nat) {
    |sockets| == N_SOCKETS && forall j, p :: 0 <= j < N_SOCKETS ==> Get(sockets[j], p) == OnSocket(kind, traces, end, j, p, |traces|)
  }

  lemma ConsolidatedCounts(kind: Kind, tallies: seq<Tally>, traces: seq<Trace>, end: nat, sockets: seq<map<nat, nat>>)
    requires TalliesOf(tallies, traces, end) && IsConsolidated(TablesOf(kind, tallies), sockets)
    ensures CountsOn(kind, sockets, traces, end)
  {
    hide TalliesOf, TablesOf, OnSocket, SocketSum;
    assert |tallies| == |traces| by { SameNumber(tallies, traces, end); }
    forall j, p | 0 <= j < N_SOCKETS ensures Get(sockets[j], p) == OnSocket(kind, traces, end, j, p, |traces|) {
      SocketCounts(kind, tallies, traces, end, j, p, |traces|);
    }
  }

  lemma SameNumber(tallies: seq<Tally>, traces: seq<Trace>, end: nat)
    requires TalliesOf(tallies, traces, end)
    ensures |tallies| == |traces|
  {}

  lemma {:induction false} AccessSums(tallies: seq<Tally>, traces: seq<Trace>, end: nat, n: nat)
    requires TalliesOf(tallies, traces, end) && n <= |traces|
    ensures TotalTo(TablesOf(All, tallies), n) == AccessesTo(traces, end, n)
  {
    hide TallyAt;
    if n > 0 { AccessSums(tallies, traces, end, n - 1); }
  }

  /** The sockets' tables know the same pages, and accesses are writes and reads. */
  lemma {:induction false} SocketsAgree(tallies: seq<Tally>, traces: seq<Trace>, end: nat, j: nat, p: nat, n: nat)
    requires TalliesOf(tallies, traces, end) && n <= |traces|
    ensures SocketSum(TablesOf(All, tallies), j, p, n) == SocketSum(TablesOf(Writes, tallies), j, p, n) + SocketSum(TablesOf(Reads, tallies), j, p, n)
    ensures KnowsPage(TablesOf(All, tallies), j, p, n) == KnowsPage(TablesOf(Reads, tallies), j, p, n) == KnowsPage(TablesOf(Writes, tallies), j, p, n)
    ensures KnowsPage(TablesOf(All, tallies), j, p, n) == KnowsPage(TablesOf(Samples, tallies), j, p, n)
  {
    hide TallyOf, Sampled;
    if n > 0 {
      SocketsAgree(tallies, traces, end, j, p, n - 1);
      TallyFacts(tallies[n - 1], Accesses(traces[n - 1], end), traces[n - 1][0].icount, p);
    }
  }

  /******* What the histograms work on *******/

  ghost predicate WorkOf(k: Work, tallies: seq<Tally>, ph: Phase, s: Pages) {
    && IsConsolidated(TablesOf(All, tallies), k.accs) && IsConsolidated(TablesOf(Reads, tallies), k.rds) && IsConsolidated(TablesOf(Writes, tallies), k.wrs)
    && IsConsolidated(TablesOf(Samples, tallies), ph.sampled)
    && PerSocket(k) && Sized(ph)
    && (forall p :: Get(k.sharers, p) == Sharers(ph, p))
    && k.owner == s.owner && k.ownerCI == s.ownerCI
  }

  lemma SamePages(tallies: seq<Tally>, traces: seq<Trace>, end: nat, k: Work, ph: Phase, s: Pages, i: nat)
    requires TalliesOf(tallies, traces, end) && WorkOf(k, tallies, ph, s) && i < N_SOCKETS
    ensures k.accs[i].Keys == k.rds[i].Keys == k.wrs[i].Keys == ph.sampled[i].Keys
  {
    forall p: nat ensures (p in k.accs[i] <==> p in k.rds[i]) && (p in k.accs[i] <==> p in k.wrs[i]) && (p in k.accs[i] <==> p in ph.sampled[i]) {
      SocketsAgree(tallies, traces, end, i, p, |tallies|);
    }
  }

  lemma SumsAgree(tallies: seq<Tally>, traces: seq<Trace>, end: nat, k: Work, ph: Phase, s: Pages, i: nat, p: nat)
    requires TalliesOf(tallies, traces, end) && WorkOf(k, tallies, ph, s) && i < N_SOCKETS
    ensures Get(k.accs[i], p) == Get(k.wrs[i], p) + Get(k.rds[i], p)
  {
    SocketsAgree(tallies, traces, end, i, p, |tallies|);
  }

  lemma PageIsGood(ph: Phase, s: Pages, sharers: map<nat, nat>, i: nat, p: nat)
    requires GoodPhase(ph) && Sized(ph) && i < N_SOCKETS && p in ph.sampled[i] && OwnersOK(s) && Seen(s, ph)
    requires Get(sharers, p) == Sharers(ph, p)
    ensures p in sharers && 0 < sharers[p] <= N_SOCKETS
    ensures p in s.owner && s.owner[p] < N_SOCKETS && p in s.ownerCI && (s.ownerCI[p] < N_SOCKETS || s.ownerCI[p] == CXO)
  {}

  lemma WorkIsGood(tallies: seq<Tally>, traces: seq<Trace>, end: nat, k: Work, ph: Phase, s: Pages)
    requires TalliesOf(tallies, traces, end) && WorkOf(k, tallies, ph, s)
    requires GoodPhase(ph) && OwnersOK(s) && Seen(s, ph)
    ensures PerSocket(k) && GoodWork(k)
  {
    forall i | 0 <= i < N_SOCKETS ensures k.accs[i].Keys == k.rds[i].Keys == k.wrs[i].Keys == ph.sampled[i].Keys {
      SamePages(tallies, traces, end, k, ph, s, i);
    }
    forall i, p | 0 <= i < N_SOCKETS && p in k.accs[i]
      ensures p in k.sharers && 0 < k.sharers[p] <= N_SOCKETS
      ensures p in s.owner && s.owner[p] < N_SOCKETS && p in s.ownerCI && (s.ownerCI[p] < N_SOCKETS || s.ownerCI[p] == CXO)
      ensures k.accs[i][p] == Get(k.wrs[i], p) + Get(k.rds[i], p)
    {
      assert p in ph.sampled[i].Keys;
      PageIsGood(ph, s, k.sharers, i, p);
      SumsAgree(tallies, traces, end, k, ph, s, i, p);
    }
    hide GoodPhase, OwnersOK, Seen, TalliesOf, IsConsolidated, Sharers;
  }

  lemma TablesAreZero(t: Tables, k: Work)
    requires t.Valid() && PerSocket(k)
    requires forall x :: 0 <= x < t.access.Length ==> t.access[x] == 0
    requires forall x :: 0 <= x < t.trafficR.Length ==> t.trafficR[x] == t.trafficW[x] == 0
    requires forall f, x :: f in {t.writes, t.readsRW, t.readsRO} && 0 <= x < f.bySharers.Length ==> f.bySharers[x] == 0
    requires forall f, x, y :: f in {t.writes, t.readsRW, t.readsRO} && 0 <= x < f.byHop.Length0 && 0 <= y < f.byHop.Length1 ==>
      f.byHop[x, y] == 0
    requires forall f, x, y :: f in {t.writes, t.readsRW, t.readsRO} && 0 <= x < f.byHopCI.Length0 && 0 <= y < f.byHopCI.Length1 ==>
      f.byHopCI[x, y] == 0
    ensures t.Counts(k, 0, {})
  {
    Zero(t.access, k.accs, BySharers(k));
    Zero(t.trafficR, k.rds, ToIsland(k));
    Zero(t.trafficW, k.wrs, ToIsland(k));
    ZeroFamily(t.writes, k, k.wrs);
    ZeroFamily(t.readsRW, k, ReadsOf(k, true));
    ZeroFamily(t.readsRO, k, ReadsOf(k, false));
  }

  lemma ZeroFamily(f: Family, k: Work, w: seq<map<nat, nat>>)
    requires f.Valid() && |w| == N_SOCKETS
    requires forall x :: 0 <= x < f.bySharers.Length ==> f.bySharers[x] == 0
    requires forall x, y :: 0 <= x < f.byHop.Length0 && 0 <= y < f.byHop.Length1 ==> f.byHop[x, y] == 0
    requires forall x, y :: 0 <= x < f.byHopCI.Length0 && 0 <= y < f.byHopCI.Length1 ==> f.byHopCI[x, y] == 0
    ensures f.Counts(k, w, 0, {})
  {}

  /******* The phase *******/

  /** What one phase is given: the traces up to an instruction count, and what `rand` returns. */
  datatype Input = Input(traces: seq<Trace>, end: nat, firstDraw: map<nat, nat>, draws: nat -> nat, evictDraws: nat -> nat)

  /** The phase holds the sampled counts of the traces, per socket and per candidate, and the draws. Together with
      `GoodPhase` this leaves nothing open but the order of equally hot candidates. */
  ghost predicate PhaseOf(ph: Phase, x: Input) {
    && CountsOn(Samples, ph.sampled, x.traces, x.end)
    && (forall a :: 0 <= a < |ph.cands| ==> ph.cands[a].1 == OnThreads(Samples, x.traces, x.end, ph.cands[a].0, |x.traces|))
    && ph.firstDraw == x.firstDraw && |ph.draws| == |ph.evictDraws| == |ph.cands|
    && (forall n :: 0 <= n < |ph.cands| ==> ph.draws[n] == x.draws(n) && ph.evictDraws[n] == x.evictDraws(n))
  }

  /** Count the traces and choose the candidates. */
  method CountPhase(traces: seq<Trace>, end: nat, firstDraw: map<nat, nat>, draws: nat -> nat, evictDraws: nat -> nat)
    returns (tallies: seq<Tally>, ph: Phase)
    requires |traces| <= N_SOCKETS * THREADS_PER_SOCKET
    requires exists t :: 0 <= t < |traces| && |Accesses(traces[t], end)| > 0
    ensures TalliesOf(tallies, traces, end) && IsConsolidated(TablesOf(Samples, tallies), ph.sampled)
    ensures GoodPhase(ph) && PhaseOf(ph, Input(traces, end, firstDraw, draws, evictDraws))
  {
    hide TallyOf, Sampled, GoodPhase, IsConsolidated, CountsOn, OnThreads;
    tallies := ReadTraces(traces, end);
    forall t, p | 0 <= t < |traces| && p in TablesOf(Samples, tallies)[t] ensures TablesOf(Samples, tallies)[t][p] > 0 {
      TallyFacts(tallies[t], Accesses(traces[t], end), traces[t][0].icount, p);
    }
    ph := BuildPhase(TablesOf(Samples, tallies), firstDraw, draws, evictDraws);
    forall p ensures SumOf(TablesOf(Samples, tallies), p, |traces|) == OnThreads(Samples, traces, end, p, |traces|) {
      ThreadCounts(Samples, tallies, traces, end, p, |traces|);
    }
    ConsolidatedCounts(Samples, tallies, traces, end, ph.sampled);
    SomeCandidate(tallies, traces, end, ph);
  }

  lemma SomeCandidate(tallies: seq<Tally>, traces: seq<Trace>, end: nat, ph: Phase)
    requires |traces| <= N_SOCKETS * THREADS_PER_SOCKET
    requires TalliesOf(tallies, traces, end) && IsConsolidated(TablesOf(Samples, tallies), ph.sampled)
    requires forall j, p :: 0 <= j < |ph.sampled| && p in ph.sampled[j] ==> |ph.cands| > 0
    requires exists t :: 0 <= t < |traces| && |Accesses(traces[t], end)| > 0
    ensures |ph.cands| > 0
  {
    hide TallyOf, Sampled;
    var t :| 0 <= t < |traces| && |Accesses(traces[t], end)| > 0;
    var recs := Accesses(traces[t], end);
    var p := PageOf(recs[0]);
    TallyFacts(tallies[t], recs, traces[t][0].icount, p);
    KnownIfTouched(tallies[t], recs, traces[t][0].icount);
    KnowsIs(TablesOf(Samples, tallies), t / THREADS_PER_SOCKET, p, |tallies|);
    assert p in TablesOf(Samples, tallies)[t];
    assert p in ph.sampled[t / THREADS_PER_SOCKET];
  }

  lemma KnownIfTouched(tally: Tally, recs: seq<Line>, first: U64)
    requires TallyOf(tally, recs, first) && |recs| > 0
    ensures PageOf(recs[0]) in tally.all
  {
    assert TallyAt(tally, recs, first, PageOf(recs[0]));
  }

  /** The histograms work on the counts of the traces: of every socket its accesses, reads and writes, and for every
      page the writes of all threads. */
  ghost predicate CountsOf(k: Work, traces: seq<Trace>, end: nat) {
    && CountsOn(All, k.accs, traces, end) && CountsOn(Reads, k.rds, traces, end) && CountsOn(Writes, k.wrs, traces, end)
    && (forall p :: Get(k.written, p) == OnThreads(Writes, traces, end, p, |traces|))
    && (forall p :: Get(k.written, p) != 0 <==> IsWrittenTo(traces, end, p, |traces|))
    && TotalTo(k.accs, N_SOCKETS) == AccessesTo(traces, end, |traces|)
  }

  /** Somebody writes to the page. */
  ghost predicate IsWrittenTo(traces: seq<Trace>, end: nat, p: nat, n: nat)
    requires n <= |traces|
  {
    exists t :: 0 <= t < n && Sampling.Writes(Accesses(traces[t], end), p) > 0
  }

  /** The histograms take a page for written exactly if some thread writes to it. */
  lemma {:induction false} WrittenPages(traces: seq<Trace>, end: nat, p: nat, n: nat)
    requires n <= |traces|
    ensures OnThreads(Writes, traces, end, p, n) != 0 <==> IsWrittenTo(traces, end, p, n)
  {
    if n > 0 { WrittenPages(traces, end, p, n - 1); }
  }

  /** The kind of counts that a shared table collects. */
  function Collects(kind: Kind): Kind {
    match kind
    case SharedReads => Reads
    case SharedWrites => Writes
    case _ => kind
  }

  /** However the threads interleave, the shared tables end as the sums of their traces, which are also the sums of the
      sockets' counts. */
  lemma SharedTables(kind: Kind, tallies: seq<Tally>, traces: seq<Trace>, end: nat, run: seq<State>, sockets: seq<map<nat, nat>>, p: nat)
    requires TalliesOf(tallies, traces, end) && |traces| <= N_SOCKETS * THREADS_PER_SOCKET
    requires Behavior(TablesOf(kind, tallies), run) && Done(run[|run| - 1])
    requires IsConsolidated(TablesOf(Collects(kind), tallies), sockets)
    ensures |sockets| == N_SOCKETS
    ensures Get(run[|run| - 1].shared, p) == OnThreads(Collects(kind), traces, end, p, |traces|) == SumOverSockets(sockets, p, N_SOCKETS)
  {
    hide IsConsolidated, Behavior, Done, TallyOf, TableOf, CountOf, SumOf, SumOverSockets;
    SocketCount(TablesOf(Collects(kind), tallies), sockets);
    forall t | 0 <= t < |traces| ensures Get(TableOf(kind, tallies[t]), p) == Get(TableOf(Collects(kind), tallies[t]), p) {
      TableCounts(kind, tallies[t], traces[t], end, p);
      TableCounts(Collects(kind), tallies[t], traces[t], end, p);
      SameCountOf(kind, traces[t], end, p);
    }
    ThreadCounts(Collects(kind), tallies, traces, end, p, |traces|);
    ConsolidationConserves(TablesOf(Collects(kind), tallies), sockets, p);
    SharedTableIsSocketSums(TablesOf(kind, tallies), run, TablesOf(Collects(kind), tallies), sockets, p);
  }

  lemma SameCountOf(kind: Kind, tr: Trace, end: nat, p: nat)
    ensures CountOf(kind, tr, end, p) == CountOf(Collects(kind), tr, end, p)
  {}

  /** Count the accesses, reads and writes of every socket, and who shares and writes what. The threads merge their
      writes in any interleaving. */
  method GatherWork(tallies: seq<Tally>, ghost traces: seq<Trace>, ghost end: nat, ph: Phase, m: PageMap) returns (k: Work)
    requires |traces| <= N_SOCKETS * THREADS_PER_SOCKET
    requires TalliesOf(tallies, traces, end) && IsConsolidated(TablesOf(Samples, tallies), ph.sampled)
    requires GoodPhase(ph) && OwnersOK(m.Contents()) && Seen(m.Contents(), ph)
    ensures PerSocket(k) && GoodWork(k) && k.owner == m.pageOwner && k.ownerCI == m.pageOwnerCI
    ensures forall p :: Get(k.sharers, p) == Sharers(ph, p)
    ensures CountsOf(k, traces, end)
    ensures forall run: seq<State> :: Behavior(TablesOf(SharedWrites, tallies), run) && Done(run[|run| - 1]) ==> run[|run| - 1].shared == k.written
  {
    hide GoodPhase, IsConsolidated, OwnersOK, Seen, SharersOf, TotalTo, SumOf, TallyOf, CountsOn, OnThreads, TablesOf, AccessesTo, Init,
      LockedMerge.Next, Done, GoodWork;
    GoodIsSized(ph);
    var accs := Consolidate(TablesOf(All, tallies));
    var rds := Consolidate(TablesOf(Reads, tallies));
    var wrs := Consolidate(TablesOf(Writes, tallies));
    var written, merged := Merge(TablesOf(SharedWrites, tallies));
    var sharers := m.CountSharers(ph);
    k := Work(accs, rds, wrs, sharers, written, m.pageOwner, m.pageOwnerCI);
    WorkIsGood(tallies, traces, end, k, ph, m.Contents());
    WorkCounts(tallies, traces, end, k, merged);
    forall run: seq<State> | Behavior(TablesOf(SharedWrites, tallies), run) && Done(run[|run| - 1]) ensures run[|run| - 1].shared == written {
      InterleavingsAgree(TablesOf(SharedWrites, tallies), run, merged);
    }
  }

  lemma WorkCounts(tallies: seq<Tally>, traces: seq<Trace>, end: nat, k: Work, merged: seq<State>)
    requires TalliesOf(tallies, traces, end) && |traces| <= N_SOCKETS * THREADS_PER_SOCKET
    requires IsConsolidated(TablesOf(All, tallies), k.accs) && IsConsolidated(TablesOf(Reads, tallies), k.rds)
    requires IsConsolidated(TablesOf(Writes, tallies), k.wrs)
    requires |k.accs| == N_SOCKETS && TotalTo(k.accs, N_SOCKETS) == TotalTo(TablesOf(All, tallies), |tallies|)
    requires Behavior(TablesOf(SharedWrites, tallies), merged) && Done(merged[|merged| - 1]) && k.written == merged[|merged| - 1].shared
    ensures CountsOf(k, traces, end)
  {
    hide IsConsolidated, TalliesOf, CountsOn, OnThreads, TablesOf, AccessesTo, TotalTo, Behavior, Done, IsWrittenTo;
    SameNumber(tallies, traces, end);
    ConsolidatedCounts(All, tallies, traces, end, k.accs);
    ConsolidatedCounts(Reads, tallies, traces, end, k.rds);
    ConsolidatedCounts(Writes, tallies, traces, end, k.wrs);
    forall p ensures Get(k.written, p) == OnThreads(Writes, traces, end, p, |traces|) {
      SharedTables(SharedWrites, tallies, traces, end, merged, k.wrs, p);
    }
    forall p ensures Get(k.written, p) != 0 <==> IsWrittenTo(traces, end, p, |traces|) { WrittenPages(traces, end, p, |traces|); }
    AccessSums(tallies, traces, end, |traces|);
  }

  method FillTables(k: Work) returns (t: Tables)
    requires PerSocket(k) && GoodWork(k)
    ensures fresh(t.Footprint()) && TablesFilled(t, k) && SumTo(t.access, SHARER_SLOTS) == TotalTo(k.accs, N_SOCKETS)
  {
    hide GoodWork, Tables.Counts, SumTo, TotalTo;
    t := new Tables();
    TablesAreZero(t, k);
    t.Populate(k);
    assert TablesFilled(t, k);
    EveryAccessIsCounted(t, k);
  }

  /** One phase: the page maps move on as specified, and the histograms account for every access of the traces under
      the owners that were in force during the phase. */
  method RunPhase(m: PageMap, x: Input) returns (t: Tables, k: Work, ph: Phase)
    requires GoodInput(x) && PagesInv(m.Contents())
    modifies m
    ensures GoodPhase(ph) && Sized(ph) && PhaseOf(ph, x)
    ensures m.Contents() == DoPhase(old(m.Contents()), ph) && PagesInv(m.Contents())
    ensures fresh(t.Footprint()) && TablesFilled(t, k) && SumTo(t.access, SHARER_SLOTS) == AccessesTo(x.traces, x.end, |x.traces|)
    ensures CountsOf(k, x.traces, x.end) && forall p :: Get(k.sharers, p) == Sharers(ph, p)
    ensures var s := FirstTouch(old(m.Contents()), ph); k.owner == s.owner && k.ownerCI == s.ownerCI
  {
    hide GoodPhase, PagesInv, OwnersOK, Seen, FirstTouch, DoPhase, After, SharersOf, IsConsolidated, TotalTo, TalliesOf,
      GoodWork, TablesFilled, SumTo, AccessesTo, OnThreads, TallyOf, PhaseOf, CountsOn, Behavior, Done, IsWrittenTo;
    var tallies;
    tallies, ph := CountPhase(x.traces, x.end, x.firstDraw, x.draws, x.evictDraws);
    BeforeTouch(m.Contents(), ph);
    m.TouchPages(ph);
    k := GatherWork(tallies, x.traces, x.end, ph, m);
    t := FillTables(k);
    var _, _, _ := m.FinishPhase(ph, k.sharers);
  }

  lemma BeforeTouch(s: Pages, ph: Phase)
    requires PagesInv(s) && GoodPhase(ph)
    ensures Sized(ph) && s.owner.Keys == s.ownerCI.Keys
    ensures var t := FirstTouch(s, ph);
      && PagesInv(t) && OwnersOK(t) && Seen(t, ph) && PagesInv(DoPhase(s, ph))
      && var u := After(t, ph, |ph.cands|).pages; DoPhase(s, ph) == u.(phase := u.phase + 1)
  {
    hide GoodPhase, FirstTouch, After, Seen, PoolOK;
    GoodIsSized(ph);
    TouchKeeps(s, ph);
    PhaseKeeps(s, ph);
  }

  ghost predicate GoodInput(x: Input) {
    && |x.traces| <= N_SOCKETS * THREADS_PER_SOCKET
    && exists t :: 0 <= t < |x.traces| && |Accesses(x.traces[t], x.end)| > 0
  }

  /** A whole run, from no pages at all, through the phases of its inputs. What is proved of `DoPhases` is thereby true
      of every run of the program. */
  method Run(inputs: seq<Input>) returns (m: PageMap, phs: seq<Phase>)
    requires forall n :: 0 <= n < |inputs| ==> GoodInput(inputs[n])
    ensures |phs| == |inputs| && forall n :: 0 <= n < |phs| ==> PhaseOf(phs[n], inputs[n])
    ensures GoodPhases(phs) && m.Contents() == DoPhases(NO_PAGES, phs)
  {
    hide GoodPhase, PagesInv, DoPhase, GoodInput, TablesFilled, SumTo, AccessesTo, OnThreads, FirstTouch, PhaseOf, CountsOf;
    m := new PageMap();
    NoPagesInv();
    phs := [];
    for n := 0 to |inputs|
      invariant |phs| == n && forall i :: 0 <= i < n ==> PhaseOf(phs[i], inputs[i])
      invariant GoodPhases(phs) && PagesInv(m.Contents()) && m.Contents() == DoPhases(NO_PAGES, phs)
      invariant fresh(m)
    {
      var _, _, ph := RunPhase(m, inputs[n]);
      assert (phs + [ph])[..n] == phs;
      phs := phs + [ph];
    }
  }
}
