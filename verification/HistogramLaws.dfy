/** Conservation laws of the filled histograms. */
module HistogramLaws {
  import opened Placement
  import opened Totals
  import opened Histograms

  /** The tables after `Populate`. */
  ghost predicate TablesFilled(t: Tables, k: Work)
    reads t.Footprint()
  {
    t.Valid() && PerSocket(k) && GoodWork(k) && t.Counts(k, N_SOCKETS, {})
  }

  ghost predicate FamilyFilled(f: Family, k: Work, w: seq<map<nat, nat>>)
    reads f.bySharers, f.byHop, f.byHopCI
  {
    && f.Valid() && PerSocket(k) && GoodWork(k) && |w| == N_SOCKETS && f.Counts(k, w, N_SOCKETS, {})
    && forall i :: 0 <= i < N_SOCKETS ==> w[i].Keys == k.accs[i].Keys
  }

  ghost function SumTo(a: array<nat>, n: nat): nat
    requires n <= a.Length
    reads a
  {
    if n == 0 then 0 else SumTo(a, n - 1) + a[n - 1]
  }

  /** Column `y`, down to row `n`. */
  ghost function ColumnTo(h: array2<nat>, y: nat, n: nat): nat
    requires n <= h.Length0 && y < h.Length1
    reads h
  {
    if n == 0 then 0 else ColumnTo(h, y, n - 1) + h[n - 1, y]
  }

  lemma Cell(a: array<nat>, w: seq<map<nat, nat>>, labels: seq<map<nat, nat>>, x: nat)
    requires |w| == |labels| && Holds(a, w, labels, |w|, {}) && x < a.Length
    ensures a[x] == Mass(w, labels, {x}, |w|)
  {}

  lemma CellHop(h: array2<nat>, w: seq<map<nat, nat>>, labels: seq<map<nat, (nat, nat)>>, x: nat, y: nat)
    requires |w| == |labels| && HoldsHop(h, w, labels, |w|, {}) && x < h.Length0 && y < h.Length1
    ensures h[x, y] == Mass(w, labels, {(x, y)}, |w|)
  {}

  lemma {:induction false} MassNone<L(!new)>(w: seq<map<nat, nat>>, labels: seq<map<nat, L>>, n: nat)
    requires n <= |w| == |labels|
    ensures Mass(w, labels, {}, n) == 0
  {
    if n > 0 {
      MassNone(w, labels, n - 1);
      assert Select(w[n - 1], labels[n - 1], {}) == map[];
    }
  }

  /******* Accesses are writes and two kinds of reads *******/

  lemma Filling(t: Tables, k: Work)
    requires TablesFilled(t, k)
    ensures FamilyFilled(t.writes, k, k.wrs) && FamilyFilled(t.readsRW, k, ReadsOf(k, true))
    ensures FamilyFilled(t.readsRO, k, ReadsOf(k, false))
    ensures Holds(t.access, k.accs, BySharers(k), N_SOCKETS, {})
    ensures Holds(t.trafficR, k.rds, ToIsland(k), N_SOCKETS, {}) && Holds(t.trafficW, k.wrs, ToIsland(k), N_SOCKETS, {})
  {}

  lemma SplitReads<L(!new)>(k: Work, labels: seq<map<nat, L>>, X: set<L>)
    requires PerSocket(k) && GoodWork(k) && |labels| == N_SOCKETS
    ensures Mass(k.rds, labels, X, N_SOCKETS) == Mass(ReadsOf(k, true), labels, X, N_SOCKETS) + Mass(ReadsOf(k, false), labels, X, N_SOCKETS)
  {
    hide Mass;
    MassOfSum(k.rds, ReadsOf(k, true), ReadsOf(k, false), labels, X, N_SOCKETS);
  }

  lemma AccessIsEither(k: Work, i: nat, p: nat)
    requires PerSocket(k) && GoodWork(k) && i < N_SOCKETS && p in k.accs[i]
    ensures k.accs[i][p] == Get(k.wrs[i], p) + Get(k.rds[i], p)
  {
    PageSharers(k, i, p);
  }

  lemma SplitAccesses<L(!new)>(k: Work, labels: seq<map<nat, L>>, X: set<L>)
    requires PerSocket(k) && GoodWork(k) && |labels| == N_SOCKETS
    ensures Mass(k.accs, labels, X, N_SOCKETS) == Mass(k.wrs, labels, X, N_SOCKETS) + Mass(k.rds, labels, X, N_SOCKETS)
  {
    hide Mass;
    forall i, p | 0 <= i < N_SOCKETS && p in k.accs[i] ensures k.accs[i][p] == Get(k.wrs[i], p) + Get(k.rds[i], p) {
      AccessIsEither(k, i, p);
    }
    MassOfSum(k.accs, k.wrs, k.rds, labels, X, N_SOCKETS);
  }

  /** For every number of sharers: accesses = writes + reads of written pages + reads of pages only read. */
  lemma AccessesAreWritesAndReads(t: Tables, k: Work, s: nat)
    requires TablesFilled(t, k) && s < SHARER_SLOTS
    ensures t.access[s] == t.writes.bySharers[s] + t.readsRW.bySharers[s] + t.readsRO.bySharers[s]
  {
    Filling(t, k);
    hide Holds, HoldsHop, Mass, BySharers, ByHop, ReadsOf, GoodWork;
    Cell(t.access, k.accs, BySharers(k), s);
    Cell(t.writes.bySharers, k.wrs, BySharers(k), s);
    Cell(t.readsRW.bySharers, ReadsOf(k, true), BySharers(k), s);
    Cell(t.readsRO.bySharers, ReadsOf(k, false), BySharers(k), s);
    SplitAccesses(k, BySharers(k), {s});
    SplitReads(k, BySharers(k), {s});
  }

  /******* Every access has one distance *******/

  lemma FourHops(w: seq<map<nat, nat>>, labels: seq<map<nat, (nat, nat)>>, s: nat)
    requires |w| == |labels|
    ensures Mass(w, labels, {(s, 0), (s, 1), (s, 2), (s, 3)}, |w|)
      == Mass(w, labels, {(s, 0)}, |w|) + Mass(w, labels, {(s, 1)}, |w|) + Mass(w, labels, {(s, 2)}, |w|) + Mass(w, labels, {(s, 3)}, |w|)
  {
    hide Mass;
    MassSplit(w, labels, {(s, 0)}, {(s, 1)}, |w|);
    MassSplit(w, labels, {(s, 0)} + {(s, 1)}, {(s, 2)}, |w|);
    MassSplit(w, labels, {(s, 0)} + {(s, 1)} + {(s, 2)}, {(s, 3)}, |w|);
    assert {(s, 0)} + {(s, 1)} + {(s, 2)} + {(s, 3)} == {(s, 0), (s, 1), (s, 2), (s, 3)};
  }

  lemma HopsOfSharers(k: Work, w: seq<map<nat, nat>>, owner: map<nat, nat>, s: nat)
    requires PerSocket(k) && GoodWork(k) && |w| == N_SOCKETS && owner in {k.owner, k.ownerCI}
    requires forall i :: 0 <= i < N_SOCKETS ==> w[i].Keys == k.accs[i].Keys
    ensures Mass(w, ByHop(k, owner), {(s, 0), (s, 1), (s, 2), (s, 3)}, N_SOCKETS) == Mass(w, BySharers(k), {s}, N_SOCKETS)
  {
    hide Mass, GoodWork, ByHop, BySharers, GetHop;
    forall i, p | 0 <= i < N_SOCKETS && p in w[i]
      ensures p in ByHop(k, owner)[i] && p in BySharers(k)[i]
      ensures ByHop(k, owner)[i][p] in {(s, 0), (s, 1), (s, 2), (s, 3)} <==> BySharers(k)[i][p] in {s}
    {
      assert p in w[i].Keys && p in k.accs[i].Keys;
      PageSharers(k, i, p);
      PageHops(k, i, p);
    }
    MassRegroup(w, ByHop(k, owner), {(s, 0), (s, 1), (s, 2), (s, 3)}, BySharers(k), {s}, N_SOCKETS);
  }

  /** For every kind of access and every number of sharers, the four distances add up to the accesses, both in the
      baseline and with the island; in the baseline nothing is at distance 3. */
  lemma DistancesAddUp(f: Family, k: Work, w: seq<map<nat, nat>>, s: nat)
    requires FamilyFilled(f, k, w) && s < SHARER_SLOTS
    ensures f.byHop[s, 0] + f.byHop[s, 1] + f.byHop[s, 2] + f.byHop[s, 3] == f.bySharers[s]
    ensures f.byHopCI[s, 0] + f.byHopCI[s, 1] + f.byHopCI[s, 2] + f.byHopCI[s, 3] == f.bySharers[s]
    ensures f.byHop[s, 3] == 0
  {
    BaselineOffIsland(k, w, s);
    hide Holds, HoldsHop, Mass, GoodWork, BySharers, ByHop;
    Cell(f.bySharers, w, BySharers(k), s);
    HopsOfSharers(k, w, k.owner, s);
    HopsOfSharers(k, w, k.ownerCI, s);
    FourHops(w, ByHop(k, k.owner), s);
    FourHops(w, ByHop(k, k.ownerCI), s);
    forall y: nat | y < HOPS
      ensures f.byHop[s, y] == Mass(w, ByHop(k, k.owner), {(s, y)}, N_SOCKETS)
      ensures f.byHopCI[s, y] == Mass(w, ByHop(k, k.ownerCI), {(s, y)}, N_SOCKETS)
    {
      CellHop(f.byHop, w, ByHop(k, k.owner), s, y);
      CellHop(f.byHopCI, w, ByHop(k, k.ownerCI), s, y);
    }
  }

  lemma BaselineOffIsland(k: Work, w: seq<map<nat, nat>>, s: nat)
    requires PerSocket(k) && GoodWork(k) && |w| == N_SOCKETS
    requires forall i :: 0 <= i < N_SOCKETS ==> w[i].Keys == k.accs[i].Keys
    ensures Mass(w, ByHop(k, k.owner), {(s, 3)}, N_SOCKETS) == 0
  {
    hide Mass;
    forall i, p | 0 <= i < N_SOCKETS && p in w[i]
      ensures p in ByHop(k, k.owner)[i] && ByHop(k, k.owner)[i][p] != (s, 3)
    {
      assert p in w[i].Keys && p in k.accs[i].Keys;
    }
    MassRegroup(w, ByHop(k, k.owner), {(s, 3)}, ByHop(k, k.owner), {}, N_SOCKETS);
    MassNone(w, ByHop(k, k.owner), N_SOCKETS);
  }

  /******* Totals *******/

  ghost function Below(n: nat): set<nat> {
    if n == 0 then {} else Below(n - 1) + {n - 1}
  }

  lemma {:induction false} BelowIs(n: nat, x: nat)
    ensures x in Below(n) <==> x < n
  {
    if n > 0 { BelowIs(n - 1, x); }
  }

  lemma {:induction false} SumIsMass(a: array<nat>, w: seq<map<nat, nat>>, labels: seq<map<nat, nat>>, n: nat)
    requires |w| == |labels| && Holds(a, w, labels, |w|, {}) && n <= a.Length
    ensures SumTo(a, n) == Mass(w, labels, Below(n), |w|)
    decreases n
  {
    hide Holds, Mass;
    if n == 0 {
      MassNone(w, labels, |w|);
    } else {
      var x: nat := n - 1;
      SumIsMass(a, w, labels, x);
      Cell(a, w, labels, x);
      BelowIs(x, x);
      MassSplit(w, labels, Below(x), {x}, |w|);
    }
  }

  /** The access histogram accounts for every access of the phase. */
  lemma EveryAccessIsCounted(t: Tables, k: Work)
    requires TablesFilled(t, k)
    ensures SumTo(t.access, SHARER_SLOTS) == TotalTo(k.accs, N_SOCKETS)
  {
    Filling(t, k);
    SharersInRange(k);
    hide Mass, Holds, Below, GoodWork;
    SumIsMass(t.access, k.accs, BySharers(k), SHARER_SLOTS);
    MassAll(k.accs, BySharers(k), Below(SHARER_SLOTS), N_SOCKETS);
  }

  lemma SharersInRange(k: Work)
    requires PerSocket(k) && GoodWork(k)
    ensures forall i, p :: 0 <= i < N_SOCKETS && p in k.accs[i] ==> p in BySharers(k)[i] && BySharers(k)[i][p] in Below(SHARER_SLOTS)
  {
    hide Below;
    forall i, p | 0 <= i < N_SOCKETS && p in k.accs[i] ensures p in BySharers(k)[i] && BySharers(k)[i][p] in Below(SHARER_SLOTS) {
      BelowIs(SHARER_SLOTS, k.sharers[p]);
    }
  }

  ghost function IslandLabels(n: nat): set<(nat, nat)> {
    if n == 0 then {} else IslandLabels(n - 1) + {(n - 1, 3)}
  }

  lemma {:induction false} IslandLabelsAre(n: nat, x: nat, y: nat)
    ensures (x, y) in IslandLabels(n) <==> x < n && y == 3
  {
    if n > 0 { IslandLabelsAre(n - 1, x, y); }
  }

  lemma {:induction false} ColumnIsMass(h: array2<nat>, w: seq<map<nat, nat>>, labels: seq<map<nat, (nat, nat)>>, n: nat)
    requires |w| == |labels| && HoldsHop(h, w, labels, |w|, {}) && n <= h.Length0 && h.Length1 == HOPS
    ensures ColumnTo(h, 3, n) == Mass(w, labels, IslandLabels(n), |w|)
    decreases n
  {
    hide HoldsHop, Mass;
    if n == 0 {
      MassNone(w, labels, |w|);
    } else {
      var x: nat, y: nat := n - 1, 3;
      ColumnIsMass(h, w, labels, x);
      CellHop(h, w, labels, x, y);
      IslandLabelsAre(x, x, y);
      MassSplit(w, labels, IslandLabels(x), {(x, y)}, |w|);
    }
  }

  /** What distance 3 holds of one kind of access is what the sockets send to the island. */
  lemma IslandMass(k: Work, w: seq<map<nat, nat>>)
    requires PerSocket(k) && GoodWork(k) && |w| == N_SOCKETS
    requires forall i :: 0 <= i < N_SOCKETS ==> w[i].Keys == k.accs[i].Keys
    ensures Mass(w, ByHop(k, k.ownerCI), IslandLabels(SHARER_SLOTS), N_SOCKETS) == Mass(w, ToIsland(k), Below(N_SOCKETS), N_SOCKETS)
  {
    hide Mass, IslandLabels, Below;
    forall i, p | 0 <= i < N_SOCKETS && p in w[i]
      ensures p in ByHop(k, k.ownerCI)[i] && p in ToIsland(k)[i]
      ensures ByHop(k, k.ownerCI)[i][p] in IslandLabels(SHARER_SLOTS) <==> ToIsland(k)[i][p] in Below(N_SOCKETS)
    {
      assert p in w[i].Keys && p in k.accs[i].Keys;
      IslandLabelsAre(SHARER_SLOTS, k.sharers[p], GetHop(i, k.ownerCI[p]));
      BelowIs(N_SOCKETS, ToIsland(k)[i][p]);
    }
    MassRegroup(w, ByHop(k, k.ownerCI), IslandLabels(SHARER_SLOTS), ToIsland(k), Below(N_SOCKETS), N_SOCKETS);
  }

  /** The accesses at distance 3 are the traffic to the island. */
  lemma IslandTraffic(t: Tables, k: Work)
    requires TablesFilled(t, k)
    ensures ColumnTo(t.writes.byHopCI, 3, SHARER_SLOTS) == SumTo(t.trafficW, N_SOCKETS)
    ensures ColumnTo(t.readsRW.byHopCI, 3, SHARER_SLOTS) + ColumnTo(t.readsRO.byHopCI, 3, SHARER_SLOTS) == SumTo(t.trafficR, N_SOCKETS)
  {
    Filling(t, k);
    assert forall i :: 0 <= i < N_SOCKETS ==> k.rds[i].Keys == k.accs[i].Keys;
    hide Mass, Holds, HoldsHop, Below, IslandLabels, GoodWork, BySharers, ByHop, ReadsOf, ToIsland, ColumnTo, SumTo;
    ColumnIsMass(t.writes.byHopCI, k.wrs, ByHop(k, k.ownerCI), SHARER_SLOTS);
    ColumnIsMass(t.readsRW.byHopCI, ReadsOf(k, true), ByHop(k, k.ownerCI), SHARER_SLOTS);
    ColumnIsMass(t.readsRO.byHopCI, ReadsOf(k, false), ByHop(k, k.ownerCI), SHARER_SLOTS);
    SumIsMass(t.trafficW, k.wrs, ToIsland(k), N_SOCKETS);
    SumIsMass(t.trafficR, k.rds, ToIsland(k), N_SOCKETS);
    IslandMass(k, k.wrs);
    IslandMass(k, ReadsOf(k, true));
    IslandMass(k, ReadsOf(k, false));
    SplitReads(k, ToIsland(k), Below(N_SOCKETS));
  }
}
