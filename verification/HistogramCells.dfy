/** What the single cells of the filled histograms hold, page by page. */
module HistogramCells {
  import opened Placement
  import opened Totals
  import opened Histograms
  import opened HistogramLaws

  /** Of each socket's table, the pages with `s` sharers at one of the distances `hops` from their owner. */
  ghost function Chosen(k: Work, w: seq<map<nat, nat>>, owner: map<nat, nat>, s: nat, hops: set<nat>): (r: seq<map<nat, nat>>)
    ensures |r| == |w|
  {
    seq(|w|, i requires 0 <= i < |w| =>
      map p | p in w[i] && p in k.sharers && k.sharers[p] == s && p in owner && GetHop(i, owner[p]) in hops :: w[i][p])
  }

  /** The reads of pages that somebody writes, or of pages that nobody writes, and no other page. */
  ghost function OnlyReads(k: Work, rw: bool): (r: seq<map<nat, nat>>)
    ensures |r| == |k.rds|
  {
    seq(|k.rds|, i requires 0 <= i < |k.rds| => map p | p in k.rds[i] && (Get(k.written, p) > 0) == rw :: k.rds[i][p])
  }

  const ALL_HOPS: set<nat> := {0, 1, 2, 3}

  lemma HopSelect(k: Work, w: seq<map<nat, nat>>, owner: map<nat, nat>, s: nat, y: nat, i: nat)
    requires i < |w| == N_SOCKETS
    ensures Select(w[i], ByHop(k, owner)[i], {(s, y)}) == Chosen(k, w, owner, s, {y})[i]
  {
    hide GetHop;
  }

  lemma {:induction false} HopMass(k: Work, w: seq<map<nat, nat>>, owner: map<nat, nat>, s: nat, y: nat, n: nat)
    requires n <= |w| == N_SOCKETS
    ensures Mass(w, ByHop(k, owner), {(s, y)}, n) == TotalTo(Chosen(k, w, owner, s, {y}), n)
  {
    hide Total, ByHop, Chosen, Select;
    if n > 0 {
      HopMass(k, w, owner, s, y, n - 1);
      HopSelect(k, w, owner, s, y, n - 1);
    }
  }

  lemma SharerSelect(k: Work, w: seq<map<nat, nat>>, s: nat, i: nat)
    requires PerSocket(k) && GoodWork(k) && i < |w| == N_SOCKETS && forall p :: p in w[i] ==> p in k.accs[i]
    ensures Select(w[i], BySharers(k)[i], {s}) == Chosen(k, w, k.owner, s, ALL_HOPS)[i]
  {
    forall p | p in w[i] ensures p in k.sharers && p in k.owner { PageHops(k, i, p); }
    hide GoodWork, GetHop;
  }

  lemma {:induction false} SharerMass(k: Work, w: seq<map<nat, nat>>, s: nat, n: nat)
    requires PerSocket(k) && GoodWork(k) && n <= |w| == N_SOCKETS
    requires forall i, p :: 0 <= i < N_SOCKETS && p in w[i] ==> p in k.accs[i]
    ensures Mass(w, BySharers(k), {s}, n) == TotalTo(Chosen(k, w, k.owner, s, ALL_HOPS), n)
  {
    hide Total, BySharers, Chosen, Select, GoodWork;
    if n > 0 {
      SharerMass(k, w, s, n - 1);
      SharerSelect(k, w, s, n - 1);
    }
  }

  /** Pages that count nothing do not matter. */
  lemma {:induction false} WithoutZeros(m: map<nat, nat>, m': map<nat, nat>)
    requires forall p :: p in m' ==> p in m && m[p] == m'[p]
    requires forall p :: p in m && p !in m' ==> m[p] == 0
    ensures Total(m) == Total(m')
    decreases |m|
  {
    hide Total;
    if |m| == 0 {
      assert m' == map[] && m == map[];
    } else {
      var p := Some(m);
      TotalOut(m, p);
      if p in m' {
        TotalOut(m', p);
        WithoutZeros(m - {p}, m' - {p});
      } else {
        WithoutZeros(m - {p}, m');
      }
    }
  }

  lemma ReadsSelect<L(!new)>(k: Work, rw: bool, labels: map<nat, L>, X: set<L>, i: nat)
    requires |k.rds| == N_SOCKETS && i < N_SOCKETS
    ensures Total(Select(ReadsOf(k, rw)[i], labels, X)) == Total(Select(OnlyReads(k, rw)[i], labels, X))
  {
    hide Total;
    WithoutZeros(Select(ReadsOf(k, rw)[i], labels, X), Select(OnlyReads(k, rw)[i], labels, X));
  }

  lemma {:induction false} ReadsMass<L(!new)>(k: Work, rw: bool, labels: seq<map<nat, L>>, X: set<L>, n: nat)
    requires |k.rds| == |labels| == N_SOCKETS && n <= N_SOCKETS
    ensures Mass(ReadsOf(k, rw), labels, X, n) == Mass(OnlyReads(k, rw), labels, X, n)
  {
    hide Total, Select, ReadsOf, OnlyReads;
    if n > 0 {
      ReadsMass(k, rw, labels, X, n - 1);
      ReadsSelect(k, rw, labels[n - 1], X, n - 1);
    }
  }

  ghost predicate HopCell(f: Family, k: Work, w: seq<map<nat, nat>>, s: nat, y: nat)
    requires f.Valid() && |w| == N_SOCKETS && s < SHARER_SLOTS && y < HOPS
    reads f.byHop, f.byHopCI
  {
    && f.byHop[s, y] == TotalTo(Chosen(k, w, k.owner, s, {y}), N_SOCKETS)
    && f.byHopCI[s, y] == TotalTo(Chosen(k, w, k.ownerCI, s, {y}), N_SOCKETS)
  }

  ghost predicate SharerCell(f: Family, k: Work, w: seq<map<nat, nat>>, s: nat)
    requires f.Valid() && |w| == N_SOCKETS && s < SHARER_SLOTS
    reads f.bySharers
  {
    f.bySharers[s] == TotalTo(Chosen(k, w, k.owner, s, ALL_HOPS), N_SOCKETS)
  }

  /** The three tables of a kind of access hold what the sockets have of it: by sharers, and at each distance from the
      owners of the baseline and of the island. */
  ghost predicate CellsHold(f: Family, k: Work, w: seq<map<nat, nat>>)
    requires f.Valid() && |w| == N_SOCKETS
    reads f.bySharers, f.byHop, f.byHopCI
  {
    && (forall s: nat :: s < SHARER_SLOTS ==> SharerCell(f, k, w, s))
    && (forall s: nat, y: nat :: s < SHARER_SLOTS && y < HOPS ==> HopCell(f, k, w, s, y))
  }

  /** `w` may leave out pages that count nothing in `all`. */
  ghost predicate SameMasses(all: seq<map<nat, nat>>, w: seq<map<nat, nat>>, k: Work)
    requires |all| == |w| == N_SOCKETS
  {
    && (forall s: nat :: Mass(all, BySharers(k), {s}, N_SOCKETS) == Mass(w, BySharers(k), {s}, N_SOCKETS))
    && (forall s: nat, y: nat :: Mass(all, ByHop(k, k.owner), {(s, y)}, N_SOCKETS) == Mass(w, ByHop(k, k.owner), {(s, y)}, N_SOCKETS))
    && (forall s: nat, y: nat :: Mass(all, ByHop(k, k.ownerCI), {(s, y)}, N_SOCKETS) == Mass(w, ByHop(k, k.ownerCI), {(s, y)}, N_SOCKETS))
  }

  lemma FamilyParts(f: Family, k: Work, all: seq<map<nat, nat>>)
    requires FamilyFilled(f, k, all)
    ensures f.Valid() && PerSocket(k) && GoodWork(k) && |all| == N_SOCKETS && Holds(f.bySharers, all, BySharers(k), N_SOCKETS, {})
    ensures HoldsHop(f.byHop, all, ByHop(k, k.owner), N_SOCKETS, {}) && HoldsHop(f.byHopCI, all, ByHop(k, k.ownerCI), N_SOCKETS, {})
  {}

  lemma FamilyCells(f: Family, k: Work, all: seq<map<nat, nat>>, w: seq<map<nat, nat>>)
    requires FamilyFilled(f, k, all) && |all| == |w| == N_SOCKETS && SameMasses(all, w, k) && |k.accs| == N_SOCKETS
    requires forall i, p :: 0 <= i < N_SOCKETS && p in w[i] ==> p in k.accs[i]
    ensures f.Valid() && CellsHold(f, k, w)
  {
    FamilyParts(f, k, all);
    hide FamilyFilled, Mass, Holds, HoldsHop, Chosen, ByHop, BySharers, GoodWork, TotalTo;
    forall s: nat | s < SHARER_SLOTS ensures SharerCell(f, k, w, s) {
      Cell(f.bySharers, all, BySharers(k), s);
      SharerMass(k, w, s, N_SOCKETS);
    }
    forall s: nat, y: nat | s < SHARER_SLOTS && y < HOPS ensures HopCell(f, k, w, s, y) {
      CellHop(f.byHop, all, ByHop(k, k.owner), s, y);
      CellHop(f.byHopCI, all, ByHop(k, k.ownerCI), s, y);
      HopMass(k, w, k.owner, s, y, N_SOCKETS);
      HopMass(k, w, k.ownerCI, s, y, N_SOCKETS);
    }
  }

  lemma WriteCells(f: Family, k: Work)
    requires FamilyFilled(f, k, k.wrs)
    ensures f.Valid() && |k.wrs| == N_SOCKETS && CellsHold(f, k, k.wrs)
  {
    FamilyParts(f, k, k.wrs);
    forall i, p | 0 <= i < N_SOCKETS && p in k.wrs[i] ensures p in k.accs[i] { assert p in k.wrs[i].Keys && p in k.accs[i].Keys; }
    assert SameMasses(k.wrs, k.wrs, k);
    hide FamilyFilled, CellsHold, GoodWork, SameMasses;
    FamilyCells(f, k, k.wrs, k.wrs);
  }

  lemma ReadCells(f: Family, k: Work, rw: bool)
    requires PerSocket(k) && GoodWork(k) && FamilyFilled(f, k, ReadsOf(k, rw))
    ensures f.Valid() && CellsHold(f, k, OnlyReads(k, rw))
  {
    FamilyParts(f, k, ReadsOf(k, rw));
    forall i, p | 0 <= i < N_SOCKETS && p in OnlyReads(k, rw)[i] ensures p in k.accs[i] {
      assert p in k.rds[i].Keys && p in k.accs[i].Keys;
    }
    hide FamilyFilled, CellsHold, GoodWork, ReadsOf, OnlyReads, SameMasses;
    ReadsSameMasses(k, rw);
    FamilyCells(f, k, ReadsOf(k, rw), OnlyReads(k, rw));
  }

  lemma ReadsSameMasses(k: Work, rw: bool)
    requires |k.rds| == N_SOCKETS
    ensures SameMasses(ReadsOf(k, rw), OnlyReads(k, rw), k)
  {
    hide Mass, ReadsOf, OnlyReads, ByHop, BySharers;
    var all, w := ReadsOf(k, rw), OnlyReads(k, rw);
    forall s: nat ensures Mass(all, BySharers(k), {s}, N_SOCKETS) == Mass(w, BySharers(k), {s}, N_SOCKETS) {
      ReadsMass(k, rw, BySharers(k), {s}, N_SOCKETS);
    }
    forall s: nat, y: nat
      ensures Mass(all, ByHop(k, k.owner), {(s, y)}, N_SOCKETS) == Mass(w, ByHop(k, k.owner), {(s, y)}, N_SOCKETS)
      ensures Mass(all, ByHop(k, k.ownerCI), {(s, y)}, N_SOCKETS) == Mass(w, ByHop(k, k.ownerCI), {(s, y)}, N_SOCKETS)
    {
      ReadsMass(k, rw, ByHop(k, k.owner), {(s, y)}, N_SOCKETS);
      ReadsMass(k, rw, ByHop(k, k.ownerCI), {(s, y)}, N_SOCKETS);
    }
  }

  /** The pages of a table that are on the island. */
  ghost function OnIsland(k: Work, w: map<nat, nat>): map<nat, nat> {
    map p | p in w && p in k.ownerCI && k.ownerCI[p] == CXO :: w[p]
  }

  lemma TrafficSelect(k: Work, w: seq<map<nat, nat>>, x: nat, i: nat)
    requires i < |w| == N_SOCKETS && x < N_SOCKETS
    ensures Total(Select(w[i], ToIsland(k)[i], {x})) == if x == i then Total(OnIsland(k, w[x])) else 0
  {
    var part := Select(w[i], ToIsland(k)[i], {x});
    if x == i {
      assert part == OnIsland(k, w[x]);
    } else {
      assert part == map[];
    }
  }

  lemma {:induction false} TrafficMass(k: Work, w: seq<map<nat, nat>>, x: nat, n: nat)
    requires n <= |w| == N_SOCKETS && x < N_SOCKETS
    ensures Mass(w, ToIsland(k), {x}, n) == if x < n then Total(OnIsland(k, w[x])) else 0
  {
    hide Total, ToIsland, OnIsland, Select;
    if n > 0 {
      TrafficMass(k, w, x, n - 1);
      TrafficSelect(k, w, x, n - 1);
    }
  }

  /** Every cell of every table holds exactly the counts of its pages: accesses and writes of all pages, reads of written
      pages apart from those of pages only read, and of each socket what it sends to the island. */
  lemma EveryCell(t: Tables, k: Work)
    requires TablesFilled(t, k)
    ensures PerSocket(k) && t.Valid()
    ensures forall s: nat :: s < SHARER_SLOTS ==> t.access[s] == TotalTo(Chosen(k, k.accs, k.owner, s, ALL_HOPS), N_SOCKETS)
    ensures CellsHold(t.writes, k, k.wrs)
    ensures CellsHold(t.readsRW, k, OnlyReads(k, true)) && CellsHold(t.readsRO, k, OnlyReads(k, false))
    ensures forall i: nat :: i < N_SOCKETS ==>
      t.trafficR[i] == Total(OnIsland(k, k.rds[i])) && t.trafficW[i] == Total(OnIsland(k, k.wrs[i]))
  {
    Filling(t, k);
    hide Mass, Holds, HoldsHop, Chosen, CellsHold, BySharers, ToIsland, OnIsland, OnlyReads, Total, GoodWork, FamilyFilled, ReadsOf;
    WriteCells(t.writes, k);
    ReadCells(t.readsRW, k, true);
    ReadCells(t.readsRO, k, false);
    forall s: nat | s < SHARER_SLOTS ensures t.access[s] == TotalTo(Chosen(k, k.accs, k.owner, s, ALL_HOPS), N_SOCKETS) {
      Cell(t.access, k.accs, BySharers(k), s);
      SharerMass(k, k.accs, s, N_SOCKETS);
    }
    forall i: nat | i < N_SOCKETS
      ensures t.trafficR[i] == Total(OnIsland(k, k.rds[i])) && t.trafficW[i] == Total(OnIsland(k, k.wrs[i]))
    {
      Cell(t.trafficR, k.rds, ToIsland(k), i);
      Cell(t.trafficW, k.wrs, ToIsland(k), i);
      TrafficMass(k, k.rds, i, N_SOCKETS);
      TrafficMass(k, k.wrs, i, N_SOCKETS);
    }
  }
}
