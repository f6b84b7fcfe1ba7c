/** Histograms of one phase: accesses by number of sharers, and by distance to the page's owner. */
module Histograms {
  import opened Placement
  import opened Totals

  const SHARER_SLOTS: nat := N_SOCKETS + 1
  const HOPS: nat := 4

  /** How far socket `a` is from owner `b`: itself, the same group of four, another group, or the island. */
  function GetHop(a: nat, b: nat): (hop: nat)
    ensures hop < HOPS && (hop == 3 <==> b == CXO)
  {
    if b == CXO then 3 else if a == b then 0 else if a / 4 == b / 4 then 1 else 2
  }

  /** Between sockets the distance is an ultrametric: zero only to itself, symmetric, and of three distances the two
      largest are equal. A distance of at most 1 means the same group of four. */
  lemma HopIsUltrametric(a: nat, b: nat, c: nat)
    requires a < N_SOCKETS && b < N_SOCKETS && c < N_SOCKETS
    ensures GetHop(a, b) == 0 <==> a == b
    ensures GetHop(a, b) == GetHop(b, a)
    ensures GetHop(a, c) <= GetHop(a, b) || GetHop(a, c) <= GetHop(b, c)
    ensures GetHop(a, b) <= 1 <==> a / 4 == b / 4
  {}

  /** Per socket the accesses, reads and writes of each page; per page its sharers, its writes by all sockets, and
      its owners. */
  datatype Work = Work(
    accs: seq<map<nat, nat>>, rds: seq<map<nat, nat>>, wrs: seq<map<nat, nat>>,
    sharers: map<nat, nat>, written: map<nat, nat>, owner: map<nat, nat>, ownerCI: map<nat, nat>)

  predicate PerSocket(k: Work) {
    |k.accs| == |k.rds| == |k.wrs| == N_SOCKETS
  }

  ghost predicate GoodWork(k: Work) {
    && PerSocket(k)
    && (forall i :: 0 <= i < N_SOCKETS ==> k.accs[i].Keys == k.rds[i].Keys == k.wrs[i].Keys)
    && (forall i, p :: 0 <= i < N_SOCKETS && p in k.accs[i] ==>
          && k.accs[i][p] == Get(k.wrs[i], p) + Get(k.rds[i], p)
          && p in k.sharers && 0 < k.sharers[p] <= N_SOCKETS
          && p in k.owner && k.owner[p] < N_SOCKETS
          && p in k.ownerCI && (k.ownerCI[p] < N_SOCKETS || k.ownerCI[p] == CXO))
  }

  /******* What is counted, and under which label *******/

  /** The reads of pages that somebody writes (`rw`), or of those that nobody writes. */
  ghost function ReadsOf(k: Work, rw: bool): (r: seq<map<nat, nat>>)
    requires |k.rds| == N_SOCKETS
    ensures |r| == N_SOCKETS
  {
    seq(N_SOCKETS, i requires 0 <= i < N_SOCKETS =>
      map p | p in k.rds[i] :: if (Get(k.written, p) != 0) == rw then k.rds[i][p] else 0)
  }

  ghost function BySharers(k: Work): (r: seq<map<nat, nat>>)
    ensures |r| == N_SOCKETS
  {
    seq(N_SOCKETS, _ => k.sharers)
  }

  ghost function ByHop(k: Work, owner: map<nat, nat>): (r: seq<map<nat, (nat, nat)>>)
    ensures |r| == N_SOCKETS
  {
    seq(N_SOCKETS, i requires 0 <= i < N_SOCKETS =>
      map p | p in owner && p in k.sharers :: (k.sharers[p], GetHop(i, owner[p])))
  }

  /** Accesses to the island, by the accessing socket; the label of all others is no socket. */
  ghost function ToIsland(k: Work): (r: seq<map<nat, nat>>)
    ensures |r| == N_SOCKETS
  {
    seq(N_SOCKETS, i requires 0 <= i < N_SOCKETS => map p | p in k.ownerCI :: if k.ownerCI[p] == CXO then i else N_SOCKETS)
  }

  /******* Counting page by page *******/

  ghost function Only(m: map<nat, nat>, done: set<nat>): map<nat, nat> {
    map p | p in m && p in done :: m[p]
  }

  /** What the sockets below `i` and, of socket `i`, the pages of `done` have under label `x`. */
  ghost function Part<L(!new)>(w: seq<map<nat, nat>>, labels: seq<map<nat, L>>, x: L, i: nat, done: set<nat>): nat
    requires i <= |w| == |labels|
  {
    Mass(w, labels, {x}, i) +
      if i < |w| then Total(Select(Only(w[i], done), labels[i], {x})) else 0
  }

  lemma PartMore<L(!new)>(w: seq<map<nat, nat>>, labels: seq<map<nat, L>>, x: L, i: nat, done: set<nat>, p: nat)
    requires i < |w| == |labels| && p in w[i] && p !in done
    ensures Part(w, labels, x, i, done + {p})
         == Part(w, labels, x, i, done) + if p in labels[i] && labels[i][p] == x then w[i][p] else 0
  {
    hide Total, Mass;
    var before := Select(Only(w[i], done), labels[i], {x});
    var after := Select(Only(w[i], done + {p}), labels[i], {x});
    if p in labels[i] && labels[i][p] == x {
      assert after == before[p := w[i][p]];
      TotalPut(before, p, w[i][p]);
    } else {
      assert after == before;
    }
  }

  lemma PartNext<L(!new)>(w: seq<map<nat, nat>>, labels: seq<map<nat, L>>, x: L, i: nat, done: set<nat>)
    requires i < |w| == |labels| && w[i].Keys <= done
    ensures Part(w, labels, x, i + 1, {}) == Part(w, labels, x, i, done)
  {
    hide Total;
    assert Only(w[i], done) == w[i];
    if i + 1 < |w| {
      assert Select(Only(w[i + 1], {}), labels[i + 1], {x}) == map[];
      TotalNone(map[]);
    }
  }

  /** The table `a` holds the counts of `w` by label, as far as `i` and `done`. */
  ghost predicate Holds(a: array<nat>, w: seq<map<nat, nat>>, labels: seq<map<nat, nat>>, i: nat, done: set<nat>)
    requires i <= |w| == |labels|
    reads a
  {
    forall x: nat :: x < a.Length ==> a[x] == Part(w, labels, x, i, done)
  }

  ghost predicate HoldsHop(h: array2<nat>, w: seq<map<nat, nat>>, labels: seq<map<nat, (nat, nat)>>, i: nat, done: set<nat>)
    requires i <= |w| == |labels|
    reads h
  {
    forall x: nat, y: nat :: x < h.Length0 && y < h.Length1 ==> h[x, y] == Part(w, labels, (x, y), i, done)
  }

  method Add(a: array<nat>, x: nat, count: nat,
             ghost w: seq<map<nat, nat>>, ghost labels: seq<map<nat, nat>>, ghost i: nat, ghost done: set<nat>, ghost p: nat)
    requires i < |w| == |labels| && p in w[i] && p !in done && w[i][p] == count
    requires Holds(a, w, labels, i, done) && x < a.Length && p in labels[i] && labels[i][p] == x
    modifies a
    ensures Holds(a, w, labels, i, done + {p})
  {
    hide Part;
    forall y: nat ensures Part(w, labels, y, i, done + {p}) == Part(w, labels, y, i, done) + if y == x then count else 0 {
      PartMore(w, labels, y, i, done, p);
    }
    a[x] := a[x] + count;
  }

  method AddHop(h: array2<nat>, x: nat, y: nat, count: nat,
                ghost w: seq<map<nat, nat>>, ghost labels: seq<map<nat, (nat, nat)>>, ghost i: nat, ghost done: set<nat>, ghost p: nat)
    requires i < |w| == |labels| && p in w[i] && p !in done && w[i][p] == count
    requires HoldsHop(h, w, labels, i, done) && x < h.Length0 && y < h.Length1 && p in labels[i] && labels[i][p] == (x, y)
    modifies h
    ensures HoldsHop(h, w, labels, i, done + {p})
  {
    hide Part;
    forall u: nat, v: nat
      ensures Part(w, labels, (u, v), i, done + {p}) == Part(w, labels, (u, v), i, done) + if u == x && v == y then count else 0
    {
      PartMore(w, labels, (u, v), i, done, p);
    }
    h[x, y] := h[x, y] + count;
  }

  /** A page that does not count here leaves the table as it is. */
  lemma Skip(a: array<nat>, w: seq<map<nat, nat>>, labels: seq<map<nat, nat>>, i: nat, done: set<nat>, p: nat)
    requires i < |w| == |labels| && p in w[i] && p !in done && p in labels[i] && (w[i][p] == 0 || labels[i][p] >= a.Length)
    requires Holds(a, w, labels, i, done)
    ensures Holds(a, w, labels, i, done + {p})
  {
    hide Part;
    forall x: nat | x < a.Length ensures Part(w, labels, x, i, done + {p}) == Part(w, labels, x, i, done) { PartMore(w, labels, x, i, done, p); }
  }

  lemma SkipHop(h: array2<nat>, w: seq<map<nat, nat>>, labels: seq<map<nat, (nat, nat)>>, i: nat, done: set<nat>, p: nat)
    requires i < |w| == |labels| && p in w[i] && p !in done && w[i][p] == 0
    requires HoldsHop(h, w, labels, i, done)
    ensures HoldsHop(h, w, labels, i, done + {p})
  {
    forall x: nat, y: nat ensures Part(w, labels, (x, y), i, done + {p}) == Part(w, labels, (x, y), i, done) {
      PartMore(w, labels, (x, y), i, done, p);
    }
  }

  /** The tables of the first `i` sockets hold for the `i + 1`st, before it is looked at. */
  lemma Next(a: array<nat>, w: seq<map<nat, nat>>, labels: seq<map<nat, nat>>, i: nat, done: set<nat>)
    requires i < |w| == |labels| && w[i].Keys <= done && Holds(a, w, labels, i, done)
    ensures Holds(a, w, labels, i + 1, {})
  {
    forall x: nat ensures Part(w, labels, x, i + 1, {}) == Part(w, labels, x, i, done) { PartNext(w, labels, x, i, done); }
  }

  lemma NextHop(h: array2<nat>, w: seq<map<nat, nat>>, labels: seq<map<nat, (nat, nat)>>, i: nat, done: set<nat>)
    requires i < |w| == |labels| && w[i].Keys <= done && HoldsHop(h, w, labels, i, done)
    ensures HoldsHop(h, w, labels, i + 1, {})
  {
    forall x: nat, y: nat ensures Part(w, labels, (x, y), i + 1, {}) == Part(w, labels, (x, y), i, done) {
      PartNext(w, labels, (x, y), i, done);
    }
  }

  lemma Zero(a: array<nat>, w: seq<map<nat, nat>>, labels: seq<map<nat, nat>>)
    requires 0 < |w| == |labels| && forall x :: 0 <= x < a.Length ==> a[x] == 0
    ensures Holds(a, w, labels, 0, {})
  {}

  /******* The weights and labels of one page *******/

  lemma PageSharers(k: Work, i: nat, p: nat)
    requires GoodWork(k) && PerSocket(k) && i < N_SOCKETS && p in k.accs[i]
    ensures p in k.wrs[i] && p in k.sharers && k.sharers[p] < SHARER_SLOTS
    ensures p in BySharers(k)[i] && BySharers(k)[i][p] == k.sharers[p]
  {}

  lemma PageHops(k: Work, i: nat, p: nat)
    requires GoodWork(k) && PerSocket(k) && i < N_SOCKETS && p in k.accs[i]
    ensures p in k.sharers && p in k.owner && p in k.ownerCI
    ensures p in ByHop(k, k.owner)[i] && ByHop(k, k.owner)[i][p] == (k.sharers[p], GetHop(i, k.owner[p]))
    ensures p in ByHop(k, k.ownerCI)[i] && ByHop(k, k.ownerCI)[i][p] == (k.sharers[p], GetHop(i, k.ownerCI[p]))
  {}

  lemma PageTraffic(k: Work, i: nat, p: nat)
    requires GoodWork(k) && PerSocket(k) && i < N_SOCKETS && p in k.accs[i]
    ensures p in k.rds[i] && p in k.wrs[i] && p in k.ownerCI
    ensures p in ToIsland(k)[i] && ToIsland(k)[i][p] == if k.ownerCI[p] == CXO then i else N_SOCKETS
  {}

  lemma PageReads(k: Work, i: nat, p: nat)
    requires GoodWork(k) && PerSocket(k) && i < N_SOCKETS && p in k.accs[i]
    ensures p in k.rds[i]
    ensures forall rw :: p in ReadsOf(k, rw)[i] && ReadsOf(k, rw)[i][p] == if (Get(k.written, p) != 0) == rw then k.rds[i][p] else 0
  {}

  /** One kind of accesses: by sharers, and by distance in the baseline and with the island. */
  class Family {
    const bySharers: array<nat>
    const byHop: array2<nat>
    const byHopCI: array2<nat>

    predicate Valid() {
      && bySharers.Length == byHop.Length0 == byHopCI.Length0 == SHARER_SLOTS
      && byHop.Length1 == byHopCI.Length1 == HOPS && byHop != byHopCI
    }

    constructor ()
      ensures Valid() && fresh(bySharers) && fresh(byHop) && fresh(byHopCI)
      ensures forall x :: 0 <= x < bySharers.Length ==> bySharers[x] == 0
      ensures forall x, y :: 0 <= x < byHop.Length0 && 0 <= y < byHop.Length1 ==> byHop[x, y] == 0
      ensures forall x, y :: 0 <= x < byHopCI.Length0 && 0 <= y < byHopCI.Length1 ==> byHopCI[x, y] == 0
    {
      bySharers := new nat[SHARER_SLOTS](_ => 0);
      byHop := new nat[SHARER_SLOTS, HOPS]((_, _) => 0);
      byHopCI := new nat[SHARER_SLOTS, HOPS]((_, _) => 0);
    }

    /** The tables hold the counts of `w`, as far as `i` and `done`. */
    ghost predicate Counts(k: Work, w: seq<map<nat, nat>>, i: nat, done: set<nat>)
      requires i <= |w| == N_SOCKETS
      reads bySharers, byHop, byHopCI
    {
      && Holds(bySharers, w, BySharers(k), i, done)
      && HoldsHop(byHop, w, ByHop(k, k.owner), i, done)
      && HoldsHop(byHopCI, w, ByHop(k, k.ownerCI), i, done)
    }

    method Count(k: Work, ghost w: seq<map<nat, nat>>, i: nat, p: nat, count: nat, ghost done: set<nat>)
      requires Valid() && GoodWork(k) && PerSocket(k) && i < |w| == N_SOCKETS
      requires p in k.accs[i] && p in w[i] && w[i][p] == count && p !in done
      requires Counts(k, w, i, done)
      modifies bySharers, byHop, byHopCI
      ensures Counts(k, w, i, done + {p})
    {
      PageSharers(k, i, p);
      PageHops(k, i, p);
      hide Holds, HoldsHop, GoodWork, ReadsOf, BySharers, ByHop, ToIsland, GetHop;
      var sharers := k.sharers[p];
      Add(bySharers, sharers, count, w, BySharers(k), i, done, p);
      AddHop(byHop, sharers, GetHop(i, k.owner[p]), count, w, ByHop(k, k.owner), i, done, p);
      AddHop(byHopCI, sharers, GetHop(i, k.ownerCI[p]), count, w, ByHop(k, k.ownerCI), i, done, p);
    }

    lemma SkipPage(k: Work, w: seq<map<nat, nat>>, i: nat, p: nat, done: set<nat>)
      requires GoodWork(k) && PerSocket(k) && i < |w| == N_SOCKETS && p in k.accs[i]
      requires p in w[i] && w[i][p] == 0 && p !in done && Counts(k, w, i, done)
      ensures Counts(k, w, i, done + {p})
    {
      PageSharers(k, i, p);
      hide Holds, HoldsHop, BySharers, ByHop, GoodWork;
      Skip(bySharers, w, BySharers(k), i, done, p);
      SkipHop(byHop, w, ByHop(k, k.owner), i, done, p);
      SkipHop(byHopCI, w, ByHop(k, k.ownerCI), i, done, p);
    }

    lemma NextSocket(k: Work, w: seq<map<nat, nat>>, i: nat, done: set<nat>)
      requires i < |w| == N_SOCKETS && w[i].Keys <= done && Counts(k, w, i, done)
      ensures Counts(k, w, i + 1, {})
    {
      hide Holds, HoldsHop, BySharers, ByHop;
      Next(bySharers, w, BySharers(k), i, done);
      NextHop(byHop, w, ByHop(k, k.owner), i, done);
      NextHop(byHopCI, w, ByHop(k, k.ownerCI), i, done);
    }
  }

  /** All tables of a phase. */
  class Tables {
    const access: array<nat>
    const writes: Family
    const readsRW: Family
    const readsRO: Family
    const trafficR: array<nat>
    const trafficW: array<nat>

    predicate Valid() {
      && access.Length == SHARER_SLOTS && trafficR.Length == trafficW.Length == N_SOCKETS
      && writes.Valid() && readsRW.Valid() && readsRO.Valid()
    }

    ghost function Footprint(): set<object> {
      {access, writes.bySharers, readsRW.bySharers, readsRO.bySharers, trafficR, trafficW,
       writes.byHop, writes.byHopCI, readsRW.byHop, readsRW.byHopCI, readsRO.byHop, readsRO.byHopCI}
    }

    /** No two tables are the same. */
    ghost predicate Separate() {
      && access !in {writes.bySharers, readsRW.bySharers, readsRO.bySharers, trafficR, trafficW}
      && trafficR !in {writes.bySharers, readsRW.bySharers, readsRO.bySharers, trafficW}
      && trafficW !in {writes.bySharers, readsRW.bySharers, readsRO.bySharers}
      && Apart(writes, readsRW) && Apart(writes, readsRO) && Apart(readsRW, readsRO)
    }

    static ghost predicate Apart(f: Family, g: Family) {
      f.bySharers != g.bySharers && {f.byHop, f.byHopCI} !! {g.byHop, g.byHopCI}
    }

    constructor ()
      ensures Valid() && Separate() && fresh(Footprint())
      ensures forall x :: 0 <= x < access.Length ==> access[x] == 0
      ensures forall x :: 0 <= x < trafficR.Length ==> trafficR[x] == trafficW[x] == 0
      ensures forall f, x :: f in {writes, readsRW, readsRO} && 0 <= x < f.bySharers.Length ==> f.bySharers[x] == 0
      ensures forall f, x, y :: f in {writes, readsRW, readsRO} && 0 <= x < f.byHop.Length0 && 0 <= y < f.byHop.Length1 ==>
        f.byHop[x, y] == 0
      ensures forall f, x, y :: f in {writes, readsRW, readsRO} && 0 <= x < f.byHopCI.Length0 && 0 <= y < f.byHopCI.Length1 ==>
        f.byHopCI[x, y] == 0
    {
      access := new nat[SHARER_SLOTS](_ => 0);
      trafficR := new nat[N_SOCKETS](_ => 0);
      trafficW := new nat[N_SOCKETS](_ => 0);
      writes := new Family();
      readsRW := new Family();
      readsRO := new Family();
    }

    /** All tables hold their counts as far as `i` and `done`. */
    ghost predicate Counts(k: Work, i: nat, done: set<nat>)
      requires PerSocket(k) && i <= N_SOCKETS
      reads Footprint()
    {
      && Holds(access, k.accs, BySharers(k), i, done)
      && writes.Counts(k, k.wrs, i, done)
      && readsRW.Counts(k, ReadsOf(k, true), i, done)
      && readsRO.Counts(k, ReadsOf(k, false), i, done)
      && Holds(trafficR, k.rds, ToIsland(k), i, done)
      && Holds(trafficW, k.wrs, ToIsland(k), i, done)
    }

    /** Reads of a page that somebody writes, and of one that nobody writes. */
    method CountReads(k: Work, i: nat, p: nat, ghost done: set<nat>)
      requires readsRW.Valid() && readsRO.Valid() && Apart(readsRW, readsRO)
      requires PerSocket(k) && GoodWork(k) && i < N_SOCKETS && p in k.accs[i] && p !in done
      requires readsRW.Counts(k, ReadsOf(k, true), i, done) && readsRO.Counts(k, ReadsOf(k, false), i, done)
      modifies readsRW.bySharers, readsRW.byHop, readsRW.byHopCI, readsRO.bySharers, readsRO.byHop, readsRO.byHopCI
      ensures readsRW.Counts(k, ReadsOf(k, true), i, done + {p}) && readsRO.Counts(k, ReadsOf(k, false), i, done + {p})
    {
      PageReads(k, i, p);
      hide *;
      var rds := k.rds[i][p];
      if Get(k.written, p) != 0 {
        readsRW.Count(k, ReadsOf(k, true), i, p, rds, done);
        readsRO.SkipPage(k, ReadsOf(k, false), i, p, done);
      } else {
        readsRO.Count(k, ReadsOf(k, false), i, p, rds, done);
        readsRW.SkipPage(k, ReadsOf(k, true), i, p, done);
      }
    }

    /** Accesses to a page on the island. */
    method CountTraffic(k: Work, i: nat, p: nat, ghost done: set<nat>)
      requires trafficR != trafficW && trafficR.Length == trafficW.Length == N_SOCKETS
      requires PerSocket(k) && GoodWork(k) && i < N_SOCKETS && p in k.accs[i] && p !in done
      requires Holds(trafficR, k.rds, ToIsland(k), i, done) && Holds(trafficW, k.wrs, ToIsland(k), i, done)
      modifies trafficR, trafficW
      ensures Holds(trafficR, k.rds, ToIsland(k), i, done + {p}) && Holds(trafficW, k.wrs, ToIsland(k), i, done + {p})
    {
      PageTraffic(k, i, p);
      hide *;
      if k.ownerCI[p] == CXO {
        Add(trafficR, i, k.rds[i][p], k.rds, ToIsland(k), i, done, p);
        Add(trafficW, i, k.wrs[i][p], k.wrs, ToIsland(k), i, done, p);
      } else {
        Skip(trafficR, k.rds, ToIsland(k), i, done, p);
        Skip(trafficW, k.wrs, ToIsland(k), i, done, p);
      }
    }

    /** All accesses to a page, and the writes. */
    method CountWrites(k: Work, i: nat, p: nat, ghost done: set<nat>)
      requires writes.Valid() && access.Length == SHARER_SLOTS && access != writes.bySharers
      requires PerSocket(k) && GoodWork(k) && i < N_SOCKETS && p in k.accs[i] && p !in done
      requires Holds(access, k.accs, BySharers(k), i, done) && writes.Counts(k, k.wrs, i, done)
      modifies access, writes.bySharers, writes.byHop, writes.byHopCI
      ensures Holds(access, k.accs, BySharers(k), i, done + {p}) && writes.Counts(k, k.wrs, i, done + {p})
    {
      PageSharers(k, i, p);
      hide *;
      Add(access, k.sharers[p], k.accs[i][p], k.accs, BySharers(k), i, done, p);
      writes.Count(k, k.wrs, i, p, k.wrs[i][p], done);
    }

    /** Count one page of socket `i`. */
    method CountPage(k: Work, i: nat, p: nat, ghost done: set<nat>)
      requires Valid() && Separate() && PerSocket(k) && GoodWork(k) && i < N_SOCKETS && p in k.accs[i] && p !in done
      requires Counts(k, i, done)
      modifies Footprint()
      ensures Counts(k, i, done + {p})
    {
      hide GoodWork, ReadsOf, BySharers, ByHop, ToIsland, Family.Counts, Holds, Family.Valid;
      CountWrites(k, i, p, done);
      CountReads(k, i, p, done);
      CountTraffic(k, i, p, done);
    }

    lemma NextSocket(k: Work, i: nat, done: set<nat>)
      requires GoodWork(k) && PerSocket(k) && i < N_SOCKETS && done == k.accs[i].Keys && Counts(k, i, done)
      ensures Counts(k, i + 1, {})
    {
      assert k.rds[i].Keys == k.wrs[i].Keys == done;
      assert ReadsOf(k, true)[i].Keys == ReadsOf(k, false)[i].Keys == done;
      hide Holds, HoldsHop, GoodWork, ReadsOf, BySharers, ByHop, ToIsland;
      Next(access, k.accs, BySharers(k), i, done);
      writes.NextSocket(k, k.wrs, i, done);
      readsRW.NextSocket(k, ReadsOf(k, true), i, done);
      readsRO.NextSocket(k, ReadsOf(k, false), i, done);
      Next(trafficR, k.rds, ToIsland(k), i, done);
      Next(trafficW, k.wrs, ToIsland(k), i, done);
    }

    /** Fill the tables, which must be empty. */
    method Populate(k: Work)
      requires Valid() && Separate() && PerSocket(k) && GoodWork(k) && Counts(k, 0, {})
      modifies Footprint()
      ensures Counts(k, N_SOCKETS, {})
    {
      hide GoodWork, Valid, Separate, Counts;
      for i := 0 to N_SOCKETS
        invariant Counts(k, i, {})
      {
        var todo := k.accs[i].Keys;
        ghost var done: set<nat> := {};
        while todo != {}
          invariant todo <= k.accs[i].Keys && done == k.accs[i].Keys - todo
          invariant Counts(k, i, done)
        {
          var p :| p in todo;
          CountPage(k, i, p, done);
          todo, done := todo - {p}, done + {p};
        }
        NextSocket(k, i, done);
      }
    }
  }
}
