/** Phase-wise page placement: first touch, bounded migration, and a capacity-bounded pool on the CXL island.

    A phase visits the touched pages from hottest to coldest. In the baseline, a page moves to its busiest socket.
    With the island, a widely shared page moves into the pool instead, and a full pool evicts its coldest touched page,
    found by a second cursor that runs from cold to hot and never goes back. */
module Placement {

  const CXO: nat := 100
  const N_SOCKETS: nat := 16
  const SHARER_THRESHOLD: nat := 8
  const INVAL_OWNER: nat := 9999
  const MIGRATION_LIMIT: nat := 327680
  const POOL_FRACTION: nat := 5

  /** What survives from phase to phase. */
  datatype Pages = Pages(
    owner: map<nat, nat>,      // baseline owner of every page seen so far
    ownerCI: map<nat, nat>,    // owner with the island, possibly `CXO`
    inPool: nat,               // the program's own count of pages on the island
    moves: map<nat, nat>,      // baseline migrations of each page
    movesCI: map<nat, nat>,    // migrations of each page with the island
    phase: nat)

  const NO_PAGES := Pages(map[], map[], 0, map[], map[], 0)

  function Get(m: map<nat, nat>, p: nat): nat {
    if p in m then m[p] else 0
  }

  /** What one phase brings: each socket's sampled counts of the pages it touched, the touched pages from hottest to
      coldest with their counts, and what `rand` returns: for the first owner of a page, for the new owner of the
      `n`th candidate, and for the new owner of the page evicted while the `n`th candidate is visited. */
  datatype Phase = Phase(
    sampled: seq<map<nat, nat>>,
    cands: seq<(nat, nat)>,
    firstDraw: map<nat, nat>,
    draws: seq<nat>,
    evictDraws: seq<nat>)

  predicate Sized(ph: Phase) {
    |ph.sampled| == N_SOCKETS && |ph.cands| == |ph.draws| == |ph.evictDraws| > 0
  }

  ghost predicate GoodPhase(ph: Phase) {
    && Sized(ph)
    && (forall j, p :: 0 <= j < N_SOCKETS && p in ph.sampled[j] ==> ph.sampled[j][p] > 0)
    && (forall a, b :: 0 <= a < b < |ph.cands| ==> ph.cands[a].0 != ph.cands[b].0)
    && (forall a, b :: 0 <= a <= b < |ph.cands| ==> ph.cands[b].1 <= ph.cands[a].1)
    && (forall a :: 0 <= a < |ph.cands| ==> |SharersOf(ph, ph.cands[a].0, N_SOCKETS)| > 0)
    && (forall j, p :: 0 <= j < N_SOCKETS && p in ph.sampled[j] ==> exists a :: 0 <= a < |ph.cands| && ph.cands[a].0 == p)
  }

  lemma GoodIsSized(ph: Phase)
    ensures GoodPhase(ph) ==> Sized(ph)
  {}

  /** The sockets among the first `n` that touched page `p`. */
  function SharersOf(ph: Phase, p: nat, n: nat): (r: seq<nat>)
    requires n <= |ph.sampled|
    ensures |r| <= n
    ensures forall a :: 0 <= a < |r| ==> r[a] < n && p in ph.sampled[r[a]]
    ensures (exists j :: 0 <= j < n && p in ph.sampled[j]) ==> |r| > 0
  {
    if n == 0 then []
    else SharersOf(ph, p, n - 1) + if p in ph.sampled[n - 1] then [n - 1] else []
  }

  function Sharers(ph: Phase, p: nat): nat
    requires |ph.sampled| == N_SOCKETS
  {
    |SharersOf(ph, p, N_SOCKETS)|
  }

  /** The first of the first `n` sockets with the highest sampled count, or `default` when there is no count. */
  function Busiest(ph: Phase, p: nat, n: nat, default: nat): (r: (nat, nat))
    requires n <= |ph.sampled|
  {
    if n == 0 then (default, 0)
    else
      var best := Busiest(ph, p, n - 1, default);
      var c := Get(ph.sampled[n - 1], p);
      if c > best.1 then (n - 1, c) else best
  }

  /******* First touch *******/

  /** A new page belongs to one of the sockets that touch it. */
  function FirstOwner(ph: Phase, p: nat): nat
    requires |ph.sampled| == N_SOCKETS && Sharers(ph, p) > 0
  {
    var sharers := SharersOf(ph, p, N_SOCKETS);
    sharers[Get(ph.firstDraw, p) % |sharers|]
  }

  function Touched(ph: Phase): set<nat> {
    set j, p | 0 <= j < |ph.sampled| && p in ph.sampled[j] :: p
  }

  /** First touch fills both owner maps with the same owner. */
  function FirstTouch(s: Pages, ph: Phase): Pages
    requires |ph.sampled| == N_SOCKETS
  {
    var added := map p | p in Touched(ph) && p !in s.owner :: FirstOwner(ph, p);
    s.(owner := s.owner + added, ownerCI := s.ownerCI + added)
  }

  /******* Reassignment *******/

  /** The reassignment loop: the placement so far, how much of the two budgets is used, whether a hot page has been
      evicted, and how far the eviction cursor has come (a candidate index; -1 when it has run out). */
  datatype Loop = Loop(
    pages: Pages,
    i: nat, iCxi: nat, hot: bool, cursor: int,
    migrated: nat, migratedCI: nat, toCI: nat, evictions: nat, flags: nat, warned: bool)

  function Start(s: Pages, ph: Phase): Loop {
    Loop(s, 0, 0, false, |ph.cands| - 1, 0, 0, 0, 0, 0, false)
  }

  function PoolCap(s: Pages): nat {
    |s.ownerCI| / POOL_FRACTION
  }

  /** How often a page may have migrated before it migrates once more in phase `phase`. */
  function PingPongLimit(phase: nat): nat {
    phase / 4
  }

  function NewOwner(ph: Phase, a: nat): nat
    requires Sized(ph) && a < |ph.cands|
  {
    if Sharers(ph, ph.cands[a].0) >= 8 then ph.draws[a] % N_SOCKETS
    else Busiest(ph, ph.cands[a].0, N_SOCKETS, INVAL_OWNER).0
  }

  /** Where page `p`, evicted while candidate `a` is visited, goes. */
  function EvictedOwner(ph: Phase, a: nat, p: nat): nat
    requires Sized(ph) && a < |ph.cands|
  {
    var draw := ph.evictDraws[a] % N_SOCKETS;
    if Sharers(ph, p) >= 8 then draw else Busiest(ph, p, N_SOCKETS, draw).0
  }

  /** The baseline part of visiting candidate `a`. */
  function VisitBaseline(l: Loop, ph: Phase, a: nat): Loop
    requires Sized(ph) && a < |ph.cands|
  {
    var p, s := ph.cands[a].0, l.pages;
    if l.i < MIGRATION_LIMIT && Get(s.moves, p) <= PingPongLimit(s.phase) && Get(s.owner, p) != NewOwner(ph, a) then
      l.(i := l.i + 1, migrated := l.migrated + 1,
         pages := s.(owner := s.owner[p := NewOwner(ph, a)], moves := s.moves[p := Get(s.moves, p) + 1]))
    else l
  }

  /** The first page on the island from candidate `c` towards hotter ones, or -1. */
  function FindVictim(ownerCI: map<nat, nat>, ph: Phase, c: int): (v: int)
    requires -1 <= c < |ph.cands|
    ensures -1 <= v <= c
    ensures v >= 0 ==> Get(ownerCI, ph.cands[v].0) == CXO
    ensures forall b :: v < b <= c ==> Get(ownerCI, ph.cands[b].0) != CXO
  {
    if c < 0 || Get(ownerCI, ph.cands[c].0) == CXO then c else FindVictim(ownerCI, ph, c - 1)
  }

  /** Evict while candidate `a` is visited. */
  function EvictFor(l: Loop, ph: Phase, a: nat): Loop
    requires Sized(ph) && a < |ph.cands| && -1 <= l.cursor < |ph.cands|
  {
    var v := FindVictim(l.pages.ownerCI, ph, l.cursor);
    if v < 0 then l.(cursor := v, warned := true, iCxi := MIGRATION_LIMIT + 1)
    else
      var p := ph.cands[v].0;
      var flag := ph.cands[v].1 >= ph.cands[a].1;
      l.(cursor := v, hot := l.hot || flag, flags := l.flags + (if flag then 1 else 0),
         iCxi := l.iCxi + 1, evictions := l.evictions + 1,
         pages := l.pages.(ownerCI := l.pages.ownerCI[p := EvictedOwner(ph, a, p)],
                           inPool := if l.pages.inPool > 0 then l.pages.inPool - 1 else 0))
  }

  /** Candidate `a` moves into the pool. */
  function Insert(l: Loop, ph: Phase, a: nat): Loop
    requires a < |ph.cands|
  {
    var p, s := ph.cands[a].0, l.pages;
    l.(iCxi := l.iCxi + 1, toCI := l.toCI + 1,
       pages := s.(ownerCI := s.ownerCI[p := CXO], inPool := s.inPool + 1, movesCI := s.movesCI[p := Get(s.movesCI, p) + 1]))
  }

  predicate Inserts(l: Loop, ph: Phase, a: nat)
    requires Sized(ph) && a < |ph.cands|
  {
    var p, s := ph.cands[a].0, l.pages;
    && l.iCxi < MIGRATION_LIMIT && Get(s.movesCI, p) <= PingPongLimit(s.phase)
    && !l.hot && Sharers(ph, p) >= SHARER_THRESHOLD && Get(s.ownerCI, p) != CXO
  }

  predicate MovesCI(l: Loop, ph: Phase, a: nat)
    requires Sized(ph) && a < |ph.cands|
  {
    var p, s := ph.cands[a].0, l.pages;
    && l.iCxi < MIGRATION_LIMIT && Get(s.movesCI, p) <= PingPongLimit(s.phase)
    && !(!l.hot && Sharers(ph, p) >= SHARER_THRESHOLD) && Get(s.ownerCI, p) != NewOwner(ph, a)
  }

  /** The island part of visiting candidate `a`. `cap` is the pool capacity of this phase. */
  function VisitCI(l: Loop, ph: Phase, a: nat, cap: nat): Loop
    requires Sized(ph) && a < |ph.cands| && -1 <= l.cursor < |ph.cands|
  {
    var p, s := ph.cands[a].0, l.pages;
    if Inserts(l, ph, a) then
      var t := Insert(l, ph, a);
      if cap <= t.pages.inPool then EvictFor(t, ph, a) else t
    else if MovesCI(l, ph, a) then
      l.(iCxi := l.iCxi + 1, migratedCI := l.migratedCI + 1,
         pages := s.(ownerCI := s.ownerCI[p := NewOwner(ph, a)], movesCI := s.movesCI[p := Get(s.movesCI, p) + 1]))
    else l
  }

  predicate Running(l: Loop) {
    l.i < MIGRATION_LIMIT || l.iCxi < MIGRATION_LIMIT
  }

  function Visit(l: Loop, ph: Phase, a: nat, cap: nat): Loop
    requires Sized(ph) && a < |ph.cands| && -1 <= l.cursor < |ph.cands|
  {
    VisitCI(VisitBaseline(l, ph, a), ph, a, cap)
  }

  /** The loop after `n` candidates. Once both budgets are used up nothing changes any more. */
  function After(s: Pages, ph: Phase, n: nat): (l: Loop)
    requires GoodPhase(ph) && n <= |ph.cands|
    ensures -1 <= l.cursor < |ph.cands|
  {
    if n == 0 then Start(s, ph)
    else
      var l := After(s, ph, n - 1);
      if Running(l) then Visit(l, ph, n - 1, PoolCap(s)) else l
  }

  /** One whole phase. */
  function DoPhase(s: Pages, ph: Phase): Pages
    requires GoodPhase(ph)
  {
    var t := After(FirstTouch(s, ph), ph, |ph.cands|).pages;
    t.(phase := t.phase + 1)
  }

  /** Any number of phases. */
  function DoPhases(s: Pages, phs: seq<Phase>): Pages
    requires forall n :: 0 <= n < |phs| ==> GoodPhase(phs[n])
  {
    if |phs| == 0 then s else DoPhase(DoPhases(s, phs[..|phs| - 1]), phs[|phs| - 1])
  }
}
