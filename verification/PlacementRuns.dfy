/** Whole phases and whole runs: pool capacity, evictions, and migration bounds. */
module PlacementRuns {
  import opened Placement
  import opened Counting
  import opened Pool

  /** What holds between phases. The program's pool count may exceed the number of pages in the pool, because a page
      that leaves the pool by migration is not counted out; it never falls below it. */
  ghost predicate PagesInv(s: Pages) {
    OwnersOK(s) && PoolOK(s, PoolCap(s))
  }

  ghost predicate GoodPhases(phs: seq<Phase>) {
    forall n :: 0 <= n < |phs| ==> GoodPhase(phs[n])
  }

  lemma {:induction false} LoopKeys(s: Pages, ph: Phase, n: nat)
    requires GoodPhase(ph) && n <= |ph.cands|
    requires OwnersOK(s) && Seen(s, ph) && PoolOK(s, PoolCap(s))
    ensures After(s, ph, n).pages.ownerCI.Keys == s.ownerCI.Keys && After(s, ph, n).pages.phase == s.phase
    decreases n
  {
    hide After, Visit, LoopInv, GoodPhase, PoolOK, OwnersOK, Seen, PoolCap;
    if n == 0 {
      AfterNone(s, ph);
    } else {
      AfterStep(s, ph, n);
      LoopKeys(s, ph, n - 1);
      var l := After(s, ph, n - 1);
      if Running(l) {
        LoopKeeps(s, ph, n - 1);
        VisitKeys(l, ph, n - 1, PoolCap(s));
      }
    }
  }

  lemma VisitKeys(l: Loop, ph: Phase, a: nat, cap: nat)
    requires GoodPhase(ph) && a < |ph.cands| && -1 <= l.cursor < |ph.cands| && LoopInv(l, ph, a, cap)
    ensures Visit(l, ph, a, cap).pages.ownerCI.Keys == l.pages.ownerCI.Keys
    ensures Visit(l, ph, a, cap).pages.phase == l.pages.phase
  {
    hide GoodPhase, NewOwner, VisitBaseline, CursorOK, PoolOK, Budgets;
    GoodIsSized(ph);
    BaselineKeys(l, ph, a);
    var m := VisitBaseline(l, ph, a);
    assert ph.cands[a].0 in l.pages.owner;
    if Inserts(m, ph, a) {
      var t := Insert(m, ph, a);
      var v := FindVictim(t.pages.ownerCI, ph, t.cursor);
      if v >= 0 { assert ph.cands[v].0 in l.pages.owner; }
    }
  }

  lemma BaselineKeys(l: Loop, ph: Phase, a: nat)
    requires Sized(ph) && a < |ph.cands|
    ensures var m := VisitBaseline(l, ph, a);
      m.pages.ownerCI == l.pages.ownerCI && m.cursor == l.cursor && m.pages.phase == l.pages.phase
  {}

  lemma SubsetSize<T>(a: set<T>, b: set<T>)
    requires a <= b
    ensures |a| <= |b|
  {
    Minus(b, a);
  }

  /** First touch can only raise the pool capacity. */
  lemma TouchKeeps(s: Pages, ph: Phase)
    requires PagesInv(s) && GoodPhase(ph)
    ensures PagesInv(FirstTouch(s, ph)) && Seen(FirstTouch(s, ph), ph)
  {
    var t := FirstTouch(s, ph);
    FirstTouchOwners(s, ph);
    FirstTouchSeen(s, ph);
    FirstTouchPool(s, ph);
    hide GoodPhase, FirstTouch, OwnersOK, Seen;
    assert s.ownerCI.Keys <= t.ownerCI.Keys by { FirstTouchGrows(s, ph); }
    SubsetSize(s.ownerCI.Keys, t.ownerCI.Keys);
    assert |s.ownerCI.Keys| == |s.ownerCI| && |t.ownerCI.Keys| == |t.ownerCI|;
    assert t.inPool == s.inPool by { FirstTouchGrows(s, ph); }
  }

  lemma FirstTouchGrows(s: Pages, ph: Phase)
    requires Sized(ph)
    ensures var t := FirstTouch(s, ph);
      s.ownerCI.Keys <= t.ownerCI.Keys && t.inPool == s.inPool && t.moves == s.moves && t.movesCI == s.movesCI && t.phase == s.phase
  {}

  lemma PhaseKeeps(s: Pages, ph: Phase)
    requires PagesInv(s) && GoodPhase(ph)
    ensures PagesInv(DoPhase(s, ph))
  {
    hide GoodPhase, FirstTouch, After, Seen, PagesInv;
    GoodIsSized(ph);
    TouchKeeps(s, ph);
    RestKeeps(FirstTouch(s, ph), ph);
  }

  lemma RestKeeps(s: Pages, ph: Phase)
    requires PagesInv(s) && Seen(s, ph) && GoodPhase(ph)
    ensures var t := After(s, ph, |ph.cands|).pages; PagesInv(t.(phase := t.phase + 1))
  {
    hide GoodPhase, FirstTouch, After, Seen, PagesInv;
    LoopPages(s, ph);
    PhaseNumberIrrelevant(After(s, ph, |ph.cands|).pages);
  }

  /** The loop ends with the pages it started with, and within the capacity it started with. */
  lemma LoopPages(s: Pages, ph: Phase)
    requires GoodPhase(ph) && PagesInv(s) && Seen(s, ph)
    ensures PagesInv(After(s, ph, |ph.cands|).pages)
  {
    hide GoodPhase, After, OwnersOK, Seen, CursorOK, Budgets;
    LoopKeeps(s, ph, |ph.cands|);
    LoopKeys(s, ph, |ph.cands|);
    var u := After(s, ph, |ph.cands|).pages;
    assert |u.ownerCI.Keys| == |u.ownerCI| && |s.ownerCI.Keys| == |s.ownerCI|;
  }

  lemma PhaseNumberIrrelevant(s: Pages)
    ensures PagesInv(s) ==> PagesInv(s.(phase := s.phase + 1))
  {}

  lemma NoPagesInv()
    ensures PagesInv(NO_PAGES)
  {}

  lemma {:induction false} PhasesKeep(phs: seq<Phase>)
    requires GoodPhases(phs)
    ensures PagesInv(DoPhases(NO_PAGES, phs))
    decreases |phs|
  {
    hide GoodPhase, DoPhase, PagesInv;
    if |phs| == 0 {
      NoPagesInv();
    } else {
      PhasesKeep(phs[..|phs| - 1]);
      PhaseKeeps(DoPhases(NO_PAGES, phs[..|phs| - 1]), phs[|phs| - 1]);
    }
  }

  /** After any number of phases: every owner is a socket or the island, both maps know the same pages, and the pages
      on the island are at most as many as counted, which is less than the capacity. */
  lemma PoolNeverOverflows(phs: seq<Phase>)
    requires GoodPhases(phs)
    ensures var s := DoPhases(NO_PAGES, phs);
      && OwnersOK(s)
      && |InPool(s.ownerCI)| <= s.inPool <= Max0(|s.ownerCI| / 5 - 1)
  {
    hide DoPhases;
    PhasesKeep(phs);
  }

  /******* Evictions *******/

  /** In any phase, when candidate `n` enters a full pool: a victim is found; it is the victim of a full rescan
      exactly when the visit has not passed the cursor; and unless it is flagged as too hot, it is the coldest
      candidate in the pool, strictly colder than the page it makes room for. */
  lemma EvictionIsColdest(s: Pages, ph: Phase, n: nat)
    requires PagesInv(s) && GoodPhase(ph) && n < |ph.cands|
    requires var t := FirstTouch(s, ph); var m := VisitBaseline(After(t, ph, n), ph, n);
      Running(After(t, ph, n)) && Inserts(m, ph, n) && PoolCap(t) <= m.pages.inPool + 1
    ensures var t := FirstTouch(s, ph); var m := VisitBaseline(After(t, ph, n), ph, n); var ins := Insert(m, ph, n);
      && -1 <= ins.cursor < |ph.cands|
      && var v := FindVictim(ins.pages.ownerCI, ph, ins.cursor);
      && v >= 0
      && (v == Rescan(ins, ph) <==> n <= m.cursor)
      && (ph.cands[v].1 < ph.cands[n].1 ==> v == Rescan(ins, ph) && n < v)
      && (After(t, ph, n + 1).hot <==> ph.cands[v].1 >= ph.cands[n].1)
      && After(t, ph, n + 1).pages.ownerCI ==
           m.pages.ownerCI[ph.cands[n].0 := CXO][ph.cands[v].0 := EvictedOwner(ph, n, ph.cands[v].0)]
  {
    hide GoodPhase, FirstTouch, LoopInv, VisitBaseline, Visit, FindVictim, Inserts, EvictedOwner;
    GoodIsSized(ph);
    var t := FirstTouch(s, ph);
    TouchKeeps(s, ph);
    LoopKeeps(t, ph, n);
    var l := After(t, ph, n);
    BaselineKeeps(l, ph, n, PoolCap(t));
    var m := VisitBaseline(l, ph, n);
    VictimFound(m, ph, n, PoolCap(t));
    CursorIsRescan(m, ph, n, PoolCap(t));
    EvictResult(l, ph, n, PoolCap(t));
  }

  lemma EvictResult(l: Loop, ph: Phase, a: nat, cap: nat)
    requires Sized(ph) && a < |ph.cands| && -1 <= l.cursor < |ph.cands|
    requires var m := VisitBaseline(l, ph, a); Inserts(m, ph, a) && cap <= m.pages.inPool + 1
    ensures var m := VisitBaseline(l, ph, a); var ins := Insert(m, ph, a);
      && -1 <= ins.cursor < |ph.cands|
      && var v := FindVictim(ins.pages.ownerCI, ph, ins.cursor);
      v >= 0 ==>
        && (Visit(l, ph, a, cap).hot <==> ph.cands[v].1 >= ph.cands[a].1)
        && Visit(l, ph, a, cap).pages.ownerCI ==
             m.pages.ownerCI[ph.cands[a].0 := CXO][ph.cands[v].0 := EvictedOwner(ph, a, ph.cands[v].0)]
  {}

  /** In any phase: the scan never runs out, at most one eviction is flagged, budgets are kept, and after the flag is
      up no page enters the pool. */
  lemma PhaseDiscipline(s: Pages, ph: Phase, n: nat)
    requires PagesInv(s) && GoodPhase(ph) && n <= |ph.cands|
    ensures var t := FirstTouch(s, ph); var l := After(t, ph, n);
      && !l.warned && l.flags <= 1 && (l.hot <==> l.flags == 1)
      && l.i == l.migrated <= 327680
      && l.iCxi == l.toCI + l.migratedCI + l.evictions <= 327680 + 1
      && (n < |ph.cands| && l.hot ==> InPool(After(t, ph, n + 1).pages.ownerCI) <= InPool(l.pages.ownerCI))
  {
    var t := FirstTouch(s, ph);
    TouchKeeps(s, ph);
    LoopKeeps(t, ph, n);
    var l := After(t, ph, n);
    if n < |ph.cands| && l.hot && Running(l) { NothingEnters(l, ph, n, PoolCap(t)); }
  }

  lemma NothingEnters(l: Loop, ph: Phase, a: nat, cap: nat)
    requires GoodPhase(ph) && a < |ph.cands| && -1 <= l.cursor < |ph.cands| && l.hot
    ensures InPool(Visit(l, ph, a, cap).pages.ownerCI) <= InPool(l.pages.ownerCI)
  {
    NewOwnerIs(ph, a);
  }

  lemma EvictEnters(l: Loop, ph: Phase, a: nat, p: nat)
    requires GoodPhase(ph) && a < |ph.cands| && -1 <= l.cursor < |ph.cands|
    requires p in InPool(EvictFor(l, ph, a).pages.ownerCI)
    ensures p in InPool(l.pages.ownerCI)
  {}

  lemma IslandEnters(l: Loop, ph: Phase, a: nat, cap: nat, p: nat)
    requires GoodPhase(ph) && a < |ph.cands| && -1 <= l.cursor < |ph.cands|
    requires p in InPool(VisitCI(l, ph, a, cap).pages.ownerCI) && p !in InPool(l.pages.ownerCI)
    ensures Sized(ph) && p == ph.cands[a].0 && Sharers(ph, p) >= SHARER_THRESHOLD
  {
    NewOwnerIs(ph, a);
    hide GoodPhase, NewOwner, EvictFor, Sharers;
    GoodIsSized(ph);
    if Inserts(l, ph, a) {
      var t := Insert(l, ph, a);
      if cap <= t.pages.inPool { EvictEnters(t, ph, a, p); }
    }
  }

  lemma VisitEnters(l: Loop, ph: Phase, a: nat, cap: nat, p: nat)
    requires GoodPhase(ph) && a < |ph.cands| && -1 <= l.cursor < |ph.cands|
    requires p in InPool(Visit(l, ph, a, cap).pages.ownerCI) && p !in InPool(l.pages.ownerCI)
    ensures Sized(ph) && p == ph.cands[a].0 && Sharers(ph, p) >= SHARER_THRESHOLD
  {
    hide GoodPhase, VisitBaseline, VisitCI, InPool, Sharers;
    GoodIsSized(ph);
    BaselineKeys(l, ph, a);
    IslandEnters(VisitBaseline(l, ph, a), ph, a, cap, p);
  }

  /** Only pages that many sockets share enter the pool. */
  lemma {:induction false} OnlySharedPagesEnter(s: Pages, ph: Phase, n: nat, p: nat)
    requires GoodPhase(ph) && n <= |ph.cands|
    requires p in InPool(After(s, ph, n).pages.ownerCI) && p !in InPool(s.ownerCI)
    ensures Sized(ph) && Sharers(ph, p) >= 8
    decreases n
  {
    hide GoodPhase, Visit, InPool;
    GoodIsSized(ph);
    if n > 0 {
      var l := After(s, ph, n - 1);
      if p in InPool(l.pages.ownerCI) {
        OnlySharedPagesEnter(s, ph, n - 1, p);
      } else {
        VisitEnters(l, ph, n - 1, PoolCap(s), p);
      }
    }
  }

  /******* Migration counters *******/

  /** No counter exceeds a quarter of the current phase number, plus one. */
  ghost predicate MovesWithin(s: Pages, bound: nat) {
    forall p :: Get(s.moves, p) <= bound && Get(s.movesCI, p) <= bound
  }

  lemma {:induction false} LoopMovesWithin(s: Pages, ph: Phase, n: nat, bound: nat)
    requires GoodPhase(ph) && n <= |ph.cands|
    requires OwnersOK(s) && Seen(s, ph) && PoolOK(s, PoolCap(s)) && MovesWithin(s, bound) && PingPongLimit(s.phase) < bound
    ensures MovesWithin(After(s, ph, n).pages, bound)
    decreases n
  {
    hide After, GoodPhase, PoolOK, OwnersOK, Seen, MovesWithin, LoopInv, PoolCap, PingPongLimit;
    if n == 0 {
      AfterNone(s, ph);
    } else {
      LoopMovesWithin(s, ph, n - 1, bound);
      LoopKeys(s, ph, n - 1);
      OneMoreMovesWithin(s, ph, n, bound);
    }
  }

  lemma OneMoreMovesWithin(s: Pages, ph: Phase, n: nat, bound: nat)
    requires GoodPhase(ph) && 0 < n <= |ph.cands| && PingPongLimit(s.phase) < bound
    requires var l := After(s, ph, n - 1); MovesWithin(l.pages, bound) && l.pages.phase == s.phase
    ensures MovesWithin(After(s, ph, n).pages, bound)
  {
    hide Visit, GoodPhase, MovesWithin, PoolCap, PingPongLimit;
    GoodIsSized(ph);
    var l := After(s, ph, n - 1);
    if Running(l) { VisitMovesWithin(l, ph, n - 1, PoolCap(s), bound); }
  }

  lemma VisitMovesWithin(l: Loop, ph: Phase, a: nat, cap: nat, bound: nat)
    requires Sized(ph) && a < |ph.cands| && -1 <= l.cursor < |ph.cands|
    requires MovesWithin(l.pages, bound) && PingPongLimit(l.pages.phase) < bound
    ensures MovesWithin(Visit(l, ph, a, cap).pages, bound)
  {
    hide Visit, PingPongLimit;
    VisitMoves(l, ph, a, cap);
    var s, t := l.pages, Visit(l, ph, a, cap).pages;
    forall p ensures Get(t.moves, p) <= bound && Get(t.movesCI, p) <= bound {
      assert Get(s.moves, p) <= bound && Get(s.movesCI, p) <= bound;
    }
  }

  /** `m` after page `p` has migrated once, which needs its counter to be within the limit. */
  ghost predicate OnceMore(m: map<nat, nat>, m': map<nat, nat>, p: nat, limit: nat) {
    Get(m, p) <= limit && m' == m[p := Get(m, p) + 1]
  }

  /** A visit leaves a counter alone, or lets the candidate migrate once more. */
  lemma VisitMoves(l: Loop, ph: Phase, a: nat, cap: nat)
    requires Sized(ph) && a < |ph.cands| && -1 <= l.cursor < |ph.cands|
    ensures var s, t := l.pages, Visit(l, ph, a, cap).pages; var limit := PingPongLimit(s.phase); var p := ph.cands[a].0;
      && (t.moves == s.moves || OnceMore(s.moves, t.moves, p, limit))
      && (t.movesCI == s.movesCI || OnceMore(s.movesCI, t.movesCI, p, limit))
  {
    hide VisitBaseline, VisitCI, PingPongLimit, OnceMore;
    BaselineMoves(l, ph, a);
    IslandMoves(VisitBaseline(l, ph, a), ph, a, cap);
  }

  lemma BaselineMoves(l: Loop, ph: Phase, a: nat)
    requires Sized(ph) && a < |ph.cands|
    ensures var s, m := l.pages, VisitBaseline(l, ph, a);
      && m.cursor == l.cursor && m.pages.phase == s.phase && m.pages.movesCI == s.movesCI
      && (m.pages.moves == s.moves || OnceMore(s.moves, m.pages.moves, ph.cands[a].0, PingPongLimit(s.phase)))
  {}

  lemma IslandMoves(l: Loop, ph: Phase, a: nat, cap: nat)
    requires Sized(ph) && a < |ph.cands| && -1 <= l.cursor < |ph.cands|
    ensures var s, t := l.pages, VisitCI(l, ph, a, cap).pages;
      && t.moves == s.moves
      && (t.movesCI == s.movesCI || OnceMore(s.movesCI, t.movesCI, ph.cands[a].0, PingPongLimit(s.phase)))
  {
    hide NewOwner, EvictFor, Sharers, PingPongLimit;
    if Inserts(l, ph, a) { EvictForMoves(Insert(l, ph, a), ph, a); }
  }

  lemma EvictForMoves(l: Loop, ph: Phase, a: nat)
    requires Sized(ph) && a < |ph.cands| && -1 <= l.cursor < |ph.cands|
    ensures EvictFor(l, ph, a).pages.moves == l.pages.moves && EvictFor(l, ph, a).pages.movesCI == l.pages.movesCI
  {}

  lemma {:induction false} NumberOfPhases(phs: seq<Phase>)
    requires GoodPhases(phs)
    ensures DoPhases(NO_PAGES, phs).phase == |phs|
    decreases |phs|
  {
    if |phs| > 0 {
      var s, ph := DoPhases(NO_PAGES, phs[..|phs| - 1]), phs[|phs| - 1];
      NumberOfPhases(phs[..|phs| - 1]);
      PhasesKeep(phs[..|phs| - 1]);
      TouchKeeps(s, ph);
      LoopKeys(FirstTouch(s, ph), ph, |ph.cands|);
    }
  }

  /** After phase `p` (counting from 0), no page has migrated more than `p / 4 + 1` times. */
  lemma {:induction false} MigrationsBounded(phs: seq<Phase>)
    requires GoodPhases(phs) && |phs| > 0
    ensures MovesWithin(DoPhases(NO_PAGES, phs), (|phs| - 1) / 4 + 1)
    decreases |phs|
  {
    hide GoodPhase, FirstTouch, After, DoPhase, MovesWithin, PagesInv;
    GoodIsSized(phs[|phs| - 1]);
    var init, ph := phs[..|phs| - 1], phs[|phs| - 1];
    var s := DoPhases(NO_PAGES, init);
    NumberOfPhases(init);
    PhasesKeep(init);
    if |init| > 0 {
      MigrationsBounded(init);
      WithinMore(s, (|init| - 1) / 4 + 1, |init| / 4 + 1);
    } else {
      NeverMoved(|init| / 4 + 1);
    }
    PhaseMovesWithin(s, ph);
  }

  lemma NeverMoved(bound: nat)
    ensures MovesWithin(NO_PAGES, bound)
  {}

  lemma WithinMore(s: Pages, few: nat, many: nat)
    requires MovesWithin(s, few) && few <= many
    ensures MovesWithin(s, many)
  {}

  lemma PhaseMovesWithin(s: Pages, ph: Phase)
    requires PagesInv(s) && GoodPhase(ph) && MovesWithin(s, PingPongLimit(s.phase) + 1)
    ensures MovesWithin(DoPhase(s, ph), PingPongLimit(s.phase) + 1)
  {
    hide GoodPhase, FirstTouch, After, PagesInv, PingPongLimit, MovesWithin, PoolCap, OwnersOK, PoolOK;
    GoodIsSized(ph);
    TouchKeeps(s, ph);
    FirstTouchGrows(s, ph);
    var t := FirstTouch(s, ph);
    assert PagesInv(t) ==> OwnersOK(t) && PoolOK(t, PoolCap(t)) by { InvParts(t); }
    SameMoves(s, t, PingPongLimit(s.phase) + 1);
    LoopMovesWithin(t, ph, |ph.cands|, PingPongLimit(s.phase) + 1);
    var u := After(t, ph, |ph.cands|).pages;
    SameMoves(u, u, PingPongLimit(s.phase) + 1);
  }

  lemma SameMoves(s: Pages, t: Pages, bound: nat)
    requires MovesWithin(s, bound) && s.moves == t.moves && s.movesCI == t.movesCI
    ensures MovesWithin(t, bound) && MovesWithin(t.(phase := t.phase + 1), bound)
  {}

  lemma InvParts(s: Pages)
    ensures PagesInv(s) ==> OwnersOK(s) && PoolOK(s, PoolCap(s))
  {}
}
