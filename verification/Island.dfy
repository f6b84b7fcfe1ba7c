/** The island's half of the reassignment loop, candidate by candidate: what moves where, and what it costs. */
module Island {
  import opened Placement
  import opened Pool
  import opened PlacementRuns

  /** Candidate `n` may migrate once more, and the island's budget is not used up. */
  ghost predicate MayMove(l: Loop, p: nat) {
    l.iCxi < 327680 && Get(l.pages.movesCI, p) <= l.pages.phase / 4
  }

  /** Nothing on the island changes. */
  ghost predicate Rests(l: Loop, l': Loop) {
    && l'.pages.ownerCI == l.pages.ownerCI && l'.pages.movesCI == l.pages.movesCI && l'.pages.inPool == l.pages.inPool
    && l'.iCxi == l.iCxi && l'.toCI == l.toCI && l'.migratedCI == l.migratedCI && l'.evictions == l.evictions
    && l'.hot == l.hot && l'.cursor == l.cursor
  }

  /** Page `p` goes to socket `o`. */
  ghost predicate MovesTo(l: Loop, l': Loop, p: nat, o: nat) {
    && l'.pages.ownerCI == l.pages.ownerCI[p := o]
    && l'.pages.movesCI == l.pages.movesCI[p := Get(l.pages.movesCI, p) + 1] && l'.pages.inPool == l.pages.inPool
    && l'.iCxi == l.iCxi + 1 && l'.toCI == l.toCI && l'.migratedCI == l.migratedCI + 1 && l'.evictions == l.evictions
    && l'.hot == l.hot && l'.cursor == l.cursor
  }

  /** Page `p` goes into the pool, which has room. */
  ghost predicate Enters(l: Loop, l': Loop, p: nat) {
    && l'.pages.ownerCI == l.pages.ownerCI[p := CXO]
    && l'.pages.movesCI == l.pages.movesCI[p := Get(l.pages.movesCI, p) + 1] && l'.pages.inPool == l.pages.inPool + 1
    && l'.iCxi == l.iCxi + 1 && l'.toCI == l.toCI + 1 && l'.migratedCI == l.migratedCI && l'.evictions == l.evictions
    && l'.hot == l.hot && l'.cursor == l.cursor
  }

  /** Page `p` goes into the full pool, and page `q` leaves it for socket `o`; `q` is at position `v` of the candidates,
      and the flag goes up if it is not colder. */
  ghost predicate Replaces(l: Loop, l': Loop, p: nat, q: nat, o: nat, v: nat, hot: bool) {
    && Get(l.pages.ownerCI[p := CXO], q) == CXO
    && l'.pages.ownerCI == l.pages.ownerCI[p := CXO][q := o]
    && l'.pages.movesCI == l.pages.movesCI[p := Get(l.pages.movesCI, p) + 1] && l'.pages.inPool == l.pages.inPool
    && l'.iCxi == l.iCxi + 2 && l'.toCI == l.toCI + 1 && l'.migratedCI == l.migratedCI && l'.evictions == l.evictions + 1
    && (l'.hot <==> l.hot || hot) && l'.cursor == v
  }

  /** What visiting candidate `n` does. A page that may move goes into the pool if at least eight sockets touched it and
      no hot page has been evicted; from a full pool the page at position `v` is evicted to `o`, the first page of the
      pool from the cursor on. Otherwise it goes to its chosen socket `o`. It rests if it is there already. */
  ghost predicate IslandStep(ph: Phase, n: nat, cap: nat, l: Loop, l': Loop, o: nat, v: nat)
    requires Sized(ph) && n < |ph.cands| && l.cursor < |ph.cands|
  {
    var p, owner := ph.cands[n].0, Get(l.pages.ownerCI, ph.cands[n].0);
    if !MayMove(l, p) then Rests(l, l')
    else if !l.hot && |Touchers(ph, p, N_SOCKETS)| >= 8 then
      if owner == CXO then Rests(l, l')
      else if l.pages.inPool + 1 < cap then Enters(l, l', p)
      else
        && v <= l.cursor && (forall b :: v < b <= l.cursor ==> Get(l.pages.ownerCI[p := CXO], ph.cands[b].0) != CXO)
        && GoesTo(ph, ph.cands[v].0, ph.evictDraws[n], o)
        && Replaces(l, l', p, ph.cands[v].0, o, v, ph.cands[v].1 >= ph.cands[n].1)
    else
      && GoesTo(ph, p, ph.draws[n], o)
      && if o == owner then Rests(l, l') else MovesTo(l, l', p, o)
  }

  /******* Proof *******/

  /** The baseline half leaves the island alone. */
  lemma BaselineRests(l: Loop, ph: Phase, a: nat)
    requires Sized(ph) && a < |ph.cands|
    ensures Rests(l, VisitBaseline(l, ph, a)) && VisitBaseline(l, ph, a).pages.phase == l.pages.phase
  {
    hide NewOwner, PingPongLimit;
  }

  lemma MayMoveIs(l: Loop, ph: Phase, a: nat)
    requires Sized(ph) && a < |ph.cands|
    ensures var p, owner := ph.cands[a].0, Get(l.pages.ownerCI, ph.cands[a].0); var shared := |Touchers(ph, p, N_SOCKETS)| >= 8;
      && (Inserts(l, ph, a) <==> MayMove(l, p) && !l.hot && shared && owner != CXO)
      && (MovesCI(l, ph, a) <==> MayMove(l, p) && (l.hot || !shared) && owner != NewOwner(ph, a))
  {
    hide NewOwner, SharersOf, Touchers;
    SharersAreTouchers(ph, ph.cands[a].0, N_SOCKETS);
  }

  lemma InsertsEnters(l: Loop, ph: Phase, a: nat, cap: nat)
    requires Sized(ph) && a < |ph.cands| && -1 <= l.cursor < |ph.cands| && Inserts(l, ph, a) && l.pages.inPool + 1 < cap
    ensures Enters(l, VisitCI(l, ph, a, cap), ph.cands[a].0)
  {
    hide Inserts, EvictFor;
  }

  lemma MovesMoves(l: Loop, ph: Phase, a: nat, cap: nat)
    requires Sized(ph) && a < |ph.cands| && -1 <= l.cursor < |ph.cands| && !Inserts(l, ph, a)
    ensures if MovesCI(l, ph, a) then MovesTo(l, VisitCI(l, ph, a, cap), ph.cands[a].0, NewOwner(ph, a))
            else Rests(l, VisitCI(l, ph, a, cap))
  {
    hide Inserts, MovesCI, NewOwner, EvictFor;
  }

  lemma EvictsReplaces(l: Loop, ph: Phase, a: nat, cap: nat, v: int)
    requires Sized(ph) && a < |ph.cands| && -1 <= l.cursor < |ph.cands| && Inserts(l, ph, a) && cap <= l.pages.inPool + 1
    requires v == FindVictim(Insert(l, ph, a).pages.ownerCI, ph, l.cursor) && v >= 0
    ensures Replaces(l, VisitCI(l, ph, a, cap), ph.cands[a].0, ph.cands[v].0, EvictedOwner(ph, a, ph.cands[v].0), v,
                     ph.cands[v].1 >= ph.cands[a].1)
  {
    hide Inserts, EvictedOwner;
  }

  lemma {:induction false} VisitIsIslandStep(l: Loop, ph: Phase, a: nat, cap: nat) returns (o: nat, v: nat)
    requires GoodPhase(ph) && Sized(ph) && a < |ph.cands| && -1 <= l.cursor < |ph.cands| && LoopInv(l, ph, a, cap)
    ensures IslandStep(ph, a, cap, l, VisitCI(l, ph, a, cap), o, v)
  {
    hide GoodPhase, LoopInv, Inserts, MovesCI, Insert, VisitCI, FindVictim, NewOwner, EvictedOwner, MayMove, GoesTo, Rests, MovesTo, Enters,
      Replaces, Touchers;
    MayMoveIs(l, ph, a);
    NewOwnerIs(ph, a);
    o, v := NewOwner(ph, a), 0;
    if Inserts(l, ph, a) {
      if l.pages.inPool + 1 < cap {
        InsertsEnters(l, ph, a, cap);
      } else {
        v := VictimOf(l, ph, a, cap);
        EvictedOwnerIs(ph, a, ph.cands[v].0);
        o := EvictedOwner(ph, a, ph.cands[v].0);
        EvictsReplaces(l, ph, a, cap, v);
      }
    } else {
      MovesMoves(l, ph, a, cap);
    }
  }

  lemma VictimOf(l: Loop, ph: Phase, a: nat, cap: nat) returns (v: nat)
    requires GoodPhase(ph) && a < |ph.cands| && -1 <= l.cursor < |ph.cands|
    requires LoopInv(l, ph, a, cap) && Inserts(l, ph, a) && cap <= l.pages.inPool + 1
    ensures v == FindVictim(Insert(l, ph, a).pages.ownerCI, ph, l.cursor) < |ph.cands|
    ensures Insert(l, ph, a).pages.ownerCI == l.pages.ownerCI[ph.cands[a].0 := CXO]
  {
    hide GoodPhase, LoopInv, Inserts, FindVictim;
    VictimFound(l, ph, a, cap);
    v := FindVictim(Insert(l, ph, a).pages.ownerCI, ph, l.cursor);
  }

  /** The step of the island does not look at the baseline. */
  lemma SameIsland(ph: Phase, n: nat, cap: nat, l: Loop, m: Loop, l': Loop, o: nat, v: nat)
    requires Sized(ph) && n < |ph.cands| && l.cursor < |ph.cands| && m.cursor < |ph.cands| && Rests(l, m) && m.pages.phase == l.pages.phase && IslandStep(ph, n, cap, m, l', o, v)
    ensures IslandStep(ph, n, cap, l, l', o, v)
  {
    hide Touchers, GoesTo;
  }

  lemma StoppedRests(ph: Phase, n: nat, cap: nat, l: Loop)
    requires Sized(ph) && n < |ph.cands| && l.cursor < |ph.cands| && !Running(l)
    ensures IslandStep(ph, n, cap, l, l, 0, 0)
  {
    hide Touchers, GoesTo;
  }

  /** In every phase of every run, visiting candidate `n` changes the island as described and in no other way. The pool
      holds a fifth of the pages known after first touch. */
  lemma EveryVisitIsIslandStep(s: Pages, ph: Phase, n: nat) returns (o: nat, v: nat)
    requires PagesInv(s) && GoodPhase(ph) && n < |ph.cands|
    ensures Sized(ph)
    ensures var t := FirstTouch(s, ph);
      IslandStep(ph, n, |t.ownerCI| / 5, After(t, ph, n), After(t, ph, n + 1), o, v) && After(t, ph, n).pages.phase == s.phase
  {
    hide GoodPhase, FirstTouch, After, LoopInv, VisitBaseline, VisitCI, IslandStep, Rests, PagesInv, Seen, OwnersOK, PoolOK, Running;
    GoodIsSized(ph);
    var t := FirstTouch(s, ph);
    TouchKeeps(s, ph);
    InvParts(t);
    LoopKeeps(t, ph, n);
    LoopKeys(t, ph, n);
    FirstTouchGrows(s, ph);
    AfterStep(t, ph, n + 1);
    var l := After(t, ph, n);
    if Running(l) {
      BaselineKeeps(l, ph, n, PoolCap(t));
      BaselineRests(l, ph, n);
      var m := VisitBaseline(l, ph, n);
      o, v := VisitIsIslandStep(m, ph, n, PoolCap(t));
      SameIsland(ph, n, PoolCap(t), l, m, VisitCI(m, ph, n, PoolCap(t)), o, v);
    } else {
      o, v := 0, 0;
      StoppedRests(ph, n, PoolCap(t), l);
    }
  }
}
