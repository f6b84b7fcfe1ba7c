/** The pool on the CXL island: its capacity, the eviction cursor, and what never happens. */
module Pool {
  import opened Placement
  import opened Counting

  /******* The invariant of the reassignment loop *******/

  function InPool(m: map<nat, nat>): set<nat> {
    set p | p in m && m[p] == CXO
  }

  function Max0(x: int): nat { if x < 0 then 0 else x }

  /** Both owner maps know the same pages; a baseline owner is a socket, an island owner is a socket or `CXO`. */
  ghost predicate OwnersOK(s: Pages) {
    && s.owner.Keys == s.ownerCI.Keys
    && (forall p :: p in s.owner ==> s.owner[p] < N_SOCKETS)
    && (forall p :: p in s.ownerCI ==> s.ownerCI[p] < N_SOCKETS || s.ownerCI[p] == CXO)
  }

  /** All candidates have owners. */
  ghost predicate Seen(s: Pages, ph: Phase) {
    forall a :: 0 <= a < |ph.cands| ==> ph.cands[a].0 in s.owner
  }

  ghost predicate PoolOK(s: Pages, cap: nat) {
    |InPool(s.ownerCI)| <= s.inPool <= Max0(cap - 1)
  }

  /** Until a hot page is evicted, no candidate beyond the cursor is in the pool. Before the first eviction the cursor
      is at the coldest candidate; after it, the pool is full and holds a candidate that the cursor has yet to reach. */
  ghost predicate CursorOK(l: Loop, ph: Phase, n: nat, cap: nat)
    requires n <= |ph.cands| && -1 <= l.cursor < |ph.cands|
  {
    && l.flags == (if l.hot then 1 else 0)
    && !l.warned
    && (!l.hot ==>
      && (forall b :: l.cursor < b < |ph.cands| ==> Get(l.pages.ownerCI, ph.cands[b].0) != CXO)
      && (l.evictions == 0 ==> l.cursor == |ph.cands| - 1)
      && (l.evictions > 0 ==> l.pages.inPool >= cap - 1 && Ahead(l, ph, n)))
  }

  ghost predicate Ahead(l: Loop, ph: Phase, n: nat)
    requires n <= |ph.cands|
  {
    exists b :: 0 <= b < n && b < l.cursor && Get(l.pages.ownerCI, ph.cands[b].0) == CXO
  }

  ghost predicate Budgets(l: Loop) {
    && l.i == l.migrated <= MIGRATION_LIMIT
    && l.iCxi == l.toCI + l.migratedCI + l.evictions <= MIGRATION_LIMIT + 1
  }

  ghost predicate LoopInv(l: Loop, ph: Phase, n: nat, cap: nat)
    requires n <= |ph.cands| && -1 <= l.cursor < |ph.cands|
  {
    && OwnersOK(l.pages) && Seen(l.pages, ph) && PoolOK(l.pages, cap) && CursorOK(l, ph, n, cap) && Budgets(l)
  }

  /******* Owners *******/

  /** The busiest socket is the first one with the highest count. */
  lemma {:induction false} BusiestIs(ph: Phase, p: nat, n: nat, default: nat)
    requires n <= |ph.sampled|
    ensures var best := Busiest(ph, p, n, default);
      && (forall j :: 0 <= j < n ==> Get(ph.sampled[j], p) <= best.1)
      && (best.1 > 0 ==> best.0 < n && Get(ph.sampled[best.0], p) == best.1
                         && forall j :: 0 <= j < best.0 ==> Get(ph.sampled[j], p) < best.1)
      && (best.1 == 0 ==> best.0 == default)
  {
    if n > 0 { BusiestIs(ph, p, n - 1, default); }
  }

  /** The sockets below `n` that touched page `p`. */
  function Touchers(ph: Phase, p: nat, n: nat): set<nat>
    requires n <= |ph.sampled|
  {
    set j | 0 <= j < n && p in ph.sampled[j]
  }

  lemma {:induction false} SharersCount(ph: Phase, p: nat, n: nat)
    requires n <= |ph.sampled|
    ensures |SharersOf(ph, p, n)| == |Touchers(ph, p, n)|
    ensures forall j :: j in Touchers(ph, p, n) <==> j in SharersOf(ph, p, n)
  {
    hide SharersOf, Touchers;
    if n > 0 {
      SharersCount(ph, p, n - 1);
      SharersMore(ph, p, n);
      TouchersMore(ph, p, n);
    } else {
      NoSharers(ph, p);
    }
  }

  lemma NoSharers(ph: Phase, p: nat)
    ensures SharersOf(ph, p, 0) == [] && Touchers(ph, p, 0) == {}
  {}

  lemma {:induction false} SharersAscend(ph: Phase, p: nat, n: nat, a: nat)
    requires n <= |ph.sampled| && a < |SharersOf(ph, p, n)|
    ensures |Touchers(ph, p, SharersOf(ph, p, n)[a])| == a
  {
    hide SharersOf, Touchers;
    if n == 0 {
      NoSharers(ph, p);
    } else {
      SharersMore(ph, p, n);
      if a < |SharersOf(ph, p, n - 1)| { SharersAscend(ph, p, n - 1, a); } else { SharersCount(ph, p, n - 1); }
    }
  }

  /** `SharersOf` lists the sockets that touched a page, each once and in ascending order: `a` of them are below its
      `a`th. */
  lemma SharersAreTouchers(ph: Phase, p: nat, n: nat)
    requires n <= |ph.sampled|
    ensures |SharersOf(ph, p, n)| == |Touchers(ph, p, n)|
    ensures forall j :: j in Touchers(ph, p, n) <==> j in SharersOf(ph, p, n)
    ensures forall a :: 0 <= a < |SharersOf(ph, p, n)| ==> |Touchers(ph, p, SharersOf(ph, p, n)[a])| == a
  {
    hide SharersOf, Touchers;
    SharersCount(ph, p, n);
    forall a | 0 <= a < |SharersOf(ph, p, n)| ensures |Touchers(ph, p, SharersOf(ph, p, n)[a])| == a {
      SharersAscend(ph, p, n, a);
    }
  }

  lemma SharersMore(ph: Phase, p: nat, n: nat)
    requires 0 < n <= |ph.sampled|
    ensures SharersOf(ph, p, n) == SharersOf(ph, p, n - 1) + if p in ph.sampled[n - 1] then [n - 1] else []
  {}

  lemma TouchersMore(ph: Phase, p: nat, n: nat)
    requires 0 < n <= |ph.sampled|
    ensures n - 1 !in Touchers(ph, p, n - 1)
    ensures Touchers(ph, p, n) == if p in ph.sampled[n - 1] then Touchers(ph, p, n - 1) + {n - 1} else Touchers(ph, p, n - 1)
  {}

  /** The lowest-numbered socket among those with the highest sampled count of the page. */
  ghost predicate IsHottest(ph: Phase, p: nat, o: nat)
    requires |ph.sampled| == N_SOCKETS
  {
    && o < N_SOCKETS
    && (forall j :: 0 <= j < N_SOCKETS ==> Get(ph.sampled[j], p) <= Get(ph.sampled[o], p))
    && (forall j :: 0 <= j < o ==> Get(ph.sampled[j], p) < Get(ph.sampled[o], p))
  }

  /** Where a page goes that does not go into the pool: one that at least eight sockets touched, to the drawn socket;
      one that fewer touched, to the hottest of them; one that nobody touched, to the drawn socket again. */
  ghost predicate GoesTo(ph: Phase, p: nat, draw: nat, o: nat)
    requires |ph.sampled| == N_SOCKETS
  {
    var n := |Touchers(ph, p, N_SOCKETS)|;
    if 1 <= n < 8 then IsHottest(ph, p, o) else o == draw % 16
  }

  lemma BusiestIsHottest(ph: Phase, p: nat, default: nat)
    requires GoodPhase(ph) && Sized(ph) && Sharers(ph, p) > 0
    ensures IsHottest(ph, p, Busiest(ph, p, N_SOCKETS, default).0)
  {
    BusiestIs(ph, p, N_SOCKETS, default);
    var j := SharersOf(ph, p, N_SOCKETS)[0];
    assert Get(ph.sampled[j], p) > 0;
  }

  /** The new owner of a candidate is a socket, never `INVAL_OWNER`: the lowest-numbered socket among those with the
      highest sampled count, or from eight sharers on the drawn one. */
  lemma NewOwnerIs(ph: Phase, a: nat)
    requires GoodPhase(ph) && a < |ph.cands|
    ensures Sized(ph) && NewOwner(ph, a) < N_SOCKETS
    ensures GoesTo(ph, ph.cands[a].0, ph.draws[a], NewOwner(ph, a))
  {
    var p := ph.cands[a].0;
    assert Sharers(ph, p) > 0;
    BusiestIsHottest(ph, p, INVAL_OWNER);
    hide GoodPhase, SharersOf, Busiest, Touchers;
    SharersAreTouchers(ph, p, N_SOCKETS);
  }

  /** So is the new owner of an evicted page. */
  lemma EvictedOwnerIs(ph: Phase, a: nat, p: nat)
    requires GoodPhase(ph) && a < |ph.cands|
    ensures Sized(ph) && EvictedOwner(ph, a, p) < N_SOCKETS
    ensures GoesTo(ph, p, ph.evictDraws[a], EvictedOwner(ph, a, p))
  {
    hide GoodPhase, SharersOf, Busiest, Touchers;
    GoodIsSized(ph);
    SharersAreTouchers(ph, p, N_SOCKETS);
    if Sharers(ph, p) > 0 {
      BusiestIsHottest(ph, p, ph.evictDraws[a] % N_SOCKETS);
    } else {
      Uncounted(ph, p, N_SOCKETS, ph.evictDraws[a] % N_SOCKETS);
    }
  }

  lemma Uncounted(ph: Phase, p: nat, n: nat, default: nat)
    requires n <= |ph.sampled| && |SharersOf(ph, p, n)| == 0
    ensures Busiest(ph, p, n, default).0 == default
  {
    BusiestIs(ph, p, n, default);
  }

  /** First touch gives a new page the same first owner in both maps, a socket, and leaves the pages that have owners
      alone. */
  lemma FirstTouchOwners(s: Pages, ph: Phase)
    requires OwnersOK(s) && Sized(ph)
    ensures OwnersOK(FirstTouch(s, ph)) && s.owner.Keys <= FirstTouch(s, ph).owner.Keys
    ensures forall p: nat :: FirstTouchAt(s, FirstTouch(s, ph), ph, p)
  {
    hide FirstTouch, SharersOf, Sharers, IsFirstOwner;
    forall p: nat
      ensures FirstTouchAt(s, FirstTouch(s, ph), ph, p)
    {
      TouchOne(s, ph, p);
    }
    var t := FirstTouch(s, ph);
    forall p | p in t.owner.Keys ensures p in t.ownerCI.Keys { assert FirstTouchAt(s, t, ph, p); }
    forall p | p in t.ownerCI.Keys ensures p in t.owner.Keys { assert FirstTouchAt(s, t, ph, p); }
    assert t.owner.Keys == t.ownerCI.Keys;
    forall p | p in t.owner ensures t.owner[p] < N_SOCKETS && (t.ownerCI[p] < N_SOCKETS || t.ownerCI[p] == CXO) {
      assert FirstTouchAt(s, t, ph, p);
      assert p in s.owner.Keys ==> p in s.ownerCI.Keys;
      if p !in s.owner { FirstIsSocket(ph, p, t.owner[p]); }
    }
    forall p | p in s.owner.Keys ensures p in t.owner.Keys { assert FirstTouchAt(s, t, ph, p); }
  }

  lemma FirstIsSocket(ph: Phase, p: nat, o: nat)
    requires |ph.sampled| == N_SOCKETS && IsFirstOwner(ph, p, o)
    ensures o < N_SOCKETS
  {}

  /** What first touch does to page `p`. */
  ghost predicate FirstTouchAt(s: Pages, t: Pages, ph: Phase, p: nat)
    requires |ph.sampled| == N_SOCKETS
  {
    && (p in t.owner <==> p in t.ownerCI)
    && (p in t.owner <==> p in s.owner || exists j :: 0 <= j < N_SOCKETS && p in ph.sampled[j])
    && (p in s.owner ==> p in s.ownerCI && t.owner[p] == s.owner[p] && t.ownerCI[p] == s.ownerCI[p])
    && (p in t.owner && p !in s.owner ==> IsFirstOwner(ph, p, t.owner[p]) && t.ownerCI[p] == t.owner[p])
  }

  lemma TouchOne(s: Pages, ph: Phase, p: nat)
    requires s.owner.Keys == s.ownerCI.Keys && Sized(ph)
    ensures FirstTouchAt(s, FirstTouch(s, ph), ph, p)
  {
    if p in Touched(ph) { FirstOwnerIs(ph, p); }
    hide SharersOf, FirstOwner, Sharers, IsFirstOwner;
    assert p in s.owner.Keys <==> p in s.ownerCI.Keys;
    assert p in Touched(ph) <==> exists j :: 0 <= j < N_SOCKETS && p in ph.sampled[j];
  }

  /** Of the sockets that touched the page, in ascending order, the one that the draw selects. */
  ghost predicate IsFirstOwner(ph: Phase, p: nat, o: nat)
    requires |ph.sampled| == N_SOCKETS
  {
    var n := |Touchers(ph, p, N_SOCKETS)|;
    o < N_SOCKETS && p in ph.sampled[o] && n > 0 && |Touchers(ph, p, o)| == Get(ph.firstDraw, p) % n
  }

  lemma FirstOwnerIs(ph: Phase, p: nat)
    requires Sized(ph) && p in Touched(ph)
    ensures Sharers(ph, p) > 0 && FirstOwner(ph, p) < N_SOCKETS && p in ph.sampled[FirstOwner(ph, p)]
    ensures IsFirstOwner(ph, p, FirstOwner(ph, p))
  {
    SharersAreTouchers(ph, p, N_SOCKETS);
  }

  lemma FirstTouchPool(s: Pages, ph: Phase)
    requires OwnersOK(s) && Sized(ph)
    ensures InPool(FirstTouch(s, ph).ownerCI) == InPool(s.ownerCI)
  {}

  lemma FirstTouchSeen(s: Pages, ph: Phase)
    requires GoodPhase(ph)
    ensures Seen(FirstTouch(s, ph), ph)
  {
    forall a | 0 <= a < |ph.cands| ensures ph.cands[a].0 in Touched(ph) {
      var sharers := SharersOf(ph, ph.cands[a].0, N_SOCKETS);
      assert ph.cands[a].0 in ph.sampled[sharers[0]];
    }
  }

  /******* The pool count *******/

  lemma InPoolPut(m: map<nat, nat>, p: nat, o: nat)
    requires p in m
    ensures InPool(m[p := o]) - {p} == InPool(m) - {p}
    ensures (p in InPool(m) <==> m[p] == CXO) && (p in InPool(m[p := o]) <==> o == CXO)
  {}

  lemma PoolPut(m: map<nat, nat>, p: nat, o: nat)
    requires p in m
    ensures |InPool(m[p := o])| + (if m[p] == CXO then 1 else 0) == |InPool(m)| + (if o == CXO then 1 else 0)
  {
    hide InPool;
    InPoolPut(m, p, o);
    Without(InPool(m), p);
    Without(InPool(m[p := o]), p);
  }

  /******* One eviction *******/

  /** Candidate `a` has just been inserted into a full pool. */
  ghost predicate Evicting(l: Loop, ph: Phase, a: nat, cap: nat)
    requires GoodPhase(ph) && a < |ph.cands| && -1 <= l.cursor < |ph.cands|
  {
    && LoopInv(l, ph, a, cap) && Inserts(l, ph, a) && cap <= l.pages.inPool + 1
  }

  /** The victim that a scan from the coldest candidate would find. */
  function Rescan(l: Loop, ph: Phase): int {
    FindVictim(l.pages.ownerCI, ph, |ph.cands| - 1)
  }

  /** The cursor always finds a page of the pool, and if that is colder than the inserted page, it is the coldest
      candidate in the pool. */
  lemma VictimFound(l: Loop, ph: Phase, a: nat, cap: nat)
    requires GoodPhase(ph) && a < |ph.cands| && -1 <= l.cursor < |ph.cands| && Evicting(l, ph, a, cap)
    ensures var t := Insert(l, ph, a); var v := FindVictim(t.pages.ownerCI, ph, t.cursor);
      && v >= 0
      && (ph.cands[v].1 < ph.cands[a].1 ==>
            && a < v && a <= l.cursor
            && forall b :: v < b < |ph.cands| ==> Get(t.pages.ownerCI, ph.cands[b].0) != CXO)
  {
    var t := Insert(l, ph, a);
    var v := FindVictim(t.pages.ownerCI, ph, t.cursor);
    assert Get(t.pages.ownerCI, ph.cands[a].0) == CXO;
    if l.evictions > 0 {
      var b :| 0 <= b < a && b < l.cursor && Get(l.pages.ownerCI, ph.cands[b].0) == CXO;
      assert Get(t.pages.ownerCI, ph.cands[b].0) == CXO;
    }
  }

  /** The cursor finds the victim of a full rescan exactly when the visit has not passed the cursor. */
  lemma CursorIsRescan(l: Loop, ph: Phase, a: nat, cap: nat)
    requires GoodPhase(ph) && a < |ph.cands| && -1 <= l.cursor < |ph.cands| && Evicting(l, ph, a, cap)
    ensures var t := Insert(l, ph, a);
      FindVictim(t.pages.ownerCI, ph, t.cursor) == Rescan(t, ph) <==> a <= l.cursor
  {
    var t := Insert(l, ph, a);
    VictimFound(l, ph, a, cap);
    assert Get(t.pages.ownerCI, ph.cands[a].0) == CXO;
  }

  /******* One visit *******/

  lemma SamePool(s: Pages, t: Pages, cap: nat)
    requires t.ownerCI == s.ownerCI && t.inPool == s.inPool
    ensures PoolOK(s, cap) ==> PoolOK(t, cap)
  {}

  lemma BaselineKeeps(l: Loop, ph: Phase, a: nat, cap: nat)
    requires GoodPhase(ph) && a < |ph.cands| && -1 <= l.cursor < |ph.cands| && LoopInv(l, ph, a, cap)
    ensures VisitBaseline(l, ph, a).cursor == l.cursor
    ensures LoopInv(VisitBaseline(l, ph, a), ph, a, cap)
  {
    hide GoodPhase, GoesTo, NewOwner, PoolOK, PingPongLimit;
    NewOwnerIs(ph, a);
    var t := VisitBaseline(l, ph, a);
    assert PoolOK(l.pages, cap) ==> PoolOK(t.pages, cap) by { SamePool(l.pages, t.pages, cap); }
    assert t.pages.ownerCI == l.pages.ownerCI;
    assert Ahead(l, ph, a) ==> Ahead(t, ph, a);
  }

  /** The pool page ahead of the cursor stays there when another candidate moves. */
  lemma StillAhead(l: Loop, t: Loop, ph: Phase, a: nat, o: nat)
    requires GoodPhase(ph) && a < |ph.cands| && Ahead(l, ph, a) && t.cursor == l.cursor
    requires t.pages.ownerCI == l.pages.ownerCI || t.pages.ownerCI == l.pages.ownerCI[ph.cands[a].0 := o]
    ensures Ahead(t, ph, a + 1)
  {}

  /** Moving a candidate that stays out of the pool. */
  lemma MoveKeeps(l: Loop, ph: Phase, a: nat, cap: nat)
    requires GoodPhase(ph) && a < |ph.cands| && -1 <= l.cursor < |ph.cands| && LoopInv(l, ph, a, cap)
    requires !Inserts(l, ph, a)
    ensures LoopInv(VisitCI(l, ph, a, cap), ph, a + 1, cap)
  {
    hide GoodPhase, NewOwner, Ahead;
    GoodIsSized(ph);
    var t := VisitCI(l, ph, a, cap);
    var p := ph.cands[a].0;
    if MovesCI(l, ph, a) {
      NewOwnerIs(ph, a);
      PoolPut(l.pages.ownerCI, p, NewOwner(ph, a));
    }
    if !l.hot && l.evictions > 0 { StillAhead(l, t, ph, a, NewOwner(ph, a)); }
  }

  /** Inserting a candidate into a pool that is not full. */
  lemma InsertKeeps(l: Loop, ph: Phase, a: nat, cap: nat)
    requires GoodPhase(ph) && a < |ph.cands| && -1 <= l.cursor < |ph.cands| && LoopInv(l, ph, a, cap)
    requires Inserts(l, ph, a) && l.pages.inPool + 1 < cap
    ensures LoopInv(VisitCI(l, ph, a, cap), ph, a + 1, cap)
  {
    PoolPut(l.pages.ownerCI, ph.cands[a].0, CXO);
    assert l.evictions == 0;
  }

  /** Inserting a candidate into a full pool, and evicting for it. */
  lemma EvictKeeps(l: Loop, ph: Phase, a: nat, cap: nat)
    requires GoodPhase(ph) && a < |ph.cands| && -1 <= l.cursor < |ph.cands| && Evicting(l, ph, a, cap)
    ensures LoopInv(VisitCI(l, ph, a, cap), ph, a + 1, cap)
  {
    hide GoesTo, EvictedOwner, NewOwner, SharersOf;
    var t := Insert(l, ph, a);
    var v := FindVictim(t.pages.ownerCI, ph, t.cursor);
    var u := VisitCI(l, ph, a, cap);
    VictimFound(l, ph, a, cap);
    EvictedOwnerIs(ph, a, ph.cands[v].0);
    PoolPut(l.pages.ownerCI, ph.cands[a].0, CXO);
    PoolPut(t.pages.ownerCI, ph.cands[v].0, EvictedOwner(ph, a, ph.cands[v].0));
    assert ph.cands[v].0 in InPool(t.pages.ownerCI);
    assert PoolOK(u.pages, cap);
    if !u.hot {
      assert Get(u.pages.ownerCI, ph.cands[a].0) == CXO;
      assert Ahead(u, ph, a + 1);
    }
  }

  lemma VisitKeeps(l: Loop, ph: Phase, a: nat, cap: nat)
    requires GoodPhase(ph) && a < |ph.cands| && -1 <= l.cursor < |ph.cands| && LoopInv(l, ph, a, cap)
    ensures LoopInv(Visit(l, ph, a, cap), ph, a + 1, cap)
  {
    hide LoopInv, VisitBaseline, VisitCI, GoodPhase;
    GoodIsSized(ph);
    BaselineKeeps(l, ph, a, cap);
    var m := VisitBaseline(l, ph, a);
    if Inserts(m, ph, a) {
      if cap <= m.pages.inPool + 1 { EvictKeeps(m, ph, a, cap); } else { InsertKeeps(m, ph, a, cap); }
    } else {
      MoveKeeps(m, ph, a, cap);
    }
  }

  lemma AfterNone(s: Pages, ph: Phase)
    requires GoodPhase(ph)
    ensures After(s, ph, 0) == Start(s, ph)
  {}

  lemma AfterStep(s: Pages, ph: Phase, n: nat)
    requires GoodPhase(ph) && 0 < n <= |ph.cands|
    ensures Sized(ph)
    ensures var l := After(s, ph, n - 1); After(s, ph, n) == if Running(l) then Visit(l, ph, n - 1, PoolCap(s)) else l
  {
    hide Visit;
  }

  lemma {:induction false} LoopKeeps(s: Pages, ph: Phase, n: nat)
    requires GoodPhase(ph) && n <= |ph.cands|
    requires OwnersOK(s) && Seen(s, ph) && PoolOK(s, PoolCap(s))
    ensures LoopInv(After(s, ph, n), ph, n, PoolCap(s))
    decreases n
  {
    hide GoodPhase, After, Visit, LoopInv, OwnersOK, Seen, PoolOK, PoolCap;
    GoodIsSized(ph);
    if n == 0 {
      AfterNone(s, ph);
      StartKeeps(s, ph, PoolCap(s));
    } else {
      AfterStep(s, ph, n);
      LoopKeeps(s, ph, n - 1);
      var l := After(s, ph, n - 1);
      if Running(l) { VisitKeeps(l, ph, n - 1, PoolCap(s)); } else { WaitKeeps(l, ph, n - 1, PoolCap(s)); }
    }
  }

  lemma StartKeeps(s: Pages, ph: Phase, cap: nat)
    requires Sized(ph) && OwnersOK(s) && Seen(s, ph) && PoolOK(s, cap)
    ensures LoopInv(Start(s, ph), ph, 0, cap)
  {}


  lemma WaitKeeps(l: Loop, ph: Phase, n: nat, cap: nat)
    requires n < |ph.cands| && -1 <= l.cursor < |ph.cands| && LoopInv(l, ph, n, cap)
    ensures LoopInv(l, ph, n + 1, cap)
  {}
}
