/** Phase processing as the program performs it: page maps updated in place, two moving cursors over the candidates.
    Every method is tied to the specification in `Placement`. */
module PageMigration {
  import opened Placement
  import opened Pool
  import opened PlacementRuns

  /** The first owners of the new pages among `done`. */
  ghost function FirstOwners(s: Pages, ph: Phase, done: set<nat>): map<nat, nat>
    requires Sized(ph)
  {
    map p | p in Touched(ph) && p in done && p !in s.owner :: FirstOwner(ph, p)
  }

  /** The pages when first touch has come as far as `done`. */
  ghost function Given(s: Pages, ph: Phase, done: set<nat>): Pages
    requires Sized(ph)
  {
    s.(owner := s.owner + FirstOwners(s, ph, done), ownerCI := s.ownerCI + FirstOwners(s, ph, done))
  }

  lemma GivenAll(s: Pages, ph: Phase, done: set<nat>)
    requires Sized(ph) && Touched(ph) <= done
    ensures Given(s, ph, done) == FirstTouch(s, ph)
  {
    hide FirstOwner;
    assert FirstOwners(s, ph, done) == (map p | p in Touched(ph) && p !in s.owner :: FirstOwner(ph, p));
  }

  lemma GivenNone(s: Pages, ph: Phase)
    requires Sized(ph)
    ensures Given(s, ph, {}) == s
  {}

  lemma FirstOwnersMore(s: Pages, ph: Phase, done: set<nat>, p: nat)
    requires Sized(ph) && p in Touched(ph)
    ensures FirstOwners(s, ph, done + {p}) ==
      if p in s.owner then FirstOwners(s, ph, done) else FirstOwners(s, ph, done)[p := FirstOwner(ph, p)]
    ensures p in FirstOwners(s, ph, done) <==> p in done && p !in s.owner
    ensures p in FirstOwners(s, ph, done) ==> FirstOwners(s, ph, done)[p] == FirstOwner(ph, p)
  {}

  lemma GivenMore(s: Pages, ph: Phase, done: set<nat>, p: nat)
    requires Sized(ph) && s.owner.Keys == s.ownerCI.Keys && p in Touched(ph)
    ensures var t, u := Given(s, ph, done), Given(s, ph, done + {p});
      && (p in t.owner <==> p in t.ownerCI)
      && if p in t.owner then u == t
         else u == t.(owner := t.owner[p := FirstOwner(ph, p)], ownerCI := t.ownerCI[p := FirstOwner(ph, p)])
  {
    var o := FirstOwner(ph, p);
    hide FirstOwner, Touched, FirstOwners, Sized;
    FirstOwnersMore(s, ph, done, p);
    var added := FirstOwners(s, ph, done);
    assert p in s.owner.Keys <==> p in s.ownerCI.Keys;
    if p in added { assert added[p := o] == added; }
    AddOne(s.owner, added, p, o);
    AddOne(s.ownerCI, added, p, o);
  }

  lemma AddOne(m: map<nat, nat>, added: map<nat, nat>, p: nat, o: nat)
    ensures m + added[p := o] == (m + added)[p := o]
  {}

  /** Once both budgets are used up, the remaining candidates are not visited. */
  lemma {:induction false} StoppedStays(s: Pages, ph: Phase, a: nat, n: nat)
    requires GoodPhase(ph) && a <= n <= |ph.cands| && !Running(After(s, ph, a))
    ensures After(s, ph, n) == After(s, ph, a)
    decreases n
  {
    hide GoodPhase, Visit;
    if a < n { StoppedStays(s, ph, a, n - 1); }
  }

  class PageMap {
    var pageOwner: map<nat, nat>
    var pageOwnerCI: map<nat, nat>
    var pagesInPool: nat
    var migrations: map<nat, nat>
    var migrationsCI: map<nat, nat>
    var curPhase: nat

    function Contents(): Pages
      reads this
    {
      Pages(pageOwner, pageOwnerCI, pagesInPool, migrations, migrationsCI, curPhase)
    }

    constructor ()
      ensures Contents() == NO_PAGES
    {
      pageOwner, pageOwnerCI, pagesInPool, migrations, migrationsCI, curPhase := map[], map[], 0, map[], map[], 0;
    }

    /******* Reading the counts *******/

    method FindSharers(ph: Phase, p: nat) returns (sharers: seq<nat>)
      requires Sized(ph)
      ensures sharers == SharersOf(ph, p, N_SOCKETS)
    {
      sharers := [];
      for j := 0 to N_SOCKETS
        invariant sharers == SharersOf(ph, p, j)
      {
        if p in ph.sampled[j] { sharers := sharers + [j]; }
      }
    }

    method CountSharers(ph: Phase) returns (sharers: map<nat, nat>)
      requires Sized(ph)
      ensures forall p :: Get(sharers, p) == Sharers(ph, p)
    {
      sharers := map[];
      for j := 0 to N_SOCKETS
        invariant forall p :: Get(sharers, p) == |SharersOf(ph, p, j)|
      {
        var todo := ph.sampled[j].Keys;
        while todo != {}
          invariant todo <= ph.sampled[j].Keys
          invariant forall p :: Get(sharers, p) == |SharersOf(ph, p, j)| + (if p in ph.sampled[j] && p !in todo then 1 else 0)
        {
          var p :| p in todo;
          sharers := sharers[p := Get(sharers, p) + 1];
          todo := todo - {p};
        }
      }
    }

    method FindBusiest(ph: Phase, p: nat, default: nat) returns (owner: nat)
      requires Sized(ph)
      ensures owner == Busiest(ph, p, N_SOCKETS, default).0
    {
      var most := 0;
      owner := default;
      for j := 0 to N_SOCKETS
        invariant (owner, most) == Busiest(ph, p, j, default)
      {
        if Get(ph.sampled[j], p) > most { owner, most := j, Get(ph.sampled[j], p); }
      }
    }

    /******* First touch *******/

    method TouchPages(ph: Phase)
      requires Sized(ph) && pageOwner.Keys == pageOwnerCI.Keys
      modifies this`pageOwner, this`pageOwnerCI
      ensures Contents() == FirstTouch(old(Contents()), ph)
    {
      hide Given, FirstTouch, SharersOf;
      ghost var s := Contents();
      ghost var done: set<nat> := {};
      GivenNone(s, ph);
      for i := 0 to N_SOCKETS
        invariant Contents() == Given(s, ph, done)
        invariant forall j, p :: 0 <= j < i && p in ph.sampled[j] ==> p in done
      {
        var todo := ph.sampled[i].Keys;
        while todo != {}
          invariant todo <= ph.sampled[i].Keys
          invariant Contents() == Given(s, ph, done)
          invariant forall j, p :: 0 <= j < i && p in ph.sampled[j] ==> p in done
          invariant forall p :: p in ph.sampled[i] && p !in todo ==> p in done
        {
          var p :| p in todo;
          assert p in Touched(ph);
          GivenMore(s, ph, done, p);
          if p !in pageOwner {
            var sharers := FindSharers(ph, p);
            var owner := sharers[Get(ph.firstDraw, p) % |sharers|];
            assert owner == FirstOwner(ph, p);
            pageOwner, pageOwnerCI := pageOwner[p := owner], pageOwnerCI[p := owner];
          }
          if p !in pageOwnerCI {
            assert false;
          }
          done := done + {p};
          todo := todo - {p};
        }
      }
      GivenAll(s, ph, done);
    }

    /******* Reassignment *******/

    method ChooseOwner(ph: Phase, a: nat, sharers: nat) returns (owner: nat)
      requires Sized(ph) && a < |ph.cands| && sharers == Sharers(ph, ph.cands[a].0)
      ensures owner == NewOwner(ph, a)
    {
      if sharers >= 8 {
        owner := ph.draws[a] % N_SOCKETS;
      } else {
        owner := FindBusiest(ph, ph.cands[a].0, INVAL_OWNER);
      }
    }

    method MoveBaseline(ph: Phase, a: nat, newOwner: nat, i: nat, migrated: nat, ghost l: Loop)
      returns (i': nat, migrated': nat)
      requires Sized(ph) && a < |ph.cands| && newOwner == NewOwner(ph, a)
      requires l.pages == Contents() && l.i == i && l.migrated == migrated
      modifies this`pageOwner, this`migrations
      ensures VisitBaseline(l, ph, a) == l.(pages := Contents(), i := i', migrated := migrated')
    {
      hide NewOwner;
      i', migrated' := i, migrated;
      var page := ph.cands[a].0;
      if i < MIGRATION_LIMIT {
        if Get(migrations, page) <= PingPongLimit(curPhase) && Get(pageOwner, page) != newOwner {
          i', migrated' := i + 1, migrated + 1;
          pageOwner := pageOwner[page := newOwner];
          migrations := migrations[page := Get(migrations, page) + 1];
        }
      }
    }

    /** Advance the eviction cursor to a page on the island. */
    method ScanForVictim(ph: Phase, cursor: int) returns (v: int)
      requires -1 <= cursor < |ph.cands|
      ensures v == FindVictim(pageOwnerCI, ph, cursor)
    {
      v := cursor;
      while v >= 0 && Get(pageOwnerCI, ph.cands[v].0) != CXO
        invariant -1 <= v <= cursor
        invariant FindVictim(pageOwnerCI, ph, v) == FindVictim(pageOwnerCI, ph, cursor)
      {
        v := v - 1;
      }
    }

    /** Make room in the full pool that candidate `a` has just entered. The scan always finds a page. */
    method EvictOne(ph: Phase, a: nat, sharersLong: map<nat, nat>, cursor: int, hot: bool, iCxi: nat, ghost l: Loop, ghost cap: nat)
      returns (cursor': int, hot': bool, iCxi': nat)
      requires GoodPhase(ph) && a < |ph.cands| && forall p :: Get(sharersLong, p) == Sharers(ph, p)
      requires -1 <= l.cursor < |ph.cands| && Evicting(l, ph, a, cap)
      requires var t := Insert(l, ph, a); t.pages == Contents() && t.cursor == cursor && t.hot == hot && t.iCxi == iCxi
      modifies this`pageOwnerCI, this`pagesInPool
      ensures var t := Insert(l, ph, a); var u := EvictFor(t, ph, a);
        && u.pages == Contents() && u.cursor == cursor' && u.hot == hot' && u.iCxi == iCxi'
        && u.toCI == t.toCI && u.i == t.i && u.migrated == t.migrated && u.migratedCI == t.migratedCI
        && u.evictions == t.evictions + 1 && u.warned == t.warned
    {
      VictimFound(l, ph, a, cap);
      hide GoodPhase, LoopInv, Inserts, FindVictim, SharersOf, Busiest;
      cursor' := ScanForVictim(ph, cursor);
      if cursor' < 0 {
        assert false;
      }
      var evicted := ph.cands[cursor'].0;
      hot' := hot;
      if ph.cands[cursor'].1 >= ph.cands[a].1 { hot' := true; }
      var owner := ph.evictDraws[a] % N_SOCKETS;
      if Get(sharersLong, evicted) < 8 { owner := FindBusiest(ph, evicted, owner); }
      pageOwnerCI := pageOwnerCI[evicted := owner];
      pagesInPool := pagesInPool - 1;
      iCxi' := iCxi + 1;
    }

    method MoveIsland(ph: Phase, a: nat, newOwner: nat, sharersLong: map<nat, nat>, cap: nat,
                      iCxi: nat, hot: bool, cursor: int, migratedCI: nat, toCI: nat, ghost l: Loop)
      returns (iCxi': nat, hot': bool, cursor': int, migratedCI': nat, toCI': nat)
      requires GoodPhase(ph) && a < |ph.cands| && newOwner == NewOwner(ph, a) && forall p :: Get(sharersLong, p) == Sharers(ph, p)
      requires -1 <= l.cursor < |ph.cands| && LoopInv(l, ph, a, cap)
      requires l.pages == Contents() && l.iCxi == iCxi && l.hot == hot && l.cursor == cursor && l.migratedCI == migratedCI && l.toCI == toCI
      modifies this`pageOwnerCI, this`pagesInPool, this`migrationsCI
      ensures var t := VisitCI(l, ph, a, cap);
        && t.pages == Contents() && t.iCxi == iCxi' && t.hot == hot' && t.cursor == cursor'
        && t.migratedCI == migratedCI' && t.toCI == toCI' && t.i == l.i && t.migrated == l.migrated
    {
      hide GoodPhase, LoopInv, NewOwner, Sharers, EvictFor, PingPongLimit;
      GoodIsSized(ph);
      iCxi', hot', cursor', migratedCI', toCI' := iCxi, hot, cursor, migratedCI, toCI;
      var page := ph.cands[a].0;
      if iCxi < MIGRATION_LIMIT && Get(migrationsCI, page) <= PingPongLimit(curPhase) {
        if !hot && Get(sharersLong, page) >= SHARER_THRESHOLD {
          if Get(pageOwnerCI, page) != CXO {
            toCI', iCxi', pagesInPool := toCI + 1, iCxi + 1, pagesInPool + 1;
            pageOwnerCI := pageOwnerCI[page := CXO];
            migrationsCI := migrationsCI[page := Get(migrationsCI, page) + 1];
            if cap <= pagesInPool {
              cursor', hot', iCxi' := EvictOne(ph, a, sharersLong, cursor, hot, iCxi', l, cap);
            }
          }
        } else if Get(pageOwnerCI, page) != newOwner {
          migratedCI', iCxi' := migratedCI + 1, iCxi + 1;
          pageOwnerCI := pageOwnerCI[page := newOwner];
          migrationsCI := migrationsCI[page := Get(migrationsCI, page) + 1];
        }
      }
    }

    /** The reassignment loop: the visit moves from hot to cold, the eviction cursor from cold to hot. */
    method ReassignOwners(ph: Phase, sharersLong: map<nat, nat>) returns (migrated: nat, migratedCI: nat, toCI: nat)
      requires GoodPhase(ph) && PagesInv(Contents()) && Seen(Contents(), ph)
      requires forall p :: Get(sharersLong, p) == Sharers(ph, p)
      modifies this`pageOwner, this`pageOwnerCI, this`pagesInPool, this`migrations, this`migrationsCI
      ensures var l := After(old(Contents()), ph, |ph.cands|);
        Contents() == l.pages && migrated == l.migrated && migratedCI == l.migratedCI && toCI == l.toCI
    {
      hide GoodPhase, OwnersOK, Seen, PoolOK, LoopInv, VisitBaseline, VisitCI, NewOwner, Sharers, After;
      GoodIsSized(ph);
      ghost var s := Contents();
      var cap := |pageOwnerCI| / POOL_FRACTION;
      var cursor, a, i, iCxi, hot := |ph.cands| - 1, 0, 0, 0, false;
      migrated, migratedCI, toCI := 0, 0, 0;
      AfterNone(s, ph);
      ghost var l := After(s, ph, 0);
      while i < MIGRATION_LIMIT || iCxi < MIGRATION_LIMIT
        invariant a < |ph.cands| && -1 <= l.cursor < |ph.cands| && l == After(s, ph, a)
        invariant l.pages == Contents() && l.i == i && l.iCxi == iCxi && l.hot == hot && l.cursor == cursor
        invariant l.migrated == migrated && l.migratedCI == migratedCI && l.toCI == toCI
        decreases |ph.cands| - a
      {
        LoopKeeps(s, ph, a);
        var newOwner := ChooseOwner(ph, a, Get(sharersLong, ph.cands[a].0));
        BaselineKeeps(l, ph, a, cap);
        i, migrated := MoveBaseline(ph, a, newOwner, i, migrated, l);
        l := VisitBaseline(l, ph, a);
        iCxi, hot, cursor, migratedCI, toCI :=
          MoveIsland(ph, a, newOwner, sharersLong, cap, iCxi, hot, cursor, migratedCI, toCI, l);
        l := VisitCI(l, ph, a, cap);
        NextIsVisit(s, ph, a);
        a := a + 1;
        if a == |ph.cands| { return; }
      }
      StoppedStays(s, ph, a, |ph.cands|);
    }

    /** The owners' part of the end of a phase. */
    method FinishPhase(ph: Phase, sharersLong: map<nat, nat>) returns (migrated: nat, migratedCI: nat, toCI: nat)
      requires GoodPhase(ph) && PagesInv(Contents()) && Seen(Contents(), ph)
      requires forall p :: Get(sharersLong, p) == Sharers(ph, p)
      modifies this
      ensures var l := After(old(Contents()), ph, |ph.cands|);
        && Contents() == l.pages.(phase := l.pages.phase + 1)
        && migrated == l.migrated && migratedCI == l.migratedCI && toCI == l.toCI
    {
      hide GoodPhase, PagesInv, Seen, After, Sharers;
      migrated, migratedCI, toCI := ReassignOwners(ph, sharersLong);
      curPhase := curPhase + 1;
    }
  }

  lemma NextIsVisit(s: Pages, ph: Phase, a: nat)
    requires GoodPhase(ph) && a < |ph.cands| && Running(After(s, ph, a))
    ensures Sized(ph)
    ensures After(s, ph, a + 1) == VisitCI(VisitBaseline(After(s, ph, a), ph, a), ph, a, PoolCap(s))
  {}
}
