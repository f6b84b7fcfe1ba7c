/** The baseline half of the reassignment loop is a greedy choice that does not depend on the pool: among the touched
    pages, hottest first, those that may migrate and want to are taken until the budget is used up. */
module Greedy {
  import opened Placement
  import opened Counting
  import opened Pool
  import opened PlacementRuns

  /** Candidate `a` may migrate and would change its owner, judged by the placement before the loop. */
  predicate Wants(s: Pages, ph: Phase, a: nat)
    requires Sized(ph) && a < |ph.cands|
  {
    var p := ph.cands[a].0;
    Get(s.moves, p) <= PingPongLimit(s.phase) && Get(s.owner, p) != NewOwner(ph, a)
  }

  /** The chosen owner is the only one that a page can go to. */
  lemma GoesToOnce(ph: Phase, p: nat, draw: nat, o: nat, o': nat)
    requires |ph.sampled| == N_SOCKETS && GoesTo(ph, p, draw, o) && GoesTo(ph, p, draw, o')
    ensures o == o'
  {
    hide Touchers;
    if IsHottest(ph, p, o) && IsHottest(ph, p, o') {
      assert Get(ph.sampled[o], p) <= Get(ph.sampled[o'], p) && Get(ph.sampled[o'], p) <= Get(ph.sampled[o], p);
    }
  }

  /** A candidate wants to migrate exactly if its counter is at most a quarter of the phase number, and it is not where
      it goes to: with fewer than eight sharers the hottest socket, otherwise the drawn one. */
  lemma WantsIs(s: Pages, ph: Phase, a: nat)
    requires GoodPhase(ph) && Sized(ph) && a < |ph.cands|
    ensures var p := ph.cands[a].0;
      Wants(s, ph, a) <==> Get(s.moves, p) <= s.phase / 4 && !GoesTo(ph, p, ph.draws[a], Get(s.owner, p))
  {
    hide GoodPhase, GoesTo, NewOwner;
    var p := ph.cands[a].0;
    NewOwnerIs(ph, a);
    if GoesTo(ph, p, ph.draws[a], Get(s.owner, p)) { GoesToOnce(ph, p, ph.draws[a], Get(s.owner, p), NewOwner(ph, a)); }
  }

  /** The candidates among the first `n` that want to migrate, hottest first. */
  function Filter(s: Pages, ph: Phase, n: nat): (r: seq<nat>)
    requires Sized(ph) && n <= |ph.cands|
    ensures forall i :: 0 <= i < |r| ==> r[i] < n && Wants(s, ph, r[i])
    ensures forall i, j :: 0 <= i < j < |r| ==> r[i] < r[j]
  {
    if n == 0 then []
    else Filter(s, ph, n - 1) + if Wants(s, ph, n - 1) then [n - 1] else []
  }

  function FirstOf(q: seq<nat>, n: nat): (r: seq<nat>)
    ensures r <= q
  {
    if |q| <= n then q else q[..n]
  }

  predicate Pickable(ph: Phase, picks: seq<nat>) {
    forall i :: 0 <= i < |picks| ==> picks[i] < |ph.cands|
  }

  datatype Baseline = Baseline(owner: map<nat, nat>, moves: map<nat, nat>)

  /** Give every picked candidate its new owner, and count one migration for it. */
  function Update(s: Pages, ph: Phase, picks: seq<nat>): Baseline
    requires Sized(ph) && Pickable(ph, picks)
  {
    if |picks| == 0 then Baseline(s.owner, s.moves)
    else
      var n := |picks| - 1;
      var b := Update(s, ph, picks[..n]);
      var p := ph.cands[picks[n]].0;
      Baseline(b.owner[p := NewOwner(ph, picks[n])], b.moves[p := Get(s.moves, p) + 1])
  }

  function Picks(s: Pages, ph: Phase, n: nat): seq<nat>
    requires Sized(ph) && n <= |ph.cands|
  {
    FirstOf(Filter(s, ph, n), MIGRATION_LIMIT)
  }

  lemma {:induction false} UpdateOther(s: Pages, ph: Phase, picks: seq<nat>, p: nat)
    requires Sized(ph) && Pickable(ph, picks) && forall i :: 0 <= i < |picks| ==> ph.cands[picks[i]].0 != p
    ensures var b := Update(s, ph, picks); Get(b.owner, p) == Get(s.owner, p) && Get(b.moves, p) == Get(s.moves, p)
    ensures p in Update(s, ph, picks).owner <==> p in s.owner
    decreases |picks|
  {
    if |picks| > 0 { UpdateOther(s, ph, picks[..|picks| - 1], p); }
  }

  lemma IslandKeepsBaseline(l: Loop, ph: Phase, a: nat, cap: nat)
    requires Sized(ph) && a < |ph.cands| && -1 <= l.cursor < |ph.cands|
    ensures var t := VisitCI(l, ph, a, cap);
      t.pages.owner == l.pages.owner && t.pages.moves == l.pages.moves && t.i == l.i && t.pages.phase == l.pages.phase
  {
    hide NewOwner, EvictedOwner, Sharers, FindVictim;
  }

  lemma BaselineStep(l: Loop, ph: Phase, a: nat)
    requires Sized(ph) && a < |ph.cands|
    ensures var m := VisitBaseline(l, ph, a); var p := ph.cands[a].0;
      && m.cursor == l.cursor && m.pages.phase == l.pages.phase
      && if l.i < MIGRATION_LIMIT && Wants(l.pages, ph, a) then
           m.i == l.i + 1 && m.pages.owner == l.pages.owner[p := NewOwner(ph, a)]
           && m.pages.moves == l.pages.moves[p := Get(l.pages.moves, p) + 1]
         else m == l
  {}

  lemma PickOneMore(s: Pages, ph: Phase, n: nat)
    requires Sized(ph) && n < |ph.cands|
    ensures var q := Picks(s, ph, n);
      Picks(s, ph, n + 1) == if |q| < MIGRATION_LIMIT && Wants(s, ph, n) then q + [n] else q
  {}

  lemma UpdateOneMore(s: Pages, ph: Phase, picks: seq<nat>, a: nat)
    requires Sized(ph) && a < |ph.cands| && Pickable(ph, picks)
    ensures var b := Update(s, ph, picks); var p := ph.cands[a].0;
      Update(s, ph, picks + [a]) == Baseline(b.owner[p := NewOwner(ph, a)], b.moves[p := Get(s.moves, p) + 1])
  {}

  /** The baseline owners and migration counters after any part of the loop are those of the greedy choice. Neither
      the island, its pool, nor its budget has any part in it. */
  lemma {:induction false} LoopIsGreedy(s: Pages, ph: Phase, n: nat)
    requires GoodPhase(ph) && n <= |ph.cands|
    ensures var l := After(s, ph, n);
      && Sized(ph)
      && Baseline(l.pages.owner, l.pages.moves) == Update(s, ph, Picks(s, ph, n))
      && l.i == |Picks(s, ph, n)| && l.pages.phase == s.phase
    decreases n
  {
    hide GoodPhase, After, Visit, Update, NewOwner, Filter, FirstOf, PingPongLimit;
    GoodIsSized(ph);
    if n == 0 {
      NothingPicked(s, ph);
    } else {
      LoopIsGreedy(s, ph, n - 1);
      AfterStep(s, ph, n);
      PickOneMore(s, ph, n - 1);
      VisitIsGreedy(s, After(s, ph, n - 1), ph, n - 1);
    }
  }

  lemma NothingPicked(s: Pages, ph: Phase)
    requires GoodPhase(ph)
    ensures Sized(ph) && Picks(s, ph, 0) == [] && After(s, ph, 0) == Start(s, ph)
    ensures Update(s, ph, []) == Baseline(s.owner, s.moves)
  {}

  lemma Unpicked(s: Pages, ph: Phase, n: nat)
    requires GoodPhase(ph) && n < |ph.cands|
    ensures Sized(ph)
    ensures Pickable(ph, Picks(s, ph, n))
    ensures var b := Update(s, ph, Picks(s, ph, n)); var p := ph.cands[n].0;
      Get(b.owner, p) == Get(s.owner, p) && Get(b.moves, p) == Get(s.moves, p)
  {
    var picks := Picks(s, ph, n);
    forall i | 0 <= i < |picks| ensures ph.cands[picks[i]].0 != ph.cands[n].0 {
      assert picks[i] == Filter(s, ph, n)[i];
    }
    hide GoodPhase;
    UpdateOther(s, ph, picks, ph.cands[n].0);
  }

  lemma VisitIsGreedy(s: Pages, l: Loop, ph: Phase, a: nat)
    requires GoodPhase(ph) && Sized(ph) && a < |ph.cands| && -1 <= l.cursor < |ph.cands|
    requires var picks := Picks(s, ph, a);
      Baseline(l.pages.owner, l.pages.moves) == Update(s, ph, picks) && l.i == |picks| && l.pages.phase == s.phase
    ensures var t := if Running(l) then Visit(l, ph, a, PoolCap(s)) else l;
      var picks := Picks(s, ph, a); var picks' := if |picks| < MIGRATION_LIMIT && Wants(s, ph, a) then picks + [a] else picks;
      && Pickable(ph, picks')
      && Baseline(t.pages.owner, t.pages.moves) == Update(s, ph, picks') && t.i == |picks'| && t.pages.phase == s.phase
  {
    hide GoodPhase, Visit, Wants, Update, NewOwner, Filter, FirstOf, Picks, Sized, PoolCap, Get;
    var picks := Picks(s, ph, a);
    Unpicked(s, ph, a);
    SameWants(s, l.pages, ph, a);
    UpdateOneMore(s, ph, picks, a);
    if Running(l) { VisitStep(l, ph, a, PoolCap(s)); } else { NoneLeft(l); }
  }

  lemma NoneLeft(l: Loop)
    ensures !Running(l) ==> l.i >= MIGRATION_LIMIT
  {}

  lemma SameWants(s: Pages, t: Pages, ph: Phase, a: nat)
    requires Sized(ph) && a < |ph.cands| && s.phase == t.phase
    requires var p := ph.cands[a].0; Get(s.moves, p) == Get(t.moves, p) && Get(s.owner, p) == Get(t.owner, p)
    ensures Wants(s, ph, a) <==> Wants(t, ph, a)
  {}

  /** What a visit does to the baseline. */
  lemma VisitStep(l: Loop, ph: Phase, a: nat, cap: nat)
    requires Sized(ph) && a < |ph.cands| && -1 <= l.cursor < |ph.cands|
    ensures var t := Visit(l, ph, a, cap); var p := ph.cands[a].0;
      && t.pages.phase == l.pages.phase
      && if l.i < MIGRATION_LIMIT && Wants(l.pages, ph, a) then
           t.i == l.i + 1 && t.pages.owner == l.pages.owner[p := NewOwner(ph, a)]
           && t.pages.moves == l.pages.moves[p := Get(l.pages.moves, p) + 1]
         else t.i == l.i && t.pages.owner == l.pages.owner && t.pages.moves == l.pages.moves
  {
    hide VisitBaseline, VisitCI, NewOwner, Wants;
    BaselineStep(l, ph, a);
    IslandKeepsBaseline(VisitBaseline(l, ph, a), ph, a, cap);
  }

  /******* Independence from the island *******/

  /** Two phases that bring the same counts, candidates and draws, but evict to other places. */
  predicate SameDemand(ph: Phase, ph': Phase) {
    ph'.sampled == ph.sampled && ph'.cands == ph.cands && ph'.draws == ph.draws
  }

  lemma {:induction false} SameCounts(ph: Phase, ph': Phase, p: nat, n: nat, default: nat)
    requires n <= |ph.sampled| && ph'.sampled == ph.sampled
    ensures SharersOf(ph', p, n) == SharersOf(ph, p, n) && Busiest(ph', p, n, default) == Busiest(ph, p, n, default)
  {
    if n > 0 { SameCounts(ph, ph', p, n - 1, default); }
  }

  lemma SameNewOwner(ph: Phase, ph': Phase, a: nat)
    requires Sized(ph) && Sized(ph') && SameDemand(ph, ph') && a < |ph.cands|
    ensures NewOwner(ph', a) == NewOwner(ph, a)
  {
    SameCounts(ph, ph', ph.cands[a].0, N_SOCKETS, INVAL_OWNER);
  }

  lemma {:induction false} SameFilter(s: Pages, s': Pages, ph: Phase, ph': Phase, n: nat)
    requires Sized(ph) && Sized(ph') && SameDemand(ph, ph') && n <= |ph.cands|
    requires s'.owner == s.owner && s'.moves == s.moves && s'.phase == s.phase
    ensures Filter(s', ph', n) == Filter(s, ph, n)
  {
    hide NewOwner, PingPongLimit;
    if n > 0 {
      SameFilter(s, s', ph, ph', n - 1);
      SameNewOwner(ph, ph', n - 1);
    }
  }

  lemma {:induction false} SameUpdate(s: Pages, s': Pages, ph: Phase, ph': Phase, picks: seq<nat>)
    requires Sized(ph) && Sized(ph') && SameDemand(ph, ph') && Pickable(ph, picks)
    requires s'.owner == s.owner && s'.moves == s.moves
    ensures Update(s', ph', picks) == Update(s, ph, picks)
    decreases |picks|
  {
    hide NewOwner;
    if |picks| > 0 {
      SameUpdate(s, s', ph, ph', picks[..|picks| - 1]);
      SameNewOwner(ph, ph', picks[|picks| - 1]);
    }
  }

  /** Whatever is on the island, however full the pool is and wherever evicted pages go: the baseline is the same. */
  lemma IslandPlaysNoPart(s: Pages, s': Pages, ph: Phase, ph': Phase, n: nat)
    requires GoodPhase(ph) && GoodPhase(ph') && SameDemand(ph, ph') && n <= |ph.cands|
    requires s'.owner == s.owner && s'.moves == s.moves && s'.phase == s.phase
    ensures var l, l' := After(s, ph, n), After(s', ph', n);
      l'.pages.owner == l.pages.owner && l'.pages.moves == l.pages.moves && l'.migrated == l.migrated
  {
    hide GoodPhase, After, Filter, Update, FirstOf;
    GoodIsSized(ph);
    GoodIsSized(ph');
    LoopIsGreedy(s, ph, n);
    LoopIsGreedy(s', ph', n);
    MigratedIsPicked(s, ph, n);
    MigratedIsPicked(s', ph', n);
    SameFilter(s, s', ph, ph', n);
    SameUpdate(s, s', ph, ph', Picks(s, ph, n));
  }

  lemma {:induction false} MigratedIsPicked(s: Pages, ph: Phase, n: nat)
    requires GoodPhase(ph) && n <= |ph.cands|
    ensures After(s, ph, n).migrated == After(s, ph, n).i
    decreases n
  {
    hide GoodPhase, After, NewOwner, EvictedOwner, Sharers, FindVictim, PingPongLimit;
    GoodIsSized(ph);
    if n == 0 {
      NothingPicked(s, ph);
    } else {
      MigratedIsPicked(s, ph, n - 1);
      AfterStep(s, ph, n);
    }
  }

  /******* Counting migrations *******/

  /** Candidates that want to migrate, hottest first. */
  ghost predicate GoodPicks(s: Pages, ph: Phase, picks: seq<nat>)
    requires Sized(ph)
  {
    && Pickable(ph, picks)
    && (forall i :: 0 <= i < |picks| ==> ph.cands[picks[i]].0 in s.owner && Wants(s, ph, picks[i]))
    && (forall i, j :: 0 <= i < j < |picks| ==> ph.cands[picks[i]].0 != ph.cands[picks[j]].0)
  }

  lemma PicksAreGood(s: Pages, ph: Phase, n: nat)
    requires GoodPhase(ph) && Sized(ph) && Seen(s, ph) && n <= |ph.cands|
    ensures GoodPicks(s, ph, Picks(s, ph, n))
  {}

  lemma FewerPicks(s: Pages, ph: Phase, picks: seq<nat>)
    requires Sized(ph) && GoodPicks(s, ph, picks) && |picks| > 0
    ensures GoodPicks(s, ph, picks[..|picks| - 1])
  {}

  lemma LastPick(s: Pages, ph: Phase, picks: seq<nat>)
    requires Sized(ph) && GoodPicks(s, ph, picks) && |picks| > 0
    ensures var n := |picks| - 1; var a := picks[n];
      && a < |ph.cands|
      && Pickable(ph, picks[..n]) && Pickable(ph, picks)
      && var p := ph.cands[a].0; var b := Update(s, ph, picks[..n]);
      && p in s.owner && NewOwner(ph, a) != s.owner[p]
      && p in b.owner && b.owner[p] == s.owner[p] && Get(b.moves, p) == Get(s.moves, p)
      && Update(s, ph, picks) == Baseline(b.owner[p := NewOwner(ph, a)], b.moves[p := Get(s.moves, p) + 1])
  {
    hide NewOwner;
    UpdateOther(s, ph, picks[..|picks| - 1], ph.cands[picks[|picks| - 1]].0);
  }

  /** A page has a new owner exactly if it was picked, and its counter says so. */
  lemma {:induction false} UpdateCounts(s: Pages, ph: Phase, picks: seq<nat>, p: nat)
    requires Sized(ph) && p in s.owner && GoodPicks(s, ph, picks)
    ensures Pickable(ph, picks)
    ensures var b := Update(s, ph, picks);
      && p in b.owner
      && Get(b.moves, p) == Get(s.moves, p) + (if b.owner[p] != s.owner[p] then 1 else 0)
    decreases |picks|
  {
    if |picks| > 0 {
      FewerPicks(s, ph, picks);
      LastPick(s, ph, picks);
      UpdateCounts(s, ph, picks[..|picks| - 1], p);
      hide GoodPicks, Sized, NewOwner, Update;
    }
  }

  function Changed(before: map<nat, nat>, after: map<nat, nat>): set<nat> {
    set p | p in before && p in after && before[p] != after[p]
  }

  lemma {:induction false} UpdateChanges(s: Pages, ph: Phase, picks: seq<nat>)
    requires Sized(ph) && GoodPicks(s, ph, picks)
    ensures Pickable(ph, picks)
    ensures |Changed(s.owner, Update(s, ph, picks).owner)| == |picks|
    ensures Update(s, ph, picks).owner.Keys == s.owner.Keys
    decreases |picks|
  {
    if |picks| == 0 {
      assert Changed(s.owner, s.owner) == {};
    } else {
      FewerPicks(s, ph, picks);
      LastPick(s, ph, picks);
      UpdateChanges(s, ph, picks[..|picks| - 1]);
      hide GoodPicks, Sized, NewOwner, Update;
      var a := picks[|picks| - 1];
      OneMoreChange(s.owner, Update(s, ph, picks[..|picks| - 1]).owner, ph.cands[a].0, NewOwner(ph, a));
    }
  }

  lemma OneMoreChange(before: map<nat, nat>, after: map<nat, nat>, p: nat, o: nat)
    requires p in before && p in after && before[p] == after[p] != o
    ensures |Changed(before, after[p := o])| == |Changed(before, after)| + 1
    ensures after[p := o].Keys == after.Keys
  {
    assert Changed(before, after[p := o]) == Changed(before, after) + {p};
  }

  /** Each phase changes exactly as many baseline owners as it reports, and never more than the budget. */
  lemma PhaseChangesAreMigrations(s: Pages, ph: Phase)
    requires PagesInv(s) && GoodPhase(ph)
    ensures var t := FirstTouch(s, ph); var l := After(t, ph, |ph.cands|);
      |Changed(t.owner, l.pages.owner)| == l.migrated <= MIGRATION_LIMIT
  {
    hide GoodPhase, FirstTouch, After, PagesInv, Seen, Update, GoodPicks, Changed, Picks;
    GoodIsSized(ph);
    var t := FirstTouch(s, ph);
    PhaseDiscipline(s, ph, |ph.cands|);
    TouchKeeps(s, ph);
    LoopIsGreedy(t, ph, |ph.cands|);
    PicksAreGood(t, ph, |ph.cands|);
    UpdateChanges(t, ph, Picks(t, ph, |ph.cands|));
  }

  /** The number of phases in which a page changed its baseline owner after it had one. */
  ghost function OwnerChanges(phs: seq<Phase>, p: nat): nat
    requires GoodPhases(phs)
    decreases |phs|
  {
    if |phs| == 0 then 0
    else
      var n := |phs| - 1;
      var s := DoPhases(NO_PAGES, phs[..n]);
      GoodIsSized(phs[n]);
      var before, after := FirstTouch(s, phs[n]).owner, DoPhase(s, phs[n]).owner;
      OwnerChanges(phs[..n], p) + (if p in before && p in after && before[p] != after[p] then 1 else 0)
  }

  /** Over any run, the baseline counter of a page is its number of owner changes since first touch. */
  lemma {:induction false} CounterIsOwnerChanges(phs: seq<Phase>, p: nat)
    requires GoodPhases(phs)
    ensures Get(DoPhases(NO_PAGES, phs).moves, p) == OwnerChanges(phs, p)
    decreases |phs|
  {
    if |phs| > 0 {
      hide GoodPhase, FirstTouch, After, DoPhase, PagesInv;
      var n := |phs| - 1;
      var s := DoPhases(NO_PAGES, phs[..n]);
      CounterIsOwnerChanges(phs[..n], p);
      PhasesKeep(phs[..n]);
      GoodIsSized(phs[n]);
      PhaseCounter(s, phs[n], p);
    }
  }

  lemma PhaseCounter(s: Pages, ph: Phase, p: nat)
    requires PagesInv(s) && GoodPhase(ph) && Sized(ph)
    ensures var before, u := FirstTouch(s, ph).owner, DoPhase(s, ph);
      Get(u.moves, p) == Get(s.moves, p) + (if p in before && p in u.owner && before[p] != u.owner[p] then 1 else 0)
  {
    hide GoodPhase, FirstTouch, After, PagesInv, Seen, Update, GoodPicks, Picks;
    var t := FirstTouch(s, ph);
    TouchKeeps(s, ph);
    FirstTouchGrows(s, ph);
    LoopIsGreedy(t, ph, |ph.cands|);
    PicksAreGood(t, ph, |ph.cands|);
    var picks := Picks(t, ph, |ph.cands|);
    if p in t.owner {
      UpdateCounts(t, ph, picks, p);
    } else {
      UpdateUnknown(t, ph, picks, p);
    }
  }

  lemma UpdateUnknown(s: Pages, ph: Phase, picks: seq<nat>, p: nat)
    requires Sized(ph) && p !in s.owner && GoodPicks(s, ph, picks)
    ensures Pickable(ph, picks)
    ensures Get(Update(s, ph, picks).moves, p) == Get(s.moves, p)
  {}
}
