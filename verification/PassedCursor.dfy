/** The visit can pass the eviction cursor, and then the cursor and a full rescan find different victims: a run of two
    phases in which this happens. */
module PassedCursor {
  import opened Placement
  import opened Counting
  import opened Pool
  import opened PlacementRuns
  import opened Greedy

  function Owners(): map<nat, nat> {
    map p | p in UpTo(10) :: 0
  }

  function Ones(n: nat): map<nat, nat> {
    map p | p in UpTo(n) :: 1
  }

  /** In the first phase all sockets touch page 0, which is the hottest, and socket 0 touches nine more pages. */
  ghost predicate IsFirst(ph: Phase) {
    && Sized(ph) && |ph.cands| == 10 && ph.firstDraw == map[]
    && (forall a :: 0 <= a < 10 ==> ph.cands[a] == (a, if a == 0 then 16 else 1) && ph.draws[a] == 0)
    && (forall j :: 0 <= j < N_SOCKETS ==> ph.sampled[j] == Ones(if j == 0 then 10 else 1))
  }

  /** In the second phase all sockets touch pages 1, 0 and 2, in this order of heat. */
  ghost predicate IsSecond(ph: Phase) {
    && Sized(ph) && ph.cands == [(1, 48), (0, 32), (2, 16)] && ph.firstDraw == map[]
    && (forall a :: 0 <= a < 3 ==> ph.draws[a] == 0 && ph.evictDraws[a] == 0)
    && (forall j :: 0 <= j < N_SOCKETS ==> ph.sampled[j] == map[1 := 3, 0 := 2, 2 := 1])
  }

  function FirstSampled(): (r: seq<map<nat, nat>>)
    ensures |r| == N_SOCKETS && forall j :: 0 <= j < N_SOCKETS ==> r[j] == Ones(if j == 0 then 10 else 1)
  {
    seq(N_SOCKETS, j => Ones(if j == 0 then 10 else 1))
  }

  function FirstCands(): (r: seq<(nat, nat)>)
    ensures |r| == 10 && forall a :: 0 <= a < 10 ==> r[a] == (a, if a == 0 then 16 else 1)
  {
    seq(10, a requires 0 <= a < 10 => (a, if a == 0 then 16 else 1))
  }

  lemma FirstExists() returns (ph: Phase)
    ensures IsFirst(ph)
  {
    hide FirstSampled, FirstCands, UpTo;
    ph := Phase(FirstSampled(), FirstCands(), map[], Zeros(10), Zeros(10));
  }

  function Zeros(n: nat): (r: seq<nat>)
    ensures |r| == n && forall a :: 0 <= a < n ==> r[a] == 0
  {
    seq(n, _ => 0)
  }

  lemma SecondExists() returns (ph: Phase)
    ensures IsSecond(ph)
  {
    var all: map<nat, nat> := map[1 := 3, 0 := 2, 2 := 1];
    ph := Phase(seq(N_SOCKETS, _ => all), [(1, 48), (0, 32), (2, 16)], map[], Zeros(3), Zeros(3));
  }

  /** The state after the first phase: page 0 is the only one on the island, which has room for one more. */
  function Between(): Pages {
    Pages(Owners(), Owners()[0 := CXO], 1, map[], map[0 := 1], 1)
  }

  /******* Sharers *******/

  lemma {:induction false} SharedByAll(ph: Phase, p: nat, n: nat)
    requires n <= |ph.sampled| && forall j :: 0 <= j < |ph.sampled| ==> p in ph.sampled[j]
    ensures |SharersOf(ph, p, n)| == n
    ensures n > 0 ==> SharersOf(ph, p, n)[0] == 0
  {
    if n > 0 { SharedByAll(ph, p, n - 1); }
  }

  lemma {:induction false} SharedByFirst(ph: Phase, p: nat, n: nat, default: nat)
    requires 0 < n <= |ph.sampled| && p in ph.sampled[0] && ph.sampled[0][p] > 0
    requires forall j :: 0 < j < |ph.sampled| ==> p !in ph.sampled[j]
    ensures SharersOf(ph, p, n) == [0] && Busiest(ph, p, n, default).0 == 0
  {
    if n > 1 {
      SharedByFirst(ph, p, n - 1, default);
      BusiestIs(ph, p, n - 1, default);
    } else {
      assert SharersOf(ph, p, 0) == [] && Busiest(ph, p, 0, default) == (default, 0);
    }
  }

  /******* Visits *******/

  /** The baseline has nothing to do. */
  lemma Settled(l: Loop, ph: Phase, a: nat)
    requires Sized(ph) && a < |ph.cands| && Get(l.pages.owner, ph.cands[a].0) == NewOwner(ph, a)
    ensures VisitBaseline(l, ph, a) == l
  {
    hide NewOwner;
  }

  lemma IdleVisit(l: Loop, ph: Phase, a: nat, cap: nat)
    requires Sized(ph) && a < |ph.cands| && -1 <= l.cursor < |ph.cands|
    requires Get(l.pages.owner, ph.cands[a].0) == NewOwner(ph, a)
    requires Get(l.pages.movesCI, ph.cands[a].0) > PingPongLimit(l.pages.phase)
             || (Sharers(ph, ph.cands[a].0) < 8 && Get(l.pages.ownerCI, ph.cands[a].0) == NewOwner(ph, a))
    ensures Visit(l, ph, a, cap) == l
  {
    hide NewOwner, Sharers, VisitBaseline, PingPongLimit;
    Settled(l, ph, a);
  }

  lemma InsertingVisit(l: Loop, ph: Phase, a: nat, cap: nat)
    requires Sized(ph) && a < |ph.cands| && -1 <= l.cursor < |ph.cands|
    requires Get(l.pages.owner, ph.cands[a].0) == NewOwner(ph, a) && Inserts(l, ph, a)
    ensures Visit(l, ph, a, cap) == if cap <= l.pages.inPool + 1 then EvictFor(Insert(l, ph, a), ph, a) else Insert(l, ph, a)
  {
    hide NewOwner, Inserts, VisitBaseline, EvictFor;
    Settled(l, ph, a);
  }

  lemma OwnersAre()
    ensures |Owners()| == |Owners()[0 := CXO]| == 10
    ensures forall p: nat :: p < 10 ==> Get(Owners(), p) == 0 && p in Owners()
  {
    hide UpTo;
    assert Owners().Keys == UpTo(10);
    assert Owners()[0 := CXO].Keys == UpTo(10);
    assert |Owners()| == |Owners().Keys| && |Owners()[0 := CXO]| == |Owners()[0 := CXO].Keys|;
  }

  /******* The first phase puts page 0 on the island *******/

  lemma FirstIsGood(ph: Phase)
    requires IsFirst(ph)
    ensures GoodPhase(ph)
  {
    hide UpTo, SharersOf;
    forall j, p | 0 <= j < N_SOCKETS && p in ph.sampled[j]
      ensures ph.sampled[j][p] > 0 && exists a :: 0 <= a < |ph.cands| && ph.cands[a].0 == p
    {
      assert ph.cands[p].0 == p;
    }
    forall a | 0 <= a < |ph.cands| ensures |SharersOf(ph, ph.cands[a].0, N_SOCKETS)| > 0 {
      assert ph.cands[a].0 in ph.sampled[0];
    }
  }

  lemma FirstChoices(ph: Phase, a: nat)
    requires IsFirst(ph) && Sized(ph) && a < |ph.cands|
    ensures ph.cands[a].0 == a < 10
    ensures Sharers(ph, a) == (if a == 0 then 16 else 1) && NewOwner(ph, a) == 0 && FirstOwner(ph, a) == 0
  {
    hide UpTo, SharersOf, Busiest;
    assert ph.cands[a] == (a, if a == 0 then 16 else 1);
    if a == 0 { SharedByAll(ph, 0, N_SOCKETS); } else { SharedByFirst(ph, a, N_SOCKETS, INVAL_OWNER); }
  }

  function AtFirst(): Pages {
    NO_PAGES.(owner := Owners(), ownerCI := Owners())
  }

  lemma TouchAll(ph: Phase, owners: map<nat, nat>)
    requires Sized(ph) && Touched(ph) == owners.Keys
    requires forall p :: p in owners ==> Sharers(ph, p) > 0 && owners[p] == FirstOwner(ph, p)
    ensures FirstTouch(NO_PAGES, ph) == NO_PAGES.(owner := owners, ownerCI := owners)
  {
    hide Touched, FirstOwner, Sharers;
    assert FirstTouch(NO_PAGES, ph).owner == owners by { TouchedOwners(ph, owners); }
    assert FirstTouch(NO_PAGES, ph).ownerCI == owners by { TouchedOwners(ph, owners); }
  }

  lemma TouchedOwners(ph: Phase, owners: map<nat, nat>)
    requires Sized(ph) && Touched(ph) == owners.Keys
    requires forall p :: p in owners ==> Sharers(ph, p) > 0 && owners[p] == FirstOwner(ph, p)
    ensures FirstTouch(NO_PAGES, ph).owner == owners && FirstTouch(NO_PAGES, ph).ownerCI == owners
  {
    hide FirstOwner, Sharers;
  }

  lemma FirstTouches(ph: Phase)
    requires IsFirst(ph) && Sized(ph)
    ensures FirstTouch(NO_PAGES, ph) == AtFirst()
  {
    hide FirstOwner, Sharers, UpTo;
    forall p: nat ensures p in Touched(ph) <==> p < 10 {
      if p < 10 { assert p in ph.sampled[0]; }
    }
    assert Touched(ph) == Owners().Keys;
    forall p | p in Owners() ensures Sharers(ph, p) > 0 && FirstOwner(ph, p) == 0 { FirstChoices(ph, p); }
    hide Touched, FirstTouch;
    TouchAll(ph, Owners());
  }

  lemma FirstParts(ph: Phase)
    requires IsFirst(ph)
    ensures Sized(ph) && |ph.cands| == 10
  {}

  lemma FirstStart(ph: Phase)
    requires IsFirst(ph) && Sized(ph) && |ph.cands| == 10
    ensures var l := Start(AtFirst(), ph);
      Get(l.pages.owner, ph.cands[0].0) == NewOwner(ph, 0) && Inserts(l, ph, 0) && l.cursor == 9 && l.pages.inPool == 0
  {
    FirstChoices(ph, 0);
    OwnersAre();
    hide IsFirst, NewOwner, Sharers, Owners;
  }

  /** Page 0 moves in. */
  lemma FirstVisit(ph: Phase)
    requires IsFirst(ph) && Sized(ph) && |ph.cands| == 10
    ensures Visit(Start(AtFirst(), ph), ph, 0, 2) == Insert(Start(AtFirst(), ph), ph, 0)
  {
    hide IsFirst, NewOwner, Sharers, Visit, Owners, EvictFor, Insert, Start, AtFirst, Inserts;
    FirstStart(ph);
    InsertingVisit(Start(AtFirst(), ph), ph, 0, 2);
  }

  /** No other page does anything. */
  lemma OtherVisit(ph: Phase, a: nat)
    requires IsFirst(ph) && Sized(ph) && 0 < a < |ph.cands| == 10
    ensures var l := Insert(Start(AtFirst(), ph), ph, 0); Visit(l, ph, a, 2) == l
  {
    FirstChoices(ph, a);
    FirstChoices(ph, 0);
    OwnersAre();
    hide IsFirst, NewOwner, Sharers, Visit, Owners;
    IdleVisit(Insert(Start(AtFirst(), ph), ph, 0), ph, a, 2);
  }

  lemma AtFirstCap()
    ensures PoolCap(AtFirst()) == 2 && PoolCap(Between()) == 2
  {
    OwnersAre();
    hide Owners;
  }

  lemma {:induction false} FirstLoop(ph: Phase, n: nat)
    requires IsFirst(ph) && GoodPhase(ph) && Sized(ph) && 0 < n <= |ph.cands| == 10
    ensures After(AtFirst(), ph, n) == Insert(Start(AtFirst(), ph), ph, 0)
    decreases n
  {
    hide IsFirst, GoodPhase, Visit, After, AtFirst, PoolCap;
    AfterStep(AtFirst(), ph, n);
    AtFirstCap();
    if n == 1 {
      AfterNone(AtFirst(), ph);
      FirstVisit(ph);
    } else {
      FirstLoop(ph, n - 1);
      OtherVisit(ph, n - 1);
    }
  }

  lemma FirstPhase(ph: Phase)
    requires IsFirst(ph)
    ensures GoodPhase(ph) && DoPhase(NO_PAGES, ph) == Between()
  {
    hide IsFirst, GoodPhase, FirstTouch, After, Owners;
    FirstIsGood(ph);
    FirstParts(ph);
    FirstTouches(ph);
    FirstLoop(ph, 10);
    FirstChoices(ph, 0);
  }

  /******* The second phase passes the cursor *******/

  lemma SecondIsGood(ph: Phase)
    requires IsSecond(ph)
    ensures GoodPhase(ph) && Sized(ph) && ph.cands == [(1, 48), (0, 32), (2, 16)]
  {
    hide SharersOf;
    assert ph.cands[0].0 == 1 && ph.cands[1].0 == 0 && ph.cands[2].0 == 2;
    forall a | 0 <= a < |ph.cands| ensures |SharersOf(ph, ph.cands[a].0, N_SOCKETS)| > 0 {
      assert ph.cands[a].0 in ph.sampled[0];
    }
  }

  lemma SecondChoices(ph: Phase, a: nat)
    requires IsSecond(ph) && Sized(ph) && a < |ph.cands|
    ensures Sharers(ph, ph.cands[a].0) == 16 && NewOwner(ph, a) == 0 && EvictedOwner(ph, a, 0) == 0
  {
    hide SharersOf, Busiest;
    var p := ph.cands[a].0;
    assert p == 1 || p == 0 || p == 2;
    SharedByAll(ph, p, N_SOCKETS);
    SharedByAll(ph, 0, N_SOCKETS);
  }

  lemma SecondTouches(ph: Phase)
    requires IsSecond(ph) && Sized(ph)
    ensures FirstTouch(Between(), ph) == Between()
  {
    OwnersAre();
    hide Owners, FirstOwner, Sharers;
    forall p | p in Touched(ph) ensures p in Between().owner {}
    hide Touched, IsSecond;
    NothingNew(Between(), ph);
  }

  lemma NothingNew(s: Pages, ph: Phase)
    requires Sized(ph) && forall p :: p in Touched(ph) ==> p in s.owner
    ensures FirstTouch(s, ph) == s
  {
    hide Touched, FirstOwner;
    assert FirstTouch(s, ph).owner == s.owner && FirstTouch(s, ph).ownerCI == s.ownerCI;
  }

  /** What the island holds after page 1 has taken the place of page 0. */
  ghost predicate Swapped(l: Loop) {
    && l.cursor == 1 && !l.hot && l.i == 0 && l.iCxi == 2
    && l.pages.owner == Owners() && l.pages.ownerCI == Owners()[0 := CXO][1 := CXO][0 := 0] && l.pages.inPool == 1
    && l.pages.movesCI == map[0 := 1][1 := 1] && l.pages.phase == 1
  }

  lemma FindsZero(m: map<nat, nat>, ph: Phase)
    requires ph.cands == [(1, 48), (0, 32), (2, 16)] && Get(m, 0) == CXO && Get(m, 2) != CXO
    ensures FindVictim(m, ph, 2) == 1
  {
    assert FindVictim(m, ph, 1) == 1;
  }

  lemma EvictsPage(l: Loop, ph: Phase, a: nat, v: nat)
    requires Sized(ph) && a < |ph.cands| && -1 <= l.cursor < |ph.cands| && l.pages.inPool > 0
    requires v < |ph.cands| && FindVictim(l.pages.ownerCI, ph, l.cursor) == v && ph.cands[v].1 < ph.cands[a].1
    ensures var u := EvictFor(l, ph, a); var p := ph.cands[v].0;
      && u.cursor == v && u.hot == l.hot && u.i == l.i && u.iCxi == l.iCxi + 1
      && u.pages == l.pages.(ownerCI := l.pages.ownerCI[p := EvictedOwner(ph, a, p)], inPool := l.pages.inPool - 1)
  {
    hide FindVictim, EvictedOwner;
  }

  lemma SecondStart(ph: Phase)
    requires IsSecond(ph) && Sized(ph) && ph.cands == [(1, 48), (0, 32), (2, 16)]
    ensures var l := Start(Between(), ph);
      && Get(l.pages.owner, 1) == NewOwner(ph, 0) && Inserts(l, ph, 0) && l.cursor == 2 && l.pages.inPool == 1
  {
    SecondChoices(ph, 0);
    OwnersAre();
    hide IsSecond, NewOwner, Sharers, Owners;
  }

  lemma SecondInsert(ph: Phase)
    requires Sized(ph) && ph.cands == [(1, 48), (0, 32), (2, 16)]
    ensures var t := Insert(Start(Between(), ph), ph, 0);
      && t.cursor == 2 && !t.hot && t.i == 0 && t.iCxi == 1
      && t.pages.owner == Owners() && t.pages.ownerCI == Owners()[0 := CXO][1 := CXO] && t.pages.inPool == 2
      && t.pages.movesCI == map[0 := 1][1 := 1] && t.pages.phase == 1
  {
    hide Owners;
  }

  /** Page 1 moves in, and page 0 has to leave. */
  lemma SwapVisit(ph: Phase)
    requires IsSecond(ph) && Sized(ph) && ph.cands == [(1, 48), (0, 32), (2, 16)]
    ensures Swapped(Visit(Start(Between(), ph), ph, 0, 2))
  {
    hide IsSecond, NewOwner, EvictedOwner, Sharers, Visit, Owners, EvictFor, FindVictim, Insert, Start, Between, Inserts;
    SecondChoices(ph, 0);
    OwnersAre();
    SecondStart(ph);
    SecondInsert(ph);
    var l := Start(Between(), ph);
    InsertingVisit(l, ph, 0, 2);
    var t := Insert(l, ph, 0);
    FindsZero(t.pages.ownerCI, ph);
    EvictsPage(t, ph, 0, 1);
  }

  /** Page 0 has used up its migrations. */
  lemma SwappedStays(l: Loop, ph: Phase)
    requires IsSecond(ph) && Sized(ph) && ph.cands == [(1, 48), (0, 32), (2, 16)] && Swapped(l)
    ensures Visit(l, ph, 1, 2) == l
  {
    SecondChoices(ph, 1);
    OwnersAre();
    hide IsSecond, NewOwner, Sharers, Visit, Owners;
    IdleVisit(l, ph, 1, 2);
  }

  lemma SecondLoop(ph: Phase)
    requires IsSecond(ph) && GoodPhase(ph) && Sized(ph) && ph.cands == [(1, 48), (0, 32), (2, 16)]
    ensures Swapped(After(Between(), ph, 2))
  {
    hide IsSecond, GoodPhase, Visit, After, Between, PoolCap;
    AfterNone(Between(), ph);
    AtFirstCap();
    AfterStep(Between(), ph, 1);
    AfterStep(Between(), ph, 2);
    SwapVisit(ph);
    SwappedStays(After(Between(), ph, 1), ph);
  }

  /** Page 2 is to move in, the pool is full, and the cursor is behind the visit. */
  lemma ThirdVisit(l: Loop, ph: Phase)
    requires IsSecond(ph) && Sized(ph) && ph.cands == [(1, 48), (0, 32), (2, 16)] && Swapped(l)
    ensures var m := VisitBaseline(l, ph, 2);
      Running(l) && Inserts(m, ph, 2) && PoolCap(Between()) <= m.pages.inPool + 1 && m.cursor < 2
  {
    SecondChoices(ph, 2);
    OwnersAre();
    AtFirstCap();
    hide IsSecond, NewOwner, Sharers, Owners, VisitBaseline, PoolCap;
    Settled(l, ph, 2);
  }

  /** Two phases from no pages at all, in the second of which a page enters the full pool when the visit has passed the
      cursor, and the cursor finds another victim than a full rescan would. */
  lemma CursorIsNotAlwaysRescan() returns (first: Phase, second: Phase)
    ensures GoodPhases([first]) && GoodPhase(second) && Sized(second) && |second.cands| == 3
    ensures var s := DoPhases(NO_PAGES, [first]); var t := FirstTouch(s, second);
      var m := VisitBaseline(After(t, second, 2), second, 2); var ins := Insert(m, second, 2);
      && PagesInv(s) && Running(After(t, second, 2)) && Inserts(m, second, 2) && PoolCap(t) <= m.pages.inPool + 1
      && m.cursor < 2 && -1 <= ins.cursor < |second.cands|
      && FindVictim(ins.pages.ownerCI, second, ins.cursor) != Rescan(ins, second)
  {
    hide IsFirst, IsSecond, GoodPhase, After, FirstTouch, DoPhase, NewOwner, Sharers, FindVictim, PagesInv, Between, VisitBaseline,
      Inserts, PoolCap, Swapped, Running;
    first := FirstExists();
    second := SecondExists();
    FirstPhase(first);
    OnePhase(first);
    PhasesKeep([first]);
    SecondIsGood(second);
    SecondTouches(second);
    SecondLoop(second);
    ThirdVisit(After(Between(), second, 2), second);
    EvictionIsColdest(Between(), second, 2);
  }

  lemma OnePhase(ph: Phase)
    requires GoodPhase(ph)
    ensures GoodPhases([ph]) && DoPhases(NO_PAGES, [ph]) == DoPhase(NO_PAGES, ph)
  {
    hide GoodPhase, DoPhase;
    assert [ph][..0] == [];
    assert DoPhases(NO_PAGES, []) == NO_PAGES;
  }
}
