/** Conservation laws of the traffic counters over whole replays. */
module Accounting {
  import opened Mesi
  import opened Views
  import opened Agreement
  import opened Effects
  import opened SetIndex
  import opened Replay
  import opened FlatMemory
  import opened Counting

  /******* Misses are served exactly once *******/

  lemma LineTraffic(st: DState, sharer: bool, isW: bool)
    requires st == I ==> !sharer
    ensures var c := LineStats(st, sharer, isW);
      && c[MemRead] + c[BlockTrans] == (if sharer then 0 else 1)
      && c[MemRead] == (if !sharer && (st == I || st == S) then 1 else 0)
      && c[Inval] == (if st == S && isW then 1 else 0)
      && c[CohWrite] == (if !sharer && st == M && !isW then 1 else 0)
      && c[MemWrite] == c[LlcHit] == c[LlcMiss] == c[Inst] == 0
  {}

  /** The multiplicities of the events of one access. */
  lemma AccessTraffic(s: SetState, k: nat, l: U64, isW: bool, ts: U64)
    requires Inv(s) && k < |s.ways|
    ensures var ev := Access(s, k, l, isW, ts).stats; var st := Dir(s, l).state; var hit := Hit(s, k, l);
      && ev[Inst] == 1 && ev[LlcHit] == (if hit then 1 else 0) && ev[LlcMiss] == (if hit then 0 else 1)
      && ev[MemRead] + ev[BlockTrans] == ev[LlcMiss]
      && ev[MemRead] == (if !hit && (st == I || st == S) then 1 else 0)
      && ev[Inval] == (if st == S && isW then 1 else 0)
      && ev[CohWrite] == (if !hit && st == M && !isW then 1 else 0)
      && ev[MemWrite] == (if EvictsDirty(s, k, l) then 1 else 0)
  {
    hide Access, EvictsDirty, LineStats;
    AccessStats(s, k, l, isW, ts);
    HitIsSharer(s, k, l);
    assert LineInv(s, l);
    LineTraffic(Dir(s, l).state, Hit(s, k, l), isW);
  }

  /** Over any replay: every access is a hit or a miss, and every miss is served once, by memory or by a socket. */
  lemma {:induction false} MissTrafficConservation(sockets: nat, sets: nat, ways: nat, tr: seq<Ref>)
    requires sockets > 0 && sets > 0 && ways > 0 && InRange(tr, sockets)
    ensures var c := Run(InitMachine(sockets, sets, ways), tr).stats;
      && c[Inst] == |tr|
      && c[Inst] == c[LlcHit] + c[LlcMiss]
      && c[LlcMiss] == c[MemRead] + c[BlockTrans]
  {
    if |tr| > 0 {
      hide Access, Step, MachineInv;
      var m := InitMachine(sockets, sets, ways);
      var init, r := tr[..|tr| - 1], tr[|tr| - 1];
      MissTrafficConservation(sockets, sets, ways, init);
      InitMachineInv(sockets, sets, ways);
      RunInv(m, init);
      StepTraffic(Run(m, init), r);
    }
  }

  lemma StepTraffic(m: Machine, r: Ref)
    requires MachineInv(m) && r.socket < Sockets(m)
    ensures var c, c' := m.stats, Step(m, r).stats;
      && c'[Inst] == c[Inst] + 1
      && c'[LlcHit] + c'[LlcMiss] == c[LlcHit] + c[LlcMiss] + 1
      && c'[MemRead] + c'[BlockTrans] + c[LlcMiss] == c[MemRead] + c[BlockTrans] + c'[LlcMiss]
  {
    hide Access, Inv, Hit, EvictsDirty, Dir;
    AccessTraffic(Home(m, r.line), r.socket, r.line, r.isW, r.ts);
  }

  /******* Every modification is written back, or still there *******/

  /** The lines the directory of one set has in state M. */
  function ModifiedIn(s: SetState): set<U64> {
    set l | l in s.dir && s.dir[l].state == M
  }

  ghost function DirtyIn(s: SetState): set<(nat, nat)> {
    set k: nat, w: nat | k < |s.ways| && w < |s.ways[k]| && s.ways[k][w].dirty :: (k, w)
  }

  /** The number of dirty ways of the first `n` sets, over all sockets. */
  ghost function DirtyWays(m: Machine, n: nat): nat
    requires n <= |m.sets|
  {
    if n == 0 then 0 else DirtyWays(m, n - 1) + |DirtyIn(m.sets[n - 1])|
  }

  ghost function ModifiedLines(m: Machine, n: nat): nat
    requires n <= |m.sets|
  {
    if n == 0 then 0 else ModifiedLines(m, n - 1) + |ModifiedIn(m.sets[n - 1])|
  }

  /** In a consistent set, the dirty ways are the modified lines, one for one. */
  lemma DirtyWaysAreModifiedLines(s: SetState)
    requires Inv(s)
    ensures |DirtyIn(s)| == |ModifiedIn(s)|
  {
    var dirty, modified := DirtyIn(s), ModifiedIn(s);
    var f := map p | p in dirty :: s.ways[p.0][p.1].tag;
    forall p | p in dirty ensures f[p] in modified && Dir(s, f[p]).owner == p.0 && FindWay(s.ways[p.0], f[p]) == p.1 {
      var l := f[p];
      assert s.ways[p.0][p.1].valid;
      FoundAt(s.ways[p.0], p.1, l);
      assert LineInv(s, l) && CopyOK(Dir(s, l), p.0, View(s.ways[p.0], l));
    }
    forall l | l in modified ensures l in f.Values {
      var k := Dir(s, l).owner;
      assert LineInv(s, l) && CopyOK(Dir(s, l), k, View(s.ways[k], l));
      var w := FindWay(s.ways[k], l);
      assert (k, w) in dirty && f[(k, w)] == l;
    }
    assert f.Values == modified;
    SameSize(dirty, modified, f);
  }

  lemma SizeAfter<T>(before: set<T>, after: set<T>, l: T, gone: set<T>)
    requires l !in gone && gone <= before
    requires forall x :: x in after && x != l ==> x in before && x !in gone
    requires forall x :: x in before && x !in gone && x != l ==> x in after
    ensures |after| + |gone| + (if l in before then 1 else 0) == |before| + (if l in after then 1 else 0)
  {
    Without(before - gone, l);
    Without(after, l);
    Minus(before, gone);
    assert after - {l} == before - gone - {l};
  }

  /** What one access does to the modified lines of its set. */
  lemma AccessModified(s: SetState, k: nat, l: U64, isW: bool, ts: U64)
    requires Inv(s) && k < |s.ways|
    ensures var o := Access(s, k, l, isW, ts);
      |ModifiedIn(o.after)| + o.stats[MemWrite] + o.stats[CohWrite]
      == |ModifiedIn(s)| + (if Dir(s, l).state != M && Dir(o.after, l).state == M then 1 else 0)
  {
    hide Access, EvictsDirty, LastInvalid, LruWay;
    var o := Access(s, k, l, isW, ts);
    var v := s.ways[k][LruWay(s.ways[k])].tag;
    var gone := if EvictsDirty(s, k, l) then {v} else {};
    ModifiedAfter(s, k, l, isW, ts);
    if EvictsDirty(s, k, l) { VictimIsAnother(s, k, l); }
    SizeAfter(ModifiedIn(s), ModifiedIn(o.after), l, gone);
    AccessTraffic(s, k, l, isW, ts);
    AccessEntry(s, k, l, isW, ts, l);
  }

  lemma ModifiedAfter(s: SetState, k: nat, l: U64, isW: bool, ts: U64)
    requires Inv(s) && k < |s.ways|
    ensures var o := Access(s, k, l, isW, ts); var v := s.ways[k][LruWay(s.ways[k])].tag;
      && (EvictsDirty(s, k, l) ==> Dir(s, v).state == M)
      && forall x: U64 :: x != l ==>
           (x in ModifiedIn(o.after) <==> x in ModifiedIn(s) && !(EvictsDirty(s, k, l) && x == v))
  {
    hide Access;
    var o := Access(s, k, l, isW, ts);
    var v := s.ways[k][LruWay(s.ways[k])].tag;
    forall x: U64 | x != l
      ensures x in ModifiedIn(o.after) <==> x in ModifiedIn(s) && !(EvictsDirty(s, k, l) && x == v)
    {
      AccessEntry(s, k, l, isW, ts, x);
      assert x in ModifiedIn(s) <==> Dir(s, x).state == M;
      assert x in ModifiedIn(o.after) <==> Dir(o.after, x).state == M;
    }
  }

  /** The references of a replay that take their line's directory entry from another state to M. */
  ghost function Upgrades(m: Machine, tr: seq<Ref>): nat
    requires MachineShape(m) && InRange(tr, Sockets(m))
  {
    if |tr| == 0 then 0
    else
      var init, l := tr[..|tr| - 1], tr[|tr| - 1].line;
      var before, after := Dir(Home(Run(m, init), l), l).state, Dir(Home(Run(m, tr), l), l).state;
      Upgrades(m, init) + (if before != M && after == M then 1 else 0)
  }

  lemma {:induction false} ModifiedOneSet(m: Machine, i: nat, s: SetState, n: nat)
    requires i < |m.sets| && n <= |m.sets|
    ensures ModifiedLines(m.(sets := m.sets[i := s]), n) ==
      ModifiedLines(m, n) + (if i < n then |ModifiedIn(s)| - |ModifiedIn(m.sets[i])| else 0)
  {
    if n > 0 { ModifiedOneSet(m, i, s, n - 1); }
  }

  lemma StepModified(m: Machine, r: Ref)
    requires MachineInv(m) && r.socket < Sockets(m)
    ensures var m' := Step(m, r); var n := |m.sets|;
      ModifiedLines(m', n) + m'.stats[MemWrite] + m'.stats[CohWrite]
      == ModifiedLines(m, n) + m.stats[MemWrite] + m.stats[CohWrite]
         + (if Dir(Home(m, r.line), r.line).state != M && Dir(Home(m', r.line), r.line).state == M then 1 else 0)
  {
    hide Access, ModifiedIn;
    var i := Index(r.line, |m.sets|);
    var m' := Step(m, r);
    AccessModified(m.sets[i], r.socket, r.line, r.isW, r.ts);
    ModifiedOneSet(m, i, m'.sets[i], |m.sets|);
    SameModified(m', m.(sets := m.sets[i := m'.sets[i]]), |m.sets|);
  }

  lemma {:induction false} SameModified(m: Machine, m': Machine, n: nat)
    requires m.sets == m'.sets && n <= |m.sets|
    ensures ModifiedLines(m, n) == ModifiedLines(m', n)
  {
    if n > 0 { SameModified(m, m', n - 1); }
  }

  lemma {:induction false} RunModified(sockets: nat, sets: nat, ways: nat, tr: seq<Ref>)
    requires sockets > 0 && sets > 0 && ways > 0 && InRange(tr, sockets)
    ensures var m := InitMachine(sockets, sets, ways); var m' := Run(m, tr);
      ModifiedLines(m', sets) + m'.stats[MemWrite] + m'.stats[CohWrite] == Upgrades(m, tr)
  {
    var m := InitMachine(sockets, sets, ways);
    hide Access, ModifiedIn;
    if |tr| == 0 {
      NothingModified(m, sets);
    } else {
      var init := tr[..|tr| - 1];
      RunModified(sockets, sets, ways, init);
      InitMachineInv(sockets, sets, ways);
      RunInv(m, init);
      StepModified(Run(m, init), tr[|tr| - 1]);
    }
  }

  lemma {:induction false} NothingModified(m: Machine, n: nat)
    requires n <= |m.sets| && forall i :: 0 <= i < |m.sets| ==> m.sets[i].dir == map[]
    ensures ModifiedLines(m, n) == 0
  {
    if n > 0 { NothingModified(m, n - 1); }
  }

  lemma {:induction false} DirtyIsModified(m: Machine, n: nat)
    requires MachineInv(m) && n <= |m.sets|
    ensures DirtyWays(m, n) == ModifiedLines(m, n)
  {
    if n > 0 {
      DirtyIsModified(m, n - 1);
      DirtyWaysAreModifiedLines(m.sets[n - 1]);
    }
  }

  /** Over any replay: the dirty ways there are now, plus all write-backs so far, is the number of references that
      made a line modified. */
  lemma WriteBackAccounting(sockets: nat, sets: nat, ways: nat, tr: seq<Ref>)
    requires sockets > 0 && sets > 0 && ways > 0 && InRange(tr, sockets)
    ensures var m := InitMachine(sockets, sets, ways); var m' := Run(m, tr);
      DirtyWays(m', sets) + m'.stats[MemWrite] + m'.stats[CohWrite] == Upgrades(m, tr)
  {
    hide DirtyIn, ModifiedIn;
    InitMachineInv(sockets, sets, ways);
    RunInv(InitMachine(sockets, sets, ways), tr);
    RunModified(sockets, sets, ways, tr);
    DirtyIsModified(Run(InitMachine(sockets, sets, ways), tr), sets);
  }
}
