/** The whole machine: all sets of all sockets, replaying a trace of references.

    Sets never interact, so a replay is a family of independent replays, one per set. */
module Replay {
  import opened Mesi
  import opened Views
  import opened Agreement
  import opened Effects
  import opened SetIndex

  /** One reference of a socket to a line, with the instruction count that serves as its timestamp. */
  datatype Ref = Ref(socket: nat, line: U64, isW: bool, ts: U64)

  /** One trace record of thread `thread`: four threads share a socket, a line has 64 bytes, and the lowest
      address bit says whether the access writes. */
  function Decode(thread: nat, addr: U64, icount: U64): Ref {
    Ref(thread / 4, addr / 64, addr % 2 == 1, icount)
  }

  datatype Machine = Machine(sets: seq<SetState>, stats: Stats)

  function InitMachine(sockets: nat, sets: nat, ways: nat): (m: Machine)
    requires sockets > 0 && sets > 0 && ways > 0
    ensures MachineShape(m) && Sockets(m) == sockets
  {
    Machine(Repeat(InitSet(sockets, ways), sets), multiset{})
  }

  /** All sets have the same sockets and ways. */
  ghost predicate MachineShape(m: Machine) {
    |m.sets| > 0 && forall i :: 0 <= i < |m.sets| ==> SameShape(m.sets[0], m.sets[i])
  }

  function Sockets(m: Machine): nat
    requires |m.sets| > 0
  {
    |m.sets[0].ways|
  }

  ghost predicate InRange(tr: seq<Ref>, sockets: nat) {
    forall i :: 0 <= i < |tr| ==> tr[i].socket < sockets
  }

  function Step(m: Machine, r: Ref): (m': Machine)
    requires MachineShape(m) && r.socket < Sockets(m)
    ensures MachineShape(m') && |m'.sets| == |m.sets| && Sockets(m') == Sockets(m)
  {
    hide Access, Shape;
    var i := Index(r.line, |m.sets|);
    var o := Access(m.sets[i], r.socket, r.line, r.isW, r.ts);
    Machine(m.sets[i := o.after], m.stats + o.stats)
  }

  function Run(m: Machine, tr: seq<Ref>): (m': Machine)
    requires MachineShape(m) && InRange(tr, Sockets(m))
    ensures MachineShape(m') && |m'.sets| == |m.sets| && Sockets(m') == Sockets(m)
  {
    if |tr| == 0 then m
    else Step(Run(m, tr[..|tr| - 1]), tr[|tr| - 1])
  }

  lemma RunNext(m: Machine, tr: seq<Ref>, n: nat)
    requires MachineShape(m) && InRange(tr, Sockets(m)) && n < |tr|
    ensures Run(m, tr[..n + 1]) == Step(Run(m, tr[..n]), tr[n])
  {
    hide Step, MachineShape;
    assert tr[..n + 1][..n] == tr[..n];
  }

  /** The set that holds line `l`. */
  function Home(m: Machine, l: U64): SetState
    requires |m.sets| > 0
  {
    m.sets[Index(l, |m.sets|)]
  }

  /******* Agreement in every reachable state *******/

  /** No set holds a line of another set. */
  ghost predicate Placed(m: Machine) {
    && |m.sets| > 0
    && forall i, k, l: U64 :: 0 <= i < |m.sets| && 0 <= k < |m.sets[i].ways| && i != Index(l, |m.sets|)
         ==> View(m.sets[i].ways[k], l) == Absent
  }

  ghost predicate MachineInv(m: Machine) {
    && MachineShape(m)
    && (forall i :: 0 <= i < |m.sets| ==> Inv(m.sets[i]))
    && Placed(m)
  }

  lemma InitMachineInv(sockets: nat, sets: nat, ways: nat)
    requires sockets > 0 && sets > 0 && ways > 0
    ensures MachineInv(InitMachine(sockets, sets, ways))
  {}

  /** An access brings no line into its set but the accessed one. */
  lemma StaysOut(s: SetState, k: nat, l: U64, isW: bool, ts: U64, j: nat, x: U64)
    requires Inv(s) && k < |s.ways| && j < |s.ways| && x != l && View(s.ways[j], x) == Absent
    ensures View(Access(s, k, l, isW, ts).after.ways[j], x) == Absent
  {
    hide Access, Inv, Evicts, View;
    assert Shape(s) by { InvIsShaped(s); }
    AccessViews(s, k, l, isW, ts, j, x);
  }

  lemma InvIsShaped(s: SetState)
    requires Inv(s)
    ensures Shape(s)
  {}

  lemma InvIsShapedAll(m: Machine)
    requires MachineInv(m)
    ensures MachineShape(m)
  {}

  lemma StepPlaced(m: Machine, r: Ref)
    requires MachineInv(m) && r.socket < Sockets(m)
    ensures Placed(Step(m, r))
  {
    var h := Index(r.line, |m.sets|);
    var m' := Step(m, r);
    hide Access, Inv, View, Index;
    forall i, k, l: U64 | 0 <= i < |m'.sets| && 0 <= k < |m'.sets[i].ways| && i != Index(l, |m'.sets|)
      ensures View(m'.sets[i].ways[k], l) == Absent
    {
      assert View(m.sets[i].ways[k], l) == Absent;
      if i == h { StaysOut(m.sets[h], r.socket, r.line, r.isW, r.ts, k, l); }
    }
  }

  lemma StepInv(m: Machine, r: Ref)
    requires MachineInv(m) && r.socket < Sockets(m)
    ensures MachineInv(Step(m, r))
  {
    hide Access, Inv, View, Index, Placed;
    StepPlaced(m, r);
    AccessInv(m.sets[Index(r.line, |m.sets|)], r.socket, r.line, r.isW, r.ts);
  }

  lemma {:induction false} RunInv(m: Machine, tr: seq<Ref>)
    requires MachineInv(m) && InRange(tr, Sockets(m))
    ensures MachineInv(Run(m, tr))
  {
    if |tr| > 0 {
      RunInv(m, tr[..|tr| - 1]);
      StepInv(Run(m, tr[..|tr| - 1]), tr[|tr| - 1]);
    }
  }

  /** Directory and caches agree, spelled out over sockets, sets and ways. */
  ghost predicate Agree(m: Machine) {
    && |m.sets| > 0
    && (forall i, k, w :: 0 <= i < |m.sets| && 0 <= k < |m.sets[i].ways| && 0 <= w < |m.sets[i].ways[k]|
          ==> WayAgrees(m, i, k, w))
    && (forall l: U64 :: LineAgrees(m, l))
  }

  /** A valid way is in the set of its line, is the only one of its socket, and carries the directory's state. */
  ghost predicate WayAgrees(m: Machine, i: nat, k: nat, w: nat)
    requires i < |m.sets| && k < |m.sets[i].ways| && w < |m.sets[i].ways[k]|
  {
    var e := m.sets[i].ways[k][w];
    var de := Dir(m.sets[i], e.tag);
    e.valid ==>
      && i == Index(e.tag, |m.sets|)
      && (forall v :: 0 <= v < |m.sets[i].ways[k]| && v != w ==> !Matches(m.sets[i].ways[k][v], e.tag))
      && k < |de.sharers| && de.sharers[k]
      && e.cstate == de.state && (e.dirty <==> de.state == M)
  }

  /** The sharers of a line are exactly the sockets with a valid way for it; an uncached line has none, an
      exclusive or modified line has only its owner, and a shared line has its owner and at least one more. */
  ghost predicate LineAgrees(m: Machine, l: U64)
    requires |m.sets| > 0
  {
    var s := Home(m, l);
    var de := Dir(s, l);
    && DirOK(de, |s.ways|)
    && forall k :: 0 <= k < |s.ways| ==>
         (de.sharers[k] <==> exists w :: 0 <= w < |s.ways[k]| && Matches(s.ways[k][w], l))
  }

  lemma InvAgrees(m: Machine)
    requires MachineInv(m)
    ensures Agree(m)
  {
    forall i, k, w | 0 <= i < |m.sets| && 0 <= k < |m.sets[i].ways| && 0 <= w < |m.sets[i].ways[k]|
      ensures WayAgrees(m, i, k, w)
    {
      var s := m.sets[i];
      var e := s.ways[k][w];
      if e.valid {
        FoundAt(s.ways[k], w, e.tag);
        assert View(s.ways[k], e.tag).Copy?;
        assert LineInv(s, e.tag) && CopyOK(Dir(s, e.tag), k, View(s.ways[k], e.tag));
      }
    }
    forall l: U64 ensures LineAgrees(m, l) {
      var s := Home(m, l);
      assert LineInv(s, l);
      forall k | 0 <= k < |s.ways|
        ensures Dir(s, l).sharers[k] <==> exists w :: 0 <= w < |s.ways[k]| && Matches(s.ways[k][w], l)
      {
        assert CopyOK(Dir(s, l), k, View(s.ways[k], l));
        var i := FindWay(s.ways[k], l);
        assert i < |s.ways[k]| ==> Matches(s.ways[k][i], l);
      }
    }
  }

  /** In every state a replay can reach, directory and caches agree. */
  lemma ReachableStatesAgree(sockets: nat, sets: nat, ways: nat, tr: seq<Ref>)
    requires sockets > 0 && sets > 0 && ways > 0 && InRange(tr, sockets)
    ensures Agree(Run(InitMachine(sockets, sets, ways), tr))
  {
    InitMachineInv(sockets, sets, ways);
    RunInv(InitMachine(sockets, sets, ways), tr);
    InvAgrees(Run(InitMachine(sockets, sets, ways), tr));
  }

  /******* Set decomposition *******/

  /** The references of a trace that map to set `i` of `n`. */
  function Restrict(tr: seq<Ref>, i: nat, n: nat): seq<Ref>
    requires n > 0
  {
    if |tr| == 0 then []
    else
      var rest := Restrict(tr[..|tr| - 1], i, n);
      var last := tr[|tr| - 1];
      if Index(last.line, n) == i then rest + [last] else rest
  }

  lemma {:induction false} RestrictInRange(tr: seq<Ref>, i: nat, n: nat, sockets: nat)
    requires n > 0 && InRange(tr, sockets)
    ensures InRange(Restrict(tr, i, n), sockets)
  {
    if |tr| > 0 { RestrictInRange(tr[..|tr| - 1], i, n, sockets); }
  }

  /** A replay of one set on its own. */
  function RunSet(s: SetState, tr: seq<Ref>): (o: Outcome)
    requires Shape(s) && InRange(tr, |s.ways|)
    ensures SameShape(s, o.after)
  {
    if |tr| == 0 then Outcome(s, multiset{})
    else
      var p := RunSet(s, tr[..|tr| - 1]);
      var r := tr[|tr| - 1];
      var o := Access(p.after, r.socket, r.line, r.isW, r.ts);
      Outcome(o.after, p.stats + o.stats)
  }

  ghost function SetAlone(m: Machine, tr: seq<Ref>, i: nat): Outcome
    requires MachineShape(m) && InRange(tr, Sockets(m)) && i < |m.sets|
  {
    RestrictInRange(tr, i, |m.sets|, Sockets(m));
    RunSet(m.sets[i], Restrict(tr, i, |m.sets|))
  }

  /** The counters of the first `n` sets, each replayed on its own, added to the machine's. */
  ghost function SumOfSets(m: Machine, tr: seq<Ref>, n: nat): Stats
    requires MachineShape(m) && InRange(tr, Sockets(m)) && n <= |m.sets|
  {
    if n == 0 then m.stats
    else SumOfSets(m, tr, n - 1) + SetAlone(m, tr, n - 1).stats
  }

  lemma {:induction false} SumOfNothing(m: Machine, n: nat)
    requires MachineShape(m) && n <= |m.sets|
    ensures SumOfSets(m, [], n) == m.stats
  {
    if n > 0 { SumOfNothing(m, n - 1); }
  }

  /** What one more reference does to the sets replayed on their own. */
  lemma AloneOneMore(m: Machine, tr: seq<Ref>, i: nat)
    requires MachineShape(m) && InRange(tr, Sockets(m)) && |tr| > 0 && i < |m.sets|
    ensures var r := tr[|tr| - 1]; var before := SetAlone(m, tr[..|tr| - 1], i);
      SetAlone(m, tr, i) ==
        if Index(r.line, |m.sets|) == i then
          var o := Access(before.after, r.socket, r.line, r.isW, r.ts);
          Outcome(o.after, before.stats + o.stats)
        else before
  {}

  lemma {:induction false} SumOfOneMore(m: Machine, tr: seq<Ref>, n: nat)
    requires MachineShape(m) && InRange(tr, Sockets(m)) && n <= |m.sets| && |tr| > 0
    ensures var r := tr[|tr| - 1]; var h := Index(r.line, |m.sets|);
      var before := SumOfSets(m, tr[..|tr| - 1], n);
      SumOfSets(m, tr, n) ==
        if h < n then before + Access(SetAlone(m, tr[..|tr| - 1], h).after, r.socket, r.line, r.isW, r.ts).stats
        else before
  {
    hide Access, SetAlone;
    if n > 0 {
      SumOfOneMore(m, tr, n - 1);
      AloneOneMore(m, tr, n - 1);
    }
  }

  /** A replay is the family of its sets' replays: every set ends as if only its own references had been
      replayed, and the counters are the sums over the sets. */
  lemma {:induction false} SetDecomposition(m: Machine, tr: seq<Ref>)
    requires MachineShape(m) && InRange(tr, Sockets(m))
    ensures var m' := Run(m, tr);
      && (forall i :: 0 <= i < |m.sets| ==> m'.sets[i] == SetAlone(m, tr, i).after)
      && m'.stats == SumOfSets(m, tr, |m.sets|)
  {
    if |tr| == 0 {
      SumOfNothing(m, |m.sets|);
    } else {
      hide Access, SetAlone;
      var init, r := tr[..|tr| - 1], tr[|tr| - 1];
      SetDecomposition(m, init);
      forall i | 0 <= i < |m.sets| ensures Run(m, tr).sets[i] == SetAlone(m, tr, i).after { AloneOneMore(m, tr, i); }
      SumOfOneMore(m, tr, |m.sets|);
    }
  }

  /** Only the order of references within each set matters. */
  lemma OrderWithinSetsIsEnough(m: Machine, tr: seq<Ref>, tr': seq<Ref>)
    requires MachineShape(m) && InRange(tr, Sockets(m)) && InRange(tr', Sockets(m))
    requires forall i :: 0 <= i < |m.sets| ==> Restrict(tr, i, |m.sets|) == Restrict(tr', i, |m.sets|)
    ensures Run(m, tr) == Run(m, tr')
  {
    SetDecomposition(m, tr);
    SetDecomposition(m, tr');
    SumsAgree(m, tr, tr', |m.sets|);
  }

  /** In particular, references to different sets commute. */
  lemma DifferentSetsCommute(m: Machine, a: Ref, b: Ref)
    requires MachineShape(m) && a.socket < Sockets(m) && b.socket < Sockets(m)
    requires Index(a.line, |m.sets|) != Index(b.line, |m.sets|)
    ensures Step(Step(m, a), b) == Step(Step(m, b), a)
  {}

  lemma {:induction false} SumsAgree(m: Machine, tr: seq<Ref>, tr': seq<Ref>, n: nat)
    requires MachineShape(m) && InRange(tr, Sockets(m)) && InRange(tr', Sockets(m)) && n <= |m.sets|
    requires forall i :: 0 <= i < |m.sets| ==> Restrict(tr, i, |m.sets|) == Restrict(tr', i, |m.sets|)
    ensures SumOfSets(m, tr, n) == SumOfSets(m, tr', n)
  {
    hide RunSet, Restrict;
    if n > 0 {
      SumsAgree(m, tr, tr', n - 1);
      assert Restrict(tr, n - 1, |m.sets|) == Restrict(tr', n - 1, |m.sets|);
    }
  }
}
