/** Equal timestamps void least-recently-used inclusion: for every number of ways above two a replay with ties in which
    that many ways lose a hit against any smaller number from two. */
module Ties {
  import opened Mesi
  import opened Views
  import opened Agreement
  import opened Effects
  import opened SetIndex
  import opened Replay
  import opened Accounting
  import opened Inclusion

  function Read(l: U64, ts: U64): Ref { Ref(0, l, false, ts) }

  /** The timestamp of line `x`: 0 for the first lines, 1 for all others. */
  function StampOf(many: nat, x: int): nat {
    if x < many - 2 then 0 else 1
  }

  /** Reads of `2 * many - 1` different lines by one socket, and then of line `many - 1` once more. */
  function Tied(many: nat): (tr: seq<Ref>)
    requires 2 * many <= U64_MAX
    ensures |tr| == 2 * many
    ensures forall i :: 0 <= i < |tr| ==> tr[i] == if i < 2 * many - 1 then Read(i, StampOf(many, i)) else Read(many - 1, 1)
  {
    seq(2 * many, i requires 0 <= i < 2 * many => if i < 2 * many - 1 then Read(i, StampOf(many, i)) else Read(many - 1, 1))
  }

  /** A miss replaces exactly the way that `Slot` names. */
  lemma MissFillsSlot(s: SetState, k: nat, l: U64, isW: bool, ts: U64)
    requires Inv(s) && k < |s.ways| && !Hit(s, k, l)
    ensures var w := Slot(s.ways[k]); var ws := Access(s, k, l, isW, ts).after.ways[k];
      && |ws| == |s.ways[k]|
      && (forall v :: 0 <= v < |ws| && v != w ==> ws[v] == s.ways[k][v])
      && ws[w].valid && ws[w].tag == l && ws[w].ts == ts
  {
    hide Access, MakeRoom;
    MakeRoomInv(s, k);
    FillLine(MakeRoom(s, k).after, k, Slot(s.ways[k]), l, isW, ts);
    MissAfter(s, k, l, isW, ts);
  }

  lemma MissAfter(s: SetState, k: nat, l: U64, isW: bool, ts: U64)
    requires Shape(s) && k < |s.ways| && !Hit(s, k, l)
    ensures Access(s, k, l, isW, ts).after == Fill(MakeRoom(s, k).after, k, Slot(s.ways[k]), l, isW, ts).after
  {}

  /** One way as a line and a timestamp; line -1 stands for an invalid way. */
  ghost predicate Shows(m: Machine, want: seq<(int, int)>) {
    && MachineInv(m) && |m.sets| == 1 && Sockets(m) == 1
    && |m.sets[0].ways[0]| == |want|
    && forall w :: 0 <= w < |want| ==>
         var e := m.sets[0].ways[0][w];
         if want[w].0 < 0 then !e.valid else e.valid && e.tag == want[w].0 && e.ts == want[w].1
  }

  /** The way that a miss fills is the last invalid one, or else the first of the oldest. */
  ghost predicate Chosen(want: seq<(int, int)>, w: nat) {
    && w < |want|
    && if want[w].0 < 0 then forall v :: w < v < |want| ==> want[v].0 >= 0
       else
         && (forall v :: 0 <= v < |want| ==> want[v].0 >= 0 && want[w].1 <= want[v].1)
         && (forall v :: 0 <= v < w ==> want[w].1 < want[v].1)
  }

  lemma Miss(m: Machine, want: seq<(int, int)>, l: U64, ts: U64, w: nat)
    requires Shows(m, want) && Chosen(want, w) && forall v :: 0 <= v < |want| ==> want[v].0 != l
    ensures var m' := Step(m, Read(l, ts));
      Shows(m', want[w := (l, ts)]) && m'.stats[LlcHit] == m.stats[LlcHit]
  {
    hide Access;
    var s := m.sets[0];
    StepInv(m, Read(l, ts));
    assert !Hit(s, 0, l);
    assert Slot(s.ways[0]) == w;
    MissFillsSlot(s, 0, l, false, ts);
    AccessTraffic(s, 0, l, false, ts);
  }

  lemma HitAgain(m: Machine, want: seq<(int, int)>, l: U64, ts: U64, w: nat)
    requires Shows(m, want) && w < |want| && want[w].0 == l
    ensures Step(m, Read(l, ts)).stats[LlcHit] == m.stats[LlcHit] + 1
  {
    hide Access;
    assert Matches(m.sets[0].ways[0][w], l);
    AccessTraffic(m.sets[0], 0, l, false, ts);
  }

  /******* Which line is where *******/

  /** The line in way `w` of `ways` after the first `i` reads, or -1. The first lines fill the ways from the last to the
      first, and then replace each other in way 0. Then lines `many - 2` and `many - 1` come into ways 0 and 1, or 1 and
      0 if there are `many` ways. The next lines replace the remaining first ones, from way 2 on; after that all
      timestamps are equal, and way 0 is always replaced. */
  function LineAt(ways: nat, many: nat, i: nat, w: nat): int {
    if i < many then
      if w == 0 then
        if i == many - 1 && ways < many then many - 2 else if i < ways || i == many - 1 then -1 else i - 1
      else if ways - 1 - w < i then ways - 1 - w else -1
    else if w == 0 then
      if i - many < ways - 1 then if ways < many then many - 2 else many - 1 else i - 1
    else if w == 1 then if ways < many then many - 1 else many - 2
    else if w < i - many + 2 then many + w - 2 else ways - 1 - w
  }

  function Lines(ways: nat, many: nat, i: nat): (want: seq<(int, int)>)
    ensures |want| == ways
    ensures forall w :: 0 <= w < ways ==> want[w] == (LineAt(ways, many, i, w), StampOf(many, LineAt(ways, many, i, w)))
  {
    seq(ways, w requires 0 <= w < ways => (LineAt(ways, many, i, w), StampOf(many, LineAt(ways, many, i, w))))
  }

  /** The way that read `i` fills. */
  function WayOf(ways: nat, many: nat, i: nat): nat {
    if i < many - 2 then if i < ways - 1 then ways - 1 - i else 0
    else if i == many - 2 then if ways < many then 0 else 1
    else if i == many - 1 then if ways < many then 1 else 0
    else if i - many + 2 < ways then i - many + 2 else 0
  }

  lemma WayIsChosen(ways: nat, many: nat, i: nat)
    requires 2 <= ways <= many && 2 < many && i < 2 * many - 1
    ensures Chosen(Lines(ways, many, i), WayOf(ways, many, i))
  {
    hide Lines;
    var w := WayOf(ways, many, i);
    assert forall v :: 0 <= v < ways ==> Lines(ways, many, i)[v].0 == LineAt(ways, many, i, v);
  }

  lemma LinesAreOld(ways: nat, many: nat, i: nat)
    requires 2 <= ways <= many && 2 < many && i < 2 * many - 1
    ensures forall w :: 0 <= w < ways ==> LineAt(ways, many, i, w) < i
  {}

  lemma LinesMove(ways: nat, many: nat, i: nat)
    requires 2 <= ways <= many && 2 < many && i < 2 * many - 1
    ensures WayOf(ways, many, i) < ways
    ensures Lines(ways, many, i + 1) == Lines(ways, many, i)[WayOf(ways, many, i) := (i, StampOf(many, i))]
  {
    hide Lines;
    forall w | 0 <= w < ways
      ensures LineAt(ways, many, i + 1, w) == if w == WayOf(ways, many, i) then i else LineAt(ways, many, i, w) {}
  }

  /******* The replay *******/

  function After(ways: nat, many: nat, n: nat): (m: Machine)
    requires ways > 0 && 2 * many <= U64_MAX && n <= 2 * many
    ensures MachineShape(m) && Sockets(m) == 1
  {
    Run(InitMachine(1, 1, ways), Tied(many)[..n])
  }

  lemma NextRead(ways: nat, many: nat, n: nat)
    requires ways > 0 && 2 * many <= U64_MAX && n < 2 * many
    ensures Tied(many)[n].socket == 0 && After(ways, many, n + 1) == Step(After(ways, many, n), Tied(many)[n])
  {
    hide MachineShape, Tied, Run, Step, InitMachine, StampOf;
    RunNext(InitMachine(1, 1, ways), Tied(many), n);
  }

  lemma NoReads(ways: nat, many: nat)
    requires 2 <= ways <= many && 2 < many && 2 * many <= U64_MAX
    ensures Shows(After(ways, many, 0), Lines(ways, many, 0)) && After(ways, many, 0).stats[LlcHit] == 0
  {
    InitMachineInv(1, 1, ways);
    hide MachineInv, Lines;
  }

  /** All reads but the last one miss. */
  lemma {:induction false} FirstReads(ways: nat, many: nat, n: nat)
    requires 2 <= ways <= many && 2 < many && 2 * many <= U64_MAX && n < 2 * many
    ensures Shows(After(ways, many, n), Lines(ways, many, n)) && After(ways, many, n).stats[LlcHit] == 0
  {
    hide Shows, Chosen, Step, After, Lines, LineAt, WayOf, StampOf;
    if n == 0 {
      NoReads(ways, many);
    } else {
      FirstReads(ways, many, n - 1);
      NextRead(ways, many, n - 1);
      WayIsChosen(ways, many, n - 1);
      LinesAreOld(ways, many, n - 1);
      LinesMove(ways, many, n - 1);
      Miss(After(ways, many, n - 1), Lines(ways, many, n - 1), n - 1, StampOf(many, n - 1), WayOf(ways, many, n - 1));
    }
  }

  /** The last read hits with fewer ways. */
  lemma LastReadHits(ways: nat, many: nat)
    requires 2 <= ways < many && 2 * many <= U64_MAX
    ensures After(ways, many, 2 * many).stats[LlcHit] == 1
  {
    var n := 2 * many - 1;
    assert Lines(ways, many, n)[1].0 == many - 1;
    hide Shows, Step, After, Lines, LineAt;
    FirstReads(ways, many, n);
    NextRead(ways, many, n);
    HitAgain(After(ways, many, n), Lines(ways, many, n), many - 1, 1, 1);
  }

  lemma GoneAtLast(many: nat)
    requires 2 < many
    ensures var want := Lines(many, many, 2 * many - 1); Chosen(want, 0) && forall w :: 0 <= w < many ==> want[w].0 != many - 1
  {
    hide Lines;
    var want := Lines(many, many, 2 * many - 1);
    assert forall w :: 0 <= w < many ==> want[w].0 == LineAt(many, many, 2 * many - 1, w);
  }

  /** It misses with `many` ways. */
  lemma LastReadMisses(many: nat)
    requires 2 < many && 2 * many <= U64_MAX
    ensures After(many, many, 2 * many).stats[LlcHit] == 0
  {
    hide Shows, Chosen, Step, After, Lines, LineAt;
    var n := 2 * many - 1;
    GoneAtLast(many);
    FirstReads(many, many, n);
    NextRead(many, many, n);
    Miss(After(many, many, n), Lines(many, many, n), many - 1, 1, 0);
  }

  /** For every larger number of ways there is a replay of one socket whose timestamps never decrease, and in which it
      has fewer hits than with every smaller number from two. That timestamps do not decrease is thus not enough. */
  lemma TiesLoseHits(few: nat, many: nat)
    requires 2 <= few < many && 2 * many <= U64_MAX
    ensures InRange(Tied(many), 1) && !Increasing(Tied(many), 1)
    ensures forall a, b :: 0 <= a < b < |Tied(many)| ==> Tied(many)[a].ts <= Tied(many)[b].ts
    ensures Run(InitMachine(1, 1, few), Tied(many)).stats[LlcHit] > Run(InitMachine(1, 1, many), Tied(many)).stats[LlcHit]
  {
    hide Tied, Run, After;
    LastReadHits(few, many);
    LastReadMisses(many);
    AllReads(few, many);
    AllReads(many, many);
    assert SameQueue(Tied(many)[many - 2], Tied(many)[many - 1], 1);
  }

  lemma AllReads(ways: nat, many: nat)
    requires ways > 0 && 2 * many <= U64_MAX
    ensures InRange(Tied(many), 1) && Run(InitMachine(1, 1, ways), Tied(many)) == After(ways, many, 2 * many)
  {
    hide Tied;
    assert Tied(many)[..2 * many] == Tied(many);
  }
}
