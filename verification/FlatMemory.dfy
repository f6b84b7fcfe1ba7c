/** The machine behaves like one flat memory.

    The replay moves no data, it only counts transfers. Here every counted transfer moves data: a counted memory read
    fills a copy from memory, a counted block transfer fills it from the previous owner's copy, a counted memory
    write stores the evicted copy, and a counted coherence write stores the owner's copy. Nothing else moves data.
    Every access then sees the value last written to its line, by whichever socket. */
module FlatMemory {
  import opened Mesi
  import opened Views
  import opened Agreement
  import opened Effects
  import opened SetIndex
  import opened Replay

  /** The contents of a line: what memory held at the start, or what the `n`th reference wrote.
      `Garbage` is what an access gets that is not a hit and is served by nobody. */
  datatype Value = Initial | By(n: nat) | Garbage

  /** Memory and the sockets' copies. Copies of lines that are no longer held are stale, and stay in the map. */
  datatype Data = Data(mem: map<U64, Value>, copies: seq<map<U64, Value>>)

  function Memory(d: Data, l: U64): Value {
    if l in d.mem then d.mem[l] else Initial
  }

  function CopyOf(d: Data, k: nat, l: U64): Value
    requires k < |d.copies|
  {
    if l in d.copies[k] then d.copies[k][l] else Garbage
  }

  /** Memory after the write-backs of an access: of the evicted line, and of the requested one. */
  function WriteBack(s: SetState, d: Data, r: Ref, events: Stats): map<U64, Value>
    requires Shape(s) && r.socket < |s.ways| == |d.copies|
  {
    var victim := s.ways[r.socket][LruWay(s.ways[r.socket])].tag;
    var mem := if MemWrite in events then d.mem[victim := CopyOf(d, r.socket, victim)] else d.mem;
    var owner := Dir(s, r.line).owner;
    if CohWrite in events && owner < |d.copies| then mem[r.line := CopyOf(d, owner, r.line)] else mem
  }

  /** The value an access sees. */
  function Seen(s: SetState, d: Data, r: Ref, events: Stats): Value
    requires Shape(s) && r.socket < |s.ways| == |d.copies|
  {
    var owner := Dir(s, r.line).owner;
    if LlcHit in events then CopyOf(d, r.socket, r.line)
    else if MemRead in events then Memory(Data(WriteBack(s, d, r, events), d.copies), r.line)
    else if BlockTrans in events && owner < |d.copies| then CopyOf(d, owner, r.line)
    else Garbage
  }

  function Move(s: SetState, d: Data, r: Ref, n: nat, events: Stats): Data
    requires Shape(s) && r.socket < |s.ways| == |d.copies|
  {
    var v := if r.isW then By(n) else Seen(s, d, r, events);
    var held: map<U64, Value> := d.copies[r.socket][r.line := v];
    Data(WriteBack(s, d, r, events), d.copies[r.socket := held])
  }

  function EventsOf(m: Machine, r: Ref): Stats
    requires MachineShape(m) && r.socket < Sockets(m)
  {
    Access(Home(m, r.line), r.socket, r.line, r.isW, r.ts).stats
  }

  /** The data after replaying `tr` from machine `m`, whose sockets hold nothing yet. */
  function RunData(m: Machine, tr: seq<Ref>): (d: Data)
    requires MachineShape(m) && InRange(tr, Sockets(m))
    ensures |d.copies| == Sockets(m)
  {
    if |tr| == 0 then Data(map[], Repeat(map[], Sockets(m)))
    else
      var n := |tr| - 1;
      var m' := Run(m, tr[..n]);
      Move(Home(m', tr[n].line), RunData(m, tr[..n]), tr[n], n, EventsOf(m', tr[n]))
  }

  /** What the next reference sees after `tr` has been replayed. */
  function SeenAfter(m: Machine, tr: seq<Ref>, r: Ref): Value
    requires MachineShape(m) && InRange(tr, Sockets(m)) && r.socket < Sockets(m)
  {
    var m' := Run(m, tr);
    Seen(Home(m', r.line), RunData(m, tr), r, EventsOf(m', r))
  }

  /** Flat memory: the value last written to `l` by any socket. */
  function LastWrite(tr: seq<Ref>, l: U64): Value {
    if |tr| == 0 then Initial
    else if tr[|tr| - 1].isW && tr[|tr| - 1].line == l then By(|tr| - 1)
    else LastWrite(tr[..|tr| - 1], l)
  }

  /** One set, its data, and a flat memory `flat` for line `l`: memory is current unless the line is modified,
      and every copy that is held is current. */
  ghost predicate LineCurrent(s: SetState, d: Data, l: U64, flat: Value) {
    && |s.ways| == |d.copies|
    && (Dir(s, l).state != M ==> Memory(d, l) == flat)
    && forall k :: 0 <= k < |s.ways| && View(s.ways[k], l).Copy? ==> CopyOf(d, k, l) == flat
  }

  ghost predicate Current(m: Machine, d: Data, tr: seq<Ref>) {
    |m.sets| > 0 && forall l: U64 :: LineCurrent(Home(m, l), d, l, LastWrite(tr, l))
  }

  /** Which events an access raises, as membership. */
  lemma WhichEvents(s: SetState, r: Ref)
    requires Inv(s) && r.socket < |s.ways|
    ensures var ev := Access(s, r.socket, r.line, r.isW, r.ts).stats; var st := Dir(s, r.line).state;
      var hit := Hit(s, r.socket, r.line);
      && (LlcHit in ev <==> hit)
      && (MemRead in ev <==> !hit && (st == I || st == S))
      && (BlockTrans in ev <==> !hit && (st == E || st == M))
      && (CohWrite in ev <==> !hit && st == M && !r.isW)
      && (MemWrite in ev <==> EvictsDirty(s, r.socket, r.line))
  {
    hide Access, EvictsDirty;
    AccessStats(s, r.socket, r.line, r.isW, r.ts);
    HitIsSharer(s, r.socket, r.line);
    assert LineInv(s, r.line);
    var hit := Hit(s, r.socket, r.line);
    var a := if hit then multiset{Inst, LlcHit} else multiset{Inst, LlcMiss};
    var b := if EvictsDirty(s, r.socket, r.line) then multiset{MemWrite} else multiset{};
    var c := LineStats(Dir(s, r.line).state, hit, r.isW);
    LineEvents(Dir(s, r.line).state, hit, r.isW);
    assert Access(s, r.socket, r.line, r.isW, r.ts).stats == a + b + c;
  }

  lemma LineEvents(st: DState, sharer: bool, isW: bool)
    requires st == I ==> !sharer
    ensures var c := LineStats(st, sharer, isW);
      && (MemRead in c <==> !sharer && (st == I || st == S))
      && (BlockTrans in c <==> !sharer && (st == E || st == M))
      && (CohWrite in c <==> !sharer && st == M && !isW)
      && MemWrite !in c && LlcHit !in c && LlcMiss !in c && Inst !in c
  {}

  /** What an access to a current line sees is current. */
  lemma SeenIsCurrent(s: SetState, d: Data, r: Ref, flat: Value)
    requires Inv(s) && r.socket < |s.ways| && LineCurrent(s, d, r.line, flat)
    ensures Seen(s, d, r, Access(s, r.socket, r.line, r.isW, r.ts).stats) == flat
  {
    hide Access, EvictsDirty, LastInvalid;
    var l, k := r.line, r.socket;
    WhichEvents(s, r);
    assert LineInv(s, l);
    HitIsSharer(s, k, l);
    var owner := Dir(s, l).owner;
    assert CopyOK(Dir(s, l), owner, View(s.ways[owner], l));
    if EvictsDirty(s, k, l) { VictimIsAnother(s, k, l); }
  }

  /** The requested line. */
  lemma LineStaysCurrent(s: SetState, d: Data, r: Ref, n: nat, flat: Value)
    requires Inv(s) && r.socket < |s.ways| && LineCurrent(s, d, r.line, flat)
    ensures var o := Access(s, r.socket, r.line, r.isW, r.ts);
      && Seen(s, d, r, o.stats) == flat
      && LineCurrent(o.after, Move(s, d, r, n, o.stats), r.line, if r.isW then By(n) else flat)
  {
    hide Access, EvictsDirty, LastInvalid, Seen;
    var l, k := r.line, r.socket;
    var o := Access(s, k, l, r.isW, r.ts);
    var d' := Move(s, d, r, n, o.stats);
    SeenIsCurrent(s, d, r, flat);
    WhichEvents(s, r);
    AccessEntry(s, k, l, r.isW, r.ts, l);
    assert LineInv(s, l);
    HitIsSharer(s, k, l);
    var owner := Dir(s, l).owner;
    assert CopyOK(Dir(s, l), owner, View(s.ways[owner], l));
    if EvictsDirty(s, k, l) { VictimIsAnother(s, k, l); }
    forall j | 0 <= j < |s.ways| && View(o.after.ways[j], l).Copy?
      ensures CopyOf(d', j, l) == if r.isW then By(n) else flat
    {
      AccessViews(s, k, l, r.isW, r.ts, j, l);
    }
  }

  lemma VictimIsAnother(s: SetState, k: nat, l: U64)
    requires Inv(s) && k < |s.ways| && EvictsDirty(s, k, l)
    ensures var v := s.ways[k][LruWay(s.ways[k])].tag; v != l && Evicts(s, k, l, v) && View(s.ways[k], v).Copy?
  {}

  /** Of any other line memory changes only if it is thrown out, and then receives a current copy. */
  lemma OtherMemory(s: SetState, d: Data, r: Ref, n: nat, x: U64, flat: Value)
    requires Inv(s) && r.socket < |s.ways| && x != r.line && LineCurrent(s, d, x, flat)
    ensures var o := Access(s, r.socket, r.line, r.isW, r.ts);
      Dir(o.after, x).state != M ==> Memory(Move(s, d, r, n, o.stats), x) == flat
  {
    hide Access, LastInvalid, Seen;
    var l, k := r.line, r.socket;
    WhichEvents(s, r);
    AccessEntry(s, k, l, r.isW, r.ts, x);
    if EvictsDirty(s, k, l) { VictimIsAnother(s, k, l); }
  }

  lemma OtherCopy(s: SetState, d: Data, r: Ref, n: nat, x: U64, flat: Value, j: nat)
    requires Inv(s) && r.socket < |s.ways| && x != r.line && LineCurrent(s, d, x, flat)
    requires var o := Access(s, r.socket, r.line, r.isW, r.ts); j < |o.after.ways| && View(o.after.ways[j], x).Copy? && j < |s.ways|
    ensures var o := Access(s, r.socket, r.line, r.isW, r.ts);
      CopyOf(Move(s, d, r, n, o.stats), j, x) == flat
  {
    hide Access, Evicts, Seen, WriteBack;
    AccessViews(s, r.socket, r.line, r.isW, r.ts, j, x);
  }

  /** Any other line, evicted or not. */
  lemma OtherStaysCurrent(s: SetState, d: Data, r: Ref, n: nat, x: U64, flat: Value)
    requires Inv(s) && r.socket < |s.ways| && x != r.line && LineCurrent(s, d, x, flat)
    ensures var o := Access(s, r.socket, r.line, r.isW, r.ts);
      LineCurrent(o.after, Move(s, d, r, n, o.stats), x, flat)
  {
    hide Access, Seen, WriteBack, Inv, View, Dir, CopyOf, Memory;
    InvIsShaped(s);
    var o := Access(s, r.socket, r.line, r.isW, r.ts);
    var d' := Move(s, d, r, n, o.stats);
    OtherMemory(s, d, r, n, x, flat);
    forall j | 0 <= j < |s.ways| && View(o.after.ways[j], x).Copy? ensures CopyOf(d', j, x) == flat {
      OtherCopy(s, d, r, n, x, flat, j);
    }
  }

  /** The victim is in the set of the line it makes room for. */
  lemma VictimIsHome(m: Machine, r: Ref)
    requires MachineInv(m) && r.socket < Sockets(m) && EvictsDirty(Home(m, r.line), r.socket, r.line)
    ensures var ws := Home(m, r.line).ways[r.socket]; Index(ws[LruWay(ws)].tag, |m.sets|) == Index(r.line, |m.sets|)
  {
    VictimIsAnother(Home(m, r.line), r.socket, r.line);
  }

  /** A line of another set. */
  lemma OtherSetStaysCurrent(m: Machine, d: Data, r: Ref, n: nat, x: U64, flat: Value)
    requires MachineInv(m) && r.socket < Sockets(m) && Index(x, |m.sets|) != Index(r.line, |m.sets|)
    requires LineCurrent(Home(m, x), d, x, flat)
    ensures |d.copies| == |Home(m, r.line).ways|
    ensures LineCurrent(Home(m, x), Move(Home(m, r.line), d, r, n, EventsOf(m, r)), x, flat)
  {
    hide Access, LastInvalid, Seen;
    var s := Home(m, r.line);
    WhichEvents(s, r);
    if EvictsDirty(s, r.socket, r.line) {
      VictimIsHome(m, r);
    }
  }

  lemma {:induction false} RunStaysCurrent(m: Machine, tr: seq<Ref>)
    requires MachineInv(m) && InRange(tr, Sockets(m)) && Current(m, RunData(m, []), [])
    ensures MachineInv(Run(m, tr)) && Current(Run(m, tr), RunData(m, tr), tr)
  {
    hide Access, EventsOf, Move, Current, MachineInv, LastWrite, Step;
    InvIsShapedAll(m);
    RunInv(m, tr);
    if |tr| > 0 {
      var n := |tr| - 1;
      var init, r := tr[..n], tr[n];
      RunStaysCurrent(m, init);
      StepStaysCurrent(Run(m, init), RunData(m, init), init, r);
      assert init + [r] == tr;
    } else {
      assert tr == [];
    }
  }

  lemma StepStaysCurrent(m: Machine, d: Data, tr: seq<Ref>, r: Ref)
    requires MachineInv(m) && r.socket < Sockets(m) == |d.copies| && Current(m, d, tr)
    ensures Current(Step(m, r), Move(Home(m, r.line), d, r, |tr|, EventsOf(m, r)), tr + [r])
  {
    hide Access;
    var m' := Step(m, r);
    var d' := Move(Home(m, r.line), d, r, |tr|, EventsOf(m, r));
    assert (tr + [r])[..|tr|] == tr;
    forall l: U64 ensures LineCurrent(Home(m', l), d', l, LastWrite(tr + [r], l)) {
      assert LineCurrent(Home(m, l), d, l, LastWrite(tr, l));
      if l == r.line {
        LineStaysCurrent(Home(m, l), d, r, |tr|, LastWrite(tr, l));
      } else if Index(l, |m.sets|) == Index(r.line, |m.sets|) {
        OtherStaysCurrent(Home(m, l), d, r, |tr|, l, LastWrite(tr, l));
      } else {
        OtherSetStaysCurrent(m, d, r, |tr|, l, LastWrite(tr, l));
      }
    }
  }

  lemma InitCurrent(sockets: nat, sets: nat, ways: nat)
    requires sockets > 0 && sets > 0 && ways > 0
    ensures var m := InitMachine(sockets, sets, ways); Current(m, RunData(m, []), [])
  {}

  /** In every replay, every access sees the value last written to its line. */
  lemma EveryAccessSeesTheLastWrite(sockets: nat, sets: nat, ways: nat, tr: seq<Ref>, r: Ref)
    requires sockets > 0 && sets > 0 && ways > 0 && InRange(tr, sockets) && r.socket < sockets
    ensures SeenAfter(InitMachine(sockets, sets, ways), tr, r) == LastWrite(tr, r.line)
  {
    hide Access;
    var m := InitMachine(sockets, sets, ways);
    InitMachineInv(sockets, sets, ways);
    InitCurrent(sockets, sets, ways);
    RunStaysCurrent(m, tr);
    var m' := Run(m, tr);
    assert LineCurrent(Home(m', r.line), RunData(m, tr), r.line, LastWrite(tr, r.line));
    LineStaysCurrent(Home(m', r.line), RunData(m, tr), r, |tr|, LastWrite(tr, r.line));
  }

  /** In every reachable state, memory is current for every line that is not modified, and every copy is current. */
  lemma MemoryIsCurrentUnlessModified(sockets: nat, sets: nat, ways: nat, tr: seq<Ref>, l: U64)
    requires sockets > 0 && sets > 0 && ways > 0 && InRange(tr, sockets)
    ensures var m := InitMachine(sockets, sets, ways); var s := Home(Run(m, tr), l); var d := RunData(m, tr);
      && (Dir(s, l).state != M ==> Memory(d, l) == LastWrite(tr, l))
      && |s.ways| == |d.copies|
      && forall k :: 0 <= k < |s.ways| && Hit(s, k, l) ==> CopyOf(d, k, l) == LastWrite(tr, l)
  {
    hide Access;
    var m := InitMachine(sockets, sets, ways);
    InitMachineInv(sockets, sets, ways);
    InitCurrent(sockets, sets, ways);
    RunStaysCurrent(m, tr);
    var s := Home(Run(m, tr), l);
    assert LineCurrent(s, RunData(m, tr), l, LastWrite(tr, l));
    forall k | 0 <= k < |s.ways| && Hit(s, k, l) ensures View(s.ways[k], l).Copy? {}
  }
}
