/** One access, described line by line: what happens to every copy, to every directory entry, and to the counters.

    This is the reference against which the way-by-way code is proved; everything that spans whole runs
    (data, recency, conservation) is derived from it. */
module Effects {
  import opened Mesi
  import opened Views
  import opened Agreement

  /** Socket `k` gives up line `x` to make room for line `l`. */
  predicate Evicts(s: SetState, k: nat, l: U64, x: U64)
    requires Shape(s) && k < |s.ways|
  {
    !Hit(s, k, l) && LastInvalid(s.ways[k]) == |s.ways[k]| && s.ways[k][LruWay(s.ways[k])].tag == x
  }

  /** The line that is given up is modified. */
  ghost predicate EvictsDirty(s: SetState, k: nat, l: U64)
    requires Shape(s) && k < |s.ways|
  {
    && !Hit(s, k, l) && LastInvalid(s.ways[k]) == |s.ways[k]|
    && Dir(s, s.ways[k][LruWay(s.ways[k])].tag).state == M
  }

  /** The copy of socket `j` after an access by socket `k`. */
  ghost function CopyAfter(s: SetState, k: nat, l: U64, isW: bool, ts: U64, j: nat, x: U64): Copy
    requires Shape(s) && k < |s.ways| && j < |s.ways|
  {
    var r := Access(s, k, l, isW, ts).after;
    var c := View(s.ways[j], x);
    if x == l then
      if j == k then Copy(Dir(r, l).state, Dir(r, l).state == M, ts)
      else if isW then Absent
      else Shared(c)
    else if !Evicts(s, k, l, x) then c
    else if j == k then Absent
    else if c.Copy? then c.(state := Dir(r, x).state)
    else Absent
  }

  lemma HitIsSharer(s: SetState, k: nat, l: U64)
    requires Inv(s) && k < |s.ways|
    ensures Hit(s, k, l) == Dir(s, l).sharers[k] == View(s.ways[k], l).Copy?
  {
    assert LineInv(s, l) && CopyOK(Dir(s, l), k, View(s.ways[k], l));
  }

  /** What making room does to the line that is about to be fetched: nothing. */
  lemma MakeRoomKeeps(s: SetState, k: nat, l: U64, j: nat)
    requires Inv(s) && k < |s.ways| && j < |s.ways| && !Hit(s, k, l)
    ensures var t := MakeRoom(s, k).after; Dir(t, l) == Dir(s, l) && View(t.ways[j], l) == View(s.ways[j], l)
  {
    if LastInvalid(s.ways[k]) == |s.ways[k]| {
      EvictViews(s, k, LruWay(s.ways[k]), j, l);
      EvictKeeps(s, k, LruWay(s.ways[k]), l);
    }
  }

  lemma MakeRoomOther(s: SetState, k: nat, l: U64, j: nat, x: U64)
    requires Inv(s) && k < |s.ways| && j < |s.ways| && !Hit(s, k, l) && x != l
    ensures var t := MakeRoom(s, k).after; var c := View(s.ways[j], x);
      && View(t.ways[j], x) == (if Evicts(s, k, l, x) && j != k && c.Copy? then c.(state := Dir(t, x).state) else c)
      && (!Evicts(s, k, l, x) ==> Dir(t, x) == Dir(s, x))
  {
    if LastInvalid(s.ways[k]) == |s.ways[k]| {
      EvictViews(s, k, LruWay(s.ways[k]), j, x);
      if !Evicts(s, k, l, x) { EvictKeeps(s, k, LruWay(s.ways[k]), x); }
    }
  }

  /** After filling way `w`, another line is where it was, unless it was in way `w`. */
  lemma FillViewsOther(s: SetState, k: nat, w: nat, l: U64, isW: bool, ts: U64, j: nat, x: U64)
    requires Shape(s) && k < |s.ways| && j < |s.ways| && w < |s.ways[k]| && RoomInv(s, k, w) && !Hit(s, k, l)
    requires x != l
    ensures var r := Fill(s, k, w, l, isW, ts).after;
      && View(r.ways[j], x) == (if j == k && Matches(s.ways[k][w], x) then Absent else View(s.ways[j], x))
      && Dir(r, x) == Dir(s, x)
  {
    hide UpdateDirectory;
    var t := SetWays(s, k, s.ways[k][w := Filled(l, isW, ts)]);
    var u := UpdateDirectory(t, k, l, isW).after;
    FillLine(s, k, w, l, isW, ts);
    FillView(s.ways[k], w, l, isW, ts, x);
    UpdateViews(t, k, l, isW, j, x);
    UpdateEntry(t, k, l, isW, x);
    ShareView(u.ways[k], w, l, x);
  }

  lemma FillViewsLine(s: SetState, k: nat, w: nat, l: U64, isW: bool, ts: U64, j: nat)
    requires Shape(s) && k < |s.ways| && j < |s.ways| && w < |s.ways[k]| && RoomInv(s, k, w) && !Hit(s, k, l)
    ensures var r := Fill(s, k, w, l, isW, ts).after;
      && View(r.ways[j], l) == (if j == k then Copy(Dir(r, l).state, Dir(r, l).state == M, ts)
                                else if isW then Absent else Shared(View(s.ways[j], l)))
      && Dir(r, l).owner == k
      && Dir(r, l).state == (if isW then M else if Dir(s, l).state == I then E else S)
  {
    hide UpdateDirectory;
    var t := SetWays(s, k, s.ways[k][w := Filled(l, isW, ts)]);
    var u := UpdateDirectory(t, k, l, isW).after;
    FillLine(s, k, w, l, isW, ts);
    assert RoomLine(s, k, w, l) && LineInv(s, l) && CopyOK(Dir(s, l), k, View(s.ways[k], l));
    FillView(s.ways[k], w, l, isW, ts, l);
    UpdateViews(t, k, l, isW, j, l);
    UpdateEntry(t, k, l, isW, l);
    ShareView(u.ways[k], w, l, l);
  }

  lemma HitEffect(s: SetState, k: nat, l: U64, isW: bool, ts: U64, j: nat, x: U64)
    requires Inv(s) && k < |s.ways| && j < |s.ways| && Hit(s, k, l)
    ensures var r := AccessHit(s, k, l, isW, ts).after;
      && View(r.ways[j], x) == (if x != l then View(s.ways[j], x)
                                else if j == k then Copy(Dir(r, l).state, Dir(r, l).state == M, ts)
                                else if isW then Absent else Shared(View(s.ways[j], l)))
      && Dir(r, l).state == (if isW then M else Dir(s, l).state)
      && (x != l ==> Dir(r, x) == Dir(s, x))
  {
    hide UpdateDirectory;
    var h := FindWay(s.ways[k], l);
    var t := SetWays(s, k, s.ways[k][h := Touched(s.ways[k][h], isW, ts)]);
    assert LineInv(s, l) && CopyOK(Dir(s, l), k, View(s.ways[k], l));
    TouchView(s.ways[k], l, isW, ts, x);
    assert LineInvBut(t, l, k) && AllWaysOK(t);
    UpdateViews(t, k, l, isW, j, x);
    UpdateEntry(t, k, l, isW, x);
    UpdateEntry(t, k, l, isW, l);
  }

  lemma MissEffect(s: SetState, k: nat, l: U64, isW: bool, ts: U64, j: nat)
    requires Inv(s) && k < |s.ways| && j < |s.ways| && !Hit(s, k, l)
    ensures var r := AccessMiss(s, k, l, isW, ts).after;
      && View(r.ways[j], l) == (if j == k then Copy(Dir(r, l).state, Dir(r, l).state == M, ts)
                                else if isW then Absent else Shared(View(s.ways[j], l)))
      && Dir(r, l).state == (if isW then M else if Dir(s, l).state == I then E else S)
  {
    MakeRoomInv(s, k);
    MakeRoomKeeps(s, k, l, j);
    FillViewsLine(MakeRoom(s, k).after, k, Slot(s.ways[k]), l, isW, ts, j);
  }

  lemma MissEffectOther(s: SetState, k: nat, l: U64, isW: bool, ts: U64, j: nat, x: U64)
    requires Inv(s) && k < |s.ways| && j < |s.ways| && !Hit(s, k, l) && x != l
    ensures var r := AccessMiss(s, k, l, isW, ts).after; var c := View(s.ways[j], x);
      && Dir(r, x) == Dir(MakeRoom(s, k).after, x)
      && View(r.ways[j], x) == (if !Evicts(s, k, l, x) then c
                                else if j == k || !c.Copy? then Absent
                                else c.(state := Dir(r, x).state))
  {
    var w := Slot(s.ways[k]);
    MakeRoomInv(s, k);
    MakeRoomOther(s, k, l, j, x);
    FillViewsOther(MakeRoom(s, k).after, k, w, l, isW, ts, j, x);
    if j == k && Matches(s.ways[k][w], x) { FoundAt(s.ways[k], w, x); }
  }

  lemma AccessAfter(s: SetState, k: nat, l: U64, isW: bool, ts: U64)
    requires Shape(s) && k < |s.ways|
    ensures Access(s, k, l, isW, ts).after ==
      if Hit(s, k, l) then AccessHit(s, k, l, isW, ts).after else AccessMiss(s, k, l, isW, ts).after
  {}

  /** Every copy of every line after an access. */
  lemma AccessViews(s: SetState, k: nat, l: U64, isW: bool, ts: U64, j: nat, x: U64)
    requires Inv(s) && k < |s.ways| && j < |s.ways|
    ensures View(Access(s, k, l, isW, ts).after.ways[j], x) == CopyAfter(s, k, l, isW, ts, j, x)
  {
    hide AccessHit, AccessMiss, Access;
    AccessAfter(s, k, l, isW, ts);
    if Hit(s, k, l) {
      HitEffect(s, k, l, isW, ts, j, x);
    } else if x == l {
      MissEffect(s, k, l, isW, ts, j);
    } else {
      MissEffectOther(s, k, l, isW, ts, j, x);
    }
  }

  /** Every directory entry after an access: the MESI transitions, and at most one evicted line. */
  lemma AccessEntry(s: SetState, k: nat, l: U64, isW: bool, ts: U64, x: U64)
    requires Inv(s) && k < |s.ways|
    ensures var r := Access(s, k, l, isW, ts).after;
      && Dir(r, l).state == (if isW then M else if Dir(s, l).state == I then E
                             else if Hit(s, k, l) then Dir(s, l).state else S)
      && (x != l && !Evicts(s, k, l, x) ==> Dir(r, x) == Dir(s, x))
      && (x != l && Evicts(s, k, l, x) ==> Dir(s, x).sharers[k] && Dir(r, x).state != M && (Dir(r, x).state == I <==> Dir(s, x).state != S))
  {
    if Hit(s, k, l) {
      HitIsSharer(s, k, l);
      assert LineInv(s, l);
      HitEffect(s, k, l, isW, ts, k, x);
    } else {
      MissEffect(s, k, l, isW, ts, k);
      if x != l {
        MissEffectOther(s, k, l, isW, ts, k, x);
        MakeRoomOther(s, k, l, k, x);
        if Evicts(s, k, l, x) {
          var w := LruWay(s.ways[k]);
          EvictEntry(s, k, w);
          FoundAt(s.ways[k], w, x);
          HitIsSharer(s, k, x);
        }
      }
    }
  }

  /** The counters of serving one line, by its directory state: a sharer needs no data; otherwise memory serves
      an uncached or shared line, and the owner serves an exclusive or modified one. Reading a line that another
      socket has modified writes it back; writing a shared line sends an invalidation. */
  function LineStats(st: DState, sharer: bool, isW: bool): Stats {
    match st
    case I => multiset{MemRead}
    case S =>
      if sharer then if isW then multiset{Inval} else multiset{}
      else if isW then multiset{Inval, MemRead} else multiset{MemRead}
    case E => if sharer then multiset{} else multiset{BlockTrans}
    case M => if sharer then multiset{} else if isW then multiset{BlockTrans} else multiset{BlockTrans, CohWrite}
  }

  /** The counters of one access in state `s`. */
  ghost function AccessCounts(s: SetState, k: nat, l: U64, isW: bool): Stats
    requires Shape(s) && k < |s.ways|
  {
    var hit := Hit(s, k, l);
    (if hit then multiset{Inst, LlcHit} else multiset{Inst, LlcMiss})
    + (if EvictsDirty(s, k, l) then multiset{MemWrite} else multiset{})
    + LineStats(Dir(s, l).state, hit, isW)
  }

  lemma UpdateStats(s: SetState, k: nat, l: U64, isW: bool)
    requires Shape(s) && k < |s.ways| && DirOK(Dir(s, l), |s.ways|)
    ensures UpdateDirectory(s, k, l, isW).stats == LineStats(Dir(s, l).state, Dir(s, l).sharers[k], isW)
  {}

  lemma MakeRoomStats(s: SetState, k: nat, l: U64)
    requires Inv(s) && k < |s.ways| && !Hit(s, k, l)
    ensures MakeRoom(s, k).stats == if EvictsDirty(s, k, l) then multiset{MemWrite} else multiset{}
  {
    if LastInvalid(s.ways[k]) == |s.ways[k]| {
      EvictEntry(s, k, LruWay(s.ways[k]));
    }
  }

  lemma HitStats(s: SetState, k: nat, l: U64, isW: bool, ts: U64)
    requires Inv(s) && k < |s.ways| && Hit(s, k, l)
    ensures AccessHit(s, k, l, isW, ts).stats == LineStats(Dir(s, l).state, true, isW)
  {
    HitIsSharer(s, k, l);
    assert LineInv(s, l);
    var h := FindWay(s.ways[k], l);
    UpdateStats(SetWays(s, k, s.ways[k][h := Touched(s.ways[k][h], isW, ts)]), k, l, isW);
  }

  lemma MissSplit(s: SetState, k: nat, l: U64, isW: bool, ts: U64)
    requires Shape(s) && k < |s.ways|
    ensures var t := MakeRoom(s, k).after;
      var u := SetWays(t, k, t.ways[k][Slot(s.ways[k]) := Filled(l, isW, ts)]);
      && AccessMiss(s, k, l, isW, ts).stats == MakeRoom(s, k).stats + (UpdateDirectory(u, k, l, isW).stats)
      && Dir(u, l) == Dir(t, l)
  {}

  lemma MissStats(s: SetState, k: nat, l: U64, isW: bool, ts: U64)
    requires Inv(s) && k < |s.ways| && !Hit(s, k, l)
    ensures AccessMiss(s, k, l, isW, ts).stats == MakeRoom(s, k).stats + (LineStats(Dir(s, l).state, false, isW))
  {
    hide LineStats, MakeRoom, AccessMiss, UpdateDirectory;
    HitIsSharer(s, k, l);
    assert LineInv(s, l);
    var t := MakeRoom(s, k).after;
    MakeRoomKeeps(s, k, l, k);
    MissSplit(s, k, l, isW, ts);
    UpdateStats(SetWays(t, k, t.ways[k][Slot(s.ways[k]) := Filled(l, isW, ts)]), k, l, isW);
  }

  /** The counters of one access: a hit moves no data; a miss is served once, by memory or by the owner. */
  lemma AccessStats(s: SetState, k: nat, l: U64, isW: bool, ts: U64)
    requires Inv(s) && k < |s.ways|
    ensures Access(s, k, l, isW, ts).stats == AccessCounts(s, k, l, isW)
  {
    hide AccessHit, AccessMiss, MakeRoom, LineStats;
    if Hit(s, k, l) {
      HitStats(s, k, l, isW, ts);
    } else {
      MissStats(s, k, l, isW, ts);
      MakeRoomStats(s, k, l);
    }
  }
}
