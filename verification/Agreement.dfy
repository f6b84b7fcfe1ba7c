/** Directory and caches agree in every reachable state.

    The invariant is stated line by line: a directory entry that is consistent in itself, and for every
    socket a copy that is exactly what the entry says. */
module Agreement {
  import opened Mesi
  import opened Views

  ghost predicate DirOK(de: DirEntry, sockets: nat) {
    && |de.sharers| == sockets && de.owner < sockets
    && match de.state
       case I => forall j :: 0 <= j < sockets ==> !de.sharers[j]
       case S => de.sharers[de.owner] && exists j :: 0 <= j < sockets && j != de.owner && de.sharers[j]
       case _ => de.sharers[de.owner] && forall j :: 0 <= j < sockets && de.sharers[j] ==> j == de.owner
  }

  ghost predicate CopyOK(de: DirEntry, k: nat, c: Copy)
    requires k < |de.sharers|
  {
    && de.sharers[k] == c.Copy?
    && (c.Copy? ==> c.state == de.state && (c.dirty <==> de.state == M))
  }

  /** Line `l` is consistent, except possibly for the copy of socket `k`. */
  ghost predicate LineInvBut(s: SetState, l: U64, k: nat) {
    && DirOK(Dir(s, l), |s.ways|)
    && forall j :: 0 <= j < |s.ways| && j != k ==> CopyOK(Dir(s, l), j, View(s.ways[j], l))
  }

  ghost predicate LineInv(s: SetState, l: U64) {
    && DirOK(Dir(s, l), |s.ways|)
    && forall j :: 0 <= j < |s.ways| ==> CopyOK(Dir(s, l), j, View(s.ways[j], l))
  }

  ghost predicate AllWaysOK(s: SetState) {
    forall j :: 0 <= j < |s.ways| ==> WaysOK(s.ways[j])
  }

  ghost predicate Inv(s: SetState) {
    Shape(s) && AllWaysOK(s) && forall l: U64 :: LineInv(s, l)
  }

  lemma InitInv(sockets: nat, ways: nat)
    requires sockets > 0 && ways > 0
    ensures Inv(InitSet(sockets, ways))
  {}

  /******* update_directory *******/

  /** A copy held by another socket after `l` was read: shared and clean, whatever it was before. */
  function Shared(c: Copy): Copy {
    if c.Copy? then c.(state := S, dirty := false) else Absent
  }

  lemma ReadViews(s: SetState, k: nat, l: U64, j: nat, x: U64)
    requires Shape(s) && AllWaysOK(s) && k < |s.ways| && j < |s.ways| && LineInvBut(s, l, k)
    ensures var r := UpdateOnRead(s, k, l).after;
      && WaysOK(r.ways[j]) && r.ways[k] == s.ways[k]
      && View(r.ways[j], x) == if x != l || j == k then View(s.ways[j], x) else Shared(View(s.ways[j], l))
  {
    var de := Dir(s, l);
    if j != k { assert CopyOK(de, j, View(s.ways[j], l)); }
    RecolourView(s.ways[de.owner], l, S, de.state == M, x);
  }

  lemma WriteViews(s: SetState, k: nat, l: U64, j: nat, x: U64)
    requires Shape(s) && AllWaysOK(s) && k < |s.ways| && j < |s.ways| && LineInvBut(s, l, k)
    ensures var r := UpdateOnWrite(s, k, l).after;
      && WaysOK(r.ways[j]) && r.ways[k] == s.ways[k]
      && View(r.ways[j], x) == if x != l || j == k then View(s.ways[j], x) else Absent
  {
    var de := Dir(s, l);
    if j != k { assert CopyOK(de, j, View(s.ways[j], l)); }
    DropView(s.ways[j], l, x);
  }

  /** What the directory update does to the copies: other sockets lose `l` on a write and share it on a read. */
  lemma UpdateViews(s: SetState, k: nat, l: U64, isW: bool, j: nat, x: U64)
    requires Shape(s) && AllWaysOK(s) && k < |s.ways| && j < |s.ways| && LineInvBut(s, l, k)
    ensures var r := UpdateDirectory(s, k, l, isW).after;
      && AllWaysOK(r) && r.ways[k] == s.ways[k]
      && View(r.ways[j], x) ==
         if x != l || j == k then View(s.ways[j], x)
         else if isW then Absent
         else Shared(View(s.ways[j], l))
  {
    hide UpdateOnRead, UpdateOnWrite;
    forall i | 0 <= i < |s.ways| ensures WaysOK(UpdateDirectory(s, k, l, isW).after.ways[i]) {
      if isW { WriteViews(s, k, l, i, x); } else { ReadViews(s, k, l, i, x); }
    }
    if isW { WriteViews(s, k, l, j, x); } else { ReadViews(s, k, l, j, x); }
  }

  lemma ReadEntry(s: SetState, k: nat, l: U64)
    requires Shape(s) && k < |s.ways| && DirOK(Dir(s, l), |s.ways|)
    ensures var de, de' := Dir(s, l), Dir(UpdateOnRead(s, k, l).after, l);
      && DirOK(de', |s.ways|) && de'.sharers[k] && de'.owner == k
      && de'.state == (if de.state == I then E else if de.sharers[k] then de.state else S)
      && forall j :: 0 <= j < |s.ways| && j != k ==> de'.sharers[j] == de.sharers[j]
  {
    var de, de' := Dir(s, l), Dir(UpdateOnRead(s, k, l).after, l);
    if de.state != I {
      if de.owner != k {
        assert de'.sharers[de.owner];
      } else if de.state == S {
        var j :| 0 <= j < |s.ways| && j != de.owner && de.sharers[j];
        assert de'.sharers[j];
      }
    }
  }

  lemma WriteEntry(s: SetState, k: nat, l: U64)
    requires Shape(s) && k < |s.ways| && DirOK(Dir(s, l), |s.ways|)
    ensures var de' := Dir(UpdateOnWrite(s, k, l).after, l);
      && DirOK(de', |s.ways|) && de'.owner == k && de'.state == M && de'.sharers[k]
  {}

  lemma UpdateKeepsOthers(s: SetState, k: nat, l: U64, isW: bool, x: U64)
    requires Shape(s) && k < |s.ways| && x != l
    ensures Dir(UpdateDirectory(s, k, l, isW).after, x) == Dir(s, x)
  {}

  /** The directory entry after the update. */
  lemma UpdateEntry(s: SetState, k: nat, l: U64, isW: bool, x: U64)
    requires Shape(s) && k < |s.ways| && DirOK(Dir(s, l), |s.ways|)
    ensures var de, de' := Dir(s, l), Dir(UpdateDirectory(s, k, l, isW).after, l);
      && DirOK(de', |s.ways|) && de'.sharers[k] && de'.owner == k
      && de'.state == (if isW then M else if de.state == I then E else if de.sharers[k] then de.state else S)
      && forall j :: 0 <= j < |s.ways| && j != k ==> de'.sharers[j] == (!isW && de.sharers[j])
    ensures x != l ==> Dir(UpdateDirectory(s, k, l, isW).after, x) == Dir(s, x)
  {
    hide UpdateOnRead, UpdateOnWrite;
    if isW { WriteEntry(s, k, l); } else { ReadEntry(s, k, l); }
    if x != l { UpdateKeepsOthers(s, k, l, isW, x); }
  }

  lemma UpdateLine(s: SetState, k: nat, l: U64, isW: bool)
    requires Shape(s) && AllWaysOK(s) && k < |s.ways| && LineInvBut(s, l, k)
    ensures LineInvBut(UpdateDirectory(s, k, l, isW).after, l, k)
  {
    hide UpdateDirectory;
    var r := UpdateDirectory(s, k, l, isW).after;
    UpdateEntry(s, k, l, isW, l);
    forall j | 0 <= j < |s.ways| && j != k ensures CopyOK(Dir(r, l), j, View(r.ways[j], l)) {
      assert CopyOK(Dir(s, l), j, View(s.ways[j], l));
      UpdateViews(s, k, l, isW, j, l);
    }
  }

  lemma UpdateOthers(s: SetState, k: nat, l: U64, isW: bool, x: U64)
    requires Shape(s) && AllWaysOK(s) && k < |s.ways| && LineInvBut(s, l, k)
    requires x != l && LineInv(s, x)
    ensures LineInv(UpdateDirectory(s, k, l, isW).after, x)
  {
    hide UpdateDirectory;
    var r := UpdateDirectory(s, k, l, isW).after;
    UpdateEntry(s, k, l, isW, x);
    forall j | 0 <= j < |s.ways| ensures CopyOK(Dir(r, x), j, View(r.ways[j], x)) {
      assert CopyOK(Dir(s, x), j, View(s.ways[j], x));
      UpdateViews(s, k, l, isW, j, x);
    }
  }

  /******* Hits *******/

  lemma HitInv(s: SetState, k: nat, l: U64, isW: bool, ts: U64)
    requires Inv(s) && k < |s.ways| && Hit(s, k, l)
    ensures Inv(AccessHit(s, k, l, isW, ts).after)
    ensures View(AccessHit(s, k, l, isW, ts).after.ways[k], l).Copy?
  {
    hide UpdateDirectory;
    var h := FindWay(s.ways[k], l);
    var t := SetWays(s, k, s.ways[k][h := Touched(s.ways[k][h], isW, ts)]);
    var r := UpdateDirectory(t, k, l, isW).after;
    assert LineInv(s, l) && CopyOK(Dir(s, l), k, View(s.ways[k], l));
    TouchView(s.ways[k], l, isW, ts, l);
    assert LineInvBut(t, l, k) && AllWaysOK(t);
    UpdateViews(t, k, l, isW, k, l);
    UpdateEntry(t, k, l, isW, l);
    UpdateLine(t, k, l, isW);
    assert CopyOK(Dir(r, l), k, View(r.ways[k], l));
    forall x: U64 ensures LineInv(r, x) {
      if x != l {
        assert LineInv(s, x);
        TouchView(s.ways[k], l, isW, ts, x);
        assert LineInv(t, x);
        UpdateOthers(t, k, l, isW, x);
      }
    }
  }

  /******* Misses *******/

  /** `s` is consistent, but the line in way `w` of socket `k` is already unknown to the directory. */
  ghost predicate RoomInv(s: SetState, k: nat, w: nat)
    requires Shape(s) && k < |s.ways| && w < |s.ways[k]|
  {
    && AllWaysOK(s)
    && forall x: U64 :: RoomLine(s, k, w, x)
  }

  ghost predicate RoomLine(s: SetState, k: nat, w: nat, x: U64)
    requires Shape(s) && k < |s.ways| && w < |s.ways[k]|
  {
    if Matches(s.ways[k][w], x) then LineInvBut(s, x, k) && !Dir(s, x).sharers[k] else LineInv(s, x)
  }

  /** A shared line that loses sharer `k` still has a sharer, and `CountTrue` tells whether it has a second one. */
  lemma SharersLeft(de: DirEntry, k: nat)
    requires DirOK(de, |de.sharers|) && de.state == S && k < |de.sharers|
    ensures var left := de.sharers[k := false]; var o := LastTrue(left, de.owner);
      && o < |left| && left[o] && o != k
      && (CountTrue(left) == 1 ==> forall j :: 0 <= j < |left| && left[j] ==> j == o)
      && (CountTrue(left) != 1 ==> exists j :: 0 <= j < |left| && j != o && left[j])
  {
    var left := de.sharers[k := false];
    var o := LastTrue(left, de.owner);
    var i :| 0 <= i < |left| && i != k && de.sharers[i];
    assert left[i];
    NoneTrue(left);
    LastTrueIsTrue(left, de.owner);
    if CountTrue(left) == 1 {
      forall j | 0 <= j < |left| && left[j] ensures j == o { OneTrue(left, j, de.owner); }
    } else {
      TwoTrue(left, o);
    }
  }

  lemma EvictKeeps(s: SetState, k: nat, w: nat, x: U64)
    requires Shape(s) && k < |s.ways| && w < |s.ways[k]| && x != s.ways[k][w].tag
    ensures Dir(Evict(s, k, w).after, x) == Dir(s, x)
  {}

  /** What eviction does to the copies: at most, the one sharer that is left becomes exclusive. */
  lemma EvictViews(s: SetState, k: nat, w: nat, j: nat, x: U64)
    requires Inv(s) && k < |s.ways| && w < |s.ways[k]| && s.ways[k][w].valid && j < |s.ways|
    ensures var r := Evict(s, k, w).after; var v := s.ways[k][w].tag;
      && WaysOK(r.ways[j]) && r.ways[k] == s.ways[k]
      && View(r.ways[j], x) ==
         if x == v && j != k && View(s.ways[j], x).Copy? then View(s.ways[j], x).(state := Dir(r, v).state)
         else View(s.ways[j], x)
  {
    var v := s.ways[k][w].tag;
    var de := Dir(s, v);
    FoundAt(s.ways[k], w, v);
    assert LineInv(s, v) && CopyOK(de, k, View(s.ways[k], v)) && CopyOK(de, j, View(s.ways[j], v));
    if !s.ways[k][w].dirty && de.state == S {
      SharersLeft(de, k);
      var left := de.sharers[k := false];
      assert j != k ==> left[j] == de.sharers[j];
      RecolourView(s.ways[LastTrue(left, de.owner)], v, E, false, x);
    }
  }

  /** The evicted line's directory entry: the evicting socket is no longer a sharer, and the line is not dirty. */
  lemma EvictEntry(s: SetState, k: nat, w: nat)
    requires Inv(s) && k < |s.ways| && w < |s.ways[k]| && s.ways[k][w].valid
    ensures var v := s.ways[k][w].tag; var de, de' := Dir(s, v), Dir(Evict(s, k, w).after, v);
      && DirOK(de', |s.ways|) && de'.state != M
      && de'.sharers == de.sharers[k := false]
      && (de.state == S ==> de'.state == S || de'.state == E)
      && (de.state != S ==> de'.state == I)
      && Evict(s, k, w).stats == (if de.state == M then multiset{MemWrite} else multiset{})
  {
    var v := s.ways[k][w].tag;
    var de := Dir(s, v);
    FoundAt(s.ways[k], w, v);
    assert LineInv(s, v) && CopyOK(de, k, View(s.ways[k], v));
    if !s.ways[k][w].dirty && de.state == S { SharersLeft(de, k); }
  }

  /** If other sharers are left, the last of them becomes the owner; otherwise the owner is still named. */
  lemma EvictOwner(s: SetState, k: nat, w: nat)
    requires Inv(s) && k < |s.ways| && w < |s.ways[k]| && s.ways[k][w].valid
    ensures var v := s.ways[k][w].tag; var de, de' := Dir(s, v), Dir(Evict(s, k, w).after, v);
      && |de'.sharers| == |s.ways|
      && (de.state != S ==> de'.owner == de.owner)
      && (de.state == S ==> forall j :: 0 <= j < |s.ways| && de'.sharers[j] ==> j <= de'.owner)
  {
    var v := s.ways[k][w].tag;
    var de := Dir(s, v);
    FoundAt(s.ways[k], w, v);
    assert LineInv(s, v) && CopyOK(de, k, View(s.ways[k], v));
    LastTrueIsLast(de.sharers[k := false], de.owner);
  }

  lemma EvictInv(s: SetState, k: nat, w: nat)
    requires Inv(s) && k < |s.ways| && w < |s.ways[k]| && s.ways[k][w].valid
    ensures RoomInv(Evict(s, k, w).after, k, w)
  {
    hide Evict;
    var r := Evict(s, k, w).after;
    var v := s.ways[k][w].tag;
    EvictEntry(s, k, w);
    EvictViews(s, k, w, k, v);
    assert AllWaysOK(r) by {
      forall j | 0 <= j < |s.ways| ensures WaysOK(r.ways[j]) { EvictViews(s, k, w, j, v); }
    }
    forall x: U64 ensures RoomLine(r, k, w, x) {
      assert LineInv(s, x);
      if x != v { EvictKeeps(s, k, w, x); }
      forall j | 0 <= j < |s.ways| && (x != v || j != k) ensures CopyOK(Dir(r, x), j, View(r.ways[j], x)) {
        assert CopyOK(Dir(s, x), j, View(s.ways[j], x));
        EvictViews(s, k, w, j, x);
      }
    }
  }

  lemma MakeRoomInv(s: SetState, k: nat)
    requires Inv(s) && k < |s.ways|
    ensures RoomInv(MakeRoom(s, k).after, k, Slot(s.ways[k]))
    ensures MakeRoom(s, k).after.ways[k] == s.ways[k]
  {
    var w := Slot(s.ways[k]);
    if LastInvalid(s.ways[k]) < |s.ways[k]| {
      forall x: U64 ensures RoomLine(s, k, w, x) { assert LineInv(s, x); }
    } else {
      EvictInv(s, k, w);
      EvictViews(s, k, w, k, 0);
    }
  }

  lemma FillLine(s: SetState, k: nat, w: nat, l: U64, isW: bool, ts: U64)
    requires Shape(s) && k < |s.ways| && w < |s.ways[k]| && RoomInv(s, k, w) && !Hit(s, k, l)
    ensures var t := SetWays(s, k, s.ways[k][w := Filled(l, isW, ts)]); var u := UpdateDirectory(t, k, l, isW).after;
      && AllWaysOK(t) && LineInvBut(t, l, k) && AllWaysOK(u)
      && u.ways[k] == t.ways[k] && WaysOK(u.ways[k]) && Matches(u.ways[k][w], l)
    ensures LineInv(Fill(s, k, w, l, isW, ts).after, l)
  {
    hide UpdateDirectory;
    var t := SetWays(s, k, s.ways[k][w := Filled(l, isW, ts)]);
    var u := UpdateDirectory(t, k, l, isW).after;
    assert RoomLine(s, k, w, l) && LineInv(s, l) && CopyOK(Dir(s, l), k, View(s.ways[k], l));
    FillView(s.ways[k], w, l, isW, ts, l);
    assert LineInvBut(t, l, k) && AllWaysOK(t);
    UpdateViews(t, k, l, isW, k, l);
    UpdateEntry(t, k, l, isW, l);
    UpdateLine(t, k, l, isW);
    ShareView(u.ways[k], w, l, l);
  }

  /** Filling a free way leaves the agreement on other lines alone. */
  lemma FillKeepsOther(s: SetState, k: nat, w: nat, l: U64, isW: bool, ts: U64, x: U64)
    requires Shape(s) && k < |s.ways| && w < |s.ways[k]| && RoomInv(s, k, w) && !Hit(s, k, l) && x != l
    ensures LineInv(SetWays(s, k, s.ways[k][w := Filled(l, isW, ts)]), x)
  {
    assert RoomLine(s, k, w, x);
    FillView(s.ways[k], w, l, isW, ts, x);
  }

  lemma FillOther(s: SetState, k: nat, w: nat, l: U64, isW: bool, ts: U64, x: U64)
    requires Shape(s) && k < |s.ways| && w < |s.ways[k]| && RoomInv(s, k, w) && !Hit(s, k, l) && x != l
    ensures LineInv(Fill(s, k, w, l, isW, ts).after, x)
  {
    var t := SetWays(s, k, s.ways[k][w := Filled(l, isW, ts)]);
    var u := UpdateDirectory(t, k, l, isW).after;
    FillLine(s, k, w, l, isW, ts);
    FillKeepsOther(s, k, w, l, isW, ts, x);
    hide UpdateDirectory, DirOK, CopyOK, RoomInv, View, LineInvBut;
    UpdateOthers(t, k, l, isW, x);
    ShareView(u.ways[k], w, l, x);
  }

  lemma FillInv(s: SetState, k: nat, w: nat, l: U64, isW: bool, ts: U64)
    requires Shape(s) && k < |s.ways| && w < |s.ways[k]| && RoomInv(s, k, w) && !Hit(s, k, l)
    ensures Inv(Fill(s, k, w, l, isW, ts).after)
  {
    var u := UpdateDirectory(SetWays(s, k, s.ways[k][w := Filled(l, isW, ts)]), k, l, isW).after;
    var r := Fill(s, k, w, l, isW, ts).after;
    FillLine(s, k, w, l, isW, ts);
    ShareView(u.ways[k], w, l, l);
    assert AllWaysOK(r);
    forall x: U64 ensures LineInv(r, x) {
      if x != l { FillOther(s, k, w, l, isW, ts, x); }
    }
  }

  /** Every access keeps directory and caches in agreement. */
  lemma AccessInv(s: SetState, k: nat, l: U64, isW: bool, ts: U64)
    requires Inv(s) && k < |s.ways|
    ensures Inv(Access(s, k, l, isW, ts).after)
  {
    if Hit(s, k, l) {
      HitInv(s, k, l, isW, ts);
    } else {
      MakeRoomInv(s, k);
      FillInv(MakeRoom(s, k).after, k, Slot(s.ways[k]), l, isW, ts);
    }
  }
}
