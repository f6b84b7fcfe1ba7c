/** What the ways of one socket say about one line, and how every rewriting of ways changes it. */
module Views {
  import opened Mesi

  datatype Copy = Absent | Copy(state: DState, dirty: bool, ts: U64)

  function View(ws: seq<Entry>, l: U64): Copy {
    var i := FindWay(ws, l);
    if i < |ws| then Copy(ws[i].cstate, ws[i].dirty, ws[i].ts) else Absent
  }

  /** No line is held twice, and only valid ways are dirty. */
  ghost predicate WaysOK(ws: seq<Entry>) {
    && (forall i, j :: 0 <= i < j < |ws| && ws[i].valid && ws[j].valid ==> ws[i].tag != ws[j].tag)
    && (forall i :: 0 <= i < |ws| && !ws[i].valid ==> !ws[i].dirty)
  }

  lemma FoundAt(ws: seq<Entry>, i: nat, l: U64)
    requires WaysOK(ws) && i < |ws| && Matches(ws[i], l)
    ensures FindWay(ws, l) == i
  {}

  lemma SetWay(ws: seq<Entry>, i: nat, e: Entry, l: U64)
    requires WaysOK(ws) && i < |ws|
    requires e.valid ==> FindWay(ws, e.tag) == i || FindWay(ws, e.tag) == |ws|
    requires !e.valid ==> !e.dirty
    ensures WaysOK(ws[i := e])
    ensures View(ws[i := e], l) ==
      if Matches(e, l) then Copy(e.cstate, e.dirty, e.ts)
      else if Matches(ws[i], l) then Absent
      else View(ws, l)
  {
    var r := ws[i := e];
    assert WaysOK(r);
    if Matches(e, l) {
      FoundAt(r, i, l);
    } else if Matches(ws[i], l) {
      if FindWay(r, l) < |r| {
        FoundAt(ws, FindWay(r, l), l);
      }
    } else if FindWay(ws, l) < |ws| {
      FoundAt(r, FindWay(ws, l), l);
    }
  }

  lemma RecolourView(ws: seq<Entry>, l: U64, st: DState, clean: bool, x: U64)
    requires WaysOK(ws)
    ensures WaysOK(Recolour(ws, l, st, clean))
    ensures View(Recolour(ws, l, st, clean), x) ==
      if x == l && View(ws, l).Copy? then View(ws, l).(state := st, dirty := View(ws, l).dirty && !clean) else View(ws, x)
  {
    var i := FindWay(ws, l);
    if i < |ws| {
      SetWay(ws, i, ws[i].(cstate := st, dirty := ws[i].dirty && !clean), x);
    }
  }

  lemma DropView(ws: seq<Entry>, l: U64, x: U64)
    requires WaysOK(ws)
    ensures WaysOK(Drop(ws, l))
    ensures View(Drop(ws, l), x) == if x == l then Absent else View(ws, x)
  {
    var i := FindWay(ws, l);
    if i < |ws| {
      SetWay(ws, i, ws[i].(cstate := I, valid := false, dirty := false, tag := U64_MAX), x);
    }
  }

  lemma TouchView(ws: seq<Entry>, l: U64, isW: bool, ts: U64, x: U64)
    requires WaysOK(ws) && FindWay(ws, l) < |ws|
    ensures var h := FindWay(ws, l); var r := ws[h := Touched(ws[h], isW, ts)];
      && WaysOK(r)
      && View(r, x) == if x != l then View(ws, x)
                       else if isW then Copy(M, true, ts) else View(ws, l).(ts := ts)
  {
    var h := FindWay(ws, l);
    SetWay(ws, h, Touched(ws[h], isW, ts), x);
  }

  lemma FillView(ws: seq<Entry>, w: nat, l: U64, isW: bool, ts: U64, x: U64)
    requires WaysOK(ws) && w < |ws| && FindWay(ws, l) == |ws|
    ensures var r := ws[w := Filled(l, isW, ts)];
      && WaysOK(r) && FindWay(r, l) == w
      && View(r, x) == if x == l then Copy(if isW then M else E, isW, ts)
                       else if Matches(ws[w], x) then Absent
                       else View(ws, x)
  {
    var r := ws[w := Filled(l, isW, ts)];
    SetWay(ws, w, Filled(l, isW, ts), x);
    FoundAt(r, w, l);
  }

  lemma ShareView(ws: seq<Entry>, w: nat, l: U64, x: U64)
    requires WaysOK(ws) && w < |ws| && Matches(ws[w], l)
    ensures var r := ws[w := ws[w].(cstate := S)];
      && WaysOK(r)
      && View(r, x) == if x == l then View(ws, l).(state := S) else View(ws, x)
  {
    FoundAt(ws, w, l);
    SetWay(ws, w, ws[w].(cstate := S), x);
  }

  /******* Sharer vectors *******/

  lemma LastTrueIsTrue(bs: seq<bool>, default: nat)
    requires CountTrue(bs) > 0
    ensures LastTrue(bs, default) < |bs| && bs[LastTrue(bs, default)]
  {}

  lemma LastTrueIsLast(bs: seq<bool>, default: nat)
    ensures forall j :: 0 <= j < |bs| && bs[j] ==> j <= LastTrue(bs, default)
  {}

  lemma NoneTrue(bs: seq<bool>)
    ensures CountTrue(bs) == 0 <==> forall j :: 0 <= j < |bs| ==> !bs[j]
  {}

  lemma OneTrue(bs: seq<bool>, j: nat, default: nat)
    requires CountTrue(bs) == 1 && j < |bs| && bs[j]
    ensures j == LastTrue(bs, default)
  {
    if bs[|bs| - 1] { NoneTrue(bs[..|bs| - 1]); }
  }

  lemma TwoTrue(bs: seq<bool>, i: nat)
    requires CountTrue(bs) > 1
    ensures exists j :: 0 <= j < |bs| && j != i && bs[j]
  {
    var n := |bs| - 1;
    var init := bs[..n];
    if bs[n] && n != i {
    } else if bs[n] {
      NoneTrue(init);
      var j :| 0 <= j < |init| && init[j];
      assert bs[j];
    } else {
      TwoTrue(init, i);
      var j :| 0 <= j < |init| && j != i && init[j];
      assert bs[j];
    }
  }
}
