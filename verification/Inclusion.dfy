/** Least-recently-used inclusion under coherence.

    With timestamps that grow along the references of each socket to each set, every socket's ways are a recency
    list of bounded length, from which other sockets' writes remove lines. The list with fewer ways is always the
    beginning of the list with more, so adding ways never costs a hit. */
module Inclusion {
  import opened Mesi
  import opened Views
  import opened Agreement
  import opened Effects
  import opened SetIndex
  import opened Replay
  import opened Accounting
  import opened Counting
  import opened Recency

  /******* Ways as recency lists *******/

  /** `q` lists the lines that `ws` holds, most recent first. */
  ghost predicate Lists(ws: seq<Entry>, q: seq<U64>) {
    && NoDup(q)
    && (forall l: U64 :: l in q <==> View(ws, l).Copy?)
    && (forall i, j :: 0 <= i < j < |q| ==> Stamp(ws, q[j]) < Stamp(ws, q[i]))
  }

  function Stamp(ws: seq<Entry>, l: U64): nat {
    var c := View(ws, l);
    if c.Copy? then c.ts else 0
  }

  function Tags(ws: seq<Entry>): (q: seq<U64>)
    ensures |q| <= |ws|
  {
    if |ws| == 0 then []
    else
      var n := |ws| - 1;
      Tags(ws[..n]) + (if ws[n].valid then [ws[n].tag] else [])
  }

  lemma {:induction false} TagsAre(ws: seq<Entry>)
    requires WaysOK(ws)
    ensures NoDup(Tags(ws))
    ensures forall l: U64 :: l in Tags(ws) <==> exists w :: 0 <= w < |ws| && Matches(ws[w], l)
    ensures |Tags(ws)| == |ws| <==> LastInvalid(ws) == |ws|
  {
    if |ws| > 0 {
      var n := |ws| - 1;
      var init := ws[..n];
      TagsAre(init);
      forall l: U64 ensures l in Tags(ws) <==> exists w :: 0 <= w < |ws| && Matches(ws[w], l) {
        if l in Tags(init) { var w :| 0 <= w < |init| && Matches(init[w], l); assert Matches(ws[w], l); }
        if l in Tags(ws) && l !in Tags(init) { assert Matches(ws[n], l); }
        if exists w :: 0 <= w < |ws| && Matches(ws[w], l) {
          var w :| 0 <= w < |ws| && Matches(ws[w], l);
          if w < n { assert Matches(init[w], l); }
        }
      }
      if ws[n].valid {
        assert forall w :: 0 <= w < n ==> !Matches(init[w], ws[n].tag);
        assert ws[n].tag !in Tags(init);
      }
    }
  }

  /** A recency list is as long as there are valid ways. */
  lemma ListLength(ws: seq<Entry>, q: seq<U64>)
    requires WaysOK(ws) && Lists(ws, q)
    ensures |q| <= |ws|
    ensures |q| == |ws| <==> LastInvalid(ws) == |ws|
  {
    TagsAre(ws);
    forall l: U64 ensures l in q <==> l in Tags(ws) {
      var w := FindWay(ws, l);
      if w < |ws| { assert Matches(ws[w], l); }
    }
    assert Elements(q) == Elements(Tags(ws));
    NoDupSize(q);
    NoDupSize(Tags(ws));
  }

  /** When all ways are valid, the replaced way holds the last line of the recency list. */
  lemma VictimIsLast(ws: seq<Entry>, q: seq<U64>)
    requires WaysOK(ws) && Lists(ws, q) && |ws| > 0 && LastInvalid(ws) == |ws|
    ensures |q| == |ws| && ws[LruWay(ws)].tag == q[|q| - 1]
  {
    hide NoDup, WaysOK, Lists, Stamp;
    ListLength(ws, q);
    var w := LruWay(ws);
    ValidIsListed(ws, q, w);
    var last := WayOfLine(ws, q, q[|q| - 1]);
    OldestIsLast(ws, q, ws[w].tag);
  }

  lemma OldestIsLast(ws: seq<Entry>, q: seq<U64>, l: U64)
    requires Lists(ws, q) && l in q && Stamp(ws, l) <= Stamp(ws, q[|q| - 1])
    ensures l == q[|q| - 1]
  {
    hide Stamp, NoDup;
    var i :| 0 <= i < |q| && q[i] == l;
  }

  lemma ValidIsListed(ws: seq<Entry>, q: seq<U64>, w: nat)
    requires WaysOK(ws) && Lists(ws, q) && w < |ws| && ws[w].valid
    ensures ws[w].tag in q && Stamp(ws, ws[w].tag) == ws[w].ts
  {
    FoundAt(ws, w, ws[w].tag);
    assert View(ws, ws[w].tag).Copy?;
  }

  lemma WayOfLine(ws: seq<Entry>, q: seq<U64>, l: U64) returns (w: nat)
    requires Lists(ws, q) && l in q
    ensures w < |ws| && Matches(ws[w], l) && ws[w].ts == Stamp(ws, l)
  {
    assert View(ws, l).Copy?;
    w := FindWay(ws, l);
  }

  /******* One access *******/

  /** The list of socket `j` after socket `k` has accessed `l`. */
  function ListAfter(q: seq<U64>, j: nat, k: nat, l: U64, isW: bool, ways: nat): seq<U64>
    requires ways > 0
  {
    if j == k then Touch(q, l, ways) else if isW then Remove(q, l) else q
  }

  /** Dropping and keeping lines of a list without changing the others' stamps. */
  lemma KeepList(ws: seq<Entry>, ws': seq<Entry>, q: seq<U64>, q': seq<U64>, f: seq<nat>)
    requires Lists(ws, q) && NoDup(q') && |f| == |q'|
    requires forall i :: 0 <= i < |f| ==> f[i] < |q| && q'[i] == q[f[i]]
    requires forall i, j :: 0 <= i < j < |f| ==> f[i] < f[j]
    requires forall l: U64 :: l in q' <==> View(ws', l).Copy?
    requires forall l: U64 :: l in q' ==> Stamp(ws', l) == Stamp(ws, l)
    ensures Lists(ws', q')
  {}

  lemma OtherSocket(s: SetState, q: seq<U64>, k: nat, l: U64, isW: bool, ts: U64, j: nat)
    requires Inv(s) && k < |s.ways| && j < |s.ways| && j != k && Lists(s.ways[j], q)
    ensures Lists(Access(s, k, l, isW, ts).after.ways[j], ListAfter(q, j, k, l, isW, |s.ways[k]|))
  {
    hide Access, Evicts;
    var ws, ws' := s.ways[j], Access(s, k, l, isW, ts).after.ways[j];
    forall x: U64 ensures View(ws', x) == CopyAfter(s, k, l, isW, ts, j, x) { AccessViews(s, k, l, isW, ts, j, x); }
    if isW {
      RemoveIs(q, l);
      var f := RemoveOrder(q, l);
      KeepList(ws, ws', q, Remove(q, l), f);
    } else {
      KeepList(ws, ws', q, q, seq(|q|, i => i));
    }
  }

  /** The lines that stay are those that are not evicted. */
  lemma TakenAre(s: SetState, q: seq<U64>, k: nat, l: U64, x: U64)
    requires Inv(s) && k < |s.ways| && Lists(s.ways[k], q)
    ensures x in Take(Remove(q, l), |s.ways[k]| - 1) <==> x in q && x != l && !Evicts(s, k, l, x)
  {
    var ws, ways := s.ways[k], |s.ways[k]|;
    hide FindWay, LastInvalid, LruWay;
    ListLength(ws, q);
    assert l in q <==> View(ws, l).Copy?;
    HitIsSharer(s, k, l);
    if l in q {
      RemoveIs(q, l);
    } else {
      RemoveAbsent(q, l);
      if |q| == ways {
        VictimIsLast(ws, q);
        AllButLast(q, x);
      }
    }
  }

  /** A new most recent line in front of a list whose stamps are older. */
  lemma InFront(ws: seq<Entry>, l: U64, kept: seq<U64>, ts: U64)
    requires NoDup(kept) && l !in kept
    requires forall x: U64 :: x in [l] + kept <==> View(ws, x).Copy?
    requires forall i, j :: 0 <= i < j < |kept| ==> Stamp(ws, kept[j]) < Stamp(ws, kept[i])
    requires Stamp(ws, l) == ts && forall i :: 0 <= i < |kept| ==> Stamp(ws, kept[i]) < ts
    ensures Lists(ws, [l] + kept)
  {}

  lemma OwnSocket(s: SetState, q: seq<U64>, k: nat, l: U64, isW: bool, ts: U64)
    requires Inv(s) && k < |s.ways| && Lists(s.ways[k], q)
    requires forall x: U64 :: x in q && x != l ==> Stamp(s.ways[k], x) < ts
    ensures Lists(Access(s, k, l, isW, ts).after.ways[k], Touch(q, l, |s.ways[k]|))
  {
    hide Access, Evicts, FindWay;
    var ws, ws' := s.ways[k], Access(s, k, l, isW, ts).after.ways[k];
    var kept := Take(Remove(q, l), |ws| - 1);
    RemoveIs(q, l);
    var f := RemoveOrder(q, l);
    forall x: U64 ensures x in [l] + kept <==> View(ws', x).Copy?
                  ensures x in kept ==> x in q && x != l && Stamp(ws', x) == Stamp(ws, x)
                  ensures x == l ==> Stamp(ws', x) == ts
    {
      AccessViews(s, k, l, isW, ts, k, x);
      TakenAre(s, q, k, l, x);
      assert x in q <==> View(ws, x).Copy?;
    }
    forall i | 0 <= i < |kept| ensures kept[i] == q[f[i]] && Stamp(ws', kept[i]) == Stamp(ws, q[f[i]]) && kept[i] in q {
      assert kept[i] in kept;
    }
    InFront(ws', l, kept, ts);
  }

  /******* Replays *******/

  /** Two references of one socket to one set. */
  predicate SameQueue(a: Ref, b: Ref, sets: nat)
    requires sets > 0
  {
    a.socket == b.socket && Index(a.line, sets) == Index(b.line, sets)
  }

  /** Timestamps grow along the references of each socket to each set, except that references to the same line may
      share one. */
  ghost predicate Increasing(tr: seq<Ref>, sets: nat)
    requires sets > 0
  {
    forall a, b :: 0 <= a < b < |tr| && SameQueue(tr[a], tr[b], sets) && tr[a].line != tr[b].line ==> tr[a].ts < tr[b].ts
  }

  /** The recency list of socket `j` in set `i` after a trace. */
  function ListOf(tr: seq<Ref>, i: nat, j: nat, sets: nat, ways: nat): seq<U64>
    requires sets > 0 && ways > 0
  {
    if |tr| == 0 then []
    else
      var r := tr[|tr| - 1];
      var q := ListOf(tr[..|tr| - 1], i, j, sets, ways);
      if Index(r.line, sets) == i then ListAfter(q, j, r.socket, r.line, r.isW, ways) else q
  }

  /** Every stamp is that of an earlier reference of the same socket to the same line. */
  ghost predicate StampedBy(ws: seq<Entry>, tr: seq<Ref>, i: nat, j: nat, sets: nat)
    requires sets > 0
  {
    forall l: U64 :: View(ws, l).Copy? ==>
      exists a :: 0 <= a < |tr| && tr[a].socket == j && Index(tr[a].line, sets) == i && tr[a].line == l && tr[a].ts == Stamp(ws, l)
  }

  lemma StampedLater(s: SetState, tr: seq<Ref>, r: Ref, i: nat, j: nat, sets: nat)
    requires Inv(s) && r.socket < |s.ways| && j < |s.ways| && sets > 0 && Index(r.line, sets) == i
    requires StampedBy(s.ways[j], tr, i, j, sets)
    ensures StampedBy(Access(s, r.socket, r.line, r.isW, r.ts).after.ways[j], tr + [r], i, j, sets)
  {
    hide Access, Evicts;
    var ws, ws' := s.ways[j], Access(s, r.socket, r.line, r.isW, r.ts).after.ways[j];
    var tr' := tr + [r];
    forall l: U64 | View(ws', l).Copy?
      ensures exists a :: 0 <= a < |tr'| && tr'[a].socket == j && Index(tr'[a].line, sets) == i && tr'[a].line == l && tr'[a].ts == Stamp(ws', l)
    {
      AccessViews(s, r.socket, r.line, r.isW, r.ts, j, l);
      if j == r.socket && l == r.line {
        assert tr'[|tr|] == r;
      } else {
        assert View(ws, l).Copy?;
        var a :| 0 <= a < |tr| && tr[a].socket == j && Index(tr[a].line, sets) == i && tr[a].line == l && tr[a].ts == Stamp(ws, l);
        assert tr'[a] == tr[a];
      }
    }
  }

  lemma StampedStill(ws: seq<Entry>, tr: seq<Ref>, r: Ref, i: nat, j: nat, sets: nat)
    requires sets > 0 && StampedBy(ws, tr, i, j, sets)
    ensures StampedBy(ws, tr + [r], i, j, sets)
  {
    forall l: U64 | View(ws, l).Copy?
      ensures exists a :: 0 <= a < |tr + [r]| && (tr + [r])[a].socket == j && Index((tr + [r])[a].line, sets) == i
                          && (tr + [r])[a].line == l && (tr + [r])[a].ts == Stamp(ws, l)
    {
      var a :| 0 <= a < |tr| && tr[a].socket == j && Index(tr[a].line, sets) == i && tr[a].line == l && tr[a].ts == Stamp(ws, l);
      assert (tr + [r])[a] == tr[a];
    }
  }

  lemma InitLists(sockets: nat, ways: nat, j: nat)
    requires sockets > 0 && ways > 0 && j < sockets
    ensures Lists(InitSet(sockets, ways).ways[j], [])
  {}

  /** In every replay with growing timestamps, every socket's ways in every set are its recency list. */
  lemma {:induction false} WaysAreLists(sockets: nat, sets: nat, ways: nat, tr: seq<Ref>, i: nat, j: nat)
    requires sockets > 0 && sets > 0 && ways > 0 && InRange(tr, sockets) && i < sets && j < sockets
    requires Increasing(tr, sets)
    ensures var s := Run(InitMachine(sockets, sets, ways), tr).sets[i];
      && |s.ways| == sockets && |s.ways[j]| == ways
      && Lists(s.ways[j], ListOf(tr, i, j, sets, ways))
      && StampedBy(s.ways[j], tr, i, j, sets)
  {
    hide Access, Lists, StampedBy, ListAfter;
    var m := InitMachine(sockets, sets, ways);
    InitMachineInv(sockets, sets, ways);
    RunInv(m, tr);
    if |tr| == 0 {
      InitLists(sockets, ways, j);
      InitStamped(sockets, ways, tr, i, j, sets);
    } else {
      var n := |tr| - 1;
      var init, r := tr[..n], tr[n];
      assert init + [r] == tr;
      assert Increasing(init, sets);
      WaysAreLists(sockets, sets, ways, init, i, j);
      RunInv(m, init);
      var s := Run(m, init).sets[i];
      if Index(r.line, sets) == i {
        WaysAreLists(sockets, sets, ways, init, i, r.socket);
        StampedLater(s, init, r, i, j, sets);
        if j == r.socket {
          StampsOlder(s.ways[j], ListOf(init, i, j, sets, ways), tr, i, j, sets);
        }
        ListStep(s, ListOf(init, i, j, sets, ways), r, j);
      } else {
        StampedStill(s.ways[j], init, r, i, j, sets);
      }
    }
  }

  lemma InitStamped(sockets: nat, ways: nat, tr: seq<Ref>, i: nat, j: nat, sets: nat)
    requires sockets > 0 && ways > 0 && j < sockets && sets > 0
    ensures StampedBy(InitSet(sockets, ways).ways[j], tr, i, j, sets)
  {}

  lemma StampsOlder(ws: seq<Entry>, q: seq<U64>, tr: seq<Ref>, i: nat, j: nat, sets: nat)
    requires sets > 0 && |tr| > 0 && Increasing(tr, sets) && Lists(ws, q)
    requires StampedBy(ws, tr[..|tr| - 1], i, j, sets)
    requires tr[|tr| - 1].socket == j && Index(tr[|tr| - 1].line, sets) == i
    ensures forall x: U64 :: x in q && x != tr[|tr| - 1].line ==> Stamp(ws, x) < tr[|tr| - 1].ts
  {}

  lemma ListStep(s: SetState, q: seq<U64>, r: Ref, j: nat)
    requires Inv(s) && r.socket < |s.ways| && j < |s.ways| && Lists(s.ways[j], q)
    requires j == r.socket ==> forall x: U64 :: x in q && x != r.line ==> Stamp(s.ways[j], x) < r.ts
    ensures Lists(Access(s, r.socket, r.line, r.isW, r.ts).after.ways[j],
                  ListAfter(q, j, r.socket, r.line, r.isW, |s.ways[r.socket]|))
  {
    hide Access, Lists;
    if j == r.socket {
      OwnSocket(s, q, j, r.line, r.isW, r.ts);
    } else {
      OtherSocket(s, q, r.socket, r.line, r.isW, r.ts, j);
    }
  }

  /** The list with fewer ways is the beginning of the list with more. */
  lemma {:induction false} ShorterIsPrefix(tr: seq<Ref>, i: nat, j: nat, sets: nat, few: nat, many: nat)
    requires sets > 0 && 0 < few <= many
    ensures ListOf(tr, i, j, sets, few) <= ListOf(tr, i, j, sets, many)
  {
    if |tr| > 0 {
      var init, r := tr[..|tr| - 1], tr[|tr| - 1];
      ShorterIsPrefix(init, i, j, sets, few, many);
      var p, q := ListOf(init, i, j, sets, few), ListOf(init, i, j, sets, many);
      TouchPrefix(p, q, r.line, few, many);
      RemovePrefix(p, q, r.line);
    }
  }

  /** In every reachable state, the lines a socket holds with fewer ways are the most recent ones among those it
      holds with more: both are given by their recency lists, and one list is the beginning of the other. */
  lemma FewerWaysHoldAPrefix(sockets: nat, sets: nat, few: nat, many: nat, tr: seq<Ref>, i: nat, j: nat)
    requires sockets > 0 && sets > 0 && 0 < few <= many && InRange(tr, sockets) && i < sets && j < sockets
    requires Increasing(tr, sets)
    ensures var p, q := ListOf(tr, i, j, sets, few), ListOf(tr, i, j, sets, many);
      var s, t := Run(InitMachine(sockets, sets, few), tr).sets[i], Run(InitMachine(sockets, sets, many), tr).sets[i];
      && |s.ways| == |t.ways| == sockets
      && p <= q && Lists(s.ways[j], p) && Lists(t.ways[j], q)
      && forall l: U64 :: Hit(s, j, l) ==> Hit(t, j, l)
  {
    hide Access, ListOf, Run;
    WaysAreLists(sockets, sets, few, tr, i, j);
    WaysAreLists(sockets, sets, many, tr, i, j);
    ShorterIsPrefix(tr, i, j, sets, few, many);
    var s, t := Run(InitMachine(sockets, sets, few), tr).sets[i], Run(InitMachine(sockets, sets, many), tr).sets[i];
    forall l: U64 | Hit(s, j, l) ensures Hit(t, j, l) {
      assert View(s.ways[j], l).Copy?;
      assert l in ListOf(tr, i, j, sets, few);
      assert l in ListOf(tr, i, j, sets, many);
      assert View(t.ways[j], l).Copy?;
    }
  }

  /** Adding ways never costs a hit. */
  lemma {:induction false} MoreWaysNeverLoseHits(sockets: nat, sets: nat, few: nat, many: nat, tr: seq<Ref>)
    requires sockets > 0 && sets > 0 && 0 < few <= many && InRange(tr, sockets)
    requires Increasing(tr, sets)
    ensures Run(InitMachine(sockets, sets, few), tr).stats[LlcHit] <= Run(InitMachine(sockets, sets, many), tr).stats[LlcHit]
  {
    if |tr| > 0 {
      hide Access;
      var n := |tr| - 1;
      var init, r := tr[..n], tr[n];
      assert Increasing(init, sets);
      MoreWaysNeverLoseHits(sockets, sets, few, many, init);
      var m, m' := InitMachine(sockets, sets, few), InitMachine(sockets, sets, many);
      InitMachineInv(sockets, sets, few);
      InitMachineInv(sockets, sets, many);
      RunInv(m, init);
      RunInv(m', init);
      AccessTraffic(Home(Run(m, init), r.line), r.socket, r.line, r.isW, r.ts);
      AccessTraffic(Home(Run(m', init), r.line), r.socket, r.line, r.isW, r.ts);
      FewerWaysHoldAPrefix(sockets, sets, few, many, init, Index(r.line, sets), r.socket);
    }
  }
}
