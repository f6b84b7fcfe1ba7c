/** The replay as it runs: way arrays, directory maps and counters updated in place.

    Every method is proved to change the machine exactly as the protocol of `Mesi` says, and every assertion that the
    program makes about directory and caches on its way is proved to hold. */
module CoherenceReplay {
  import opened Mesi
  import opened Views
  import opened Agreement
  import opened SetIndex
  import opened Replay

  class Replayer {
    const sockets: nat
    const sets: nat
    const ways: nat
    /** `caches[k, i, w]` is way `w` of set `i` of socket `k`. */
    const caches: array3<Entry>
    /** One directory map for each set. */
    const ccd: array<map<U64, DirEntry>>

    var mReads: nat
    var mWrites: nat
    var mWritesFromCoh: nat
    var cInvals: nat
    var cBlockTrans: nat
    var totalInsts: nat
    var llcHits: nat
    var llcMisses: nat

    ghost predicate Allocated() {
      && sockets > 0 && sets > 0 && ways > 0
      && caches.Length0 == sockets && caches.Length1 == sets && caches.Length2 == ways
      && ccd.Length == sets
    }

    /** The counters as one value. */
    ghost function Counts(): (c: Stats)
      reads this
      ensures c[MemRead] == mReads && c[MemWrite] == mWrites && c[CohWrite] == mWritesFromCoh && c[Inval] == cInvals
      ensures c[BlockTrans] == cBlockTrans && c[Inst] == totalInsts && c[LlcHit] == llcHits && c[LlcMiss] == llcMisses
    {
      multiset{}[MemRead := mReads][MemWrite := mWrites][CohWrite := mWritesFromCoh][Inval := cInvals]
      [BlockTrans := cBlockTrans][Inst := totalInsts][LlcHit := llcHits][LlcMiss := llcMisses]
    }

    ghost function WaysOf(k: nat, i: nat): (ws: seq<Entry>)
      requires Allocated() && k < sockets && i < sets
      reads caches
      ensures |ws| == ways && forall w :: 0 <= w < ways ==> ws[w] == caches[k, i, w]
    {
      seq(ways, w requires 0 <= w < ways reads caches => caches[k, i, w])
    }

    ghost function AllWays(i: nat): (ws: seq<seq<Entry>>)
      requires Allocated() && i < sets
      reads caches
      ensures |ws| == sockets && forall k :: 0 <= k < sockets ==> ws[k] == WaysOf(k, i)
    {
      seq(sockets, k requires 0 <= k < sockets reads caches => WaysOf(k, i))
    }

    ghost function SetAt(i: nat): SetState
      requires Allocated() && i < sets
      reads caches, ccd
    {
      SetState(AllWays(i), ccd[i])
    }

    ghost function Contents(): (m: Machine)
      requires Allocated()
      reads this, caches, ccd
      ensures |m.sets| == sets && m.stats == Counts() && forall i :: 0 <= i < sets ==> m.sets[i] == SetAt(i)
    {
      Machine(seq(sets, i requires 0 <= i < sets reads caches, ccd => SetAt(i)), Counts())
    }

    ghost predicate Valid()
      reads this, caches, ccd
    {
      Allocated() && MachineInv(Contents())
    }

    /** Count one event. */
    method Count(e: Event)
      modifies this
      ensures Counts() == old(Counts()) + multiset{e}
    {
      hide Counts;
      match e {
        case MemRead => mReads := mReads + 1;
        case MemWrite => mWrites := mWrites + 1;
        case CohWrite => mWritesFromCoh := mWritesFromCoh + 1;
        case Inval => cInvals := cInvals + 1;
        case BlockTrans => cBlockTrans := cBlockTrans + 1;
        case Inst => totalInsts := totalInsts + 1;
        case LlcHit => llcHits := llcHits + 1;
        case LlcMiss => llcMisses := llcMisses + 1;
      }
      forall x: Event ensures Counts()[x] == (old(Counts()) + multiset{e})[x] {
        match x
        case MemRead => case MemWrite => case CohWrite => case Inval =>
        case BlockTrans => case Inst => case LlcHit => case LlcMiss =>
      }
    }

    /******* Writing one way *******/

    method Put(k: nat, i: nat, w: nat, e: Entry)
      requires Allocated() && k < sockets && i < sets && w < ways
      modifies caches
      ensures AllWays(i) == old(AllWays(i))[k := old(WaysOf(k, i))[w := e]]
      ensures forall i' :: 0 <= i' < sets && i' != i ==> AllWays(i') == old(AllWays(i'))
    {
      caches[k, i, w] := e;
      assert WaysOf(k, i) == old(WaysOf(k, i))[w := e];
      forall k', i' | 0 <= k' < sockets && 0 <= i' < sets && (k' != k || i' != i)
        ensures WaysOf(k', i') == old(WaysOf(k', i'))
      {
      }
    }

    /** Find the way of socket `k` that holds `l`, and change its state. It is in state `from` until then. */
    method RecolourWay(k: nat, i: nat, l: U64, from: DState, st: DState, clean: bool)
      requires Allocated() && k < sockets && i < sets
      requires var c := View(WaysOf(k, i), l); c.Copy? ==> c.state == from && (c.dirty <==> from == M)
      modifies caches
      ensures AllWays(i) == old(AllWays(i))[k := Recolour(old(WaysOf(k, i)), l, st, clean)]
      ensures forall i' :: 0 <= i' < sets && i' != i ==> AllWays(i') == old(AllWays(i'))
    {
      var jj := 0;
      while jj < ways
        invariant jj <= ways
        invariant forall v :: 0 <= v < jj ==> !Matches(caches[k, i, v], l)
        invariant forall i' :: 0 <= i' < sets ==> AllWays(i') == old(AllWays(i'))
        invariant WaysOf(k, i) == old(WaysOf(k, i))
      {
        if caches[k, i, jj].valid && caches[k, i, jj].tag == l {
          assert FindWay(WaysOf(k, i), l) == jj;
          assert caches[k, i, jj].cstate == from;
          assert caches[k, i, jj].dirty == (from == M);
          Put(k, i, jj, caches[k, i, jj].(cstate := st, dirty := caches[k, i, jj].dirty && !clean));
          return;
        }
        jj := jj + 1;
      }
      assert AllWays(i)[k := WaysOf(k, i)] == AllWays(i);
    }

    /** Find the way of socket `k` that holds `l`, and invalidate it. It is in state `from` until then. */
    method DropWay(k: nat, i: nat, l: U64, from: DState)
      requires Allocated() && k < sockets && i < sets
      requires var c := View(WaysOf(k, i), l); c.Copy? ==> c.state == from && (c.dirty <==> from == M)
      modifies caches
      ensures AllWays(i) == old(AllWays(i))[k := Drop(old(WaysOf(k, i)), l)]
      ensures forall i' :: 0 <= i' < sets && i' != i ==> AllWays(i') == old(AllWays(i'))
    {
      var ii := 0;
      while ii < ways
        invariant ii <= ways
        invariant forall v :: 0 <= v < ii ==> !Matches(caches[k, i, v], l)
        invariant forall i' :: 0 <= i' < sets ==> AllWays(i') == old(AllWays(i'))
        invariant WaysOf(k, i) == old(WaysOf(k, i))
      {
        if caches[k, i, ii].valid && caches[k, i, ii].tag == l {
          assert FindWay(WaysOf(k, i), l) == ii;
          assert caches[k, i, ii].cstate == from;
          assert caches[k, i, ii].dirty == (from == M);
          Put(k, i, ii, caches[k, i, ii].(cstate := I, valid := false, dirty := false, tag := U64_MAX));
          return;
        }
        ii := ii + 1;
      }
      assert AllWays(i)[k := WaysOf(k, i)] == AllWays(i);
    }

    /******* update_directory *******/

    /** The directory entry of `l`, which the first lookup creates. */
    method Lookup(i: nat, l: U64) returns (de: DirEntry)
      requires Allocated() && i < sets
      ensures de == Dir(SetAt(i), l)
    {
      if l in ccd[i] { de := ccd[i][l]; } else { de := Fresh(sockets); }
    }

    /** Writing a directory entry. */
    method Record(i: nat, l: U64, de: DirEntry)
      requires Allocated() && i < sets
      modifies ccd
      ensures SetAt(i) == old(SetAt(i)).(dir := old(SetAt(i)).dir[l := de])
      ensures forall i' :: 0 <= i' < sets && i' != i ==> ccd[i'] == old(ccd[i'])
    {
      ccd[i] := ccd[i][l := de];
    }

    /** The cases of a read. What is left to do is what every case ends with. */
    method ReadCases(k: nat, l: U64, i: nat) returns (de: DirEntry, ghost ev: Stats)
      requires Allocated() && k < sockets && i < sets
      requires Shape(SetAt(i)) && AllWaysOK(SetAt(i)) && LineInvBut(SetAt(i), l, k)
      modifies this, caches
      ensures Shape(SetAt(i)) && |SetAt(i).ways| == |de.sharers|
      ensures UpdateOnRead(old(SetAt(i)), k, l) == Finish(SetAt(i), k, l, de, ev)
      ensures Counts() == old(Counts()) + ev
      ensures forall i' :: 0 <= i' < sets && i' != i ==> AllWays(i') == old(AllWays(i'))
    {
      hide Counts, Recolour, Finish, WaysOK, View, WaysOf;
      de := Lookup(i, l);
      ghost var s := SetAt(i);
      ev := multiset{};
      match de.state
      case I =>
        Count(MemRead);
        de := de.(state := E);
        ev := multiset{MemRead};
      case S =>
        if !de.sharers[k] { Count(MemRead); ev := multiset{MemRead}; }
      case E =>
        if de.owner != k {
          assert !de.sharers[k];
          assert CopyOK(de, de.owner, View(s.ways[de.owner], l));
          ghost var owner := de.owner;
          de := de.(state := S);
          RecolourWay(de.owner, i, l, E, S, false);
          Count(BlockTrans);
          ev := multiset{BlockTrans};
          assert SetAt(i) == SetWays(s, owner, Recolour(s.ways[owner], l, S, false));
        }
      case M =>
        if de.owner != k {
          assert !de.sharers[k];
          assert CopyOK(de, de.owner, View(s.ways[de.owner], l));
          ghost var owner := de.owner;
          de := de.(state := S);
          RecolourWay(de.owner, i, l, M, S, true);
          Count(CohWrite);
          Count(BlockTrans);
          ev := multiset{CohWrite, BlockTrans};
          assert SetAt(i) == SetWays(s, owner, Recolour(s.ways[owner], l, S, true));
        }
    }

    /** A write to a shared line invalidates the other sharers one by one. */
    method InvalidateSharers(k: nat, l: U64, i: nat, sharers: seq<bool>) returns (left: seq<bool>)
      requires Allocated() && k < sockets && i < sets && |sharers| == sockets
      requires forall j :: 0 <= j < sockets && j != k && sharers[j] ==>
        var c := View(WaysOf(j, i), l); c.Copy? ==> c.state == S && !c.dirty
      modifies caches
      ensures AllWays(i) == DropSharers(old(AllWays(i)), sharers, k, l)
      ensures left == OnlySharer(sharers, k)
      ensures forall i' :: 0 <= i' < sets && i' != i ==> AllWays(i') == old(AllWays(i'))
    {
      hide Drop, View, WaysOf, AllWays;
      left := sharers;
      var jj := 0;
      while jj < sockets
        invariant jj <= sockets && |left| == sockets
        invariant forall j :: 0 <= j < jj ==> left[j] == (j == k && sharers[j])
        invariant forall j :: jj <= j < sockets ==> left[j] == sharers[j]
        invariant forall j :: 0 <= j < jj ==> WaysOf(j, i) == if j != k && sharers[j] then Drop(old(WaysOf(j, i)), l) else old(WaysOf(j, i))
        invariant forall j :: jj <= j < sockets ==> WaysOf(j, i) == old(WaysOf(j, i))
        invariant forall i' :: 0 <= i' < sets && i' != i ==> AllWays(i') == old(AllWays(i'))
      {
        if jj != k {
          if left[jj] {
            left := left[jj := false];
            ghost var before := AllWays(i);
            DropWay(jj, i, l, S);
            assert forall j :: 0 <= j < sockets && j != jj ==> AllWays(i)[j] == before[j];
            assert AllWays(i)[jj] == Drop(before[jj], l);
          }
        }
        jj := jj + 1;
      }
    }

    /** A write to a shared line. */
    method WriteShared(k: nat, l: U64, i: nat, de0: DirEntry) returns (de: DirEntry)
      requires Allocated() && k < sockets && i < sets
      requires Shape(SetAt(i)) && AllWaysOK(SetAt(i)) && LineInvBut(SetAt(i), l, k)
      requires de0 == Dir(SetAt(i), l) && de0.state == S
      modifies this, caches
      ensures de == de0.(sharers := OnlySharer(de0.sharers, k))
      ensures SetAt(i) == old(SetAt(i)).(ways := DropSharers(old(SetAt(i)).ways, de0.sharers, k, l))
      ensures Counts() == old(Counts()) + if de0.sharers[k] then multiset{Inval} else multiset{Inval, MemRead}
      ensures forall i' :: 0 <= i' < sets && i' != i ==> AllWays(i') == old(AllWays(i'))
    {
      hide Counts, Drop, WaysOK, View, WaysOf;
      ghost var s := SetAt(i);
      Count(Inval);
      if !de0.sharers[k] { Count(MemRead); }
      forall j | 0 <= j < sockets && j != k ensures CopyOK(de0, j, View(s.ways[j], l)) {}
      var left := InvalidateSharers(k, l, i, de0.sharers);
      de := de0.(sharers := left);
    }

    /** The cases of a write. */
    method WriteCases(k: nat, l: U64, i: nat) returns (de: DirEntry, ghost ev: Stats)
      requires Allocated() && k < sockets && i < sets
      requires Shape(SetAt(i)) && AllWaysOK(SetAt(i)) && LineInvBut(SetAt(i), l, k)
      modifies this, caches
      ensures Shape(SetAt(i)) && |SetAt(i).ways| == |de.sharers|
      ensures UpdateOnWrite(old(SetAt(i)), k, l) == Finish(SetAt(i), k, l, de, ev)
      ensures Counts() == old(Counts()) + ev
      ensures forall i' :: 0 <= i' < sets && i' != i ==> AllWays(i') == old(AllWays(i'))
    {
      hide Counts, Drop, Finish, WaysOK, View, WaysOf;
      de := Lookup(i, l);
      ghost var s := SetAt(i);
      ev := multiset{};
      match de.state {
        case I =>
          Count(MemRead);
          ev := multiset{MemRead};
        case S =>
          ev := if de.sharers[k] then multiset{Inval} else multiset{Inval, MemRead};
          de := WriteShared(k, l, i, de);
        case E =>
          if de.owner != k {
            de := TakeOver(k, l, i, de);
            ev := multiset{BlockTrans};
          }
        case M =>
          if de.owner != k {
            de := TakeOver(k, l, i, de);
            ev := multiset{BlockTrans};
          }
      }
      de := de.(state := M);
    }

    /** A write takes an exclusive or modified line away from its owner. */
    method TakeOver(k: nat, l: U64, i: nat, de0: DirEntry) returns (de: DirEntry)
      requires Allocated() && k < sockets && i < sets
      requires Shape(SetAt(i)) && AllWaysOK(SetAt(i)) && LineInvBut(SetAt(i), l, k)
      requires de0 == Dir(SetAt(i), l) && (de0.state == E || de0.state == M) && de0.owner != k
      modifies this, caches
      ensures de == de0.(sharers := de0.sharers[de0.owner := false])
      ensures SetAt(i) == SetWays(old(SetAt(i)), de0.owner, Drop(old(SetAt(i)).ways[de0.owner], l))
      ensures Counts() == old(Counts()) + multiset{BlockTrans}
      ensures forall i' :: 0 <= i' < sets && i' != i ==> AllWays(i') == old(AllWays(i'))
    {
      hide Counts, Drop, WaysOK, View, WaysOf;
      assert de0.sharers[de0.owner];
      assert !de0.sharers[k];
      assert CopyOK(de0, de0.owner, View(SetAt(i).ways[de0.owner], l));
      de := de0.(sharers := de0.sharers[de0.owner := false]);
      DropWay(de.owner, i, l, de.state);
      Count(BlockTrans);
    }

    method UpdateEntry(k: nat, l: U64, i: nat, isW: bool)
      requires Allocated() && k < sockets && i < sets
      requires Shape(SetAt(i)) && AllWaysOK(SetAt(i)) && LineInvBut(SetAt(i), l, k)
      modifies this, caches, ccd
      ensures var o := UpdateDirectory(old(SetAt(i)), k, l, isW);
        SetAt(i) == o.after && Counts() == old(Counts()) + o.stats
      ensures forall i' :: 0 <= i' < sets && i' != i ==> SetAt(i') == old(SetAt(i'))
    {
      hide Counts, UpdateOnRead, UpdateOnWrite;
      var de: DirEntry;
      ghost var ev: Stats;
      if !isW {
        de, ev := ReadCases(k, l, i);
      } else {
        de, ev := WriteCases(k, l, i);
      }
      de := de.(sharers := de.sharers[k := true]);
      de := de.(owner := k);
      Record(i, l, de);
    }

    /******* access_cache *******/

    /** One pass over the ways of a set: stop at a hit; otherwise find the last invalid and the oldest way. */
    method Scan(k: nat, i: nat, l: U64) returns (isHit: bool, hitI: nat, invalidFound: bool, insertI: nat, lruI: nat)
      requires Allocated() && k < sockets && i < sets
      ensures isHit == Hit(SetAt(i), k, l)
      ensures isHit ==> hitI == FindWay(WaysOf(k, i), l)
      ensures !isHit ==> invalidFound == (LastInvalid(WaysOf(k, i)) < ways)
      ensures !isHit && invalidFound ==> insertI == LastInvalid(WaysOf(k, i))
      ensures !isHit && !invalidFound ==> lruI == LruWay(WaysOf(k, i))
    {
      ghost var ws := WaysOf(k, i);
      isHit, hitI, invalidFound, insertI, lruI := false, 0, false, 0, 0;
      var lruTs: U64 := U64_MAX;
      var j := 0;
      while j < ways && !isHit
        invariant j <= ways && lruI < ways
        invariant isHit ==> hitI < ways && Matches(ws[hitI], l) && hitI == FindWay(ws, l)
        invariant !isHit ==> forall v :: 0 <= v < j ==> !Matches(ws[v], l)
        invariant invalidFound ==> insertI < j && !ws[insertI].valid && forall v :: insertI < v < j ==> ws[v].valid
        invariant !invalidFound ==> forall v :: 0 <= v < j ==> ws[v].valid
        invariant !isHit ==> forall v :: 0 <= v < j ==> lruTs <= ws[v].ts
        invariant forall v :: 0 <= v < lruI ==> lruTs < ws[v].ts
        invariant if lruTs == U64_MAX then lruI == 0 else ws[lruI].ts == lruTs
        decreases ways - j, !isHit
      {
        if !caches[k, i, j].valid {
          insertI := j;
          invalidFound := true;
        } else if caches[k, i, j].tag == l {
          hitI := j;
          isHit := true;
        }
        if !isHit {
          if caches[k, i, j].ts < lruTs {
            lruTs := caches[k, i, j].ts;
            lruI := j;
          }
          j := j + 1;
        }
      }
      if !isHit {
        ghost var o := LruWay(ws);
        assert !(lruI < o) && !(o < lruI);
        ghost var n := LastInvalid(ws);
        assert invalidFound ==> !(insertI < n) && !(n < insertI);
      }
    }

    /** The sharers that are left after an eviction, and the last of them. */
    method CountSharers(k: nat, sharers: seq<bool>, owner0: nat) returns (n: nat, owner: nat)
      requires |sharers| == sockets && k < sockets && !sharers[k]
      ensures n == CountTrue(sharers) && owner == LastTrue(sharers, owner0)
    {
      n, owner := 0, owner0;
      var jj := 0;
      while jj < sockets
        invariant jj <= sockets
        invariant n == CountTrue(sharers[..jj]) && owner == LastTrue(sharers[..jj], owner0)
      {
        assert sharers[..jj + 1][..jj] == sharers[..jj];
        if sharers[jj] {
          n := n + 1;
          if jj != k { owner := jj; }
        }
        jj := jj + 1;
      }
      assert sharers[..sockets] == sharers;
    }

    /** Tell the directory that way `w` of socket `k` is about to be overwritten. */
    method EvictLine(k: nat, i: nat, w: nat)
      requires Allocated() && k < sockets && i < sets && w < ways
      requires Inv(SetAt(i)) && caches[k, i, w].valid
      modifies this, caches, ccd
      ensures var o := Evict(old(SetAt(i)), k, w); SetAt(i) == o.after && Counts() == old(Counts()) + o.stats
      ensures forall i' :: 0 <= i' < sets && i' != i ==> SetAt(i') == old(SetAt(i'))
    {
      hide Counts, Recolour, WaysOK;
      ghost var s := SetAt(i);
      var evicted := caches[k, i, w].tag;
      var de := Lookup(i, evicted);
      assert s.ways[k][w] == caches[k, i, w];
      FoundAt(s.ways[k], w, evicted);
      assert LineInv(s, evicted) && CopyOK(de, k, View(s.ways[k], evicted));
      if caches[k, i, w].dirty {
        assert caches[k, i, w].cstate == M;
        assert de.state == M;
        assert de.owner == k;
        Count(MemWrite);
        de := de.(sharers := de.sharers[k := false], state := I);
        Record(i, evicted, de);
      } else if de.state == E {
        assert de.owner == k;
        assert caches[k, i, w].cstate == E;
        de := de.(sharers := de.sharers[k := false], state := I);
        Record(i, evicted, de);
      } else {
        assert de.state == S;
        EvictShared(k, i, w, de);
      }
    }

    /** The evicted line is shared: pass ownership on, and promote the owner if it is the only sharer left. */
    method EvictShared(k: nat, i: nat, w: nat, de0: DirEntry)
      requires Allocated() && k < sockets && i < sets && w < ways
      requires Inv(SetAt(i)) && caches[k, i, w].valid && !caches[k, i, w].dirty
      requires de0 == Dir(SetAt(i), caches[k, i, w].tag) && de0.state == S
      modifies caches, ccd
      ensures SetAt(i) == Evict(old(SetAt(i)), k, w).after
      ensures Evict(old(SetAt(i)), k, w).stats == multiset{}
      ensures forall i' :: 0 <= i' < sets && i' != i ==> SetAt(i') == old(SetAt(i'))
    {
      hide Recolour, WaysOK, CountTrue, LastTrue;
      ghost var s := SetAt(i);
      var evicted := caches[k, i, w].tag;
      assert s.ways[k][w] == caches[k, i, w];
      assert LineInv(s, evicted);
      SharersLeft(de0, k);
      var de := de0.(sharers := de0.sharers[k := false]);
      var n, owner := CountSharers(k, de.sharers, de.owner);
      de := de.(owner := owner);
      assert de.owner != k;
      if n == 1 {
        de := de.(state := E);
        assert CopyOK(de0, owner, View(s.ways[owner], evicted));
        RecolourWay(owner, i, evicted, S, E, false);
      }
      Record(i, evicted, de);
    }

    /** A hit in way `h`. */
    method Hits(k: nat, i: nat, h: nat, l: U64, isW: bool, ts: U64)
      requires Allocated() && k < sockets && i < sets && h < ways
      requires Inv(SetAt(i)) && Hit(SetAt(i), k, l) && h == FindWay(WaysOf(k, i), l)
      modifies this, caches, ccd
      ensures var o := AccessHit(old(SetAt(i)), k, l, isW, ts);
        SetAt(i) == o.after && Counts() == old(Counts()) + (multiset{LlcHit} + o.stats)
      ensures forall i' :: 0 <= i' < sets && i' != i ==> SetAt(i') == old(SetAt(i'))
    {
      hide Counts, UpdateDirectory, WaysOK;
      ghost var s := SetAt(i);
      assert LineInv(s, l);
      TouchView(s.ways[k], l, isW, ts, l);
      Count(LlcHit);
      if isW {
        Put(k, i, h, caches[k, i, h].(dirty := true, cstate := M, ts := ts));
      } else {
        Put(k, i, h, caches[k, i, h].(ts := ts));
      }
      assert SetAt(i) == SetWays(s, k, s.ways[k][h := Touched(s.ways[k][h], isW, ts)]);
      UpdateEntry(k, l, i, isW);
    }

    /** A miss that fills way `w`, after room has been made there. */
    method Fills(k: nat, i: nat, w: nat, l: U64, isW: bool, ts: U64)
      requires Allocated() && k < sockets && i < sets && w < ways
      requires Shape(SetAt(i)) && RoomInv(SetAt(i), k, w) && !Hit(SetAt(i), k, l)
      modifies this, caches, ccd
      ensures var o := Fill(old(SetAt(i)), k, w, l, isW, ts);
        SetAt(i) == o.after && Counts() == old(Counts()) + o.stats
      ensures forall i' :: 0 <= i' < sets && i' != i ==> SetAt(i') == old(SetAt(i'))
    {
      hide Counts, UpdateDirectory, WaysOK, LineInvBut, LineInv, RoomInv;
      ghost var s := SetAt(i);
      FillLine(s, k, w, l, isW, ts);
      if isW {
        Put(k, i, w, Entry(l, true, true, M, ts));
      } else {
        Put(k, i, w, Entry(l, true, false, E, ts));
      }
      assert forall i' :: 0 <= i' < sets && i' != i ==> SetAt(i') == old(SetAt(i'));
      ghost var t := SetWays(s, k, s.ways[k][w := Filled(l, isW, ts)]);
      assert SetAt(i) == t;
      UpdateEntry(k, l, i, isW);
      DirectoryState(s, k, w, l, isW, ts);
      assert caches[k, i, w] == SetAt(i).ways[k][w] == Filled(l, isW, ts);
      TakeOverState(k, i, w, l, isW);
    }

    /** A filled way takes over the state of the directory if the line is shared. */
    method TakeOverState(k: nat, i: nat, w: nat, l: U64, isW: bool)
      requires Allocated() && k < sockets && i < sets && w < ways && Shape(SetAt(i))
      requires caches[k, i, w].cstate == (if isW then M else E) && caches[k, i, w].dirty == isW
      requires l in ccd[i] && if isW then ccd[i][l].state == M else ccd[i][l].state == E || ccd[i][l].state == S
      modifies caches
      ensures var s := old(SetAt(i)); var ws := s.ways[k];
        SetAt(i) == if Dir(s, l).state == S then SetWays(s, k, ws[w := ws[w].(cstate := S)]) else s
      ensures forall i' :: 0 <= i' < sets && i' != i ==> SetAt(i') == old(SetAt(i'))
    {
      if ccd[i][l].state == S {
        assert !isW;
        Put(k, i, w, caches[k, i, w].(cstate := S));
        assert caches[k, i, w] == WaysOf(k, i)[w] == AllWays(i)[k][w];
      }
      assert ccd[i][l].state == caches[k, i, w].cstate;
      assert caches[k, i, w].cstate == S ==> !caches[k, i, w].dirty;
    }

    /** One access. */
    method AccessCache(l: U64, isW: bool, ts: U64, k: nat)
      requires Valid() && k < sockets
      modifies this, caches, ccd
      ensures Valid()
      ensures MachineShape(old(Contents())) && k < Sockets(old(Contents()))
      ensures Contents() == Step(old(Contents()), Ref(k, l, isW, ts))
    {
      hide Access, MachineInv, Counts, Inv, Shape;
      var i := Index(l, sets);
      ghost var m := Contents();
      HomeInv(m, i);
      AccessSet(l, isW, ts, k, i);
      OneSetChanged(m, i);
      StepInv(m, Ref(k, l, isW, ts));
    }

    method AccessSet(l: U64, isW: bool, ts: U64, k: nat, i: nat)
      requires Allocated() && k < sockets && i < sets && Inv(SetAt(i))
      modifies this, caches, ccd
      ensures var o := Access(old(SetAt(i)), k, l, isW, ts);
        SetAt(i) == o.after && Counts() == old(Counts()) + o.stats
      ensures forall i' :: 0 <= i' < sets && i' != i ==> SetAt(i') == old(SetAt(i'))
    {
      hide Counts, Access, AccessHit, AccessMiss, LineInv, AllWaysOK, FindWay, LastInvalid, LruWay;
      AccessSplit(SetAt(i), k, l, isW, ts);
      Count(Inst);
      var isHit, hitI, invalidFound, insertI, lruI := Scan(k, i, l);
      if isHit {
        Hits(k, i, hitI, l, isW, ts);
      } else {
        Misses(k, i, invalidFound, insertI, lruI, l, isW, ts);
      }
    }

    lemma OneSetChanged(m: Machine, i: nat)
      requires Allocated() && |m.sets| == sets && i < sets
      requires forall i' :: 0 <= i' < sets && i' != i ==> SetAt(i') == m.sets[i']
      ensures Contents() == Machine(m.sets[i := SetAt(i)], Counts())
    {}

    /** A miss: make room unless a way is invalid, then fill. */
    method Misses(k: nat, i: nat, invalidFound: bool, insertI0: nat, lruI: nat, l: U64, isW: bool, ts: U64)
      requires Allocated() && k < sockets && i < sets
      requires Inv(SetAt(i)) && !Hit(SetAt(i), k, l)
      requires invalidFound == (LastInvalid(WaysOf(k, i)) < ways)
      requires if invalidFound then insertI0 == LastInvalid(WaysOf(k, i)) else lruI == LruWay(WaysOf(k, i))
      modifies this, caches, ccd
      ensures var o := AccessMiss(old(SetAt(i)), k, l, isW, ts);
        SetAt(i) == o.after && Counts() == old(Counts()) + (multiset{LlcMiss} + o.stats)
      ensures forall i' :: 0 <= i' < sets && i' != i ==> SetAt(i') == old(SetAt(i'))
    {
      hide Counts, Fill, Evict, WaysOK, FindWay;
      ghost var s := SetAt(i);
      var insertI := insertI0;
      Count(LlcMiss);
      MakeRoomInv(s, k);
      if !invalidFound {
        insertI := lruI;
        EvictLine(k, i, lruI);
      }
      assert SetAt(i) == MakeRoom(s, k).after;
      Fills(k, i, insertI, l, isW, ts);
    }

    /******* init_caches and the replay loop *******/

    constructor (sockets: nat, sets: nat, ways: nat)
      requires sockets > 0 && sets > 0 && ways > 0
      ensures this.sockets == sockets && this.sets == sets && this.ways == ways
      ensures Valid() && fresh(caches) && fresh(ccd)
      ensures Contents() == InitMachine(sockets, sets, ways)
    {
      this.sockets, this.sets, this.ways := sockets, sets, ways;
      caches := new Entry[sockets, sets, ways]((_, _, _) => Entry(0, false, false, I, 0));
      ccd := new map<U64, DirEntry>[sets](_ => map[]);
      new;
      InitCaches();
      InitMachineInv(sockets, sets, ways);
    }

    /** Empty every way and reset the counters. The directory is left alone; it is empty when this runs. */
    method InitCaches()
      requires Allocated() && forall i :: 0 <= i < sets ==> ccd[i] == map[]
      modifies this, caches
      ensures Contents() == InitMachine(sockets, sets, ways)
    {
      hide Counts, SetAt, AllWays, WaysOf;
      var i := 0;
      while i < sockets
        invariant i <= sockets
        invariant forall a, b, c :: 0 <= a < i && 0 <= b < sets && 0 <= c < ways ==> caches[a, b, c] == EMPTY_WAY
      {
        var j := 0;
        while j < sets
          invariant j <= sets
          invariant forall a, b, c :: 0 <= a < i && 0 <= b < sets && 0 <= c < ways ==> caches[a, b, c] == EMPTY_WAY
          invariant forall b, c :: 0 <= b < j && 0 <= c < ways ==> caches[i, b, c] == EMPTY_WAY
        {
          var k := 0;
          while k < ways
            invariant k <= ways
            invariant forall a, b, c :: 0 <= a < i && 0 <= b < sets && 0 <= c < ways ==> caches[a, b, c] == EMPTY_WAY
            invariant forall b, c :: 0 <= b < j && 0 <= c < ways ==> caches[i, b, c] == EMPTY_WAY
            invariant forall c :: 0 <= c < k ==> caches[i, j, c] == EMPTY_WAY
          {
            caches[i, j, k] := EMPTY_WAY;
            k := k + 1;
          }
          j := j + 1;
        }
        i := i + 1;
      }
      cBlockTrans, cInvals, mReads, mWrites, mWritesFromCoh := 0, 0, 0, 0, 0;
      totalInsts, llcHits, llcMisses := 0, 0, 0;
      EmptyIsInit();
    }

    lemma EmptyIsInit()
      requires Allocated() && forall i :: 0 <= i < sets ==> ccd[i] == map[]
      requires forall a, b, c :: 0 <= a < sockets && 0 <= b < sets && 0 <= c < ways ==> caches[a, b, c] == EMPTY_WAY
      requires mReads == mWrites == mWritesFromCoh == cInvals == cBlockTrans == totalInsts == llcHits == llcMisses == 0
      ensures Contents() == InitMachine(sockets, sets, ways)
    {
      assert Counts() == multiset{};
      hide Counts;
      forall b | 0 <= b < sets ensures SetAt(b) == InitSet(sockets, ways) {
        forall a | 0 <= a < sockets ensures WaysOf(a, b) == Repeat(EMPTY_WAY, ways) {}
        assert AllWays(b) == InitSet(sockets, ways).ways;
      }
      hide SetAt, InitSet;
      assert Contents().sets == InitMachine(sockets, sets, ways).sets;
    }

    lemma ValidIsShaped()
      requires Valid()
      ensures Allocated() && |Contents().sets| > 0 && MachineShape(Contents()) && Sockets(Contents()) == sockets
    {
      HomeInv(Contents(), 0);
      assert |AllWays(0)| == sockets;
    }

    /** The main loop. It reads one record of every thread in every round, until a round in which some thread reports
        six billion instructions. The traces must not end before that. */
    method ReplayTraces(traces: seq<seq<TraceLine>>, ghost last: nat) returns (rounds: nat)
      requires Valid() && |traces| == 4 * sockets
      requires (forall i :: 0 <= i < |traces| ==> last < |traces[i]|) && Stops(traces, last)
      modifies this, caches, ccd
      ensures Valid() && 0 < rounds <= last + 1 && Stops(traces, rounds - 1) && NoneStops(traces, rounds - 1)
      ensures InRange(Rounds(traces, rounds), Sockets(old(Contents())))
      ensures Contents() == Run(old(Contents()), Rounds(traces, rounds))
    {
      hide *;
      assert Allocated() by { ValidIsShaped(); }
      ghost var m := Contents();
      ValidIsShaped();
      NoRounds(m, traces);
      rounds := 0;
      var stop := false;
      while !stop
        invariant rounds <= last + 1 && Valid()
        invariant if stop then rounds > 0 && Stops(traces, rounds - 1) && NoneStops(traces, rounds - 1) else NoneStops(traces, rounds)
        invariant InRange(Rounds(traces, rounds), Sockets(m)) && Contents() == Run(m, Rounds(traces, rounds))
        decreases last + 1 - rounds
      {
        if rounds > last { StopsBefore(traces, rounds, last); }
        NextRound(traces, rounds);
        stop := ReplayRound(traces, rounds, m, Rounds(traces, rounds));
        rounds := rounds + 1;
      }
    }

    /** One record of every thread. */
    method ReplayRound(traces: seq<seq<TraceLine>>, n: nat, ghost m: Machine, ghost before: seq<Ref>) returns (stop: bool)
      requires Valid() && |traces| == 4 * sockets && forall i :: 0 <= i < |traces| ==> n < |traces[i]|
      requires |m.sets| > 0 && MachineShape(m) && Sockets(m) == sockets
      requires InRange(before, sockets) && Contents() == Run(m, before)
      modifies this, caches, ccd
      ensures Valid() && stop == Stops(traces, n)
      ensures InRange(before + Round(traces, n, |traces|), Sockets(m))
      ensures Contents() == Run(m, before + Round(traces, n, |traces|))
    {
      hide Counts, Run, Step, MachineInv, MachineShape, Allocated;
      stop := false;
      ghost var tr := before;
      assert before + [] == before;
      for i := 0 to |traces|
        invariant Valid() && tr == before + Round(traces, n, i)
        invariant InRange(tr, Sockets(m)) && Contents() == Run(m, tr)
        invariant stop <==> exists k :: 0 <= k < i && traces[k][n] == TraceLine(PHASE_MARK, LAST_MARK)
      {
        var line := traces[i][n];
        NextOfRound(traces, n, i, before);
        if line.word == PHASE_MARK {
          if line.icount == LAST_MARK { stop := true; }
        } else {
          ReplayLine(i, line, m, tr);
          tr := tr + [Decode(i, line.word, line.icount)];
        }
      }
    }

    method ReplayLine(thread: nat, line: TraceLine, ghost m: Machine, ghost tr: seq<Ref>)
      requires Valid() && thread < 4 * sockets
      requires |m.sets| > 0 && MachineShape(m) && Sockets(m) == sockets && InRange(tr, sockets) && Contents() == Run(m, tr)
      modifies this, caches, ccd
      ensures Valid() && InRange(tr + [Decode(thread, line.word, line.icount)], Sockets(m))
      ensures Contents() == Run(m, tr + [Decode(thread, line.word, line.icount)])
    {
      hide Counts, Step, MachineInv, MachineShape, Valid;
      assert (tr + [Decode(thread, line.word, line.icount)])[..|tr|] == tr;
      AccessCache(line.word / 64, line.word % 2 == 1, line.icount, thread / 4);
    }
  }

  /** No thread does so in the rounds before round `n`. */
  ghost predicate NoneStops(traces: seq<seq<TraceLine>>, n: nat) {
    forall k :: 0 <= k < n ==> !Stops(traces, k)
  }

  lemma StopsBefore(traces: seq<seq<TraceLine>>, n: nat, k: nat)
    requires k < n && Stops(traces, k)
    ensures !NoneStops(traces, n)
  {}

  lemma NoRounds(m: Machine, traces: seq<seq<TraceLine>>)
    requires MachineShape(m)
    ensures Rounds(traces, 0) == [] && Run(m, []) == m && InRange([], Sockets(m)) && NoneStops(traces, 0)
  {}

  lemma NextRound(traces: seq<seq<TraceLine>>, n: nat)
    requires forall i :: 0 <= i < |traces| ==> n < |traces[i]|
    ensures Rounds(traces, n + 1) == Rounds(traces, n) + Round(traces, n, |traces|)
    ensures NoneStops(traces, n + 1) <==> NoneStops(traces, n) && !Stops(traces, n)
  {
    hide Round, Stops;
  }

  lemma NextOfRound(traces: seq<seq<TraceLine>>, n: nat, i: nat, before: seq<Ref>)
    requires i < |traces| && forall j :: 0 <= j < |traces| ==> n < |traces[j]|
    ensures var r := traces[i][n];
      && (r.word == PHASE_MARK ==> before + Round(traces, n, i + 1) == before + Round(traces, n, i))
      && (r.word != PHASE_MARK ==>
            before + Round(traces, n, i + 1) == before + Round(traces, n, i) + [Decode(i, r.word, r.icount)])
  {
    var r := traces[i][n];
    assert Round(traces, n, i) + [] == Round(traces, n, i);
    assert before + (Round(traces, n, i) + [Decode(i, r.word, r.icount)]) == before + Round(traces, n, i) + [Decode(i, r.word, r.icount)];
  }

  const PHASE_MARK: U64 := 0xc0ffee
  const LAST_MARK: U64 := 6000000000

  /** Two words of a trace: an address and an instruction count, or a mark and the instructions it marks. */
  datatype TraceLine = TraceLine(word: U64, icount: U64)

  /** The references of the first `k` threads in round `n`. */
  function Round(traces: seq<seq<TraceLine>>, n: nat, k: nat): seq<Ref>
    requires k <= |traces| && forall i :: 0 <= i < |traces| ==> n < |traces[i]|
  {
    if k == 0 then []
    else
      var r := traces[k - 1][n];
      Round(traces, n, k - 1) + if r.word == PHASE_MARK then [] else [Decode(k - 1, r.word, r.icount)]
  }

  /** The references of the first `n` rounds. */
  function Rounds(traces: seq<seq<TraceLine>>, n: nat): seq<Ref>
    requires forall i :: 0 <= i < |traces| ==> n <= |traces[i]|
  {
    if n == 0 then [] else Rounds(traces, n - 1) + Round(traces, n - 1, |traces|)
  }

  /** Some thread reports six billion instructions in round `n`. */
  ghost predicate Stops(traces: seq<seq<TraceLine>>, n: nat) {
    exists i :: 0 <= i < |traces| && n < |traces[i]| && traces[i][n] == TraceLine(0xc0ffee, 6000000000)
  }

  /******* What the references of the rounds are *******/

  /** The reference of a thread's access: the line of 64 bytes around the address, a write exactly at an odd address,
      from the socket of four threads, stamped with the instruction count. */
  predicate IsAccessOf(r: Ref, thread: nat, l: TraceLine) {
    && 64 * r.line <= l.word < 64 * r.line + 64 && r.isW == (l.word % 2 == 1)
    && 4 * r.socket <= thread < 4 * r.socket + 4 && r.ts == l.icount
  }

  lemma DecodeIs(thread: nat, l: TraceLine)
    ensures IsAccessOf(Decode(thread, l.word, l.icount), thread, l)
  {}

  predicate Earlier(a: (nat, nat), b: (nat, nat)) {
    a.0 < b.0 || (a.0 == b.0 && a.1 < b.1)
  }

  /** The references `tr` are those of the records at the positions `at`, each a round and a thread, in this order. */
  ghost predicate AccessesAt(tr: seq<Ref>, traces: seq<seq<TraceLine>>, at: seq<(nat, nat)>) {
    && |at| == |tr|
    && (forall i :: 0 <= i < |at| ==> at[i].1 < |traces| && at[i].0 < |traces[at[i].1]| && IsAccessOf(tr[i], at[i].1, traces[at[i].1][at[i].0]))
    && (forall i, j :: 0 <= i < j < |at| ==> Earlier(at[i], at[j]))
  }

  /** `at` lists the records of the rounds below `n`, and of the first `k` threads in round `n`, that are no marks. */
  ghost predicate ListsRecords(traces: seq<seq<TraceLine>>, n: nat, k: nat, at: seq<(nat, nat)>) {
    forall a: (nat, nat) :: a in at <==>
      Earlier(a, (n, k)) && a.1 < |traces| && a.0 < |traces[a.1]| && traces[a.1][a.0].word != 0xc0ffee
  }

  lemma {:induction false} RoundIs(traces: seq<seq<TraceLine>>, n: nat, k: nat, before: seq<Ref>, at0: seq<(nat, nat)>)
      returns (at: seq<(nat, nat)>)
    requires k <= |traces| && forall i :: 0 <= i < |traces| ==> n < |traces[i]|
    requires AccessesAt(before, traces, at0) && ListsRecords(traces, n, 0, at0)
    ensures AccessesAt(before + Round(traces, n, k), traces, at) && ListsRecords(traces, n, k, at)
    decreases k
  {
    hide AccessesAt, ListsRecords, IsAccessOf, Earlier;
    if k == 0 {
      assert before + [] == before;
      at := at0;
    } else {
      at := RoundIs(traces, n, k - 1, before, at0);
      NextOfRound(traces, n, k - 1, before);
      OneMoreRecord(before + Round(traces, n, k - 1), traces, n, k - 1, at);
      if traces[k - 1][n].word != PHASE_MARK { at := at + [(n, k - 1)]; }
    }
  }

  lemma OneMoreRecord(tr: seq<Ref>, traces: seq<seq<TraceLine>>, n: nat, k: nat, at: seq<(nat, nat)>)
    requires k < |traces| && n < |traces[k]| && AccessesAt(tr, traces, at) && ListsRecords(traces, n, k, at)
    ensures var l := traces[k][n];
      if l.word == PHASE_MARK then ListsRecords(traces, n, k + 1, at)
      else AccessesAt(tr + [Decode(k, l.word, l.icount)], traces, at + [(n, k)]) && ListsRecords(traces, n, k + 1, at + [(n, k)])
  {
    hide Decode, IsAccessOf;
    DecodeIs(k, traces[k][n]);
    forall i | 0 <= i < |at| ensures Earlier(at[i], (n, k)) { assert at[i] in at; }
  }

  lemma RoundOver(traces: seq<seq<TraceLine>>, n: nat, at: seq<(nat, nat)>)
    requires ListsRecords(traces, n, |traces|, at)
    ensures ListsRecords(traces, n + 1, 0, at)
  {}

  /** The references of the first `n` rounds are exactly the accesses in these rounds, round by round, and in each
      round thread by thread. */
  lemma {:induction false} RoundsAre(traces: seq<seq<TraceLine>>, n: nat) returns (at: seq<(nat, nat)>)
    requires forall i :: 0 <= i < |traces| ==> n <= |traces[i]|
    ensures AccessesAt(Rounds(traces, n), traces, at) && ListsRecords(traces, n, 0, at)
  {
    if n == 0 {
      at := [];
    } else {
      hide AccessesAt, ListsRecords, Round;
      at := RoundsAre(traces, n - 1);
      at := RoundIs(traces, n - 1, |traces|, Rounds(traces, n - 1), at);
      RoundOver(traces, n - 1, at);
    }
  }

  lemma AccessSplit(s: SetState, k: nat, l: U64, isW: bool, ts: U64)
    requires Shape(s) && k < |s.ways|
    ensures var o := Access(s, k, l, isW, ts);
      if Hit(s, k, l) then
        o.after == AccessHit(s, k, l, isW, ts).after
        && o.stats == multiset{Inst} + (multiset{LlcHit} + AccessHit(s, k, l, isW, ts).stats)
      else
        o.after == AccessMiss(s, k, l, isW, ts).after
        && o.stats == multiset{Inst} + (multiset{LlcMiss} + AccessMiss(s, k, l, isW, ts).stats)
  {
    hide AccessHit, AccessMiss;
  }

  lemma HomeInv(m: Machine, i: nat)
    requires MachineInv(m) && i < |m.sets|
    ensures Inv(m.sets[i]) && MachineShape(m)
  {}

  /** After a fill the directory is in the state that the new way will have. */
  lemma DirectoryState(s: SetState, k: nat, w: nat, l: U64, isW: bool, ts: U64)
    requires Shape(s) && k < |s.ways| && w < |s.ways[k]| && RoomInv(s, k, w) && !Hit(s, k, l)
    ensures var u := UpdateDirectory(SetWays(s, k, s.ways[k][w := Filled(l, isW, ts)]), k, l, isW).after;
      && l in u.dir && u.dir[l].state == (if isW then M else if Dir(s, l).state == I then E else S)
  {
    var t := SetWays(s, k, s.ways[k][w := Filled(l, isW, ts)]);
    FillLine(s, k, w, l, isW, ts);
    assert RoomLine(s, k, w, l) && LineInv(s, l) && CopyOK(Dir(s, l), k, View(s.ways[k], l));
    Agreement.UpdateEntry(t, k, l, isW, l);
    Recorded(t, k, l, isW);
  }

  lemma Recorded(s: SetState, k: nat, l: U64, isW: bool)
    requires Shape(s) && k < |s.ways|
    ensures l in UpdateDirectory(s, k, l, isW).after.dir
  {}
}
