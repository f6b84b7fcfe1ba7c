/** The directory protocol of one cache set.

    All sockets have the same number of sets, and an access to a line only ever touches the set
    that the line maps to, so the protocol is described here for a single set: the ways every
    socket has in it, and the directory entries of the lines that map to it. */
module Mesi {

  const U64_MAX: int := 0xFFFF_FFFF_FFFF_FFFF

  type U64 = x: int | 0 <= x <= U64_MAX

  datatype DState = I | S | E | M

  /** One way of one socket. */
  datatype Entry = Entry(tag: U64, valid: bool, dirty: bool, cstate: DState, ts: U64)

  /** The directory's knowledge of one line. */
  datatype DirEntry = DirEntry(state: DState, owner: nat, sharers: seq<bool>)

  /** What the traffic counters count: memory reads, memory writes on eviction, memory writes because another
      socket reads a modified line, invalidations, transfers between sockets, accesses, hits and misses. */
  datatype Event = MemRead | MemWrite | CohWrite | Inval | BlockTrans | Inst | LlcHit | LlcMiss

  /** The counters as one value: each event with the number of times it happened. */
  type Stats = multiset<Event>

  /** `ways[k][w]` is way `w` of socket `k`; `dir` maps line addresses to directory entries. */
  datatype SetState = SetState(ways: seq<seq<Entry>>, dir: map<U64, DirEntry>)

  /** The set after a step, and what the step adds to the counters. */
  datatype Outcome = Outcome(after: SetState, stats: Stats)

  const EMPTY_WAY := Entry(U64_MAX, false, false, I, 0)

  function Repeat<T>(x: T, n: nat): (r: seq<T>)
    ensures |r| == n && forall i :: 0 <= i < n ==> r[i] == x
  {
    seq(n, _ => x)
  }

  /** The set as `init_caches` leaves it: every way empty, no directory entry. */
  function InitSet(sockets: nat, ways: nat): SetState {
    SetState(Repeat(Repeat(EMPTY_WAY, ways), sockets), map[])
  }

  /** A directory entry that has never been touched is value-initialised. */
  function Fresh(sockets: nat): DirEntry {
    DirEntry(I, 0, Repeat(false, sockets))
  }

  function Dir(s: SetState, l: U64): DirEntry {
    if l in s.dir then s.dir[l] else Fresh(|s.ways|)
  }

  /** Every socket has the same positive number of ways, and all indices the protocol uses are in range. */
  ghost predicate Shape(s: SetState) {
    && |s.ways| > 0 && |s.ways[0]| > 0
    && (forall k :: 0 <= k < |s.ways| ==> |s.ways[k]| == |s.ways[0]|)
    && (forall l :: l in s.dir ==> |s.dir[l].sharers| == |s.ways| && s.dir[l].owner < |s.ways|)
  }

  ghost predicate SameShape(s: SetState, t: SetState) {
    Shape(s) && Shape(t) && |s.ways| == |t.ways| && |s.ways[0]| == |t.ways[0]|
  }

  /******* Scanning the ways of one socket *******/

  predicate Matches(e: Entry, l: U64) { e.valid && e.tag == l }

  /** The first valid way holding `l`, or `|ws|`. */
  function FindWay(ws: seq<Entry>, l: U64): (i: nat)
    ensures i <= |ws|
    ensures i < |ws| ==> Matches(ws[i], l)
    ensures forall j :: 0 <= j < i ==> !Matches(ws[j], l)
  {
    if |ws| == 0 || Matches(ws[0], l) then 0
    else
      var i := FindWay(ws[1..], l);
      assert forall j :: 0 < j < 1 + i ==> ws[j] == ws[1..][j - 1];
      1 + i
  }

  /** The last invalid way, or `|ws|` when every way is valid. */
  function LastInvalid(ws: seq<Entry>): (i: nat)
    ensures i <= |ws|
    ensures i < |ws| ==> !ws[i].valid && forall j :: i < j < |ws| ==> ws[j].valid
    ensures i == |ws| ==> forall j :: 0 <= j < |ws| ==> ws[j].valid
  {
    if |ws| == 0 then 0
    else
      var n := |ws| - 1;
      if !ws[n].valid then n
      else
        var i := LastInvalid(ws[..n]);
        assert forall j :: 0 <= j < n ==> ws[j] == ws[..n][j];
        if i == n then |ws| else i
  }

  /** The first way with the smallest timestamp. */
  function LruWay(ws: seq<Entry>): (i: nat)
    requires |ws| > 0
    ensures i < |ws|
    ensures forall j :: 0 <= j < |ws| ==> ws[i].ts <= ws[j].ts
    ensures forall j :: 0 <= j < i ==> ws[i].ts < ws[j].ts
  {
    var n := |ws| - 1;
    if n == 0 then 0
    else
      var i := LruWay(ws[..n]);
      assert forall j :: 0 <= j < n ==> ws[j] == ws[..n][j];
      if ws[n].ts < ws[i].ts then n else i
  }

  /** Change the coherence state of the way holding `l`, if there is one; `clean` also resets its dirty bit. */
  function Recolour(ws: seq<Entry>, l: U64, st: DState, clean: bool): (r: seq<Entry>)
    ensures |r| == |ws|
  {
    var i := FindWay(ws, l);
    if i < |ws| then ws[i := ws[i].(cstate := st, dirty := ws[i].dirty && !clean)] else ws
  }

  /** Invalidate the way holding `l`, if there is one. */
  function Drop(ws: seq<Entry>, l: U64): (r: seq<Entry>)
    ensures |r| == |ws|
  {
    var i := FindWay(ws, l);
    if i < |ws| then ws[i := ws[i].(cstate := I, valid := false, dirty := false, tag := U64_MAX)] else ws
  }

  /******* Sharer vectors *******/

  function CountTrue(bs: seq<bool>): nat {
    if |bs| == 0 then 0 else CountTrue(bs[..|bs| - 1]) + (if bs[|bs| - 1] then 1 else 0)
  }

  /** The last sharer, or `default` when there is none. */
  function LastTrue(bs: seq<bool>, default: nat): (i: nat)
    ensures i < |bs| || i == default
  {
    if |bs| == 0 then default
    else if bs[|bs| - 1] then |bs| - 1
    else LastTrue(bs[..|bs| - 1], default)
  }

  /******* update_directory *******/

  /** What every case of the directory update ends with: the requester is a sharer and the owner. */
  function Finish(s: SetState, k: nat, l: U64, de: DirEntry, d: Stats): (r: Outcome)
    requires Shape(s) && k < |s.ways| && |de.sharers| == |s.ways|
    ensures SameShape(s, r.after)
  {
    Outcome(s.(dir := s.dir[l := de.(sharers := de.sharers[k := true], owner := k)]), d)
  }

  function SetWays(s: SetState, k: nat, ws: seq<Entry>): (r: SetState)
    requires Shape(s) && k < |s.ways| && |ws| == |s.ways[k]|
    ensures SameShape(s, r)
  {
    s.(ways := s.ways[k := ws])
  }

  /** Every sharer other than `k` loses its copy of `l`. */
  function DropSharers(ways: seq<seq<Entry>>, sharers: seq<bool>, k: nat, l: U64): (r: seq<seq<Entry>>)
    requires |ways| == |sharers|
    ensures |r| == |ways|
    ensures forall j :: 0 <= j < |ways| ==> r[j] == if j != k && sharers[j] then Drop(ways[j], l) else ways[j]
  {
    seq(|ways|, j requires 0 <= j < |ways| => if j != k && sharers[j] then Drop(ways[j], l) else ways[j])
  }

  function OnlySharer(sharers: seq<bool>, k: nat): (r: seq<bool>)
    ensures |r| == |sharers|
    ensures forall j :: 0 <= j < |sharers| ==> r[j] == (j == k && sharers[j])
  {
    seq(|sharers|, j requires 0 <= j < |sharers| => j == k && sharers[j])
  }

  function UpdateOnRead(s: SetState, k: nat, l: U64): (r: Outcome)
    requires Shape(s) && k < |s.ways|
    ensures SameShape(s, r.after)
  {
    var de := Dir(s, l);
    match de.state
    case I => Finish(s, k, l, de.(state := E), multiset{MemRead})
    case S => Finish(s, k, l, de, if de.sharers[k] then multiset{} else multiset{MemRead})
    case E =>
      if de.owner == k then Finish(s, k, l, de, multiset{})
      else
        var s' := SetWays(s, de.owner, Recolour(s.ways[de.owner], l, S, false));
        Finish(s', k, l, de.(state := S), multiset{BlockTrans})
    case M =>
      if de.owner == k then Finish(s, k, l, de, multiset{})
      else
        var s' := SetWays(s, de.owner, Recolour(s.ways[de.owner], l, S, true));
        Finish(s', k, l, de.(state := S), multiset{CohWrite, BlockTrans})
  }

  function UpdateOnWrite(s: SetState, k: nat, l: U64): (r: Outcome)
    requires Shape(s) && k < |s.ways|
    ensures SameShape(s, r.after)
  {
    var de := Dir(s, l);
    match de.state
    case I => Finish(s, k, l, de.(state := M), multiset{MemRead})
    case S =>
      Finish(s.(ways := DropSharers(s.ways, de.sharers, k, l)), k, l,
             de.(state := M, sharers := OnlySharer(de.sharers, k)),
             if de.sharers[k] then multiset{Inval} else multiset{Inval, MemRead})
    case _ =>
      if de.owner == k then Finish(s, k, l, de.(state := M), multiset{})
      else
        var s' := SetWays(s, de.owner, Drop(s.ways[de.owner], l));
        Finish(s', k, l, de.(state := M, sharers := de.sharers[de.owner := false]), multiset{BlockTrans})
  }

  function UpdateDirectory(s: SetState, k: nat, l: U64, isW: bool): (r: Outcome)
    requires Shape(s) && k < |s.ways|
    ensures SameShape(s, r.after)
  {
    if isW then UpdateOnWrite(s, k, l) else UpdateOnRead(s, k, l)
  }

  /******* access_cache *******/

  /** The directory work done before way `w` of socket `k` is overwritten. The way itself is left as it is. */
  function Evict(s: SetState, k: nat, w: nat): (r: Outcome)
    requires Shape(s) && k < |s.ways| && w < |s.ways[k]|
    ensures SameShape(s, r.after)
  {
    var victim := s.ways[k][w];
    var de := Dir(s, victim.tag);
    var sharers := de.sharers[k := false];
    if victim.dirty then
      Outcome(s.(dir := s.dir[victim.tag := de.(sharers := sharers, state := I)]), multiset{MemWrite})
    else if de.state == E then
      Outcome(s.(dir := s.dir[victim.tag := de.(sharers := sharers, state := I)]), multiset{})
    else
      var owner := LastTrue(sharers, de.owner);
      if CountTrue(sharers) == 1 then
        Outcome(SetWays(s, owner, Recolour(s.ways[owner], victim.tag, E, false))
                .(dir := s.dir[victim.tag := de.(sharers := sharers, owner := owner, state := E)]), multiset{})
      else
        Outcome(s.(dir := s.dir[victim.tag := de.(sharers := sharers, owner := owner)]), multiset{})
  }

  /** The way a miss fills. */
  function Slot(ws: seq<Entry>): (w: nat)
    requires |ws| > 0
    ensures w < |ws|
  {
    var i := LastInvalid(ws);
    if i < |ws| then i else LruWay(ws)
  }

  function Filled(l: U64, isW: bool, ts: U64): Entry {
    Entry(l, true, isW, if isW then M else E, ts)
  }

  function Touched(e: Entry, isW: bool, ts: U64): Entry {
    if isW then e.(dirty := true, cstate := M, ts := ts) else e.(ts := ts)
  }

  /** Evict a line of socket `k` unless it has an invalid way. */
  function MakeRoom(s: SetState, k: nat): (r: Outcome)
    requires Shape(s) && k < |s.ways|
    ensures SameShape(s, r.after)
  {
    if LastInvalid(s.ways[k]) < |s.ways[k]| then Outcome(s, multiset{}) else Evict(s, k, LruWay(s.ways[k]))
  }

  predicate Hit(s: SetState, k: nat, l: U64)
    requires k < |s.ways|
  {
    FindWay(s.ways[k], l) < |s.ways[k]|
  }

  function AccessHit(s: SetState, k: nat, l: U64, isW: bool, ts: U64): (r: Outcome)
    requires Shape(s) && k < |s.ways| && Hit(s, k, l)
    ensures SameShape(s, r.after)
  {
    var h := FindWay(s.ways[k], l);
    UpdateDirectory(SetWays(s, k, s.ways[k][h := Touched(s.ways[k][h], isW, ts)]), k, l, isW)
  }

  /** Fill way `w` of socket `k`, tell the directory, and take over a shared state. */
  function Fill(s: SetState, k: nat, w: nat, l: U64, isW: bool, ts: U64): (r: Outcome)
    requires Shape(s) && k < |s.ways| && w < |s.ways[k]|
    ensures SameShape(s, r.after)
  {
    var r := UpdateDirectory(SetWays(s, k, s.ways[k][w := Filled(l, isW, ts)]), k, l, isW);
    if Dir(r.after, l).state == S then
      var ws := r.after.ways[k];
      Outcome(SetWays(r.after, k, ws[w := ws[w].(cstate := S)]), r.stats)
    else r
  }

  function AccessMiss(s: SetState, k: nat, l: U64, isW: bool, ts: U64): (r: Outcome)
    requires Shape(s) && k < |s.ways|
    ensures SameShape(s, r.after)
  {
    var room := MakeRoom(s, k);
    var r := Fill(room.after, k, Slot(s.ways[k]), l, isW, ts);
    Outcome(r.after, room.stats + r.stats)
  }

  /** One access of socket `k` to line `l` at time `ts`. */
  function Access(s: SetState, k: nat, l: U64, isW: bool, ts: U64): (r: Outcome)
    requires Shape(s) && k < |s.ways|
    ensures SameShape(s, r.after)
  {
    if Hit(s, k, l) then
      var r := AccessHit(s, k, l, isW, ts);
      Outcome(r.after, multiset{Inst, LlcHit} + r.stats)
    else
      var r := AccessMiss(s, k, l, isW, ts);
      Outcome(r.after, multiset{Inst, LlcMiss} + r.stats)
  }
}
