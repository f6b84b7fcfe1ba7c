/** One thread's trace of one phase: exact and sampled access counts per page.

    A sampled count goes up at most once per window of `SAMPLING_PERIOD` instructions. The program remembers only the
    instruction count of the last sampled touch of each page, with 0 for "none". */
module Sampling {
  import opened Mesi
  import opened Placement
  import opened Counting
  import opened Totals

  const SAMPLING_PERIOD: nat := 200000000
  const NBILLION: nat := 1000000000
  const PAGE_SIZE: nat := 4096
  const PHASE_MARK: nat := 0xc0ffee
  const WRAP: nat := 0x1_0000_0000_0000_0000

  /** One line of the trace; the lowest bit of the address says whether it is a write. */
  datatype Line = Line(addr: U64, icount: U64)

  function PageOf(l: Line): nat { l.addr / PAGE_SIZE }

  predicate IsWrite(l: Line) { l.addr % 2 == 1 }

  /** Whether the touch at `b` is in the window of the sampled touch at `a`, in the program's 64-bit arithmetic. */
  predicate InSamePeriod(a: U64, b: U64, first: U64) {
    a != 0 && (b - first) % WRAP < ((a - first) % WRAP / SAMPLING_PERIOD + 1) * SAMPLING_PERIOD % WRAP
  }

  /** The accesses of a phase: up to a mark at or after its end, without the marks. */
  function Accesses(lines: seq<Line>, end: nat): (r: seq<Line>)
    ensures |r| <= |lines|
  {
    if |lines| == 0 || (lines[0].addr == PHASE_MARK && lines[0].icount >= end) then []
    else (if lines[0].addr == PHASE_MARK then [] else [lines[0]]) + Accesses(lines[1..], end)
  }

  /** Line `k` is the first mark at or after the end of the phase, or there is none. */
  ghost predicate EndsAt(lines: seq<Line>, end: nat, k: nat) {
    && k <= |lines| && (k == |lines| || (lines[k].addr == 0xc0ffee && lines[k].icount >= end))
    && forall i :: 0 <= i < k ==> lines[i].addr != 0xc0ffee || lines[i].icount < end
  }

  /** `recs` are the lines at the positions `f`, in this order. */
  ghost predicate AreAt(recs: seq<Line>, lines: seq<Line>, f: seq<nat>) {
    && |f| == |recs| && (forall i :: 0 <= i < |f| ==> f[i] < |lines| && recs[i] == lines[f[i]])
    && forall i, j :: 0 <= i < j < |f| ==> f[i] < f[j]
  }

  /** `f` lists the lines before line `k` that are no marks. */
  ghost predicate ListsAccesses(lines: seq<Line>, k: nat, f: seq<nat>) {
    k <= |lines| && forall i: nat :: i in f <==> i < k && lines[i].addr != 0xc0ffee
  }

  /** The accesses of a phase are exactly the lines before its end that are no marks, in their order. */
  lemma {:induction false} AccessesAre(lines: seq<Line>, end: nat) returns (k: nat, f: seq<nat>)
    ensures EndsAt(lines, end, k) && AreAt(Accesses(lines, end), lines, f) && ListsAccesses(lines, k, f)
  {
    if |lines| == 0 || (lines[0].addr == PHASE_MARK && lines[0].icount >= end) {
      k, f := 0, [];
    } else {
      hide EndsAt, AreAt, ListsAccesses, Shift;
      k, f := AccessesAre(lines[1..], end);
      EndsLater(lines, end, k);
      AreAtLater(Accesses(lines[1..], end), lines, f);
      ListsLater(lines, k, f);
      k, f := k + 1, if lines[0].addr == PHASE_MARK then Shift(f) else [0] + Shift(f);
      assert [] + Accesses(lines[1..], end) == Accesses(lines[1..], end);
    }
  }

  lemma EndsLater(lines: seq<Line>, end: nat, k: nat)
    requires |lines| > 0 && (lines[0].addr != PHASE_MARK || lines[0].icount < end) && EndsAt(lines[1..], end, k)
    ensures EndsAt(lines, end, k + 1)
  {
    forall i | 0 < i < k + 1 ensures lines[i].addr != 0xc0ffee || lines[i].icount < end { assert lines[i] == lines[1..][i - 1]; }
  }

  lemma AreAtLater(recs: seq<Line>, lines: seq<Line>, f: seq<nat>)
    requires |lines| > 0 && AreAt(recs, lines[1..], f)
    ensures AreAt(recs, lines, Shift(f)) && AreAt([lines[0]] + recs, lines, [0] + Shift(f))
  {
    hide Shift;
  }

  lemma ListsLater(lines: seq<Line>, k: nat, f: seq<nat>)
    requires |lines| > 0 && ListsAccesses(lines[1..], k, f)
    ensures lines[0].addr == PHASE_MARK ==> ListsAccesses(lines, k + 1, Shift(f))
    ensures lines[0].addr != PHASE_MARK ==> ListsAccesses(lines, k + 1, [0] + Shift(f))
  {
    hide Shift;
    ShiftIs(f);
    forall i: nat | i > 0 ensures i in Shift(f) <==> i < k + 1 && lines[i].addr != 0xc0ffee {
      if i < k + 1 { assert lines[i] == lines[1..][i - 1]; }
    }
  }

  function Shift(f: seq<nat>): (g: seq<nat>)
    ensures |g| == |f| && forall a :: 0 <= a < |f| ==> g[a] == f[a] + 1
  {
    seq(|f|, a requires 0 <= a < |f| => f[a] + 1)
  }

  lemma ShiftIs(f: seq<nat>)
    ensures forall i: nat :: i in Shift(f) <==> i > 0 && i - 1 in f
  {
    hide Shift;
    forall i: nat ensures i in Shift(f) <==> i > 0 && i - 1 in f {
      if i > 0 && i - 1 in f {
        var a :| 0 <= a < |f| && f[a] == i - 1;
        assert Shift(f)[a] == i;
      }
    }
  }

  /******* What the thread counts *******/

  /** The address is within page `p`. */
  predicate InPage(l: Line, p: nat) {
    4096 * p <= l.addr < 4096 * (p + 1)
  }

  /** The positions of the accesses to page `p` at odd addresses, which are its writes, or at even ones. */
  function PositionsOf(recs: seq<Line>, p: nat, odd: bool): set<nat> {
    set i | 0 <= i < |recs| && InPage(recs[i], p) && (recs[i].addr % 2 == 1) == odd
  }

  lemma PositionsMore(recs: seq<Line>, l: Line, p: nat, odd: bool)
    ensures PositionsOf(recs + [l], p, odd)
         == PositionsOf(recs, p, odd) + if InPage(l, p) && (l.addr % 2 == 1) == odd then {|recs|} else {}
  {
    assert forall i :: 0 <= i < |recs| ==> (recs + [l])[i] == recs[i];
  }

  lemma PagesAreRanges(l: Line, p: nat)
    ensures PageOf(l) == p <==> InPage(l, p)
    ensures IsWrite(l) <==> l.addr % 2 == 1
  {}

  lemma {:induction false} WritesAreOdd(recs: seq<Line>, p: nat)
    ensures Writes(recs, p) == |PositionsOf(recs, p, true)|
    ensures Touches(recs, p) - Writes(recs, p) == |PositionsOf(recs, p, false)|
    decreases |recs|
  {
    if |recs| == 0 {
      assert PositionsOf(recs, p, true) == {} && PositionsOf(recs, p, false) == {};
    } else {
      var n := |recs| - 1;
      WritesAreOdd(recs[..n], p);
      PositionsMore(recs[..n], recs[n], p, true);
      PositionsMore(recs[..n], recs[n], p, false);
      PagesAreRanges(recs[n], p);
      hide PositionsOf, PageOf, InPage;
      assert recs[..n] + [recs[n]] == recs;
    }
  }

  /** The number of accesses to page `p`, and of those that are writes. */
  function Touches(recs: seq<Line>, p: nat): (r: nat)
    ensures r > 0 <==> exists i :: 0 <= i < |recs| && PageOf(recs[i]) == p
  {
    if |recs| == 0 then 0
    else Touches(recs[..|recs| - 1], p) + if PageOf(recs[|recs| - 1]) == p then 1 else 0
  }

  function Writes(recs: seq<Line>, p: nat): (r: nat)
    ensures r <= Touches(recs, p)
    ensures r > 0 <==> exists i :: 0 <= i < |recs| && InPage(recs[i], p) && recs[i].addr % 2 == 1
  {
    if |recs| == 0 then 0
    else
      var l := recs[|recs| - 1];
      Writes(recs[..|recs| - 1], p) + if PageOf(l) == p && IsWrite(l) then 1 else 0
  }

  /** The sampled count of a page, and when it last went up. */
  datatype Sample = Sample(count: nat, last: U64)

  function Sampled(recs: seq<Line>, first: U64, p: nat): Sample {
    if |recs| == 0 then Sample(0, 0)
    else
      var l, s := recs[|recs| - 1], Sampled(recs[..|recs| - 1], first, p);
      if PageOf(l) == p && !InSamePeriod(s.last, l.icount, first) then Sample(s.count + 1, l.icount) else s
  }

  /******* Windows *******/

  function Window(l: Line, first: U64): nat { (l.icount - first) % WRAP / SAMPLING_PERIOD }

  /** The last window, which the 64-bit counter cannot complete. */
  const TOP: nat := (WRAP - 1) / SAMPLING_PERIOD

  /** The program cannot recognise a second touch in this window: it takes 0 for "none", and the end of the last
      window wraps around. */
  predicate Blind(l: Line, first: U64) {
    l.icount == 0 || Window(l, first) == TOP
  }

  predicate InOrder(recs: seq<Line>, first: U64) {
    && (forall i :: 0 <= i < |recs| ==> first <= recs[i].icount)
    && (forall i, j :: 0 <= i <= j < |recs| ==> recs[i].icount <= recs[j].icount)
  }

  function BlindTouches(recs: seq<Line>, first: U64, p: nat): nat {
    if |recs| == 0 then 0
    else
      var l := recs[|recs| - 1];
      BlindTouches(recs[..|recs| - 1], first, p) + if PageOf(l) == p && Blind(l, first) then 1 else 0
  }

  /** The windows in which page `p` is touched: all of them, and those of touches that are not blind. */
  function Windows(recs: seq<Line>, first: U64, p: nat): set<nat> {
    set i | 0 <= i < |recs| && PageOf(recs[i]) == p :: Window(recs[i], first)
  }

  function ClearWindows(recs: seq<Line>, first: U64, p: nat): set<nat> {
    set i | 0 <= i < |recs| && PageOf(recs[i]) == p && !Blind(recs[i], first) :: Window(recs[i], first)
  }

  /** What the remembered instruction count says about the windows seen. */
  ghost predicate Recalls(last: U64, clear: set<nat>, first: U64) {
    && (last == 0 ==> clear == {})
    && (last > 0 ==> first <= last)
    && (last > 0 && (last - first) / SAMPLING_PERIOD < TOP ==>
          && (last - first) / SAMPLING_PERIOD in clear
          && forall w :: w in clear ==> w <= (last - first) / SAMPLING_PERIOD)
  }

  lemma SamePeriodIs(a: U64, b: U64, first: U64)
    requires a == 0 || first <= a <= b
    requires first <= b
    ensures InSamePeriod(a, b, first) <==>
      a != 0 && (a - first) / SAMPLING_PERIOD < TOP && (b - first) / SAMPLING_PERIOD == (a - first) / SAMPLING_PERIOD
  {
    assert (b - first) % WRAP == b - first;
    if a != 0 {
      assert (a - first) % WRAP == a - first;
      var q := (a - first) / SAMPLING_PERIOD;
      if q < TOP {
        assert (q + 1) * SAMPLING_PERIOD % WRAP == (q + 1) * SAMPLING_PERIOD;
      } else {
        assert q == TOP && (q + 1) * SAMPLING_PERIOD % WRAP == (TOP + 1) * SAMPLING_PERIOD - WRAP;
      }
    }
  }

  lemma OneMoreTouch(recs: seq<Line>, l: Line, first: U64, p: nat)
    ensures Sampled(recs + [l], first, p) ==
      var s := Sampled(recs, first, p);
      if PageOf(l) == p && !InSamePeriod(s.last, l.icount, first) then Sample(s.count + 1, l.icount) else s
    ensures BlindTouches(recs + [l], first, p) ==
      BlindTouches(recs, first, p) + if PageOf(l) == p && Blind(l, first) then 1 else 0
    ensures ClearWindows(recs + [l], first, p) ==
      ClearWindows(recs, first, p) + if PageOf(l) == p && !Blind(l, first) then {Window(l, first)} else {}
    ensures Windows(recs + [l], first, p) ==
      Windows(recs, first, p) + if PageOf(l) == p then {Window(l, first)} else {}
  {}

  /** A touch of the page counts once if it is blind or opens a window, and not at all otherwise. */
  lemma TouchCounts(last: U64, clear: set<nat>, first: U64, l: Line)
    requires Recalls(last, clear, first) && first <= l.icount && last <= l.icount
    ensures var now := if InSamePeriod(last, l.icount, first) then last else l.icount;
      var clear' := clear + if Blind(l, first) then {} else {Window(l, first)};
      && Recalls(now, clear', first)
      && (if InSamePeriod(last, l.icount, first) then 0 else 1) + |clear| == |clear'| + (if Blind(l, first) then 1 else 0)
  {
    SamePeriodIs(last, l.icount, first);
    hide InSamePeriod;
    assert Window(l, first) == (l.icount - first) / SAMPLING_PERIOD <= TOP;
    if last > 0 { assert (last - first) / SAMPLING_PERIOD <= Window(l, first); }
    hide Window;
    if Window(l, first) in clear { assert clear + {Window(l, first)} == clear; }
  }

  lemma OrderPrefix(recs: seq<Line>, first: U64)
    requires InOrder(recs, first) && |recs| > 0
    ensures InOrder(recs[..|recs| - 1], first)
  {}

  /** The remembered count never runs ahead of the trace. */
  lemma {:induction false} LastIsPast(recs: seq<Line>, first: U64, p: nat, l: Line)
    requires InOrder(recs + [l], first)
    ensures Sampled(recs, first, p).last <= l.icount
    decreases |recs|
  {
    if |recs| > 0 {
      var n := |recs| - 1;
      assert (recs + [l])[n] == recs[n] && (recs + [l])[n + 1] == l;
      assert recs[..n] + [recs[n]] == (recs + [l])[..n + 1];
      OrderPrefix(recs + [l], first);
      LastIsPast(recs[..n], first, p, recs[n]);
    }
  }

  lemma SampledStep(h: seq<Line>, l: Line, first: U64, p: nat)
    requires InOrder(h + [l], first)
    requires Recalls(Sampled(h, first, p).last, ClearWindows(h, first, p), first)
    requires Sampled(h, first, p).count == |ClearWindows(h, first, p)| + BlindTouches(h, first, p)
    ensures var recs := h + [l];
      && Recalls(Sampled(recs, first, p).last, ClearWindows(recs, first, p), first)
      && Sampled(recs, first, p).count == |ClearWindows(recs, first, p)| + BlindTouches(recs, first, p)
  {
    assert (h + [l])[|h|] == l;
    hide Sampled, BlindTouches, ClearWindows, Windows, Recalls, InSamePeriod, Blind, Window, PageOf;
    OneMoreTouch(h, l, first, p);
    if PageOf(l) == p {
      LastIsPast(h, first, p, l);
      TouchCounts(Sampled(h, first, p).last, ClearWindows(h, first, p), first, l);
    } else {
      assert ClearWindows(h, first, p) + {} == ClearWindows(h, first, p);
    }
  }

  /** The sampled count of a page is the number of windows in which it is touched, except that blind touches each
      count for themselves. */
  lemma {:induction false} SampledIs(recs: seq<Line>, first: U64, p: nat)
    requires InOrder(recs, first)
    ensures Recalls(Sampled(recs, first, p).last, ClearWindows(recs, first, p), first)
    ensures Sampled(recs, first, p).count == |ClearWindows(recs, first, p)| + BlindTouches(recs, first, p)
    decreases |recs|
  {
    if |recs| == 0 {
      assert ClearWindows(recs, first, p) == {};
    } else {
      hide Sampled, BlindTouches, ClearWindows, Recalls;
      var n := |recs| - 1;
      assert recs[..n] + [recs[n]] == recs;
      OrderPrefix(recs, first);
      SampledIs(recs[..n], first, p);
      SampledStep(recs[..n], recs[n], first, p);
    }
  }

  /******* When sampling counts distinct windows *******/

  /** The touches of page `p` in window 0 at instruction count 0, and those in the last window. */
  function ZeroTouches(recs: seq<Line>, p: nat): nat {
    if |recs| == 0 then 0
    else
      var l := recs[|recs| - 1];
      ZeroTouches(recs[..|recs| - 1], p) + if PageOf(l) == p && l.icount == 0 then 1 else 0
  }

  function TopTouches(recs: seq<Line>, first: U64, p: nat): nat {
    if |recs| == 0 then 0
    else
      var l := recs[|recs| - 1];
      TopTouches(recs[..|recs| - 1], first, p) + if PageOf(l) == p && Window(l, first) == TOP then 1 else 0
  }

  lemma {:induction false} BlindSplit(recs: seq<Line>, first: U64, p: nat)
    requires InOrder(recs, first)
    ensures BlindTouches(recs, first, p) == ZeroTouches(recs, p) + TopTouches(recs, first, p)
    decreases |recs|
  {
    if |recs| > 0 {
      BlindSplit(recs[..|recs| - 1], first, p);
      assert recs[|recs| - 1].icount == 0 ==> Window(recs[|recs| - 1], first) == 0;
    }
  }

  lemma {:induction false} NoTouches(recs: seq<Line>, first: U64, p: nat)
    ensures ZeroTouches(recs, p) == 0 <==> forall i :: 0 <= i < |recs| && PageOf(recs[i]) == p ==> recs[i].icount > 0
    ensures TopTouches(recs, first, p) == 0 <==>
      forall i :: 0 <= i < |recs| && PageOf(recs[i]) == p ==> Window(recs[i], first) != TOP
    decreases |recs|
  {
    hide PageOf, Window;
    if |recs| > 0 {
      var n := |recs| - 1;
      NoTouches(recs[..n], first, p);
      assert forall i :: 0 <= i < n ==> recs[..n][i] == recs[i];
    }
  }

  lemma AllWindows(recs: seq<Line>, first: U64, p: nat)
    requires InOrder(recs, first)
    ensures Windows(recs, first, p) == ClearWindows(recs, first, p)
      + (if ZeroTouches(recs, p) > 0 then {0} else {}) + (if TopTouches(recs, first, p) > 0 then {TOP} else {})
  {
    NoTouches(recs, first, p);
    hide PageOf, Window, TopTouches, ZeroTouches;
    forall i | 0 <= i < |recs| && PageOf(recs[i]) == p && recs[i].icount == 0 ensures Window(recs[i], first) == 0 {
      WindowOfZero(recs, first, i);
    }
  }

  lemma WindowOfZero(recs: seq<Line>, first: U64, i: nat)
    requires InOrder(recs, first) && i < |recs| && recs[i].icount == 0
    ensures Window(recs[i], first) == 0
  {}

  lemma TopIsNotClear(recs: seq<Line>, first: U64, p: nat)
    ensures TOP !in ClearWindows(recs, first, p)
  {
    hide Window;
  }

  lemma CountWindows(clear: set<nat>, zero: bool, top: bool)
    requires TOP !in clear
    ensures |clear + (if zero then {0} else {}) + (if top then {TOP} else {})|
         == |clear| + (if zero && 0 !in clear then 1 else 0) + (if top then 1 else 0)
  {
    var some: set<nat> := if zero then {0} else {};
    if 0 in clear || !zero { assert clear + some == clear; }
    if !top { assert clear + some + {} == clear + some; }
  }

  /** Sampling counts the distinct windows in which a page is touched exactly if the page is touched at most once
      in the last window, and at most once at instruction count 0 and then not again in the first window. */
  lemma SamplingCountsWindows(recs: seq<Line>, first: U64, p: nat)
    requires InOrder(recs, first)
    ensures Sampled(recs, first, p).count == |Windows(recs, first, p)| <==>
      && TopTouches(recs, first, p) <= 1
      && (ZeroTouches(recs, p) == 0 || (ZeroTouches(recs, p) == 1 && 0 !in ClearWindows(recs, first, p)))
  {
    hide ClearWindows, Windows, Sampled, ZeroTouches, TopTouches, BlindTouches, InOrder, Recalls;
    SampledIs(recs, first, p);
    BlindSplit(recs, first, p);
    AllWindows(recs, first, p);
    TopIsNotClear(recs, first, p);
    CountWindows(ClearWindows(recs, first, p), ZeroTouches(recs, p) > 0, TopTouches(recs, first, p) > 0);
  }

  /** A touched page is sampled at least once, whatever its instruction counts, so that the sampled counts know
      every touched page. */
  lemma {:induction false} TouchedIsSampled(recs: seq<Line>, first: U64, p: nat)
    ensures Sampled(recs, first, p).count > 0 <==> Touches(recs, p) > 0
    ensures Sampled(recs, first, p).count == 0 ==> Sampled(recs, first, p).last == 0
    decreases |recs|
  {
    hide PageOf;
    if |recs| > 0 { TouchedIsSampled(recs[..|recs| - 1], first, p); }
  }

  const MAX_SAMPLES: nat := NBILLION / SAMPLING_PERIOD

  /** The program asserts that no page is sampled more than `MAX_SAMPLES` times. For a page this holds exactly if its
      clear windows, its touches at instruction count 0 and its touches in the last window are not more together. */
  lemma BoundHoldsExactlyIf(recs: seq<Line>, first: U64, p: nat)
    requires InOrder(recs, first)
    ensures Sampled(recs, first, p).count <= 5 <==>
      |ClearWindows(recs, first, p)| + ZeroTouches(recs, p) + TopTouches(recs, first, p) <= 5
  {
    SampledIs(recs, first, p);
    BlindSplit(recs, first, p);
  }

  /** All touches of the page are within a billion instructions of the first instruction. */
  predicate WithinPhase(recs: seq<Line>, first: U64, p: nat) {
    forall i :: 0 <= i < |recs| && PageOf(recs[i]) == p ==> recs[i].icount - first < NBILLION
  }

  /** Within a billion instructions only touches at instruction count 0 can break the bound, and a trace that starts
      later has none; a page without them is sampled once in every window in which it is touched. */
  lemma SampledWithinPhase(recs: seq<Line>, first: U64, p: nat)
    requires InOrder(recs, first) && WithinPhase(recs, first, p)
    ensures Sampled(recs, first, p).count <= MAX_SAMPLES <==> |ClearWindows(recs, first, p)| + ZeroTouches(recs, p) <= MAX_SAMPLES
    ensures first > 0 ==> ZeroTouches(recs, p) == 0
    ensures ZeroTouches(recs, p) == 0 ==> Sampled(recs, first, p).count == |Windows(recs, first, p)| <= MAX_SAMPLES
  {
    BoundHoldsExactlyIf(recs, first, p);
    SamplingCountsWindows(recs, first, p);
    NoTouches(recs, first, p);
    FewWindows(recs, first, p);
    hide Sampled, ClearWindows, Windows, PageOf, Window, InOrder, ZeroTouches, TopTouches;
    if first > 0 { StartsLater(recs, first); }
  }

  lemma StartsLater(recs: seq<Line>, first: U64)
    requires InOrder(recs, first) && first > 0
    ensures forall i :: 0 <= i < |recs| ==> recs[i].icount > 0
  {}

  lemma FewWindows(recs: seq<Line>, first: U64, p: nat)
    requires InOrder(recs, first) && WithinPhase(recs, first, p)
    ensures forall i :: 0 <= i < |recs| && PageOf(recs[i]) == p ==> Window(recs[i], first) < MAX_SAMPLES
    ensures |Windows(recs, first, p)| <= MAX_SAMPLES
  {
    hide PageOf;
    assert forall i :: 0 <= i < |recs| && PageOf(recs[i]) == p ==> Window(recs[i], first) < MAX_SAMPLES;
    hide Window, UpTo;
    var few := UpTo(MAX_SAMPLES);
    assert Windows(recs, first, p) <= few;
    Minus(few, Windows(recs, first, p));
  }

  /** A page touched in more windows than a billion instructions have breaks the bound as well, with nothing but
      positive instruction counts: `n` touches, one in each window from the first. */
  lemma LongPhaseBreaksTheBound(recs: seq<Line>, first: U64, p: nat)
    requires first > 0 && |recs| <= TOP
    requires forall i :: 0 <= i < |recs| ==> PageOf(recs[i]) == p && recs[i].icount == first + i * SAMPLING_PERIOD
    ensures InOrder(recs, first) && Sampled(recs, first, p).count == |recs|
  {
    forall i | 0 <= i < |recs| ensures Window(recs[i], first) == i && !Blind(recs[i], first) { InWindow(recs[i], first, i); }
    hide Window, PageOf, Blind;
    assert InOrder(recs, first) by {
      forall i, j | 0 <= i <= j < |recs| ensures first <= recs[i].icount <= recs[j].icount {
        assert i * SAMPLING_PERIOD <= j * SAMPLING_PERIOD;
      }
    }
    SamplingCountsWindows(recs, first, p);
    NoTouches(recs, first, p);
    EachWindow(recs, first, p);
  }

  lemma InWindow(l: Line, first: U64, i: nat)
    requires first > 0 && l.icount == first + i * SAMPLING_PERIOD && i < TOP
    ensures Window(l, first) == i && !Blind(l, first)
  {}

  lemma EachWindow(recs: seq<Line>, first: U64, p: nat)
    requires forall i :: 0 <= i < |recs| ==> PageOf(recs[i]) == p && Window(recs[i], first) == i
    ensures |Windows(recs, first, p)| == |recs|
  {
    hide Window, PageOf;
    forall w: nat ensures w in Windows(recs, first, p) <==> w < |recs| {
      if w < |recs| { assert Window(recs[w], first) == w; }
    }
    assert Windows(recs, first, p) == UpTo(|recs|);
  }

  /** Any number of touches at instruction count 0 are all sampled, although they share a window: six of them break
      the bound that the program asserts. */
  lemma {:induction false} ZeroCountsBreakTheBound(recs: seq<Line>, p: nat)
    requires forall i :: 0 <= i < |recs| ==> recs[i].icount == 0 && PageOf(recs[i]) == p
    ensures Sampled(recs, 0, p) == Sample(|recs|, 0) && |Windows(recs, 0, p)| <= 1 && InOrder(recs, 0)
  {
    if |recs| > 0 {
      ZeroCountsBreakTheBound(recs[..|recs| - 1], p);
      assert Windows(recs, 0, p) <= {0};
      Minus({0}, Windows(recs, 0, p));
    }
  }

  /******* The thread's loop *******/

  /** What a thread hands over: accesses, and per page the accesses, reads, writes and sampled accesses; for the
      shared totals, the reads and writes again, without the pages that have none. */
  datatype Tally = Tally(
    accesses: nat, all: map<nat, nat>, rds: map<nat, nat>, wrs: map<nat, nat>, sampled: map<nat, nat>,
    rdsTmp: map<nat, nat>, wrsTmp: map<nat, nat>, last: map<nat, U64>)

  ghost predicate TallyAt(t: Tally, recs: seq<Line>, first: U64, p: nat) {
    CountedAt(t, recs, p) && SampledAt(t, recs, first, p)
  }

  ghost predicate CountedAt(t: Tally, recs: seq<Line>, p: nat) {
    && Get(t.all, p) == Touches(recs, p)
    && Get(t.wrs, p) == Get(t.wrsTmp, p) == Writes(recs, p)
    && Get(t.rds, p) == Get(t.rdsTmp, p) == Touches(recs, p) - Writes(recs, p)
    && (p in t.all <==> Touches(recs, p) > 0)
    && (p in t.rds <==> p in t.all) && (p in t.wrs <==> p in t.all)
  }

  ghost predicate SampledAt(t: Tally, recs: seq<Line>, first: U64, p: nat) {
    && Get(t.sampled, p) == Sampled(recs, first, p).count && LastOf(t, p) == Sampled(recs, first, p).last
    && (p in t.sampled ==> Get(t.sampled, p) > 0)
  }

  function LastOf(t: Tally, p: nat): U64 {
    if p in t.last then t.last[p] else 0
  }

  ghost predicate TallyOf(t: Tally, recs: seq<Line>, first: U64) {
    t.accesses == Total(t.all) == |recs| && forall p :: TallyAt(t, recs, first, p)
  }

  /** Per page, the tally counts the accesses at odd addresses as writes and those at even addresses as reads. */
  ghost predicate CountsAddresses(t: Tally, recs: seq<Line>) {
    forall p :: Get(t.wrs, p) == |PositionsOf(recs, p, true)| && Get(t.rds, p) == |PositionsOf(recs, p, false)|
  }

  lemma TallyCounts(t: Tally, recs: seq<Line>, first: U64)
    requires TallyOf(t, recs, first)
    ensures CountsAddresses(t, recs)
  {
    hide PositionsOf;
    forall p ensures Get(t.wrs, p) == |PositionsOf(recs, p, true)| && Get(t.rds, p) == |PositionsOf(recs, p, false)| {
      assert TallyAt(t, recs, first, p);
      WritesAreOdd(recs, p);
    }
  }

  /** The tally after one more access. */
  ghost predicate OneMore(t: Tally, t': Tally, l: Line, first: U64) {
    var p := PageOf(l);
    var last := LastOf(t, p);
    && t'.accesses == t.accesses + 1
    && t'.all == t.all[p := Get(t.all, p) + 1]
    && t'.rds == t.rds[p := Get(t.rds, p) + if IsWrite(l) then 0 else 1]
    && t'.wrs == t.wrs[p := Get(t.wrs, p) + if IsWrite(l) then 1 else 0]
    && t'.rdsTmp == (if IsWrite(l) then t.rdsTmp else t.rdsTmp[p := Get(t.rdsTmp, p) + 1])
    && t'.wrsTmp == (if IsWrite(l) then t.wrsTmp[p := Get(t.wrsTmp, p) + 1] else t.wrsTmp)
    && t'.sampled == (if InSamePeriod(last, l.icount, first) then t.sampled else t.sampled[p := Get(t.sampled, p) + 1])
    && t'.last == t.last[p := if InSamePeriod(last, l.icount, first) then last else l.icount]
  }

  lemma OneMoreTally(t: Tally, t': Tally, recs: seq<Line>, l: Line, first: U64)
    requires TallyOf(t, recs, first) && OneMore(t, t', l, first)
    ensures TallyOf(t', recs + [l], first)
  {
    hide OneMore, TallyAt, Total, Get;
    forall p ensures TallyAt(t', recs + [l], first, p) { OneMoreTallyAt(t, t', recs, l, first, p); }
    OneMoreAccess(t, t', l, first);
  }

  lemma OneMoreAccess(t: Tally, t': Tally, l: Line, first: U64)
    requires OneMore(t, t', l, first)
    ensures t'.accesses == t.accesses + 1 && Total(t'.all) == Total(t.all) + 1
  {
    TotalPut(t.all, PageOf(l), Get(t.all, PageOf(l)) + 1);
  }

  lemma OneMoreTallyAt(t: Tally, t': Tally, recs: seq<Line>, l: Line, first: U64, p: nat)
    requires TallyAt(t, recs, first, p) && OneMore(t, t', l, first)
    ensures TallyAt(t', recs + [l], first, p)
  {
    hide CountedAt, SampledAt, OneMore;
    OneMoreCountedAt(t, t', recs, l, first, p);
    OneMoreSampledAt(t, t', recs, l, first, p);
  }

  lemma OneMoreCountedAt(t: Tally, t': Tally, recs: seq<Line>, l: Line, first: U64, p: nat)
    requires CountedAt(t, recs, p) && OneMore(t, t', l, first)
    ensures CountedAt(t', recs + [l], p)
  {
    OneMoreCount(recs, l, p);
    hide InSamePeriod, PageOf, IsWrite, Touches, Writes;
  }

  lemma OneMoreSampledAt(t: Tally, t': Tally, recs: seq<Line>, l: Line, first: U64, p: nat)
    requires SampledAt(t, recs, first, p) && OneMore(t, t', l, first)
    ensures SampledAt(t', recs + [l], first, p)
  {
    OneMoreTouch(recs, l, first, p);
    hide InSamePeriod, PageOf, IsWrite, Sampled, ClearWindows, BlindTouches, Windows, Blind, Window;
  }

  lemma OneMoreCount(recs: seq<Line>, l: Line, p: nat)
    ensures Touches(recs + [l], p) == Touches(recs, p) + if PageOf(l) == p then 1 else 0
    ensures Writes(recs + [l], p) == Writes(recs, p) + if PageOf(l) == p && IsWrite(l) then 1 else 0
  {}

  lemma NothingRead(first: U64)
    ensures TallyOf(Tally(0, map[], map[], map[], map[], map[], map[], map[]), [], first)
  {}

  /** Count an access to `page` in the exact counts. */
  method CountAccess(all: map<nat, nat>, rds: map<nat, nat>, wrs: map<nat, nat>, page: nat, isW: bool)
    returns (all': map<nat, nat>, rds': map<nat, nat>, wrs': map<nat, nat>)
    requires page in rds <==> page in all
    requires page in wrs <==> page in all
    ensures all' == all[page := Get(all, page) + 1]
    ensures rds' == rds[page := Get(rds, page) + if isW then 0 else 1]
    ensures wrs' == wrs[page := Get(wrs, page) + if isW then 1 else 0]
  {
    all', rds', wrs' := all, rds, wrs;
    if page !in all {
      all' := all[page := 1];
      if isW { wrs', rds' := wrs[page := 1], rds[page := 0]; } else { rds', wrs' := rds[page := 1], wrs[page := 0]; }
    } else {
      all' := all[page := all[page] + 1];
      if isW { wrs' := wrs[page := wrs[page] + 1]; } else { rds' := rds[page := rds[page] + 1]; }
    }
  }

  lemma SameKeys(t: Tally, recs: seq<Line>, first: U64, p: nat)
    requires TallyOf(t, recs, first)
    ensures (p in t.rds <==> p in t.all) && (p in t.wrs <==> p in t.all)
  {
    assert TallyAt(t, recs, first, p);
  }

  /** Read a thread's trace up to the end of the phase. */
  method ReadTrace(lines: seq<Line>, end: nat) returns (t: Tally)
    requires |lines| > 0
    ensures TallyOf(t, Accesses(lines, end), lines[0].icount) && CountsAddresses(t, Accesses(lines, end))
  {
    hide TallyOf, PageOf, IsWrite, InSamePeriod, Accesses, CountsAddresses;
    var first, k := lines[0].icount, 0;
    t := Tally(0, map[], map[], map[], map[], map[], map[], map[]);
    ghost var recs := [];
    NothingRead(first);
    while k < |lines|
      invariant k <= |lines|
      invariant TallyOf(t, recs, first)
      invariant recs + Accesses(lines[k..], end) == Accesses(lines, end)
    {
      var l := lines[k];
      NextAccess(lines, end, k, recs);
      k := k + 1;
      if l.addr == PHASE_MARK {
        if l.icount >= end { break; }
        continue;
      }
      t := Record(t, l, first, recs);
      recs := recs + [l];
    }
    if k == |lines| { NoMoreAccesses(lines, end, recs); }
    TallyCounts(t, recs, first);
  }

  lemma NextAccess(lines: seq<Line>, end: nat, k: nat, recs: seq<Line>)
    requires k < |lines|
    ensures var l := lines[k]; var all := recs + Accesses(lines[k..], end);
      && (l.addr == PHASE_MARK && l.icount >= end ==> all == recs)
      && (l.addr == PHASE_MARK && l.icount < end ==> all == recs + Accesses(lines[k + 1..], end))
      && (l.addr != PHASE_MARK ==> all == recs + [l] + Accesses(lines[k + 1..], end))
  {
    assert lines[k..][1..] == lines[k + 1..];
  }

  lemma NoMoreAccesses(lines: seq<Line>, end: nat, recs: seq<Line>)
    ensures recs + Accesses(lines[|lines|..], end) == recs
  {}

  /** Sample an access if it is the first one of its page in its window. */
  method SampleAccess(sampled: map<nat, nat>, last: map<nat, U64>, page: nat, icount: U64, first: U64)
    returns (sampled': map<nat, nat>, last': map<nat, U64>)
    ensures var seen := if page in last then last[page] else 0;
      && sampled' == (if InSamePeriod(seen, icount, first) then sampled else sampled[page := Get(sampled, page) + 1])
      && last' == last[page := if InSamePeriod(seen, icount, first) then seen else icount]
  {
    hide InSamePeriod;
    sampled', last' := sampled, last;
    if page !in last' { last' := last'[page := 0]; }
    if !InSamePeriod(last'[page], icount, first) {
      sampled' := sampled[page := Get(sampled, page) + 1];
      last' := last'[page := icount];
    }
  }

  /** Count one access. */
  method Record(before: Tally, l: Line, first: U64, ghost recs: seq<Line>) returns (t: Tally)
    requires TallyOf(before, recs, first)
    ensures TallyOf(t, recs + [l], first) && CountsAddresses(t, recs + [l])
  {
    hide TallyOf, PageOf, IsWrite, InSamePeriod, Get, CountsAddresses;
    var page, isW := PageOf(l), IsWrite(l);
    SameKeys(before, recs, first, page);
    var all, rds, wrs := CountAccess(before.all, before.rds, before.wrs, page, isW);
    var wrsTmp := if isW then before.wrsTmp[page := Get(before.wrsTmp, page) + 1] else before.wrsTmp;
    var rdsTmp := if isW then before.rdsTmp else before.rdsTmp[page := Get(before.rdsTmp, page) + 1];
    var sampled, last := SampleAccess(before.sampled, before.last, page, l.icount, first);
    t := Tally(before.accesses + 1, all, rds, wrs, sampled, rdsTmp, wrsTmp, last);
    OneMoreTally(before, t, recs, l, first);
    TallyCounts(t, recs + [l], first);
  }
}
