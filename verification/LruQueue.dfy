/** The metadata cache: each set keeps its lines in a table and their tags in a queue, least recent first. */
module LruQueue {
  import opened Mesi
  import opened Counting
  import opened Recency

  datatype Line = Line(valid: bool, dirty: bool)

  /** What the counters count. */
  datatype Count = Accessed | EffRead | EffWrite | HitL1 | MissL1 | DramAccess | DramRead | DramWrite | WrittenBack

  /** One set: lines by tag, the queue of tags, and the number of valid lines. */
  datatype Bank = Bank(lines: map<U64, Line>, queue: seq<U64>, entries: nat)

  const EMPTY_BANK := Bank(map[], [], 0)

  function LineOf(b: Bank, tag: U64): Line {
    if tag in b.lines then b.lines[tag] else Line(false, false)
  }

  function OnHit(b: Bank, tag: U64, isW: bool): Bank {
    Bank(b.lines[tag := Line(true, LineOf(b, tag).dirty || isW)], Remove(b.queue, tag) + [tag], b.entries)
  }

  /** A full set loses its least recently used line. */
  function Evicted(b: Bank, cap: nat): Bank {
    if b.entries == cap && |b.queue| > 0 && b.entries > 0 then
      Bank(b.lines[b.queue[0] := Line(false, false)], b.queue[1..], b.entries - 1)
    else b
  }

  function OnMiss(b: Bank, tag: U64, isW: bool, cap: nat): Bank {
    var e := Evicted(b, cap);
    Bank(e.lines[tag := Line(true, LineOf(e, tag).dirty || isW)], e.queue + [tag], e.entries + 1)
  }

  function AccessBank(b: Bank, tag: U64, isW: bool, cap: nat): Bank {
    if LineOf(b, tag).valid then OnHit(b, tag, isW) else OnMiss(b, tag, isW, cap)
  }

  datatype Access = Access(tag: U64, isW: bool)

  function RunBank(h: seq<Access>, cap: nat): Bank {
    if |h| == 0 then EMPTY_BANK
    else AccessBank(RunBank(h[..|h| - 1], cap), h[|h| - 1].tag, h[|h| - 1].isW, cap)
  }

  /******* What holds of every set *******/

  ghost predicate BankOK(b: Bank, cap: nat) {
    && NoDup(b.queue) && |b.queue| == b.entries <= cap
    && (forall t :: LineOf(b, t).valid <==> t in b.queue)
    && (forall t :: LineOf(b, t).dirty ==> LineOf(b, t).valid)
  }

  lemma AccessKeeps(b: Bank, tag: U64, isW: bool, cap: nat)
    requires BankOK(b, cap) && cap > 0
    ensures BankOK(AccessBank(b, tag, isW, cap), cap)
  {
    if LineOf(b, tag).valid {
      RemoveIs(b.queue, tag);
    } else {
      EvictedKeeps(b, cap);
    }
  }

  lemma EvictedKeeps(b: Bank, cap: nat)
    requires BankOK(b, cap) && cap > 0
    ensures BankOK(Evicted(b, cap), cap) && Evicted(b, cap).entries < cap
    ensures forall t :: LineOf(Evicted(b, cap), t).valid ==> LineOf(b, t).valid
    ensures Evicted(b, cap).queue == if |b.queue| == cap then b.queue[1..] else b.queue
  {
    var e := Evicted(b, cap);
    if b.entries == cap {
      forall t: U64 ensures t in e.queue <==> t in b.queue && t != b.queue[0] {
        if t in b.queue && t != b.queue[0] {
          var i :| 0 <= i < |b.queue| && b.queue[i] == t;
          assert b.queue[1..][i - 1] == t;
        }
      }
      forall t: U64
        ensures LineOf(e, t).valid <==> t in e.queue
        ensures LineOf(e, t).dirty ==> LineOf(e, t).valid
      {
        assert LineOf(b, t).valid <==> t in b.queue;
        assert t != b.queue[0] ==> LineOf(e, t) == LineOf(b, t);
      }
    }
  }

  lemma {:induction false} RunKeeps(h: seq<Access>, cap: nat)
    requires cap > 0
    ensures BankOK(RunBank(h, cap), cap)
    decreases |h|
  {
    if |h| > 0 {
      RunKeeps(h[..|h| - 1], cap);
      hide BankOK, AccessBank;
      AccessKeeps(RunBank(h[..|h| - 1], cap), h[|h| - 1].tag, h[|h| - 1].isW, cap);
    }
  }

  /******* The queue is the recent end of the recency stack *******/

  /** All tags ever accessed, in the order of their last accesses. */
  function Stack(h: seq<Access>): seq<U64> {
    if |h| == 0 then [] else Remove(Stack(h[..|h| - 1]), h[|h| - 1].tag) + [h[|h| - 1].tag]
  }

  function LastOf(q: seq<U64>, n: nat): (r: seq<U64>)
    ensures |r| == if |q| <= n then |q| else n
  {
    if |q| <= n then q else q[|q| - n..]
  }

  lemma {:induction false} RemoveConcat(a: seq<U64>, b: seq<U64>, t: U64)
    ensures Remove(a + b, t) == Remove(a, t) + Remove(b, t)
    decreases |b|
  {
    if |b| == 0 {
      assert a + b == a;
    } else {
      var n := |b| - 1;
      assert (a + b)[..|a + b| - 1] == a + b[..n];
      RemoveConcat(a, b[..n], t);
    }
  }

  predicate WasAccessed(h: seq<Access>, tag: U64) {
    |h| > 0 && (h[|h| - 1].tag == tag || WasAccessed(h[..|h| - 1], tag))
  }

  lemma {:induction false} WasAccessedIs(h: seq<Access>, tag: U64)
    ensures WasAccessed(h, tag) <==> exists i :: 0 <= i < |h| && h[i].tag == tag
    decreases |h|
  {
    if |h| > 0 {
      var n := |h| - 1;
      WasAccessedIs(h[..n], tag);
      if i :| 0 <= i < |h| && h[i].tag == tag {
        assert i < n ==> h[..n][i].tag == tag;
      }
    }
  }

  lemma {:induction false} StackIs(h: seq<Access>)
    ensures NoDup(Stack(h))
    ensures forall t :: t in Stack(h) <==> WasAccessed(h, t)
    decreases |h|
  {
    if |h| > 0 {
      StackIs(h[..|h| - 1]);
      Touched(Stack(h[..|h| - 1]), h[|h| - 1].tag);
      hide NoDup, Remove;
    }
  }

  lemma Touched(q: seq<U64>, tag: U64)
    requires NoDup(q)
    ensures NoDup(Remove(q, tag) + [tag])
    ensures forall t :: t in Remove(q, tag) + [tag] <==> t in q || t == tag
  {
    RemoveIs(q, tag);
    hide Remove;
  }

  lemma IsLast(rest: seq<U64>, r: seq<U64>, n: nat)
    requires |r| <= n && (|r| == n || rest == [])
    ensures LastOf(rest + r, n) == r
  {}

  /** Touching a tag in the recent end of a stack, or adding it there, gives the recent end of the touched stack. */
  lemma TouchLast(q: seq<U64>, tag: U64, cap: nat)
    requires NoDup(q) && cap > 0
    ensures var r := LastOf(q, cap);
      LastOf(Remove(q, tag) + [tag], cap) ==
        if tag in r then Remove(r, tag) + [tag] else (if |r| == cap then r[1..] else r) + [tag]
  {
    hide Remove;
    var r := LastOf(q, cap);
    var rest := q[..|q| - |r|];
    assert q == rest + r;
    RemoveConcat(rest, r, tag);
    if tag in r {
      TouchInside(q, rest, r, tag);
      IsLast(rest, Remove(r, tag) + [tag], cap);
    } else {
      RemoveAbsent(r, tag);
      AddOutside(Remove(rest, tag), r, tag, cap);
    }
  }

  lemma TouchInside(q: seq<U64>, rest: seq<U64>, r: seq<U64>, tag: U64)
    requires NoDup(q) && q == rest + r && tag in r
    ensures Remove(q, tag) + [tag] == rest + (Remove(r, tag) + [tag])
    ensures |Remove(r, tag) + [tag]| == |r|
  {
    forall i | 0 <= i < |rest| ensures rest[i] != tag {
      var j :| 0 <= j < |r| && r[j] == tag;
      assert q[i] == rest[i] && q[|rest| + j] == tag;
    }
    assert NoDup(r) by {
      forall i, j | 0 <= i < j < |r| ensures r[i] != r[j] { assert q[|rest| + i] == r[i] && q[|rest| + j] == r[j]; }
    }
    RemoveConcat(rest, r, tag);
    RemoveAbsent(rest, tag);
    RemoveIs(r, tag);
  }

  lemma AddOutside(rest: seq<U64>, r: seq<U64>, tag: U64, cap: nat)
    requires |r| <= cap && cap > 0 && (|r| == cap || rest == [])
    ensures LastOf(rest + r + [tag], cap) == (if |r| == cap then r[1..] else r) + [tag]
  {}

  /** At every point the queue holds the most recent tags, as many as there are ways. */
  lemma {:induction false} QueueIsRecent(h: seq<Access>, cap: nat)
    requires cap > 0
    ensures RunBank(h, cap).queue == LastOf(Stack(h), cap)
    decreases |h|
  {
    if |h| > 0 {
      var n := |h| - 1;
      QueueIsRecent(h[..n], cap);
      RunKeeps(h[..n], cap);
      StackIs(h[..n]);
      EvictedKeeps(RunBank(h[..n], cap), cap);
      hide Evicted, Remove, NoDup, LastOf;
      TouchLast(Stack(h[..n]), h[n].tag, cap);
    }
  }

  /******* Reuse distance *******/

  /** The other tags accessed since the last access to `tag`. */
  function Since(h: seq<Access>, tag: U64): set<U64> {
    if |h| == 0 || h[|h| - 1].tag == tag then {} else Since(h[..|h| - 1], tag) + {h[|h| - 1].tag}
  }

  /** What lies above a tag in the stack is what has been accessed since. */
  lemma {:induction false} AboveIsSince(h: seq<Access>, tag: U64) returns (below: seq<U64>, above: seq<U64>)
    requires tag in Stack(h)
    ensures Stack(h) == below + [tag] + above && Elements(above) == Since(h, tag)
    decreases |h|
  {
    hide NoDup, Remove, Elements;
    var n := |h| - 1;
    StackIs(h[..n]);
    var top := h[n].tag;
    if top == tag {
      below, above := Remove(Stack(h[..n]), tag), [];
      assert Elements<U64>([]) == {} by { NoElements(); }
    } else {
      StackIs(h);
      below, above := AboveIsSince(h[..n], tag);
      RemoveOther(below, tag, above, top);
      ElementsTouched(above, top);
      below, above := Remove(below, top), Remove(above, top) + [top];
    }
  }

  lemma NoElements()
    ensures Elements<U64>([]) == {}
  {}

  lemma RemoveOther(below: seq<U64>, tag: U64, above: seq<U64>, top: U64)
    requires top != tag
    ensures Remove(below + [tag] + above, top) + [top] == Remove(below, top) + [tag] + (Remove(above, top) + [top])
  {
    RemoveAbsent([tag], top);
    RemoveConcat(below + [tag], above, top);
    RemoveConcat(below, [tag], top);
    hide Remove;
  }

  lemma {:induction false} InRemoved(q: seq<U64>, l: U64, x: U64)
    ensures x in Remove(q, l) <==> x in q && x != l
    decreases |q|
  {
    if |q| > 0 {
      InRemoved(q[..|q| - 1], l, x);
      assert q == q[..|q| - 1] + [q[|q| - 1]];
    }
  }

  lemma ElementsTouched(q: seq<U64>, top: U64)
    ensures Elements(Remove(q, top) + [top]) == Elements(q) + {top}
  {
    hide Remove;
    forall x ensures x in Remove(q, top) + [top] <==> x in q || x == top { InRemoved(q, top, x); }
  }

  /** A tag hits exactly if it was accessed before, and since then fewer other tags of its set than there are ways. */
  lemma HitIsShortReuse(h: seq<Access>, tag: U64, cap: nat)
    requires cap > 0
    ensures LineOf(RunBank(h, cap), tag).valid <==> (exists i :: 0 <= i < |h| && h[i].tag == tag) && |Since(h, tag)| < cap
  {
    RunKeeps(h, cap);
    QueueIsRecent(h, cap);
    StackIs(h);
    WasAccessedIs(h, tag);
    var s := Stack(h);
    assert LineOf(RunBank(h, cap), tag).valid <==> tag in LastOf(s, cap);
    hide RunBank, Stack, LastOf;
    if tag in s {
      var below, above := AboveIsSince(h, tag);
      TagAt(below, tag, above, cap);
    } else {
      LastIsPart(s, tag, cap);
    }
  }

  lemma LastIsPart(q: seq<U64>, tag: U64, n: nat)
    ensures tag in LastOf(q, n) ==> tag in q
  {}

  lemma TagAt(below: seq<U64>, tag: U64, above: seq<U64>, n: nat)
    requires NoDup(below + [tag] + above)
    ensures tag in LastOf(below + [tag] + above, n) <==> |Elements(above)| < n
  {
    var q := below + [tag] + above;
    assert q[|below|] == tag;
    assert NoDup(above) by {
      forall i, j | 0 <= i < j < |above| ensures above[i] != above[j] {
        assert q[|below| + 1 + i] == above[i] && q[|below| + 1 + j] == above[j];
      }
    }
    NoDupSize(above);
    if |above| < n && |q| > n { assert LastOf(q, n)[|below| - (|q| - n)] == tag; }
  }

  /** More ways never lose a hit. */
  lemma MoreWaysKeepHits(h: seq<Access>, tag: U64, few: nat, many: nat)
    requires 0 < few <= many && LineOf(RunBank(h, few), tag).valid
    ensures LineOf(RunBank(h, many), tag).valid
  {
    HitIsShortReuse(h, tag, few);
    HitIsShortReuse(h, tag, many);
  }
}
