/** The metadata cache as a whole: sets selected by the low bits of the page frame number, and traffic counters. */
module MetadataCache {
  import opened Mesi
  import opened Counting
  import opened Recency
  import opened SetIndex
  import opened LruQueue

  datatype Request = Request(pfn: U64, isW: bool)

  datatype Cache = Cache(banks: seq<Bank>, counts: multiset<Count>)

  function Empty(sets: nat): Cache {
    Cache(Repeat(EMPTY_BANK, sets), multiset{})
  }

  function TagOf(pfn: U64, sets: nat): U64
    requires sets > 0
  {
    pfn / sets
  }

  predicate Hits(c: Cache, pfn: U64)
    requires |c.banks| > 0
  {
    LineOf(c.banks[pfn % |c.banks|], TagOf(pfn, |c.banks|)).valid
  }

  /** The line that a miss in this set throws out is dirty. */
  predicate LosesDirty(b: Bank, cap: nat) {
    b.entries == cap && |b.queue| > 0 && LineOf(b, b.queue[0]).dirty
  }

  /** What an access to a set counts. */
  function Events(b: Bank, tag: U64, isW: bool, cap: nat): multiset<Count> {
    var hit, wb := LineOf(b, tag).valid, if !LineOf(b, tag).valid && LosesDirty(b, cap) then 1 else 0;
    var rd := if !hit && !isW then 1 else 0;
    multiset{}[Accessed := 1][EffRead := if isW then 0 else 1][EffWrite := if isW then 1 else 0]
    [HitL1 := if hit then 1 else 0][MissL1 := if hit then 0 else 1]
    [DramAccess := wb + rd][DramRead := rd][DramWrite := wb][WrittenBack := wb]
  }

  function WriteBack(dirty: bool): multiset<Count> {
    if dirty then multiset{DramAccess, DramWrite, WrittenBack} else multiset{}
  }

  function Fetch(isW: bool): multiset<Count> {
    if isW then multiset{} else multiset{DramAccess, DramRead}
  }

  function Step(c: Cache, r: Request, cap: nat): Cache
    requires |c.banks| > 0
  {
    var i, tag := r.pfn % |c.banks|, TagOf(r.pfn, |c.banks|);
    Cache(c.banks[i := AccessBank(c.banks[i], tag, r.isW, cap)], c.counts + Events(c.banks[i], tag, r.isW, cap))
  }

  function Run(h: seq<Request>, sets: nat, cap: nat): (c: Cache)
    requires sets > 0
    ensures |c.banks| == sets
  {
    if |h| == 0 then Empty(sets) else Step(Run(h[..|h| - 1], sets, cap), h[|h| - 1], cap)
  }

  /** The accesses of a run that go to set `i`. */
  function ToSet(h: seq<Request>, i: nat, sets: nat): seq<Access>
    requires sets > 0
  {
    if |h| == 0 then []
    else
      var r := h[|h| - 1];
      ToSet(h[..|h| - 1], i, sets) + if r.pfn % sets == i then [Access(TagOf(r.pfn, sets), r.isW)] else []
  }

  lemma SetStep(h: seq<Request>, i: nat, sets: nat, cap: nat)
    requires i < sets && |h| > 0
    ensures var r := h[|h| - 1]; var b := RunBank(ToSet(h[..|h| - 1], i, sets), cap);
      RunBank(ToSet(h, i, sets), cap) == if r.pfn % sets == i then AccessBank(b, TagOf(r.pfn, sets), r.isW, cap) else b
  {
    hide AccessBank, TagOf;
    var before := ToSet(h[..|h| - 1], i, sets);
    if h[|h| - 1].pfn % sets == i {
      assert ToSet(h, i, sets)[..|before|] == before;
    } else {
      assert before + [] == before;
    }
  }

  lemma {:induction false} BanksAreSetRuns(h: seq<Request>, i: nat, sets: nat, cap: nat)
    requires i < sets
    ensures Run(h, sets, cap).banks[i] == RunBank(ToSet(h, i, sets), cap)
    decreases |h|
  {
    if |h| > 0 {
      hide AccessBank, Events, RunBank, ToSet, TagOf;
      BanksAreSetRuns(h[..|h| - 1], i, sets, cap);
      SetStep(h, i, sets, cap);
    }
  }

  /******* Reuse distance in page frames *******/

  /** Two page frames of one set have different tags. */
  lemma TagsDiffer(a: U64, b: U64, sets: nat)
    requires sets > 0 && a % sets == b % sets && TagOf(a, sets) == TagOf(b, sets)
    ensures a == b
  {
    assert a == sets * (a / sets) + a % sets && b == sets * (b / sets) + b % sets;
  }

  /** The page frame was asked for before. */
  predicate WasAsked(h: seq<Request>, pfn: U64) {
    exists k :: 0 <= k < |h| && h[k].pfn == pfn
  }

  /** The other page frames with the same remainder that were asked for since it was last asked for. */
  function OthersSince(h: seq<Request>, pfn: U64, sets: nat): set<U64>
    requires sets > 0
  {
    if |h| == 0 || h[|h| - 1].pfn == pfn then {}
    else
      var q := h[|h| - 1].pfn;
      OthersSince(h[..|h| - 1], pfn, sets) + if q % sets == pfn % sets then {q} else {}
  }

  lemma ToSetMore(h: seq<Request>, i: nat, sets: nat)
    requires sets > 0 && |h| > 0
    ensures var r := h[|h| - 1]; var before := ToSet(h[..|h| - 1], i, sets); var after := ToSet(h, i, sets);
      if r.pfn % sets != i then after == before
      else |after| == |before| + 1 && after[|before|] == Access(TagOf(r.pfn, sets), r.isW) && after[..|before|] == before
  {
    hide TagOf;
    var before := ToSet(h[..|h| - 1], i, sets);
    assert before + [] == before;
  }

  lemma {:induction false} AskedIsAccessed(h: seq<Request>, pfn: U64, sets: nat)
    requires sets > 0
    ensures WasAccessed(ToSet(h, pfn % sets, sets), TagOf(pfn, sets)) <==> WasAsked(h, pfn)
    decreases |h|
  {
    if |h| > 0 {
      hide ToSet, TagOf;
      var n := |h| - 1;
      AskedIsAccessed(h[..n], pfn, sets);
      ToSetMore(h, pfn % sets, sets);
      AskedMore(h, pfn);
      if h[n].pfn % sets == pfn % sets && TagOf(h[n].pfn, sets) == TagOf(pfn, sets) { TagsDiffer(h[n].pfn, pfn, sets); }
    }
  }

  lemma AskedMore(h: seq<Request>, pfn: U64)
    requires |h| > 0
    ensures WasAsked(h, pfn) <==> h[|h| - 1].pfn == pfn || WasAsked(h[..|h| - 1], pfn)
  {
    if k :| 0 <= k < |h| && h[k].pfn == pfn {
      assert k < |h| - 1 ==> h[..|h| - 1][k].pfn == pfn;
    }
  }

  function TagsOf(pfns: set<U64>, sets: nat): set<U64>
    requires sets > 0
  {
    set q | q in pfns :: TagOf(q, sets)
  }

  lemma SameNumber(pfns: set<U64>, i: nat, sets: nat)
    requires sets > 0 && forall q :: q in pfns ==> q % sets == i
    ensures |TagsOf(pfns, sets)| == |pfns|
  {
    var f: map<U64, U64> := map q | q in pfns :: TagOf(q, sets);
    forall a, b | a in pfns && b in pfns && f[a] == f[b] ensures a == b { TagsDiffer(a, b, sets); }
    hide TagOf;
    assert f.Values == TagsOf(pfns, sets) by {
      forall t | t in TagsOf(pfns, sets) ensures t in f.Values {
        var q :| q in pfns && TagOf(q, sets) == t;
        assert f[q] == t;
      }
    }
    SameSize(pfns, TagsOf(pfns, sets), f);
  }

  lemma TagsMore(pfns: set<U64>, q: U64, sets: nat)
    requires sets > 0
    ensures TagsOf(pfns + {q}, sets) == TagsOf(pfns, sets) + {TagOf(q, sets)}
  {
    hide TagOf;
  }

  lemma {:induction false} OthersAreTags(h: seq<Request>, pfn: U64, sets: nat)
    requires sets > 0
    ensures Since(ToSet(h, pfn % sets, sets), TagOf(pfn, sets)) == TagsOf(OthersSince(h, pfn, sets), sets)
    ensures forall q :: q in OthersSince(h, pfn, sets) ==> q % sets == pfn % sets
    decreases |h|
  {
    if |h| > 0 {
      hide ToSet, TagOf, TagsOf;
      var n := |h| - 1;
      OthersAreTags(h[..n], pfn, sets);
      ToSetMore(h, pfn % sets, sets);
      TagsMore(OthersSince(h[..n], pfn, sets), h[n].pfn, sets);
      assert OthersSince(h[..n], pfn, sets) + {} == OthersSince(h[..n], pfn, sets);
      if h[n].pfn % sets == pfn % sets && TagOf(h[n].pfn, sets) == TagOf(pfn, sets) { TagsDiffer(h[n].pfn, pfn, sets); }
      if h[n].pfn == pfn { NoTags(sets); }
    } else {
      NoTags(sets);
    }
  }

  lemma NoTags(sets: nat)
    requires sets > 0
    ensures TagsOf({}, sets) == {}
  {}

  /** After any run, an access hits exactly if its page frame was asked for before, and since then fewer other page
      frames with the same remainder than a set has ways. */
  lemma HitIsReuse(h: seq<Request>, pfn: U64, sets: nat, cap: nat)
    requires sets > 0 && cap > 0
    ensures Hits(Run(h, sets, cap), pfn) <==> WasAsked(h, pfn) && |OthersSince(h, pfn, sets)| < cap
  {
    hide Run, ToSet, RunBank, Since, TagOf, OthersSince, WasAsked, WasAccessed, TagsOf;
    var i, tag := pfn % sets, TagOf(pfn, sets);
    BanksAreSetRuns(h, i, sets, cap);
    HitIsShortReuse(ToSet(h, i, sets), tag, cap);
    WasAccessedIs(ToSet(h, i, sets), tag);
    AskedIsAccessed(h, pfn, sets);
    OthersAreTags(h, pfn, sets);
    SameNumber(OthersSince(h, pfn, sets), i, sets);
  }

  /** After any run, every set's queue is free of duplicates, lists exactly the valid tags from least to most recently
      used, and is as long as the set's count of entries, which its ways bound. */
  lemma QueuesAreRecent(h: seq<Request>, i: nat, sets: nat, cap: nat)
    requires i < sets && cap > 0
    ensures var b := Run(h, sets, cap).banks[i];
      && NoDup(b.queue) && |b.queue| == b.entries <= cap
      && (forall t :: LineOf(b, t).valid <==> t in b.queue)
      && b.queue == LastOf(Stack(ToSet(h, i, sets)), cap)
  {
    hide Run, ToSet, RunBank, Stack, LastOf;
    BanksAreSetRuns(h, i, sets, cap);
    RunKeeps(ToSet(h, i, sets), cap);
    QueueIsRecent(ToSet(h, i, sets), cap);
  }

  /******* Counters *******/

  ghost predicate AddUp(n: multiset<Count>, accesses: nat) {
    && n[Accessed] == accesses == n[HitL1] + n[MissL1] == n[EffRead] + n[EffWrite]
    && n[DramAccess] == n[DramRead] + n[DramWrite]
    && n[DramWrite] == n[WrittenBack] <= n[MissL1]
    && n[DramRead] <= n[EffRead]
  }

  /** The requests of a run that hit, that write, and that read and miss. */
  datatype Tally = Tally(hits: nat, writes: nat, readMisses: nat)

  function OneMore(t: Tally, hit: bool, isW: bool): Tally {
    Tally(t.hits + (if hit then 1 else 0), t.writes + (if isW then 1 else 0), t.readMisses + if !hit && !isW then 1 else 0)
  }

  function TallyOf(h: seq<Request>, sets: nat, cap: nat): Tally
    requires sets > 0
  {
    if |h| == 0 then Tally(0, 0, 0)
    else
      var n := |h| - 1;
      OneMore(TallyOf(h[..n], sets, cap), Hits(Run(h[..n], sets, cap), h[n].pfn), h[n].isW)
  }

  ghost predicate Counted(n: multiset<Count>, t: Tally) {
    n[HitL1] == t.hits && n[EffWrite] == t.writes && n[DramRead] == t.readMisses
  }

  lemma CountMore(c: Cache, accesses: nat, t: Tally, r: Request, cap: nat)
    requires |c.banks| > 0 && AddUp(c.counts, accesses) && Counted(c.counts, t)
    ensures var n := Step(c, r, cap).counts; AddUp(n, accesses + 1) && Counted(n, OneMore(t, Hits(c, r.pfn), r.isW))
  {
    hide LosesDirty, LineOf, AccessBank;
  }

  /** Every access hits or misses and reads or writes; hits and writes are counted as such; DRAM is read once for every
      read that misses, and written once for every dirty line thrown out. */
  lemma {:induction false} CountsAddUp(h: seq<Request>, sets: nat, cap: nat)
    requires sets > 0
    ensures AddUp(Run(h, sets, cap).counts, |h|) && Counted(Run(h, sets, cap).counts, TallyOf(h, sets, cap))
    decreases |h|
  {
    hide Step, OneMore, Hits, AddUp, Counted;
    if |h| > 0 {
      CountsAddUp(h[..|h| - 1], sets, cap);
      CountMore(Run(h[..|h| - 1], sets, cap), |h| - 1, TallyOf(h[..|h| - 1], sets, cap), h[|h| - 1], cap);
    } else {
      NothingCounted(sets, cap);
    }
  }

  lemma NothingCounted(sets: nat, cap: nat)
    requires sets > 0
    ensures AddUp(Run([], sets, cap).counts, 0) && Counted(Run([], sets, cap).counts, TallyOf([], sets, cap))
  {}

  function DirtyIn(lines: map<U64, Line>): set<U64> {
    set t | t in lines && lines[t].dirty
  }

  function DirtyTags(b: Bank): set<U64> {
    DirtyIn(b.lines)
  }

  /** The dirty lines of the first `n` sets. */
  function DirtyLines(banks: seq<Bank>, n: nat): nat
    requires n <= |banks|
  {
    if n == 0 then 0 else DirtyLines(banks, n - 1) + |DirtyTags(banks[n - 1])|
  }

  /** The writes of a run that found their line clean or missing. */
  function Dirtied(h: seq<Request>, sets: nat, cap: nat): nat
    requires sets > 0
  {
    if |h| == 0 then 0
    else
      var n := |h| - 1;
      var c, r := Run(h[..n], sets, cap), h[n];
      var b := c.banks[r.pfn % sets];
      Dirtied(h[..n], sets, cap) + if r.isW && !LineOf(b, TagOf(r.pfn, sets)).dirty then 1 else 0
  }

  lemma DirtyInPut(lines: map<U64, Line>, tag: U64, line: Line)
    ensures DirtyIn(lines[tag := line]) - {tag} == DirtyIn(lines) - {tag}
    ensures tag in DirtyIn(lines[tag := line]) <==> line.dirty
  {}

  lemma DirtySet(b: Bank, tag: U64, line: Line)
    ensures |DirtyIn(b.lines[tag := line])| + (if LineOf(b, tag).dirty then 1 else 0)
         == |DirtyTags(b)| + (if line.dirty then 1 else 0)
  {
    assert tag in DirtyTags(b) <==> LineOf(b, tag).dirty;
    DirtyInPut(b.lines, tag, line);
    hide DirtyIn, LineOf;
    Without(DirtyIn(b.lines), tag);
    Without(DirtyIn(b.lines[tag := line]), tag);
  }

  lemma DirtyAfterAccess(b: Bank, tag: U64, isW: bool, cap: nat)
    requires BankOK(b, cap) && cap > 0
    ensures |DirtyTags(AccessBank(b, tag, isW, cap))| + Events(b, tag, isW, cap)[WrittenBack]
         == |DirtyTags(b)| + if isW && !LineOf(b, tag).dirty then 1 else 0
  {
    if LineOf(b, tag).valid {
      DirtySet(b, tag, Line(true, LineOf(b, tag).dirty || isW));
    } else {
      var e := Evicted(b, cap);
      if b.entries == cap { DirtySet(b, b.queue[0], Line(false, false)); }
      DirtySet(e, tag, Line(true, LineOf(e, tag).dirty || isW));
      assert LineOf(e, tag) == LineOf(b, tag);
    }
  }

  lemma {:induction false} DirtyLinesPut(banks: seq<Bank>, i: nat, b: Bank, n: nat)
    requires i < |banks| && n <= |banks|
    ensures DirtyLines(banks[i := b], n) + (if i < n then |DirtyTags(banks[i])| else 0)
         == DirtyLines(banks, n) + (if i < n then |DirtyTags(b)| else 0)
  {
    hide DirtyTags;
    if n > 0 { DirtyLinesPut(banks, i, b, n - 1); }
  }

  lemma {:induction false} NoneDirty(sets: nat, n: nat)
    requires n <= sets
    ensures DirtyLines(Empty(sets).banks, n) == 0
  {
    if n > 0 {
      NoneDirty(sets, n - 1);
      assert DirtyTags(EMPTY_BANK) == {};
    }
  }

  /** Every line that became dirty is still dirty in the cache, or has been written back. */
  lemma {:induction false} WritesBackWhatItDirtied(h: seq<Request>, sets: nat, cap: nat)
    requires sets > 0 && cap > 0
    ensures var c := Run(h, sets, cap); DirtyLines(c.banks, sets) + c.counts[WrittenBack] == Dirtied(h, sets, cap)
    decreases |h|
  {
    if |h| == 0 {
      NoneDirty(sets, sets);
    } else {
      var n := |h| - 1;
      WritesBackWhatItDirtied(h[..n], sets, cap);
      var c, r := Run(h[..n], sets, cap), h[n];
      var i, tag := r.pfn % sets, TagOf(r.pfn, sets);
      BanksAreSetRuns(h[..n], i, sets, cap);
      RunKeeps(ToSet(h[..n], i, sets), cap);
      hide AccessBank, Events, RunBank, ToSet, BankOK, DirtyTags, TagOf, LineOf;
      DirtyAfterAccess(c.banks[i], tag, r.isW, cap);
      DirtyLinesPut(c.banks, i, AccessBank(c.banks[i], tag, r.isW, cap), sets);
    }
  }

  /******* The cache as the program keeps it *******/

  class LruCache {
    /** The set has `2^s` ways, the cache `2^idx` sets. */
    const s: nat
    const idx: nat
    const cache: array<map<U64, Line>>
    const lruQ: array<seq<U64>>
    const setEntries: array<nat>

    var accesses: nat
    var effReads: nat
    var effWrites: nat
    var hits: nat
    var misses: nat
    var dramAccesses: nat
    var dramReads: nat
    var dramWrites: nat
    var writebacks: nat

    ghost predicate Allocated() {
      cache.Length == lruQ.Length == setEntries.Length == Pow2(idx)
    }

    ghost function Counts(): (c: multiset<Count>)
      reads this
      ensures c[Accessed] == accesses && c[EffRead] == effReads && c[EffWrite] == effWrites
      ensures c[HitL1] == hits && c[MissL1] == misses
      ensures c[DramAccess] == dramAccesses && c[DramRead] == dramReads && c[DramWrite] == dramWrites && c[WrittenBack] == writebacks
    {
      multiset{}[Accessed := accesses][EffRead := effReads][EffWrite := effWrites][HitL1 := hits][MissL1 := misses]
      [DramAccess := dramAccesses][DramRead := dramReads][DramWrite := dramWrites][WrittenBack := writebacks]
    }

    ghost function BankAt(i: nat): Bank
      requires Allocated() && i < Pow2(idx)
      reads cache, lruQ, setEntries
    {
      Bank(cache[i], lruQ[i], setEntries[i])
    }

    ghost function Contents(): (c: Cache)
      requires Allocated()
      reads this, cache, lruQ, setEntries
      ensures |c.banks| == Pow2(idx) && c.counts == Counts() && forall i :: 0 <= i < Pow2(idx) ==> c.banks[i] == BankAt(i)
    {
      Cache(seq(Pow2(idx), i requires 0 <= i < Pow2(idx) reads cache, lruQ, setEntries => BankAt(i)), Counts())
    }

    ghost predicate Valid()
      reads cache, lruQ, setEntries
    {
      Allocated() && forall i :: 0 <= i < Pow2(idx) ==> BankOK(BankAt(i), Pow2(s))
    }

    constructor (s: nat, idx: nat)
      ensures this.s == s && this.idx == idx && fresh(cache) && fresh(lruQ) && fresh(setEntries)
      ensures Valid() && Contents() == Empty(Pow2(idx))
    {
      this.s, this.idx := s, idx;
      cache := new map<U64, Line>[Pow2(idx)](_ => map[]);
      lruQ := new seq<U64>[Pow2(idx)](_ => []);
      setEntries := new nat[Pow2(idx)](_ => 0);
      accesses, effReads, effWrites, hits, misses := 0, 0, 0, 0, 0;
      dramAccesses, dramReads, dramWrites, writebacks := 0, 0, 0, 0;
    }

    /** Count one event. */
    method Count(e: Count)
      modifies this
      ensures Counts() == old(Counts()) + multiset{e}
    {
      hide Counts;
      match e {
        case Accessed => accesses := accesses + 1;
        case EffRead => effReads := effReads + 1;
        case EffWrite => effWrites := effWrites + 1;
        case HitL1 => hits := hits + 1;
        case MissL1 => misses := misses + 1;
        case DramAccess => dramAccesses := dramAccesses + 1;
        case DramRead => dramReads := dramReads + 1;
        case DramWrite => dramWrites := dramWrites + 1;
        case WrittenBack => writebacks := writebacks + 1;
      }
      forall x: Count ensures Counts()[x] == (old(Counts()) + multiset{e})[x] {
        match x
        case Accessed => case EffRead => case EffWrite => case HitL1 => case MissL1 =>
        case DramAccess => case DramRead => case DramWrite => case WrittenBack =>
      }
    }

    /** The line of `tag`; a tag that the table does not know counts as an invalid, clean line. */
    method Lookup(i: nat, tag: U64) returns (line: Line)
      requires Allocated() && i < Pow2(idx)
      ensures line == LineOf(BankAt(i), tag)
    {
      line := if tag in cache[i] then cache[i][tag] else Line(false, false);
    }

    method CountWriteBack(dirty: bool)
      modifies this
      ensures Counts() == old(Counts()) + WriteBack(dirty)
    {
      hide Counts;
      if dirty {
        Count(DramAccess);
        Count(DramWrite);
        Count(WrittenBack);
      }
    }

    /** Throw the least recently used line out of set `i`. */
    method EvictLine(i: nat)
      requires Allocated() && i < Pow2(idx) && setEntries[i] == Pow2(s) && BankOK(BankAt(i), Pow2(s))
      modifies this, cache, lruQ, setEntries
      ensures BankAt(i) == Evicted(old(BankAt(i)), Pow2(s))
      ensures forall j :: 0 <= j < Pow2(idx) && j != i ==> BankAt(j) == old(BankAt(j))
      ensures Counts() == old(Counts()) + WriteBack(LosesDirty(old(BankAt(i)), Pow2(s)))
    {
      hide Counts, WriteBack;
      var victim := lruQ[i][0];
      var line := Lookup(i, victim);
      CountWriteBack(line.dirty);
      cache[i] := cache[i][victim := Line(false, false)];
      setEntries[i] := setEntries[i] - 1;
      lruQ[i] := lruQ[i][1..];
    }

    /** `std::list::remove`. */
    method RemoveFromQueue(i: nat, tag: U64)
      requires Allocated() && i < Pow2(idx)
      modifies lruQ
      ensures lruQ[i] == Remove(old(lruQ[i]), tag)
      ensures forall j :: 0 <= j < Pow2(idx) && j != i ==> lruQ[j] == old(lruQ[j])
    {
      var q, kept := lruQ[i], [];
      for k := 0 to |q|
        invariant kept == Remove(q[..k], tag)
      {
        assert q[..k + 1][..k] == q[..k];
        if q[k] != tag { kept := kept + [q[k]]; }
      }
      assert q[..|q|] == q;
      lruQ[i] := kept;
    }

    method Hit(i: nat, tag: U64, isW: bool)
      requires Allocated() && i < Pow2(idx) && LineOf(BankAt(i), tag).valid
      modifies this, cache, lruQ
      ensures BankAt(i) == OnHit(old(BankAt(i)), tag, isW)
      ensures forall j :: 0 <= j < Pow2(idx) && j != i ==> BankAt(j) == old(BankAt(j))
      ensures Counts() == old(Counts()) + multiset{HitL1}
    {
      hide Counts, Remove, BankOK;
      Count(HitL1);
      if isW { cache[i] := cache[i][tag := Line(true, true)]; }
      if tag in lruQ[i] { RemoveFromQueue(i, tag); } else { RemoveAbsent(lruQ[i], tag); }
      lruQ[i] := lruQ[i] + [tag];
    }

    /** Put `tag` into set `i`, which has room for it. */
    method Admit(i: nat, tag: U64, isW: bool)
      requires Allocated() && i < Pow2(idx)
      modifies cache, lruQ, setEntries
      ensures var e := old(BankAt(i));
        BankAt(i) == Bank(e.lines[tag := Line(true, LineOf(e, tag).dirty || isW)], e.queue + [tag], e.entries + 1)
      ensures forall j :: 0 <= j < Pow2(idx) && j != i ==> BankAt(j) == old(BankAt(j))
    {
      setEntries[i] := setEntries[i] + 1;
      lruQ[i] := lruQ[i] + [tag];
      var line := Lookup(i, tag);
      cache[i] := cache[i][tag := Line(true, line.dirty || isW)];
    }

    method MakeRoom(i: nat)
      requires Allocated() && i < Pow2(idx) && BankOK(BankAt(i), Pow2(s))
      modifies this, cache, lruQ, setEntries
      ensures BankAt(i) == Evicted(old(BankAt(i)), Pow2(s))
      ensures forall j :: 0 <= j < Pow2(idx) && j != i ==> BankAt(j) == old(BankAt(j))
      ensures Counts() == old(Counts()) + WriteBack(LosesDirty(old(BankAt(i)), Pow2(s)))
    {
      hide Counts, Evicted, LosesDirty, BankOK, LineOf;
      if setEntries[i] == Pow2(s) { EvictLine(i); } else { NothingToEvict(BankAt(i), Pow2(s)); }
    }

    method CountFetch(isW: bool)
      modifies this
      ensures Counts() == old(Counts()) + Fetch(isW)
    {
      hide Counts;
      if !isW {
        Count(DramAccess);
        Count(DramRead);
      }
    }

    method Miss(i: nat, tag: U64, isW: bool)
      requires Allocated() && i < Pow2(idx) && BankOK(BankAt(i), Pow2(s))
      modifies this, cache, lruQ, setEntries
      ensures BankAt(i) == OnMiss(old(BankAt(i)), tag, isW, Pow2(s))
      ensures forall j :: 0 <= j < Pow2(idx) && j != i ==> BankAt(j) == old(BankAt(j))
      ensures Counts() == old(Counts()) + (multiset{MissL1} + WriteBack(LosesDirty(old(BankAt(i)), Pow2(s))) + Fetch(isW))
    {
      hide Counts, Evicted, LosesDirty, BankOK, LineOf, WriteBack, Fetch;
      Count(MissL1);
      MakeRoom(i);
      Admit(i, tag, isW);
      CountFetch(isW);
    }

    method CountRequest(isW: bool)
      modifies this
      ensures Counts() == old(Counts()) + multiset{Accessed} + multiset{if isW then EffWrite else EffRead}
    {
      hide Counts;
      Count(Accessed);
      if isW { Count(EffWrite); } else { Count(EffRead); }
    }

    method HitOrMissIn(i: nat, tag: U64, isW: bool) returns (hit: bool)
      requires Allocated() && i < Pow2(idx) && BankOK(BankAt(i), Pow2(s))
      modifies this, cache, lruQ, setEntries
      ensures hit == LineOf(old(BankAt(i)), tag).valid
      ensures BankAt(i) == AccessBank(old(BankAt(i)), tag, isW, Pow2(s))
      ensures forall j :: 0 <= j < Pow2(idx) && j != i ==> BankAt(j) == old(BankAt(j))
      ensures Counts() == old(Counts()) + HitOrMiss(old(BankAt(i)), tag, isW, Pow2(s))
    {
      IsHitOrMiss(BankAt(i), tag, isW, Pow2(s));
      hide *;
      var line := Lookup(i, tag);
      hit := line.valid;
      if hit { Hit(i, tag, isW); } else { Miss(i, tag, isW); }
    }

    /** Count the request, and hit or miss in set `i`. */
    method AccessSet(i: nat, tag: U64, isW: bool) returns (hit: bool)
      requires Allocated() && i < Pow2(idx) && BankOK(BankAt(i), Pow2(s))
      modifies this, cache, lruQ, setEntries
      ensures hit == LineOf(old(BankAt(i)), tag).valid
      ensures BankAt(i) == AccessBank(old(BankAt(i)), tag, isW, Pow2(s))
      ensures forall j :: 0 <= j < Pow2(idx) && j != i ==> BankAt(j) == old(BankAt(j))
      ensures Counts() == old(Counts()) + Events(old(BankAt(i)), tag, isW, Pow2(s))
    {
      ghost var b, cap := BankAt(i), Pow2(s);
      EventsAre(b, tag, isW, cap);
      Regroup(Counts(), Accessed, if isW then EffWrite else EffRead, HitOrMiss(b, tag, isW, cap));
      hide *;
      CountRequest(isW);
      assert BankAt(i) == b;
      hit := HitOrMissIn(i, tag, isW);
    }

    /** One access; the result says whether it hits. */
    method AccessCache(pfn: U64, isW: bool) returns (hit: bool)
      requires Valid()
      modifies this, cache, lruQ, setEntries
      ensures Valid() && hit == Hits(old(Contents()), pfn)
      ensures Contents() == Step(old(Contents()), Request(pfn, isW), Pow2(s))
    {
      hide Counts, BankOK, AccessBank, TagOf, Events, LineOf;
      ghost var before := Contents();
      var i, tag := pfn % Pow2(idx), TagOf(pfn, Pow2(idx));
      hit := AccessSet(i, tag, isW);
      AccessKeeps(before.banks[i], tag, isW, Pow2(s));
      assert Contents().banks == Step(before, Request(pfn, isW), Pow2(s)).banks;
    }
  }

  lemma IsHitOrMiss(b: Bank, tag: U64, isW: bool, cap: nat)
    ensures AccessBank(b, tag, isW, cap) == if LineOf(b, tag).valid then OnHit(b, tag, isW) else OnMiss(b, tag, isW, cap)
    ensures HitOrMiss(b, tag, isW, cap) ==
      if LineOf(b, tag).valid then multiset{HitL1} else multiset{MissL1} + WriteBack(LosesDirty(b, cap)) + Fetch(isW)
  {}

  /** What a hit counts, and what a miss counts. */
  function HitOrMiss(b: Bank, tag: U64, isW: bool, cap: nat): multiset<Count> {
    if LineOf(b, tag).valid then multiset{HitL1} else multiset{MissL1} + WriteBack(LosesDirty(b, cap)) + Fetch(isW)
  }

  lemma EventsAre(b: Bank, tag: U64, isW: bool, cap: nat)
    ensures Events(b, tag, isW, cap) ==
      multiset{Accessed} + multiset{if isW then EffWrite else EffRead} + HitOrMiss(b, tag, isW, cap)
  {
    hide LosesDirty, LineOf;
  }

  lemma Regroup<T>(c: multiset<T>, a: T, b: T, m: multiset<T>)
    ensures c + multiset{a} + multiset{b} + m == c + (multiset{a} + multiset{b} + m)
  {}

  lemma NothingToEvict(b: Bank, cap: nat)
    requires b.entries != cap
    ensures Evicted(b, cap) == b && !LosesDirty(b, cap)
  {}
}
