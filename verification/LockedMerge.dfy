/** Threads add their local page counts to one shared table, each update under the table's lock.

    Each thread takes its pages in any order. One update is four steps: take the lock, load the shared count, store the
    sum, release the lock. Steps of different threads interleave freely. */
module LockedMerge {
  import opened Placement

  datatype PC = Idle | Locked(page: nat) | Loaded(page: nat, value: nat) | Stored

  /** The shared table, who holds its lock, and for each thread where it is and which pages it has yet to store. */
  datatype State = State(shared: map<nat, nat>, holder: int, pcs: seq<PC>, todo: seq<set<nat>>)

  const FREE: int := -1

  ghost predicate Shaped(locals: seq<map<nat, nat>>, s: State) {
    |s.pcs| == |s.todo| == |locals| && forall t :: 0 <= t < |locals| ==> s.todo[t] <= locals[t].Keys
  }

  ghost predicate Init(locals: seq<map<nat, nat>>, s: State) {
    && Shaped(locals, s) && s.shared == map[] && s.holder == FREE
    && forall t :: 0 <= t < |locals| ==> s.pcs[t] == Idle && s.todo[t] == locals[t].Keys
  }

  /******* The steps of thread `t` *******/

  ghost predicate Acquire(s: State, s': State, t: nat, page: nat)
    requires t < |s.pcs| == |s.todo|
  {
    && s.pcs[t] == Idle && s.holder == FREE && page in s.todo[t]
    && s' == s.(holder := t, pcs := s.pcs[t := Locked(page)])
  }

  ghost predicate Load(s: State, s': State, t: nat)
    requires t < |s.pcs| == |s.todo|
  {
    && s.pcs[t].Locked?
    && s' == s.(pcs := s.pcs[t := Loaded(s.pcs[t].page, Get(s.shared, s.pcs[t].page))])
  }

  ghost predicate Store(locals: seq<map<nat, nat>>, s: State, s': State, t: nat)
    requires t < |s.pcs| == |s.todo| == |locals|
  {
    && s.pcs[t].Loaded?
    && var page := s.pcs[t].page;
    s' == s.(shared := s.shared[page := s.pcs[t].value + Get(locals[t], page)],
             pcs := s.pcs[t := Stored], todo := s.todo[t := s.todo[t] - {page}])
  }

  ghost predicate Release(s: State, s': State, t: nat)
    requires t < |s.pcs| == |s.todo|
  {
    s.pcs[t].Stored? && s' == s.(holder := FREE, pcs := s.pcs[t := Idle])
  }

  ghost predicate Next(locals: seq<map<nat, nat>>, s: State, s': State) {
    Shaped(locals, s) && exists t: nat :: t < |locals| && StepOf(locals, s, s', t)
  }

  ghost predicate StepOf(locals: seq<map<nat, nat>>, s: State, s': State, t: nat)
    requires t < |locals| == |s.pcs| == |s.todo|
  {
    (exists page :: Acquire(s, s', t, page)) || Load(s, s', t) || Store(locals, s, s', t) || Release(s, s', t)
  }

  /** Any interleaving. */
  ghost predicate Behavior(locals: seq<map<nat, nat>>, run: seq<State>) {
    && |run| > 0 && Init(locals, run[0])
    && forall i :: 0 <= i < |run| - 1 ==> Next(locals, run[i], run[i + 1])
  }

  ghost predicate Done(s: State) {
    forall t :: 0 <= t < |s.todo| ==> s.todo[t] == {}
  }

  /******* Sums over threads *******/

  /** What the first `n` threads counted for a page. */
  function SumOf(locals: seq<map<nat, nat>>, p: nat, n: nat): nat
    requires n <= |locals|
  {
    if n == 0 then 0 else SumOf(locals, p, n - 1) + Get(locals[n - 1], p)
  }

  /** What the first `n` threads have yet to store for a page. */
  function Rest(locals: seq<map<nat, nat>>, todo: seq<set<nat>>, p: nat, n: nat): nat
    requires n <= |locals| == |todo|
  {
    if n == 0 then 0 else Rest(locals, todo, p, n - 1) + if p in todo[n - 1] then Get(locals[n - 1], p) else 0
  }

  lemma {:induction false} RestAtStart(locals: seq<map<nat, nat>>, todo: seq<set<nat>>, p: nat, n: nat)
    requires n <= |locals| == |todo| && forall t :: 0 <= t < |locals| ==> todo[t] == locals[t].Keys
    ensures Rest(locals, todo, p, n) == SumOf(locals, p, n)
  {
    if n > 0 { RestAtStart(locals, todo, p, n - 1); }
  }

  lemma {:induction false} RestAtEnd(locals: seq<map<nat, nat>>, todo: seq<set<nat>>, p: nat, n: nat)
    requires n <= |locals| == |todo| && forall t :: 0 <= t < |todo| ==> todo[t] == {}
    ensures Rest(locals, todo, p, n) == 0
  {
    if n > 0 { RestAtEnd(locals, todo, p, n - 1); }
  }

  lemma {:induction false} RestAfter(locals: seq<map<nat, nat>>, todo: seq<set<nat>>, t: nat, page: nat, p: nat, n: nat)
    requires n <= |locals| == |todo| && t < |todo| && page in todo[t]
    ensures Rest(locals, todo, p, n)
         == Rest(locals, todo[t := todo[t] - {page}], p, n) + if t < n && p == page then Get(locals[t], p) else 0
  {
    if n > 0 { RestAfter(locals, todo, t, page, p, n - 1); }
  }

  /******* What holds in every state of every interleaving *******/

  /** Only the thread with the lock is not idle, and what it has loaded is still what the table says. */
  ghost predicate Exclusive(s: State) {
    && (s.holder == FREE || 0 <= s.holder < |s.pcs|)
    && |s.pcs| == |s.todo|
    && (forall t :: 0 <= t < |s.pcs| ==> (s.pcs[t] == Idle <==> t != s.holder))
    && (forall t :: 0 <= t < |s.pcs| && (s.pcs[t].Locked? || s.pcs[t].Loaded?) ==> s.pcs[t].page in s.todo[t])
    && (forall t :: 0 <= t < |s.pcs| && s.pcs[t].Loaded? ==> s.pcs[t].value == Get(s.shared, s.pcs[t].page))
  }

  /** Nothing is lost and nothing is added twice. */
  ghost predicate Conserved(locals: seq<map<nat, nat>>, s: State)
    requires |s.todo| == |locals|
  {
    forall p :: Get(s.shared, p) + Rest(locals, s.todo, p, |locals|) == SumOf(locals, p, |locals|)
  }

  /** Some thread has stored its count of the page. */
  ghost predicate HasStored(locals: seq<map<nat, nat>>, todo: seq<set<nat>>, p: nat)
    requires |todo| == |locals|
  {
    exists t :: 0 <= t < |locals| && p in locals[t] && p !in todo[t]
  }

  /** The table has exactly the pages that have been stored. */
  ghost predicate Known(locals: seq<map<nat, nat>>, s: State)
    requires |s.todo| == |locals|
  {
    forall p :: p in s.shared <==> HasStored(locals, s.todo, p)
  }

  lemma StepKeeps(locals: seq<map<nat, nat>>, s: State, s': State)
    requires Next(locals, s, s') && Exclusive(s) && Conserved(locals, s) && Known(locals, s)
    ensures Shaped(locals, s') && Exclusive(s') && Conserved(locals, s') && Known(locals, s')
  {
    hide Rest, SumOf, Conserved, Known;
    var t: nat :| t < |locals| && StepOf(locals, s, s', t);
    if Store(locals, s, s', t) {
      StoreConserves(locals, s, s', t);
      StoreKnows(locals, s, s', t);
    } else {
      SameConserved(locals, s, s');
    }
  }

  lemma StoreKnows(locals: seq<map<nat, nat>>, s: State, s': State, t: nat)
    requires t < |locals| && Shaped(locals, s) && Store(locals, s, s', t) && Exclusive(s) && Known(locals, s)
    ensures |s'.todo| == |locals| && Known(locals, s')
  {
    var page := s.pcs[t].page;
    forall p ensures HasStored(locals, s'.todo, p) <==> p == page || HasStored(locals, s.todo, p) {
      if p == page {
        assert p in locals[t] && p !in s'.todo[t];
      } else {
        assert forall u :: 0 <= u < |locals| ==> (p in s.todo[u] <==> p in s'.todo[u]);
      }
    }
  }

  lemma SameConserved(locals: seq<map<nat, nat>>, s: State, s': State)
    requires |s.todo| == |locals| && s'.shared == s.shared && s'.todo == s.todo
    ensures Conserved(locals, s) ==> Conserved(locals, s')
    ensures Known(locals, s) ==> Known(locals, s')
  {}

  lemma StoreConserves(locals: seq<map<nat, nat>>, s: State, s': State, t: nat)
    requires t < |locals| && Shaped(locals, s) && Store(locals, s, s', t) && Exclusive(s) && Conserved(locals, s)
    ensures |s'.todo| == |locals| && Conserved(locals, s')
  {
    hide Rest, SumOf;
    var page := s.pcs[t].page;
    forall p ensures Get(s'.shared, p) + Rest(locals, s'.todo, p, |locals|) == SumOf(locals, p, |locals|) {
      RestAfter(locals, s.todo, t, page, p, |locals|);
      assert Get(s.shared, p) + Rest(locals, s.todo, p, |locals|) == SumOf(locals, p, |locals|);
    }
  }

  lemma {:induction false} BehaviorKeeps(locals: seq<map<nat, nat>>, run: seq<State>, i: nat)
    requires Behavior(locals, run) && i < |run|
    ensures Shaped(locals, run[i]) && Exclusive(run[i]) && Conserved(locals, run[i]) && Known(locals, run[i])
  {
    hide Exclusive, Conserved, Known, Next;
    if i == 0 {
      InitKeeps(locals, run[0]);
    } else {
      BehaviorKeeps(locals, run, i - 1);
      assert Next(locals, run[i - 1], run[i - 1 + 1]);
      StepKeeps(locals, run[i - 1], run[i]);
    }
  }

  lemma InitKeeps(locals: seq<map<nat, nat>>, s: State)
    requires Init(locals, s)
    ensures Exclusive(s) && Conserved(locals, s) && Known(locals, s)
  {
    forall p ensures Rest(locals, s.todo, p, |locals|) == SumOf(locals, p, |locals|) {
      RestAtStart(locals, s.todo, p, |locals|);
    }
  }

  /** Every interleaving that comes to an end leaves the same shared counts: the sums of the threads' counts. */
  lemma EveryInterleavingSums(locals: seq<map<nat, nat>>, run: seq<State>, p: nat)
    requires Behavior(locals, run) && Done(run[|run| - 1])
    ensures Get(run[|run| - 1].shared, p) == SumOf(locals, p, |locals|)
    ensures p in run[|run| - 1].shared <==> exists t :: 0 <= t < |locals| && p in locals[t]
  {
    BehaviorKeeps(locals, run, |run| - 1);
    RestAtEnd(locals, run[|run| - 1].todo, p, |locals|);
    assert p in run[|run| - 1].shared <==> HasStored(locals, run[|run| - 1].todo, p);
  }

  /** Any two of them leave the same table. */
  lemma InterleavingsAgree(locals: seq<map<nat, nat>>, run: seq<State>, run': seq<State>)
    requires Behavior(locals, run) && Done(run[|run| - 1]) && Behavior(locals, run') && Done(run'[|run'| - 1])
    ensures run[|run| - 1].shared == run'[|run'| - 1].shared
  {
    hide Done, SumOf, Init, Next;
    var m, m' := run[|run| - 1].shared, run'[|run'| - 1].shared;
    forall p ensures (p in m <==> p in m') && Get(m, p) == Get(m', p) {
      EveryInterleavingSums(locals, run, p);
      EveryInterleavingSums(locals, run', p);
    }
    SameMap(m, m');
  }

  lemma SameMap(m: map<nat, nat>, m': map<nat, nat>)
    requires forall p :: (p in m <==> p in m') && Get(m, p) == Get(m', p)
    ensures m == m'
  {
    forall p | p in m ensures m[p] == m'[p] { assert Get(m, p) == Get(m', p); }
  }

  /******* Every interleaving comes to an end *******/

  /** Nothing is left to store, and the lock is free. */
  ghost predicate Finished(s: State) {
    Done(s) && s.holder == FREE
  }

  ghost predicate CanStep(locals: seq<map<nat, nat>>, s: State) {
    exists s' :: Next(locals, s, s')
  }

  /** As long as it is not finished, some thread can take a step. */
  lemma NeverStuck(locals: seq<map<nat, nat>>, s: State)
    requires Shaped(locals, s) && Exclusive(s) && !Finished(s)
    ensures CanStep(locals, s)
  {
    if s.holder == FREE {
      var t: nat :| t < |s.todo| && s.todo[t] != {};
      var page :| page in s.todo[t];
      CanTake(locals, s, t, page);
    } else {
      CanGoOn(locals, s);
    }
  }

  function Taken(s: State, t: nat, page: nat): State
    requires t < |s.pcs|
  {
    s.(holder := t, pcs := s.pcs[t := Locked(page)])
  }

  lemma CanTake(locals: seq<map<nat, nat>>, s: State, t: nat, page: nat)
    requires Shaped(locals, s) && Exclusive(s) && s.holder == FREE && t < |locals| && page in s.todo[t]
    ensures Next(locals, s, Taken(s, t, page))
  {
    assert Acquire(s, Taken(s, t, page), t, page);
    assert StepOf(locals, s, Taken(s, t, page), t);
  }

  /** The only next step of the thread that holds the lock. */
  function GoOn(locals: seq<map<nat, nat>>, s: State, t: nat): State
    requires t < |s.pcs| == |s.todo| == |locals|
  {
    match s.pcs[t]
    case Locked(page) => s.(pcs := s.pcs[t := Loaded(page, Get(s.shared, page))])
    case Loaded(page, value) =>
      s.(shared := s.shared[page := value + Get(locals[t], page)],
         pcs := s.pcs[t := Stored], todo := s.todo[t := s.todo[t] - {page}])
    case _ => s.(holder := FREE, pcs := s.pcs[t := Idle])
  }

  lemma CanGoOn(locals: seq<map<nat, nat>>, s: State)
    requires Shaped(locals, s) && Exclusive(s) && s.holder != FREE
    ensures Next(locals, s, GoOn(locals, s, s.holder))
  {
    var t: nat := s.holder;
    var s' := GoOn(locals, s, t);
    assert s.pcs[t] != Idle;
    assert Load(s, s', t) || Store(locals, s, s', t) || Release(s, s', t);
    assert StepOf(locals, s, s', t);
  }

  /** The steps that the first `n` threads have yet to take: four for each page to store. */
  function StepsLeft(s: State, n: nat): int
    requires n <= |s.pcs| == |s.todo|
  {
    if n == 0 then 0
    else StepsLeft(s, n - 1) + 4 * |s.todo[n - 1]| + AfterUpdate(s.pcs[n - 1])
  }

  /** How many steps more or fewer than at the start of an update. */
  function AfterUpdate(pc: PC): int {
    match pc
    case Idle => 0
    case Locked(_) => -1
    case Loaded(_, _) => -2
    case Stored => 1
  }

  /** The pages of the first `n` threads. */
  function Entries(locals: seq<map<nat, nat>>, n: nat): nat
    requires n <= |locals|
  {
    if n == 0 then 0 else Entries(locals, n - 1) + |locals[n - 1]|
  }

  lemma {:induction false} StepTaken(locals: seq<map<nat, nat>>, s: State, s': State, t: nat, n: nat)
    requires Shaped(locals, s) && Exclusive(s) && t < |locals| && StepOf(locals, s, s', t) && n <= |locals|
    ensures Shaped(locals, s')
    ensures StepsLeft(s', n) == StepsLeft(s, n) - if t < n then 1 else 0
  {
    if n > 0 { StepTaken(locals, s, s', t, n - 1); }
  }

  lemma {:induction false} StepsAtStart(locals: seq<map<nat, nat>>, s: State, n: nat)
    requires Init(locals, s) && n <= |locals|
    ensures StepsLeft(s, n) == 4 * Entries(locals, n)
  {
    if n > 0 { StepsAtStart(locals, s, n - 1); }
  }

  lemma {:induction false} StepsAreLeft(s: State, n: nat)
    requires Exclusive(s) && n <= |s.pcs|
    ensures StepsLeft(s, n) >= 0
    ensures Finished(s) ==> StepsLeft(s, n) == 0
  {
    if n > 0 { StepsAreLeft(s, n - 1); }
  }

  lemma {:induction false} StepsSoFar(locals: seq<map<nat, nat>>, run: seq<State>, i: nat)
    requires Behavior(locals, run) && i < |run|
    ensures |run[i].pcs| == |run[i].todo| == |locals|
    ensures i + StepsLeft(run[i], |locals|) == 4 * Entries(locals, |locals|)
  {
    BehaviorKeeps(locals, run, i);
    hide Exclusive, Conserved, Known, StepsLeft, StepOf;
    if i == 0 {
      StepsAtStart(locals, run[0], |locals|);
    } else {
      StepsSoFar(locals, run, i - 1);
      BehaviorKeeps(locals, run, i - 1);
      assert Next(locals, run[i - 1], run[i - 1 + 1]);
      var t: nat :| t < |locals| && StepOf(locals, run[i - 1], run[i], t);
      StepTaken(locals, run[i - 1], run[i], t, |locals|);
    }
  }

  /** No interleaving has more than four steps for each page of each thread. One that cannot go on has exactly that
      many, and is finished. */
  lemma EveryInterleavingEnds(locals: seq<map<nat, nat>>, run: seq<State>)
    requires Behavior(locals, run)
    ensures |run| - 1 <= 4 * Entries(locals, |locals|)
    ensures !CanStep(locals, run[|run| - 1]) ==>
      Finished(run[|run| - 1]) && |run| - 1 == 4 * Entries(locals, |locals|)
  {
    var last := run[|run| - 1];
    BehaviorKeeps(locals, run, |run| - 1);
    StepsSoFar(locals, run, |run| - 1);
    StepsAreLeft(last, |locals|);
    if !Finished(last) { NeverStuck(locals, last); }
  }

  lemma OneMoreStep(locals: seq<map<nat, nat>>, run: seq<State>, s: State)
    requires Behavior(locals, run) && Next(locals, run[|run| - 1], s)
    ensures Behavior(locals, run + [s]) && Shaped(locals, s) && Exclusive(s)
    ensures |run| <= 4 * Entries(locals, |locals|)
  {
    hide Next, Exclusive, Entries, Shaped;
    var run' := run + [s];
    forall i | 0 <= i < |run'| - 1 ensures Next(locals, run'[i], run'[i + 1]) {
      if i < |run| - 1 { assert Next(locals, run[i], run[i + 1]); }
    }
    BehaviorKeeps(locals, run', |run|);
    EveryInterleavingEnds(locals, run');
  }

  /** Let the threads run. Which one takes the free lock, and for which page, is left open. */
  method Merge(locals: seq<map<nat, nat>>) returns (shared: map<nat, nat>, ghost run: seq<State>)
    ensures Behavior(locals, run) && Done(run[|run| - 1]) && shared == run[|run| - 1].shared
  {
    var s := State(map[], FREE, seq(|locals|, _ => Idle), seq(|locals|, t requires 0 <= t < |locals| => locals[t].Keys));
    run := [s];
    while s.holder != FREE || exists t :: 0 <= t < |s.todo| && s.todo[t] != {}
      invariant Behavior(locals, run) && run[|run| - 1] == s
      invariant Shaped(locals, s) && Exclusive(s) && |run| - 1 <= 4 * Entries(locals, |locals|)
      decreases 4 * Entries(locals, |locals|) - |run| + 1
    {
      if s.holder != FREE {
        var t: nat := s.holder;
        CanGoOn(locals, s);
        s := GoOn(locals, s, t);
      } else {
        var t: nat :| t < |s.todo| && s.todo[t] != {};
        var page :| page in s.todo[t];
        CanTake(locals, s, t, page);
        s := Taken(s, t, page);
      }
      hide *;
      OneMoreStep(locals, run, s);
      run := run + [s];
    }
    shared := s.shared;
  }
}
