/** The set a line maps to: bitwise arithmetic on naturals, and why masking is a remainder. */
module SetIndex {

  /** Bitwise and. */
  function BitAnd(a: nat, b: nat): (r: nat)
    ensures r <= a && r <= b
  {
    if a == 0 || b == 0 then 0 else (a % 2) * (b % 2) + 2 * BitAnd(a / 2, b / 2)
  }

  function Pow2(k: nat): (r: nat)
    ensures r > 0
  {
    if k == 0 then 1 else 2 * Pow2(k - 1)
  }

  predicate IsPowerOfTwo(x: nat) {
    x != 0 && BitAnd(x, x - 1) == 0
  }

  /** `lineaddr & (NUM_SETS-1)` */
  function Index(line: nat, sets: nat): (i: nat)
    requires sets > 0
    ensures i < sets
  {
    BitAnd(line, sets - 1)
  }

  lemma {:induction false} PowersPass(k: nat)
    ensures IsPowerOfTwo(Pow2(k))
  {
    if k > 0 {
      PowersPass(k - 1);
      var x := Pow2(k - 1);
      assert Pow2(k) / 2 == x && (Pow2(k) - 1) / 2 == x - 1 && Pow2(k) % 2 == 0;
    }
  }

  lemma {:induction false} OnlyPowersPass(x: nat) returns (k: nat)
    requires IsPowerOfTwo(x)
    ensures x == Pow2(k)
  {
    if x == 1 {
      k := 0;
    } else if x % 2 == 0 {
      assert (x - 1) / 2 == x / 2 - 1;
      k := OnlyPowersPass(x / 2);
      k := k + 1;
    } else {
      assert (x - 1) / 2 == x / 2 && x / 2 > 0;
      AndSelf(x / 2);
      assert false;
    }
  }

  lemma {:induction false} AndSelf(a: nat)
    ensures BitAnd(a, a) == a
  {
    if a > 0 { AndSelf(a / 2); }
  }

  /** The test at start-up accepts exactly the powers of two. */
  lemma IsPowerOfTwoExactly(x: nat)
    ensures IsPowerOfTwo(x) <==> exists k :: x == Pow2(k)
  {
    if IsPowerOfTwo(x) {
      var k := OnlyPowersPass(x);
    }
    if exists k :: x == Pow2(k) {
      var k :| x == Pow2(k);
      PowersPass(k);
    }
  }

  lemma {:induction false} HalfMod(line: nat, p: nat)
    requires p > 0
    ensures line % (2 * p) == line % 2 + 2 * ((line / 2) % p)
  {
    var h := line / 2;
    var q, r := h / p, h % p;
    assert h == q * p + r;
    assert line == (2 * p) * q + (line % 2 + 2 * r) by {
      assert 2 * (q * p) == (2 * p) * q;
    }
    RemainderIs(line, 2 * p, q, line % 2 + 2 * r);
  }

  lemma RemainderIs(a: int, m: int, q: int, r: int)
    requires m > 0 && 0 <= r < m && a == m * q + r
    ensures a % m == r
  {
    var q', r' := a / m, a % m;
    assert m * (q - q') == r' - r;
    assert q - q' >= 1 ==> m * (q - q') >= m;
    assert q - q' <= -1 ==> m * (q - q') <= -m;
  }

  lemma HalfMask(line: nat, k: nat)
    requires k > 0
    ensures Index(line, Pow2(k)) == line % 2 + 2 * Index(line / 2, Pow2(k - 1))
  {}

  lemma {:induction false} MaskIsMod(line: nat, k: nat)
    ensures Index(line, Pow2(k)) == line % Pow2(k)
  {
    if k > 0 {
      HalfMask(line, k);
      MaskIsMod(line / 2, k - 1);
      HalfMod(line, Pow2(k - 1));
    }
  }

  /** For every number of sets the start-up test accepts, masking a line address is taking its remainder. */
  lemma IndexIsRemainder(line: nat, sets: nat)
    requires IsPowerOfTwo(sets)
    ensures Index(line, sets) == line % sets
  {
    var k := OnlyPowersPass(sets);
    MaskIsMod(line, k);
  }

  /** Without the test it would not be: three sets would leave set 1 unused, and line 1 would be misplaced. */
  lemma ThreeSetsMisplace()
    ensures !IsPowerOfTwo(3) && Index(1, 3) != 1 % 3 && forall line: nat :: Index(line, 3) != 1
  {}
}
