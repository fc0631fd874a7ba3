/** Which slots may be justified after a finalized one, and the integer square root
    that decides it. */
module Justifiable {
  import opened Containers
  import opened Seal

  const TWO62: nat := 0x4000_0000_0000_0000
  const TWO64: nat := 0x1_0000_0000_0000_0000

  ghost predicate IsRoot(r: nat, n: nat) {
    r * r <= n < (r + 1) * (r + 1)
  }

  lemma SquareMonotone(a: nat, b: nat)
    requires a <= b
    ensures a * a <= b * b
  {
  }

  lemma RootUnique(r: nat, s: nat, n: nat)
    requires IsRoot(r, n) && IsRoot(s, n)
    ensures r == s
  {
    if r < s {
      SquareMonotone(r + 1, s);
    } else if s < r {
      SquareMonotone(s + 1, r);
    }
  }

  // ------------------------------------------------------ integer square root

  function Pow2(e: nat): nat {
    if e == 0 then 1 else 2 * Pow2(e - 1)
  }

  function Pow4(e: nat): nat {
    if e == 0 then 1 else 4 * Pow4(e - 1)
  }

  lemma {:induction false} Pow4IsSquare(e: nat)
    ensures Pow4(e) == Pow2(e) * Pow2(e) && Pow4(e) > 0
  {
    if e > 0 {
      Pow4IsSquare(e - 1);
    }
  }

  /** The search has found `root`, a multiple of twice the current digit's value, and
      `n` lies below the next multiple. */
  ghost predicate Narrowed(n: nat, root: nat, e: nat, x: nat, res: nat) {
    && x + root * root == n
    && res == 2 * root * Pow2(e)
    && x < 2 * res + 4 * Pow4(e)
  }

  /** The same once the digit at `e` is settled. */
  ghost predicate DigitDone(n: nat, root: nat, e: nat, x: nat, res: nat) {
    && x + root * root == n
    && res == root * Pow2(e)
    && x < 2 * res + Pow4(e)
  }

  lemma TakeDigit(n: nat, root: nat, e: nat, x: nat, res: nat)
    requires Narrowed(n, root, e, x, res) && x >= res + Pow4(e)
    ensures DigitDone(n, root + Pow2(e), e, x - (res + Pow4(e)), res / 2 + Pow4(e))
  {
    Pow4IsSquare(e);
    Binomial(root, Pow2(e));
  }

  lemma Binomial(a: nat, b: nat)
    ensures (a + b) * (a + b) == a * a + 2 * (a * b) + b * b
    ensures (a + b) * b == a * b + b * b
    ensures 2 * a * b == 2 * (a * b)
  {
  }

  lemma SkipDigit(n: nat, root: nat, e: nat, x: nat, res: nat)
    requires Narrowed(n, root, e, x, res) && x < res + Pow4(e)
    ensures DigitDone(n, root, e, x, res / 2)
  {
    Binomial(root, Pow2(e));
  }

  lemma NextDigit(n: nat, root: nat, e: nat, x: nat, res: nat)
    requires DigitDone(n, root, e, x, res)
    ensures e > 0 ==> Pow4(e) / 4 == Pow4(e - 1) > 0 && Narrowed(n, root, e - 1, x, res)
    ensures e == 0 ==> Pow4(e) / 4 == 0 && IsRoot(res, n)
  {
    if e > 0 {
      Pow4IsSquare(e - 1);
      assert 2 * root * Pow2(e - 1) == root * Pow2(e);
    } else {
      assert (root + 1) * (root + 1) == root * root + 2 * root + 1;
    }
  }

  lemma StartDigits(n: nat, e: nat)
    requires n < 4 * Pow4(e)
    ensures Narrowed(n, 0, e, n, 0)
  {
  }

  lemma {:induction false} Pow4Add(a: nat, b: nat)
    ensures Pow4(a + b) == Pow4(a) * Pow4(b)
  {
    if b > 0 {
      Pow4Add(a, b - 1);
    }
  }

  lemma TopBit()
    ensures Pow4(31) == TWO62
  {
    Pow4Add(4, 4);
    Pow4Add(8, 8);
    Pow4Add(16, 16);
    assert Pow4(4) == 256;
    assert Pow4(32) == 4 * Pow4(31);
  }

  /** Digit-by-digit square root: `bit` runs through the powers of four. */
  method Isqrt(n: nat) returns (res: nat)
    requires n < TWO64
    ensures IsRoot(res, n)
  {
    var x: nat := n;
    res := 0;
    var bit: nat := TWO62;
    ghost var e: nat := 31;
    TopBit();
    while bit > x
      invariant bit == Pow4(e) || (bit == 0 && n == 0)
      invariant bit != 0 ==> n < 4 * bit
      decreases bit
    {
      e := if e > 0 then e - 1 else 0;
      bit := bit / 4;
    }
    ghost var root: nat := 0;
    Pow4IsSquare(e);
    if bit != 0 {
      StartDigits(n, e);
    }
    while bit != 0
      invariant bit == 0 ==> IsRoot(res, n)
      invariant bit != 0 ==> bit == Pow4(e) && Narrowed(n, root, e, x, res)
      decreases bit
    {
      var tmp := res + bit;
      if x >= tmp {
        TakeDigit(n, root, e, x, res);
        x := x - tmp;
        res := res / 2 + bit;
        root := root + Pow2(e);
      } else {
        SkipDigit(n, root, e, x, res);
        res := res / 2;
      }
      NextDigit(n, root, e, x, res);
      bit := bit / 4;
      e := if e > 0 then e - 1 else 0;
    }
  }

  // -------------------------------------------------------- justifiable slots

  ghost predicate Square(d: nat) { exists k: nat :: k * k == d }

  ghost predicate Pronic(d: nat) { exists k: nat :: k * k + k == d }

  /** The rule: within five slots, or at a square or pronic distance. */
  ghost predicate JustifiableDelta(d: nat) {
    d <= 5 || Square(d) || Pronic(d)
  }

  ghost predicate JustifiableAfter(slot: nat, finalized: nat) {
    slot >= finalized && JustifiableDelta(slot - finalized)
  }

  /** What the code accepts: `4 * d + 1` wraps around at 64 bits. Sealed. */
  ghost predicate AcceptedDelta(d: nat) {
    forall k: int :: Opens(k) ==> d <= 5 || Square(d) || Pronic(d % TWO62)
  }

  lemma AcceptedOpen(d: nat)
    ensures AcceptedDelta(d) <==> d <= 5 || Square(d) || Pronic(d % TWO62)
  {
    assert Opens(0);
  }

  lemma SquareByRoot(d: nat, r: nat)
    requires IsRoot(r, d)
    ensures r * r == d <==> Square(d)
  {
    if Square(d) {
      var k: nat :| k * k == d;
      assert IsRoot(k, d) by { Binomial(k, 1); }
      RootUnique(k, r, d);
    }
  }

  lemma OddSquare(k: nat)
    ensures (2 * k + 1) * (2 * k + 1) == 4 * (k * k + k) + 1
  {
    Binomial(2 * k, 1);
    assert (2 * k) * (2 * k) == 4 * (k * k);
  }

  lemma PronicHasOddRoot(d: nat, r: nat)
    requires IsRoot(r, 4 * d + 1) && Pronic(d)
    ensures r * r == 4 * d + 1 && r % 2 == 1
  {
    var k: nat :| k * k + k == d;
    OddSquare(k);
    Binomial(2 * k + 1, 1);
    RootUnique(2 * k + 1, r, 4 * d + 1);
  }

  /** `4 * d + 1` is the square of an odd number exactly when `d` is pronic. */
  lemma PronicByRoot(d: nat, r: nat)
    requires IsRoot(r, 4 * d + 1)
    ensures (r * r == 4 * d + 1 && r % 2 == 1) <==> Pronic(d)
  {
    if r * r == 4 * d + 1 && r % 2 == 1 {
      var k := r / 2;
      assert r == 2 * k + 1;
      OddSquare(k);
      assert k * k + k == d;
    }
    if Pronic(d) {
      PronicHasOddRoot(d, r);
    }
  }

  lemma WrapDelta(d: nat)
    ensures (4 * d + 1) % TWO64 == 4 * (d % TWO62) + 1
  {
    var q, m := d / TWO62, d % TWO62;
    assert 4 * d + 1 == q * TWO64 + (4 * m + 1);
  }

  method IsJustifiableAfter(candidate: nat, finalized: nat) returns (r: Option<bool>)
    requires candidate < TWO64
    ensures r.None? <==> candidate < finalized
    ensures r.Some? ==> r.value == AcceptedDelta(candidate - finalized)
  {
    if candidate < finalized {
      return None;
    }
    var delta := candidate - finalized;
    AcceptedOpen(delta);
    if delta <= 5 {
      return Some(true);
    }
    var sqrt := Isqrt(delta);
    SquareByRoot(delta, sqrt);
    if sqrt * sqrt == delta {
      return Some(true);
    }
    var fourDeltaPlusOne := (4 * delta + 1) % TWO64;
    WrapDelta(delta);
    var sqrt2 := Isqrt(fourDeltaPlusOne);
    PronicByRoot(delta % TWO62, sqrt2);
    return Some(sqrt2 * sqrt2 == fourDeltaPlusOne && sqrt2 % 2 == 1);
  }

  /** An odd factor leaves all the twos to the other one. */
  lemma {:induction false} TwosInEvenFactor(a: nat, b: nat, e: nat, c: nat)
    requires a % 2 == 1 && a * b == c * Pow2(e)
    ensures exists m: nat :: b == m * Pow2(e)
  {
    if e == 0 {
      assert b == b * Pow2(0);
    } else {
      EvenProduct(a, b, c * Pow2(e - 1));
      TwosInEvenFactor(a, b / 2, e - 1, c);
      var m: nat :| b / 2 == m * Pow2(e - 1);
      assert b == m * Pow2(e);
    }
  }

  lemma EvenProduct(a: nat, b: nat, half: nat)
    requires a % 2 == 1 && a * b == 2 * half
    ensures b % 2 == 0 && a * (b / 2) == half
  {
    var i, j := a / 2, b / 2;
    assert a * b == 2 * (i * b) + b;
    if b % 2 == 0 {
      assert a * b == 2 * (a * j);
    }
  }

  lemma Pow2Of62()
    ensures Pow2(62) == TWO62
  {
    TopBit();
    Pow4IsSquare(31);
    Pow2Add(31, 31);
  }

  lemma {:induction false} Pow2Add(a: nat, b: nat)
    ensures Pow2(a + b) == Pow2(a) * Pow2(b)
  {
    if b > 0 {
      Pow2Add(a, b - 1);
    }
  }

  lemma EvenFactorIsLarge(a: nat, b: nat, c: nat)
    requires a % 2 == 1 && a * b == c * TWO62 && b > 0
    ensures b >= TWO62
  {
    Pow2Of62();
    TwosInEvenFactor(a, b, 62, c);
  }

  lemma PronicGap(j: nat, k: nat)
    requires j <= k
    ensures (k - j) * (k + j + 1) == (k * k + k) - (j * j + j)
  {
    var g := k - j;
    assert k * k == (j + g) * (j + g) == j * j + 2 * (j * g) + g * g by { Binomial(j, g); }
    assert g * (k + j + 1) == g * (2 * j + g + 1) == 2 * (j * g) + g * g + g;
  }

  /** Two pronic numbers that differ by a multiple of `2^62` are far apart: of the two
      factors of the difference one is odd, and the other takes all 62 twos. */
  lemma PronicsApart(j: nat, k: nat, c: nat)
    requires j < k && k * k + k == j * j + j + c * TWO62
    ensures k + j + 1 >= TWO62
  {
    PronicGap(j, k);
    if (k - j) % 2 == 1 {
      EvenFactorIsLarge(k - j, k + j + 1, c);
    } else {
      assert (k + j + 1) * (k - j) == (k - j) * (k + j + 1);
      EvenFactorIsLarge(k + j + 1, k - j, c);
    }
  }

  lemma PronicOrder(j: nat, k: nat)
    requires j * j + j < k * k + k
    ensures j < k
  {
    if k <= j {
      SquareMonotone(k, j);
    }
  }

  lemma PronicRoot(k: nat)
    requires k * k + k < TWO64
    ensures k < 0x1_0000_0000
  {
    if k >= 0x1_0000_0000 {
      SquareMonotone(0x1_0000_0000, k);
    }
  }

  /** Past the wrap-around, no distance is pronic both before and after it. */
  lemma NeverBothPronic(d: nat)
    requires TWO62 <= d < TWO64
    ensures !(Pronic(d) && Pronic(d % TWO62))
  {
    if Pronic(d) && Pronic(d % TWO62) {
      var k: nat :| k * k + k == d;
      var j: nat :| j * j + j == d % TWO62;
      PronicOrder(j, k);
      PronicRoot(k);
      PronicsApart(j, k, d / TWO62);
    }
  }

  /** When the code decides the rule: below `2^62`, where nothing wraps; at squares; and
      at the distances that are pronic neither before nor after the wrap-around. */
  lemma AcceptedIsJustifiable(d: nat)
    requires d < TWO64
    ensures (AcceptedDelta(d) <==> JustifiableDelta(d)) <==>
            (d < TWO62 || Square(d) || (!Pronic(d) && !Pronic(d % TWO62)))
  {
    AcceptedOpen(d);
    if d >= TWO62 {
      NeverBothPronic(d);
    }
  }

  lemma PronicNotSquare(d: nat)
    requires d > 0 && Pronic(d)
    ensures !Square(d)
  {
    var k: nat :| k * k + k == d;
    Binomial(k, 1);
    SquareByRoot(d, k);
  }

  /** So every pronic distance past the wrap-around is refused against the rule. */
  lemma WrappedPronicRefused(d: nat)
    requires TWO62 <= d < TWO64 && Pronic(d)
    ensures JustifiableDelta(d) && !AcceptedDelta(d)
  {
    PronicNotSquare(d);
    AcceptedIsJustifiable(d);
  }

  /** And others are accepted against it: `2^62 + 2` as if it were 2. */
  lemma WrappedDistanceAccepted()
    ensures AcceptedDelta(TWO62 + 2) && !JustifiableDelta(TWO62 + 2)
  {
    var d, r: nat := TWO62 + 2, 0x8000_0000;
    AcceptedOpen(d);
    assert 1 * 1 + 1 == d % TWO62;
    NeverBothPronic(d);
    assert IsRoot(r, d);
    SquareByRoot(d, r);
  }

  /** After any distance `d` the next justifiable one is at most `isqrt(d) + 1` away. */
  lemma NextJustifiable(d: nat, r: nat) returns (next: nat)
    requires IsRoot(r, d)
    ensures d < next <= d + r + 1 && JustifiableDelta(next)
  {
    Binomial(r, 1);
    if d < r * r + r {
      next := r * r + r;
      assert Pronic(next);
    } else {
      next := (r + 1) * (r + 1);
      assert Square(next);
    }
  }
}
