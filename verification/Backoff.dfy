/** Retry delays: exponential backoff in 64-bit nanoseconds, with cap and jitter. */
module Backoff {
  import opened Basics

  const TWO_63: int := 0x8000_0000_0000_0000

  const SECOND: int := 1_000_000_000
  const MILLISECOND: int := 1_000_000

  /** What a 64-bit two's complement register keeps of an integer. */
  function Wrap(x: int): int {
    (x + TWO_63) % (2 * TWO_63) - TWO_63
  }

  function Pow2(k: nat): (r: nat)
    ensures r >= 1
  {
    if k == 0 then 1 else 2 * Pow2(k - 1)
  }

  /** `1 << k` on a 64-bit signed integer: the bit is lost once k reaches 64. */
  function ShiftOne(k: nat): int {
    if k < 64 then Wrap(Pow2(k)) else 0
  }

  /** The product before capping, as the machine computes it. */
  function Raw(attempt: int, base: int): int {
    if attempt <= 1 then base else Wrap(base * ShiftOne(attempt - 1))
  }

  function Min(a: int, b: int): int { if a <= b then a else b }

  /** Conversion of a floating-point value to an integer drops the fraction. */
  function Truncate(x: real): int {
    if x >= 0.0 then x.Floor else -((-x).Floor)
  }

  /** Up to 5 percent of a delay, for a random `u` in [0, 1). */
  function Extra(d: int, u: real): int {
    Truncate(u * 0.05 * (d as real))
  }

  function Jitter(d: int, u: real): int {
    Wrap(d + Extra(d, u))
  }

  /** The delay after a failed attempt; the first one is neither capped nor jittered. */
  function Delay(attempt: int, base: int, cap: int, u: real): int {
    if attempt <= 1 then base else Jitter(Min(Raw(attempt, base), cap), u)
  }

  /** The delay the design asks for, without machine arithmetic and jitter. */
  function Ideal(attempt: int, base: int, cap: int): int {
    if attempt <= 1 then base else Min(base * Pow2(attempt - 1), cap)
  }

  lemma WrapExact(x: int)
    ensures Wrap(x) == x <==> -TWO_63 <= x < TWO_63
  {
  }

  lemma {:induction false} Pow2Monotone(a: nat, b: nat)
    requires a <= b
    ensures Pow2(a) <= Pow2(b)
  {
    if a < b {
      Pow2Monotone(a, b - 1);
    }
  }

  lemma Pow2At63()
    ensures Pow2(63) == TWO_63
  {
    assert Pow2(10) == 1024;
    assert Pow2(20) == 1024 * 1024;
    assert Pow2(30) == 1024 * 1024 * 1024;
    assert Pow2(40) == 1024 * 1024 * 1024 * 1024;
    assert Pow2(50) == 1024 * 1024 * 1024 * 1024 * 1024;
    assert Pow2(60) == 1024 * 1024 * 1024 * 1024 * 1024 * 1024;
  }

  lemma ScaleMonotone(base: int, a: int, b: int)
    requires base > 0 && a <= b
    ensures base * a <= base * b
  {
  }

  /** The product is exact precisely while it fits into 63 bits. */
  lemma RawExact(attempt: int, base: int)
    requires 0 < base < TWO_63 && attempt >= 1
    ensures Raw(attempt, base) == base * Pow2(attempt - 1) <==> base * Pow2(attempt - 1) < TWO_63
  {
    var k := attempt - 1;
    Pow2At63();
    if k < 63 {
      Pow2Monotone(k, 62);
      assert Pow2(63) == 2 * Pow2(62);
      WrapExact(Pow2(k));
      ScaleMonotone(base, 1, Pow2(k));
      WrapExact(base * Pow2(k));
    } else {
      Pow2Monotone(63, k);
      ScaleMonotone(base, TWO_63, Pow2(k));
      ScaleMonotone(TWO_63, 1, base);
    }
  }

  /** Capping hides an overflow only when the wrapped product is itself above the cap. */
  lemma CappedExact(attempt: int, base: int, cap: int)
    requires 0 < base < TWO_63 && cap < TWO_63 && attempt >= 1
    ensures Min(Raw(attempt, base), cap) == Min(base * Pow2(attempt - 1), cap)
      <==> base * Pow2(attempt - 1) < TWO_63 || Raw(attempt, base) >= cap
  {
    RawExact(attempt, base);
  }

  predicate Unit(u: real) { 0.0 <= u < 1.0 }

  /** The largest jitter a delay can get: the last integer strictly below a twentieth of it. */
  function Most(d: int): int {
    if d > 0 then (d - 1) / 20 else if d < 0 then -((-d - 1) / 20) else 0
  }

  /** The delay with the largest jitter. */
  function Longest(d: int): int { d + Most(d) }

  /** Adding the largest jitter stays within 64 bits. */
  predicate JitterFits(d: int) { -TWO_63 <= Longest(d) < TWO_63 }

  lemma PartOf(u: real, x: real)
    requires Unit(u) && 0.0 < x
    ensures 0.0 <= u * 0.05 * x && 20.0 * (u * 0.05 * x) < x
  {
    assert u * 0.05 * x == (u * x) * 0.05;
    assert 0.0 <= u * x < x;
  }

  lemma FloorPart(z: real, d: int)
    requires 0.0 <= z && 20.0 * z < d as real
    ensures 0 <= z.Floor <= (d - 1) / 20
  {
    assert 20 * z.Floor < d;
  }

  lemma ExtraUp(d: int, u: real)
    requires d > 0 && Unit(u)
    ensures 0 <= Extra(d, u) <= (d - 1) / 20
  {
    PartOf(u, d as real);
    FloorPart(u * 0.05 * (d as real), d);
  }

  lemma ExtraMirrored(d: int, u: real)
    requires d > 0 && Unit(u)
    ensures Extra(-d, u) == -Extra(d, u)
  {
    PartOf(u, d as real);
    var part, z := u * 0.05, u * 0.05 * (d as real);
    assert (-d) as real == -(d as real);
    assert part * (-(d as real)) == -(part * (d as real));
    assert Extra(-d, u) == Truncate(-z);
  }

  /** Jitter points away from zero and is at most the largest one. */
  lemma ExtraRange(d: int, u: real)
    requires Unit(u)
    ensures d >= 0 ==> 0 <= Extra(d, u) <= Most(d)
    ensures d <= 0 ==> Most(d) <= Extra(d, u) <= 0
  {
    if d > 0 {
      ExtraUp(d, u);
    } else if d < 0 {
      ExtraUp(-d, u);
      ExtraMirrored(-d, u);
    } else {
      assert u * 0.05 * 0.0 == 0.0;
    }
  }

  /** The random part that gives the largest jitter. */
  function Peak(d: int): real {
    if d > 0 then (20 * Most(d)) as real / d as real
    else if d < 0 then (20 * Most(-d)) as real / (-d) as real
    else 0.0
  }

  lemma PeakUp(d: int)
    requires d > 0
    ensures Unit(Peak(d)) && Extra(d, Peak(d)) == Most(d)
  {
    var m, x := (20 * Most(d)) as real, d as real;
    assert 0.0 <= m < x;
    Fraction(m, x);
    Twentieth(Peak(d), x, Most(d));
  }

  lemma Twentieth(u: real, x: real, n: int)
    requires u * x == (20 * n) as real
    ensures u * 0.05 * x == n as real
  {
    assert u * 0.05 * x == (u * x) * 0.05;
  }

  lemma PeakReached(d: int)
    ensures Unit(Peak(d)) && Extra(d, Peak(d)) == Most(d)
  {
    if d > 0 {
      PeakUp(d);
    } else if d < 0 {
      PeakUp(-d);
      ExtraMirrored(-d, Peak(d));
    }
  }

  lemma Fraction(m: real, x: real)
    requires 0.0 <= m < x
    ensures 0.0 <= m / x < 1.0 && (m / x) * x == m
  {
  }

  /** A value is its delay plus at most 5 percent, away from zero. */
  predicate Near(d: int, j: int) {
    if d >= 0 then d <= j && 20 * j <= 21 * d else 21 * d <= 20 * j && j <= d
  }

  lemma JitterStays(d: int, u: real)
    requires -TWO_63 <= d < TWO_63 && JitterFits(d) && Unit(u)
    ensures Jitter(d, u) == d + Extra(d, u) && Near(d, Jitter(d, u))
  {
    ExtraRange(d, u);
    var e := Extra(d, u);
    WrapExact(d + e);
    MostIsSmall(d);
  }

  lemma MostIsSmall(d: int)
    ensures if d >= 0 then 0 <= 20 * Most(d) <= d else d <= 20 * Most(d) <= 0
  {
  }

  lemma JitterLeaves(d: int)
    requires -TWO_63 <= d < TWO_63 && !JitterFits(d)
    ensures Unit(Peak(d)) && !Near(d, Jitter(d, Peak(d)))
  {
    PeakReached(d);
    var m := Most(d);
    MostIsSmall(d);
    assert Jitter(d, Peak(d)) == Wrap(d + m);
    assert Wrap(d + m) == if d > 0 then d + m - 2 * TWO_63 else d + m + 2 * TWO_63;
  }

  /** Jitter adds between 0 and 5 percent, whatever the random part, if and only if the largest
      jitter does not leave 64 bits. */
  lemma JitterRange(d: int)
    requires -TWO_63 <= d < TWO_63
    ensures (forall u | Unit(u) :: Near(d, Jitter(d, u))) <==> JitterFits(d)
    ensures JitterFits(d) ==> forall u | Unit(u) :: Jitter(d, u) == d + Extra(d, u)
  {
    if JitterFits(d) {
      forall u | Unit(u) ensures Jitter(d, u) == d + Extra(d, u) && Near(d, Jitter(d, u)) {
        JitterStays(d, u);
      }
    } else {
      JitterLeaves(d);
    }
  }

  // ----- one delay -----

  /** Neither the product nor the jitter goes wrong: the product fits, or wraps to something
      above the cap, and the largest jitter on the ideal delay fits. */
  predicate DelaySound(attempt: int, base: int, cap: int)
    requires attempt >= 1
  {
    && (base * Pow2(attempt - 1) < TWO_63 || Raw(attempt, base) >= cap)
    && JitterFits(Ideal(attempt, base, cap))
  }

  lemma RawInRange(attempt: int, base: int)
    requires 0 < base < TWO_63
    ensures -TWO_63 <= Raw(attempt, base) < TWO_63
  {
  }

  lemma IdealPositive(attempt: int, base: int, cap: int)
    requires 0 < base && 0 < cap
    ensures 0 < Ideal(attempt, base, cap) && (attempt > 1 ==> Ideal(attempt, base, cap) <= cap)
  {
    if attempt > 1 {
      ScaleMonotone(base, 1, Pow2(attempt - 1));
    }
  }

  /** From the second attempt on, the delay is the ideal one plus at most 5 percent for every
      random part, if and only if neither product nor jitter goes wrong. */
  lemma DelayRange(attempt: int, base: int, cap: int)
    requires 0 < base < TWO_63 && 0 < cap < TWO_63 && attempt >= 2
    ensures (forall u | Unit(u) :: Near(Ideal(attempt, base, cap), Delay(attempt, base, cap, u)))
      <==> DelaySound(attempt, base, cap)
    ensures DelaySound(attempt, base, cap) ==> forall u | Unit(u) ::
      Delay(attempt, base, cap, u) == Ideal(attempt, base, cap) + Extra(Ideal(attempt, base, cap), u)
  {
    var d, capped := Ideal(attempt, base, cap), Min(Raw(attempt, base), cap);
    IdealPositive(attempt, base, cap);
    RawInRange(attempt, base);
    CappedExact(attempt, base, cap);
    if capped == d {
      JitterRange(d);
      assert forall u :: Delay(attempt, base, cap, u) == Jitter(d, u);
    } else {
      assert capped < d;
      assert Extra(capped, 0.0) == 0;
      assert Delay(attempt, base, cap, 0.0) == capped;
      assert Unit(0.0) && !Near(d, Delay(attempt, base, cap, 0.0));
    }
  }

  /** Beyond that, waits can vanish: past 64 attempts the shifted bit is gone and nothing is
      waited for; with a base of one second the product is negative already at attempt 35. */
  lemma BackoffVanishes(attempt: int, base: int, cap: int, u: real)
    ensures attempt > 64 && cap >= 0 ==> Delay(attempt, base, cap, u) == 0
    ensures Raw(35, SECOND) < 0
  {
    if attempt > 64 {
      NoProduct(attempt, base);
      NoExtra(u);
    }
    NegativeProduct();
  }

  lemma NoProduct(attempt: int, base: int)
    requires attempt > 64
    ensures Raw(attempt, base) == 0
  {
    assert base * ShiftOne(attempt - 1) == 0;
  }

  lemma NoExtra(u: real)
    ensures Jitter(0, u) == 0
  {
    assert u * 0.05 * 0.0 == 0.0;
  }

  lemma NegativeProduct()
    ensures Raw(35, SECOND) < 0
  {
    assert Pow2(10) == 1024;
    assert Pow2(20) == 1024 * 1024;
    assert Pow2(30) == 1024 * 1024 * 1024;
    assert Pow2(34) == 16 * 1024 * 1024 * 1024;
  }

  lemma OddProduct(base: int)
    requires base % 2 == 1
    ensures Wrap(base * -TWO_63) == -TWO_63
  {
    var m := base / 2;
    assert base * -TWO_63 == -TWO_63 - m * (2 * TWO_63);
  }

  /** ... and they can explode: after attempt 64 an odd base gives the most negative product, which
      is below every cap, and any jitter wraps it to at least 95 percent of the largest delay. */
  lemma BackoffExplodes(base: int, cap: int, u: real)
    requires base % 2 == 1 && cap >= -TWO_63 && Unit(u) && u * 0.05 * (TWO_63 as real) >= 1.0
    ensures 20 * Delay(64, base, cap, u) >= 19 * TWO_63
  {
    Pow2At63();
    OddProduct(base);
    assert ShiftOne(63) == -TWO_63;
    assert Min(Raw(64, base), cap) == -TWO_63;
    ExtraRange(-TWO_63, u);
    ExtraMirrored(TWO_63, u);
    assert Extra(-TWO_63, u) <= -1;
  }

  // ----- sums of delays -----

  function Sum(ds: seq<int>): int {
    if ds == [] then 0 else Sum(ds[..|ds| - 1]) + ds[|ds| - 1]
  }

  /** The ideal delays after attempts 2 to n. */
  function IdealSum(n: nat, base: int, cap: int): int {
    if n <= 1 then 0 else IdealSum(n - 1, base, cap) + Ideal(n, base, cap)
  }

  /** The largest total of the delays after attempts 1 to n. */
  function Worst(n: nat, base: int, cap: int): int {
    if n == 0 then 0
    else if n == 1 then base
    else Worst(n - 1, base, cap) + Longest(Ideal(n, base, cap))
  }

  lemma Doubling(base: int, q: int)
    ensures base * (q - 2) + base * q == base * (2 * q - 2)
  {
  }

  lemma {:induction false} IdealSumBounds(n: nat, base: int, cap: int)
    requires 0 < base && 0 < cap && n >= 1
    ensures 0 <= IdealSum(n, base, cap) <= (n - 1) * cap
    ensures IdealSum(n, base, cap) <= base * (Pow2(n) - 2)
  {
    if n > 1 {
      IdealSumBounds(n - 1, base, cap);
      ScaleMonotone(base, 0, Pow2(n - 1));
      Doubling(base, Pow2(n - 1));
      Distribute(n - 2, cap);
    }
  }

  lemma {:induction false} WorstBounds(n: nat, base: int, cap: int)
    requires 0 < base && 0 < cap && n >= 1
    ensures 20 * Worst(n, base, cap) <= 20 * base + 21 * IdealSum(n, base, cap)
  {
    if n > 1 {
      WorstBounds(n - 1, base, cap);
      IdealPositive(n, base, cap);
    }
  }

  lemma {:induction false} SumsGrow(m: nat, n: nat, base: int, cap: int)
    requires 0 < base && 0 < cap && m <= n
    ensures Worst(m, base, cap) <= Worst(n, base, cap) && IdealSum(m, base, cap) <= IdealSum(n, base, cap)
  {
    if m < n {
      SumsGrow(m, n - 1, base, cap);
      IdealPositive(n, base, cap);
    }
  }

  /** None of the delays after attempts 2 to n goes wrong. */
  ghost predicate AllSound(n: int, base: int, cap: int) {
    forall k | 2 <= k <= n :: DelaySound(k, base, cap)
  }

  /** Simple sufficient conditions: the last product fits, and the cap leaves room for jitter. */
  lemma FittingIsSound(n: int, base: int, cap: int)
    requires 0 < base && 0 < cap && 21 * cap < 20 * TWO_63
    requires n >= 1 ==> base * Pow2(n - 1) < TWO_63
    ensures AllSound(n, base, cap)
  {
    forall k | 2 <= k <= n ensures DelaySound(k, base, cap) {
      Pow2Monotone(k - 1, n - 1);
      ScaleMonotone(base, Pow2(k - 1), Pow2(n - 1));
      IdealPositive(k, base, cap);
    }
  }

  /** `ds` are the delays after attempts 1, 2, ... for some jitter. */
  ghost predicate AreDelays(ds: seq<int>, base: int, cap: int, us: nat -> real) {
    forall k | 0 <= k < |ds| :: IsDelay(ds[k], k + 1, base, cap, us)
  }

  predicate IsDelay(d: int, attempt: nat, base: int, cap: int, us: nat -> real) {
    Unit(us(attempt)) && d == Delay(attempt, base, cap, us(attempt))
  }

  lemma DelaysPrefix(ds: seq<int>, n: nat, base: int, cap: int, us: nat -> real)
    requires AreDelays(ds, base, cap, us) && n <= |ds|
    ensures AreDelays(ds[..n], base, cap, us)
  {
    assert forall k | 0 <= k < n :: ds[..n][k] == ds[k];
  }

  lemma LastDelayRange(ds: seq<int>, base: int, cap: int, us: nat -> real)
    requires 0 < base < TWO_63 && 0 < cap < TWO_63
    requires ds != [] && AreDelays(ds, base, cap, us) && AllSound(|ds|, base, cap)
    ensures var n := |ds|; var d := Ideal(n, base, cap);
      if n == 1 then ds[0] == base else d <= ds[n - 1] <= Longest(d)
  {
    var n := |ds|;
    assert IsDelay(ds[n - 1], n, base, cap, us);
    if n > 1 {
      assert DelaySound(n, base, cap);
      DelayRange(n, base, cap);
      IdealPositive(n, base, cap);
      ExtraRange(Ideal(n, base, cap), us(n));
    }
  }

  /** The total wait lies between the ideal total and the worst one, which adds at most 5 percent
      to every delay but the first. */
  lemma {:induction false} TotalDelayRange(ds: seq<int>, base: int, cap: int, us: nat -> real)
    requires 0 < base < TWO_63 && 0 < cap < TWO_63
    requires ds != [] && AreDelays(ds, base, cap, us) && AllSound(|ds|, base, cap)
    ensures base + IdealSum(|ds|, base, cap) <= Sum(ds) <= Worst(|ds|, base, cap)
    ensures 20 * Sum(ds) <= 20 * base + 21 * IdealSum(|ds|, base, cap)
  {
    var n := |ds|;
    LastDelayRange(ds, base, cap, us);
    WorstBounds(n, base, cap);
    if n > 1 {
      DelaysPrefix(ds, n - 1, base, cap, us);
      TotalDelayRange(ds[..n - 1], base, cap, us);
    } else {
      assert Sum(ds[..0]) == 0;
    }
  }

  /** The delays after attempts 1 to n for given random parts. */
  function DelaysFor(n: nat, base: int, cap: int, us: nat -> real): seq<int> {
    if n == 0 then [] else DelaysFor(n - 1, base, cap, us) + [Delay(n, base, cap, us(n))]
  }

  /** The random parts that make every delay as long as it can be. */
  function Peaks(base: int, cap: int): nat -> real {
    k => Peak(Ideal(k, base, cap))
  }

  lemma {:induction false} DelaysForAreDelays(n: nat, base: int, cap: int, us: nat -> real)
    requires forall k :: Unit(us(k))
    ensures |DelaysFor(n, base, cap, us)| == n && AreDelays(DelaysFor(n, base, cap, us), base, cap, us)
  {
    if n > 0 {
      DelaysForAreDelays(n - 1, base, cap, us);
    }
  }

  lemma PeakDelay(n: nat, base: int, cap: int)
    requires 0 < base < TWO_63 && 0 < cap < TWO_63 && n >= 2 && DelaySound(n, base, cap)
    ensures Delay(n, base, cap, Peaks(base, cap)(n)) == Longest(Ideal(n, base, cap))
  {
    PeakReached(Ideal(n, base, cap));
    DelayRange(n, base, cap);
  }

  /** The worst total is reached by some jitter, so no smaller bound holds. */
  lemma {:induction false} WorstIsReached(n: nat, base: int, cap: int)
    requires 0 < base < TWO_63 && 0 < cap < TWO_63 && AllSound(n, base, cap)
    ensures Sum(DelaysFor(n, base, cap, Peaks(base, cap))) == Worst(n, base, cap)
  {
    if n > 0 {
      var us := Peaks(base, cap);
      var ds := DelaysFor(n, base, cap, us);
      WorstIsReached(n - 1, base, cap);
      assert ds[..|ds| - 1] == DelaysFor(n - 1, base, cap, us);
      assert ds[|ds| - 1] == Delay(n, base, cap, us(n));
      if n > 1 {
        PeakDelay(n, base, cap);
      }
    }
  }

  lemma Scale(n: int, cap: int, base: int, q: int)
    ensures 21 * (n * cap) == 21 * n * cap
    ensures 21 * (base * (q - 2)) + 21 * base == 21 * base * (q - 1)
  {
  }

  lemma ClosedForms(n: int, base: int, cap: int)
    requires 0 < base && 0 < cap && n >= 1
    ensures 20 * Worst(n, base, cap) <= 20 * base + 21 * IdealSum(n, base, cap)
    ensures 20 * base + 21 * IdealSum(n, base, cap) <= 20 * base + 21 * (n - 1) * cap
    ensures 20 * base + 21 * IdealSum(n, base, cap) <= 21 * base * (Pow2(n) - 1)
  {
    IdealSumBounds(n, base, cap);
    WorstBounds(n, base, cap);
    Scale(n - 1, cap, base, Pow2(n));
  }

  /** Total time spent waiting between attempts when at most `n` delays are made, against the
      sum of the ideal delays and both closed forms (in twentieths). */
  lemma TotalDelayBound(ds: seq<int>, n: int, base: int, cap: int, us: nat -> real)
    requires 0 < base < TWO_63 && 0 < cap < TWO_63
    requires 1 <= n && |ds| <= n && AreDelays(ds, base, cap, us) && AllSound(n, base, cap)
    ensures Sum(ds) <= Worst(n, base, cap)
    ensures 20 * Sum(ds) <= 20 * base + 21 * IdealSum(n, base, cap)
    ensures 20 * Sum(ds) <= 20 * base + 21 * (n - 1) * cap
    ensures 20 * Sum(ds) <= 21 * base * (Pow2(n) - 1)
  {
    if ds != [] {
      TotalDelayRange(ds, base, cap, us);
    }
    SumsGrow(|ds|, n, base, cap);
    ClosedForms(n, base, cap);
  }

  lemma SmallPowers()
    ensures Pow2(1) == 2 && Pow2(2) == 4 && Pow2(3) == 8 && Pow2(4) == 16
  {
  }

  lemma GuaranteedWorst()
    ensures Worst(3, 500 * MILLISECOND, 3 * SECOND) == 3650 * MILLISECOND - 2
  {
    SmallPowers();
    var b, c := 500 * MILLISECOND, 3 * SECOND;
    assert Worst(1, b, c) == b;
    assert Worst(2, b, c) == b + Longest(1000 * MILLISECOND);
    assert Worst(3, b, c) == Worst(2, b, c) + Longest(2000 * MILLISECOND);
  }

  lemma BestEffortWorst()
    ensures Worst(5, SECOND, 6 * SECOND) == 19900 * MILLISECOND - 4
  {
    SmallPowers();
    var b, c := SECOND, 6 * SECOND;
    assert Worst(1, b, c) == b;
    assert Worst(2, b, c) == b + Longest(2 * SECOND);
    assert Worst(3, b, c) == Worst(2, b, c) + Longest(4 * SECOND);
    assert Worst(4, b, c) == Worst(3, b, c) + Longest(6 * SECOND);
    assert Worst(5, b, c) == Worst(4, b, c) + Longest(6 * SECOND);
  }

  /** The two shipped configurations: their delays are sound, and the longest possible waits of
      one Send are 3.65 s and 19.9 s, less one nanosecond per jittered delay. */
  lemma ShippedDelays()
    ensures AllSound(3, 500 * MILLISECOND, 3 * SECOND) && AllSound(5, SECOND, 6 * SECOND)
    ensures Worst(3, 500 * MILLISECOND, 3 * SECOND) == 3650 * MILLISECOND - 2
    ensures Worst(5, SECOND, 6 * SECOND) == 19900 * MILLISECOND - 4
  {
    SmallPowers();
    FittingIsSound(3, 500 * MILLISECOND, 3 * SECOND);
    FittingIsSound(5, SECOND, 6 * SECOND);
    GuaranteedWorst();
    BestEffortWorst();
  }
}
