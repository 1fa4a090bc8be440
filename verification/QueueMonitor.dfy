/** The queue load test, with its floating-point arithmetic. */
module QueueMonitor {
  import opened Numbers

  // ----- binary64 -----

  /** Two to the power e. */
  function Power(e: int): (p: real)
    ensures p > 0.0
  {
    if e >= 0 then Pow2(e) as real else 1.0 / Pow2(-e) as real
  }

  const TWO_53: int := 0x20_0000_0000_0000
  const TWO_64: int := 0x1_0000_0000_0000_0000

  /** The finite binary64 numbers, section 3.3 of IEEE 754-2019. */
  ghost predicate Representable(x: real) {
    exists m: int, e: int :: Scaled(x, m, e)
  }

  predicate Scaled(x: real, m: int, e: int) {
    -TWO_53 < m < TWO_53 && -1074 <= e <= 971 && x == m as real * Power(e)
  }

  function Distance(x: real, y: real): real {
    if x <= y then y - x else x - y
  }

  /** Rounding to nearest, section 4.3.1 of IEEE 754-2019, over the range of a usize; ties go either way. */
  ghost predicate RoundsToNearest(round: real -> real) {
    forall x: real :: 0.0 <= x <= TWO_64 as real ==>
      Representable(round(x)) && forall y :: Representable(y) ==> Distance(round(x), x) <= Distance(y, x)
  }

  lemma {:induction false} PowerStep(e: int)
    ensures Power(e + 1) == 2.0 * Power(e)
  {
  }

  lemma {:induction false} PowerMonotone(a: int, b: int)
    requires a <= b
    ensures Power(a) <= Power(b)
    decreases b - a
  {
    if a < b {
      PowerStep(a);
      PowerMonotone(a + 1, b);
    }
  }

  lemma Doubled(x: real, y: real)
    ensures 2.0 * (x * y) == x * (2.0 * y)
  {
  }

  lemma {:induction false} PowerProduct(a: int, n: nat)
    ensures Power(a + n) == Power(a) * Power(n)
    decreases n, 1
  {
    if n == 0 {
      assert Power(0) == 1.0;
    } else {
      PowerProductStep(a, n);
    }
  }

  lemma {:induction false} PowerProductStep(a: int, n: nat)
    requires n > 0
    ensures Power(a + n) == Power(a) * Power(n)
    decreases n, 0
  {
    hide Power;
    PowerProduct(a, n - 1);
    PowerStep(a + n - 1);
    PowerStep(n - 1);
    Doubled(Power(a), Power(n - 1));
  }

  /** Ten doublings. */
  lemma TenDoublings(e: int)
    ensures Power(e + 10) == 1024.0 * Power(e)
  {
    hide Power;
    PowerStep(e);
    PowerStep(e + 1);
    PowerStep(e + 2);
    PowerStep(e + 3);
    PowerStep(e + 4);
    PowerStep(e + 5);
    PowerStep(e + 6);
    PowerStep(e + 7);
    PowerStep(e + 8);
    PowerStep(e + 9);
  }

  lemma PowerAt0()
    ensures Power(0) == 1.0
  {
  }

  lemma PowerAt53()
    ensures Power(53) == TWO_53 as real
  {
    hide Power;
    PowerAt0();
    TenDoublings(0);
    TenDoublings(10);
    TenDoublings(20);
    TenDoublings(30);
    TenDoublings(40);
    PowerStep(50);
    PowerStep(51);
    PowerStep(52);
  }

  lemma PowerAtMinus53()
    ensures Power(-53) == 1.0 / TWO_53 as real && Power(-54) == 0.5 / TWO_53 as real
  {
    hide Power;
    PowerAt0();
    PowerAt53();
    PowerProduct(-53, 53);
    PowerStep(-54);
  }

  lemma PowerOfNat(n: nat)
    ensures Power(n) == Pow2(n) as real
  {
  }

  /** Between one half and one, the representable numbers are the multiples of 2^-53. */
  lemma UpperHalfGrid(x: real) returns (k: int)
    requires Representable(x) && 0.5 <= x <= 1.0
    ensures x * TWO_53 as real == k as real
  {
    hide Power;
    var m: int, e: int :| Scaled(x, m, e);
    ExponentLarge(x, m, e);
    var p := Pow2(e + 53);
    PowerOfNat(e + 53);
    PowerProduct(e, 53);
    PowerAt53();
    k := m * p;
    Rearranged(m as real, Power(e), Power(53));
  }

  lemma ExponentLarge(x: real, m: int, e: int)
    requires Scaled(x, m, e) && 0.5 <= x
    ensures e >= -53
  {
    hide Power;
    var p := Power(e);
    assert x == m as real * p;
    PowerAtMinus53();
    if e <= -54 {
      PowerMonotone(e, -54);
      SmallProduct(m, p);
    }
  }

  lemma SmallProduct(m: int, p: real)
    requires -TWO_53 < m < TWO_53 && 0.0 < p <= 0.5 / TWO_53 as real
    ensures m as real * p < 0.5
  {
    var top := TWO_53 as real;
    ProductMonotone(m as real, top - 1.0, p);
    ProductMonotone(p, 0.5 / top, top - 1.0);
  }

  lemma ProductMonotone(a: real, b: real, c: real)
    requires a <= b && c >= 0.0
    ensures a * c <= b * c
  {
    assert (b - a) * c >= 0.0;
    assert (b - a) * c == b * c - a * c;
  }

  lemma QuotientMonotone(a: real, b: real, c: real)
    requires a <= b && c > 0.0
    ensures a / c <= b / c
  {
    assert b / c - a / c == (b - a) / c;
  }

  lemma Rearranged(a: real, b: real, c: real)
    ensures (a * b) * c == a * (b * c)
  {
  }

  /** Integers up to 2^53 are representable, and so is every multiple of 2^-53 up to one. */
  lemma ExactNumbers(n: int)
    requires 0 <= n <= TWO_53
    ensures Representable(n as real) && Representable(n as real / TWO_53 as real)
  {
    hide Power;
    PowerAt0();
    PowerAt53();
    PowerAtMinus53();
    if n < TWO_53 {
      assert Scaled(n as real, n, 0);
      assert Scaled(n as real / TWO_53 as real, n, -53);
    } else {
      assert Scaled(n as real, 1, 53);
      assert Scaled(n as real / TWO_53 as real, 1, 0);
    }
  }

  lemma TopRepresentable()
    ensures Representable(TWO_64 as real)
  {
    hide Power;
    PowerAt53();
    TenDoublings(53);
    PowerStep(63);
    assert Scaled(TWO_64 as real, 1, 64);
  }

  /** Representable numbers round to themselves. */
  lemma RoundExact(round: real -> real, x: real)
    requires RoundsToNearest(round) && Representable(x) && 0.0 <= x <= TWO_64 as real
    ensures round(x) == x
  {
    assert Distance(round(x), x) <= Distance(x, x);
  }

  /** Rounding to nearest is monotone, whatever it does with ties. */
  lemma RoundMonotone(round: real -> real, x: real, y: real)
    requires RoundsToNearest(round) && 0.0 <= x <= y <= TWO_64 as real
    ensures round(x) <= round(y)
  {
    assert Representable(round(x)) && Representable(round(y));
    assert Distance(round(x), x) <= Distance(round(y), x);
    assert Distance(round(y), y) <= Distance(round(x), y);
  }

  // ----- The load test -----

  /** queue_len as f64 / queue_capacity as f64 >= 0.8, each operation and the literal rounded. */
  predicate AtLeastThreshold(queueLen: nat, queueCapacity: nat, round: real -> real)
  {
    round(queueCapacity as real) != 0.0
    && round(round(queueLen as real) / round(queueCapacity as real)) >= round(0.8)
  }

  // The two representable numbers around 0.8, as multiples of 2^-53.
  const BELOW: int := 7205759403792793
  const ABOVE: int := 7205759403792794

  lemma NoneBetween(x: real)
    requires Representable(x) && 0.8 <= x
    ensures x * TWO_53 as real >= ABOVE as real
  {
    hide Representable;
    if x <= 1.0 {
      var k := UpperHalfGrid(x);
      assert k > BELOW;
    }
  }

  /** The literal 0.8 is stored as the least representable number above it. */
  lemma ThresholdAbove(round: real -> real)
    requires RoundsToNearest(round)
    ensures round(0.8) * TWO_53 as real == ABOVE as real
    ensures 0.8 < round(0.8) && forall x :: Representable(x) && 0.8 <= x ==> round(0.8) <= x
  {
    hide Representable;
    ExactNumbers(ABOVE);
    ExactNumbers(BELOW);
    var t := round(0.8);
    assert Distance(t, 0.8) <= Distance(ABOVE as real / TWO_53 as real, 0.8);
    assert Distance(ABOVE as real / TWO_53 as real, 0.8) < Distance(BELOW as real / TWO_53 as real, 0.8);
    var k := UpperHalfGrid(t);
    assert k == ABOVE;
    forall x | Representable(x) && 0.8 <= x
      ensures t <= x
    {
      NoneBetween(x);
    }
  }

  /** A quotient of small integers below 0.8 is too far below it to be rounded up to the threshold. */
  lemma QuotientBelow(round: real -> real, queueLen: int, queueCapacity: int)
    requires RoundsToNearest(round) && 0 <= queueLen && 0 < queueCapacity <= TWO_53 && 5 * queueLen < 4 * queueCapacity
    ensures round(queueLen as real / queueCapacity as real) < round(0.8)
  {
    var q := queueLen as real / queueCapacity as real;
    Gap(queueLen, queueCapacity);
    ThresholdAbove(round);
    ExactNumbers(BELOW);
    var low := BELOW as real / TWO_53 as real;
    assert Distance(round(q), q) <= Distance(low, q);
  }

  lemma Gap(queueLen: int, queueCapacity: int)
    requires 0 <= queueLen && 0 < queueCapacity <= TWO_53 && 5 * queueLen < 4 * queueCapacity
    ensures 0.0 <= queueLen as real / queueCapacity as real <= 0.8 - 0.2 / TWO_53 as real
  {
    var n, c, top := queueLen as real, queueCapacity as real, TWO_53 as real;
    QuotientMonotone(0.0, n, c);
    QuotientMonotone(n, 0.8 * c - 0.2, c);
    assert (0.8 * c - 0.2) / c == 0.8 - 0.2 / c;
    Reciprocal(c, top);
  }

  lemma Reciprocal(c: real, top: real)
    requires 0.0 < c <= top
    ensures 0.2 / c >= 0.2 / top
  {
    ProductMonotone(c, top, 0.2 / c);
    QuotientMonotone(0.2, top * (0.2 / c), top);
    assert (0.2 / c * top) / top == 0.2 / c;
  }

  lemma QuotientAtLeast(n: real, c: real)
    requires 0.0 < c && n >= 0.8 * c
    ensures n / c >= 0.8
  {
    QuotientMonotone(0.8 * c, n, c);
    assert (0.8 * c) / c == 0.8;
  }

  lemma QuotientAtMost(n: real, c: real)
    requires 1.0 <= c && 0.0 <= n
    ensures 0.0 <= n / c <= n
  {
    QuotientMonotone(0.0, n, c);
    ProductMonotone(1.0, c, n / c);
    assert (n / c) * c == n;
  }

  /** The floating-point verdict is the exact one: at least four fifths of the capacity, for every queue length. */
  lemma LoadTestExact(round: real -> real, queueLen: nat, queueCapacity: nat)
    requires RoundsToNearest(round) && 0 < queueCapacity <= TWO_53 && queueLen < TWO_64
    ensures AtLeastThreshold(queueLen, queueCapacity, round) <==> 5 * queueLen >= 4 * queueCapacity
  {
    hide RoundsToNearest, Representable;
    var c := queueCapacity as real;
    ExactNumbers(queueCapacity);
    RoundExact(round, c);
    if 5 * queueLen < 4 * queueCapacity {
      ExactNumbers(queueLen);
      RoundExact(round, queueLen as real);
      QuotientBelow(round, queueLen, queueCapacity);
    } else {
      var n := round(queueLen as real);
      LengthLarge(round, queueLen, queueCapacity);
      QuotientAtLeast(n, c);
      QuotientAtMost(n, c);
      RoundMonotone(round, 0.8, n / c);
    }
  }

  lemma LengthLarge(round: real -> real, queueLen: nat, queueCapacity: nat)
    requires RoundsToNearest(round) && 0 < queueCapacity <= TWO_53 && queueLen < TWO_64
    requires 5 * queueLen >= 4 * queueCapacity
    ensures 0.8 * queueCapacity as real <= round(queueLen as real) <= TWO_64 as real
  {
    TopRepresentable();
    RoundExact(round, TWO_64 as real);
    RoundMonotone(round, queueLen as real, TWO_64 as real);
    if queueLen <= TWO_53 {
      ExactNumbers(queueLen);
      RoundExact(round, queueLen as real);
    } else {
      ExactNumbers(TWO_53);
      RoundExact(round, TWO_53 as real);
      RoundMonotone(round, TWO_53 as real, queueLen as real);
    }
  }

  // ----- The monitor -----

  const REPORT_INTERVAL: int := 10 * SECOND

  class QueueMonitor {
    var isHighLoad: bool
    var lastReport: int

    constructor (now: int)
      ensures !isHighLoad && lastReport == now
    {
      isHighLoad := false;
      lastReport := now;
    }

    /** check_queue_health: IsHighLoad reports the verdict of the latest check. */
    method CheckQueueHealth(queueLen: nat, queueCapacity: nat, round: real -> real, now: int)
      returns (isHigh: bool, reported: bool)
      requires RoundsToNearest(round) && queueLen < TWO_64
      modifies this
      ensures isHighLoad == isHigh
      ensures queueCapacity <= TWO_53 ==> (isHigh <==> queueCapacity == 0 || 5 * queueLen >= 4 * queueCapacity)
      ensures reported <==> queueCapacity != 0 && now - old(lastReport) >= REPORT_INTERVAL
      ensures lastReport == if reported then now else old(lastReport)
    {
      if queueCapacity == 0 {
        isHighLoad := true;
        return true, false;
      }
      isHigh := AtLeastThreshold(queueLen, queueCapacity, round);
      if queueCapacity <= TWO_53 {
        LoadTestExact(round, queueLen, queueCapacity);
      }
      isHighLoad := isHigh;
      reported := now - lastReport >= REPORT_INTERVAL;
      if reported {
        lastReport := now;
      }
    }
  }
}
