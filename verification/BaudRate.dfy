/** The PL011 baud divisor: what the firmware's integer arithmetic achieves, and when it reproduces itself. */
module BaudRate {
  import opened Words

  const MAX_ERROR_PPM: u32 := 20000
  const DIVISOR_MIN := 64
  const DIVISOR_MAX := 65535 * 64

  /** The encoded divisor, in 1/64 units, for a requested rate. */
  function Divisor(requested: nat, hz: nat): (e: nat)
    requires requested > 0
    ensures DIVISOR_MIN <= e <= DIVISOR_MAX
  {
    var divisor := hz * 8 / requested + 1;
    if divisor / 128 == 0 then DIVISOR_MIN
    else if divisor / 128 >= 65535 then DIVISOR_MAX
    else divisor / 128 * 64 + divisor % 128 / 2
  }

  /** The rate a divisor achieves. */
  function RateOf(e: nat, hz: nat): nat
    requires e > 0
  {
    hz * 4 / e
  }

  function Distance(a: nat, b: nat): nat {
    if a > b then a - b else b - a
  }

  function ErrorPpm(requested: nat, actual: nat): nat
    requires requested > 0
  {
    (Distance(actual, requested) * 1000000 + requested / 2) / requested
  }

  // ---- Integer division, once and for all ------------------------------------------------------------------

  /** The quotient is what fits. */
  lemma Quotient(a: nat, b: nat, q: nat)
    requires b > 0
    ensures a / b == q <==> q * b <= a < q * b + b
  {
    if q * b <= a < q * b + b {
      RemainderIs(a, b, q, a - q * b);
    }
    assert a == a / b * b + a % b;
  }

  lemma QuotientAtMost(a: nat, b: nat, q: nat)
    requires b > 0
    ensures a / b < q <==> a < q * b
  {
    assert a == a / b * b + a % b;
    Multiple(q - a / b, b);
    assert (q - a / b) * b == q * b - a / b * b;
  }

  /** Away from the clamps the encoded divisor is the true quotient, rounded to nearest. */
  lemma DivisorRounds(requested: nat, hz: nat)
    requires requested > 0
    ensures var d := hz * 8 / requested + 1;
      128 <= d < 65535 * 128 ==> Divisor(requested, hz) == d / 2
  {
  }

  predicate Unclamped(requested: nat, hz: nat)
    requires requested > 0
  {
    128 <= hz * 8 / requested + 1 < 65535 * 128
  }

  // ---- No cast loses bits ----------------------------------------------------------------------------------

  /** Below the upper clamp the achieved rate is less than twice the requested one. */
  lemma RateBelowTwice(requested: nat, hz: nat)
    requires requested > 0 && hz * 8 / requested + 1 < 65535 * 128
    ensures RateOf(Divisor(requested, hz), hz) < 2 * requested
  {
    var d := hz * 8 / requested + 1;
    var e := Divisor(requested, hz);
    QuotientAtMost(hz * 8, requested, d);
    assert hz * 8 < d * requested;
    if 128 <= d {
      DivisorRounds(requested, hz);
      assert d <= 2 * e + 1 <= 4 * e;
      Scale(d, 4 * e, requested);
      assert 4 * e * requested == 2 * (2 * requested * e);
      QuotientAtMost(hz * 4, e, 2 * requested);
    } else {
      Scale(d, 128, requested);
      QuotientAtMost(hz * 4, e, 2 * requested);
    }
  }

  lemma Scale(a: nat, b: nat, k: nat)
    requires a <= b
    ensures a * k <= b * k
  {
  }

  /** For all 32-bit inputs the achieved rate and the error fit their 32-bit results. */
  lemma NothingTruncated(requested: u32, hz: u32)
    requires requested > 0
    ensures RateOf(Divisor(requested, hz), hz) <= MAX32
    ensures ErrorPpm(requested, RateOf(Divisor(requested, hz), hz)) <= MAX32
    ensures Distance(RateOf(Divisor(requested, hz), hz), requested) * 1000000 + requested / 2 < TWO32 * TWO32
  {
    var e := Divisor(requested, hz);
    var actual := RateOf(e, hz);
    QuotientAtMost(hz * 4, e, 0x1000_0000);
    Scale(64, e, 0x1000_0000);
    var d := hz * 8 / requested + 1;
    if d < 65535 * 128 {
      RateBelowTwice(requested, hz);
      assert Distance(actual, requested) <= requested;
    } else {
      assert e == DIVISOR_MAX;
      QuotientAtMost(hz * 4, e, 4097);
      assert Distance(actual, requested) <= requested + 4095;
    }
    assert Distance(actual, requested) * 1000000 + requested / 2 < TWO32 * requested;
    QuotientAtMost(Distance(actual, requested) * 1000000 + requested / 2, requested, TWO32);
  }

  /** The tolerance test in exact arithmetic. */
  lemma ToleranceExact(requested: nat, actual: nat)
    requires requested > 0
    ensures ErrorPpm(requested, actual) <= MAX_ERROR_PPM <==>
            2000000 * Distance(actual, requested) < 40001 * requested
  {
    QuotientAtMost(Distance(actual, requested) * 1000000 + requested / 2, requested, 20001);
  }

  // ---- How near the achieved rate is -----------------------------------------------------------------------

  predicate Legal(e: nat) {
    DIVISOR_MIN <= e <= DIVISOR_MAX
  }

  lemma HalfSteps(d: nat, e: nat, requested: nat, n: nat)
    requires d > 0 && (d - 1) * requested <= n < d * requested
    ensures d <= 2 * e + 1 ==> n < 2 * (e * requested) + requested
    ensures 2 * e <= d ==> 2 * (e * requested) <= n + requested
  {
    assert d * requested == (d - 1) * requested + requested;
    assert (2 * e + 1) * requested == (2 * e) * requested + requested == 2 * (e * requested) + requested;
    if d <= 2 * e + 1 {
      Scale(d, 2 * e + 1, requested);
    }
    if 2 * e <= d {
      Scale(2 * e, d, requested);
    }
  }

  /** The divisor is off by half a step at most, unless a clamp holds it. */
  lemma DivisorBounds(requested: nat, hz: nat)
    requires requested > 0
    ensures var e := Divisor(requested, hz);
      && (e < DIVISOR_MAX ==> hz * 8 < 2 * (e * requested) + requested)
      && (e > DIVISOR_MIN ==> 2 * (e * requested) <= hz * 8 + requested)
  {
    var d, e := hz * 8 / requested + 1, Divisor(requested, hz);
    assert hz * 8 == hz * 8 / requested * requested + hz * 8 % requested;
    assert d * requested == (d - 1) * requested + requested;
    HalfSteps(d, e, requested, hz * 8);
    if 128 <= d < 65535 * 128 {
      DivisorRounds(requested, hz);
    }
  }

  /** No legal divisor is nearer to the quotient of clock and rate. */
  lemma NearestDivisor(requested: nat, hz: nat, other: nat)
    requires requested > 0 && Legal(other)
    ensures Distance(Divisor(requested, hz) * requested, hz * 4) <= Distance(other * requested, hz * 4)
  {
    var e := Divisor(requested, hz);
    DivisorBounds(requested, hz);
    if other < e {
      Scale(other + 1, e, requested);
      assert (other + 1) * requested == other * requested + requested;
    } else if e < other {
      Scale(e + 1, other, requested);
      assert (e + 1) * requested == e * requested + requested;
    }
  }

  lemma LargerDivisorIsSlower(a: nat, b: nat, hz: nat)
    requires 0 < a <= b
    ensures RateOf(b, hz) <= RateOf(a, hz)
  {
    var q := RateOf(b, hz);
    Quotient(hz * 4, b, q);
    Scale(a, b, q);
    assert q * a <= hz * 4;
    QuotientAtMost(hz * 4, a, q);
  }

  /** The next larger divisor is below the requested rate, and the next smaller one is not. */
  lemma NeighboursEnclose(requested: nat, hz: nat)
    requires requested > 0
    ensures var e := Divisor(requested, hz);
      && (e < DIVISOR_MAX ==> RateOf(e + 1, hz) <= requested)
      && (e > DIVISOR_MIN ==> requested <= RateOf(e - 1, hz))
  {
    var e := Divisor(requested, hz);
    DivisorBounds(requested, hz);
    assert (e + 1) * requested == e * requested + requested && (e - 1) * requested == e * requested - requested;
    if e < DIVISOR_MAX {
      assert hz * 4 < (e + 1) * requested == requested * (e + 1);
      QuotientAtMost(hz * 4, e + 1, requested);
    }
    if e > DIVISOR_MIN {
      assert requested * (e - 1) == (e - 1) * requested <= hz * 4;
      QuotientAtMost(hz * 4, e - 1, requested);
    }
  }

  /** No legal divisor makes a rate nearer to the requested one than this divisor does. */
  ghost predicate Nearest(requested: nat, hz: nat, e: nat)
    requires e > 0
  {
    forall other: nat :: Legal(other) ==>
      Distance(RateOf(e, hz), requested) <= Distance(RateOf(other, hz), requested)
  }

  /** Neither neighbour of the divisor makes a nearer rate. */
  predicate NearerThanNeighbours(requested: nat, hz: nat, e: nat)
    requires Legal(e)
  {
    && (e < DIVISOR_MAX ==> Distance(RateOf(e, hz), requested) <= Distance(RateOf(e + 1, hz), requested))
    && (e > DIVISOR_MIN ==> Distance(RateOf(e, hz), requested) <= Distance(RateOf(e - 1, hz), requested))
  }

  /** The achieved rate is the nearest representable one if and only if neither neighbouring divisor is nearer. */
  lemma NearestRateExactly(requested: nat, hz: nat)
    requires requested > 0
    ensures Nearest(requested, hz, Divisor(requested, hz)) <==>
            NearerThanNeighbours(requested, hz, Divisor(requested, hz))
  {
    var e := Divisor(requested, hz);
    NeighboursEnclose(requested, hz);
    assert Legal(e + 1) <==> e < DIVISOR_MAX;
    assert e > DIVISOR_MIN ==> Legal(e - 1);
    if NearerThanNeighbours(requested, hz, e) {
      forall other: nat | Legal(other)
        ensures Distance(RateOf(e, hz), requested) <= Distance(RateOf(other, hz), requested)
      {
        if other < e {
          LargerDivisorIsSlower(other, e - 1, hz);
        } else if e < other {
          LargerDivisorIsSlower(e + 1, other, hz);
        }
      }
    }
  }

  /** It is not always: 144 baud at 150 MHz is achieved as 143, although the next smaller divisor makes 144 exactly. */
  lemma NearestRateMissed()
    ensures RateOf(Divisor(144, 150000000), 150000000) == 143
    ensures RateOf(Divisor(144, 150000000) - 1, 150000000) == 144
    ensures !Nearest(144, 150000000, Divisor(144, 150000000))
  {
    Quotient(1200000000, 144, 8333333);
    DivisorRounds(144, 150000000);
    Quotient(600000000, 4166667, 143);
    Quotient(600000000, 4166666, 144);
    assert Legal(4166666);
  }

  // ---- Recomputing from the achieved rate ------------------------------------------------------------------

  /** Rounding `n / a` to nearest, as the divisor arithmetic does, goes down exactly when the remainder is small. */
  lemma RoundsDown(n: nat, a: nat)
    requires a > 0
    ensures (2 * n / a + 1) / 2 == if 2 * (n % a) < a then n / a else n / a + 1
  {
    var k, t := n / a, n % a;
    assert n == k * a + t;
    if 2 * t < a {
      assert 2 * n == 2 * k * a + 2 * t;
      RemainderIs(2 * n, a, 2 * k, 2 * t);
    } else {
      assert 2 * n == (2 * k + 1) * a + (2 * t - a);
      RemainderIs(2 * n, a, 2 * k + 1, 2 * t - a);
    }
  }

  /** The remainder of the achieved rate is below the divisor it was achieved with. */
  lemma AchievedQuotient(n: nat, e: nat, a: nat)
    requires e > 0 && a == n / e && a > 0
    ensures e <= n / a && n % a < e
  {
    assert n == a * e + n % e;
    QuotientAtMost(n, a, e);
    assert n == n / a * a + n % a;
    Scale(e, n / a, a);
  }

  /** Dividing back: the quotient of the rounded-down divisor is the rate again, the next one is less. */
  lemma DivideBack(n: nat, e: nat, a: nat)
    requires e > 0 && a == n / e && a > 0
    ensures n / a > 0 && n / (n / a) == a && n / (n / a + 1) < a
  {
    var k, t := n / a, n % a;
    AchievedQuotient(n, e, a);
    assert n == k * a + t;
    RemainderIs(n, k, a, t);
    QuotientAtMost(n, k + 1, a);
    assert a * (k + 1) == k * a + a;
  }

  /** An achieved rate never asks for less than the smallest divisor. */
  lemma AchievedAboveLowerClamp(hz: nat, e: nat, a: nat)
    requires e >= DIVISOR_MIN && a == RateOf(e, hz) && a > 0
    ensures 128 <= hz * 8 / a + 1
  {
    assert hz * 4 == a * e + hz * 4 % e;
    Scale(DIVISOR_MIN, e, a);
    QuotientAtMost(hz * 8, a, 128);
  }

  /**
   Recomputing from an achieved rate achieves the same rate again if and only if the division of the clock by that
   rate leaves a remainder below half the rate; or, where the divisor would exceed its largest value, if the rate is
   the one that the largest divisor makes.
   */
  lemma RateReproduced(requested: nat, hz: nat, actual: nat)
    requires requested > 0 && actual == RateOf(Divisor(requested, hz), hz) && actual > 0
    ensures RateOf(Divisor(actual, hz), hz) == actual <==>
      if hz * 8 / actual + 1 >= 65535 * 128 then actual == RateOf(DIVISOR_MAX, hz)
      else 2 * (hz * 4 % actual) < actual
  {
    var n, e := hz * 4, Divisor(requested, hz);
    if hz * 8 / actual + 1 < 65535 * 128 {
      AchievedAboveLowerClamp(hz, e, actual);
      DivisorRounds(actual, hz);
      RoundsDown(n, actual);
      DivideBack(n, e, actual);
      assert hz * 8 == 2 * n;
    } else {
      assert Divisor(actual, hz) == DIVISOR_MAX;
    }
  }

  lemma Cancel(a: nat, b: nat, k: nat)
    requires a * k < b * k
    ensures a < b
  {
    Multiple(b - a, k);
    assert (b - a) * k == b * k - a * k;
  }

  lemma SmallDivisor(n: nat, e: nat, a: nat, s: nat)
    requires e > 0 && n == a * e + s && s < e && 2 * (e * e) <= n
    ensures 2 * e <= a
  {
    assert (a + 1) * e == a * e + e;
    assert 2 * e * e == 2 * (e * e);
    Cancel(2 * e, a + 1, e);
  }

  /** At low divisors for the clock the condition always holds, and the divisor itself is reproduced. */
  lemma SmallDivisorsReproduced(requested: nat, hz: nat, actual: nat)
    requires requested > 0 && Unclamped(requested, hz)
    requires actual == RateOf(Divisor(requested, hz), hz)
    requires Divisor(requested, hz) * Divisor(requested, hz) <= 2 * hz
    ensures actual > 0 && Divisor(actual, hz) == Divisor(requested, hz)
    ensures RateOf(Divisor(actual, hz), hz) == actual
  {
    var n, e := hz * 4, Divisor(requested, hz);
    DivisorRounds(requested, hz);
    DividesTwice(n, e, actual, n % e);
    assert hz * 8 == 2 * n;
  }

  lemma DividesTwice(n: nat, e: nat, a: nat, s: nat)
    requires e > 0 && a == n / e && s == n % e && 2 * (e * e) <= n
    ensures a > 0 && 2 * n / a == 2 * e
  {
    assert n == a * e + s;
    SmallDivisor(n, e, a, s);
    assert 2 * n == 2 * e * a + 2 * s;
    RemainderIs(2 * n, a, 2 * e, 2 * s);
  }

  /** A supported low rate that drifts: 154 baud at 150 MHz achieves 153, which in turn achieves 152. */
  lemma LowRateDrifts()
    ensures RateOf(Divisor(154, 150000000), 150000000) == 153 && ErrorPpm(154, 153) <= MAX_ERROR_PPM
    ensures RateOf(Divisor(153, 150000000), 150000000) == 152
  {
    Quotient(1200000000, 154, 7792207);
    DivisorRounds(154, 150000000);
    Quotient(600000000, 3896104, 153);
    Quotient(1200000000, 153, 7843137);
    DivisorRounds(153, 150000000);
    Quotient(600000000, 3921569, 152);
  }

  // ---- The calculation itself ------------------------------------------------------------------------------

  method Calculate(requested: u32, hz: u32) returns (ok: bool, actualRate: u32, errorPpm: u32)
    ensures ok <==> requested != 0 && hz != 0
    ensures ok ==> actualRate == RateOf(Divisor(requested, hz), hz) && errorPpm == ErrorPpm(requested, actualRate)
  {
    if requested == 0 || hz == 0 {
      return false, 0, 0;
    }
    var divisor := hz * 8 / requested + 1;
    var integer := divisor / 128;
    var encoded;
    if integer == 0 {
      encoded := DIVISOR_MIN;
    } else if integer >= 65535 {
      encoded := DIVISOR_MAX;
    } else {
      encoded := integer * 64 + divisor % 128 / 2;
    }
    var actual := hz * 4 / encoded;
    var difference := if actual > requested then actual - requested else requested - actual;
    NothingTruncated(requested, hz);
    actualRate := Low32(actual);
    errorPpm := Low32((difference * 1000000 + requested / 2) / requested);
    ok := true;
  }

  /** A rate is supported exactly when the achieved one is within 2.00005 percent of it. */
  method Supported(requested: u32, hz: u32) returns (supported: bool, actualRate: u32)
    ensures supported <==>
      requested != 0 && hz != 0 &&
      2000000 * Distance(RateOf(Divisor(requested, hz), hz), requested) < 40001 * requested
    ensures supported ==> actualRate == RateOf(Divisor(requested, hz), hz)
  {
    var ok, errorPpm;
    ok, actualRate, errorPpm := Calculate(requested, hz);
    if ok {
      ToleranceExact(requested, actualRate);
    }
    supported := ok && errorPpm <= MAX_ERROR_PPM;
  }
}
