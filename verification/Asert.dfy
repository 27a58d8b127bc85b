/** The exponential difficulty schedule in integer arithmetic (asertTarget in src/chain/consensus.ts). */
module Asert {
  import opened Binary
  import opened Compact
  import opened Genesis

  /** The easiest target the chain ever allows: genesis's, 2^249. */
  ghost function FloorTarget(): nat { CompactToTarget(GENESIS_DIFFICULTY_COMPACT) }

  // ------------------------------------------------------------------
  // JavaScript BigInt operators
  // ------------------------------------------------------------------

  /** `/` truncates toward zero. */
  function TruncDiv(a: int, b: int): int
    requires b > 0
  {
    if a >= 0 then a / b else -(-a / b)
  }

  /** `<<` by a count that may be negative, which shifts right. */
  function Shift(x: nat, s: int): nat {
    if s >= 0 then x * Pow(2, s)
    else
      PowPositive(2, -s);
      x / Pow(2, -s)
  }

  // ------------------------------------------------------------------
  // The schedule
  // ------------------------------------------------------------------

  /** Seconds behind schedule, measured from the anchor. */
  function Deviation(parentHeight: int, parentTime: int, anchorHeight: int, anchorTime: int): int {
    parentTime - anchorTime - (parentHeight - anchorHeight) * TARGET_BLOCK_TIME_S
  }

  /** The deviation in half-lives, as a 16-bit fixed-point number. */
  function Exponent16(dev: int): int { TruncDiv(dev * 65536, HALFLIFE_S) }

  /** 2^(frac / 65536) in 16-bit fixed point, by the cubic of the aserti3-2d specification. */
  function Factor(frac: nat): nat {
    65536 + (195766423245049 * frac + 971821376 * frac * frac + 5127 * frac * frac * frac + 0x8000_0000_0000)
            / 0x1_0000_0000_0000
  }

  /** anchorTarget * 2^(exponent / 65536), still carrying the 16 fixed-point bits. */
  function Scaled(anchorTarget: nat, exponent: int): nat {
    Shift(anchorTarget * Factor(exponent % 65536), exponent / 65536)
  }

  function Clamp(t: nat, floor: nat): nat {
    var positive := if t <= 0 then 1 else t;
    if positive > floor then floor else positive
  }

  function AsertTarget(parentHeight: int, parentTime: int, anchorHeight: int, anchorTime: int, anchorTarget: nat): nat {
    var dev := Deviation(parentHeight, parentTime, anchorHeight, anchorTime);
    Clamp(Scaled(anchorTarget, Exponent16(dev)) / 65536, CompactToTarget(GENESIS_DIFFICULTY_COMPACT))
  }

  method AsertTargetSteps(parentHeight: int, parentTime: int, anchorHeight: int, anchorTime: int, anchorTarget: nat)
    returns (target: nat)
    ensures target == AsertTarget(parentHeight, parentTime, anchorHeight, anchorTime, anchorTarget)
  {
    hide Factor, CompactToTarget, Shift;
    var heightDiff := parentHeight - anchorHeight;
    var timeDiff := parentTime - anchorTime;
    var numerator := (timeDiff - heightDiff * TARGET_BLOCK_TIME_S) * 65536;
    var exponent := TruncDiv(numerator, HALFLIFE_S);
    var shifts := exponent / 65536;
    var frac := (exponent % 65536 + 65536) % 65536;
    if frac >= 65536 {
      frac := frac - 65536;
      shifts := shifts + 1;
    }
    var factor := Factor(frac);
    target := anchorTarget * factor;
    target := Shift(target, shifts);
    target := target / 65536;
    if target <= 0 {
      target := 1;
    }
    var floor := CompactToTarget(GENESIS_DIFFICULTY_COMPACT);
    if target > floor {
      target := floor;
    }
  }

  lemma FloorValue()
    ensures FloorTarget() == 0x20000 * Pow(256, 29) >= 0x20000
    ensures FloorTarget() * 128 == TWO256
    ensures RoundDown(FloorTarget()) == FloorTarget()
  {
    PowWidths();
    PowAdd(256, 29, 3);
    PowPositive(256, 29);
    assert Pow(256, 3) == 0x100_0000;
    FloorRoundDown(29);
  }

  lemma {:induction false} FloorRoundDown(k: nat)
    ensures RoundDown(0x20000 * Pow(256, k)) == 0x20000 * Pow(256, k)
  {
    if k > 0 {
      PowPositive(256, k - 1);
      var t := 0x20000 * Pow(256, k - 1);
      assert 0x20000 * Pow(256, k) == 256 * t;
      FloorRoundDown(k - 1);
      if 256 * t >= MANTISSA {
        assert RoundDown(256 * t) == 256 * RoundDown(t);
      }
    }
  }

  // ------------------------------------------------------------------
  // The cubic factor
  // ------------------------------------------------------------------

  lemma FactorStep(frac: nat)
    ensures Factor(frac) <= Factor(frac + 1)
  {
    assert (frac + 1) * (frac + 1) == frac * frac + 2 * frac + 1;
    assert (frac + 1) * (frac + 1) * (frac + 1) == frac * frac * frac + 3 * (frac * frac) + 3 * frac + 1;
    Cubic(frac, frac * frac, frac * frac * frac);
  }

  lemma Cubic(x: nat, xx: nat, xxx: nat)
    requires xx == x * x && xxx == xx * x
    ensures 195766423245049 * x + 971821376 * x * x + 5127 * x * x * x
         == 195766423245049 * x + 971821376 * xx + 5127 * xxx
    ensures 195766423245049 * (x + 1) + 971821376 * (x + 1) * (x + 1) + 5127 * (x + 1) * (x + 1) * (x + 1)
         >= 195766423245049 * x + 971821376 * xx + 5127 * xxx
  {
    assert (x + 1) * (x + 1) == xx + 2 * x + 1;
    assert 971821376 * (x + 1) * (x + 1) == 971821376 * ((x + 1) * (x + 1));
    assert 5127 * (x + 1) * (x + 1) * (x + 1) == 5127 * (((x + 1) * (x + 1)) * (x + 1));
    assert (xx + 2 * x + 1) * (x + 1) == xxx + 3 * xx + 3 * x + 1;
  }

  lemma {:induction false} FactorMonotone(a: nat, b: nat)
    requires a <= b
    ensures Factor(a) <= Factor(b)
    decreases b - a
  {
    hide Factor;
    if a < b {
      FactorStep(b - 1);
      FactorMonotone(a, b - 1);
    }
  }

  /** The factor starts at exactly 1 and stays below 2, so crossing into the next shift never steps down. */
  lemma FactorRange(frac: nat)
    requires frac < 65536
    ensures 65536 == Factor(0) <= Factor(frac) <= 131071 < 2 * Factor(0)
  {
    assert Factor(65535) == 131071;
    FactorMonotone(0, frac);
    FactorMonotone(frac, 65535);
  }

  // ------------------------------------------------------------------
  // Monotonicity
  // ------------------------------------------------------------------

  lemma ShiftMonotone(x: nat, y: nat, s: int)
    requires x <= y
    ensures Shift(x, s) <= Shift(y, s)
  {
    if s >= 0 {
      assert x * Pow(2, s) <= y * Pow(2, s);
    } else {
      PowPositive(2, -s);
      DivMonotone(x, y, Pow(2, -s));
    }
  }

  lemma DivMonotone(x: nat, y: nat, d: nat)
    requires x <= y && d > 0
    ensures x / d <= y / d
  {
    var p, q := x / d, y / d;
    assert x == d * p + x % d && y == d * q + y % d;
    MulGap(d, p, q);
  }

  /** One more shift is one more doubling, on both sides of zero. */
  lemma ShiftDoubles(x: nat, s: int)
    ensures Shift(2 * x, s) == Shift(x, s + 1)
    ensures Shift(x, s) == Shift(x, s + 1) / 2
  {
    if s >= 0 {
      DoubleProduct(x, Pow(2, s));
      assert Pow(2, s + 1) == 2 * Pow(2, s);
    } else {
      PowPositive(2, -s - 1);
      assert Pow(2, -s) == 2 * Pow(2, -s - 1);
      HalveQuotient(x, Pow(2, -s - 1));
      assert s == -1 ==> Pow(2, -s - 1) == 1 && Pow(2, s + 1) == 1;
    }
  }

  lemma DoubleProduct(x: nat, p: nat)
    ensures 2 * x * p == x * (2 * p) == 2 * (x * p)
  {
  }

  lemma HalveQuotient(x: nat, d: nat)
    requires d > 0
    ensures 2 * x / (2 * d) == x / d && x / (2 * d) == x / d / 2
  {
    DoubledBoth(x, d);
    DoubledDivisor(x, d);
  }

  lemma DoubledBoth(x: nat, d: nat)
    requires d > 0
    ensures 2 * x / (2 * d) == x / d
  {
    var q, r := x / d, x % d;
    MulOut(d, q, 0);
    QuotientIs(2 * x, 2 * d, q, 2 * r);
  }

  lemma DoubledDivisor(x: nat, d: nat)
    requires d > 0
    ensures x / (2 * d) == x / d / 2
  {
    var q, r := x / d, x % d;
    var h, b := q / 2, q % 2;
    MulOut(d, h, b);
    assert q == 2 * h + b;
    assert b == 0 || b == 1;
    QuotientIs(x, 2 * d, h, if b == 0 then r else d + r);
  }

  lemma MulOut(d: nat, h: nat, b: nat)
    ensures d * (2 * h + b) == 2 * d * h + d * b
    ensures 2 * (d * h) == 2 * d * h && d * 0 == 0 && d * 1 == d
  {
  }

  /** One fixed-point step up never lowers the target, inside a shift and across its boundary. */
  lemma ScaledStep(anchorTarget: nat, e: int)
    ensures Scaled(anchorTarget, e) <= Scaled(anchorTarget, e + 1)
  {
    hide Factor, Shift;
    var s, f := e / 65536, e % 65536;
    if f < 65535 {
      assert (e + 1) / 65536 == s && (e + 1) % 65536 == f + 1;
      FactorStep(f);
      assert anchorTarget * Factor(f) <= anchorTarget * Factor(f + 1);
      ShiftMonotone(anchorTarget * Factor(f), anchorTarget * Factor(f + 1), s);
    } else {
      assert (e + 1) / 65536 == s + 1 && (e + 1) % 65536 == 0;
      FactorRange(f);
      assert anchorTarget * Factor(f) <= 2 * (anchorTarget * Factor(0));
      ShiftMonotone(anchorTarget * Factor(f), 2 * (anchorTarget * Factor(0)), s);
      ShiftDoubles(anchorTarget * Factor(0), s);
    }
  }

  lemma {:induction false} ScaledMonotone(anchorTarget: nat, a: int, b: int)
    requires a <= b
    ensures Scaled(anchorTarget, a) <= Scaled(anchorTarget, b)
    decreases b - a
  {
    hide Scaled;
    if a < b {
      ScaledMonotone(anchorTarget, a, b - 1);
      ScaledStep(anchorTarget, b - 1);
    }
  }

  lemma ExponentMonotone(a: int, b: int)
    requires a <= b
    ensures Exponent16(a) <= Exponent16(b)
  {
  }

  /**
   * A later parent never makes the next block harder, and more blocks in the same
   * time never make it easier; the result always lies in [1, floor].
   */
  lemma AsertMonotone(h: int, t: int, h': int, t': int, anchorHeight: int, anchorTime: int, anchorTarget: nat)
    requires h' <= h && t <= t'
    ensures 1 <= AsertTarget(h, t, anchorHeight, anchorTime, anchorTarget)
              <= AsertTarget(h', t', anchorHeight, anchorTime, anchorTarget) <= FloorTarget()
  {
    hide Scaled, CompactToTarget;
    var a, b := Deviation(h, t, anchorHeight, anchorTime), Deviation(h', t', anchorHeight, anchorTime);
    ExponentMonotone(a, b);
    ScaledMonotone(anchorTarget, Exponent16(a), Exponent16(b));
    FloorValue();
  }

  /** Exactly on schedule the anchor's own target comes back. */
  lemma OnSchedule(h: int, t: int, anchorHeight: int, anchorTime: int, anchorTarget: nat)
    requires t - anchorTime == (h - anchorHeight) * TARGET_BLOCK_TIME_S
    requires 1 <= anchorTarget <= FloorTarget()
    ensures AsertTarget(h, t, anchorHeight, anchorTime, anchorTarget) == anchorTarget
  {
    hide CompactToTarget;
    assert Exponent16(0) == 0;
    assert Factor(0) == 65536;
    assert Pow(2, 0) == 1;
  }

  // ------------------------------------------------------------------
  // Half-lives
  // ------------------------------------------------------------------

  /**
   * A half-life of delay adds exactly one to the exponent unless it crosses the
   * schedule from a fractional place: truncating division rounds up before the
   * schedule and down after it. In the failing family the exponent falls one
   * fixed-point step short.
   */
  lemma HalfLifeExact(dev: int)
    ensures Exponent16(dev + HALFLIFE_S) == Exponent16(dev) + 65536 <==> dev >= 0 || dev <= -600 || dev % 75 == 0
    ensures Exponent16(dev) + 65535 <= Exponent16(dev + HALFLIFE_S) <= Exponent16(dev) + 65536
  {
    if -600 < dev < 0 {
      var k := dev * 65536 / 600;
      assert Exponent16(dev + 600) == k + 65536;
      Divisible(dev);
    }
  }

  /** Dividing by 600 after multiplying by 2^16 is exact only for multiples of 75. */
  lemma Divisible(dev: int)
    ensures dev * 65536 % 600 == 0 <==> dev % 75 == 0
  {
    var q, r := dev / 75, dev % 75;
    if r == 0 {
      assert dev * 65536 == 600 * (8192 * q);
    }
    if dev * 65536 % 600 == 0 {
      var k := dev * 65536 / 600;
      assert dev * 65536 == 600 * k;
      OnlyMultiples(r, k - 8192 * q);
    }
  }

  lemma OnlyMultiples(r: int, k: int)
    requires 0 <= r < 75 && 65536 * r == 600 * k
    ensures r == 0
  {
    assert r == 75 * (53 * k - 5789 * r);
  }

  /** One less on the exponent is one halving of the scaled target. */
  lemma HalfLifeHalves(anchorTarget: nat, e: int)
    ensures Scaled(anchorTarget, e) == Scaled(anchorTarget, e + 65536) / 2
  {
    hide Factor, Shift;
    assert (e + 65536) / 65536 == e / 65536 + 1 && (e + 65536) % 65536 == e % 65536;
    ShiftDoubles(anchorTarget * Factor(e % 65536), e / 65536);
  }

  /**
   * For the target itself: where the exponent grows by exactly one, a parent a
   * half-life later doubles the target up to the rounding of the halving, and
   * as far as the floor and the least target 1 allow.
   */
  lemma HalfLifeTarget(h: int, t: int, anchorHeight: int, anchorTime: int, anchorTarget: nat)
    requires var dev := Deviation(h, t, anchorHeight, anchorTime); dev >= 0 || dev <= -600 || dev % 75 == 0
    ensures var now := AsertTarget(h, t, anchorHeight, anchorTime, anchorTarget);
            var later := AsertTarget(h, t + HALFLIFE_S, anchorHeight, anchorTime, anchorTarget);
            && (later < FloorTarget() ==> now == if later / 2 > 0 then later / 2 else 1)
            && (later == FloorTarget() ==> FloorTarget() / 2 <= now)
            && later <= FloorTarget()
  {
    hide Scaled, CompactToTarget, Exponent16, Clamp;
    var dev := Deviation(h, t, anchorHeight, anchorTime);
    var e := Exponent16(dev);
    assert Deviation(h, t + HALFLIFE_S, anchorHeight, anchorTime) == dev + HALFLIFE_S;
    HalfLifeExact(dev);
    HalfLifeHalves(anchorTarget, e);
    HalvedQuotient(Scaled(anchorTarget, e + 65536));
    ClampHalved(Scaled(anchorTarget, e + 65536) / 65536, CompactToTarget(GENESIS_DIFFICULTY_COMPACT));
  }

  lemma HalvedQuotient(x: nat)
    ensures x / 2 / 65536 == x / 65536 / 2
  {
  }

  lemma ClampHalved(raw: nat, floor: nat)
    ensures var now, later := Clamp(raw / 2, floor), Clamp(raw, floor);
            && (later < floor ==> now == if later / 2 > 0 then later / 2 else 1)
            && (later == floor ==> floor / 2 <= now)
            && later <= floor
  {
  }

  /** Where the floor already holds, another half-life late changes nothing: the target does not double. */
  lemma FloorStays(h: int, t: int, anchorHeight: int, anchorTime: int)
    requires t - anchorTime == (h - anchorHeight) * TARGET_BLOCK_TIME_S
    ensures AsertTarget(h, t, anchorHeight, anchorTime, FloorTarget()) == FloorTarget()
    ensures AsertTarget(h, t + HALFLIFE_S, anchorHeight, anchorTime, FloorTarget()) == FloorTarget()
  {
    hide CompactToTarget, AsertTarget;
    FloorValue();
    OnSchedule(h, t, anchorHeight, anchorTime, FloorTarget());
    AsertMonotone(h, t, h, t + HALFLIFE_S, anchorHeight, anchorTime, FloorTarget());
  }

  /** `target` times 2^k, rounded down, but at least 1 and at most the floor. */
  ghost function Doubled(target: nat, k: int): nat {
    PowPositive(2, if k < 0 then -k else 0);
    var raw: nat := if k >= 0 then target * Pow(2, k) else target / Pow(2, -k);
    if raw < 1 then 1 else if raw > FloorTarget() then FloorTarget() else raw
  }

  /**
   * Every half-life behind schedule doubles the anchor's target and every one
   * ahead halves it, for any whole number of them.
   */
  lemma AfterHalfLives(h: int, t: int, anchorHeight: int, anchorTime: int, anchorTarget: nat, k: int)
    requires t - anchorTime - (h - anchorHeight) * TARGET_BLOCK_TIME_S == 600 * k
    ensures AsertTarget(h, t, anchorHeight, anchorTime, anchorTarget) == Doubled(anchorTarget, k)
  {
    hide CompactToTarget, Factor, Shift, Exponent16;
    WholeExponent(k);
    assert Deviation(h, t, anchorHeight, anchorTime) == 600 * k;
    hide Deviation, Scaled;
    ShiftedWhole(anchorTarget, k);
    FloorValue();
  }

  lemma ShiftedWhole(anchorTarget: nat, k: int)
    ensures var x := Scaled(anchorTarget, 65536 * k) / 65536;
            k >= 0 ==> x == anchorTarget * Pow(2, k)
    ensures var x := Scaled(anchorTarget, 65536 * k) / 65536;
            k < 0 ==> Pow(2, -k) > 0 && x == anchorTarget / Pow(2, -k)
  {
    WholeExponent(k);
    assert Factor(0) == 65536;
    hide Factor;
    if k >= 0 {
      ScaledProduct(anchorTarget, Pow(2, k));
    } else {
      PowPositive(2, -k);
      ScaledQuotient(anchorTarget, Pow(2, -k));
    }
  }

  lemma WholeExponent(k: int)
    ensures Exponent16(600 * k) == 65536 * k
    ensures 65536 * k % 65536 == 0 && 65536 * k / 65536 == k
  {
    assert 600 * k * 65536 == 600 * (65536 * k);
  }

  lemma ScaledProduct(x: nat, p: nat)
    ensures x * 65536 * p / 65536 == x * p
  {
    assert x * 65536 * p == 65536 * (x * p);
  }

  lemma ScaledQuotient(x: nat, d: nat)
    requires d > 0
    ensures x * 65536 / d / 65536 == x / d
  {
    var q, r := x / d, x % d;
    var s, u := 65536 * r / d, 65536 * r % d;
    assert 65536 * r == d * s + u;
    MulGap(d, s, 65535);
    assert x * 65536 == d * (65536 * q + s) + u by {
      assert x == d * q + r;
      assert d * (65536 * q + s) == 65536 * (d * q) + d * s;
    }
    QuotientIs(x * 65536, d, 65536 * q + s, u);
    QuotientIs(65536 * q + s, 65536, q, s);
  }

  /**
   * At the quarters of a half-life the cubic is within one part in 10,000 of the
   * power of two it stands for (the fourth powers within one in 2,500); halfway it
   * is low by more than 80 parts in a million (the squares by more than 160).
   */
  lemma FactorQuarters()
    ensures forall i :: 0 <= i < 4 ==>
      var f, p := Factor(16384 * i), Pow(2, i) * 0x1_0000_0000_0000_0000;
      p - p / 2500 <= f * f * f * f <= p + p / 2500
    ensures Factor(32768) * Factor(32768) < 0x2_0000_0000 - 160 * (0x2_0000_0000 / 1_000_000)
  {
    assert Factor(0) == 65536;
    assert Factor(16384) == 77938;
    assert Factor(32768) == 92674;
    assert Factor(49152) == 110225;
    assert Pow(2, 0) == 1 && Pow(2, 1) == 2 && Pow(2, 2) == 4 && Pow(2, 3) == 8;
  }
}
