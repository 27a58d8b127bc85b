/**
 * The compact difficulty form: an exponent byte and a 23-bit mantissa
 * (compactToTarget / targetToCompact / hashMeetsTarget in src/util/binary.ts,
 * blockWork in src/chain/consensus.ts).
 */
module Compact {
  import opened Binary

  const MANTISSA: nat := 0x80_0000     // mantissas stay below the sign bit
  const SHIFT24: nat := 0x100_0000
  const TWO256: nat := Pow(256, 32)

  /** `x | 0`: reduce to a signed 32-bit integer. */
  function Int32(x: nat): int {
    var w := x % U32;
    if w < 0x8000_0000 then w else w - U32
  }

  function CompactToTarget(compact: int): nat {
    var w: nat := compact % U32;
    var exp, mant := w / SHIFT24, w % SHIFT24;
    if exp <= 3 then
      PowPositive(256, 3 - exp);
      mant / Pow(256, 3 - exp)
    else
      mant * Pow(256, exp - 3)
  }

  /** How many whole bytes a target loses when its mantissa is cut to 23 bits. */
  function Exponent(t: nat): nat {
    if t < MANTISSA then 0 else 1 + Exponent(t / 256)
  }

  function Mantissa(t: nat): (m: nat)
    ensures m < MANTISSA
  {
    if t < MANTISSA then t else Mantissa(t / 256)
  }

  function TargetToCompact(target: int): int {
    if target <= 0 then 0
    else Int32((Exponent(target) + 3) % 256 * SHIFT24 + Mantissa(target))
  }

  method TargetToCompactLoop(target: int) returns (compact: int)
    ensures compact == TargetToCompact(target)
  {
    if target <= 0 {
      return 0;
    }
    var exp: nat := 0;
    var t: nat := target;
    while t > 0xff_ffff
      invariant Exponent(target) == exp + Exponent(t)
      invariant Mantissa(target) == Mantissa(t)
    {
      t := t / 256;
      exp := exp + 1;
    }
    var mant := t;
    exp := exp + 3;
    if mant >= 0x80_0000 {
      mant := mant / 256;
      exp := exp + 1;
    }
    compact := Int32(exp % 256 * SHIFT24 + mant);
  }

  /** What survives the trip through the compact form: the target with its low bytes zeroed. */
  function RoundDown(t: nat): nat {
    if t < MANTISSA then t else 256 * RoundDown(t / 256)
  }

  lemma {:induction false} RoundDownIsMantissaShifted(t: nat)
    ensures RoundDown(t) == Mantissa(t) * Pow(256, Exponent(t))
  {
    if t >= MANTISSA {
      RoundDownIsMantissaShifted(t / 256);
      var p := Pow(256, Exponent(t / 256));
      assert Pow(256, Exponent(t)) == 256 * p;
      assert 256 * (Mantissa(t) * p) == Mantissa(t) * (256 * p);
    }
  }

  lemma {:induction false} ExponentBound(t: nat, k: nat)
    requires t < MANTISSA * Pow(256, k)
    ensures Exponent(t) <= k
  {
    if t >= MANTISSA {
      assert k > 0;
      assert MANTISSA * Pow(256, k) == 256 * (MANTISSA * Pow(256, k - 1));
      ExponentBound(t / 256, k - 1);
    }
  }

  /** Every target the chain can express has an exponent far below the sign bit. */
  lemma TargetExponent(t: nat)
    requires t <= TWO256
    ensures Exponent(t) <= 30
  {
    PowWidths();
    PowAdd(256, 30, 2);
    assert Pow(256, 2) == U16;
    ExponentBound(t, 30);
  }

  lemma Unpack(e: nat, m: nat)
    requires e <= 30 && m < MANTISSA
    ensures Int32((e + 3) % 256 * SHIFT24 + m) == (e + 3) * SHIFT24 + m
    ensures CompactToTarget((e + 3) * SHIFT24 + m) == m * Pow(256, e)
  {
    var c := (e + 3) * SHIFT24 + m;
    assert c < 0x8000_0000 && c % U32 == c;
    UnpackFields(e + 3, m);
    if e == 0 {
      assert Pow(256, 0) == 1;
    }
  }

  lemma UnpackFields(hi: nat, lo: nat)
    requires lo < 0x80_0000
    ensures (hi * 0x100_0000 + lo) / 0x100_0000 == hi && (hi * 0x100_0000 + lo) % 0x100_0000 == lo
  {
  }

  /** The decoder reads mantissa times 256^(exponent - 3), rounded down below exponent 3, from any 32-bit word. */
  lemma CompactDenotes(exp: nat, mant: nat, compact: int)
    requires exp < 256 && mant < SHIFT24 && compact % U32 == exp * SHIFT24 + mant
    ensures Pow(256, 3) > 0 && CompactToTarget(compact) == mant * Pow(256, exp) / Pow(256, 3)
  {
    PowPositive(256, 3);
    PowPositive(256, exp);
    WordFields(exp, mant);
    if exp <= 3 {
      PowAdd(256, exp, 3 - exp);
      PowPositive(256, 3 - exp);
      CancelFactor(mant, Pow(256, exp), Pow(256, 3 - exp));
    } else {
      PowAdd(256, exp - 3, 3);
      CancelDivisor(mant, Pow(256, exp - 3), Pow(256, 3));
    }
  }

  lemma WordFields(hi: nat, lo: nat)
    requires lo < 0x100_0000
    ensures (hi * 0x100_0000 + lo) / 0x100_0000 == hi && (hi * 0x100_0000 + lo) % 0x100_0000 == lo
  {
  }

  lemma CancelFactor(m: nat, a: nat, b: nat)
    requires a > 0 && b > 0
    ensures a * b > 0 && m * a / (a * b) == m / b
  {
    DivTwice(m * a, a, b);
    QuotientIs(m * a, a, m, 0);
  }

  lemma CancelDivisor(m: nat, a: nat, d: nat)
    requires d > 0
    ensures m * (a * d) / d == m * a
  {
    assert m * (a * d) == d * (m * a);
    QuotientIs(m * (a * d), d, m * a, 0);
  }

  /** Decoding an encoded target gives the target rounded down, never up. */
  lemma CompactRoundTrip(t: nat)
    requires t <= TWO256
    ensures CompactToTarget(TargetToCompact(t)) == RoundDown(t)
  {
    if t > 0 {
      TargetExponent(t);
      Unpack(Exponent(t), Mantissa(t));
      RoundDownIsMantissaShifted(t);
    }
  }

  /** At least 2^15 of any larger target survives, and the loss is below one part in 2^15. */
  lemma {:induction false} RoundDownClose(t: nat)
    ensures RoundDown(t) <= t
    ensures t >= 0x8000 ==> RoundDown(t) >= 0x8000
    ensures 0x8000 * (t - RoundDown(t)) <= RoundDown(t)
  {
    if t >= MANTISSA {
      var u := t / 256;
      RoundDownClose(u);
      assert t == 256 * u + t % 256;
      RoundDownTight(t);
    }
  }

  lemma {:induction false} RoundDownTight(t: nat)
    requires t >= MANTISSA
    ensures 0x8000 * (t - RoundDown(t)) <= RoundDown(t)
  {
    RoundDownIsMantissaShifted(t);
    var e, m := Exponent(t), Mantissa(t);
    MantissaBracket(t);
    SmallRemainder(t, m, Pow(256, e));
  }

  lemma SmallRemainder(t: nat, m: nat, p: nat)
    requires m >= 0x8000 && m * p <= t < (m + 1) * p
    ensures 0x8000 * (t - m * p) <= m * p
  {
    assert (m + 1) * p == m * p + p;
    assert m * p == 0x8000 * p + (m - 0x8000) * p;
    assert (m - 0x8000) * p >= 0;
  }

  /** The mantissa is the target divided by its power of 256, and has at least 16 significant bits. */
  lemma {:induction false} MantissaBracket(t: nat)
    ensures Mantissa(t) * Pow(256, Exponent(t)) <= t < (Mantissa(t) + 1) * Pow(256, Exponent(t))
    ensures t >= MANTISSA ==> Mantissa(t) >= 0x8000
  {
    if t >= MANTISSA {
      var u := t / 256;
      MantissaBracket(u);
      ScaleBracket(t, u, Mantissa(u), Pow(256, Exponent(u)));
    }
  }

  lemma ScaleBracket(t: nat, u: nat, m: nat, p: nat)
    requires 256 * u <= t < 256 * (u + 1) && m * p <= u < (m + 1) * p
    ensures m * (256 * p) <= t < (m + 1) * (256 * p)
  {
    assert m * (256 * p) == 256 * (m * p);
    assert (m + 1) * (256 * p) == 256 * ((m + 1) * p);
  }

  lemma {:induction false} RoundDownMonotone(a: nat, b: nat)
    requires a <= b
    ensures RoundDown(a) <= RoundDown(b)
    decreases b
  {
    if a >= MANTISSA {
      RoundDownMonotone(a / 256, b / 256);
    } else if b >= MANTISSA {
      RoundDownClose(b);
      RoundDownClose(b / 256);
      assert RoundDown(b) == 256 * RoundDown(b / 256) >= 256 * 0x8000;
    }
  }

  lemma {:induction false} RoundDownIdempotent(t: nat)
    ensures RoundDown(RoundDown(t)) == RoundDown(t)
    ensures Exponent(RoundDown(t)) == Exponent(t) && Mantissa(RoundDown(t)) == Mantissa(t)
  {
    if t >= MANTISSA {
      var u := t / 256;
      RoundDownIdempotent(u);
      RoundDownClose(u);
      assert RoundDown(t) == 256 * RoundDown(u) >= MANTISSA;
      assert RoundDown(t) / 256 == RoundDown(u);
    }
  }

  /**
   * `targetToCompact` followed by `compactToTarget` is a monotone, idempotent
   * round-down that loses less than one part in 2^15 and keeps positive targets positive.
   */
  lemma CompactIsRoundDown(a: nat, b: nat)
    requires a <= b <= TWO256
    ensures var r := (t: nat) => CompactToTarget(TargetToCompact(t));
            && r(a) <= a && 0x8000 * (a - r(a)) <= r(a)
            && r(a) <= r(b)
            && r(r(a)) == r(a)
            && (a > 0 ==> r(a) > 0)
  {
    CompactRoundTrip(a);
    CompactRoundTrip(b);
    RoundDownClose(a);
    RoundDownMonotone(a, b);
    RoundDownIdempotent(a);
    CompactRoundTrip(RoundDown(a));
  }

  /** A difficulty produced by the encoder is canonical: decoding and re-encoding it is the identity. */
  lemma CanonicalCompact(t: nat)
    requires t <= TWO256
    ensures TargetToCompact(CompactToTarget(TargetToCompact(t))) == TargetToCompact(t)
  {
    CompactRoundTrip(t);
    RoundDownIdempotent(t);
    RoundDownClose(t);
  }

  // ------------------------------------------------------------------
  // Proof-of-work comparison and chain work
  // ------------------------------------------------------------------

  /** `hash < target` with the hash read big-endian. */
  method HashMeetsTarget(hash: Bytes, target: nat) returns (ok: bool)
    ensures ok <==> ReadBE(hash) < target
  {
    var h: nat := 0;
    for i := 0 to |hash|
      invariant h == ReadBE(hash[..i])
    {
      assert hash[..i + 1][..i] == hash[..i];
      h := h * 256 + hash[i];
    }
    assert hash[..|hash|] == hash;
    ok := h < target;
  }

  function BlockWork(difficulty: int): nat {
    var target := CompactToTarget(difficulty);
    if target <= 0 then 0 else TWO256 / (target + 1)
  }

  /** A block is worth the attempts its target takes on average: 2^256 over target plus one, rounded down. */
  lemma WorkBracket(difficulty: int)
    ensures var target, work := CompactToTarget(difficulty), BlockWork(difficulty);
            if target == 0 then work == 0 else work * (target + 1) <= TWO256 < (work + 1) * (target + 1)
  {
    hide CompactToTarget, TWO256;
    var t := CompactToTarget(difficulty) + 1;
    assert TWO256 == t * (TWO256 / t) + TWO256 % t;
    assert (TWO256 / t + 1) * t == t * (TWO256 / t) + t;
  }

  /** A difficulty whose target is positive and below 2^256 carries positive work. */
  lemma WorkPositive(difficulty: int)
    requires 0 < CompactToTarget(difficulty) < TWO256
    ensures BlockWork(difficulty) >= 1
  {
    var t := CompactToTarget(difficulty) + 1;
    assert TWO256 / t >= 1 by {
      assert TWO256 == t * (TWO256 / t) + TWO256 % t;
    }
  }
}
