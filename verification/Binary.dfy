/** Byte strings, big-endian integers, hex, and the compact difficulty form (src/util/binary.ts). */
module Binary {

  type Byte = x: int | 0 <= x < 256
  type Bytes = seq<Byte>

  datatype Option<+T> = None | Some(value: T)

  // ------------------------------------------------------------------
  // Powers
  // ------------------------------------------------------------------

  function Pow(b: nat, e: nat): nat {
    if e == 0 then 1 else b * Pow(b, e - 1)
  }

  lemma {:induction false} PowPositive(b: nat, e: nat)
    requires b > 0
    ensures Pow(b, e) > 0
  {
    if e > 0 {
      PowPositive(b, e - 1);
    }
  }

  lemma {:induction false} PowAdd(b: nat, e: nat, f: nat)
    ensures Pow(b, e + f) == Pow(b, e) * Pow(b, f)
  {
    if e > 0 {
      PowAdd(b, e - 1, f);
      assert Pow(b, e + f) == b * (Pow(b, e - 1) * Pow(b, f));
      assert Pow(b, e) == b * Pow(b, e - 1);
      assert b * (Pow(b, e - 1) * Pow(b, f)) == (b * Pow(b, e - 1)) * Pow(b, f);
    }
  }

  // ------------------------------------------------------------------
  // Products and quotients
  // ------------------------------------------------------------------

  lemma MulMonotone(d: nat, p: nat, q: nat)
    requires p <= q
    ensures d * p <= d * q
  {
    assert d * q == d * p + d * (q - p);
    assert d * (q - p) >= 0;
  }

  lemma MulGap(d: nat, p: nat, q: nat)
    ensures p > q ==> d * p >= d * q + d
  {
    if p > q {
      MulMonotone(d, q + 1, p);
      assert d * (q + 1) == d * q + d;
    }
  }

  lemma QuotientIs(x: nat, d: nat, q: nat, r: nat)
    requires d > 0 && x == d * q + r && r < d
    ensures x / d == q
  {
    var q', r' := x / d, x % d;
    assert x == d * q' + r';
    MulGap(d, q, q');
    MulGap(d, q', q);
  }

  lemma DivTwice(n: nat, a: nat, b: nat)
    requires a > 0 && b > 0
    ensures a * b > 0 && n / a / b == n / (a * b)
  {
    var q, r := n / a, n % a;
    var p, s := q / b, q % b;
    TwoSteps(n, a, b, q, r, p, s);
    QuotientIs(n, a * b, p, a * s + r);
  }

  lemma TwoSteps(n: nat, a: nat, b: nat, q: nat, r: nat, p: nat, s: nat)
    requires n == a * q + r && r < a && q == b * p + s && s < b
    ensures n == a * b * p + (a * s + r) && 0 <= a * s + r < a * b
  {
    MulMonotone(a, s + 1, b);
    Expand(a, b, p, s);
  }

  lemma Expand(a: nat, b: nat, p: nat, s: nat)
    ensures a * (b * p + s) == a * b * p + a * s && a * (s + 1) == a * s + a && a * s >= 0
  {
  }

  // ------------------------------------------------------------------
  // Big-endian fixed width
  // ------------------------------------------------------------------

  /** The low `k` bytes of `n`, most significant first. */
  function BE(n: int, k: nat): (r: Bytes)
    ensures |r| == k
    decreases k
  {
    if k == 0 then [] else BE(n / 256, k - 1) + [n % 256]
  }

  /** The number a big-endian byte string denotes. */
  function ReadBE(b: Bytes): nat {
    if b == [] then 0 else ReadBE(b[..|b| - 1]) * 256 + b[|b| - 1]
  }

  lemma {:induction false} ReadBEBound(b: Bytes)
    ensures ReadBE(b) < Pow(256, |b|)
  {
    if b != [] {
      ReadBEBound(b[..|b| - 1]);
      assert |b[..|b| - 1]| == |b| - 1;
    }
  }

  /** Reading back what was written gives the number, when it fits the width. */
  lemma {:induction false} ReadOfBE(n: nat, k: nat)
    requires n < Pow(256, k)
    ensures ReadBE(BE(n, k)) == n
  {
    if k > 0 {
      assert n / 256 < Pow(256, k - 1);
      ReadOfBE(n / 256, k - 1);
      var w := BE(n, k);
      assert w[..|w| - 1] == BE(n / 256, k - 1);
    }
  }

  /** Writing back what was read gives the bytes. */
  lemma {:induction false} BEOfRead(b: Bytes)
    ensures BE(ReadBE(b), |b|) == b
  {
    if b != [] {
      var front, last := b[..|b| - 1], b[|b| - 1];
      BEOfRead(front);
      assert ReadBE(b) / 256 == ReadBE(front) && ReadBE(b) % 256 == last;
      assert b == front + [last];
    }
  }

  /** Byte `i` of `k` counts multiples of 256^(k - 1 - i): the first one is the most significant. */
  lemma {:induction false} BEDigits(n: nat, k: nat, i: nat)
    requires i < k
    ensures Pow(256, k - 1 - i) > 0 && BE(n, k)[i] == n / Pow(256, k - 1 - i) % 256
  {
    PowPositive(256, k - 1 - i);
    if i < k - 1 {
      PowPositive(256, k - 2 - i);
      BEDigits(n / 256, k - 1, i);
      DivTwice(n, 256, Pow(256, k - 2 - i));
    }
  }

  const U16: nat := 0x1_0000
  const U32: nat := 0x1_0000_0000
  const U64: nat := 0x1_0000_0000_0000_0000

  lemma PowWidths()
    ensures Pow(256, 2) == U16 && Pow(256, 4) == U32 && Pow(256, 8) == U64
    ensures Pow(256, 32) == 0x1_0000000000000000_0000000000000000_0000000000000000_0000000000000000
  {
    assert Pow(256, 4) == U32;
    PowAdd(256, 4, 4);
    PowAdd(256, 8, 8);
    PowAdd(256, 16, 16);
  }

  function U16be(n: int): (r: Bytes) ensures |r| == 2 { BE(n, 2) }
  function U32be(n: int): (r: Bytes) ensures |r| == 4 { BE(n, 4) }
  function U64be(n: int): (r: Bytes) ensures |r| == 8 { BE(n, 8) }

  /** Fills the eight bytes from the right, shifting the value down a byte at a time. */
  method U64beLoop(value: int) returns (b: array<Byte>)
    ensures fresh(b) && b[..] == U64be(value)
  {
    b := new Byte[8](_ => 0);
    var n, i := value, 7;
    while i >= 0
      invariant -1 <= i <= 7
      invariant U64be(value) == BE(n, i + 1) + b[i + 1..]
    {
      b[i] := n % 256;
      assert b[i..] == [n % 256] + b[i + 1..];
      n := n / 256;
      i := i - 1;
    }
    assert b[0..] == b[..];
  }

  /** A JavaScript read past the end of a buffer is `undefined`, which bit operators take as 0. */
  function At(buf: Bytes, i: nat): Byte {
    if i < |buf| then buf[i] else 0
  }

  /** `Uint8Array.slice` clamps both ends to the buffer. */
  function Slice(buf: Bytes, lo: nat, hi: nat): Bytes
    requires lo <= hi
  {
    var n := |buf|;
    buf[(if lo < n then lo else n)..(if hi < n then hi else n)]
  }

  function ReadU16be(buf: Bytes, off: nat): nat {
    At(buf, off) * 256 + At(buf, off + 1)
  }

  function ReadU32be(buf: Bytes, off: nat): nat {
    ((At(buf, off) * 256 + At(buf, off + 1)) * 256 + At(buf, off + 2)) * 256 + At(buf, off + 3)
  }

  /** `BigInt(undefined)` throws, so unlike the narrower readers this one fails past the end. */
  function ReadU64be(buf: Bytes, off: nat): Option<nat> {
    if off + 8 <= |buf| then Some(ReadBE(buf[off..off + 8])) else None
  }

  method ReadU64beLoop(buf: Bytes, off: nat) returns (r: Option<nat>)
    ensures r == ReadU64be(buf, off)
  {
    var n: nat := 0;
    for i := 0 to 8
      invariant off + i <= |buf| || i == 0
      invariant off + i <= |buf| ==> n == ReadBE(buf[off..off + i])
    {
      if off + i >= |buf| {
        return None;
      }
      ReadStep(buf, off, i);
      n := n * 256 + buf[off + i];
    }
    r := Some(n);
  }

  /** In range, the unrolled readers agree with the positional definition. */
  lemma ReadersAgree(buf: Bytes, off: nat)
    ensures off + 2 <= |buf| ==> ReadU16be(buf, off) == ReadBE(buf[off..off + 2])
    ensures off + 4 <= |buf| ==> ReadU32be(buf, off) == ReadBE(buf[off..off + 4])
  {
    if off + 2 <= |buf| {
      ReadStep(buf, off, 0);
      ReadStep(buf, off, 1);
    }
    if off + 4 <= |buf| {
      ReadStep(buf, off, 2);
      ReadStep(buf, off, 3);
    }
  }

  lemma ReadStep(buf: Bytes, off: nat, k: nat)
    requires off + k < |buf|
    ensures ReadBE(buf[off..off + k + 1]) == ReadBE(buf[off..off + k]) * 256 + buf[off + k]
  {
    assert buf[off..off + k + 1][..k] == buf[off..off + k];
  }

  // ------------------------------------------------------------------
  // Hex
  // ------------------------------------------------------------------

  function HexChar(nibble: nat): char
    requires nibble < 16
  {
    if nibble < 10 then '0' + nibble as char else 'a' + (nibble - 10) as char
  }

  function BytesToHex(b: Bytes): (s: string)
    ensures |s| == 2 * |b|
  {
    if b == [] then "" else [HexChar(b[0] / 16), HexChar(b[0] % 16)] + BytesToHex(b[1..])
  }

  function HexDigit(c: char): Option<nat> {
    if '0' <= c <= '9' then Some(c as int - '0' as int)
    else if 'a' <= c <= 'f' then Some(c as int - 'a' as int + 10)
    else if 'A' <= c <= 'F' then Some(c as int - 'A' as int + 10)
    else None
  }

  function HexDigits(s: string): Option<Bytes> {
    if s == "" then Some([])
    else if |s| < 2 then None
    else
      match (HexDigit(s[0]), HexDigit(s[1]), HexDigits(s[2..]))
      case (Some(hi), Some(lo), Some(rest)) => Some([HexByte(hi, lo)] + rest)
      case _ => None
  }

  function HexByte(hi: nat, lo: nat): Byte { (hi * 16 + lo) % 256 }

  /** `hexToBytes`: an optional 0x prefix, then an even number of hex digits; it throws otherwise. */
  function HexToBytes(s: string): Option<Bytes> {
    if |s| >= 2 && s[0] == '0' && s[1] == 'x' then HexDigits(s[2..]) else HexDigits(s)
  }

  function Lower(c: char): char {
    if 'A' <= c <= 'Z' then c - 'A' + 'a' else c
  }

  function ToLower(s: string): (r: string)
    ensures |r| == |s|
  {
    if s == "" then "" else [Lower(s[0])] + ToLower(s[1..])
  }

  lemma HexDigitOfLower(c: char, nibble: nat)
    requires nibble < 16 && Lower(c) == HexChar(nibble)
    ensures HexDigit(c) == Some(nibble) && c != 'x'
  {
  }

  lemma NibblesMake(x: Byte)
    ensures HexByte(x / 16, x % 16) == x
  {
  }

  lemma {:induction false} HexDigitsOfLower(s: string, b: Bytes)
    requires ToLower(s) == BytesToHex(b)
    ensures HexDigits(s) == Some(b)
    ensures |s| >= 2 ==> s[1] != 'x'
  {
    hide Lower, HexChar, HexDigit, HexByte;
    if b != [] {
      NibblesMake(b[0]);
      var lower := ToLower(s);
      assert lower[0] == Lower(s[0]) && lower[1..] == ToLower(s[1..]);
      assert lower[1] == Lower(s[1]) && lower[2..] == ToLower(s[2..]);
      assert lower[0] == HexChar(b[0] / 16) && lower[1] == HexChar(b[0] % 16);
      assert lower[2..] == BytesToHex(b[1..]);
      HexDigitOfLower(s[0], b[0] / 16);
      HexDigitOfLower(s[1], b[0] % 16);
      HexDigitsOfLower(s[2..], b[1..]);
      assert [b[0]] + b[1..] == b;
    }
  }

  /** Any string equal to a byte string's hex up to letter case decodes to exactly those bytes. */
  lemma HexMatchDecodes(s: string, b: Bytes)
    requires ToLower(s) == BytesToHex(b)
    ensures HexToBytes(s) == Some(b)
  {
    HexDigitsOfLower(s, b);
  }

  lemma {:induction false} LowerOfHex(b: Bytes)
    ensures ToLower(BytesToHex(b)) == BytesToHex(b)
  {
    if b != [] {
      LowerOfHex(b[1..]);
      var h := BytesToHex(b);
      assert h[1..] == [h[1]] + BytesToHex(b[1..]);
      assert ToLower(h) == [Lower(h[0])] + ToLower(h[1..]);
      assert h[1..][1..] == BytesToHex(b[1..]);
    }
  }

  /** Keying a map by hex string is keying it by the bytes. */
  lemma HexInjective(a: Bytes, b: Bytes)
    requires BytesToHex(a) == BytesToHex(b)
    ensures a == b
  {
    LowerOfHex(a);
    HexMatchDecodes(BytesToHex(a), a);
    HexMatchDecodes(BytesToHex(a), b);
  }

  /** Two digits a byte, the high one first, in lower case. */
  lemma {:induction false} HexSpells(b: Bytes, i: nat)
    requires i < |b|
    ensures BytesToHex(b)[2 * i..2 * i + 2] == ["0123456789abcdef"[b[i] / 16], "0123456789abcdef"[b[i] % 16]]
  {
    if i == 0 {
      Digits(b[0] / 16);
      Digits(b[0] % 16);
      hide HexChar;
      assert BytesToHex(b)[..2] == [HexChar(b[0] / 16), HexChar(b[0] % 16)];
    } else {
      hide HexChar;
      HexSpells(b[1..], i - 1);
      assert BytesToHex(b)[2..] == BytesToHex(b[1..]);
      assert BytesToHex(b)[2 * i..2 * i + 2] == BytesToHex(b[1..])[2 * (i - 1)..2 * (i - 1) + 2];
    }
  }

  lemma Digits(nibble: nat)
    requires nibble < 16
    ensures HexChar(nibble) == "0123456789abcdef"[nibble]
  {
  }

  /** A byte string comes back from its hex. */
  lemma HexOfBytes(bytes: Bytes)
    ensures HexToBytes(BytesToHex(bytes)) == Some(bytes)
  {
    hide BytesToHex, HexToBytes;
    LowerOfHex(bytes);
    HexMatchDecodes(BytesToHex(bytes), bytes);
  }
}
