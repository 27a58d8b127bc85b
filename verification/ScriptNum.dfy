/**
 * Script numbers: little-endian, sign-magnitude, minimally encoded
 * (encodeNum / decodeNum / isTruthy in src/chain/script.ts,
 * encodeScriptNum in src/chain/scriptBuild.ts).
 */
module ScriptNum {
  import opened Binary

  /** Little-endian magnitude without leading zero bytes. */
  function LE(n: nat): Bytes {
    if n == 0 then [] else [n % 256] + LE(n / 256)
  }

  function ReadLE(b: Bytes): nat {
    if b == [] then 0 else b[0] + 256 * ReadLE(b[1..])
  }

  function Abs(v: int): nat { if v < 0 then -v else v }

  function Last(b: Bytes): Byte
    requires b != []
  {
    b[|b| - 1]
  }

  function EncodeNum(v: int): Bytes {
    if v == 0 then [] else
      LENonEmpty(Abs(v));
      Signed(LE(Abs(v)), v < 0)
  }

  /** Puts the sign in the top bit, adding a byte when the magnitude already uses it. */
  function Signed(magnitude: Bytes, negative: bool): Bytes
    requires magnitude != []
  {
    var n := |magnitude|;
    if Last(magnitude) >= 0x80 then magnitude + [if negative then 0x80 else 0x00]
    else if negative then magnitude[n - 1 := Last(magnitude) + 0x80]
    else magnitude
  }

  /** The item's magnitude carries its sign in the top bit of the top byte. */
  function DecodeNum(item: Bytes, maxBytes: nat): Option<int> {
    if |item| > maxBytes then None
    else if item == [] then Some(0)
    else if Last(item) % 0x80 == 0 && (|item| <= 1 || item[|item| - 2] < 0x80) then None
    else if Last(item) >= 0x80 then
      var magnitude: int := ReadLE(item[|item| - 1 := Last(item) - 0x80]);
      Some(-magnitude)
    else Some(ReadLE(item))
  }

  /** True unless every byte is zero, or the only non-zero byte is a lone sign bit on top. */
  predicate IsTruthy(item: Bytes) {
    exists i :: 0 <= i < |item| && item[i] != 0 && !(i == |item| - 1 && item[i] == 0x80)
  }

  // ------------------------------------------------------------------
  // The loops of the implementation
  // ------------------------------------------------------------------

  method EncodeNumLoop(value: int) returns (out: Bytes)
    ensures out == EncodeNum(value)
  {
    if value == 0 {
      return [];
    }
    var neg := value < 0;
    var abs: nat := if neg then -value else value;
    var bytes: Bytes := [];
    while abs > 0
      invariant LE(Abs(value)) == bytes + LE(abs)
    {
      LEStep(bytes, abs);
      bytes := bytes + [abs % 256];
      abs := abs / 256;
    }
    LENonEmpty(Abs(value));
    assert bytes == LE(Abs(value));
    if Last(bytes) >= 0x80 {
      return bytes + [if neg then 0x80 else 0x00];
    }
    out := if neg then bytes[|bytes| - 1 := Last(bytes) + 0x80] else bytes;
  }

  /** `encodeScriptNum` works on JavaScript numbers but produces the same encoding. */
  method EncodeScriptNumLoop(n: int) returns (out: Bytes)
    ensures out == EncodeNum(n)
  {
    if n == 0 {
      return [];
    }
    var v: nat := Abs(n);
    var bytes: Bytes := [];
    while v > 0
      invariant LE(Abs(n)) == bytes + LE(v)
    {
      LEStep(bytes, v);
      bytes := bytes + [v % 256];
      v := v / 256;
    }
    LENonEmpty(Abs(n));
    assert bytes == LE(Abs(n));
    if Last(bytes) >= 0x80 {
      bytes := bytes + [if n < 0 then 0x80 else 0x00];
    } else if n < 0 {
      bytes := bytes[|bytes| - 1 := Last(bytes) + 0x80];
    }
    out := bytes;
  }

  method DecodeNumLoop(item: Bytes, maxBytes: nat) returns (r: Option<int>)
    ensures r == DecodeNum(item, maxBytes)
  {
    var n := |item|;
    if n > maxBytes {
      return None;
    }
    if n == 0 {
      return Some(0);
    }
    var top := item[n - 1];
    if top % 0x80 == 0 {
      if n <= 1 || item[n - 2] < 0x80 {
        return None;
      }
    }
    var result, weight: nat := 0, 1;
    for i := 0 to n
      invariant result == ReadLE(item[..i]) && weight == Pow(256, i)
    {
      ReadLEAppend(item[..i], item[i]);
      assert item[..i + 1] == item[..i] + [item[i]];
      result := result + item[i] * weight;
      weight := weight * 256;
    }
    assert item[..n] == item;
    assert weight / 256 == Pow(256, n - 1);
    var signBit: int := 0x80 * (weight / 256);
    if top >= 0x80 {
      ClearSignBit(item);
      var magnitude: int := result - signBit;
      r := Some(-magnitude);
    } else {
      r := Some(result);
    }
  }

  method IsTruthyLoop(item: Bytes) returns (truthy: bool)
    ensures truthy == IsTruthy(item)
  {
    for i := 0 to |item|
      invariant forall k :: 0 <= k < i ==> item[k] == 0
    {
      if item[i] != 0 {
        if i == |item| - 1 && item[i] == 0x80 {
          return false;
        }
        return true;
      }
    }
    return false;
  }

  // ------------------------------------------------------------------
  // Little-endian arithmetic
  // ------------------------------------------------------------------

  lemma LEStep(done: Bytes, n: nat)
    requires n > 0
    ensures done + LE(n) == done + [n % 256] + LE(n / 256)
  {
  }

  lemma {:induction false} LENonEmpty(n: nat)
    ensures n > 0 ==> LE(n) != [] && Last(LE(n)) > 0
  {
    if n > 0 {
      LENonEmpty(n / 256);
    }
  }

  lemma {:induction false} ReadOfLE(n: nat)
    ensures ReadLE(LE(n)) == n
  {
    if n > 0 {
      ReadOfLE(n / 256);
      assert LE(n)[1..] == LE(n / 256);
    }
  }

  lemma {:induction false} LEOfRead(b: Bytes)
    requires b == [] || Last(b) > 0
    ensures LE(ReadLE(b)) == b
    ensures b != [] ==> ReadLE(b) > 0
  {
    if b != [] {
      var rest := b[1..];
      LEOfRead(rest);
      assert ReadLE(b) % 256 == b[0] && ReadLE(b) / 256 == ReadLE(rest);
      assert [b[0]] + rest == b;
    }
  }

  lemma {:induction false} ReadLEAppend(b: Bytes, top: Byte)
    ensures ReadLE(b + [top]) == ReadLE(b) + top * Pow(256, |b|)
  {
    if b == [] {
      assert ReadLE([top]) == top;
    } else {
      ReadLEAppend(b[1..], top);
      assert (b + [top])[1..] == b[1..] + [top];
      var p := Pow(256, |b| - 1);
      assert 256 * (ReadLE(b[1..]) + top * p) == 256 * ReadLE(b[1..]) + top * (256 * p);
    }
  }

  lemma ClearSignBit(item: Bytes)
    requires item != [] && Last(item) >= 0x80
    ensures ReadLE(item[|item| - 1 := Last(item) - 0x80]) == ReadLE(item) - 0x80 * Pow(256, |item| - 1)
  {
    var front, top, p := item[..|item| - 1], Last(item), Pow(256, |item| - 1);
    ReadLEAppend(front, top);
    ReadLEAppend(front, top - 0x80);
    assert item == front + [top] && item[|item| - 1 := top - 0x80] == front + [top - 0x80];
    assert (top - 0x80) * p == top * p - 0x80 * p;
  }

  // ------------------------------------------------------------------
  // The codec laws
  // ------------------------------------------------------------------

  /** Every integer decodes back from its encoding, whenever the encoding fits the operand limit. */
  lemma DecodeOfEncode(v: int, maxBytes: nat)
    ensures DecodeNum(EncodeNum(v), maxBytes) ==
            if |EncodeNum(v)| <= maxBytes then Some(v) else None
  {
    if v != 0 {
      LENonEmpty(Abs(v));
      ReadOfLE(Abs(v));
      DecodeSigned(LE(Abs(v)), v < 0, maxBytes);
    }
  }

  lemma DecodeSigned(b: Bytes, negative: bool, maxBytes: nat)
    requires b != [] && Last(b) > 0
    ensures var e, magnitude: int := Signed(b, negative), ReadLE(b);
            DecodeNum(e, maxBytes) ==
            if |e| > maxBytes then None else Some(if negative then -magnitude else magnitude)
  {
    var e := Signed(b, negative);
    if Last(b) >= 0x80 {
      ReadLEAppend(b, 0);
      assert e[|e| - 1 := 0] == b + [0];
    } else if negative {
      assert e[|e| - 1 := Last(e) - 0x80] == b;
    }
  }

  /** Anything the decoder accepts is the one encoding of the number it denotes. */
  lemma EncodeOfDecode(item: Bytes, maxBytes: nat)
    requires DecodeNum(item, maxBytes).Some?
    ensures EncodeNum(DecodeNum(item, maxBytes).value) == item
  {
    if item != [] {
      var body := item[|item| - 1 := Last(item) % 0x80];
      var magnitude: int := ReadLE(body);
      if Last(item) % 0x80 > 0 {
        MinimalWithoutSignByte(item);
      } else {
        MinimalWithSignByte(item);
      }
      if Last(item) < 0x80 {
        assert body == item;
      }
      SignOfDecoded(DecodeNum(item, maxBytes).value, magnitude, Last(item) >= 0x80, item);
    }
  }

  lemma SignOfDecoded(v: int, magnitude: nat, negative: bool, item: Bytes)
    requires magnitude > 0 && v == if negative then -(magnitude as int) else magnitude
    requires LE(magnitude) != [] && Signed(LE(magnitude), negative) == item
    ensures EncodeNum(v) == item
  {
  }

  lemma MinimalWithoutSignByte(item: Bytes)
    requires item != [] && Last(item) % 0x80 > 0
    ensures var body := item[|item| - 1 := Last(item) % 0x80];
            ReadLE(body) > 0 && LE(ReadLE(body)) != [] && Signed(LE(ReadLE(body)), Last(item) >= 0x80) == item
  {
    var body := item[|item| - 1 := Last(item) % 0x80];
    LEOfRead(body);
    assert Signed(body, Last(item) >= 0x80) == item;
  }

  lemma MinimalWithSignByte(item: Bytes)
    requires |item| >= 2 && Last(item) % 0x80 == 0 && item[|item| - 2] >= 0x80
    ensures var body := item[|item| - 1 := 0];
            ReadLE(body) > 0 && LE(ReadLE(body)) != [] && Signed(LE(ReadLE(body)), Last(item) >= 0x80) == item
  {
    var front := item[..|item| - 1];
    assert Last(front) == item[|item| - 2];
    ReadLEAppend(front, 0);
    LEOfRead(front);
    assert item[|item| - 1 := 0] == front + [0];
    assert Signed(front, Last(item) >= 0x80) == front + [Last(item)] == item;
  }

  /** An operand fits in `k` bytes exactly when its magnitude is below half of 256^k. */
  lemma {:induction false} EncodedLength(v: int, k: nat)
    requires k > 0
    ensures |EncodeNum(v)| <= k <==> Abs(v) < 0x80 * Pow(256, k - 1)
  {
    PowPositive(256, k - 1);
    if v != 0 {
      LENonEmpty(Abs(v));
      LETopBit(Abs(v), k);
    }
  }

  lemma {:induction false} LETopBit(n: nat, k: nat)
    requires n > 0 && k > 0
    ensures LE(n) != []
    ensures n < 0x80 * Pow(256, k - 1) <==> |LE(n)| < k || (|LE(n)| == k && Last(LE(n)) < 0x80)
  {
    LENonEmpty(n);
    LENonEmpty(n / 256);
    if n / 256 == 0 {
      assert LE(n) == [n];
      PowPositive(256, k - 1);
      if k > 1 {
        PowPositive(256, k - 2);
      }
    } else {
      assert LE(n)[1..] == LE(n / 256);
      if k == 1 {
        assert |LE(n)| >= 2;
      } else {
        LETopBit(n / 256, k - 1);
        var p := 0x80 * Pow(256, k - 2);
        assert 0x80 * Pow(256, k - 1) == 256 * p;
      }
    }
  }

  /** On encoded numbers, truthiness is being non-zero. */
  lemma TruthyNumber(v: int)
    ensures IsTruthy(EncodeNum(v)) <==> v != 0
  {
    if v != 0 {
      var b := LE(Abs(v));
      LENonEmpty(Abs(v));
      var e := EncodeNum(v);
      if Last(b) >= 0x80 {
        assert e[|b| - 1] != 0;
      } else {
        assert e[|e| - 1] != 0 && e[|e| - 1] != 0x80;
      }
    }
  }

  /** A number's bytes are its magnitude, least significant first, the top bit added when it is negative. */
  lemma EncodedValue(v: int)
    ensures v >= 0 ==> ReadLE(EncodeNum(v)) == v && (v > 0 ==> EncodeNum(v) != [] && Last(EncodeNum(v)) < 0x80)
    ensures v < 0 ==>
      EncodeNum(v) != [] && Last(EncodeNum(v)) >= 0x80
      && ReadLE(EncodeNum(v)) - 0x80 * Pow(256, |EncodeNum(v)| - 1) == -v
  {
    if v != 0 {
      var b, e := LE(Abs(v)), EncodeNum(v);
      LENonEmpty(Abs(v));
      ReadOfLE(Abs(v));
      if Last(b) >= 0x80 {
        ReadLEAppend(b, 0);
      }
      if v < 0 {
        ClearSignBit(e);
        assert e[|e| - 1 := Last(e) - 0x80] == if Last(b) >= 0x80 then b + [0] else b;
      }
    }
  }

  /** Byte `i` counts multiples of 256^i. */
  lemma {:induction false} ReadLEDigits(b: Bytes, i: nat)
    requires i < |b|
    ensures Pow(256, i) > 0 && ReadLE(b) / Pow(256, i) % 256 == b[i]
  {
    PowPositive(256, i);
    if i > 0 {
      PowPositive(256, i - 1);
      ReadLEDigits(b[1..], i - 1);
      DivTwice(ReadLE(b), 256, Pow(256, i - 1));
      assert ReadLE(b) / 256 == ReadLE(b[1..]);
    }
  }
}
