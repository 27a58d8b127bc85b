/**
 * What the arithmetic, comparison, hashing, signature and locktime opcodes leave,
 * for all operands (src/chain/script.ts 450-634). Operands are pushed by the
 * program; the item an opcode leaves is read back as a number.
 */
module NumberLaws {
  import opened Binary
  import opened Crypto
  import opened OpcodeLaws
  import opened ScriptNum
  import opened Script
  import opened ScriptBuild

  /** A number of at most four bytes, as arithmetic takes. */
  predicate Operand(n: int) { -0x8000_0000 < n < 0x8000_0000 }

  /** The one item a program leaves on top of what was there, if that is all it does. */
  ghost function Left(c: Crypto, ctx: Context, prog: List<Instr>, m: Machine): Option<Bytes> {
    var st := Effect(c, ctx, prog, m);
    if st.Some? && st.value.alt == m.st.alt && st.value.main.Cons? && st.value.main.tail == m.st.main
    then Some(st.value.main.head) else None
  }

  /** The number a program leaves: results can be a byte longer than operands. */
  ghost function Value(c: Crypto, ctx: Context, prog: List<Instr>, m: Machine): Option<int> {
    var item := Left(c, ctx, prog, m);
    if item.None? then None else DecodeNum(item.value, MAX_NUM_BYTES + 1)
  }

  function Apply1(x: int, op: Byte): List<Instr> { Two(Num(x), Code(op)) }

  function Apply2(x: int, y: int, op: Byte): List<Instr> { Three(Num(x), Num(y), Code(op)) }

  function Apply3(x: int, y: int, z: int, op: Byte): List<Instr> { Cons(Num(x), Apply2(y, z, op)) }

  function Truth(b: bool): Option<int> { Some(if b then 1 else 0) }

  // ------------------------------------------------------------------
  // From programs to stacks
  // ------------------------------------------------------------------

  lemma Pushed2(c: Crypto, ctx: Context, a: Bytes, b: Bytes, op: Byte, m: Machine)
    requires Live(m, 1) && Room(m, 2) && op != OP_IF && op != OP_ELSE && op != OP_ENDIF
    ensures Effect(c, ctx, Three(Push(a), Push(b), Code(op)), m) ==
            Execute(c, ctx, op, m.st.(main := Cons(b, Cons(a, m.st.main))))
  {
    hide RunAll, Execute;
    PushRuns(c, ctx, a, Two(Push(b), Code(op)), m);
    Pushed1(c, ctx, b, op, m.(st := m.st.(main := Cons(a, m.st.main))));
  }

  lemma Pushed3(c: Crypto, ctx: Context, a: Bytes, b: Bytes, d: Bytes, op: Byte, m: Machine)
    requires Live(m, 1) && Room(m, 3) && op != OP_IF && op != OP_ELSE && op != OP_ENDIF
    ensures Effect(c, ctx, Cons(Push(a), Three(Push(b), Push(d), Code(op))), m) ==
            Execute(c, ctx, op, m.st.(main := Cons(d, Cons(b, Cons(a, m.st.main)))))
  {
    hide RunAll, Execute;
    PushRuns(c, ctx, a, Three(Push(b), Push(d), Code(op)), m);
    Pushed2(c, ctx, b, d, op, m.(st := m.st.(main := Cons(a, m.st.main))));
  }

  /** An executed opcode that leaves an encoded number leaves that number. */
  lemma LeavesNumber(c: Crypto, ctx: Context, prog: List<Instr>, m: Machine, v: int)
    requires Effect(c, ctx, prog, m) == Some(m.st.(main := Cons(EncodeNum(v), m.st.main)))
    requires -0x1_0000_0000 < v < 0x1_0000_0000
    ensures Value(c, ctx, prog, m) == Some(v)
  {
    hide Effect, EncodeNum, DecodeNum;
    assert 0x80 * Pow(256, 4) == 0x80_0000_0000;
    EncodedLength(v, 5);
    DecodeOfEncode(v, 5);
  }

  lemma Unary1(c: Crypto, ctx: Context, x: int, op: Byte, v: int, m: Machine)
    requires Live(m, 1) && Room(m, 1) && Operand(x) && Unary(op, x) == Some(v) && OP_1ADD <= op <= OP_0NOTEQUAL
    ensures Value(c, ctx, Apply1(x, op), m) == Some(v)
  {
    hide Effect, EncodeNum, DecodeNum;
    SmallOperand(x);
    Pushed1(c, ctx, EncodeNum(x), op, m);
    LeavesNumber(c, ctx, Apply1(x, op), m, v);
  }

  lemma Dyadic2(c: Crypto, ctx: Context, x: int, y: int, op: Byte, v: int, m: Machine)
    requires Live(m, 1) && Room(m, 2) && Operand(x) && Operand(y) && Dyadic(op, x, y) == Some(v)
    requires OP_0NOTEQUAL < op < OP_WITHIN && op != OP_NUMEQUALVERIFY
    ensures Value(c, ctx, Apply2(x, y, op), m) == Some(v)
  {
    hide Effect, EncodeNum, DecodeNum;
    SmallOperand(x);
    SmallOperand(y);
    Pushed2(c, ctx, EncodeNum(x), EncodeNum(y), op, m);
    LeavesNumber(c, ctx, Apply2(x, y, op), m, v);
  }

  // ------------------------------------------------------------------
  // Arithmetic
  // ------------------------------------------------------------------

  /** Adding a number and taking it away undo each other, and one is the number the short forms add. */
  lemma SumsAndDifferences(c: Crypto, ctx: Context, x: int, y: int, m: Machine)
    requires Live(m, 1) && Room(m, 2) && Operand(x) && Operand(y)
    ensures var sum := Value(c, ctx, Apply2(x, y, OP_ADD), m); sum.Some? && sum.value - y == x
    ensures var diff := Value(c, ctx, Apply2(x, y, OP_SUB), m); diff.Some? && diff.value + y == x
    ensures Value(c, ctx, Apply1(x, OP_1ADD), m) == Value(c, ctx, Apply2(x, 1, OP_ADD), m)
    ensures Value(c, ctx, Apply1(x, OP_1SUB), m) == Value(c, ctx, Apply2(x, 1, OP_SUB), m)
  {
    hide Value, Apply1, Apply2;
    Dyadic2(c, ctx, x, y, OP_ADD, x + y, m);
    Dyadic2(c, ctx, x, y, OP_SUB, x - y, m);
    Dyadic2(c, ctx, x, 1, OP_ADD, x + 1, m);
    Dyadic2(c, ctx, x, 1, OP_SUB, x - 1, m);
    Unary1(c, ctx, x, OP_1ADD, x + 1, m);
    Unary1(c, ctx, x, OP_1SUB, x - 1, m);
  }

  /** A number and its negation add up to nothing; the absolute value is the non-negative one of the two. */
  lemma SignLaws(c: Crypto, ctx: Context, x: int, m: Machine)
    requires Live(m, 1) && Room(m, 1) && Operand(x)
    ensures var neg := Value(c, ctx, Apply1(x, OP_NEGATE), m); neg.Some? && neg.value + x == 0
    ensures var abs := Value(c, ctx, Apply1(x, OP_ABS), m); abs.Some? && abs.value >= 0 && abs.value in {x, -x}
    ensures Value(c, ctx, Apply1(x, OP_NOT), m) == Truth(x == 0)
    ensures Value(c, ctx, Apply1(x, OP_0NOTEQUAL), m) == Truth(x != 0)
  {
    hide Value, Apply1;
    Unary1(c, ctx, x, OP_NEGATE, -x, m);
    Unary1(c, ctx, x, OP_ABS, if x < 0 then -x else x, m);
    Unary1(c, ctx, x, OP_NOT, if x == 0 then 1 else 0, m);
    Unary1(c, ctx, x, OP_0NOTEQUAL, if x != 0 then 1 else 0, m);
  }

  /** Negating twice gives the operand back. */
  lemma NegatedTwice(c: Crypto, ctx: Context, x: int, m: Machine)
    requires Live(m, 2) && Room(m, 1) && Operand(x)
    ensures Effect(c, ctx, Three(Num(x), Code(OP_NEGATE), Code(OP_NEGATE)), m) == Effect(c, ctx, One(Num(x)), m)
  {
    hide RunAll, EncodeNum, Execute;
    var n := m.(st := m.st.(main := Cons(EncodeNum(x), m.st.main)));
    PushRuns(c, ctx, EncodeNum(x), Two(Code(OP_NEGATE), Code(OP_NEGATE)), m);
    PushRuns(c, ctx, EncodeNum(x), Nil, m);
    NothingRuns(c, ctx, n);
    Pair(c, ctx, OP_NEGATE, OP_NEGATE, n);
    Negates(c, ctx, x, m.st);
    Negates(c, ctx, -x, m.st);
  }

  lemma Negates(c: Crypto, ctx: Context, x: int, st: Stacks)
    requires Operand(x)
    ensures Execute(c, ctx, OP_NEGATE, st.(main := Cons(EncodeNum(x), st.main))) ==
            Some(st.(main := Cons(EncodeNum(-x), st.main)))
  {
    hide EncodeNum, DecodeNum;
    SmallOperand(x);
  }

  /** MIN is the greatest lower bound among its operands, MAX the least upper one. */
  lemma Bounds(c: Crypto, ctx: Context, x: int, y: int, m: Machine)
    requires Live(m, 1) && Room(m, 2) && Operand(x) && Operand(y)
    ensures var low := Value(c, ctx, Apply2(x, y, OP_MIN), m);
            low.Some? && low.value <= x && low.value <= y && low.value in {x, y}
    ensures var high := Value(c, ctx, Apply2(x, y, OP_MAX), m);
            high.Some? && high.value >= x && high.value >= y && high.value in {x, y}
  {
    hide Value, Apply2;
    Dyadic2(c, ctx, x, y, OP_MIN, if x < y then x else y, m);
    Dyadic2(c, ctx, x, y, OP_MAX, if x > y then x else y, m);
  }

  /** Each comparison leaves 1 exactly when its relation holds between the first and the second operand pushed. */
  lemma Comparisons(c: Crypto, ctx: Context, x: int, y: int, m: Machine)
    requires Live(m, 1) && Room(m, 2) && Operand(x) && Operand(y)
    ensures Value(c, ctx, Apply2(x, y, OP_NUMEQUAL), m) == Truth(x == y)
    ensures Value(c, ctx, Apply2(x, y, OP_NUMNOTEQUAL), m) == Truth(x != y)
    ensures Value(c, ctx, Apply2(x, y, OP_LESSTHAN), m) == Truth(x < y)
    ensures Value(c, ctx, Apply2(x, y, OP_GREATERTHAN), m) == Truth(x > y)
    ensures Value(c, ctx, Apply2(x, y, OP_LESSTHANOREQUAL), m) == Truth(x <= y)
    ensures Value(c, ctx, Apply2(x, y, OP_GREATERTHANOREQUAL), m) == Truth(x >= y)
    ensures Value(c, ctx, Apply2(x, y, OP_BOOLAND), m) == Truth(x != 0 && y != 0)
    ensures Value(c, ctx, Apply2(x, y, OP_BOOLOR), m) == Truth(x != 0 || y != 0)
  {
    hide Value, Apply2;
    Dyadic2(c, ctx, x, y, OP_NUMEQUAL, if x == y then 1 else 0, m);
    Dyadic2(c, ctx, x, y, OP_NUMNOTEQUAL, if x != y then 1 else 0, m);
    Dyadic2(c, ctx, x, y, OP_LESSTHAN, if x < y then 1 else 0, m);
    Dyadic2(c, ctx, x, y, OP_GREATERTHAN, if x > y then 1 else 0, m);
    Dyadic2(c, ctx, x, y, OP_LESSTHANOREQUAL, if x <= y then 1 else 0, m);
    Dyadic2(c, ctx, x, y, OP_GREATERTHANOREQUAL, if x >= y then 1 else 0, m);
    Dyadic2(c, ctx, x, y, OP_BOOLAND, if x != 0 && y != 0 then 1 else 0, m);
    Dyadic2(c, ctx, x, y, OP_BOOLOR, if x != 0 || y != 0 then 1 else 0, m);
  }

  /** NUMEQUALVERIFY goes on exactly with equal numbers, and leaves nothing. */
  lemma NumEqualVerify(c: Crypto, ctx: Context, x: int, y: int, m: Machine)
    requires Live(m, 1) && Room(m, 2) && Operand(x) && Operand(y)
    ensures Effect(c, ctx, Apply2(x, y, OP_NUMEQUALVERIFY), m) == if x == y then Some(m.st) else None
  {
    hide Effect, EncodeNum, DecodeNum;
    SmallOperand(x);
    SmallOperand(y);
    Pushed2(c, ctx, EncodeNum(x), EncodeNum(y), OP_NUMEQUALVERIFY, m);
  }

  /** WITHIN includes its lower bound, pushed second, and excludes its upper one, pushed last. */
  lemma Within(c: Crypto, ctx: Context, x: int, low: int, high: int, m: Machine)
    requires Live(m, 1) && Room(m, 3) && Operand(x) && Operand(low) && Operand(high)
    ensures Value(c, ctx, Apply3(x, low, high, OP_WITHIN), m) == Truth(low <= x && x < high)
  {
    hide Effect, EncodeNum, DecodeNum;
    SmallOperand(x);
    SmallOperand(low);
    SmallOperand(high);
    Pushed3(c, ctx, EncodeNum(x), EncodeNum(low), EncodeNum(high), OP_WITHIN, m);
    LeavesNumber(c, ctx, Apply3(x, low, high, OP_WITHIN), m, if low <= x && x < high then 1 else 0);
  }

  /** How many operands an arithmetic opcode takes. */
  function Arity(op: Byte): nat {
    if op <= OP_0NOTEQUAL then 1 else if op == OP_WITHIN then 3 else 2
  }

  /** The item `k` below the top is missing or encodes no number of at most four bytes. */
  ghost predicate BadOperand(s: List<Bytes>, k: nat) {
    k < Len(s) ==> forall n :: Operand(n) ==> Nth(s, k) != EncodeNum(n)
  }

  /** Arithmetic fails on a missing operand and on anything that is not a minimal number of at most four bytes. */
  lemma BadOperandFails(c: Crypto, ctx: Context, op: Byte, k: nat, m: Machine)
    requires Live(m, 1) && OP_1ADD <= op <= OP_WITHIN
    requires k < Arity(op) && BadOperand(m.st.main, k)
    ensures Effect(c, ctx, One(Code(op)), m) == None
  {
    hide Effect, EncodeNum, DecodeNum, BadOperand, Unary, Dyadic;
    Single(c, ctx, op, m);
    var s := m.st.main;
    Depths(s);
    if Len(s) >= 3 {
      ThirdItem(s);
    }
    if k < Len(s) {
      NoNumber(s, k);
    }
  }

  lemma NoNumber(s: List<Bytes>, k: nat)
    requires k < Len(s) && BadOperand(s, k)
    ensures DecodeNum(Nth(s, k), MAX_NUM_BYTES) == None
  {
    hide EncodeNum, DecodeNum, Nth;
    if DecodeNum(Nth(s, k), MAX_NUM_BYTES).Some? {
      DecodedOperand(Nth(s, k));
    }
  }

  lemma DecodedOperand(item: Bytes)
    requires DecodeNum(item, MAX_NUM_BYTES).Some?
    ensures var n := DecodeNum(item, MAX_NUM_BYTES).value; Operand(n) && item == EncodeNum(n)
  {
    hide EncodeNum, DecodeNum;
    var n := DecodeNum(item, MAX_NUM_BYTES).value;
    EncodeOfDecode(item, MAX_NUM_BYTES);
    DecodeOfEncode(n, MAX_NUM_BYTES);
    EncodedLength(n, 4);
    assert 0x80 * Pow(256, 3) == 0x8000_0000;
  }

  // ------------------------------------------------------------------
  // Comparison and hashing
  // ------------------------------------------------------------------

  /** EQUAL compares bytes, and leaves 1 or the empty item; its verifying form leaves nothing. */
  lemma Equality(c: Crypto, ctx: Context, a: Bytes, b: Bytes, m: Machine)
    requires Live(m, 1) && Room(m, 2)
    ensures Left(c, ctx, Three(Push(a), Push(b), Code(OP_EQUAL)), m) == Some(if a == b then [1] else [])
    ensures Effect(c, ctx, Three(Push(a), Push(b), Code(OP_EQUALVERIFY)), m) == if a == b then Some(m.st) else None
  {
    hide Effect, EncodeNum;
    Pushed2(c, ctx, a, b, OP_EQUAL, m);
    Pushed2(c, ctx, a, b, OP_EQUALVERIFY, m);
    Flags();
  }

  lemma Flags()
    ensures EncodeNum(0) == [] && EncodeNum(1) == [1]
  {
    assert LE(1) == [1];
  }

  /** Each hashing opcode replaces the top item by its digest, the double ones by the digest of a digest. */
  lemma Hashes(c: Crypto, ctx: Context, x: Bytes, m: Machine)
    requires Live(m, 1) && Room(m, 1)
    ensures Left(c, ctx, Two(Push(x), Code(OP_SHA256)), m) == Some(c.sha256(x))
    ensures Left(c, ctx, Two(Push(x), Code(OP_RIPEMD160)), m) == Some(c.ripemd160(x))
    ensures Left(c, ctx, Two(Push(x), Code(OP_HASH256)), m) == Some(c.sha256(c.sha256(x)))
    ensures Left(c, ctx, Two(Push(x), Code(OP_HASH160)), m) == Some(c.ripemd160(c.sha256(x)))
  {
    hide Effect;
    Pushed1(c, ctx, x, OP_SHA256, m);
    Pushed1(c, ctx, x, OP_RIPEMD160, m);
    Pushed1(c, ctx, x, OP_HASH256, m);
    Pushed1(c, ctx, x, OP_HASH160, m);
  }

  // ------------------------------------------------------------------
  // Signatures and locktimes
  // ------------------------------------------------------------------

  /** A signature pushed before its key is checked over the spend's message; wrong lengths never verify. */
  lemma Signature(c: Crypto, ctx: Context, sig: Bytes, key: Bytes, m: Machine)
    requires Live(m, 1) && Room(m, 2)
    ensures var good := |sig| == 64 && |key| == 32 && c.edVerify(sig, ctx.sighash, key);
            && Left(c, ctx, Three(Push(sig), Push(key), Code(OP_CHECKSIG)), m) == Some(if good then [1] else [])
            && Effect(c, ctx, Three(Push(sig), Push(key), Code(OP_CHECKSIGVERIFY)), m) ==
               if good then Some(m.st) else None
  {
    hide Effect, EncodeNum;
    Pushed2(c, ctx, sig, key, OP_CHECKSIG, m);
    Pushed2(c, ctx, sig, key, OP_CHECKSIGVERIFY, m);
    Flags();
  }

  /**
   * The locktime check passes exactly when the number is not negative, has at
   * most five bytes, and the spending block's clock has reached it: the height
   * for numbers below 500,000,000, the median time from there on. It leaves the number.
   */
  lemma Locktime(c: Crypto, ctx: Context, t: int, m: Machine)
    requires Live(m, 1) && Room(m, 1) && SafeInteger(t)
    ensures Effect(c, ctx, Two(Num(t), Code(OP_CHECKLOCKTIMEVERIFY)), m) ==
            if 0 <= t < 0x80_0000_0000 && (t < 500_000_000 ==> ctx.blockHeight >= t)
               && (t >= 500_000_000 ==> ctx.blockMtp >= t)
            then Effect(c, ctx, One(Num(t)), m) else None
  {
    hide RunAll, EncodeNum, DecodeNum, Execute;
    var n := m.(st := m.st.(main := Cons(EncodeNum(t), m.st.main)));
    Pushed1(c, ctx, EncodeNum(t), OP_CHECKLOCKTIMEVERIFY, m);
    PushRuns(c, ctx, EncodeNum(t), Nil, m);
    NothingRuns(c, ctx, n);
    ClockChecked(c, ctx, t, n.st);
  }

  lemma ClockChecked(c: Crypto, ctx: Context, t: int, st: Stacks)
    requires SafeInteger(t) && st.main.Cons? && st.main.head == EncodeNum(t)
    ensures Execute(c, ctx, OP_CHECKLOCKTIMEVERIFY, st) ==
            if 0 <= t < 0x80_0000_0000 && t <= (if t < 500_000_000 then ctx.blockHeight else ctx.blockMtp)
            then Some(st) else None
  {
    hide EncodeNum, DecodeNum;
    LocktimeEncoding(t);
  }

  /** Every signature verifies under a key of its own, the keys in the order of the signatures. */
  ghost predicate InOrder(c: Crypto, message: Bytes, sigs: seq<Bytes>, keys: seq<Bytes>, f: seq<nat>) {
    && |f| == |sigs|
    && (forall i :: 0 <= i < |f| ==> f[i] < |keys| && |keys[f[i]]| == 32 && |sigs[i]| == 64)
    && (forall i :: 0 <= i < |f| ==> c.edVerify(sigs[i], message, keys[f[i]]))
    && (forall i, j :: 0 <= i < j < |f| ==> f[i] < f[j])
  }

  ghost predicate EachSigned(c: Crypto, message: Bytes, sigs: seq<Bytes>, keys: seq<Bytes>) {
    exists f: seq<nat> :: InOrder(c, message, sigs, keys, f)
  }

  /** The witness layout: the signatures, their number, the keys, their number. */
  function MultisigItems(sigs: seq<Bytes>, keys: seq<Bytes>): seq<Bytes> {
    sigs + [EncodeNum(|sigs|)] + keys + [EncodeNum(|keys|)]
  }

  /**
   * CHECKMULTISIG takes signatures and keys in the order they were pushed, no
   * spurious item below them, and leaves 1 exactly when every signature has a key of its own in order.
   */
  lemma Multisig(c: Crypto, ctx: Context, sigs: seq<Bytes>, keys: seq<Bytes>, m: Machine)
    requires Live(m, 1) && Room(m, |sigs| + |keys| + 2)
    ensures var prog := Pushing(MultisigItems(sigs, keys), One(Code(OP_CHECKMULTISIG)));
            if 1 <= |sigs| <= |keys| <= 20
            then Left(c, ctx, prog, m) == Some(if EachSigned(c, ctx.sighash, sigs, keys) then [1] else [])
            else Effect(c, ctx, prog, m) == None
  {
    hide Effect, EncodeNum, EachSigned, Execute, Pushing;
    var items := MultisigItems(sigs, keys);
    var st := m.st.(main := OnTop(items, m.st.main));
    EffectOfPushing(c, ctx, items, OP_CHECKMULTISIG, m);
    MultisigExecutes(c, ctx, sigs, keys, m.st);
    Flags();
  }

  lemma EffectOfPushing(c: Crypto, ctx: Context, items: seq<Bytes>, op: Byte, m: Machine)
    requires Live(m, 1) && Room(m, |items|) && op != OP_IF && op != OP_ELSE && op != OP_ENDIF
    ensures Effect(c, ctx, Pushing(items, One(Code(op))), m) ==
            Execute(c, ctx, op, m.st.(main := OnTop(items, m.st.main)))
  {
    hide RunAll, Execute;
    PushingRuns(c, ctx, items, One(Code(op)), m);
    Single(c, ctx, op, m.(st := m.st.(main := OnTop(items, m.st.main))));
  }

  lemma MultisigExecutes(c: Crypto, ctx: Context, sigs: seq<Bytes>, keys: seq<Bytes>, st: Stacks)
    requires |keys| < 0x8000_0000 && |sigs| < 0x8000_0000
    ensures Execute(c, ctx, OP_CHECKMULTISIG, st.(main := OnTop(MultisigItems(sigs, keys), st.main))) ==
            if 1 <= |sigs| <= |keys| <= 20
            then Some(st.(main := Cons(EncodeNum(if EachSigned(c, ctx.sighash, sigs, keys) then 1 else 0), st.main)))
            else None
  {
    hide EncodeNum, DecodeNum, EachSigned, OnTop, MultisigHolds;
    var s0 := OnTop(sigs, st.main);
    var s1 := Cons(EncodeNum(|sigs|), s0);
    var s2 := OnTop(keys, s1);
    TopOf(sigs + [EncodeNum(|sigs|)] + keys, EncodeNum(|keys|), st.main);
    OnTopAppend(sigs + [EncodeNum(|sigs|)], keys, st.main);
    TopOf(sigs, EncodeNum(|sigs|), st.main);
    SmallOperand(|sigs|);
    SmallOperand(|keys|);
    LenOnTop(keys, s1);
    LenOnTop(sigs, st.main);
    PushedOnTop(keys, s1);
    PushedOnTop(sigs, st.main);
    SameMatching(c, ctx.sighash, sigs, keys);
  }

  lemma {:induction false} PushedOnTop(items: seq<Bytes>, below: List<Bytes>)
    ensures |items| <= Len(OnTop(items, below))
    ensures Pushed(OnTop(items, below), |items|) == items && Below(OnTop(items, below), |items|) == below
    decreases |items|
  {
    LenOnTop(items, below);
    if items != [] {
      var n := |items|;
      assert items == items[..n - 1] + [items[n - 1]];
      TopOf(items[..n - 1], items[n - 1], below);
      PushedOnTop(items[..n - 1], below);
    }
  }

  lemma SameMatching(c: Crypto, message: Bytes, sigs: seq<Bytes>, keys: seq<Bytes>)
    ensures MultisigHolds(c, message, sigs, keys) <==> EachSigned(c, message, sigs, keys)
  {
    if MultisigHolds(c, message, sigs, keys) {
      var f: seq<nat> :| Assigns(c, message, sigs, keys, f);
      assert InOrder(c, message, sigs, keys, f);
    }
    if EachSigned(c, message, sigs, keys) {
      var f: seq<nat> :| InOrder(c, message, sigs, keys, f);
      assert Assigns(c, message, sigs, keys, f);
    }
  }
}
