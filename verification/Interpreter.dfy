/**
 * The interpreter of src/chain/script.ts: one pass over the bytes with a program
 * counter, a main and an alt stack whose tops are at the end, a condition stack
 * and an operation counter. Proved to accept exactly what Script.Accepts says.
 */
module Interpreter {
  import opened Binary
  import opened Crypto
  import opened ScriptNum
  import opened Script

  // ------------------------------------------------------------------
  // Arrays with the top at the end, seen as lists with the top in front
  // ------------------------------------------------------------------

  lemma FromSeqPush<T>(s: seq<T>, x: T)
    ensures FromSeq(s + [x]) == Cons(x, FromSeq(s))
  {
    assert (s + [x])[..|s|] == s;
  }

  lemma FromSeqPush2<T>(s: seq<T>, x: T, y: T)
    ensures FromSeq(s + [x, y]) == Cons(y, Cons(x, FromSeq(s)))
  {
    FromSeqPush(s, x);
    FromSeqPush(s + [x], y);
    assert s + [x, y] == s + [x] + [y];
  }

  lemma FromSeqPush3<T>(s: seq<T>, x: T, y: T, z: T)
    ensures FromSeq(s + [x, y, z]) == Cons(z, Cons(y, Cons(x, FromSeq(s))))
  {
    FromSeqPush2(s, x, y);
    FromSeqPush(s + [x, y], z);
    assert s + [x, y, z] == s + [x, y] + [z];
  }

  /** The top three items, as far as they exist. */
  lemma Tops<T>(s: seq<T>)
    ensures |s| == 0 ==> FromSeq(s) == Nil
    ensures |s| >= 1 ==> FromSeq(s) == Cons(s[|s| - 1], FromSeq(s[..|s| - 1]))
    ensures |s| >= 2 ==> FromSeq(s[..|s| - 1]) == Cons(s[|s| - 2], FromSeq(s[..|s| - 2]))
    ensures |s| >= 3 ==> FromSeq(s[..|s| - 2]) == Cons(s[|s| - 3], FromSeq(s[..|s| - 3]))
    ensures |s| == 1 ==> FromSeq(s[..|s| - 1]) == Nil
    ensures |s| == 2 ==> FromSeq(s[..|s| - 2]) == Nil
  {
    if |s| >= 2 {
      assert s[..|s| - 1][..|s| - 2] == s[..|s| - 2];
    }
    if |s| >= 3 {
      assert s[..|s| - 2][..|s| - 3] == s[..|s| - 3];
    }
  }

  lemma {:induction false} LenFromSeq<T>(s: seq<T>)
    ensures Len(FromSeq(s)) == |s|
  {
    if s != [] {
      LenFromSeq(s[..|s| - 1]);
    }
  }

  lemma {:induction false} NthFromSeq<T>(s: seq<T>, k: nat)
    requires k < |s|
    ensures Len(FromSeq(s)) == |s|
    ensures Nth(FromSeq(s), k) == s[|s| - 1 - k]
    ensures Without(FromSeq(s), k) == FromSeq(s[..|s| - 1 - k] + s[|s| - k..])
  {
    LenFromSeq(s);
    var top, rest := s[|s| - 1], s[..|s| - 1];
    LenFromSeq(rest);
    if k == 0 {
      assert s[..|s| - 1] + s[|s|..] == rest;
    } else {
      NthFromSeq(rest, k - 1);
      var without := rest[..|rest| - k] + rest[|rest| - (k - 1)..];
      FromSeqPush(without, top);
      assert without + [top] == s[..|s| - 1 - k] + s[|s| - k..];
    }
  }

  lemma {:induction false} PushedFromSeq<T>(s: seq<T>, n: nat)
    requires n <= |s|
    ensures Len(FromSeq(s)) == |s|
    ensures Pushed(FromSeq(s), n) == s[|s| - n..]
    ensures Below(FromSeq(s), n) == FromSeq(s[..|s| - n])
  {
    LenFromSeq(s);
    if n == 0 {
      assert s[..|s|] == s;
    } else {
      var rest := s[..|s| - 1];
      PushedFromSeq(rest, n - 1);
      assert rest[|s| - n..] + [s[|s| - 1]] == s[|s| - n..];
      assert rest[..|s| - n] == s[..|s| - n];
    }
  }

  // ------------------------------------------------------------------
  // Opcode groups
  // ------------------------------------------------------------------

  ghost predicate Refines(ok: bool, main: seq<Bytes>, alt: seq<Bytes>, spec: Option<Stacks>) {
    && (ok <==> spec.Some?)
    && (ok ==> spec.value == Stacks(FromSeq(main), FromSeq(alt)))
  }

  ghost predicate RefinesMain(ok: bool, main: seq<Bytes>, spec: Option<List<Bytes>>) {
    && (ok <==> spec.Some?)
    && (ok ==> spec.value == FromSeq(main))
  }

  method ShuffleOpcode(op: Byte, stack: seq<Bytes>, alt: seq<Bytes>) returns (ok: bool, out: seq<Bytes>)
    ensures Refines(ok, out, alt, ShuffleOp(op, Stacks(FromSeq(stack), FromSeq(alt))))
  {
    var n := |stack|;
    out := stack;
    Tops(stack);
    LenFromSeq(alt);
    LenFromSeq(stack);
    var grown := false;
    if op == OP_DEPTH {
      var item := EncodeNumLoop(n);
      out := stack + [item];
      FromSeqPush(stack, item);
      grown := true;
    } else if n < 1 {
      return false, stack;
    } else if op == OP_DROP {
      out := stack[..n - 1];
    } else if op == OP_DUP {
      out := stack + [stack[n - 1]];
      FromSeqPush(stack, stack[n - 1]);
      grown := true;
    } else if op == OP_IFDUP {
      var truthy := IsTruthyLoop(stack[n - 1]);
      if truthy {
        out := stack + [stack[n - 1]];
        FromSeqPush(stack, stack[n - 1]);
        grown := true;
      }
    } else if op == OP_SIZE {
      var item := EncodeNumLoop(|stack[n - 1]|);
      out := stack + [item];
      FromSeqPush(stack, item);
      grown := true;
    } else if n < 2 {
      return false, stack;
    } else if op == OP_2DUP {
      out := stack + [stack[n - 2], stack[n - 1]];
      FromSeqPush2(stack, stack[n - 2], stack[n - 1]);
      grown := true;
    } else if op == OP_NIP {
      out := stack[..n - 2] + stack[n - 1..];
      FromSeqPush(stack[..n - 2], stack[n - 1]);
      assert out == stack[..n - 2] + [stack[n - 1]];
    } else if op == OP_OVER {
      out := stack + [stack[n - 2]];
      FromSeqPush(stack, stack[n - 2]);
      grown := true;
    } else if op == OP_SWAP {
      var a := stack[n - 1];
      out := stack[n - 1 := stack[n - 2]][n - 2 := a];
      FromSeqPush2(stack[..n - 2], stack[n - 1], stack[n - 2]);
      assert out == stack[..n - 2] + [stack[n - 1], stack[n - 2]];
    } else if op == OP_TUCK {
      out := stack[..n - 2] + [stack[n - 1]] + stack[n - 2..];
      FromSeqPush3(stack[..n - 2], stack[n - 1], stack[n - 2], stack[n - 1]);
      assert out == stack[..n - 2] + [stack[n - 1], stack[n - 2], stack[n - 1]];
      grown := true;
    } else if op != OP_ROT || n < 3 {
      return false, stack;
    } else {
      var a := stack[n - 3];
      out := stack[..n - 3] + stack[n - 2..] + [a];
      FromSeqPush3(stack[..n - 3], stack[n - 2], stack[n - 1], a);
      assert out == stack[..n - 3] + [stack[n - 2], stack[n - 1], a];
    }
    LenFromSeq(out);
    ok := !grown || |out| + |alt| <= MAX_STACK_SIZE;
  }

  method PickOrRoll(op: Byte, stack: seq<Bytes>, alt: seq<Bytes>) returns (ok: bool, out: seq<Bytes>)
    requires op == OP_PICK || op == OP_ROLL
    ensures Refines(ok, out, alt, StackOp(op, Stacks(FromSeq(stack), FromSeq(alt))))
  {
    out := stack;
    var n := |stack|;
    Tops(stack);
    if n < 1 {
      return false, out;
    }
    var rest := stack[..n - 1];
    LenFromSeq(rest);
    LenFromSeq(alt);
    var k := DecodeNumLoop(stack[n - 1], MAX_NUM_BYTES);
    if k.None? || k.value < 0 || k.value >= |rest| {
      return false, out;
    }
    var idx := |rest| - 1 - k.value;
    NthFromSeq(rest, k.value);
    if op == OP_PICK {
      out := rest + [rest[idx]];
      FromSeqPush(rest, rest[idx]);
      LenFromSeq(out);
      ok := |out| + |alt| <= MAX_STACK_SIZE;
    } else {
      var spliced := rest[..idx] + rest[idx + 1..];
      assert spliced == rest[..|rest| - 1 - k.value] + rest[|rest| - k.value..];
      out := spliced + [rest[idx]];
      FromSeqPush(spliced, rest[idx]);
      ok := true;
    }
  }

  method StackOpcode(op: Byte, stack: seq<Bytes>, alt: seq<Bytes>)
    returns (ok: bool, out: seq<Bytes>, alt': seq<Bytes>)
    requires IsStackOp(op)
    ensures Refines(ok, out, alt', StackOp(op, Stacks(FromSeq(stack), FromSeq(alt))))
  {
    var n := |stack|;
    out, alt' := stack, alt;
    Tops(stack);
    Tops(alt);
    LenFromSeq(alt);
    LenFromSeq(stack);
    if op <= OP_16 {
      var item := EncodeNumLoop(op - 0x50);
      out := stack + [item];
      FromSeqPush(stack, item);
      ok := |out| + |alt| <= MAX_STACK_SIZE;
    } else if op == OP_VERIFY {
      if n < 1 {
        return false, out, alt';
      }
      ok := IsTruthyLoop(stack[n - 1]);
      out := stack[..n - 1];
    } else if op == OP_TOALTSTACK {
      if n < 1 {
        return false, out, alt';
      }
      alt' := alt + [stack[n - 1]];
      out := stack[..n - 1];
      FromSeqPush(alt, stack[n - 1]);
      ok := true;
    } else if op == OP_FROMALTSTACK {
      if |alt| < 1 {
        return false, out, alt';
      }
      out := stack + [alt[|alt| - 1]];
      alt' := alt[..|alt| - 1];
      FromSeqPush(stack, alt[|alt| - 1]);
      ok := true;
    } else if op == OP_PICK || op == OP_ROLL {
      ok, out := PickOrRoll(op, stack, alt);
    } else {
      ok, out := ShuffleOpcode(op, stack, alt);
    }
  }

  method NumberOpcode(op: Byte, stack: seq<Bytes>) returns (ok: bool, out: seq<Bytes>)
    requires IsNumberOp(op)
    ensures RefinesMain(ok, out, NumberOp(op, FromSeq(stack)))
  {
    var n := |stack|;
    out := stack;
    Tops(stack);
    if op <= OP_0NOTEQUAL {
      if n < 1 {
        return false, out;
      }
      var a := DecodeNumLoop(stack[n - 1], MAX_NUM_BYTES);
      if a.None? {
        return false, out;
      }
      var v := Unary(op, a.value);
      if v.None? {
        return false, out;
      }
      var item := EncodeNumLoop(v.value);
      out := stack[..n - 1] + [item];
      FromSeqPush(stack[..n - 1], item);
    } else if op == OP_WITHIN {
      if n < 3 {
        return false, out;
      }
      var max := DecodeNumLoop(stack[n - 1], MAX_NUM_BYTES);
      var min := DecodeNumLoop(stack[n - 2], MAX_NUM_BYTES);
      var x := DecodeNumLoop(stack[n - 3], MAX_NUM_BYTES);
      if x.None? || min.None? || max.None? {
        return false, out;
      }
      var item := BoolItem(min.value <= x.value < max.value);
      out := stack[..n - 3] + [item];
      FromSeqPush(stack[..n - 3], item);
    } else {
      if n < 2 {
        return false, out;
      }
      var b := DecodeNumLoop(stack[n - 1], MAX_NUM_BYTES);
      var a := DecodeNumLoop(stack[n - 2], MAX_NUM_BYTES);
      if a.None? || b.None? {
        return false, out;
      }
      var v := Dyadic(op, a.value, b.value);
      if v.None? {
        return false, out;
      }
      out := stack[..n - 2];
      if op == OP_NUMEQUALVERIFY {
        return v.value != 0, out;
      }
      var item := EncodeNumLoop(v.value);
      FromSeqPush(out, item);
      out := out + [item];
    }
    ok := true;
  }

  method CryptoOpcode(c: Crypto, ctx: Context, op: Byte, stack: seq<Bytes>) returns (ok: bool, out: seq<Bytes>)
    ensures RefinesMain(ok, out, CryptoOp(c, ctx, op, FromSeq(stack)))
  {
    var n := |stack|;
    out := stack;
    Tops(stack);
    if op == OP_CHECKMULTISIG {
      ok, out := OpCheckMultisig(c, ctx, stack);
      return;
    }
    if n < 1 {
      return false, out;
    }
    var x, r := stack[n - 1], stack[..n - 1];
    if op == OP_RIPEMD160 || op == OP_SHA256 || op == OP_HASH160 || op == OP_HASH256 {
      var h: Bytes :=
        if op == OP_RIPEMD160 then c.ripemd160(x)
        else if op == OP_SHA256 then c.sha256(x)
        else if op == OP_HASH160 then c.ripemd160(c.sha256(x))
        else c.sha256(c.sha256(x));
      out := r + [h];
      FromSeqPush(r, h);
      return true, out;
    }
    if op == OP_CHECKLOCKTIMEVERIFY {
      var req := DecodeNumLoop(x, 5);
      if req.None? || req.value < 0 {
        return false, out;
      }
      var chainVal := if req.value < LOCKTIME_THRESHOLD then ctx.blockHeight else ctx.blockMtp;
      return chainVal >= req.value, out;
    }
    if n < 2 {
      return false, out;
    }
    var y, q := stack[n - 2], stack[..n - 2];
    out := q;
    if op == OP_EQUALVERIFY {
      return x == y, out;
    }
    if op == OP_CHECKSIGVERIFY {
      return SigValid(c, ctx.sighash, y, x), out;
    }
    if op == OP_EQUAL || op == OP_CHECKSIG {
      var item := BoolItem(if op == OP_EQUAL then x == y else SigValid(c, ctx.sighash, y, x));
      out := q + [item];
      FromSeqPush(q, item);
      return true, out;
    }
    ok := false;
  }

  // ------------------------------------------------------------------
  // Greedy multisig
  // ------------------------------------------------------------------

  /**
   * The pointer-advancing scan: each signature takes the first remaining key it
   * verifies under. Complete: it succeeds exactly when some in-order assignment exists.
   */
  method MatchSignatures(c: Crypto, sighash: Bytes, sigs: seq<Bytes>, pubkeys: seq<Bytes>) returns (ok: bool)
    ensures ok <==> MultisigHolds(c, sighash, sigs, pubkeys)
  {
    var keyIdx := 0;
    ghost var used: seq<nat> := [];
    for i := 0 to |sigs|
      invariant 0 <= keyIdx <= |pubkeys|
      invariant Assigns(c, sighash, sigs[..i], pubkeys, used)
      invariant if i == 0 then keyIdx == 0 else keyIdx == used[i - 1] + 1
      invariant forall f :: Assigns(c, sighash, sigs[..i], pubkeys, f) && i > 0 ==> used[i - 1] <= f[i - 1]
    {
      var matched := false;
      var start := keyIdx;
      while keyIdx < |pubkeys| && !matched
        invariant start <= keyIdx <= |pubkeys|
        invariant !matched ==> forall k :: start <= k < keyIdx ==> !SigValid(c, sighash, sigs[i], pubkeys[k])
        invariant matched ==> start < keyIdx && SigValid(c, sighash, sigs[i], pubkeys[keyIdx - 1])
        invariant matched ==> forall k :: start <= k < keyIdx - 1 ==> !SigValid(c, sighash, sigs[i], pubkeys[k])
      {
        if SigValid(c, sighash, sigs[i], pubkeys[keyIdx]) {
          matched := true;
        }
        keyIdx := keyIdx + 1;
      }
      ghost var done := sigs[..i + 1];
      forall f | Assigns(c, sighash, done, pubkeys, f)
        ensures f[i] >= start && SigValid(c, sighash, sigs[i], pubkeys[f[i]])
      {
        assert done[..i] == sigs[..i] && done[i] == sigs[i];
        AssignsPrefix(c, sighash, done, pubkeys, f, i);
        assert i > 0 ==> f[..i][i - 1] == f[i - 1] < f[i];
      }
      if !matched {
        forall f: seq<nat>
          ensures !Assigns(c, sighash, sigs, pubkeys, f)
        {
          assert !Assigns(c, sighash, done, pubkeys, f[..if i < |f| then i + 1 else |f|]);
          if Assigns(c, sighash, sigs, pubkeys, f) {
            AssignsPrefix(c, sighash, sigs, pubkeys, f, i + 1);
          }
        }
        return false;
      }
      assert done[..i] == sigs[..i];
      assert done == sigs[..i] + [sigs[i]];
      used := used + [keyIdx - 1];
    }
    assert sigs[..|sigs|] == sigs;
    return true;
  }

  lemma AssignsPrefix(c: Crypto, sighash: Bytes, sigs: seq<Bytes>, keys: seq<Bytes>, f: seq<nat>, n: nat)
    requires Assigns(c, sighash, sigs, keys, f) && n <= |sigs|
    ensures Assigns(c, sighash, sigs[..n], keys, f[..n])
  {
    forall i | 0 <= i < n
      ensures f[..n][i] < |keys| && SigValid(c, sighash, sigs[..n][i], keys[f[..n][i]])
    {
      assert f[..n][i] == f[i] && sigs[..n][i] == sigs[i];
    }
  }

  method OpCheckMultisig(c: Crypto, ctx: Context, stack: seq<Bytes>) returns (ok: bool, out: seq<Bytes>)
    ensures RefinesMain(ok, out, MultisigOp(c, ctx, FromSeq(stack)))
  {
    Tops(stack);
    out := stack;
    if |stack| < 1 {
      return false, out;
    }
    var nNum := DecodeNumLoop(stack[|stack| - 1], 4);
    var s1 := stack[..|stack| - 1];
    LenFromSeq(s1);
    if nNum.None? || nNum.value < 1 || nNum.value > MAX_MULTISIG_KEYS {
      return false, out;
    }
    var n := nNum.value;
    if |s1| < n + 1 {
      return false, out;
    }
    var pubkeys, s2 := s1[|s1| - n..], s1[..|s1| - n];
    PushedFromSeq(s1, n);
    Tops(s2);
    var mNum := DecodeNumLoop(s2[|s2| - 1], 4);
    var s3 := s2[..|s2| - 1];
    LenFromSeq(s3);
    if mNum.None? || mNum.value < 1 || mNum.value > n {
      return false, out;
    }
    var m := mNum.value;
    if |s3| < m {
      return false, out;
    }
    PushedFromSeq(s3, m);
    var sigs, s4 := s3[|s3| - m..], s3[..|s3| - m];
    var held := MatchSignatures(c, ctx.sighash, sigs, pubkeys);
    var item := EncodeNumLoop(if held then 1 else 0);
    out := s4 + [item];
    FromSeqPush(s4, item);
    ok := true;
  }

  // ------------------------------------------------------------------
  // The main loop
  // ------------------------------------------------------------------

  /** What holds of the machine at every loop head. */
  predicate Limits(m: Machine) {
    && Len(m.st.main) + Len(m.st.alt) <= MAX_STACK_SIZE
    && ItemsFit(m.st.main) && ItemsFit(m.st.alt)
    && m.ops <= MAX_OPS
  }

  predicate ItemsFit(s: List<Bytes>) {
    match s
    case Nil => true
    case Cons(x, r) => |x| <= MAX_PUSH_BYTES && ItemsFit(r)
  }

  method ExecuteOpcode(c: Crypto, ctx: Context, op: Byte, stack: seq<Bytes>, alt: seq<Bytes>)
    returns (ok: bool, out: seq<Bytes>, alt': seq<Bytes>)
    ensures Refines(ok, out, alt', Execute(c, ctx, op, Stacks(FromSeq(stack), FromSeq(alt))))
  {
    ok, out, alt' := true, stack, alt;
    if op in RESERVED_NOPS {
      return;
    }
    if IsStackOp(op) {
      ok, out, alt' := StackOpcode(op, stack, alt);
    } else if IsNumberOp(op) {
      ok, out := NumberOpcode(op, stack);
    } else {
      ok, out := CryptoOpcode(c, ctx, op, stack);
    }
  }

  /** `executing()`: every enclosing branch was taken. */
  method AllTrue(condStack: seq<bool>) returns (exec: bool)
    ensures exec == Executing(FromSeq(condStack))
  {
    for i := 0 to |condStack|
      invariant forall k :: 0 <= k < i ==> condStack[k]
    {
      if !condStack[i] {
        NotExecuting(condStack, i);
        return false;
      }
    }
    ExecutingAll(condStack);
    return true;
  }

  lemma {:induction false} ExecutingAll(s: seq<bool>)
    requires forall k :: 0 <= k < |s| ==> s[k]
    ensures Executing(FromSeq(s))
  {
    if s != [] {
      ExecutingAll(s[..|s| - 1]);
    }
  }

  lemma {:induction false} NotExecuting(s: seq<bool>, i: nat)
    requires i < |s| && !s[i]
    ensures !Executing(FromSeq(s))
  {
    if i < |s| - 1 {
      NotExecuting(s[..|s| - 1], i);
    }
  }

  /** Reads the push whose opcode stands at `at`; `next` is the program counter after it. */
  method ReadPush(script: Bytes, at: nat) returns (ok: bool, data: Bytes, next: nat)
    requires at < |script| && IsPushOp(script[at])
    ensures |data| <= MAX_PUSH_BYTES
    ensures ok <==> NextInstr(script[at..]).Some?
    ensures ok ==> at < next <= |script| && NextInstr(script[at..]) == Some((Push(data), script[next..]))
  {
    ghost var code := script[at..];
    data := [];
    var op, pc := script[at], at + 1;
    var len: nat;
    if op == OP_PUSHDATA1 {
      if pc >= |script| {
        return false, data, pc;
      }
      len := script[pc];
      pc := pc + 1;
      assert code[2..] == script[pc..];
    } else if op == OP_PUSHDATA2 {
      if pc + 1 >= |script| {
        return false, data, pc;
      }
      len := LittleEndian16(script[pc], script[pc + 1]);
      pc := pc + 2;
      assert code[3..] == script[pc..];
    } else {
      len := op;
      assert code[1..] == script[pc..];
    }
    if len > MAX_PUSH_BYTES || pc + len > |script| {
      return false, data, pc;
    }
    data := script[pc..pc + len];
    next := pc + len;
    assert script[pc..][..len] == data && script[pc..][len..] == script[next..];
    ok := true;
  }

  /** The next instruction's effect together with the bytes left after it. */
  ghost function StepsTo(c: Crypto, ctx: Context, code: Bytes, m: Machine): Option<(Machine, Bytes)>
    requires code != []
  {
    match NextInstr(code)
    case None => None
    case Some((i, rest)) =>
      match Step(c, ctx, i, m)
      case None => None
      case Some(m') => Some((m', rest))
  }

  ghost function View(stack: seq<Bytes>, alt: seq<Bytes>, condStack: seq<bool>, opCount: nat): Machine {
    Machine(Stacks(FromSeq(stack), FromSeq(alt)), FromSeq(condStack), opCount)
  }

  /** Flow control runs even in branches not taken, so that IF and ENDIF balance. */
  method FlowOpcode(c: Crypto, ctx: Context, op: Byte, exec: bool,
                    stack: seq<Bytes>, ghost alt: seq<Bytes>, condStack: seq<bool>, ghost ops: nat)
    returns (ok: bool, stack': seq<Bytes>, condStack': seq<bool>)
    requires op == OP_IF || op == OP_ELSE || op == OP_ENDIF
    requires exec == Executing(FromSeq(condStack))
    ensures var spec := Step(c, ctx, Code(op), View(stack, alt, condStack, ops));
            (ok <==> spec.Some?) && (ok ==> spec.value == View(stack', alt, condStack', ops))
  {
    stack', condStack' := stack, condStack;
    var n := |condStack|;
    if op == OP_IF {
      var v := false;
      if exec {
        if |stack| < 1 {
          return false, stack, condStack;
        }
        v := IsTruthyLoop(stack[|stack| - 1]);
        stack' := stack[..|stack| - 1];
      }
      FromSeqPush(condStack, v);
      condStack' := condStack + [v];
    } else if n == 0 {
      return false, stack, condStack;
    } else if op == OP_ELSE {
      FromSeqPush(condStack[..n - 1], !condStack[n - 1]);
      condStack' := condStack[..n - 1] + [!condStack[n - 1]];
    } else {
      condStack' := condStack[..n - 1];
    }
    ok := true;
  }

  /** One turn of the loop: fetch at `pc`, then push, branch or execute. The program counter strictly grows. */
  method StepAt(c: Crypto, ctx: Context, script: Bytes, pc: nat,
                stack: seq<Bytes>, alt: seq<Bytes>, condStack: seq<bool>, opCount: nat)
    returns (ok: bool, pc': nat, stack': seq<Bytes>, alt': seq<Bytes>, condStack': seq<bool>, opCount': nat)
    requires pc < |script|
    requires Limits(View(stack, alt, condStack, opCount))
    ensures ok <==> StepsTo(c, ctx, script[pc..], View(stack, alt, condStack, opCount)).Some?
    ensures ok ==> pc < pc' <= |script|
    ensures ok ==> StepsTo(c, ctx, script[pc..], View(stack, alt, condStack, opCount))
                   == Some((View(stack', alt', condStack', opCount'), script[pc'..]))
    ensures ok ==> Limits(View(stack', alt', condStack', opCount'))
  {
    pc', stack', alt', condStack', opCount' := pc + 1, stack, alt, condStack, opCount;
    var op := script[pc];
    var exec := AllTrue(condStack);
    if IsPushOp(op) {
      var data;
      ok, data, pc' := ReadPush(script, pc);
      StepKeepsLimits(c, ctx, Push(data), View(stack, alt, condStack, opCount));
      if ok && exec {
        FromSeqPush(stack, data);
        stack' := stack + [data];
        LenFromSeq(stack');
        LenFromSeq(alt);
        ok := |stack'| + |alt| <= MAX_STACK_SIZE;
      }
      return;
    }
    assert script[pc..][1..] == script[pc'..];
    StepKeepsLimits(c, ctx, Code(op), View(stack, alt, condStack, opCount));
    if op == OP_IF || op == OP_ELSE || op == OP_ENDIF {
      ok, stack', condStack' := FlowOpcode(c, ctx, op, exec, stack, alt, condStack, opCount);
      return;
    }
    ok := true;
    if exec {
      opCount' := opCount + 1;
      if opCount' > MAX_OPS {
        return false, pc', stack', alt', condStack', opCount';
      }
      ok, stack', alt' := ExecuteOpcode(c, ctx, op, stack, alt);
    }
  }

  /** `evalScript`: accepts exactly the spends the reference semantics accepts. */
  method EvalScript(c: Crypto, redeemScript: Bytes, wit: seq<Bytes>, ctx: Context) returns (ok: bool)
    ensures ok <==> Accepts(c, ctx, redeemScript, wit)
  {
    if |redeemScript| > MAX_SCRIPT_BYTES || |wit| > MAX_WITNESS_ITEMS {
      return false;
    }
    var stack: seq<Bytes>, alt: seq<Bytes> := [], [];
    for i := 0 to |wit|
      invariant stack == wit[..i]
      invariant forall k :: 0 <= k < i ==> |wit[k]| <= MAX_PUSH_BYTES
    {
      if |wit[i]| > MAX_PUSH_BYTES {
        return false;
      }
      stack := stack + [wit[i]];
    }
    assert wit[..|wit|] == wit;
    LenFromSeq(stack);
    ItemsFitSeq(stack);
    var condStack: seq<bool> := [];
    var opCount, pc := 0, 0;
    ghost var whole := Run(c, ctx, redeemScript, Start(wit));
    assert redeemScript[0..] == redeemScript;
    while pc < |redeemScript|
      invariant pc <= |redeemScript|
      invariant whole == Run(c, ctx, redeemScript[pc..], View(stack, alt, condStack, opCount))
      invariant Limits(View(stack, alt, condStack, opCount))
    {
      var ok';
      ok', pc, stack, alt, condStack, opCount := StepAt(c, ctx, redeemScript, pc, stack, alt, condStack, opCount);
      if !ok' {
        return false;
      }
    }
    if |condStack| != 0 || |stack| == 0 {
      return false;
    }
    ok := IsTruthyLoop(stack[|stack| - 1]);
  }

  lemma {:induction false} ItemsFitSeq(s: seq<Bytes>)
    requires forall k :: 0 <= k < |s| ==> |s[k]| <= MAX_PUSH_BYTES
    ensures ItemsFit(FromSeq(s))
  {
    if s != [] {
      ItemsFitSeq(s[..|s| - 1]);
    }
  }

  // ------------------------------------------------------------------
  // Every reachable machine is within the limits
  // ------------------------------------------------------------------

  /** Stack sizes, item sizes and the operation count stay bounded through every instruction. */
  lemma StepKeepsLimits(c: Crypto, ctx: Context, i: Instr, m: Machine)
    requires Limits(m)
    requires i.Push? ==> |i.data| <= MAX_PUSH_BYTES
    ensures Step(c, ctx, i, m).Some? ==> Limits(Step(c, ctx, i, m).value)
  {
    if i.Code? && i.op !in {OP_IF, OP_ELSE, OP_ENDIF} {
      ExecuteKeepsLimits(c, ctx, i.op, m.st);
    }
  }

  lemma ExecuteKeepsLimits(c: Crypto, ctx: Context, op: Byte, st: Stacks)
    requires Len(st.main) + Len(st.alt) <= MAX_STACK_SIZE && ItemsFit(st.main) && ItemsFit(st.alt)
    ensures var r := Execute(c, ctx, op, st);
            r.Some? ==> && Len(r.value.main) + Len(r.value.alt) <= MAX_STACK_SIZE
                        && ItemsFit(r.value.main) && ItemsFit(r.value.alt)
  {
    if op in RESERVED_NOPS {
    } else if IsStackOp(op) {
      StackOpKeepsLimits(op, st);
    } else if IsNumberOp(op) {
      NumberOpKeepsLimits(op, st.main);
    } else {
      CryptoOpKeepsLimits(c, ctx, op, st.main);
    }
  }

  lemma SmallNumberFits(v: int)
    requires -0x1_0000_0000 < v < 0x1_0000_0000
    ensures |EncodeNum(v)| <= 5
  {
    assert Pow(256, 4) == U32 by { PowWidths(); }
    EncodedLength(v, 5);
  }

  lemma {:induction false} NthFits(s: List<Bytes>, n: nat)
    requires n < Len(s) && ItemsFit(s)
    ensures |Nth(s, n)| <= MAX_PUSH_BYTES && ItemsFit(Without(s, n)) && Len(Without(s, n)) == Len(s) - 1
  {
    if n > 0 {
      NthFits(s.tail, n - 1);
    }
  }

  lemma StackOpKeepsLimits(op: Byte, st: Stacks)
    requires IsStackOp(op)
    requires Len(st.main) + Len(st.alt) <= MAX_STACK_SIZE && ItemsFit(st.main) && ItemsFit(st.alt)
    ensures var r := StackOp(op, st);
            r.Some? ==> && Len(r.value.main) + Len(r.value.alt) <= MAX_STACK_SIZE
                        && ItemsFit(r.value.main) && ItemsFit(r.value.alt)
  {
    if op <= OP_16 {
      SmallNumberFits(op - 0x50);
    } else if op == OP_PICK || op == OP_ROLL {
      if st.main.Cons? {
        var k := DecodeNum(st.main.head, MAX_NUM_BYTES);
        if k.Some? && 0 <= k.value < Len(st.main.tail) {
          NthFits(st.main.tail, k.value);
        }
      }
    } else if op !in {OP_VERIFY, OP_TOALTSTACK, OP_FROMALTSTACK} {
      ShuffleOpKeepsLimits(op, st);
    }
  }

  lemma ShuffleOpKeepsLimits(op: Byte, st: Stacks)
    requires Len(st.main) + Len(st.alt) <= MAX_STACK_SIZE && ItemsFit(st.main) && ItemsFit(st.alt)
    ensures var r := ShuffleOp(op, st);
            r.Some? ==> && Len(r.value.main) + Len(r.value.alt) <= MAX_STACK_SIZE
                        && ItemsFit(r.value.main) && r.value.alt == st.alt
  {
    SmallNumberFits(Len(st.main));
    if st.main.Cons? {
      SmallNumberFits(|st.main.head|);
      var r := st.main.tail;
      if r.Cons? {
        assert ItemsFit(r) && ItemsFit(r.tail);
        assert Len(r) == 1 + Len(r.tail);
        assert r.tail.Cons? ==> ItemsFit(r.tail.tail) && Len(r.tail) == 1 + Len(r.tail.tail);
        if op == OP_ROT && r.tail.Cons? {
          var rotated := Cons(st.main.head, Cons(r.head, r.tail.tail));
          assert Len(rotated) == 1 + Len(rotated.tail) && Len(rotated.tail) == 1 + Len(r.tail.tail);
        }
      }
    }
  }

  lemma OperandBound(item: Bytes)
    requires DecodeNum(item, MAX_NUM_BYTES).Some?
    ensures -0x8000_0000 < DecodeNum(item, MAX_NUM_BYTES).value < 0x8000_0000
  {
    var v := DecodeNum(item, MAX_NUM_BYTES).value;
    EncodeOfDecode(item, MAX_NUM_BYTES);
    EncodedLength(v, 4);
    assert 0x80 * Pow(256, 3) == 0x8000_0000;
  }

  lemma NumberOpKeepsLimits(op: Byte, s: List<Bytes>)
    requires IsNumberOp(op) && ItemsFit(s)
    ensures var r := NumberOp(op, s); r.Some? ==> Len(r.value) <= Len(s) && ItemsFit(r.value)
  {
    SmallNumberFits(0);
    SmallNumberFits(1);
    if NumberOp(op, s).Some? && op == OP_WITHIN {
      assert ItemsFit(s.tail) && ItemsFit(s.tail.tail);
      assert Len(s.tail) == 1 + Len(s.tail.tail) && Len(s.tail.tail) == 1 + Len(s.tail.tail.tail);
    } else if NumberOp(op, s).Some? {
      var x := DecodeNum(s.head, MAX_NUM_BYTES);
      OperandBound(s.head);
      if op <= OP_0NOTEQUAL {
        SmallNumberFits(Unary(op, x.value).value);
      } else {
        var y := DecodeNum(s.tail.head, MAX_NUM_BYTES);
        OperandBound(s.tail.head);
        SmallNumberFits(Dyadic(op, y.value, x.value).value);
      }
    }
  }

  lemma {:induction false} BelowFits(s: List<Bytes>, n: nat)
    requires n <= Len(s) && ItemsFit(s)
    ensures ItemsFit(Below(s, n)) && Len(Below(s, n)) == Len(s) - n
  {
    if n > 0 {
      BelowFits(s.tail, n - 1);
    }
  }

  lemma CryptoOpKeepsLimits(c: Crypto, ctx: Context, op: Byte, s: List<Bytes>)
    requires ItemsFit(s)
    ensures var r := CryptoOp(c, ctx, op, s); r.Some? ==> Len(r.value) <= Len(s) && ItemsFit(r.value)
  {
    SmallNumberFits(0);
    SmallNumberFits(1);
    if op == OP_CHECKMULTISIG && MultisigOp(c, ctx, s).Some? {
      var n := DecodeNum(s.head, 4).value;
      BelowFits(s.tail, n);
      var s2 := Below(s.tail, n);
      BelowFits(s2.tail, DecodeNum(s2.head, 4).value);
    }
  }

  /** No run, of any length, leaves the limits. */
  lemma {:induction false} RunKeepsLimits(c: Crypto, ctx: Context, code: Bytes, m: Machine)
    requires Limits(m)
    ensures Run(c, ctx, code, m).Some? ==> Limits(Run(c, ctx, code, m).value)
    decreases |code|
  {
    if code != [] && NextInstr(code).Some? {
      var (i, rest) := NextInstr(code).value;
      StepKeepsLimits(c, ctx, i, m);
      if Step(c, ctx, i, m).Some? {
        RunKeepsLimits(c, ctx, rest, Step(c, ctx, i, m).value);
      }
    }
  }
}
