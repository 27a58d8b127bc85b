/**
 * Script templates (src/chain/scriptBuild.ts) and the exact spends they allow.
 */
module ScriptBuild {
  import opened Binary
  import opened Crypto
  import opened ScriptNum
  import opened Script
  import opened Interpreter

  // ------------------------------------------------------------------
  // The clock only unlocks
  // ------------------------------------------------------------------

  predicate SameSpendLater(ctx: Context, later: Context) {
    && ctx.sighash == later.sighash
    && ctx.blockHeight <= later.blockHeight
    && ctx.blockMtp <= later.blockMtp
  }

  lemma StepLater(c: Crypto, ctx: Context, later: Context, i: Instr, m: Machine)
    requires SameSpendLater(ctx, later) && Step(c, ctx, i, m).Some?
    ensures Step(c, later, i, m) == Step(c, ctx, i, m)
  {
  }

  lemma {:induction false} RunLater(c: Crypto, ctx: Context, later: Context, code: Bytes, m: Machine)
    requires SameSpendLater(ctx, later) && Run(c, ctx, code, m).Some?
    ensures Run(c, later, code, m) == Run(c, ctx, code, m)
    decreases |code|
  {
    if code != [] {
      var (i, rest) := NextInstr(code).value;
      StepLater(c, ctx, later, i, m);
      RunLater(c, ctx, later, rest, Step(c, ctx, i, m).value);
    }
  }

  /** A script that authorises a spend now authorises the same spend at any later height and time. */
  lemma AcceptsLater(c: Crypto, ctx: Context, later: Context, script: Bytes, wit: seq<Bytes>)
    requires SameSpendLater(ctx, later) && Accepts(c, ctx, script, wit)
    ensures Accepts(c, later, script, wit)
  {
    RunLater(c, ctx, later, script, Start(wit));
  }

  // ------------------------------------------------------------------
  // Assembling
  // ------------------------------------------------------------------

  /** The shortest push opcode for the data. */
  function PushData(data: Bytes): Bytes {
    if |data| <= 0x4b then [|data|] + data
    else if |data| <= 0xff then [OP_PUSHDATA1, |data|] + data
    else [OP_PUSHDATA2, |data| % 256, |data| / 256 % 256] + data
  }

  /** The interpreter reads back the push, unless it is over the element limit. */
  lemma PushDataReads(data: Bytes, rest: Bytes)
    requires |data| < U16
    ensures NextInstr(PushData(data) + rest) ==
            if |data| <= MAX_PUSH_BYTES then Some((Push(data), rest)) else None
  {
    hide TakePush;
    TakePushOf(data, rest);
    var code := PushData(data) + rest;
    if |data| <= 0x4b {
      assert code == [|data|] + (data + rest);
      assert code[1..] == data + rest;
    } else if |data| <= 0xff {
      assert code == [OP_PUSHDATA1, |data|] + (data + rest);
      assert code[2..] == data + rest;
    } else {
      assert code == [OP_PUSHDATA2, |data| % 256, |data| / 256 % 256] + (data + rest);
      assert code[3..] == data + rest;
      assert LittleEndian16(code[1], code[2]) == |data|;
    }
  }

  lemma TakePushOf(data: Bytes, rest: Bytes)
    ensures TakePush(data + rest, |data|) == if |data| <= MAX_PUSH_BYTES then Some((Push(data), rest)) else None
  {
    assert (data + rest)[..|data|] == data && (data + rest)[|data|..] == rest;
  }

  function Bytecode(i: Instr): Bytes {
    match i
    case Push(data) => PushData(data)
    case Code(op) => [op]
  }

  function Assemble(prog: List<Instr>): Bytes {
    match prog
    case Nil => []
    case Cons(i, rest) => Bytecode(i) + Assemble(rest)
  }

  predicate Assemblable(prog: List<Instr>) {
    match prog
    case Nil => true
    case Cons(i, rest) =>
      (i.Push? ==> |i.data| <= MAX_PUSH_BYTES) && (i.Code? ==> !IsPushOp(i.op)) && Assemblable(rest)
  }

  ghost function RunAll(c: Crypto, ctx: Context, prog: List<Instr>, m: Machine): Option<Machine> {
    match prog
    case Nil => Some(m)
    case Cons(i, rest) =>
      match Step(c, ctx, i, m)
      case None => None
      case Some(m') => RunAll(c, ctx, rest, m')
  }

  /** Running assembled bytes is running the instructions. */
  lemma {:induction false} RunAssembled(c: Crypto, ctx: Context, prog: List<Instr>, m: Machine)
    requires Assemblable(prog)
    ensures Run(c, ctx, Assemble(prog), m) == RunAll(c, ctx, prog, m)
  {
    match prog
    case Nil =>
    case Cons(i, rest) =>
      var code := Assemble(prog);
      if i.Push? {
        PushDataReads(i.data, Assemble(rest));
      } else {
        assert code[1..] == Assemble(rest);
      }
      if Step(c, ctx, i, m).Some? {
        RunAssembled(c, ctx, rest, Step(c, ctx, i, m).value);
      }
  }

  // ------------------------------------------------------------------
  // Hash-locked payment
  // ------------------------------------------------------------------

  function HashlockSigScript(hash: Hash32, pubkey: Hash32): Bytes {
    [OP_SHA256] + PushData(hash) + [OP_EQUALVERIFY] + PushData(pubkey) + [OP_CHECKSIG]
  }

  /** Authorised exactly by a preimage on top of a valid signature. */
  ghost predicate PreimageAndSignature(c: Crypto, ctx: Context, hash: Hash32, pubkey: Hash32, wit: seq<Bytes>) {
    var n := |wit|;
    n >= 2 && c.sha256(wit[n - 1]) == hash && SigValid(c, ctx.sighash, wit[n - 2], pubkey)
  }

  function CheckPreimageAndSig(hash: Hash32, pubkey: Hash32, rest: List<Instr>): List<Instr> {
    Cons(Code(OP_SHA256), Cons(Push(hash), Cons(Code(OP_EQUALVERIFY),
      Cons(Push(pubkey), Cons(Code(OP_CHECKSIG), rest)))))
  }

  /** The five instructions consume the top two items and leave the signature's verdict. */
  lemma PreimageAndSigRuns(c: Crypto, ctx: Context, hash: Hash32, pubkey: Hash32, rest: List<Instr>, m: Machine)
    requires Executing(m.conds) && m.ops <= 100 && m.st.alt == Nil && Len(m.st.main) <= MAX_WITNESS_ITEMS
    ensures RunAll(c, ctx, CheckPreimageAndSig(hash, pubkey, rest), m) ==
            match m.st.main
            case Cons(preimage, Cons(sig, below)) =>
              var verdict := BoolItem(SigValid(c, ctx.sighash, sig, pubkey));
              if c.sha256(preimage) != hash then None
              else RunAll(c, ctx, rest, m.(st := Stacks(Cons(verdict, below), Nil), ops := m.ops + 3))
            case _ => None
  {
    hide RunAll, Step;
    var p3 := Cons(Push(pubkey), Cons(Code(OP_CHECKSIG), rest));
    var p1 := Cons(Push(hash), Cons(Code(OP_EQUALVERIFY), p3));
    Sha256Runs(c, ctx, p1, m);
    if m.st.main.Cons? {
      var s := m.st.main.tail;
      var digest: Bytes := c.sha256(m.st.main.head);
      assert Len(m.st.main) == 1 + Len(s);
      RequireTop(c, ctx, hash, p3, Hashed(c, m));
      if digest == hash {
        CheckSigRuns(c, ctx, pubkey, rest, m.(st := Stacks(s, Nil), ops := m.ops + 2));
      }
    }
  }

  function Hashed(c: Crypto, m: Machine): Machine
    requires m.st.main.Cons?
  {
    m.(st := Stacks(Cons(c.sha256(m.st.main.head), m.st.main.tail), Nil), ops := m.ops + 1)
  }

  /** Hashing replaces the top item by its digest. */
  lemma Sha256Runs(c: Crypto, ctx: Context, rest: List<Instr>, m: Machine)
    requires Executing(m.conds) && m.ops <= 100 && m.st.alt == Nil && Len(m.st.main) <= MAX_WITNESS_ITEMS
    ensures RunAll(c, ctx, Cons(Code(OP_SHA256), rest), m) ==
            if m.st.main.Nil? then None else RunAll(c, ctx, rest, Hashed(c, m))
  {
    if m.st.main.Cons? {
      assert Len(m.st.main) == 1 + Len(m.st.main.tail);
      assert Step(c, ctx, Code(OP_SHA256), m) == Some(Hashed(c, m));
    }
  }

  /** Pushing a constant and EQUALVERIFY: the top item must be that constant, and is consumed. */
  lemma RequireTop(c: Crypto, ctx: Context, data: Bytes, rest: List<Instr>, m: Machine)
    requires Executing(m.conds) && m.ops <= 150 && m.st.alt == Nil && Len(m.st.main) <= 150 && m.st.main.Cons?
    ensures RunAll(c, ctx, Cons(Push(data), Cons(Code(OP_EQUALVERIFY), rest)), m) ==
            if m.st.main.head == data then RunAll(c, ctx, rest, m.(st := Stacks(m.st.main.tail, Nil), ops := m.ops + 1))
            else None
  {
    var p2 := Cons(Code(OP_EQUALVERIFY), rest);
    var m2 := m.(st := Stacks(Cons(data, m.st.main), Nil));
    assert Step(c, ctx, Push(data), m) == Some(m2);
    assert RunAll(c, ctx, Cons(Push(data), p2), m) == RunAll(c, ctx, p2, m2);
  }

  function SigChecked(c: Crypto, ctx: Context, pubkey: Bytes, m: Machine): Machine
    requires m.st.main.Cons?
  {
    var verdict := BoolItem(SigValid(c, ctx.sighash, m.st.main.head, pubkey));
    m.(st := Stacks(Cons(verdict, m.st.main.tail), Nil), ops := m.ops + 1)
  }

  /** Pushing a key and CHECKSIG: the top item is replaced by whether it signs the spend. */
  lemma CheckSigRuns(c: Crypto, ctx: Context, pubkey: Bytes, rest: List<Instr>, m: Machine)
    requires Executing(m.conds) && m.ops <= 150 && m.st.alt == Nil && Len(m.st.main) <= 150
    ensures RunAll(c, ctx, Cons(Push(pubkey), Cons(Code(OP_CHECKSIG), rest)), m) ==
            if m.st.main.Nil? then None
            else RunAll(c, ctx, rest, SigChecked(c, ctx, pubkey, m))
  {
    var p2 := Cons(Code(OP_CHECKSIG), rest);
    var m2 := m.(st := Stacks(Cons(pubkey, m.st.main), Nil));
    assert Step(c, ctx, Push(pubkey), m) == Some(m2);
    assert RunAll(c, ctx, Cons(Push(pubkey), p2), m) == RunAll(c, ctx, p2, m2);
  }

  lemma HashlockSigExact(c: Crypto, ctx: Context, hash: Hash32, pubkey: Hash32, wit: seq<Bytes>)
    ensures Accepts(c, ctx, HashlockSigScript(hash, pubkey), wit) <==>
            WithinLimits([], wit) && PreimageAndSignature(c, ctx, hash, pubkey, wit)
  {
    var prog := CheckPreimageAndSig(hash, pubkey, Nil);
    var script := HashlockSigScript(hash, pubkey);
    ClaimAssembles(hash, pubkey, Nil);
    assert script == Assemble(prog);
    if WithinLimits([], wit) {
      LenFromSeq(wit);
      Tops(wit);
      RunAssembled(c, ctx, prog, Start(wit));
      PreimageAndSigRuns(c, ctx, hash, pubkey, Nil, Start(wit));
      TruthyNumber(0);
      TruthyNumber(1);
    }
  }

  // ------------------------------------------------------------------
  // Hashed time-lock contract
  // ------------------------------------------------------------------

  function HtlcScript(hash: Hash32, recipient: Hash32, locktime: int, sender: Hash32): Bytes {
    [OP_IF] + HashlockSigScript(hash, recipient) + [OP_ELSE] + RefundBytes(locktime, sender)
  }

  function RefundBytes(locktime: int, sender: Hash32): Bytes {
    PushData(EncodeNum(locktime))
    + ([OP_CHECKLOCKTIMEVERIFY, OP_DROP] + PushData(sender) + [OP_CHECKSIG] + [OP_ENDIF])
  }

  /** A truthy selector on top, then the secret, then the recipient's signature. */
  ghost predicate Claims(c: Crypto, ctx: Context, hash: Hash32, recipient: Hash32, wit: seq<Bytes>) {
    var n := |wit|;
    && n >= 3 && IsTruthy(wit[n - 1])
    && c.sha256(wit[n - 2]) == hash
    && SigValid(c, ctx.sighash, wit[n - 3], recipient)
  }

  /** A falsy selector on top, then the sender's signature, once the lock's clock has been reached. */
  ghost predicate Refunds(c: Crypto, ctx: Context, locktime: int, sender: Hash32, wit: seq<Bytes>) {
    var n := |wit|;
    && n >= 2 && !IsTruthy(wit[n - 1])
    && 0 <= locktime < 0x80_0000_0000
    && locktime <= (if locktime < LOCKTIME_THRESHOLD then ctx.blockHeight else ctx.blockMtp)
    && SigValid(c, ctx.sighash, wit[n - 2], sender)
  }

  function RefundProgram(locktime: int, sender: Hash32): List<Instr> {
    Cons(Push(EncodeNum(locktime)), Cons(Code(OP_CHECKLOCKTIMEVERIFY), Cons(Code(OP_DROP),
      Cons(Push(sender), Cons(Code(OP_CHECKSIG), Cons(Code(OP_ENDIF), Nil))))))
  }

  function HtlcProgram(hash: Hash32, recipient: Hash32, locktime: int, sender: Hash32): List<Instr> {
    Cons(Code(OP_IF), CheckPreimageAndSig(hash, recipient, Cons(Code(OP_ELSE), RefundProgram(locktime, sender))))
  }

  /** Numbers a JavaScript program can hold exactly. */
  predicate SafeInteger(n: int) { -0x20_0000_0000_0000 < n < 0x20_0000_0000_0000 }

  lemma LocktimeEncoding(t: int)
    requires SafeInteger(t)
    ensures |EncodeNum(t)| <= 8
    ensures DecodeNum(EncodeNum(t), 5) == if Abs(t) < 0x80_0000_0000 then Some(t) else None
  {
    PowWidths();
    assert Pow(256, 7) == 0x100_0000 * U32 by { PowAdd(256, 3, 4); }
    EncodedLength(t, 8);
    EncodedLength(t, 5);
    DecodeOfEncode(t, 5);
  }

  lemma RefundAssembles(locktime: int, sender: Hash32)
    requires SafeInteger(locktime)
    ensures Assemble(RefundProgram(locktime, sender)) == RefundBytes(locktime, sender)
    ensures Assemblable(RefundProgram(locktime, sender))
  {
    LocktimeEncoding(locktime);
    var q6 := Cons(Code(OP_ENDIF), Nil);
    var q4 := Cons(Push(sender), Cons(Code(OP_CHECKSIG), q6));
    var q2 := Cons(Code(OP_CHECKLOCKTIMEVERIFY), Cons(Code(OP_DROP), q4));
    assert Assemble(q6) == [OP_ENDIF] && Assemblable(q6);
    assert Assemble(q4) == PushData(sender) + ([OP_CHECKSIG] + [OP_ENDIF]) && Assemblable(q4);
    assert Assemble(q2) == [OP_CHECKLOCKTIMEVERIFY] + ([OP_DROP] + Assemble(q4)) && Assemblable(q2);
    Reassociate([OP_CHECKLOCKTIMEVERIFY], [OP_DROP], PushData(sender), [OP_CHECKSIG] + [OP_ENDIF]);
    Reassociate([OP_CHECKLOCKTIMEVERIFY, OP_DROP], PushData(sender), [OP_CHECKSIG], [OP_ENDIF]);
    assert [OP_CHECKLOCKTIMEVERIFY] + [OP_DROP] == [OP_CHECKLOCKTIMEVERIFY, OP_DROP];
  }

  lemma ClaimAssembles(hash: Hash32, recipient: Hash32, rest: List<Instr>)
    requires Assemblable(rest)
    ensures Assemble(CheckPreimageAndSig(hash, recipient, rest)) == HashlockSigScript(hash, recipient) + Assemble(rest)
    ensures Assemblable(CheckPreimageAndSig(hash, recipient, rest))
  {
    var p4 := Cons(Code(OP_CHECKSIG), rest);
    var p2 := Cons(Code(OP_EQUALVERIFY), Cons(Push(recipient), p4));
    assert Assemblable(p4) && Assemblable(p2.tail) && Assemblable(p2);
    assert Assemble(p4) == [OP_CHECKSIG] + Assemble(rest);
    assert Assemble(p2) == [OP_EQUALVERIFY] + (PushData(recipient) + Assemble(p4));
    assert Assemble(CheckPreimageAndSig(hash, recipient, rest)) == [OP_SHA256] + (PushData(hash) + Assemble(p2));
    Reassociate([OP_SHA256], PushData(hash), [OP_EQUALVERIFY], PushData(recipient) + Assemble(p4));
    Reassociate([OP_SHA256] + PushData(hash) + [OP_EQUALVERIFY], PushData(recipient), [OP_CHECKSIG], Assemble(rest));
    Reassociate([OP_SHA256] + PushData(hash), [OP_EQUALVERIFY], PushData(recipient), [OP_CHECKSIG] + Assemble(rest));
  }

  lemma HtlcAssembles(hash: Hash32, recipient: Hash32, locktime: int, sender: Hash32)
    requires SafeInteger(locktime)
    ensures HtlcScript(hash, recipient, locktime, sender) == Assemble(HtlcProgram(hash, recipient, locktime, sender))
    ensures Assemblable(HtlcProgram(hash, recipient, locktime, sender))
    ensures |HtlcScript(hash, recipient, locktime, sender)| <= MAX_SCRIPT_BYTES
  {
    LocktimeEncoding(locktime);
    RefundAssembles(locktime, sender);
    var branch := Cons(Code(OP_ELSE), RefundProgram(locktime, sender));
    ClaimAssembles(hash, recipient, branch);
    Reassociate([OP_IF], HashlockSigScript(hash, recipient), [OP_ELSE], Assemble(branch.tail));
  }

  lemma Reassociate(a: Bytes, b: Bytes, c: Bytes, d: Bytes)
    ensures a + b + c + d == a + (b + (c + d))
  {
  }

  /** Taking the first branch: everything between ELSE and ENDIF is skipped. */
  lemma SkipsRefund(c: Crypto, ctx: Context, locktime: int, sender: Hash32, m: Machine)
    requires m.conds == Cons(true, Nil)
    ensures RunAll(c, ctx, Cons(Code(OP_ELSE), RefundProgram(locktime, sender)), m) == Some(m.(conds := Nil))
  {
    var off := m.(conds := Cons(false, Nil));
    var q5 := Cons(Code(OP_CHECKSIG), Cons(Code(OP_ENDIF), Nil));
    assert RunAll(c, ctx, Cons(Code(OP_ENDIF), Nil), off) == Some(m.(conds := Nil));
    assert RunAll(c, ctx, q5, off) == RunAll(c, ctx, q5.tail, off);
    var q3 := Cons(Code(OP_DROP), Cons(Push(sender), q5));
    assert RunAll(c, ctx, q3.tail, off) == RunAll(c, ctx, q5, off);
    var q1 := Cons(Push(EncodeNum(locktime)), Cons(Code(OP_CHECKLOCKTIMEVERIFY), q3));
    assert RunAll(c, ctx, q1.tail, off) == RunAll(c, ctx, q3, off);
    assert RunAll(c, ctx, q1, off) == RunAll(c, ctx, q1.tail, off);
    assert q1 == RefundProgram(locktime, sender);
  }

  lemma SkipsClaim(c: Crypto, ctx: Context, hash: Hash32, recipient: Hash32, refund: List<Instr>, m: Machine)
    requires m.conds == Cons(false, Nil)
    ensures RunAll(c, ctx, CheckPreimageAndSig(hash, recipient, Cons(Code(OP_ELSE), refund)), m)
            == RunAll(c, ctx, refund, m.(conds := Cons(true, Nil)))
  {
    var p5 := Cons(Code(OP_ELSE), refund);
    var p3 := Cons(Push(recipient), Cons(Code(OP_CHECKSIG), p5));
    assert RunAll(c, ctx, p3.tail, m) == RunAll(c, ctx, p5, m);
    assert RunAll(c, ctx, p3, m) == RunAll(c, ctx, p3.tail, m);
    var p1 := Cons(Push(hash), Cons(Code(OP_EQUALVERIFY), p3));
    assert RunAll(c, ctx, p1.tail, m) == RunAll(c, ctx, p3, m);
    assert RunAll(c, ctx, p1, m) == RunAll(c, ctx, p1.tail, m);
  }

  /** The second branch: check the clock, drop the locktime, leave the signature's verdict. */
  lemma RefundRuns(c: Crypto, ctx: Context, locktime: int, sender: Hash32, m: Machine)
    requires SafeInteger(locktime)
    requires m.conds == Cons(true, Nil) && m.ops == 0 && m.st.alt == Nil && Len(m.st.main) <= MAX_WITNESS_ITEMS
    ensures RunAll(c, ctx, RefundProgram(locktime, sender), m) ==
            if LocktimeReached(ctx, EncodeNum(locktime)) && m.st.main.Cons?
            then var verdict := BoolItem(SigValid(c, ctx.sighash, m.st.main.head, sender));
              Some(Machine(Stacks(Cons(verdict, m.st.main.tail), Nil), Nil, 3))
            else None
  {
    var s, t := m.st.main, EncodeNum(locktime);
    LocktimeEncoding(locktime);
    var q6 := Cons(Code(OP_ENDIF), Nil);
    var q3 := Cons(Code(OP_DROP), Cons(Push(sender), Cons(Code(OP_CHECKSIG), q6)));
    var q2 := Cons(Code(OP_CHECKLOCKTIMEVERIFY), q3);
    var m1 := m.(st := Stacks(Cons(t, s), Nil));
    assert Step(c, ctx, Push(t), m) == Some(m1);
    assert RunAll(c, ctx, RefundProgram(locktime, sender), m) == RunAll(c, ctx, q2, m1);
    if LocktimeReached(ctx, t) {
      var m2 := m1.(ops := 1);
      assert Step(c, ctx, Code(OP_CHECKLOCKTIMEVERIFY), m1) == Some(m2);
      var m3 := m.(ops := 2);
      assert Step(c, ctx, Code(OP_DROP), m2) == Some(m3);
      assert RunAll(c, ctx, q2, m1) == RunAll(c, ctx, q3, m2) == RunAll(c, ctx, q3.tail, m3);
      CheckSigRuns(c, ctx, sender, q6, m3);
      if s.Cons? {
        var m5 := m3.(st := Stacks(Cons(BoolItem(SigValid(c, ctx.sighash, s.head, sender)), s.tail), Nil), ops := 3);
        assert RunAll(c, ctx, q6, m5) == RunAll(c, ctx, Nil, m5.(conds := Nil));
      }
    } else {
      assert Step(c, ctx, Code(OP_CHECKLOCKTIMEVERIFY), m1) == None;
    }
  }

  /**
   * The atomic-swap contract admits exactly two kinds of spend: the recipient with the
   * secret, and the sender once the locktime has passed. Extra items below are ignored.
   */
  lemma HtlcExact(c: Crypto, ctx: Context, hash: Hash32, recipient: Hash32, locktime: int, sender: Hash32,
                  wit: seq<Bytes>)
    requires SafeInteger(locktime)
    ensures Accepts(c, ctx, HtlcScript(hash, recipient, locktime, sender), wit) <==>
            WithinLimits([], wit)
            && (Claims(c, ctx, hash, recipient, wit) || Refunds(c, ctx, locktime, sender, wit))
  {
    HtlcAssembles(hash, recipient, locktime, sender);
    if WithinLimits([], wit) {
      RunAssembled(c, ctx, HtlcProgram(hash, recipient, locktime, sender), Start(wit));
      LenFromSeq(wit);
      Tops(wit);
      if wit == [] {
      } else if IsTruthy(wit[|wit| - 1]) {
        ClaimPath(c, ctx, hash, recipient, locktime, sender, wit);
      } else {
        RefundPath(c, ctx, hash, recipient, locktime, sender, wit);
      }
    }
  }

  lemma ClaimPath(c: Crypto, ctx: Context, hash: Hash32, recipient: Hash32, locktime: int, sender: Hash32,
                  wit: seq<Bytes>)
    requires SafeInteger(locktime) && 0 < |wit| <= MAX_WITNESS_ITEMS && IsTruthy(wit[|wit| - 1])
    ensures FinishesTrue(RunAll(c, ctx, HtlcProgram(hash, recipient, locktime, sender), Start(wit)))
            <==> Claims(c, ctx, hash, recipient, wit)
  {
    LenFromSeq(wit);
    Tops(wit);
    var m := Start(wit);
    var m1 := Machine(Stacks(m.st.main.tail, Nil), Cons(true, Nil), 0);
    var branch := Cons(Code(OP_ELSE), RefundProgram(locktime, sender));
    assert Step(c, ctx, Code(OP_IF), m) == Some(m1);
    assert Len(m.st.main) == 1 + Len(m1.st.main);
    PreimageAndSigRuns(c, ctx, hash, recipient, branch, m1);
    match m1.st.main
    case Cons(_, Cons(sig, below)) =>
      var held := SigValid(c, ctx.sighash, sig, recipient);
      TruthyNumber(if held then 1 else 0);
      SkipsRefund(c, ctx, locktime, sender, m1.(st := Stacks(Cons(BoolItem(held), below), Nil), ops := 3));
    case _ =>
  }

  lemma RefundPath(c: Crypto, ctx: Context, hash: Hash32, recipient: Hash32, locktime: int, sender: Hash32,
                   wit: seq<Bytes>)
    requires SafeInteger(locktime) && 0 < |wit| <= MAX_WITNESS_ITEMS && !IsTruthy(wit[|wit| - 1])
    ensures FinishesTrue(RunAll(c, ctx, HtlcProgram(hash, recipient, locktime, sender), Start(wit)))
            <==> Refunds(c, ctx, locktime, sender, wit)
  {
    LenFromSeq(wit);
    Tops(wit);
    var m := Start(wit);
    var m1 := Machine(Stacks(m.st.main.tail, Nil), Cons(false, Nil), 0);
    assert Step(c, ctx, Code(OP_IF), m) == Some(m1);
    assert Len(m.st.main) == 1 + Len(m1.st.main);
    SkipsClaim(c, ctx, hash, recipient, RefundProgram(locktime, sender), m1);
    RefundRuns(c, ctx, locktime, sender, m1.(conds := Cons(true, Nil)));
    LocktimeEncoding(locktime);
    if m1.st.main.Cons? {
      TruthyNumber(if SigValid(c, ctx.sighash, m1.st.main.head, sender) then 1 else 0);
    }
  }
}
