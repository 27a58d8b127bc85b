/**
 * Branching, limits and acceptance of whole scripts: a script built from nested
 * branches does what its structure says, and the budgets are exactly the
 * source's (src/chain/script.ts 245-329, 581-590).
 */
module FlowLaws {
  import opened Binary
  import opened Crypto
  import opened OpcodeLaws
  import opened ScriptNum
  import opened Script
  import opened ScriptBuild

  // ------------------------------------------------------------------
  // Structured scripts
  // ------------------------------------------------------------------

  /** A push or opcode, or a choice between two structured scripts. */
  datatype Cmd = Plain(i: Instr) | Choice(yes: List<Cmd>, no: List<Cmd>)

  predicate IsFlow(i: Instr) { i.Code? && i.op in {OP_IF, OP_ELSE, OP_ENDIF} }

  predicate Structured(cmds: List<Cmd>) {
    match cmds
    case Nil => true
    case Cons(Plain(i), r) => !IsFlow(i) && Structured(r)
    case Cons(Choice(yes, no), r) => Structured(yes) && Structured(no) && Structured(r)
  }

  /** The instructions of a structured script, followed by `rest`. */
  function Flat(cmds: List<Cmd>, rest: List<Instr>): List<Instr> {
    match cmds
    case Nil => rest
    case Cons(Plain(i), r) => Cons(i, Flat(r, rest))
    case Cons(Choice(yes, no), r) =>
      Cons(Code(OP_IF), Flat(yes, Cons(Code(OP_ELSE), Flat(no, Cons(Code(OP_ENDIF), Flat(r, rest))))))
  }

  /** Stacks and operations spent, with no nesting to keep track of. */
  datatype Config = Config(st: Stacks, ops: nat)

  /** What a structured script means: a choice pops its selector and runs one side. */
  ghost function Meaning(c: Crypto, ctx: Context, cmds: List<Cmd>, s: Config): Option<Config> {
    match cmds
    case Nil => Some(s)
    case Cons(Plain(Push(data)), r) =>
      if Len(s.st.main) + Len(s.st.alt) + 1 > 1000 then None
      else Meaning(c, ctx, r, s.(st := s.st.(main := Cons(data, s.st.main))))
    case Cons(Plain(Code(op)), r) =>
      if s.ops + 1 > 201 || Execute(c, ctx, op, s.st).None? then None
      else Meaning(c, ctx, r, Config(Execute(c, ctx, op, s.st).value, s.ops + 1))
    case Cons(Choice(yes, no), r) =>
      if s.st.main.Nil? then None else
        var popped := s.(st := s.st.(main := s.st.main.tail));
        var after := if IsTruthy(s.st.main.head) then Meaning(c, ctx, yes, popped) else Meaning(c, ctx, no, popped);
        if after.None? then None else Meaning(c, ctx, r, after.value)
  }

  /** In a branch not taken nothing happens, however deeply nested. */
  lemma {:induction false} Skipped(c: Crypto, ctx: Context, cmds: List<Cmd>, rest: List<Instr>, m: Machine)
    requires Structured(cmds) && !Executing(m.conds)
    ensures RunAll(c, ctx, Flat(cmds, rest), m) == RunAll(c, ctx, rest, m)
    decreases cmds
  {
    hide Execute;
    match cmds
    case Nil =>
    case Cons(Plain(i), r) => Skipped(c, ctx, r, rest, m);
    case Cons(Choice(yes, no), r) =>
      var end := Cons(Code(OP_ENDIF), Flat(r, rest));
      var other := Cons(Code(OP_ELSE), Flat(no, end));
      var inner, outer := m.(conds := Cons(false, m.conds)), m.(conds := Cons(true, m.conds));
      Skipped(c, ctx, yes, other, inner);
      assert RunAll(c, ctx, other, inner) == RunAll(c, ctx, Flat(no, end), outer);
      Skipped(c, ctx, no, end, outer);
      Skipped(c, ctx, r, rest, m);
  }

  ghost function Resume(c: Crypto, ctx: Context, rest: List<Instr>, conds: List<bool>, s: Option<Config>)
    : Option<Machine>
  {
    if s.None? then None else RunAll(c, ctx, rest, Machine(s.value.st, conds, s.value.ops))
  }

  /**
   * Executed code does exactly what its structure means: IF consumes its
   * selector and chooses, whatever surrounds it, and the nesting is as it was afterwards.
   */
  lemma {:induction false} StructureMeans(c: Crypto, ctx: Context, cmds: List<Cmd>, rest: List<Instr>, m: Machine)
    requires Structured(cmds) && Executing(m.conds)
    ensures RunAll(c, ctx, Flat(cmds, rest), m) ==
            Resume(c, ctx, rest, m.conds, Meaning(c, ctx, cmds, Config(m.st, m.ops)))
    decreases cmds
  {
    hide Execute, RunAll;
    match cmds
    case Nil =>
    case Cons(Plain(Push(data)), r) =>
      PushRuns(c, ctx, data, Flat(r, rest), m);
      StructureMeans(c, ctx, r, rest, m.(st := m.st.(main := Cons(data, m.st.main))));
    case Cons(Plain(Code(op)), r) =>
      CodeStep(c, ctx, op, Flat(r, rest), m);
      if m.ops < MAX_OPS && Execute(c, ctx, op, m.st).Some? {
        StructureMeans(c, ctx, r, rest, m.(st := Execute(c, ctx, op, m.st).value, ops := m.ops + 1));
      }
    case Cons(Choice(yes, no), r) => ChoiceMeans(c, ctx, yes, no, r, rest, m);
  }

  lemma CodeStep(c: Crypto, ctx: Context, op: Byte, rest: List<Instr>, m: Machine)
    requires Executing(m.conds) && op !in {OP_IF, OP_ELSE, OP_ENDIF}
    ensures RunAll(c, ctx, Cons(Code(op), rest), m) ==
            if m.ops + 1 > 201 || Execute(c, ctx, op, m.st).None? then None
            else RunAll(c, ctx, rest, m.(st := Execute(c, ctx, op, m.st).value, ops := m.ops + 1))
  {
    hide Execute;
  }

  lemma {:induction false} ChoiceMeans(c: Crypto, ctx: Context, yes: List<Cmd>, no: List<Cmd>, r: List<Cmd>,
      rest: List<Instr>, m: Machine)
    requires Structured(yes) && Structured(no) && Structured(r) && Executing(m.conds)
    ensures RunAll(c, ctx, Flat(Cons(Choice(yes, no), r), rest), m) ==
            Resume(c, ctx, rest, m.conds, Meaning(c, ctx, Cons(Choice(yes, no), r), Config(m.st, m.ops)))
    decreases Cons(Choice(yes, no), r), 0
  {
    hide Execute, RunAll, Structured;
    var end := Cons(Code(OP_ENDIF), Flat(r, rest));
    var other := Cons(Code(OP_ELSE), Flat(no, end));
    IfRuns(c, ctx, Flat(yes, other), m);
    if m.st.main.Cons? {
      var on := IsTruthy(m.st.main.head);
      var popped := m.st.(main := m.st.main.tail);
      var inner := Machine(popped, Cons(on, m.conds), m.ops);
      var done := Meaning(c, ctx, if on then yes else no, Config(popped, m.ops));
      if on {
        StructureMeans(c, ctx, yes, other, inner);
        if done.Some? {
          var n := Machine(done.value.st, inner.conds, done.value.ops);
          ElseRuns(c, ctx, Flat(no, end), n);
          Skipped(c, ctx, no, end, n.(conds := Cons(false, m.conds)));
          EndRuns(c, ctx, Flat(r, rest), n.(conds := Cons(false, m.conds)));
        }
      } else {
        Skipped(c, ctx, yes, other, inner);
        ElseRuns(c, ctx, Flat(no, end), inner);
        StructureMeans(c, ctx, no, end, inner.(conds := Cons(true, m.conds)));
        if done.Some? {
          EndRuns(c, ctx, Flat(r, rest), Machine(done.value.st, Cons(true, m.conds), done.value.ops));
        }
      }
      if done.Some? {
        StructureMeans(c, ctx, r, rest, Machine(done.value.st, m.conds, done.value.ops));
      }
    }
  }

  lemma IfRuns(c: Crypto, ctx: Context, rest: List<Instr>, m: Machine)
    requires Executing(m.conds)
    ensures RunAll(c, ctx, Cons(Code(OP_IF), rest), m) ==
            if m.st.main.Nil? then None
            else RunAll(c, ctx, rest, m.(st := m.st.(main := m.st.main.tail),
                                         conds := Cons(IsTruthy(m.st.main.head), m.conds)))
  {
    hide Execute, IsTruthy;
  }

  lemma ElseRuns(c: Crypto, ctx: Context, rest: List<Instr>, m: Machine)
    requires m.conds.Cons?
    ensures RunAll(c, ctx, Cons(Code(OP_ELSE), rest), m) ==
            RunAll(c, ctx, rest, m.(conds := Cons(!m.conds.head, m.conds.tail)))
  {
    hide Execute;
  }

  lemma EndRuns(c: Crypto, ctx: Context, rest: List<Instr>, m: Machine)
    requires m.conds.Cons?
    ensures RunAll(c, ctx, Cons(Code(OP_ENDIF), rest), m) == RunAll(c, ctx, rest, m.(conds := m.conds.tail))
  {
    hide Execute;
  }

  // ------------------------------------------------------------------
  // Acceptance
  // ------------------------------------------------------------------

  /**
   * A structured script within the limits authorises a spend exactly when its
   * meaning on the witness, last item on top, ends with a truthy item on top.
   */
  lemma StructuredAccepts(c: Crypto, ctx: Context, cmds: List<Cmd>, wit: seq<Bytes>)
    requires Structured(cmds) && Assemblable(Flat(cmds, Nil))
    ensures Accepts(c, ctx, Assemble(Flat(cmds, Nil)), wit) <==>
            && |Assemble(Flat(cmds, Nil))| <= 10_000
            && |wit| <= 100 && (forall i :: 0 <= i < |wit| ==> |wit[i]| <= 520)
            && (var end := Meaning(c, ctx, cmds, Config(Stacks(OnTop(wit, Nil), Nil), 0));
                end.Some? && end.value.st.main.Cons? && IsTruthy(end.value.st.main.head))
  {
    hide RunAll, Meaning, Run, Flat, Assemble, IsTruthy, Assemblable, Structured, FromSeq, OnTop;
    var s := Stacks(OnTop(wit, Nil), Nil);
    WitnessOnTop(wit);
    RunAssembled(c, ctx, Flat(cmds, Nil), Start(wit));
    StructureMeans(c, ctx, cmds, Nil, Start(wit));
    var end := Meaning(c, ctx, cmds, Config(s, 0));
    if end.Some? {
      NothingRuns(c, ctx, Machine(end.value.st, Nil, end.value.ops));
    }
  }

  lemma {:induction false} WitnessOnTop(wit: seq<Bytes>)
    ensures FromSeq(wit) == OnTop(wit, Nil)
    decreases |wit|
  {
    if wit != [] {
      var n := |wit|;
      assert wit == wit[..n - 1] + [wit[n - 1]];
      TopOf(wit[..n - 1], wit[n - 1], Nil);
      WitnessOnTop(wit[..n - 1]);
    }
  }

  /** How many instructions are `op`. */
  function Count(prog: List<Instr>, op: Byte): nat {
    match prog
    case Nil => 0
    case Cons(i, r) => (if i == Code(op) then 1 else 0) + Count(r, op)
  }

  lemma {:induction false} NestingCounts(c: Crypto, ctx: Context, prog: List<Instr>, m: Machine)
    requires RunAll(c, ctx, prog, m).Some?
    ensures Len(RunAll(c, ctx, prog, m).value.conds) + Count(prog, OP_ENDIF) == Len(m.conds) + Count(prog, OP_IF)
  {
    hide Execute, IsTruthy, Executing;
    if prog.Cons? {
      NestingCounts(c, ctx, prog.tail, Step(c, ctx, prog.head, m).value);
    }
  }

  /** A script that leaves a branch open, or closes one it never opened, authorises nothing. */
  lemma Unbalanced(c: Crypto, ctx: Context, prog: List<Instr>, wit: seq<Bytes>)
    requires Assemblable(prog) && Count(prog, OP_IF) != Count(prog, OP_ENDIF)
    ensures !Accepts(c, ctx, Assemble(prog), wit)
  {
    hide RunAll, Run, Assemble, Assemblable, Count;
    RunAssembled(c, ctx, prog, Start(wit));
    if RunAll(c, ctx, prog, Start(wit)).Some? {
      NestingCounts(c, ctx, prog, Start(wit));
    }
  }

  // ------------------------------------------------------------------
  // Budgets
  // ------------------------------------------------------------------

  function Repeat(cmd: Cmd, n: nat, rest: List<Cmd>): List<Cmd> {
    if n == 0 then rest else Cons(cmd, Repeat(cmd, n - 1, rest))
  }

  lemma {:induction false} RepeatStructured(cmd: Cmd, n: nat, rest: List<Cmd>)
    requires Structured(Cons(cmd, Nil)) && Structured(rest)
    ensures Structured(Repeat(cmd, n, rest))
  {
    if n > 0 {
      RepeatStructured(cmd, n - 1, rest);
    }
  }

  /** The reserved opcodes do nothing but count. */
  lemma {:induction false} Nops(c: Crypto, ctx: Context, op: Byte, n: nat, rest: List<Cmd>, s: Config)
    requires op in {0x61, 0xb0, 0xb2, 0xb3, 0xb4, 0xb5, 0xb6, 0xb7, 0xb8, 0xb9}
    requires s.ops <= 201
    ensures Meaning(c, ctx, Repeat(Plain(Code(op)), n, rest), s) ==
            if s.ops + n <= 201 then Meaning(c, ctx, rest, s.(ops := s.ops + n)) else None
  {
    assert Execute(c, ctx, op, s.st) == Some(s.st);
    if n > 0 && s.ops < 201 {
      hide Execute;
      Nops(c, ctx, op, n - 1, rest, s.(ops := s.ops + 1));
    }
  }

  /** So 201 executed operations are allowed and 202 are not; pushes and branch opcodes are free. */
  lemma OperationBudget(c: Crypto, ctx: Context, n: nat)
    ensures var prog := Repeat(Plain(Code(OP_NOP)), n, Nil);
            Meaning(c, ctx, prog, Config(Stacks(Nil, Nil), 0)).Some? <==> n <= 201
  {
    hide Meaning;
    Nops(c, ctx, OP_NOP, n, Nil, Config(Stacks(Nil, Nil), 0));
    MeaningNil(c, ctx, Config(Stacks(Nil, Nil), n));
  }

  lemma MeaningNil(c: Crypto, ctx: Context, s: Config)
    ensures Meaning(c, ctx, Nil, s) == Some(s)
  {
  }

  /** The opcodes the switch does not know. */
  const UNKNOWN: set<Byte> := {0x4e, 0x4f, 0x50, 0x62, 0x64, 0x65, 0x66, 0x6a, 0x6d, 0x6f, 0x70, 0x71, 0x72, 0x7e,
    0x7f, 0x80, 0x81, 0x83, 0x84, 0x85, 0x86, 0x89, 0x8a, 0x8d, 0x8e, 0x95, 0x96, 0x97, 0x98, 0x99, 0xa7, 0xab, 0xaf}

  /** Executing an opcode without a meaning fails on every stack. */
  lemma UnknownFails(c: Crypto, ctx: Context, op: Byte, st: Stacks)
    requires op in UNKNOWN || op > 0xb9
    ensures Execute(c, ctx, op, st) == None
  {
    hide EncodeNum, DecodeNum, StackOp, NumberOp, CryptoOp;
    if IsStackOp(op) {
      UnknownStackOp(op, st);
    } else if IsNumberOp(op) {
      UnknownNumberOp(op, st.main);
    } else {
      UnknownCryptoOp(c, ctx, op, st.main);
    }
  }

  lemma UnknownStackOp(op: Byte, st: Stacks)
    requires op in UNKNOWN && IsStackOp(op)
    ensures StackOp(op, st) == None
  {
    hide EncodeNum, DecodeNum, Fits;
  }

  lemma UnknownNumberOp(op: Byte, s: List<Bytes>)
    requires op in UNKNOWN && IsNumberOp(op)
    ensures NumberOp(op, s) == None
  {
    hide EncodeNum, DecodeNum;
  }

  lemma UnknownCryptoOp(c: Crypto, ctx: Context, op: Byte, s: List<Bytes>)
    requires (op in UNKNOWN || op > 0xb9) && !IsStackOp(op) && !IsNumberOp(op)
    ensures CryptoOp(c, ctx, op, s) == None
  {
    hide EncodeNum, DecodeNum, MultisigOp;
  }

  // ------------------------------------------------------------------
  // One script from its bytes to its verdict
  // ------------------------------------------------------------------

  /** The five-byte script `a b SUB d NUMEQUAL` is accepted without a witness exactly when a - b = d. */
  lemma SubtractionScript(c: Crypto, ctx: Context, a: nat, b: nat, d: nat)
    requires 1 <= a <= 16 && 1 <= b <= 16 && 1 <= d <= 16
    ensures Accepts(c, ctx, [0x50 + a, 0x50 + b, 0x94, 0x50 + d, 0x9c], []) <==> a - b == d
  {
    hide Accepts, Execute, EncodeNum, DecodeNum, IsTruthy, Meaning;
    var p3 := Cons(Plain(Code(0x50 + d)), Cons(Plain(Code(0x9c)), Nil));
    var p2 := Cons(Plain(Code(0x94)), p3);
    var p1 := Cons(Plain(Code(0x50 + b)), p2);
    var p0 := Cons(Plain(Code(0x50 + a)), p1);
    FiveBytes([0x50 + a, 0x50 + b, 0x94, 0x50 + d, 0x9c]);
    StructuredAccepts(c, ctx, p0, []);
    var x, y, z := Cons(EncodeNum(a), Nil), Cons(EncodeNum(b), Cons(EncodeNum(a), Nil)), Cons(EncodeNum(a - b), Nil);
    var w := Cons(EncodeNum(d), z);
    Literal(c, ctx, [], a, Stacks(Nil, Nil));
    Literal(c, ctx, [], b, Stacks(x, Nil));
    SubExecutes(c, ctx, a, b, Stacks(Nil, Nil));
    Literal(c, ctx, [], d, Stacks(z, Nil));
    NumEqualExecutes(c, ctx, a - b, d, Stacks(Nil, Nil));
    MeansCode(c, ctx, 0x50 + a, p1, Stacks(Nil, Nil), 0);
    MeansCode(c, ctx, 0x50 + b, p2, Stacks(x, Nil), 1);
    MeansCode(c, ctx, 0x94, p3, Stacks(y, Nil), 2);
    MeansCode(c, ctx, 0x50 + d, p3.tail, Stacks(z, Nil), 3);
    MeansCode(c, ctx, 0x9c, Nil, Stacks(w, Nil), 4);
    var verdict := if a - b == d then 1 else 0;
    MeaningNil(c, ctx, Config(Stacks(Cons(EncodeNum(verdict), Nil), Nil), 5));
    TruthyNumber(verdict);
  }

  lemma MeansCode(c: Crypto, ctx: Context, op: Byte, r: List<Cmd>, st: Stacks, ops: nat)
    ensures Meaning(c, ctx, Cons(Plain(Code(op)), r), Config(st, ops)) ==
            if ops + 1 > 201 || Execute(c, ctx, op, st).None? then None
            else Meaning(c, ctx, r, Config(Execute(c, ctx, op, st).value, ops + 1))
  {
    hide Execute;
  }

  lemma SubExecutes(c: Crypto, ctx: Context, a: int, b: int, st: Stacks)
    requires -0x8000_0000 < a < 0x8000_0000 && -0x8000_0000 < b < 0x8000_0000
    ensures Execute(c, ctx, 0x94, st.(main := Cons(EncodeNum(b), Cons(EncodeNum(a), st.main)))) ==
            Some(st.(main := Cons(EncodeNum(a - b), st.main)))
  {
    hide EncodeNum, DecodeNum;
    SmallOperand(a);
    SmallOperand(b);
  }

  lemma NumEqualExecutes(c: Crypto, ctx: Context, a: int, b: int, st: Stacks)
    requires -0x8000_0000 < a < 0x8000_0000 && -0x8000_0000 < b < 0x8000_0000
    ensures Execute(c, ctx, 0x9c, st.(main := Cons(EncodeNum(b), Cons(EncodeNum(a), st.main)))) ==
            Some(st.(main := Cons(EncodeNum(if a == b then 1 else 0), st.main)))
  {
    hide EncodeNum, DecodeNum;
    SmallOperand(a);
    SmallOperand(b);
  }

  lemma FiveBytes(code: Bytes)
    requires |code| == 5 && forall i :: 0 <= i < 5 ==> !IsPushOp(code[i]) && !IsFlow(Code(code[i]))
    ensures var p3 := Cons(Plain(Code(code[3])), Cons(Plain(Code(code[4])), Nil));
            var p0 := Cons(Plain(Code(code[0])), Cons(Plain(Code(code[1])), Cons(Plain(Code(code[2])), p3)));
            Structured(p0) && Assemblable(Flat(p0, Nil)) && Assemble(Flat(p0, Nil)) == code
  {
    var p4 := Cons(Plain(Code(code[4])), Nil);
    var p3 := Cons(Plain(Code(code[3])), p4);
    var p2 := Cons(Plain(Code(code[2])), p3);
    var p1 := Cons(Plain(Code(code[1])), p2);
    assert Structured(p4) && Structured(p3) && Structured(p2) && Structured(p1);
    assert Flat(p4, Nil) == Cons(Code(code[4]), Nil);
    assert Flat(p3, Nil) == Cons(Code(code[3]), Flat(p4, Nil));
    assert Flat(p2, Nil) == Cons(Code(code[2]), Flat(p3, Nil));
    assert Flat(p1, Nil) == Cons(Code(code[1]), Flat(p2, Nil));
    assert Assemblable(Flat(p4, Nil)) && Assemblable(Flat(p3, Nil)) && Assemblable(Flat(p2, Nil));
    assert Assemble(Flat(p4, Nil)) == code[4..];
    assert Assemble(Flat(p3, Nil)) == code[3..];
    assert Assemble(Flat(p2, Nil)) == code[2..];
    assert Assemble(Flat(p1, Nil)) == code[1..];
  }

  // ------------------------------------------------------------------
  // Reading pushes
  // ------------------------------------------------------------------

  /** The three ways to announce a push of `n` bytes, whatever its length. */
  predicate Announces(prefix: Bytes, n: nat) {
    || (n <= 75 && prefix == [n])
    || (n <= 255 && prefix == [0x4c, n])
    || (n < 65_536 && prefix == [0x4d, n % 256, n / 256])
  }

  /** Each reads exactly the announced bytes, up to 520 of them, and goes on right behind; too few bytes fail. */
  lemma PushForms(prefix: Bytes, n: nat, data: Bytes, rest: Bytes)
    requires Announces(prefix, n)
    ensures |data| == n ==> NextInstr(prefix + data + rest) == if n <= 520 then Some((Push(data), rest)) else None
    ensures |data| < n ==> NextInstr(prefix + data) == None
  {
    hide TakePush;
    AnnouncedTail(prefix, n, data, rest);
    TakePushOf(data, rest);
    TooShort(data, n);
  }

  lemma AnnouncedTail(prefix: Bytes, n: nat, data: Bytes, rest: Bytes)
    requires Announces(prefix, n)
    ensures NextInstr(prefix + data + rest) == TakePush(data + rest, n) && NextInstr(prefix + data) == TakePush(data, n)
  {
    hide TakePush;
    assert prefix + data + rest == prefix + (data + rest);
    TailOf(prefix, data + rest);
    TailOf(prefix, data);
    assert prefix[0] == 0x4d ==> LittleEndian16(n % 256, n / 256) == n;
  }

  lemma TailOf(a: Bytes, b: Bytes)
    requires a != []
    ensures (a + b)[|a|..] == b && forall i :: 0 <= i < |a| ==> (a + b)[i] == a[i]
  {
  }

  lemma TooShort(data: Bytes, n: nat)
    ensures |data| < n ==> TakePush(data, n) == None
  {
  }
}
