/**
 * What a script means: a reference semantics over stacks written top-first, one
 * instruction at a time. The interpreter of src/chain/script.ts, which indexes
 * and splices arrays with the top at the end, is proved against it in Interpreter.dfy.
 */
module Script {
  import opened Binary
  import opened Crypto
  import opened ScriptNum

  // ------------------------------------------------------------------
  // Opcodes and limits
  // ------------------------------------------------------------------

  const OP_PUSH_MAX := 0x4b
  const OP_PUSHDATA1 := 0x4c
  const OP_PUSHDATA2 := 0x4d
  const OP_1 := 0x51
  const OP_16 := 0x60
  const OP_NOP := 0x61
  const OP_IF := 0x63
  const OP_ELSE := 0x67
  const OP_ENDIF := 0x68
  const OP_VERIFY := 0x69
  const OP_TOALTSTACK := 0x6b
  const OP_FROMALTSTACK := 0x6c
  const OP_2DUP := 0x6e
  const OP_IFDUP := 0x73
  const OP_DEPTH := 0x74
  const OP_DROP := 0x75
  const OP_DUP := 0x76
  const OP_NIP := 0x77
  const OP_OVER := 0x78
  const OP_PICK := 0x79
  const OP_ROLL := 0x7a
  const OP_ROT := 0x7b
  const OP_SWAP := 0x7c
  const OP_TUCK := 0x7d
  const OP_SIZE := 0x82
  const OP_EQUAL := 0x87
  const OP_EQUALVERIFY := 0x88
  const OP_1ADD := 0x8b
  const OP_1SUB := 0x8c
  const OP_NEGATE := 0x8f
  const OP_ABS := 0x90
  const OP_NOT := 0x91
  const OP_0NOTEQUAL := 0x92
  const OP_ADD := 0x93
  const OP_SUB := 0x94
  const OP_BOOLAND := 0x9a
  const OP_BOOLOR := 0x9b
  const OP_NUMEQUAL := 0x9c
  const OP_NUMEQUALVERIFY := 0x9d
  const OP_NUMNOTEQUAL := 0x9e
  const OP_LESSTHAN := 0x9f
  const OP_GREATERTHAN := 0xa0
  const OP_LESSTHANOREQUAL := 0xa1
  const OP_GREATERTHANOREQUAL := 0xa2
  const OP_MIN := 0xa3
  const OP_MAX := 0xa4
  const OP_WITHIN := 0xa5
  const OP_RIPEMD160 := 0xa6
  const OP_SHA256 := 0xa8
  const OP_HASH160 := 0xa9
  const OP_HASH256 := 0xaa
  const OP_CHECKSIG := 0xac
  const OP_CHECKSIGVERIFY := 0xad
  const OP_CHECKMULTISIG := 0xae
  const OP_CHECKLOCKTIMEVERIFY := 0xb1

  const RESERVED_NOPS: set<int> := {OP_NOP, 0xb0, 0xb2, 0xb3, 0xb4, 0xb5, 0xb6, 0xb7, 0xb8, 0xb9}

  const MAX_SCRIPT_BYTES := 10_000
  const MAX_WITNESS_ITEMS := 100
  const MAX_PUSH_BYTES := 520
  const MAX_STACK_SIZE := 1000
  const MAX_OPS := 201
  const MAX_MULTISIG_KEYS := 20
  const MAX_NUM_BYTES := 4
  const LOCKTIME_THRESHOLD := 500_000_000

  // ------------------------------------------------------------------
  // Stacks as lists, top first
  // ------------------------------------------------------------------

  datatype List<T> = Nil | Cons(head: T, tail: List<T>)

  function Len<T>(s: List<T>): nat {
    match s
    case Nil => 0
    case Cons(_, r) => 1 + Len(r)
  }

  function Nth<T>(s: List<T>, n: nat): T
    requires n < Len(s)
  {
    if n == 0 then s.head else Nth(s.tail, n - 1)
  }

  function Without<T>(s: List<T>, n: nat): List<T>
    requires n < Len(s)
  {
    if n == 0 then s.tail else Cons(s.head, Without(s.tail, n - 1))
  }

  /** The top `n` items in the order they were pushed. */
  function Pushed<T>(s: List<T>, n: nat): (r: seq<T>)
    requires n <= Len(s)
    ensures |r| == n
  {
    if n == 0 then [] else Pushed(s.tail, n - 1) + [s.head]
  }

  function Below<T>(s: List<T>, n: nat): List<T>
    requires n <= Len(s)
  {
    if n == 0 then s else Below(s.tail, n - 1)
  }

  // ------------------------------------------------------------------
  // Machine state
  // ------------------------------------------------------------------

  datatype Stacks = Stacks(main: List<Bytes>, alt: List<Bytes>)

  datatype Machine = Machine(st: Stacks, conds: List<bool>, ops: nat)

  datatype Context = Context(sighash: Bytes, blockHeight: nat, blockMtp: nat)

  predicate Executing(conds: List<bool>) {
    match conds
    case Nil => true
    case Cons(b, r) => b && Executing(r)
  }

  function Fits(st: Stacks): Option<Stacks> {
    if Len(st.main) + Len(st.alt) > MAX_STACK_SIZE then None else Some(st)
  }

  function BoolItem(b: bool): Bytes { EncodeNum(if b then 1 else 0) }

  // ------------------------------------------------------------------
  // Instructions
  // ------------------------------------------------------------------

  datatype Instr = Push(data: Bytes) | Code(op: Byte)

  predicate IsPushOp(op: Byte) {
    op <= OP_PUSH_MAX || op == OP_PUSHDATA1 || op == OP_PUSHDATA2
  }

  /** Splits the first instruction off; fails on a truncated or oversized push. */
  function NextInstr(code: Bytes): (r: Option<(Instr, Bytes)>)
    requires code != []
    ensures r.Some? ==> |r.value.1| < |code|
  {
    var op := code[0];
    if op == OP_PUSHDATA1 then
      if |code| < 2 then None else TakePush(code[2..], code[1])
    else if op == OP_PUSHDATA2 then
      if |code| < 3 then None else
        TakePush(code[3..], LittleEndian16(code[1], code[2]))
    else if op <= OP_PUSH_MAX then TakePush(code[1..], op)
    else Some((Code(op), code[1..]))
  }

  function LittleEndian16(lo: nat, hi: nat): nat { lo + 256 * hi }

  function TakePush(code: Bytes, len: nat): (r: Option<(Instr, Bytes)>)
    ensures r.Some? ==> |r.value.1| <= |code|
  {
    if len > MAX_PUSH_BYTES || len > |code| then None else Some((Push(code[..len]), code[len..]))
  }

  /** The whole effect of one instruction; None is a failed script. */
  ghost function Step(c: Crypto, ctx: Context, i: Instr, m: Machine): Option<Machine> {
    match i
    case Push(data) =>
      if !Executing(m.conds) then Some(m) else
        (match Fits(m.st.(main := Cons(data, m.st.main)))
         case None => None
         case Some(st) => Some(m.(st := st)))
    case Code(op) =>
      if op == OP_IF then
        if !Executing(m.conds) then Some(m.(conds := Cons(false, m.conds)))
        else (match m.st.main
              case Nil => None
              case Cons(x, r) => Some(m.(st := m.st.(main := r), conds := Cons(IsTruthy(x), m.conds))))
      else if op == OP_ELSE then
        (match m.conds
         case Nil => None
         case Cons(b, r) => Some(m.(conds := Cons(!b, r))))
      else if op == OP_ENDIF then
        (match m.conds
         case Nil => None
         case Cons(_, r) => Some(m.(conds := r)))
      else if !Executing(m.conds) then Some(m)
      else if m.ops + 1 > MAX_OPS then None
      else
        match Execute(c, ctx, op, m.st)
        case None => None
        case Some(st) => Some(m.(st := st, ops := m.ops + 1))
  }

  /** An executed, counted opcode. */
  ghost function Execute(c: Crypto, ctx: Context, op: Byte, st: Stacks): Option<Stacks> {
    if op in RESERVED_NOPS then Some(st)
    else if IsStackOp(op) then StackOp(op, st)
    else if IsNumberOp(op) then
      (match NumberOp(op, st.main)
       case None => None
       case Some(s) => Some(st.(main := s)))
    else
      match CryptoOp(c, ctx, op, st.main)
      case None => None
      case Some(s) => Some(st.(main := s))
  }

  predicate IsStackOp(op: Byte) {
    OP_1 <= op <= OP_16 || OP_VERIFY <= op <= OP_SIZE
  }

  predicate IsNumberOp(op: Byte) {
    OP_1ADD <= op <= OP_WITHIN
  }

  // ------------------------------------------------------------------
  // Stack manipulation
  // ------------------------------------------------------------------

  function StackOp(op: Byte, st: Stacks): Option<Stacks>
    requires IsStackOp(op)
  {
    if op <= OP_16 then
      Fits(st.(main := Cons(EncodeNum(op - 0x50), st.main)))
    else if op == OP_VERIFY then
      (match st.main
       case Cons(x, r) => if IsTruthy(x) then Some(st.(main := r)) else None
       case _ => None)
    else if op == OP_TOALTSTACK then
      (match st.main
       case Cons(x, r) => Some(Stacks(r, Cons(x, st.alt)))
       case _ => None)
    else if op == OP_FROMALTSTACK then
      (match st.alt
       case Cons(x, r) => Some(Stacks(Cons(x, st.main), r))
       case _ => None)
    else if op == OP_PICK || op == OP_ROLL then
      (match st.main
       case Cons(n, r) =>
         (match DecodeNum(n, MAX_NUM_BYTES)
          case Some(k) =>
            if !(0 <= k < Len(r)) then None
            else if op == OP_PICK then Fits(st.(main := Cons(Nth(r, k), r)))
            else Some(st.(main := Cons(Nth(r, k), Without(r, k))))
          case None => None)
       case _ => None)
    else
      ShuffleOp(op, st)
  }

  /** The opcodes that only rearrange, copy or measure the top of the stack. */
  function ShuffleOp(op: Byte, st: Stacks): Option<Stacks> {
    var s := st.main;
    if op == OP_DEPTH then
      Fits(st.(main := Cons(EncodeNum(Len(s)), s)))
    else
      match s
      case Nil => None
      case Cons(x, r) =>
        if op == OP_DROP then Some(st.(main := r))
        else if op == OP_DUP then Fits(st.(main := Cons(x, s)))
        else if op == OP_IFDUP then
          if IsTruthy(x) then Fits(st.(main := Cons(x, s))) else Some(st)
        else if op == OP_SIZE then Fits(st.(main := Cons(EncodeNum(|x|), s)))
        else
          match r
          case Nil => None
          case Cons(y, q) =>
            if op == OP_2DUP then Fits(st.(main := Cons(x, Cons(y, s))))
            else if op == OP_NIP then Some(st.(main := Cons(x, q)))
            else if op == OP_OVER then Fits(st.(main := Cons(y, s)))
            else if op == OP_SWAP then Some(st.(main := Cons(y, Cons(x, q))))
            else if op == OP_TUCK then Fits(st.(main := Cons(x, Cons(y, Cons(x, q)))))
            else if op != OP_ROT then None
            else
              match q
              case Nil => None
              case Cons(z, t) => Some(st.(main := Cons(z, Cons(x, Cons(y, t)))))
  }

  // ------------------------------------------------------------------
  // Numbers
  // ------------------------------------------------------------------

  function Flag(b: bool): int { if b then 1 else 0 }

  function Unary(op: Byte, a: int): Option<int> {
    if op == OP_1ADD then Some(a + 1)
    else if op == OP_1SUB then Some(a - 1)
    else if op == OP_NEGATE then Some(-a)
    else if op == OP_ABS then Some(Abs(a))
    else if op == OP_NOT then Some(Flag(a == 0))
    else if op == OP_0NOTEQUAL then Some(Flag(a != 0))
    else None
  }

  function Dyadic(op: Byte, a: int, b: int): Option<int> {
    if op == OP_ADD then Some(a + b)
    else if op == OP_SUB then Some(a - b)
    else if op == OP_BOOLAND then Some(Flag(a != 0 && b != 0))
    else if op == OP_BOOLOR then Some(Flag(a != 0 || b != 0))
    else if op == OP_NUMEQUAL || op == OP_NUMEQUALVERIFY then Some(Flag(a == b))
    else if op == OP_NUMNOTEQUAL then Some(Flag(a != b))
    else if op == OP_LESSTHAN then Some(Flag(a < b))
    else if op == OP_GREATERTHAN then Some(Flag(a > b))
    else if op == OP_LESSTHANOREQUAL then Some(Flag(a <= b))
    else if op == OP_GREATERTHANOREQUAL then Some(Flag(a >= b))
    else if op == OP_MIN then Some(if a < b then a else b)
    else if op == OP_MAX then Some(if a > b then a else b)
    else None
  }

  function NumberOp(op: Byte, s: List<Bytes>): Option<List<Bytes>>
    requires IsNumberOp(op)
  {
    if op <= OP_0NOTEQUAL then
      (match s
       case Cons(x, r) =>
         (match DecodeNum(x, MAX_NUM_BYTES)
          case Some(a) => (match Unary(op, a) case Some(v) => Some(Cons(EncodeNum(v), r)) case None => None)
          case None => None)
       case _ => None)
    else if op == OP_WITHIN then
      (match s
       case Cons(mx, Cons(mn, Cons(x, r))) =>
         (match (DecodeNum(x, MAX_NUM_BYTES), DecodeNum(mn, MAX_NUM_BYTES), DecodeNum(mx, MAX_NUM_BYTES))
          case (Some(v), Some(lo), Some(hi)) => Some(Cons(BoolItem(lo <= v < hi), r))
          case _ => None)
       case _ => None)
    else
      match s
      case Cons(y, Cons(x, r)) =>
        (match (DecodeNum(x, MAX_NUM_BYTES), DecodeNum(y, MAX_NUM_BYTES))
         case (Some(a), Some(b)) =>
           (match Dyadic(op, a, b)
            case Some(v) =>
              if op != OP_NUMEQUALVERIFY then Some(Cons(EncodeNum(v), r))
              else if v != 0 then Some(r) else None
            case None => None)
         case _ => None)
      case _ => None
  }

  // ------------------------------------------------------------------
  // Comparison, hashing, signatures, locktime
  // ------------------------------------------------------------------

  predicate SigValid(c: Crypto, sighash: Bytes, sig: Bytes, pubkey: Bytes) {
    |pubkey| == 32 && |sig| == 64 && c.edVerify(sig, sighash, pubkey)
  }

  ghost function CryptoOp(c: Crypto, ctx: Context, op: Byte, s: List<Bytes>): Option<List<Bytes>> {
    if op == OP_CHECKMULTISIG then MultisigOp(c, ctx, s) else
      match s
      case Nil => None
      case Cons(x, r) =>
        if op == OP_RIPEMD160 then Some(Cons(c.ripemd160(x), r))
        else if op == OP_SHA256 then Some(Cons(c.sha256(x), r))
        else if op == OP_HASH160 then Some(Cons(c.ripemd160(c.sha256(x)), r))
        else if op == OP_HASH256 then Some(Cons(c.sha256(c.sha256(x)), r))
        else if op == OP_CHECKLOCKTIMEVERIFY then if LocktimeReached(ctx, x) then Some(s) else None
        else
          match r
          case Nil => None
          case Cons(y, q) =>
            if op == OP_EQUAL then Some(Cons(BoolItem(x == y), q))
            else if op == OP_EQUALVERIFY then if x == y then Some(q) else None
            else if op == OP_CHECKSIG then Some(Cons(BoolItem(SigValid(c, ctx.sighash, y, x)), q))
            else if op == OP_CHECKSIGVERIFY then if SigValid(c, ctx.sighash, y, x) then Some(q) else None
            else None
  }

  /** Small numbers are block heights, large ones unix times; the matching chain clock must have reached them. */
  predicate LocktimeReached(ctx: Context, item: Bytes) {
    match DecodeNum(item, 5)
    case None => false
    case Some(t) => t >= 0 && t <= if t < LOCKTIME_THRESHOLD then ctx.blockHeight else ctx.blockMtp
  }

  /** Signatures are matched to distinct keys in order: `f[i]` is the key signature `i` uses. */
  ghost predicate Assigns(c: Crypto, sighash: Bytes, sigs: seq<Bytes>, keys: seq<Bytes>, f: seq<nat>) {
    && |f| == |sigs|
    && (forall i :: 0 <= i < |f| ==> f[i] < |keys| && SigValid(c, sighash, sigs[i], keys[f[i]]))
    && (forall i, j :: 0 <= i < j < |f| ==> f[i] < f[j])
  }

  ghost predicate MultisigHolds(c: Crypto, sighash: Bytes, sigs: seq<Bytes>, keys: seq<Bytes>) {
    exists f: seq<nat> :: Assigns(c, sighash, sigs, keys, f)
  }

  /** Stack, bottom to top: sig_1 .. sig_m, m, pub_1 .. pub_n, n. */
  ghost function MultisigOp(c: Crypto, ctx: Context, s: List<Bytes>): Option<List<Bytes>> {
    match s
    case Nil => None
    case Cons(nItem, s1) =>
      match DecodeNum(nItem, 4)
      case None => None
      case Some(n) =>
        if !(1 <= n <= MAX_MULTISIG_KEYS) || Len(s1) < n + 1 then None else
          BelowLen(s1, n);
          var s2 := Below(s1, n);
          match DecodeNum(s2.head, 4)
          case None => None
          case Some(m) =>
            if !(1 <= m <= n) || Len(s2.tail) < m then None else
              var held := MultisigHolds(c, ctx.sighash, Pushed(s2.tail, m), Pushed(s1, n));
              Some(Cons(BoolItem(held), Below(s2.tail, m)))
  }

  lemma {:induction false} BelowLen<T>(s: List<T>, n: nat)
    requires n <= Len(s)
    ensures Len(Below(s, n)) == Len(s) - n
  {
    if n > 0 {
      BelowLen(s.tail, n - 1);
    }
  }

  // ------------------------------------------------------------------
  // Whole scripts
  // ------------------------------------------------------------------

  ghost function Run(c: Crypto, ctx: Context, code: Bytes, m: Machine): Option<Machine>
    decreases |code|
  {
    if code == [] then Some(m) else
      match NextInstr(code)
      case None => None
      case Some((i, rest)) =>
        match Step(c, ctx, i, m)
        case None => None
        case Some(m') => Run(c, ctx, rest, m')
  }

  /** The witness is pushed in order, so its last item ends on top. */
  function FromSeq<T>(s: seq<T>): List<T> {
    if s == [] then Nil else Cons(s[|s| - 1], FromSeq(s[..|s| - 1]))
  }

  function Start(wit: seq<Bytes>): Machine {
    Machine(Stacks(FromSeq(wit), Nil), Nil, 0)
  }

  predicate WithinLimits(script: Bytes, wit: seq<Bytes>) {
    && |script| <= MAX_SCRIPT_BYTES
    && |wit| <= MAX_WITNESS_ITEMS
    && forall i :: 0 <= i < |wit| ==> |wit[i]| <= MAX_PUSH_BYTES
  }

  predicate FinishesTrue(r: Option<Machine>) {
    r.Some? && r.value.conds.Nil? && r.value.st.main.Cons? && IsTruthy(r.value.st.main.head)
  }

  /** A spend is authorised exactly when this holds. */
  ghost predicate Accepts(c: Crypto, ctx: Context, script: Bytes, wit: seq<Bytes>) {
    WithinLimits(script, wit) && FinishesTrue(Run(c, ctx, script, Start(wit)))
  }
}
