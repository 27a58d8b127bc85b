/**
 * What each opcode means, as laws between programs and about the items they
 * leave: nothing here names the tables of Script.dfy (src/chain/script.ts 329-634).
 */
module OpcodeLaws {
  import opened Binary
  import opened Crypto
  import opened ScriptNum
  import opened Script
  import opened ScriptBuild

  // ------------------------------------------------------------------
  // Running short programs
  // ------------------------------------------------------------------

  /** What a program makes of both stacks. */
  ghost function Effect(c: Crypto, ctx: Context, prog: List<Instr>, m: Machine): Option<Stacks> {
    var r := RunAll(c, ctx, prog, m);
    if r.None? then None else Some(r.value.st)
  }

  /** In a branch that is taken, with `n` operations left to spend. */
  predicate Live(m: Machine, n: nat) { Executing(m.conds) && m.ops + n <= MAX_OPS }

  /** Room for `n` more items. */
  predicate Room(m: Machine, n: nat) { Len(m.st.main) + Len(m.st.alt) + n <= MAX_STACK_SIZE }

  function One<T>(a: T): List<T> { Cons(a, Nil) }

  function Two<T>(a: T, b: T): List<T> { Cons(a, One(b)) }

  function Three<T>(a: T, b: T, c: T): List<T> { Cons(a, Two(b, c)) }

  /** Pushing a number. */
  function Num(n: int): Instr { Push(EncodeNum(n)) }

  /** Pushing items in order, then going on with `rest`. */
  function Pushing(items: seq<Bytes>, rest: List<Instr>): List<Instr> {
    if items == [] then rest else Cons(Push(items[0]), Pushing(items[1..], rest))
  }

  function OnTop(items: seq<Bytes>, below: List<Bytes>): List<Bytes> {
    if items == [] then below else OnTop(items[1..], Cons(items[0], below))
  }

  lemma PushRuns(c: Crypto, ctx: Context, data: Bytes, rest: List<Instr>, m: Machine)
    requires Executing(m.conds)
    ensures RunAll(c, ctx, Cons(Push(data), rest), m) ==
            if Room(m, 1) then RunAll(c, ctx, rest, m.(st := m.st.(main := Cons(data, m.st.main)))) else None
  {
    hide Execute;
  }

  lemma CodeRuns(c: Crypto, ctx: Context, op: Byte, rest: List<Instr>, m: Machine)
    requires Live(m, 1) && op != OP_IF && op != OP_ELSE && op != OP_ENDIF
    ensures RunAll(c, ctx, Cons(Code(op), rest), m) ==
            match Execute(c, ctx, op, m.st)
            case None => None
            case Some(st) => RunAll(c, ctx, rest, m.(st := st, ops := m.ops + 1))
  {
    hide Execute;
  }

  lemma NothingRuns(c: Crypto, ctx: Context, m: Machine)
    ensures RunAll(c, ctx, Nil, m) == Some(m)
  {
  }

  lemma {:induction false} PushingRuns(c: Crypto, ctx: Context, items: seq<Bytes>, rest: List<Instr>, m: Machine)
    requires Executing(m.conds) && Room(m, |items|)
    ensures RunAll(c, ctx, Pushing(items, rest), m) ==
            RunAll(c, ctx, rest, m.(st := m.st.(main := OnTop(items, m.st.main))))
    decreases |items|
  {
    hide RunAll;
    if items != [] {
      PushRuns(c, ctx, items[0], Pushing(items[1..], rest), m);
      PushingRuns(c, ctx, items[1..], rest, m.(st := m.st.(main := Cons(items[0], m.st.main))));
    }
  }

  /** One opcode by itself. */
  lemma Single(c: Crypto, ctx: Context, op: Byte, m: Machine)
    requires Live(m, 1) && op != OP_IF && op != OP_ELSE && op != OP_ENDIF
    ensures Effect(c, ctx, One(Code(op)), m) == Execute(c, ctx, op, m.st)
  {
    hide RunAll, Execute;
    CodeRuns(c, ctx, op, Nil, m);
    if Execute(c, ctx, op, m.st).Some? {
      NothingRuns(c, ctx, m.(st := Execute(c, ctx, op, m.st).value, ops := m.ops + 1));
    }
  }

  ghost function Then(c: Crypto, ctx: Context, op: Byte, st: Option<Stacks>): Option<Stacks> {
    if st.None? then None else Execute(c, ctx, op, st.value)
  }

  lemma Pair(c: Crypto, ctx: Context, a: Byte, b: Byte, m: Machine)
    requires Live(m, 2) && a != OP_IF && a != OP_ELSE && a != OP_ENDIF && b != OP_IF && b != OP_ELSE && b != OP_ENDIF
    ensures Effect(c, ctx, Two(Code(a), Code(b)), m) == Then(c, ctx, b, Execute(c, ctx, a, m.st))
  {
    hide RunAll, Execute;
    CodeRuns(c, ctx, a, One(Code(b)), m);
    if Execute(c, ctx, a, m.st).Some? {
      var n := m.(st := Execute(c, ctx, a, m.st).value, ops := m.ops + 1);
      CodeRuns(c, ctx, b, Nil, n);
      if Execute(c, ctx, b, n.st).Some? {
        NothingRuns(c, ctx, n.(st := Execute(c, ctx, b, n.st).value, ops := n.ops + 1));
      }
    }
  }

  lemma Pushed1(c: Crypto, ctx: Context, data: Bytes, op: Byte, m: Machine)
    requires Live(m, 1) && Room(m, 1) && op != OP_IF && op != OP_ELSE && op != OP_ENDIF
    ensures Effect(c, ctx, Two(Push(data), Code(op)), m) ==
            Execute(c, ctx, op, m.st.(main := Cons(data, m.st.main)))
  {
    hide RunAll, Execute;
    PushRuns(c, ctx, data, One(Code(op)), m);
    Single(c, ctx, op, m.(st := m.st.(main := Cons(data, m.st.main))));
  }

  // ------------------------------------------------------------------
  // Rearranging
  // ------------------------------------------------------------------

  lemma Depths<T>(s: List<T>)
    ensures Len(s) >= 1 <==> s.Cons?
    ensures Len(s) >= 2 <==> s.Cons? && s.tail.Cons?
    ensures Len(s) >= 3 <==> s.Cons? && s.tail.Cons? && s.tail.tail.Cons?
  {
    if s.Cons? && s.tail.Cons? {
      assert Len(s) == 2 + Len(s.tail.tail);
    }
  }

  lemma RotTurns(c: Crypto, ctx: Context, st: Stacks)
    ensures Execute(c, ctx, OP_ROT, st) ==
            match st.main
            case Cons(x, Cons(y, Cons(z, t))) => Some(st.(main := Cons(z, Cons(x, Cons(y, t)))))
            case _ => None
  {
  }

  /** Three rotations, two swaps, and a trip to the alternate stack change nothing. */
  lemma Undoing(c: Crypto, ctx: Context, m: Machine)
    requires Live(m, 3)
    ensures Effect(c, ctx, Three(Code(OP_ROT), Code(OP_ROT), Code(OP_ROT)), m) ==
            if Len(m.st.main) >= 3 then Some(m.st) else None
    ensures Effect(c, ctx, Two(Code(OP_SWAP), Code(OP_SWAP)), m) == if Len(m.st.main) >= 2 then Some(m.st) else None
    ensures Effect(c, ctx, Two(Code(OP_TOALTSTACK), Code(OP_FROMALTSTACK)), m) ==
            if Len(m.st.main) >= 1 then Some(m.st) else None
    ensures Effect(c, ctx, Two(Code(OP_DUP), Code(OP_DROP)), m) ==
            if Len(m.st.main) >= 1 && Room(m, 1) then Some(m.st) else None
  {
    hide Effect, Execute;
    ThreeTurns(c, ctx, m);
    Pair(c, ctx, OP_SWAP, OP_SWAP, m);
    Pair(c, ctx, OP_TOALTSTACK, OP_FROMALTSTACK, m);
    Pair(c, ctx, OP_DUP, OP_DROP, m);
    Undone(c, ctx, m.st);
  }

  lemma Undone(c: Crypto, ctx: Context, st: Stacks)
    ensures Then(c, ctx, OP_SWAP, Execute(c, ctx, OP_SWAP, st)) == if Len(st.main) >= 2 then Some(st) else None
    ensures Then(c, ctx, OP_FROMALTSTACK, Execute(c, ctx, OP_TOALTSTACK, st)) ==
            if Len(st.main) >= 1 then Some(st) else None
    ensures Then(c, ctx, OP_DROP, Execute(c, ctx, OP_DUP, st)) ==
            if Len(st.main) >= 1 && Len(st.main) + Len(st.alt) + 1 <= MAX_STACK_SIZE then Some(st) else None
  {
    Depths(st.main);
  }

  lemma ThreeTurns(c: Crypto, ctx: Context, m: Machine)
    requires Live(m, 3)
    ensures Effect(c, ctx, Three(Code(OP_ROT), Code(OP_ROT), Code(OP_ROT)), m) ==
            if Len(m.st.main) >= 3 then Some(m.st) else None
  {
    hide RunAll, Execute;
    Depths(m.st.main);
    CodeRuns(c, ctx, OP_ROT, Two(Code(OP_ROT), Code(OP_ROT)), m);
    RotTurns(c, ctx, m.st);
    if Len(m.st.main) >= 3 {
      var n := m.(st := Execute(c, ctx, OP_ROT, m.st).value, ops := m.ops + 1);
      Pair(c, ctx, OP_ROT, OP_ROT, n);
      RotTurns(c, ctx, n.st);
      RotTurns(c, ctx, Execute(c, ctx, OP_ROT, n.st).value);
    }
  }

  /** The named rearrangements are picks and rolls at fixed depths. */
  lemma AsPickAndRoll(c: Crypto, ctx: Context, m: Machine)
    requires Live(m, 2) && Room(m, 1)
    ensures Effect(c, ctx, One(Code(OP_DUP)), m) == Effect(c, ctx, Two(Num(0), Code(OP_PICK)), m)
    ensures Effect(c, ctx, One(Code(OP_OVER)), m) == Effect(c, ctx, Two(Num(1), Code(OP_PICK)), m)
    ensures Effect(c, ctx, One(Code(OP_SWAP)), m) == Effect(c, ctx, Two(Num(1), Code(OP_ROLL)), m)
    ensures Effect(c, ctx, One(Code(OP_ROT)), m) == Effect(c, ctx, Two(Num(2), Code(OP_ROLL)), m)
  {
    hide Effect, Execute, EncodeNum;
    Single(c, ctx, OP_DUP, m);
    Single(c, ctx, OP_OVER, m);
    Single(c, ctx, OP_SWAP, m);
    Single(c, ctx, OP_ROT, m);
    Pushed1(c, ctx, EncodeNum(0), OP_PICK, m);
    Pushed1(c, ctx, EncodeNum(1), OP_PICK, m);
    Pushed1(c, ctx, EncodeNum(1), OP_ROLL, m);
    Pushed1(c, ctx, EncodeNum(2), OP_ROLL, m);
    Picks(c, ctx, 0, m.st);
    Picks(c, ctx, 1, m.st);
    Rolls(c, ctx, 1, m.st);
    Rolls(c, ctx, 2, m.st);
    FixedDepths(c, ctx, m.st);
  }

  lemma SmallOperand(n: int)
    requires -0x8000_0000 < n < 0x8000_0000
    ensures |EncodeNum(n)| <= MAX_NUM_BYTES && DecodeNum(EncodeNum(n), MAX_NUM_BYTES) == Some(n)
  {
    hide EncodeNum, DecodeNum;
    assert 0x80 * Pow(256, 3) == 0x8000_0000;
    EncodedLength(n, 4);
    DecodeOfEncode(n, 4);
  }

  lemma Picks(c: Crypto, ctx: Context, n: nat, st: Stacks)
    requires n < 0x8000_0000 && Len(st.main) + Len(st.alt) < MAX_STACK_SIZE
    ensures Execute(c, ctx, OP_PICK, st.(main := Cons(EncodeNum(n), st.main))) ==
            if n < Len(st.main) then Some(st.(main := Cons(Nth(st.main, n), st.main))) else None
  {
    hide EncodeNum, DecodeNum;
    SmallOperand(n);
  }

  lemma Rolls(c: Crypto, ctx: Context, n: nat, st: Stacks)
    requires n < 0x8000_0000
    ensures Execute(c, ctx, OP_ROLL, st.(main := Cons(EncodeNum(n), st.main))) ==
            if n < Len(st.main) then Some(st.(main := Cons(Nth(st.main, n), Without(st.main, n)))) else None
  {
    hide EncodeNum, DecodeNum;
    SmallOperand(n);
  }

  lemma FixedDepths(c: Crypto, ctx: Context, st: Stacks)
    requires Len(st.main) + Len(st.alt) < MAX_STACK_SIZE
    ensures Execute(c, ctx, OP_DUP, st) ==
            if 0 < Len(st.main) then Some(st.(main := Cons(Nth(st.main, 0), st.main))) else None
    ensures Execute(c, ctx, OP_OVER, st) ==
            if 1 < Len(st.main) then Some(st.(main := Cons(Nth(st.main, 1), st.main))) else None
    ensures Execute(c, ctx, OP_SWAP, st) ==
            if 1 < Len(st.main) then Some(st.(main := Cons(Nth(st.main, 1), Without(st.main, 1)))) else None
    ensures Execute(c, ctx, OP_ROT, st) ==
            if 2 < Len(st.main) then Some(st.(main := Cons(Nth(st.main, 2), Without(st.main, 2)))) else None
  {
    Depths(st.main);
    if 2 < Len(st.main) {
      ThirdItem(st.main);
    }
    RotTurns(c, ctx, st);
  }

  lemma ThirdItem<T>(s: List<T>)
    requires 2 < Len(s)
    ensures s.Cons? && s.tail.Cons? && s.tail.tail.Cons?
    ensures Nth(s, 2) == s.tail.tail.head && Without(s, 2) == Cons(s.head, Cons(s.tail.head, s.tail.tail.tail))
  {
    Depths(s);
    assert Nth(s.tail, 1) == Nth(s.tail.tail, 0);
    assert Without(s.tail, 1) == Cons(s.tail.head, Without(s.tail.tail, 0));
  }

  /** The remaining rearrangements are made of the others. */
  lemma Composites(c: Crypto, ctx: Context, m: Machine)
    requires Live(m, 2)
    ensures Effect(c, ctx, One(Code(OP_TUCK)), m) == Effect(c, ctx, Two(Code(OP_SWAP), Code(OP_OVER)), m)
    ensures Effect(c, ctx, One(Code(OP_NIP)), m) == Effect(c, ctx, Two(Code(OP_SWAP), Code(OP_DROP)), m)
    ensures Effect(c, ctx, One(Code(OP_2DUP)), m) == Effect(c, ctx, Two(Code(OP_OVER), Code(OP_OVER)), m)
  {
    hide Effect, Execute;
    Single(c, ctx, OP_TUCK, m);
    Single(c, ctx, OP_NIP, m);
    Single(c, ctx, OP_2DUP, m);
    Pair(c, ctx, OP_SWAP, OP_OVER, m);
    Pair(c, ctx, OP_SWAP, OP_DROP, m);
    Pair(c, ctx, OP_OVER, OP_OVER, m);
    Composed(c, ctx, m.st);
  }

  lemma Composed(c: Crypto, ctx: Context, st: Stacks)
    ensures Execute(c, ctx, OP_TUCK, st) == Then(c, ctx, OP_OVER, Execute(c, ctx, OP_SWAP, st))
    ensures Execute(c, ctx, OP_NIP, st) == Then(c, ctx, OP_DROP, Execute(c, ctx, OP_SWAP, st))
    ensures Execute(c, ctx, OP_2DUP, st) == Then(c, ctx, OP_OVER, Execute(c, ctx, OP_OVER, st))
  {
    Depths(st.main);
    var s := st.main;
    if s.Cons? && s.tail.Cons? {
      assert Len(s) == 2 + Len(s.tail.tail);
    }
  }

  /** A pushed item is dropped again, and the constants push the numbers 1 to 16. */
  lemma Constants(c: Crypto, ctx: Context, data: Bytes, n: nat, m: Machine)
    requires Live(m, 1) && Room(m, 1) && 1 <= n <= 16
    ensures Effect(c, ctx, Two(Push(data), Code(OP_DROP)), m) == Some(m.st)
    ensures Effect(c, ctx, One(Code(0x50 + n)), m) == Effect(c, ctx, One(Num(n)), m)
  {
    hide Execute, EncodeNum, RunAll;
    Pushed1(c, ctx, data, OP_DROP, m);
    Single(c, ctx, 0x50 + n, m);
    PushRuns(c, ctx, EncodeNum(n), Nil, m);
    NothingRuns(c, ctx, m.(st := m.st.(main := Cons(EncodeNum(n), m.st.main))));
    Literal(c, ctx, data, n, m.st);
  }

  lemma Literal(c: Crypto, ctx: Context, data: Bytes, n: nat, st: Stacks)
    requires 1 <= n <= 16 && Len(st.main) + Len(st.alt) < MAX_STACK_SIZE
    ensures Execute(c, ctx, OP_DROP, st.(main := Cons(data, st.main))) == Some(st)
    ensures Execute(c, ctx, 0x50 + n, st) == Some(st.(main := Cons(EncodeNum(n), st.main)))
  {
    hide EncodeNum;
  }

  /** VERIFY goes on exactly with a truthy item, which it consumes; TOALTSTACK moves the top item over. */
  lemma Consumers(c: Crypto, ctx: Context, x: Bytes, m: Machine)
    requires Live(m, 1) && Room(m, 1)
    ensures Effect(c, ctx, Two(Push(x), Code(OP_VERIFY)), m) == if IsTruthy(x) then Some(m.st) else None
    ensures Effect(c, ctx, Two(Push(x), Code(OP_TOALTSTACK)), m) == Some(Stacks(m.st.main, Cons(x, m.st.alt)))
  {
    hide Effect;
    Pushed1(c, ctx, x, OP_VERIFY, m);
    Pushed1(c, ctx, x, OP_TOALTSTACK, m);
  }

  /** IFDUP is a duplicate that chooses whether to duplicate again. */
  lemma IfDup(c: Crypto, ctx: Context, m: Machine)
    requires Live(m, 2) && Room(m, 1)
    ensures Effect(c, ctx, One(Code(OP_IFDUP)), m) ==
            Effect(c, ctx, Cons(Code(OP_DUP), Three(Code(OP_IF), Code(OP_DUP), Code(OP_ENDIF))), m)
  {
    hide RunAll, Execute, IsTruthy;
    var end := One(Code(OP_ENDIF));
    CodeRuns(c, ctx, OP_DUP, Three(Code(OP_IF), Code(OP_DUP), Code(OP_ENDIF)), m);
    Single(c, ctx, OP_IFDUP, m);
    Duplicates(c, ctx, m.st);
    if m.st.main.Cons? {
      var on := IsTruthy(m.st.main.head);
      var doubled := m.st.(main := Cons(m.st.main.head, m.st.main));
      var inside := Machine(m.st, Cons(on, m.conds), m.ops + 1);
      Branches(c, ctx, Cons(Code(OP_DUP), end), Machine(doubled, m.conds, m.ops + 1));
      if on {
        CodeRuns(c, ctx, OP_DUP, end, inside);
        Closes(c, ctx, inside.(st := doubled, ops := m.ops + 2));
      } else {
        assert RunAll(c, ctx, Cons(Code(OP_DUP), end), inside) == RunAll(c, ctx, end, inside) by {
          SkipsOne(c, ctx, end, inside);
        }
        Closes(c, ctx, inside);
      }
    }
  }

  lemma Duplicates(c: Crypto, ctx: Context, st: Stacks)
    requires Len(st.main) + Len(st.alt) < MAX_STACK_SIZE
    ensures var doubled := if st.main.Nil? then None else Some(st.(main := Cons(st.main.head, st.main)));
            && Execute(c, ctx, OP_DUP, st) == doubled
            && Execute(c, ctx, OP_IFDUP, st) ==
               if st.main.Nil? then None else if IsTruthy(st.main.head) then doubled else Some(st)
  {
    hide IsTruthy;
  }

  lemma Branches(c: Crypto, ctx: Context, rest: List<Instr>, m: Machine)
    requires Executing(m.conds) && m.st.main.Cons?
    ensures RunAll(c, ctx, Cons(Code(OP_IF), rest), m) ==
            RunAll(c, ctx, rest, m.(st := m.st.(main := m.st.main.tail),
                                    conds := Cons(IsTruthy(m.st.main.head), m.conds)))
  {
    hide Execute, IsTruthy;
  }

  lemma SkipsOne(c: Crypto, ctx: Context, rest: List<Instr>, m: Machine)
    requires !Executing(m.conds)
    ensures RunAll(c, ctx, Cons(Code(OP_DUP), rest), m) == RunAll(c, ctx, rest, m)
  {
    hide Execute;
  }

  lemma Closes(c: Crypto, ctx: Context, m: Machine)
    requires m.conds.Cons?
    ensures Effect(c, ctx, One(Code(OP_ENDIF)), m) == Some(m.st)
  {
    hide Execute;
    NothingRuns(c, ctx, m.(conds := m.conds.tail));
  }

  // ------------------------------------------------------------------
  // Picking and rolling at any depth
  // ------------------------------------------------------------------

  lemma {:induction false} LenOnTop(items: seq<Bytes>, below: List<Bytes>)
    ensures Len(OnTop(items, below)) == |items| + Len(below)
    decreases |items|
  {
    if items != [] {
      LenOnTop(items[1..], Cons(items[0], below));
    }
  }

  lemma {:induction false} OnTopAppend(a: seq<Bytes>, b: seq<Bytes>, below: List<Bytes>)
    ensures OnTop(a + b, below) == OnTop(b, OnTop(a, below))
    decreases |a|
  {
    if a == [] {
      assert a + b == b;
    } else {
      assert (a + b)[1..] == a[1..] + b;
      OnTopAppend(a[1..], b, Cons(a[0], below));
    }
  }

  lemma TopOf(items: seq<Bytes>, top: Bytes, below: List<Bytes>)
    ensures OnTop(items + [top], below) == Cons(top, OnTop(items, below))
  {
    OnTopAppend(items, [top], below);
    assert OnTop([top], OnTop(items, below)) == Cons(top, OnTop(items, below));
  }

  lemma {:induction false} NthOnTop(items: seq<Bytes>, below: List<Bytes>, k: nat)
    requires k < |items|
    ensures k < Len(OnTop(items, below)) && Nth(OnTop(items, below), k) == items[|items| - 1 - k]
    decreases k
  {
    LenOnTop(items, below);
    var n := |items|;
    assert items == items[..n - 1] + [items[n - 1]];
    TopOf(items[..n - 1], items[n - 1], below);
    if k > 0 {
      NthOnTop(items[..n - 1], below, k - 1);
    }
  }

  /** `items` without the one at `j`. */
  function Except(items: seq<Bytes>, j: nat): seq<Bytes>
    requires j < |items|
  {
    items[..j] + items[j + 1..]
  }

  lemma {:induction false} WithoutOnTop(items: seq<Bytes>, below: List<Bytes>, k: nat)
    requires k < |items|
    ensures k < Len(OnTop(items, below))
    ensures Without(OnTop(items, below), k) == OnTop(Except(items, |items| - 1 - k), below)
    decreases k
  {
    LenOnTop(items, below);
    var n := |items|;
    var front := items[..n - 1];
    assert items == front + [items[n - 1]];
    TopOf(front, items[n - 1], below);
    if k == 0 {
      assert Except(items, n - 1) == front;
    } else {
      WithoutOnTop(front, below, k - 1);
      assert Except(items, n - 1 - k) == Except(front, n - 1 - k) + [items[n - 1]];
      TopOf(Except(front, n - 1 - k), items[n - 1], below);
    }
  }

  lemma OnlyPushing(c: Crypto, ctx: Context, items: seq<Bytes>, m: Machine)
    requires Executing(m.conds) && Room(m, |items|)
    ensures Effect(c, ctx, Pushing(items, Nil), m) == Some(m.st.(main := OnTop(items, m.st.main)))
  {
    hide RunAll;
    PushingRuns(c, ctx, items, Nil, m);
    NothingRuns(c, ctx, m.(st := m.st.(main := OnTop(items, m.st.main))));
  }

  /** After pushing items, `k PICK` is pushing the one `k` below the top again, and `k ROLL` is pushing it last. */
  lemma PickAndRoll(c: Crypto, ctx: Context, items: seq<Bytes>, k: nat, m: Machine)
    requires Live(m, 1) && Room(m, |items| + 1) && k < |items|
    ensures var j := |items| - 1 - k;
            && Effect(c, ctx, Pushing(items, Two(Num(k), Code(OP_PICK))), m) ==
               Effect(c, ctx, Pushing(items + [items[j]], Nil), m)
            && Effect(c, ctx, Pushing(items, Two(Num(k), Code(OP_ROLL))), m) ==
               Effect(c, ctx, Pushing(Except(items, j) + [items[j]], Nil), m)
  {
    hide RunAll, Execute, EncodeNum, Pushing, OnTop, Nth, Without;
    var j := |items| - 1 - k;
    var st := m.st.(main := OnTop(items, m.st.main));
    var n := m.(st := st);
    LenOnTop(items, m.st.main);
    PushingRuns(c, ctx, items, Two(Num(k), Code(OP_PICK)), m);
    PushingRuns(c, ctx, items, Two(Num(k), Code(OP_ROLL)), m);
    Pushed1(c, ctx, EncodeNum(k), OP_PICK, n);
    Pushed1(c, ctx, EncodeNum(k), OP_ROLL, n);
    Picks(c, ctx, k, st);
    Rolls(c, ctx, k, st);
    NthOnTop(items, m.st.main, k);
    WithoutOnTop(items, m.st.main, k);
    OnlyPushing(c, ctx, items + [items[j]], m);
    OnlyPushing(c, ctx, Except(items, j) + [items[j]], m);
    TopOf(items, items[j], m.st.main);
    TopOf(Except(items, j), items[j], m.st.main);
  }

  /** An index outside the stack, or no number, fails both. */
  lemma BadIndex(c: Crypto, ctx: Context, item: Bytes, op: Byte, m: Machine)
    requires Live(m, 1) && Room(m, 1) && (op == OP_PICK || op == OP_ROLL)
    requires forall k :: 0 <= k < Len(m.st.main) ==> item != EncodeNum(k)
    ensures Effect(c, ctx, Two(Push(item), Code(op)), m) == None
  {
    hide RunAll, EncodeNum, DecodeNum, Effect;
    Pushed1(c, ctx, item, op, m);
    if DecodeNum(item, MAX_NUM_BYTES).Some? {
      EncodeOfDecode(item, MAX_NUM_BYTES);
    }
  }

  /** DEPTH counts the items, SIZE the bytes of the top one, both left where they are. */
  lemma Measures(c: Crypto, ctx: Context, m: Machine)
    requires Live(m, 1) && Room(m, 1)
    ensures Effect(c, ctx, One(Code(OP_DEPTH)), m) == Effect(c, ctx, One(Num(Len(m.st.main))), m)
    ensures Effect(c, ctx, One(Code(OP_SIZE)), m) ==
            if m.st.main.Nil? then None else Effect(c, ctx, One(Num(|m.st.main.head|)), m)
  {
    hide RunAll, EncodeNum;
    Single(c, ctx, OP_DEPTH, m);
    Single(c, ctx, OP_SIZE, m);
    PushRuns(c, ctx, EncodeNum(Len(m.st.main)), Nil, m);
    NothingRuns(c, ctx, m.(st := m.st.(main := Cons(EncodeNum(Len(m.st.main)), m.st.main))));
    if m.st.main.Cons? {
      var size := EncodeNum(|m.st.main.head|);
      PushRuns(c, ctx, size, Nil, m);
      NothingRuns(c, ctx, m.(st := m.st.(main := Cons(size, m.st.main))));
    }
  }
}
