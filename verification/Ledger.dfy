/**
 * What transactions do to account balances and script locks, as functions on
 * values (src/chain/state.ts). State.dfy proves the in-place code against these;
 * here are the properties: conservation, nonces, single-use locks.
 */
module Ledger {
  import opened Binary
  import opened Crypto
  import opened Genesis
  import opened Script
  import opened Transaction

  datatype Acct = Acct(balance: int, nonce: nat)

  datatype ScriptLock = ScriptLock(amount: int, scriptHash: Bytes, createdHeight: nat)

  /** Accounts by address and live locks by lock id. */
  datatype Ledger = Ledger(accounts: map<Bytes, Acct>, locks: map<Bytes, ScriptLock>)

  /** Where and when a block's transactions run. */
  datatype BlockContext = BlockContext(scriptsActive: bool, height: nat, mtp: nat)

  /** A ledger in the middle of a block, with the locks that block has created so far. */
  datatype Progress = Progress(ledger: Ledger, created: set<Bytes>)

  const EMPTY := Ledger(map[], map[])

  function Get(l: Ledger, addr: Bytes): Acct {
    if addr in l.accounts then l.accounts[addr] else Acct(0, 0)
  }

  function Put(l: Ledger, addr: Bytes, a: Acct): Ledger {
    l.(accounts := l.accounts[addr := a])
  }

  function Credit(l: Ledger, addr: Bytes, value: int): Ledger {
    Put(l, addr, Get(l, addr).(balance := Get(l, addr).balance + value))
  }

  /** Pays `total` out of an account and uses up its nonce. */
  function Debit(l: Ledger, addr: Bytes, total: int): Ledger {
    Put(l, addr, Acct(Get(l, addr).balance - total, Get(l, addr).nonce + 1))
  }

  predicate CanPay(l: Ledger, tx: Tx) {
    tx.amount + tx.fee <= Get(l, tx.from).balance && tx.nonce == Get(l, tx.from).nonce
  }

  function Transferred(l: Ledger, tx: Tx): Option<Ledger> {
    if CanPay(l, tx) then Some(Credit(Debit(l, tx.from, tx.amount + tx.fee), tx.to, tx.amount)) else None
  }

  function Locked(c: Crypto, p: Progress, tx: Tx, height: nat): Option<Progress> {
    var id := TxHash(c, tx);
    if !CanPay(p.ledger, tx) || id in p.ledger.locks then None
    else
      var paid := Debit(p.ledger, tx.from, tx.amount + tx.fee);
      Some(Progress(paid.(locks := paid.locks[id := ScriptLock(tx.amount, OrElse(tx.scriptHash, []), height)]),
                    p.created + {id}))
  }

  function SpendContext(c: Crypto, tx: Tx, bc: BlockContext): Context {
    Context(RedeemSighash(c, tx), bc.height, bc.mtp)
  }

  /** A redeem spends a lock of an earlier block, revealing its script and satisfying it. */
  ghost predicate CanRedeem(c: Crypto, p: Progress, tx: Tx, bc: BlockContext) {
    var id, script := OrElse(tx.lockId, []), OrElse(tx.redeemScript, []);
    && id in p.ledger.locks && id !in p.created
    && c.sha256(script) == p.ledger.locks[id].scriptHash
    && tx.amount == p.ledger.locks[id].amount
    && tx.fee <= tx.amount
    && Accepts(c, SpendContext(c, tx, bc), script, OrElse(tx.wit, []))
  }

  ghost function Redeemed(c: Crypto, p: Progress, tx: Tx, bc: BlockContext): Option<Progress> {
    if !CanRedeem(c, p, tx, bc) then None
    else
      var spent := p.ledger.(locks := p.ledger.locks - {OrElse(tx.lockId, [])});
      var payout := tx.amount - tx.fee;
      Some(p.(ledger := if payout > 0 then Credit(spent, tx.to, payout) else spent))
  }

  ghost function Applied(c: Crypto, p: Progress, tx: Tx, bc: BlockContext): Option<Progress> {
    match tx.kind
    case Transfer =>
      var l := Transferred(p.ledger, tx);
      if l.None? then None else Some(p.(ledger := l.value))
    case Lock => if bc.scriptsActive then Locked(c, p, tx, bc.height) else None
    case Redeem => if bc.scriptsActive then Redeemed(c, p, tx, bc) else None
  }

  /** A list of transactions in order, all or nothing. */
  ghost function AppliedAll(c: Crypto, p: Progress, txs: seq<Tx>, bc: BlockContext): Option<Progress> {
    if txs == [] then Some(p)
    else
      var before := AppliedAll(c, p, txs[..|txs| - 1], bc);
      if before.None? then None else Applied(c, before.value, txs[|txs| - 1], bc)
  }

  function Fees(txs: seq<Tx>): int {
    if txs == [] then 0 else Fees(txs[..|txs| - 1]) + txs[|txs| - 1].fee
  }

  /** A block: its transactions, then the reward and all fees to the miner. */
  ghost function BlockApplied(c: Crypto, l: Ledger, miner: Bytes, txs: seq<Tx>, bc: BlockContext): Option<Ledger> {
    var done := AppliedAll(c, Progress(l, {}), txs, bc);
    if done.None? then None
    else Some(Credit(done.value.ledger, miner, BlockReward(bc.height) + Fees(txs)))
  }

  // ------------------------------------------------------------------
  // Conservation
  // ------------------------------------------------------------------

  /** The sum of a finite map's values. */
  ghost function Sum(m: map<Bytes, int>): int
    decreases |m|
  {
    if m == map[] then 0 else
      var k :| k in m;
      m[k] + Sum(m - {k})
  }

  lemma {:induction false} SumRemove(m: map<Bytes, int>, k: Bytes)
    requires k in m
    ensures Sum(m) == m[k] + Sum(m - {k})
    decreases |m|
  {
    var j :| j in m && Sum(m) == m[j] + Sum(m - {j});
    if j != k {
      SumRemove(m - {j}, k);
      SumRemove(m - {k}, j);
      assert m - {j} - {k} == m - {k} - {j};
    }
  }

  lemma SumUpdate(m: map<Bytes, int>, k: Bytes, v: int)
    ensures Sum(m[k := v]) == Sum(m) - (if k in m then m[k] else 0) + v
  {
    SumRemove(m[k := v], k);
    if k in m {
      SumRemove(m, k);
      assert m[k := v] - {k} == m - {k};
    } else {
      assert m[k := v] - {k} == m;
    }
  }

  lemma {:induction false} SumBound(m: map<Bytes, int>, k: Bytes)
    requires k in m && forall j :: j in m ==> m[j] >= 0
    ensures 0 <= m[k] <= Sum(m)
    decreases |m|
  {
    SumRemove(m, k);
    SumNonNegative(m - {k});
  }

  lemma {:induction false} SumNonNegative(m: map<Bytes, int>)
    requires forall j :: j in m ==> m[j] >= 0
    ensures Sum(m) >= 0
    decreases |m|
  {
    if m != map[] {
      var k :| k in m && Sum(m) == m[k] + Sum(m - {k});
      SumNonNegative(m - {k});
    }
  }

  ghost function Balances(l: Ledger): map<Bytes, int> { map k | k in l.accounts :: l.accounts[k].balance }

  ghost function LockAmounts(l: Ledger): map<Bytes, int> { map k | k in l.locks :: l.locks[k].amount }

  /** All the money there is: in accounts and under locks. */
  ghost function Total(l: Ledger): int { Sum(Balances(l)) + Sum(LockAmounts(l)) }

  ghost predicate NonNegative(l: Ledger) {
    && (forall k :: k in l.accounts ==> l.accounts[k].balance >= 0)
    && (forall k :: k in l.locks ==> l.locks[k].amount >= 0)
  }

  lemma PutTotal(l: Ledger, addr: Bytes, a: Acct)
    ensures Total(Put(l, addr, a)) == Total(l) - Get(l, addr).balance + a.balance
  {
    SumUpdate(Balances(l), addr, a.balance);
    assert Balances(Put(l, addr, a)) == Balances(l)[addr := a.balance];
  }

  lemma AddLockTotal(l: Ledger, id: Bytes, k: ScriptLock)
    requires id !in l.locks
    ensures Total(l.(locks := l.locks[id := k])) == Total(l) + k.amount
  {
    SumUpdate(LockAmounts(l), id, k.amount);
    assert LockAmounts(l.(locks := l.locks[id := k])) == LockAmounts(l)[id := k.amount];
    assert Balances(l.(locks := l.locks[id := k])) == Balances(l);
  }

  lemma DropLockTotal(l: Ledger, id: Bytes)
    requires id in l.locks
    ensures Total(l.(locks := l.locks - {id})) == Total(l) - l.locks[id].amount
  {
    SumRemove(LockAmounts(l), id);
    assert LockAmounts(l.(locks := l.locks - {id})) == LockAmounts(l) - {id};
    assert Balances(l.(locks := l.locks - {id})) == Balances(l);
  }

  /** Money values the structure check lets through are never negative. */
  predicate Priced(tx: Tx) { tx.amount >= 0 && tx.fee >= 0 }

  /** Paying out of an account that can afford it. */
  lemma DebitConserves(l: Ledger, addr: Bytes, total: int)
    requires NonNegative(l) && total <= Get(l, addr).balance
    ensures NonNegative(Debit(l, addr, total)) && Total(Debit(l, addr, total)) == Total(l) - total
  {
    hide Total;
    PutTotal(l, addr, Get(Debit(l, addr, total), addr));
  }

  lemma CreditConserves(l: Ledger, addr: Bytes, value: int)
    requires NonNegative(l) && value >= 0
    ensures NonNegative(Credit(l, addr, value)) && Total(Credit(l, addr, value)) == Total(l) + value
  {
    hide Total;
    PutTotal(l, addr, Get(Credit(l, addr, value), addr));
  }

  /** A transaction moves money but neither makes nor destroys it: only its fee leaves, for the miner. */
  lemma AppliedConserves(c: Crypto, p: Progress, tx: Tx, bc: BlockContext)
    requires Priced(tx) && NonNegative(p.ledger) && Applied(c, p, tx, bc).Some?
    ensures var q := Applied(c, p, tx, bc).value.ledger;
            NonNegative(q) && Total(q) == Total(p.ledger) - tx.fee
  {
    hide Total, Transferred, Locked, Redeemed, NonNegative;
    match tx.kind
    case Transfer => TransferConserves(p.ledger, tx);
    case Lock => LockConserves(c, p, tx, bc.height);
    case Redeem => RedeemConserves(c, p, tx, bc);
  }

  lemma TransferConserves(l: Ledger, tx: Tx)
    requires Priced(tx) && NonNegative(l) && Transferred(l, tx).Some?
    ensures var q := Transferred(l, tx).value; NonNegative(q) && Total(q) == Total(l) - tx.fee
  {
    hide Total, Debit, Credit, NonNegative;
    DebitConserves(l, tx.from, tx.amount + tx.fee);
    CreditConserves(Debit(l, tx.from, tx.amount + tx.fee), tx.to, tx.amount);
  }

  lemma LockConserves(c: Crypto, p: Progress, tx: Tx, height: nat)
    requires Priced(tx) && NonNegative(p.ledger) && Locked(c, p, tx, height).Some?
    ensures var q := Locked(c, p, tx, height).value.ledger; NonNegative(q) && Total(q) == Total(p.ledger) - tx.fee
  {
    hide Total, Debit, TxHash;
    var paid := Debit(p.ledger, tx.from, tx.amount + tx.fee);
    DebitConserves(p.ledger, tx.from, tx.amount + tx.fee);
    DebitKeepsLocks(p.ledger, tx.from, tx.amount + tx.fee);
    AddLockTotal(paid, TxHash(c, tx), ScriptLock(tx.amount, OrElse(tx.scriptHash, []), height));
  }

  lemma RedeemConserves(c: Crypto, p: Progress, tx: Tx, bc: BlockContext)
    requires Priced(tx) && NonNegative(p.ledger) && Redeemed(c, p, tx, bc).Some?
    ensures var q := Redeemed(c, p, tx, bc).value.ledger; NonNegative(q) && Total(q) == Total(p.ledger) - tx.fee
  {
    hide Total, Credit, Accepts;
    var id := OrElse(tx.lockId, []);
    DropLockTotal(p.ledger, id);
    CreditConserves(p.ledger.(locks := p.ledger.locks - {id}), tx.to, tx.amount - tx.fee);
  }

  lemma DebitKeepsLocks(l: Ledger, addr: Bytes, total: int)
    ensures Debit(l, addr, total).locks == l.locks
  {
  }

  predicate AllPriced(txs: seq<Tx>) {
    forall i :: 0 <= i < |txs| ==> Priced(txs[i])
  }

  lemma {:induction false} AppliedAllConserves(c: Crypto, p: Progress, txs: seq<Tx>, bc: BlockContext)
    requires AllPriced(txs) && NonNegative(p.ledger) && AppliedAll(c, p, txs, bc).Some?
    ensures var q := AppliedAll(c, p, txs, bc).value.ledger;
            NonNegative(q) && Total(q) == Total(p.ledger) - Fees(txs)
    ensures Fees(txs) >= 0
    decreases |txs|
  {
    if txs != [] {
      hide Applied, Total, NonNegative;
      var front := txs[..|txs| - 1];
      AppliedAllConserves(c, p, front, bc);
      AppliedConserves(c, AppliedAll(c, p, front, bc).value, txs[|txs| - 1], bc);
    }
  }

  /** A block adds exactly its reward to the money there is. */
  lemma BlockConserves(c: Crypto, l: Ledger, miner: Bytes, txs: seq<Tx>, bc: BlockContext)
    requires AllPriced(txs) && NonNegative(l) && BlockApplied(c, l, miner, txs, bc).Some?
    ensures var q := BlockApplied(c, l, miner, txs, bc).value;
            NonNegative(q) && Total(q) == Total(l) + BlockReward(bc.height)
  {
    hide Total, Credit, AppliedAll, BlockReward;
    AppliedAllConserves(c, Progress(l, {}), txs, bc);
    CreditConserves(AppliedAll(c, Progress(l, {}), txs, bc).value.ledger, miner, BlockReward(bc.height) + Fees(txs));
  }

  // ------------------------------------------------------------------
  // Whole branches
  // ------------------------------------------------------------------

  /** What one block contributes to a branch. */
  datatype Body = Body(miner: Bytes, txs: seq<Tx>, scriptsActive: bool, mtp: nat)

  /** The ledger after a branch's blocks, heights counted from 1 above genesis's empty ledger. */
  ghost function Replay(c: Crypto, bodies: seq<Body>): Option<Ledger> {
    if bodies == [] then Some(EMPTY)
    else
      var n := |bodies|;
      var before := Replay(c, bodies[..n - 1]);
      if before.None? then None
      else BlockApplied(c, before.value, bodies[n - 1].miner, bodies[n - 1].txs, BodyContext(bodies, n - 1))
  }

  function BodyContext(bodies: seq<Body>, i: nat): BlockContext
    requires i < |bodies|
  {
    BlockContext(bodies[i].scriptsActive, i + 1, bodies[i].mtp)
  }

  predicate BodiesPriced(bodies: seq<Body>) {
    forall i :: 0 <= i < |bodies| ==> AllPriced(bodies[i].txs)
  }

  /**
   * Along every branch the money in existence is exactly the schedule's: no
   * balance or lock is negative, and none reaches 2^64, so the fixed-width
   * fields of the state root never wrap.
   */
  lemma {:induction false} SupplyExact(c: Crypto, bodies: seq<Body>)
    requires BodiesPriced(bodies) && Replay(c, bodies).Some?
    ensures var l := Replay(c, bodies).value;
            NonNegative(l) && Total(l) == Supply(|bodies|) < MAX_MONEY
  {
    hide Total, BlockApplied, NonNegative, BlockReward;
    SupplyCapped(|bodies|);
    if bodies == [] {
      EmptyTotal();
    } else {
      var n := |bodies|;
      SupplyExact(c, bodies[..n - 1]);
      BlockConserves(c, Replay(c, bodies[..n - 1]).value, bodies[n - 1].miner, bodies[n - 1].txs,
                     BodyContext(bodies, n - 1));
    }
  }

  lemma EmptyTotal()
    ensures Total(EMPTY) == 0 && NonNegative(EMPTY)
  {
    assert Balances(EMPTY) == map[] && LockAmounts(EMPTY) == map[];
  }

  /** Nothing in a ledger exceeds its total. */
  lemma AmountsBounded(l: Ledger, bound: int)
    requires NonNegative(l) && Total(l) < bound
    ensures forall k :: k in l.accounts ==> 0 <= l.accounts[k].balance < bound
    ensures forall k :: k in l.locks ==> 0 <= l.locks[k].amount < bound
  {
    SumNonNegative(Balances(l));
    SumNonNegative(LockAmounts(l));
    forall k | k in l.accounts ensures 0 <= l.accounts[k].balance < bound {
      SumBound(Balances(l), k);
    }
    forall k | k in l.locks ensures 0 <= l.locks[k].amount < bound {
      SumBound(LockAmounts(l), k);
    }
  }
}
