/**
 * Who gets what: what each transaction does to every account and lock, what a
 * block pays its miner, and every balance and nonce as a sum over the blocks of
 * a branch (src/chain/state.ts 144-277).
 */
module Balances {
  import opened Binary
  import opened Crypto
  import opened Genesis
  import opened Ledger
  import opened Script
  import opened Transaction

  // ------------------------------------------------------------------
  // One transaction
  // ------------------------------------------------------------------

  /** Whoever signs for money leaving an account: the senders of transfers and the creators of locks. */
  predicate Sends(tx: Tx, addr: Bytes) { tx.kind != Redeem && tx.from == addr }

  /** What a transaction takes from an account. */
  function Outgoing(tx: Tx, addr: Bytes): int {
    if Sends(tx, addr) then tx.amount + tx.fee else 0
  }

  /** What a transaction pays to an account: a transfer its amount, a redeem what the fee leaves of the lock. */
  function Incoming(tx: Tx, addr: Bytes): int {
    match tx.kind
    case Transfer => if tx.to == addr then tx.amount else 0
    case Lock => 0
    case Redeem => if tx.to == addr then tx.amount - tx.fee else 0
  }

  /** Every account's change between two ledgers. */
  ghost predicate Moved(before: Ledger, after: Ledger, tx: Tx) {
    forall addr ::
      && Get(after, addr).balance == Get(before, addr).balance + Incoming(tx, addr) - Outgoing(tx, addr)
      && Get(after, addr).nonce == Get(before, addr).nonce + if Sends(tx, addr) then 1 else 0
  }

  /**
   * A transfer is applied exactly when the sender can pay amount and fee and the
   * nonce is the next one. The sender pays both, the recipient gets the amount,
   * and no other account and no lock changes.
   */
  lemma TransferEffect(c: Crypto, p: Progress, tx: Tx, bc: BlockContext)
    requires tx.kind == Transfer
    ensures Applied(c, p, tx, bc).Some? <==>
            Get(p.ledger, tx.from).balance >= tx.amount + tx.fee && Get(p.ledger, tx.from).nonce == tx.nonce
    ensures Applied(c, p, tx, bc).Some? ==>
              var q := Applied(c, p, tx, bc).value;
              Moved(p.ledger, q.ledger, tx) && q.ledger.locks == p.ledger.locks && q.created == p.created
  {
  }

  /**
   * A lock needs active scripts, a sender that can pay, the next nonce and a
   * fresh id. The sender pays amount and fee, the new lock holds the amount under
   * the script hash, and nothing else changes.
   */
  lemma LockEffect(c: Crypto, p: Progress, tx: Tx, bc: BlockContext)
    requires tx.kind == Lock
    ensures var id := c.sha256(EncodeTx(tx));
            Applied(c, p, tx, bc).Some? <==>
            && bc.scriptsActive && id !in p.ledger.locks
            && Get(p.ledger, tx.from).balance >= tx.amount + tx.fee && Get(p.ledger, tx.from).nonce == tx.nonce
    ensures Applied(c, p, tx, bc).Some? ==>
              var q, id := Applied(c, p, tx, bc).value, c.sha256(EncodeTx(tx));
              && Moved(p.ledger, q.ledger, tx) && q.created == p.created + {id}
              && q.ledger.locks.Keys == p.ledger.locks.Keys + {id}
              && (forall k :: k in p.ledger.locks ==> q.ledger.locks[k] == p.ledger.locks[k])
              && q.ledger.locks[id] == ScriptLock(tx.amount, OrElse(tx.scriptHash, []), bc.height)
  {
    hide EncodeTx;
  }

  /** The script a redeem reveals, and the lock it names. */
  function Revealed(tx: Tx): Bytes { OrElse(tx.redeemScript, []) }

  function Named(tx: Tx): Bytes { OrElse(tx.lockId, []) }

  /**
   * A redeem is applied exactly when scripts are active, the lock is live and not
   * of this block, the revealed script hashes to the lock's, the amount is the
   * lock's, the fee does not exceed it, and the script accepts the witness for
   * this very message at the block's height and median time. The lock goes, the
   * destination gets the amount less the fee, and nothing else changes.
   */
  lemma RedeemEffect(c: Crypto, p: Progress, tx: Tx, bc: BlockContext)
    requires tx.kind == Redeem
    ensures Applied(c, p, tx, bc).Some? <==>
            && bc.scriptsActive && Named(tx) in p.ledger.locks && Named(tx) !in p.created
            && c.sha256(Revealed(tx)) == p.ledger.locks[Named(tx)].scriptHash
            && p.ledger.locks[Named(tx)].amount == tx.amount && tx.fee <= tx.amount
            && Accepts(c, Context(c.sha256(RedeemPreimage(tx)), bc.height, bc.mtp), Revealed(tx), OrElse(tx.wit, []))
    ensures Applied(c, p, tx, bc).Some? ==>
              var q := Applied(c, p, tx, bc).value;
              && Moved(p.ledger, q.ledger, tx) && q.created == p.created
              && q.ledger.locks.Keys == p.ledger.locks.Keys - {Named(tx)}
              && forall k :: k in q.ledger.locks ==> q.ledger.locks[k] == p.ledger.locks[k]
  {
    hide Accepts, RedeemPreimage;
  }

  lemma EffectMoves(c: Crypto, p: Progress, tx: Tx, bc: BlockContext)
    requires Applied(c, p, tx, bc).Some?
    ensures Moved(p.ledger, Applied(c, p, tx, bc).value.ledger, tx)
  {
    hide Applied, Moved, Accepts, EncodeTx, RedeemPreimage;
    match tx.kind
    case Transfer => TransferEffect(c, p, tx, bc);
    case Lock => LockEffect(c, p, tx, bc);
    case Redeem => RedeemEffect(c, p, tx, bc);
  }

  // ------------------------------------------------------------------
  // One block
  // ------------------------------------------------------------------

  /** What a list of transactions adds to an account, less what it takes. */
  ghost function Net(txs: seq<Tx>, addr: Bytes): int {
    if txs == [] then 0
    else Net(txs[..|txs| - 1], addr) + Incoming(txs[|txs| - 1], addr) - Outgoing(txs[|txs| - 1], addr)
  }

  ghost function FeeSum(txs: seq<Tx>): int {
    if txs == [] then 0 else FeeSum(txs[..|txs| - 1]) + txs[|txs| - 1].fee
  }

  /** How many of the transactions an account signed. */
  ghost function Sent(txs: seq<Tx>, addr: Bytes): nat {
    if txs == [] then 0 else Sent(txs[..|txs| - 1], addr) + if Sends(txs[|txs| - 1], addr) then 1 else 0
  }

  lemma {:induction false} TxsMove(c: Crypto, p: Progress, txs: seq<Tx>, bc: BlockContext, addr: Bytes)
    requires AppliedAll(c, p, txs, bc).Some?
    ensures var q := AppliedAll(c, p, txs, bc).value.ledger;
            && Get(q, addr).balance == Get(p.ledger, addr).balance + Net(txs, addr)
            && Get(q, addr).nonce == Get(p.ledger, addr).nonce + Sent(txs, addr)
    decreases |txs|
  {
    if txs != [] {
      hide Applied, Get, Incoming, Outgoing;
      var front, last := txs[..|txs| - 1], txs[|txs| - 1];
      TxsMove(c, p, front, bc, addr);
      EffectMoves(c, AppliedAll(c, p, front, bc).value, last, bc);
    }
  }

  /** What a block adds to an account: the transactions' sum, and for the miner the reward and all fees. */
  ghost function BlockGain(miner: Bytes, txs: seq<Tx>, height: nat, addr: Bytes): int {
    Net(txs, addr) + if miner == addr then BlockReward(height) + FeeSum(txs) else 0
  }

  lemma BlockMoves(c: Crypto, l: Ledger, miner: Bytes, txs: seq<Tx>, bc: BlockContext, addr: Bytes)
    requires BlockApplied(c, l, miner, txs, bc).Some?
    ensures var q := BlockApplied(c, l, miner, txs, bc).value;
            && Get(q, addr).balance == Get(l, addr).balance + BlockGain(miner, txs, bc.height, addr)
            && Get(q, addr).nonce == Get(l, addr).nonce + Sent(txs, addr)
  {
    hide AppliedAll, BlockReward, Net, FeeSum, Fees;
    TxsMove(c, Progress(l, {}), txs, bc, addr);
    FeesAreFees(txs);
  }

  lemma {:induction false} FeesAreFees(txs: seq<Tx>)
    ensures Fees(txs) == FeeSum(txs)
  {
    if txs != [] {
      FeesAreFees(txs[..|txs| - 1]);
    }
  }

  // ------------------------------------------------------------------
  // Whole branches
  // ------------------------------------------------------------------

  /** Everything a branch has added to an account, less what it has taken; heights count from 1. */
  ghost function Gained(bodies: seq<Body>, addr: Bytes): int {
    if bodies == [] then 0 else
      var n := |bodies|;
      Gained(bodies[..n - 1], addr) + BlockGain(bodies[n - 1].miner, bodies[n - 1].txs, n, addr)
  }

  ghost function Signed(bodies: seq<Body>, addr: Bytes): nat {
    if bodies == [] then 0 else Signed(bodies[..|bodies| - 1], addr) + Sent(bodies[|bodies| - 1].txs, addr)
  }

  /**
   * Every account's balance is what the branch's blocks gave it as miner and as
   * recipient, less what it paid out; its nonce is the number of transfers and
   * locks it sent.
   */
  lemma {:induction false} BalanceIsHistory(c: Crypto, bodies: seq<Body>, addr: Bytes)
    requires Replay(c, bodies).Some?
    ensures Get(Replay(c, bodies).value, addr) == Acct(Gained(bodies, addr), Signed(bodies, addr))
  {
    if bodies != [] {
      hide BlockApplied, BlockGain, Sent, Get;
      var n := |bodies|;
      BalanceIsHistory(c, bodies[..n - 1], addr);
      BlockMoves(c, Replay(c, bodies[..n - 1]).value, bodies[n - 1].miner, bodies[n - 1].txs,
                 BodyContext(bodies, n - 1), addr);
    }
  }

  // ------------------------------------------------------------------
  // Order
  // ------------------------------------------------------------------

  /** Transactions are applied from the first to the last, each on what those before it left, all or none. */
  lemma {:induction false} AppliedInOrder(c: Crypto, p: Progress, first: Tx, rest: seq<Tx>, bc: BlockContext)
    ensures AppliedAll(c, p, [], bc) == Some(p)
    ensures var after := Applied(c, p, first, bc);
            AppliedAll(c, p, [first] + rest, bc) == if after.None? then None else AppliedAll(c, after.value, rest, bc)
    decreases |rest|
  {
    hide Applied;
    var all := [first] + rest;
    if rest == [] {
      assert all[..|all| - 1] == [] && all[|all| - 1] == first;
    } else {
      var front := rest[..|rest| - 1];
      assert all[..|all| - 1] == [first] + front && all[|all| - 1] == rest[|rest| - 1];
      AppliedInOrder(c, p, first, front, bc);
    }
  }
}
