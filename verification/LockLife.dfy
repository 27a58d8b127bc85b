/**
 * The life of a script lock along a branch: created at most once, spent at most
 * once and never in its own block, gone for good after that
 * (src/chain/state.ts 182-239), and spendable ever after once it is spendable.
 */
module LockLife {
  import opened Binary
  import opened Crypto
  import opened Genesis
  import opened Ledger
  import opened Script
  import opened ScriptBuild
  import opened Transaction

  function SpentId(tx: Tx): Bytes { OrElse(tx.lockId, []) }

  ghost predicate Created(c: Crypto, txs: seq<Tx>, id: Bytes) {
    exists i :: 0 <= i < |txs| && txs[i].kind == Lock && TxHash(c, txs[i]) == id
  }

  ghost predicate Spent(txs: seq<Tx>, id: Bytes) {
    exists i :: 0 <= i < |txs| && txs[i].kind == Redeem && SpentId(txs[i]) == id
  }

  /** No lock id is created twice. */
  ghost predicate CreatedOnce(c: Crypto, txs: seq<Tx>) {
    forall i, j :: 0 <= i < j < |txs| && txs[i].kind == txs[j].kind == Lock ==> TxHash(c, txs[i]) != TxHash(c, txs[j])
  }

  /** No lock is spent twice. */
  ghost predicate SpentOnce(txs: seq<Tx>) {
    forall i, j :: 0 <= i < j < |txs| && txs[i].kind == txs[j].kind == Redeem ==> SpentId(txs[i]) != SpentId(txs[j])
  }

  /** The live locks are those created and not yet spent, as their creating transactions describe them. */
  ghost predicate LiveLocks(c: Crypto, l: Ledger, txs: seq<Tx>) {
    && (forall id :: id in l.locks <==> Created(c, txs, id) && !Spent(txs, id))
    && (forall id :: Spent(txs, id) ==> Created(c, txs, id))
    && (forall i :: 0 <= i < |txs| && txs[i].kind == Lock && TxHash(c, txs[i]) in l.locks ==>
          Describes(l.locks[TxHash(c, txs[i])], txs[i]))
  }

  predicate Describes(k: ScriptLock, tx: Tx) {
    k.amount == tx.amount && k.scriptHash == OrElse(tx.scriptHash, [])
  }

  /** Every lock's creator has moved past the nonce it was created with. */
  ghost predicate NoncesUsed(l: Ledger, txs: seq<Tx>) {
    forall i :: 0 <= i < |txs| && txs[i].kind == Lock ==> txs[i].nonce < Get(l, txs[i].from).nonce
  }

  ghost predicate History(c: Crypto, l: Ledger, txs: seq<Tx>) {
    LiveLocks(c, l, txs) && NoncesUsed(l, txs) && CreatedOnce(c, txs) && SpentOnce(txs)
  }

  /** Locks as they come off the wire. */
  predicate LocksOnWire(txs: seq<Tx>) {
    forall i :: 0 <= i < |txs| && txs[i].kind == Lock ==> Encodable(txs[i]) && 0 <= txs[i].nonce < U32
  }

  /** Locks whose fields fit their wire widths, the nonce aside. */
  predicate LocksEncodable(txs: seq<Tx>) {
    forall i :: 0 <= i < |txs| && txs[i].kind == Lock ==> Encodable(txs[i])
  }

  ghost function LockEncodings(txs: seq<Tx>): set<Bytes> {
    set i | 0 <= i < |txs| && txs[i].kind == Lock :: EncodeTx(txs[i])
  }

  // ------------------------------------------------------------------
  // One transaction
  // ------------------------------------------------------------------

  /** Nonces never go back, and whoever locks uses one up. */
  lemma NoncesGrow(c: Crypto, p: Progress, tx: Tx, bc: BlockContext)
    requires Applied(c, p, tx, bc).Some?
    ensures var q := Applied(c, p, tx, bc).value.ledger;
            && (forall a :: Get(p.ledger, a).nonce <= Get(q, a).nonce)
            && p.ledger.accounts.Keys <= q.accounts.Keys
            && (tx.kind != Redeem ==> tx.nonce == Get(p.ledger, tx.from).nonce < Get(q, tx.from).nonce)
  {
    hide Accepts, EncodeTx;
  }

  lemma {:induction false} FreshLockId(c: Crypto, l: Ledger, txs: seq<Tx>, tx: Tx)
    requires NoncesUsed(l, txs) && tx.kind == Lock && tx.nonce == Get(l, tx.from).nonce
    requires LocksOnWire(txs + [tx]) && CollisionFree(c, LockEncodings(txs + [tx]))
    ensures !Created(c, txs, TxHash(c, tx))
  {
    hide Encodable, EncodeTx, WireForm;
    var all := txs + [tx];
    forall i | 0 <= i < |txs| && txs[i].kind == Lock ensures TxHash(c, txs[i]) != TxHash(c, tx) {
      assert all[i] == txs[i] && all[|txs|] == tx;
      assert EncodeTx(all[i]) in LockEncodings(all) && EncodeTx(all[|txs|]) in LockEncodings(all);
      if EncodeTx(txs[i]) == EncodeTx(tx) {
        EncodeTxInjective(txs[i], tx);
        SameSenderAndNonce(txs[i], tx);
        assert false;
      }
    }
  }

  lemma SameSenderAndNonce(a: Tx, b: Tx)
    requires a.kind == b.kind == Lock && 0 <= a.nonce < U32 && 0 <= b.nonce < U32 && WireForm(a) == WireForm(b)
    ensures a.from == b.from && a.nonce == b.nonce
  {
  }

  lemma LocksAfter(c: Crypto, p: Progress, tx: Tx, bc: BlockContext)
    requires Applied(c, p, tx, bc).Some?
    ensures var before, after := p.ledger.locks, Applied(c, p, tx, bc).value.ledger.locks;
            match tx.kind
            case Transfer => after == before
            case Lock =>
              var lock := ScriptLock(tx.amount, OrElse(tx.scriptHash, []), bc.height);
              TxHash(c, tx) !in before && after == before[TxHash(c, tx) := lock]
            case Redeem => SpentId(tx) in before && after == before - {SpentId(tx)}
  {
    hide Accepts, EncodeTx;
  }

  lemma CreatedAppend(c: Crypto, txs: seq<Tx>, tx: Tx, id: Bytes)
    ensures Created(c, txs + [tx], id) <==> Created(c, txs, id) || (tx.kind == Lock && TxHash(c, tx) == id)
    ensures Spent(txs + [tx], id) <==> Spent(txs, id) || (tx.kind == Redeem && SpentId(tx) == id)
  {
    hide EncodeTx;
    var all := txs + [tx];
    assert all[|txs|] == tx;
    assert forall i :: 0 <= i < |txs| ==> all[i] == txs[i];
  }

  lemma HistoryStep(c: Crypto, p: Progress, txs: seq<Tx>, tx: Tx, bc: BlockContext)
    requires History(c, p.ledger, txs) && Applied(c, p, tx, bc).Some?
    requires LocksOnWire(txs + [tx]) && CollisionFree(c, LockEncodings(txs + [tx]))
    ensures History(c, Applied(c, p, tx, bc).value.ledger, txs + [tx])
  {
    hide LiveLocks, CreatedOnce, SpentOnce, Applied, LocksOnWire;
    NoncesGrow(c, p, tx, bc);
    if tx.kind == Lock {
      assert 0 <= tx.nonce;
      FreshLockId(c, p.ledger, txs, tx);
    }
    OnceStep(c, p, txs, tx, bc);
    LiveLocksStep(c, p, txs, tx, bc);
  }

  lemma OnceStep(c: Crypto, p: Progress, txs: seq<Tx>, tx: Tx, bc: BlockContext)
    requires History(c, p.ledger, txs) && Applied(c, p, tx, bc).Some?
    requires tx.kind == Lock ==> !Created(c, txs, TxHash(c, tx))
    ensures CreatedOnce(c, txs + [tx]) && SpentOnce(txs + [tx])
  {
    hide Applied, TxHash;
    LocksAfter(c, p, tx, bc);
    var all := txs + [tx];
    assert forall i :: 0 <= i < |txs| ==> all[i] == txs[i];
  }

  lemma LiveLocksStep(c: Crypto, p: Progress, txs: seq<Tx>, tx: Tx, bc: BlockContext)
    requires History(c, p.ledger, txs) && Applied(c, p, tx, bc).Some?
    requires tx.kind == Lock ==> !Created(c, txs, TxHash(c, tx))
    ensures LiveLocks(c, Applied(c, p, tx, bc).value.ledger, txs + [tx])
  {
    hide Applied, TxHash, Created, Spent;
    LocksAfter(c, p, tx, bc);
    var q, all := Applied(c, p, tx, bc).value.ledger, txs + [tx];
    forall id ensures id in q.locks <==> Created(c, all, id) && !Spent(all, id)
              ensures Spent(all, id) ==> Created(c, all, id) {
      CreatedAppend(c, txs, tx, id);
    }
    forall i | 0 <= i < |all| && all[i].kind == Lock && TxHash(c, all[i]) in q.locks
      ensures Describes(q.locks[TxHash(c, all[i])], all[i])
    {
      if i < |txs| {
        assert all[i] == txs[i];
        CreatedAt(c, txs, i);
      }
    }
  }

  lemma CreatedAt(c: Crypto, txs: seq<Tx>, i: nat)
    requires i < |txs| && txs[i].kind == Lock
    ensures Created(c, txs, TxHash(c, txs[i]))
  {
  }

  // ------------------------------------------------------------------
  // One block, and a whole branch
  // ------------------------------------------------------------------

  lemma PrefixOnWire(c: Crypto, a: seq<Tx>, b: seq<Tx>)
    requires LocksOnWire(a + b) && CollisionFree(c, LockEncodings(a + b))
    ensures LocksOnWire(a) && CollisionFree(c, LockEncodings(a))
  {
    hide Encodable, EncodeTx;
    var all := a + b;
    assert forall i :: 0 <= i < |a| ==> all[i] == a[i];
    assert LockEncodings(a) <= LockEncodings(all);
  }

  lemma {:induction false} HistoryBlock(c: Crypto, p: Progress, done: seq<Tx>, txs: seq<Tx>, bc: BlockContext)
    requires History(c, p.ledger, done) && AppliedAll(c, p, txs, bc).Some?
    requires LocksOnWire(done + txs) && CollisionFree(c, LockEncodings(done + txs))
    ensures History(c, AppliedAll(c, p, txs, bc).value.ledger, done + txs)
    decreases |txs|
  {
    hide History, LocksOnWire, CollisionFree, LockEncodings, Applied;
    if txs == [] {
      assert done + txs == done;
    } else {
      var front, last := txs[..|txs| - 1], txs[|txs| - 1];
      assert done + txs == (done + front) + [last];
      PrefixOnWire(c, done + front, [last]);
      HistoryBlock(c, p, done, front, bc);
      HistoryStep(c, AppliedAll(c, p, front, bc).value, done + front, last, bc);
    }
  }

  lemma HistoryCredit(c: Crypto, l: Ledger, txs: seq<Tx>, addr: Bytes, value: int)
    requires History(c, l, txs)
    ensures History(c, Credit(l, addr, value), txs)
  {
    hide CreatedOnce, SpentOnce, Created, Spent, TxHash;
  }

  function AllTxs(bodies: seq<Body>): seq<Tx> {
    if bodies == [] then [] else AllTxs(bodies[..|bodies| - 1]) + bodies[|bodies| - 1].txs
  }

  // No account's nonce exceeds the number of transactions before it, so a branch
  // of at most 2^32 transactions has no nonce the wire would cut.

  ghost predicate NoncesUpTo(l: Ledger, n: nat) { forall a :: Get(l, a).nonce <= n }

  lemma NonceStep(c: Crypto, p: Progress, tx: Tx, bc: BlockContext, n: nat)
    requires Applied(c, p, tx, bc).Some? && NoncesUpTo(p.ledger, n)
    ensures NoncesUpTo(Applied(c, p, tx, bc).value.ledger, n + 1)
    ensures tx.kind != Redeem ==> 0 <= tx.nonce <= n
  {
    hide Accepts, EncodeTx;
    assert Get(p.ledger, tx.from).nonce <= n;
    forall a ensures Get(Applied(c, p, tx, bc).value.ledger, a).nonce <= n + 1 {
      assert Get(p.ledger, a).nonce <= n;
    }
  }

  ghost predicate LockNoncesBelow(txs: seq<Tx>, n: nat) {
    forall i :: 0 <= i < |txs| && txs[i].kind == Lock ==> 0 <= txs[i].nonce < n
  }

  lemma NoncesBelowAppend(a: seq<Tx>, b: seq<Tx>, m: nat, n: nat)
    requires LockNoncesBelow(a, m) && LockNoncesBelow(b, n) && m <= n
    ensures LockNoncesBelow(a + b, n)
  {
    forall i | 0 <= i < |a + b| && (a + b)[i].kind == Lock ensures 0 <= (a + b)[i].nonce < n {
      if i < |a| {
        assert (a + b)[i] == a[i];
      } else {
        assert (a + b)[i] == b[i - |a|];
      }
    }
  }

  lemma {:induction false} NoncesInBlock(c: Crypto, p: Progress, done: seq<Tx>, txs: seq<Tx>, bc: BlockContext)
    requires AppliedAll(c, p, txs, bc).Some? && NoncesUpTo(p.ledger, |done|)
    ensures NoncesUpTo(AppliedAll(c, p, txs, bc).value.ledger, |done + txs|)
    ensures LockNoncesBelow(txs, |done + txs|)
    decreases |txs|
  {
    if txs != [] {
      hide Applied, NoncesUpTo;
      var front, last := txs[..|txs| - 1], txs[|txs| - 1];
      NoncesInBlock(c, p, done, front, bc);
      NonceStep(c, AppliedAll(c, p, front, bc).value, last, bc, |done + front|);
      NoncesBelowAppend(front, [last], |done + front|, |done + txs|);
      assert front + [last] == txs;
    }
  }

  lemma {:induction false} NoncesOnBranch(c: Crypto, bodies: seq<Body>)
    requires Replay(c, bodies).Some?
    ensures NoncesUpTo(Replay(c, bodies).value, |AllTxs(bodies)|)
    ensures LockNoncesBelow(AllTxs(bodies), |AllTxs(bodies)|)
  {
    if bodies != [] {
      hide BlockApplied, NoncesUpTo, LockNoncesBelow;
      var front, last := bodies[..|bodies| - 1], bodies[|bodies| - 1];
      NoncesOnBranch(c, front);
      NoncesInBody(c, Replay(c, front).value, AllTxs(front), last, BodyContext(bodies, |bodies| - 1));
      NoncesBelowAppend(AllTxs(front), last.txs, |AllTxs(front)|, |AllTxs(bodies)|);
    } else {
      EmptyNonces();
    }
  }

  lemma NoncesInBody(c: Crypto, l: Ledger, done: seq<Tx>, body: Body, bc: BlockContext)
    requires BlockApplied(c, l, body.miner, body.txs, bc).Some? && NoncesUpTo(l, |done|)
    ensures NoncesUpTo(BlockApplied(c, l, body.miner, body.txs, bc).value, |done + body.txs|)
    ensures LockNoncesBelow(body.txs, |done + body.txs|)
  {
    hide AppliedAll, NoncesUpTo, LockNoncesBelow, Credit;
    NoncesInBlock(c, Progress(l, {}), done, body.txs, bc);
    CreditNonces(AppliedAll(c, Progress(l, {}), body.txs, bc).value.ledger, body.miner,
                 BlockReward(bc.height) + Fees(body.txs), |done + body.txs|);
  }

  lemma EmptyNonces()
    ensures NoncesUpTo(EMPTY, 0)
  {
  }

  lemma CreditNonces(l: Ledger, addr: Bytes, value: int, n: nat)
    requires NoncesUpTo(l, n)
    ensures NoncesUpTo(Credit(l, addr, value), n)
  {
    forall a ensures Get(Credit(l, addr, value), a).nonce <= n {
      assert Get(l, a).nonce <= n;
    }
  }

  lemma BranchOnWire(c: Crypto, bodies: seq<Body>)
    requires Replay(c, bodies).Some? && LocksEncodable(AllTxs(bodies)) && |AllTxs(bodies)| <= U32
    ensures LocksOnWire(AllTxs(bodies))
  {
    hide Encodable, Replay, AllTxs;
    NoncesOnBranch(c, bodies);
  }

  /**
   * Along any branch whose lock encodings do not collide: every lock id is
   * created at most once and spent at most once, only created ids are spent, and
   * the live locks are exactly those created and never spent.
   */
  lemma LocksSingleUse(c: Crypto, bodies: seq<Body>)
    requires Replay(c, bodies).Some? && LocksEncodable(AllTxs(bodies)) && |AllTxs(bodies)| <= U32
    requires CollisionFree(c, LockEncodings(AllTxs(bodies)))
    ensures History(c, Replay(c, bodies).value, AllTxs(bodies))
  {
    hide Replay, AllTxs, History, LocksOnWire, CollisionFree, LocksEncodable;
    BranchOnWire(c, bodies);
    HistoryBranch(c, bodies);
  }

  lemma {:induction false} HistoryBranch(c: Crypto, bodies: seq<Body>)
    requires Replay(c, bodies).Some?
    requires LocksOnWire(AllTxs(bodies)) && CollisionFree(c, LockEncodings(AllTxs(bodies)))
    ensures History(c, Replay(c, bodies).value, AllTxs(bodies))
  {
    if bodies != [] {
      hide History, LocksOnWire, CollisionFree, LockEncodings, BlockApplied;
      var front, last := bodies[..|bodies| - 1], bodies[|bodies| - 1];
      var l, bc := Replay(c, front).value, BodyContext(bodies, |bodies| - 1);
      PrefixOnWire(c, AllTxs(front), last.txs);
      HistoryBranch(c, front);
      HistoryBody(c, l, AllTxs(front), last, bc);
    }
  }

  lemma HistoryBody(c: Crypto, l: Ledger, done: seq<Tx>, body: Body, bc: BlockContext)
    requires History(c, l, done) && BlockApplied(c, l, body.miner, body.txs, bc).Some?
    requires LocksOnWire(done + body.txs) && CollisionFree(c, LockEncodings(done + body.txs))
    ensures History(c, BlockApplied(c, l, body.miner, body.txs, bc).value, done + body.txs)
  {
    hide History, LocksOnWire, CollisionFree, LockEncodings, Credit, AppliedAll;
    HistoryBlock(c, Progress(l, {}), done, body.txs, bc);
    HistoryCredit(c, AppliedAll(c, Progress(l, {}), body.txs, bc).value.ledger, done + body.txs, body.miner,
                  BlockReward(bc.height) + Fees(body.txs));
  }

  /** In the middle of a block the live locks are old ones or ones this block created. */
  lemma {:induction false} LocksOldOrNew(c: Crypto, p: Progress, txs: seq<Tx>, bc: BlockContext)
    requires AppliedAll(c, p, txs, bc).Some?
    ensures var q := AppliedAll(c, p, txs, bc).value;
            q.ledger.locks.Keys <= p.ledger.locks.Keys + q.created && p.created <= q.created
    decreases |txs|
  {
    if txs != [] {
      hide Accepts, TxHash;
      LocksOldOrNew(c, p, txs[..|txs| - 1], bc);
    }
  }

  lemma {:induction false} AppliedPrefix(c: Crypto, p: Progress, txs: seq<Tx>, bc: BlockContext, n: nat)
    requires AppliedAll(c, p, txs, bc).Some? && n <= |txs|
    ensures AppliedAll(c, p, txs[..n], bc).Some?
    ensures n < |txs| ==> Applied(c, AppliedAll(c, p, txs[..n], bc).value, txs[n], bc).Some?
    decreases |txs|
  {
    if n == |txs| {
      assert txs[..n] == txs;
    } else {
      hide Applied;
      AppliedPrefix(c, p, txs[..|txs| - 1], bc, n);
      assert txs[..|txs| - 1][..n] == txs[..n];
    }
  }

  lemma {:induction false} ReplayPrefix(c: Crypto, bodies: seq<Body>, n: nat)
    requires Replay(c, bodies).Some? && n <= |bodies|
    ensures Replay(c, bodies[..n]).Some?
    decreases |bodies|
  {
    if n == |bodies| {
      assert bodies[..n] == bodies;
    } else {
      hide BlockApplied;
      ReplayPrefix(c, bodies[..|bodies| - 1], n);
      assert bodies[..|bodies| - 1][..n] == bodies[..n];
    }
  }

  lemma {:induction false} AllTxsPrefix(bodies: seq<Body>, n: nat) returns (rest: seq<Tx>)
    requires n <= |bodies|
    ensures AllTxs(bodies) == AllTxs(bodies[..n]) + rest
    decreases |bodies|
  {
    if n == |bodies| {
      assert bodies[..n] == bodies;
      rest := [];
    } else {
      rest := AllTxsPrefix(bodies[..|bodies| - 1], n);
      assert bodies[..|bodies| - 1][..n] == bodies[..n];
      rest := rest + bodies[|bodies| - 1].txs;
    }
  }

  /** A redeem in block `b` spends a lock that a block before `b` created. */
  lemma RedeemsSpendEarlierBlocks(c: Crypto, bodies: seq<Body>, b: nat, j: nat)
    requires Replay(c, bodies).Some? && LocksEncodable(AllTxs(bodies)) && |AllTxs(bodies)| <= U32
    requires CollisionFree(c, LockEncodings(AllTxs(bodies)))
    requires b < |bodies| && j < |bodies[b].txs| && bodies[b].txs[j].kind == Redeem
    ensures Created(c, AllTxs(bodies[..b]), SpentId(bodies[b].txs[j]))
  {
    hide LocksOnWire, CollisionFree, LockEncodings, Accepts, TxHash, Created, Spent, AppliedAll, LocksEncodable;
    BranchOnWire(c, bodies);
    var txs := bodies[b].txs;
    ReplayPrefix(c, bodies, b + 1);
    ReplayPrefix(c, bodies, b);
    assert bodies[..b + 1][..b] == bodies[..b] && bodies[..b + 1][b] == bodies[b];
    var l, bc := Replay(c, bodies[..b]).value, BodyContext(bodies[..b + 1], b);
    assert BlockApplied(c, l, bodies[b].miner, txs, bc).Some?;
    AppliedPrefix(c, Progress(l, {}), txs, bc, j);
    LocksOldOrNew(c, Progress(l, {}), txs[..j], bc);
    assert SpentId(txs[j]) in l.locks;
    var rest := AllTxsPrefix(bodies, b);
    PrefixOnWire(c, AllTxs(bodies[..b]), rest);
    HistoryBranch(c, bodies[..b]);
  }

  // ------------------------------------------------------------------
  // Spends stay valid
  // ------------------------------------------------------------------

  /**
   * A redeem that the state after the first `n` blocks accepts is accepted by
   * the state after any more blocks of the branch in which the lock is still
   * live, at any height and median time no smaller.
   */
  lemma SpendStaysValid(c: Crypto, bodies: seq<Body>, n: nat, tx: Tx, created: set<Bytes>, bc: BlockContext,
      later: BlockContext)
    requires Replay(c, bodies).Some? && n <= |bodies| && Replay(c, bodies[..n]).Some?
    requires LocksEncodable(AllTxs(bodies)) && |AllTxs(bodies)| <= U32
    requires CollisionFree(c, LockEncodings(AllTxs(bodies)))
    requires Applied(c, Progress(Replay(c, bodies[..n]).value, {}), tx, bc).Some? && tx.kind == Redeem
    requires bc.height <= later.height && bc.mtp <= later.mtp && (bc.scriptsActive ==> later.scriptsActive)
    requires SpentId(tx) in Replay(c, bodies).value.locks && SpentId(tx) !in created
    ensures Applied(c, Progress(Replay(c, bodies).value, created), tx, later).Some?
  {
    hide LocksOnWire, CollisionFree, LockEncodings, Accepts, TxHash, Replay, CreatedOnce, SpentOnce, NoncesUsed,
      LocksEncodable;
    BranchOnWire(c, bodies);
    var l, m, id := Replay(c, bodies[..n]).value, Replay(c, bodies).value, SpentId(tx);
    var rest := AllTxsPrefix(bodies, n);
    PrefixOnWire(c, AllTxs(bodies[..n]), rest);
    HistoryBranch(c, bodies[..n]);
    HistoryBranch(c, bodies);
    var early, all := AllTxs(bodies[..n]), AllTxs(bodies);
    assert Created(c, early, id);
    var i :| 0 <= i < |early| && early[i].kind == Lock && TxHash(c, early[i]) == id;
    assert all[i] == early[i];
    assert Describes(l.locks[id], early[i]) && Describes(m.locks[id], all[i]);
    AcceptsLater(c, SpendContext(c, tx, bc), SpendContext(c, tx, later), OrElse(tx.redeemScript, []),
                OrElse(tx.wit, []));
  }
}
