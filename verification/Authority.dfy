/**
 * Authorisation: which signatures a validated block must carry, over which
 * bytes, and that without one no account ever pays
 * (src/chain/transaction.ts 69-160, 255-315, src/chain/blockchain.ts).
 */
module Authority {
  import opened Balances
  import opened Binary
  import opened BlockCodec
  import opened Crypto
  import opened Consensus
  import opened Genesis
  import opened Ledger
  import opened StateRoot
  import opened Transaction
  import opened Tree
  import opened TreeFacts
  import opened TreeRuns

  // ------------------------------------------------------------------
  // The signed bytes
  // ------------------------------------------------------------------

  /** Chain id, sender, recipient, amount, fee, nonce. */
  function TransferBytes(tx: Tx): Bytes {
    [0xc0, 0x1d, 0xfe, 0xed] + tx.from + tx.to + BE(tx.amount, 8) + BE(tx.fee, 8) + BE(tx.nonce, 4)
  }

  /** "LOCK", chain id, sender, amount, fee, nonce, script hash. */
  function LockBytes(tx: Tx): Bytes {
    ['L' as int, 'O' as int, 'C' as int, 'K' as int] + [0xc0, 0x1d, 0xfe, 0xed] + tx.from
    + BE(tx.amount, 8) + BE(tx.fee, 8) + BE(tx.nonce, 4) + OrElse(tx.scriptHash, [])
  }

  /** "RDM1", chain id, lock id, destination, amount, fee, script. */
  function RedeemBytes(tx: Tx): Bytes {
    ['R' as int, 'D' as int, 'M' as int, '1' as int] + [0xc0, 0x1d, 0xfe, 0xed] + OrElse(tx.lockId, []) + tx.to
    + BE(tx.amount, 8) + BE(tx.fee, 8) + OrElse(tx.redeemScript, [])
  }

  lemma Tags()
    ensures U32be(CHAIN_ID) == [0xc0, 0x1d, 0xfe, 0xed]
    ensures U32be(LOCK_TAG) == ['L' as int, 'O' as int, 'C' as int, 'K' as int]
    ensures U32be(REDEEM_TAG) == ['R' as int, 'D' as int, 'M' as int, '1' as int]
  {
    FourBytes(CHAIN_ID);
    FourBytes(LOCK_TAG);
    FourBytes(REDEEM_TAG);
  }

  lemma PreimagesAre(tx: Tx)
    ensures tx.kind == Transfer ==> TxPreimage(tx) == TransferBytes(tx)
    ensures tx.kind == Lock && tx.scriptHash.Some? ==> LockPreimage(tx) == LockBytes(tx)
    ensures tx.kind == Redeem && tx.lockId.Some? ==> RedeemPreimage(tx) == RedeemBytes(tx)
  {
    hide BE;
    Tags();
  }

  const SUPPLY_LIMIT := 21_000_000 * 100_000_000

  /** A signature over the bytes that name every field. */
  predicate SignedBySender(c: Crypto, tx: Tx) {
    |tx.from| == 32 && |tx.signature| == 64
    && c.edVerify(tx.signature, if tx.kind == Lock then LockBytes(tx) else TransferBytes(tx), tx.from)
  }

  /** The checks on a transaction by itself, kind by kind. */
  predicate Authorised(c: Crypto, tx: Tx) {
    match tx.kind
    case Transfer =>
      && SignedBySender(c, tx) && |tx.to| == 32 && tx.to != tx.from
      && 0 <= tx.amount && 0 <= tx.fee && 0 < tx.amount + tx.fee <= SUPPLY_LIMIT && 0 <= tx.nonce
    case Lock =>
      && SignedBySender(c, tx) && |OrElse(tx.scriptHash, [])| == 32
      && 0 < tx.amount && 0 <= tx.fee && tx.amount + tx.fee <= SUPPLY_LIMIT && 0 <= tx.nonce
    case Redeem =>
      && |tx.to| == 32 && |OrElse(tx.lockId, [])| == 32
      && 0 <= tx.fee <= tx.amount <= SUPPLY_LIMIT
      && 1 <= |OrElse(tx.redeemScript, [])| <= 10_000 && |OrElse(tx.wit, [])| <= 100
      && forall item :: item in OrElse(tx.wit, []) ==> |item| <= 520
  }

  /** Structural validation accepts exactly the authorised transactions. */
  lemma StructureIsAuthority(c: Crypto, tx: Tx)
    ensures ValidStructure(c, tx) <==> Authorised(c, tx)
  {
    hide TxPreimage, LockPreimage, RedeemPreimage, TransferBytes, LockBytes, RedeemBytes;
    PreimagesAre(tx);
    if tx.kind == Redeem {
      var wit := OrElse(tx.wit, []);
      assert (forall item :: item in wit ==> |item| <= 520) <==> (forall i :: 0 <= i < |wit| ==> |wit[i]| <= 520);
    }
  }

  /** The signed bytes name kind, parties, values, nonce up to 32 bits, and script hash. */
  lemma SignedBytesDetermine(a: Tx, b: Tx)
    requires a.kind != Redeem && b.kind != Redeem && Encodable(a) && Encodable(b)
    requires (if a.kind == Lock then LockBytes(a) else TransferBytes(a)) ==
             (if b.kind == Lock then LockBytes(b) else TransferBytes(b))
    ensures a.kind == b.kind && a.from == b.from && a.amount == b.amount && a.fee == b.fee
    ensures a.nonce % U32 == b.nonce % U32
    ensures a.kind == Transfer ==> a.to == b.to
    ensures a.kind == Lock ==> a.scriptHash == b.scriptHash
  {
    hide BE;
    var x := if a.kind == Lock then LockBytes(a) else TransferBytes(a);
    var y := if b.kind == Lock then LockBytes(b) else TransferBytes(b);
    assert x[0] == (if a.kind == Lock then 'L' as int else 0xc0) by { FirstByte(a); }
    assert y[0] == (if b.kind == Lock then 'L' as int else 0xc0) by { FirstByte(b); }
    if a.kind == Transfer {
      TransferFields(a);
      TransferFields(b);
    } else {
      LockFields(a);
      LockFields(b);
    }
    FieldsDetermine(a.amount, b.amount);
    FieldsDetermine(a.fee, b.fee);
    NonceDetermines(a.nonce, b.nonce);
  }

  lemma FirstByte(tx: Tx)
    ensures LockBytes(tx)[0] == 'L' as int && TransferBytes(tx)[0] == 0xc0
  {
  }

  lemma TransferFields(tx: Tx)
    requires |tx.from| == 32 && |tx.to| == 32
    ensures var s := TransferBytes(tx);
            && |s| == 88 && s[4..36] == tx.from && s[36..68] == tx.to
            && s[68..76] == BE(tx.amount, 8) && s[76..84] == BE(tx.fee, 8) && s[84..88] == BE(tx.nonce, 4)
  {
    hide BE;
  }

  lemma LockFields(tx: Tx)
    requires |tx.from| == 32 && tx.scriptHash.Some? && |tx.scriptHash.value| == 32
    ensures var s := LockBytes(tx);
            && |s| == 92 && s[8..40] == tx.from && s[40..48] == BE(tx.amount, 8) && s[48..56] == BE(tx.fee, 8)
            && s[56..60] == BE(tx.nonce, 4) && s[60..92] == tx.scriptHash.value
  {
    hide BE;
  }

  lemma RedeemFields(tx: Tx)
    requires |tx.to| == 32 && tx.lockId.Some? && |tx.lockId.value| == 32
    ensures var s := RedeemBytes(tx);
            && |s| >= 88 && s[8..40] == tx.lockId.value && s[40..72] == tx.to && s[72..80] == BE(tx.amount, 8)
            && s[80..88] == BE(tx.fee, 8) && s[88..] == OrElse(tx.redeemScript, [])
  {
    hide BE;
  }

  lemma FieldsDetermine(m: nat, n: nat)
    requires m < U64 && n < U64
    ensures BE(m, 8) == BE(n, 8) ==> m == n
  {
    PowWidths();
    ReadOfBE(m, 8);
    ReadOfBE(n, 8);
  }

  lemma NonceDetermines(m: nat, n: nat)
    ensures BE(m, 4) == BE(n, 4) ==> m % U32 == n % U32
  {
    PowWidths();
    U32beWraps(m);
    U32beWraps(n);
    ReadOfBE(m % U32, 4);
    ReadOfBE(n % U32, 4);
  }

  /** The message a redeem's witness signs names the lock, the destination, both values and the script. */
  lemma RedeemMessageDetermines(a: Tx, b: Tx)
    requires a.kind == Redeem && b.kind == Redeem && Encodable(a) && Encodable(b)
    requires RedeemPreimage(a) == RedeemPreimage(b)
    ensures a.lockId == b.lockId && a.to == b.to && a.amount == b.amount && a.fee == b.fee
    ensures OrElse(a.redeemScript, []) == OrElse(b.redeemScript, [])
  {
    hide BE, RedeemPreimage, RedeemBytes;
    PreimagesAre(a);
    PreimagesAre(b);
    RedeemFields(a);
    RedeemFields(b);
    FieldsDetermine(a.amount, b.amount);
    FieldsDetermine(a.fee, b.fee);
  }

  // ------------------------------------------------------------------
  // Accepted blocks
  // ------------------------------------------------------------------

  /** A block is accepted with signatures checked only if every transaction in it is authorised. */
  lemma AcceptedAreAuthorised(c: Crypto, t: Tree, b: Block, now: nat, opts: AddOptions, i: nat)
    requires !opts.skipTxSig && Judge(c, t, b, now, opts).Accepted? && i < |b.transactions|
    ensures Authorised(c, b.transactions[i])
  {
    hide HeaderOk, HashHeader, ChildContext, BlockApplied, Root, ValidStructure, Authorised;
    StructureIsAuthority(c, b.transactions[i]);
  }

  /** And so is every transaction in a validated tree. */
  lemma StoredAreAuthorised(c: Crypto, t: Tree, h: Hash32, i: nat)
    requires Validated(c, t) && h in t.blocks && i < |t.blocks[h].block.transactions|
    ensures Authorised(c, t.blocks[h].block.transactions[i])
  {
    hide Shape, GenesisHash, Replay, MtpAfter, GoodDifficulty, ValidStructure, Authorised;
    assert BlockOk(c, t, h);
    StructureIsAuthority(c, t.blocks[h].block.transactions[i]);
    GenesisIsEmpty(c, t);
  }

  lemma GenesisIsEmpty(c: Crypto, t: Tree)
    requires Shape(c, t)
    ensures GenesisHash(c) in t.blocks && t.blocks[GenesisHash(c)].block.transactions == []
  {
    hide GenesisHash;
    assert NodeOk(c, t, GenesisHash(c));
  }

  // ------------------------------------------------------------------
  // No payment without a signature
  // ------------------------------------------------------------------

  /** What a branch's blocks leave in an account. */
  ghost function Holding(c: Crypto, t: Tree, h: Hash32, addr: Bytes): Acct
    requires Validated(c, t) && h in t.blocks
  {
    assert BlockOk(c, t, h);
    Get(Replay(c, BodiesTo(c, t, h)).value, addr)
  }

  lemma KeptHolding(c: Crypto, t: Tree, h: Hash32, addr: Bytes)
    requires Validated(c, t) && h in t.blocks && t.blocks[h].state.Some?
    ensures Get(t.blocks[h].state.value, addr) == Holding(c, t, h, addr)
  {
    hide Shape, GenesisHash, MtpAfter, GoodDifficulty, TxsValid, Get;
    assert BlockOk(c, t, h);
  }

  /** Money that only comes in. */
  lemma {:induction false} OnlyIncoming(c: Crypto, txs: seq<Tx>, addr: Bytes)
    requires forall i :: 0 <= i < |txs| ==> Authorised(c, txs[i]) && !Sends(txs[i], addr)
    ensures Net(txs, addr) >= 0 && FeeSum(txs) >= 0 && Sent(txs, addr) == 0
  {
    hide SignedBySender;
    if txs != [] {
      OnlyIncoming(c, txs[..|txs| - 1], addr);
    }
  }

  /** The holding after a block, from the one before it. */
  lemma HoldingStep(c: Crypto, t: Tree, h: Hash32, addr: Bytes)
    requires Validated(c, t) && h in t.blocks && h != GenesisHash(c)
    ensures HeaderAt(t, h).prevHash in t.blocks
    ensures var before, after := Holding(c, t, HeaderAt(t, h).prevHash, addr), Holding(c, t, h, addr);
            var b := t.blocks[h].block;
            && after.balance == before.balance + BlockGain(b.header.miner, b.transactions, b.header.height, addr)
            && after.nonce == before.nonce + Sent(b.transactions, addr)
  {
    hide Shape, GenesisHash, MtpAfter, GoodDifficulty, TxsValid, Get, Replay, BlockGain, Sent;
    ParentOf(c, t, h);
    var p := HeaderAt(t, h).prevHash;
    var bodies := BodiesTo(c, t, h);
    assert BlockOk(c, t, h) && BlockOk(c, t, p);
    assert bodies[..|bodies| - 1] == BodiesTo(c, t, p);
    BalanceIsHistory(c, bodies, addr);
    BalanceIsHistory(c, BodiesTo(c, t, p), addr);
  }

  lemma UnsignedBlockKeeps(c: Crypto, t: Tree, h: Hash32, addr: Bytes)
    requires Validated(c, t) && h in t.blocks && h != GenesisHash(c) && HeaderAt(t, h).prevHash in t.blocks
    requires forall i :: 0 <= i < |t.blocks[h].block.transactions| ==> !Sends(t.blocks[h].block.transactions[i], addr)
    ensures var before, after := Holding(c, t, HeaderAt(t, h).prevHash, addr), Holding(c, t, h, addr);
            before.balance <= after.balance && before.nonce == after.nonce
  {
    hide Validated, GenesisHash, Holding, Authorised, Sends, Net, Sent, FeeSum;
    var txs := t.blocks[h].block.transactions;
    forall i | 0 <= i < |txs| ensures Authorised(c, txs[i]) {
      StoredAreAuthorised(c, t, h, i);
    }
    OnlyIncoming(c, txs, addr);
    HoldingStep(c, t, h, addr);
  }

  /** Transaction `i` of a stored block is a transfer or lock that the owner of `addr` signed, field by field. */
  predicate SignedSpend(c: Crypto, t: Tree, x: Hash32, i: nat, addr: Bytes) {
    x in t.blocks && i < |t.blocks[x].block.transactions|
    && Sends(t.blocks[x].block.transactions[i], addr)
    && SignedBySender(c, t.blocks[x].block.transactions[i])
  }

  /**
   * Wherever an account holds less than at an ancestor, or has used a nonce
   * since, some block between the two carries a transfer or lock from it with
   * its valid signature over that transaction's fields.
   */
  lemma {:induction false} LossIsSigned(c: Crypto, t: Tree, a: Hash32, h: Hash32, addr: Bytes)
    requires Validated(c, t) && h in t.blocks && OnBranch(c, t, a, h) && a in t.blocks
    requires var before, after := Holding(c, t, a, addr), Holding(c, t, h, addr);
             after.balance < before.balance || after.nonce != before.nonce
    ensures exists x: Hash32, i: nat :: SignedSpend(c, t, x, i, addr) && OnBranch(c, t, x, h)
              && HeaderAt(t, x).height > HeaderAt(t, a).height
    decreases HeaderAt(t, h).height
  {
    hide Validated, GenesisHash, Holding, Shape, SignedBySender, Sends;
    ValidatedShape(c, t);
    ParentOf(c, t, h);
    PathParent(c, t, h, a);
    var txs := t.blocks[h].block.transactions;
    if i :| 0 <= i < |txs| && Sends(txs[i], addr) {
      StoredAreAuthorised(c, t, h, i);
      SenderSigned(c, txs[i], addr);
      assert SignedSpend(c, t, h, i, addr);
      assert OnBranch(c, t, h, h);
    } else {
      var p := HeaderAt(t, h).prevHash;
      assert a in Path(c, t, p);
      UnsignedBlockKeeps(c, t, h, addr);
      LossIsSigned(c, t, a, p, addr);
      var x: Hash32, i: nat :| SignedSpend(c, t, x, i, addr) && OnBranch(c, t, x, p)
                               && HeaderAt(t, x).height > HeaderAt(t, a).height;
      assert OnBranch(c, t, x, h);
    }
  }

  lemma SenderSigned(c: Crypto, tx: Tx, addr: Bytes)
    requires Authorised(c, tx) && Sends(tx, addr)
    ensures SignedBySender(c, tx)
  {
    hide SignedBySender;
  }

  /** So an account under whose key no signature verifies never pays and never uses a nonce, on any branch. */
  lemma UnsignedNeverSpends(c: Crypto, t: Tree, a: Hash32, h: Hash32, key: Bytes)
    requires Validated(c, t) && h in t.blocks && OnBranch(c, t, a, h) && a in t.blocks
    requires t.blocks[a].state.Some? && t.blocks[h].state.Some?
    requires forall sig, message :: !c.edVerify(sig, message, key)
    ensures var before, after := Get(t.blocks[a].state.value, key), Get(t.blocks[h].state.value, key);
            before.balance <= after.balance && before.nonce == after.nonce
  {
    hide Validated, GenesisHash, Holding, Shape, OnBranch, TransferBytes, LockBytes, Get;
    KeptHolding(c, t, a, key);
    KeptHolding(c, t, h, key);
    var before, after := Holding(c, t, a, key), Holding(c, t, h, key);
    if after.balance < before.balance || after.nonce != before.nonce {
      LossIsSigned(c, t, a, h, key);
    }
  }
}
