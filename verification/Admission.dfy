/**
 * What it takes for a block to be accepted, written out for a stored parent, and
 * what an accepted block built here pays and carries (src/chain/blockchain.ts
 * 243-367, src/minerd/template.ts, src/minerd/negotiatedClient.ts 114-209).
 */
module Admission {
  import opened Authority
  import opened Balances
  import opened Binary
  import opened BlockCodec
  import opened Compact
  import opened Consensus
  import opened Crypto
  import opened Genesis
  import opened Ledger
  import opened MedianTime
  import opened Merkle
  import opened StateRoot
  import opened Template
  import opened Transaction
  import opened Tree
  import opened TreeRuns

  // ------------------------------------------------------------------
  // The rule for a child of a stored block
  // ------------------------------------------------------------------

  /** The last eleven headers of a branch, or all of them. */
  ghost function LastHeaders(c: Crypto, t: Tree, p: Hash32): seq<Header>
    requires Shape(c, t) && p in t.blocks
  {
    var hs := HeadersTo(c, t, p);
    if |hs| <= 11 then hs else hs[|hs| - 11..]
  }

  /**
   * The time a child has to exceed is the median of its branch's last eleven:
   * one of them, with at most half of the others below it and more than half not above it.
   */
  lemma MedianOfBranch(c: Crypto, t: Tree, p: Hash32)
    requires Shape(c, t) && p in t.blocks
    ensures var times := Times(LastHeaders(c, t, p)); var m := MtpAfter(t, p);
            m in times && CountBelow(times, m) <= |times| / 2 < CountBelow(times, m + 1)
  {
    hide Shape, GenesisHash, Recent, Median, Times, CountBelow, HeadersTo;
    RecentIsTail(c, t, p, MTP_WINDOW);
    MedianRank(Times(LastHeaders(c, t, p)));
  }

  /** The checks on the header of a child of `p`, literally. */
  ghost predicate GoodHeader(c: Crypto, t: Tree, b: Block, now: nat)
    requires b.header.prevHash in t.blocks
  {
    var h, mtp := b.header, MtpAfter(t, b.header.prevHash);
    var target := CompactToTarget(h.difficulty);
    && h.height == HeaderAt(t, h.prevHash).height + 1
    && |EncodeBlock(b)| <= 262_144
    && ExpectedDifficulty(t, h.prevHash, h.timestamp) == Some(h.difficulty)
    && h.timestamp <= now + 600
    && (mtp > 0 ==> h.timestamp > mtp)
    && 0 < target < TWO256 && ReadBE(c.powHash(EncodeHeader(h))) < target
    && h.txRoot == MerkleRoot(c, seq(|b.transactions|, i requires 0 <= i < |b.transactions| =>
                                       EncodeTx(b.transactions[i])))
  }

  /** What the block's transactions must come to on the parent's ledger. */
  ghost predicate GoodState(c: Crypto, t: Tree, b: Block, l: Ledger)
    requires b.header.prevHash in t.blocks && t.blocks[b.header.prevHash].state.Some?
  {
    var h, mtp := b.header, MtpAfter(t, b.header.prevHash);
    && BlockApplied(c, t.blocks[h.prevHash].state.value, h.miner, b.transactions,
                    BlockContext(mtp >= 1_783_267_200, h.height, mtp)) == Some(l)
    && Root(c, l) == h.stateRoot
  }

  /**
   * Full validation accepts a block, with the ledger after it, exactly when it is
   * new, its parent is stored with its state, its header is good, every
   * transaction is authorised, and the transactions apply with the promised root.
   */
  lemma AcceptedExactly(c: Crypto, t: Tree, b: Block, now: nat, l: Ledger)
    ensures Judge(c, t, b, now, FULL) == Accepted(l) <==>
            && c.sha256(EncodeHeader(b.header)) !in t.blocks
            && b.header.prevHash in t.blocks && t.blocks[b.header.prevHash].state.Some?
            && GoodHeader(c, t, b, now)
            && (forall tx :: tx in b.transactions ==> Authorised(c, tx))
            && GoodState(c, t, b, l)
  {
    hide EncodeBlock, EncodeHeader, ExpectedDifficulty, MtpAfter, CompactToTarget, MerkleRoot, BlockApplied, Root,
      Authorised, ComputeTxRoot, TxsValid, HeaderOk, GoodHeader, JudgeTxs, GoodState;
    AllAuthorised(c, b.transactions);
    if b.header.prevHash in t.blocks {
      HeaderRule(c, t, b, now);
      if t.blocks[b.header.prevHash].state.Some? && GoodHeader(c, t, b, now) {
        StateRule(c, t, b, now, l);
      }
    }
  }

  lemma StateRule(c: Crypto, t: Tree, b: Block, now: nat, l: Ledger)
    requires b.header.prevHash in t.blocks && t.blocks[b.header.prevHash].state.Some? && GoodHeader(c, t, b, now)
    ensures var p := b.header.prevHash;
            JudgeTxs(c, t.blocks[p].state.value, b, ChildContext(t, p), FULL) == Accepted(l) <==>
            TxsValid(c, b.transactions) && GoodState(c, t, b, l)
  {
    hide EncodeBlock, EncodeHeader, ExpectedDifficulty, MtpAfter, CompactToTarget, MerkleRoot, BlockApplied, Root,
      TxsValid;
  }

  lemma AllAuthorised(c: Crypto, txs: seq<Tx>)
    ensures TxsValid(c, txs) <==> forall tx :: tx in txs ==> Authorised(c, tx)
  {
    hide ValidStructure, Authorised;
    forall i | 0 <= i < |txs| ensures ValidStructure(c, txs[i]) <==> Authorised(c, txs[i]) {
      StructureIsAuthority(c, txs[i]);
    }
    if forall tx :: tx in txs ==> Authorised(c, tx) {
      forall i | 0 <= i < |txs| ensures ValidStructure(c, txs[i]) {
        assert txs[i] in txs;
      }
    }
  }

  lemma HeaderRule(c: Crypto, t: Tree, b: Block, now: nat)
    requires b.header.prevHash in t.blocks
    ensures HeaderOk(c, t, b, now, FULL) <==> GoodHeader(c, t, b, now)
  {
    hide EncodeBlock, EncodeHeader, ExpectedDifficulty, MtpAfter, CompactToTarget, MerkleRoot, ComputeTxRoot, EncodeTx;
    TxRootIs(c, b.transactions, seq(|b.transactions|, i requires 0 <= i < |b.transactions| =>
                                      EncodeTx(b.transactions[i])));
  }

  // ------------------------------------------------------------------
  // Blocks built here
  // ------------------------------------------------------------------

  /**
   * Once mined and accepted, a built block is the tip above the old one, carries
   * exactly the transactions it was built with, and pays its reward and fees to
   * the address it was built for: every account's change is written out.
   */
  lemma BuiltBlockPays(c: Crypto, t: Tree, b: Block, miner: Hash32, txs: seq<Tx>, builtAt: nat, nonce: nat, now: nat,
      addr: Bytes)
    requires Ready(c, t) && BuiltOn(c, t, b, miner, txs, builtAt)
    requires TxsValid(c, txs) && |EncodeTxs(txs)| <= TX_BYTE_BUDGET
    requires TemplateTime(t, builtAt) <= now + MAX_FUTURE_TIME_S
    requires var h := b.header.(nonce := nonce); CheckPoW(c, h) && HashesApart(c, t, h)
    ensures t.tip in t.blocks && t.blocks[t.tip].state.Some?
    ensures var u := Added(c, t, Block(b.header.(nonce := nonce), txs), now, FULL, true);
            && u.tip in u.blocks && u.blocks[u.tip].state.Some?
            && u.blocks[u.tip].block.transactions == txs && HeaderAt(u, u.tip).prevHash == t.tip
            && HeaderAt(u, u.tip).miner == miner && HeaderAt(u, u.tip).timestamp >= builtAt
            && Get(u.blocks[u.tip].state.value, addr).balance ==
               Get(t.blocks[t.tip].state.value, addr).balance
               + BlockGain(miner, txs, HeaderAt(t, t.tip).height + 1, addr)
  {
    hide HashHeader, GenesisHash, BlockWork, Ready, BlockApplied, Root, ComputeTxRoot, CheckPoW, TxsValid, EncodeTxs,
      ExpectedDifficulty, MtpAfter, ScriptsActiveForMtp, EncodeHeader, BlockGain, TemplateTime, Judge, Get, HashesApart;
    var mined := Block(b.header.(nonce := nonce), txs);
    TipOfReady(c, t);
    BuiltBlockAccepted(c, t, b, miner, txs, builtAt, nonce, now);
    TimeAboveMedian(t, builtAt);
    var l := Judge(c, t, mined, now, FULL).state;
    AcceptedFacts(c, t, mined, now, FULL, l);
    BlockMoves(c, t.blocks[t.tip].state.value, miner, txs, ChildContext(t, t.tip), addr);
  }

  /** A pool whose announced transactions are valid, fit, and apply on the tip has them all in the block. */
  lemma AnnouncedCarried(c: Crypto, t: Tree, b: Block, pool: Hash32, txs: seq<Tx>, builtAt: nat)
    requires TipMaterialized(t) && TxsValid(c, txs) && (forall i :: 0 <= i < |txs| ==> WireForm(txs[i]) == txs[i])
    requires |txs| <= MAX_MEMPOOL_ENTRIES && |EncodeTxs(txs)| <= TX_BYTE_BUDGET
    requires BlockApplied(c, t.blocks[t.tip].state.value, pool, txs, ChildContext(t, t.tip)).Some?
    requires BuiltOn(c, t, b, pool, Included(c, t, pool, Taken(c, Announcement(txs), 0, 0, 0)), builtAt)
    ensures b.transactions == txs && b.header.miner == pool && b.header.prevHash == t.tip
  {
    hide BlockApplied, TxsValid, EncodeTxs, WireForm, Taken, ExpectedDifficulty, Root, ComputeTxRoot, ChildContext,
      TemplateTime;
    AnnouncedTaken(c, txs);
  }

  // ------------------------------------------------------------------
  // The other verdicts
  // ------------------------------------------------------------------

  /**
   * A stored block is known and changes nothing; one with a good header below a
   * block whose state is gone asks for a reset; everything else is refused.
   */
  lemma OtherVerdicts(c: Crypto, t: Tree, b: Block, now: nat)
    ensures Judge(c, t, b, now, FULL) == Known <==> c.sha256(EncodeHeader(b.header)) in t.blocks
    ensures Judge(c, t, b, now, FULL) == Unavailable <==>
            && c.sha256(EncodeHeader(b.header)) !in t.blocks
            && b.header.prevHash in t.blocks && GoodHeader(c, t, b, now) && t.blocks[b.header.prevHash].state.None?
    ensures t.tip in t.blocks && (Judge(c, t, b, now, FULL).Known? || Judge(c, t, b, now, FULL).Rejected?) ==>
              Added(c, t, b, now, FULL, true) == Added(c, t, b, now, FULL, false) == t
    ensures t.tip in t.blocks && Judge(c, t, b, now, FULL).Unavailable? ==>
              Added(c, t, b, now, FULL, false) == t && Added(c, t, b, now, FULL, true) == InitTree(c)
  {
    hide EncodeHeader, HeaderOk, GoodHeader, JudgeTxs, InitTree, ChildContext;
    if b.header.prevHash in t.blocks {
      HeaderRule(c, t, b, now);
    }
  }
}
