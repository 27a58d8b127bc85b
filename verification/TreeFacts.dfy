/**
 * Consequences of the block tree's invariants: work, fork choice, the third
 * fork's anchor, money, branch isolation, spends that stay valid, and which
 * states pruning keeps (src/chain/blockchain.ts, src/minerd/sync.ts).
 */
module TreeFacts {
  import opened Binary
  import opened BlockCodec
  import opened Compact
  import opened Consensus
  import opened Crypto
  import opened Genesis
  import opened Ledger
  import opened LockLife
  import opened MedianTime
  import opened Transaction
  import opened Tree
  import opened TreeRuns

  // ------------------------------------------------------------------
  // Work and fork choice
  // ------------------------------------------------------------------

  function TotalWork(hs: seq<Header>): nat {
    if hs == [] then 0 else TotalWork(hs[..|hs| - 1]) + BlockWork(hs[|hs| - 1].difficulty)
  }

  /** A block's cumulative work is the sum over its branch. */
  lemma {:induction false} WorkIsSum(c: Crypto, t: Tree, h: Hash32)
    requires Shape(c, t) && h in t.blocks
    ensures t.blocks[h].work == TotalWork(HeadersTo(c, t, h))
    decreases HeaderAt(t, h).height
  {
    hide Shape, BlockWork, GenesisHash;
    ParentOf(c, t, h);
    WorkStep(c, t, h);
    var hs := HeadersTo(c, t, h);
    if h == GenesisHash(c) {
      assert hs[..|hs| - 1] == [];
    } else {
      WorkIsSum(c, t, HeaderAt(t, h).prevHash);
      assert hs[..|hs| - 1] == HeadersTo(c, t, HeaderAt(t, h).prevHash);
    }
  }

  lemma WorkStep(c: Crypto, t: Tree, h: Hash32)
    requires Shape(c, t) && h in t.blocks
    ensures h == GenesisHash(c) ==> t.blocks[h].work == BlockWork(HeaderAt(t, h).difficulty)
    ensures h != GenesisHash(c) ==>
      && HeaderAt(t, h).prevHash in t.blocks
      && t.blocks[h].work == t.blocks[HeaderAt(t, h).prevHash].work + BlockWork(HeaderAt(t, h).difficulty)
  {
    hide BlockWork, GenesisHash;
    assert NodeOk(c, t, h);
  }

  /** A validated block always outweighs its parent. */
  lemma ChildOutweighs(c: Crypto, t: Tree, h: Hash32)
    requires Validated(c, t) && h in t.blocks && h != GenesisHash(c)
    ensures HeaderAt(t, h).prevHash in t.blocks && t.blocks[h].work > t.blocks[HeaderAt(t, h).prevHash].work
  {
    hide Shape, BlockWork, GenesisHash, Replay, GoodDifficulty, MtpAfter;
    WorkStep(c, t, h);
    assert BlockOk(c, t, h);
    GoodDifficultyHasWork(HeaderAt(t, h).difficulty);
  }

  /**
   * Adding a block either leaves the tip where it is or moves it to a block with
   * strictly more work; it changes no block already stored, so no branch's
   * ledger. Only the reset that listeners may ask for starts over.
   */
  lemma AddOnlyImproves(c: Crypto, t: Tree, b: Block, now: nat, opts: AddOptions, listenersReset: bool)
    requires Inv(c, t) && t.tip in t.blocks
    ensures var u := Added(c, t, b, now, opts, listenersReset);
            || (Judge(c, t, b, now, opts).Unavailable? && listenersReset && u == InitTree(c))
            || (&& (forall h :: h in t.blocks ==> h in u.blocks && u.blocks[h] == t.blocks[h])
                && u.tip in u.blocks
                && (u.tip == t.tip || u.blocks[u.tip].work > t.blocks[t.tip].work))
  {
    hide Shape, GenesisHash, HashHeader, JudgeTxs, EncodeBlock, ExpectedDifficulty, CheckPoW, ComputeTxRoot, MtpAfter,
      BlockWork, Validated, NullsClosed, InitTree;
  }

  // ------------------------------------------------------------------
  // The third fork's anchor
  // ------------------------------------------------------------------

  /** Every block carries its own ancestor at height 35,550, and nothing below that height. */
  lemma {:induction false} AnchorIsAncestor(c: Crypto, t: Tree, h: Hash32)
    requires Shape(c, t) && h in t.blocks
    ensures t.blocks[h].anchor ==
      if HeaderAt(t, h).height >= SANDGLASS2_ANCHOR_HEIGHT then Some(HeadersTo(c, t, h)[SANDGLASS2_ANCHOR_HEIGHT])
        else None
    decreases HeaderAt(t, h).height
  {
    hide Shape, GenesisHash;
    ParentOf(c, t, h);
    AnchorStep(c, t, h);
    if h != GenesisHash(c) {
      AnchorIsAncestor(c, t, HeaderAt(t, h).prevHash);
    }
  }

  lemma AnchorStep(c: Crypto, t: Tree, h: Hash32)
    requires Shape(c, t) && h in t.blocks
    ensures h == GenesisHash(c) ==> t.blocks[h].anchor == None
    ensures h != GenesisHash(c) ==>
      && HeaderAt(t, h).prevHash in t.blocks
      && t.blocks[h].anchor == InheritAnchor(t.blocks[HeaderAt(t, h).prevHash], HeaderAt(t, h))
  {
    hide BlockWork, GenesisHash;
    assert NodeOk(c, t, h);
  }

  lemma {:induction false} HeadersHeights(c: Crypto, t: Tree, h: Hash32, i: nat)
    requires Shape(c, t) && h in t.blocks && i <= HeaderAt(t, h).height
    ensures HeadersTo(c, t, h)[i].height == i
    decreases HeaderAt(t, h).height
  {
    hide Shape, GenesisHash;
    ParentOf(c, t, h);
    if i < HeaderAt(t, h).height {
      HeadersHeights(c, t, HeaderAt(t, h).prevHash, i);
    }
  }

  /** So the difficulty rule never lacks its anchor: its error is unreachable on every parent in every tree. */
  lemma DifficultyNeverFails(c: Crypto, t: Tree, parent: Hash32, time: nat)
    requires Shape(c, t) && parent in t.blocks
    ensures ExpectedDifficulty(t, parent, time).Some?
  {
    hide Shape, NextDifficulty, Recent;
    AnchorIsAncestor(c, t, parent);
    if HeaderAt(t, parent).height >= SANDGLASS2_ANCHOR_HEIGHT {
      HeadersHeights(c, t, parent, SANDGLASS2_ANCHOR_HEIGHT);
    }
    OnlyAnchorCanBeMissing(HeaderAt(t, parent).height + 1, Recent(t, parent, RETARGET_LOOKBACK), Some(time),
                           t.blocks[parent].anchor);
  }

  /**
   * The first block above the third fork's anchor must carry the anchor's own
   * difficulty, on every branch, unless the emergency rule fires.
   */
  lemma FirstAboveAnchor(c: Crypto, t: Tree, p: Hash32, time: nat)
    requires Shape(c, t) && p in t.blocks && HeaderAt(t, p).height == SANDGLASS2_ANCHOR_HEIGHT
    requires GoodDifficulty(HeaderAt(t, p).difficulty)
    requires !EmergencyDrop(Recent(t, p, RETARGET_LOOKBACK), Some(time))
    ensures ExpectedDifficulty(t, p, time) == Some(HeaderAt(t, p).difficulty)
  {
    hide Shape, NextDifficulty, Recent, GoodDifficulty, EmergencyDrop, BlockWork;
    AnchorIsAncestor(c, t, p);
    AnchorCarriesOver(Recent(t, p, RETARGET_LOOKBACK), Some(time));
  }

  // ------------------------------------------------------------------
  // Money
  // ------------------------------------------------------------------

  lemma {:induction false} BranchPriced(c: Crypto, t: Tree, h: Hash32)
    requires Validated(c, t) && h in t.blocks
    ensures BodiesPriced(BodiesTo(c, t, h))
    decreases HeaderAt(t, h).height
  {
    hide Shape, GenesisHash, Replay, MtpAfter, GoodDifficulty;
    ParentOf(c, t, h);
    assert BlockOk(c, t, h);
    if h != GenesisHash(c) {
      BranchPriced(c, t, HeaderAt(t, h).prevHash);
      ValidTxsPriced(c, t.blocks[h].block.transactions);
    }
  }

  lemma ValidTxsPriced(c: Crypto, txs: seq<Tx>)
    requires TxsValid(c, txs)
    ensures AllPriced(txs)
  {
    forall i | 0 <= i < |txs| ensures Priced(txs[i]) {
      assert ValidStructure(c, txs[i]);
    }
  }

  /** Every kept ledger holds exactly the money of the schedule up to its height, none of it negative. */
  lemma SupplyInEveryState(c: Crypto, t: Tree, h: Hash32)
    requires Validated(c, t) && h in t.blocks && t.blocks[h].state.Some?
    ensures var l := t.blocks[h].state.value;
            && NonNegative(l) && Total(l) == Supply(HeaderAt(t, h).height) < MAX_MONEY
            && (forall k :: k in l.accounts ==> l.accounts[k].balance < U64)
            && (forall k :: k in l.locks ==> l.locks[k].amount < U64)
  {
    hide Shape, GenesisHash, MtpAfter, Total, NonNegative, BodiesPriced;
    assert BlockOk(c, t, h);
    BranchPriced(c, t, h);
    SupplyExact(c, BodiesTo(c, t, h));
    AmountsBounded(t.blocks[h].state.value, MAX_MONEY);
    assert MAX_MONEY < U64;
  }

  // ------------------------------------------------------------------
  // Locks and spends on a branch
  // ------------------------------------------------------------------

  /** `a` lies on the branch of `h`. */
  ghost predicate OnBranch(c: Crypto, t: Tree, a: Hash32, h: Hash32)
    requires Shape(c, t) && h in t.blocks
  {
    a in Path(c, t, h)
  }

  lemma {:induction false} AncestorPrefix(c: Crypto, t: Tree, a: Hash32, h: Hash32)
    requires Shape(c, t) && h in t.blocks && OnBranch(c, t, a, h)
    ensures a in t.blocks && HeaderAt(t, a).height <= HeaderAt(t, h).height
    ensures BodiesTo(c, t, h)[..HeaderAt(t, a).height] == BodiesTo(c, t, a)
    decreases HeaderAt(t, h).height
  {
    hide Shape, GenesisHash, MtpAfter, ScriptsActiveForMtp;
    ParentOf(c, t, h);
    PathParent(c, t, h, a);
    if a != h {
      var p := HeaderAt(t, h).prevHash;
      assert a in Path(c, t, p);
      AncestorPrefix(c, t, a, p);
    }
  }

  /** Median-time-past never falls from an ancestor to a descendant. */
  lemma {:induction false} MtpRisesAlongBranch(c: Crypto, t: Tree, a: Hash32, h: Hash32)
    requires Validated(c, t) && h in t.blocks && OnBranch(c, t, a, h)
    ensures a in t.blocks && MtpAfter(t, a) <= MtpAfter(t, h)
    decreases HeaderAt(t, h).height
  {
    hide Shape, GenesisHash, MtpAfter, GoodDifficulty, Replay;
    ParentOf(c, t, h);
    PathParent(c, t, h, a);
    if a != h {
      var p := HeaderAt(t, h).prevHash;
      assert a in Path(c, t, p);
      MtpRisesAlongBranch(c, t, a, p);
      assert BlockOk(c, t, h);
      MtpStep(c, t, h);
    }
  }

  lemma MtpStep(c: Crypto, t: Tree, h: Hash32)
    requires Shape(c, t) && h in t.blocks && h != GenesisHash(c) && HeaderAt(t, h).prevHash in t.blocks
    requires var m := MtpAfter(t, HeaderAt(t, h).prevHash); m > 0 ==> HeaderAt(t, h).timestamp > m
    ensures MtpAfter(t, HeaderAt(t, h).prevHash) <= MtpAfter(t, h)
  {
    hide Shape, GenesisHash, Recent, Median;
    var p := HeaderAt(t, h).prevHash;
    var hs := HeadersTo(c, t, p);
    RecentIsTail(c, t, p, MTP_WINDOW);
    RecentIsTail(c, t, h, MTP_WINDOW);
    assert HeadersTo(c, t, h) == hs + [HeaderAt(t, h)];
    TailMedian(hs);
    TailMedian(hs + [HeaderAt(t, h)]);
    MedianTimePastNeverFalls(hs, HeaderAt(t, h));
  }

  lemma TailMedian(hs: seq<Header>)
    ensures MedianTimePast(Tail(hs, MTP_WINDOW)) == MedianTimePast(hs)
  {
    hide Median;
    if |hs| > MTP_WINDOW {
      assert Window(Tail(hs, MTP_WINDOW)) == Window(hs);
    }
  }

  /** The branch's transactions are fewer than a 32-bit nonce counts, and its lock encodings do not collide. */
  ghost predicate LocksDistinct(c: Crypto, t: Tree, h: Hash32)
    requires Shape(c, t) && h in t.blocks
  {
    var txs := AllTxs(BodiesTo(c, t, h));
    |txs| <= U32 && CollisionFree(c, LockEncodings(txs))
  }

  lemma {:induction false} BranchEncodable(c: Crypto, t: Tree, h: Hash32)
    requires Validated(c, t) && h in t.blocks
    ensures LocksEncodable(AllTxs(BodiesTo(c, t, h)))
    decreases HeaderAt(t, h).height
  {
    hide Shape, GenesisHash, Replay, MtpAfter, GoodDifficulty, Encodable;
    ParentOf(c, t, h);
    assert BlockOk(c, t, h);
    if h != GenesisHash(c) {
      BranchEncodable(c, t, HeaderAt(t, h).prevHash);
      var bodies := BodiesTo(c, t, h);
      assert bodies[..|bodies| - 1] == BodiesTo(c, t, HeaderAt(t, h).prevHash);
      ValidTxsEncodable(c, t.blocks[h].block.transactions);
    }
  }

  lemma ValidTxsEncodable(c: Crypto, txs: seq<Tx>)
    requires TxsValid(c, txs)
    ensures LocksEncodable(txs)
  {
    hide Encodable;
    forall i | 0 <= i < |txs| && txs[i].kind == Lock ensures Encodable(txs[i]) {
      StructureIsEncodable(c, txs[i]);
    }
  }

  /** On every branch: no lock id created or spent twice, and the live locks are the created and unspent ones. */
  lemma BranchLocksSingleUse(c: Crypto, t: Tree, h: Hash32)
    requires Validated(c, t) && h in t.blocks && t.blocks[h].state.Some? && LocksDistinct(c, t, h)
    ensures History(c, t.blocks[h].state.value, AllTxs(BodiesTo(c, t, h)))
  {
    hide Shape, GenesisHash, MtpAfter, History, LocksEncodable, CollisionFree;
    assert BlockOk(c, t, h);
    BranchEncodable(c, t, h);
    LocksSingleUse(c, BodiesTo(c, t, h));
  }

  /**
   * A redeem that a child of `a` may carry may be carried by a child of any
   * descendant `d` of `a` while its lock is live there, as long as that child
   * has not itself created the lock.
   */
  lemma RedeemStaysAcceptable(c: Crypto, t: Tree, a: Hash32, d: Hash32, tx: Tx, created: set<Bytes>)
    requires Validated(c, t) && d in t.blocks && OnBranch(c, t, a, d) && a in t.blocks
    requires t.blocks[a].state.Some? && t.blocks[d].state.Some? && LocksDistinct(c, t, d)
    requires tx.kind == Redeem
    requires Applied(c, Progress(t.blocks[a].state.value, {}), tx, ChildContext(t, a)).Some?
    requires SpentId(tx) in t.blocks[d].state.value.locks && SpentId(tx) !in created
    ensures Applied(c, Progress(t.blocks[d].state.value, created), tx, ChildContext(t, d)).Some?
  {
    hide Shape, GenesisHash, MtpAfter, Applied, LocksEncodable, CollisionFree;
    assert BlockOk(c, t, a) && BlockOk(c, t, d);
    BranchEncodable(c, t, d);
    AncestorPrefix(c, t, a, d);
    MtpRisesAlongBranch(c, t, a, d);
    SpendStaysValid(c, BodiesTo(c, t, d), HeaderAt(t, a).height, tx, created, ChildContext(t, a), ChildContext(t, d));
  }
}
