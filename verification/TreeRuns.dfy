/**
 * The operations on the block tree, and what each of them keeps: adding,
 * pruning, resetting and restoring (src/chain/blockchain.ts).
 */
module TreeRuns {
  import opened Binary
  import opened BlockCodec
  import opened Compact
  import opened Consensus
  import opened Crypto
  import opened Ledger
  import opened MedianTime
  import opened Snapshot
  import opened StateRoot
  import opened Tree

  // ------------------------------------------------------------------
  // Pruning
  // ------------------------------------------------------------------

  ghost predicate Buried(c: Crypto, t: Tree, minHeight: int, h: Hash32)
    requires Shape(c, t) && h in t.blocks
  {
    h in Path(c, t, t.tip) && h != t.tip && 0 < HeaderAt(t, h).height < minHeight
  }

  /** The walk down from the tip gets to a buried block only past buried blocks that all have their states. */
  ghost predicate Prunable(c: Crypto, t: Tree, minHeight: int, h: Hash32)
    requires Shape(c, t) && h in t.blocks
  {
    && Buried(c, t, minHeight, h)
    && forall x :: x in t.blocks && Buried(c, t, minHeight, x) && HeaderAt(t, h).height <= HeaderAt(t, x).height ==>
         t.blocks[x].state.Some?
  }

  /** Buried states go, from the top to the first that is already missing; genesis and the tip keep theirs. */
  ghost function Pruned(c: Crypto, t: Tree, minHeight: int): Tree
    requires Shape(c, t)
  {
    t.(blocks := map h | h in t.blocks ::
      if Prunable(c, t, minHeight, h) then t.blocks[h].(state := None) else t.blocks[h])
  }

  // ------------------------------------------------------------------
  // Invariants
  // ------------------------------------------------------------------

  predicate Full(opts: AddOptions) { !opts.skipTxSig && !opts.skipStateRoot }

  /** A block that passed full validation, whose kept ledger is the replay of its branch. */
  ghost predicate BlockOk(c: Crypto, t: Tree, h: Hash32)
    requires Shape(c, t) && h in t.blocks
  {
    var n := t.blocks[h];
    var replay := Replay(c, BodiesTo(c, t, h));
    && (h != GenesisHash(c) ==>
          && GoodDifficulty(n.block.header.difficulty)
          && TxsValid(c, n.block.transactions)
          && (var mtp := MtpAfter(t, n.block.header.prevHash); mtp > 0 ==> n.block.header.timestamp > mtp)
          && (replay.Some? ==> Root(c, replay.value) == n.block.header.stateRoot))
    && replay.Some?
    && (n.state.Some? ==> n.state == replay)
  }

  ghost predicate Validated(c: Crypto, t: Tree) {
    Shape(c, t) && forall h :: h in t.blocks ==> BlockOk(c, t, h)
  }

  /** No stored block carries more work than the tip. */
  ghost predicate TipHeaviest(t: Tree) {
    t.tip in t.blocks && forall h :: h in t.blocks ==> t.blocks[h].work <= t.blocks[t.tip].work
  }

  /** A block without its state has no ancestor with one, except genesis, which always has its own. */
  ghost predicate NullsClosed(c: Crypto, t: Tree) {
    && GenesisHash(c) in t.blocks && t.blocks[GenesisHash(c)].state.Some?
    && forall h :: h in t.blocks && t.blocks[h].state.None? ==>
         var p := HeaderAt(t, h).prevHash; p == GenesisHash(c) || (p in t.blocks && t.blocks[p].state.None?)
  }

  ghost predicate TipMaterialized(t: Tree) {
    t.tip in t.blocks && t.blocks[t.tip].state.Some?
  }

  /** Ready to be extended, whatever its blocks are worth: all that a restore from an unknown file can promise. */
  ghost predicate Ready(c: Crypto, t: Tree) {
    Shape(c, t) && TipHeaviest(t) && NullsClosed(c, t) && TipMaterialized(t)
  }

  ghost predicate Inv(c: Crypto, t: Tree) {
    Validated(c, t) && TipHeaviest(t) && NullsClosed(c, t) && TipMaterialized(t)
  }

  // ------------------------------------------------------------------
  // Each operation keeps them
  // ------------------------------------------------------------------

  lemma InitShape(c: Crypto)
    ensures Shape(c, InitTree(c))
  {
    hide BlockWork, GenesisHash;
    assert HashHeader(c, GENESIS_HEADER) == GenesisHash(c) by { GenesisHashIs(c); }
  }

  lemma GenesisHashIs(c: Crypto)
    ensures GenesisHash(c) == HashHeader(c, GENESIS_HEADER)
  {
    hide EncodeHeader;
  }

  lemma InitInv(c: Crypto)
    ensures Inv(c, InitTree(c))
  {
    InitShape(c);
    hide BlockWork, GenesisHash, GoodDifficulty, Shape;
    assert BodiesTo(c, InitTree(c), GenesisHash(c)) == [];
  }

  lemma NodeFrame(c: Crypto, t: Tree, u: Tree, h: Hash32)
    requires h in t.blocks && NodeOk(c, t, h) && Extends(t, u)
    ensures NodeOk(c, u, h)
  {
    hide BlockWork, GenesisHash, HashHeader;
    var n, m := t.blocks[h], u.blocks[h];
    assert m.block == n.block && m.(state := None) == n.(state := None);
    var p := n.block.header.prevHash;
    if h != GenesisHash(c) {
      assert u.blocks[p].(state := None) == t.blocks[p].(state := None);
      assert u.blocks[p].work == t.blocks[p].work && u.blocks[p].anchor == t.blocks[p].anchor;
      assert u.blocks[p].block == t.blocks[p].block;
    }
  }

  lemma InsertExtends(c: Crypto, t: Tree, b: Block, state: Option<Ledger>)
    requires HashHeader(c, b.header) !in t.blocks && b.header.prevHash in t.blocks && t.tip in t.blocks
    ensures Extends(t, Insert(c, t, b, state)) && Insert(c, t, b, state).tip in Insert(c, t, b, state).blocks
  {
    hide HashHeader, BlockWork;
  }

  lemma InsertShape(c: Crypto, t: Tree, b: Block, state: Option<Ledger>)
    requires Shape(c, t) && HashHeader(c, b.header) !in t.blocks && b.header.prevHash in t.blocks
    requires b.header.height == HeaderAt(t, b.header.prevHash).height + 1
    ensures Shape(c, Insert(c, t, b, state)) && Extends(t, Insert(c, t, b, state))
  {
    hide BlockWork, GenesisHash, HashHeader, NodeOk, Extends, Insert;
    GenesisKnown(c, t);
    var u, x := Insert(c, t, b, state), HashHeader(c, b.header);
    InsertExtends(c, t, b, state);
    InsertedNotGenesis(c, t, b, state);
    forall h | h in u.blocks ensures NodeOk(c, u, h) {
      InsertKeeps(c, t, b, state, h);
      if h == x {
        NewNodeOk(c, t, b, state);
      } else {
        NodeFrame(c, t, u, h);
      }
    }
    InsertKeeps(c, t, b, state, GenesisHash(c));
  }

  lemma NewNodeOk(c: Crypto, t: Tree, b: Block, state: Option<Ledger>)
    requires Shape(c, t) && HashHeader(c, b.header) !in t.blocks && b.header.prevHash in t.blocks
    requires b.header.height == HeaderAt(t, b.header.prevHash).height + 1
    ensures HashHeader(c, b.header) in Insert(c, t, b, state).blocks
    ensures NodeOk(c, Insert(c, t, b, state), HashHeader(c, b.header))
  {
    hide BlockWork, GenesisHash, HashHeader;
  }

  lemma InsertNulls(c: Crypto, t: Tree, b: Block, l: Ledger)
    requires Shape(c, t) && HashHeader(c, b.header) !in t.blocks && b.header.prevHash in t.blocks
    requires NullsClosed(c, t)
    ensures NullsClosed(c, Insert(c, t, b, Some(l)))
  {
    hide BlockWork, GenesisHash, HashHeader;
    var u, x := Insert(c, t, b, Some(l)), HashHeader(c, b.header);
    forall h | h in u.blocks && u.blocks[h].state.None?
      ensures var p := HeaderAt(u, h).prevHash; p == GenesisHash(c) || (p in u.blocks && u.blocks[p].state.None?)
    {
      assert h in t.blocks && t.blocks[h].state.None? && HeaderAt(u, h) == HeaderAt(t, h);
    }
  }

  lemma InsertTip(c: Crypto, t: Tree, b: Block, l: Ledger)
    requires TipHeaviest(t) && TipMaterialized(t)
    requires HashHeader(c, b.header) !in t.blocks && b.header.prevHash in t.blocks
    ensures TipHeaviest(Insert(c, t, b, Some(l))) && TipMaterialized(Insert(c, t, b, Some(l)))
  {
    hide BlockWork, HashHeader;
  }

  /** The branch of an inserted block is its parent's branch and then itself. */
  lemma InsertedBranch(c: Crypto, t: Tree, b: Block, state: Option<Ledger>)
    requires Shape(c, t) && HashHeader(c, b.header) !in t.blocks && b.header.prevHash in t.blocks
    requires b.header.height == HeaderAt(t, b.header.prevHash).height + 1
    requires Shape(c, Insert(c, t, b, state)) && Extends(t, Insert(c, t, b, state))
    ensures var u, p := Insert(c, t, b, state), b.header.prevHash;
            && MtpAfter(u, p) == MtpAfter(t, p)
            && BodiesTo(c, u, HashHeader(c, b.header)) == BodiesTo(c, t, p)
                 + [Body(b.header.miner, b.transactions, ScriptsActiveForMtp(MtpAfter(t, p)), MtpAfter(t, p))]
            && Path(c, u, HashHeader(c, b.header)) == Path(c, t, p) + [HashHeader(c, b.header)]
  {
    hide BlockWork, GenesisHash, HashHeader, MtpAfter, ScriptsActiveForMtp, Shape;
    GenesisKnown(c, t);
    var u, x, p := Insert(c, t, b, state), HashHeader(c, b.header), b.header.prevHash;
    assert HeaderAt(u, x) == b.header;
    MtpFrame(c, t, u, p);
    BranchFrame(c, t, u, p);
  }

  lemma GenesisKnown(c: Crypto, t: Tree)
    requires Shape(c, t)
    ensures GenesisHash(c) in t.blocks && t.tip in t.blocks
  {
  }

  lemma OldBlocksOk(c: Crypto, t: Tree, u: Tree, h: Hash32)
    requires Validated(c, t) && Shape(c, u) && Extends(t, u) && h in t.blocks
    requires u.blocks[h].state == t.blocks[h].state || u.blocks[h].state == None
    ensures BlockOk(c, u, h)
  {
    hide Shape, GenesisHash, MtpAfter, GoodDifficulty, TxsValid, Replay, Root;
    assert BlockOk(c, t, h);
    BranchFrame(c, t, u, h);
    ParentOf(c, t, h);
    if h != GenesisHash(c) {
      MtpFrame(c, t, u, HeaderAt(t, h).prevHash);
    }
    assert u.blocks[h].(state := None) == t.blocks[h].(state := None);
    assert u.blocks[h].block == t.blocks[h].block;
  }

  lemma ReplayExtend(c: Crypto, bodies: seq<Body>, body: Body, l: Ledger)
    requires Replay(c, bodies) == Some(l)
    ensures Replay(c, bodies + [body]) ==
      BlockApplied(c, l, body.miner, body.txs, BlockContext(body.scriptsActive, |bodies| + 1, body.mtp))
  {
    hide BlockApplied;
    assert (bodies + [body])[..|bodies|] == bodies;
  }

  /** What an accepted block has been checked for. */
  lemma AcceptedFacts(c: Crypto, t: Tree, b: Block, now: nat, opts: AddOptions, l: Ledger)
    requires Full(opts) && Judge(c, t, b, now, opts) == Accepted(l)
    ensures HashHeader(c, b.header) !in t.blocks && b.header.prevHash in t.blocks
    ensures var p := b.header.prevHash;
            && b.header.height == HeaderAt(t, p).height + 1
            && ExpectedDifficulty(t, p, b.header.timestamp) == Some(b.header.difficulty)
            && (MtpAfter(t, p) > 0 ==> b.header.timestamp > MtpAfter(t, p))
            && TxsValid(c, b.transactions)
            && t.blocks[p].state.Some? && Root(c, l) == b.header.stateRoot
            && BlockApplied(c, t.blocks[p].state.value, b.header.miner, b.transactions, ChildContext(t, p)) == Some(l)
  {
    hide HashHeader, EncodeBlock, ExpectedDifficulty, CheckPoW, ComputeTxRoot, MtpAfter, BlockApplied, TxsValid,
      ChildContext, Root;
  }

  lemma ParentFacts(c: Crypto, t: Tree, p: Hash32)
    requires Validated(c, t) && p in t.blocks
    ensures t.blocks[p].state.Some? ==> Replay(c, BodiesTo(c, t, p)) == t.blocks[p].state
    ensures CompactToTarget(HeaderAt(t, p).difficulty) >= 1
  {
    hide Shape, GenesisHash, MtpAfter, GoodDifficulty, TxsValid, CompactToTarget;
    assert BlockOk(c, t, p);
    ParentDifficultyGood(c, t, p);
  }

  lemma NewBlockOk(c: Crypto, t: Tree, b: Block, now: nat, opts: AddOptions, l: Ledger)
    requires Validated(c, t) && Full(opts) && Judge(c, t, b, now, opts) == Accepted(l) && t.tip in t.blocks
    requires b.header.prevHash in t.blocks
    requires Shape(c, Insert(c, t, b, Some(l))) && Extends(t, Insert(c, t, b, Some(l)))
    ensures BlockOk(c, Insert(c, t, b, Some(l)), HashHeader(c, b.header))
  {
    hide Shape, GenesisHash, MtpAfter, HashHeader, BlockWork, GoodDifficulty, ScriptsActiveForMtp, Judge, TxsValid,
      ExpectedDifficulty, BlockApplied, Extends, BlockOk, Replay, Insert, BodiesTo, CompactToTarget, Root;
    assert Shape(c, t) by { ValidatedShape(c, t); }
    AcceptedFacts(c, t, b, now, opts, l);
    var p, mtp := b.header.prevHash, MtpAfter(t, b.header.prevHash);
    InsertedBranch(c, t, b, Some(l));
    ParentFacts(c, t, p);
    RequiredGood(c, t, p, b.header.timestamp);
    ReplayExtend(c, BodiesTo(c, t, p), Body(b.header.miner, b.transactions, ScriptsActiveForMtp(mtp), mtp),
                 t.blocks[p].state.value);
    InsertedNotGenesis(c, t, b, Some(l));
    IntroBlockOk(c, Insert(c, t, b, Some(l)), HashHeader(c, b.header), l);
  }

  lemma ValidatedShape(c: Crypto, t: Tree)
    requires Validated(c, t)
    ensures Shape(c, t)
  {
  }

  lemma InsertedNotGenesis(c: Crypto, t: Tree, b: Block, state: Option<Ledger>)
    requires Shape(c, t) && HashHeader(c, b.header) !in t.blocks && b.header.prevHash in t.blocks
    ensures HashHeader(c, b.header) != GenesisHash(c)
    ensures HashHeader(c, b.header) in Insert(c, t, b, state).blocks
    ensures Insert(c, t, b, state).blocks[HashHeader(c, b.header)] == ChildNode(t.blocks[b.header.prevHash], b, state)
  {
    hide GenesisHash, HashHeader, BlockWork;
  }

  lemma IntroBlockOk(c: Crypto, t: Tree, h: Hash32, l: Ledger)
    requires Shape(c, t) && h in t.blocks && h != GenesisHash(c)
    requires GoodDifficulty(HeaderAt(t, h).difficulty) && TxsValid(c, t.blocks[h].block.transactions)
    requires var mtp := MtpAfter(t, HeaderAt(t, h).prevHash); mtp > 0 ==> HeaderAt(t, h).timestamp > mtp
    requires Replay(c, BodiesTo(c, t, h)) == Some(l) && t.blocks[h].state == Some(l)
    requires Root(c, l) == HeaderAt(t, h).stateRoot
    ensures BlockOk(c, t, h)
  {
  }

  lemma ParentDifficultyGood(c: Crypto, t: Tree, h: Hash32)
    requires Shape(c, t) && h in t.blocks && BlockOk(c, t, h)
    ensures CompactToTarget(HeaderAt(t, h).difficulty) >= 1
  {
    hide CompactToTarget, GenesisHash, TargetToCompact, BlockWork;
    if h == GenesisHash(c) {
      assert NodeOk(c, t, h);
      GenesisDifficultyGood();
    }
  }

  lemma RequiredGood(c: Crypto, t: Tree, p: Hash32, time: nat)
    requires p in t.blocks && CompactToTarget(HeaderAt(t, p).difficulty) >= 1
    requires ExpectedDifficulty(t, p, time).Some?
    ensures GoodDifficulty(ExpectedDifficulty(t, p, time).value)
  {
    hide GoodDifficulty, NextDifficulty, CompactToTarget;
    RequiredDifficultyGood(HeaderAt(t, p).height + 1, Recent(t, p, RETARGET_LOOKBACK), Some(time), t.blocks[p].anchor);
  }

  lemma AddedInv(c: Crypto, t: Tree, b: Block, now: nat, opts: AddOptions, listenersReset: bool)
    requires Inv(c, t) && Full(opts)
    ensures Inv(c, Added(c, t, b, now, opts, listenersReset))
  {
    hide EncodeBlock, Shape, BlockOk, NullsClosed, TipHeaviest, TipMaterialized, GenesisHash, HashHeader, Insert,
      HeaderOk, JudgeTxs, InitTree;
    var v := Judge(c, t, b, now, opts);
    GenesisKnown(c, t);
    if v.Accepted? {
      var u := Insert(c, t, b, Some(v.state));
      AcceptedFacts(c, t, b, now, opts, v.state);
      InsertShape(c, t, b, Some(v.state));
      InsertNulls(c, t, b, v.state);
      InsertTip(c, t, b, v.state);
      NewBlockOk(c, t, b, now, opts, v.state);
      forall h | h in u.blocks ensures BlockOk(c, u, h) {
        if h != HashHeader(c, b.header) {
          InsertKeeps(c, t, b, Some(v.state), h);
          OldBlocksOk(c, t, u, h);
        }
      }
    } else {
      InitInv(c);
    }
  }

  lemma InsertKeeps(c: Crypto, t: Tree, b: Block, state: Option<Ledger>, h: Hash32)
    requires b.header.prevHash in t.blocks && t.tip in t.blocks
    ensures h != HashHeader(c, b.header) ==> (h in Insert(c, t, b, state).blocks <==> h in t.blocks)
    ensures h != HashHeader(c, b.header) && h in t.blocks ==> Insert(c, t, b, state).blocks[h] == t.blocks[h]
  {
    hide HashHeader, BlockWork;
  }

  lemma PrunedExtends(c: Crypto, t: Tree, minHeight: int)
    requires Shape(c, t)
    ensures Shape(c, Pruned(c, t, minHeight)) && Extends(t, Pruned(c, t, minHeight))
  {
    hide BlockWork, GenesisHash, HashHeader, Path, NodeOk, Prunable;
    var u := Pruned(c, t, minHeight);
    forall h | h in u.blocks ensures NodeOk(c, u, h) {
      NodeFrame(c, t, u, h);
    }
  }

  lemma PrunedInv(c: Crypto, t: Tree, minHeight: int)
    requires Inv(c, t)
    ensures Inv(c, Pruned(c, t, minHeight))
  {
    hide Shape, BlockOk, NullsClosed, GenesisHash, Buried, Extends, TipHeaviest, TipMaterialized;
    var u := Pruned(c, t, minHeight);
    PrunedExtends(c, t, minHeight);
    PrunedNulls(c, t, minHeight);
    forall h | h in u.blocks ensures BlockOk(c, u, h) {
      OldBlocksOk(c, t, u, h);
    }
    PrunedTip(c, t, minHeight);
  }

  lemma PrunedTip(c: Crypto, t: Tree, minHeight: int)
    requires Shape(c, t) && TipHeaviest(t) && TipMaterialized(t)
    ensures TipHeaviest(Pruned(c, t, minHeight)) && TipMaterialized(Pruned(c, t, minHeight))
  {
    hide Shape, GenesisHash, Buried;
    TipNotBuried(c, t, minHeight);
  }

  lemma TipNotBuried(c: Crypto, t: Tree, minHeight: int)
    requires Shape(c, t)
    ensures t.tip in t.blocks && !Buried(c, t, minHeight, t.tip)
  {
  }

  /** A parent of a block on the tip's branch is on it too. */
  lemma {:induction false} PathParent(c: Crypto, t: Tree, x: Hash32, h: Hash32)
    requires Shape(c, t) && x in t.blocks && h in Path(c, t, x)
    ensures h in t.blocks && HeaderAt(t, h).height <= HeaderAt(t, x).height
    ensures h != GenesisHash(c) ==> HeaderAt(t, h).prevHash in Path(c, t, x)
    ensures h == x || HeaderAt(t, h).height < HeaderAt(t, x).height
    decreases HeaderAt(t, x).height
  {
    hide Shape, GenesisHash;
    ParentOf(c, t, x);
    if x != GenesisHash(c) {
      var p := HeaderAt(t, x).prevHash;
      if h == x {
        assert Path(c, t, p)[|Path(c, t, p)| - 1] == p;
      } else {
        PathParent(c, t, p, h);
      }
    }
  }

  /** A branch has one block at each height. */
  lemma {:induction false} OnePerHeight(c: Crypto, t: Tree, x: Hash32, h: Hash32, k: Hash32)
    requires Shape(c, t) && x in t.blocks && h in Path(c, t, x) && k in Path(c, t, x)
    requires h in t.blocks && k in t.blocks && HeaderAt(t, h).height == HeaderAt(t, k).height
    ensures h == k
    decreases HeaderAt(t, x).height
  {
    hide Shape, GenesisHash;
    ParentOf(c, t, x);
    PathParent(c, t, x, h);
    PathParent(c, t, x, k);
    if h != x && k != x {
      OnePerHeight(c, t, HeaderAt(t, x).prevHash, h, k);
    }
  }

  /** Pruning stops nowhere in the middle: what it leaves without a state has only such ancestors. */
  lemma PrunedNulls(c: Crypto, t: Tree, minHeight: int)
    requires Shape(c, t) && NullsClosed(c, t)
    ensures NullsClosed(c, Pruned(c, t, minHeight))
  {
    hide Shape, GenesisHash, Path;
    var u := Pruned(c, t, minHeight);
    GenesisKnown(c, t);
    ParentOf(c, t, GenesisHash(c));
    forall h | h in u.blocks && u.blocks[h].state.None?
      ensures var p := HeaderAt(u, h).prevHash; p == GenesisHash(c) || (p in u.blocks && u.blocks[p].state.None?)
    {
      var p := HeaderAt(t, h).prevHash;
      assert HeaderAt(u, h) == HeaderAt(t, h);
      ParentOf(c, t, h);
      if Prunable(c, t, minHeight, h) && p != GenesisHash(c) && t.blocks[p].state.Some? {
        PathParent(c, t, t.tip, h);
        PathParent(c, t, t.tip, p);
        ParentOf(c, t, p);
        forall x | x in t.blocks && Buried(c, t, minHeight, x) && HeaderAt(t, p).height <= HeaderAt(t, x).height
          ensures t.blocks[x].state.Some?
        {
          if HeaderAt(t, x).height == HeaderAt(t, p).height {
            OnePerHeight(c, t, t.tip, x, p);
          }
        }
        assert Prunable(c, t, minHeight, p);
      }
    }
  }

  lemma ReadyOfInv(c: Crypto, t: Tree)
    requires Inv(c, t)
    ensures Ready(c, t)
  {
    hide Shape, TipHeaviest, NullsClosed, TipMaterialized;
    ValidatedShape(c, t);
  }

  lemma AddedReady(c: Crypto, t: Tree, b: Block, now: nat, opts: AddOptions, listenersReset: bool)
    requires Ready(c, t)
    ensures Ready(c, Added(c, t, b, now, opts, listenersReset))
  {
    hide EncodeBlock, Shape, NullsClosed, TipHeaviest, TipMaterialized, GenesisHash, HashHeader, Insert, JudgeTxs,
      InitTree, Validated, ExpectedDifficulty, CheckPoW, ComputeTxRoot, MtpAfter;
    var v := Judge(c, t, b, now, opts);
    GenesisKnown(c, t);
    InitInv(c);
    ReadyOfInv(c, InitTree(c));
    if v.Accepted? {
      InsertShape(c, t, b, Some(v.state));
      InsertNulls(c, t, b, v.state);
      InsertTip(c, t, b, v.state);
    }
  }

  lemma PrunedReady(c: Crypto, t: Tree, minHeight: int)
    requires Ready(c, t)
    ensures Ready(c, Pruned(c, t, minHeight))
  {
    hide Shape, NullsClosed, TipHeaviest, TipMaterialized, Pruned;
    PrunedExtends(c, t, minHeight);
    PrunedNulls(c, t, minHeight);
    PrunedTip(c, t, minHeight);
  }

  // ------------------------------------------------------------------
  // Seeding
  // ------------------------------------------------------------------

  lemma SeededShape(c: Crypto, t: Tree, tip: Hash32)
    requires Shape(c, t) && tip in t.blocks
    ensures Shape(c, t.(tip := tip))
  {
    hide NodeOk;
    forall h | h in t.blocks ensures NodeOk(c, t.(tip := tip), h) {
      assert NodeOk(c, t, h);
      SameNode(c, t, tip, h);
    }
  }

  lemma SameNode(c: Crypto, t: Tree, tip: Hash32, h: Hash32)
    requires h in t.blocks && NodeOk(c, t, h)
    ensures NodeOk(c, t.(tip := tip), h)
  {
    hide GenesisHash, HashHeader, BlockWork;
  }

  lemma SeededShapes(c: Crypto, t: Tree, b: Block, state: Option<Ledger>)
    requires Shape(c, t) && t.tip in t.blocks && Seeded(c, t, b, state).Some?
    ensures Shape(c, Seeded(c, t, b, state).value)
  {
    hide HashHeader, GenesisHash, Shape, Insert;
    var h := HashHeader(c, b.header);
    if h !in t.blocks {
      InsertShape(c, t, b, state);
      InsertedNotGenesis(c, t, b, state);
      SeededShape(c, Insert(c, t, b, state), h);
    }
  }

  lemma {:induction false} SeedAllShape(c: Crypto, t: Tree, blocks: seq<Block>, state: Option<Ledger>)
    requires Shape(c, t) && t.tip in t.blocks && SeedAll(c, t, blocks, state).Some?
    ensures Shape(c, SeedAll(c, t, blocks, state).value)
    decreases |blocks|
  {
    hide HashHeader, GenesisHash, Shape, Seeded;
    if blocks != [] {
      SeedAllShape(c, t, blocks[..|blocks| - 1], None);
      SeededShapes(c, SeedAll(c, t, blocks[..|blocks| - 1], None).value, blocks[|blocks| - 1], state);
    }
  }

  lemma RestoredShape(c: Crypto, t: Tree, disk: Disk)
    requires Shape(c, t) && t.tip in t.blocks
    ensures Shape(c, Restored(c, t, disk).1)
  {
    hide HashHeader, GenesisHash, Shape, SeedAll, InitTree, Readable;
    InitShape(c);
    if disk.Parsed? && Readable(c, disk.file).Some? {
      var parts := Readable(c, disk.file).value;
      if SeedAll(c, t, parts.blocks, Some(parts.ledger)).Some? {
        SeedAllShape(c, t, parts.blocks, Some(parts.ledger));
      }
    }
  }

  // ------------------------------------------------------------------
  // Operations and runs
  // ------------------------------------------------------------------

  datatype Op =
    | Add(block: Block, now: nat, opts: AddOptions, listenersReset: bool)
    | Prune(minHeight: int)
    | Reset
    | Restore(disk: Disk)

  ghost function Do(c: Crypto, t: Tree, op: Op): (u: Tree)
    requires Shape(c, t)
    ensures Shape(c, u)
  {
    GenesisKnown(c, t);
    InitShape(c);
    match op
    case Add(b, now, opts, r) => AddedShape(c, t, b, now, opts, r); Added(c, t, b, now, opts, r)
    case Prune(minHeight) => PrunedExtends(c, t, minHeight); Pruned(c, t, minHeight)
    case Reset => InitTree(c)
    case Restore(disk) => RestoredShape(c, t, disk); Restored(c, t, disk).1
  }

  lemma AddedShape(c: Crypto, t: Tree, b: Block, now: nat, opts: AddOptions, listenersReset: bool)
    requires Shape(c, t) && t.tip in t.blocks
    ensures Shape(c, Added(c, t, b, now, opts, listenersReset))
  {
    hide Shape, GenesisHash, HashHeader, Insert, JudgeTxs, InitTree, EncodeBlock, ExpectedDifficulty, CheckPoW,
      ComputeTxRoot, MtpAfter;
    InitShape(c);
    var v := Judge(c, t, b, now, opts);
    if v.Accepted? {
      InsertShape(c, t, b, Some(v.state));
    }
  }

  /** The tree after a sequence of operations. */
  ghost function RunFrom(c: Crypto, t: Tree, ops: seq<Op>): (u: Tree)
    requires Shape(c, t)
    ensures Shape(c, u)
  {
    if ops == [] then t else Do(c, RunFrom(c, t, ops[..|ops| - 1]), ops[|ops| - 1])
  }

  /** The tree after a sequence of operations on a new chain. */
  ghost function Run(c: Crypto, ops: seq<Op>): (t: Tree)
    ensures Shape(c, t)
  {
    InitShape(c);
    RunFrom(c, InitTree(c), ops)
  }

  /** Every block is fully validated, its proof of work here or in a worker beforehand, as in all of the miner. */
  predicate FullyValidating(ops: seq<Op>) {
    forall i :: 0 <= i < |ops| && ops[i].Add? ==> Full(ops[i].opts)
  }
}
