/**
 * The in-memory chain object: stored blocks with their state objects, the tip,
 * and the operations that change them (class Blockchain in src/chain/blockchain.ts).
 * Every method is proved against the tree of Tree.dfy.
 */
module Blockchain {
  import opened Binary
  import opened BlockCodec
  import opened Compact
  import opened Consensus
  import opened Crypto
  import opened Genesis
  import opened Ledger
  import opened MedianTime
  import opened Reorg
  import opened State
  import opened StateRoot
  import opened Transaction
  import opened Tree
  import opened TreeRuns

  datatype ChainBlock = ChainBlock(block: Block, hash: Hash32, work: nat, state: Option<State>, anchor: Option<Header>)

  /** The objects a stored block's state consists of. */
  ghost function Footprint(cb: ChainBlock): set<object>
    reads if cb.state.Some? then {cb.state.value} else {}
  {
    if cb.state.Some? then cb.state.value.Repr() else {}
  }

  ghost function NodeView(cb: ChainBlock): Node
    reads if cb.state.Some? then {cb.state.value} else {}, Footprint(cb)
  {
    Node(cb.block, cb.work, if cb.state.Some? then Some(cb.state.value.View()) else None, cb.anchor)
  }

  /** A stored block stands for a node of the tree, and its state belongs to the chain but is not the chain. */
  ghost predicate Kept(cb: ChainBlock, h: Hash32, n: Node, repr: set<object>, chain: object)
    reads if cb.state.Some? then {cb.state.value} else {}, Footprint(cb)
  {
    && cb.hash == h && NodeView(cb) == n
    && Footprint(cb) <= repr && chain !in Footprint(cb)
    && (cb.state.Some? ==> cb.state.value in repr && cb.state.value.Valid())
  }

  lemma KeptIn(cb: ChainBlock, h: Hash32, n: Node, repr: set<object>, larger: set<object>, chain: object)
    requires Kept(cb, h, n, repr, chain) && repr <= larger
    ensures Kept(cb, h, n, larger, chain)
    ensures chain !in Footprint(cb) && Footprint(cb) <= repr
    ensures cb.state.Some? ==> cb.state.value in Footprint(cb)
  {
  }

  method GenesisEntry(c: Crypto) returns (cb: ChainBlock)
    ensures cb.hash == GenesisHash(c) && NodeView(cb) == GenesisNode()
    ensures cb.state.Some? && cb.state.value.Valid() && fresh(cb.state.value.Repr())
  {
    hide BlockWork, HashHeader, GenesisHash;
    GenesisHashIs(c);
    var s := new State.Empty();
    cb := ChainBlock(GENESIS, HashHeader(c, GENESIS_HEADER), BlockWork(GENESIS_DIFFICULTY_COMPACT), Some(s), None);
  }

  /** What tip listeners receive: transactions that joined and left the canonical chain, and the blocks that did. */
  datatype ReorgDelta = ReorgDelta(
    confirmed: seq<Tx>, restored: seq<Tx>, connected: seq<ChainBlock>, disconnected: seq<ChainBlock>)

  class Blockchain {
    const c: Crypto
    var blocks: map<Hash32, ChainBlock>
    var tipHash: Hash32
    /** This object and everything the stored states consist of. */
    ghost var Repr: set<object>
    /** What all this represents. */
    ghost var tree: Tree

    ghost predicate Owns()
      reads this, Repr
    {
      this in Repr && forall h :: h in blocks && blocks[h].state.Some? ==>
        blocks[h].state.value in Repr && blocks[h].state.value.Repr() <= Repr
    }

    ghost predicate Valid()
      reads this, Repr
    {
      && Owns()
      && blocks.Keys == tree.blocks.Keys && tipHash == tree.tip
      && (forall h :: h in blocks ==> Kept(blocks[h], h, tree.blocks[h], Repr, this))
      && Shape(c, tree)
    }

    constructor (c: Crypto)
      ensures Valid() && fresh(Repr) && this.c == c && tree == InitTree(c)
    {
      hide BlockWork, HashHeader, GenesisHash, Shape;
      this.c := c;
      var genesis := GenesisEntry(c);
      blocks := map[genesis.hash := genesis];
      tipHash := genesis.hash;
      Repr := {this} + Footprint(genesis);
      tree := InitTree(c);
      new;
      InitShape(c);
    }

    method Reset()
      modifies this
      ensures Valid() && fresh(Repr - {this}) && tree == InitTree(c)
    {
      hide BlockWork, HashHeader, GenesisHash, Shape;
      var genesis := GenesisEntry(c);
      blocks := map[genesis.hash := genesis];
      tipHash := genesis.hash;
      Repr := {this} + Footprint(genesis);
      tree := InitTree(c);
      InitShape(c);
    }

    lemma StoredAt(h: Hash32)
      requires Valid()
      ensures h in tree.blocks <==> h in blocks
      ensures h in blocks ==>
        var n, cb := tree.blocks[h], blocks[h];
        n.block == cb.block && n.work == cb.work && n.anchor == cb.anchor && (n.state.Some? <==> cb.state.Some?)
    {
    }

    lemma StateAt(h: Hash32)
      requires Valid()
      ensures h in blocks && blocks[h].state.Some? ==>
        h in tree.blocks && tree.blocks[h].state == Some(blocks[h].state.value.View()) && blocks[h].state.value.Valid()
    {
    }

    /** Walks back from `from`, newest first, and reverses. */
    method GetRecentHeaders(n: nat, from: Hash32) returns (r: seq<Header>)
      requires Valid()
      ensures r == Recent(tree, from, n)
    {
      hide Shape, Valid;
      var out: seq<Header> := [];
      var cursor := from;
      assert Recent(tree, from, n) + [] == Recent(tree, from, n);
      while |out| < n
        invariant |out| <= n
        invariant Recent(tree, from, n) == Recent(tree, cursor, n - |out|) + out
        decreases n - |out|
      {
        StoredAt(cursor);
        if cursor !in blocks {
          return out;
        }
        var h := blocks[cursor].block.header;
        ghost var before := Recent(tree, h.prevHash, n - |out| - 1);
        assert (before + [h]) + out == before + ([h] + out);
        out := [h] + out;
        if h.height == 0 {
          return out;
        }
        cursor := h.prevHash;
      }
      r := out;
    }

    method ExpectedNextDifficulty(candidateTime: nat, parent: Hash32) returns (d: Option<int>)
      requires Valid() && parent in blocks
      ensures parent in tree.blocks && d == ExpectedDifficulty(tree, parent, candidateTime)
    {
      hide Shape, Valid, NextDifficulty, Recent;
      StoredAt(parent);
      var lookback := GetRecentHeaders(RETARGET_LOOKBACK, parent);
      d := NextDifficulty(blocks[parent].block.header.height + 1, lookback, Some(candidateTime), blocks[parent].anchor);
    }

    method MedianTimeAfter(parent: Hash32) returns (mtp: nat)
      requires Valid()
      ensures mtp == MtpAfter(tree, parent)
    {
      hide Shape, Valid, MedianTimePast;
      var window := GetRecentHeaders(MTP_WINDOW, parent);
      mtp := MedianTimePastLoop(window);
    }

    /** `nextBlockScriptContext` */
    method NextBlockContext(parent: Hash32) returns (bc: BlockContext)
      requires Valid() && parent in blocks
      ensures parent in tree.blocks && bc == ChildContext(tree, parent)
    {
      hide Shape, Valid, MtpAfter;
      StoredAt(parent);
      var mtp := MedianTimeAfter(parent);
      bc := BlockContext(ScriptsActiveForMtp(mtp), blocks[parent].block.header.height + 1, mtp);
    }

    /** The checks up to the transaction root, in their order. */
    method CheckHeader(b: Block, now: nat, opts: AddOptions) returns (ok: bool)
      requires Valid() && b.header.prevHash in blocks
      ensures b.header.prevHash in tree.blocks && (ok <==> HeaderOk(c, tree, b, now, opts))
    {
      hide Shape, Valid, EncodeBlock, ExpectedDifficulty, CheckPoW, ComputeTxRoot, MtpAfter;
      var h := b.header;
      StoredAt(h.prevHash);
      if h.height != blocks[h.prevHash].block.header.height + 1 {
        return false;
      }
      var size := BlockSize(b);
      if size > MAX_BLOCK_BYTES {
        return false;
      }
      var expected := ExpectedNextDifficulty(h.timestamp, h.prevHash);
      if expected != Some(h.difficulty) {
        return false;
      }
      if h.timestamp > now + MAX_FUTURE_TIME_S {
        return false;
      }
      var mtp := MedianTimeAfter(h.prevHash);
      if mtp > 0 && h.timestamp <= mtp {
        return false;
      }
      if !opts.skipPoW && !CheckPoW(c, h) {
        return false;
      }
      ok := ComputeTxRoot(c, b.transactions) == h.txRoot;
    }

    method CheckTxs(txs: seq<Tx>) returns (ok: bool)
      ensures ok <==> TxsValid(c, txs)
    {
      hide ValidStructure;
      for i := 0 to |txs|
        invariant forall k :: 0 <= k < i ==> ValidStructure(c, txs[k])
      {
        if !ValidStructure(c, txs[i]) {
          return false;
        }
      }
      ok := true;
    }

    /** Runs the block's transactions on a copy of its parent's state. */
    method ApplyToCopy(parent: State, b: Block, bc: BlockContext, opts: AddOptions) returns (s: Option<State>)
      requires parent.Valid()
      ensures s.Some? <==> JudgeTxs(c, old(parent.View()), b, bc, opts).Accepted?
      ensures s.Some? ==> s.value.Valid() && fresh(s.value.Repr())
                          && JudgeTxs(c, old(parent.View()), b, bc, opts) == Verdict.Accepted(s.value.View())
    {
      hide BlockApplied, Root, TxsValid;
      ghost var l := parent.View();
      var copy := parent.Clone();
      assert copy.View() == l;
      if !opts.skipTxSig {
        var valid := CheckTxs(b.transactions);
        if !valid {
          return None;
        }
      }
      var applied := copy.ApplyBlockTxs(c, b.header.miner, b.transactions, bc);
      if !applied {
        return None;
      }
      if !opts.skipStateRoot {
        var root := copy.ComputeRoot(c);
        if root != b.header.stateRoot {
          return None;
        }
      }
      s := Some(copy);
    }

    /** The assignments that add one entry and perhaps move the tip. */
    method Put(hash: Hash32, cb: ChainBlock, makeTip: bool, ghost n: Node, ghost grown: Tree)
      requires Valid() && hash !in blocks && Kept(cb, hash, n, Repr + Footprint(cb), this)
      requires grown == Tree(tree.blocks[hash := n], if makeTip then hash else tree.tip) && Shape(c, grown)
      modifies this
      ensures Valid() && Repr == old(Repr) + Footprint(cb) && tree == grown
    {
      hide Shape, Kept, Footprint;
      ghost var repr := Repr;
      ghost var larger := Repr + Footprint(cb);
      forall h | h in blocks ensures Kept(blocks[h], h, tree.blocks[h], larger, this) {
        KeptIn(blocks[h], h, tree.blocks[h], repr, larger, this);
      }
      KeptFootprints(blocks[hash := cb], tree.blocks[hash := n], larger);
      blocks := blocks[hash := cb];
      Repr := larger;
      tree := grown;
      if makeTip {
        tipHash := hash;
      }
    }

    lemma KeptFootprints(m: map<Hash32, ChainBlock>, nodes: map<Hash32, Node>, repr: set<object>)
      requires m.Keys == nodes.Keys && forall h :: h in m ==> Kept(m[h], h, nodes[h], repr, this)
      ensures forall h :: h in m ==> this !in Footprint(m[h]) && Footprint(m[h]) <= repr
      ensures forall h :: h in m && m[h].state.Some? ==> m[h].state.value in repr && m[h].state.value.Repr() <= repr
    {
    }

    /** Stores a block below its parent and moves the tip if it is now the heaviest. */
    method Store(b: Block, state: Option<State>)
      requires Valid() && b.header.prevHash in blocks && HashHeader(c, b.header) !in blocks
      requires b.header.height == blocks[b.header.prevHash].block.header.height + 1
      requires state.Some? ==> state.value.Valid()
      modifies this
      ensures Valid() && Repr == old(Repr) + (if state.Some? then state.value.Repr() else {})
      ensures b.header.prevHash in old(tree).blocks && old(tree).tip in old(tree).blocks
      ensures tree == Insert(c, old(tree), b, if state.Some? then Some(old(state.value.View())) else None)
    {
      hide BlockWork, HashHeader, Shape;
      ghost var l := if state.Some? then Some(state.value.View()) else None;
      StoredAt(b.header.prevHash);
      StoredAt(tipHash);
      GenesisKnown(c, tree);
      InsertShape(c, tree, b, l);
      var hash := HashHeader(c, b.header);
      var parent := blocks[b.header.prevHash];
      var work := parent.work + BlockWork(b.header.difficulty);
      var anchor := if b.header.height == SANDGLASS2_ANCHOR_HEIGHT then Some(b.header) else parent.anchor;
      var cb := ChainBlock(b, hash, work, state, anchor);
      ghost var n := ChildNode(tree.blocks[b.header.prevHash], b, l);
      NewKept(cb, hash, n);
      Put(hash, cb, work > blocks[tipHash].work, n, Insert(c, tree, b, l));
    }

    lemma NewKept(cb: ChainBlock, hash: Hash32, n: Node)
      requires cb.hash == hash && NodeView(cb) == n && (cb.state.Some? ==> cb.state.value.Valid())
      ensures Kept(cb, hash, n, Repr + Footprint(cb), this)
    {
    }

    /** What judging comes to once the header checks are passed. */
    ghost function Outcome(t: Tree, b: Block, opts: AddOptions, listenersReset: bool): Tree
      requires b.header.prevHash in t.blocks && t.tip in t.blocks
    {
      var parent := t.blocks[b.header.prevHash];
      if parent.state.None? then (if listenersReset then InitTree(c) else t)
      else
        var v := JudgeTxs(c, parent.state.value, b, ChildContext(t, b.header.prevHash), opts);
        if v.Accepted? then Insert(c, t, b, Some(v.state)) else t
    }

    /** The part of adding a block that needs its parent's state. */
    method AddOnParent(b: Block, opts: AddOptions, listenersReset: bool) returns (ok: bool)
      requires Valid() && b.header.prevHash in blocks && HashHeader(c, b.header) !in blocks
      requires b.header.height == blocks[b.header.prevHash].block.header.height + 1
      modifies this
      ensures Valid() && fresh(Repr - old(Repr))
      ensures b.header.prevHash in old(tree).blocks && old(tree).tip in old(tree).blocks
      ensures ok ==> old(tree).tip in tree.blocks
      ensures var parent := old(tree).blocks[b.header.prevHash];
              ok <==> parent.state.Some?
                      && JudgeTxs(c, parent.state.value, b, ChildContext(old(tree), b.header.prevHash), opts).Accepted?
      ensures tree == Outcome(old(tree), b, opts, listenersReset)
    {
      hide BlockWork, HashHeader, Shape, JudgeTxs, ChildContext, Insert, InitTree, Kept, Footprint, NodeView;
      var p := b.header.prevHash;
      StoredAt(p);
      StoredAt(tipHash);
      GenesisKnown(c, tree);
      var parent := blocks[p];
      if parent.state.None? {
        if listenersReset {
          Reset();
        }
        return false;
      }
      var bc := NextBlockContext(p);
      StateAt(p);
      var newState := ApplyToCopy(parent.state.value, b, bc, opts);
      if newState.None? {
        return false;
      }
      ghost var t, l := tree, newState.value.View();
      InsertKeeps(c, t, b, Some(l), t.tip);
      Store(b, newState);
      ok := true;
    }

    /** What the tip listeners are told when the tip has moved from `oldTip`. */
    method Announce(oldTip: Hash32) returns (announced: Option<ReorgDelta>)
      requires Valid() && oldTip in tree.blocks
      ensures announced.Some? <==> tree.tip != oldTip
      ensures announced.Some? ==> Announces(announced.value, oldTip)
    {
      hide BlockWork, HashHeader, Shape, Kept, Footprint, NodeView, ExactDelta;
      GenesisKnown(c, tree);
      StoredAt(oldTip);
      StoredAt(tipHash);
      if tipHash == oldTip {
        return None;
      }
      var restored, confirmed, connected, disconnected := DeltaBetween(oldTip, tipHash);
      announced := Some(ReorgDelta(confirmed, restored, connected, disconnected));
    }

    /**
     * `addBlockInternal`. Nothing but this object changes: no state stored
     * before the call is touched. When the parent's state is not kept, the
     * listeners run, and they may reset the chain. When the tip moves to the new
     * block, `announced` is what the tip listeners are told.
     */
    method AddBlock(b: Block, now: nat, opts: AddOptions, listenersReset: bool)
      returns (ok: bool, announced: Option<ReorgDelta>)
      requires Valid()
      modifies this
      ensures Valid() && fresh(Repr - old(Repr)) && old(tree).tip in old(tree).blocks
      ensures announced.Some? <==> Judge(c, old(tree), b, now, opts).Accepted? && tree.tip != old(tree).tip
      ensures announced.Some? ==> Announces(announced.value, old(tree).tip)
      ensures ok <==> Judge(c, old(tree), b, now, opts).Known? || Judge(c, old(tree), b, now, opts).Accepted?
      ensures tree == Added(c, old(tree), b, now, opts, listenersReset)
    {
      hide BlockWork, HashHeader, Shape, HeaderOk, JudgeTxs, ChildContext, Insert, InitTree, Kept, Footprint,
        NodeView, Announces;
      GenesisKnown(c, tree);
      StoredAt(HashHeader(c, b.header));
      if HashHeader(c, b.header) in blocks {
        return true, None;
      }
      StoredAt(b.header.prevHash);
      if b.header.prevHash !in blocks {
        return false, None;
      }
      var headerOk := CheckHeader(b, now, opts);
      if !headerOk {
        return false, None;
      }
      HeaderOkHeight(c, tree, b, now, opts);
      var oldTip := tipHash;
      ok := AddOnParent(b, opts, listenersReset);
      announced := None;
      if ok {
        announced := Announce(oldTip);
      }
    }

    // ----------------------------------------------------------------
    // Seeding, pruning, looking back
    // ----------------------------------------------------------------

    /** `seedHistoricalBlock` */
    method SeedHistoricalBlock(b: Block, state: Option<State>) returns (ok: bool)
      requires Valid() && (state.Some? ==> state.value.Valid())
      modifies this
      ensures Valid() && Repr <= old(Repr) + (if state.Some? then state.value.Repr() else {})
      ensures old(tree).tip in old(tree).blocks
      ensures var l := if state.Some? then Some(old(state.value.View())) else None;
              var r := Seeded(c, old(tree), b, l);
              ok == r.Some? && tree == if ok then r.value else old(tree)
    {
      hide BlockWork, HashHeader, Shape, Insert, Kept, Footprint, NodeView;
      GenesisKnown(c, tree);
      StoredAt(HashHeader(c, b.header));
      var hash := HashHeader(c, b.header);
      if hash in blocks {
        return true;
      }
      StoredAt(b.header.prevHash);
      if b.header.prevHash !in blocks || b.header.height != blocks[b.header.prevHash].block.header.height + 1 {
        return false;
      }
      ghost var t := tree;
      ghost var l := if state.Some? then Some(state.value.View()) else None;
      InsertShape(c, t, b, l);
      InsertedNotGenesis(c, t, b, l);
      Store(b, state);
      if state.Some? {
        StoredAt(hash);
        MoveTip(hash);
      }
      ok := true;
    }

    method MoveTip(hash: Hash32)
      requires Valid() && hash in blocks
      modifies this
      ensures Valid() && Repr == old(Repr) && tree == old(tree).(tip := hash)
    {
      hide Shape, Kept, Footprint;
      KeptFootprints(blocks, tree.blocks, Repr);
      SeededShape(c, tree, hash);
      tipHash := hash;
      tree := tree.(tip := hash);
    }

    /** `entry.state = null` */
    method DropState(h: Hash32)
      requires Valid() && h in blocks
      modifies this
      ensures Valid() && Repr == old(Repr) && h in old(tree).blocks
      ensures tree == Dropped(old(tree), {h}) && tipHash == old(tipHash)
    {
      hide Shape, Kept, Footprint, Dropped;
      ghost var cb, n := blocks[h].(state := None), tree.blocks[h].(state := None);
      StoredAt(h);
      DroppedShape(c, tree, {h});
      DroppedOne(tree, h);
      WithoutState(blocks[h], h, tree.blocks[h]);
      KeptFootprints(blocks[h := cb], tree.blocks[h := n], Repr);
      tree := Dropped(tree, {h});
      blocks := blocks[h := blocks[h].(state := None)];
    }

    lemma WithoutState(cb: ChainBlock, h: Hash32, n: Node)
      requires Kept(cb, h, n, Repr, this)
      ensures Kept(cb.(state := None), h, n.(state := None), Repr, this)
    {
    }

    /**
     * Walks the tip's branch down, dropping states below `minHeight`, and stops
     * at the first one already dropped.
     */
    method PruneStateBelow(minHeight: int)
      requires Valid()
      modifies this
      ensures Valid() && Repr == old(Repr) && tree == Pruned(c, old(tree), minHeight)
    {
      hide BlockWork, HashHeader, Shape, Kept, Footprint, NodeView, GenesisHash, Path, Buried, Dropped, Pruned,
        PruneWalked, Owns;
      GenesisKnown(c, tree);
      ghost var t, p := tree, Path(c, tree, tree.tip);
      if minHeight <= 1 {
        NothingBuried(c, t, minHeight);
        return;
      }
      var cursor := tipHash;
      ghost var i: nat := |p| - 1;
      ghost var s: set<Hash32> := {};
      DroppedNone(t);
      WalkStarts(c, t, minHeight);
      while true
        invariant Valid() && Repr == old(Repr) && tree == Dropped(t, s) && tipHash == t.tip
        invariant i < |p| && cursor == p[i] && PruneWalked(c, t, s, minHeight, i)
        decreases i
      {
        PathAt(c, t, t.tip, i);
        StoredAt(cursor);
        WalkNew(c, t, s, minHeight, i);
        DroppedAt(t, s, cursor);
        var entry := blocks[cursor];
        var h := entry.block.header.height;
        BuriedIff(c, t, minHeight, i);
        if i > 0 {
          WalkStep(c, t, s, minHeight, i);
        }
        if cursor != tipHash && h > 0 && h < minHeight {
          if entry.state.None? {
            PruneDone(c, t, s, minHeight, i);
            return;
          }
          DropState(cursor);
          DroppedMore(t, s, cursor);
          s := s + {cursor};
        }
        if h == 0 {
          PruneDone(c, t, s, minHeight, 0);
          return;
        }
        PathPrev(c, t, t.tip, i);
        cursor := entry.block.header.prevHash;
        i := i - 1;
      }
    }

    /** The canonical block at a finalized height and its state, if the chain has them. */
    method SnapshotAt(finalizedHeight: int) returns (r: Option<(Hash32, nat, State)>)
      requires Valid()
      ensures r.Some? <==> SnapshotHash(c, tree, finalizedHeight).Some?
      ensures r.Some? ==> Some(r.value.0) == SnapshotHash(c, tree, finalizedHeight) && r.value.1 == finalizedHeight
      ensures r.Some? ==> r.value.0 in blocks && blocks[r.value.0].state == Some(r.value.2)
    {
      hide BlockWork, HashHeader, Shape, Kept, Footprint, NodeView, GenesisHash, Path;
      GenesisKnown(c, tree);
      if finalizedHeight <= 0 {
        return None;
      }
      ghost var p := Path(c, tree, tree.tip);
      ghost var i: nat := |p| - 1;
      var cursor := tipHash;
      while true
        invariant i < |p| && cursor == p[i]
        invariant finalizedHeight <= i || finalizedHeight >= |p|
        decreases i
      {
        PathAt(c, tree, tree.tip, i);
        StoredAt(cursor);
        var entry := blocks[cursor];
        var h := entry.block.header.height;
        if h == finalizedHeight {
          r := if entry.state.None? then None else Some((cursor, h, entry.state.value));
          return;
        }
        if h <= finalizedHeight {
          return None;
        }
        PathPrev(c, tree, tree.tip, i);
        cursor := entry.block.header.prevHash;
        i := i - 1;
      }
    }

    /** The delta is exactly the two paths down to where the old tip's branch and the tip's part. */
    ghost predicate Announces(d: ReorgDelta, oldTip: Hash32)
      requires Valid()
      reads this, Repr
    {
      && oldTip in tree.blocks && tree.tip in tree.blocks
      && Delta(Hashes(d.disconnected), Hashes(d.connected)) == ExactDelta(c, tree, oldTip, tree.tip)
      && d.restored == TxsIn(d.disconnected) && d.confirmed == TxsIn(d.connected)
    }

    /** `reorgDelta`: walks both tips back to their common ancestor. */
    method DeltaBetween(oldTip: Hash32, newTip: Hash32)
      returns (restored: seq<Tx>, confirmed: seq<Tx>, connected: seq<ChainBlock>, disconnected: seq<ChainBlock>)
      requires Valid() && oldTip in blocks && newTip in blocks
      ensures oldTip in tree.blocks && newTip in tree.blocks
      ensures Hashes(disconnected) == ExactDelta(c, tree, oldTip, newTip).disconnected
      ensures Hashes(connected) == ExactDelta(c, tree, oldTip, newTip).connected
      ensures Entries(disconnected) && Entries(connected)
      ensures restored == TxsIn(disconnected) && confirmed == TxsIn(connected)
    {
      hide Shape, Kept, Footprint, NodeView, Path, Hashes, TxsIn, Walked, ExactDelta;
      StoredAt(oldTip);
      StoredAt(newTip);
      ghost var p, q := Path(c, tree, oldTip), Path(c, tree, newTip);
      StartWalk(oldTip);
      StartWalk(newTip);
      var a, b := oldTip, newTip;
      ghost var i: nat, j: nat := |p| - 1, |q| - 1;
      a, disconnected, i := WalkDown(oldTip, i, a, [], blocks[b].block.header.height);
      b, connected, j := WalkDown(newTip, j, b, [], HeightOf(oldTip, i, a, disconnected));
      while a != b
        invariant Walked(oldTip, i, a, disconnected) && Walked(newTip, j, b, connected)
        invariant i == j && (i >= |p| - 1 || j >= |q| - 1 || p[i + 1] != q[j + 1])
        decreases i
      {
        StillApart(oldTip, newTip, i, a, b, disconnected, connected);
        a, disconnected, i := StepBack(oldTip, i, a, disconnected);
        b, connected, j := StepBack(newTip, j, b, connected);
      }
      ForkFound(oldTip, newTip, i, a, disconnected, connected);
      restored := CollectTxs(disconnected);
      confirmed := CollectTxs(connected);
    }

    function HeightOf(ghost tip: Hash32, ghost i: nat, cursor: Hash32, ghost above: seq<ChainBlock>): (h: nat)
      requires Valid() && tip in tree.blocks && Walked(tip, i, cursor, above)
      reads this, Repr
      ensures h == i
    {
      blocks[cursor].block.header.height
    }

    /** Two different cursors at one height are above genesis. */
    lemma StillApart(oldTip: Hash32, newTip: Hash32, i: nat, a: Hash32, b: Hash32, disconnected: seq<ChainBlock>,
        connected: seq<ChainBlock>)
      requires Valid() && oldTip in tree.blocks && newTip in tree.blocks && a != b
      requires Walked(oldTip, i, a, disconnected) && Walked(newTip, i, b, connected)
      ensures i > 0 && i < |Path(c, tree, oldTip)| && i < |Path(c, tree, newTip)|
      ensures Path(c, tree, oldTip)[i] != Path(c, tree, newTip)[i]
    {
      hide Shape, Path, Kept;
      PathsShareGenesis(c, tree, oldTip, newTip);
      PathsShareGenesis(c, tree, newTip, oldTip);
    }

    /** Where the cursors meet just below where they differed, the branches fork. */
    lemma ForkFound(oldTip: Hash32, newTip: Hash32, i: nat, a: Hash32, disconnected: seq<ChainBlock>,
        connected: seq<ChainBlock>)
      requires Valid() && oldTip in tree.blocks && newTip in tree.blocks
      requires Walked(oldTip, i, a, disconnected) && Walked(newTip, i, a, connected)
      requires var p, q := Path(c, tree, oldTip), Path(c, tree, newTip);
               i >= |p| - 1 || i >= |q| - 1 || p[i + 1] != q[i + 1]
      ensures Hashes(disconnected) == ExactDelta(c, tree, oldTip, newTip).disconnected
      ensures Hashes(connected) == ExactDelta(c, tree, oldTip, newTip).connected
      ensures Entries(disconnected) && Entries(connected)
    {
      hide Shape, Path, Kept, Hashes;
      var p, q := Path(c, tree, oldTip), Path(c, tree, newTip);
      MeetAtSameHeight(c, tree, oldTip, newTip, i, i);
      SharedPrefix(p, q, i);
      ForkAt(p, q, i + 1);
    }

    lemma StartWalk(tip: Hash32)
      requires Valid() && tip in tree.blocks
      ensures Walked(tip, |Path(c, tree, tip)| - 1, tip, [])
    {
      hide Shape, Path, Footprint, NodeView;
      StoredAt(tip);
      TopOfPath(c, tree, tip);
    }

    /** Steps back until no higher than `floor`. */
    method WalkDown(ghost tip: Hash32, ghost start: nat, cursor: Hash32, above: seq<ChainBlock>, floor: nat)
      returns (next: Hash32, above': seq<ChainBlock>, ghost i: nat)
      requires Valid() && tip in tree.blocks && Walked(tip, start, cursor, above)
      ensures Walked(tip, i, next, above') && i == if start > floor then floor else start
    {
      hide Shape, Path, Kept, Footprint, NodeView, Hashes;
      next, above', i := cursor, above, start;
      while blocks[next].block.header.height > floor
        invariant Walked(tip, i, next, above') && i <= start && (i == start || i >= floor)
        decreases i
      {
        next, above', i := StepBack(tip, i, next, above');
      }
    }

    /** A cursor at height `i` of a tip's branch, having collected everything above it. */
    ghost predicate Walked(tip: Hash32, i: nat, cursor: Hash32, above: seq<ChainBlock>)
      requires Valid() && tip in tree.blocks
      reads this, Repr
    {
      var p := Path(c, tree, tip);
      && i < |p| && cursor == p[i] && cursor in blocks && blocks[cursor].block.header.height == i
      && Hashes(above) == Reverse(p[i + 1..]) && Entries(above)
    }

    ghost predicate Entries(cbs: seq<ChainBlock>)
      reads this
    {
      forall k :: 0 <= k < |cbs| ==> cbs[k].hash in blocks && blocks[cbs[k].hash] == cbs[k]
    }

    /** `push(entry)`, then on to its parent. */
    method StepBack(ghost tip: Hash32, ghost i: nat, cursor: Hash32, above: seq<ChainBlock>)
      returns (next: Hash32, above': seq<ChainBlock>, ghost i': nat)
      requires Valid() && tip in tree.blocks && Walked(tip, i, cursor, above) && i > 0
      ensures i' == i - 1 && Walked(tip, i', next, above')
    {
      hide BlockWork, HashHeader, Shape, Footprint, NodeView, GenesisHash, Path;
      ghost var p := Path(c, tree, tip);
      PathAt(c, tree, tip, i - 1);
      PathPrev(c, tree, tip, i);
      StoredAt(cursor);
      StoredAt(p[i - 1]);
      next := blocks[cursor].block.header.prevHash;
      above' := above + [blocks[cursor]];
      i' := i - 1;
      ReverseGrows(p, i);
      HashesGrow(above, blocks[cursor]);
    }

    method CollectTxs(cbs: seq<ChainBlock>) returns (txs: seq<Tx>)
      ensures txs == TxsIn(cbs)
    {
      txs := [];
      for k := 0 to |cbs|
        invariant txs == TxsIn(cbs[..k])
      {
        assert cbs[..k + 1][..k] == cbs[..k];
        txs := txs + cbs[k].block.transactions;
      }
      assert cbs[..|cbs|] == cbs;
    }
  }

  function Hashes(cbs: seq<ChainBlock>): (hs: seq<Hash32>)
    ensures |hs| == |cbs| && forall k :: 0 <= k < |cbs| ==> hs[k] == cbs[k].hash
  {
    if cbs == [] then [] else Hashes(cbs[..|cbs| - 1]) + [cbs[|cbs| - 1].hash]
  }

  function TxsIn(cbs: seq<ChainBlock>): seq<Tx> {
    if cbs == [] then [] else TxsIn(cbs[..|cbs| - 1]) + cbs[|cbs| - 1].block.transactions
  }

  lemma HashesGrow(cbs: seq<ChainBlock>, cb: ChainBlock)
    ensures Hashes(cbs + [cb]) == Hashes(cbs) + [cb.hash]
  {
    assert (cbs + [cb])[..|cbs|] == cbs;
  }

  lemma ReverseGrows(p: seq<Hash32>, i: nat)
    requires i < |p|
    ensures Reverse(p[i..]) == Reverse(p[i + 1..]) + [p[i]]
  {
    assert p[i..] == [p[i]] + p[i + 1..];
  }

  lemma ForkAt(p: seq<Hash32>, q: seq<Hash32>, k: nat)
    requires k <= CommonLen(p, q)
    requires k == |p| || k == |q| || p[k] != q[k]
    ensures CommonLen(p, q) == k
  {
    PrefixIndex(p, q, CommonLen(p, q), k);
  }

  lemma PrefixIndex(p: seq<Hash32>, q: seq<Hash32>, m: nat, k: nat)
    requires m <= |p| && m <= |q| && p[..m] == q[..m]
    ensures k < m ==> p[k] == q[k]
  {
    if k < m {
      assert p[k] == p[..m][k] && q[k] == q[..m][k];
    }
  }

  lemma TopOfPath(c: Crypto, t: Tree, h: Hash32)
    requires Shape(c, t) && h in t.blocks
    ensures var p := Path(c, t, h); p[|p| - 1] == h && |p| == HeaderAt(t, h).height + 1 && Reverse(p[|p|..]) == []
  {
    hide Shape, Path;
  }

  lemma HeaderOkHeight(c: Crypto, t: Tree, b: Block, now: nat, opts: AddOptions)
    requires b.header.prevHash in t.blocks && HeaderOk(c, t, b, now, opts)
    ensures b.header.height == HeaderAt(t, b.header.prevHash).height + 1
  {
    hide EncodeBlock, ExpectedDifficulty, CheckPoW, ComputeTxRoot, MtpAfter;
  }

  lemma NothingBuried(c: Crypto, t: Tree, minHeight: int)
    requires Shape(c, t) && minHeight <= 1
    ensures Pruned(c, t, minHeight) == t
  {
    hide Shape, Path;
    assert Pruned(c, t, minHeight).blocks == t.blocks;
  }

  // ------------------------------------------------------------------
  // Dropping states
  // ------------------------------------------------------------------

  /** The tree without the states of `s`. */
  ghost function Dropped(t: Tree, s: set<Hash32>): Tree {
    t.(blocks := map h | h in t.blocks :: if h in s then t.blocks[h].(state := None) else t.blocks[h])
  }

  lemma DroppedNone(t: Tree)
    ensures Dropped(t, {}) == t
  {
    assert Dropped(t, {}).blocks == t.blocks;
  }

  lemma DroppedOne(t: Tree, h: Hash32)
    requires h in t.blocks
    ensures Dropped(t, {h}) == t.(blocks := t.blocks[h := t.blocks[h].(state := None)])
  {
  }

  lemma DroppedMore(t: Tree, s: set<Hash32>, h: Hash32)
    requires h in t.blocks
    ensures Dropped(Dropped(t, s), {h}) == Dropped(t, s + {h})
  {
    assert Dropped(Dropped(t, s), {h}).blocks == Dropped(t, s + {h}).blocks;
  }

  lemma DroppedAt(t: Tree, s: set<Hash32>, h: Hash32)
    requires h in t.blocks
    ensures h in Dropped(t, s).blocks && Dropped(t, s).blocks[h].block == t.blocks[h].block
    ensures h !in s ==> Dropped(t, s).blocks[h] == t.blocks[h]
  {
  }

  lemma DroppedShape(c: Crypto, t: Tree, s: set<Hash32>)
    requires Shape(c, t)
    ensures Shape(c, Dropped(t, s))
  {
    hide NodeOk, GenesisHash;
    var u := Dropped(t, s);
    forall h | h in u.blocks ensures NodeOk(c, u, h) {
      NodeFrame(c, t, u, h);
    }
  }

  lemma BuriedIff(c: Crypto, t: Tree, minHeight: int, i: nat)
    requires Shape(c, t) && i < |Path(c, t, t.tip)| && Path(c, t, t.tip)[i] in t.blocks
    ensures Buried(c, t, minHeight, Path(c, t, t.tip)[i]) <==> Path(c, t, t.tip)[i] != t.tip && 0 < i < minHeight
  {
    hide Shape, Path;
    GenesisKnown(c, t);
    PathAt(c, t, t.tip, i);
  }

  /** Above height `i` exactly the buried blocks have been dropped, and all of them had their states. */
  ghost predicate PruneWalked(c: Crypto, t: Tree, s: set<Hash32>, minHeight: int, i: nat)
    requires Shape(c, t)
  {
    && t.tip in t.blocks && i < |Path(c, t, t.tip)|
    && (forall h :: h in s ==> h in t.blocks && Buried(c, t, minHeight, h) && HeaderAt(t, h).height > i)
    && forall k :: i < k < |Path(c, t, t.tip)| ==> WasDropped(c, t, s, minHeight, Path(c, t, t.tip)[k])
  }

  ghost predicate WasDropped(c: Crypto, t: Tree, s: set<Hash32>, minHeight: int, x: Hash32)
    requires Shape(c, t)
  {
    x in t.blocks && Buried(c, t, minHeight, x) ==> x in s && t.blocks[x].state.Some?
  }

  lemma WalkStarts(c: Crypto, t: Tree, minHeight: int)
    requires Shape(c, t) && t.tip in t.blocks
    ensures PruneWalked(c, t, {}, minHeight, |Path(c, t, t.tip)| - 1)
  {
    hide Shape, Path, Buried;
  }

  /** The block the walk is at has not been dropped yet. */
  lemma WalkNew(c: Crypto, t: Tree, s: set<Hash32>, minHeight: int, i: nat)
    requires Shape(c, t) && PruneWalked(c, t, s, minHeight, i)
    ensures t.tip in t.blocks && Path(c, t, t.tip)[i] in t.blocks && Path(c, t, t.tip)[i] !in s
  {
    hide Shape, Path, Buried;
    PathAt(c, t, t.tip, i);
  }

  /** One block further down, dropped if it is buried and has its state. */
  lemma WalkStep(c: Crypto, t: Tree, s: set<Hash32>, minHeight: int, i: nat)
    requires Shape(c, t) && PruneWalked(c, t, s, minHeight, i) && i > 0 && Path(c, t, t.tip)[i] in t.blocks
    ensures var x := Path(c, t, t.tip)[i];
            && (!Buried(c, t, minHeight, x) ==> PruneWalked(c, t, s, minHeight, i - 1))
            && (Buried(c, t, minHeight, x) && t.blocks[x].state.Some? ==> PruneWalked(c, t, s + {x}, minHeight, i - 1))
  {
    hide Shape, Path, Buried;
    PathAt(c, t, t.tip, i);
    var p := Path(c, t, t.tip);
    assert forall k :: i < k < |p| ==> WasDropped(c, t, s, minHeight, p[k]);
    assert forall k :: i < k < |p| ==> WasDropped(c, t, s + {p[i]}, minHeight, p[k]);
  }

  /** Where the walk stops, it has dropped just the states it should. */
  lemma PruneDone(c: Crypto, t: Tree, s: set<Hash32>, minHeight: int, i: nat)
    requires Shape(c, t) && PruneWalked(c, t, s, minHeight, i) && Path(c, t, t.tip)[i] in t.blocks
    requires var h := Path(c, t, t.tip)[i]; i == 0 || (Buried(c, t, minHeight, h) && t.blocks[h].state.None?)
    ensures Dropped(t, s) == Pruned(c, t, minHeight)
  {
    hide Shape, Path, GenesisHash, Buried, PruneWalked;
    forall h | h in t.blocks ensures h in s <==> Prunable(c, t, minHeight, h) {
      WalkedTo(c, t, s, minHeight, i, h);
    }
    assert Dropped(t, s).blocks == Pruned(c, t, minHeight).blocks;
  }

  lemma WalkedTo(c: Crypto, t: Tree, s: set<Hash32>, minHeight: int, i: nat, h: Hash32)
    requires Shape(c, t) && PruneWalked(c, t, s, minHeight, i) && Path(c, t, t.tip)[i] in t.blocks && h in t.blocks
    requires var h := Path(c, t, t.tip)[i]; i == 0 || (Buried(c, t, minHeight, h) && t.blocks[h].state.None?)
    ensures h in s <==> Prunable(c, t, minHeight, h)
  {
    hide Shape, Path, GenesisHash, Buried;
    var p := Path(c, t, t.tip);
    forall x | x in t.blocks && Buried(c, t, minHeight, x)
      ensures 0 < HeaderAt(t, x).height < |p| && p[HeaderAt(t, x).height] == x
      ensures HeaderAt(t, x).height > i ==> x in s && t.blocks[x].state.Some?
    {
      BuriedAt(c, t, minHeight, x);
      assert HeaderAt(t, x).height > i ==> WasDropped(c, t, s, minHeight, p[HeaderAt(t, x).height]);
    }
    PathAt(c, t, t.tip, i);
  }

  lemma BuriedAt(c: Crypto, t: Tree, minHeight: int, x: Hash32)
    requires Shape(c, t) && x in t.blocks && t.tip in t.blocks && Buried(c, t, minHeight, x)
    ensures var p := Path(c, t, t.tip); 0 < HeaderAt(t, x).height < |p| && p[HeaderAt(t, x).height] == x
  {
    hide Shape, Path;
    var p := Path(c, t, t.tip);
    var k :| 0 <= k < |p| && p[k] == x;
    PathAt(c, t, t.tip, k);
  }

  lemma PathPrev(c: Crypto, t: Tree, x: Hash32, i: nat)
    requires Shape(c, t) && x in t.blocks && 0 < i < |Path(c, t, x)|
    ensures Path(c, t, x)[i] in t.blocks && HeaderAt(t, Path(c, t, x)[i]).prevHash == Path(c, t, x)[i - 1]
  {
    hide Shape, GenesisHash;
    var p, h := Path(c, t, x), Path(c, t, x)[i];
    PathAt(c, t, x, i);
    ParentOf(c, t, h);
    var q := Path(c, t, HeaderAt(t, h).prevHash);
    assert q + [h] == p[..i + 1];
    assert q[|q| - 1] == p[i - 1];
  }

  /** On the tip's branch, everything between genesis and a block without its state lacks its state too. */
  lemma {:induction false} NullsBelow(c: Crypto, t: Tree, i: nat)
    requires Shape(c, t) && NullsClosed(c, t) && t.tip in t.blocks && i < |Path(c, t, t.tip)|
    requires Path(c, t, t.tip)[i] in t.blocks && t.blocks[Path(c, t, t.tip)[i]].state.None?
    ensures forall k :: 0 < k <= i ==> Path(c, t, t.tip)[k] in t.blocks && t.blocks[Path(c, t, t.tip)[k]].state.None?
    decreases i
  {
    hide Shape, GenesisHash, Path;
    var p := Path(c, t, t.tip);
    if i > 1 {
      PathPrev(c, t, t.tip, i);
      PathAt(c, t, t.tip, i - 1);
      ParentOf(c, t, p[i - 1]);
      NullsBelow(c, t, i - 1);
    }
  }

  /** When the missing states are closed under ancestors, pruning drops every buried state. */
  lemma PruneComplete(c: Crypto, t: Tree, minHeight: int, h: Hash32)
    requires Shape(c, t) && NullsClosed(c, t) && h in t.blocks && Buried(c, t, minHeight, h)
    ensures Pruned(c, t, minHeight).blocks[h].state.None?
  {
    hide Shape, Path, GenesisHash, NullsClosed, Buried;
    GenesisKnown(c, t);
    BuriedAt(c, t, minHeight, h);
    if t.blocks[h].state.Some? {
      forall x | x in t.blocks && Buried(c, t, minHeight, x) && HeaderAt(t, h).height <= HeaderAt(t, x).height
        ensures t.blocks[x].state.Some?
      {
        BuriedAt(c, t, minHeight, x);
        if t.blocks[x].state.None? {
          NullsBelow(c, t, HeaderAt(t, x).height);
          assert false;
        }
      }
      assert Prunable(c, t, minHeight, h);
    }
  }
}
