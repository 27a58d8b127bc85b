/**
 * What a restored tree is: genesis alone or exactly the file's chain, ready to
 * extend; and, when the file was saved from a validated tree, a copy of one of
 * its branches with every invariant (src/minerd/persistence.ts 89-261).
 */
module SnapshotFacts {
  import opened Binary
  import opened BlockCodec
  import opened Compact
  import opened Consensus
  import opened Crypto
  import opened Ledger
  import opened Snapshot
  import opened StateRoot
  import opened Tree
  import opened TreeRuns

  // ------------------------------------------------------------------
  // Seeding a list of blocks
  // ------------------------------------------------------------------

  /** No stored height exceeds a bound. */
  ghost predicate HeightsUpTo(t: Tree, n: int) {
    forall h :: h in t.blocks ==> HeaderAt(t, h).height <= n
  }

  lemma {:induction false} SeedAllHeights(c: Crypto, blocks: seq<Block>, state: Option<Ledger>)
    requires SeedAll(c, InitTree(c), blocks, state).Some?
    ensures Shape(c, SeedAll(c, InitTree(c), blocks, state).value)
    ensures HeightsUpTo(SeedAll(c, InitTree(c), blocks, state).value, |blocks|)
    decreases |blocks|
  {
    hide HashHeader, GenesisHash, Shape, Seeded;
    InitShape(c);
    if blocks == [] {
      InitHeights(c);
    } else {
      var front, last := blocks[..|blocks| - 1], blocks[|blocks| - 1];
      SeedAllHeights(c, front, None);
      var t := SeedAll(c, InitTree(c), front, None).value;
      SeededShapes(c, t, last, state);
      SeededHeights(c, t, last, state, |front|);
    }
  }

  lemma InitHeights(c: Crypto)
    ensures HeightsUpTo(InitTree(c), 0)
  {
    hide GenesisHash;
  }

  lemma SeededHeights(c: Crypto, t: Tree, b: Block, state: Option<Ledger>, n: nat)
    requires t.tip in t.blocks && Seeded(c, t, b, state).Some? && HeightsUpTo(t, n)
    ensures HeightsUpTo(Seeded(c, t, b, state).value, n + 1)
  {
    hide HashHeader;
  }

  /** The tree is genesis and then exactly these blocks, each on the one before, the last with the state. */
  ghost predicate IsChain(c: Crypto, t: Tree, blocks: seq<Block>, state: Option<Ledger>) {
    && Shape(c, t)
    && (forall h :: h in t.blocks ==>
          h == GenesisHash(c) || exists i :: 0 <= i < |blocks| && h == HashHeader(c, blocks[i].header))
    && forall i :: 0 <= i < |blocks| ==> IsLink(c, t, blocks, i, state)
  }

  ghost predicate IsLink(c: Crypto, t: Tree, blocks: seq<Block>, i: nat, state: Option<Ledger>)
    requires i < |blocks|
  {
    var h := HashHeader(c, blocks[i].header);
    && h in t.blocks && h != GenesisHash(c) && t.blocks[h].block == blocks[i]
    && t.blocks[h].state == (if i == |blocks| - 1 then state else None)
    && blocks[i].header.height == i + 1
    && blocks[i].header.prevHash == if i == 0 then GenesisHash(c) else HashHeader(c, blocks[i - 1].header)
  }

  lemma ChainHeight(c: Crypto, t: Tree, blocks: seq<Block>, state: Option<Ledger>, h: Hash32)
    requires IsChain(c, t, blocks, state) && h in t.blocks
    ensures HeaderAt(t, h).height <= |blocks|
    ensures HeaderAt(t, h).height > 0 ==> h == HashHeader(c, blocks[HeaderAt(t, h).height - 1].header)
    ensures HeaderAt(t, h).height == 0 ==> h == GenesisHash(c)
  {
    hide HashHeader, GenesisHash, Shape;
    ParentOf(c, t, h);
    if h != GenesisHash(c) {
      var i :| 0 <= i < |blocks| && h == HashHeader(c, blocks[i].header);
      assert IsLink(c, t, blocks, i, state);
    }
  }

  /**
   * Counting: seeding `n` blocks can reach height `n` only by adding every one
   * of them, in height order, each on the one before.
   */
  lemma {:induction false} SeedTight(c: Crypto, blocks: seq<Block>, state: Option<Ledger>, x: Hash32)
    requires SeedAll(c, InitTree(c), blocks, state).Some?
    requires x in SeedAll(c, InitTree(c), blocks, state).value.blocks
    requires HeaderAt(SeedAll(c, InitTree(c), blocks, state).value, x).height == |blocks|
    ensures IsChain(c, SeedAll(c, InitTree(c), blocks, state).value, blocks, state)
    ensures state.Some? && blocks != [] ==>
      SeedAll(c, InitTree(c), blocks, state).value.tip == HashHeader(c, blocks[|blocks| - 1].header)
    decreases |blocks|
  {
    hide HashHeader, GenesisHash, Shape, Seeded, IsChain, HeightsUpTo;
    SeedAllHeights(c, blocks, state);
    if blocks == [] {
      InitIsChain(c, state);
    } else {
      var front, last := blocks[..|blocks| - 1], blocks[|blocks| - 1];
      var t := SeedAll(c, InitTree(c), front, None).value;
      SeedAllHeights(c, front, None);
      TopIsNew(c, t, last, state, |front|, x);
      SeedTight(c, front, None, last.header.prevHash);
      ExtendChain(c, t, front, last, state);
      assert front + [last] == blocks;
    }
  }

  lemma InitIsChain(c: Crypto, state: Option<Ledger>)
    ensures IsChain(c, InitTree(c), [], state)
  {
    hide HashHeader, GenesisHash, Shape;
    InitShape(c);
  }

  /** A height above everything before can only be the block just seeded. */
  lemma TopIsNew(c: Crypto, t: Tree, b: Block, state: Option<Ledger>, n: nat, x: Hash32)
    requires t.tip in t.blocks && Seeded(c, t, b, state).Some? && HeightsUpTo(t, n)
    requires x in Seeded(c, t, b, state).value.blocks && HeaderAt(Seeded(c, t, b, state).value, x).height == n + 1
    ensures x == HashHeader(c, b.header) && x !in t.blocks
    ensures b.header.prevHash in t.blocks && HeaderAt(t, b.header.prevHash).height == n && b.header.height == n + 1
  {
    hide HashHeader;
  }

  lemma ExtendChain(c: Crypto, t: Tree, front: seq<Block>, last: Block, state: Option<Ledger>)
    requires IsChain(c, t, front, None) && t.tip in t.blocks
    requires last.header.prevHash in t.blocks && HashHeader(c, last.header) !in t.blocks
    requires last.header.height == |front| + 1 && HeaderAt(t, last.header.prevHash).height == |front|
    requires Seeded(c, t, last, state).Some?
    ensures IsChain(c, Seeded(c, t, last, state).value, front + [last], state)
    ensures state.Some? ==> Seeded(c, t, last, state).value.tip == HashHeader(c, last.header)
  {
    hide HashHeader, GenesisHash, Shape, Insert, IsLink;
    var u, x, blocks := Seeded(c, t, last, state).value, HashHeader(c, last.header), front + [last];
    assert Shape(c, t);
    SeededShapes(c, t, last, state);
    SeededIs(c, t, last, state);
    ChainHeight(c, t, front, None, last.header.prevHash);
    forall h | h in u.blocks
      ensures h == GenesisHash(c) || exists i :: 0 <= i < |blocks| && h == HashHeader(c, blocks[i].header)
    {
      if h == x {
        assert blocks[|front|] == last;
      } else if h != GenesisHash(c) {
        var i :| 0 <= i < |front| && h == HashHeader(c, front[i].header);
        assert blocks[i] == front[i];
      }
    }
    forall i | 0 <= i < |blocks| ensures IsLink(c, u, blocks, i, state) {
      if i < |front| {
        assert IsLink(c, t, front, i, None);
        OldLink(c, t, u, front, blocks, i, x, state);
      } else {
        InsertedNotGenesis(c, t, last, state);
        NewLink(c, t, u, front, last, state);
      }
    }
  }

  lemma SeededIs(c: Crypto, t: Tree, b: Block, state: Option<Ledger>)
    requires t.tip in t.blocks && b.header.prevHash in t.blocks && HashHeader(c, b.header) !in t.blocks
    requires Seeded(c, t, b, state).Some?
    ensures Seeded(c, t, b, state).value.blocks ==
      t.blocks[HashHeader(c, b.header) := ChildNode(t.blocks[b.header.prevHash], b, state)]
    ensures state.Some? ==> Seeded(c, t, b, state).value.tip == HashHeader(c, b.header)
  {
    hide HashHeader;
  }

  lemma OldLink(c: Crypto, t: Tree, u: Tree, front: seq<Block>, blocks: seq<Block>, i: nat, x: Hash32,
      state: Option<Ledger>)
    requires i < |front| < |blocks| && IsLink(c, t, front, i, None) && x !in t.blocks
    requires forall h :: h in t.blocks ==> h in u.blocks && u.blocks[h] == t.blocks[h]
    requires forall k :: 0 <= k < |front| ==> blocks[k] == front[k]
    ensures IsLink(c, u, blocks, i, state)
  {
    hide HashHeader, GenesisHash;
  }

  lemma NewLink(c: Crypto, t: Tree, u: Tree, front: seq<Block>, last: Block, state: Option<Ledger>)
    requires last.header.prevHash in t.blocks && HashHeader(c, last.header) != GenesisHash(c)
    requires u.blocks == t.blocks[HashHeader(c, last.header) := ChildNode(t.blocks[last.header.prevHash], last, state)]
    requires last.header.height == |front| + 1
    requires last.header.prevHash == if |front| == 0 then GenesisHash(c) else HashHeader(c, front[|front| - 1].header)
    ensures IsLink(c, u, front + [last], |front|, state)
  {
    hide HashHeader, GenesisHash;
  }

  // ------------------------------------------------------------------
  // Restoring any file
  // ------------------------------------------------------------------

  /** Only the anchor's own header may have the anchor's hash, in this file and at genesis. */
  ghost predicate AnchorApart(c: Crypto, blocks: seq<Block>)
    requires blocks != []
  {
    var anchor := blocks[|blocks| - 1].header;
    && (forall i :: 0 <= i < |blocks| && HashHeader(c, blocks[i].header) == HashHeader(c, anchor) ==>
      blocks[i].header == anchor)
    && (GenesisHash(c) == HashHeader(c, anchor) ==> anchor == GENESIS_HEADER)
  }

  /** What seeding stores comes from the list. */
  lemma {:induction false} SeedAllSource(c: Crypto, blocks: seq<Block>, state: Option<Ledger>, h: Hash32)
    requires SeedAll(c, InitTree(c), blocks, state).Some?
    requires h in SeedAll(c, InitTree(c), blocks, state).value.blocks
    ensures var b := SeedAll(c, InitTree(c), blocks, state).value.blocks[h].block;
            (h == GenesisHash(c) && b == GENESIS) || (b in blocks && h == HashHeader(c, b.header))
    decreases |blocks|
  {
    hide HashHeader, GenesisHash;
    if blocks != [] {
      var front, last := blocks[..|blocks| - 1], blocks[|blocks| - 1];
      var t := SeedAll(c, InitTree(c), front, None).value;
      if h in t.blocks {
        SeedAllSource(c, front, None, h);
        SeededKeeps(c, t, last, state, h);
      } else {
        SeededKeeps(c, t, last, state, h);
      }
    }
  }

  lemma SeededKeeps(c: Crypto, t: Tree, b: Block, state: Option<Ledger>, h: Hash32)
    requires t.tip in t.blocks && Seeded(c, t, b, state).Some?
    ensures var u := Seeded(c, t, b, state).value; h in t.blocks ==> h in u.blocks && u.blocks[h] == t.blocks[h]
    ensures h in Seeded(c, t, b, state).value.blocks && h !in t.blocks ==>
      h == HashHeader(c, b.header) && Seeded(c, t, b, state).value.blocks[h].block == b
    ensures HashHeader(c, b.header) in Seeded(c, t, b, state).value.blocks
  {
    hide HashHeader;
  }

  /**
   * On a new chain a restore is all or nothing: it leaves genesis alone, or it
   * has stored exactly heights 1 to the anchor, one on the other, with the tip at
   * the anchor and the anchor's state matching the root its header commits to.
   */
  lemma RestoreAllOrGenesis(c: Crypto, disk: Disk)
    requires AnchorUnique(c, disk)
    ensures var (ok, u) := Restored(c, InitTree(c), disk);
            if !ok then u == InitTree(c)
            else
              var parts := Readable(c, disk.file).value;
              var anchor := parts.blocks[|parts.blocks| - 1].header;
              && IsChain(c, u, parts.blocks, Some(parts.ledger))
              && u.tip == HashHeader(c, anchor) && anchor.height == |parts.blocks| == disk.file.anchorHeight.value
              && Root(c, parts.ledger) == anchor.stateRoot
  {
    hide HashHeader, GenesisHash, Shape, IsChain, SeedAll, InitTree, DecodeAll, LedgerOf, Root, NetworkTag;
    if disk.Parsed? && Restored(c, InitTree(c), disk).0 {
      var parts := Readable(c, disk.file).value;
      var x := HashHeader(c, parts.blocks[|parts.blocks| - 1].header);
      AnchorStored(c, parts.blocks, Some(parts.ledger));
      SeedTight(c, parts.blocks, Some(parts.ledger), x);
    }
  }

  /** `blocks` are the hex entries, decoded one by one. */
  predicate DecodesTo(hexes: seq<string>, blocks: seq<Block>) {
    |blocks| == |hexes|
    && forall i :: 0 <= i < |hexes| ==>
         HexToBytes(hexes[i]).Some? && DecodeBlock(HexToBytes(hexes[i]).value) == Some(blocks[i])
  }

  lemma {:induction false} DecodeAllEach(hexes: seq<string>, blocks: seq<Block>)
    ensures DecodeAll(hexes) == Some(blocks) <==> DecodesTo(hexes, blocks)
    decreases |hexes|
  {
    hide HexToBytes, DecodeBlock;
    if hexes != [] && |blocks| == |hexes| {
      var n := |hexes|;
      assert blocks == blocks[..n - 1] + [blocks[n - 1]];
      DecodeAllEach(hexes[..n - 1], blocks[..n - 1]);
      LastDecodes(hexes, blocks);
    }
  }

  lemma LastDecodes(hexes: seq<string>, blocks: seq<Block>)
    requires hexes != [] && |blocks| == |hexes|
    ensures var n := |hexes|;
            DecodesTo(hexes, blocks) <==>
            DecodesTo(hexes[..n - 1], blocks[..n - 1])
            && HexToBytes(hexes[n - 1]).Some? && DecodeBlock(HexToBytes(hexes[n - 1]).value) == Some(blocks[n - 1])
  {
    hide HexToBytes, DecodeBlock;
    var n := |hexes|;
    assert forall i :: 0 <= i < n - 1 ==> hexes[..n - 1][i] == hexes[i] && blocks[..n - 1][i] == blocks[i];
  }

  /**
   * A file is restored only when it carries schema 2 and this network's tag (the
   * first eight bytes of the genesis hash), says its number of blocks correctly,
   * every block decodes, the last one has that height and the recorded hash if
   * there is one, and the state and lock rows hash to the root it commits to.
   */
  lemma OnlyCheckedFiles(c: Crypto, t: Tree, disk: Disk)
    requires t.tip in t.blocks && Restored(c, t, disk).0
    ensures disk.Parsed?
    ensures var f := disk.file;
            && f.schema == Some(2) && f.network == Some(BytesToHex(GenesisHash(c))[..16])
            && f.blocksHex.Some? && f.state.Some? && f.locks.Some?
            && f.anchorHeight == Some(|f.blocksHex.value|) && f.anchorHeight.value >= 1
    ensures var f := disk.file;
            exists blocks: seq<Block> ::
              && DecodesTo(f.blocksHex.value, blocks) && blocks != []
              && blocks[|blocks| - 1].header.height == |blocks|
              && (f.anchorHash.Some? ==>
                    f.anchorHash.value == BytesToHex(c.sha256(EncodeHeader(blocks[|blocks| - 1].header))))
              && Root(c, LedgerOf(f.state.value, f.locks.value)) == blocks[|blocks| - 1].header.stateRoot
  {
    hide GenesisHash, Shape, SeedAll, InitTree, DecodeAll, LedgerOf, Root, EncodeHeader, DecodesTo, BytesToHex;
    var blocks := Readable(c, disk.file).value.blocks;
    DecodeAllEach(disk.file.blocksHex.value, blocks);
  }

  lemma AnchorStored(c: Crypto, blocks: seq<Block>, state: Option<Ledger>)
    requires SeedAll(c, InitTree(c), blocks, state).Some?
    requires blocks != [] && AnchorApart(c, blocks)
    ensures var u, anchor := SeedAll(c, InitTree(c), blocks, state).value, blocks[|blocks| - 1].header;
            HashHeader(c, anchor) in u.blocks && HeaderAt(u, HashHeader(c, anchor)) == anchor
  {
    hide HashHeader, GenesisHash, Shape, Seeded, InitTree;
    var front, last := blocks[..|blocks| - 1], blocks[|blocks| - 1];
    SeededKeeps(c, SeedAll(c, InitTree(c), front, None).value, last, state, HashHeader(c, last.header));
    SeedAllSource(c, blocks, state, HashHeader(c, last.header));
  }

  /** A restored chain is ready to extend: its tip has its state, and the missing states are closed under ancestors. */
  lemma RestoredIsClosed(c: Crypto, t: Tree, blocks: seq<Block>, l: Ledger)
    requires IsChain(c, t, blocks, Some(l)) && blocks != [] && t.tip == HashHeader(c, blocks[|blocks| - 1].header)
    requires GenesisHash(c) in t.blocks && t.blocks[GenesisHash(c)].state.Some?
    ensures TipMaterialized(t) && NullsClosed(c, t)
  {
    hide HashHeader, GenesisHash, Shape;
    assert IsLink(c, t, blocks, |blocks| - 1, Some(l));
    forall h | h in t.blocks && t.blocks[h].state.None?
      ensures var p := HeaderAt(t, h).prevHash; p == GenesisHash(c) || (p in t.blocks && t.blocks[p].state.None?)
    {
      var i :| 0 <= i < |blocks| && h == HashHeader(c, blocks[i].header);
      assert IsLink(c, t, blocks, i, Some(l));
      if i > 0 {
        assert IsLink(c, t, blocks, i - 1, Some(l));
      }
    }
  }

  /** Works never fall along such a chain. */
  lemma {:induction false} ChainWork(c: Crypto, t: Tree, blocks: seq<Block>, state: Option<Ledger>, i: nat, j: nat)
    requires IsChain(c, t, blocks, state) && i <= j < |blocks|
    ensures HashHeader(c, blocks[i].header) in t.blocks && HashHeader(c, blocks[j].header) in t.blocks
    ensures GenesisHash(c) in t.blocks
    ensures t.blocks[GenesisHash(c)].work <= t.blocks[HashHeader(c, blocks[i].header)].work
            <= t.blocks[HashHeader(c, blocks[j].header)].work
    decreases j
  {
    hide HashHeader, GenesisHash, Shape, BlockWork;
    GenesisKnown(c, t);
    assert IsLink(c, t, blocks, j, state);
    assert IsLink(c, t, blocks, i, state);
    var x := HashHeader(c, blocks[j].header);
    LinkFacts(c, t, x);
    assert t.blocks[x].work == ChildNode(t.blocks[HeaderAt(t, x).prevHash], blocks[j], None).work;
    if j > 0 {
      ChainWork(c, t, blocks, state, if i < j then i else j - 1, j - 1);
    }
  }

  /** Seeding leaves genesis as it was. */
  lemma {:induction false} SeedAllGenesis(c: Crypto, blocks: seq<Block>, state: Option<Ledger>)
    requires SeedAll(c, InitTree(c), blocks, state).Some?
    ensures var u := SeedAll(c, InitTree(c), blocks, state).value;
            GenesisHash(c) in u.blocks && u.blocks[GenesisHash(c)].state == Some(EMPTY)
    decreases |blocks|
  {
    hide HashHeader, GenesisHash, Seeded;
    if blocks != [] {
      var front, last := blocks[..|blocks| - 1], blocks[|blocks| - 1];
      SeedAllGenesis(c, front, None);
      SeededKeeps(c, SeedAll(c, InitTree(c), front, None).value, last, state, GenesisHash(c));
    }
  }

  /** No collision with the anchor's hash in whatever the file holds. */
  ghost predicate AnchorUnique(c: Crypto, disk: Disk) {
    disk.Parsed? && Readable(c, disk.file).Some? ==> AnchorApart(c, Readable(c, disk.file).value.blocks)
  }

  /** Whatever the disk holds, a new chain is ready to be extended after a restore. */
  lemma RestoredReady(c: Crypto, disk: Disk)
    requires AnchorUnique(c, disk)
    ensures Ready(c, Restored(c, InitTree(c), disk).1)
  {
    hide HashHeader, GenesisHash, Shape, IsChain, SeedAll, InitTree, Readable, Root, TipHeaviest, NullsClosed,
      TipMaterialized, Validated;
    RestoreAllOrGenesis(c, disk);
    InitInv(c);
    ReadyOfInv(c, InitTree(c));
    var (ok, u) := Restored(c, InitTree(c), disk);
    if ok {
      var parts := Readable(c, disk.file).value;
      SeedAllGenesis(c, parts.blocks, Some(parts.ledger));
      RestoredIsClosed(c, u, parts.blocks, parts.ledger);
      ChainHeaviest(c, u, parts.blocks, Some(parts.ledger));
    }
  }

  lemma ChainHeaviest(c: Crypto, t: Tree, blocks: seq<Block>, state: Option<Ledger>)
    requires IsChain(c, t, blocks, state) && blocks != [] && t.tip == HashHeader(c, blocks[|blocks| - 1].header)
    ensures Shape(c, t) && TipHeaviest(t)
  {
    hide HashHeader, GenesisHash, Shape, IsLink;
    ChainWork(c, t, blocks, state, |blocks| - 1, |blocks| - 1);
    forall h | h in t.blocks ensures t.blocks[h].work <= t.blocks[t.tip].work {
      if h != GenesisHash(c) {
        var i :| 0 <= i < |blocks| && h == HashHeader(c, blocks[i].header);
        ChainWork(c, t, blocks, state, i, |blocks| - 1);
      }
    }
  }

  // ------------------------------------------------------------------
  // Saved files
  // ------------------------------------------------------------------

  /** The blocks from height 1 to `h`. */
  ghost function BranchBlocks(c: Crypto, t: Tree, h: Hash32): (bs: seq<Block>)
    requires Shape(c, t) && h in t.blocks
    ensures |bs| == HeaderAt(t, h).height
    ensures bs != [] ==> bs[|bs| - 1] == t.blocks[h].block
    decreases HeaderAt(t, h).height
  {
    ParentOf(c, t, h);
    if h == GenesisHash(c) then [] else BranchBlocks(c, t, HeaderAt(t, h).prevHash) + [t.blocks[h].block]
  }

  function EncodeAll(blocks: seq<Block>): (hexes: seq<string>)
    ensures |hexes| == |blocks|
  {
    if blocks == [] then [] else EncodeAll(blocks[..|blocks| - 1]) + [BytesToHex(EncodeBlock(blocks[|blocks| - 1]))]
  }

  lemma EncodeLast(blocks: seq<Block>, b: Block)
    ensures EncodeAll(blocks + [b]) == EncodeAll(blocks) + [BytesToHex(EncodeBlock(b))]
  {
    hide EncodeBlock, BytesToHex;
    assert (blocks + [b])[..|blocks|] == blocks;
  }

  lemma EncodeNothing()
    ensures EncodeAll([]) == []
  {
  }

  /** A file that holds the branch up to `a` and the ledger after it. */
  ghost predicate SavedAs(c: Crypto, t: Tree, f: SnapshotFile, a: Hash32, l: Ledger)
    requires Shape(c, t) && a in t.blocks
  {
    && f.schema == Some(SCHEMA_VERSION) && f.network == Some(NetworkTag(c))
    && f.anchorHeight == Some(HeaderAt(t, a).height) && f.anchorHash == Some(BytesToHex(a))
    && f.blocksHex == Some(EncodeAll(BranchBlocks(c, t, a)))
    && f.state.Some? && f.locks.Some? && LedgerOf(f.state.value, f.locks.value) == l
  }

  /** `u` is exactly the branch of `h` in `t`: same blocks, works and fork anchors, with only the last state. */
  ghost predicate CopiesBranch(c: Crypto, t: Tree, u: Tree, h: Hash32, state: Option<Ledger>)
    requires Shape(c, t) && h in t.blocks
  {
    && Shape(c, u) && u.tip in u.blocks
    && GenesisHash(c) in u.blocks && u.blocks[GenesisHash(c)].state == Some(EMPTY)
    && (forall k :: k in u.blocks <==> k in Path(c, t, h))
    && (forall k :: k in u.blocks ==> k in t.blocks && u.blocks[k].(state := None) == t.blocks[k].(state := None))
    && (forall k :: k in u.blocks && k != GenesisHash(c) ==> u.blocks[k].state == if k == h then state else None)
    && (h != GenesisHash(c) && state.Some? ==> u.tip == h)
  }

  lemma {:induction false} SeedBranch(c: Crypto, t: Tree, h: Hash32, state: Option<Ledger>)
    requires Shape(c, t) && h in t.blocks
    ensures var u := SeedAll(c, InitTree(c), BranchBlocks(c, t, h), state);
            u.Some? && CopiesBranch(c, t, u.value, h, state)
    decreases HeaderAt(t, h).height
  {
    hide HashHeader, GenesisHash, Shape, Seeded, CopiesBranch, InitTree;
    ParentOf(c, t, h);
    if h == GenesisHash(c) {
      InitCopies(c, t, h, state);
    } else {
      var p, b := HeaderAt(t, h).prevHash, t.blocks[h].block;
      SeedBranch(c, t, p, None);
      var bs := BranchBlocks(c, t, h);
      assert bs[..|bs| - 1] == BranchBlocks(c, t, p);
      SeedNext(c, t, SeedAll(c, InitTree(c), BranchBlocks(c, t, p), None).value, h, state);
    }
  }

  lemma InitCopies(c: Crypto, t: Tree, h: Hash32, state: Option<Ledger>)
    requires Shape(c, t) && h in t.blocks && h == GenesisHash(c)
    ensures CopiesBranch(c, t, InitTree(c), h, state)
  {
    hide HashHeader, GenesisHash;
    InitShape(c);
    assert NodeOk(c, t, h);
    assert Path(c, t, h) == [h];
  }

  lemma SeedNext(c: Crypto, t: Tree, u: Tree, h: Hash32, state: Option<Ledger>)
    requires Shape(c, t) && h in t.blocks && h != GenesisHash(c) && HeaderAt(t, h).prevHash in t.blocks
    requires CopiesBranch(c, t, u, HeaderAt(t, h).prevHash, None)
    ensures var r := Seeded(c, u, t.blocks[h].block, state);
            r.Some? && CopiesBranch(c, t, r.value, h, state)
  {
    hide HashHeader, GenesisHash, Shape, Insert, Path;
    var p, b := HeaderAt(t, h).prevHash, t.blocks[h].block;
    LinkFacts(c, t, h);
    NotOnParentPath(c, t, h);
    assert p in Path(c, t, p);
    assert u.blocks[p].(state := None) == t.blocks[p].(state := None);
    assert HeaderAt(u, p) == HeaderAt(t, p);
    SeedOk(c, u, b, state);
    SeededShapes(c, u, b, state);
    SeededIs(c, u, b, state);
    SameChild(t, u, p, b, state);
    var r := Seeded(c, u, b, state).value;
    assert r.blocks == u.blocks[h := ChildNode(u.blocks[p], b, state)];
    forall k ensures k in r.blocks <==> k in Path(c, t, h) {
      assert k in Path(c, t, h) <==> k in Path(c, t, p) || k == h;
    }
    forall k | k in r.blocks ensures k in t.blocks && r.blocks[k].(state := None) == t.blocks[k].(state := None) {
      if k != h {
        assert r.blocks[k] == u.blocks[k];
      }
    }
    forall k | k in r.blocks && k != GenesisHash(c) ensures r.blocks[k].state == if k == h then state else None {
      if k != h {
        assert r.blocks[k] == u.blocks[k];
      }
    }
    SeededTip(c, u, b, state);
  }

  lemma SeededTip(c: Crypto, u: Tree, b: Block, state: Option<Ledger>)
    requires u.tip in u.blocks && Seeded(c, u, b, state).Some?
    ensures Seeded(c, u, b, state).value.tip in Seeded(c, u, b, state).value.blocks
  {
    hide HashHeader;
  }

  lemma SeedOk(c: Crypto, u: Tree, b: Block, state: Option<Ledger>)
    requires u.tip in u.blocks && HashHeader(c, b.header) !in u.blocks && b.header.prevHash in u.blocks
    requires b.header.height == HeaderAt(u, b.header.prevHash).height + 1
    ensures Seeded(c, u, b, state).Some?
  {
    hide HashHeader, Insert;
  }

  lemma SameChild(t: Tree, u: Tree, p: Hash32, b: Block, state: Option<Ledger>)
    requires p in t.blocks && p in u.blocks && u.blocks[p].(state := None) == t.blocks[p].(state := None)
    ensures ChildNode(u.blocks[p], b, state).(state := None) == ChildNode(t.blocks[p], b, None)
  {
    assert u.blocks[p].work == t.blocks[p].work && u.blocks[p].anchor == t.blocks[p].anchor;
  }

  lemma LinkFacts(c: Crypto, t: Tree, h: Hash32)
    requires Shape(c, t) && h in t.blocks && h != GenesisHash(c)
    ensures HashHeader(c, HeaderAt(t, h)) == h && HeaderAt(t, h).prevHash in t.blocks
    ensures HeaderAt(t, h).height == HeaderAt(t, HeaderAt(t, h).prevHash).height + 1
    ensures t.blocks[h].(state := None) == ChildNode(t.blocks[HeaderAt(t, h).prevHash], t.blocks[h].block, None)
  {
    hide HashHeader, GenesisHash;
    assert NodeOk(c, t, h);
  }

  lemma NotOnParentPath(c: Crypto, t: Tree, h: Hash32)
    requires Shape(c, t) && h in t.blocks && h != GenesisHash(c) && HeaderAt(t, h).prevHash in t.blocks
    ensures h !in Path(c, t, HeaderAt(t, h).prevHash)
    ensures Path(c, t, h) == Path(c, t, HeaderAt(t, h).prevHash) + [h]
    ensures HeaderAt(t, h).prevHash in Path(c, t, HeaderAt(t, h).prevHash)
  {
    hide GenesisHash, Shape;
    var p := HeaderAt(t, h).prevHash;
    ParentOf(c, t, h);
    if h in Path(c, t, p) {
      PathParent(c, t, p, h);
      assert false;
    }
    assert Path(c, t, p)[|Path(c, t, p)| - 1] == p;
  }

  /** Every block of the branch survives its encoding, as blocks that came off the wire do. */
  ghost predicate WireReady(c: Crypto, blocks: seq<Block>) {
    forall i :: 0 <= i < |blocks| ==> DecodeBlock(EncodeBlock(blocks[i])) == Some(blocks[i])
  }

  lemma {:induction false} DecodeOfEncodeAll(c: Crypto, blocks: seq<Block>)
    requires WireReady(c, blocks)
    ensures DecodeAll(EncodeAll(blocks)) == Some(blocks)
    decreases |blocks|
  {
    hide DecodeBlock, EncodeBlock, BytesToHex, HexToBytes, EncodeAll, DecodeAll;
    if blocks == [] {
      EncodeNothing();
      DecodeNothing();
    } else {
      var front, last := blocks[..|blocks| - 1], blocks[|blocks| - 1];
      assert forall i :: 0 <= i < |front| ==> front[i] == blocks[i];
      DecodeOfEncodeAll(c, front);
      EncodeLast(front, last);
      HexOfBytes(EncodeBlock(last));
      DecodeLast(EncodeAll(front), BytesToHex(EncodeBlock(last)));
      assert front + [last] == blocks;
    }
  }

  lemma DecodeNothing()
    ensures DecodeAll([]) == Some([])
  {
  }

  lemma DecodeLast(hexes: seq<string>, hex: string)
    requires DecodeAll(hexes).Some? && HexToBytes(hex).Some? && DecodeBlock(HexToBytes(hex).value).Some?
    ensures DecodeAll(hexes + [hex]) == Some(DecodeAll(hexes).value + [DecodeBlock(HexToBytes(hex).value).value])
  {
    hide DecodeBlock, HexToBytes;
    assert (hexes + [hex])[..|hexes|] == hexes;
  }

  lemma ReadableWhenSaved(c: Crypto, t: Tree, f: SnapshotFile, a: Hash32, l: Ledger)
    requires Shape(c, t) && a in t.blocks && a != GenesisHash(c) && SavedAs(c, t, f, a, l)
    requires WireReady(c, BranchBlocks(c, t, a)) && Root(c, l) == HeaderAt(t, a).stateRoot
    ensures Readable(c, f) == Some(Parts(BranchBlocks(c, t, a), l))
  {
    hide HashHeader, GenesisHash, Shape, DecodeAll, EncodeAll, LedgerOf, Root, NetworkTag;
    ParentOf(c, t, a);
    LinkFacts(c, t, a);
    DecodeOfEncodeAll(c, BranchBlocks(c, t, a));
  }

  lemma CopyFacts(c: Crypto, t: Tree, u: Tree, a: Hash32, state: Option<Ledger>)
    requires Shape(c, t) && a in t.blocks && a != GenesisHash(c) && CopiesBranch(c, t, u, a, state) && state.Some?
    ensures Shape(c, u) && u.tip == a && a in u.blocks && Path(c, u, a) == Path(c, t, a)
  {
    hide GenesisHash, Shape, BodiesTo, HeadersTo;
    assert Path(c, t, a)[|Path(c, t, a)| - 1] == a;
    BranchFrame(c, u, t, a);
  }

  /**
   * Restoring a snapshot saved from a validated tree, on a new chain, reproduces
   * the saved branch: the same hashes, blocks, cumulative works and fork anchors,
   * the anchor as tip, and its ledger.
   */
  lemma SaveThenRestore(c: Crypto, t: Tree, f: SnapshotFile, a: Hash32, l: Ledger)
    requires Validated(c, t) && a in t.blocks && a != GenesisHash(c) && t.blocks[a].state == Some(l)
    requires SavedAs(c, t, f, a, l) && WireReady(c, BranchBlocks(c, t, a))
    ensures var (ok, u) := Restored(c, InitTree(c), Parsed(f));
            && ok && CopiesBranch(c, t, u, a, Some(l)) && u.tip == a && a in u.blocks
            && Path(c, u, a) == Path(c, t, a)
  {
    hide HashHeader, GenesisHash, Shape, SeedAll, InitTree, Readable, SavedAs, Root, CopiesBranch, Path, BranchBlocks,
      WireReady, BlockOk;
    ValidatedShape(c, t);
    CommittedRoot(c, t, a, l);
    ReadableWhenSaved(c, t, f, a, l);
    SeedBranch(c, t, a, Some(l));
    CopyFacts(c, t, SeedAll(c, InitTree(c), BranchBlocks(c, t, a), Some(l)).value, a, Some(l));
  }

  /** A validated block's header commits to the ledger kept for it. */
  lemma CommittedRoot(c: Crypto, t: Tree, a: Hash32, l: Ledger)
    requires Validated(c, t) && a in t.blocks && a != GenesisHash(c) && t.blocks[a].state == Some(l)
    ensures Root(c, l) == HeaderAt(t, a).stateRoot
  {
    hide Shape, GenesisHash, MtpAfter, Replay, Root, TxsValid;
    assert BlockOk(c, t, a);
  }

  /** And the copy has every invariant the saved tree had, so mining and syncing go on from it. */
  lemma RestoredInv(c: Crypto, t: Tree, u: Tree, a: Hash32, l: Ledger)
    requires Validated(c, t) && a in t.blocks && a != GenesisHash(c) && t.blocks[a].state == Some(l)
    requires CopiesBranch(c, t, u, a, Some(l))
    ensures Inv(c, u)
  {
    hide Shape, GenesisHash, BlockOk, CopiesBranch, NullsClosed, TipHeaviest, TipMaterialized, Path;
    ValidatedShape(c, t);
    CopyShape(c, t, u, a, Some(l));
    forall h | h in u.blocks ensures BlockOk(c, u, h) {
      CopiedBlockOk(c, t, u, a, l, h);
    }
    CopyReady(c, t, u, a, l);
  }

  lemma CopyShape(c: Crypto, t: Tree, u: Tree, a: Hash32, state: Option<Ledger>)
    requires Shape(c, t) && a in t.blocks && CopiesBranch(c, t, u, a, state)
    ensures Shape(c, u) && Extends(u, t)
  {
    hide Shape, GenesisHash, Path;
  }

  lemma CopiedBlockOk(c: Crypto, t: Tree, u: Tree, a: Hash32, l: Ledger, h: Hash32)
    requires Validated(c, t) && a in t.blocks && a != GenesisHash(c) && t.blocks[a].state == Some(l)
    requires CopiesBranch(c, t, u, a, Some(l)) && Shape(c, u) && h in u.blocks
    ensures BlockOk(c, u, h)
  {
    hide Shape, GenesisHash, MtpAfter, GoodDifficulty, TxsValid, Root, Path, BlockApplied, BodiesTo;
    ValidatedShape(c, t);
    CopyShape(c, t, u, a, Some(l));
    assert BlockOk(c, t, h);
    BranchFrame(c, u, t, h);
    ParentOf(c, u, h);
    if h != GenesisHash(c) {
      MtpFrame(c, u, t, HeaderAt(u, h).prevHash);
    } else {
      NoBodies(c, u);
    }
    assert u.blocks[h].(state := None) == t.blocks[h].(state := None);
    assert u.blocks[h].block == t.blocks[h].block;
  }

  lemma NoBodies(c: Crypto, u: Tree)
    requires Shape(c, u) && GenesisHash(c) in u.blocks
    ensures BodiesTo(c, u, GenesisHash(c)) == [] && Replay(c, []) == Some(EMPTY)
  {
    hide Shape, GenesisHash;
  }

  lemma CopyReady(c: Crypto, t: Tree, u: Tree, a: Hash32, l: Ledger)
    requires Shape(c, t) && a in t.blocks && a != GenesisHash(c) && CopiesBranch(c, t, u, a, Some(l))
    ensures TipHeaviest(u) && NullsClosed(c, u) && TipMaterialized(u)
  {
    hide Shape, GenesisHash, Path;
    CopyFacts(c, t, u, a, Some(l));
    forall h | h in u.blocks ensures u.blocks[h].work <= u.blocks[a].work {
      WorkRises(c, u, a, h);
    }
    forall h | h in u.blocks && u.blocks[h].state.None?
      ensures var p := HeaderAt(u, h).prevHash; p == GenesisHash(c) || (p in u.blocks && u.blocks[p].state.None?)
    {
      ParentOf(c, u, h);
      var p := HeaderAt(u, h).prevHash;
      if p == a {
        PathParent(c, u, a, h);
        assert false;
      }
    }
  }

  /** Along a branch work never falls. */
  lemma {:induction false} WorkRises(c: Crypto, t: Tree, x: Hash32, h: Hash32)
    requires Shape(c, t) && x in t.blocks && h in Path(c, t, x)
    ensures h in t.blocks && t.blocks[h].work <= t.blocks[x].work
    decreases HeaderAt(t, x).height
  {
    hide Shape, GenesisHash, BlockWork;
    ParentOf(c, t, x);
    PathParent(c, t, x, h);
    if h != x {
      var p := HeaderAt(t, x).prevHash;
      WorkRises(c, t, p, h);
      LinkFacts(c, t, x);
      assert t.blocks[x].work == ChildNode(t.blocks[p], t.blocks[x].block, None).work;
    }
  }
}
