/**
 * The block tree as a value: what is stored, what a block must satisfy to be
 * added, and how adding, pruning and resetting change it
 * (src/chain/blockchain.ts). Blockchain.dfy proves the class against this.
 */
module Tree {
  import opened Binary
  import opened BlockCodec
  import opened Compact
  import opened Consensus
  import opened Crypto
  import opened Genesis
  import opened Ledger
  import opened MedianTime
  import opened StateRoot
  import opened Transaction

  /** A stored block: its cumulative work, the ledger after it if kept, and the third-fork anchor its children use. */
  datatype Node = Node(block: Block, work: nat, state: Option<Ledger>, anchor: Option<Header>)

  /** All known blocks by header hash, and the tip. */
  datatype Tree = Tree(blocks: map<Hash32, Node>, tip: Hash32)

  datatype AddOptions = AddOptions(skipPoW: bool, skipTxSig: bool, skipStateRoot: bool)

  const FULL := AddOptions(false, false, false)

  const RETARGET_LOOKBACK: nat := DIFFICULTY_WINDOW + MTP_WINDOW - 1

  const GENESIS_HEADER := Header(0, ZERO32, ZERO32, ZERO32, GENESIS_TIMESTAMP, GENESIS_DIFFICULTY_COMPACT, 0, ZERO32)
  const GENESIS := Block(GENESIS_HEADER, [])

  function GenesisHash(c: Crypto): Hash32 { HashHeader(c, GENESIS_HEADER) }

  function GenesisNode(): Node {
    Node(GENESIS, BlockWork(GENESIS_DIFFICULTY_COMPACT), Some(EMPTY), None)
  }

  function InitTree(c: Crypto): (t: Tree)
    ensures t.tip in t.blocks
  {
    Tree(map[GenesisHash(c) := GenesisNode()], GenesisHash(c))
  }

  function HeaderAt(t: Tree, h: Hash32): Header
    requires h in t.blocks
  {
    t.blocks[h].block.header
  }

  // ------------------------------------------------------------------
  // Lookups
  // ------------------------------------------------------------------

  /** Up to `n` headers ending at `h`, oldest first (`getRecentHeaders`). */
  function Recent(t: Tree, h: Hash32, n: nat): (r: seq<Header>)
    ensures |r| <= n
    ensures n > 0 && h in t.blocks ==> r != [] && r[|r| - 1] == HeaderAt(t, h)
    decreases n
  {
    if n == 0 || h !in t.blocks then []
    else if HeaderAt(t, h).height == 0 then [HeaderAt(t, h)]
    else Recent(t, HeaderAt(t, h).prevHash, n - 1) + [HeaderAt(t, h)]
  }

  function InheritAnchor(parent: Node, header: Header): Option<Header> {
    if header.height == SANDGLASS2_ANCHOR_HEIGHT then Some(header) else parent.anchor
  }

  function ExpectedDifficulty(t: Tree, parent: Hash32, candidateTime: nat): Option<int>
    requires parent in t.blocks
  {
    NextDifficulty(HeaderAt(t, parent).height + 1, Recent(t, parent, RETARGET_LOOKBACK), Some(candidateTime),
                   t.blocks[parent].anchor)
  }

  function MtpAfter(t: Tree, parent: Hash32): nat { MedianTimePast(Recent(t, parent, MTP_WINDOW)) }

  /** The context the transactions of a child of `parent` run in. */
  function ChildContext(t: Tree, parent: Hash32): BlockContext
    requires parent in t.blocks
  {
    BlockContext(ScriptsActiveForMtp(MtpAfter(t, parent)), HeaderAt(t, parent).height + 1, MtpAfter(t, parent))
  }

  // ------------------------------------------------------------------
  // Judging a block
  // ------------------------------------------------------------------

  datatype Verdict = Known | Rejected | Unavailable | Accepted(state: Ledger)

  /** The checks that need only headers, in the order they are made. */
  predicate HeaderOk(c: Crypto, t: Tree, b: Block, now: nat, opts: AddOptions)
    requires b.header.prevHash in t.blocks
  {
    var h := b.header;
    && h.height == HeaderAt(t, h.prevHash).height + 1
    && |EncodeBlock(b)| <= MAX_BLOCK_BYTES
    && ExpectedDifficulty(t, h.prevHash, h.timestamp) == Some(h.difficulty)
    && h.timestamp <= now + MAX_FUTURE_TIME_S
    && (MtpAfter(t, h.prevHash) > 0 ==> h.timestamp > MtpAfter(t, h.prevHash))
    && (opts.skipPoW || CheckPoW(c, h))
    && ComputeTxRoot(c, b.transactions) == h.txRoot
  }

  predicate TxsValid(c: Crypto, txs: seq<Tx>) {
    forall i :: 0 <= i < |txs| ==> ValidStructure(c, txs[i])
  }

  ghost function Judge(c: Crypto, t: Tree, b: Block, now: nat, opts: AddOptions): Verdict {
    var h := b.header;
    if HashHeader(c, h) in t.blocks then Known
    else if h.prevHash !in t.blocks || !HeaderOk(c, t, b, now, opts) then Rejected
    else if t.blocks[h.prevHash].state.None? then Unavailable
    else JudgeTxs(c, t.blocks[h.prevHash].state.value, b, ChildContext(t, h.prevHash), opts)
  }

  ghost function JudgeTxs(c: Crypto, l: Ledger, b: Block, bc: BlockContext, opts: AddOptions): (v: Verdict)
    ensures v.Rejected? || v.Accepted?
  {
    if !opts.skipTxSig && !TxsValid(c, b.transactions) then Rejected
    else
      var applied := BlockApplied(c, l, b.header.miner, b.transactions, bc);
      if applied.None? || (!opts.skipStateRoot && Root(c, applied.value) != b.header.stateRoot) then Rejected
      else Accepted(applied.value)
  }

  // ------------------------------------------------------------------
  // Changing the tree
  // ------------------------------------------------------------------

  function ChildNode(parent: Node, b: Block, state: Option<Ledger>): Node {
    Node(b, parent.work + BlockWork(b.header.difficulty), state, InheritAnchor(parent, b.header))
  }

  /** Stores a block below its parent; the tip moves only to strictly more work. */
  function Insert(c: Crypto, t: Tree, b: Block, state: Option<Ledger>): Tree
    requires b.header.prevHash in t.blocks && t.tip in t.blocks
  {
    var n := ChildNode(t.blocks[b.header.prevHash], b, state);
    Tree(t.blocks[HashHeader(c, b.header) := n],
         if n.work > t.blocks[t.tip].work then HashHeader(c, b.header) else t.tip)
  }

  /** One attempt to add a block. On `Unavailable` the listeners may reset the chain. */
  ghost function Added(c: Crypto, t: Tree, b: Block, now: nat, opts: AddOptions, listenersReset: bool): Tree
    requires t.tip in t.blocks
  {
    match Judge(c, t, b, now, opts)
    case Accepted(l) => Insert(c, t, b, Some(l))
    case Unavailable => if listenersReset then InitTree(c) else t
    case _ => t
  }

  /**
   * A block taken from local storage: no validation, the state given. With a
   * state it becomes the tip whatever its work.
   */
  function Seeded(c: Crypto, t: Tree, b: Block, state: Option<Ledger>): Option<Tree>
    requires t.tip in t.blocks
  {
    var h := HashHeader(c, b.header);
    if h in t.blocks then Some(t)
    else if b.header.prevHash !in t.blocks || b.header.height != HeaderAt(t, b.header.prevHash).height + 1 then None
    else
      var t' := Insert(c, t, b, state);
      Some(if state.Some? then t'.(tip := h) else t')
  }

  // ------------------------------------------------------------------
  // Shape
  // ------------------------------------------------------------------

  /** Every stored block hangs below its parent, one higher, with work added and the anchor inherited. */
  predicate NodeOk(c: Crypto, t: Tree, h: Hash32)
    requires h in t.blocks
  {
    var n := t.blocks[h];
    var p := n.block.header.prevHash;
    && h == HashHeader(c, n.block.header)
    && (h == GenesisHash(c) ==> n.(state := None) == GenesisNode().(state := None))
    && (h != GenesisHash(c) ==>
          p in t.blocks && n.block.header.height == HeaderAt(t, p).height + 1
          && n.(state := None) == ChildNode(t.blocks[p], n.block, None))
  }

  ghost predicate Shape(c: Crypto, t: Tree) {
    && GenesisHash(c) in t.blocks && t.tip in t.blocks
    && forall h :: h in t.blocks ==> NodeOk(c, t, h)
  }

  /** The hashes from genesis to `h`. */
  ghost function Path(c: Crypto, t: Tree, h: Hash32): (p: seq<Hash32>)
    requires Shape(c, t) && h in t.blocks
    ensures |p| == HeaderAt(t, h).height + 1 && p[|p| - 1] == h
    decreases HeaderAt(t, h).height
  {
    assert NodeOk(c, t, h);
    if h == GenesisHash(c) then [h] else Path(c, t, HeaderAt(t, h).prevHash) + [h]
  }

  /** The headers from genesis to `h`. */
  ghost function HeadersTo(c: Crypto, t: Tree, h: Hash32): (hs: seq<Header>)
    requires Shape(c, t) && h in t.blocks
    ensures |hs| == HeaderAt(t, h).height + 1 && hs[|hs| - 1] == HeaderAt(t, h)
    decreases HeaderAt(t, h).height
  {
    assert NodeOk(c, t, h);
    if h == GenesisHash(c) then [HeaderAt(t, h)] else HeadersTo(c, t, HeaderAt(t, h).prevHash) + [HeaderAt(t, h)]
  }

  /** What the blocks from height 1 to `h` do to the ledger. */
  ghost function BodiesTo(c: Crypto, t: Tree, h: Hash32): (bs: seq<Body>)
    requires Shape(c, t) && h in t.blocks
    ensures |bs| == HeaderAt(t, h).height
    decreases HeaderAt(t, h).height
  {
    assert NodeOk(c, t, h);
    if h == GenesisHash(c) then [] else
      var n := t.blocks[h];
      var mtp := MtpAfter(t, n.block.header.prevHash);
      BodiesTo(c, t, n.block.header.prevHash)
      + [Body(n.block.header.miner, n.block.transactions, ScriptsActiveForMtp(mtp), mtp)]
  }

  // ------------------------------------------------------------------
  // Framing: more blocks, or other states, change no branch
  // ------------------------------------------------------------------

  /** `u` keeps every block of `t`, though perhaps not its state. */
  ghost predicate Extends(t: Tree, u: Tree) {
    forall h :: h in t.blocks ==> h in u.blocks && u.blocks[h].(state := None) == t.blocks[h].(state := None)
  }

  lemma ParentOf(c: Crypto, t: Tree, h: Hash32)
    requires Shape(c, t) && h in t.blocks
    ensures HeaderAt(t, h).height == 0 <==> h == GenesisHash(c)
    ensures h != GenesisHash(c) ==> HeaderAt(t, h).prevHash in t.blocks
    ensures h != GenesisHash(c) ==> HeaderAt(t, h).height == HeaderAt(t, HeaderAt(t, h).prevHash).height + 1
  {
    hide GenesisHash;
    assert NodeOk(c, t, h);
  }

  lemma RecentStep(c: Crypto, t: Tree, h: Hash32, n: nat)
    requires Shape(c, t) && h in t.blocks && n > 0
    ensures Recent(t, h, n) ==
      (if h == GenesisHash(c) then [] else Recent(t, HeaderAt(t, h).prevHash, n - 1)) + [HeaderAt(t, h)]
  {
    hide Shape, NodeOk, GenesisHash;
    ParentOf(c, t, h);
    assert [] + [HeaderAt(t, h)] == [HeaderAt(t, h)];
  }

  lemma NoRecent(t: Tree, h: Hash32)
    ensures Recent(t, h, 0) == []
  {
  }

  lemma {:induction false} RecentFrame(c: Crypto, t: Tree, u: Tree, h: Hash32, n: nat)
    requires Shape(c, t) && Shape(c, u) && Extends(t, u) && h in t.blocks
    ensures Recent(u, h, n) == Recent(t, h, n)
    decreases n
  {
    hide Shape, Recent, GenesisHash;
    if n == 0 {
      NoRecent(t, h);
      NoRecent(u, h);
    } else {
      assert HeaderAt(u, h) == HeaderAt(t, h);
      RecentStep(c, t, h, n);
      RecentStep(c, u, h, n);
      if h != GenesisHash(c) {
        ParentOf(c, t, h);
        RecentFrame(c, t, u, HeaderAt(t, h).prevHash, n - 1);
      }
    }
  }

  lemma {:induction false} BranchFrame(c: Crypto, t: Tree, u: Tree, h: Hash32)
    requires Shape(c, t) && Shape(c, u) && Extends(t, u) && h in t.blocks
    ensures Path(c, u, h) == Path(c, t, h) && HeadersTo(c, u, h) == HeadersTo(c, t, h)
    ensures BodiesTo(c, u, h) == BodiesTo(c, t, h)
    decreases HeaderAt(t, h).height
  {
    hide Shape, GenesisHash, MtpAfter, ScriptsActiveForMtp;
    ParentOf(c, t, h);
    assert HeaderAt(u, h) == HeaderAt(t, h);
    if h != GenesisHash(c) {
      var p := HeaderAt(t, h).prevHash;
      BranchFrame(c, t, u, p);
      MtpFrame(c, t, u, p);
    }
  }

  lemma MtpFrame(c: Crypto, t: Tree, u: Tree, h: Hash32)
    requires Shape(c, t) && Shape(c, u) && Extends(t, u) && h in t.blocks
    ensures MtpAfter(u, h) == MtpAfter(t, h)
  {
    hide Shape, Extends;
    RecentFrame(c, t, u, h, MTP_WINDOW);
  }

  /** The last `n` headers, or all of them. */
  function Tail(hs: seq<Header>, n: nat): seq<Header> {
    if |hs| <= n then hs else hs[|hs| - n..]
  }

  lemma TailAppend(hs: seq<Header>, x: Header, n: nat)
    requires n > 0
    ensures Tail(hs + [x], n) == Tail(hs, n - 1) + [x]
  {
  }

  /** The window a rule reads is the tail of the branch. */
  lemma {:induction false} RecentIsTail(c: Crypto, t: Tree, h: Hash32, n: nat)
    requires Shape(c, t) && h in t.blocks
    ensures Recent(t, h, n) == Tail(HeadersTo(c, t, h), n)
    decreases n
  {
    hide Shape, Recent, GenesisHash, Tail;
    if n == 0 {
      NoRecent(t, h);
      NoTail(HeadersTo(c, t, h));
    } else {
      RecentStep(c, t, h, n);
      ParentOf(c, t, h);
      if h == GenesisHash(c) {
        TailAppend([], HeaderAt(t, h), n);
        NoTailAtAll(n - 1);
        assert [] + [HeaderAt(t, h)] == [HeaderAt(t, h)];
      } else {
        RecentIsTail(c, t, HeaderAt(t, h).prevHash, n - 1);
        TailAppend(HeadersTo(c, t, HeaderAt(t, h).prevHash), HeaderAt(t, h), n);
      }
    }
  }

  lemma NoTail(hs: seq<Header>)
    ensures Tail(hs, 0) == []
  {
  }

  lemma NoTailAtAll(n: nat)
    ensures Tail([], n) == []
  {
  }
}
