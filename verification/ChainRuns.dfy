/**
 * Runs of the chain: any order of adding, pruning and resetting, with a snapshot
 * restored whenever the chain is new (src/chain/blockchain.ts,
 * src/minerd/persistence.ts, src/minerd/sync.ts 25-48).
 */
module ChainRuns {
  import opened Binary
  import opened BlockCodec
  import opened Compact
  import opened Consensus
  import opened Crypto
  import opened Genesis
  import opened Ledger
  import opened Reorg
  import opened Snapshot
  import opened SnapshotFacts
  import opened StateRoot
  import opened Tree
  import opened TreeRuns

  // ------------------------------------------------------------------
  // Ready, whatever was restored
  // ------------------------------------------------------------------

  /** Every caller restores only into a chain that holds genesis alone. */
  ghost predicate RestoresAtStart(c: Crypto, t: Tree, ops: seq<Op>)
    requires Shape(c, t)
  {
    forall i :: 0 <= i < |ops| && ops[i].Restore? ==> StartsNew(c, t, ops[..i]) && AnchorUnique(c, ops[i].disk)
  }

  ghost predicate StartsNew(c: Crypto, t: Tree, ops: seq<Op>)
    requires Shape(c, t)
  {
    RunFrom(c, t, ops) == InitTree(c)
  }

  ghost predicate RestoresNew(c: Crypto, ops: seq<Op>) {
    InitShape(c);
    RestoresAtStart(c, InitTree(c), ops)
  }

  lemma RestoresAtStartFront(c: Crypto, t: Tree, ops: seq<Op>)
    requires Shape(c, t) && RestoresAtStart(c, t, ops) && ops != []
    ensures var front, op := ops[..|ops| - 1], ops[|ops| - 1];
            && RestoresAtStart(c, t, front)
            && (op.Restore? ==> RunFrom(c, t, front) == InitTree(c) && AnchorUnique(c, op.disk))
  {
    hide Shape, AnchorUnique, RunFrom, InitTree;
    var front := ops[..|ops| - 1];
    assert forall i :: 0 <= i < |front| ==> front[i] == ops[i] && front[..i] == ops[..i];
    if ops[|ops| - 1].Restore? {
      assert StartsNew(c, t, ops[..|ops| - 1]);
    }
  }

  lemma DoReady(c: Crypto, t: Tree, op: Op)
    requires Ready(c, t) && Shape(c, t)
    requires op.Restore? ==> t == InitTree(c) && AnchorUnique(c, op.disk)
    ensures Ready(c, Do(c, t, op))
  {
    hide Ready, Shape, Added, Pruned, InitTree, Restored, AnchorUnique;
    match op
    case Add(b, now, opts, r) => GenesisKnown(c, t); AddedReady(c, t, b, now, opts, r);
    case Prune(minHeight) => PrunedReady(c, t, minHeight);
    case Reset => InitInv(c); ReadyOfInv(c, InitTree(c));
    case Restore(disk) => RestoredReady(c, disk);
  }

  /**
   * In every state a chain can reach, with whatever files it restored and
   * whatever was checked of its blocks: the tip is heaviest and has its state,
   * and missing states are closed under ancestors.
   */
  lemma {:induction false} RunReady(c: Crypto, t: Tree, ops: seq<Op>)
    requires Ready(c, t) && Shape(c, t) && RestoresAtStart(c, t, ops)
    ensures Ready(c, RunFrom(c, t, ops))
    decreases |ops|
  {
    hide Ready, Shape, Do, RestoresAtStart, AnchorUnique, InitTree;
    if ops != [] {
      RestoresAtStartFront(c, t, ops);
      RunReady(c, t, ops[..|ops| - 1]);
      DoReady(c, RunFrom(c, t, ops[..|ops| - 1]), ops[|ops| - 1]);
    }
  }

  /** One more operation. */
  lemma RunStep(c: Crypto, ops: seq<Op>, op: Op)
    ensures Run(c, ops + [op]) == Do(c, Run(c, ops), op)
  {
    hide Shape, Do, InitTree;
    InitShape(c);
    assert (ops + [op])[..|ops|] == ops;
  }

  lemma NewReady(c: Crypto)
    ensures Ready(c, InitTree(c)) && Shape(c, InitTree(c))
  {
    hide Ready, Shape, InitTree, Inv;
    InitShape(c);
    InitInv(c);
    ReadyOfInv(c, InitTree(c));
  }

  // ------------------------------------------------------------------
  // Validated, when the files restored were saved from validated chains
  // ------------------------------------------------------------------

  /** The file holds a branch of a validated tree, blocks and state, as saving writes it. */
  ghost predicate SavedFrom(c: Crypto, disk: Disk, t: Tree, a: Hash32) {
    && disk.Parsed? && Validated(c, t) && a in t.blocks && a != GenesisHash(c) && t.blocks[a].state.Some?
    && SavedAs(c, t, disk.file, a, t.blocks[a].state.value) && WireReady(c, BranchBlocks(c, t, a))
  }

  /** The file is refused, or some validated chain was saved in it. */
  ghost predicate Trusted(c: Crypto, disk: Disk) {
    !Restored(c, InitTree(c), disk).0 || exists t, a :: SavedFrom(c, disk, t, a)
  }

  lemma TrustedInv(c: Crypto, disk: Disk)
    requires Trusted(c, disk)
    ensures Inv(c, Restored(c, InitTree(c), disk).1)
  {
    hide Shape, Inv, InitTree, SavedAs, WireReady, CopiesBranch, GenesisHash, Readable, SeedAll;
    if Restored(c, InitTree(c), disk).0 {
      var t, a :| SavedFrom(c, disk, t, a);
      SaveThenRestore(c, t, disk.file, a, t.blocks[a].state.value);
      RestoredInv(c, t, Restored(c, InitTree(c), disk).1, a, t.blocks[a].state.value);
    } else {
      InitInv(c);
      assert Restored(c, InitTree(c), disk).1 == InitTree(c);
    }
  }

  ghost predicate AllTrusted(c: Crypto, ops: seq<Op>) {
    forall i :: 0 <= i < |ops| && ops[i].Restore? ==> Trusted(c, ops[i].disk)
  }

  lemma DoInv(c: Crypto, t: Tree, op: Op)
    requires Inv(c, t) && Shape(c, t) && (op.Add? ==> Full(op.opts))
    requires op.Restore? ==> t == InitTree(c) && Trusted(c, op.disk)
    ensures Inv(c, Do(c, t, op))
  {
    hide Inv, Added, Pruned, Shape, InitTree, Restored, Trusted;
    match op
    case Add(b, now, opts, r) => GenesisKnown(c, t); AddedInv(c, t, b, now, opts, r);
    case Prune(minHeight) => PrunedInv(c, t, minHeight);
    case Reset => InitInv(c);
    case Restore(disk) => TrustedInv(c, disk);
  }

  /**
   * With full validation, and files saved from validated chains: in every
   * reachable state each kept ledger is also the replay of its branch.
   */
  lemma {:induction false} RunInv(c: Crypto, t: Tree, ops: seq<Op>)
    requires Inv(c, t) && Shape(c, t) && RestoresAtStart(c, t, ops) && FullyValidating(ops) && AllTrusted(c, ops)
    ensures Inv(c, RunFrom(c, t, ops))
    decreases |ops|
  {
    hide Inv, Shape, Do, RestoresAtStart, AnchorUnique, InitTree, Trusted;
    if ops != [] {
      RestoresAtStartFront(c, t, ops);
      RunInv(c, t, ops[..|ops| - 1]);
      DoInv(c, RunFrom(c, t, ops[..|ops| - 1]), ops[|ops| - 1]);
    }
  }

  // ------------------------------------------------------------------
  // Blocks off the wire stay savable
  // ------------------------------------------------------------------

  /** Decoding a block's encoding gives it back, as for every block that came off the wire. */
  predicate WireBlock(b: Block) { DecodeBlock(EncodeBlock(b)) == Some(b) }

  ghost predicate Wired(c: Crypto, t: Tree) {
    forall h :: h in t.blocks && h != GenesisHash(c) ==> WireBlock(t.blocks[h].block)
  }

  ghost predicate AddsWireBlocks(ops: seq<Op>) {
    forall i :: 0 <= i < |ops| && ops[i].Add? ==> WireBlock(ops[i].block)
  }

  lemma DoWired(c: Crypto, t: Tree, op: Op)
    requires Wired(c, t) && Shape(c, t) && (op.Add? ==> WireBlock(op.block)) && (op.Restore? ==> t == InitTree(c))
    ensures Wired(c, Do(c, t, op))
  {
    hide Shape, Judge, GenesisHash, HashHeader, WireBlock, Prunable, BlockWork, InitTree, Restored;
    InitWired(c);
    match op
    case Add(_, _, _, _) => GenesisKnown(c, t);
    case Prune(_) =>
    case Reset =>
    case Restore(disk) => RestoredWired(c, disk);
  }

  lemma InitWired(c: Crypto)
    ensures Wired(c, InitTree(c))
  {
    hide GenesisHash, WireBlock;
  }

  lemma RestoredWired(c: Crypto, disk: Disk)
    ensures Wired(c, Restored(c, InitTree(c), disk).1)
  {
    hide GenesisHash, HashHeader, WireBlock, SeedAll, InitTree, DecodeAll, Root, LedgerOf, NetworkTag;
    InitWired(c);
    if disk.Parsed? && Restored(c, InitTree(c), disk).0 {
      var parts := Readable(c, disk.file).value;
      var u := SeedAll(c, InitTree(c), parts.blocks, Some(parts.ledger)).value;
      DecodedWired(disk.file.blocksHex.value);
      forall h | h in u.blocks && h != GenesisHash(c) ensures WireBlock(u.blocks[h].block) {
        SeedAllSource(c, parts.blocks, Some(parts.ledger), h);
      }
    }
  }

  lemma {:induction false} DecodedWired(hexes: seq<string>)
    ensures DecodeAll(hexes).Some? ==> forall b :: b in DecodeAll(hexes).value ==> WireBlock(b)
    decreases |hexes|
  {
    hide DecodeBlock, EncodeBlock, HexToBytes;
    if hexes != [] && DecodeAll(hexes).Some? {
      DecodedWired(hexes[..|hexes| - 1]);
      var bytes := HexToBytes(hexes[|hexes| - 1]).value;
      DecodeBlockExact(bytes, DecodeBlock(bytes).value);
    }
  }

  /** So every file a chain saves can be read back: its blocks all survive their encoding. */
  lemma {:induction false} RunSavable(c: Crypto, t: Tree, ops: seq<Op>, a: Hash32)
    requires Shape(c, t) && Wired(c, t) && AddsWireBlocks(ops) && RestoresAtStart(c, t, ops)
    requires a in RunFrom(c, t, ops).blocks
    ensures WireReady(c, BranchBlocks(c, RunFrom(c, t, ops), a))
  {
    hide Wired, WireBlock, Shape, RunFrom, RestoresAtStart, AddsWireBlocks;
    RunWired(c, t, ops);
    BranchWired(c, RunFrom(c, t, ops), a);
  }

  lemma {:induction false} RunWired(c: Crypto, t: Tree, ops: seq<Op>)
    requires Shape(c, t) && Wired(c, t) && AddsWireBlocks(ops) && RestoresAtStart(c, t, ops)
    ensures Wired(c, RunFrom(c, t, ops))
    decreases |ops|
  {
    hide Shape, Do, RestoresAtStart, AnchorUnique, InitTree, Wired, WireBlock;
    if ops != [] {
      RestoresAtStartFront(c, t, ops);
      RunWired(c, t, ops[..|ops| - 1]);
      DoWired(c, RunFrom(c, t, ops[..|ops| - 1]), ops[|ops| - 1]);
    }
  }

  lemma {:induction false} BranchWired(c: Crypto, t: Tree, a: Hash32)
    requires Shape(c, t) && Wired(c, t) && a in t.blocks
    ensures WireReady(c, BranchBlocks(c, t, a))
    decreases HeaderAt(t, a).height
  {
    hide Shape, GenesisHash, EncodeBlock, DecodeBlock;
    ParentOf(c, t, a);
    if a != GenesisHash(c) {
      BranchWired(c, t, HeaderAt(t, a).prevHash);
      assert WireBlock(t.blocks[a].block);
    }
  }

  // ------------------------------------------------------------------
  // From one process to the next
  // ------------------------------------------------------------------

  /** Blocks of a branch are stored under their own hashes. */
  lemma {:induction false} BranchStored(c: Crypto, t: Tree, h: Hash32, b: Block)
    requires Shape(c, t) && h in t.blocks && b in BranchBlocks(c, t, h)
    ensures HashHeader(c, b.header) in t.blocks && t.blocks[HashHeader(c, b.header)].block == b
    decreases HeaderAt(t, h).height
  {
    hide Shape, GenesisHash, HashHeader;
    ParentOf(c, t, h);
    if h != GenesisHash(c) {
      LinkFacts(c, t, h);
      if b != t.blocks[h].block {
        BranchStored(c, t, HeaderAt(t, h).prevHash, b);
      }
    }
  }

  /** A file saved from a validated tree is trusted, and its anchor's hash is the anchor's alone. */
  lemma SavedIsTrusted(c: Crypto, disk: Disk, t: Tree, a: Hash32)
    requires SavedFrom(c, disk, t, a)
    ensures Trusted(c, disk) && AnchorUnique(c, disk)
  {
    hide Shape, GenesisHash, HashHeader, Root, BlockOk, WireReady, SavedAs, Readable, Restored, InitTree, BranchBlocks;
    var l := t.blocks[a].state.value;
    ValidatedShape(c, t);
    CommittedRoot(c, t, a, l);
    ReadableWhenSaved(c, t, disk.file, a, l);
    var blocks := BranchBlocks(c, t, a);
    LinkFacts(c, t, a);
    ParentOf(c, t, a);
    forall i | 0 <= i < |blocks| && HashHeader(c, blocks[i].header) == a ensures blocks[i].header == HeaderAt(t, a) {
      BranchStored(c, t, a, blocks[i]);
    }
  }

  /**
   * What one process has validated and saved, the next one restores and builds
   * on: every invariant holds from its first block on, without validating again.
   */
  lemma NextProcess(c: Crypto, disk: Disk, t: Tree, a: Hash32, ops: seq<Op>)
    requires SavedFrom(c, disk, t, a)
    requires FullyValidating(ops) && forall i :: 0 <= i < |ops| ==> !ops[i].Restore?
    ensures Inv(c, Run(c, [Restore(disk)] + ops))
  {
    hide Inv, Shape, Trusted, AnchorUnique, InitTree, RunFrom, SavedFrom, StartsNew;
    SavedIsTrusted(c, disk, t, a);
    InitShape(c);
    InitInv(c);
    var all := [Restore(disk)] + ops;
    forall i | 0 <= i < |all| && all[i].Restore?
      ensures StartsNew(c, InitTree(c), all[..i]) && AnchorUnique(c, all[i].disk) && Trusted(c, all[i].disk)
    {
      assert i == 0 && all[..0] == [];
      StartsEmpty(c);
    }
    assert forall i :: 1 <= i < |all| ==> all[i] == ops[i - 1];
    RunInv(c, InitTree(c), all);
  }

  lemma StartsEmpty(c: Crypto)
    ensures Shape(c, InitTree(c)) && StartsNew(c, InitTree(c), [])
  {
    hide Shape, InitTree;
    InitShape(c);
  }

  // ------------------------------------------------------------------
  // Snapshots under pruning
  // ------------------------------------------------------------------

  /** The synchroniser prunes only 300 blocks behind the tip of the moment. */
  ghost predicate PrunesBehindTip(c: Crypto, ops: seq<Op>) {
    forall i :: 0 <= i < |ops| && ops[i].Prune? ==> ops[i].minHeight == RunHeight(c, ops[..i]) - STATE_RETAIN
  }

  ghost function RunHeight(c: Crypto, ops: seq<Op>): nat {
    GenesisKnown(c, Run(c, ops));
    TipHeight(Run(c, ops))
  }

  /** The greatest height the tip has had. */
  ghost function MaxHeight(c: Crypto, ops: seq<Op>): nat {
    if ops == [] then RunHeight(c, ops)
    else
      var m := MaxHeight(c, ops[..|ops| - 1]);
      if RunHeight(c, ops) > m then RunHeight(c, ops) else m
  }

  /** The greatest height a restored snapshot has left the tip at. */
  ghost function RestoredHeight(c: Crypto, ops: seq<Op>): nat {
    if ops == [] then 0
    else
      var a := RestoredHeight(c, ops[..|ops| - 1]);
      if ops[|ops| - 1].Restore? && RunHeight(c, ops) > a then RunHeight(c, ops) else a
  }

  /** Missing states are all at least 300 below height `m`, or below a restored anchor at height `a`. */
  ghost predicate NullsBuried(t: Tree, m: nat, a: nat) {
    forall h :: h in t.blocks && t.blocks[h].state.None? ==>
      HeaderAt(t, h).height < m - STATE_RETAIN || HeaderAt(t, h).height < a
  }

  lemma {:induction false} RunNullsBuried(c: Crypto, ops: seq<Op>)
    requires PrunesBehindTip(c, ops) && RestoresNew(c, ops)
    ensures NullsBuried(Run(c, ops), MaxHeight(c, ops), RestoredHeight(c, ops))
    ensures RunHeight(c, ops) <= MaxHeight(c, ops)
  {
    hide Shape, Do, InitTree, RestoresAtStart, AnchorUnique, NullsBuried;
    InitShape(c);
    if ops == [] {
      assert Run(c, ops) == InitTree(c);
      InitNulls(c, MaxHeight(c, ops), 0);
    } else {
      var front, op := ops[..|ops| - 1], ops[|ops| - 1];
      assert forall i :: 0 <= i < |front| ==> front[..i] == ops[..i];
      RestoresAtStartFront(c, InitTree(c), ops);
      RunNullsBuried(c, front);
      GenesisKnown(c, Run(c, front));
      GenesisKnown(c, Run(c, ops));
      DoNullsBuried(c, Run(c, front), op, MaxHeight(c, front), RestoredHeight(c, front));
      NullsMonotone(Run(c, ops), MaxHeight(c, front), MaxHeight(c, ops), RestoredHeight(c, front),
        RestoredHeight(c, ops));
    }
  }

  lemma NullsMonotone(t: Tree, m: nat, m': nat, a: nat, a': nat)
    requires m <= m' && a <= a'
    ensures NullsBuried(t, m, a) ==> NullsBuried(t, m', a')
    ensures t.tip in t.blocks && NullsBuried(t, m, MaxNat(a, TipHeight(t))) && TipHeight(t) <= a' ==>
      NullsBuried(t, m', a')
  {
  }

  function MaxNat(a: nat, b: nat): nat { if a >= b then a else b }

  lemma InitNulls(c: Crypto, m: nat, a: nat)
    ensures NullsBuried(InitTree(c), m, a)
  {
    hide GenesisHash;
  }

  lemma DoNullsBuried(c: Crypto, t: Tree, op: Op, m: nat, a: nat)
    requires Shape(c, t) && NullsBuried(t, m, a) && t.tip in t.blocks && TipHeight(t) <= m
    requires op.Prune? ==> op.minHeight == TipHeight(t) - STATE_RETAIN
    requires op.Restore? ==> t == InitTree(c) && AnchorUnique(c, op.disk)
    ensures var u := Do(c, t, op);
            u.tip in u.blocks && NullsBuried(u, m, if op.Restore? then MaxNat(a, TipHeight(u)) else a)
  {
    hide Shape, GenesisHash, HashHeader, Judge, Path, InitTree, Restored, AnchorUnique;
    GenesisKnown(c, Do(c, t, op));
    InitNulls(c, m, a);
    match op
    case Add(b, now, opts, r) =>
      AddNulls(c, t, b, now, opts, r, m, a);
    case Prune(minHeight) =>
    case Reset =>
    case Restore(disk) =>
      RestoredNulls(c, disk, m, a);
  }

  lemma AddNulls(
      c: Crypto, t: Tree, b: Block, now: nat, opts: AddOptions, listenersReset: bool, m: nat, a: nat)
    requires Shape(c, t) && NullsBuried(t, m, a) && t.tip in t.blocks
    ensures NullsBuried(Added(c, t, b, now, opts, listenersReset), m, a)
  {
    hide Shape, GenesisHash, HashHeader, JudgeTxs, EncodeBlock, ExpectedDifficulty, CheckPoW, ComputeTxRoot, MtpAfter,
      InitTree;
    InitNulls(c, m, a);
  }

  lemma RestoredNulls(c: Crypto, disk: Disk, m: nat, a: nat)
    requires AnchorUnique(c, disk)
    ensures var u := Restored(c, InitTree(c), disk).1;
            u.tip in u.blocks && NullsBuried(u, m, MaxNat(a, TipHeight(u)))
  {
    hide Shape, GenesisHash, HashHeader, IsChain, InitTree, Readable, SeedAll, AnchorUnique, Root;
    RestoreAllOrGenesis(c, disk);
    InitNulls(c, m, 0);
    InitShape(c);
    GenesisKnown(c, InitTree(c));
    NullsMonotone(InitTree(c), m, m, 0, MaxNat(a, TipHeight(InitTree(c))));
    if Restored(c, InitTree(c), disk).0 {
      var parts := Readable(c, disk.file).value;
      SeedAllGenesis(c, parts.blocks, Some(parts.ledger));
      ChainNulls(c, Restored(c, InitTree(c), disk).1, parts.blocks, Some(parts.ledger));
    }
  }

  lemma ChainNulls(c: Crypto, t: Tree, blocks: seq<Block>, state: Option<Ledger>)
    requires IsChain(c, t, blocks, state) && blocks != [] && t.tip == HashHeader(c, blocks[|blocks| - 1].header)
    requires state.Some? && GenesisHash(c) in t.blocks && t.blocks[GenesisHash(c)].state.Some?
    ensures t.tip in t.blocks
    ensures forall h :: h in t.blocks && t.blocks[h].state.None? ==> HeaderAt(t, h).height < TipHeight(t)
  {
    hide Shape, GenesisHash, HashHeader;
    assert IsLink(c, t, blocks, |blocks| - 1, state);
    forall h | h in t.blocks && t.blocks[h].state.None? ensures HeaderAt(t, h).height < TipHeight(t) {
      var i :| 0 <= i < |blocks| && h == HashHeader(c, blocks[i].header);
      assert IsLink(c, t, blocks, i, state);
    }
  }

  /**
   * While the tip is no more than 200 below the greatest height it has had, the
   * snapshot anchor 100 below the tip still has its state; on a restored chain,
   * once the tip is 100 above the restored one.
   */
  lemma SnapshotAvailable(c: Crypto, ops: seq<Op>)
    requires PrunesBehindTip(c, ops) && RestoresNew(c, ops)
    requires RunHeight(c, ops) > SNAPSHOT_DEPTH
    requires MaxHeight(c, ops) - RunHeight(c, ops) <= STATE_RETAIN - SNAPSHOT_DEPTH
    requires RestoredHeight(c, ops) <= RunHeight(c, ops) - SNAPSHOT_DEPTH
    ensures SnapshotHash(c, Run(c, ops), RunHeight(c, ops) - SNAPSHOT_DEPTH).Some?
  {
    hide Shape, Run, MaxHeight, RestoredHeight, RestoresAtStart;
    var t, height := Run(c, ops), RunHeight(c, ops) - SNAPSHOT_DEPTH;
    RunNullsBuried(c, ops);
    GenesisKnown(c, t);
    PathAt(c, t, t.tip, height);
  }
}
