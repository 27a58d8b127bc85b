/** Solo earnings kept by the console reporter (src/minerd/reporter.ts 17-21, 161-175, 257-291). */
module Reporter {
  import opened Binary
  import opened BlockCodec
  import opened Blockchain
  import opened ChainRuns
  import opened Consensus
  import opened Crypto
  import opened Genesis
  import opened Reorg
  import opened Snapshot
  import opened SnapshotFacts
  import opened Template
  import opened Tree
  import opened TreeRuns

  datatype SoloBlock = SoloBlock(height: nat, hash: Hash32)

  /** What the reporter remembers. */
  datatype Solo = Solo(blocks: seq<SoloBlock>, orphaned: set<Hash32>)

  /** In base units; the original then divides by the coin size for display. */
  function SoloEarned(heights: seq<nat>): nat {
    if heights == [] then 0 else SoloEarned(heights[..|heights| - 1]) + BlockReward(heights[|heights| - 1])
  }

  /** The heights of the recorded blocks not marked orphaned. */
  function CanonicalHeights(blocks: seq<SoloBlock>, orphaned: set<Hash32>): seq<nat> {
    if blocks == [] then []
    else
      var b := blocks[|blocks| - 1];
      CanonicalHeights(blocks[..|blocks| - 1], orphaned) + (if b.hash in orphaned then [] else [b.height])
  }

  function Earned(s: Solo): nat { SoloEarned(CanonicalHeights(s.blocks, s.orphaned)) }

  predicate Recorded(blocks: seq<SoloBlock>, h: Hash32) {
    exists i :: 0 <= i < |blocks| && blocks[i].hash == h
  }

  // ------------------------------------------------------------------
  // The reporter
  // ------------------------------------------------------------------

  class ConsoleReporter {
    var soloBlocks: seq<SoloBlock>
    var orphanedSoloHashes: set<Hash32>
    const poolMode: bool

    function View(): Solo
      reads this
    {
      Solo(soloBlocks, orphanedSoloHashes)
    }

    constructor (poolMode: bool)
      ensures View() == Solo([], {}) && this.poolMode == poolMode
    {
      soloBlocks, orphanedSoloHashes := [], {};
      this.poolMode := poolMode;
    }

    method CanonicalSolo() returns (earned: nat, count: nat)
      ensures earned == Earned(View()) && count == |CanonicalHeights(soloBlocks, orphanedSoloHashes)|
    {
      var heights: seq<nat> := [];
      for i := 0 to |soloBlocks|
        invariant heights == CanonicalHeights(soloBlocks[..i], orphanedSoloHashes)
      {
        assert soloBlocks[..i + 1][..i] == soloBlocks[..i];
        if soloBlocks[i].hash !in orphanedSoloHashes {
          heights := heights + [soloBlocks[i].height];
        }
      }
      assert soloBlocks[..|soloBlocks|] == soloBlocks;
      earned := SumRewards(heights);
      count := |heights|;
    }

    /** `soloEarnedBrc`, before its division by the coin size. */
    static method SumRewards(heights: seq<nat>) returns (wei: nat)
      ensures wei == SoloEarned(heights)
    {
      hide BlockReward;
      wei := 0;
      for i := 0 to |heights|
        invariant wei == SoloEarned(heights[..i])
      {
        assert heights[..i + 1][..i] == heights[..i];
        wei := wei + BlockReward(heights[i]);
      }
      assert heights[..|heights|] == heights;
    }

    method Found(height: nat, hash: Hash32, accepted: bool)
      modifies this
      ensures View() == if accepted && !poolMode
                        then Solo(old(soloBlocks) + [SoloBlock(height, hash)], old(orphanedSoloHashes)) else old(View())
    {
      if accepted && !poolMode {
        soloBlocks := soloBlocks + [SoloBlock(height, hash)];
      }
    }

    /** First what left the chain, then what joined it. */
    method OnReorg(connected: seq<Hash32>, disconnected: seq<Hash32>) returns (changed: bool)
      modifies this
      ensures View() == AfterReorg(old(View()), Delta(disconnected, connected))
      ensures changed ==> (exists h :: h in disconnected && Recorded(old(soloBlocks), h)) || connected != []
    {
      changed := false;
      for i := 0 to |disconnected|
        invariant soloBlocks == old(soloBlocks)
        invariant orphanedSoloHashes
                  == old(orphanedSoloHashes) + set h | h in disconnected[..i] && Recorded(soloBlocks, h)
        invariant changed ==> exists h :: h in disconnected && Recorded(soloBlocks, h)
      {
        var h := disconnected[i];
        assert disconnected[..i + 1] == disconnected[..i] + [h];
        if Recorded(soloBlocks, h) && h !in orphanedSoloHashes {
          orphanedSoloHashes := orphanedSoloHashes + {h};
          changed := true;
        }
      }
      assert disconnected[..|disconnected|] == disconnected;
      ghost var marked := orphanedSoloHashes;
      for i := 0 to |connected|
        invariant soloBlocks == old(soloBlocks)
        invariant orphanedSoloHashes == marked - set h | h in connected[..i]
        invariant changed ==> (exists h :: h in disconnected && Recorded(soloBlocks, h)) || connected != []
      {
        var h := connected[i];
        assert connected[..i + 1] == connected[..i] + [h];
        if h in orphanedSoloHashes {
          orphanedSoloHashes := orphanedSoloHashes - {h};
          changed := true;
        }
      }
      assert connected[..|connected|] == connected;
    }

    method SoloReorgReset()
      modifies this
      ensures View() == AfterReset(old(View()))
    {
      for i := 0 to |soloBlocks|
        invariant soloBlocks == old(soloBlocks)
        invariant orphanedSoloHashes == old(orphanedSoloHashes) + set b | b in soloBlocks[..i] :: b.hash
      {
        assert soloBlocks[..i + 1] == soloBlocks[..i] + [soloBlocks[i]];
        orphanedSoloHashes := orphanedSoloHashes + {soloBlocks[i].hash};
      }
      assert soloBlocks[..|soloBlocks|] == soloBlocks;
    }
  }

  function AfterReorg(s: Solo, d: Delta): Solo {
    s.(orphaned := (s.orphaned + set h | h in d.disconnected && Recorded(s.blocks, h)) - set h | h in d.connected)
  }

  function AfterReset(s: Solo): Solo {
    s.(orphaned := s.orphaned + set b | b in s.blocks :: b.hash)
  }

  // ------------------------------------------------------------------
  // Earnings follow the canonical chain
  // ------------------------------------------------------------------

  /** The reward of every block of the path that is one of ours, by its height. */
  ghost function OwnRewards(path: seq<Hash32>, own: set<Hash32>): nat {
    if path == [] then 0
    else OwnRewards(path[..|path| - 1], own) + (if path[|path| - 1] in own then BlockReward(|path| - 1) else 0)
  }

  function Own(blocks: seq<SoloBlock>): set<Hash32> { set b | b in blocks :: b.hash }

  /** A canonical chain, indexed by the heights its blocks have. */
  ghost predicate Canonical(heightOf: Hash32 -> nat, path: seq<Hash32>) {
    forall i :: 0 <= i < |path| ==> heightOf(path[i]) == i
  }

  /** Recorded blocks are distinct, at their true heights, and marked orphaned exactly when off the canonical chain. */
  ghost predicate Tracks(heightOf: Hash32 -> nat, s: Solo, path: seq<Hash32>) {
    && Canonical(heightOf, path) && path != []
    && (forall i, j :: 0 <= i < j < |s.blocks| ==> s.blocks[i].hash != s.blocks[j].hash)
    && (forall i :: 0 <= i < |s.blocks| ==> s.blocks[i].height == heightOf(s.blocks[i].hash) > 0)
    && (forall i :: 0 <= i < |s.blocks| ==> (s.blocks[i].hash in s.orphaned <==> s.blocks[i].hash !in path))
  }

  lemma {:induction false} OwnRewardsRemove(heightOf: Hash32 -> nat, path: seq<Hash32>, own: set<Hash32>, h: Hash32)
    requires Canonical(heightOf, path) && h !in own
    ensures OwnRewards(path, own + {h}) == OwnRewards(path, own) + (if h in path then BlockReward(heightOf(h)) else 0)
    decreases |path|
  {
    if path != [] {
      var front, last := path[..|path| - 1], path[|path| - 1];
      OwnRewardsRemove(heightOf, front, own, h);
      assert path == front + [last];
      assert heightOf(last) == |path| - 1;
      if h in front {
        var i :| 0 <= i < |front| && front[i] == h;
        assert path[i] == h && heightOf(path[i]) == i;
      }
    }
  }

  lemma {:induction false} OwnNothing(path: seq<Hash32>)
    ensures OwnRewards(path, {}) == 0
    decreases |path|
  {
    if path != [] {
      OwnNothing(path[..|path| - 1]);
    }
  }

  /** While the reporter tracks the chain, what it shows is the reward of exactly our blocks on it. */
  lemma {:induction false} EarnedExact(heightOf: Hash32 -> nat, s: Solo, path: seq<Hash32>)
    requires Tracks(heightOf, s, path)
    ensures Earned(s) == OwnRewards(path, Own(s.blocks))
    decreases |s.blocks|
  {
    if s.blocks == [] {
      assert Own(s.blocks) == {};
      OwnNothing(path);
    } else {
      hide BlockReward, OwnRewards;
      var front, last := s.blocks[..|s.blocks| - 1], s.blocks[|s.blocks| - 1];
      TracksFront(heightOf, s, path);
      EarnedExact(heightOf, Solo(front, s.orphaned), path);
      OwnRewardsRemove(heightOf, path, Own(front), last.hash);
      EarnedAppend(CanonicalHeights(front, s.orphaned), last.height);
    }
  }

  lemma TracksFront(heightOf: Hash32 -> nat, s: Solo, path: seq<Hash32>)
    requires Tracks(heightOf, s, path) && s.blocks != []
    ensures var front, last := s.blocks[..|s.blocks| - 1], s.blocks[|s.blocks| - 1];
            && Tracks(heightOf, Solo(front, s.orphaned), path)
            && last.hash !in Own(front) && Own(s.blocks) == Own(front) + {last.hash}
            && last.height == heightOf(last.hash) && (last.hash in s.orphaned <==> last.hash !in path)
  {
    var front, last := s.blocks[..|s.blocks| - 1], s.blocks[|s.blocks| - 1];
    assert s.blocks == front + [last];
    assert forall i :: 0 <= i < |front| ==> front[i] == s.blocks[i];
  }

  lemma EarnedAppend(heights: seq<nat>, h: nat)
    ensures SoloEarned(heights + [h]) == SoloEarned(heights) + BlockReward(h)
    ensures heights + [] == heights
  {
    assert (heights + [h])[..|heights|] == heights;
  }

  // ------------------------------------------------------------------
  // What reaches the reporter
  // ------------------------------------------------------------------

  /** An adopted own block, a tip move, a chain reset. */
  datatype Move = Mined(block: SoloBlock) | Moved(delta: Delta) | Restarted

  function NextSolo(s: Solo, m: Move): Solo {
    match m
    case Mined(b) => s.(blocks := s.blocks + [b])
    case Moved(d) => AfterReorg(s, d)
    case Restarted => AfterReset(s)
  }

  /** A delta whose folding gives a canonical chain again and that disconnects only what leaves it. */
  ghost predicate ChainDelta(heightOf: Hash32 -> nat, path: seq<Hash32>, d: Delta) {
    && |d.disconnected| < |path| && path[|path| - |d.disconnected|..] == Reverse(d.disconnected)
    && Canonical(heightOf, Fold(path, d))
    && (forall h :: h in d.disconnected ==> h !in Fold(path, d))
  }

  lemma TracksMined(heightOf: Hash32 -> nat, s: Solo, path: seq<Hash32>, b: SoloBlock)
    requires Tracks(heightOf, s, path) && OrphansRecorded(s)
    requires b.hash in path && !Recorded(s.blocks, b.hash) && b.height == heightOf(b.hash) > 0
    ensures Tracks(heightOf, NextSolo(s, Mined(b)), path) && OrphansRecorded(NextSolo(s, Mined(b)))
  {
    forall h | h in s.orphaned ensures Recorded(s.blocks + [b], h) {
      var i :| 0 <= i < |s.blocks| && s.blocks[i].hash == h;
      assert (s.blocks + [b])[i].hash == h;
    }
  }

  ghost predicate OrphansRecorded(s: Solo) { forall h :: h in s.orphaned ==> Recorded(s.blocks, h) }

  /** Reporting a block already recorded counts it twice, so that is exactly what must not happen. */
  lemma FoundTwiceCounts(heightOf: Hash32 -> nat, s: Solo, path: seq<Hash32>, b: SoloBlock)
    requires Tracks(heightOf, s, path) && b.hash in path && Recorded(s.blocks, b.hash) && b.height == heightOf(b.hash)
    ensures var u := NextSolo(s, Mined(b)); Earned(u) == OwnRewards(path, Own(u.blocks)) + BlockReward(b.height)
  {
    hide BlockReward, OwnRewards;
    var u := NextSolo(s, Mined(b));
    var i :| 0 <= i < |s.blocks| && s.blocks[i].hash == b.hash;
    assert s.blocks[i] in s.blocks;
    assert Own(u.blocks) == Own(s.blocks);
    assert u.blocks[..|u.blocks| - 1] == s.blocks;
    EarnedExact(heightOf, s, path);
    EarnedAppend(CanonicalHeights(s.blocks, s.orphaned), b.height);
  }

  lemma TracksMoved(heightOf: Hash32 -> nat, s: Solo, path: seq<Hash32>, d: Delta)
    requires Tracks(heightOf, s, path) && ChainDelta(heightOf, path, d) && OrphansRecorded(s)
    ensures Tracks(heightOf, AfterReorg(s, d), Fold(path, d)) && OrphansRecorded(AfterReorg(s, d))
  {
    var next, kept := Fold(path, d), path[..|path| - |d.disconnected|];
    ReverseMembers(d.disconnected);
    ReverseMembers(d.connected);
    assert path == kept + Reverse(d.disconnected);
    forall i | 0 <= i < |s.blocks|
      ensures s.blocks[i].hash in AfterReorg(s, d).orphaned <==> s.blocks[i].hash !in next
    {
      var h := s.blocks[i].hash;
      assert Recorded(s.blocks, h);
      assert h in path <==> h in kept || h in d.disconnected;
      assert h in next <==> h in kept || h in d.connected;
    }
  }

  lemma TracksRestart(heightOf: Hash32 -> nat, s: Solo, path: seq<Hash32>)
    requires Tracks(heightOf, s, path) && OrphansRecorded(s)
    ensures Tracks(heightOf, AfterReset(s), path[..1]) && OrphansRecorded(AfterReset(s))
  {
    forall b | b in s.blocks ensures Recorded(s.blocks, b.hash) {
      var i :| 0 <= i < |s.blocks| && s.blocks[i] == b;
    }
    forall i | 0 <= i < |s.blocks|
      ensures s.blocks[i].hash in AfterReset(s).orphaned && s.blocks[i].hash !in path[..1]
    {
      assert s.blocks[i] in s.blocks;
      assert heightOf(path[0]) == 0;
    }
  }

  /** With nothing recorded there is nothing to keep up with. */
  lemma TracksNothing(heightOf: Hash32 -> nat, s: Solo, path: seq<Hash32>)
    requires s.blocks == [] && Canonical(heightOf, path) && path != []
    ensures Tracks(heightOf, s, path)
  {
  }

  /** The deltas the chain announces are such deltas: between any two stored tips. */
  lemma ChainDeltasQualify(c: Crypto, t: Tree, heightOf: Hash32 -> nat, oldTip: Hash32, newTip: Hash32)
    requires Shape(c, t) && oldTip in t.blocks && newTip in t.blocks
    requires forall h :: h in t.blocks ==> heightOf(h) == HeaderAt(t, h).height
    ensures ChainDelta(heightOf, Path(c, t, oldTip), ExactDelta(c, t, oldTip, newTip))
    ensures Fold(Path(c, t, oldTip), ExactDelta(c, t, oldTip, newTip)) == Path(c, t, newTip)
  {
    hide Shape, Path, CommonLen;
    DeltaExact(c, t, oldTip, newTip);
    PathsShareGenesis(c, t, oldTip, newTip);
    forall i | 0 <= i < |Path(c, t, newTip)| ensures heightOf(Path(c, t, newTip)[i]) == i {
      PathAt(c, t, newTip, i);
    }
  }

  // ------------------------------------------------------------------
  // Runs of the chain
  // ------------------------------------------------------------------

  /** Something happens to the chain, or an own block, solved on its tip, is adopted and then reported as found. */
  datatype Life =
    | Chain(op: Op)
    | Adopt(template: Block, miner: Hash32, builtAt: nat, nonce: nat, now: nat)

  function Solved(template: Block, nonce: nat): Block { Block(template.header.(nonce := nonce), []) }

  function OpOf(e: Life): Op {
    match e
    case Chain(op) => op
    case Adopt(template, _, _, nonce, now) => Add(Solved(template, nonce), now, FULL, true)
  }

  function OpsOf(events: seq<Life>): (ops: seq<Op>)
    ensures |ops| == |events|
  {
    if events == [] then [] else OpsOf(events[..|events| - 1]) + [OpOf(events[|events| - 1])]
  }

  /**
   * What an operation makes the chain's listeners tell the reporter: the delta
   * when the tip moves, the reset they themselves make. A bare reset and a
   * restore tell nobody.
   */
  ghost function Announced(c: Crypto, t: Tree, op: Op): Option<Move>
    requires Shape(c, t)
  {
    GenesisKnown(c, t);
    match op
    case Add(b, now, opts, listenersReset) =>
      var u := Do(c, t, op);
      if Judge(c, t, b, now, opts).Unavailable? then (if listenersReset then Some(Restarted) else None)
      else if u.tip == t.tip then None
      else
        AddedKeepsTip(c, t, b, now, opts, listenersReset);
        Some(Moved(ExactDelta(c, u, t.tip, u.tip)))
    case _ => None
  }

  lemma AddedKeepsTip(c: Crypto, t: Tree, b: Block, now: nat, opts: AddOptions, listenersReset: bool)
    requires Shape(c, t) && t.tip in t.blocks && !Judge(c, t, b, now, opts).Unavailable?
    ensures var u := Added(c, t, b, now, opts, listenersReset); Extends(t, u) && t.tip in u.blocks && u.tip in u.blocks
  {
    hide Shape, GenesisHash, HashHeader, JudgeTxs, HeaderOk, ChildNode, InitTree;
  }

  ghost function Told(c: Crypto, t: Tree, s: Solo, op: Op): Solo
    requires Shape(c, t)
  {
    var m := Announced(c, t, op);
    if m.Some? then NextSolo(s, m.value) else s
  }

  ghost function NextLife(c: Crypto, t: Tree, s: Solo, e: Life): Solo
    requires Shape(c, t)
  {
    var told := Told(c, t, s, OpOf(e));
    match e
    case Chain(_) => told
    case Adopt(template, _, _, nonce, _) =>
      var h := Solved(template, nonce).header;
      NextSolo(told, Mined(SoloBlock(h.height, HashHeader(c, h))))
  }

  /** What the reporter remembers after a run that began with a new chain. */
  ghost function SoloAfter(c: Crypto, events: seq<Life>): Solo {
    if events == [] then Solo([], {})
    else
      var front := events[..|events| - 1];
      NextLife(c, Run(c, OpsOf(front)), SoloAfter(c, front), events[|events| - 1])
  }

  /** Heights by hash: there are such when no hash of the run ever stands for two heights. */
  ghost predicate HeightsAgree(heightOf: Hash32 -> nat, t: Tree) {
    forall h :: h in t.blocks ==> heightOf(h) == HeaderAt(t, h).height
  }

  /**
   * A snapshot is restored, and a chain silently reset, only at start-up, before
   * anything is found. An adopted block was built on the tip, meets its proof of
   * work, comes in time, and has not been found before.
   */
  ghost predicate Possible(c: Crypto, t: Tree, s: Solo, e: Life)
    requires Shape(c, t)
  {
    match e
    case Chain(op) =>
      && (op.Reset? || op.Restore? ==> s.blocks == [])
      && (op.Restore? ==> t == InitTree(c) && AnchorUnique(c, op.disk))
    case Adopt(template, miner, builtAt, nonce, now) =>
      var h := Solved(template, nonce).header;
      && TipMaterialized(t) && BuiltOn(c, t, template, miner, [], builtAt)
      && TemplateTime(t, builtAt) <= now + MAX_FUTURE_TIME_S
      && CheckPoW(c, h) && HashesApart(c, t, h) && !Recorded(s.blocks, HashHeader(c, h))
  }

  ghost predicate PossibleRun(c: Crypto, heightOf: Hash32 -> nat, events: seq<Life>) {
    && HeightsAgree(heightOf, Run(c, OpsOf(events)))
    && (events != [] ==>
          var front := events[..|events| - 1];
          && PossibleRun(c, heightOf, front)
          && Possible(c, Run(c, OpsOf(front)), SoloAfter(c, front), events[|events| - 1]))
  }

  /** The reporter's marks agree with the canonical chain. */
  ghost predicate Follows(c: Crypto, heightOf: Hash32 -> nat, t: Tree, s: Solo) {
    Ready(c, t) && Shape(c, t) && t.tip in t.blocks && Tracks(heightOf, s, Path(c, t, t.tip)) && OrphansRecorded(s)
  }

  lemma CanonicalPath(c: Crypto, heightOf: Hash32 -> nat, t: Tree)
    requires Shape(c, t) && t.tip in t.blocks && HeightsAgree(heightOf, t)
    ensures Canonical(heightOf, Path(c, t, t.tip)) && Path(c, t, t.tip) != []
    ensures Path(c, t, t.tip)[0] == GenesisHash(c)
  {
    hide Shape, Path, GenesisHash;
    PathsShareGenesis(c, t, t.tip, t.tip);
    forall i | 0 <= i < |Path(c, t, t.tip)| ensures heightOf(Path(c, t, t.tip)[i]) == i {
      PathAt(c, t, t.tip, i);
    }
  }

  lemma ChainStep(c: Crypto, heightOf: Hash32 -> nat, t: Tree, s: Solo, op: Op)
    requires Follows(c, heightOf, t, s) && HeightsAgree(heightOf, t) && HeightsAgree(heightOf, Do(c, t, op))
    requires op.Reset? || op.Restore? ==> s.blocks == []
    requires op.Restore? ==> t == InitTree(c) && AnchorUnique(c, op.disk)
    ensures Follows(c, heightOf, Do(c, t, op), Told(c, t, s, op))
  {
    hide Shape, Path, Ready, Tracks, HeightsAgree, InitTree, AnchorUnique, Restored, Added, Pruned, GenesisHash;
    DoReady(c, t, op);
    GenesisKnown(c, Do(c, t, op));
    CanonicalPath(c, heightOf, Do(c, t, op));
    match op
    case Add(b, now, opts, r) => AddStep(c, heightOf, t, s, b, now, opts, r);
    case Prune(minHeight) =>
      PrunedExtends(c, t, minHeight);
      PrunedTipStays(c, t, minHeight);
      BranchFrame(c, t, Do(c, t, op), t.tip);
    case Reset => TracksNothing(heightOf, s, Path(c, Do(c, t, op), Do(c, t, op).tip));
    case Restore(disk) => TracksNothing(heightOf, s, Path(c, Do(c, t, op), Do(c, t, op).tip));
  }

  lemma PrunedTipStays(c: Crypto, t: Tree, minHeight: int)
    requires Shape(c, t)
    ensures Pruned(c, t, minHeight).tip == t.tip
  {
  }

  lemma AddStep(
      c: Crypto, heightOf: Hash32 -> nat, t: Tree, s: Solo, b: Block, now: nat, opts: AddOptions, listenersReset: bool)
    requires Shape(c, t) && t.tip in t.blocks && Tracks(heightOf, s, Path(c, t, t.tip)) && OrphansRecorded(s)
    requires HeightsAgree(heightOf, Do(c, t, Add(b, now, opts, listenersReset)))
    ensures var op := Add(b, now, opts, listenersReset);
            var u, s' := Do(c, t, op), Told(c, t, s, op);
            u.tip in u.blocks && Tracks(heightOf, s', Path(c, u, u.tip)) && OrphansRecorded(s')
  {
    hide Shape, Path, Tracks, OrphansRecorded, InitTree, GenesisHash, Judge, Insert, AfterReorg, AfterReset;
    var u := Do(c, t, Add(b, now, opts, listenersReset));
    GenesisKnown(c, u);
    if !Judge(c, t, b, now, opts).Unavailable? {
      AddedKeepsTip(c, t, b, now, opts, listenersReset);
      BranchFrame(c, t, u, t.tip);
      if u.tip != t.tip {
        ChainDeltasQualify(c, u, heightOf, t.tip, u.tip);
        TracksMoved(heightOf, s, Path(c, t, t.tip), ExactDelta(c, u, t.tip, u.tip));
      }
    } else if listenersReset {
      TracksRestart(heightOf, s, Path(c, t, t.tip));
      FirstOfPath(c, t);
      NewPath(c);
    }
  }

  lemma FirstOfPath(c: Crypto, t: Tree)
    requires Shape(c, t) && t.tip in t.blocks
    ensures Path(c, t, t.tip)[..1] == [GenesisHash(c)]
  {
    hide Shape, GenesisHash, Path;
    PathsShareGenesis(c, t, t.tip, t.tip);
  }

  lemma NewPath(c: Crypto)
    ensures Shape(c, InitTree(c)) && Path(c, InitTree(c), InitTree(c).tip) == [GenesisHash(c)]
  {
    hide Shape, GenesisHash;
    InitShape(c);
  }

  lemma AdoptStep(c: Crypto, heightOf: Hash32 -> nat, t: Tree, s: Solo, e: Life)
    requires e.Adopt? && Follows(c, heightOf, t, s) && Possible(c, t, s, e)
    requires HeightsAgree(heightOf, t) && HeightsAgree(heightOf, Do(c, t, OpOf(e)))
    ensures Follows(c, heightOf, Do(c, t, OpOf(e)), NextLife(c, t, s, e))
  {
    hide Shape, Path, Ready, Tracks, OrphansRecorded, Judge, HashHeader, CheckPoW, HashesApart, TxsValid, EncodeTxs,
      TemplateTime, BuiltOn, AfterReorg, AfterReset, Announced, InitTree;
    var b := Solved(e.template, e.nonce);
    NothingFits(c);
    BuiltBlockAccepted(c, t, e.template, e.miner, [], e.builtAt, e.nonce, e.now);
    ChainStep(c, heightOf, t, s, OpOf(e));
    var u := Do(c, t, OpOf(e));
    TipIsSolved(c, t, b, e.now);
    TopOfPath(c, u, u.tip);
    assert HashHeader(c, b.header) in Path(c, u, u.tip);
    ToldSameBlocks(c, t, s, OpOf(e));
    TracksMined(heightOf, Told(c, t, s, OpOf(e)), Path(c, u, u.tip),
                SoloBlock(b.header.height, HashHeader(c, b.header)));
  }

  lemma TipIsSolved(c: Crypto, t: Tree, b: Block, now: nat)
    requires Shape(c, t) && t.tip in t.blocks && Judge(c, t, b, now, FULL).Accepted?
    ensures var u := Added(c, t, b, now, FULL, true);
            && HashHeader(c, b.header) in u.blocks && HeaderAt(u, HashHeader(c, b.header)) == b.header
            && b.header.height > 0
  {
    hide Shape, GenesisHash, HashHeader, JudgeTxs, EncodeBlock, ExpectedDifficulty, CheckPoW, ComputeTxRoot, MtpAfter;
  }

  lemma ToldSameBlocks(c: Crypto, t: Tree, s: Solo, op: Op)
    requires Shape(c, t)
    ensures Told(c, t, s, op).blocks == s.blocks
  {
    hide Shape, Judge;
  }

  /** The own blocks are those adopted. */
  ghost function AdoptedHashes(c: Crypto, events: seq<Life>): set<Hash32> {
    if events == [] then {}
    else
      var e := events[|events| - 1];
      AdoptedHashes(c, events[..|events| - 1])
      + if e.Adopt? then {HashHeader(c, Solved(e.template, e.nonce).header)} else {}
  }

  lemma {:induction false} OwnIsAdopted(c: Crypto, events: seq<Life>)
    ensures Own(SoloAfter(c, events).blocks) == AdoptedHashes(c, events)
    decreases |events|
  {
    hide Shape, Announced, HashHeader, Run;
    if events != [] {
      var front, e := events[..|events| - 1], events[|events| - 1];
      OwnIsAdopted(c, front);
      ToldSameBlocks(c, Run(c, OpsOf(front)), SoloAfter(c, front), OpOf(e));
      if e.Adopt? {
        var h := Solved(e.template, e.nonce).header;
        OwnAppend(SoloAfter(c, front).blocks, SoloBlock(h.height, HashHeader(c, h)));
      }
    }
  }

  lemma OwnAppend(blocks: seq<SoloBlock>, b: SoloBlock)
    ensures Own(blocks + [b]) == Own(blocks) + {b.hash}
  {
    forall x | x in blocks ensures x in blocks + [b] {
    }
    assert b in blocks + [b];
  }

  /**
   * After any run of the chain and of own solves, the earnings shown are the
   * rewards of exactly our blocks on the canonical chain of that moment.
   */
  lemma EarningsFollowChain(c: Crypto, heightOf: Hash32 -> nat, events: seq<Life>)
    requires PossibleRun(c, heightOf, events)
    ensures var t, s := Run(c, OpsOf(events)), SoloAfter(c, events);
            t.tip in t.blocks && Earned(s) == OwnRewards(Path(c, t, t.tip), AdoptedHashes(c, events))
  {
    hide Shape, Path, Tracks, Ready, Run, Possible;
    RunTracks(c, heightOf, events);
    OwnIsAdopted(c, events);
    var t, s := Run(c, OpsOf(events)), SoloAfter(c, events);
    EarnedExact(heightOf, s, Path(c, t, t.tip));
  }

  lemma {:induction false} RunTracks(c: Crypto, heightOf: Hash32 -> nat, events: seq<Life>)
    requires PossibleRun(c, heightOf, events)
    ensures Follows(c, heightOf, Run(c, OpsOf(events)), SoloAfter(c, events))
    decreases |events|
  {
    hide Shape, Path, Tracks, Ready, RunFrom, Possible, HeightsAgree, Follows, NextLife, Do, InitTree;
    if events == [] {
      NewFollows(c, heightOf);
    } else {
      var front, e := events[..|events| - 1], events[|events| - 1];
      var t, s := Run(c, OpsOf(front)), SoloAfter(c, front);
      RunTracks(c, heightOf, front);
      RunStep(c, OpsOf(front), OpOf(e));
      HeightsOfRun(c, heightOf, front);
      LifeStep(c, heightOf, t, s, e);
    }
  }

  lemma HeightsOfRun(c: Crypto, heightOf: Hash32 -> nat, events: seq<Life>)
    requires PossibleRun(c, heightOf, events)
    ensures HeightsAgree(heightOf, Run(c, OpsOf(events)))
  {
  }

  lemma LifeStep(c: Crypto, heightOf: Hash32 -> nat, t: Tree, s: Solo, e: Life)
    requires Shape(c, t) && Follows(c, heightOf, t, s) && Possible(c, t, s, e)
    requires HeightsAgree(heightOf, t) && HeightsAgree(heightOf, Do(c, t, OpOf(e)))
    ensures Follows(c, heightOf, Do(c, t, OpOf(e)), NextLife(c, t, s, e))
  {
    hide Follows, HeightsAgree, Do, Shape, Told, BuiltOn, HashesApart, CheckPoW, InitTree;
    match e
    case Chain(op) => ChainStep(c, heightOf, t, s, op);
    case Adopt(_, _, _, _, _) => AdoptStep(c, heightOf, t, s, e);
  }

  lemma NewFollows(c: Crypto, heightOf: Hash32 -> nat)
    requires HeightsAgree(heightOf, Run(c, []))
    ensures Follows(c, heightOf, Run(c, []), Solo([], {}))
  {
    hide Shape, Path, Tracks, Ready, InitTree;
    NewReady(c);
    InitShape(c);
    GenesisKnown(c, InitTree(c));
    assert Run(c, []) == InitTree(c);
    CanonicalPath(c, heightOf, InitTree(c));
    TracksNothing(heightOf, Solo([], {}), Path(c, InitTree(c), InitTree(c).tip));
  }
}
