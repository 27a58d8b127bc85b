/**
 * The synchroniser (src/minerd/sync.ts): pages of blocks fetched from helpers,
 * applied in order and pruned behind the tip. Replies are an input: what the
 * helpers answer, in the order the answers are awaited.
 */
module Sync {
  import opened Binary
  import opened BlockCodec
  import opened Blockchain
  import opened ChainRuns
  import opened Consensus
  import opened Crypto
  import opened Genesis
  import opened Reorg
  import opened Snapshot
  import opened SnapshotFacts
  import opened Tree
  import opened TreeRuns

  const PAGE: nat := 200
  const CATCHUP_OVERLAP: nat := 5
  const CATCHUP_WIDEN_FACTOR: nat := 5
  const CATCHUP_MAX_OVERLAP: nat := SNAPSHOT_DEPTH - 10

  /** `addBlockWithPow` skips only the proof of work, which a worker has checked. */
  const POW_CHECKED := AddOptions(true, false, false)

  /** A fetched block, the worker's verdict on its proof of work, and the clock when it is added. */
  datatype Item = Item(block: Block, powOk: bool, now: nat)

  /** A page, or an error of the fetch or of the verifier. */
  datatype Reply = Page(items: seq<Item>) | Fails

  datatype RemoteTip = RemoteTip(height: nat, tipHash: string)

  /** Waiting: the next answer has not come. */
  datatype Outcome = Unchanged | Changed | TooDeep | Failed | Waiting

  // ------------------------------------------------------------------
  // A page's effect on the tree
  // ------------------------------------------------------------------

  ghost function ItemAdded(c: Crypto, t: Tree, item: Item, listenersReset: bool): (u: Tree)
    requires Shape(c, t)
    ensures Shape(c, u)
  {
    if item.powOk then Do(c, t, Add(item.block, item.now, POW_CHECKED, listenersReset)) else t
  }

  ghost function Batch(c: Crypto, t: Tree, items: seq<Item>, listenersReset: bool): (u: Tree)
    requires Shape(c, t)
    ensures Shape(c, u)
  {
    if items == [] then t
    else ItemAdded(c, Batch(c, t, items[..|items| - 1], listenersReset), items[|items| - 1], listenersReset)
  }

  /** States too far behind the tip are dropped once a page is in. */
  ghost function BatchApplied(c: Crypto, t: Tree, items: seq<Item>, listenersReset: bool,
      retain: Option<nat>): (u: Tree)
    requires Shape(c, t)
    ensures Shape(c, u)
  {
    var u := Batch(c, t, items, listenersReset);
    GenesisKnown(c, u);
    if retain.Some? then Do(c, u, Prune(TipHeight(u) - retain.value)) else u
  }

  /** The pages that came, one after the other; an empty page or a failure changes nothing. */
  ghost function PagesApplied(c: Crypto, t: Tree, replies: seq<Reply>, listenersReset: bool,
      retain: Option<nat>): (u: Tree)
    requires Shape(c, t)
    ensures Shape(c, u)
  {
    if replies == [] then t
    else ReplyApplied(c, PagesApplied(c, t, replies[..|replies| - 1], listenersReset, retain), replies[|replies| - 1],
                      listenersReset, retain)
  }

  ghost function ReplyApplied(c: Crypto, t: Tree, reply: Reply, listenersReset: bool, retain: Option<nat>): (u: Tree)
    requires Shape(c, t)
    ensures Shape(c, u)
  {
    if reply == Fails || reply == Page([]) then t else BatchApplied(c, t, reply.items, listenersReset, retain)
  }

  lemma PagesStep(c: Crypto, t: Tree, replies: seq<Reply>, k: nat, listenersReset: bool, retain: Option<nat>)
    requires Shape(c, t) && k < |replies|
    ensures var before := PagesApplied(c, t, replies[..k], listenersReset, retain);
            var after := PagesApplied(c, t, replies[..k + 1], listenersReset, retain);
            && (replies[k] == Fails || replies[k] == Page([]) ==> after == before)
            && (replies[k].Page? && replies[k].items != [] ==>
                  after == BatchApplied(c, before, replies[k].items, listenersReset, retain))
  {
    hide Shape, BatchApplied;
    assert replies[..k + 1][..k] == replies[..k];
  }

  lemma NoReplies(c: Crypto, t: Tree, replies: seq<Reply>, listenersReset: bool, retain: Option<nat>)
    requires Shape(c, t)
    ensures PagesApplied(c, t, replies[..0], listenersReset, retain) == t
  {
    hide Shape, ReplyApplied;
  }

  lemma BatchStep(c: Crypto, t: Tree, items: seq<Item>, i: nat, listenersReset: bool)
    requires Shape(c, t) && i < |items|
    ensures Batch(c, t, items[..i + 1], listenersReset)
            == ItemAdded(c, Batch(c, t, items[..i], listenersReset), items[i], listenersReset)
  {
    hide Shape, ItemAdded;
    assert items[..i + 1][..i] == items[..i];
  }

  /** The tree is a run's: restored at most when new, fully validating, and pruned as the miner asks. */
  ghost predicate Follows(c: Crypto, t: Tree, history: seq<Op>, retain: Option<nat>) {
    && t == Run(c, history) && RestoresNew(c, history) && FullyValidating(history)
    && (retain.None? || retain == Some(STATE_RETAIN) ==> PrunesBehindTip(c, history))
  }

  lemma FollowStep(c: Crypto, t: Tree, history: seq<Op>, retain: Option<nat>, op: Op)
    requires Follows(c, t, history, retain) && t.tip in t.blocks && Shape(c, t)
    requires !op.Restore? && (op.Add? ==> Full(op.opts))
    requires op.Prune? ==> retain.Some? && op.minHeight == TipHeight(t) - retain.value
    ensures Follows(c, Do(c, t, op), history + [op], retain)
  {
    hide Shape, Do, InitTree, Run, AnchorUnique, StartsNew, RestoresNew;
    RunStep(c, history, op);
    RestoresAppend(c, history, op);
    var ops := history + [op];
    forall i | 0 <= i < |ops| && ops[i].Prune? && (retain.None? || retain == Some(STATE_RETAIN))
      ensures ops[i].minHeight == RunHeight(c, ops[..i]) - STATE_RETAIN
    {
      if i < |history| {
        assert ops[..i] == history[..i];
      } else {
        assert ops[..i] == history;
      }
    }
  }

  lemma RestoresAppend(c: Crypto, history: seq<Op>, op: Op)
    requires RestoresNew(c, history) && !op.Restore?
    ensures RestoresNew(c, history + [op])
  {
    hide Shape, InitTree, AnchorUnique, StartsNew;
    InitShape(c);
    var ops := history + [op];
    forall i | 0 <= i < |ops| && ops[i].Restore?
      ensures StartsNew(c, InitTree(c), ops[..i]) && AnchorUnique(c, ops[i].disk)
    {
      assert ops[i] == history[i] && ops[..i] == history[..i];
    }
  }

  /** A chain just made, or just restored from disk, can be followed. */
  lemma FollowsStart(c: Crypto, disk: Disk, retain: Option<nat>)
    requires AnchorUnique(c, disk)
    ensures Follows(c, InitTree(c), [], retain)
    ensures Follows(c, Restored(c, InitTree(c), disk).1, [Restore(disk)], retain)
  {
    hide Shape, InitTree, AnchorUnique, Restored;
    InitShape(c);
    assert [Restore(disk)][..0] == [];
    assert Run(c, []) == InitTree(c);
    assert StartsNew(c, InitTree(c), []);
    RunStep(c, [], Restore(disk));
    assert [] + [Restore(disk)] == [Restore(disk)];
  }

  // ------------------------------------------------------------------
  // The synchroniser
  // ------------------------------------------------------------------

  /** Where a fetch starts: below both our tip and the remote one. */
  function FetchFrom(height: nat, remote: Option<RemoteTip>, overlap: nat): (from: nat)
    ensures from >= 1
  {
    var base := if remote.Some? && remote.value.height < height then remote.value.height else height;
    if base - overlap > 1 then base - overlap else 1
  }

  /** A page that starts where it was asked to and hangs on a block of the tree. */
  predicate Connected(t: Tree, items: seq<Item>, from: nat) {
    items != [] && items[0].block.header.height == from && items[0].block.header.prevHash in t.blocks
  }

  /** A page bootstrapping applied: where it was asked from, what it held, and the height around it. */
  datatype PageUse = PageUse(from: nat, items: seq<Item>, before: nat, after: nat)

  /** The overlaps tried in turn: 5, then 25, then 90. */
  const OVERLAPS: seq<nat> := [CATCHUP_OVERLAP, CATCHUP_OVERLAP * CATCHUP_WIDEN_FACTOR, CATCHUP_MAX_OVERLAP]

  predicate LastPage(p: PageUse) { |p.items| < PAGE || p.after == p.before }

  predicate InStep(pages: seq<PageUse>) {
    && (forall k :: 0 <= k < |pages| ==> pages[k].from == pages[k].before + 1)
    && (forall k :: 0 <= k < |pages| - 1 ==> !LastPage(pages[k]) && pages[k + 1].before == pages[k].after)
  }

  function PagesOf(pages: seq<PageUse>): (replies: seq<Reply>)
    ensures |replies| == |pages|
  {
    seq(|pages|, k requires 0 <= k < |pages| => Page(pages[k].items))
  }

  lemma PagesOfAppend(c: Crypto, t: Tree, pages: seq<PageUse>, p: PageUse, listenersReset: bool, retain: Option<nat>)
    requires Shape(c, t) && p.items != []
    ensures PagesApplied(c, t, PagesOf(pages + [p]), listenersReset, retain)
            == BatchApplied(c, PagesApplied(c, t, PagesOf(pages), listenersReset, retain), p.items, listenersReset,
                            retain)
  {
    hide Shape, BatchApplied;
    assert PagesOf(pages + [p])[..|pages|] == PagesOf(pages);
  }

  lemma NoPagesApplied(c: Crypto, t: Tree, listenersReset: bool, retain: Option<nat>)
    requires Shape(c, t)
    ensures PagesApplied(c, t, PagesOf([]), listenersReset, retain) == t
  {
    hide Shape, ReplyApplied;
  }

  lemma ShortOrStill(p: PageUse)
    ensures LastPage(p) <==> |p.items| < PAGE || p.after == p.before
  {
  }

  lemma NoPages()
    ensures InStep([])
  {
  }

  lemma InStepAppend(pages: seq<PageUse>, p: PageUse)
    requires InStep(pages) && p.from == p.before + 1
    requires pages != [] ==> !LastPage(pages[|pages| - 1]) && p.before == pages[|pages| - 1].after
    ensures InStep(pages + [p])
  {
    hide LastPage;
  }

  lemma EmptyBatch(c: Crypto, t: Tree, listenersReset: bool)
    requires Shape(c, t)
    ensures Batch(c, t, [], listenersReset) == t
  {
  }

  class ChainSync {
    const chain: Blockchain
    const listenersReset: bool
    const stateRetain: Option<nat>
    /** Everything done to the chain since it was new, by whomever. */
    ghost var history: seq<Op>

    ghost predicate Valid()
      reads this, chain, chain.Repr
    {
      this !in chain.Repr && chain.Valid() && Follows(chain.c, chain.tree, history, stateRetain)
    }

    /** On a new chain, a restored one, or one already in use: each catch-up may make its own synchroniser. */
    constructor (chain: Blockchain, listenersReset: bool, stateRetain: Option<nat>, ghost history: seq<Op>)
      requires chain.Valid() && Follows(chain.c, chain.tree, history, stateRetain)
      ensures Valid() && this.chain == chain && this.stateRetain == stateRetain && this.history == history
    {
      hide InitTree, Shape, Kept, Footprint, Follows;
      this.chain, this.listenersReset, this.stateRetain := chain, listenersReset, stateRetain;
      this.history := history;
    }

    function Height(): (h: nat)
      requires chain.Valid()
      reads this, chain, chain.Repr
      ensures chain.tree.tip in chain.tree.blocks && h == TipHeight(chain.tree) && chain.tipHash == chain.tree.tip
    {
      GenesisKnown(chain.c, chain.tree);
      chain.StoredAt(chain.tipHash);
      chain.blocks[chain.tipHash].block.header.height
    }

    lemma TipKnown()
      requires chain.Valid()
      ensures Shape(chain.c, chain.tree) && chain.tree.tip in chain.tree.blocks
    {
      GenesisKnown(chain.c, chain.tree);
    }

    predicate HasBlock(hex: string)
      reads chain
    {
      exists h :: h in chain.blocks && BytesToHex(h) == hex
    }

    /** So everything proved of runs holds of the chain at every point of its synchronisation. */
    lemma KeepsInvariants()
      requires Valid()
      ensures Ready(chain.c, chain.tree)
      ensures AllTrusted(chain.c, history) ==> Inv(chain.c, chain.tree)
    {
      hide Ready, Inv, Shape, Blockchain.Valid, RunFrom, InitTree, RestoresAtStart, AllTrusted;
      var c := chain.c;
      InitShape(c);
      InitInv(c);
      ReadyOfInv(c, InitTree(c));
      RunReady(c, InitTree(c), history);
      if AllTrusted(c, history) {
        RunInv(c, InitTree(c), history);
      }
    }

    method AddItem(item: Item)
      requires Valid()
      modifies this, chain
      ensures Valid() && fresh(chain.Repr - old(chain.Repr)) && Shape(chain.c, old(chain.tree))
      ensures chain.tree == ItemAdded(chain.c, old(chain.tree), item, listenersReset)
    {
      hide Shape, Kept, Footprint, InitTree, Run, Judge, Added, Follows;
      GenesisKnown(chain.c, chain.tree);
      if item.powOk {
        ghost var op := Add(item.block, item.now, POW_CHECKED, listenersReset);
        FollowStep(chain.c, chain.tree, history, stateRetain, op);
        var ok, announced := chain.AddBlock(item.block, item.now, POW_CHECKED, listenersReset);
        history := history + [op];
      }
    }

    method PruneBehindTip()
      requires Valid() && stateRetain.Some?
      modifies this, chain
      ensures Valid() && chain.Repr == old(chain.Repr) && Shape(chain.c, old(chain.tree))
      ensures old(chain.tree).tip in old(chain.tree).blocks
      ensures chain.tree == Do(chain.c, old(chain.tree), Prune(TipHeight(old(chain.tree)) - stateRetain.value))
    {
      hide Shape, Blockchain.Valid, InitTree, Run, Pruned, Follows, TipHeight;
      TipKnown();
      var minHeight := Height() - stateRetain.value;
      ghost var op := Prune(minHeight);
      FollowStep(chain.c, chain.tree, history, stateRetain, op);
      chain.PruneStateBelow(minHeight);
      history := history + [op];
    }

    /** The order within a page is the order of adding; blocks that fail are skipped. */
    method ApplyBatch(items: seq<Item>)
      requires Valid()
      modifies this, chain
      ensures Valid() && fresh(chain.Repr - old(chain.Repr)) && Shape(chain.c, old(chain.tree))
      ensures chain.tree == BatchApplied(chain.c, old(chain.tree), items, listenersReset, stateRetain)
    {
      hide Shape, Kept, Footprint, InitTree, Run, ItemAdded, Follows, Batch, Do;
      ghost var t := chain.tree;
      EmptyBatch(chain.c, t, listenersReset);
      var i := 0;
      while i < |items|
        invariant Valid() && fresh(chain.Repr - old(chain.Repr)) && i <= |items|
        invariant chain.tree == Batch(chain.c, t, items[..i], listenersReset)
      {
        AddItem(items[i]);
        BatchStep(chain.c, t, items, i, listenersReset);
        i := i + 1;
      }
      assert items[..i] == items;
      if stateRetain.Some? {
        PruneBehindTip();
      }
    }

    predicate IsConnected(items: seq<Item>, from: nat)
      requires chain.Valid()
      reads this, chain, chain.Repr
      ensures IsConnected(items, from) <==> Connected(chain.tree, items, from)
    {
      chain.StoredAt(if items == [] then chain.tipHash else items[0].block.header.prevHash);
      items != [] && items[0].block.header.height == from && items[0].block.header.prevHash in chain.blocks
    }

    function ChangedSince(tip: Hash32, height: nat): bool
      requires chain.Valid()
      reads this, chain, chain.Repr
    {
      Height() != height || chain.tipHash != tip
    }

    /**
     * `catchUp`. While the tip stands still it asks for at most three pages, each
     * from deeper, and gives up only when even the deepest page or genesis's
     * child could not be connected. It answers Unchanged only with the tip it
     * started from, and Changed only with another one, unless it had to start over.
     */
    method CatchUp(remote: Option<RemoteTip>, replies: seq<Reply>)
      returns (r: Outcome, ghost asked: seq<nat>, ghost startedOver: bool)
      requires Valid()
      modifies this, chain
      ensures Valid() && fresh(chain.Repr - old(chain.Repr))
      ensures old(chain.tree).tip in old(chain.tree).blocks && chain.tree.tip in chain.tree.blocks
      ensures var height, tip := TipHeight(old(chain.tree)), old(chain.tree).tip;
              && |asked| <= 3 && (forall k :: 0 <= k < |asked| ==> asked[k] == FetchFrom(height, remote, OVERLAPS[k]))
              && (r.Unchanged? || r.TooDeep? ==> chain.tree.tip == tip && TipHeight(chain.tree) == height)
              && (r.Changed? && !startedOver ==> chain.tree.tip != tip || TipHeight(chain.tree) != height)
              && (r.TooDeep? ==> asked != [] && (|asked| == 3 || asked[|asked| - 1] == 1))
      ensures Shape(chain.c, old(chain.tree)) && |asked| <= |replies|
      ensures r.Waiting? && !startedOver ==> |asked| == |replies|
      ensures !startedOver ==>
        chain.tree == PagesApplied(chain.c, old(chain.tree), replies[..|asked|], listenersReset, stateRetain)
      ensures r.Unchanged? && asked != [] ==>
        var n := |asked| - 1;
        && replies[n].Page?
        && (replies[n].items == []
            || Connected(PagesApplied(chain.c, old(chain.tree), replies[..n], listenersReset, stateRetain),
              replies[n].items, asked[n]))
      ensures remote.Some? && old(HasBlock(remote.value.tipHash)) ==>
        r == Unchanged && asked == [] && chain.tree == old(chain.tree)
    {
      hide Shape, Blockchain.Valid, InitTree, Run, Follows, Batch, Do, BytesToHex, TipHeight, PagesApplied,
        BatchApplied, Connected, FetchFrom;
      asked, startedOver := [], false;
      TipKnown();
      ghost var t := chain.tree;
      NoReplies(chain.c, t, replies, listenersReset, stateRetain);
      if remote.Some? && HasBlock(remote.value.tipHash) {
        r := Unchanged;
        return;
      }
      var entryTip, entryHeight := chain.tipHash, Height();
      var overlap := CATCHUP_OVERLAP;
      var k := 0;
      while k < |replies|
        invariant Valid() && fresh(chain.Repr - old(chain.Repr)) && k == |asked| <= 2
        invariant chain.tree.tip == entryTip && chain.tree.tip in chain.tree.blocks
        invariant TipHeight(chain.tree) == entryHeight
        invariant forall j :: 0 <= j < |asked| ==> asked[j] == FetchFrom(entryHeight, remote, OVERLAPS[j])
        invariant overlap == OVERLAPS[k] && k <= |replies|
        invariant chain.tree == PagesApplied(chain.c, t, replies[..k], listenersReset, stateRetain)
      {
        var from := FetchFrom(Height(), remote, overlap);
        asked := asked + [from];
        PagesStep(chain.c, t, replies, k, listenersReset, stateRetain);
        if replies[k].Fails? {
          r := Failed;
          return;
        }
        var items := replies[k].items;
        if items == [] {
          r := if ChangedSince(entryTip, entryHeight) then Changed else Unchanged;
          return;
        }
        var connected := IsConnected(items, from);
        ApplyBatch(items);
        if Height() < entryHeight {
          startedOver := true;
          var done, pages := Bootstrap(replies[k + 1..]);
          r := done;
          return;
        }
        if ChangedSince(entryTip, entryHeight) {
          r := Changed;
          return;
        }
        if connected {
          r := if ChangedSince(entryTip, entryHeight) then Changed else Unchanged;
          return;
        }
        if from == 1 || overlap >= CATCHUP_MAX_OVERLAP {
          r := TooDeep;
          return;
        }
        var wider := overlap * CATCHUP_WIDEN_FACTOR;
        overlap := if wider < CATCHUP_MAX_OVERLAP then wider else CATCHUP_MAX_OVERLAP;
        k := k + 1;
      }
      r := Waiting;
    }

    /**
     * `bootstrap`, with one request ahead of the page being applied. A page is
     * applied only if it was asked for from just above the tip of that moment, and
     * another only after a full page that moved the height.
     */
    method Bootstrap(replies: seq<Reply>) returns (r: Outcome, ghost pages: seq<PageUse>)
      requires Valid()
      modifies this, chain
      ensures Valid() && fresh(chain.Repr - old(chain.Repr))
      ensures r in {Changed, Failed, Waiting}
      ensures InStep(pages) && old(chain.tree).tip in old(chain.tree).blocks && chain.tree.tip in chain.tree.blocks
      ensures if pages == [] then chain.tree == old(chain.tree)
              else pages[0].before == TipHeight(old(chain.tree)) && pages[|pages| - 1].after == TipHeight(chain.tree)
      ensures Shape(chain.c, old(chain.tree))
      ensures chain.tree == PagesApplied(chain.c, old(chain.tree), PagesOf(pages), listenersReset, stateRetain)
      ensures forall k :: 0 <= k < |pages| ==> Page(pages[k].items) in replies
      ensures r.Changed? ==> Page([]) in replies || (pages != [] && LastPage(pages[|pages| - 1]))
    {
      hide Shape, Blockchain.Valid, InitTree, Run, Follows, Batch, Do, TipHeight, InStep, LastPage,
        PagesApplied, BatchApplied, PagesOf;
      pages := [];
      NoPages();
      TipKnown();
      ghost var t := chain.tree;
      NoPagesApplied(chain.c, t, listenersReset, stateRetain);
      var from := Height() + 1;
      var k := 0;
      var prefetched: Option<Reply> := None;
      while k < |replies| || prefetched.Some?
        invariant Valid() && fresh(chain.Repr - old(chain.Repr)) && k <= |replies|
        invariant chain.tree.tip in chain.tree.blocks && from == TipHeight(chain.tree) + 1
        invariant prefetched.Some? ==> prefetched.value in replies
        invariant InStep(pages) && (pages != [] ==> !LastPage(pages[|pages| - 1]))
        invariant pages == [] ==> chain.tree == old(chain.tree)
        invariant pages != [] ==> pages[0].before == TipHeight(old(chain.tree))
        invariant pages != [] ==> pages[|pages| - 1].after == TipHeight(chain.tree)
        invariant chain.tree == PagesApplied(chain.c, t, PagesOf(pages), listenersReset, stateRetain)
        invariant forall j :: 0 <= j < |pages| ==> Page(pages[j].items) in replies
        decreases |replies| - k, prefetched.Some?
      {
        var reply;
        if prefetched.Some? {
          reply := prefetched.value;
          prefetched := None;
        } else {
          reply := replies[k];
          k := k + 1;
        }
        if reply.Fails? {
          r := Failed;
          return;
        }
        var items := reply.items;
        if items == [] {
          r := Changed;
          return;
        }
        var heightBefore := Height();
        var nextFrom := from + |items|;
        var stuck := false;
        if |items| >= PAGE {
          if k < |replies| {
            prefetched := Some(replies[k]);
            k := k + 1;
          } else {
            stuck := true;
          }
        }
        ApplyBatch(items);
        var height := Height();
        ghost var use := PageUse(from, items, heightBefore, height);
        InStepAppend(pages, use);
        PagesOfAppend(chain.c, t, pages, use, listenersReset, stateRetain);
        pages := pages + [use];
        if stuck {
          // The request ahead is awaited whatever comes of this page.
          r := Waiting;
          return;
        }
        if height == heightBefore {
          assert LastPage(pages[|pages| - 1]) by { ShortOrStill(pages[|pages| - 1]); }
          r := Changed;
          return;
        }
        from := height + 1;
        if |items| < PAGE {
          assert LastPage(pages[|pages| - 1]) by { ShortOrStill(pages[|pages| - 1]); }
          r := Changed;
          return;
        }
        ShortOrStill(pages[|pages| - 1]);
        if from != nextFrom {
          prefetched := None;
        }
      }
      r := Waiting;
    }
  }

  // ------------------------------------------------------------------
  // How deep a fork can be
  // ------------------------------------------------------------------

  /** Every block of a page stands at height `from` or above, and above `a` unless known already. */
  ghost predicate StartsAt(c: Crypto, t: Tree, items: seq<Item>, from: nat, a: nat) {
    forall k :: 0 <= k < |items| ==> Reaches(c, t, items[k].block, from, a)
  }

  predicate Reaches(c: Crypto, t: Tree, b: Block, from: nat, a: nat) {
    b.header.height >= from && (b.header.height > a || HashHeader(c, b.header) in t.blocks)
  }

  /** Where no state is missing at the parent's height, none is missing for the child. */
  lemma ParentKept(c: Crypto, t: Tree, b: Block, now: nat, opts: AddOptions, m: nat, a: nat)
    requires Shape(c, t) && NullsBuried(t, m, a)
      && Reaches(c, t, b, if m > STATE_RETAIN then m - STATE_RETAIN + 1 else 1, a)
    ensures !Judge(c, t, b, now, opts).Unavailable?
  {
    hide Shape, GenesisHash, HashHeader, JudgeTxs, EncodeBlock, ExpectedDifficulty, CheckPoW, ComputeTxRoot, MtpAfter;
  }

  lemma {:induction false} BatchKept(c: Crypto, t: Tree, items: seq<Item>, from: nat, m: nat, a: nat)
    requires Shape(c, t) && NullsBuried(t, m, a) && StartsAt(c, t, items, from, a)
    requires from >= 1 && from >= m - STATE_RETAIN + 1
    ensures Batch(c, t, items, true) == Batch(c, t, items, false)
    ensures NullsBuried(Batch(c, t, items, true), m, a) && Extends(t, Batch(c, t, items, true))
    decreases |items|
  {
    hide Shape, Judge, NullsBuried, InitTree, Added, HashHeader, ChildNode;
    if items != [] {
      var front, last := items[..|items| - 1], items[|items| - 1];
      assert forall k :: 0 <= k < |front| ==> front[k] == items[k];
      BatchKept(c, t, front, from, m, a);
      var u := Batch(c, t, front, true);
      GenesisKnown(c, u);
      assert Reaches(c, t, last.block, from, a);
      ParentKept(c, u, last.block, last.now, POW_CHECKED, m, a);
      KeptAlike(c, u, last.block, last.now, POW_CHECKED);
      AddNulls(c, u, last.block, last.now, POW_CHECKED, true, m, a);
    }
  }

  /** An addition that finds its parent's state does not depend on the listeners, and keeps every block. */
  lemma KeptAlike(c: Crypto, t: Tree, b: Block, now: nat, opts: AddOptions)
    requires t.tip in t.blocks && !Judge(c, t, b, now, opts).Unavailable?
    ensures Added(c, t, b, now, opts, true) == Added(c, t, b, now, opts, false)
    ensures Extends(t, Added(c, t, b, now, opts, true))
  {
    hide GenesisHash, HashHeader, JudgeTxs, HeaderOk, InitTree, ChildNode;
  }

  /**
   * A fork within reach is judged, never lost to pruning: while the lower of our
   * tip and the remote one is at most 209 below the greatest height we have had,
   * no block of any page that catching up asks for finds its parent without a
   * state, so the chain is never reset, whatever the listeners would do. On a
   * restored chain this is so of pages that branch off at its anchor or above.
   */
  lemma CatchUpWithinReach(c: Crypto, history: seq<Op>, remote: Option<RemoteTip>, k: nat, items: seq<Item>)
    requires PrunesBehindTip(c, history) && RestoresNew(c, history) && k < |OVERLAPS|
    requires var height := RunHeight(c, history);
             var base := if remote.Some? && remote.value.height < height then remote.value.height else height;
             MaxHeight(c, history) - base <= STATE_RETAIN - (CATCHUP_MAX_OVERLAP + 1)
    requires var from := FetchFrom(RunHeight(c, history), remote, OVERLAPS[k]);
             StartsAt(c, Run(c, history), items, from, RestoredHeight(c, history))
    ensures Batch(c, Run(c, history), items, true) == Batch(c, Run(c, history), items, false)
  {
    hide Shape, Run, Batch, NullsBuried, StartsAt, MaxHeight, RunHeight, RestoredHeight, RestoresNew;
    RunNullsBuried(c, history);
    BatchKept(c, Run(c, history), items, FetchFrom(RunHeight(c, history), remote, OVERLAPS[k]), MaxHeight(c, history),
              RestoredHeight(c, history));
  }
}
