/**
 * What the synchroniser lets into the chain: only blocks whose proof of work was
 * verified, all of them that validation accepts, whatever pages helpers send
 * (src/minerd/sync.ts 34-42, 207-251).
 */
module SyncLaws {
  import opened Binary
  import opened BlockCodec
  import opened Crypto
  import opened Reorg
  import opened Sync
  import opened Tree
  import opened TreeRuns

  /** Some block of the page has that hash, and a worker verified its proof of work. */
  ghost predicate VerifiedIn(c: Crypto, items: seq<Item>, h: Hash32) {
    exists i :: 0 <= i < |items| && items[i].powOk && HashHeader(c, items[i].block.header) == h
  }

  ghost predicate VerifiedInPages(c: Crypto, replies: seq<Reply>, h: Hash32) {
    exists k :: 0 <= k < |replies| && replies[k].Page? && VerifiedIn(c, replies[k].items, h)
  }

  lemma ItemEnters(c: Crypto, t: Tree, item: Item, listenersReset: bool, h: Hash32)
    requires Shape(c, t) && h in ItemAdded(c, t, item, listenersReset).blocks
    ensures h in t.blocks || h == GenesisHash(c) || (item.powOk && h == HashHeader(c, item.block.header))
  {
    hide Shape, GenesisHash, HashHeader, Judge;
    InitHasGenesis(c);
  }

  lemma InitHasGenesis(c: Crypto)
    ensures InitTree(c).blocks.Keys == {GenesisHash(c)}
  {
    hide GenesisHash;
  }

  /** A page brings in no block but verified ones of its own; genesis returns if listeners reset. */
  lemma {:induction false} OnlyVerifiedEnter(c: Crypto, t: Tree, items: seq<Item>, listenersReset: bool, h: Hash32)
    requires Shape(c, t) && h in Batch(c, t, items, listenersReset).blocks
    ensures h in t.blocks || h == GenesisHash(c) || VerifiedIn(c, items, h)
    decreases |items|
  {
    hide Shape, GenesisHash, HashHeader, ItemAdded;
    if items != [] {
      var front, last := items[..|items| - 1], items[|items| - 1];
      ItemEnters(c, Batch(c, t, front, listenersReset), last, listenersReset, h);
      if h in Batch(c, t, front, listenersReset).blocks {
        OnlyVerifiedEnter(c, t, front, listenersReset, h);
        if VerifiedIn(c, front, h) {
          var i :| 0 <= i < |front| && front[i].powOk && HashHeader(c, front[i].block.header) == h;
          assert items[i] == front[i];
        }
      }
    }
  }

  lemma PruneKeepsBlocks(c: Crypto, t: Tree, minHeight: int)
    requires Shape(c, t)
    ensures Do(c, t, Prune(minHeight)).blocks.Keys == t.blocks.Keys
  {
    hide Shape, Prunable;
  }

  lemma PageEnters(c: Crypto, t: Tree, items: seq<Item>, listenersReset: bool, retain: Option<nat>, h: Hash32)
    requires Shape(c, t) && h in BatchApplied(c, t, items, listenersReset, retain).blocks
    ensures h in t.blocks || h == GenesisHash(c) || VerifiedIn(c, items, h)
  {
    hide Shape, GenesisHash, HashHeader, Batch, Do;
    var u := Batch(c, t, items, listenersReset);
    GenesisKnown(c, u);
    if retain.Some? {
      PruneKeepsBlocks(c, u, TipHeight(u) - retain.value);
    }
    OnlyVerifiedEnter(c, t, items, listenersReset, h);
  }

  /** However many pages come: every block a synchronisation adds was verified in one of them. */
  lemma {:induction false} PagesOnlyVerified(c: Crypto, t: Tree, replies: seq<Reply>, listenersReset: bool,
      retain: Option<nat>, h: Hash32)
    requires Shape(c, t) && h in PagesApplied(c, t, replies, listenersReset, retain).blocks
    ensures h in t.blocks || h == GenesisHash(c) || VerifiedInPages(c, replies, h)
    decreases |replies|
  {
    hide Shape, GenesisHash, BatchApplied, VerifiedIn;
    if replies != [] {
      var front, last := replies[..|replies| - 1], replies[|replies| - 1];
      var before := PagesApplied(c, t, front, listenersReset, retain);
      if last.Page? && last.items != [] {
        PageEnters(c, before, last.items, listenersReset, retain, h);
      }
      if h in before.blocks {
        PagesOnlyVerified(c, t, front, listenersReset, retain, h);
        if VerifiedInPages(c, front, h) {
          var k :| 0 <= k < |front| && front[k].Page? && VerifiedIn(c, front[k].items, h);
          assert replies[k] == front[k];
        }
      }
    }
  }

  /** Without a reset every verified block that is acceptable when its turn comes is stored, and stays. */
  lemma {:induction false} AcceptableEnter(c: Crypto, t: Tree, items: seq<Item>, i: nat)
    requires Shape(c, t) && i < |items| && items[i].powOk
    requires var before := Batch(c, t, items[..i], false);
             Judge(c, before, items[i].block, items[i].now, AddOptions(true, false, false)).Accepted?
    ensures HashHeader(c, items[i].block.header) in Batch(c, t, items, false).blocks
    decreases |items|
  {
    hide Shape, GenesisHash, HashHeader, Judge, ItemAdded;
    var front, last := items[..|items| - 1], items[|items| - 1];
    if i == |items| - 1 {
      ItemStored(c, Batch(c, t, front, false), last);
    } else {
      assert front[..i] == items[..i] && front[i] == items[i];
      AcceptableEnter(c, t, front, i);
      ItemKeeps(c, Batch(c, t, front, false), last, HashHeader(c, items[i].block.header));
    }
  }

  lemma ItemStored(c: Crypto, t: Tree, item: Item)
    requires Shape(c, t) && item.powOk
    requires Judge(c, t, item.block, item.now, AddOptions(true, false, false)).Accepted?
    ensures HashHeader(c, item.block.header) in ItemAdded(c, t, item, false).blocks
  {
    hide Shape, GenesisHash, HashHeader, HeaderOk, JudgeTxs;
    GenesisKnown(c, t);
  }

  lemma ItemKeeps(c: Crypto, t: Tree, item: Item, h: Hash32)
    requires Shape(c, t) && h in t.blocks
    ensures h in ItemAdded(c, t, item, false).blocks
  {
    hide Shape, GenesisHash, HashHeader, HeaderOk, JudgeTxs;
    GenesisKnown(c, t);
  }

  /** A fetch starts its overlap below the lower of the two tips, but never below genesis's child. */
  lemma FetchesFrom(height: nat, remote: RemoteTip, overlap: nat)
    ensures var from := FetchFrom(height, Some(remote), overlap);
            && from >= 1
            && (from > 1 ==> from + overlap == height || from + overlap == remote.height)
            && (from > 1 ==> from + overlap <= height && from + overlap <= remote.height)
            && (from == 1 ==> height <= overlap + 1 || remote.height <= overlap + 1)
  {
  }
}
