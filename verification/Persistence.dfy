/**
 * Saving and restoring the on-disk snapshot: a finalized prefix of blocks and
 * the state after its last one (src/minerd/persistence.ts).
 */
module Persistence {
  import opened Binary
  import opened BlockCodec
  import opened Blockchain
  import opened Crypto
  import opened Genesis
  import opened Ledger
  import opened Reorg
  import opened Snapshot
  import opened SnapshotFacts
  import opened State
  import opened StateRoot
  import opened Tree
  import opened TreeRuns

  // ------------------------------------------------------------------
  // Rows
  // ------------------------------------------------------------------

  /** `serializeState`, in whatever order the map yields its entries. */
  method SerializeState(s: State) returns (rows: seq<StateRow>)
    requires s.Valid()
    ensures AccountsOf(rows) == s.View().accounts
  {
    hide AccountsOf;
    ghost var l := s.View();
    rows := [];
    NoRows();
    var rest := s.accounts.Keys;
    while rest != {}
      invariant forall k :: k in l.accounts <==> k in rest || k in AccountsOf(rows)
      invariant forall k :: k in rest ==> k in s.accounts && k !in AccountsOf(rows)
      invariant forall k :: k in AccountsOf(rows) ==> AccountsOf(rows)[k] == l.accounts[k]
      decreases |rest|
    {
      var k :| k in rest;
      RowsAppend(rows, StateRow(k, s.accounts[k].balance, s.accounts[k].nonce));
      rows := rows + [StateRow(k, s.accounts[k].balance, s.accounts[k].nonce)];
      rest := rest - {k};
    }
    assert AccountsOf(rows) == l.accounts;
  }

  lemma NoRows()
    ensures AccountsOf([]) == map[] && LocksOf([]) == map[]
  {
  }

  lemma RowsAppend(rows: seq<StateRow>, r: StateRow)
    ensures AccountsOf(rows + [r]) == AccountsOf(rows)[r.address := Acct(r.balance, r.nonce)]
  {
    assert (rows + [r])[..|rows|] == rows;
  }

  method SerializeLocks(s: State) returns (rows: seq<LockRow>)
    ensures LocksOf(rows) == s.locks
  {
    hide LocksOf;
    rows := [];
    NoRows();
    var rest := s.locks.Keys;
    while rest != {}
      invariant forall k :: k in s.locks <==> k in rest || k in LocksOf(rows)
      invariant forall k :: k in rest ==> k in s.locks && k !in LocksOf(rows)
      invariant forall k :: k in LocksOf(rows) ==> LocksOf(rows)[k] == s.locks[k]
      decreases |rest|
    {
      var k :| k in rest;
      var v := s.locks[k];
      LockRowsAppend(rows, LockRow(k, v.amount, v.scriptHash, v.createdHeight));
      rows := rows + [LockRow(k, v.amount, v.scriptHash, v.createdHeight)];
      rest := rest - {k};
    }
    assert LocksOf(rows) == s.locks;
  }

  lemma LockRowsAppend(rows: seq<LockRow>, r: LockRow)
    ensures LocksOf(rows + [r]) == LocksOf(rows)[r.id := ScriptLock(r.amount, r.scriptHash, r.createdHeight)]
  {
    assert (rows + [r])[..|rows|] == rows;
  }

  /** `deserializeState`: fresh account objects, one per row. */
  method DeserializeState(rows: seq<StateRow>, lockRows: seq<LockRow>) returns (s: State)
    ensures s.Valid() && fresh(s.Repr()) && s.View() == LedgerOf(rows, lockRows)
  {
    var accounts := ReadAccounts(rows);
    var locks: map<Bytes, ScriptLock> := map[];
    for i := 0 to |lockRows|
      invariant locks == LocksOf(lockRows[..i])
    {
      assert lockRows[..i + 1][..i] == lockRows[..i];
      var r := lockRows[i];
      locks := locks[r.id := ScriptLock(r.amount, r.scriptHash, r.createdHeight)];
    }
    assert lockRows[..|lockRows|] == lockRows;
    s := new State.Of(accounts, locks);
    assert s.View().accounts == AccountsOf(rows);
  }

  method ReadAccounts(rows: seq<StateRow>) returns (accounts: map<Bytes, Account>)
    ensures Distinct(accounts) && accounts.Keys == AccountsOf(rows).Keys
    ensures forall k :: k in accounts ==> fresh(accounts[k])
    ensures forall k :: k in accounts ==> Acct(accounts[k].balance, accounts[k].nonce) == AccountsOf(rows)[k]
  {
    hide Distinct;
    accounts := map[];
    DistinctEmpty();
    for i := 0 to |rows|
      invariant Distinct(accounts)
      invariant forall k :: k in accounts <==> k in AccountsOf(rows[..i])
      invariant forall k :: k in accounts ==> fresh(accounts[k])
      invariant forall k :: k in accounts ==> Acct(accounts[k].balance, accounts[k].nonce) == AccountsOf(rows[..i])[k]
    {
      assert rows[..i + 1][..i] == rows[..i];
      var r := rows[i];
      var a := new Account(r.balance, r.nonce);
      DistinctInsert(accounts, r.address, a);
      accounts := accounts[r.address := a];
    }
    assert rows[..|rows|] == rows;
  }

  // ------------------------------------------------------------------
  // Restoring
  // ------------------------------------------------------------------

  method DecodeBlocks(hexes: seq<string>) returns (r: Option<seq<Block>>)
    ensures r == DecodeAll(hexes)
  {
    hide DecodeBlock, HexToBytes;
    var blocks: seq<Block> := [];
    for i := 0 to |hexes|
      invariant DecodeAll(hexes[..i]) == Some(blocks)
    {
      assert hexes[..i + 1][..i] == hexes[..i];
      var bytes := HexToBytes(hexes[i]);
      if bytes.None? || DecodeBlock(bytes.value).None? {
        BadEntry(hexes, i + 1);
        return None;
      }
      blocks := blocks + [DecodeBlock(bytes.value).value];
    }
    assert hexes[..|hexes|] == hexes;
    r := Some(blocks);
  }

  lemma {:induction false} BadEntry(hexes: seq<string>, n: nat)
    requires n <= |hexes| && DecodeAll(hexes[..n]).None?
    ensures DecodeAll(hexes).None?
    decreases |hexes|
  {
    if n == |hexes| {
      assert hexes[..n] == hexes;
    } else {
      hide DecodeBlock, HexToBytes;
      assert hexes[..|hexes| - 1][..n] == hexes[..n];
      BadEntry(hexes[..|hexes| - 1], n);
    }
  }

  /** `restoreSnapshot`. The file is deleted exactly when it was there and was not restored. */
  method RestoreSnapshot(chain: Blockchain, disk: Disk) returns (restored: bool, deleteFile: bool)
    requires chain.Valid()
    modifies chain
    ensures chain.Valid() && old(chain.tree).tip in old(chain.tree).blocks
    ensures (restored, chain.tree) == Restored(chain.c, old(chain.tree), disk)
    ensures deleteFile <==> !restored && !disk.NoFile?
  {
    hide Shape, HashHeader, GenesisHash, Readable, SeedAll, InitTree, Kept, Footprint, NodeView, LedgerOf, Root;
    GenesisKnown(chain.c, chain.tree);
    if disk.NoFile? {
      return false, false;
    }
    if disk.NotJson? {
      chain.Reset();
      return false, true;
    }
    var blocks, state := ReadFile(chain.c, disk.file);
    if state.None? {
      chain.Reset();
      return false, true;
    }
    var seeded := SeedFile(chain, blocks, state.value);
    if !seeded {
      chain.Reset();
      return false, true;
    }
    return true, false;
  }

  /** The checks and the decoding, up to and including the comparison with the committed root. */
  method ReadFile(c: Crypto, f: SnapshotFile) returns (blocks: seq<Block>, state: Option<State>)
    ensures state.Some? <==> Readable(c, f).Some?
    ensures state.Some? ==> state.value.Valid() && fresh(state.value.Repr())
    ensures state.Some? ==> Readable(c, f) == Some(Parts(blocks, state.value.View()))
  {
    hide DecodeAll, HashHeader, Root, LedgerOf, NetworkTag;
    blocks := [];
    if !WellFormed(c, f) {
      return [], None;
    }
    var decoded := DecodeBlocks(f.blocksHex.value);
    if decoded.None? {
      return [], None;
    }
    blocks := decoded.value;
    var anchor := blocks[|blocks| - 1].header;
    if anchor.height != f.anchorHeight.value {
      return blocks, None;
    }
    if f.anchorHash.Some? && BytesToHex(HashHeader(c, anchor)) != f.anchorHash.value {
      return blocks, None;
    }
    var s := DeserializeState(f.state.value, f.locks.value);
    var root := s.ComputeRoot(c);
    if root != anchor.stateRoot {
      return blocks, None;
    }
    state := Some(s);
  }

  /** Seeds the prefix without states and the last block with its state. */
  method SeedFile(chain: Blockchain, blocks: seq<Block>, state: State) returns (ok: bool)
    requires chain.Valid() && state.Valid() && blocks != []
    modifies chain
    ensures chain.Valid() && old(chain.tree).tip in old(chain.tree).blocks
    ensures var u := SeedAll(chain.c, old(chain.tree), blocks, Some(old(state.View())));
            ok == u.Some? && (ok ==> chain.tree == u.value)
  {
    hide Shape, HashHeader, GenesisHash, Seeded, Kept, Footprint, NodeView;
    GenesisKnown(chain.c, chain.tree);
    ghost var t, l := chain.tree, state.View();
    for i := 0 to |blocks| - 1
      invariant chain.Valid() && state.Valid() && state.View() == l
      invariant SeedAll(chain.c, t, blocks[..i], None) == Some(chain.tree)
    {
      assert blocks[..i + 1][..i] == blocks[..i];
      var seeded := chain.SeedHistoricalBlock(blocks[i], None);
      if !seeded {
        SeedFails(chain.c, t, blocks, Some(l), i + 1);
        return false;
      }
    }
    ok := chain.SeedHistoricalBlock(blocks[|blocks| - 1], Some(state));
  }

  lemma {:induction false} SeedFails(c: Crypto, t: Tree, blocks: seq<Block>, state: Option<Ledger>, n: nat)
    requires t.tip in t.blocks && n < |blocks| && SeedAll(c, t, blocks[..n], None).None?
    ensures SeedAll(c, t, blocks, state).None?
    decreases |blocks|
  {
    hide HashHeader, Seeded;
    var front := blocks[..|blocks| - 1];
    assert front[..n] == blocks[..n];
    if n < |front| {
      SeedFails(c, t, front, None, n);
    } else {
      assert front[..n] == front;
    }
  }

  // ------------------------------------------------------------------
  // Saving
  // ------------------------------------------------------------------

  /**
   * `saveSnapshot`: nothing is written unless the block 100 below the tip is
   * above genesis and its state is kept.
   */
  method SaveSnapshot(chain: Blockchain) returns (f: Option<SnapshotFile>)
    requires chain.Valid()
    ensures chain.tree.tip in chain.tree.blocks
    ensures var a := SnapshotHash(chain.c, chain.tree, TipHeight(chain.tree) - SNAPSHOT_DEPTH);
            && (f.Some? <==> a.Some?)
            && (f.Some? ==> a.value in chain.tree.blocks && chain.tree.blocks[a.value].state.Some?
                            && SavedAs(chain.c, chain.tree, f.value, a.value, chain.tree.blocks[a.value].state.value))
  {
    hide Shape, HashHeader, GenesisHash, Kept, Footprint, NodeView, LedgerOf, NetworkTag, EncodeAll;
    GenesisKnown(chain.c, chain.tree);
    chain.StoredAt(chain.tipHash);
    var finalizedHeight := chain.blocks[chain.tipHash].block.header.height - SNAPSHOT_DEPTH;
    if finalizedHeight <= 0 {
      return None;
    }
    var snap := chain.SnapshotAt(finalizedHeight);
    if snap.None? {
      return None;
    }
    var (hash, height, state) := snap.value;
    SnapshotIsStored(chain.c, chain.tree, finalizedHeight);
    chain.StoredAt(hash);
    chain.StateAt(hash);
    ghost var l := state.View();
    var prefix := CollectPrefix(chain, hash);
    var rows := SerializeState(state);
    var lockRows := SerializeLocks(state);
    LedgerParts(rows, lockRows, l);
    f := Some(SnapshotFile(Some(SCHEMA_VERSION), Some(NetworkTag(chain.c)), Some(height), Some(BytesToHex(hash)),
                           Some(prefix), Some(rows), Some(lockRows)));
  }

  lemma LedgerParts(rows: seq<StateRow>, lockRows: seq<LockRow>, l: Ledger)
    requires AccountsOf(rows) == l.accounts && LocksOf(lockRows) == l.locks
    ensures LedgerOf(rows, lockRows) == l
  {
  }

  lemma SnapshotIsStored(c: Crypto, t: Tree, height: int)
    requires Shape(c, t) && SnapshotHash(c, t, height).Some?
    ensures var a := SnapshotHash(c, t, height).value;
            a in t.blocks && HeaderAt(t, a).height == height > 0 && t.blocks[a].state.Some?
  {
    hide Shape, Path;
    GenesisKnown(c, t);
    PathAt(c, t, t.tip, height);
  }

  /** From the anchor down to height 1, newest first, and reversed. */
  method CollectPrefix(chain: Blockchain, anchor: Hash32) returns (prefix: seq<string>)
    requires chain.Valid() && anchor in chain.tree.blocks && HeaderAt(chain.tree, anchor).height > 0
    ensures prefix == EncodeAll(BranchBlocks(chain.c, chain.tree, anchor))
  {
    hide Shape, HashHeader, GenesisHash, Kept, Footprint, NodeView, EncodeAll, EncodeBlock, BytesToHex;
    ghost var t, whole := chain.tree, EncodeAll(BranchBlocks(chain.c, chain.tree, anchor));
    prefix := [];
    var cursor := anchor;
    assert whole + [] == whole;
    while true
      invariant chain.Valid() && chain.tree == t
      invariant cursor in t.blocks && HeaderAt(t, cursor).height > 0
      invariant EncodeAll(BranchBlocks(chain.c, t, cursor)) + prefix == whole
      decreases HeaderAt(t, cursor).height
    {
      chain.StoredAt(cursor);
      ParentOf(chain.c, t, cursor);
      var entry := chain.blocks[cursor];
      ghost var parent := HeaderAt(t, cursor).prevHash;
      EncodeLast(BranchBlocks(chain.c, t, parent), entry.block);
      ghost var below := EncodeAll(BranchBlocks(chain.c, t, parent));
      var hex := BytesToHex(EncodeBlock(entry.block));
      assert below + [hex] + prefix == below + ([hex] + prefix);
      prefix := [hex] + prefix;
      if entry.block.header.height == 1 {
        ParentOf(chain.c, t, parent);
        EncodeNothing();
        assert [] + prefix == prefix;
        return;
      }
      cursor := entry.block.header.prevHash;
    }
  }
}
