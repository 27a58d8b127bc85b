/**
 * The snapshot file as a value, and what restoring it does to a block tree
 * (src/minerd/persistence.ts 47-75 and 161-272, src/chain/state.ts 70-95).
 */
module Snapshot {
  import opened Binary
  import opened BlockCodec
  import opened Crypto
  import opened Ledger
  import opened StateRoot
  import opened Tree

  const SCHEMA_VERSION: int := 2

  datatype StateRow = StateRow(address: Bytes, balance: int, nonce: nat)
  datatype LockRow = LockRow(id: Bytes, amount: int, scriptHash: Bytes, createdHeight: nat)

  /** What a parsed file holds. None is a field of the wrong type (for the height, also a fraction). */
  datatype SnapshotFile = SnapshotFile(
    schema: Option<int>,
    network: Option<string>,
    anchorHeight: Option<int>,
    anchorHash: Option<string>,
    blocksHex: Option<seq<string>>,
    state: Option<seq<StateRow>>,
    locks: Option<seq<LockRow>>)

  /** What the restorer finds on disk. */
  datatype Disk = NoFile | NotJson | Parsed(file: SnapshotFile)

  function NetworkTag(c: Crypto): string { BytesToHex(GenesisHash(c))[..16] }

  // ------------------------------------------------------------------
  // Rows
  // ------------------------------------------------------------------

  /** Later rows override earlier ones with the same key. */
  function AccountsOf(rows: seq<StateRow>): map<Bytes, Acct> {
    if rows == [] then map[]
    else
      var r := rows[|rows| - 1];
      AccountsOf(rows[..|rows| - 1])[r.address := Acct(r.balance, r.nonce)]
  }

  function LocksOf(rows: seq<LockRow>): map<Bytes, ScriptLock> {
    if rows == [] then map[]
    else
      var r := rows[|rows| - 1];
      LocksOf(rows[..|rows| - 1])[r.id := ScriptLock(r.amount, r.scriptHash, r.createdHeight)]
  }

  function LedgerOf(rows: seq<StateRow>, lockRows: seq<LockRow>): Ledger { Ledger(AccountsOf(rows), LocksOf(lockRows)) }

  // ------------------------------------------------------------------
  // Seeding and restoring
  // ------------------------------------------------------------------

  /** The tree after seeding the blocks in order, only the last with a state. None is a seed error. */
  function SeedAll(c: Crypto, t: Tree, blocks: seq<Block>, anchorState: Option<Ledger>): (u: Option<Tree>)
    requires t.tip in t.blocks
    ensures u.Some? ==> u.value.tip in u.value.blocks
    decreases |blocks|
  {
    if blocks == [] then Some(t)
    else
      var before := SeedAll(c, t, blocks[..|blocks| - 1], None);
      if before.None? then None else
        hide HashHeader;
        Seeded(c, before.value, blocks[|blocks| - 1], anchorState)
  }

  function DecodeAll(hexes: seq<string>): (r: Option<seq<Block>>)
    ensures r.Some? ==> |r.value| == |hexes|
  {
    if hexes == [] then Some([])
    else
      var front := DecodeAll(hexes[..|hexes| - 1]);
      var bytes := HexToBytes(hexes[|hexes| - 1]);
      if front.None? || bytes.None? || DecodeBlock(bytes.value).None? then None
      else Some(front.value + [DecodeBlock(bytes.value).value])
  }

  /** Everything checked before any block is seeded; None is any anomaly. */
  datatype Parts = Parts(blocks: seq<Block>, ledger: Ledger)

  predicate WellFormed(c: Crypto, f: SnapshotFile) {
    && f.schema == Some(SCHEMA_VERSION) && f.network == Some(NetworkTag(c))
    && f.blocksHex.Some? && f.blocksHex.value != [] && f.state.Some? && f.locks.Some?
    && f.anchorHeight.Some? && f.anchorHeight.value >= 1 && |f.blocksHex.value| == f.anchorHeight.value
  }

  function Readable(c: Crypto, f: SnapshotFile): (r: Option<Parts>)
    ensures r.Some? ==> r.value.blocks != []
  {
    if !WellFormed(c, f) then None
    else
      var blocks, ledger := DecodeAll(f.blocksHex.value), LedgerOf(f.state.value, f.locks.value);
      if blocks.None? then None
      else
        var anchor := blocks.value[|blocks.value| - 1].header;
        if anchor.height != f.anchorHeight.value
           || (f.anchorHash.Some? && f.anchorHash.value != BytesToHex(HashHeader(c, anchor)))
           || Root(c, ledger) != anchor.stateRoot
        then None
        else Some(Parts(blocks.value, ledger))
  }

  /** Whether the restore succeeds, and the tree it leaves; an anomaly resets, a missing file does nothing. */
  function Restored(c: Crypto, t: Tree, disk: Disk): (bool, Tree)
    requires t.tip in t.blocks
  {
    match disk
    case NoFile => (false, t)
    case NotJson => (false, InitTree(c))
    case Parsed(f) =>
      var parts := Readable(c, f);
      if parts.None? then (false, InitTree(c))
      else
        var u := SeedAll(c, t, parts.value.blocks, Some(parts.value.ledger));
        if u.None? then (false, InitTree(c)) else (true, u.value)
  }
}
