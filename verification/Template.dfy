/**
 * Building a block to mine on the tip: the empty solo block
 * (src/minerd/template.ts) and the negotiated block that carries a pool's
 * mempool (src/minerd/negotiatedClient.ts 114-209), and why the validator
 * accepts whatever they build.
 */
module Template {
  import opened Binary
  import opened BlockCodec
  import opened Blockchain
  import opened ChainRuns
  import opened Compact
  import opened Consensus
  import opened Crypto
  import opened Genesis
  import opened Ledger
  import opened MedianTime
  import opened State
  import opened StateRoot
  import opened Transaction
  import opened Tree
  import opened TreeFacts
  import opened TreeRuns

  const TX_BYTE_BUDGET: nat := MAX_BLOCK_BYTES - 1024
  const MAX_MEMPOOL_ENTRIES: nat := 4096
  const MAX_TX_HEX_LEN: nat := TX_BYTE_BUDGET * 2
  const TOTAL_HEX_BUDGET: nat := TX_BYTE_BUDGET * 4

  // ------------------------------------------------------------------
  // The announced mempool
  // ------------------------------------------------------------------

  /** None is an announced entry that is not a string at all. */
  type Announced = seq<Option<string>>

  predicate MempoolEntryAcceptable(hex: Option<string>, scannedHex: nat) {
    hex.Some? && 0 < |hex.value| <= MAX_TX_HEX_LEN && scannedHex + |hex.value| <= TOTAL_HEX_BUDGET
  }

  /** A hex entry as a structurally valid transaction, if it is one. */
  function UsableTx(c: Crypto, hex: string): Option<Tx> {
    var bytes := HexToBytes(hex);
    if bytes.None? then None
    else
      var decoded := DecodeTx(bytes.value, 0);
      if decoded.None? || !ValidStructure(c, decoded.value.0) then None else Some(decoded.value.0)
  }

  /** The transactions taken from the rest of an announcement, given what has been seen, scanned and taken so far. */
  function Taken(c: Crypto, hexes: Announced, seen: nat, scannedHex: nat, bytes: nat): seq<Tx> {
    if hexes == [] || seen >= MAX_MEMPOOL_ENTRIES then []
    else if !MempoolEntryAcceptable(hexes[0], scannedHex) then Taken(c, hexes[1..], seen + 1, scannedHex, bytes)
    else
      var scanned := scannedHex + |hexes[0].value|;
      var tx := UsableTx(c, hexes[0].value);
      if tx.None? then Taken(c, hexes[1..], seen + 1, scanned, bytes)
      else if bytes + |EncodeTx(tx.value)| > TX_BYTE_BUDGET then []
      else [tx.value] + Taken(c, hexes[1..], seen + 1, scanned, bytes + |EncodeTx(tx.value)|)
  }

  method DecodeMempool(c: Crypto, hexes: Announced) returns (txs: seq<Tx>)
    ensures txs == Taken(c, hexes, 0, 0, 0)
  {
    hide UsableTx, MempoolEntryAcceptable, EncodeTx;
    txs := [];
    var bytes: nat, seen: nat, scannedHex: nat := 0, 0, 0;
    assert hexes[0..] == hexes;
    var k := 0;
    while k < |hexes|
      invariant k <= |hexes| && seen == k <= MAX_MEMPOOL_ENTRIES
      invariant Taken(c, hexes, 0, 0, 0) == txs + Taken(c, hexes[k..], seen, scannedHex, bytes)
    {
      var hex := hexes[k];
      assert hexes[k..][0] == hex && hexes[k..][1..] == hexes[k + 1..];
      if seen + 1 > MAX_MEMPOOL_ENTRIES {
        return;
      }
      seen := seen + 1;
      k := k + 1;
      if !MempoolEntryAcceptable(hex, scannedHex) {
        continue;
      }
      AcceptableIsString(hex, scannedHex);
      scannedHex := scannedHex + |hex.value|;
      var tx := UsableTx(c, hex.value);
      if tx.Some? {
        var size := |EncodeTx(tx.value)|;
        if bytes + size > TX_BYTE_BUDGET {
          return;
        }
        ghost var rest := Taken(c, hexes[k..], seen, scannedHex, bytes + size);
        assert txs + ([tx.value] + rest) == txs + [tx.value] + rest;
        bytes := bytes + size;
        txs := txs + [tx.value];
      }
    }
  }

  lemma AcceptableIsString(hex: Option<string>, scannedHex: nat)
    requires MempoolEntryAcceptable(hex, scannedHex)
    ensures hex.Some?
  {
  }

  /** What is taken fits the byte budget and is structurally valid, whatever was announced. */
  lemma {:induction false} TakenFits(c: Crypto, hexes: Announced, seen: nat, scannedHex: nat, bytes: nat)
    requires bytes <= TX_BYTE_BUDGET
    ensures var txs := Taken(c, hexes, seen, scannedHex, bytes);
            TxsValid(c, txs) && bytes + |EncodeTxs(txs)| <= TX_BYTE_BUDGET
    decreases |hexes|
  {
    hide MempoolEntryAcceptable, EncodeTx, ValidStructure;
    if hexes != [] && seen < MAX_MEMPOOL_ENTRIES {
      if !MempoolEntryAcceptable(hexes[0], scannedHex) {
        TakenFits(c, hexes[1..], seen + 1, scannedHex, bytes);
      } else {
        AcceptableIsString(hexes[0], scannedHex);
        var scanned := scannedHex + |hexes[0].value|;
        var tx := UsableTx(c, hexes[0].value);
        TakenFits(c, hexes[1..], seen + 1, scanned, bytes);
        if tx.Some? && bytes + |EncodeTx(tx.value)| <= TX_BYTE_BUDGET {
          TakenFits(c, hexes[1..], seen + 1, scanned, bytes + |EncodeTx(tx.value)|);
          TakeOne(c, tx.value, Taken(c, hexes[1..], seen + 1, scanned, bytes + |EncodeTx(tx.value)|));
        }
      }
    }
  }

  lemma TakeOne(c: Crypto, tx: Tx, txs: seq<Tx>)
    requires ValidStructure(c, tx) && TxsValid(c, txs)
    ensures TxsValid(c, [tx] + txs) && |EncodeTxs([tx] + txs)| == |EncodeTx(tx)| + |EncodeTxs(txs)|
  {
    hide EncodeTx, ValidStructure;
    assert ([tx] + txs)[1..] == txs;
  }

  /** No more than the input budgets is ever decoded: entries beyond the caps are not looked at. */
  lemma {:induction false} OnlyBoundedInput(c: Crypto, hexes: Announced, seen: nat, scannedHex: nat, bytes: nat)
    requires seen <= MAX_MEMPOOL_ENTRIES
    ensures var n := if |hexes| <= MAX_MEMPOOL_ENTRIES - seen then |hexes| else MAX_MEMPOOL_ENTRIES - seen;
            Taken(c, hexes, seen, scannedHex, bytes) == Taken(c, hexes[..n], seen, scannedHex, bytes)
    decreases |hexes|
  {
    hide UsableTx, EncodeTx, MempoolEntryAcceptable;
    var n := if |hexes| <= MAX_MEMPOOL_ENTRIES - seen then |hexes| else MAX_MEMPOOL_ENTRIES - seen;
    if hexes != [] && seen < MAX_MEMPOOL_ENTRIES {
      assert hexes[..n][0] == hexes[0] && hexes[..n][1..] == hexes[1..][..n - 1];
      if !MempoolEntryAcceptable(hexes[0], scannedHex) {
        OnlyBoundedInput(c, hexes[1..], seen + 1, scannedHex, bytes);
      } else {
        AcceptableIsString(hexes[0], scannedHex);
        var scanned, tx := scannedHex + |hexes[0].value|, UsableTx(c, hexes[0].value);
        OnlyBoundedInput(c, hexes[1..], seen + 1, scanned, bytes);
        if tx.Some? {
          OnlyBoundedInput(c, hexes[1..], seen + 1, scanned, bytes + |EncodeTx(tx.value)|);
        }
      }
    }
  }

  /** The transactions of the entries that hold one, in the order announced. */
  function Usables(c: Crypto, hexes: Announced): seq<Tx> {
    if hexes == [] then []
    else
      var rest := Usables(c, hexes[1..]);
      if hexes[0].None? || |hexes[0].value| == 0 || |hexes[0].value| > MAX_TX_HEX_LEN then rest
      else
        var tx := UsableTx(c, hexes[0].value);
        if tx.None? then rest else [tx.value] + rest
  }

  function HexLength(hexes: Announced): nat {
    if hexes == [] then 0 else (if hexes[0].None? then 0 else |hexes[0].value|) + HexLength(hexes[1..])
  }

  /** Within the caps, exactly the entries that hold a valid transaction are taken, in the order announced. */
  lemma {:induction false} TakesUsables(c: Crypto, hexes: Announced, seen: nat, scannedHex: nat, bytes: nat)
    requires seen + |hexes| <= MAX_MEMPOOL_ENTRIES && scannedHex + HexLength(hexes) <= TOTAL_HEX_BUDGET
    requires bytes + |EncodeTxs(Usables(c, hexes))| <= TX_BYTE_BUDGET
    ensures Taken(c, hexes, seen, scannedHex, bytes) == Usables(c, hexes)
    decreases |hexes|
  {
    hide UsableTx, EncodeTx, EncodeTxs;
    if hexes != [] {
      var rest := Usables(c, hexes[1..]);
      if hexes[0].Some? && 0 < |hexes[0].value| <= MAX_TX_HEX_LEN {
        var tx := UsableTx(c, hexes[0].value);
        if tx.Some? {
          EncodedFirst(tx.value, rest);
          TakesUsables(c, hexes[1..], seen + 1, scannedHex + |hexes[0].value|, bytes + |EncodeTx(tx.value)|);
        } else {
          TakesUsables(c, hexes[1..], seen + 1, scannedHex + |hexes[0].value|, bytes);
        }
      } else {
        TakesUsables(c, hexes[1..], seen + 1, scannedHex, bytes);
      }
    }
  }

  lemma EncodedFirst(tx: Tx, rest: seq<Tx>)
    ensures |EncodeTxs([tx] + rest)| == |EncodeTx(tx)| + |EncodeTxs(rest)|
  {
    hide EncodeTx;
    assert ([tx] + rest)[1..] == rest;
  }

  /** How a pool announces transactions: the hex of their encodings. */
  function Announcement(txs: seq<Tx>): Announced {
    if txs == [] then [] else [Some(BytesToHex(EncodeTx(txs[0])))] + Announcement(txs[1..])
  }

  lemma UsableHex(c: Crypto, tx: Tx)
    requires ValidStructure(c, tx) && WireForm(tx) == tx
    ensures UsableTx(c, BytesToHex(EncodeTx(tx))) == Some(tx)
  {
    hide EncodeTx, DecodeTx, ValidStructure, WireForm, Encodable, HexToBytes, BytesToHex;
    var b := EncodeTx(tx);
    StructureIsEncodable(c, tx);
    HexOfBytes(b);
    HoldsAll(b, b);
    DecodeTxComplete(b, 0, tx);
  }

  lemma EncodedNonEmpty(tx: Tx)
    ensures 0 < |EncodeTx(tx)|
  {
  }

  /** Whatever valid transactions fit the block, announcing them has them taken, all and in order. */
  lemma AnnouncedTaken(c: Crypto, txs: seq<Tx>)
    requires TxsValid(c, txs) && (forall i :: 0 <= i < |txs| ==> WireForm(txs[i]) == txs[i])
    requires |txs| <= MAX_MEMPOOL_ENTRIES && |EncodeTxs(txs)| <= TX_BYTE_BUDGET
    ensures Taken(c, Announcement(txs), 0, 0, 0) == txs
  {
    hide EncodeTx, EncodeTxs, ValidStructure, WireForm, Taken, Usables;
    AnnouncedUsable(c, txs);
    TakesUsables(c, Announcement(txs), 0, 0, 0);
  }

  lemma {:induction false} AnnouncedUsable(c: Crypto, txs: seq<Tx>)
    requires TxsValid(c, txs) && (forall i :: 0 <= i < |txs| ==> WireForm(txs[i]) == txs[i])
    requires |EncodeTxs(txs)| <= TX_BYTE_BUDGET
    ensures Usables(c, Announcement(txs)) == txs
    ensures |Announcement(txs)| == |txs| && HexLength(Announcement(txs)) == 2 * |EncodeTxs(txs)|
    decreases |txs|
  {
    hide EncodeTx, ValidStructure, WireForm, UsableTx, BytesToHex, EncodeTxs, Usables, HexLength;
    if txs == [] {
      NothingFits(c);
      NothingAnnounced(c);
    } else {
      var tx, rest := txs[0], txs[1..];
      assert txs == [tx] + rest;
      EncodedFirst(tx, rest);
      assert forall i :: 0 <= i < |rest| ==> rest[i] == txs[i + 1];
      AnnouncedUsable(c, rest);
      UsableHex(c, tx);
      EncodedNonEmpty(tx);
      OneAnnounced(c, BytesToHex(EncodeTx(tx)), tx, Announcement(rest));
    }
  }

  lemma NothingAnnounced(c: Crypto)
    ensures Usables(c, []) == [] && HexLength([]) == 0
  {
  }

  lemma OneAnnounced(c: Crypto, hex: string, tx: Tx, rest: Announced)
    requires UsableTx(c, hex) == Some(tx) && 0 < |hex| <= MAX_TX_HEX_LEN
    ensures Usables(c, [Some(hex)] + rest) == [tx] + Usables(c, rest)
    ensures HexLength([Some(hex)] + rest) == |hex| + HexLength(rest)
  {
    hide UsableTx;
    assert ([Some(hex)] + rest)[1..] == rest;
  }

  // ------------------------------------------------------------------
  // The block to mine
  // ------------------------------------------------------------------

  function TemplateTime(t: Tree, now: nat): nat {
    var mtp := MtpAfter(t, t.tip);
    if now >= mtp + 1 then now else mtp + 1
  }

  /** `b` extends the tip with these transactions, its roots and difficulty right, its nonce open. */
  ghost predicate BuiltOn(c: Crypto, t: Tree, b: Block, miner: Hash32, txs: seq<Tx>, now: nat)
    requires TipMaterialized(t)
  {
    var bc := ChildContext(t, t.tip);
    var applied := BlockApplied(c, t.blocks[t.tip].state.value, miner, txs, bc);
    && applied.Some? && ExpectedDifficulty(t, t.tip, TemplateTime(t, now)).Some?
    && b.transactions == txs
    && b.header.height == bc.height && b.header.prevHash == t.tip && b.header.miner == miner && b.header.nonce == 0
    && b.header.timestamp == TemplateTime(t, now)
    && b.header.difficulty == ExpectedDifficulty(t, t.tip, TemplateTime(t, now)).value
    && b.header.txRoot == ComputeTxRoot(c, txs)
    && b.header.stateRoot == Root(c, applied.value)
  }

  lemma IntroBuilt(c: Crypto, t: Tree, b: Block, miner: Hash32, txs: seq<Tx>, now: nat, applied: Ledger,
      difficulty: nat)
    requires TipMaterialized(t)
    requires BlockApplied(c, t.blocks[t.tip].state.value, miner, txs, ChildContext(t, t.tip)) == Some(applied)
    requires ExpectedDifficulty(t, t.tip, TemplateTime(t, now)) == Some(difficulty)
    requires b == Block(Header(ChildContext(t, t.tip).height, t.tip, ComputeTxRoot(c, txs), Root(c, applied),
                               TemplateTime(t, now), difficulty, 0, miner), txs)
    ensures BuiltOn(c, t, b, miner, txs, now)
  {
    hide BlockApplied, Root, ComputeTxRoot, ExpectedDifficulty, ChildContext, TemplateTime;
  }

  lemma ContextTime(t: Tree, now: nat)
    requires t.tip in t.blocks
    ensures MaxNat(now, ChildContext(t, t.tip).mtp + 1) == TemplateTime(t, now)
  {
    hide MtpAfter;
  }

  /** The pool's whole set when it applies cleanly, and no transactions otherwise. */
  ghost function Included(c: Crypto, t: Tree, miner: Hash32, txs: seq<Tx>): seq<Tx>
    requires TipMaterialized(t)
  {
    if BlockApplied(c, t.blocks[t.tip].state.value, miner, txs, ChildContext(t, t.tip)).Some? then txs else []
  }

  lemma EmptyBlockApplies(c: Crypto, l: Ledger, miner: Bytes, bc: BlockContext)
    ensures BlockApplied(c, l, miner, [], bc).Some?
  {
  }

  /** The tip's state, and the height, context, time and difficulty of a child of it. */
  method Prepare(chain: Blockchain, now: nat)
    returns (tipState: State, bc: BlockContext, timestamp: nat, difficulty: nat)
    requires chain.Valid() && Ready(chain.c, chain.tree)
    ensures TipMaterialized(chain.tree) && tipState.Valid()
    ensures Some(tipState.View()) == chain.tree.blocks[chain.tree.tip].state && chain.tipHash == chain.tree.tip
    ensures bc == ChildContext(chain.tree, chain.tree.tip) && timestamp == TemplateTime(chain.tree, now)
    ensures ExpectedDifficulty(chain.tree, chain.tree.tip, timestamp) == Some(difficulty)
  {
    hide Shape, Ready, ExpectedDifficulty, ChildContext, TemplateTime, Kept, Footprint, NodeView;
    TipOfReady(chain.c, chain.tree);
    chain.StoredAt(chain.tipHash);
    chain.StateAt(chain.tipHash);
    tipState := chain.blocks[chain.tipHash].state.value;
    bc := chain.NextBlockContext(chain.tipHash);
    ContextTime(chain.tree, now);
    timestamp := MaxNat(now, bc.mtp + 1);
    difficulty := TipDifficulty(chain, timestamp);
  }

  /** The pool address comes off the wire with any length; only 32 bytes make a header. None is the thrown error. */
  method BuildNegotiatedTemplate(chain: Blockchain, poolPub: Bytes, mempool: Announced, now: nat)
    returns (b: Option<Block>)
    requires chain.Valid() && Ready(chain.c, chain.tree)
    ensures b.Some? <==> |poolPub| == 32
    ensures b.Some? ==>
      BuiltOn(chain.c, chain.tree, b.value, poolPub,
              Included(chain.c, chain.tree, poolPub, Taken(chain.c, mempool, 0, 0, 0)), now)
  {
    hide Shape, Ready, BlockApplied, Root, ComputeTxRoot, ExpectedDifficulty, ChildContext, Taken, TemplateTime,
      BuiltOn, Kept, Footprint, NodeView;
    if |poolPub| != 32 {
      return None;
    }
    var c, miner: Hash32 := chain.c, poolPub;
    ghost var t := chain.tree;
    var tipState, bc, timestamp, difficulty := Prepare(chain, now);
    ghost var l := tipState.View();
    var taken := DecodeMempool(c, mempool);
    assert tipState.View() == l;
    var txs, sim := Simulate(c, tipState, miner, taken, bc);
    var root := sim.ComputeRoot(c);
    var header := Header(bc.height, chain.tipHash, ComputeTxRoot(c, txs), root, timestamp, difficulty, 0, miner);
    b := Some(Block(header, txs));
    IntroBuilt(c, t, b.value, miner, txs, now, sim.View(), difficulty);
  }

  /** Tries the whole set on a copy of the tip's state, and falls back to an empty block. */
  method Simulate(c: Crypto, tipState: State, miner: Hash32, taken: seq<Tx>, bc: BlockContext)
    returns (txs: seq<Tx>, sim: State)
    requires tipState.Valid()
    ensures sim.Valid() && fresh(sim.Repr())
    ensures txs == if BlockApplied(c, old(tipState.View()), miner, taken, bc).Some? then taken else []
    ensures BlockApplied(c, old(tipState.View()), miner, txs, bc) == Some(sim.View())
  {
    hide BlockApplied;
    ghost var l := tipState.View();
    txs := taken;
    sim := tipState.Clone();
    assert sim.View() == l;
    EmptyBlockApplies(c, l, miner, bc);
    if |txs| > 0 {
      var applied := sim.ApplyBlockTxs(c, miner, txs, bc);
      if applied {
        return;
      }
      txs := [];
      sim := tipState.Clone();
    }
    assert txs == [] && (taken == [] || BlockApplied(c, l, miner, taken, bc).None?);
    assert sim.View() == l;
    var ok := sim.ApplyBlockTxs(c, miner, [], bc);
  }

  function MaxNat(a: nat, b: nat): nat { if a >= b then a else b }

  lemma TipOfReady(c: Crypto, t: Tree)
    requires Ready(c, t)
    ensures TipMaterialized(t) && Shape(c, t)
  {
  }

  /** The difficulty the chain expects next; it always exists. */
  method TipDifficulty(chain: Blockchain, timestamp: nat) returns (d: nat)
    requires chain.Valid() && Ready(chain.c, chain.tree)
    ensures chain.tree.tip in chain.tree.blocks
    ensures ExpectedDifficulty(chain.tree, chain.tree.tip, timestamp) == Some(d)
  {
    hide Shape, ExpectedDifficulty, Ready;
    TipOfReady(chain.c, chain.tree);
    chain.StoredAt(chain.tipHash);
    var expected := chain.ExpectedNextDifficulty(timestamp, chain.tipHash);
    DifficultyNeverFails(chain.c, chain.tree, chain.tipHash, timestamp);
    ExpectedFits(chain.tree, chain.tipHash, timestamp);
    d := expected.value;
  }

  lemma ExpectedFits(t: Tree, p: Hash32, time: nat)
    requires p in t.blocks && ExpectedDifficulty(t, p, time).Some?
    ensures 0 <= ExpectedDifficulty(t, p, time).value < U32
  {
    hide NextDifficulty;
    RequiredDifficultyFits(HeaderAt(t, p).height + 1, Recent(t, p, RETARGET_LOOKBACK), Some(time), t.blocks[p].anchor);
  }

  /** What the solo miner grinds: an empty block, with the state after it for its own chain. */
  datatype SoloTemplate = SoloTemplate(header: Header, headerBytes: Bytes, target: nat, postState: State)

  method BuildTemplate(chain: Blockchain, minerPubkey: Hash32, now: nat) returns (tpl: SoloTemplate)
    requires chain.Valid() && Ready(chain.c, chain.tree)
    ensures BuiltOn(chain.c, chain.tree, Block(tpl.header, []), minerPubkey, [], now)
    ensures tpl.headerBytes == EncodeHeader(tpl.header) && tpl.target == CompactToTarget(tpl.header.difficulty)
    ensures fresh(tpl.postState.Repr()) && tpl.postState.Valid()
    ensures Some(tpl.postState.View()) ==
      BlockApplied(chain.c, chain.tree.blocks[chain.tree.tip].state.value, minerPubkey, [],
                   ChildContext(chain.tree, chain.tree.tip))
  {
    hide Shape, Ready, BlockApplied, Root, ComputeTxRoot, ExpectedDifficulty, ChildContext, TemplateTime, BuiltOn,
      EncodeHeader, CompactToTarget, Kept, Footprint, NodeView;
    var c := chain.c;
    ghost var t := chain.tree;
    var tipState, bc, timestamp, difficulty := Prepare(chain, now);
    ghost var l := tipState.View();
    var postState := tipState.Clone();
    EmptyBlockApplies(c, l, minerPubkey, bc);
    var ok := postState.ApplyBlockTxs(c, minerPubkey, [], bc);
    var root := postState.ComputeRoot(c);
    var header := Header(bc.height, chain.tipHash, ComputeTxRoot(c, []), root, timestamp, difficulty, 0, minerPubkey);
    tpl := SoloTemplate(header, EncodeHeader(header), CompactToTarget(difficulty), postState);
    IntroBuilt(c, t, Block(header, []), minerPubkey, [], now, postState.View(), difficulty);
  }

  // ------------------------------------------------------------------
  // The validator accepts what the builders build
  // ------------------------------------------------------------------

  /** If a stored block has this header's hash, it is this header. */
  ghost predicate HashesApart(c: Crypto, t: Tree, h: Header) {
    HashHeader(c, h) in t.blocks ==> HeaderAt(t, HashHeader(c, h)) == h
  }

  /** A block on the tip cannot be stored already: it would outweigh the tip. */
  lemma ChildOfTipIsNew(c: Crypto, t: Tree, h: Header)
    requires Ready(c, t) && HashesApart(c, t, h) && h.prevHash == t.tip && h.height > 0 && CheckPoW(c, h)
    ensures HashHeader(c, h) !in t.blocks
  {
    hide HashHeader, GenesisHash, BlockWork, Shape, NullsClosed, CheckPoW;
    var x := HashHeader(c, h);
    PoWHasWork(c, h);
    if x in t.blocks {
      ParentOf(c, t, x);
      WorkStep(c, t, x);
      assert false;
    }
  }

  /**
   * Any block a builder produced on the current tip, with any nonce whose proof
   * of work holds, within the size limit and its time not too far ahead, is
   * accepted by full validation and becomes a strictly heavier tip. Nothing is
   * asked of the blocks below: a chain restored from any file will do.
   */
  lemma BuiltBlockAccepted(c: Crypto, t: Tree, b: Block, miner: Hash32, txs: seq<Tx>, builtAt: nat, nonce: nat,
      now: nat)
    requires Ready(c, t) && BuiltOn(c, t, b, miner, txs, builtAt)
    requires TxsValid(c, txs) && |EncodeTxs(txs)| <= TX_BYTE_BUDGET
    requires TemplateTime(t, builtAt) <= now + MAX_FUTURE_TIME_S
    requires var h := b.header.(nonce := nonce); CheckPoW(c, h) && HashesApart(c, t, h)
    ensures t.tip in t.blocks
    ensures var mined := Block(b.header.(nonce := nonce), txs);
            && Judge(c, t, mined, now, FULL).Accepted?
            && var u := Added(c, t, mined, now, FULL, true);
               u.tip == HashHeader(c, mined.header) && u.tip in u.blocks && u.blocks[u.tip].work > t.blocks[t.tip].work
  {
    hide HashHeader, GenesisHash, BlockWork, Ready, BlockApplied, Root, ComputeTxRoot, CheckPoW, TxsValid, EncodeTxs,
      ExpectedDifficulty, MtpAfter, ScriptsActiveForMtp, EncodeHeader;
    var h := b.header.(nonce := nonce);
    TipOfReady(c, t);
    ChildOfTipIsNew(c, t, h);
    PoWHasWork(c, h);
    BlockLength(Block(h, txs));
    TimeAboveMedian(t, builtAt);
    assert HeaderOk(c, t, Block(h, txs), now, FULL);
  }

  lemma BlockLength(b: Block)
    ensures |EncodeBlock(b)| == HEADER_LEN + 4 + |EncodeTxs(b.transactions)|
  {
    hide EncodeTxs, EncodeHeader;
  }

  /** The builder's clock, moved just past the median-time-past when it lags behind. */
  lemma TimeAboveMedian(t: Tree, now: nat)
    ensures TemplateTime(t, now) > MtpAfter(t, t.tip) && TemplateTime(t, now) >= now
    ensures TemplateTime(t, now) in {now, MtpAfter(t, t.tip) + 1}
  {
    hide MtpAfter;
  }

  /** In particular for the negotiated builder, whatever the pool announces. */
  lemma NegotiatedBlockAccepted(c: Crypto, t: Tree, b: Block, pool: Hash32, mempool: Announced, builtAt: nat,
      nonce: nat, now: nat)
    requires Ready(c, t) && TipMaterialized(t)
    requires BuiltOn(c, t, b, pool, Included(c, t, pool, Taken(c, mempool, 0, 0, 0)), builtAt)
    requires TemplateTime(t, builtAt) <= now + MAX_FUTURE_TIME_S
    requires var h := b.header.(nonce := nonce); CheckPoW(c, h) && HashesApart(c, t, h)
    ensures var mined := b.(header := b.header.(nonce := nonce));
            && Judge(c, t, mined, now, FULL).Accepted?
            && var u := Added(c, t, mined, now, FULL, true);
               u.tip == HashHeader(c, mined.header) && u.tip in u.blocks && u.blocks[u.tip].work > t.blocks[t.tip].work
  {
    hide HashHeader, Ready, Judge, Added, CheckPoW, HashesApart, TxsValid, Taken, EncodeTxs, BlockApplied,
      TemplateTime, BlockWork;
    var taken := Taken(c, mempool, 0, 0, 0);
    TakenFits(c, mempool, 0, 0, 0);
    NothingFits(c);
    BuiltBlockAccepted(c, t, b, pool, Included(c, t, pool, taken), builtAt, nonce, now);
  }

  /**
   * So on every chain a process can have, restored or not: the empty block its
   * solo builder makes, once mined, is accepted and becomes the tip.
   */
  lemma EveryRunAccepts(c: Crypto, ops: seq<Op>, b: Block, miner: Hash32, builtAt: nat, nonce: nat, now: nat)
    requires RestoresNew(c, ops) && TipMaterialized(Run(c, ops)) && BuiltOn(c, Run(c, ops), b, miner, [], builtAt)
    requires TemplateTime(Run(c, ops), builtAt) <= now + MAX_FUTURE_TIME_S
    requires var h := b.header.(nonce := nonce); CheckPoW(c, h) && HashesApart(c, Run(c, ops), h)
    ensures var mined := Block(b.header.(nonce := nonce), []);
            && Judge(c, Run(c, ops), mined, now, FULL).Accepted?
            && Run(c, ops + [Add(mined, now, FULL, true)]).tip == HashHeader(c, mined.header)
  {
    hide HashHeader, Ready, Judge, Added, CheckPoW, HashesApart, TxsValid, EncodeTxs, BlockApplied, TemplateTime,
      BlockWork, RunFrom, RestoresAtStart, Shape, InitTree, BuiltOn;
    NewReady(c);
    RunReady(c, InitTree(c), ops);
    NothingFits(c);
    var mined := Block(b.header.(nonce := nonce), []);
    BuiltBlockAccepted(c, Run(c, ops), b, miner, [], builtAt, nonce, now);
    RunStep(c, ops, Add(mined, now, FULL, true));
  }

  lemma NothingFits(c: Crypto)
    ensures TxsValid(c, []) && EncodeTxs([]) == []
  {
  }
}
