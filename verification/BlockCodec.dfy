/** Block headers and blocks as bytes (src/chain/block.ts). */
module BlockCodec {
  import opened Binary
  import opened Crypto
  import opened Merkle
  import opened Transaction

  datatype Header = Header(
    height: nat,
    prevHash: Hash32,
    txRoot: Hash32,
    stateRoot: Hash32,
    timestamp: nat,
    difficulty: nat,
    nonce: nat,
    miner: Hash32)

  datatype Block = Block(header: Header, transactions: seq<Tx>)

  const HEADER_LEN: nat := 148
  const MAX_SAFE_INTEGER: nat := 9007199254740991

  // ------------------------------------------------------------------
  // Headers
  // ------------------------------------------------------------------

  function EncodeHeader(h: Header): (r: Bytes)
    ensures |r| == HEADER_LEN
  {
    U32be(h.height) + h.prevHash + h.txRoot + h.stateRoot + U64be(h.timestamp)
    + U32be(h.difficulty) + U32be(h.nonce) + h.miner
  }

  function HashHeader(c: Crypto, h: Header): Hash32 { c.sha256(EncodeHeader(h)) }

  /** None is a thrown error: too short, or a timestamp a JavaScript number cannot hold. */
  function DecodeHeader(buf: Bytes, off: nat): Option<Header> {
    if |buf| < off + HEADER_LEN then None else
      var ts := ReadU64be(buf, off + 100);
      if ts.None? || ts.value > MAX_SAFE_INTEGER then None
      else Some(Header(ReadU32be(buf, off), buf[off + 4..off + 36], buf[off + 36..off + 68],
                       buf[off + 68..off + 100], ts.value, ReadU32be(buf, off + 108), ReadU32be(buf, off + 112),
                       buf[off + 116..off + 148]))
  }

  predicate HeaderFits(h: Header) {
    h.height < U32 && h.difficulty < U32 && h.nonce < U32 && h.timestamp <= MAX_SAFE_INTEGER
  }

  lemma HeaderLayout(buf: Bytes, p: nat, h: Header)
    ensures Holds(buf, p, EncodeHeader(h)) <==>
      && Holds(buf, p, U32be(h.height)) && Holds(buf, p + 4, h.prevHash) && Holds(buf, p + 36, h.txRoot)
      && Holds(buf, p + 68, h.stateRoot) && Holds(buf, p + 100, U64be(h.timestamp))
      && Holds(buf, p + 108, U32be(h.difficulty)) && Holds(buf, p + 112, U32be(h.nonce))
      && Holds(buf, p + 116, h.miner)
  {
    hide BE, Holds;
    var a: Bytes := U32be(h.height);
    var b := a + h.prevHash;
    var c := b + h.txRoot;
    var d := c + h.stateRoot;
    var e := d + U64be(h.timestamp);
    var f := e + U32be(h.difficulty);
    HoldsSplit(buf, p, a, h.prevHash);
    HoldsSplit(buf, p, b, h.txRoot);
    HoldsSplit(buf, p, c, h.stateRoot);
    HoldsSplit(buf, p, d, U64be(h.timestamp));
    HoldsSplit(buf, p, e, U32be(h.difficulty));
    HoldsSplit(buf, p, f, U32be(h.nonce));
    HoldsSplit(buf, p, f + U32be(h.nonce), h.miner);
  }

  /** A header decodes from a place exactly when it fits and its encoding lies there. */
  lemma DecodeHeaderExact(buf: Bytes, p: nat, h: Header)
    ensures DecodeHeader(buf, p) == Some(h) <==> HeaderFits(h) && Holds(buf, p, EncodeHeader(h))
  {
    if HeaderFits(h) && Holds(buf, p, EncodeHeader(h)) {
      HeaderComplete(buf, p, h);
    }
    if DecodeHeader(buf, p) == Some(h) {
      HeaderSound(buf, p, h);
    }
  }

  lemma HeaderSound(buf: Bytes, p: nat, h: Header)
    requires DecodeHeader(buf, p) == Some(h)
    ensures HeaderFits(h) && Holds(buf, p, EncodeHeader(h))
  {
    hide BE, ReadU32be, ReadU64be, EncodeHeader;
    HeaderNumbers(buf, p, h);
    ReadU32Bound(buf, p);
    ReadU32Bound(buf, p + 108);
    ReadU32Bound(buf, p + 112);
    HeaderLayout(buf, p, h);
  }

  lemma HeaderNumbers(buf: Bytes, p: nat, h: Header)
    requires |buf| >= p + HEADER_LEN
    ensures 0 <= h.height < U32 ==> (Holds(buf, p, U32be(h.height)) <==> ReadU32be(buf, p) == h.height)
    ensures 0 <= h.timestamp < U64 ==>
      (Holds(buf, p + 100, U64be(h.timestamp)) <==> ReadU64be(buf, p + 100) == Some(h.timestamp))
    ensures 0 <= h.difficulty < U32 ==>
      (Holds(buf, p + 108, U32be(h.difficulty)) <==> ReadU32be(buf, p + 108) == h.difficulty)
    ensures 0 <= h.nonce < U32 ==> (Holds(buf, p + 112, U32be(h.nonce)) <==> ReadU32be(buf, p + 112) == h.nonce)
  {
    hide BE, ReadU32be, ReadU64be, Holds;
    if 0 <= h.height < U32 { ReadU32Holds(buf, p, h.height); }
    if 0 <= h.timestamp < U64 { ReadU64Holds(buf, p + 100, h.timestamp); }
    if 0 <= h.difficulty < U32 { ReadU32Holds(buf, p + 108, h.difficulty); }
    if 0 <= h.nonce < U32 { ReadU32Holds(buf, p + 112, h.nonce); }
  }

  lemma HeaderComplete(buf: Bytes, p: nat, h: Header)
    requires HeaderFits(h) && Holds(buf, p, EncodeHeader(h))
    ensures DecodeHeader(buf, p) == Some(h)
  {
    hide BE, ReadU32be, ReadU64be, EncodeHeader;
    HeaderLayout(buf, p, h);
    HeaderNumbers(buf, p, h);
  }

  // ------------------------------------------------------------------
  // Blocks
  // ------------------------------------------------------------------

  function EncodeTxs(txs: seq<Tx>): Bytes {
    if txs == [] then [] else EncodeTx(txs[0]) + EncodeTxs(txs[1..])
  }

  function EncodeBlock(b: Block): Bytes {
    EncodeHeader(b.header) + U32be(|b.transactions|) + EncodeTxs(b.transactions)
  }

  function TxBytes(txs: seq<Tx>): seq<Bytes> {
    if txs == [] then [] else [EncodeTx(txs[0])] + TxBytes(txs[1..])
  }

  function ComputeTxRoot(c: Crypto, txs: seq<Tx>): Hash32 {
    MerkleRoot(c, TxBytes(txs))
  }

  /** `count` transactions from `p`, with where they end. */
  function DecodeTxs(buf: Bytes, p: nat, count: nat): (r: Option<(seq<Tx>, nat)>)
    decreases count
  {
    if count == 0 then Some(([], p)) else
      var first := DecodeTx(buf, p);
      if first.None? then None else
        var rest := DecodeTxs(buf, first.value.1, count - 1);
        if rest.None? then None else Some(([first.value.0] + rest.value.0, rest.value.1))
  }

  function DecodeBlock(buf: Bytes): Option<Block> {
    var h := DecodeHeader(buf, 0);
    if h.None? then None else
      var txs := DecodeTxs(buf, HEADER_LEN + 4, ReadU32be(buf, HEADER_LEN));
      if txs.None? || txs.value.1 != |buf| then None else Some(Block(h.value, txs.value.0))
  }

  method DecodeBlockLoop(buf: Bytes) returns (r: Option<Block>)
    ensures r == DecodeBlock(buf)
  {
    hide DecodeTx, DecodeTxs, DecodeHeader, ReadU32be, After;
    var h := DecodeHeader(buf, 0);
    if h.None? {
      return None;
    }
    var count := ReadU32be(buf, HEADER_LEN);
    var p: nat := HEADER_LEN + 4;
    var txs: seq<Tx> := [];
    AfterNone(DecodeTxs(buf, p, count));
    for i := 0 to count
      invariant DecodeTxs(buf, HEADER_LEN + 4, count) == After(txs, DecodeTxs(buf, p, count - i))
    {
      var next := DecodeTx(buf, p);
      if next.None? {
        AfterFailure(txs);
        NoTx(buf, p, count - i);
        return None;
      }
      OneTx(buf, p, count - i);
      AfterOne(txs, next.value.0, DecodeTxs(buf, next.value.1, count - i - 1));
      txs := txs + [next.value.0];
      p := next.value.1;
    }
    NoTxs(buf, p);
    AfterAll(txs, p);
    r := if p != |buf| then None else Some(Block(h.value, txs));
  }

  lemma NoTxs(buf: Bytes, p: nat)
    ensures DecodeTxs(buf, p, 0) == Some(([], p)) && EncodeTxs([]) == []
  {
  }

  lemma NoTx(buf: Bytes, p: nat, count: nat)
    requires count > 0 && DecodeTx(buf, p).None?
    ensures DecodeTxs(buf, p, count) == None
  {
    hide DecodeTx;
  }

  lemma OneTx(buf: Bytes, p: nat, count: nat)
    requires count > 0 && DecodeTx(buf, p).Some?
    ensures DecodeTxs(buf, p, count) ==
      After([DecodeTx(buf, p).value.0], DecodeTxs(buf, DecodeTx(buf, p).value.1, count - 1))
  {
    hide DecodeTx;
  }

  ghost function After(txs: seq<Tx>, r: Option<(seq<Tx>, nat)>): Option<(seq<Tx>, nat)> {
    if r.None? then None else Some((txs + r.value.0, r.value.1))
  }

  lemma AfterNone(r: Option<(seq<Tx>, nat)>)
    ensures After([], r) == r
  {
    if r.Some? {
      assert [] + r.value.0 == r.value.0;
    }
  }

  lemma AfterAll(txs: seq<Tx>, p: nat)
    ensures After(txs, Some(([], p))) == Some((txs, p))
  {
    assert txs + [] == txs;
  }

  lemma AfterFailure(txs: seq<Tx>)
    ensures After(txs, None) == None
  {
  }

  lemma AfterOne(txs: seq<Tx>, tx: Tx, r: Option<(seq<Tx>, nat)>)
    ensures After(txs, After([tx], r)) == After(txs + [tx], r)
  {
    if r.Some? {
      assert txs + ([tx] + r.value.0) == txs + [tx] + r.value.0;
    }
  }

  // ------------------------------------------------------------------
  // Exact parsing
  // ------------------------------------------------------------------

  predicate AllEncodable(txs: seq<Tx>) {
    forall i :: 0 <= i < |txs| ==> Encodable(txs[i])
  }

  function WireForms(txs: seq<Tx>): (r: seq<Tx>)
    ensures |r| == |txs|
    ensures forall i :: 0 <= i < |txs| ==> r[i] == WireForm(txs[i])
  {
    seq(|txs|, i requires 0 <= i < |txs| => WireForm(txs[i]))
  }

  function NormalisedBlock(b: Block): Block {
    b.(transactions := seq(|b.transactions|, i requires 0 <= i < |b.transactions| => Normalised(b.transactions[i])))
  }

  lemma DecodeTxsStep(buf: Bytes, p: nat, txs: seq<Tx>, next: nat)
    requires txs != []
    ensures DecodeTxs(buf, p, |txs|) == Some((txs, next)) <==>
      var first := DecodeTx(buf, p);
      first.Some? && first.value.0 == txs[0] && DecodeTxs(buf, first.value.1, |txs| - 1) == Some((txs[1..], next))
  {
    hide DecodeTx;
    var first := DecodeTx(buf, p);
    assert txs == [txs[0]] + txs[1..];
    if first.Some? {
      var rest := DecodeTxs(buf, first.value.1, |txs| - 1);
      if rest.Some? {
        assert ([first.value.0] + rest.value.0)[1..] == rest.value.0;
      }
    }
  }

  lemma DecodeTxsCount(buf: Bytes, p: nat, count: nat)
    ensures var r := DecodeTxs(buf, p, count); r.Some? ==> |r.value.0| == count && r.value.1 >= p
    decreases count
  {
    hide DecodeTransfer, DecodeLock, DecodeRedeem;
    if count > 0 && DecodeTx(buf, p).Some? {
      DecodeTxAdvances(buf, p);
      DecodeTxsCount(buf, DecodeTx(buf, p).value.1, count - 1);
    }
  }

  lemma DecodeTxAdvances(buf: Bytes, p: nat)
    ensures DecodeTx(buf, p).Some? ==> DecodeTx(buf, p).value.1 >= p
  {
    hide ReadU32be, ReadU64be, Slice, ReadU16be;
  }

  lemma EncodedTxsLayout(buf: Bytes, p: nat, txs: seq<Tx>)
    requires txs != []
    ensures |EncodeTxs(txs)| == |EncodeTx(txs[0])| + |EncodeTxs(txs[1..])|
    ensures Holds(buf, p, EncodeTxs(txs)) <==>
      Holds(buf, p, EncodeTx(txs[0])) && Holds(buf, p + |EncodeTx(txs[0])|, EncodeTxs(txs[1..]))
  {
    hide EncodeTx, Holds;
    HoldsSplit(buf, p, EncodeTx(txs[0]), EncodeTxs(txs[1..]));
  }

  lemma WireFormsFixed(txs: seq<Tx>)
    requires txs != []
    ensures AllEncodable(txs) <==> Encodable(txs[0]) && AllEncodable(txs[1..])
    ensures WireForms(txs) == [WireForm(txs[0])] + WireForms(txs[1..])
  {
    hide Encodable, WireForm, AllEncodable, WireForms;
    FirstEncodable(txs[0], txs[1..]);
    FirstWireForm(txs[0], txs[1..]);
    assert txs == [txs[0]] + txs[1..];
  }

  lemma FirstEncodable(tx: Tx, rest: seq<Tx>)
    ensures AllEncodable([tx] + rest) <==> Encodable(tx) && AllEncodable(rest)
  {
    hide Encodable;
    var all := [tx] + rest;
    assert all[0] == tx && forall i :: 0 <= i < |rest| ==> all[i + 1] == rest[i];
    if AllEncodable(all) {
      forall i | 0 <= i < |rest| ensures Encodable(rest[i]) {
        assert Encodable(all[i + 1]);
      }
    }
  }

  lemma FirstWireForm(tx: Tx, rest: seq<Tx>)
    ensures WireForms([tx] + rest) == [WireForm(tx)] + WireForms(rest)
  {
    hide WireForm, WireForms;
    var all := [tx] + rest;
    assert all[0] == tx && forall i :: 0 <= i < |rest| ==> all[i + 1] == rest[i];
  }

  /** Transactions whose cursor never ran past the end re-encode to the bytes read. */
  lemma {:induction false} DecodeTxsSound(buf: Bytes, p: nat, txs: seq<Tx>, next: nat)
    requires DecodeTxs(buf, p, |txs|) == Some((txs, next)) && p <= next <= |buf|
    ensures AllEncodable(txs) && WireForms(txs) == txs
    ensures Holds(buf, p, EncodeTxs(txs)) && next == p + |EncodeTxs(txs)|
    decreases |txs|
  {
    hide DecodeTx, DecodeTxs, EncodeTx, EncodeTxs, Holds, WireForm, Encodable, AllEncodable;
    if txs == [] {
      NoTxs(buf, p);
      HoldsNothing(buf, p);
      assert AllEncodable([]) by { NothingEncodable(); }
    } else {
      DecodeTxsStep(buf, p, txs, next);
      var q := DecodeTx(buf, p).value.1;
      DecodeTxsCount(buf, q, |txs| - 1);
      DecodeTxAdvances(buf, p);
      DecodeTxSound(buf, p, txs[0], q);
      DecodeTxsSound(buf, q, txs[1..], next);
      EncodedTxsLayout(buf, p, txs);
      WireFormsFixed(txs);
      assert txs == [txs[0]] + txs[1..];
    }
  }

  lemma NothingEncodable()
    ensures AllEncodable([])
  {
  }

  lemma {:induction false} DecodeTxsComplete(buf: Bytes, p: nat, txs: seq<Tx>)
    requires AllEncodable(txs) && Holds(buf, p, EncodeTxs(txs))
    ensures DecodeTxs(buf, p, |txs|) == Some((WireForms(txs), p + |EncodeTxs(txs)|))
    decreases |txs|
  {
    hide DecodeTx, DecodeTxs, EncodeTx, EncodeTxs, Holds, WireForm, Encodable, AllEncodable;
    if txs == [] {
      NoTxs(buf, p);
    } else {
      EncodedTxsLayout(buf, p, txs);
      WireFormsFixed(txs);
      DecodeTxComplete(buf, p, txs[0]);
      DecodeTxsComplete(buf, p + |EncodeTx(txs[0])|, txs[1..]);
      DecodeTxsStep(buf, p, WireForms(txs), p + |EncodeTxs(txs)|);
    }
  }

  lemma BlockLayout(buf: Bytes, b: Block)
    ensures Holds(buf, 0, EncodeBlock(b)) <==>
      && Holds(buf, 0, EncodeHeader(b.header)) && Holds(buf, HEADER_LEN, U32be(|b.transactions|))
      && Holds(buf, HEADER_LEN + 4, EncodeTxs(b.transactions))
  {
    hide BE, EncodeTxs, Holds;
    HoldsSplit(buf, 0, EncodeHeader(b.header), U32be(|b.transactions|));
    HoldsSplit(buf, 0, EncodeHeader(b.header) + U32be(|b.transactions|), EncodeTxs(b.transactions));
  }

  lemma HoldsAll(buf: Bytes, bytes: Bytes)
    ensures Holds(buf, 0, bytes) && |bytes| == |buf| <==> buf == bytes
  {
    if |bytes| == |buf| {
      assert buf[0..0 + |bytes|] == buf;
    }
  }

  /**
   * A buffer that decodes is the encoding of what it decodes to, so no two
   * buffers decode to the same block and no byte is ignored.
   */
  lemma DecodeBlockExact(buf: Bytes, b: Block)
    requires DecodeBlock(buf) == Some(b)
    ensures EncodeBlock(b) == buf
    ensures HeaderFits(b.header) && AllEncodable(b.transactions) && NormalisedBlock(b) == b
    ensures forall i :: 0 <= i < |b.transactions| ==> b.transactions[i].nonce < U32
  {
    hide BE, ReadU32be, Holds, DecodeTxs, DecodeHeader, EncodeHeader, EncodeTxs, WireForm, Normalised, HeaderFits,
      Encodable;
    var txs := b.transactions;
    var count := ReadU32be(buf, HEADER_LEN);
    HeaderRoom(buf);
    DecodeHeaderExact(buf, 0, b.header);
    DecodeTxsCount(buf, HEADER_LEN + 4, count);
    DecodeTxsSound(buf, HEADER_LEN + 4, txs, |buf|);
    ReadU32Bound(buf, HEADER_LEN);
    ReadU32Holds(buf, HEADER_LEN, count);
    BlockLayout(buf, b);
    HoldsAll(buf, EncodeBlock(b));
    forall i | 0 <= i < |txs| ensures Normalised(txs[i]) == txs[i] && txs[i].nonce < U32 {
      assert WireForms(txs)[i] == txs[i];
      WireFormFixed(txs[i]);
    }
    assert NormalisedBlock(b).transactions == txs;
  }

  lemma HeaderRoom(buf: Bytes)
    ensures DecodeHeader(buf, 0).Some? ==> HEADER_LEN <= |buf|
  {
  }

  lemma WireFormFixed(tx: Tx)
    ensures WireForm(tx) == tx ==> Normalised(tx) == tx && tx.nonce < U32
  {
  }

  /** Decoding an encoded block gives it back with unused fields normalised and nonces cut to 32 bits. */
  lemma DecodeOfEncode(b: Block)
    requires HeaderFits(b.header) && AllEncodable(b.transactions) && |b.transactions| < U32
    ensures DecodeBlock(EncodeBlock(b)) == Some(b.(transactions := WireForms(b.transactions)))
  {
    hide BE, ReadU32be, Holds, DecodeTxs, DecodeHeader, EncodeHeader, EncodeTxs, WireForm, HeaderFits, Encodable;
    var buf := EncodeBlock(b);
    HoldsAll(buf, buf);
    BlockLayout(buf, b);
    DecodeHeaderExact(buf, 0, b.header);
    ReadU32Holds(buf, HEADER_LEN, |b.transactions|);
    DecodeTxsComplete(buf, HEADER_LEN + 4, b.transactions);
  }

  /** Only a redeem's nonce is off the wire. */
  predicate NonceOnWire(tx: Tx) { tx.kind != Redeem ==> tx.nonce < U32 }

  /**
   * The round trip the format promises, for every structurally valid block: it
   * holds if and only if every transfer's and lock's nonce fits 32 bits, which
   * structural validation does not check.
   */
  lemma BlockRoundTrip(c: Crypto, b: Block)
    requires HeaderFits(b.header) && |b.transactions| < U32
    requires forall i :: 0 <= i < |b.transactions| ==> ValidStructure(c, b.transactions[i])
    ensures DecodeBlock(EncodeBlock(b)) == Some(NormalisedBlock(b)) <==>
      forall i :: 0 <= i < |b.transactions| ==> NonceOnWire(b.transactions[i])
  {
    hide ValidStructure, Encodable, DecodeBlock, EncodeBlock;
    var txs := b.transactions;
    forall i | 0 <= i < |txs| ensures Encodable(txs[i]) {
      StructureIsEncodable(c, txs[i]);
    }
    DecodeOfEncode(b);
    var norm := NormalisedBlock(b).transactions;
    forall i | 0 <= i < |txs| ensures norm[i] == WireForms(txs)[i] <==> NonceOnWire(txs[i]) {
      assert norm[i] == Normalised(txs[i]);
      StructureHasNonce(c, txs[i]);
      WireFormKeeps(txs[i]);
    }
    assert norm == WireForms(txs) <==> forall i :: 0 <= i < |txs| ==> norm[i] == WireForms(txs)[i];
  }

  lemma StructureHasNonce(c: Crypto, tx: Tx)
    requires ValidStructure(c, tx)
    ensures tx.kind != Redeem ==> tx.nonce >= 0
  {
  }

  lemma WireFormKeeps(tx: Tx)
    requires tx.kind != Redeem ==> tx.nonce >= 0
    ensures Normalised(tx) == WireForm(tx) <==> NonceOnWire(tx)
  {
    if tx.kind != Redeem {
      assert tx.nonce % U32 == tx.nonce <==> tx.nonce < U32;
    }
  }

  /** The failing family is not empty: a transfer with nonce 2^32 encodes as if its nonce were 0. */
  lemma NonceWrapsOnWire(tx: Tx)
    requires tx.kind == Transfer && tx.nonce == 0
    ensures EncodeTx(tx.(nonce := U32)) == EncodeTx(tx)
  {
    U32beWraps(U32);
  }

  /** And such a transaction is structurally valid whenever the one with nonce 0 is: what is signed wraps as well. */
  lemma WrappedIsValid(c: Crypto, tx: Tx)
    requires tx.kind == Transfer && tx.nonce == 0 && ValidStructure(c, tx)
    ensures ValidStructure(c, tx.(nonce := U32))
  {
    hide U32be;
    U32beWraps(U32);
  }

  /** So a block of that one valid transaction does not survive its encoding: the nonce comes back as 0. */
  lemma WrappedBlockFails(c: Crypto, h: Header, tx: Tx)
    requires HeaderFits(h) && tx.kind == Transfer && tx.nonce == 0 && ValidStructure(c, tx)
    ensures var b := Block(h, [tx.(nonce := U32)]);
            && DecodeBlock(EncodeBlock(b)) == Some(Block(h, [Normalised(tx)]))
            && DecodeBlock(EncodeBlock(b)) != Some(NormalisedBlock(b))
  {
    hide ValidStructure, Encodable, DecodeBlock, EncodeBlock;
    var b := Block(h, [tx.(nonce := U32)]);
    WrappedIsValid(c, tx);
    assert !NonceOnWire(b.transactions[0]);
    BlockRoundTrip(c, b);
    StructureIsEncodable(c, b.transactions[0]);
    DecodeOfEncode(b);
    assert WireForms(b.transactions) == [Normalised(tx)];
  }

  // ------------------------------------------------------------------
  // Size
  // ------------------------------------------------------------------

  method BlockSize(b: Block) returns (size: nat)
    ensures size == |EncodeBlock(b)|
  {
    var bytes := 0;
    ghost var txs := b.transactions;
    for i := 0 to |b.transactions|
      invariant bytes + |EncodeTxs(txs[i..])| == |EncodeTxs(txs)|
    {
      assert txs[i..][1..] == txs[i + 1..];
      bytes := bytes + |EncodeTx(b.transactions[i])|;
    }
    size := HEADER_LEN + 4 + bytes;
  }

  // ------------------------------------------------------------------
  // What lies where
  // ------------------------------------------------------------------

  /** A block is its header, the number of transactions in four bytes, and the transactions one after the other. */
  lemma BlockGrows(h: Header, txs: seq<Tx>, tx: Tx)
    ensures EncodeBlock(Block(h, [])) == EncodeHeader(h) + [0, 0, 0, 0]
    ensures var tail := EncodeBlock(Block(h, txs))[HEADER_LEN + 4..];
            EncodeBlock(Block(h, txs + [tx])) == EncodeHeader(h) + BE(|txs| + 1, 4) + (tail + EncodeTx(tx))
  {
    hide EncodeHeader, EncodeTx, EncodeTxs, BE;
    EmptyBlock(h);
    EncodeTxsAppend(txs, tx);
    var head, rest := EncodeHeader(h) + U32be(|txs|), EncodeTxs(txs);
    assert EncodeBlock(Block(h, txs)) == head + rest;
    DropFront(head, rest);
  }

  lemma EmptyBlock(h: Header)
    ensures EncodeBlock(Block(h, [])) == EncodeHeader(h) + [0, 0, 0, 0]
  {
    hide EncodeHeader, EncodeTx, BE;
    FourBytes(0);
    assert EncodeTxs([]) == [];
  }

  lemma DropFront(a: Bytes, b: Bytes)
    ensures (a + b)[|a|..] == b
  {
  }

  lemma {:induction false} EncodeTxsAppend(txs: seq<Tx>, tx: Tx)
    ensures EncodeTxs(txs + [tx]) == EncodeTxs(txs) + EncodeTx(tx)
  {
    hide EncodeTx;
    if txs == [] {
      assert EncodeTxs([tx]) == EncodeTx(tx) + EncodeTxs([]);
    } else {
      assert (txs + [tx])[1..] == txs[1..] + [tx];
      EncodeTxsAppend(txs[1..], tx);
    }
  }

  /** The transaction root is the Merkle root over the transactions' encodings, signatures included. */
  lemma TxRootIs(c: Crypto, txs: seq<Tx>, leaves: seq<Bytes>)
    requires |leaves| == |txs| && forall i :: 0 <= i < |txs| ==> leaves[i] == EncodeTx(txs[i])
    ensures ComputeTxRoot(c, txs) == MerkleRoot(c, leaves)
  {
    hide EncodeTx, MerkleRoot;
    TxBytesAre(txs);
    assert TxBytes(txs) == leaves;
  }

  lemma {:induction false} TxBytesAre(txs: seq<Tx>)
    ensures |TxBytes(txs)| == |txs| && forall i :: 0 <= i < |txs| ==> TxBytes(txs)[i] == EncodeTx(txs[i])
  {
    hide EncodeTx;
    if txs != [] {
      TxBytesAre(txs[1..]);
    }
  }
}
