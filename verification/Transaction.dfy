/** Transactions: structure, wire encoding and decoding (src/chain/transaction.ts). */
module Transaction {
  import opened Binary
  import opened Crypto
  import opened Genesis
  import opened Script

  datatype TxKind = Transfer | Lock | Redeem

  /** One record for all kinds; the optional fields belong to Lock and Redeem only. */
  datatype Tx = Tx(
    kind: TxKind,
    from: Bytes,
    to: Bytes,
    amount: int,
    fee: int,
    nonce: int,
    signature: Bytes,
    scriptHash: Option<Bytes>,
    lockId: Option<Bytes>,
    redeemScript: Option<Bytes>,
    wit: Option<seq<Bytes>>)

  const LOCK_TAG: nat := 0x4c4f_434b
  const REDEEM_TAG: nat := 0x5244_4d31
  const TX_ENCODED_LEN: nat := 152
  const LOCK_ENCODED_LEN: nat := 156

  function OrElse<T>(x: Option<T>, default: T): T {
    if x.Some? then x.value else default
  }

  // ------------------------------------------------------------------
  // Encoding
  // ------------------------------------------------------------------

  /** The bytes a transfer's sender signs. */
  function TxPreimage(tx: Tx): Bytes {
    U32be(CHAIN_ID) + tx.from + tx.to + U64be(tx.amount) + U64be(tx.fee) + U32be(tx.nonce)
  }

  /** The bytes a lock's creator signs. */
  function LockPreimage(tx: Tx): Bytes {
    U32be(LOCK_TAG) + U32be(CHAIN_ID) + tx.from + U64be(tx.amount) + U64be(tx.fee) + U32be(tx.nonce)
    + OrElse(tx.scriptHash, ZERO32)
  }

  /** The message a redeem's witness signatures commit to: the lock, the destination, the values, the script. */
  function RedeemPreimage(tx: Tx): Bytes {
    U32be(REDEEM_TAG) + U32be(CHAIN_ID) + OrElse(tx.lockId, ZERO32) + tx.to
    + U64be(tx.amount) + U64be(tx.fee) + OrElse(tx.redeemScript, [])
  }

  function RedeemSighash(c: Crypto, tx: Tx): Hash32 {
    c.sha256(RedeemPreimage(tx))
  }

  function EncodeItems(items: seq<Bytes>): Bytes {
    if items == [] then [] else U16be(|items[0]|) + items[0] + EncodeItems(items[1..])
  }

  /** `new Uint8Array([n])` keeps the low byte. */
  function CountByte(n: nat): Bytes { [n % 256] }

  function RedeemHead(tx: Tx): Bytes {
    U32be(REDEEM_TAG) + OrElse(tx.lockId, ZERO32) + tx.to + U64be(tx.amount) + U64be(tx.fee)
  }

  function RedeemTail(tx: Tx): Bytes {
    var script, items := OrElse(tx.redeemScript, []), OrElse(tx.wit, []);
    U16be(|script|) + script + CountByte(|items|) + EncodeItems(items)
  }

  function EncodeTx(tx: Tx): Bytes {
    match tx.kind
    case Transfer => TxPreimage(tx) + tx.signature
    case Lock => LockPreimage(tx) + tx.signature
    case Redeem => RedeemHead(tx) + RedeemTail(tx)
  }

  function TxHash(c: Crypto, tx: Tx): Hash32 { c.sha256(EncodeTx(tx)) }

  // ------------------------------------------------------------------
  // Decoding with a cursor; None is a thrown error
  // ------------------------------------------------------------------

  function DecodeTransfer(buf: Bytes, off: nat): (r: Option<(Tx, nat)>)
    ensures r.Some? ==> r.value.0.kind == Transfer
  {
    if |buf| < off + TX_ENCODED_LEN || ReadU32be(buf, off) != CHAIN_ID then None
    else
      var amount, fee := ReadU64be(buf, off + 68).value, ReadU64be(buf, off + 76).value;
      Some((Tx(Transfer, Slice(buf, off + 4, off + 36), Slice(buf, off + 36, off + 68), amount, fee,
               ReadU32be(buf, off + 84), Slice(buf, off + 88, off + 152), None, None, None, None),
            off + TX_ENCODED_LEN))
  }

  /** Unlike transfers, no length check: slices clamp, and `next` can lie past the end. */
  function DecodeLock(buf: Bytes, off: nat): (r: Option<(Tx, nat)>)
    ensures r.Some? ==> r.value.0.kind == Lock
  {
    if ReadU32be(buf, off + 4) != CHAIN_ID then None
    else
      match (ReadU64be(buf, off + 40), ReadU64be(buf, off + 48))
      case (Some(amount), Some(fee)) =>
        Some((Tx(Lock, Slice(buf, off + 8, off + 40), ZERO32, amount, fee, ReadU32be(buf, off + 56),
                 Slice(buf, off + 92, off + 156), Some(Slice(buf, off + 60, off + 92)), None, None, None),
              off + LOCK_ENCODED_LEN))
      case _ => None
  }

  /** `count` length-prefixed witness items starting at `p`. */
  function DecodeItems(buf: Bytes, p: nat, count: nat): (r: Option<(seq<Bytes>, nat)>)
    ensures r.Some? ==> p <= r.value.1 && |r.value.0| == count
    decreases count
  {
    if count == 0 then Some(([], p)) else
      var len := ReadU16be(buf, p);
      if len > MAX_PUSH_BYTES then None else
        match DecodeItems(buf, p + 2 + len, count - 1)
        case None => None
        case Some((rest, next)) => Some(([Slice(buf, p + 2, p + 2 + len)] + rest, next))
  }

  function DecodeRedeem(buf: Bytes, off: nat): (r: Option<(Tx, nat)>)
    ensures r.Some? ==> r.value.0.kind == Redeem
  {
    var amount, fee := ReadU64be(buf, off + 68), ReadU64be(buf, off + 76);
    if amount.None? || fee.None? then None
    else DecodeRedeemScript(buf, off, amount.value, fee.value)
  }

  function DecodeRedeemScript(buf: Bytes, off: nat, amount: nat, fee: nat): Option<(Tx, nat)> {
    var scriptLen := ReadU16be(buf, off + 84);
    var p := off + 86 + scriptLen;
    if scriptLen > MAX_SCRIPT_BYTES || At(buf, p) > MAX_WITNESS_ITEMS then None
    else
      var items := DecodeItems(buf, p + 1, At(buf, p));
      if items.None? then None
      else
        Some((Tx(Redeem, ZERO32, Slice(buf, off + 36, off + 68), amount, fee, 0, [], None,
                 Some(Slice(buf, off + 4, off + 36)), Some(Slice(buf, off + 86, p)), Some(items.value.0)),
              items.value.1))
  }

  function DecodeTx(buf: Bytes, off: nat): Option<(Tx, nat)> {
    if |buf| < off + 4 then None else
      var tag := ReadU32be(buf, off);
      if tag == CHAIN_ID then DecodeTransfer(buf, off)
      else if tag == LOCK_TAG then DecodeLock(buf, off)
      else if tag == REDEEM_TAG then DecodeRedeem(buf, off)
      else None
  }

  method DecodeItemsLoop(buf: Bytes, start: nat, count: nat) returns (r: Option<(seq<Bytes>, nat)>)
    ensures r == DecodeItems(buf, start, count)
  {
    var p: nat := start;
    var items: seq<Bytes> := [];
    PrependNothing(DecodeItems(buf, start, count));
    for i := 0 to count
      invariant |items| == i
      invariant DecodeItems(buf, start, count) == Prepend(items, DecodeItems(buf, p, count - i))
    {
      var len: nat := ReadU16be(buf, p);
      if len > MAX_PUSH_BYTES {
        assert DecodeItems(buf, p, count - i) == None;
        return None;
      }
      p := p + 2;
      PrependStep(items, Slice(buf, p, p + len), DecodeItems(buf, p + len, count - i - 1));
      items := items + [Slice(buf, p, p + len)];
      p := p + len;
    }
    assert items + [] == items;
    r := Some((items, p));
  }

  ghost function Prepend(items: seq<Bytes>, r: Option<(seq<Bytes>, nat)>): Option<(seq<Bytes>, nat)> {
    match r
    case None => None
    case Some((rest, next)) => Some((items + rest, next))
  }

  lemma PrependNothing(r: Option<(seq<Bytes>, nat)>)
    ensures Prepend([], r) == r
  {
    if r.Some? {
      assert [] + r.value.0 == r.value.0;
    }
  }

  lemma PrependStep(items: seq<Bytes>, item: Bytes, r: Option<(seq<Bytes>, nat)>)
    ensures Prepend(items, Prepend([item], r)) == Prepend(items + [item], r)
  {
    if r.Some? {
      assert items + ([item] + r.value.0) == items + [item] + r.value.0;
    }
  }

  // ------------------------------------------------------------------
  // Structure
  // ------------------------------------------------------------------

  predicate VerifyTxSignature(c: Crypto, tx: Tx) {
    if tx.kind == Lock then
      |tx.from| == 32 && |tx.signature| == 64 && |OrElse(tx.scriptHash, [])| == 32
      && c.edVerify(tx.signature, LockPreimage(tx), tx.from)
    else
      |tx.from| == 32 && |tx.to| == 32 && |tx.signature| == 64
      && c.edVerify(tx.signature, TxPreimage(tx), tx.from)
  }

  /** `validateTxStructure` returns null exactly for these. */
  predicate ValidStructure(c: Crypto, tx: Tx) {
    match tx.kind
    case Transfer =>
      && tx.amount >= 0 && tx.fee >= 0 && tx.amount + tx.fee <= MAX_MONEY
      && !(tx.amount == 0 && tx.fee == 0)
      && tx.nonce >= 0 && tx.from != tx.to
      && VerifyTxSignature(c, tx)
    case Lock =>
      && |tx.from| == 32 && |OrElse(tx.scriptHash, [])| == 32
      && tx.amount > 0 && tx.fee >= 0 && tx.amount + tx.fee <= MAX_MONEY
      && tx.nonce >= 0
      && VerifyTxSignature(c, tx)
    case Redeem =>
      && |tx.to| == 32 && |OrElse(tx.lockId, [])| == 32
      && 0 <= tx.fee <= tx.amount <= MAX_MONEY
      && 0 < |OrElse(tx.redeemScript, [])| <= MAX_SCRIPT_BYTES
      && |OrElse(tx.wit, [])| <= MAX_WITNESS_ITEMS
      && forall i :: 0 <= i < |OrElse(tx.wit, [])| ==> |OrElse(tx.wit, [])[i]| <= MAX_PUSH_BYTES
  }

  // ------------------------------------------------------------------
  // What fits on the wire
  // ------------------------------------------------------------------

  /** The fields a kind uses have their wire widths (the nonce may still be too large). */
  predicate Encodable(tx: Tx) {
    && 0 <= tx.amount < U64 && 0 <= tx.fee < U64
    && (tx.kind == Transfer ==> tx.nonce >= 0 && |tx.from| == 32 && |tx.to| == 32 && |tx.signature| == 64)
    && (tx.kind == Lock ==> tx.nonce >= 0 && |tx.from| == 32 && |tx.signature| == 64
                            && tx.scriptHash.Some? && |tx.scriptHash.value| == 32)
    && (tx.kind == Redeem ==> |tx.to| == 32 && tx.lockId.Some? && |tx.lockId.value| == 32
                              && |OrElse(tx.redeemScript, [])| <= MAX_SCRIPT_BYTES
                              && |OrElse(tx.wit, [])| <= MAX_WITNESS_ITEMS
                              && ItemsEncodable(OrElse(tx.wit, [])))
  }

  predicate ItemsEncodable(items: seq<Bytes>) {
    forall i :: 0 <= i < |items| ==> |items[i]| <= MAX_PUSH_BYTES
  }

  /** The wire drops unused fields and keeps 32 bits of nonce. */
  function WireForm(tx: Tx): Tx {
    WithNonce(tx, tx.nonce % U32)
  }

  /** The same transaction with the fields its kind does not use put in their decoded form. */
  function Normalised(tx: Tx): Tx {
    WithNonce(tx, tx.nonce)
  }

  function WithNonce(tx: Tx, nonce: int): Tx {
    match tx.kind
    case Transfer => Tx(Transfer, tx.from, tx.to, tx.amount, tx.fee, nonce, tx.signature, None, None, None, None)
    case Lock => Tx(Lock, tx.from, ZERO32, tx.amount, tx.fee, nonce, tx.signature, tx.scriptHash, None, None, None)
    case Redeem => Tx(Redeem, ZERO32, tx.to, tx.amount, tx.fee, 0, [], None, tx.lockId,
                      Some(OrElse(tx.redeemScript, [])), Some(OrElse(tx.wit, [])))
  }

  lemma StructureIsEncodable(c: Crypto, tx: Tx)
    requires ValidStructure(c, tx)
    ensures Encodable(tx)
  {
    assert MAX_MONEY < U64;
  }

  // ------------------------------------------------------------------
  // Field layout
  // ------------------------------------------------------------------

  /** `buf` carries `bytes` at `p`. */
  predicate Holds(buf: Bytes, p: nat, bytes: Bytes) {
    p + |bytes| <= |buf| && buf[p..p + |bytes|] == bytes
  }

  lemma HoldsSplit(buf: Bytes, p: nat, a: Bytes, b: Bytes)
    ensures Holds(buf, p, a + b) <==> Holds(buf, p, a) && Holds(buf, p + |a|, b)
  {
    if p + |a| + |b| <= |buf| {
      var whole := buf[p..p + |a + b|];
      assert whole[..|a|] == buf[p..p + |a|] && whole[|a|..] == buf[p + |a|..p + |a| + |b|];
      assert whole == whole[..|a|] + whole[|a|..];
      assert whole == a + b ==> whole[..|a|] == a && whole[|a|..] == b;
    }
  }

  lemma HoldsIsSlice(buf: Bytes, p: nat, bytes: Bytes)
    ensures Holds(buf, p, bytes) <==> p + |bytes| <= |buf| && Slice(buf, p, p + |bytes|) == bytes
    ensures |bytes| == 1 && p < |buf| ==> (Holds(buf, p, bytes) <==> At(buf, p) == bytes[0])
  {
    if |bytes| == 1 && p < |buf| {
      assert buf[p..p + 1] == [buf[p]] && bytes == [bytes[0]];
    }
  }

  lemma HoldsNothing(buf: Bytes, p: nat)
    requires p <= |buf|
    ensures Holds(buf, p, [])
  {
    assert buf[p..p] == [];
  }

  lemma SliceLength(buf: Bytes, lo: nat, hi: nat)
    requires lo <= hi <= |buf|
    ensures |Slice(buf, lo, hi)| == hi - lo
  {
  }

  lemma ReadU16Holds(buf: Bytes, p: nat, n: nat)
    requires n < U16
    ensures Holds(buf, p, U16be(n)) <==> p + 2 <= |buf| && ReadU16be(buf, p) == n
  {
    PowWidths();
    ReadersAgree(buf, p);
    ReadOfBE(n, 2);
    if p + 2 <= |buf| {
      BEOfRead(buf[p..p + 2]);
    }
  }

  lemma ReadU32Holds(buf: Bytes, p: nat, n: nat)
    requires n < U32
    ensures Holds(buf, p, U32be(n)) <==> p + 4 <= |buf| && ReadU32be(buf, p) == n
  {
    PowWidths();
    ReadersAgree(buf, p);
    ReadOfBE(n, 4);
    if p + 4 <= |buf| {
      BEOfRead(buf[p..p + 4]);
    }
  }

  lemma ReadU64Holds(buf: Bytes, p: nat, n: nat)
    requires n < U64
    ensures Holds(buf, p, U64be(n)) <==> ReadU64be(buf, p) == Some(n)
  {
    PowWidths();
    ReadOfBE(n, 8);
    if p + 8 <= |buf| {
      BEOfRead(buf[p..p + 8]);
    }
  }

  lemma U32beWraps(n: nat)
    ensures U32be(n) == U32be(n % U32)
  {
    var q, m := n / U32, n % U32;
    assert n == 0x1_0000_0000 * q + m;
    assert n / 256 == 0x100_0000 * q + m / 256;
    assert n / 256 / 256 == 0x1_0000 * q + m / 256 / 256;
    assert n / 256 / 256 / 256 == 0x100 * q + m / 256 / 256 / 256;
    FourBytes(n);
    FourBytes(m);
  }

  lemma FourBytes(n: nat)
    ensures U32be(n) == [n / 256 / 256 / 256 % 256, n / 256 / 256 % 256, n / 256 % 256, n % 256]
  {
    assert BE(n / 256 / 256, 2) == [n / 256 / 256 / 256 % 256, n / 256 / 256 % 256];
  }

  // ------------------------------------------------------------------
  // The codec on whole transactions
  // ------------------------------------------------------------------

  /** Where a transfer's fields lie. */
  lemma TransferLayout(buf: Bytes, p: nat, tx: Tx)
    requires tx.kind == Transfer && |tx.from| == 32 && |tx.to| == 32
    ensures Holds(buf, p, EncodeTx(tx)) <==>
      && Holds(buf, p, U32be(CHAIN_ID)) && Holds(buf, p + 4, tx.from) && Holds(buf, p + 36, tx.to)
      && Holds(buf, p + 68, U64be(tx.amount)) && Holds(buf, p + 76, U64be(tx.fee))
      && Holds(buf, p + 84, U32be(tx.nonce)) && Holds(buf, p + 88, tx.signature)
  {
    var a := U32be(CHAIN_ID);
    var b := a + tx.from;
    var c := b + tx.to;
    var d := c + U64be(tx.amount);
    var e := d + U64be(tx.fee);
    HoldsSplit(buf, p, a, tx.from);
    HoldsSplit(buf, p, b, tx.to);
    HoldsSplit(buf, p, c, U64be(tx.amount));
    HoldsSplit(buf, p, d, U64be(tx.fee));
    HoldsSplit(buf, p, e, U32be(tx.nonce));
    HoldsSplit(buf, p, e + U32be(tx.nonce), tx.signature);
  }

  lemma LockLayout(buf: Bytes, p: nat, tx: Tx)
    requires tx.kind == Lock && |tx.from| == 32 && tx.scriptHash.Some? && |tx.scriptHash.value| == 32
    ensures Holds(buf, p, EncodeTx(tx)) <==>
      && Holds(buf, p, U32be(LOCK_TAG)) && Holds(buf, p + 4, U32be(CHAIN_ID)) && Holds(buf, p + 8, tx.from)
      && Holds(buf, p + 40, U64be(tx.amount)) && Holds(buf, p + 48, U64be(tx.fee))
      && Holds(buf, p + 56, U32be(tx.nonce)) && Holds(buf, p + 60, tx.scriptHash.value)
      && Holds(buf, p + 92, tx.signature)
  {
    var a := U32be(LOCK_TAG);
    var b := a + U32be(CHAIN_ID);
    var c := b + tx.from;
    var d := c + U64be(tx.amount);
    var e := d + U64be(tx.fee);
    var f := e + U32be(tx.nonce);
    HoldsSplit(buf, p, a, U32be(CHAIN_ID));
    HoldsSplit(buf, p, b, tx.from);
    HoldsSplit(buf, p, c, U64be(tx.amount));
    HoldsSplit(buf, p, d, U64be(tx.fee));
    HoldsSplit(buf, p, e, U32be(tx.nonce));
    HoldsSplit(buf, p, f, tx.scriptHash.value);
    HoldsSplit(buf, p, f + tx.scriptHash.value, tx.signature);
  }

  lemma RedeemLayout(buf: Bytes, p: nat, tx: Tx)
    requires tx.kind == Redeem && |tx.to| == 32 && tx.lockId.Some? && |tx.lockId.value| == 32
    ensures Holds(buf, p, EncodeTx(tx)) <==>
      && Holds(buf, p, U32be(REDEEM_TAG)) && Holds(buf, p + 4, tx.lockId.value) && Holds(buf, p + 36, tx.to)
      && Holds(buf, p + 68, U64be(tx.amount)) && Holds(buf, p + 76, U64be(tx.fee))
      && Holds(buf, p + 84, RedeemTail(tx))
  {
    var a := U32be(REDEEM_TAG);
    var b := a + tx.lockId.value;
    var c := b + tx.to;
    HoldsSplit(buf, p, a, tx.lockId.value);
    HoldsSplit(buf, p, b, tx.to);
    HoldsSplit(buf, p, c, U64be(tx.amount));
    HoldsSplit(buf, p, c + U64be(tx.amount), U64be(tx.fee));
    HoldsSplit(buf, p, RedeemHead(tx), RedeemTail(tx));
  }

  lemma RedeemTailLayout(buf: Bytes, p: nat, tx: Tx)
    ensures
      var script, items := OrElse(tx.redeemScript, []), OrElse(tx.wit, []);
      Holds(buf, p, RedeemTail(tx)) <==>
      && Holds(buf, p, U16be(|script|)) && Holds(buf, p + 2, script)
      && Holds(buf, p + 2 + |script|, CountByte(|items|)) && Holds(buf, p + 3 + |script|, EncodeItems(items))
  {
    var script, items := OrElse(tx.redeemScript, []), OrElse(tx.wit, []);
    HoldsSplit(buf, p, U16be(|script|), script);
    HoldsSplit(buf, p, U16be(|script|) + script, CountByte(|items|));
    HoldsSplit(buf, p, U16be(|script|) + script + CountByte(|items|), EncodeItems(items));
  }

  lemma DecodeItemsStep(buf: Bytes, p: nat, items: seq<Bytes>, next: nat)
    requires items != []
    ensures var len := ReadU16be(buf, p);
            DecodeItems(buf, p, |items|) == Some((items, next)) <==>
      len <= MAX_PUSH_BYTES && items[0] == Slice(buf, p + 2, p + 2 + len)
      && DecodeItems(buf, p + 2 + len, |items| - 1) == Some((items[1..], next))
  {
    var len := ReadU16be(buf, p);
    assert items == [items[0]] + items[1..];
    if len <= MAX_PUSH_BYTES {
      var item, r := Slice(buf, p + 2, p + 2 + len), DecodeItems(buf, p + 2 + len, |items| - 1);
      if r.Some? {
        assert ([item] + r.value.0)[1..] == r.value.0;
      }
    }
  }

  lemma ItemLayout(buf: Bytes, p: nat, items: seq<Bytes>)
    requires items != []
    ensures Holds(buf, p, EncodeItems(items)) <==>
      && Holds(buf, p, U16be(|items[0]|)) && Holds(buf, p + 2, items[0])
      && Holds(buf, p + 2 + |items[0]|, EncodeItems(items[1..]))
    ensures |EncodeItems(items)| == 2 + |items[0]| + |EncodeItems(items[1..])|
  {
    hide BE, Holds;
    HoldsSplit(buf, p, U16be(|items[0]|), items[0]);
    HoldsSplit(buf, p, U16be(|items[0]|) + items[0], EncodeItems(items[1..]));
  }

  /** Items read without running past the end re-encode to the bytes read. */
  lemma {:induction false} DecodeItemsSound(buf: Bytes, p: nat, items: seq<Bytes>, next: nat)
    requires DecodeItems(buf, p, |items|) == Some((items, next)) && next <= |buf|
    ensures ItemsEncodable(items) && Holds(buf, p, EncodeItems(items)) && next == p + |EncodeItems(items)|
    decreases |items|
  {
    hide BE, ReadU16be, ItemsEncodable, Holds, Slice, EncodeItems, DecodeItems;
    if items == [] {
      NoItems(buf, p);
      HoldsNothing(buf, p);
      NoItemsEncodable();
    } else {
      var len := ReadU16be(buf, p);
      DecodeItemsStep(buf, p, items, next);
      HoldsIsSlice(buf, p + 2, items[0]);
      DecodeItemsSound(buf, p + 2 + len, items[1..], next);
      SliceLength(buf, p + 2, p + 2 + len);
      ItemLayout(buf, p, items);
      ItemsEncodableSplit(items);
      ReadU16Holds(buf, p, len);
    }
  }

  lemma NoItemsEncodable()
    ensures ItemsEncodable([])
  {
  }

  lemma {:induction false} DecodeItemsComplete(buf: Bytes, p: nat, items: seq<Bytes>)
    requires ItemsEncodable(items) && Holds(buf, p, EncodeItems(items))
    ensures DecodeItems(buf, p, |items|) == Some((items, p + |EncodeItems(items)|))
    decreases |items|
  {
    hide BE, ReadU16be, ItemsEncodable, Holds, Slice, EncodeItems, DecodeItems;
    if items == [] {
      NoItems(buf, p);
    } else {
      ItemLayout(buf, p, items);
      ItemsEncodableSplit(items);
      HoldsIsSlice(buf, p + 2, items[0]);
      ReadU16Holds(buf, p, |items[0]|);
      DecodeItemsComplete(buf, p + 2 + |items[0]|, items[1..]);
      DecodeItemsStep(buf, p, items, p + |EncodeItems(items)|);
    }
  }

  lemma NoItems(buf: Bytes, p: nat)
    ensures EncodeItems([]) == [] && DecodeItems(buf, p, 0) == Some(([], p))
  {
  }

  lemma ItemsEncodableSplit(items: seq<Bytes>)
    requires items != []
    ensures ItemsEncodable(items) <==> |items[0]| <= MAX_PUSH_BYTES && ItemsEncodable(items[1..])
  {
    if |items[0]| <= MAX_PUSH_BYTES && ItemsEncodable(items[1..]) {
      forall i | 0 <= i < |items| ensures |items[i]| <= MAX_PUSH_BYTES {
        assert i > 0 ==> items[i] == items[1..][i - 1];
      }
    }
  }

  predicate RedeemFits(tx: Tx) {
    && |OrElse(tx.redeemScript, [])| <= MAX_SCRIPT_BYTES
    && |OrElse(tx.wit, [])| <= MAX_WITNESS_ITEMS
    && ItemsEncodable(OrElse(tx.wit, []))
  }

  lemma RedeemTailSound(buf: Bytes, p: nat, amount: nat, fee: nat, tx: Tx, next: nat)
    requires DecodeRedeemScript(buf, p, amount, fee) == Some((tx, next)) && next <= |buf|
    ensures tx.kind == Redeem && tx.redeemScript.Some? && tx.wit.Some?
    ensures RedeemFits(tx) && Holds(buf, p + 84, RedeemTail(tx)) && next == p + 84 + |RedeemTail(tx)|
  {
    hide BE, ReadU16be, ItemsEncodable, Holds, Slice, EncodeItems, DecodeItems;
    var scriptLen := ReadU16be(buf, p + 84);
    var q := p + 86 + scriptLen;
    DecodeItemsSound(buf, q + 1, tx.wit.value, next);
    SliceLength(buf, p + 86, q);
    HoldsIsSlice(buf, p + 86, tx.redeemScript.value);
    HoldsIsSlice(buf, q, CountByte(|tx.wit.value|));
    ReadU16Holds(buf, p + 84, scriptLen);
    RedeemTailLayout(buf, p + 84, tx);
  }

  lemma RedeemTailComplete(buf: Bytes, p: nat, amount: nat, fee: nat, tx: Tx)
    requires tx.kind == Redeem && RedeemFits(tx) && Holds(buf, p + 84, RedeemTail(tx))
    ensures DecodeRedeemScript(buf, p, amount, fee) ==
      Some((Tx(Redeem, ZERO32, Slice(buf, p + 36, p + 68), amount, fee, 0, [], None, Some(Slice(buf, p + 4, p + 36)),
               Some(OrElse(tx.redeemScript, [])), Some(OrElse(tx.wit, []))),
            p + 84 + |RedeemTail(tx)|))
  {
    hide BE, ReadU16be, ItemsEncodable, Holds, Slice, EncodeItems, DecodeItems;
    var script, items := OrElse(tx.redeemScript, []), OrElse(tx.wit, []);
    var q := p + 86 + |script|;
    RedeemTailLayout(buf, p + 84, tx);
    ReadU16Holds(buf, p + 84, |script|);
    HoldsIsSlice(buf, p + 86, script);
    HoldsIsSlice(buf, q, CountByte(|items|));
    DecodeItemsComplete(buf, q + 1, items);
  }

  // ------------------------------------------------------------------
  // Whole transactions
  // ------------------------------------------------------------------

  /** A transaction decoded without running past the end re-encodes to exactly the bytes read. */
  lemma DecodeTxSound(buf: Bytes, p: nat, tx: Tx, next: nat)
    requires DecodeTx(buf, p) == Some((tx, next)) && next <= |buf|
    ensures Encodable(tx) && WireForm(tx) == tx
    ensures Holds(buf, p, EncodeTx(tx)) && next == p + |EncodeTx(tx)|
  {
    PowWidths();
    ReadersAgree(buf, p);
    if tx.kind == Transfer {
      TransferSound(buf, p, tx, next);
    } else if tx.kind == Lock {
      LockSound(buf, p, tx, next);
    } else {
      RedeemSound(buf, p, tx, next);
    }
  }

  lemma ReadU64Bound(buf: Bytes, p: nat)
    ensures ReadU64be(buf, p).Some? <==> p + 8 <= |buf|
    ensures ReadU64be(buf, p).Some? ==> ReadU64be(buf, p).value < U64
  {
    PowWidths();
    if p + 8 <= |buf| {
      ReadBEBound(buf[p..p + 8]);
    }
  }

  lemma TransferSound(buf: Bytes, p: nat, tx: Tx, next: nat)
    requires DecodeTx(buf, p) == Some((tx, next)) && next <= |buf| && tx.kind == Transfer
    ensures Encodable(tx) && WireForm(tx) == tx
    ensures Holds(buf, p, EncodeTx(tx)) && next == p + |EncodeTx(tx)|
  {
    hide BE, ReadU32be, ReadU64be, Holds, Slice, DecodeRedeem, DecodeLock;
    SliceLength(buf, p + 4, p + 36);
    SliceLength(buf, p + 36, p + 68);
    SliceLength(buf, p + 88, p + 152);
    HoldsIsSlice(buf, p + 4, tx.from);
    HoldsIsSlice(buf, p + 36, tx.to);
    HoldsIsSlice(buf, p + 88, tx.signature);
    ReadU64Bound(buf, p + 68);
    ReadU64Bound(buf, p + 76);
    ReadU32Bound(buf, p + 84);
    ReadU32Holds(buf, p, CHAIN_ID);
    ReadU64Holds(buf, p + 68, tx.amount);
    ReadU64Holds(buf, p + 76, tx.fee);
    ReadU32Holds(buf, p + 84, tx.nonce);
    TransferLayout(buf, p, tx);
  }

  lemma ReadU32Bound(buf: Bytes, p: nat)
    ensures ReadU32be(buf, p) < U32
  {
  }

  lemma LockSound(buf: Bytes, p: nat, tx: Tx, next: nat)
    requires DecodeTx(buf, p) == Some((tx, next)) && next <= |buf| && tx.kind == Lock
    ensures Encodable(tx) && WireForm(tx) == tx
    ensures Holds(buf, p, EncodeTx(tx)) && next == p + |EncodeTx(tx)|
  {
    hide BE, ReadU32be, ReadU64be, Holds, Slice, DecodeRedeem, DecodeTransfer;
    SliceLength(buf, p + 8, p + 40);
    SliceLength(buf, p + 60, p + 92);
    SliceLength(buf, p + 92, p + 156);
    HoldsIsSlice(buf, p + 8, tx.from);
    HoldsIsSlice(buf, p + 60, tx.scriptHash.value);
    HoldsIsSlice(buf, p + 92, tx.signature);
    ReadU64Bound(buf, p + 40);
    ReadU64Bound(buf, p + 48);
    ReadU32Bound(buf, p + 56);
    ReadU32Holds(buf, p, LOCK_TAG);
    ReadU32Holds(buf, p + 4, CHAIN_ID);
    ReadU64Holds(buf, p + 40, tx.amount);
    ReadU64Holds(buf, p + 48, tx.fee);
    ReadU32Holds(buf, p + 56, tx.nonce);
    LockLayout(buf, p, tx);
  }

  lemma RedeemSound(buf: Bytes, p: nat, tx: Tx, next: nat)
    requires DecodeTx(buf, p) == Some((tx, next)) && next <= |buf| && tx.kind == Redeem
    ensures Encodable(tx) && WireForm(tx) == tx
    ensures Holds(buf, p, EncodeTx(tx)) && next == p + |EncodeTx(tx)|
  {
    hide BE, ReadU16be, ReadU32be, ReadU64be, Holds, Slice, DecodeLock, DecodeTransfer, DecodeItems, RedeemTail;
    RedeemTailSound(buf, p, tx.amount, tx.fee, tx, next);
    SliceLength(buf, p + 4, p + 36);
    SliceLength(buf, p + 36, p + 68);
    HoldsIsSlice(buf, p + 4, tx.lockId.value);
    HoldsIsSlice(buf, p + 36, tx.to);
    ReadU64Bound(buf, p + 68);
    ReadU64Bound(buf, p + 76);
    ReadU32Holds(buf, p, REDEEM_TAG);
    ReadU64Holds(buf, p + 68, tx.amount);
    ReadU64Holds(buf, p + 76, tx.fee);
    RedeemLayout(buf, p, tx);
  }

  /** Decoding an encodable transaction's bytes yields it as the wire keeps it, and stops right behind it. */
  lemma DecodeTxComplete(buf: Bytes, p: nat, tx: Tx)
    requires Encodable(tx) && Holds(buf, p, EncodeTx(tx))
    ensures DecodeTx(buf, p) == Some((WireForm(tx), p + |EncodeTx(tx)|))
  {
    match tx.kind
    case Transfer => TransferComplete(buf, p, tx);
    case Lock => LockComplete(buf, p, tx);
    case Redeem => RedeemComplete(buf, p, tx);
  }

  lemma TransferComplete(buf: Bytes, p: nat, tx: Tx)
    requires Encodable(tx) && tx.kind == Transfer && Holds(buf, p, EncodeTx(tx))
    ensures DecodeTx(buf, p) == Some((WireForm(tx), p + |EncodeTx(tx)|))
  {
    hide BE, ReadU32be, ReadU64be, Holds, Slice, DecodeRedeem, DecodeLock;
    TransferLayout(buf, p, tx);
    HoldsIsSlice(buf, p + 4, tx.from);
    HoldsIsSlice(buf, p + 36, tx.to);
    HoldsIsSlice(buf, p + 88, tx.signature);
    ReadU32Holds(buf, p, CHAIN_ID);
    ReadU64Holds(buf, p + 68, tx.amount);
    ReadU64Holds(buf, p + 76, tx.fee);
    U32beWraps(tx.nonce);
    ReadU32Holds(buf, p + 84, tx.nonce % U32);
  }

  lemma LockComplete(buf: Bytes, p: nat, tx: Tx)
    requires Encodable(tx) && tx.kind == Lock && Holds(buf, p, EncodeTx(tx))
    ensures DecodeTx(buf, p) == Some((WireForm(tx), p + |EncodeTx(tx)|))
  {
    hide BE, ReadU32be, ReadU64be, Holds, Slice, DecodeRedeem, DecodeTransfer;
    LockLayout(buf, p, tx);
    HoldsIsSlice(buf, p + 8, tx.from);
    HoldsIsSlice(buf, p + 60, tx.scriptHash.value);
    HoldsIsSlice(buf, p + 92, tx.signature);
    ReadU32Holds(buf, p, LOCK_TAG);
    ReadU32Holds(buf, p + 4, CHAIN_ID);
    ReadU64Holds(buf, p + 40, tx.amount);
    ReadU64Holds(buf, p + 48, tx.fee);
    U32beWraps(tx.nonce);
    ReadU32Holds(buf, p + 56, tx.nonce % U32);
  }

  lemma RedeemComplete(buf: Bytes, p: nat, tx: Tx)
    requires Encodable(tx) && tx.kind == Redeem && Holds(buf, p, EncodeTx(tx))
    ensures DecodeTx(buf, p) == Some((WireForm(tx), p + |EncodeTx(tx)|))
  {
    hide BE, ReadU16be, ReadU32be, ReadU64be, Holds, Slice, DecodeLock, DecodeTransfer, DecodeItems, RedeemTail,
      DecodeRedeemScript, ItemsEncodable;
    RedeemLayout(buf, p, tx);
    HoldsIsSlice(buf, p + 4, tx.lockId.value);
    HoldsIsSlice(buf, p + 36, tx.to);
    ReadU32Holds(buf, p, REDEEM_TAG);
    ReadU64Holds(buf, p + 68, tx.amount);
    ReadU64Holds(buf, p + 76, tx.fee);
    RedeemTailComplete(buf, p, tx.amount, tx.fee, tx);
  }

  /** Two encodable transactions with the same bytes are the same as far as the wire goes. */
  lemma EncodeTxInjective(a: Tx, b: Tx)
    requires Encodable(a) && Encodable(b) && EncodeTx(a) == EncodeTx(b)
    ensures WireForm(a) == WireForm(b)
  {
    hide Encodable, EncodeTx, WireForm, DecodeTx;
    var buf := EncodeTx(a);
    assert Holds(buf, 0, buf) by { assert buf[0..|buf|] == buf; }
    DecodeTxComplete(buf, 0, a);
    DecodeTxComplete(buf, 0, b);
  }
}
