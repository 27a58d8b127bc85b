# A verified model of the miner's consensus client and its protocol machines

The miner keeps a complete account-model blockchain in memory, builds blocks on
it and talks to helpers and pools. This project models the parts whose
correctness is hard to see by reading one function:

- **Chain semantics.** The stack machine that authorises spends, the account and
  lock ledger, the byte formats of transactions, headers and blocks, the compact
  difficulty form, ASERT with its three anchoring regimes, median-time-past.
- **The block tree.** The `Blockchain` class with its tip, inherited fork
  anchors, kept and dropped states, pruning, snapshot seeding and reorg deltas;
  the synchroniser, snapshot files, and the two block builders.
- **Protocol machines.** The negotiated-pool session, the solo coordinator, the
  share dispatcher, the reporter's earnings.

Code that changes state in place is modelled as classes with fields and methods
(`State`, `Blockchain`, `ChainSync`, `ConsoleReporter`, `MinerCoordinator`,
`ShareDispatcher`, `Client`), and loops as loops; each is proved equal to a
specification on values (`Ledger`, `Tree`, and so on), and the theorems are about
the specification and about whole runs of it. Awaits are the points where other
events may happen: a machine's run is any sequence of its events.

The specifications are held to laws stated without them, in modules of their own:
`OpcodeLaws`, `NumberLaws` and `FlowLaws` for scripts, `Balances` and `Authority`
for the ledger, `Retarget` for the difficulty, `Admission` for accepted and built
blocks, `SyncLaws`, `SessionLaws` and `DispatcherLaws` for the protocol machines.

SHA-256, RIPEMD-160, Ed25519 and the proof-of-work hash are parameters (a
`Crypto` value of functions with fixed output lengths). Collision-freedom is
assumed only where a theorem says so, and only over the finite set of messages
it names. The clock, the network, timers, disk contents and what listeners do
are inputs. JavaScript numbers and bigints are unbounded integers; truncation to
8, 32 and 64 bits, reads past the end of a buffer, and division toward zero are
written out.

Each module is one file of the same name; `dafny verify dfyconfig.toml` checks
them all together.

## Main results

- The interpreter accepts exactly the spends of a separate instruction-by-instruction
  semantics (`EvalScript`), and that semantics is held to laws that name none of its
  tables: for all operands what each arithmetic, comparison, hashing, signature and
  locktime opcode leaves (`NumberLaws`), how the rearrangements relate to each other
  (`OpcodeLaws`), that nested branches mean what their structure says
  (`StructureMeans`), and the exact budgets (`StructuredAccepts`, `OperationBudget`).
  The greedy multisig scan is complete (`MatchSignatures`), and the HTLC admits
  exactly its two kinds of spend (`HtlcExact`). A spend once possible stays possible
  (`AcceptsLater`, `RedeemStaysAcceptable`).
- Decoding a block accepts exactly the encodings (`DecodeBlockExact`). The round
  trip holds for a structurally valid block if and only if its nonces fit 32 bits
  (`BlockRoundTrip`): structural validation does not bound the nonce, the wire does.
- No account pays without its signature: wherever one holds less than at an
  ancestor, a block in between carries its valid signature over every field of the
  payment (`LossIsSigned`, `SignedBytesDetermine`).
- Every balance on every branch is the sum of what was mined, received and redeemed
  less what was sent and locked, every nonce the number sent (`BalanceIsHistory`);
  every kept ledger holds exactly the money of the reward schedule, none of it
  negative (`SupplyInEveryState`, `RewardExact`); lock ids are single-use
  (`BranchLocksSingleUse`).
- What full validation accepts, as one equivalence (`AcceptedExactly`); how Merkle
  roots compose (`RootsCompose`) and what a state root is made of (`RootLayout`).
- The retarget rule on stored branches: on schedule the anchor's own difficulty at
  every height, k half-lives off it 2^k times its target for every whole k, within
  the clamps, and monotone in between (`AboveAnchor`, `AboveReset`, `FromGenesis`,
  `LaterIsNoHarder`); two late blocks in a row double the target (`TwoLateDoubles`).
- In every state reachable by adding, pruning, resetting and restoring any file,
  the tip is heaviest and has its state, and missing states are closed under
  ancestors (`RunReady`); with full validation and files saved from validated
  chains, each kept state is also the replay of its branch (`RunInv`,
  `NextProcess`).
- In every such state, and whatever the pool announces, a block built on the tip
  passes full validation and becomes a strictly heavier tip (`BuiltBlockAccepted`,
  `NegotiatedBlockAccepted`, `EveryRunAccepts`), and pays the address it was built
  for (`BuiltBlockPays`). Valid announced transactions that fit and apply are all
  carried (`AnnouncedCarried`).
- A restore is all or nothing, by counting (`RestoreAllOrGenesis`), and restoring
  what was saved reproduces the branch and its invariants (`SaveThenRestore`,
  `RestoredInv`).
- Over every run of the chain, the reporter's solo earnings are the rewards of
  exactly the adopted blocks that are canonical (`EarningsFollowChain`).
- The negotiated session never stalls for good (`NeverStalls`), grinds only headers
  it built, sent on this socket, on the announced tip (`GrindsOnlyOwnWork`), sends
  exactly when it should (`RegisterFiresSends`, `SendingIs`), and drops a running
  grind exactly when its work is void (`GrindStopsExactly`).
- The solo coordinator always has something under way unless a catch-up failed
  (`AlwaysWorking`); no slot of the share dispatcher leaks and only final verdicts
  are remembered (`AlwaysHonest`).
- ASERT is monotone (`AsertMonotone`). A half-life of delay adds exactly 65536 to
  the fixed-point exponent if and only if the deviation is not within one half-life
  before the schedule, or is a multiple of 75 seconds, because division truncates
  toward zero (`HalfLifeExact`). The target then doubles up to rounding, except
  where the floor or the least target 1 clamps it (`HalfLifeTarget`, `FloorStays`).

## Where the code and its comments differ

- The comment on `restoreSnapshot` (src/minerd/persistence.ts:152-160) says that a
  missing file also resets the chain; the code leaves it alone, and so does the
  model. Every other anomaly resets.
- The comment on the cubic factor (src/chain/consensus.ts:85-87) gives its precision
  as about 0.3 parts in a million; halfway between two half-lives the code's factor
  is more than 80 parts in a million below the power of two (`FactorQuarters`).
- `catchUp` reports a change after a forced resynchronisation even when the tip
  ends up where it was. The model follows the code (`CatchUp`'s `startedOver`).

## Model

| member | source | states |
|---|---|---|
| Binary.ReadOfBE | src/util/binary.ts:39-77 | reading a big-endian field back gives the number that was written, whenever it fits the width |
| Binary.BEOfRead | src/util/binary.ts:39-77 | writing back what was read gives the same bytes, so fixed-width integers and byte strings correspond one to one |
| Binary.BEDigits | src/util/binary.ts:39-70 | the bytes written are the number's base-256 digits, most significant first |
| Binary.U64beLoop | src/util/binary.ts:63-70 | filling eight bytes from the right yields the big-endian form, negative values wrapping modulo 2^64 |
| Binary.ReadU64beLoop | src/util/binary.ts:72-77 | the accumulating loop reads the big-endian value and fails exactly when fewer than eight bytes remain |
| Binary.ReadersAgree | src/util/binary.ts:46-61 | inside the buffer the unrolled 16- and 32-bit readers equal the positional value |
| Binary.HexMatchDecodes | src/util/binary.ts:5-25 | a string equal to a byte string's hex up to letter case decodes to exactly those bytes |
| Binary.HexInjective | src/util/binary.ts:5-12 | different bytes have different hex, so maps keyed by hex are maps keyed by bytes |
| Binary.HexSpells | src/util/binary.ts:5-12 | each byte is spelled by two lower-case digits, the high one first |
| Compact.TargetToCompactLoop | src/util/binary.ts:86-103 | the shifting loop and the sign-bit adjustment compute the mantissa and exponent of the specification |
| Compact.CompactDenotes | src/util/binary.ts:79-84 | the decoder reads mantissa times 256^(exponent - 3) from any 32-bit word, rounded down below exponent 3 |
| Compact.CompactRoundTrip | src/util/binary.ts:79-103 | decoding an encoded target gives the target with its low bytes zeroed |
| Compact.RoundDownClose | src/util/binary.ts:86-103 | the rounding never goes up, loses less than one part in 2^15 and keeps at least 2^15 of a larger target |
| Compact.CompactIsRoundDown | src/util/binary.ts:79-103 | encode-then-decode is a monotone, idempotent round-down that keeps positive targets positive |
| Compact.CanonicalCompact | src/util/binary.ts:79-103 | what the encoder produces re-encodes to itself |
| Compact.HashMeetsTarget | src/util/binary.ts:114-118 | true exactly when the hash, read big-endian, is below the target |
| Compact.WorkPositive | src/chain/consensus.ts:300-304 | a difficulty with a positive target below 2^256 is worth at least one unit of work |
| Compact.WorkBracket | src/chain/consensus.ts:300-304 | a block is worth w where w times the target plus one is at most 2^256 and one more would exceed it; no target, no work |
| ScriptNum.EncodeNumLoop | src/chain/script.ts:221-233 | the byte loop produces the sign-magnitude little-endian specification for every integer |
| ScriptNum.EncodeScriptNumLoop | src/chain/scriptBuild.ts:47-56 | the builder's loop produces the very encoding the interpreter's encoder produces |
| ScriptNum.DecodeNumLoop | src/chain/script.ts:204-218 | decoding gives the denoted number, and fails exactly on over-long or non-minimal items |
| ScriptNum.IsTruthyLoop | src/chain/script.ts:187-196 | the scan computes truth: some non-zero byte other than a lone sign bit on top |
| ScriptNum.DecodeOfEncode | src/chain/script.ts:204-233 | every integer decodes back from its encoding whenever the encoding fits the operand limit |
| ScriptNum.EncodeOfDecode | src/chain/script.ts:204-233 | anything the decoder accepts is the one encoding of the number it denotes |
| ScriptNum.EncodedLength | src/chain/script.ts:221-233 | an encoding fits k bytes exactly when the magnitude is below half of 256^k |
| ScriptNum.TruthyNumber | src/chain/script.ts:187-233 | on encoded numbers truthiness is being non-zero |
| ScriptNum.EncodedValue | src/chain/script.ts:221-233 | read little-endian, an encoding is the number itself, or its magnitude plus half the top byte's range when negative |
| ScriptNum.ReadLEDigits | src/chain/script.ts:212-213 | byte i of an item counts multiples of 256^i |
| Interpreter.ShuffleOpcode | src/chain/script.ts:341-448 | every stack-rearranging opcode on the top-at-end array does what the specification does on the head-first stack, and fails exactly when it does |
| Interpreter.PickOrRoll | src/chain/script.ts:408-422 | PICK copies and ROLL moves the item the popped number selects; any bad index fails |
| Interpreter.StackOpcode | src/chain/script.ts:341-448 | the stack opcodes, including those that use the alternate stack, match the specification on both stacks |
| Interpreter.NumberOpcode | src/chain/script.ts:465-522 | the arithmetic and comparison opcodes match the specification over decoded operands |
| Interpreter.CryptoOpcode | src/chain/script.ts:450-579 | comparison, hashing, signature and locktime opcodes match the specification |
| Interpreter.MatchSignatures | src/chain/script.ts:615-633 | the pointer-advancing scan succeeds exactly when a strictly increasing assignment of all signatures to verifying keys exists |
| Interpreter.OpCheckMultisig | src/chain/script.ts:599-634 | pops n, keys, m and signatures with the source's bounds and pushes whether such an assignment exists |
| Interpreter.ExecuteOpcode | src/chain/script.ts:329-584 | one executed opcode changes both stacks as the specification says or fails with it |
| Interpreter.FlowOpcode | src/chain/script.ts:305-324 | IF, ELSE and ENDIF keep the nesting in taken and skipped branches alike |
| Interpreter.ReadPush | src/chain/script.ts:280-303 | the three push forms read the data of the next instruction and move past it, or fail exactly when it is truncated or too large |
| Interpreter.StepAt | src/chain/script.ts:275-584 | one turn of the loop is one instruction of the reference semantics, the program counter strictly grows, and the limits hold again |
| Interpreter.EvalScript | src/chain/script.ts:245-590 | accepts exactly the spends the reference semantics accepts |
| Interpreter.StepKeepsLimits | src/chain/script.ts:268-303 | every instruction keeps at most 1000 items on both stacks together, items of at most 520 bytes and the operation count in bounds |
| Interpreter.RunKeepsLimits | src/chain/script.ts:275-584 | no run of any length leaves those limits |
| OpcodeLaws.Undoing | src/chain/script.ts:357-436 | three ROTs, two SWAPs, a trip to the alternate stack, and DUP then DROP change nothing, or fail on a stack too short |
| OpcodeLaws.AsPickAndRoll | src/chain/script.ts:378-436 | DUP, OVER are 0 and 1 PICK; SWAP, ROT are 1 and 2 ROLL, failures included |
| OpcodeLaws.Composites | src/chain/script.ts:372-442 | TUCK is SWAP OVER, NIP is SWAP DROP, 2DUP is OVER OVER |
| OpcodeLaws.Constants | src/chain/script.ts:342-371 | the opcodes 0x51 to 0x60 push 1 to 16, and DROP takes back a push |
| OpcodeLaws.Consumers | src/chain/script.ts:350-361 | VERIFY goes on exactly with a truthy item, which it consumes; TOALTSTACK moves the top item over |
| OpcodeLaws.IfDup | src/chain/script.ts:384-391 | IFDUP is DUP IF DUP ENDIF |
| OpcodeLaws.PickAndRoll | src/chain/script.ts:408-422 | after pushing any items, k PICK is pushing again the one k below the top, and k ROLL is pushing that one last |
| OpcodeLaws.BadIndex | src/chain/script.ts:408-412 | PICK and ROLL fail on every item that is not the encoding of a depth of the stack |
| OpcodeLaws.Measures | src/chain/script.ts:392-448 | DEPTH pushes how many items there are, SIZE how many bytes the top one has |
| NumberLaws.SumsAndDifferences | src/chain/script.ts:466-512 | for all operands, what ADD leaves less y is x, what SUB leaves plus y is x; 1ADD and 1SUB are 1 ADD and 1 SUB |
| NumberLaws.SignLaws | src/chain/script.ts:466-481 | what NEGATE leaves and x add up to 0; ABS leaves the non-negative one of x and -x; NOT and 0NOTEQUAL tell zero |
| NumberLaws.NegatedTwice | src/chain/script.ts:466-481 | NEGATE twice gives the pushed number back |
| NumberLaws.Bounds | src/chain/script.ts:484-512 | MIN and MAX leave the lower and the upper bound that is one of the operands |
| NumberLaws.Comparisons | src/chain/script.ts:484-512 | every comparison and boolean opcode leaves 1 exactly when its relation holds of the operands in the order pushed |
| NumberLaws.NumEqualVerify | src/chain/script.ts:484-512 | NUMEQUALVERIFY goes on exactly with equal numbers and leaves nothing |
| NumberLaws.Within | src/chain/script.ts:514-522 | WITHIN includes the lower bound, pushed second, and excludes the upper one, pushed last |
| NumberLaws.BadOperandFails | src/chain/script.ts:335-339 | arithmetic fails on a missing operand and on anything but a minimal number of at most four bytes, at each operand position |
| NumberLaws.Equality | src/chain/script.ts:451-463 | EQUAL leaves 1 or the empty item by comparing bytes; its verifying form leaves nothing |
| NumberLaws.Hashes | src/chain/script.ts:525-544 | the four hashing opcodes leave the digest of the item, or of its SHA-256 digest |
| NumberLaws.Signature | src/chain/script.ts:547-559 | CHECKSIG accepts exactly a 64-byte signature under a 32-byte key, pushed in that order, over the message of the spend |
| NumberLaws.Locktime | src/chain/script.ts:567-579 | the locktime check passes exactly for non-negative numbers of five bytes that the height, below 500,000,000, or the median time has reached, and leaves the number |
| NumberLaws.Multisig | src/chain/script.ts:592-634 | for all pushed signatures and keys: 1 exactly when each signature has a key of its own, in order; bad counts fail; nothing below is consumed |
| FlowLaws.StructureMeans | src/chain/script.ts:305-324 | a script of nested branches does what its structure says: IF consumes its selector and runs one side, skipping the other at any depth |
| FlowLaws.StructuredAccepts | src/chain/script.ts:245-590 | such a script is accepted exactly within 10,000 bytes, 100 witness items of 520 bytes each, and with a truthy item on top in the end |
| FlowLaws.Unbalanced | src/chain/script.ts:311-324 | a script with unequally many IFs and ENDIFs authorises nothing |
| FlowLaws.OperationBudget | src/chain/script.ts:329 | exactly up to 201 operations may be executed |
| FlowLaws.Nops | src/chain/script.ts:331-332 | the ten reserved opcodes only count |
| FlowLaws.UnknownFails | src/chain/script.ts:581-583 | executing any opcode the switch does not list fails on every stack |
| FlowLaws.PushForms | src/chain/script.ts:280-303 | all three ways to announce a push read exactly the announced bytes, up to 520; too few bytes fail |
| FlowLaws.SubtractionScript | src/chain/script.ts:245-590 | from bytes to verdict: the script `a b SUB d NUMEQUAL` is accepted exactly when a - b = d |
| ScriptBuild.RunLater | src/chain/script.ts:567-579 | a run that succeeds gives the same result at any later height and median time with the same message |
| ScriptBuild.AcceptsLater | src/chain/script.ts:245-590 | a script that authorises a spend authorises it at every later height and time |
| ScriptBuild.PushDataReads | src/chain/scriptBuild.ts:10-15 | the interpreter reads back exactly the pushed data, unless it is over the element limit |
| ScriptBuild.RunAssembled | src/chain/scriptBuild.ts:36-90 | running assembled bytes is running the instructions they were assembled from |
| ScriptBuild.HashlockSigExact | src/chain/scriptBuild.ts:36-44 | spendable exactly by a preimage on top of a valid signature, within the witness limits |
| ScriptBuild.HtlcAssembles | src/chain/scriptBuild.ts:75-90 | the concatenated bytes are the assembly of the two-branch program and fit the script limit |
| ScriptBuild.HtlcExact | src/chain/scriptBuild.ts:58-90 | accepted exactly when a truthy selector comes with the preimage and the recipient's signature, or a falsy one with the sender's signature once the locktime's clock has been reached |
| Genesis.SupplyBound | src/chain/genesis.ts:125-129 | what has been paid plus a full further interval at the current reward never exceeds the initial allowance |
| Genesis.SupplyCapped | src/chain/genesis.ts:10-19 | the schedule pays out strictly less than MAX_MONEY at every height |
| Genesis.RewardExact | src/chain/genesis.ts:125-129 | the reward is 50 coins over 2 to the number of elapsed 210,000-block intervals, rounded down, and 0 from the 64th on |
| Transaction.DecodeItemsLoop | src/chain/transaction.ts:188-193 | the witness loop reads what the recursive specification reads |
| Transaction.StructureIsEncodable | src/chain/transaction.ts:255-315 | structural validity implies that every field a kind uses fits its wire width, the nonce aside |
| Transaction.DecodeTxSound | src/chain/transaction.ts:80-219 | a transaction decoded without running past the end re-encodes to exactly the bytes read |
| Transaction.DecodeTxComplete | src/chain/transaction.ts:80-219 | decoding an encodable transaction's bytes, wherever they lie, yields it in wire form and stops right behind it |
| Transaction.EncodeTxInjective | src/chain/transaction.ts:204-223 | transactions of any two kinds with the same bytes are the same on the wire |
| Transaction.TransferLayout | src/chain/transaction.ts:69-82 | the byte offset of every field of a transfer |
| Transaction.LockLayout | src/chain/transaction.ts:105-119 | the byte offset of every field of a lock |
| Transaction.RedeemLayout | src/chain/transaction.ts:158-169 | the byte offset of every fixed field of a redeem |
| Transaction.RedeemTailLayout | src/chain/transaction.ts:161-174 | script length, script, item count and items follow in that order |
| Authority.StructureIsAuthority | src/chain/transaction.ts:255-315 | structural validation accepts exactly: transfers and locks signed by their sender over the listed bytes, parties distinct, values in range; redeems within the size limits |
| Authority.SignedBytesDetermine | src/chain/transaction.ts:69-115 | the signed bytes name the kind, parties, values, script hash, and the nonce up to 32 bits |
| Authority.RedeemMessageDetermines | src/chain/transaction.ts:141-156 | the message a redeem commits to names the lock, destination, amount, fee and script |
| Merkle.MerkleRootLoop | src/util/merkle.ts:18-33 | the layer-replacing loop computes the root of the level-by-level definition |
| Merkle.SmallRoots | src/util/merkle.ts:19-20 | no leaves give 32 zero bytes, one leaf its hash |
| Merkle.RootsCompose | src/util/merkle.ts:22-32 | 2^k leaves followed by up to 2^k more have the hash of both roots, left one first, the right one paired with itself up to the same height |
| Merkle.MerkleInjective | src/util/merkle.ts:18-33 | without collisions a root determines the leaves among lists of the same length |
| Merkle.RepeatedTail | src/util/merkle.ts:4-17 | repeating the last leaf of an odd list of at least three leaves the root unchanged, so equal lengths are needed |
| BlockCodec.DecodeHeaderExact | src/chain/block.ts:24-51 | a header decodes from a place exactly when its fields fit and its encoding lies there |
| BlockCodec.HeaderLayout | src/chain/block.ts:24-35 | the byte offset of every header field |
| BlockCodec.BlockGrows | src/chain/block.ts:69-74 | header, four-byte count, then the transactions, each new one at the end |
| BlockCodec.TxRootIs | src/chain/block.ts:64-67 | the transaction root is the Merkle root over the full encodings, signatures included |
| BlockCodec.DecodeBlockLoop | src/chain/block.ts:76-88 | the cursor loop decodes what the recursive specification decodes, including the final length check |
| BlockCodec.DecodeBlockExact | src/chain/block.ts:76-88 | a buffer that decodes is the encoding of the result, so no byte is ignored and no two buffers share a block |
| BlockCodec.DecodeOfEncode | src/chain/block.ts:69-88 | decoding an encoded block gives it back with unused fields normalised and nonces cut to 32 bits |
| BlockCodec.BlockRoundTrip | src/chain/block.ts:69-88 | for every block of structurally valid transactions (fewer than 2^32) whose header fields fit their widths, the round trip holds if and only if each transfer's and lock's nonce is below 2^32 |
| BlockCodec.NonceWrapsOnWire | src/chain/transaction.ts:69-82 | a transfer with nonce 2^32 encodes as if its nonce were 0 |
| BlockCodec.WrappedIsValid | src/chain/transaction.ts:255-288 | that transfer is structurally valid whenever the one with nonce 0 is, because what is signed wraps as well |
| BlockCodec.WrappedBlockFails | src/chain/block.ts:69-88 | so a block of that one valid transfer decodes from its own encoding to a different block |
| BlockCodec.BlockSize | src/chain/block.ts:90-95 | the summed size equals the encoded length |
| Ledger.AppliedConserves | src/chain/state.ts:144-239 | each transaction kind moves money without making or destroying it: only its fee leaves, and nothing becomes negative |
| Ledger.BlockConserves | src/chain/state.ts:253-277 | a block adds exactly its reward to all money in accounts and locks |
| Ledger.SupplyExact | src/chain/state.ts:253-277 | along every branch the money in existence is the schedule's sum, below MAX_MONEY |
| Ledger.AmountsBounded | src/chain/state.ts:109-129 | no balance or lock exceeds the total, so the 64-bit leaf fields never wrap |
| Balances.TransferEffect | src/chain/state.ts:157-179 | applied exactly when the sender can pay amount and fee with the next nonce; then every balance and nonce change is the listed one and no lock changes |
| Balances.LockEffect | src/chain/state.ts:182-207 | applied exactly with active scripts, a solvent sender, the next nonce and a fresh id; the sender pays both, the lock holds the amount, nothing else changes |
| Balances.RedeemEffect | src/chain/state.ts:210-239 | applied exactly for a live lock of an earlier block whose script accepts this message; the lock goes, the destination gets amount less fee, nothing else changes |
| Balances.AppliedInOrder | src/chain/state.ts:266-271 | transactions are applied from the first to the last, each on what those before it left, all or none |
| Balances.BlockMoves | src/chain/state.ts:253-277 | a block's change of any one account: what transactions bring it less what it sends, and reward and fees for the miner |
| Balances.BalanceIsHistory | src/chain/state.ts:144-277 | along every branch each balance is the sum of all that was mined, received and redeemed by the account less all it sent and locked, and its nonce the number it sent |
| LockLife.NoncesGrow | src/chain/state.ts:157-207 | no transaction lowers a nonce or deletes an account, and transfers and locks use one up |
| LockLife.LocksSingleUse | src/chain/state.ts:182-239 | along a branch of at most 2^32 transactions, without encoding collisions, each lock id is created once, spent at most once, and the live locks are the created and unspent ones |
| LockLife.NoncesOnBranch | src/chain/state.ts:157-207 | no account's nonce exceeds the number of transactions of the branch, so none of them wraps on the wire |
| LockLife.RedeemsSpendEarlierBlocks | src/chain/state.ts:210-215 | a redeem spends a lock that an earlier block of the branch created |
| LockLife.SpendStaysValid | src/chain/state.ts:210-239 | a redeem accepted after some blocks is accepted after more while its lock lives, at any later height and time |
| StateRoot.Sorted | src/chain/state.ts:109-122 | the keys come out in lexicographic order, each exactly once, none missing and none added |
| StateRoot.LexOrder | src/chain/state.ts:110 | the order decides at the first differing byte, a prefix first |
| StateRoot.AccountLeavesAre | src/chain/state.ts:109-119 | the leaves are exactly those of the accounts with a balance or a used nonce |
| StateRoot.LockLeavesAre | src/chain/state.ts:121-129 | the leaves are exactly those of the live locks |
| StateRoot.RootCommits | src/chain/state.ts:97-137 | two ledgers with equal leaf counts and fitting fields have the same root only if they hold the same accounts and locks, collisions aside |
| StateRoot.RootLayout | src/chain/state.ts:97-137 | from the bytes up: one leaf per touched account in key order, key, balance, nonce; one per lock, key, amount, script hash, height; both roots hashed in that order once there are locks |
| State.State.GetAccount | src/chain/state.ts:54-56 | gives the stored account object, or a fresh empty one not yet stored |
| State.State.Store | src/chain/state.ts:165-176 | updates one account object in place and stores it, changing no other account |
| State.State.ApplyTransfer | src/chain/state.ts:157-179 | succeeds exactly when balance and nonce allow it, with the specified new ledger, and otherwise changes nothing |
| State.State.ApplyLock | src/chain/state.ts:182-207 | debits the sender, creates the lock under the transaction's hash and records it as created in this block, or changes nothing |
| State.State.ApplyRedeem | src/chain/state.ts:210-239 | deletes an older lock whose script the witness satisfies and pays out its amount less the fee, or changes nothing |
| State.State.ApplyTx | src/chain/state.ts:144-155 | dispatches by kind, locks and redeems only once scripts are active; a failure leaves the state as it was |
| State.State.ApplyBlockTxs | src/chain/state.ts:253-277 | succeeds exactly when every transaction applies in order, then credits reward and fees |
| State.State.Clone | src/chain/state.ts:62-68 | an equal state that shares no account object with the original |
| State.State.ComputeRoot | src/chain/state.ts:103-107 | the accounts' root alone without locks, and both roots hashed together with them |
| Asert.AsertTargetSteps | src/chain/consensus.ts:55-104 | the reassigning body computes the specified fixed-point target, shifts in both directions and both clamps included |
| Asert.FactorMonotone | src/chain/consensus.ts:85-94 | the cubic factor never decreases in the fraction |
| Asert.FactorRange | src/chain/consensus.ts:85-94 | the factor starts at exactly 1 and stays below 2, so crossing into the next shift never steps down |
| Asert.ScaledMonotone | src/chain/consensus.ts:75-99 | a larger exponent never gives a smaller target, inside a shift and across its boundary |
| Asert.AsertMonotone | src/chain/consensus.ts:55-104 | the target never falls with a later parent nor rises with a higher one, and lies between 1 and the floor |
| Asert.OnSchedule | src/chain/consensus.ts:62-69 | exactly on schedule the anchor's target comes back |
| Asert.HalfLifeExact | src/chain/consensus.ts:71-73 | a half-life of delay adds exactly one to the exponent if and only if the deviation is non-negative, or at most -600, or a multiple of 75; otherwise it falls one step short |
| Asert.HalfLifeTarget | src/chain/consensus.ts:71-104 | where the exponent grows by exactly one, the target a half-life later, if below the floor, halves (rounded down, at least 1) to the target now; at the floor the target now is at least half of it |
| Asert.FloorStays | src/chain/consensus.ts:101-103 | a chain on schedule at the floor stays at the floor a half-life later: the clamp, not the exponent, keeps the target from doubling |
| Asert.HalfLifeHalves | src/chain/consensus.ts:96-99 | one less on the exponent is one halving of the scaled target |
| Asert.AfterHalfLives | src/chain/consensus.ts:55-104 | for every whole number of half-lives behind or ahead of schedule the anchor's target is doubled or halved as often, between 1 and the floor |
| Asert.FactorQuarters | src/chain/consensus.ts:85-94 | at the quarters of a half-life the cubic is within one part in 10,000 of its power of two, and halfway it is off by more than 80 parts in a million |
| MedianTime.SortSorts | src/chain/consensus.ts:316 | sorting orders the times and keeps every one of them |
| MedianTime.MedianTimePastLoop | src/chain/consensus.ts:312-324 | filling, sorting and indexing the window gives the specified median, 0 without headers |
| MedianTime.MedianRank | src/chain/consensus.ts:312-318 | the result is one of the times, with at most half of them below it and more than half not above it |
| MedianTime.MedianTimePastNeverFalls | src/chain/consensus.ts:306-324 | a header later than the median-time-past before it never lowers the median-time-past |
| MedianTime.ActivationNeverReverts | src/chain/fork.ts:37-39 | once scripts are active along a branch they stay active |
| Consensus.RequiredDifficultyGood | src/chain/consensus.ts:166-294 | whatever rule applies, a required difficulty has its target between 1 and the floor, in canonical form |
| Consensus.GoodDifficultyHasWork | src/chain/consensus.ts:300-304 | such a difficulty is worth at least one unit of work |
| Consensus.AnchorCarriesOver | src/chain/consensus.ts:228-259 | the first block above the third fork's anchor carries its difficulty on, unless the emergency drop fires |
| Consensus.RequiredDifficultyFits | src/chain/consensus.ts:166-294 | whatever the headers before it, a required difficulty is a non-negative 32-bit number |
| Consensus.PoWHasWork | src/chain/consensus.ts:106-117 | a header that meets its proof of work is worth at least one unit of work, whatever set its difficulty |
| Retarget.ResetAtFork | src/chain/consensus.ts:174-179 | height 33,550 must carry the target of five million attempts, whatever came before |
| Retarget.TwoLateDoubles | src/chain/consensus.ts:181-226 | elsewhere two blocks in a row more than 900 s late ask for twice the parent's target, up to the floor |
| Retarget.AboveAnchor | src/chain/consensus.ts:228-259 | above height 35,550, k half-lives behind the branch's own block 35,550 ask for its target times 2^k, k of either sign, between 1 and the floor |
| Retarget.OnAnchorSchedule | src/chain/consensus.ts:228-259 | a parent exactly on that schedule is followed by the anchor's own difficulty, at every height |
| Retarget.OneHalfLife | src/chain/consensus.ts:228-259 | 600 s behind ask for twice the anchor's target up to the floor, 600 s ahead for half of it, at least 1 |
| Retarget.AboveReset | src/chain/consensus.ts:261-292 | the 2,000 blocks above the reset follow its fixed schedule, at most a factor 4 from its target either way |
| Retarget.FromGenesis | src/chain/consensus.ts:293 | below the reset, k half-lives on genesis's schedule, with genesis's difficulty as the easiest |
| Retarget.LaterIsNoHarder | src/chain/consensus.ts:166-294 | of two parents on the same schedule, the one no higher and no earlier never asks for a harder child, on any branches |
| Tree.RecentIsTail | src/chain/blockchain.ts:176-187 | the window walked back from a block is the tail of its branch |
| Tree.BranchFrame | src/chain/blockchain.ts:265-273 | adding blocks or dropping states changes no stored branch |
| TreeRuns.AddedInv | src/chain/blockchain.ts:297-381 | adding a block keeps: all blocks validated, kept states are replays, tip heaviest and with its state, missing states closed under ancestors |
| TreeRuns.PrunedInv | src/chain/blockchain.ts:209-225 | pruning keeps all of that |
| TreeRuns.AddedReady | src/chain/blockchain.ts:297-381 | adding keeps, with no validation assumed: tip heaviest and with its state, missing states closed under ancestors |
| TreeRuns.PrunedReady | src/chain/blockchain.ts:209-225 | and so does pruning |
| ChainRuns.DoReady | src/chain/blockchain.ts:115-122 | so does every operation, the reset and the restore of any file into a new chain included |
| ChainRuns.RunReady | src/chain/blockchain.ts:209-225 | from any such tree, in every state reachable by adding, pruning, resetting and restoring: the tip is heaviest and has its state, and missing states are closed under ancestors |
| ChainRuns.DoInv | src/chain/blockchain.ts:297-381 | with full validation, and files saved from validated chains, every operation also keeps each kept state the replay of its branch |
| ChainRuns.RunInv | src/chain/blockchain.ts:297-381 | so that holds in every state reachable from any tree where it holds |
| ChainRuns.RunSavable | src/minerd/persistence.ts:99-113 | if the blocks added come off the wire, every branch of every reachable tree survives encoding, those restored included |
| ChainRuns.SavedIsTrusted | src/minerd/persistence.ts:89-137 | a file saved from a validated chain is one a restore may trust, and its anchor's hash is shared by no other header in it |
| ChainRuns.NextProcess | src/minerd/persistence.ts:89-261 | what one process validated and saved, the next restores and builds on with every invariant from its first block on |
| TreeFacts.WorkIsSum | src/chain/blockchain.ts:353-354 | a block's cumulative work is the sum over its branch |
| TreeFacts.ChildOutweighs | src/chain/blockchain.ts:353-354 | a validated block strictly outweighs its parent |
| TreeFacts.AddOnlyImproves | src/chain/blockchain.ts:353-367 | adding changes no stored block and moves the tip only to strictly more work, unless the listeners reset the chain |
| TreeFacts.AnchorIsAncestor | src/chain/blockchain.ts:238-241 | every block carries its own ancestor at height 35,550, and nothing below that height |
| TreeFacts.DifficultyNeverFails | src/chain/blockchain.ts:254-263 | the missing-anchor error is unreachable on every parent in every tree |
| TreeFacts.FirstAboveAnchor | src/chain/consensus.ts:228-259 | on every branch the block after height 35,550 must carry that block's difficulty, unless the emergency drop fires |
| TreeFacts.SupplyInEveryState | src/chain/blockchain.ts:334-351 | every kept ledger of a validated tree holds exactly the money of the schedule up to its height, each field below 2^64 |
| TreeFacts.MtpRisesAlongBranch | src/chain/blockchain.ts:328-332 | median-time-past never falls from an ancestor to a descendant |
| TreeFacts.BranchLocksSingleUse | src/chain/state.ts:182-239 | on every stored branch lock ids are created and spent at most once |
| TreeFacts.RedeemStaysAcceptable | src/chain/state.ts:210-239 | a redeem a child of a block may carry may be carried by a child of any descendant while the lock is live there |
| Authority.AcceptedAreAuthorised | src/chain/blockchain.ts:351-356 | a block is accepted with signatures checked only if every transaction in it is authorised |
| Authority.StoredAreAuthorised | src/chain/blockchain.ts:351-356 | and so is every transaction of a validated tree |
| Authority.HoldingStep | src/chain/blockchain.ts:350-366 | on every stored branch a block changes each account by what its transactions and its header's miner field say |
| Authority.LossIsSigned | src/chain/blockchain.ts:297-381 | wherever an account holds less, or has used a nonce, since an ancestor, a block in between carries a transfer or lock with its valid signature over that transaction |
| Authority.UnsignedNeverSpends | src/chain/blockchain.ts:297-381 | an account under whose key no signature verifies never loses balance and never uses a nonce |
| Reorg.DeltaExact | src/chain/blockchain.ts:394-433 | folding a delta into the old canonical chain gives the new one; what leaves is not on the new chain and what joins was not on the old |
| Reorg.AboveForkDisjoint | src/chain/blockchain.ts:394-433 | branches never meet again above their fork |
| ChainRuns.RunNullsBuried | src/chain/blockchain.ts:209-225 | under the synchroniser's pruning every missing state is at least 300 below the greatest height so far, or below a restored anchor |
| ChainRuns.SnapshotAvailable | src/minerd/sync.ts:25-48 | while the tip is at most 200 below its greatest height, the state 100 below the tip is kept; on a restored chain once the tip is 100 above the restored one |
| Blockchain.Blockchain.constructor | src/chain/blockchain.ts:98-113 | a new chain is genesis alone |
| Blockchain.Blockchain.Reset | src/chain/blockchain.ts:119-122 | a reset chain is genesis alone, sharing nothing with the old states |
| Blockchain.Blockchain.GetRecentHeaders | src/chain/blockchain.ts:176-187 | the walk returns the specified window, oldest first |
| Blockchain.Blockchain.ExpectedNextDifficulty | src/chain/blockchain.ts:254-263 | the difficulty the rules require of a child of the given parent |
| Blockchain.Blockchain.NextBlockContext | src/chain/blockchain.ts:228-231 | the script context a child of the given parent is validated under |
| Blockchain.Blockchain.CheckHeader | src/chain/blockchain.ts:305-337 | the header checks, in order, hold exactly when the specification says |
| Blockchain.Blockchain.ApplyToCopy | src/chain/blockchain.ts:334-351 | runs the block on a fresh copy, so the parent's state is untouched whatever happens |
| Blockchain.Blockchain.Store | src/chain/blockchain.ts:353-367 | stores the entry below its parent and moves the tip only to strictly more work |
| Blockchain.Blockchain.AddBlock | src/chain/blockchain.ts:297-381 | the whole attempt has the specified verdict and effect; only this object changes, even when listeners reset it; and exactly when the tip moves, the tip listeners receive the exact delta between the two tips |
| Admission.AcceptedExactly | src/chain/blockchain.ts:297-381 | a block passes full validation exactly when it is new on a stored parent with its state, and every listed check holds of its header, transactions and resulting ledger |
| Admission.OtherVerdicts | src/chain/blockchain.ts:305-351 | a stored block is known; a good header below a block without its state asks for a reset; everything else is refused and changes nothing |
| Admission.MedianOfBranch | src/chain/blockchain.ts:328-332 | the time a child must exceed is the median of the last eleven headers of its own branch |
| Blockchain.Blockchain.SeedHistoricalBlock | src/chain/blockchain.ts:458-491 | links the block unvalidated and makes it the tip when it comes with a state |
| Blockchain.Blockchain.PruneStateBelow | src/chain/blockchain.ts:209-225 | on any tree the walk drops exactly the buried states of the tip's branch down to the first missing one |
| Blockchain.PruneComplete | src/chain/blockchain.ts:209-225 | when missing states are closed under ancestors, stopping there misses nothing: every buried state is gone |
| Blockchain.Blockchain.SnapshotAt | src/chain/blockchain.ts:499-514 | finds the canonical block of a height exactly when it exists with its state |
| Blockchain.Blockchain.DeltaBetween | src/chain/blockchain.ts:399-433 | the two cursors collect exactly the two paths down to the lowest common ancestor, with their transactions |
| Template.DecodeMempool | src/minerd/negotiatedClient.ts:137-166 | the bounded scan takes what the specification takes, in order |
| Template.TakenFits | src/minerd/negotiatedClient.ts:153-163 | whatever was announced, what is taken is structurally valid and fits the byte budget |
| Template.OnlyBoundedInput | src/minerd/negotiatedClient.ts:123-155 | entries beyond the entry cap are never looked at |
| Template.TakesUsables | src/minerd/negotiatedClient.ts:123-166 | within the caps exactly the entries that hold a valid transaction are taken, in order, whatever lies between them |
| Template.AnnouncedTaken | src/minerd/negotiatedClient.ts:123-166 | any valid transactions that fit are taken whole and in order when announced by their hex |
| Template.TimeAboveMedian | src/minerd/template.ts:21-23 | a built block carries the builder's clock, or the first second above the median-time-past when that is later |
| Template.BuildNegotiatedTemplate | src/minerd/negotiatedClient.ts:174-209 | builds on the tip with the whole announced set or none of it, and throws exactly when the pool address is not 32 bytes |
| Template.BuildTemplate | src/minerd/template.ts:18-51 | builds an empty block on the tip, with the state after it on a copy |
| Template.ChildOfTipIsNew | src/chain/blockchain.ts:305 | a block on the tip that meets its proof of work cannot be stored already, because it would outweigh the tip |
| Template.BuiltBlockAccepted | src/chain/blockchain.ts:297-381 | on any tree a run can reach, restored or not, a built block with any nonce that meets the proof of work passes full validation on the unchanged tip and becomes a strictly heavier tip |
| Template.EveryRunAccepts | src/minerd/template.ts:18-51 | so for every run of adds, prunes, resets and restores the mined empty block becomes the tip |
| Template.NegotiatedBlockAccepted | src/minerd/negotiatedClient.ts:168-209 | in particular for the negotiated builder, whatever the pool announces |
| Admission.BuiltBlockPays | src/minerd/template.ts:18-51 | once accepted, a built block carries the transactions and pays reward and fees to the address it was built for, every account changing by the listed amount |
| Admission.AnnouncedCarried | src/minerd/negotiatedClient.ts:174-209 | announced transactions that are valid, fit and apply on the tip are all in the negotiated block |
| Persistence.SerializeState | src/chain/state.ts:76-80 | the rows denote the accounts whatever order the map yields them in |
| Persistence.SerializeLocks | src/chain/state.ts:82-86 | the rows denote the live locks |
| Persistence.DeserializeState | src/chain/state.ts:89-95 | fresh account objects that hold what the rows denote, later rows overriding earlier ones |
| Persistence.DecodeBlocks | src/minerd/persistence.ts:215 | decodes every entry or fails |
| Persistence.ReadFile | src/minerd/persistence.ts:171-242 | a file is readable exactly when every check passes, the committed root included |
| SnapshotFacts.SeedTight | src/minerd/persistence.ts:194-207 | counting: seeding n blocks reaches height n only by adding every one of them in height order, each on the one before |
| Persistence.RestoreSnapshot | src/minerd/persistence.ts:161-272 | seeds the chain or resets it as specified, and deletes the file exactly when it was there and was not restored |
| SnapshotFacts.RestoreAllOrGenesis | src/minerd/persistence.ts:161-261 | a restore on a new chain leaves genesis alone, or exactly heights 1 to the anchor with the anchor as tip and a state matching its root |
| SnapshotFacts.OnlyCheckedFiles | src/minerd/persistence.ts:172-241 | only a file of schema 2 and this network is restored, with the right count, every block decoding, and the anchor matching height, hash and state root |
| SnapshotFacts.RestoredIsClosed | src/minerd/persistence.ts:209-254 | a restored chain has its tip's state and its missing states closed under ancestors |
| SnapshotFacts.RestoredReady | src/minerd/persistence.ts:152-272 | whatever the disk holds, a new chain after a restore has its heaviest tip, that tip's state, and missing states closed under ancestors |
| Persistence.CollectPrefix | src/minerd/persistence.ts:99-113 | walking the parent links from the anchor and reversing gives heights 1 to the anchor, encoded |
| Persistence.SaveSnapshot | src/minerd/persistence.ts:89-137 | writes a file exactly when the block 100 below the tip is above genesis with its state kept, and it holds that branch and ledger |
| SnapshotFacts.SaveThenRestore | src/minerd/persistence.ts:89-261 | restoring a file saved from a validated tree on a new chain reproduces hashes, blocks, works, fork anchors, tip and ledger |
| SnapshotFacts.RestoredInv | src/minerd/persistence.ts:89-261 | and the copy has every invariant the saved tree had |
| Sync.ChainSync.ApplyBatch | src/minerd/sync.ts:207-251 | adds the page's verified blocks in order, then prunes the configured distance (300 in the miner) behind the tip |
| Sync.ChainSync.CatchUp | src/minerd/sync.ts:147-205 | applies exactly the pages that come, at most three while the tip stands still, asked for from 5, 25 and 90 below the lower tip; says unchanged only with the same tip (which the coordinator relies on) and after an empty page or one that hangs on a known block, changed only with another one unless it started over, and gives up only at the deepest page or at genesis's child |
| Sync.ChainSync.Bootstrap | src/minerd/sync.ts:85-138 | the tree is the result of the pages it applied; a page is applied only if it was asked for from just above the tip of that moment, and another only after a full page that moved the height |
| Sync.ChainSync.constructor | src/minerd/sync.ts:74-78 | may be made over a new chain, a restored one, or one already in use |
| Sync.FollowsStart | src/minerd/miner.ts:459-480 | a chain just made, and one just restored from any file, can be synchronised |
| Sync.ChainSync.KeepsInvariants | src/minerd/sync.ts:207-251 | the chain is ready to build on at every point of its synchronisation, and fully validated if every file it restored was saved from a validated chain |
| Sync.CatchUpWithinReach | src/minerd/sync.ts:34-42 | while the lower tip is at most 209 below the greatest height so far, no block of a page that catching up asks for, and that branches off at a restored anchor or above, lacks its parent's state, so no reset can happen |
| SyncLaws.OnlyVerifiedEnter | src/minerd/sync.ts:207-251 | a page brings in no block but its own verified ones, whatever helpers send |
| SyncLaws.PagesOnlyVerified | src/minerd/sync.ts:85-251 | over any pages, every block a synchronisation adds was verified in one of them |
| SyncLaws.AcceptableEnter | src/minerd/sync.ts:207-251 | every verified block that validation accepts when its turn comes is stored, and stays |
| SyncLaws.FetchesFrom | src/minerd/sync.ts:160-165 | a fetch starts its overlap below the lower of the two tips, never below genesis's child |
| Reporter.ConsoleReporter.CanonicalSolo | src/minerd/reporter.ts:170-175 | the rewards and the number of the recorded blocks not marked orphaned |
| Reporter.ConsoleReporter.SumRewards | src/minerd/reporter.ts:17-21 | the loop sums the rewards of the heights |
| Reporter.ConsoleReporter.Found | src/minerd/reporter.ts:257-263 | records an accepted block outside pool mode, and nothing else |
| Reporter.ConsoleReporter.OnReorg | src/minerd/reporter.ts:265-280 | marks own disconnected blocks orphaned, then unmarks connected ones |
| Reporter.ConsoleReporter.SoloReorgReset | src/minerd/reporter.ts:282-291 | marks every recorded block orphaned |
| Reporter.EarnedExact | src/minerd/reporter.ts:170-175 | while the marks follow the chain, the earnings are the rewards of exactly the own blocks on it |
| Reporter.TracksMoved | src/minerd/reporter.ts:265-280 | a delta of the chain keeps the marks following it |
| Reporter.RunTracks | src/minerd/reporter.ts:257-291 | every run of the chain's operations and adopted solves keeps the marks following the canonical chain |
| Reporter.OwnIsAdopted | src/minerd/reporter.ts:257-263 | the recorded blocks are exactly the adopted ones |
| Reporter.EarningsFollowChain | src/minerd/reporter.ts:257-291 | after any run of adds, prunes, resets, restores and adopted solves, the earnings shown are the rewards of exactly the adopted blocks on the path to the tip |
| Reporter.FoundTwiceCounts | src/minerd/reporter.ts:257-263 | a block reported twice while canonical counts its reward twice, so reporting each block once is exactly what the previous row needs |
| Reporter.ChainDeltasQualify | src/chain/blockchain.ts:399-433 | the deltas the chain announces between any two stored tips are of the kind the reporter needs |
| Coordinator.MinerCoordinator.Rebuild | src/minerd/miner.ts:205-214 | a new template on the tip of the moment, and the pool started on it, with both ways of throwing |
| Coordinator.MinerCoordinator.OnSolved | src/minerd/miner.ts:263-283 | a solve is queued while busy and otherwise submitted with the grind stopped |
| Coordinator.MinerCoordinator.DrainPendingSolve | src/minerd/miner.ts:300-329 | a queued solve is submitted only if allowed and still on the tip, and is dropped otherwise |
| Coordinator.MinerCoordinator.TipAdvanced | src/minerd/miner.ts:340-347 | starts a catch-up unless something owns the chain |
| Coordinator.MinerCoordinator.ResumeAfterCatchUp | src/minerd/miner.ts:347-375 | rebuilds only after a change, stops the grind after a failure, and drains the queued solve |
| Coordinator.MinerCoordinator.ResumeAfterSubmit | src/minerd/miner.ts:284-289 | drains the queue, releases the chain and rebuilds, whether the submit succeeded or failed |
| Coordinator.MinerCoordinator.OnRetryTimer | src/minerd/miner.ts:243-252 | rebuilds when idle and waits again when busy |
| Coordinator.NextSafe | src/minerd/miner.ts:187-376 | every event keeps the coordinator's safety |
| Coordinator.AlwaysSafe | src/minerd/miner.ts:187-376 | over all interleavings at most one submit or catch-up runs, an idle grind is on the tip, every submission was built on the tip of its moment, and a lost solve is never submitted |
| Coordinator.FailedCatchUpLosesSolve | src/minerd/miner.ts:353-375 | a solve waiting when its catch-up fails is discarded there and then |
| Coordinator.SolveIsTaken | src/minerd/miner.ts:263-283 | a solve found while nothing is under way is submitted with the tip of that moment; otherwise it waits |
| Coordinator.AdvancedResumes | src/minerd/miner.ts:347-375 | after a catch-up that changed the chain the coordinator submits the waiting solve if still on the tip, and otherwise is free and grinds on the new tip or will retry |
| Coordinator.SubmitResumes | src/minerd/miner.ts:284-289 | after a submit it is free and back at work on the tip as it is then |
| Coordinator.UnchangedResumes | src/minerd/miner.ts:347-375 | a catch-up that changed nothing leaves the grind alone |
| Coordinator.FailedStops | src/minerd/miner.ts:353-375 | a failed catch-up frees it with the grind stopped and nothing submitted |
| Coordinator.IdleRebuilds | src/minerd/miner.ts:205-252 | with nothing under way an exhausted grind, the retry timer and the start all lead to a rebuild on the tip |
| Coordinator.BusyWaits | src/minerd/miner.ts:243-347 | while something is under way announcements and exhausted grinds wait and the retry stays armed |
| Coordinator.OnlyFailureIdles | src/minerd/miner.ts:187-376 | only a failed catch-up can leave a started coordinator with nothing under way |
| Coordinator.AlwaysWorking | src/minerd/miner.ts:187-376 | so in every run without one it is always grinding, submitting or about to retry |
| Dispatcher.ShareDispatcher.DoOffer | src/minerd/poolClient.ts:443-459 | a new job starts over; a known nonce is ignored; otherwise the share is launched, queued, or queued in the oldest's place |
| Dispatcher.ShareDispatcher.Drain | src/minerd/poolClient.ts:419-428 | launches from the front while there is room, skipping what no longer counts |
| Dispatcher.ShareDispatcher.OnThen | src/minerd/poolClient.ts:432-435 | remembers a nonce only on a final verdict under an identity that still stands |
| Dispatcher.ShareDispatcher.OnFinally | src/minerd/poolClient.ts:437-440 | frees the slot only under an identity that still stands, and drains |
| Dispatcher.LaunchIsNew | src/minerd/poolClient.ts:430-447 | only a nonce without a live POST and without a verdict under this identity is launched |
| Dispatcher.NextInv | src/minerd/poolClient.ts:407-462 | every event, with settling, then and finally as separate steps, keeps the invariants |
| Dispatcher.AlwaysConsistent | src/minerd/poolClient.ts:394-462 | in every run the caps hold, a backlog means the in-flight cap is reached, each nonce of a job and epoch has at most one submission and none after its verdict, and launches are first in first out |
| Dispatcher.OnlyOldestIsDropped | src/minerd/poolClient.ts:448-457 | an accepted share leaves unlaunched only at an identity change or as the oldest when both caps are full |
| DispatcherLaws.OfferIsTaken | src/minerd/poolClient.ts:443-459 | a share new under its job is launched while a slot is free and waits last in line otherwise; a known one changes nothing |
| DispatcherLaws.NextHonest | src/minerd/poolClient.ts:407-462 | every event keeps: a slot is held only by a submission under way, and a nonce is remembered only for a final verdict |
| DispatcherLaws.AlwaysHonest | src/minerd/poolClient.ts:394-462 | so in every run no slot leaks and no undecided nonce is given up for good |
| Dispatcher.OutcomesAre | src/minerd/poolClient.ts:35-43 | overload, timeouts and server errors are tried again; of the rest exactly an accepted result is credited |
| Dispatcher.ClampIs | src/minerd/poolClient.ts:315-319 | a wait is the backoff cut to the time left and to 30 s, never negative |
| Dispatcher.RunShareSubmit | src/minerd/poolClient.ts:332-378 | posts only under the captured identity before the deadline, retries only undecided outcomes, says true exactly after a final verdict, and waits at most 30 s and never past the deadline |
| Negotiated.PruneKeeps | src/minerd/negotiatedClient.ts:298-300 | registrations are dropped by age only |
| Negotiated.SettlesOne | src/minerd/negotiatedClient.ts:250-260 | a result settles exactly when a waiting header matches it up to letter case; the first such entry goes and every other stays |
| Negotiated.MatchedIsSent | src/minerd/negotiatedClient.ts:211-228 | the hex of a settled result decodes to exactly the header bytes that were sent |
| Negotiated.RegisterNowInv | src/minerd/negotiatedClient.ts:1014-1059 | a registration sends a header built on the announced tip with a deadline, or arms the next try |
| Negotiated.NextInv | src/minerd/negotiatedClient.ts:847-1271 | every event of the session keeps the invariants |
| Negotiated.RunInv | src/minerd/negotiatedClient.ts:847-1271 | so they hold in every reachable state |
| Negotiated.NeverStalls | src/minerd/negotiatedClient.ts:847-1221 | an open session that has received chain_info is grinding, or has a registration armed or in progress, or has the result deadline armed, under any order, loss or repetition of messages and timers |
| Negotiated.AlwaysReconnects | src/minerd/negotiatedClient.ts:1223-1270 | without a socket a reconnect is always armed |
| Negotiated.GrindsOnlyOwnWork | src/minerd/negotiatedClient.ts:1110-1136 | whatever the pool sends, the ground header is byte for byte one built and sent on this socket since the announced tip last changed, on that tip |
| Negotiated.WaitingListBounded | src/minerd/negotiatedClient.ts:282-297 | without any count cap the waiting list never exceeds 819 entries |
| Negotiated.ResultWaitBounded | src/minerd/negotiatedClient.ts:1048-1053 | the deadline grows with every strike and stays between 12 and 120 seconds |
| SessionLaws.RegisterFiresSends | src/minerd/negotiatedClient.ts:914-1059 | a template is sent exactly when the session is live, no catch-up of this socket runs, our chain stands on the announced tip, 2.2 s have passed and the block was built |
| SessionLaws.RegisterFiresChases | src/minerd/negotiatedClient.ts:926-950 | a catch-up is started exactly when we do not have the announced block at all |
| SessionLaws.CatchUpSends | src/minerd/negotiatedClient.ts:963-1059 | after a catch-up that returned, on the same conditions |
| SessionLaws.SendingIs | src/minerd/negotiatedClient.ts:1034-1059 | nothing else sends; what is sent extends our tip, waits for its answer under a deadline, and leaves the grind alone |
| SessionLaws.ResultWaitDoubles | src/minerd/negotiatedClient.ts:1048-1053 | the deadline starts at 12 s and doubles with each missed one up to 120 s |
| SessionLaws.NextTryIsSoon | src/minerd/negotiatedClient.ts:847-1059 | while the clock does not run backwards an armed registration is due within 5 s |
| SessionLaws.ResultRule | src/minerd/negotiatedClient.ts:1085-1138 | a result sets off a registration only if it settled one or leaves none unanswered |
| SessionLaws.RejectedResult | src/minerd/negotiatedClient.ts:1085-1109 | a rejection with another answer open changes nothing else; the last one forgets the list and retries, after 2.2 s when rate limited |
| SessionLaws.ForeignResult | src/minerd/negotiatedClient.ts:1110-1138 | an accepted header not waited for changes nothing, and only retries when no answer is open |
| SessionLaws.GrindStopsExactly | src/minerd/negotiatedClient.ts:1068-1269 | a running grind stops exactly at a new tip, a stale verdict, exhaustion, a stalled pool and a lost socket |
| SessionLaws.StoppedWorkIsReplaced | src/minerd/negotiatedClient.ts:1068-1269 | and then a registration is due at once, or a reconnect is armed |
| SessionLaws.GrindChangesExactly | src/minerd/negotiatedClient.ts:1110-1184 | the grind changes only to the bytes, job and hex target of an accepted result for a waiting header, or to a new hex target for the same job |
| SessionLaws.AnnouncementIs | src/minerd/negotiatedClient.ts:1068-1083 | a re-announced tip leaves work in hand alone; otherwise a registration is due at once, and another tip voids what waits |
| SessionLaws.DeadlineMissed | src/minerd/negotiatedClient.ts:1054-1058 | a missed deadline counts a strike and registers again with the grind running; so does a reset chain |
| SessionLaws.SingleFlight | src/minerd/negotiatedClient.ts:919-925 | while this socket's catch-up runs another registration only waits a quarter of a second |
| SessionLaws.StoppedForGood | src/minerd/negotiatedClient.ts:1283-1300 | once stopped no event arms a timer or sends anything |
| SessionLaws.LostSocketClears | src/minerd/negotiatedClient.ts:1255-1269 | what a lost socket leaves: no work, no timer but the reconnect, its catch-ups fenced off |
| SessionLaws.NewSocketFences | src/minerd/negotiatedClient.ts:1240-1246 | a new socket fences off earlier catch-ups and takes no slot from them |
| NegotiatedClient.Client.RegisterTemplate | src/minerd/negotiatedClient.ts:914-949 | the registration up to its await is the machine's step, single-flight per socket generation |
| NegotiatedClient.Client.ResumeRegister | src/minerd/negotiatedClient.ts:950-1012 | the registration after its await is the machine's step, and gives back the slot only if it is still its own |
| NegotiatedClient.Client.RegisterNow | src/minerd/negotiatedClient.ts:1014-1059 | waits for a pool that is behind, keeps the minimum interval, retries a failed build, or sends and arms the deadline |
| NegotiatedClient.Client.HandleChainInfo | src/minerd/negotiatedClient.ts:1068-1083 | keeps current work on a re-announced tip and starts over on a new one |
| NegotiatedClient.Client.HandleTemplateResult | src/minerd/negotiatedClient.ts:1085-1176 | every kind of answer is the machine's step; only a settled header is ground |
| NegotiatedClient.Client.HandleShareTarget | src/minerd/negotiatedClient.ts:1178-1184 | retargets only the current template, and only to a hex target |
| NegotiatedClient.Client.HandleShareResult | src/minerd/negotiatedClient.ts:1186-1209 | a stale verdict drops the grind once and always schedules the rebuild |
| NegotiatedClient.Client.OnResultWatchdog | src/minerd/negotiatedClient.ts:1054-1058 | a missed deadline counts a strike and registers again |
| NegotiatedClient.Client.Connect | src/minerd/negotiatedClient.ts:1223-1246 | a new socket is a new generation with a new fence; a constructor that throws only re-arms the reconnect |
| NegotiatedClient.Client.SocketClosed | src/minerd/negotiatedClient.ts:1255-1269 | a lost socket clears its work and timers and arms the reconnect |
| NegotiatedClient.Client.Teardown | src/minerd/negotiatedClient.ts:1283-1294 | stopping clears the timers and aborts the fence |

## Left out

- Error texts: every rejection is success or failure, without its message; log lines and progress callbacks are not modelled.
- `addBlockInternal` awaits the proof-of-work check; adding is one step here, so two additions interleaved at that await are not captured.
- Accept and tip listeners that call back into the chain: only the snapshot-invalidation listener's reset is modelled, as a choice at the moment it runs.
- Chain entries are values of the map, so the visibility of a dropped state through an entry object held elsewhere is not captured; account objects inside a state are real objects.
- `setForkActivationTimeForTesting` in `fork.ts`: the activation time is the production constant.
- JSON, decimal and hex text of snapshot rows: rows are typed, a field of the wrong type is an absent value, and writing, renaming and deleting the file are events.
- A lock without `scriptHash` and a redeem without `lockId` or script in `applyLock` and `applyRedeem`: taken as empty bytes, where the original would throw; structural validation excludes them.
- LockLife.LocksSingleUse: stated for branches of at most 2^32 transactions, since a wrapped nonce could bring a spent lock's encoding back, and without hash collisions among the branch's lock encodings.
- ChainRuns.RunReady: a restore happens only into a chain that holds genesis alone, as in every caller, and the anchor's hash is shared by no other header of the file.
- Reporter.EarningsFollowChain: resets and restores that no listener hears happen only before the first found block, as at start-up; each block is reported once; and no hash of the run stands for two heights.
- `confirmRestoredSnapshot` and `chainIntegrityOK`: pinning a restored anchor to the network needs the network's answer; a refused anchor is the reset that follows.
- Reporter.EarningsFollowChain: stated for base units; the division by the coin size for display is not modelled.
- Interleaving inside one catch-up: between the fetches of one call the chain is changed by no one else, as the coordinator's busy flag ensures in solo mode; overlapping catch-ups of two negotiated sockets appear in the session machine as chain moves.
- `helperPool` and the source-rotation bookkeeping of catch-up rounds: replies are inputs, whichever helper gave them.
- Coordinator.AlwaysWorking: having something under way is not progress; an exhaustion that arrives while busy is ignored, a catch-up without change does not rebuild, and after a failed one the next tip announcement has to come.
- The microtask between a finished drain and the reset of the busy flag is not a separate step, and a logger or pool stop that throws is not modelled.
- Dispatcher.AlwaysConsistent: stated for an in-flight cap and a backlog cap of at least one, as the client sets them (at least 16 and 64).
- Sending shares in negotiated mode: nonce deduplication, backpressure and the grind-stall timer's decision; its restart of the grind is an event.
- `negotiatedColdStart`, `runPoolClient`'s job polling, `runMiner`'s wiring: sequencing around the modelled machines.
- `targetHex` as text in the solo template: the target is a number.
- SHA-256, RIPEMD-160, Ed25519, Argon2id and Sandglass, worker pools, HTTP and WebSocket transport, menus, settings and the terminal interface.
