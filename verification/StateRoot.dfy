/** The commitment to a ledger carried in block headers (src/chain/state.ts 97-137). */
module StateRoot {
  import opened Binary
  import opened Crypto
  import opened Ledger
  import opened Merkle

  // ------------------------------------------------------------------
  // Key order
  // ------------------------------------------------------------------

  /** Lexicographic order, which on lower-case hex strings is the order of the bytes they spell. */
  predicate LexLe(a: Bytes, b: Bytes) {
    a == [] || (b != [] && (a[0] < b[0] || (a[0] == b[0] && LexLe(a[1..], b[1..]))))
  }

  lemma {:induction false} LexTotal(a: Bytes, b: Bytes)
    ensures LexLe(a, b) || LexLe(b, a)
  {
    if a != [] && b != [] && a[0] == b[0] {
      LexTotal(a[1..], b[1..]);
    }
  }

  lemma {:induction false} LexAntisymmetric(a: Bytes, b: Bytes)
    requires LexLe(a, b) && LexLe(b, a)
    ensures a == b
  {
    if a != [] {
      LexAntisymmetric(a[1..], b[1..]);
      assert a == [a[0]] + a[1..] && b == [b[0]] + b[1..];
    }
  }

  lemma {:induction false} LexTransitive(a: Bytes, b: Bytes, c: Bytes)
    requires LexLe(a, b) && LexLe(b, c)
    ensures LexLe(a, c)
  {
    if a != [] && a[0] == b[0] == c[0] {
      LexTransitive(a[1..], b[1..], c[1..]);
    }
  }

  predicate IsLeast(k: Bytes, keys: set<Bytes>) {
    k in keys && forall j :: j in keys ==> LexLe(k, j)
  }

  lemma {:induction false} LeastExists(keys: set<Bytes>)
    requires keys != {}
    ensures exists k :: IsLeast(k, keys)
  {
    var k :| k in keys;
    var rest := keys - {k};
    assert keys == rest + {k};
    if rest == {} {
      LexTotal(k, k);
      assert IsLeast(k, keys);
    } else {
      LeastExists(rest);
      var j :| IsLeast(j, rest);
      LexTotal(k, j);
      LexTotal(k, k);
      if LexLe(k, j) {
        forall i | i in keys ensures LexLe(k, i) {
          if i != k { LexTransitive(k, j, i); }
        }
        assert IsLeast(k, keys);
      } else {
        assert IsLeast(j, keys);
      }
    }
  }

  lemma LeastUnique(keys: set<Bytes>)
    ensures forall j, k :: IsLeast(j, keys) && IsLeast(k, keys) ==> j == k
  {
    forall j, k | IsLeast(j, keys) && IsLeast(k, keys) ensures j == k {
      LexAntisymmetric(j, k);
    }
  }

  /** In order, and each once. */
  predicate StrictlySorted(s: seq<Bytes>) {
    forall i, j :: 0 <= i < j < |s| ==> LexLe(s[i], s[j]) && s[i] != s[j]
  }

  /** `[...keys].sort()` */
  function Sorted(keys: set<Bytes>): (r: seq<Bytes>)
    ensures forall k :: k in keys <==> k in r
    ensures StrictlySorted(r)
  {
    if keys == {} then [] else
      LeastExists(keys);
      LeastUnique(keys);
      var k :| IsLeast(k, keys);
      [k] + Sorted(keys - {k})
  }

  // ------------------------------------------------------------------
  // Leaves and roots
  // ------------------------------------------------------------------

  /** `hexToFixed32`: exactly 32 bytes, a short key padded with zeros. */
  function Fixed32(key: Bytes): Hash32 {
    if |key| >= 32 then key[..32] else key + Zeros(32 - |key|)
  }

  function AccountLeaf(key: Bytes, a: Acct): Bytes { Fixed32(key) + U64be(a.balance) + U32be(a.nonce) }

  function LockLeaf(key: Bytes, k: ScriptLock): Bytes {
    Fixed32(key) + U64be(k.amount) + k.scriptHash + U32be(k.createdHeight)
  }

  /** An account that never held or did anything has no leaf. */
  predicate Bare(a: Acct) { a.balance == 0 && a.nonce == 0 }

  function AccountLeaves(accounts: map<Bytes, Acct>, keys: seq<Bytes>): seq<Bytes>
    requires forall k :: k in keys ==> k in accounts
  {
    if keys == [] then [] else
      var k := keys[|keys| - 1];
      AccountLeaves(accounts, keys[..|keys| - 1]) + (if Bare(accounts[k]) then [] else [AccountLeaf(k, accounts[k])])
  }

  function LockLeaves(locks: map<Bytes, ScriptLock>, keys: seq<Bytes>): seq<Bytes>
    requires forall k :: k in keys ==> k in locks
  {
    if keys == [] then [] else
      var k := keys[|keys| - 1];
      LockLeaves(locks, keys[..|keys| - 1]) + [LockLeaf(k, locks[k])]
  }

  function AllAccountLeaves(l: Ledger): seq<Bytes> { AccountLeaves(l.accounts, Sorted(l.accounts.Keys)) }

  function AllLockLeaves(l: Ledger): seq<Bytes> { LockLeaves(l.locks, Sorted(l.locks.Keys)) }

  function RootPair(c: Crypto, l: Ledger): Bytes {
    Concat(MerkleRoot(c, AllAccountLeaves(l)), MerkleRoot(c, AllLockLeaves(l)))
  }

  /** Without locks the root is the accounts' root alone; with locks it covers both maps. */
  function Root(c: Crypto, l: Ledger): Hash32 {
    if l.locks == map[] then MerkleRoot(c, AllAccountLeaves(l)) else c.sha256(RootPair(c, l))
  }

  // ------------------------------------------------------------------
  // What a root commits to
  // ------------------------------------------------------------------

  /** Every field fits its width in the leaves. */
  predicate Fits(l: Ledger) {
    && (forall k :: k in l.accounts ==> |k| == 32 && 0 <= l.accounts[k].balance < U64 && l.accounts[k].nonce < U32)
    && (forall k :: k in l.locks ==> |k| == 32 && LockFits(l.locks[k]))
  }

  predicate LockFits(k: ScriptLock) {
    0 <= k.amount < U64 && |k.scriptHash| == 32 && k.createdHeight < U32
  }

  ghost function RootMessages(c: Crypto, l: Ledger): set<Bytes> {
    Messages(c, AllAccountLeaves(l)) + Messages(c, AllLockLeaves(l)) + {RootPair(c, l)}
  }

  lemma AccountLeafInjective(j: Bytes, a: Acct, k: Bytes, b: Acct)
    requires |j| == |k| == 32 && 0 <= a.balance < U64 && 0 <= b.balance < U64 && a.nonce < U32 && b.nonce < U32
    requires AccountLeaf(j, a) == AccountLeaf(k, b)
    ensures j == k && a == b
  {
    hide BE;
    var x, y := AccountLeaf(j, a), AccountLeaf(k, b);
    assert x[..32] == j && y[..32] == k;
    assert x[32..40] == U64be(a.balance) && y[32..40] == U64be(b.balance);
    assert x[40..] == U32be(a.nonce) && y[40..] == U32be(b.nonce);
    PowWidths();
    ReadOfBE(a.balance, 8);
    ReadOfBE(b.balance, 8);
    ReadOfBE(a.nonce, 4);
    ReadOfBE(b.nonce, 4);
  }

  lemma LockLeafInjective(j: Bytes, a: ScriptLock, k: Bytes, b: ScriptLock)
    requires |j| == |k| == 32 && LockFits(a) && LockFits(b)
    requires LockLeaf(j, a) == LockLeaf(k, b)
    ensures j == k && a == b
  {
    hide BE;
    var x, y := LockLeaf(j, a), LockLeaf(k, b);
    assert x[..32] == j && y[..32] == k;
    assert x[32..40] == U64be(a.amount) && y[32..40] == U64be(b.amount);
    assert x[40..72] == a.scriptHash && y[40..72] == b.scriptHash;
    assert x[72..] == U32be(a.createdHeight) && y[72..] == U32be(b.createdHeight);
    PowWidths();
    ReadOfBE(a.amount, 8);
    ReadOfBE(b.amount, 8);
    ReadOfBE(a.createdHeight, 4);
    ReadOfBE(b.createdHeight, 4);
  }

  ghost predicate HasAccountLeaf(accounts: map<Bytes, Acct>, keys: seq<Bytes>, leaf: Bytes)
    requires forall k :: k in keys ==> k in accounts
  {
    exists k :: k in keys && !Bare(accounts[k]) && leaf == AccountLeaf(k, accounts[k])
  }

  ghost predicate HasLockLeaf(locks: map<Bytes, ScriptLock>, keys: seq<Bytes>, leaf: Bytes)
    requires forall k :: k in keys ==> k in locks
  {
    exists k :: k in keys && leaf == LockLeaf(k, locks[k])
  }

  lemma HasAccountLeafLast(accounts: map<Bytes, Acct>, keys: seq<Bytes>, leaf: Bytes)
    requires keys != [] && forall k :: k in keys ==> k in accounts
    ensures var front, last := keys[..|keys| - 1], keys[|keys| - 1];
            HasAccountLeaf(accounts, keys, leaf) <==>
              HasAccountLeaf(accounts, front, leaf)
              || (!Bare(accounts[last]) && leaf == AccountLeaf(last, accounts[last]))
  {
    hide AccountLeaf, Bare;
    assert keys == keys[..|keys| - 1] + [keys[|keys| - 1]];
  }

  lemma HasLockLeafLast(locks: map<Bytes, ScriptLock>, keys: seq<Bytes>, leaf: Bytes)
    requires keys != [] && forall k :: k in keys ==> k in locks
    ensures var front, last := keys[..|keys| - 1], keys[|keys| - 1];
            HasLockLeaf(locks, keys, leaf) <==> HasLockLeaf(locks, front, leaf) || leaf == LockLeaf(last, locks[last])
  {
    hide LockLeaf;
    assert keys == keys[..|keys| - 1] + [keys[|keys| - 1]];
  }

  /** The leaves are exactly the leaves of the accounts that are not bare. */
  lemma {:induction false} AccountLeavesAre(accounts: map<Bytes, Acct>, keys: seq<Bytes>, leaf: Bytes)
    requires forall k :: k in keys ==> k in accounts
    ensures leaf in AccountLeaves(accounts, keys) <==> HasAccountLeaf(accounts, keys, leaf)
    decreases |keys|
  {
    if keys != [] {
      hide AccountLeaf, HasAccountLeaf, Bare;
      AccountLeavesAre(accounts, keys[..|keys| - 1], leaf);
      HasAccountLeafLast(accounts, keys, leaf);
    }
  }

  lemma {:induction false} LockLeavesAre(locks: map<Bytes, ScriptLock>, keys: seq<Bytes>, leaf: Bytes)
    requires forall k :: k in keys ==> k in locks
    ensures leaf in LockLeaves(locks, keys) <==> HasLockLeaf(locks, keys, leaf)
    decreases |keys|
  {
    if keys != [] {
      hide LockLeaf, HasLockLeaf;
      LockLeavesAre(locks, keys[..|keys| - 1], leaf);
      HasLockLeafLast(locks, keys, leaf);
    }
  }

  lemma AccountCommitted(l: Ledger, m: Ledger, k: Bytes)
    requires Fits(l) && Fits(m) && AllAccountLeaves(l) == AllAccountLeaves(m)
    requires k in l.accounts && !Bare(l.accounts[k])
    ensures k in m.accounts && m.accounts[k] == l.accounts[k]
  {
    hide AccountLeaf;
    var leaf := AccountLeaf(k, l.accounts[k]);
    AccountLeavesAre(l.accounts, Sorted(l.accounts.Keys), leaf);
    AccountLeavesAre(m.accounts, Sorted(m.accounts.Keys), leaf);
    var j :| j in m.accounts && leaf == AccountLeaf(j, m.accounts[j]);
    AccountLeafInjective(k, l.accounts[k], j, m.accounts[j]);
  }

  lemma LockCommitted(l: Ledger, m: Ledger, k: Bytes)
    requires Fits(l) && Fits(m) && AllLockLeaves(l) == AllLockLeaves(m)
    requires k in l.locks
    ensures k in m.locks && m.locks[k] == l.locks[k]
  {
    hide LockLeaf;
    var leaf := LockLeaf(k, l.locks[k]);
    LockLeavesAre(l.locks, Sorted(l.locks.Keys), leaf);
    LockLeavesAre(m.locks, Sorted(m.locks.Keys), leaf);
    var j :| j in m.locks && leaf == LockLeaf(j, m.locks[j]);
    LockLeafInjective(k, l.locks[k], j, m.locks[j]);
  }

  predicate SameHoldings(l: Ledger, m: Ledger) {
    && (forall k :: k in l.accounts && !Bare(l.accounts[k]) ==> k in m.accounts && m.accounts[k] == l.accounts[k])
    && (forall k :: k in m.accounts && !Bare(m.accounts[k]) ==> k in l.accounts && l.accounts[k] == m.accounts[k])
    && l.locks == m.locks
  }

  /**
   * Two ledgers whose fields fit and whose leaf counts agree have the same root
   * only if they hold the same accounts and locks. (Counts must agree: a Merkle
   * root alone does not fix them.)
   */
  lemma RootCommits(c: Crypto, l: Ledger, m: Ledger)
    requires Fits(l) && Fits(m) && Root(c, l) == Root(c, m)
    requires |AllAccountLeaves(l)| == |AllAccountLeaves(m)| && |AllLockLeaves(l)| == |AllLockLeaves(m)|
    requires l.locks == map[] <==> m.locks == map[]
    requires CollisionFree(c, RootMessages(c, l) + RootMessages(c, m))
    ensures SameHoldings(l, m)
  {
    hide Fits, AllAccountLeaves, AllLockLeaves, Messages, MerkleRoot;
    var all := RootMessages(c, l) + RootMessages(c, m);
    if l.locks != map[] {
      assert RootPair(c, l) in all && RootPair(c, m) in all;
      PairSplits(MerkleRoot(c, AllAccountLeaves(l)), MerkleRoot(c, AllLockLeaves(l)),
                 MerkleRoot(c, AllAccountLeaves(m)), MerkleRoot(c, AllLockLeaves(m)));
      CollisionFreeSubset(c, Messages(c, AllLockLeaves(l)) + Messages(c, AllLockLeaves(m)), all);
      MerkleInjective(c, AllLockLeaves(l), AllLockLeaves(m));
    }
    CollisionFreeSubset(c, Messages(c, AllAccountLeaves(l)) + Messages(c, AllAccountLeaves(m)), all);
    MerkleInjective(c, AllAccountLeaves(l), AllAccountLeaves(m));
    SameLeavesSameHoldings(l, m);
  }

  lemma PairSplits(a: Hash32, b: Hash32, x: Hash32, y: Hash32)
    requires Concat(a, b) == Concat(x, y)
    ensures a == x && b == y
  {
    assert Concat(a, b)[..32] == a && Concat(a, b)[32..] == b;
    assert Concat(x, y)[..32] == x && Concat(x, y)[32..] == y;
  }

  lemma SameLeavesSameHoldings(l: Ledger, m: Ledger)
    requires Fits(l) && Fits(m) && AllAccountLeaves(l) == AllAccountLeaves(m)
    requires l.locks == m.locks == map[] || AllLockLeaves(l) == AllLockLeaves(m)
    ensures SameHoldings(l, m)
  {
    hide Fits, AllAccountLeaves, AllLockLeaves;
    forall k | k in l.accounts && !Bare(l.accounts[k]) ensures k in m.accounts && m.accounts[k] == l.accounts[k] {
      AccountCommitted(l, m, k);
    }
    forall k | k in m.accounts && !Bare(m.accounts[k]) ensures k in l.accounts && l.accounts[k] == m.accounts[k] {
      AccountCommitted(m, l, k);
    }
    if l.locks != map[] || m.locks != map[] {
      forall k | k in l.locks ensures k in m.locks && m.locks[k] == l.locks[k] {
        LockCommitted(l, m, k);
      }
      forall k | k in m.locks ensures k in l.locks {
        LockCommitted(m, l, k);
      }
    }
  }

  // ------------------------------------------------------------------
  // What a root is made of
  // ------------------------------------------------------------------

  /** The order decides at the first difference, and a prefix comes first. */
  lemma {:induction false} LexOrder(p: Bytes, x: Byte, y: Byte, s: Bytes, t: Bytes)
    requires x < y
    ensures LexLe(p + [x] + s, p + [y] + t) && !LexLe(p + [y] + t, p + [x] + s) && LexLe(p, p + s)
  {
    if p == [] {
      assert ([x] + s)[0] == x && ([y] + t)[0] == y;
      assert p + [x] + s == [x] + s && p + [y] + t == [y] + t;
    } else {
      LexOrder(p[1..], x, y, s, t);
      assert (p + [x] + s)[1..] == p[1..] + [x] + s;
      assert (p + [y] + t)[1..] == p[1..] + [y] + t;
      assert (p + s)[1..] == p[1..] + s;
    }
  }

  /** `keys` lists a set in lexicographic order, each key once. */
  ghost predicate Lists(keys: seq<Bytes>, all: set<Bytes>) {
    StrictlySorted(keys) && forall k :: k in keys <==> k in all
  }

  /** Only one list does. */
  lemma {:induction false} ListsOnce(a: seq<Bytes>, b: seq<Bytes>, all: set<Bytes>)
    requires Lists(a, all) && Lists(b, all)
    ensures a == b
    decreases |a|
  {
    hide LexLe;
    NoneListed(a, all);
    NoneListed(b, all);
    if a != [] {
      FirstIsLeast(a, all);
      FirstIsLeast(b, all);
      LexAntisymmetric(a[0], b[0]);
      RestLists(a, all);
      RestLists(b, all);
      ListsOnce(a[1..], b[1..], all - {a[0]});
      assert a == [a[0]] + a[1..] && b == [b[0]] + b[1..];
    }
  }

  lemma NoneListed(a: seq<Bytes>, all: set<Bytes>)
    requires Lists(a, all)
    ensures a == [] <==> all == {}
  {
    hide LexLe;
    if a != [] {
      assert a[0] in all;
    }
  }

  lemma FirstIsLeast(a: seq<Bytes>, all: set<Bytes>)
    requires Lists(a, all) && a != []
    ensures a[0] in all && forall k :: k in all ==> LexLe(a[0], k)
  {
    hide LexLe;
    forall k | k in all ensures LexLe(a[0], k) {
      var i :| 0 <= i < |a| && a[i] == k;
      LexTotal(k, k);
    }
  }

  lemma RestLists(a: seq<Bytes>, all: set<Bytes>)
    requires Lists(a, all) && a != []
    ensures Lists(a[1..], all - {a[0]})
  {
    hide LexLe;
    var rest := a[1..];
    assert forall i :: 0 <= i < |rest| ==> rest[i] == a[i + 1];
    assert a == [a[0]] + rest;
  }

  /** The keys of accounts that have held or done something. */
  ghost function Touched(accounts: map<Bytes, Acct>): set<Bytes> {
    set k | k in accounts && !(accounts[k].balance == 0 && accounts[k].nonce == 0)
  }

  function AccountBytes(accounts: map<Bytes, Acct>, keys: seq<Bytes>): (leaves: seq<Bytes>)
    requires forall k :: k in keys ==> k in accounts
    ensures |leaves| == |keys|
    ensures forall i :: 0 <= i < |keys| ==>
      leaves[i] == keys[i] + BE(accounts[keys[i]].balance, 8) + BE(accounts[keys[i]].nonce, 4)
  {
    seq(|keys|, i requires 0 <= i < |keys| =>
      keys[i] + BE(accounts[keys[i]].balance, 8) + BE(accounts[keys[i]].nonce, 4))
  }

  function LockBytes(locks: map<Bytes, ScriptLock>, keys: seq<Bytes>): (leaves: seq<Bytes>)
    requires forall k :: k in keys ==> k in locks
    ensures |leaves| == |keys|
    ensures forall i :: 0 <= i < |keys| ==>
      leaves[i] == keys[i] + BE(locks[keys[i]].amount, 8) + locks[keys[i]].scriptHash
                   + BE(locks[keys[i]].createdHeight, 4)
  {
    seq(|keys|, i requires 0 <= i < |keys| =>
      keys[i] + BE(locks[keys[i]].amount, 8) + locks[keys[i]].scriptHash + BE(locks[keys[i]].createdHeight, 4))
  }

  /** The sorted keys without the bare accounts'. */
  ghost function Filled(accounts: map<Bytes, Acct>, keys: seq<Bytes>): seq<Bytes>
    requires forall k :: k in keys ==> k in accounts
  {
    if keys == [] then [] else
      var k := keys[|keys| - 1];
      Filled(accounts, keys[..|keys| - 1]) + (if Bare(accounts[k]) then [] else [k])
  }

  lemma {:induction false} FilledLists(accounts: map<Bytes, Acct>, keys: seq<Bytes>)
    requires StrictlySorted(keys) && (forall k :: k in keys ==> k in accounts && |k| == 32)
    ensures StrictlySorted(Filled(accounts, keys))
    ensures forall k :: k in Filled(accounts, keys) <==> k in keys && !Bare(accounts[k])
    ensures AccountLeaves(accounts, keys) == AccountBytes(accounts, Filled(accounts, keys))
    decreases |keys|
  {
    hide LexLe, BE, Bare, AccountLeaf, AccountBytes;
    if keys == [] {
      assert AccountBytes(accounts, []) == [];
    } else {
      var front, last := keys[..|keys| - 1], keys[|keys| - 1];
      assert keys == front + [last];
      SortedFront(front, last);
      FilledLists(accounts, front);
      FilledStep(accounts, front, last);
    }
  }

  lemma SortedFront(front: seq<Bytes>, last: Bytes)
    requires StrictlySorted(front + [last])
    ensures StrictlySorted(front)
    ensures forall k :: k in front ==> LexLe(k, last) && k != last
  {
    hide LexLe;
    var keys := front + [last];
    assert keys[|front|] == last && forall i :: 0 <= i < |front| ==> keys[i] == front[i];
  }

  lemma FilledOne(accounts: map<Bytes, Acct>, front: seq<Bytes>, last: Bytes)
    requires (forall k :: k in front ==> k in accounts) && last in accounts
    ensures Filled(accounts, front + [last]) == Filled(accounts, front) + (if Bare(accounts[last]) then [] else [last])
    ensures AccountLeaves(accounts, front + [last]) ==
            AccountLeaves(accounts, front) + (if Bare(accounts[last]) then [] else [AccountLeaf(last, accounts[last])])
  {
    hide AccountLeaf, Bare;
    assert (front + [last])[..|front|] == front;
  }

  lemma SortedAppend(keys: seq<Bytes>, last: Bytes)
    requires StrictlySorted(keys) && forall k :: k in keys ==> LexLe(k, last) && k != last
    ensures StrictlySorted(keys + [last])
  {
    hide LexLe;
  }

  lemma FilledStep(accounts: map<Bytes, Acct>, front: seq<Bytes>, last: Bytes)
    requires (forall k :: k in front ==> k in accounts) && last in accounts && |last| == 32
    requires forall k :: k in front ==> LexLe(k, last) && k != last
    requires StrictlySorted(Filled(accounts, front))
    requires forall k :: k in Filled(accounts, front) <==> k in front && !Bare(accounts[k])
    requires AccountLeaves(accounts, front) == AccountBytes(accounts, Filled(accounts, front))
    ensures var keys := front + [last];
            && StrictlySorted(Filled(accounts, keys))
            && (forall k :: k in Filled(accounts, keys) <==> k in keys && !Bare(accounts[k]))
            && AccountLeaves(accounts, keys) == AccountBytes(accounts, Filled(accounts, keys))
  {
    hide LexLe, BE, Bare, AccountLeaf, AccountBytes, StrictlySorted, Filled, AccountLeaves;
    FilledOne(accounts, front, last);
    if Bare(accounts[last]) {
      assert Filled(accounts, front + [last]) == Filled(accounts, front);
    } else {
      OneMoreAccount(accounts, Filled(accounts, front), last);
      SortedAppend(Filled(accounts, front), last);
    }
  }

  lemma OneMoreAccount(accounts: map<Bytes, Acct>, keys: seq<Bytes>, last: Bytes)
    requires (forall k :: k in keys ==> k in accounts) && last in accounts && |last| == 32
    ensures AccountBytes(accounts, keys + [last]) ==
            AccountBytes(accounts, keys) + [AccountLeaf(last, accounts[last])]
  {
    hide BE, AccountBytes;
    assert Fixed32(last) == last;
    var all := keys + [last];
    var a, b := AccountBytes(accounts, all), AccountBytes(accounts, keys);
    forall i | 0 <= i < |all| ensures a[i] == (b + [AccountLeaf(last, accounts[last])])[i] {
      assert all[i] == if i < |keys| then keys[i] else last;
    }
  }

  lemma {:induction false} LockLeavesListed(locks: map<Bytes, ScriptLock>, keys: seq<Bytes>)
    requires forall k :: k in keys ==> k in locks && |k| == 32
    ensures LockLeaves(locks, keys) == LockBytes(locks, keys)
    decreases |keys|
  {
    hide BE, LockLeaf, LockBytes;
    if keys == [] {
      assert LockBytes(locks, []) == [];
    } else {
      var front, last := keys[..|keys| - 1], keys[|keys| - 1];
      assert keys == front + [last];
      LockLeavesListed(locks, front);
      OneMoreLock(locks, front, last);
    }
  }

  lemma OneMoreLock(locks: map<Bytes, ScriptLock>, keys: seq<Bytes>, last: Bytes)
    requires (forall k :: k in keys ==> k in locks) && last in locks && |last| == 32
    ensures LockBytes(locks, keys + [last]) == LockBytes(locks, keys) + [LockLeaf(last, locks[last])]
  {
    hide BE, LockBytes;
    assert Fixed32(last) == last;
    var all := keys + [last];
    var a, b := LockBytes(locks, all), LockBytes(locks, keys);
    forall i | 0 <= i < |all| ensures a[i] == (b + [LockLeaf(last, locks[last])])[i] {
      assert all[i] == if i < |keys| then keys[i] else last;
    }
  }

  /**
   * The root from its bytes up: one leaf for each touched account in key order,
   * key, balance, nonce; one for each lock, key, amount, script hash, height; the
   * accounts' Merkle root alone without locks, and the hash of it followed by the
   * locks' root with them.
   */
  lemma RootLayout(c: Crypto, l: Ledger, accountKeys: seq<Bytes>, lockKeys: seq<Bytes>)
    requires (forall k :: k in l.accounts ==> |k| == 32) && (forall k :: k in l.locks ==> |k| == 32)
    requires Lists(accountKeys, Touched(l.accounts)) && Lists(lockKeys, l.locks.Keys)
    ensures var accounts := MerkleRoot(c, AccountBytes(l.accounts, accountKeys));
            var locks := MerkleRoot(c, LockBytes(l.locks, lockKeys));
            Root(c, l) == if l.locks == map[] then accounts else c.sha256(accounts + locks)
  {
    hide LexLe, BE, StrictlySorted, AccountLeaves, LockLeaves, AccountBytes, LockBytes, MerkleRoot;
    var sorted := Sorted(l.accounts.Keys);
    FilledLists(l.accounts, sorted);
    ListsOnce(Filled(l.accounts, sorted), accountKeys, Touched(l.accounts));
    ListsOnce(Sorted(l.locks.Keys), lockKeys, l.locks.Keys);
    LockLeavesListed(l.locks, lockKeys);
  }
}
