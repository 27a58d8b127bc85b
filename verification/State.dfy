/**
 * The chain state as it is kept in memory: a map to account objects that
 * transactions update in place, and a map of live locks (src/chain/state.ts).
 */
module State {
  import opened Binary
  import opened Crypto
  import opened Genesis
  import opened Interpreter
  import opened Ledger
  import opened Merkle
  import opened Script
  import opened StateRoot
  import opened Transaction

  class Account {
    var balance: int
    var nonce: nat

    constructor (balance: int, nonce: nat)
      ensures this.balance == balance && this.nonce == nonce
    {
      this.balance := balance;
      this.nonce := nonce;
    }
  }

  ghost predicate Distinct(accounts: map<Bytes, Account>) {
    forall a, b :: a in accounts && b in accounts && accounts[a] == accounts[b] ==> a == b
  }

  lemma DistinctEmpty()
    ensures Distinct(map[])
  {
  }

  lemma DistinctInsert(accounts: map<Bytes, Account>, k: Bytes, a: Account)
    requires Distinct(accounts) && forall j :: j in accounts && accounts[j] == a ==> j == k
    ensures Distinct(accounts[k := a])
  {
  }

  class State {
    var accounts: map<Bytes, Account>
    var locks: map<Bytes, ScriptLock>

    /** No two addresses share an account object. */
    ghost predicate Valid()
      reads this
    {
      Distinct(accounts)
    }

    /** Everything a transaction may change. */
    ghost function Repr(): set<object>
      reads this
    {
      {this} + set a | a in accounts.Keys :: accounts[a]
    }

    ghost function View(): Ledger
      reads Repr()
    {
      Ledger(map k | k in accounts :: Acct(accounts[k].balance, accounts[k].nonce), locks)
    }

    /** `emptyState` */
    constructor Empty()
      ensures Valid() && View() == EMPTY && accounts == map[] && locks == map[] && fresh(Repr())
    {
      accounts := map[];
      locks := map[];
    }

    constructor Of(accounts: map<Bytes, Account>, locks: map<Bytes, ScriptLock>)
      ensures this.accounts == accounts && this.locks == locks
    {
      this.accounts := accounts;
      this.locks := locks;
    }

    /** The stored account object, or a new empty one that is not stored yet. */
    method GetAccount(addr: Bytes) returns (a: Account)
      requires Valid()
      ensures Acct(a.balance, a.nonce) == Get(View(), addr)
      ensures if addr in accounts then a == accounts[addr] else fresh(a)
    {
      if addr in accounts {
        a := accounts[addr];
      } else {
        a := new Account(0, 0);
      }
    }

    /** Gives an account object its new values and stores it under its address. */
    method Store(addr: Bytes, a: Account, balance: int, nonce: nat)
      requires Valid() && (if addr in accounts then a == accounts[addr] else a !in Repr())
      modifies this, a
      ensures Valid() && Repr() <= old(Repr()) + {a}
      ensures View() == Put(old(View()), addr, Acct(balance, nonce)) && locks == old(locks)
    {
      DistinctInsert(accounts, addr, a);
      a.balance := balance;
      a.nonce := nonce;
      accounts := accounts[addr := a];
      forall o | o in Repr() ensures o in old(Repr()) + {a} {
        if o != this && o != a {
          var k :| k in accounts && accounts[k] == o;
          assert k in old(accounts);
        }
      }
      assert View().accounts == Put(old(View()), addr, Acct(balance, nonce)).accounts;
    }

    method CreditAccount(addr: Bytes, value: int)
      requires Valid()
      modifies Repr()
      ensures Valid() && fresh(Repr() - old(Repr()))
      ensures View() == Credit(old(View()), addr, value)
    {
      hide Get, Put, Distinct;
      var a := GetAccount(addr);
      Store(addr, a, a.balance + value, a.nonce);
    }

    method ApplyTransfer(tx: Tx) returns (ok: bool)
      requires Valid()
      modifies Repr()
      ensures Valid() && fresh(Repr() - old(Repr()))
      ensures ok <==> Transferred(old(View()), tx).Some?
      ensures View() == if ok then Transferred(old(View()), tx).value else old(View())
    {
      hide Debit, Credit, Get, Put, Distinct;
      ghost var l := View();
      var sender := GetAccount(tx.from);
      var total := tx.amount + tx.fee;
      if sender.balance < total || tx.nonce != sender.nonce {
        return false;
      }
      DebitAccount(tx.from, sender, total);
      assert View() == Debit(l, tx.from, total);
      CreditAccount(tx.to, tx.amount);
      ok := true;
    }

    /** An account whose nonce has just grown is never empty, so nothing is ever deleted here. */
    method DebitAccount(addr: Bytes, sender: Account, total: int)
      requires Valid() && (if addr in accounts then sender == accounts[addr] else sender !in Repr())
      requires Acct(sender.balance, sender.nonce) == Get(View(), addr)
      modifies this, sender
      ensures Valid() && Repr() <= old(Repr()) + {sender}
      ensures View() == Debit(old(View()), addr, total) && locks == old(locks)
    {
      Store(addr, sender, sender.balance - total, sender.nonce + 1);
    }

    method SetLocks(changed: map<Bytes, ScriptLock>)
      requires Valid()
      modifies this
      ensures Valid() && Repr() == old(Repr()) && View() == old(View()).(locks := changed)
    {
      locks := changed;
      assert View().accounts == old(View()).accounts;
    }

    method ApplyLock(c: Crypto, tx: Tx, height: nat, created: set<Bytes>) returns (ok: bool, created': set<Bytes>)
      requires Valid()
      modifies Repr()
      ensures Valid() && fresh(Repr() - old(Repr()))
      ensures ok <==> Locked(c, Progress(old(View()), created), tx, height).Some?
      ensures Progress(View(), created') ==
        if ok then Locked(c, Progress(old(View()), created), tx, height).value else Progress(old(View()), created)
    {
      hide EncodeTx, TxHash, Debit;
      created' := created;
      var sender := GetAccount(tx.from);
      var total := tx.amount + tx.fee;
      if sender.balance < total || tx.nonce != sender.nonce {
        return false, created;
      }
      var id := TxHash(c, tx);
      if id in locks {
        return false, created;
      }
      DebitAccount(tx.from, sender, total);
      SetLocks(locks[id := ScriptLock(tx.amount, OrElse(tx.scriptHash, []), height)]);
      created' := created + {id};
      ok := true;
    }

    method ApplyRedeem(c: Crypto, tx: Tx, bc: BlockContext, created: set<Bytes>) returns (ok: bool)
      requires Valid()
      modifies Repr()
      ensures Valid() && fresh(Repr() - old(Repr()))
      ensures ok <==> Redeemed(c, Progress(old(View()), created), tx, bc).Some?
      ensures Progress(View(), created) ==
        if ok then Redeemed(c, Progress(old(View()), created), tx, bc).value else Progress(old(View()), created)
    {
      hide Accepts;
      var id, script := OrElse(tx.lockId, []), OrElse(tx.redeemScript, []);
      if id !in locks || id in created {
        return false;
      }
      var k := locks[id];
      if c.sha256(script) != k.scriptHash || tx.amount != k.amount || tx.fee > k.amount {
        return false;
      }
      var r := EvalScript(c, script, OrElse(tx.wit, []), SpendContext(c, tx, bc));
      if !r {
        return false;
      }
      SetLocks(locks - {id});
      var payout := k.amount - tx.fee;
      if payout > 0 {
        CreditAccount(tx.to, payout);
      }
      ok := true;
    }

    /** A transaction that fails leaves the state as it was. */
    method ApplyTx(c: Crypto, tx: Tx, bc: BlockContext, created: set<Bytes>) returns (ok: bool, created': set<Bytes>)
      requires Valid()
      modifies Repr()
      ensures Valid() && fresh(Repr() - old(Repr()))
      ensures ok <==> Applied(c, Progress(old(View()), created), tx, bc).Some?
      ensures Progress(View(), created') ==
        if ok then Applied(c, Progress(old(View()), created), tx, bc).value else Progress(old(View()), created)
    {
      hide Redeemed, Locked, Transferred;
      created' := created;
      match tx.kind
      case Transfer =>
        ok := ApplyTransfer(tx);
      case Lock =>
        if !bc.scriptsActive {
          return false, created;
        }
        ok, created' := ApplyLock(c, tx, bc.height, created);
      case Redeem =>
        if !bc.scriptsActive {
          return false, created;
        }
        ok := ApplyRedeem(c, tx, bc, created);
    }

    /** On failure the state is left somewhere in the middle of the block; callers work on a clone. */
    method ApplyBlockTxs(c: Crypto, miner: Bytes, txs: seq<Tx>, bc: BlockContext) returns (ok: bool)
      requires Valid()
      modifies Repr()
      ensures Valid() && fresh(Repr() - old(Repr()))
      ensures ok <==> BlockApplied(c, old(View()), miner, txs, bc).Some?
      ensures ok ==> View() == BlockApplied(c, old(View()), miner, txs, bc).value
    {
      hide Applied;
      var created: set<Bytes> := {};
      var totalFees := 0;
      ghost var start := Progress(View(), {});
      for i := 0 to |txs|
        invariant Valid() && fresh(Repr() - old(Repr()))
        invariant AppliedAll(c, start, txs[..i], bc) == Some(Progress(View(), created))
        invariant totalFees == Fees(txs[..i])
      {
        assert txs[..i + 1][..i] == txs[..i];
        var applied;
        applied, created := ApplyTx(c, txs[i], bc, created);
        if !applied {
          FailureStays(c, start, txs, bc, i + 1);
          return false;
        }
        totalFees := totalFees + txs[i].fee;
      }
      assert txs[..|txs|] == txs;
      CreditAccount(miner, BlockReward(bc.height) + totalFees);
      ok := true;
    }

    method CopyAccounts() returns (copy: map<Bytes, Account>)
      ensures Distinct(copy) && copy.Keys == accounts.Keys
      ensures forall k :: k in copy ==> fresh(copy[k]) && copy[k].balance == accounts[k].balance
                                        && copy[k].nonce == accounts[k].nonce
    {
      hide Distinct;
      copy := map[];
      var rest := accounts.Keys;
      assert Distinct(copy) by { DistinctEmpty(); }
      while rest != {}
        invariant forall k :: k in rest ==> k in accounts && k !in copy
        invariant forall k :: k in accounts ==> k in rest || k in copy
        invariant Distinct(copy)
        invariant forall k :: k in copy ==> k in accounts && fresh(copy[k])
                                            && copy[k].balance == accounts[k].balance
                                            && copy[k].nonce == accounts[k].nonce
        decreases |rest|
      {
        var k :| k in rest;
        var a := new Account(accounts[k].balance, accounts[k].nonce);
        DistinctInsert(copy, k, a);
        copy := copy[k := a];
        rest := rest - {k};
      }
    }

    /** A copy that shares no account object with the original. */
    method Clone() returns (s: State)
      requires Valid()
      ensures s.Valid() && fresh(s.Repr()) && s.View() == old(View())
    {
      var copy := CopyAccounts();
      s := new State.Of(copy, locks);
      assert s.View().accounts == View().accounts;
    }

    method AccountsRoot(c: Crypto) returns (root: Hash32)
      requires Valid()
      ensures root == MerkleRoot(c, AllAccountLeaves(View()))
    {
      hide AccountLeaf, MerkleRoot, Sorted, StrictlySorted;
      ghost var l := View();
      assert l.accounts.Keys == accounts.Keys;
      var keys := Sorted(accounts.Keys);
      var leaves: seq<Bytes> := [];
      for i := 0 to |keys|
        invariant leaves == AccountLeaves(l.accounts, keys[..i])
      {
        assert keys[..i + 1][..i] == keys[..i];
        var a := accounts[keys[i]];
        if !(a.balance == 0 && a.nonce == 0) {
          leaves := leaves + [AccountLeaf(keys[i], Acct(a.balance, a.nonce))];
        }
      }
      assert keys[..|keys|] == keys;
      assert leaves == AllAccountLeaves(l);
      root := MerkleRootLoop(c, leaves);
      assert l == View();
    }

    /** `stateRoot` */
    method ComputeRoot(c: Crypto) returns (root: Hash32)
      requires Valid()
      ensures root == Root(c, View())
    {
      hide MerkleRoot, Sorted, StrictlySorted, AccountLeaves, LockLeaves;
      ghost var l := View();
      var accountsRoot := AccountsRoot(c);
      assert View() == l;
      if |locks| == 0 {
        assert l.locks == map[];
        return accountsRoot;
      }
      assert l.locks != map[];
      var locksRoot := LocksRoot(c);
      assert View() == l;
      root := c.sha256(Concat(accountsRoot, locksRoot));
    }

    method LocksRoot(c: Crypto) returns (root: Hash32)
      ensures root == MerkleRoot(c, LockLeaves(locks, Sorted(locks.Keys)))
    {
      hide LockLeaf, MerkleRoot, Sorted, StrictlySorted;
      var keys := Sorted(locks.Keys);
      var leaves: seq<Bytes> := [];
      for i := 0 to |keys|
        invariant leaves == LockLeaves(locks, keys[..i])
      {
        assert keys[..i + 1][..i] == keys[..i];
        leaves := leaves + [LockLeaf(keys[i], locks[keys[i]])];
      }
      assert keys[..|keys|] == keys;
      root := MerkleRootLoop(c, leaves);
    }
  }

  lemma {:induction false} FailureStays(c: Crypto, p: Progress, txs: seq<Tx>, bc: BlockContext, n: nat)
    requires n <= |txs| && AppliedAll(c, p, txs[..n], bc).None?
    ensures AppliedAll(c, p, txs, bc).None?
    decreases |txs|
  {
    if n == |txs| {
      assert txs[..n] == txs;
    } else {
      hide Applied;
      assert txs[..|txs| - 1][..n] == txs[..n];
      FailureStays(c, p, txs[..|txs| - 1], bc, n);
    }
  }
}
