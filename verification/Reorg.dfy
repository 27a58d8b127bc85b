/**
 * Moving the canonical chain from one tip to another, and the block a snapshot
 * is taken at (src/chain/blockchain.ts 399-433 and 499-514).
 */
module Reorg {
  import opened Binary
  import opened Crypto
  import opened Genesis
  import opened Transaction
  import opened Tree

  // ------------------------------------------------------------------
  // Paths
  // ------------------------------------------------------------------

  function CommonLen<T(==)>(p: seq<T>, q: seq<T>): (k: nat)
    ensures k <= |p| && k <= |q| && p[..k] == q[..k]
    ensures k < |p| && k < |q| ==> p[k] != q[k]
  {
    if p != [] && q != [] && p[0] == q[0] then
      var k := CommonLen(p[1..], q[1..]);
      CommonStep(p, q, k);
      k + 1
    else 0
  }

  lemma CommonStep<T>(p: seq<T>, q: seq<T>, k: nat)
    requires p != [] && q != [] && p[0] == q[0] && k < |p| && k < |q| && p[1..][..k] == q[1..][..k]
    ensures p[..k + 1] == q[..k + 1]
  {
    assert p[..k + 1] == [p[0]] + p[1..][..k];
    assert q[..k + 1] == [q[0]] + q[1..][..k];
  }

  function Reverse<T>(s: seq<T>): (r: seq<T>)
    ensures |r| == |s|
    ensures forall i :: 0 <= i < |s| ==> r[i] == s[|s| - 1 - i]
  {
    if s == [] then [] else [s[|s| - 1]] + Reverse(s[..|s| - 1])
  }

  lemma ReverseTwice<T>(s: seq<T>)
    ensures Reverse(Reverse(s)) == s
  {
  }

  /** The place of a block on a path is its height, and what leads to it is its own path. */
  lemma {:induction false} PathAt(c: Crypto, t: Tree, x: Hash32, i: nat)
    requires Shape(c, t) && x in t.blocks && i < |Path(c, t, x)|
    ensures var h := Path(c, t, x)[i];
            h in t.blocks && HeaderAt(t, h).height == i && Path(c, t, h) == Path(c, t, x)[..i + 1]
    decreases HeaderAt(t, x).height
  {
    hide Shape, GenesisHash;
    ParentOf(c, t, x);
    var p := Path(c, t, x);
    if i == |p| - 1 {
      assert p[..i + 1] == p;
    } else {
      PathAt(c, t, HeaderAt(t, x).prevHash, i);
      assert p[..i + 1] == Path(c, t, HeaderAt(t, x).prevHash)[..i + 1];
    }
  }

  /** All paths start at genesis, so any two share at least that. */
  lemma PathsShareGenesis(c: Crypto, t: Tree, x: Hash32, y: Hash32)
    requires Shape(c, t) && x in t.blocks && y in t.blocks
    ensures Path(c, t, x)[0] == GenesisHash(c)
    ensures CommonLen(Path(c, t, x), Path(c, t, y)) >= 1
  {
    hide Shape, GenesisHash;
    PathAt(c, t, x, 0);
    PathAt(c, t, y, 0);
    ParentOf(c, t, Path(c, t, x)[0]);
    ParentOf(c, t, Path(c, t, y)[0]);
  }

  // ------------------------------------------------------------------
  // Deltas
  // ------------------------------------------------------------------

  /** The blocks that leave and join the canonical chain, each from its tip down. */
  datatype Delta = Delta(disconnected: seq<Hash32>, connected: seq<Hash32>)

  ghost function ExactDelta(c: Crypto, t: Tree, oldTip: Hash32, newTip: Hash32): Delta
    requires Shape(c, t) && oldTip in t.blocks && newTip in t.blocks
  {
    var p, q := Path(c, t, oldTip), Path(c, t, newTip);
    var k := CommonLen(p, q);
    Delta(Reverse(p[k..]), Reverse(q[k..]))
  }

  /** Applies a delta to a list of canonical hashes. */
  function Fold(canonical: seq<Hash32>, d: Delta): seq<Hash32>
    requires |d.disconnected| <= |canonical|
  {
    canonical[..|canonical| - |d.disconnected|] + Reverse(d.connected)
  }

  /**
   * The delta is exact: folding it into the old canonical chain gives the new
   * one, what leaves is not on the new chain, and what joins was not on the old.
   */
  lemma DeltaExact(c: Crypto, t: Tree, oldTip: Hash32, newTip: Hash32)
    requires Shape(c, t) && oldTip in t.blocks && newTip in t.blocks
    ensures var d := ExactDelta(c, t, oldTip, newTip);
            && |d.disconnected| <= |Path(c, t, oldTip)|
            && Path(c, t, oldTip)[|Path(c, t, oldTip)| - |d.disconnected|..] == Reverse(d.disconnected)
            && Fold(Path(c, t, oldTip), d) == Path(c, t, newTip)
            && (forall h :: h in d.disconnected ==> h !in Path(c, t, newTip))
            && (forall h :: h in d.connected ==> h !in Path(c, t, oldTip))
  {
    hide Shape, Path;
    var p, q := Path(c, t, oldTip), Path(c, t, newTip);
    var k := CommonLen(p, q);
    ReverseTwice(p[k..]);
    ReverseTwice(q[k..]);
    assert q == q[..k] + q[k..];
    AboveForkDisjoint(c, t, oldTip, newTip);
    AboveForkDisjoint(c, t, newTip, oldTip);
    CommonSymmetric(p, q);
    ReverseMembers(p[k..]);
    ReverseMembers(q[k..]);
  }

  lemma ReverseMembers<T>(s: seq<T>)
    ensures forall x :: x in Reverse(s) <==> x in s
  {
    var r := Reverse(s);
    forall x | x in s ensures x in r {
      var i :| 0 <= i < |s| && s[i] == x;
      assert r[|s| - 1 - i] == x;
    }
  }

  lemma {:induction false} CommonSymmetric<T>(p: seq<T>, q: seq<T>)
    ensures CommonLen(p, q) == CommonLen(q, p)
  {
    if p != [] && q != [] && p[0] == q[0] {
      CommonSymmetric(p[1..], q[1..]);
    }
  }

  lemma MeetAtSameHeight(c: Crypto, t: Tree, x: Hash32, y: Hash32, i: nat, j: nat)
    requires Shape(c, t) && x in t.blocks && y in t.blocks
    requires i < |Path(c, t, x)| && j < |Path(c, t, y)| && Path(c, t, x)[i] == Path(c, t, y)[j]
    ensures i == j && Path(c, t, x)[..i + 1] == Path(c, t, y)[..i + 1]
  {
    hide Shape, Path;
    PathAt(c, t, x, i);
    PathAt(c, t, y, j);
  }

  lemma {:induction false} SharedPrefix<T>(p: seq<T>, q: seq<T>, i: nat)
    requires i < |p| && i < |q| && p[..i + 1] == q[..i + 1]
    ensures i < CommonLen(p, q)
  {
    assert p[0] == p[..i + 1][0] == q[..i + 1][0] == q[0];
    if i > 0 {
      assert p[1..][..i] == p[..i + 1][1..] && q[1..][..i] == q[..i + 1][1..];
      SharedPrefix(p[1..], q[1..], i - 1);
    }
  }

  /** Branches never meet again above their fork. */
  lemma AboveForkDisjoint(c: Crypto, t: Tree, x: Hash32, y: Hash32)
    requires Shape(c, t) && x in t.blocks && y in t.blocks
    ensures var p, q := Path(c, t, x), Path(c, t, y);
            forall h :: h in p[CommonLen(p, q)..] ==> h !in q
  {
    hide Shape, Path;
    var p, q := Path(c, t, x), Path(c, t, y);
    var k := CommonLen(p, q);
    forall i | 0 <= i < |p| ensures p[i] in q ==> i < k {
      if p[i] in q {
        var j :| 0 <= j < |q| && q[j] == p[i];
        MeetAtSameHeight(c, t, x, y, i, j);
        SharedPrefix(p, q, i);
      }
    }
    forall h | h in p[k..] ensures h !in q {
      var i :| 0 <= i < |p[k..]| && p[k..][i] == h;
      assert p[k..][i] == p[k + i];
    }
  }

  function TxsOf(t: Tree, hashes: seq<Hash32>): seq<Tx>
    requires forall h :: h in hashes ==> h in t.blocks
  {
    if hashes == [] then []
    else TxsOf(t, hashes[..|hashes| - 1]) + t.blocks[hashes[|hashes| - 1]].block.transactions
  }

  // ------------------------------------------------------------------
  // Snapshots
  // ------------------------------------------------------------------

  const STATE_RETAIN_MARGIN := 200
  const STATE_RETAIN := SNAPSHOT_DEPTH + STATE_RETAIN_MARGIN

  function TipHeight(t: Tree): nat
    requires t.tip in t.blocks
  {
    HeaderAt(t, t.tip).height
  }

  /** The canonical block at a positive height whose state is kept (`snapshotAt`). */
  ghost function SnapshotHash(c: Crypto, t: Tree, height: int): Option<Hash32>
    requires Shape(c, t)
  {
    var p := Path(c, t, t.tip);
    if height <= 0 || height >= |p| then None
    else
      PathAt(c, t, t.tip, height);
      if t.blocks[p[height]].state.Some? then Some(p[height]) else None
  }
}
