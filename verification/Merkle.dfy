/** Merkle roots over leaves, an odd node paired with itself (src/util/merkle.ts). */
module Merkle {
  import opened Binary
  import opened Crypto

  // ------------------------------------------------------------------
  // The tree, level by level
  // ------------------------------------------------------------------

  function HashLeaves(c: Crypto, leaves: seq<Bytes>): (layer: seq<Hash32>)
    ensures |layer| == |leaves|
    ensures forall i :: 0 <= i < |leaves| ==> layer[i] == c.sha256(leaves[i])
  {
    if leaves == [] then [] else [c.sha256(leaves[0])] + HashLeaves(c, leaves[1..])
  }

  function Concat(left: Bytes, right: Bytes): Bytes { left + right }

  function NodeMessage(layer: seq<Hash32>, i: nat): Bytes
    requires 2 * i < |layer|
  {
    Concat(layer[2 * i], layer[if 2 * i + 1 < |layer| then 2 * i + 1 else 2 * i])
  }

  function Node(c: Crypto, layer: seq<Hash32>, i: nat): Hash32
    requires 2 * i < |layer|
  {
    c.sha256(NodeMessage(layer, i))
  }

  /** The level above: node `i` hashes children `2i` and `2i + 1`, or `2i` twice when it is the last. */
  function Parents(c: Crypto, layer: seq<Hash32>): (next: seq<Hash32>)
    ensures |next| == (|layer| + 1) / 2
    ensures forall i :: 0 <= i < |next| ==> next[i] == Node(c, layer, i)
  {
    seq<Hash32>((|layer| + 1) / 2, i requires 0 <= i < (|layer| + 1) / 2 => Node(c, layer, i))
  }

  function Top(c: Crypto, layer: seq<Hash32>): Hash32
    requires layer != []
    decreases |layer|
  {
    if |layer| == 1 then layer[0] else Top(c, Parents(c, layer))
  }

  function MerkleRoot(c: Crypto, leaves: seq<Bytes>): Hash32 {
    if leaves == [] then ZERO32 else Top(c, HashLeaves(c, leaves))
  }

  method MerkleRootLoop(c: Crypto, leaves: seq<Bytes>) returns (root: Hash32)
    ensures root == MerkleRoot(c, leaves)
  {
    if |leaves| == 0 {
      return ZERO32;
    }
    if |leaves| == 1 {
      return c.sha256(leaves[0]);
    }
    var layer: seq<Hash32> := [];
    for i := 0 to |leaves|
      invariant |layer| == i
      invariant forall k :: 0 <= k < i ==> layer[k] == c.sha256(leaves[k])
    {
      layer := layer + [c.sha256(leaves[i])];
    }
    assert layer == HashLeaves(c, leaves);
    while |layer| > 1
      invariant layer != []
      invariant MerkleRoot(c, leaves) == Top(c, layer)
      decreases |layer|
    {
      var next: seq<Hash32> := [];
      var i: nat := 0;
      while i < |layer|
        invariant i == 2 * |next| && i <= |layer| + 1
        invariant forall k :: 0 <= k < |next| ==> next[k] == Node(c, layer, k)
      {
        var left := layer[i];
        var right := if i + 1 < |layer| then layer[i + 1] else layer[i];
        assert Concat(left, right) == NodeMessage(layer, |next|);
        next := next + [c.sha256(Concat(left, right))];
        i := i + 2;
      }
      assert next == Parents(c, layer);
      layer := next;
    }
    root := layer[0];
  }

  // ------------------------------------------------------------------
  // What a root commits to
  // ------------------------------------------------------------------

  /** Everything hashed above a level. */
  ghost function NodeMessages(c: Crypto, layer: seq<Hash32>): set<Bytes>
    requires layer != []
    decreases |layer|
  {
    if |layer| == 1 then {} else
      (set i | 0 <= i < |Parents(c, layer)| :: NodeMessage(layer, i)) + NodeMessages(c, Parents(c, layer))
  }

  /** Everything hashed in computing a root. */
  ghost function Messages(c: Crypto, leaves: seq<Bytes>): set<Bytes> {
    if leaves == [] then {} else
      (set i | 0 <= i < |leaves| :: leaves[i]) + NodeMessages(c, HashLeaves(c, leaves))
  }

  /** Without collisions, a root pins down the leaves among lists of the same length. */
  lemma MerkleInjective(c: Crypto, a: seq<Bytes>, b: seq<Bytes>)
    requires |a| == |b| && MerkleRoot(c, a) == MerkleRoot(c, b)
    requires CollisionFree(c, Messages(c, a) + Messages(c, b))
    ensures a == b
  {
    if a != [] {
      var x, y := HashLeaves(c, a), HashLeaves(c, b);
      CollisionFreeSubset(c, NodeMessages(c, x) + NodeMessages(c, y), Messages(c, a) + Messages(c, b));
      TopInjective(c, x, y);
      forall i | 0 <= i < |a| ensures a[i] == b[i] {
        assert c.sha256(a[i]) == x[i] == y[i] == c.sha256(b[i]);
        assert a[i] in Messages(c, a) && b[i] in Messages(c, b);
      }
    }
  }

  lemma CollisionFreeSubset(c: Crypto, small: set<Bytes>, large: set<Bytes>)
    requires CollisionFree(c, large) && small <= large
    ensures CollisionFree(c, small)
  {
  }

  lemma {:induction false} TopInjective(c: Crypto, x: seq<Hash32>, y: seq<Hash32>)
    requires |x| == |y| > 0 && Top(c, x) == Top(c, y)
    requires CollisionFree(c, NodeMessages(c, x) + NodeMessages(c, y))
    ensures x == y
    decreases |x|
  {
    if |x| == 1 {
      assert x == [x[0]] && y == [y[0]];
    } else {
      hide CollisionFree;
      var p, q := Parents(c, x), Parents(c, y);
      CollisionFreeSubset(c, NodeMessages(c, p) + NodeMessages(c, q), NodeMessages(c, x) + NodeMessages(c, y));
      TopInjective(c, p, q);
      LevelInjective(c, x, y);
    }
  }

  lemma LevelInjective(c: Crypto, x: seq<Hash32>, y: seq<Hash32>)
    requires |x| == |y| > 1 && Parents(c, x) == Parents(c, y)
    requires CollisionFree(c, NodeMessages(c, x) + NodeMessages(c, y))
    ensures x == y
  {
    hide NodeMessage, NodeMessages;
    forall k | 0 <= k < |x| ensures x[k] == y[k] {
      var i := k / 2;
      assert Node(c, x, i) == Parents(c, x)[i] == Parents(c, y)[i] == Node(c, y, i);
      ChildrenHashed(c, x, i);
      ChildrenHashed(c, y, i);
      assert NodeMessage(x, i) == NodeMessage(y, i);
      SameChildren(x, y, i);
    }
  }

  lemma ChildrenHashed(c: Crypto, layer: seq<Hash32>, i: nat)
    requires |layer| > 1 && 2 * i < |layer|
    ensures NodeMessage(layer, i) in NodeMessages(c, layer)
  {
    assert i < |Parents(c, layer)|;
  }

  lemma SameChildren(x: seq<Hash32>, y: seq<Hash32>, i: nat)
    requires |x| == |y| && 2 * i < |x| && NodeMessage(x, i) == NodeMessage(y, i)
    ensures x[2 * i] == y[2 * i] && (2 * i + 1 < |x| ==> x[2 * i + 1] == y[2 * i + 1])
  {
    var m, n := NodeMessage(x, i), NodeMessage(y, i);
    assert m[..32] == x[2 * i] && n[..32] == y[2 * i];
    assert 2 * i + 1 < |x| ==> m[32..] == x[2 * i + 1] && n[32..] == y[2 * i + 1];
  }

  /**
   * Lists of different lengths can share a root: repeating the last leaf of an
   * odd list changes nothing, whatever the hash.
   */
  lemma RepeatedTail(c: Crypto, leaves: seq<Bytes>)
    requires |leaves| >= 3 && |leaves| % 2 == 1
    ensures MerkleRoot(c, leaves + [leaves[|leaves| - 1]]) == MerkleRoot(c, leaves)
  {
    var longer := leaves + [leaves[|leaves| - 1]];
    var x, y := HashLeaves(c, leaves), HashLeaves(c, longer);
    assert y == x + [x[|x| - 1]];
    assert Parents(c, x) == Parents(c, y);
  }

  // ------------------------------------------------------------------
  // How roots compose
  // ------------------------------------------------------------------

  /** A node paired with itself, `n` levels up. */
  ghost function Paired(c: Crypto, h: Hash32, n: nat): Hash32
    decreases n
  {
    if n == 0 then h else Paired(c, c.sha256(h + h), n - 1)
  }

  /** Without leaves the root is 32 zero bytes; of a single leaf it is the leaf's hash. */
  lemma SmallRoots(c: Crypto, leaf: Bytes)
    ensures |MerkleRoot(c, [])| == 32 && forall i :: 0 <= i < 32 ==> MerkleRoot(c, [])[i] == 0
    ensures MerkleRoot(c, [leaf]) == c.sha256(leaf)
  {
    ZerosAreZero(32);
    assert HashLeaves(c, [leaf]) == [c.sha256(leaf)];
  }

  lemma {:induction false} ZerosAreZero(n: nat)
    ensures forall i :: 0 <= i < n ==> Zeros(n)[i] == 0
  {
    if n > 0 {
      ZerosAreZero(n - 1);
    }
  }

  /**
   * The root of a full left part of 2^k leaves followed by up to 2^k more is
   * the hash of both roots, the left one first; a right part of fewer levels,
   * 2^(j - 1) < |b| <= 2^j, is first paired with itself up to the left part's height.
   * With `SmallRoots` this determines every root.
   */
  lemma RootsCompose(c: Crypto, a: seq<Bytes>, b: seq<Bytes>, k: nat, j: nat)
    requires j <= k && |a| == Pow(2, k)
    requires 0 < |b| <= Pow(2, j) && (j > 0 ==> |b| > Pow(2, j - 1))
    ensures MerkleRoot(c, a + b) == c.sha256(MerkleRoot(c, a) + Paired(c, MerkleRoot(c, b), k - j))
  {
    hide Parents, Top, Paired;
    var x, y := HashLeaves(c, a), HashLeaves(c, b);
    PowPositive(2, k);
    assert a != [] && a + b != [];
    assert HashLeaves(c, a + b) == x + y;
    TopAbove(c, x + y, k);
    LevelsSplit(c, x, y, k);
    FullLevels(c, x, k);
    FullLevels(c, y, j);
    LevelsAdd(c, y, j, k - j);
    LevelsOfOne(c, Top(c, y), k - j);
    var left, right := Top(c, x), Paired(c, Top(c, y), k - j);
    assert Levels(c, x + y, k) == [left, right];
    TopOfTwo(c, left, right);
  }

  /** A layer `k` levels up. */
  ghost function Levels(c: Crypto, layer: seq<Hash32>, k: nat): (r: seq<Hash32>)
    ensures layer != [] ==> r != []
    decreases k
  {
    if k == 0 then layer else Levels(c, Parents(c, layer), k - 1)
  }

  lemma {:induction false} LevelsAdd(c: Crypto, layer: seq<Hash32>, j: nat, n: nat)
    ensures Levels(c, layer, j + n) == Levels(c, Levels(c, layer, j), n)
    decreases j
  {
    hide Parents;
    if j > 0 {
      LevelsAdd(c, Parents(c, layer), j - 1, n);
    }
  }

  lemma ParentsSplit(c: Crypto, x: seq<Hash32>, y: seq<Hash32>)
    requires |x| % 2 == 0
    ensures Parents(c, x + y) == Parents(c, x) + Parents(c, y)
  {
    var z, p, q := x + y, Parents(c, x), Parents(c, y);
    assert |p| == |x| / 2 && |Parents(c, z)| == |p| + |q|;
    forall i | 0 <= i < |p| + |q| ensures Node(c, z, i) == (p + q)[i] {
      if i < |p| {
        assert NodeMessage(z, i) == NodeMessage(x, i);
      } else {
        assert z[2 * i] == y[2 * (i - |p|)];
        assert NodeMessage(z, i) == NodeMessage(y, i - |p|);
      }
    }
  }

  lemma {:induction false} LevelsSplit(c: Crypto, x: seq<Hash32>, y: seq<Hash32>, k: nat)
    requires |x| == Pow(2, k)
    ensures Levels(c, x + y, k) == Levels(c, x, k) + Levels(c, y, k)
    decreases k
  {
    hide Parents;
    if k > 0 {
      ParentsSplit(c, x, y);
      LevelsSplit(c, Parents(c, x), Parents(c, y), k - 1);
    }
  }

  /** A layer of more than 2^(j - 1) and at most 2^j nodes has its top `j` levels up. */
  lemma {:induction false} FullLevels(c: Crypto, y: seq<Hash32>, j: nat)
    requires 0 < |y| <= Pow(2, j) && (j > 0 ==> |y| > Pow(2, j - 1))
    ensures Levels(c, y, j) == [Top(c, y)]
    decreases j
  {
    hide Parents;
    if j == 0 {
      assert y == [y[0]];
    } else {
      PowPositive(2, j - 1);
      FullLevels(c, Parents(c, y), j - 1);
    }
  }

  lemma {:induction false} TopAbove(c: Crypto, z: seq<Hash32>, k: nat)
    requires |z| > Pow(2, k)
    ensures Levels(c, z, k) != [] && Top(c, z) == Top(c, Levels(c, z, k))
    decreases k
  {
    hide Parents;
    PowPositive(2, k);
    if k > 0 {
      TopAbove(c, Parents(c, z), k - 1);
    }
  }

  lemma {:induction false} LevelsOfOne(c: Crypto, h: Hash32, n: nat)
    ensures Levels(c, [h], n) == [Paired(c, h, n)]
    decreases n
  {
    if n > 0 {
      assert NodeMessage([h], 0) == h + h;
      assert Parents(c, [h]) == [c.sha256(h + h)];
      LevelsOfOne(c, c.sha256(h + h), n - 1);
    }
  }

  lemma TopOfTwo(c: Crypto, left: Hash32, right: Hash32)
    ensures Top(c, [left, right]) == c.sha256(left + right)
  {
    assert NodeMessage([left, right], 0) == left + right;
    assert Parents(c, [left, right]) == [c.sha256(left + right)];
  }
}
