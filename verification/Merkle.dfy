/**
 Sorted-pair Merkle trees (go/merkle/merkle.go). Keccak-256 is a parameter `h` everywhere, so every
 statement holds for every hash function; nothing assumes that `h` is injective.
 */
module Merkle {
  import opened Bytes
  import opened PairTree

  /** A 32-byte digest. */
  datatype Digest = Digest(bytes: seq<Byte>)
  type Hash = d: Digest | |d.bytes| == 32 witness Digest(seq(32, _ => 0))
  type Hasher = seq<Byte> -> Hash

  // ----- The two-child hash -----

  /** The 64 bytes that are hashed for a pair of children: the smaller child first. */
  function PairInput(a: Hash, b: Hash): (x: seq<Byte>)
    ensures |x| == 64
  {
    if Greater(a.bytes, b.bytes) then b.bytes + a.bytes else a.bytes + b.bytes
  }

  function HashPair(h: Hasher, a: Hash, b: Hash): Hash {
    h(PairInput(a, b))
  }

  /** `HashPair` as the combination of a `PairTree`. */
  function Pairing(h: Hasher): Combine<Hash> {
    (a: Hash, b: Hash) => HashPair(h, a, b)
  }

  lemma PairInputCommutes(a: Hash, b: Hash)
    ensures PairInput(a, b) == PairInput(b, a)
  {
    GreaterIsTotal(a.bytes, b.bytes);
  }

  /** Sorting the children makes the hash independent of their order. */
  lemma HashPairCommutes(h: Hasher)
    ensures Commutes(Pairing(h))
  {
    forall a: Hash, b: Hash ensures Pairing(h)(a, b) == Pairing(h)(b, a) {
      PairInputCommutes(a, b);
    }
  }

  /** The hashed bytes are the two children, and the first half does not exceed the second: the smaller child comes first. */
  lemma SmallerChildFirst(a: Hash, b: Hash)
    ensures var x := PairInput(a, b);
            && !Greater(x[..32], x[32..])
            && ((x[..32] == a.bytes && x[32..] == b.bytes) || (x[..32] == b.bytes && x[32..] == a.bytes))
  {
    GreaterIsTotal(a.bytes, b.bytes);
    var x := PairInput(a, b);
    assert x[..32] == if Greater(a.bytes, b.bytes) then b.bytes else a.bytes;
    assert x[32..] == if Greater(a.bytes, b.bytes) then a.bytes else b.bytes;
  }

  /** The root of two leaves, the second larger from its first differing byte on, hashes the first before the second. */
  lemma RootOfTwo(h: Hasher, a: Hash, b: Hash, n: nat)
    requires n < 32 && a.bytes[..n] == b.bytes[..n] && a.bytes[n] < b.bytes[n]
    ensures MerkleRoot(h, [a, b]) == MerkleRoot(h, [b, a]) == h(a.bytes + b.bytes)
  {
    FirstDifferenceDecides(a.bytes, b.bytes, n);
    FirstDifferenceDecides(b.bytes, a.bytes, n);
    RootOfPair(h, a, b);
    RootOfPair(h, b, a);
  }

  lemma RootOfPair(h: Hasher, a: Hash, b: Hash)
    ensures MerkleRoot(h, [a, b]) == HashPair(h, a, b)
  {
    var next := NextLevel(Pairing(h), [a, b]);
    NextLevelAt(Pairing(h), [a, b], 0);
    assert Root(Pairing(h), next) == next[0];
  }

  /** The hashed bytes determine the unordered pair of children. */
  lemma PairInputDetermines(a: Hash, b: Hash, c: Hash, d: Hash)
    requires PairInput(a, b) == PairInput(c, d)
    ensures (a == c && b == d) || (a == d && b == c)
  {
    var x, y := PairInput(a, b), PairInput(c, d);
    assert x[..32] == if Greater(a.bytes, b.bytes) then b.bytes else a.bytes;
    assert x[32..] == if Greater(a.bytes, b.bytes) then a.bytes else b.bytes;
    assert y[..32] == if Greater(c.bytes, d.bytes) then d.bytes else c.bytes;
    assert y[32..] == if Greater(c.bytes, d.bytes) then c.bytes else d.bytes;
  }

  // ----- What roots and proofs mean -----

  function MerkleRoot(h: Hasher, leaves: seq<Hash>): Hash
    requires leaves != []
  {
    Root(Pairing(h), leaves)
  }

  /** The verifier accepts: the leaf hashed with each proof element in turn gives the root. */
  predicate Accepts(h: Hasher, proof: seq<Hash>, root: Hash, leaf: Hash) {
    Climb(Pairing(h), leaf, proof) == root
  }

  predicate IsCollision(h: Hasher, x: seq<Byte>, y: seq<Byte>) {
    x != y && h(x) == h(y)
  }

  /**
   What an accepted proof shows: `Found` names the tree node at which the climb starts (for a proof no longer
   than the tree is deep) or through which it passes (for a longer one).
   */
  datatype Finding = Found(index: nat) | Collides(x: seq<Byte>, y: seq<Byte>)

  /**
   Soundness for proofs of every length, by extraction. An accepted proof of length `j` up to the depth `d`
   starts at a node of level `d - j`, so at a member when `j == d`; a longer one passes through a member after
   `j - d` steps; or else two different 64-byte inputs with one hash come out of the proof and the leaves.
   */
  lemma AcceptedProofIsSound(h: Hasher, leaves: seq<Hash>, leaf: Hash, proof: seq<Hash>) returns (f: Finding)
    requires leaves != [] && Accepts(h, proof, MerkleRoot(h, leaves), leaf)
    ensures f.Collides? ==> IsCollision(h, f.x, f.y) && |f.x| == |f.y| == 64
    ensures f.Found? && |proof| <= Depth(|leaves|) ==>
              var level := Level(Pairing(h), leaves, Depth(|leaves|) - |proof|);
              f.index < |level| && level[f.index] == leaf
    ensures f.Found? && |proof| >= Depth(|leaves|) ==>
              f.index < |leaves|
              && leaves[f.index] == Climb(Pairing(h), leaf, proof[..|proof| - Depth(|leaves|)])
  {
    var e := PathFromRoot(Pairing(h), leaves, leaf, proof);
    if e.Node? {
      f := Found(e.index);
    } else {
      f := ClashCollides(h, e);
    }
  }

  lemma ClashCollides(h: Hasher, e: Evidence<Hash>) returns (f: Finding)
    requires IsClash(Pairing(h), e)
    ensures f.Collides? && IsCollision(h, f.x, f.y) && |f.x| == |f.y| == 64
  {
    f := Collides(PairInput(e.a, e.b), PairInput(e.a', e.b'));
    if f.x == f.y {
      PairInputDetermines(e.a, e.b, e.a', e.b');
      assert false;
    }
  }

  // ----- The program's loops -----

  /** The inner loop of `BuildMerkleTree`. */
  method HashLevel(h: Hasher, tree: seq<Hash>) returns (next: seq<Hash>)
    ensures next == NextLevel(Pairing(h), tree)
  {
    next := [];
    var i := 0;
    while i < |tree|
      invariant i == 2 * |next| <= |tree| + 1
      invariant forall n :: 0 <= n < |next| ==> next[n] == NextLevel(Pairing(h), tree)[n]
    {
      NextLevelAt(Pairing(h), tree, |next|);
      if i + 1 < |tree| {
        next := next + [HashPair(h, tree[i], tree[i + 1])];
      } else {
        next := next + [HashPair(h, tree[i], tree[i])];
      }
      i := i + 2;
    }
  }

  method BuildMerkleTree(h: Hasher, leaves: seq<Hash>) returns (root: Hash)
    requires leaves != []
    ensures root == MerkleRoot(h, leaves)
  {
    var tree := leaves;
    while |tree| > 1
      invariant tree != [] && Root(Pairing(h), tree) == Root(Pairing(h), leaves)
      decreases |tree|
    {
      tree := HashLevel(h, tree);
    }
    root := tree[0];
  }

  /** The inner loop of `GetProof`: builds the next level and appends the sibling of node `curIdx`. */
  method PairUp(h: Hasher, tree: seq<Hash>, curIdx: nat, before: seq<Hash>)
    returns (next: seq<Hash>, proof: seq<Hash>)
    requires curIdx < |tree|
    ensures next == NextLevel(Pairing(h), tree)
    ensures proof == before + [Sibling(tree, curIdx)]
  {
    next := [];
    proof := before;
    var i := 0;
    while i < |tree|
      invariant i == 2 * |next| <= |tree| + 1
      invariant forall n :: 0 <= n < |next| ==> next[n] == NextLevel(Pairing(h), tree)[n]
      invariant proof == if curIdx < i then before + [Sibling(tree, curIdx)] else before
    {
      var left := tree[i];
      var right := if i + 1 < |tree| then tree[i + 1] else tree[i];
      NextLevelAt(Pairing(h), tree, |next|);
      next := next + [HashPair(h, left, right)];
      if curIdx == i {
        proof := proof + [right];
      } else if curIdx == i + 1 {
        proof := proof + [left];
      }
      i := i + 2;
    }
  }

  /** The scan at the head of `GetProof`; the length stands for the program's -1. */
  method FindLeaf(leaves: seq<Hash>, targetLeaf: Hash) returns (idx: nat)
    ensures idx <= |leaves| && targetLeaf !in leaves[..idx]
    ensures idx < |leaves| ==> leaves[idx] == targetLeaf
  {
    idx := 0;
    while idx < |leaves| && leaves[idx] != targetLeaf
      invariant 0 <= idx <= |leaves| && targetLeaf !in leaves[..idx]
    {
      idx := idx + 1;
    }
  }

  /** The loop of `GetProof` over levels, from leaf `idx`. */
  method ProofFrom(h: Hasher, leaves: seq<Hash>, idx: nat) returns (proof: seq<Hash>)
    requires idx < |leaves|
    ensures proof == Siblings(Pairing(h), leaves, idx, Depth(|leaves|))
  {
    var tree := leaves;
    var curIdx := idx;
    ghost var k := 0;
    proof := [];
    while |tree| > 1
      invariant tree == Level(Pairing(h), leaves, k) && curIdx == Ancestor(idx, k) && curIdx < |tree|
      invariant proof == Siblings(Pairing(h), leaves, idx, k)
      invariant k + Depth(|tree|) == Depth(|leaves|)
      decreases |tree|
    {
      var next;
      next, proof := PairUp(h, tree, curIdx, proof);
      curIdx := curIdx / 2;
      tree := next;
      k := k + 1;
    }
  }

  /** The proof of a member is accepted and as long as the tree is deep; only members have one. */
  method GetProof(h: Hasher, leaves: seq<Hash>, targetLeaf: Hash) returns (proof: seq<Hash>, ok: bool)
    ensures ok <==> targetLeaf in leaves
    ensures !ok ==> proof == []
    ensures ok ==> |proof| == Depth(|leaves|) && Accepts(h, proof, MerkleRoot(h, leaves), targetLeaf)
  {
    var idx := FindLeaf(leaves, targetLeaf);
    if idx == |leaves| {
      assert leaves[..idx] == leaves;
      return [], false;
    }
    proof := ProofFrom(h, leaves, idx);
    ok := true;
    HashPairCommutes(h);
    SiblingsLeadToRoot(Pairing(h), leaves, idx);
  }

  method VerifyMerkleProof(h: Hasher, proof: seq<Hash>, root: Hash, leaf: Hash) returns (valid: bool)
    ensures valid <==> Accepts(h, proof, root, leaf)
  {
    var current := leaf;
    for n := 0 to |proof|
      invariant current == Climb(Pairing(h), leaf, proof[..n])
    {
      assert proof[..n + 1] == proof[..n] + [proof[n]];
      ClimbOneMore(Pairing(h), leaf, proof[..n], proof[n]);
      current := HashPair(h, current, proof[n]);
    }
    assert proof[..|proof|] == proof;
    valid := current == root;
  }
}
