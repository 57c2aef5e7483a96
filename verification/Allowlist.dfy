/**
 Who may mint from the allowlist (solidity/contracts/MerkleNFTAllowlist.sol), against a root built by
 `Merkle.BuildMerkleTree`.
 */
module Allowlist {
  import opened Bytes
  import opened PairTree
  import opened Merkle

  /** A 20-byte account address. */
  datatype Account = Account(bytes: seq<Byte>)
  type Address = a: Account | |a.bytes| == 20 witness Account(seq(20, _ => 0))

  const MAX_PER_WL: nat := 2

  /** The packed encoding of an address and the uint256 limit: 52 bytes. */
  function LeafInput(a: Address): (x: seq<Byte>)
    ensures |x| == 52
  {
    a.bytes + seq<Byte>(31, _ => 0) + [MAX_PER_WL]
  }

  /** The value of bytes read as one big-endian number. */
  function BigEndian(bytes: seq<Byte>): nat {
    if bytes == [] then 0 else 256 * BigEndian(bytes[..|bytes| - 1]) + bytes[|bytes| - 1]
  }

  lemma {:induction false} LeadingZeros(bytes: seq<Byte>)
    requires forall i :: 0 <= i < |bytes| ==> bytes[i] == 0
    ensures BigEndian(bytes) == 0
  {
    if bytes != [] { LeadingZeros(bytes[..|bytes| - 1]); }
  }

  /** The packed leaf: first the address, then the limit as a big-endian 32-byte word. */
  lemma LeafLayout(a: Address)
    ensures var x := LeafInput(a);
            |x| == 20 + 32 && x[..20] == a.bytes && BigEndian(x[20..]) == 2
  {
    var x := LeafInput(a);
    var zeros := seq<Byte>(31, _ => 0);
    assert x[20..] == zeros + [2];
    assert (zeros + [2])[..31] == zeros;
    LeadingZeros(zeros);
  }

  function Leaf(h: Hasher, a: Address): Hash {
    h(LeafInput(a))
  }

  function Leaves(h: Hasher, listed: seq<Address>): (leaves: seq<Hash>)
    ensures |leaves| == |listed|
    ensures forall i :: 0 <= i < |listed| ==> leaves[i] == Leaf(h, listed[i])
  {
    seq(|listed|, i requires 0 <= i < |listed| => Leaf(h, listed[i]))
  }

  datatype Verdict = Listed | Forged(x: seq<Byte>, y: seq<Byte>)

  /**
   A proof of any length that the contract accepts for an address shows that the address is listed, or yields
   two different inputs with one hash. Leaves hash 52 bytes and inner nodes 64, so no inner node passes as a leaf.
   */
  lemma AcceptedSenderIsListed(h: Hasher, listed: seq<Address>, sender: Address, proof: seq<Hash>) returns (v: Verdict)
    requires listed != []
    requires Accepts(h, proof, MerkleRoot(h, Leaves(h, listed)), Leaf(h, sender))
    ensures v.Listed? ==> sender in listed
    ensures v.Forged? ==> IsCollision(h, v.x, v.y)
  {
    var leaves := Leaves(h, listed);
    var d := Depth(|leaves|);
    var f := AcceptedProofIsSound(h, leaves, Leaf(h, sender), proof);
    if f.Collides? {
      v := Forged(f.x, f.y);
    } else if |proof| == d {
      assert Level(Pairing(h), leaves, 0) == leaves;
      v := SameLeaf(h, sender, listed[f.index]);
    } else if |proof| < d {
      var x := NodeInput(h, leaves, d - |proof|, f.index);
      v := Forged(x, LeafInput(sender));
    } else {
      var path := proof[..|proof| - d];
      var current := Climb(Pairing(h), Leaf(h, sender), path[..|path| - 1]);
      v := Forged(PairInput(current, path[|path| - 1]), LeafInput(listed[f.index]));
    }
  }

  lemma SameLeaf(h: Hasher, sender: Address, other: Address) returns (v: Verdict)
    requires Leaf(h, sender) == Leaf(h, other)
    ensures v.Listed? ==> sender == other
    ensures v.Forged? ==> IsCollision(h, v.x, v.y)
  {
    if LeafInput(sender) == LeafInput(other) {
      assert LeafInput(sender)[..20] == sender.bytes && LeafInput(other)[..20] == other.bytes;
      v := Listed;
    } else {
      v := Forged(LeafInput(sender), LeafInput(other));
    }
  }

  /** A node above the leaves is the hash of 64 bytes. */
  lemma NodeInput(h: Hasher, leaves: seq<Hash>, k: nat, i: nat) returns (x: seq<Byte>)
    requires k > 0 && leaves != [] && i < |Level(Pairing(h), leaves, k)|
    ensures |x| == 64 && h(x) == Level(Pairing(h), leaves, k)[i]
  {
    var below := Level(Pairing(h), leaves, k - 1);
    NextLevelAt(Pairing(h), below, i);
    x := PairInput(below[2 * i], RightOf(below, i));
  }

  /** Every listed address has a proof the contract accepts, as long as the tree is deep. */
  lemma ListedSenderHasProof(h: Hasher, listed: seq<Address>, sender: Address) returns (proof: seq<Hash>)
    requires sender in listed
    ensures |proof| == Depth(|listed|)
    ensures Accepts(h, proof, MerkleRoot(h, Leaves(h, listed)), Leaf(h, sender))
  {
    var i :| 0 <= i < |listed| && listed[i] == sender;
    proof := Siblings(Pairing(h), Leaves(h, listed), i, Depth(|listed|));
    HashPairCommutes(h);
    SiblingsLeadToRoot(Pairing(h), Leaves(h, listed), i);
  }
}
