/** What each call of the allowlist NFT requires and does, in the fields of its storage, and who may change what. */
module MintRules {
  import opened Sums
  import opened Merkle
  import opened Allowlist
  import opened MintLedger

  /** Only while it is open, for a positive quantity within all limits, at the exact price, with an accepted proof. */
  lemma WlMintRule(h: Hasher, s: Storage, c: Call)
    requires Steady(s) && c.WlMint?
    ensures var r := Execute(h, s, c);
            && (r.Done? <==>
                  && s.wlMintActive && 1 <= c.quantity
                  && s.totalSupply + c.quantity <= 1000
                  && c.value == 1_000_000_000_000_000 * c.quantity
                  && Get(s.wlMintedCount, c.sender) + c.quantity <= 2
                  && Accepts(h, c.proof, s.merkleRoot, Leaf(h, c.sender))
                  && forall j :: 0 <= j < c.quantity ==> j !in c.receiver.refuses)
            && (r.Done? ==>
                  && (forall a: Address :: Get(r.s.wlMintedCount, a) == Get(s.wlMintedCount, a) + if a == c.sender then c.quantity else 0)
                  && r.s.publicMintedCount == s.publicMintedCount
                  && r.s.totalSupply == s.totalSupply + c.quantity
                  && (forall a: Address :: MintedTo(r.s.minted, a) == MintedTo(s.minted, a) + if a == c.sender then c.quantity else 0))
  {
    WlMintSettles(h, s, c);
    var r := Execute(h, s, c);
    if r.Done? { MintGoesToSender(s, StartWlMint(s, c.sender, c.quantity, c.value), r.s, c.sender, c.quantity); }
  }

  lemma PublicMintRule(h: Hasher, s: Storage, c: Call)
    requires Steady(s) && c.PublicMint?
    ensures var r := Execute(h, s, c);
            && (r.Done? <==>
                  && s.publicMintActive && 1 <= c.quantity
                  && s.totalSupply + c.quantity <= 1000
                  && c.value == 2_000_000_000_000_000 * c.quantity
                  && Get(s.publicMintedCount, c.sender) + c.quantity <= 5
                  && forall j :: 0 <= j < c.quantity ==> j !in c.receiver.refuses)
            && (r.Done? ==>
                  && (forall a: Address :: Get(r.s.publicMintedCount, a) == Get(s.publicMintedCount, a) + if a == c.sender then c.quantity else 0)
                  && r.s.wlMintedCount == s.wlMintedCount
                  && r.s.totalSupply == s.totalSupply + c.quantity
                  && (forall a: Address :: MintedTo(r.s.minted, a) == MintedTo(s.minted, a) + if a == c.sender then c.quantity else 0))
  {
    PublicMintSettles(h, s, c);
    var r := Execute(h, s, c);
    if r.Done? { MintGoesToSender(s, StartPublicMint(s, c.sender, c.quantity, c.value), r.s, c.sender, c.quantity); }
  }

  /** What the counts gained over a mint, the sender gained in tokens. */
  lemma MintGoesToSender(s: Storage, u: Storage, t: Storage, sender: Address, quantity: nat)
    requires Steady(s) && Settled(u, t)
    requires || (u.wlMintedCount == Raised(s.wlMintedCount, sender, quantity) && u.publicMintedCount == s.publicMintedCount)
             || (u.publicMintedCount == Raised(s.publicMintedCount, sender, quantity) && u.wlMintedCount == s.wlMintedCount)
    ensures forall a: Address :: MintedTo(t.minted, a) == MintedTo(s.minted, a) + if a == sender then quantity else 0
  {
    forall a: Address ensures MintedTo(t.minted, a) == MintedTo(s.minted, a) + if a == sender then quantity else 0 {
      assert MintedTo(s.minted, a) + Get(map[], a) == Get(s.wlMintedCount, a) + Get(s.publicMintedCount, a);
      assert MintedTo(t.minted, a) + Get(map[], a) == Get(t.wlMintedCount, a) + Get(t.publicMintedCount, a);
    }
  }

  /** A receiver that makes no calls owns the tokens of the mint when it ends, and no other token has changed hands. */
  lemma {:induction false} MintedTokensAreOwned(h: Hasher, s: Storage, to: Address, quantity: nat, receiver: Receiver, i: nat)
    requires i <= quantity && receiver.callbacks == []
    ensures var r := MintLoop(h, s, to, quantity, receiver, i);
            r.Done? ==>
              && (forall id :: s.totalSupply - quantity + i < id <= s.totalSupply ==> id in r.s.ownerOf && r.s.ownerOf[id] == to)
              && (forall id :: id in s.ownerOf ==> id in r.s.ownerOf && r.s.ownerOf[id] == s.ownerOf[id])
    decreases quantity - i
  {
    if i < quantity && MintLoop(h, s, to, quantity, receiver, i).Done? {
      MintedTokensAreOwned(h, WithToken(s, s.totalSupply - quantity + i + 1, to), to, quantity, receiver, i + 1);
    }
  }

  /** Moving a token changes its owner and nothing else. */
  lemma TransferTokenRule(h: Hasher, s: Storage, id: nat, to: Address)
    ensures var r := Execute(h, s, TransferToken(id, to));
            && (r.Done? <==> id in s.ownerOf)
            && (r.Done? ==>
                  && r.s == s.(ownerOf := r.s.ownerOf) && r.s.ownerOf.Keys == s.ownerOf.Keys
                  && forall k :: k in s.ownerOf ==> r.s.ownerOf[k] == if k == id then to else s.ownerOf[k])
  {
  }

  /** The owner's calls: exactly the owner makes them, and each changes its own field. */
  lemma OwnerRules(h: Hasher, s: Storage, c: Call)
    requires c.SetMerkleRoot? || c.ToggleWlMint? || c.TogglePublicMint? || c.Withdraw? || c.TransferOwnership? || c.RenounceOwnership?
    ensures var r := Execute(h, s, c);
            && (r.Done? <==> c.sender == s.owner && (c.TransferOwnership? ==> c.newOwner != Nobody()))
            && (r.Done? && c.SetMerkleRoot? ==> r.s == s.(merkleRoot := c.root))
            && (r.Done? && c.ToggleWlMint? ==> r.s == s.(wlMintActive := !s.wlMintActive))
            && (r.Done? && c.TogglePublicMint? ==> r.s == s.(publicMintActive := !s.publicMintActive))
            && (r.Done? && c.Withdraw? ==> r.s == s.(balance := 0, withdrawn := s.withdrawn + s.balance))
            && (r.Done? && c.TransferOwnership? ==> r.s == s.(owner := c.newOwner))
            && (r.Done? && c.RenounceOwnership? ==> r.s == s.(owner := Nobody()))
  {
  }

  /** Neither the calls nor any call that a receiver makes during them is the account's. */
  predicate Absent(calls: seq<Call>, a: Address)
    decreases calls, 0
  {
    forall i :: 0 <= i < |calls| ==> AbsentFrom(calls[i], a)
  }

  predicate AbsentFrom(c: Call, a: Address)
    decreases c, 1
  {
    match c
    case WlMint(sender, _, _, _, receiver) => sender != a && forall i :: 0 <= i < |receiver.callbacks| ==> Absent(receiver.callbacks[i].calls, a)
    case PublicMint(sender, _, _, receiver) => sender != a && forall i :: 0 <= i < |receiver.callbacks| ==> Absent(receiver.callbacks[i].calls, a)
    case TransferToken(_, _) => true
    case _ => c.sender != a
  }

  /** What only the owner may change. */
  ghost predicate SameSettings(s: Storage, t: Storage) {
    && t.merkleRoot == s.merkleRoot && t.wlMintActive == s.wlMintActive && t.publicMintActive == s.publicMintActive
    && t.owner == s.owner && t.withdrawn == s.withdrawn
  }

  lemma {:induction false} LoopKeepsSettings(h: Hasher, s: Storage, to: Address, quantity: nat, receiver: Receiver, i: nat)
    requires i <= quantity && forall k :: 0 <= k < |receiver.callbacks| ==> Absent(receiver.callbacks[k].calls, s.owner)
    ensures var r := MintLoop(h, s, to, quantity, receiver, i); r.Done? ==> SameSettings(s, r.s)
    decreases receiver, 1, quantity - i
  {
    var r := MintLoop(h, s, to, quantity, receiver, i);
    if i < quantity && r.Done? {
      var s1 := WithToken(s, s.totalSupply - quantity + i + 1, to);
      var s2 := s1;
      if i < |receiver.callbacks| {
        OutsidersChangeNoSettings(h, s1, receiver.callbacks[i].calls);
        s2 := ExecuteAll(h, s1, receiver.callbacks[i].calls);
      }
      LoopKeepsSettings(h, s2, to, quantity, receiver, i + 1);
    }
  }

  lemma {:induction false} CallKeepsSettings(h: Hasher, s: Storage, c: Call)
    requires AbsentFrom(c, s.owner)
    ensures var r := Execute(h, s, c); r.Done? ==> SameSettings(s, r.s)
    decreases c, 1, 0
  {
    match c
    case WlMint(sender, quantity, value, proof, receiver) =>
      LoopKeepsSettings(h, StartWlMint(s, sender, quantity, value), sender, quantity, receiver, 0);
    case PublicMint(sender, quantity, value, receiver) =>
      LoopKeepsSettings(h, StartPublicMint(s, sender, quantity, value), sender, quantity, receiver, 0);
    case _ =>
  }

  /** Over every run, reentrant calls included: without a call by the owner, root, flags, owner and the ETH paid out stay. */
  lemma {:induction false} OutsidersChangeNoSettings(h: Hasher, s: Storage, calls: seq<Call>)
    requires Absent(calls, s.owner)
    ensures SameSettings(s, ExecuteAll(h, s, calls))
    decreases calls, 0, 0
  {
    if calls != [] {
      var before := calls[..|calls| - 1];
      OutsidersChangeNoSettings(h, s, before);
      CallKeepsSettings(h, ExecuteAll(h, s, before), calls[|calls| - 1]);
    }
  }
}
