/**
 The allowlist NFT (solidity/contracts/MerkleNFTAllowlist.sol): supply, token ids, per-wallet counts and ETH, with
 arbitrary calls made from the receiver callback in the middle of a mint.
 */
module MintLedger {
  import opened Sums
  import opened Merkle
  import opened Allowlist

  const MAX_SUPPLY: nat := 1000
  const WL_PRICE: nat := 1_000_000_000_000_000
  const PUBLIC_PRICE: nat := 2_000_000_000_000_000
  const MAX_PER_PUBLIC: nat := 5

  /** `withdrawn` and `minted` record history: ETH paid out, and every token minted so far with its first owner. */
  datatype Storage = Storage(
    totalSupply: nat,
    wlMintActive: bool,
    publicMintActive: bool,
    merkleRoot: Hash,
    wlMintedCount: map<Address, nat>,
    publicMintedCount: map<Address, nat>,
    ownerOf: map<nat, Address>,
    owner: Address,
    balance: nat,
    entered: bool,
    withdrawn: nat,
    minted: seq<(nat, Address)>)

  /** What the receiver of a mint does when called back: the calls it makes per token, and the tokens it refuses. */
  datatype Receiver = Receiver(callbacks: seq<Callback>, refuses: set<nat>)
  datatype Callback = Callback(calls: seq<Call>)

  datatype Call =
    | WlMint(sender: Address, quantity: nat, value: nat, proof: seq<Hash>, receiver: Receiver)
    | PublicMint(sender: Address, quantity: nat, value: nat, receiver: Receiver)
    | TransferToken(id: nat, to: Address)
    | SetMerkleRoot(sender: Address, root: Hash)
    | ToggleWlMint(sender: Address)
    | TogglePublicMint(sender: Address)
    | Withdraw(sender: Address)
    | TransferOwnership(sender: Address, newOwner: Address)
    | RenounceOwnership(sender: Address)

  /** A call either takes effect or reverts and changes nothing. */
  datatype Result = Done(s: Storage) | Reverted

  // ----- The contract as a function on storage -----

  /** The checks of `wlMint`. */
  predicate MayWlMint(h: Hasher, s: Storage, sender: Address, quantity: nat, value: nat, proof: seq<Hash>) {
    && !s.entered
    && s.wlMintActive
    && quantity > 0
    && s.totalSupply + quantity <= MAX_SUPPLY
    && value == WL_PRICE * quantity
    && Get(s.wlMintedCount, sender) + quantity <= MAX_PER_WL
    && Accepts(h, proof, s.merkleRoot, Leaf(h, sender))
  }

  /** The checks of `publicMint`. */
  predicate MayPublicMint(s: Storage, sender: Address, quantity: nat, value: nat) {
    && !s.entered
    && s.publicMintActive
    && quantity > 0
    && s.totalSupply + quantity <= MAX_SUPPLY
    && value == PUBLIC_PRICE * quantity
    && Get(s.publicMintedCount, sender) + quantity <= MAX_PER_PUBLIC
  }

  function Raised(count: map<Address, nat>, sender: Address, quantity: nat): map<Address, nat> {
    count[sender := Get(count, sender) + quantity]
  }

  /** The writes of `wlMint` before its loop. */
  function StartWlMint(s: Storage, sender: Address, quantity: nat, value: nat): Storage {
    s.(entered := true,
       balance := s.balance + value,
       wlMintedCount := Raised(s.wlMintedCount, sender, quantity),
       totalSupply := s.totalSupply + quantity)
  }

  /** The writes of `publicMint` before its loop. */
  function StartPublicMint(s: Storage, sender: Address, quantity: nat, value: nat): Storage {
    s.(entered := true,
       balance := s.balance + value,
       publicMintedCount := Raised(s.publicMintedCount, sender, quantity),
       totalSupply := s.totalSupply + quantity)
  }

  function Execute(h: Hasher, s: Storage, c: Call): Result
    decreases c, 1, 0
  {
    match c
    case WlMint(sender, quantity, value, proof, receiver) =>
      if MayWlMint(h, s, sender, quantity, value, proof)
      then MintLoop(h, StartWlMint(s, sender, quantity, value), sender, quantity, receiver, 0)
      else Reverted
    case PublicMint(sender, quantity, value, receiver) =>
      if MayPublicMint(s, sender, quantity, value)
      then MintLoop(h, StartPublicMint(s, sender, quantity, value), sender, quantity, receiver, 0)
      else Reverted
    case _ => ExecutePlain(s, c)
  }

  /** The zero address. */
  function Nobody(): Address {
    Account([0, 0, 0, 0, 0, 0, 0, 0, 0, 0, 0, 0, 0, 0, 0, 0, 0, 0, 0, 0])
  }

  /** The calls that mint nothing. */
  function ExecutePlain(s: Storage, c: Call): Result
    requires !c.WlMint? && !c.PublicMint?
  {
    match c
    case TransferToken(id, to) =>
      if id in s.ownerOf then Done(s.(ownerOf := s.ownerOf[id := to])) else Reverted
    case SetMerkleRoot(sender, root) =>
      if sender == s.owner then Done(s.(merkleRoot := root)) else Reverted
    case ToggleWlMint(sender) =>
      if sender == s.owner then Done(s.(wlMintActive := !s.wlMintActive)) else Reverted
    case TogglePublicMint(sender) =>
      if sender == s.owner then Done(s.(publicMintActive := !s.publicMintActive)) else Reverted
    case Withdraw(sender) =>
      if sender == s.owner then Done(s.(balance := 0, withdrawn := s.withdrawn + s.balance)) else Reverted
    case TransferOwnership(sender, newOwner) =>
      if sender == s.owner && newOwner != Nobody() then Done(s.(owner := newOwner)) else Reverted
    case RenounceOwnership(sender) =>
      if sender == s.owner then Done(s.(owner := Nobody())) else Reverted
  }

  function WithToken(s: Storage, id: nat, to: Address): Storage {
    s.(ownerOf := s.ownerOf[id := to], minted := s.minted + [(id, to)])
  }

  /** Tokens `i` to `quantity - 1` of a mint; the reentrancy guard opens again at the end. */
  function MintLoop(h: Hasher, s: Storage, to: Address, quantity: nat, receiver: Receiver, i: nat): Result
    requires i <= quantity
    decreases receiver, 1, quantity - i
  {
    if i == quantity then Done(s.(entered := false))
    else if s.totalSupply < quantity || s.totalSupply - quantity + i + 1 in s.ownerOf || i in receiver.refuses then Reverted
    else
      var s1 := WithToken(s, s.totalSupply - quantity + i + 1, to);
      var s2 := if i < |receiver.callbacks| then ExecuteAll(h, s1, receiver.callbacks[i].calls) else s1;
      MintLoop(h, s2, to, quantity, receiver, i + 1)
  }

  /** Calls in order; a reverted call leaves no trace. */
  function ExecuteAll(h: Hasher, s: Storage, calls: seq<Call>): Storage
    decreases calls, 0, 0
  {
    if calls == [] then s
    else
      var before := ExecuteAll(h, s, calls[..|calls| - 1]);
      match Execute(h, before, calls[|calls| - 1])
      case Done(after) => after
      case Reverted => before
  }

  // ----- Invariants -----

  /** Tokens minted to `a`. */
  function MintedTo(minted: seq<(nat, Address)>, a: Address): nat {
    if minted == [] then 0
    else MintedTo(minted[..|minted| - 1], a) + if minted[|minted| - 1].1 == a then 1 else 0
  }

  /** Money and counters, at any moment. */
  ghost predicate CountersAgree(s: Storage) {
    && s.totalSupply == Sum(s.wlMintedCount) + Sum(s.publicMintedCount) <= MAX_SUPPLY
    && s.balance + s.withdrawn == WL_PRICE * Sum(s.wlMintedCount) + PUBLIC_PRICE * Sum(s.publicMintedCount)
    && (forall a: Address :: Get(s.wlMintedCount, a) <= MAX_PER_WL)
    && (forall a: Address :: Get(s.publicMintedCount, a) <= MAX_PER_PUBLIC)
  }

  /** Ids 1, 2, ... are minted in order, once each, and exactly they have owners. */
  ghost predicate IdsAgree(s: Storage) {
    && (forall i :: 0 <= i < |s.minted| ==> s.minted[i].0 == i + 1)
    && (forall id :: id in s.ownerOf <==> 1 <= id <= |s.minted|)
  }

  /** What is still owed to an account is all that its counts exceed the tokens minted to it. */
  ghost predicate DebtsAgree(s: Storage, owed: map<Address, nat>) {
    forall a: Address :: MintedTo(s.minted, a) + Get(owed, a) == Get(s.wlMintedCount, a) + Get(s.publicMintedCount, a)
  }

  ghost predicate TokensAgree(s: Storage, owed: map<Address, nat>) {
    IdsAgree(s) && DebtsAgree(s, owed)
  }

  /** Between transactions: no mint is under way, nothing is owed and all tokens exist. */
  ghost predicate Steady(s: Storage) {
    !s.entered && CountersAgree(s) && TokensAgree(s, map[]) && |s.minted| == s.totalSupply
  }

  /** What a call made during a mint cannot change. */
  ghost predicate SameMint(s: Storage, t: Storage) {
    && t.entered == s.entered && t.totalSupply == s.totalSupply && t.minted == s.minted
    && t.wlMintedCount == s.wlMintedCount && t.publicMintedCount == s.publicMintedCount
    && t.balance + t.withdrawn == s.balance + s.withdrawn
    && t.ownerOf.Keys == s.ownerOf.Keys
  }

  lemma GuardedCall(h: Hasher, s: Storage, c: Call)
    requires s.entered
    ensures var r := Execute(h, s, c); r.Done? ==> SameMint(s, r.s)
  {
    if c.TransferToken? && c.id in s.ownerOf {
      assert s.ownerOf[c.id := c.to].Keys == s.ownerOf.Keys;
    }
  }

  /** The guard confines reentrant calls: whatever a callback does, the mint under way is untouched. */
  lemma {:induction false} CallbackIsConfined(h: Hasher, s: Storage, calls: seq<Call>)
    requires s.entered
    ensures SameMint(s, ExecuteAll(h, s, calls))
  {
    if calls != [] {
      var before := calls[..|calls| - 1];
      CallbackIsConfined(h, s, before);
      GuardedCall(h, ExecuteAll(h, s, before), calls[|calls| - 1]);
    }
  }

  lemma ConfinedKeepsInvariants(s: Storage, t: Storage, owed: map<Address, nat>)
    requires SameMint(s, t) && CountersAgree(s) && TokensAgree(s, owed)
    ensures CountersAgree(t) && TokensAgree(t, owed)
  {
    forall id ensures id in t.ownerOf <==> 1 <= id <= |t.minted| {
      assert id in t.ownerOf <==> id in t.ownerOf.Keys;
      assert id in s.ownerOf <==> id in s.ownerOf.Keys;
    }
  }

  lemma OneMoreMinted(minted: seq<(nat, Address)>, id: nat, to: Address, a: Address)
    ensures MintedTo(minted + [(id, to)], a) == MintedTo(minted, a) + if a == to then 1 else 0
  {
    assert (minted + [(id, to)])[..|minted|] == minted;
  }

  lemma OneDebtLess(s: Storage, id: nat, to: Address, owed: nat)
    requires owed > 0 && DebtsAgree(s, map[to := owed])
    ensures DebtsAgree(WithToken(s, id, to), map[to := owed - 1])
  {
    forall a: Address
      ensures MintedTo(s.minted + [(id, to)], a) + Get(map[to := (owed - 1) as nat], a)
              == Get(s.wlMintedCount, a) + Get(s.publicMintedCount, a)
    {
      OneMoreMinted(s.minted, id, to, a);
      assert MintedTo(s.minted, a) + Get(map[to := owed], a) == Get(s.wlMintedCount, a) + Get(s.publicMintedCount, a);
    }
  }

  /** The next id of a mint is free, and minting it settles one of the tokens owed. */
  lemma OneToken(s: Storage, to: Address, owed: nat)
    requires owed > 0 && TokensAgree(s, map[to := owed]) && |s.minted| + owed == s.totalSupply
    ensures var id := s.totalSupply - owed + 1;
            id !in s.ownerOf && TokensAgree(WithToken(s, id, to), map[to := owed - 1])
  {
    OneDebtLess(s, s.totalSupply - owed + 1, to, owed);
  }

  ghost predicate UnderWay(s: Storage, to: Address, owed: nat) {
    s.entered && CountersAgree(s) && TokensAgree(s, map[to := owed]) && |s.minted| + owed == s.totalSupply
  }

  lemma NothingOwed(s: Storage, to: Address)
    requires UnderWay(s, to, 0)
    ensures Steady(s.(entered := false))
  {
    forall a: Address ensures MintedTo(s.minted, a) + Get(map[], a) == Get(s.wlMintedCount, a) + Get(s.publicMintedCount, a) {
      assert MintedTo(s.minted, a) + Get(map[to := 0], a) == Get(s.wlMintedCount, a) + Get(s.publicMintedCount, a);
    }
  }

  predicate Refused(receiver: Receiver, i: nat, quantity: nat) {
    exists j :: i <= j < quantity && j in receiver.refuses
  }

  ghost predicate SameCounts(s: Storage, t: Storage) {
    && t.totalSupply == s.totalSupply
    && t.wlMintedCount == s.wlMintedCount
    && t.publicMintedCount == s.publicMintedCount
  }

  /** A finished mint: steady again, with the counts and the supply raised at its head. */
  ghost predicate Settled(s: Storage, t: Storage) {
    Steady(t) && SameCounts(s, t)
  }

  /** The token minted by one turn of the loop, and the calls its receiver makes. */
  function Turn(h: Hasher, s: Storage, to: Address, quantity: nat, receiver: Receiver, i: nat): Storage
    requires quantity <= s.totalSupply
  {
    var calls := if i < |receiver.callbacks| then receiver.callbacks[i].calls else [];
    ExecuteAll(h, WithToken(s, s.totalSupply - quantity + i + 1, to), calls)
  }

  lemma TokenKeepsCounters(s: Storage, id: nat, to: Address)
    requires CountersAgree(s)
    ensures CountersAgree(WithToken(s, id, to))
  {
  }

  lemma TokenAndCalls(h: Hasher, s: Storage, to: Address, owed: nat, calls: seq<Call>)
    requires owed > 0 && UnderWay(s, to, owed)
    ensures var t := ExecuteAll(h, WithToken(s, s.totalSupply - owed + 1, to), calls);
            UnderWay(t, to, owed - 1) && SameCounts(s, t)
  {
    var s1 := WithToken(s, s.totalSupply - owed + 1, to);
    OneToken(s, to, owed);
    TokenKeepsCounters(s, s.totalSupply - owed + 1, to);
    CallbackIsConfined(h, s1, calls);
    ConfinedKeepsInvariants(s1, ExecuteAll(h, s1, calls), map[to := owed - 1]);
  }

  /** One turn of the loop, callback included, settles one token. */
  lemma OneIteration(h: Hasher, s: Storage, to: Address, quantity: nat, receiver: Receiver, i: nat)
    requires i < quantity <= s.totalSupply && UnderWay(s, to, quantity - i)
    ensures var t := Turn(h, s, to, quantity, receiver, i);
            UnderWay(t, to, quantity - (i + 1)) && SameCounts(s, t)
  {
    TokenAndCalls(h, s, to, quantity - i, if i < |receiver.callbacks| then receiver.callbacks[i].calls else []);
  }

  lemma MintLoopUnfolds(h: Hasher, s: Storage, to: Address, quantity: nat, receiver: Receiver, i: nat)
    requires i < quantity <= s.totalSupply && UnderWay(s, to, quantity - i) && i !in receiver.refuses
    ensures MintLoop(h, s, to, quantity, receiver, i)
            == MintLoop(h, Turn(h, s, to, quantity, receiver, i), to, quantity, receiver, i + 1)
  {
    OneToken(s, to, quantity - i);
  }

  lemma RefusedFrom(receiver: Receiver, i: nat, quantity: nat)
    requires i < quantity
    ensures Refused(receiver, i, quantity) <==> i in receiver.refuses || Refused(receiver, i + 1, quantity)
  {
  }

  lemma MintLoopEnds(h: Hasher, s: Storage, to: Address, quantity: nat, receiver: Receiver)
    requires UnderWay(s, to, 0)
    ensures var r := MintLoop(h, s, to, quantity, receiver, quantity); r.Done? && Settled(s, r.s)
  {
    NothingOwed(s, to);
  }

  lemma MintLoopRefuses(h: Hasher, s: Storage, to: Address, quantity: nat, receiver: Receiver, i: nat)
    requires i < quantity && i in receiver.refuses
    ensures MintLoop(h, s, to, quantity, receiver, i).Reverted?
  {
  }

  /** The loop of a mint succeeds if and only if the receiver refuses none of its tokens, and then owes nothing. */
  lemma {:induction false} MintLoopSettles(h: Hasher, s: Storage, to: Address, quantity: nat, receiver: Receiver, i: nat)
    returns (r: Result)
    requires i <= quantity <= s.totalSupply && UnderWay(s, to, quantity - i)
    ensures r == MintLoop(h, s, to, quantity, receiver, i)
    ensures r.Done? <==> !Refused(receiver, i, quantity)
    ensures r.Done? ==> Settled(s, r.s)
    decreases quantity - i
  {
    r := MintLoop(h, s, to, quantity, receiver, i);
    if i == quantity {
      MintLoopEnds(h, s, to, quantity, receiver);
    } else {
      RefusedFrom(receiver, i, quantity);
      if i in receiver.refuses {
        MintLoopRefuses(h, s, to, quantity, receiver, i);
      } else {
        OneIteration(h, s, to, quantity, receiver, i);
        MintLoopUnfolds(h, s, to, quantity, receiver, i);
        var _ := MintLoopSettles(h, Turn(h, s, to, quantity, receiver, i), to, quantity, receiver, i + 1);
      }
    }
  }

  lemma RaisedCounts(s: Storage, t: Storage, sender: Address, quantity: nat)
    requires TokensAgree(s, map[]) && t.minted == s.minted && t.ownerOf == s.ownerOf
    requires || (t.wlMintedCount == Raised(s.wlMintedCount, sender, quantity) && t.publicMintedCount == s.publicMintedCount)
             || (t.publicMintedCount == Raised(s.publicMintedCount, sender, quantity) && t.wlMintedCount == s.wlMintedCount)
    ensures TokensAgree(t, map[sender := quantity])
  {
    forall a: Address
      ensures MintedTo(t.minted, a) + Get(map[sender := quantity], a)
              == Get(t.wlMintedCount, a) + Get(t.publicMintedCount, a)
    {
      assert MintedTo(s.minted, a) + Get(map[], a) == Get(s.wlMintedCount, a) + Get(s.publicMintedCount, a);
    }
  }

  /** At the head of the loop of `wlMint` the counters agree and every new token is owed to the sender. */
  lemma WlMintStarts(s: Storage, sender: Address, quantity: nat)
    requires Steady(s) && s.totalSupply + quantity <= MAX_SUPPLY
    requires Get(s.wlMintedCount, sender) + quantity <= MAX_PER_WL
    ensures UnderWay(StartWlMint(s, sender, quantity, WL_PRICE * quantity), sender, quantity)
  {
    var t := StartWlMint(s, sender, quantity, WL_PRICE * quantity);
    SumAfterSet(s.wlMintedCount, sender, Get(s.wlMintedCount, sender) + quantity);
    RaisedCounts(s, t, sender, quantity);
    forall a: Address ensures Get(t.wlMintedCount, a) <= MAX_PER_WL {
      assert Get(s.wlMintedCount, a) <= MAX_PER_WL;
    }
  }

  lemma PublicMintStarts(s: Storage, sender: Address, quantity: nat)
    requires Steady(s) && s.totalSupply + quantity <= MAX_SUPPLY
    requires Get(s.publicMintedCount, sender) + quantity <= MAX_PER_PUBLIC
    ensures UnderWay(StartPublicMint(s, sender, quantity, PUBLIC_PRICE * quantity), sender, quantity)
  {
    var t := StartPublicMint(s, sender, quantity, PUBLIC_PRICE * quantity);
    SumAfterSet(s.publicMintedCount, sender, Get(s.publicMintedCount, sender) + quantity);
    RaisedCounts(s, t, sender, quantity);
    forall a: Address ensures Get(t.publicMintedCount, a) <= MAX_PER_PUBLIC {
      assert Get(s.publicMintedCount, a) <= MAX_PER_PUBLIC;
    }
  }

  /** From a steady state `wlMint` succeeds if and only if its checks pass and the receiver refuses no token. */
  lemma WlMintSettles(h: Hasher, s: Storage, c: Call)
    requires Steady(s) && c.WlMint?
    ensures var r := Execute(h, s, c);
            && (r.Done? <==> MayWlMint(h, s, c.sender, c.quantity, c.value, c.proof) && !Refused(c.receiver, 0, c.quantity))
            && (r.Done? ==> Settled(StartWlMint(s, c.sender, c.quantity, c.value), r.s))
  {
    if MayWlMint(h, s, c.sender, c.quantity, c.value, c.proof) {
      WlMintStarts(s, c.sender, c.quantity);
      var _ := MintLoopSettles(h, StartWlMint(s, c.sender, c.quantity, c.value), c.sender, c.quantity, c.receiver, 0);
    }
  }

  lemma PublicMintSettles(h: Hasher, s: Storage, c: Call)
    requires Steady(s) && c.PublicMint?
    ensures var r := Execute(h, s, c);
            && (r.Done? <==> MayPublicMint(s, c.sender, c.quantity, c.value) && !Refused(c.receiver, 0, c.quantity))
            && (r.Done? ==> Settled(StartPublicMint(s, c.sender, c.quantity, c.value), r.s))
  {
    if MayPublicMint(s, c.sender, c.quantity, c.value) {
      PublicMintStarts(s, c.sender, c.quantity);
      var _ := MintLoopSettles(h, StartPublicMint(s, c.sender, c.quantity, c.value), c.sender, c.quantity, c.receiver, 0);
    }
  }

  /** Only listed addresses mint from the allowlist, or a successful mint carries a collision of `h`. */
  lemma WlMintIsForListed(h: Hasher, s: Storage, c: Call, listed: seq<Address>) returns (v: Verdict)
    requires c.WlMint? && Execute(h, s, c).Done?
    requires listed != [] && s.merkleRoot == MerkleRoot(h, Leaves(h, listed))
    ensures v.Listed? ==> c.sender in listed
    ensures v.Forged? ==> IsCollision(h, v.x, v.y)
  {
    v := AcceptedSenderIsListed(h, listed, c.sender, c.proof);
  }

  /** Every call keeps the ledger, however many reentrant calls its receiver makes. */
  lemma CallKeepsLedger(h: Hasher, s: Storage, c: Call)
    requires Steady(s)
    ensures var r := Execute(h, s, c); r.Done? ==> Steady(r.s)
  {
    if c.WlMint? {
      WlMintSettles(h, s, c);
    } else if c.PublicMint? {
      PublicMintSettles(h, s, c);
    } else {
      PlainKeepsLedger(s, c);
    }
  }

  lemma PlainKeepsLedger(s: Storage, c: Call)
    requires Steady(s) && !c.WlMint? && !c.PublicMint?
    ensures var r := ExecutePlain(s, c); r.Done? ==> Steady(r.s)
  {
    var r := ExecutePlain(s, c);
    if r.Done? {
      if c.TransferToken? { assert r.s.ownerOf.Keys == s.ownerOf.Keys; }
      ConfinedKeepsInvariants(s, r.s, map[]);
    }
  }

  /** The ledger over all runs. */
  lemma {:induction false} LedgerHoldsAlways(h: Hasher, s: Storage, calls: seq<Call>)
    requires Steady(s)
    ensures Steady(ExecuteAll(h, s, calls))
  {
    if calls != [] {
      LedgerHoldsAlways(h, s, calls[..|calls| - 1]);
      CallKeepsLedger(h, ExecuteAll(h, s, calls[..|calls| - 1]), calls[|calls| - 1]);
    }
  }

  // ----- The contract -----

  class MerkleNFTAllowlist {
    const h: Hasher
    var totalSupply: nat
    var wlMintActive: bool
    var publicMintActive: bool
    var merkleRoot: Hash
    var wlMintedCount: map<Address, nat>
    var publicMintedCount: map<Address, nat>
    var ownerOf: map<nat, Address>
    var owner: Address
    var balance: nat
    var entered: bool
    var withdrawn: nat
    var minted: seq<(nat, Address)>

    function State(): Storage
      reads this
    {
      Storage(totalSupply, wlMintActive, publicMintActive, merkleRoot, wlMintedCount, publicMintedCount, ownerOf,
              owner, balance, entered, withdrawn, minted)
    }

    /** A new contract starts the ledger. */
    constructor (h: Hasher, initialOwner: Address, zeroRoot: Hash)
      ensures this.h == h && Steady(State())
      ensures State() == Storage(0, false, false, zeroRoot, map[], map[], map[], initialOwner, 0, false, 0, [])
    {
      this.h := h;
      owner, merkleRoot := initialOwner, zeroRoot;
      totalSupply, balance, withdrawn := 0, 0, 0;
      wlMintActive, publicMintActive, entered := false, false, false;
      wlMintedCount, publicMintedCount, ownerOf, minted := map[], map[], map[], [];
    }

    /** What a revert does. */
    method Restore(s: Storage)
      modifies this
      ensures State() == s
    {
      totalSupply, wlMintActive, publicMintActive := s.totalSupply, s.wlMintActive, s.publicMintActive;
      merkleRoot, wlMintedCount, publicMintedCount := s.merkleRoot, s.wlMintedCount, s.publicMintedCount;
      ownerOf, owner, balance, entered := s.ownerOf, s.owner, s.balance, s.entered;
      withdrawn, minted := s.withdrawn, s.minted;
    }

    method WlMint(sender: Address, quantity: nat, value: nat, proof: seq<Hash>, receiver: Receiver) returns (ok: bool)
      modifies this
      ensures var r := Execute(h, old(State()), Call.WlMint(sender, quantity, value, proof, receiver));
              ok == r.Done? && State() == if r.Done? then r.s else old(State())
      decreases receiver, 2, 0
    {
      if !MayWlMint(h, State(), sender, quantity, value, proof) {
        return false;
      }
      var before := State();
      entered := true;
      balance := balance + value;
      wlMintedCount := wlMintedCount[sender := Get(wlMintedCount, sender) + quantity];
      totalSupply := totalSupply + quantity;
      assert State() == StartWlMint(before, sender, quantity, value);
      ok := SafeMintAll(sender, quantity, receiver);
      if ok {
        entered := false;
      } else {
        Restore(before);
      }
    }

    method PublicMint(sender: Address, quantity: nat, value: nat, receiver: Receiver) returns (ok: bool)
      modifies this
      ensures var r := Execute(h, old(State()), Call.PublicMint(sender, quantity, value, receiver));
              ok == r.Done? && State() == if r.Done? then r.s else old(State())
      decreases receiver, 2, 0
    {
      if !MayPublicMint(State(), sender, quantity, value) {
        return false;
      }
      var before := State();
      entered := true;
      balance := balance + value;
      publicMintedCount := publicMintedCount[sender := Get(publicMintedCount, sender) + quantity];
      totalSupply := totalSupply + quantity;
      assert State() == StartPublicMint(before, sender, quantity, value);
      ok := SafeMintAll(sender, quantity, receiver);
      if ok {
        entered := false;
      } else {
        Restore(before);
      }
    }

    /** The loop of `_safeMint` calls that both mint functions end with. */
    method SafeMintAll(to: Address, quantity: nat, receiver: Receiver) returns (ok: bool)
      modifies this
      ensures var r := MintLoop(h, old(State()), to, quantity, receiver, 0);
              ok == r.Done? && (ok ==> r.s == State().(entered := false))
      decreases receiver, 1, 0
    {
      for i := 0 to quantity
        invariant MintLoop(h, State(), to, quantity, receiver, i) == MintLoop(h, old(State()), to, quantity, receiver, 0)
      {
        if totalSupply < quantity || totalSupply - quantity + i + 1 in ownerOf || i in receiver.refuses {
          return false;
        }
        var id := totalSupply - quantity + i + 1;
        ownerOf := ownerOf[id := to];
        minted := minted + [(id, to)];
        if i < |receiver.callbacks| {
          CallAll(receiver.callbacks[i].calls);
        }
      }
      ok := true;
    }

    method CallAll(calls: seq<Call>)
      modifies this
      ensures State() == ExecuteAll(h, old(State()), calls)
      decreases calls, 0, 0
    {
      for n := 0 to |calls|
        invariant State() == ExecuteAll(h, old(State()), calls[..n])
      {
        assert calls[..n + 1][..n] == calls[..n];
        var _ := CallOne(calls[n]);
      }
      assert calls[..|calls|] == calls;
    }

    method CallOne(c: Call) returns (ok: bool)
      modifies this
      ensures var r := Execute(h, old(State()), c);
              ok == r.Done? && State() == if r.Done? then r.s else old(State())
      decreases c, 3, 0
    {
      match c
      case WlMint(sender, quantity, value, proof, receiver) =>
        ok := WlMint(sender, quantity, value, proof, receiver);
      case PublicMint(sender, quantity, value, receiver) =>
        ok := PublicMint(sender, quantity, value, receiver);
      case _ => ok := CallPlain(c);
    }

    /** The entry points that mint nothing, those inherited from `Ownable` included. */
    method CallPlain(c: Call) returns (ok: bool)
      requires !c.WlMint? && !c.PublicMint?
      modifies this
      ensures var r := ExecutePlain(old(State()), c);
              ok == r.Done? && State() == if r.Done? then r.s else old(State())
    {
      match c
      case TransferToken(id, to) =>
        ok := id in ownerOf;
        if ok { ownerOf := ownerOf[id := to]; }
      case SetMerkleRoot(sender, root) =>
        ok := sender == owner;
        if ok { merkleRoot := root; }
      case ToggleWlMint(sender) =>
        ok := sender == owner;
        if ok { wlMintActive := !wlMintActive; }
      case TogglePublicMint(sender) =>
        ok := sender == owner;
        if ok { publicMintActive := !publicMintActive; }
      case Withdraw(sender) =>
        ok := sender == owner;
        if ok { withdrawn, balance := withdrawn + balance, 0; }
      case TransferOwnership(sender, newOwner) =>
        ok := sender == owner && newOwner != Nobody();
        if ok { owner := newOwner; }
      case RenounceOwnership(sender) =>
        ok := sender == owner;
        if ok { owner := Nobody(); }
    }
  }
}
