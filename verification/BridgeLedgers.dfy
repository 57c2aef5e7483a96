/**
 The two ledgers of the bridge: the lock on the source chain with the ERC20 it holds
 (solidity/contracts/bridge/BridgeLock.sol) and the peg token (solidity/contracts/bridge/BridgeMint.sol).
 Events are part of the state: they are what the relayer reads. A call either takes effect or reverts.
 */
module BridgeLedgers {
  import opened Sums

  type Address = string

  /** The zero address, which owns nothing. */
  const NOBODY: Address := "0x0000000000000000000000000000000000000000"

  datatype Deposited = Deposited(user: Address, amount: nat, nonce: nat)
  datatype Withdrawn = Withdrawn(user: Address, amount: nat, nonce: nat)
  datatype Minted = Minted(to: Address, amount: nat, sourceNonce: nat)
  datatype Burned = Burned(from: Address, amount: nat, withdrawNonce: nat)

  datatype Result<S> = Done(s: S) | Reverted

  function OrSame<S>(r: Result<S>, s: S): S {
    if r.Done? then r.s else s
  }

  /** A standard ERC20 transfer. */
  function Transferred(balances: map<Address, nat>, from: Address, to: Address, amount: nat): Result<map<Address, nat>> {
    if Get(balances, from) < amount then Reverted
    else
      var debited := balances[from := Get(balances, from) - amount];
      Done(debited[to := Get(debited, to) + amount])
  }

  lemma TransferKeepsSum(balances: map<Address, nat>, from: Address, to: Address, amount: nat)
    ensures var r := Transferred(balances, from, to, amount); r.Done? ==> Sum(r.s) == Sum(balances)
  {
    if Get(balances, from) >= amount {
      var debited := balances[from := Get(balances, from) - amount];
      SumAfterSet(balances, from, Get(balances, from) - amount);
      SumAfterSet(debited, to, Get(debited, to) + amount);
    }
  }

  /** Account by account: `from` holds `amount` less, `to` holds `amount` more, and every other account what it held. */
  ghost predicate Moves(before: map<Address, nat>, after: map<Address, nat>, from: Address, to: Address, amount: nat) {
    forall a :: Get(after, a) + (if a == from then amount else 0) == Get(before, a) + (if a == to then amount else 0)
  }

  /** A transfer succeeds exactly when the sender holds the amount, and then moves it. */
  lemma TransferMoves(balances: map<Address, nat>, from: Address, to: Address, amount: nat)
    ensures var r := Transferred(balances, from, to, amount);
            && (r.Done? <==> amount <= Get(balances, from))
            && (r.Done? ==> Moves(balances, r.s, from, to, amount))
  {
  }

  // ----- The lock -----

  /** The lock's own address. */
  const LOCK: Address := "BridgeLock"
  const MAX_FEE_BPS: nat := 100

  /**
   `tokens` is the ERC20 ledger. `fees` and `donated` record history: fees kept so far, and tokens that reached
   the lock without a deposit.
   */
  datatype Lock = Lock(
    tokens: map<Address, nat>,
    feeBps: nat,
    deposits: seq<Deposited>,
    withdrawals: seq<Withdrawn>,
    fees: nat,
    donated: nat)

  function Fee(amount: nat, feeBps: nat): nat {
    amount * feeBps / 10000
  }

  /** At the highest rate the fee is one percent, rounded down, so something always remains of a deposit. */
  lemma FeeIsSmall(amount: nat, feeBps: nat)
    requires feeBps <= MAX_FEE_BPS
    ensures 100 * Fee(amount, feeBps) <= amount
    ensures amount > 0 ==> Fee(amount, feeBps) < amount
  {
    assert amount * feeBps <= amount * MAX_FEE_BPS;
  }

  /** The fee is the rate in basis points, rounded down. */
  lemma FeeBounds(amount: nat, feeBps: nat)
    ensures 10000 * Fee(amount, feeBps) <= amount * feeBps < 10000 * Fee(amount, feeBps) + 10000
  {
  }

  function AfterDeposit(l: Lock, user: Address, amount: nat): Result<Lock> {
    var moved := Transferred(l.tokens, user, LOCK, amount);
    if amount == 0 || user == LOCK || moved.Reverted? || amount * l.feeBps >= WORD || Fee(amount, l.feeBps) > amount
    then Reverted
    else
      var fee := Fee(amount, l.feeBps);
      Done(l.(
        tokens := moved.s,
        deposits := l.deposits + [Deposited(user, amount - fee, |l.deposits|)],
        fees := l.fees + fee))
  }

  /** A withdrawal whose signature has been checked. */
  function AfterWithdraw(l: Lock, to: Address, amount: nat, nonce: nat): Result<Lock> {
    var moved := Transferred(l.tokens, LOCK, to, amount);
    if moved.Reverted? then Reverted
    else
      Done(l.(
        tokens := moved.s,
        withdrawals := l.withdrawals + [Withdrawn(to, amount, nonce)],
        donated := l.donated + if to == LOCK then amount else 0))
  }

  function AfterSetFeeBps(l: Lock, newFee: nat): Result<Lock> {
    if newFee > MAX_FEE_BPS then Reverted else Done(l.(feeBps := newFee))
  }

  /** Moves of the underlying token outside the bridge; the lock itself makes none. */
  function AfterTransferToken(l: Lock, from: Address, to: Address, amount: nat): Result<Lock> {
    var moved := Transferred(l.tokens, from, to, amount);
    if from == LOCK || moved.Reverted? then Reverted
    else Done(l.(tokens := moved.s, donated := l.donated + if to == LOCK then amount else 0))
  }

  /**
   A deposit at a legal rate succeeds exactly when the amount is positive, the user (not the lock) holds it and the fee's
   product fits a word. The user then pays exactly the amount to the lock, and the event names the user, the next nonce
   and what remains after the fee.
   */
  lemma DepositEffects(l: Lock, user: Address, amount: nat)
    requires l.feeBps <= MAX_FEE_BPS
    ensures var r := AfterDeposit(l, user, amount);
            && (r.Done? <==> 0 < amount <= Get(l.tokens, user) && user != LOCK && amount * l.feeBps < WORD)
            && (r.Done? ==>
                  && Moves(l.tokens, r.s.tokens, user, LOCK, amount)
                  && |r.s.deposits| == |l.deposits| + 1 && r.s.deposits[..|l.deposits|] == l.deposits
                  && var d := r.s.deposits[|l.deposits|];
                     && d.user == user && d.nonce == |l.deposits| && d.amount <= amount
                     && 10000 * (amount - d.amount) <= amount * l.feeBps < 10000 * (amount - d.amount) + 10000
                     && r.s.fees == l.fees + (amount - d.amount)
                     && r.s.feeBps == l.feeBps && r.s.withdrawals == l.withdrawals && r.s.donated == l.donated)
  {
    FeeIsSmall(amount, l.feeBps);
    FeeBounds(amount, l.feeBps);
    TransferMoves(l.tokens, user, LOCK, amount);
  }

  /** A withdrawal succeeds exactly when the lock holds the amount, pays it to `to`, and says so in its event. */
  lemma WithdrawEffects(l: Lock, to: Address, amount: nat, nonce: nat)
    ensures var r := AfterWithdraw(l, to, amount, nonce);
            && (r.Done? <==> amount <= Get(l.tokens, LOCK))
            && (r.Done? ==>
                  && Moves(l.tokens, r.s.tokens, LOCK, to, amount)
                  && r.s.withdrawals == l.withdrawals + [Withdrawn(to, amount, nonce)]
                  && r.s.deposits == l.deposits && r.s.fees == l.fees && r.s.feeBps == l.feeBps)
  {
    TransferMoves(l.tokens, LOCK, to, amount);
  }

  /** Anyone but the lock may move what it holds, to anyone. */
  lemma TokenTransferEffects(l: Lock, from: Address, to: Address, amount: nat)
    ensures var r := AfterTransferToken(l, from, to, amount);
            && (r.Done? <==> from != LOCK && amount <= Get(l.tokens, from))
            && (r.Done? ==>
                  && Moves(l.tokens, r.s.tokens, from, to, amount)
                  && r.s.deposits == l.deposits && r.s.withdrawals == l.withdrawals && r.s.fees == l.fees && r.s.feeBps == l.feeBps)
  {
    TransferMoves(l.tokens, from, to, amount);
  }

  /** The rate that was set, up to one percent, is the rate of the deposits that follow; nothing else changes. */
  lemma SetFeeEffects(l: Lock, newFee: nat)
    ensures var r := AfterSetFeeBps(l, newFee);
            && (r.Done? <==> newFee <= 100)
            && (r.Done? ==> r.s.feeBps == newFee && r.s == Lock(l.tokens, newFee, l.deposits, l.withdrawals, l.fees, l.donated))
  {
  }

  class BridgeLock {
    var tokens: map<Address, nat>
    var feeBps: nat
    var depositNonce: nat
    var admin: Address
    var owner: Address
    var deposits: seq<Deposited>
    var withdrawals: seq<Withdrawn>
    ghost var fees: nat
    ghost var donated: nat

    ghost predicate Valid()
      reads this
    {
      depositNonce == |deposits|
    }

    ghost function State(): Lock
      reads this
    {
      Lock(tokens, feeBps, deposits, withdrawals, fees, donated)
    }

    constructor (initialOwner: Address, initialAdmin: Address, tokens: map<Address, nat>)
      ensures Valid() && owner == initialOwner && admin == initialAdmin
      ensures State() == Lock(tokens, 10, [], [], 0, Get(tokens, LOCK))
    {
      this.tokens, feeBps, depositNonce := tokens, 10, 0;
      admin, owner := initialAdmin, initialOwner;
      deposits, withdrawals, fees, donated := [], [], 0, Get(tokens, LOCK);
    }

    /** `safeTransferFrom` and `safeTransfer` of the ERC20. */
    method MoveTokens(from: Address, to: Address, amount: nat) returns (ok: bool)
      modifies this`tokens
      ensures ok == Transferred(old(tokens), from, to, amount).Done?
      ensures tokens == OrSame(Transferred(old(tokens), from, to, amount), old(tokens))
    {
      if Get(tokens, from) < amount {
        return false;
      }
      tokens := tokens[from := Get(tokens, from) - amount];
      tokens := tokens[to := Get(tokens, to) + amount];
      ok := true;
    }

    /** A transfer of the underlying token that someone other than the lock makes. */
    method TransferToken(from: Address, to: Address, amount: nat) returns (ok: bool)
      requires Valid()
      modifies this
      ensures Valid() && admin == old(admin) && owner == old(owner)
      ensures ok == AfterTransferToken(old(State()), from, to, amount).Done?
      ensures State() == OrSame(AfterTransferToken(old(State()), from, to, amount), old(State()))
    {
      if from == LOCK {
        return false;
      }
      ok := MoveTokens(from, to, amount);
      if ok {
        donated := donated + if to == LOCK then amount else 0;
      }
    }

    method Deposit(sender: Address, amount: nat) returns (ok: bool)
      requires Valid()
      modifies this
      ensures Valid() && admin == old(admin) && owner == old(owner)
      ensures ok == AfterDeposit(old(State()), sender, amount).Done?
      ensures State() == OrSame(AfterDeposit(old(State()), sender, amount), old(State()))
    {
      if amount == 0 || sender == LOCK || amount * feeBps >= WORD || amount * feeBps / 10000 > amount {
        return false;
      }
      ok := MoveTokens(sender, LOCK, amount);
      if ok {
        var fee := amount * feeBps / 10000;
        var netAmount := amount - fee;
        var nonce := depositNonce;
        depositNonce := depositNonce + 1;
        deposits := deposits + [Deposited(sender, netAmount, nonce)];
        fees := fees + fee;
      }
    }

    /** `signer` is who signed this withdrawal, as recovered from the signature. */
    method Withdraw(signer: Address, to: Address, amount: nat, nonce: nat) returns (ok: bool)
      requires Valid()
      modifies this
      ensures Valid() && admin == old(admin) && owner == old(owner)
      ensures ok == (signer == old(admin) && AfterWithdraw(old(State()), to, amount, nonce).Done?)
      ensures State() == if signer == old(admin)
                         then OrSame(AfterWithdraw(old(State()), to, amount, nonce), old(State()))
                         else old(State())
    {
      if signer != admin {
        return false;
      }
      ok := MoveTokens(LOCK, to, amount);
      if ok {
        withdrawals := withdrawals + [Withdrawn(to, amount, nonce)];
        donated := donated + if to == LOCK then amount else 0;
      }
    }

    method SetFeeBps(sender: Address, newFee: nat) returns (ok: bool)
      requires Valid()
      modifies this`feeBps
      ensures Valid()
      ensures ok == (sender == owner && newFee <= MAX_FEE_BPS)
      ensures State() == if sender == owner
                         then OrSame(AfterSetFeeBps(old(State()), newFee), old(State()))
                         else old(State())
    {
      ok := sender == owner && newFee <= MAX_FEE_BPS;
      if ok {
        feeBps := newFee;
      }
    }

    method SetAdmin(sender: Address, newAdmin: Address) returns (ok: bool)
      requires Valid()
      modifies this`admin
      ensures Valid() && State() == old(State())
      ensures ok == (sender == owner) && admin == if ok then newAdmin else old(admin)
    {
      ok := sender == owner;
      if ok {
        admin := newAdmin;
      }
    }

    /** Inherited from `Ownable`. */
    method TransferOwnership(sender: Address, newOwner: Address) returns (ok: bool)
      requires Valid()
      modifies this`owner
      ensures Valid() && State() == old(State())
      ensures ok == (sender == old(owner) && newOwner != NOBODY) && owner == if ok then newOwner else old(owner)
    {
      ok := sender == owner && newOwner != NOBODY;
      if ok {
        owner := newOwner;
      }
    }

    method RenounceOwnership(sender: Address) returns (ok: bool)
      requires Valid()
      modifies this`owner
      ensures Valid() && State() == old(State())
      ensures ok == (sender == old(owner)) && owner == if ok then NOBODY else old(owner)
    {
      ok := sender == owner;
      if ok {
        owner := NOBODY;
      }
    }
  }

  // ----- The peg token -----

  datatype Peg = Peg(
    balances: map<Address, nat>,
    totalSupply: nat,
    usedNonces: set<nat>,
    mints: seq<Minted>,
    burns: seq<Burned>)

  function AfterMint(p: Peg, to: Address, amount: nat, sourceNonce: nat): Result<Peg> {
    if sourceNonce in p.usedNonces || p.totalSupply + amount >= WORD then Reverted
    else
      Done(p.(
        usedNonces := p.usedNonces + {sourceNonce},
        totalSupply := p.totalSupply + amount,
        balances := p.balances[to := Get(p.balances, to) + amount],
        mints := p.mints + [Minted(to, amount, sourceNonce)]))
  }

  function AfterBurn(p: Peg, from: Address, amount: nat, withdrawNonce: nat): Result<Peg> {
    if Get(p.balances, from) < amount || p.totalSupply < amount then Reverted
    else
      Done(p.(
        balances := p.balances[from := Get(p.balances, from) - amount],
        totalSupply := p.totalSupply - amount,
        burns := p.burns + [Burned(from, amount, withdrawNonce)]))
  }

  function AfterTransferPeg(p: Peg, from: Address, to: Address, amount: nat): Result<Peg> {
    var moved := Transferred(p.balances, from, to, amount);
    if moved.Reverted? then Reverted else Done(p.(balances := moved.s))
  }

  /** A mint succeeds exactly when the nonce is new and the supply fits a word; it credits `to` alone. */
  lemma MintEffects(p: Peg, to: Address, amount: nat, sourceNonce: nat)
    ensures var r := AfterMint(p, to, amount, sourceNonce);
            && (r.Done? <==> sourceNonce !in p.usedNonces && p.totalSupply + amount < WORD)
            && (r.Done? ==>
                  && (forall a :: Get(r.s.balances, a) == Get(p.balances, a) + if a == to then amount else 0)
                  && r.s.totalSupply == p.totalSupply + amount
                  && (forall n :: n in r.s.usedNonces <==> n in p.usedNonces || n == sourceNonce)
                  && r.s.mints == p.mints + [Minted(to, amount, sourceNonce)] && r.s.burns == p.burns)
  {
  }

  /** A burn succeeds exactly when the sender holds the amount, and takes it from the sender alone. */
  lemma BurnEffects(p: Peg, from: Address, amount: nat, withdrawNonce: nat)
    requires Sum(p.balances) == p.totalSupply
    ensures var r := AfterBurn(p, from, amount, withdrawNonce);
            && (r.Done? <==> amount <= Get(p.balances, from))
            && (r.Done? ==>
                  && (forall a :: Get(p.balances, a) == Get(r.s.balances, a) + if a == from then amount else 0)
                  && r.s.totalSupply == p.totalSupply - amount
                  && r.s.burns == p.burns + [Burned(from, amount, withdrawNonce)]
                  && r.s.usedNonces == p.usedNonces && r.s.mints == p.mints)
  {
    GetAtMostSum(p.balances, from);
  }

  lemma PegTransferEffects(p: Peg, from: Address, to: Address, amount: nat)
    ensures var r := AfterTransferPeg(p, from, to, amount);
            && (r.Done? <==> amount <= Get(p.balances, from))
            && (r.Done? ==> Moves(p.balances, r.s.balances, from, to, amount) && r.s == p.(balances := r.s.balances))
  {
    TransferMoves(p.balances, from, to, amount);
  }

  class BridgeMint {
    var balances: map<Address, nat>
    var totalSupply: nat
    var usedNonces: set<nat>
    var minter: Address
    var owner: Address
    var mints: seq<Minted>
    var burns: seq<Burned>

    function State(): Peg
      reads this
    {
      Peg(balances, totalSupply, usedNonces, mints, burns)
    }

    constructor (initialOwner: Address, initialMinter: Address)
      ensures State() == Peg(map[], 0, {}, [], []) && minter == initialMinter && owner == initialOwner
    {
      balances, totalSupply, usedNonces, mints, burns := map[], 0, {}, [], [];
      minter, owner := initialMinter, initialOwner;
    }

    method Mint(sender: Address, to: Address, amount: nat, sourceNonce: nat) returns (ok: bool)
      modifies this
      ensures minter == old(minter) && owner == old(owner)
      ensures ok == (sender == minter && AfterMint(old(State()), to, amount, sourceNonce).Done?)
      ensures State() == if sender == minter
                         then OrSame(AfterMint(old(State()), to, amount, sourceNonce), old(State()))
                         else old(State())
    {
      if sender != minter || sourceNonce in usedNonces || totalSupply + amount >= WORD {
        return false;
      }
      usedNonces := usedNonces + {sourceNonce};
      totalSupply := totalSupply + amount;
      balances := balances[to := Get(balances, to) + amount];
      mints := mints + [Minted(to, amount, sourceNonce)];
      ok := true;
    }

    method Burn(sender: Address, amount: nat, withdrawNonce: nat) returns (ok: bool)
      modifies this
      ensures minter == old(minter) && owner == old(owner)
      ensures ok == AfterBurn(old(State()), sender, amount, withdrawNonce).Done?
      ensures State() == OrSame(AfterBurn(old(State()), sender, amount, withdrawNonce), old(State()))
    {
      if Get(balances, sender) < amount || totalSupply < amount {
        return false;
      }
      balances := balances[sender := Get(balances, sender) - amount];
      totalSupply := totalSupply - amount;
      burns := burns + [Burned(sender, amount, withdrawNonce)];
      ok := true;
    }

    /** The inherited ERC20 transfer. */
    method Transfer(sender: Address, to: Address, amount: nat) returns (ok: bool)
      modifies this`balances
      ensures ok == AfterTransferPeg(old(State()), sender, to, amount).Done?
      ensures State() == OrSame(AfterTransferPeg(old(State()), sender, to, amount), old(State()))
    {
      if Get(balances, sender) < amount {
        return false;
      }
      balances := balances[sender := Get(balances, sender) - amount];
      balances := balances[to := Get(balances, to) + amount];
      ok := true;
    }

    method SetMinter(sender: Address, newMinter: Address) returns (ok: bool)
      modifies this`minter
      ensures State() == old(State())
      ensures ok == (sender == owner) && minter == if ok then newMinter else old(minter)
    {
      ok := sender == owner;
      if ok {
        minter := newMinter;
      }
    }

    /** Inherited from `Ownable`. */
    method TransferOwnership(sender: Address, newOwner: Address) returns (ok: bool)
      modifies this`owner
      ensures State() == old(State())
      ensures ok == (sender == old(owner) && newOwner != NOBODY) && owner == if ok then newOwner else old(owner)
    {
      ok := sender == owner && newOwner != NOBODY;
      if ok {
        owner := newOwner;
      }
    }

    method RenounceOwnership(sender: Address) returns (ok: bool)
      modifies this`owner
      ensures State() == old(State())
      ensures ok == (sender == old(owner)) && owner == if ok then NOBODY else old(owner)
    {
      ok := sender == owner;
      if ok {
        owner := NOBODY;
      }
    }
  }
}
