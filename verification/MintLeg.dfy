/**
 The mint leg while peg holders rest: any deposits, and any deliveries of them, in any order, with repetitions, relayer
 restarts, lost calls and calls that take effect yet report an error.
 */
module MintLeg {
  import opened Sums
  import opened BridgeLedgers
  import opened BridgeProtocol
  import opened BridgeSolvency

  predicate HoldersRest(step: Step) {
    !step.PegMoves? && !step.UserBurns?
  }

  /** Per deposit, what it is worth to `a`. */
  function WorthTo(ds: seq<Deposited>, a: Address): seq<nat> {
    Amounts(ds, (d: Deposited) => if d.user == a then d.amount else 0)
  }

  ghost function TotalWorth(ds: seq<Deposited>, a: Address): nat {
    SumExcept(WorthTo(ds, a), {})
  }

  /** What `a` is still to be minted. */
  ghost function Owed(w: World, a: Address): nat {
    SumExcept(WorthTo(w.lock.deposits, a), w.peg.usedNonces)
  }

  /** From `w` to `t` the account's balance and claims have grown by its new deposits, and so has the supply by all. */
  ghost predicate ClaimsKept(w: World, t: World, a: Address) {
    && Get(t.peg.balances, a) + Owed(t, a) + TotalWorth(w.lock.deposits, a)
       == Get(w.peg.balances, a) + Owed(w, a) + TotalWorth(t.lock.deposits, a)
    && t.peg.totalSupply + Unminted(t.lock, t.peg) + TotalDeposited(w.lock.deposits)
       == w.peg.totalSupply + Unminted(w.lock, w.peg) + TotalDeposited(t.lock.deposits)
    && (w.peg.totalSupply < WORD ==> t.peg.totalSupply < WORD)
  }

  ghost function TotalDeposited(ds: seq<Deposited>): nat {
    SumExcept(DepositAmounts(ds), {})
  }

  lemma MintKeepsClaims(w: World, n: nat, result: CallResult, a: Address)
    requires MintingIsExact(w)
    ensures ClaimsKept(w, MintCalled(w, n, result), a)
  {
    var ds := w.lock.deposits;
    if n < |ds| && n !in w.peg.usedNonces {
      SumExceptSkip(WorthTo(ds, a), w.peg.usedNonces, n);
      SumExceptSkip(DepositAmounts(ds), w.peg.usedNonces, n);
    }
  }

  lemma DepositKeepsClaims(w: World, user: Address, amount: nat, a: Address)
    requires MintingIsExact(w)
    ensures ClaimsKept(w, OnLock(w, AfterDeposit(w.lock, user, amount)), a)
  {
    var ds, r := w.lock.deposits, AfterDeposit(w.lock, user, amount);
    if r.Done? {
      var d := r.s.deposits[|ds|];
      var worth := if d.user == a then d.amount else 0;
      assert WorthTo(r.s.deposits, a) == WorthTo(ds, a) + [worth];
      assert DepositAmounts(r.s.deposits) == DepositAmounts(ds) + [d.amount];
      SumExceptAppend(WorthTo(ds, a), worth, w.peg.usedNonces);
      SumExceptAppend(WorthTo(ds, a), worth, {});
      SumExceptAppend(DepositAmounts(ds), d.amount, w.peg.usedNonces);
      SumExceptAppend(DepositAmounts(ds), d.amount, {});
    }
  }

  /** The steps that neither deposit nor mint, nor move peg tokens. */
  lemma OtherStepsRest(w: World, step: Step)
    requires HoldersRest(step) && !step.UserDeposits? && !step.CallMint?
    ensures Next(w, step).lock.deposits == w.lock.deposits && Next(w, step).peg == w.peg
  {
  }

  /** A step moves value from what an account is owed to its balance, and only a deposit adds any. */
  lemma StepKeepsClaims(w: World, step: Step, a: Address)
    requires MintingIsExact(w) && HoldersRest(step)
    ensures ClaimsKept(w, Next(w, step), a)
  {
    if step.UserDeposits? {
      DepositKeepsClaims(w, step.user, step.amount, a);
    } else if step.CallMint? {
      MintKeepsClaims(w, step.n, step.result, a);
    } else {
      OtherStepsRest(w, step);
    }
  }

  lemma {:induction false} RunKeepsClaims(w: World, steps: seq<Step>, a: Address)
    requires MintingIsExact(w) && forall k :: 0 <= k < |steps| ==> HoldersRest(steps[k])
    ensures MintingIsExact(Run(w, steps)) && ClaimsKept(w, Run(w, steps), a)
  {
    if steps != [] {
      var before, last := Run(w, steps[..|steps| - 1]), steps[|steps| - 1];
      RunKeepsClaims(w, steps[..|steps| - 1], a);
      StepKeepsClaims(before, last, a);
      StepKeepsMintingExact(before, last);
    }
  }

  /** Two runs with the same deposits that have minted the same nonces leave every account with the same balance. */
  lemma MintLegIsConfluent(w: World, steps: seq<Step>, steps': seq<Step>, a: Address)
    requires MintingIsExact(w)
    requires forall k :: 0 <= k < |steps| ==> HoldersRest(steps[k])
    requires forall k :: 0 <= k < |steps'| ==> HoldersRest(steps'[k])
    ensures var t, t' := Run(w, steps), Run(w, steps');
            t.lock.deposits == t'.lock.deposits && t.peg.usedNonces == t'.peg.usedNonces ==>
              Get(t.peg.balances, a) == Get(t'.peg.balances, a)
  {
    RunKeepsClaims(w, steps, a);
    RunKeepsClaims(w, steps', a);
  }

  // ----- Every deposit once, in nonce order -----

  /** Every deposit credited once, in nonce order. */
  function CreditedInOrder(balances: map<Address, nat>, ds: seq<Deposited>): map<Address, nat> {
    if ds == [] then balances
    else
      var before, d := CreditedInOrder(balances, ds[..|ds| - 1]), ds[|ds| - 1];
      before[d.user := Get(before, d.user) + d.amount]
  }

  lemma {:induction false} CreditedInOrderAdds(balances: map<Address, nat>, ds: seq<Deposited>, a: Address)
    ensures Get(CreditedInOrder(balances, ds), a) == Get(balances, a) + TotalWorth(ds, a)
  {
    if ds != [] {
      CreditedInOrderAdds(balances, ds[..|ds| - 1], a);
      assert WorthTo(ds, a)[..|ds| - 1] == WorthTo(ds[..|ds| - 1], a);
    }
  }

  lemma {:induction false} NothingIsLeft(xs: seq<nat>, skip: set<nat>)
    requires forall i :: 0 <= i < |xs| ==> i in skip
    ensures SumExcept(xs, skip) == 0
  {
    if xs != [] { NothingIsLeft(xs[..|xs| - 1], skip); }
  }

  /** The relayer handling each deposit once, in nonce order. */
  function HandledInOrder(n: nat): seq<Step> {
    if n == 0 then [] else HandledInOrder(n - 1) + DepositSteps(n - 1, Carried)
  }

  lemma {:induction false} HandlersRest(n: nat)
    ensures forall k :: 0 <= k < |HandledInOrder(n)| ==> HoldersRest(HandledInOrder(n)[k])
  {
    if n > 0 { HandlersRest(n - 1); }
  }

  /** The ledgers of `w` with the deposits of `t`, before a relayer that has done nothing. */
  function BeforeRelaying(w: World, t: World): World {
    w.(lock := t.lock, seenMinted := {}, minting := multiset{}, mintFailed := multiset{})
  }

  /** The first `n` deposits have been handled, and minted. */
  ghost predicate HandledUpTo(u: World, ds: seq<Deposited>, n: nat) {
    && u.lock.deposits == ds
    && (forall m: nat :: m in u.peg.usedNonces <==> m < n)
    && (forall m: nat :: m in u.seenMinted <==> m < n)
    && u.minting == multiset{} && u.mintFailed == multiset{}
  }

  lemma OneMoreHandled(u: World, ds: seq<Deposited>, n: nat)
    requires n < |ds| && HandledUpTo(u, ds, n) && ds[n].nonce == n && u.peg.totalSupply + ds[n].amount < WORD
    ensures var v := Run(u, DepositSteps(n, Carried));
            HandledUpTo(v, ds, n + 1) && v.peg.totalSupply == u.peg.totalSupply + ds[n].amount
  {
    HandleDepositUnfolds(u, n, Carried);
    var v := DepositMarked(u, n);
    assert v == u.(seenMinted := u.seenMinted + {n}, minting := multiset{n});
    var x := MintCalled(v, n, Carried);
    assert x.minting == multiset{} && x.mintFailed == multiset{};
  }

  lemma SumOfPrefix(xs: seq<nat>, n: nat)
    requires n < |xs|
    ensures SumExcept(xs[..n + 1], {}) == SumExcept(xs[..n], {}) + xs[n]
  {
    assert xs[..n + 1][..n] == xs[..n];
  }

  lemma {:induction false} PrefixSumsGrow(xs: seq<nat>, n: nat)
    requires n <= |xs|
    ensures SumExcept(xs[..n], {}) <= SumExcept(xs, {})
    decreases |xs| - n
  {
    if n < |xs| {
      SumOfPrefix(xs, n);
      PrefixSumsGrow(xs, n + 1);
    } else {
      assert xs[..n] == xs;
    }
  }

  lemma {:induction false} AllAreHandled(u: World, ds: seq<Deposited>, n: nat)
    requires HandledUpTo(u, ds, 0) && n <= |ds| && forall m :: 0 <= m < |ds| ==> ds[m].nonce == m
    requires u.peg.totalSupply + TotalDeposited(ds) < WORD
    ensures var v := Run(u, HandledInOrder(n));
            HandledUpTo(v, ds, n) && v.peg.totalSupply == u.peg.totalSupply + SumExcept(DepositAmounts(ds)[..n], {})
  {
    var xs := DepositAmounts(ds);
    if n == 0 {
      assert xs[..0] == [];
    } else {
      AllAreHandled(u, ds, n - 1);
      SumOfPrefix(xs, n - 1);
      PrefixSumsGrow(xs, n);
      RunSplits(u, HandledInOrder(n - 1), DepositSteps(n - 1, Carried));
      OneMoreHandled(Run(u, HandledInOrder(n - 1)), ds, n - 1);
    }
  }

  ghost predicate AllMinted(w: World) {
    forall n: nat :: n < |w.lock.deposits| ==> n in w.peg.usedNonces
  }

  lemma NothingIsOwed(w: World, a: Address)
    requires AllMinted(w)
    ensures Owed(w, a) == 0 && Unminted(w.lock, w.peg) == 0
  {
    NothingIsLeft(WorthTo(w.lock.deposits, a), w.peg.usedNonces);
    NothingIsLeft(DepositAmounts(w.lock.deposits), w.peg.usedNonces);
  }

  /** Once every nonce is minted, every account holds what crediting each deposit once in nonce order would give it. */
  lemma AllMintedIsCreditedInOrder(w: World, steps: seq<Step>, a: Address)
    requires MintingIsExact(w) && w.peg.usedNonces == {}
    requires forall k :: 0 <= k < |steps| ==> HoldersRest(steps[k])
    requires AllMinted(Run(w, steps))
    ensures var t := Run(w, steps);
            Get(t.peg.balances, a) == Get(CreditedInOrder(w.peg.balances, t.lock.deposits), a)
  {
    var t := Run(w, steps);
    RunKeepsClaims(w, steps, a);
    CreditedInOrderAdds(w.peg.balances, t.lock.deposits, a);
    NothingIsOwed(t, a);
  }

  /** Then the handlers, run once per deposit in nonce order, mint every nonce too. */
  lemma AllCanBeHandledInOrder(w: World, steps: seq<Step>)
    requires MintingIsExact(w) && w.peg.usedNonces == {} && w.peg.totalSupply < WORD
    requires forall k :: 0 <= k < |steps| ==> HoldersRest(steps[k])
    requires AllMinted(Run(w, steps))
    ensures var t := Run(w, steps);
            MintingIsExact(t)
            && HandledUpTo(Run(BeforeRelaying(w, t), HandledInOrder(|t.lock.deposits|)), t.lock.deposits, |t.lock.deposits|)
  {
    var t := Run(w, steps);
    var ds := t.lock.deposits;
    RunKeepsClaims(w, steps, "");
    NothingIsOwed(t, "");
    assert t.peg.totalSupply == w.peg.totalSupply + TotalDeposited(ds);
    AllAreHandled(BeforeRelaying(w, t), ds, |ds|);
  }

  /**
   Once every nonce is minted, however often and in whatever order deposits were delivered, balances are those of a
   relayer that handles each deposit once in nonce order.
   */
  lemma AllMintedIsHandledInOrder(w: World, steps: seq<Step>, a: Address)
    requires MintingIsExact(w) && w.peg.usedNonces == {} && w.peg.totalSupply < WORD
    requires forall k :: 0 <= k < |steps| ==> HoldersRest(steps[k])
    requires AllMinted(Run(w, steps))
    ensures var t := Run(w, steps);
            Get(t.peg.balances, a)
            == Get(Run(BeforeRelaying(w, t), HandledInOrder(|t.lock.deposits|)).peg.balances, a)
  {
    var t := Run(w, steps);
    var n := |t.lock.deposits|;
    AllMintedIsCreditedInOrder(w, steps, a);
    AllCanBeHandledInOrder(w, steps);
    HandlersRest(n);
    NothingMintedYet(w, t);
    AllMintedIsCreditedInOrder(BeforeRelaying(w, t), HandledInOrder(n), a);
  }

  lemma MintsUseNonces(w: World)
    requires MintingIsExact(w)
    ensures w.peg.mints != [] ==> w.peg.usedNonces != {}
  {
    if w.peg.mints != [] { assert w.peg.mints[0].sourceNonce in w.peg.usedNonces; }
  }

  lemma NothingMintedYet(w: World, t: World)
    requires MintingIsExact(w) && w.peg.usedNonces == {} && MintingIsExact(t)
    ensures MintingIsExact(BeforeRelaying(w, t))
  {
    MintsUseNonces(w);
  }
}
