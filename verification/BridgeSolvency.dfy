/** What the bridge protocol keeps over every interleaving: minting once per nonce, and solvency of the lock. */
module BridgeSolvency {
  import opened Sums
  import opened BridgeLedgers
  import opened BridgeProtocol

  // ----- Sums over the event logs -----

  function DepositAmounts(ds: seq<Deposited>): seq<nat> { Amounts(ds, (d: Deposited) => d.amount) }
  function BurnAmounts(bs: seq<Burned>): seq<nat> { Amounts(bs, (b: Burned) => b.amount) }
  function WithdrawnAmounts(ws: seq<Withdrawn>): seq<nat> { Amounts(ws, (w: Withdrawn) => w.amount) }

  /** Net deposits whose nonce has not been minted. */
  ghost function Unminted(l: Lock, p: Peg): nat {
    SumExcept(DepositAmounts(l.deposits), p.usedNonces)
  }

  function Elements(m: multiset<nat>): set<nat> {
    set i | i in m
  }

  /** Burns that have not been paid out. */
  ghost function Unpaid(burns: seq<Burned>, paid: multiset<nat>): nat {
    SumExcept(BurnAmounts(burns), Elements(paid))
  }

  ghost function TotalBurned(burns: seq<Burned>): nat {
    SumExcept(BurnAmounts(burns), {})
  }

  ghost function TotalWithdrawn(ws: seq<Withdrawn>): nat {
    SumExcept(WithdrawnAmounts(ws), {})
  }

  lemma TotalBurnedAppend(burns: seq<Burned>, b: Burned)
    ensures BurnAmounts(burns + [b]) == BurnAmounts(burns) + [b.amount]
    ensures TotalBurned(burns + [b]) == TotalBurned(burns) + b.amount
  {
    assert BurnAmounts(burns + [b]) == BurnAmounts(burns) + [b.amount];
    SumExceptAppend(BurnAmounts(burns), b.amount, {});
  }

  lemma TotalWithdrawnAppend(ws: seq<Withdrawn>, w: Withdrawn)
    ensures TotalWithdrawn(ws + [w]) == TotalWithdrawn(ws) + w.amount
  {
    assert WithdrawnAmounts(ws + [w]) == WithdrawnAmounts(ws) + [w.amount];
    SumExceptAppend(WithdrawnAmounts(ws), w.amount, {});
  }

  // ----- Minting: holds under every step, restarts and misreported calls included -----

  /**
   Deposits are numbered in order. Every Minted event answers the deposit with its nonce, to the same user and with
   exactly the net amount; no nonce has two of them, and the used nonces are theirs.
   */
  ghost predicate MintLogIsExact(ds: seq<Deposited>, used: set<nat>, mints: seq<Minted>) {
    && (forall n :: 0 <= n < |ds| ==> ds[n].nonce == n)
    && (forall k :: 0 <= k < |mints| ==>
          mints[k].sourceNonce < |ds| && mints[k].sourceNonce in used
          && ds[mints[k].sourceNonce] == Deposited(mints[k].to, mints[k].amount, mints[k].sourceNonce))
    && (forall j, k :: 0 <= j < k < |mints| ==> mints[j].sourceNonce != mints[k].sourceNonce)
    && (forall n :: n in used ==> n < |ds| && exists k :: 0 <= k < |mints| && mints[k].sourceNonce == n)
  }

  /** The relayer's calls under way answer deposits that exist. */
  ghost predicate AllEmitted(ds: seq<Deposited>, calls: multiset<nat>) {
    forall n :: n in calls ==> n < |ds|
  }

  ghost predicate MintingIsExact(w: World) {
    && MintLogIsExact(w.lock.deposits, w.peg.usedNonces, w.peg.mints)
    && AllEmitted(w.lock.deposits, w.minting)
    && AllEmitted(w.lock.deposits, w.mintFailed)
  }

  lemma MintKeepsLogExact(ds: seq<Deposited>, p: Peg, n: nat)
    requires n < |ds| && MintLogIsExact(ds, p.usedNonces, p.mints)
    ensures var r := AfterMint(p, ds[n].user, ds[n].amount, ds[n].nonce);
            r.Done? ==> MintLogIsExact(ds, r.s.usedNonces, r.s.mints)
  {
    var r := AfterMint(p, ds[n].user, ds[n].amount, ds[n].nonce);
    if r.Done? {
      var mints := r.s.mints;
      assert mints[|p.mints|].sourceNonce == n;
      forall m | m in r.s.usedNonces
        ensures m < |ds| && exists k :: 0 <= k < |mints| && mints[k].sourceNonce == m
      {
        if m in p.usedNonces {
          var k :| 0 <= k < |p.mints| && p.mints[k].sourceNonce == m;
          assert mints[k].sourceNonce == m;
        }
      }
    }
  }

  lemma DepositKeepsMintingExact(w: World, user: Address, amount: nat)
    requires MintingIsExact(w)
    ensures MintingIsExact(OnLock(w, AfterDeposit(w.lock, user, amount)))
  {
  }

  lemma CallKeepsMintingExact(w: World, n: nat, result: CallResult)
    requires MintingIsExact(w)
    ensures MintingIsExact(MintCalled(w, n, result))
  {
    if n < |w.lock.deposits| { MintKeepsLogExact(w.lock.deposits, w.peg, n); }
  }

  lemma MarksKeepMintingExact(w: World, n: nat)
    requires MintingIsExact(w)
    ensures MintingIsExact(DepositMarked(w, n))
    ensures MintingIsExact(DepositUnmarked(w, n))
  {
  }

  /** What minting depends on. */
  ghost predicate SameMinting(w: World, w': World) {
    && w'.lock.deposits == w.lock.deposits
    && w'.peg.usedNonces == w.peg.usedNonces
    && w'.peg.mints == w.peg.mints
    && w'.minting == w.minting
    && (w'.mintFailed == w.mintFailed || w'.mintFailed == multiset{})
  }

  lemma LedgerStepLeavesMinting(w: World, step: Step)
    requires step.OwnerSetsFee? || step.TokenMoves? || step.PegMoves? || step.UserBurns?
    ensures SameMinting(w, Next(w, step))
  {
  }

  lemma WithdrawLegLeavesMinting(w: World, step: Step)
    requires step.MarkBurn? || step.CallWithdraw? || step.UnmarkBurn? || step.RelayerRestarts?
    ensures SameMinting(w, Next(w, step))
  {
  }

  lemma StepKeepsMintingExact(w: World, step: Step)
    requires MintingIsExact(w)
    ensures MintingIsExact(Next(w, step))
  {
    if step.UserDeposits? {
      DepositKeepsMintingExact(w, step.user, step.amount);
    } else if step.CallMint? {
      CallKeepsMintingExact(w, step.n, step.result);
    } else if step.MarkDeposit? || step.UnmarkDeposit? {
      MarksKeepMintingExact(w, step.n);
    } else if step.MarkBurn? || step.CallWithdraw? || step.UnmarkBurn? || step.RelayerRestarts? {
      WithdrawLegLeavesMinting(w, step);
    } else {
      LedgerStepLeavesMinting(w, step);
    }
  }

  /** Minting is exact in every reachable state, whatever the relayer and its calls do. */
  lemma {:induction false} MintingIsAlwaysExact(w: World, steps: seq<Step>)
    requires MintingIsExact(w)
    ensures MintingIsExact(Run(w, steps))
  {
    if steps != [] {
      MintingIsAlwaysExact(w, steps[..|steps| - 1]);
      StepKeepsMintingExact(Run(w, steps[..|steps| - 1]), steps[|steps| - 1]);
    }
  }

  // ----- The books: hold under every step -----

  /** The lock's tokens plus everything withdrawn account for fees, donations, deposits to mint, supply and burns. */
  ghost predicate BooksBalance(l: Lock, p: Peg) {
    && l.feeBps <= MAX_FEE_BPS
    && Sum(p.balances) == p.totalSupply
    && Get(l.tokens, LOCK) + TotalWithdrawn(l.withdrawals)
       == l.fees + l.donated + Unminted(l, p) + p.totalSupply + TotalBurned(p.burns)
  }

  lemma DepositKeepsBooks(l: Lock, p: Peg, user: Address, amount: nat)
    requires BooksBalance(l, p) && |l.deposits| !in p.usedNonces
    ensures BooksBalance(OrSame(AfterDeposit(l, user, amount), l), p)
  {
    var r := AfterDeposit(l, user, amount);
    if r.Done? {
      var net := amount - Fee(amount, l.feeBps);
      var xs := DepositAmounts(l.deposits);
      assert DepositAmounts(r.s.deposits) == xs + [net];
      SumExceptAppend(xs, net, p.usedNonces);
    }
  }

  lemma TokenMoveKeepsBooks(l: Lock, p: Peg, from: Address, to: Address, amount: nat)
    requires BooksBalance(l, p)
    ensures BooksBalance(OrSame(AfterTransferToken(l, from, to, amount), l), p)
  {
  }

  lemma PegMoveKeepsBooks(l: Lock, p: Peg, from: Address, to: Address, amount: nat)
    requires BooksBalance(l, p)
    ensures BooksBalance(l, OrSame(AfterTransferPeg(p, from, to, amount), p))
  {
    TransferKeepsSum(p.balances, from, to, amount);
  }

  lemma MintKeepsBooks(l: Lock, p: Peg, n: nat)
    requires BooksBalance(l, p) && n < |l.deposits| && l.deposits[n].nonce == n
    ensures BooksBalance(l, OrSame(AfterMint(p, l.deposits[n].user, l.deposits[n].amount, n), p))
  {
    var d := l.deposits[n];
    if n !in p.usedNonces { SumExceptSkip(DepositAmounts(l.deposits), p.usedNonces, n); }
    SumAfterSet(p.balances, d.user, Get(p.balances, d.user) + d.amount);
  }

  lemma BurnKeepsBooks(l: Lock, p: Peg, from: Address, amount: nat, nonce: nat)
    requires BooksBalance(l, p)
    ensures BooksBalance(l, OrSame(AfterBurn(p, from, amount, nonce), p))
  {
    var r := AfterBurn(p, from, amount, nonce);
    if r.Done? {
      TotalBurnedAppend(p.burns, Burned(from, amount, nonce));
      SumAfterSet(p.balances, from, Get(p.balances, from) - amount);
    }
  }

  lemma WithdrawKeepsBooks(l: Lock, p: Peg, to: Address, amount: nat, nonce: nat)
    requires BooksBalance(l, p)
    ensures BooksBalance(OrSame(AfterWithdraw(l, to, amount, nonce), l), p)
  {
    var r := AfterWithdraw(l, to, amount, nonce);
    if r.Done? {
      TotalWithdrawnAppend(l.withdrawals, Withdrawn(to, amount, nonce));
    }
  }

  lemma MintCallKeepsBooks(w: World, n: nat, result: CallResult)
    requires MintingIsExact(w) && BooksBalance(w.lock, w.peg)
    ensures BooksBalance(MintCalled(w, n, result).lock, MintCalled(w, n, result).peg)
  {
    if n in w.minting && n < |w.lock.deposits| {
      MintKeepsBooks(w.lock, w.peg, n);
    }
  }

  lemma WithdrawCallKeepsBooks(w: World, i: nat, result: CallResult)
    requires BooksBalance(w.lock, w.peg)
    ensures BooksBalance(WithdrawCalled(w, i, result).lock, WithdrawCalled(w, i, result).peg)
  {
    if i < |w.peg.burns| {
      var b := w.peg.burns[i];
      WithdrawKeepsBooks(w.lock, w.peg, b.from, b.amount, b.withdrawNonce);
    }
  }

  lemma RelayerStepKeepsBooks(w: World, step: Step)
    requires MintingIsExact(w) && BooksBalance(w.lock, w.peg)
    requires step.MarkDeposit? || step.CallMint? || step.UnmarkDeposit? || step.MarkBurn? || step.CallWithdraw? || step.UnmarkBurn? || step.RelayerRestarts?
    ensures BooksBalance(Next(w, step).lock, Next(w, step).peg)
  {
    if step.CallMint? {
      MintCallKeepsBooks(w, step.n, step.result);
    } else if step.CallWithdraw? {
      WithdrawCallKeepsBooks(w, step.i, step.result);
    }
  }

  lemma LedgerStepKeepsBooks(w: World, step: Step)
    requires MintingIsExact(w) && BooksBalance(w.lock, w.peg)
    requires step.UserDeposits? || step.OwnerSetsFee? || step.TokenMoves? || step.PegMoves? || step.UserBurns?
    ensures BooksBalance(Next(w, step).lock, Next(w, step).peg)
  {
    match step
    case UserDeposits(user, amount) => DepositKeepsBooks(w.lock, w.peg, user, amount);
    case OwnerSetsFee(newFee) =>
    case TokenMoves(from, to, amount) => TokenMoveKeepsBooks(w.lock, w.peg, from, to, amount);
    case PegMoves(from, to, amount) => PegMoveKeepsBooks(w.lock, w.peg, from, to, amount);
    case UserBurns(from, amount, withdrawNonce) => BurnKeepsBooks(w.lock, w.peg, from, amount, withdrawNonce);
  }

  lemma StepKeepsBooks(w: World, step: Step)
    requires MintingIsExact(w) && BooksBalance(w.lock, w.peg)
    ensures BooksBalance(Next(w, step).lock, Next(w, step).peg)
  {
    if step.UserDeposits? || step.OwnerSetsFee? || step.TokenMoves? || step.PegMoves? || step.UserBurns? {
      LedgerStepKeepsBooks(w, step);
    } else {
      RelayerStepKeepsBooks(w, step);
    }
  }

  // ----- Paying out: holds within one relayer lifetime -----

  /**
   The steps of one relayer lifetime in which a withdrawal that reports an error had no effect. The mint leg may
   still misreport.
   */
  predicate WithinOneLifetime(step: Step) {
    !step.RelayerRestarts? && !(step.CallWithdraw? && step.result.Misreported?)
  }

  /** Burns that the relayer has taken up: being paid, failed and still marked, or paid. */
  function TakenUp(w: World): multiset<nat> {
    w.withdrawing + w.withdrawFailed + w.paid
  }

  /** Burns that were taken up are marked, each taken up once, and no two of them share a nonce. */
  ghost predicate OncePerNonce(burns: seq<Burned>, seen: set<nat>, taken: multiset<nat>) {
    && (forall i :: i in taken ==> i < |burns| && taken[i] == 1 && burns[i].withdrawNonce in seen)
    && (forall i, j :: i in taken && j in taken && i != j && i < |burns| && j < |burns| ==>
          burns[i].withdrawNonce != burns[j].withdrawNonce)
  }

  ghost predicate PayingIsGuarded(w: World) {
    && OncePerNonce(w.peg.burns, w.seenWithdrawn, TakenUp(w))
    && TotalWithdrawn(w.lock.withdrawals) + Unpaid(w.peg.burns, w.paid) == TotalBurned(w.peg.burns)
  }

  lemma BurnKeepsPaying(w: World, from: Address, amount: nat, nonce: nat)
    requires PayingIsGuarded(w)
    ensures PayingIsGuarded(OnPeg(w, AfterBurn(w.peg, from, amount, nonce)))
  {
    var r := AfterBurn(w.peg, from, amount, nonce);
    if r.Done? {
      TotalBurnedAppend(w.peg.burns, Burned(from, amount, nonce));
      assert |w.peg.burns| in w.paid ==> |w.peg.burns| in TakenUp(w);
      SumExceptAppend(BurnAmounts(w.peg.burns), amount, Elements(w.paid));
    }
  }

  lemma TakeUpOnce(burns: seq<Burned>, seen: set<nat>, taken: multiset<nat>, i: nat)
    requires OncePerNonce(burns, seen, taken) && i < |burns| && burns[i].withdrawNonce !in seen
    ensures OncePerNonce(burns, seen + {burns[i].withdrawNonce}, taken + multiset{i})
  {
    assert i !in taken;
  }

  lemma PutDown(burns: seq<Burned>, seen: set<nat>, taken: multiset<nat>, i: nat)
    requires OncePerNonce(burns, seen, taken) && i in taken && i < |burns|
    ensures OncePerNonce(burns, seen - {burns[i].withdrawNonce}, taken - multiset{i})
  {
    var less := taken - multiset{i};
    assert taken[i] == 1 && i !in less;
  }

  lemma MarkKeepsPaying(w: World, i: nat)
    requires PayingIsGuarded(w)
    ensures PayingIsGuarded(BurnMarked(w, i))
  {
    if i < |w.peg.burns| && w.peg.burns[i].withdrawNonce !in w.seenWithdrawn {
      TakeUpOnce(w.peg.burns, w.seenWithdrawn, TakenUp(w), i);
      assert TakenUp(BurnMarked(w, i)) == TakenUp(w) + multiset{i};
    }
  }

  lemma UnmarkKeepsPaying(w: World, i: nat)
    requires PayingIsGuarded(w)
    ensures PayingIsGuarded(BurnUnmarked(w, i))
  {
    if i in w.withdrawFailed && i < |w.peg.burns| {
      assert i in TakenUp(w);
      PutDown(w.peg.burns, w.seenWithdrawn, TakenUp(w), i);
      assert TakenUp(BurnUnmarked(w, i)) == TakenUp(w) - multiset{i};
    }
  }

  lemma PayKeepsTotals(w: World, i: nat)
    requires PayingIsGuarded(w) && i in w.withdrawing && i < |w.peg.burns|
    ensures i !in w.paid
    ensures var b := w.peg.burns[i];
            var r := AfterWithdraw(w.lock, b.from, b.amount, b.withdrawNonce);
            r.Done? ==>
              TotalWithdrawn(r.s.withdrawals) + Unpaid(w.peg.burns, w.paid + multiset{i}) == TotalBurned(w.peg.burns)
  {
    assert i in TakenUp(w);
    var b := w.peg.burns[i];
    TotalWithdrawnAppend(w.lock.withdrawals, Withdrawn(b.from, b.amount, b.withdrawNonce));
    SumExceptSkip(BurnAmounts(w.peg.burns), Elements(w.paid), i);
    assert Elements(w.paid + multiset{i}) == Elements(w.paid) + {i};
  }

  lemma CallKeepsPaying(w: World, i: nat, result: CallResult)
    requires PayingIsGuarded(w) && !result.Misreported?
    ensures PayingIsGuarded(WithdrawCalled(w, i, result))
  {
    if i in w.withdrawing && i < |w.peg.burns| {
      PayKeepsTotals(w, i);
      assert TakenUp(WithdrawCalled(w, i, result)) == TakenUp(w);
    }
  }

  /** What paying depends on. */
  ghost predicate SamePaying(w: World, w': World) {
    && w'.peg.burns == w.peg.burns
    && w'.lock.withdrawals == w.lock.withdrawals
    && w'.seenWithdrawn == w.seenWithdrawn
    && w'.withdrawing == w.withdrawing
    && w'.withdrawFailed == w.withdrawFailed
    && w'.paid == w.paid
  }

  lemma MintMarksLeavePaying(w: World, n: nat)
    ensures SamePaying(w, DepositMarked(w, n)) && SamePaying(w, DepositUnmarked(w, n))
  {
  }

  lemma MintCallLeavesPaying(w: World, n: nat, result: CallResult)
    ensures SamePaying(w, MintCalled(w, n, result))
  {
  }

  lemma LedgerStepLeavesPaying(w: World, step: Step)
    requires step.UserDeposits? || step.OwnerSetsFee? || step.TokenMoves? || step.PegMoves?
    ensures SamePaying(w, Next(w, step))
  {
  }

  lemma StepKeepsPaying(w: World, step: Step)
    requires PayingIsGuarded(w) && WithinOneLifetime(step)
    ensures PayingIsGuarded(Next(w, step))
  {
    if step.UserBurns? {
      BurnKeepsPaying(w, step.from, step.amount, step.withdrawNonce);
    } else if step.MarkBurn? {
      MarkKeepsPaying(w, step.i);
    } else if step.UnmarkBurn? {
      UnmarkKeepsPaying(w, step.i);
    } else if step.CallWithdraw? {
      CallKeepsPaying(w, step.i, step.result);
    } else if step.CallMint? {
      MintCallLeavesPaying(w, step.n, step.result);
    } else if step.MarkDeposit? || step.UnmarkDeposit? {
      MintMarksLeavePaying(w, step.n);
    } else {
      LedgerStepLeavesPaying(w, step);
    }
  }

  // ----- Main results -----

  ghost predicate Sound(w: World) {
    MintingIsExact(w) && BooksBalance(w.lock, w.peg) && PayingIsGuarded(w)
  }

  lemma InitialIsSound(w: World)
    requires Initial(w)
    ensures Sound(w)
  {
  }

  lemma {:induction false} RunKeepsSound(w: World, steps: seq<Step>)
    requires Sound(w) && forall k :: 0 <= k < |steps| ==> WithinOneLifetime(steps[k])
    ensures Sound(Run(w, steps))
  {
    if steps != [] {
      var before, last := Run(w, steps[..|steps| - 1]), steps[|steps| - 1];
      RunKeepsSound(w, steps[..|steps| - 1]);
      StepKeepsMintingExact(before, last);
      StepKeepsBooks(before, last);
      StepKeepsPaying(before, last);
    }
  }

  /** What the lock holds is fees, donations, deposits still to mint, the peg supply and burns still to pay. */
  ghost predicate Solvent(w: World) {
    Get(w.lock.tokens, LOCK)
    == w.lock.fees + w.lock.donated + Unminted(w.lock, w.peg) + w.peg.totalSupply + Unpaid(w.peg.burns, w.paid)
  }

  lemma SoundMeansSolvent(w: World)
    requires Sound(w)
    ensures Solvent(w)
    ensures forall i :: w.paid[i] <= 1
    ensures forall i :: i in w.withdrawing ==>
              i < |w.peg.burns| && w.peg.burns[i].amount <= Get(w.lock.tokens, LOCK)
  {
    forall i ensures w.paid[i] <= 1 {
      if i in w.paid { assert i in TakenUp(w) && w.paid[i] <= TakenUp(w)[i]; }
    }
    forall i | i in w.withdrawing
      ensures i < |w.peg.burns| && w.peg.burns[i].amount <= Get(w.lock.tokens, LOCK)
    {
      assert i in TakenUp(w);
      PayKeepsTotals(w, i);
      SumExceptSkip(BurnAmounts(w.peg.burns), Elements(w.paid), i);
    }
  }

  /**
   Over every interleaving within one relayer lifetime the lock is solvent, each burn is paid at most once, and a
   relayed withdrawal never lacks funds.
   */
  lemma BridgeIsSolvent(w: World, steps: seq<Step>)
    requires Initial(w) && forall k :: 0 <= k < |steps| ==> WithinOneLifetime(steps[k])
    ensures var t := Run(w, steps);
            && Solvent(t)
            && (forall i :: t.paid[i] <= 1)
            && (forall i :: i in t.withdrawing ==>
                  i < |t.peg.burns| && t.peg.burns[i].amount <= Get(t.lock.tokens, LOCK))
  {
    InitialIsSound(w);
    RunKeepsSound(w, steps);
    SoundMeansSolvent(Run(w, steps));
  }
}
