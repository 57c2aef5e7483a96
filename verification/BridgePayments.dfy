/** Whom the bridge pays: account by account, over all runs. */
module BridgePayments {
  import opened Sums
  import opened BridgeLedgers
  import opened BridgeProtocol
  import opened BridgeSolvency
  import opened BridgeLimits

  function BurnedBy(burns: seq<Burned>, a: Address): seq<nat> {
    Amounts(burns, (b: Burned) => if b.from == a then b.amount else 0)
  }

  /** The amounts of the burns of `a`, each as often as it was paid. */
  function PaidTo(w: World, a: Address): nat {
    PaidOut(BurnedBy(w.peg.burns, a), w.paid)
  }

  /** What the Withdrawn events say that `a` received. */
  ghost function WithdrawnTo(ws: seq<Withdrawn>, a: Address): nat {
    SumExcept(Amounts(ws, (w: Withdrawn) => if w.user == a then w.amount else 0), {})
  }

  lemma WithdrawnToAppend(ws: seq<Withdrawn>, w: Withdrawn, a: Address)
    ensures WithdrawnTo(ws + [w], a) == WithdrawnTo(ws, a) + if w.user == a then w.amount else 0
  {
    var xs := Amounts(ws, (w: Withdrawn) => if w.user == a then w.amount else 0);
    var x := if w.user == a then w.amount else 0;
    assert Amounts(ws + [w], (w: Withdrawn) => if w.user == a then w.amount else 0) == xs + [x];
    SumExceptAppend(xs, x, {});
  }

  /** The account takes no part in the step by its own doing. */
  predicate Idle(step: Step, a: Address) {
    && !(step.UserDeposits? && step.user == a)
    && !(step.TokenMoves? && (step.from == a || step.to == a))
  }

  /** From `w` to `t` the account's tokens, and what events say it received, grew by its burns that were paid. */
  ghost predicate PaymentsReach(w: World, t: World, a: Address) {
    && Get(t.lock.tokens, a) + PaidTo(w, a) == Get(w.lock.tokens, a) + PaidTo(t, a)
    && WithdrawnTo(t.lock.withdrawals, a) + PaidTo(w, a) == WithdrawnTo(w.lock.withdrawals, a) + PaidTo(t, a)
  }

  ghost predicate PaidExist(w: World) {
    forall i :: i in w.paid ==> i < |w.peg.burns|
  }

  lemma CallReaches(w: World, i: nat, result: CallResult, a: Address)
    requires PaidExist(w) && a != LOCK
    ensures PaidExist(WithdrawCalled(w, i, result)) && PaymentsReach(w, WithdrawCalled(w, i, result), a)
  {
    CallOutcome(w, i, result);
    if Pays(w, i, result) {
      var b := w.peg.burns[i];
      WithdrawEffects(w.lock, b.from, b.amount, b.withdrawNonce);
      WithdrawnToAppend(w.lock.withdrawals, Withdrawn(b.from, b.amount, b.withdrawNonce), a);
      PaidOutOnceMore(BurnedBy(w.peg.burns, a), w.paid, i);
    }
  }

  lemma BurnReaches(w: World, from: Address, amount: nat, nonce: nat, a: Address)
    requires PaidExist(w)
    ensures var t := OnPeg(w, AfterBurn(w.peg, from, amount, nonce)); PaidExist(t) && PaymentsReach(w, t, a)
  {
    var r := AfterBurn(w.peg, from, amount, nonce);
    if r.Done? {
      var x := if from == a then amount else 0;
      assert BurnedBy(r.s.burns, a) == BurnedBy(w.peg.burns, a) + [x];
      PaidOutAppend(BurnedBy(w.peg.burns, a), x, w.paid);
    }
  }

  lemma DepositReaches(w: World, user: Address, amount: nat, a: Address)
    requires PaidExist(w) && a != LOCK && a != user
    ensures var t := OnLock(w, AfterDeposit(w.lock, user, amount)); PaidExist(t) && PaymentsReach(w, t, a)
  {
    TransferMoves(w.lock.tokens, user, LOCK, amount);
  }

  lemma TokenMoveReaches(w: World, from: Address, to: Address, amount: nat, a: Address)
    requires PaidExist(w) && a != from && a != to
    ensures var t := OnLock(w, AfterTransferToken(w.lock, from, to, amount)); PaidExist(t) && PaymentsReach(w, t, a)
  {
    TransferMoves(w.lock.tokens, from, to, amount);
  }

  lemma OthersReach(w: World, step: Step, a: Address)
    requires PaidExist(w) && !step.UserBurns? && !step.CallWithdraw? && !step.UserDeposits? && !step.TokenMoves?
    ensures PaidExist(Next(w, step)) && PaymentsReach(w, Next(w, step), a)
  {
    OtherStepsKeepPayments(w, step);
    OthersKeepTokens(w, step);
  }

  lemma OthersKeepTokens(w: World, step: Step)
    requires !step.CallWithdraw? && !step.UserDeposits? && !step.TokenMoves?
    ensures Next(w, step).lock.tokens == w.lock.tokens
  {
  }

  lemma StepReaches(w: World, step: Step, a: Address)
    requires PaidExist(w) && a != LOCK && Idle(step, a)
    ensures PaidExist(Next(w, step)) && PaymentsReach(w, Next(w, step), a)
  {
    if step.CallWithdraw? {
      CallReaches(w, step.i, step.result, a);
    } else if step.UserBurns? {
      BurnReaches(w, step.from, step.amount, step.withdrawNonce, a);
    } else if step.UserDeposits? {
      DepositReaches(w, step.user, step.amount, a);
    } else if step.TokenMoves? {
      TokenMoveReaches(w, step.from, step.to, step.amount, a);
    } else {
      OthersReach(w, step, a);
    }
  }

  /**
   Payments reach those who burned: over every run, restarts and misreported calls included, an account that neither
   deposits nor trades holds exactly its tokens from before and the amounts of its burns, each as often as it was paid.
   */
  lemma {:induction false} PaymentsReachTheirBurners(w: World, steps: seq<Step>, a: Address)
    requires PaidExist(w) && a != LOCK && forall k :: 0 <= k < |steps| ==> Idle(steps[k], a)
    ensures PaidExist(Run(w, steps)) && PaymentsReach(w, Run(w, steps), a)
  {
    if steps != [] {
      var before := steps[..|steps| - 1];
      PaymentsReachTheirBurners(w, before, a);
      StepReaches(Run(w, before), steps[|steps| - 1], a);
    }
  }
}
