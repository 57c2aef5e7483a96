/**
 Where the withdrawal guard ends: burns that share a nonce, relayer restarts and misreported withdrawals; and, over all
 runs, exactly when the bridge is solvent.
 */
module BridgeLimits {
  import opened Sums
  import opened BridgeLedgers
  import opened BridgeProtocol
  import opened BridgeSolvency

  // ----- Burns that share a nonce -----

  ghost predicate Extends(w: World, t: World) {
    && w.peg.burns <= t.peg.burns
    && w.paid <= t.paid
  }

  lemma StepExtends(w: World, step: Step)
    ensures Extends(w, Next(w, step))
  {
    if step.CallWithdraw? {
      assert w.paid <= w.paid + multiset{step.i};
    }
  }

  lemma {:induction false} RunExtends(w: World, steps: seq<Step>)
    ensures Extends(w, Run(w, steps))
  {
    if steps != [] {
      RunExtends(w, steps[..|steps| - 1]);
      StepExtends(Run(w, steps[..|steps| - 1]), steps[|steps| - 1]);
    }
  }

  /** Nonces are chosen by users: once a burn is paid, another burn with its nonce is never paid in this lifetime. */
  lemma CollidingBurnIsNeverPaid(w: World, steps: seq<Step>, i: nat, j: nat)
    requires Sound(w) && forall k :: 0 <= k < |steps| ==> WithinOneLifetime(steps[k])
    requires i in w.paid && i != j && i < |w.peg.burns| && j < |w.peg.burns|
    requires w.peg.burns[i].withdrawNonce == w.peg.burns[j].withdrawNonce
    ensures j !in Run(w, steps).paid
  {
    var t := Run(w, steps);
    RunKeepsSound(w, steps);
    RunExtends(w, steps);
    assert w.paid[i] <= t.paid[i];
    assert i in TakenUp(t);
    assert t.peg.burns[i] == w.peg.burns[i] && t.peg.burns[j] == w.peg.burns[j];
    assert j in t.paid ==> j in TakenUp(t);
  }

  // ----- What was paid, over all runs -----

  /** Every amount as often as it was paid. */
  function PaidOut(xs: seq<nat>, paid: multiset<nat>): nat {
    if xs == [] then 0
    else
      var n := |xs| - 1;
      PaidOut(xs[..n], paid) + Times(paid[n], xs[n])
  }

  /** Every amount as often as it was paid beyond the first time. */
  function PaidAgain(xs: seq<nat>, paid: multiset<nat>): nat {
    if xs == [] then 0
    else
      var n := |xs| - 1;
      PaidAgain(xs[..n], paid) + if paid[n] > 1 then Times(paid[n] - 1, xs[n]) else 0
  }

  /** `k` times `x`. */
  function Times(k: nat, x: nat): (r: nat)
    ensures k > 0 ==> (r == 0 <==> x == 0)
  {
    if k == 0 then 0 else x + Times(k - 1, x)
  }

  lemma {:induction false} PaidOutSplits(xs: seq<nat>, paid: multiset<nat>)
    ensures PaidOut(xs, paid) + SumExcept(xs, Elements(paid)) == SumExcept(xs, {}) + PaidAgain(xs, paid)
  {
    if xs != [] {
      var n := |xs| - 1;
      PaidOutSplits(xs[..n], paid);
      assert n in Elements(paid) <==> paid[n] > 0;
    }
  }

  lemma {:induction false} NothingPaidAgain(xs: seq<nat>, paid: multiset<nat>)
    ensures PaidAgain(xs, paid) == 0 <==> forall i :: 0 <= i < |xs| && paid[i] > 1 ==> xs[i] == 0
  {
    if xs != [] {
      NothingPaidAgain(xs[..|xs| - 1], paid);
    }
  }

  lemma PaidOutAppend(xs: seq<nat>, x: nat, paid: multiset<nat>)
    requires |xs| !in paid
    ensures PaidOut(xs + [x], paid) == PaidOut(xs, paid)
  {
    assert (xs + [x])[..|xs|] == xs;
  }

  lemma {:induction false} PaidOutOnceMore(xs: seq<nat>, paid: multiset<nat>, i: nat)
    ensures PaidOut(xs, paid + multiset{i}) == PaidOut(xs, paid) + if i < |xs| then xs[i] else 0
  {
    if xs != [] {
      PaidOutOnceMore(xs[..|xs| - 1], paid, i);
    }
  }

  /** Payments are of burns that exist, and the withdrawals add up to them. */
  ghost predicate PaymentsAreRecorded(w: World) {
    && (forall i :: i in w.paid ==> i < |w.peg.burns|)
    && TotalWithdrawn(w.lock.withdrawals) == PaidOut(BurnAmounts(w.peg.burns), w.paid)
  }

  /** What the record of payments depends on. */
  ghost predicate SamePayments(w: World, w': World) {
    w'.peg.burns == w.peg.burns && w'.lock.withdrawals == w.lock.withdrawals && w'.paid == w.paid
  }

  lemma BurnKeepsPayments(w: World, from: Address, amount: nat, nonce: nat)
    requires PaymentsAreRecorded(w)
    ensures PaymentsAreRecorded(OnPeg(w, AfterBurn(w.peg, from, amount, nonce)))
  {
    var r := AfterBurn(w.peg, from, amount, nonce);
    if r.Done? {
      TotalBurnedAppend(w.peg.burns, Burned(from, amount, nonce));
      PaidOutAppend(BurnAmounts(w.peg.burns), amount, w.paid);
    }
  }

  /** The withdrawal of burn `i` is under way and is carried out. */
  ghost predicate Pays(w: World, i: nat, result: CallResult) {
    i in w.withdrawing && i < |w.peg.burns| && !result.LostCall? && w.peg.burns[i].amount <= Get(w.lock.tokens, LOCK)
  }

  /** The tokens that remain in the lock; a payment to the lock itself leaves them there. */
  function TokensLeft(w: World, i: nat): int
    requires i < |w.peg.burns|
  {
    Get(w.lock.tokens, LOCK) - if w.peg.burns[i].from == LOCK then 0 else w.peg.burns[i].amount
  }

  /** What a withdrawal call does to burns, payments and the lock. */
  lemma CallOutcome(w: World, i: nat, result: CallResult)
    ensures var t := WithdrawCalled(w, i, result);
            && t.peg == w.peg
            && (if Pays(w, i, result)
                then t.paid == w.paid + multiset{i} && Get(t.lock.tokens, LOCK) == TokensLeft(w, i)
                     && t.lock.withdrawals == w.lock.withdrawals
                        + [Withdrawn(w.peg.burns[i].from, w.peg.burns[i].amount, w.peg.burns[i].withdrawNonce)]
                else SamePayments(w, t) && t.lock == w.lock)
  {
  }

  lemma CallKeepsPayments(w: World, i: nat, result: CallResult)
    requires PaymentsAreRecorded(w)
    ensures PaymentsAreRecorded(WithdrawCalled(w, i, result))
  {
    CallOutcome(w, i, result);
    if Pays(w, i, result) {
      var b := w.peg.burns[i];
      TotalWithdrawnAppend(w.lock.withdrawals, Withdrawn(b.from, b.amount, b.withdrawNonce));
      PaidOutOnceMore(BurnAmounts(w.peg.burns), w.paid, i);
    }
  }

  lemma OtherStepsKeepPayments(w: World, step: Step)
    requires !step.UserBurns? && !step.CallWithdraw?
    ensures SamePayments(w, Next(w, step))
  {
  }

  lemma StepKeepsPayments(w: World, step: Step)
    requires PaymentsAreRecorded(w)
    ensures PaymentsAreRecorded(Next(w, step))
  {
    if step.UserBurns? {
      BurnKeepsPayments(w, step.from, step.amount, step.withdrawNonce);
    } else if step.CallWithdraw? {
      CallKeepsPayments(w, step.i, step.result);
    } else {
      OtherStepsKeepPayments(w, step);
    }
  }

  /** Minting, books and payments hold in every reachable state, restarts and misreported calls included. */
  lemma {:induction false} RunKeepsRecords(w: World, steps: seq<Step>)
    requires Initial(w)
    ensures var t := Run(w, steps); MintingIsExact(t) && BooksBalance(t.lock, t.peg) && PaymentsAreRecorded(t)
  {
    InitialIsSound(w);
    if steps != [] {
      var before, last := Run(w, steps[..|steps| - 1]), steps[|steps| - 1];
      RunKeepsRecords(w, steps[..|steps| - 1]);
      StepKeepsMintingExact(before, last);
      StepKeepsBooks(before, last);
      StepKeepsPayments(before, last);
    }
  }

  // ----- Solvency, exactly -----

  ghost predicate PaidTwice(w: World) {
    exists i :: 0 <= i < |w.peg.burns| && w.paid[i] > 1 && w.peg.burns[i].amount > 0
  }

  lemma RecordsDecideSolvency(w: World)
    requires BooksBalance(w.lock, w.peg) && PaymentsAreRecorded(w)
    ensures Solvent(w) <==> !PaidTwice(w)
  {
    var xs := BurnAmounts(w.peg.burns);
    PaidOutSplits(xs, w.paid);
    NothingPaidAgain(xs, w.paid);
    assert forall i :: 0 <= i < |xs| ==> xs[i] == w.peg.burns[i].amount;
  }

  /** A step that carries out the withdrawal of a burn that has been paid, and that is not of nothing. */
  ghost predicate PaysTwice(w: World, step: Step) {
    step.CallWithdraw? && Pays(w, step.i, step.result) && step.i in w.paid && w.peg.burns[step.i].amount > 0
  }

  lemma StepPaysTwice(w: World, step: Step)
    requires PaymentsAreRecorded(w)
    ensures PaidTwice(Next(w, step)) <==> PaidTwice(w) || PaysTwice(w, step)
  {
    var t := Next(w, step);
    StepExtends(w, step);
    if PaidTwice(w) {
      var i :| 0 <= i < |w.peg.burns| && w.paid[i] > 1 && w.peg.burns[i].amount > 0;
      assert t.peg.burns[i] == w.peg.burns[i] && t.paid[i] >= w.paid[i];
    }
    if step.CallWithdraw? {
      CallOutcome(w, step.i, step.result);
    } else {
      NoPayment(w, step);
    }
  }

  lemma NoPayment(w: World, step: Step)
    requires PaymentsAreRecorded(w) && !step.CallWithdraw?
    ensures PaidTwice(Next(w, step)) ==> PaidTwice(w)
  {
    var t := Next(w, step);
    StepExtends(w, step);
    PaymentsStay(w, step);
    if PaidTwice(t) {
      var i :| 0 <= i < |t.peg.burns| && t.paid[i] > 1 && t.peg.burns[i].amount > 0;
      assert i in w.paid && t.peg.burns[i] == w.peg.burns[i];
    }
  }

  lemma PaymentsStay(w: World, step: Step)
    requires !step.CallWithdraw?
    ensures Next(w, step).paid == w.paid
  {
  }

  /** Step `k` of a run pays twice. */
  ghost predicate PaysTwiceAt(w: World, steps: seq<Step>, k: nat)
    requires k < |steps|
  {
    PaysTwice(Run(w, steps[..k]), steps[k])
  }

  lemma PaysTwiceAtPrefix(w: World, steps: seq<Step>, n: nat, k: nat)
    requires k < n <= |steps|
    ensures PaysTwiceAt(w, steps[..n], k) <==> PaysTwiceAt(w, steps, k)
  {
    assert steps[..n][..k] == steps[..k];
  }

  lemma LastPaysTwice(w: World, steps: seq<Step>)
    requires Initial(w) && steps != []
    ensures var n := |steps| - 1;
            PaidTwice(Run(w, steps)) <==> PaidTwice(Run(w, steps[..n])) || PaysTwiceAt(w, steps, n)
  {
    var before := steps[..|steps| - 1];
    RunKeepsRecords(w, before);
    StepPaysTwice(Run(w, before), steps[|steps| - 1]);
  }

  lemma {:induction false} RunPaysTwice(w: World, steps: seq<Step>)
    requires Initial(w)
    ensures PaidTwice(Run(w, steps)) <==> exists k :: 0 <= k < |steps| && PaysTwiceAt(w, steps, k)
  {
    if steps != [] {
      var n := |steps| - 1;
      RunPaysTwice(w, steps[..n]);
      LastPaysTwice(w, steps);
      forall k | 0 <= k < n ensures PaysTwiceAt(w, steps[..n], k) <==> PaysTwiceAt(w, steps, k) {
        PaysTwiceAtPrefix(w, steps, n, k);
      }
    }
  }

  /**
   Over every run, with restarts, misreported calls and any deliveries: the bridge is solvent if and only if no burn of
   a positive amount was paid more than once, and if and only if no step carried out the withdrawal of a burn that had
   been paid.
   */
  lemma SolventExactly(w: World, steps: seq<Step>)
    requires Initial(w)
    ensures var t := Run(w, steps);
            Solvent(t) <==> forall i :: 0 <= i < |t.peg.burns| && t.peg.burns[i].amount > 0 ==> t.paid[i] <= 1
    ensures Solvent(Run(w, steps))
            <==> forall k :: 0 <= k < |steps| ==> !PaysTwiceAt(w, steps, k)
  {
    RunKeepsRecords(w, steps);
    RecordsDecideSolvency(Run(w, steps));
    RunPaysTwice(w, steps);
  }

  /** In a solvent state the lock can pay any burn that has not been paid. */
  lemma SolventMeansFunded(w: World, i: nat)
    requires Solvent(w) && i < |w.peg.burns| && i !in w.paid
    ensures w.peg.burns[i].amount <= Get(w.lock.tokens, LOCK)
  {
    SumExceptSkip(BurnAmounts(w.peg.burns), Elements(w.paid), i);
  }

  // ----- Restarts -----

  function Redelivery(i: nat): seq<Step> {
    [RelayerRestarts, MarkBurn(i), CallWithdraw(i, Carried)]
  }

  lemma RedeliveryPhases(w: World, i: nat)
    ensures Leads(w, RelayerRestarts, MarkBurn(i), CallWithdraw(i, Carried),
                  WithdrawCalled(BurnMarked(Restarted(w), i), i, Carried))
  {
  }

  /** In any state, a restarted relayer that is handed burn `i` pays it if and only if the lock holds the amount. */
  lemma RedeliveryPays(w: World, i: nat)
    requires i < |w.peg.burns|
    ensures var t := Run(w, Redelivery(i));
            && t.peg == w.peg
            && t.paid == if w.peg.burns[i].amount <= Get(w.lock.tokens, LOCK) then w.paid + multiset{i} else w.paid
  {
    RunThree(w, RelayerRestarts, MarkBurn(i), CallWithdraw(i, Carried));
    RedeliveryPhases(w, i);
    MarkedAfterRestart(w, i);
    CallOutcome(BurnMarked(Restarted(w), i), i, Carried);
  }

  lemma MarkedAfterRestart(w: World, i: nat)
    requires i < |w.peg.burns|
    ensures var t := BurnMarked(Restarted(w), i);
            t.peg == w.peg && t.lock == w.lock && t.paid == w.paid && i in t.withdrawing
  {
  }

  /**
   After any run, earlier restarts included: a relayer that restarts and is handed burn `i` again makes the bridge
   insolvent exactly when the burn had been paid, is not of nothing, and the lock still holds its amount. The emptied
   map was the only guard.
   */
  lemma RestartPaysAgainExactly(w: World, steps: seq<Step>, i: nat)
    requires Initial(w) && i < |Run(w, steps).peg.burns|
    ensures var t := Run(w, steps);
            var u := Run(w, steps + Redelivery(i));
            var b := t.peg.burns[i];
            && u.paid[i] == t.paid[i] + (if b.amount <= Get(t.lock.tokens, LOCK) then 1 else 0)
            && (Solvent(u) <==> Solvent(t) && !(i in t.paid && 0 < b.amount <= Get(t.lock.tokens, LOCK)))
  {
    var t := Run(w, steps);
    RunSplits(w, steps, Redelivery(i));
    RedeliveryPays(t, i);
    SolventExactly(w, steps);
    SolventExactly(w, steps + Redelivery(i));
  }

  // ----- Misreported withdrawals -----

  /** A withdrawal that is carried out but reports an error leaves the burn paid and its nonce free to be taken up again. */
  lemma MisreportUnmarks(w: World, i: nat)
    requires Pays(w, i, Misreported)
    ensures var t := BurnUnmarked(WithdrawCalled(w, i, Misreported), i);
            && t.peg == w.peg && t.paid == w.paid + multiset{i} && Get(t.lock.tokens, LOCK) == TokensLeft(w, i)
            && w.peg.burns[i].withdrawNonce !in t.seenWithdrawn
  {
    CallOutcome(w, i, Misreported);
  }

  /** The failing handler's last two phases, and another handler that is handed the burn again. */
  function RetryAfterMisreport(i: nat): seq<Step> {
    [CallWithdraw(i, Misreported), UnmarkBurn(i)] + BurnSteps(i, Carried)
  }

  lemma MisreportPhases(w: World, i: nat)
    ensures Next(Next(w, CallWithdraw(i, Misreported)), UnmarkBurn(i)) == BurnUnmarked(WithdrawCalled(w, i, Misreported), i)
  {
  }

  lemma HandledAgain(w: World, i: nat)
    requires i < |w.peg.burns| && w.peg.burns[i].withdrawNonce !in w.seenWithdrawn
    ensures BurnUnmarked(WithdrawCalled(BurnMarked(w, i), i, Carried), i).paid
            == if w.peg.burns[i].amount <= Get(w.lock.tokens, LOCK) then w.paid + multiset{i} else w.paid
  {
    CallOutcome(BurnMarked(w, i), i, Carried);
  }

  /** In any state, the burn of a misreported withdrawal is paid again exactly when the lock still holds the amount. */
  lemma MisreportPaysAgainExactly(w: World, i: nat)
    requires Pays(w, i, Misreported)
    ensures Run(w, RetryAfterMisreport(i)).paid[i] == w.paid[i] + if w.peg.burns[i].amount <= TokensLeft(w, i) then 2 else 1
  {
    var t := BurnUnmarked(WithdrawCalled(w, i, Misreported), i);
    RunSplits(w, [CallWithdraw(i, Misreported), UnmarkBurn(i)], BurnSteps(i, Carried));
    RunTwo(w, CallWithdraw(i, Misreported), UnmarkBurn(i));
    MisreportPhases(w, i);
    MisreportUnmarks(w, i);
    HandleBurnUnfolds(t, i, Carried);
    HandledAgain(t, i);
  }

  // ----- Concrete runs -----

  ghost predicate TwoDepositors(w: World) {
    w == World(Lock(map["alice" := 10000, "bob" := 10000], 10, [], [], 0, 0), Peg(map[], 0, {}, [], []),
               {}, {}, multiset{}, multiset{}, multiset{}, multiset{}, multiset{})
  }

  /** Two deposits are locked; the burn of one is paid twice across a restart, the second time out of the other. */
  lemma RestartBreaksSolvency() returns (w: World, steps: seq<Step>)
    ensures Initial(w) && Run(w, steps).paid[0] == 2 && !Solvent(Run(w, steps))
  {
    w := World(Lock(map["alice" := 10000, "bob" := 10000], 10, [], [], 0, 0), Peg(map[], 0, {}, [], []),
               {}, {}, multiset{}, multiset{}, multiset{}, multiset{}, multiset{});
    var t, before := AliceWithdraws(w);
    var u := AliceIsPaid(t);
    RunSplits(w, before, [CallWithdraw(0, Carried)]);
    RestartPaysAgainExactly(w, before + [CallWithdraw(0, Carried)], 0);
    steps := before + [CallWithdraw(0, Carried)] + Redelivery(0);
  }

  /** The same without a restart: the withdrawal is carried out, reports an error and is retried. */
  lemma MisreportBreaksSolvency() returns (w: World, steps: seq<Step>)
    ensures Initial(w) && Run(w, steps).paid[0] == 2 && !Solvent(Run(w, steps))
  {
    w := World(Lock(map["alice" := 10000, "bob" := 10000], 10, [], [], 0, 0), Peg(map[], 0, {}, [], []),
               {}, {}, multiset{}, multiset{}, multiset{}, multiset{}, multiset{});
    var t, before := AliceWithdraws(w);
    MisreportPaysAgainExactly(t, 0);
    RunSplits(w, before, RetryAfterMisreport(0));
    steps := before + RetryAfterMisreport(0);
    SolventExactly(w, steps);
    RunExtends(t, RetryAfterMisreport(0));
    assert Run(w, steps).peg.burns[0] == t.peg.burns[0];
  }

  lemma RunInThree(w: World, a: seq<Step>, b: seq<Step>, c: seq<Step>)
    ensures Run(w, a + b + c) == Run(Run(Run(w, a), b), c)
  {
    RunSplits(w, a, b);
    RunSplits(w, a + b, c);
  }

  /** Alice's withdrawal is under way. */
  lemma AliceWithdraws(w: World) returns (t: World, steps: seq<Step>)
    requires TwoDepositors(w)
    ensures t == Run(w, steps)
    ensures t.peg.burns == [Burned("alice", 9990, 7)] && t.withdrawing == multiset{0} && t.paid == multiset{}
    ensures Get(t.lock.tokens, LOCK) == 20000
  {
    var w1, a := BothDeposit(w);
    var w2, b := AliceIsMinted(w1);
    var w3, c := AliceBurns(w2);
    RunInThree(w, a, b, c);
    t, steps := w3, a + b + c;
  }

  lemma AliceIsPaid(w: World) returns (t: World)
    requires w.peg.burns == [Burned("alice", 9990, 7)] && w.withdrawing == multiset{0} && w.paid == multiset{}
    requires Get(w.lock.tokens, LOCK) == 20000
    ensures t == Run(w, [CallWithdraw(0, Carried)])
    ensures t.peg == w.peg && t.paid == multiset{0} && Get(t.lock.tokens, LOCK) == 10010
  {
    RunOne(w, CallWithdraw(0, Carried));
    t := WithdrawCalled(w, 0, Carried);
  }

  lemma BothDeposit(w: World) returns (t: World, steps: seq<Step>)
    requires TwoDepositors(w)
    ensures t == Run(w, steps) == w.(lock := t.lock)
    ensures |t.lock.deposits| == 2 && t.lock.deposits[0] == Deposited("alice", 9990, 0)
    ensures Get(t.lock.tokens, LOCK) == 20000
  {
    steps := [UserDeposits("alice", 10000), UserDeposits("bob", 10000)];
    RunTwo(w, UserDeposits("alice", 10000), UserDeposits("bob", 10000));
    var l1 := AfterDeposit(w.lock, "alice", 10000);
    assert l1.Done? && Get(l1.s.tokens, LOCK) == 10000 && Get(l1.s.tokens, "bob") == 10000;
    t := OnLock(OnLock(w, l1), AfterDeposit(l1.s, "bob", 10000));
  }

  lemma AliceIsMinted(w: World) returns (t: World, steps: seq<Step>)
    requires |w.lock.deposits| == 2 && w.lock.deposits[0] == Deposited("alice", 9990, 0)
    requires w == World(w.lock, Peg(map[], 0, {}, [], []), {}, {}, multiset{}, multiset{}, multiset{}, multiset{}, multiset{})
    ensures t == Run(w, steps) == w.(peg := t.peg, seenMinted := {0})
    ensures Get(t.peg.balances, "alice") == t.peg.totalSupply == 9990 && t.peg.burns == []
  {
    steps := [MarkDeposit(0), CallMint(0, Carried)];
    RunTwo(w, MarkDeposit(0), CallMint(0, Carried));
    t := MintCalled(DepositMarked(w, 0), 0, Carried);
  }

  lemma AliceBurns(w: World) returns (t: World, steps: seq<Step>)
    requires Get(w.peg.balances, "alice") == w.peg.totalSupply == 9990 && w.peg.burns == []
    requires w.seenWithdrawn == {} && w.withdrawing == multiset{}
    ensures t == Run(w, steps)
    ensures t.lock == w.lock && t.peg.burns == [Burned("alice", 9990, 7)] && t.withdrawing == multiset{0}
    ensures t.paid == w.paid
  {
    steps := [UserBurns("alice", 9990, 7), MarkBurn(0)];
    RunTwo(w, UserBurns("alice", 9990, 7), MarkBurn(0));
    t := BurnMarked(OnPeg(w, AfterBurn(w.peg, "alice", 9990, 7)), 0);
  }
}
