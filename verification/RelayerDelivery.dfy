/**
 What arriving events do to the ledgers (go/bridge/relayer.go), stated in balances, events and marks, and over whole
 executions of the relayer's loop.
 */
module RelayerDelivery {
  import opened Sums
  import opened BridgeLedgers
  import opened BridgeProtocol
  import opened BridgeSolvency
  import opened BridgeLimits
  import opened RelayerProgram

  /** No handler is under way. */
  ghost predicate Quiet(w: World) {
    w.minting == multiset{} && w.mintFailed == multiset{} && w.withdrawing == multiset{} && w.withdrawFailed == multiset{}
  }

  ghost function Arrived(w: World, input: Input): World {
    Run(w, StepsOf(input))
  }

  // ----- One burn arrives -----

  /** It is paid: its sender receives the amount, its event is emitted, and its nonce is marked. */
  lemma BurnArrivalPays(w: World, i: nat)
    requires Quiet(w) && i < |w.peg.burns|
    requires w.peg.burns[i].withdrawNonce !in w.seenWithdrawn && w.peg.burns[i].amount <= Get(w.lock.tokens, LOCK)
    ensures var t := Arrived(w, BurnArrives(i, Carried));
            var b := w.peg.burns[i];
            && t.paid == w.paid + multiset{i}
            && t.lock.withdrawals == w.lock.withdrawals + [Withdrawn(b.from, b.amount, b.withdrawNonce)]
            && Moves(w.lock.tokens, t.lock.tokens, LOCK, b.from, b.amount)
            && t.seenWithdrawn == w.seenWithdrawn + {b.withdrawNonce}
            && t.peg == w.peg && t.seenMinted == w.seenMinted && t.lock.deposits == w.lock.deposits && Quiet(t)
  {
    var b := w.peg.burns[i];
    HandleBurnUnfolds(w, i, Carried);
    WithdrawEffects(w.lock, b.from, b.amount, b.withdrawNonce);
    var w1 := BurnMarked(w, i);
    assert w1.withdrawing - multiset{i} == multiset{};
  }

  lemma FailedWithdrawal(w: World, i: nat, result: CallResult) returns (t: World)
    requires Quiet(w) && i < |w.peg.burns| && w.peg.burns[i].withdrawNonce !in w.seenWithdrawn
    requires result.LostCall? || w.peg.burns[i].amount > Get(w.lock.tokens, LOCK)
    ensures t == WithdrawCalled(BurnMarked(w, i), i, result)
    ensures t == w.(seenWithdrawn := w.seenWithdrawn + {w.peg.burns[i].withdrawNonce}, withdrawFailed := multiset{i})
  {
    var w1 := BurnMarked(w, i);
    assert w1.withdrawing - multiset{i} == multiset{};
    t := WithdrawCalled(w1, i, result);
  }

  /** When it is marked, the call is lost, or the lock cannot pay it, the world is as before: it may be delivered again. */
  lemma BurnArrivalChangesNothing(w: World, i: nat, result: CallResult)
    requires Quiet(w)
    requires i < |w.peg.burns| ==>
               || w.peg.burns[i].withdrawNonce in w.seenWithdrawn
               || result.LostCall?
               || w.peg.burns[i].amount > Get(w.lock.tokens, LOCK)
    ensures Arrived(w, BurnArrives(i, result)) == w
  {
    HandleBurnUnfolds(w, i, result);
    if i < |w.peg.burns| && w.peg.burns[i].withdrawNonce !in w.seenWithdrawn {
      var t := FailedWithdrawal(w, i, result);
      assert multiset{i} - multiset{i} == multiset{};
      assert w.seenWithdrawn + {w.peg.burns[i].withdrawNonce} - {w.peg.burns[i].withdrawNonce} == w.seenWithdrawn;
    }
  }

  /** A withdrawal that is carried out and reports an error pays the burn and leaves it unmarked. */
  lemma BurnArrivalMisreported(w: World, i: nat)
    requires Quiet(w) && i < |w.peg.burns|
    requires w.peg.burns[i].withdrawNonce !in w.seenWithdrawn && w.peg.burns[i].amount <= Get(w.lock.tokens, LOCK)
    ensures var t := Arrived(w, BurnArrives(i, Misreported));
            t == w.(lock := t.lock, paid := w.paid + multiset{i})
  {
    HandleBurnUnfolds(w, i, Misreported);
    var w1 := BurnMarked(w, i);
    assert w1.withdrawing - multiset{i} == multiset{};
    var w2 := WithdrawCalled(w1, i, Misreported);
    assert w2 == w1.(withdrawing := multiset{}, withdrawFailed := multiset{i}, lock := w2.lock, paid := w.paid + multiset{i});
    assert multiset{i} - multiset{i} == multiset{};
    assert w.seenWithdrawn + {w.peg.burns[i].withdrawNonce} - {w.peg.burns[i].withdrawNonce} == w.seenWithdrawn;
  }

  // ----- One deposit arrives -----

  /** It is minted: its user is credited the net amount and nobody else anything, and its nonce is used and marked. */
  lemma DepositArrivalMints(w: World, n: nat)
    requires Quiet(w) && n < |w.lock.deposits|
    requires var d := w.lock.deposits[n];
             d.nonce !in w.seenMinted && d.nonce !in w.peg.usedNonces && w.peg.totalSupply + d.amount < WORD
    ensures var t := Arrived(w, DepositArrives(n, Carried));
            var d := w.lock.deposits[n];
            && (forall a :: Get(t.peg.balances, a) == Get(w.peg.balances, a) + if a == d.user then d.amount else 0)
            && t.peg.totalSupply == w.peg.totalSupply + d.amount
            && t.peg.mints == w.peg.mints + [Minted(d.user, d.amount, d.nonce)]
            && t.peg.usedNonces == w.peg.usedNonces + {d.nonce} && t.seenMinted == w.seenMinted + {d.nonce}
            && t.lock == w.lock && t.peg.burns == w.peg.burns && t.seenWithdrawn == w.seenWithdrawn && t.paid == w.paid && Quiet(t)
  {
    var d := w.lock.deposits[n];
    HandleDepositUnfolds(w, n, Carried);
    MintEffects(w.peg, d.user, d.amount, d.nonce);
    var w1 := DepositMarked(w, n);
    assert w1.minting - multiset{n} == multiset{};
  }

  /**
   When it is marked, the call is lost, the nonce is used or the supply is full, the world is as before: a lost mint
   leaves its nonce free, so that the deposit mints when it is delivered again.
   */
  lemma DepositArrivalChangesNothing(w: World, n: nat, result: CallResult)
    requires Quiet(w)
    requires n < |w.lock.deposits| ==>
               var d := w.lock.deposits[n];
               d.nonce in w.seenMinted || result.LostCall? || d.nonce in w.peg.usedNonces || w.peg.totalSupply + d.amount >= WORD
    ensures Arrived(w, DepositArrives(n, result)) == w
  {
    HandleDepositUnfolds(w, n, result);
    if n < |w.lock.deposits| && w.lock.deposits[n].nonce !in w.seenMinted {
      var w1 := DepositMarked(w, n);
      assert w1.minting - multiset{n} == multiset{};
      var w2 := MintCalled(w1, n, result);
      assert w2 == w1.(minting := multiset{}, mintFailed := multiset{n});
      assert multiset{n} - multiset{n} == multiset{};
      assert w.seenMinted + {w.lock.deposits[n].nonce} - {w.lock.deposits[n].nonce} == w.seenMinted;
    }
  }

  /** A mint that takes effect and reports an error uses the nonce and leaves it unmarked. */
  lemma DepositArrivalMisreported(w: World, n: nat)
    requires Quiet(w) && n < |w.lock.deposits| && w.lock.deposits[n].nonce !in w.seenMinted
    ensures var t := Arrived(w, DepositArrives(n, Misreported));
            var d := w.lock.deposits[n];
            && t == w.(peg := t.peg) && w.peg.usedNonces <= t.peg.usedNonces && t.peg.burns == w.peg.burns
            && (d.nonce in w.peg.usedNonces || w.peg.totalSupply + d.amount < WORD ==> d.nonce in t.peg.usedNonces)
  {
    HandleDepositUnfolds(w, n, Misreported);
    var w1 := DepositMarked(w, n);
    assert w1.minting - multiset{n} == multiset{};
    var w2 := MintCalled(w1, n, Misreported);
    assert w2 == w1.(minting := multiset{}, mintFailed := multiset{n}, peg := w2.peg);
    assert multiset{n} - multiset{n} == multiset{};
    assert w.seenMinted + {w.lock.deposits[n].nonce} - {w.lock.deposits[n].nonce} == w.seenMinted;
  }

  lemma UnmarkedIsMinted(u: World, n: nat)
    requires n < |u.lock.deposits| && u.seenMinted == {} && u.lock.deposits[n].nonce !in u.peg.usedNonces
    requires u.peg.totalSupply + u.lock.deposits[n].amount < WORD
    ensures u.lock.deposits[n].nonce in MintCalled(DepositMarked(u, n), n, Carried).peg.usedNonces
  {
    var v := DepositMarked(u, n);
    assert n in v.minting && v.peg == u.peg && v.lock == u.lock;
  }

  lemma UnmarkingKeepsPeg(u: World, n: nat)
    ensures DepositUnmarked(u, n).peg == u.peg
  {
  }

  /** A restarted relayer mints a deposit that it is handed and that has not been minted, marked before or not. */
  lemma RestartedRelayerMints(w: World, n: nat)
    requires n < |w.lock.deposits| && w.lock.deposits[n].nonce !in w.peg.usedNonces
    requires w.peg.totalSupply + w.lock.deposits[n].amount < WORD
    ensures w.lock.deposits[n].nonce in Run(Next(w, RelayerRestarts), DepositSteps(n, Carried)).peg.usedNonces
  {
    var u := Restarted(w);
    assert Next(w, RelayerRestarts) == u;
    HandleDepositUnfolds(u, n, Carried);
    UnmarkedIsMinted(u, n);
    UnmarkingKeepsPeg(MintCalled(DepositMarked(u, n), n, Carried), n);
  }

  // ----- Where the loop stops -----

  /** The loop goes on after every input but a cancellation and a re-watch that fails. */
  predicate GoesOn(input: Input) {
    !input.Cancelled? && !(input.DepositsClosed? && !input.rewatched) && !(input.BurnsClosed? && !input.rewatched)
  }

  /** The world after the loop has been given `inputs`. */
  ghost function Looped(w: World, inputs: seq<Input>): World {
    Run(w, StepsUntilExit(inputs))
  }

  predicate AllGoOn(inputs: seq<Input>, k: nat)
    requires k <= |inputs|
  {
    forall j :: 0 <= j < k ==> GoesOn(inputs[j])
  }

  lemma LoopGoesOn(inputs: seq<Input>)
    requires inputs != [] && GoesOn(inputs[0])
    ensures StepsUntilExit(inputs) == StepsOf(inputs[0]) + StepsUntilExit(inputs[1..])
    ensures ExitAfter(inputs) == ExitAfter(inputs[1..])
  {
  }

  lemma {:induction false} LoopAppends(a: seq<Input>, b: seq<Input>)
    requires forall j :: 0 <= j < |a| ==> GoesOn(a[j])
    ensures StepsUntilExit(a + b) == StepsUntilExit(a) + StepsUntilExit(b)
    ensures ExitAfter(a + b) == ExitAfter(b)
    decreases |a|
  {
    if a == [] {
      assert a + b == b;
    } else {
      var whole, rest := a + b, a[1..];
      assert whole[1..] == rest + b && whole[0] == a[0];
      LoopAppends(rest, b);
      LoopGoesOn(whole);
      LoopGoesOn(a);
      StepsAppend(StepsOf(a[0]), StepsUntilExit(rest), StepsUntilExit(b));
    }
  }

  lemma StepsAppend(a: seq<Step>, b: seq<Step>, c: seq<Step>)
    ensures a + (b + c) == (a + b) + c
  {
  }

  lemma LoopSplits(inputs: seq<Input>, k: nat)
    requires k <= |inputs| && AllGoOn(inputs, k)
    ensures StepsUntilExit(inputs) == StepsUntilExit(inputs[..k]) + StepsUntilExit(inputs[k..])
    ensures ExitAfter(inputs) == ExitAfter(inputs[k..])
  {
    var whole := inputs[..k] + inputs[k..];
    LoopAppends(inputs[..k], inputs[k..]);
    assert whole == inputs;
  }

  /** The loop handles every input up to the first on which it stops, and none after that. */
  lemma LoopStops(inputs: seq<Input>, k: nat)
    requires k <= |inputs| && AllGoOn(inputs, k) && (k < |inputs| ==> !GoesOn(inputs[k]))
    ensures StepsUntilExit(inputs) == StepsUntilExit(inputs[..k])
    ensures ExitAfter(inputs) == if k == |inputs| then StillRunning else if inputs[k].Cancelled? then CtxDone else WatchFailed
  {
    LoopSplits(inputs, k);
    var rest := inputs[k..];
    if k < |inputs| {
      assert rest[0] == inputs[k];
      assert StepsUntilExit(rest) == [];
    }
    assert StepsUntilExit(inputs[..k]) + [] == StepsUntilExit(inputs[..k]);
  }

  // ----- What the loop keeps -----

  predicate Allowed(inputs: seq<Input>) {
    forall k :: 0 <= k < |inputs| && inputs[k].Elsewhere? ==> IsElsewhere(inputs[k].step)
  }

  /** Every marked deposit is minted, and every marked burn shares its nonce with a paid one. */
  ghost predicate MarkedAreDone(w: World) {
    && (forall n :: n in w.seenMinted ==> n in w.peg.usedNonces)
    && (forall n :: n in w.seenWithdrawn ==> exists i :: 0 <= i < |w.peg.burns| && i in w.paid && w.peg.burns[i].withdrawNonce == n)
  }

  ghost predicate BetweenHandlers(w: World) {
    Quiet(w) && MarkedAreDone(w)
  }

  lemma BurnArrivalKeeps(w: World, i: nat, result: CallResult)
    requires BetweenHandlers(w)
    ensures BetweenHandlers(Arrived(w, BurnArrives(i, result)))
  {
    if i < |w.peg.burns| && w.peg.burns[i].withdrawNonce !in w.seenWithdrawn && !result.LostCall?
       && w.peg.burns[i].amount <= Get(w.lock.tokens, LOCK)
    {
      if result.Carried? { BurnArrivalPays(w, i); } else { BurnArrivalMisreported(w, i); }
    } else {
      BurnArrivalChangesNothing(w, i, result);
    }
  }

  lemma DepositArrivalKeeps(w: World, n: nat, result: CallResult)
    requires BetweenHandlers(w)
    ensures BetweenHandlers(Arrived(w, DepositArrives(n, result)))
  {
    if n < |w.lock.deposits| && w.lock.deposits[n].nonce !in w.seenMinted && !result.LostCall?
       && w.lock.deposits[n].nonce !in w.peg.usedNonces && w.peg.totalSupply + w.lock.deposits[n].amount < WORD
    {
      if result.Carried? { DepositArrivalMints(w, n); } else { DepositArrivalMisreported(w, n); }
    } else {
      DepositArrivalChangesNothing(w, n, result);
    }
  }

  lemma ElsewhereKeeps(w: World, step: Step)
    requires BetweenHandlers(w) && IsElsewhere(step)
    ensures BetweenHandlers(Arrived(w, Elsewhere(step)))
  {
    RunOne(w, step);
    ElsewhereLeavesMarks(w, step);
  }

  lemma ElsewhereLeavesMarks(w: World, step: Step)
    requires IsElsewhere(step)
    ensures var t := Next(w, step);
            && t.seenMinted == w.seenMinted && t.seenWithdrawn == w.seenWithdrawn && t.paid == w.paid
            && t.minting == w.minting && t.mintFailed == w.mintFailed
            && t.withdrawing == w.withdrawing && t.withdrawFailed == w.withdrawFailed
            && t.peg.usedNonces == w.peg.usedNonces && w.peg.burns <= t.peg.burns
  {
  }

  lemma InputKeeps(w: World, input: Input)
    requires BetweenHandlers(w) && (input.Elsewhere? ==> IsElsewhere(input.step))
    ensures BetweenHandlers(Arrived(w, input))
  {
    match input
    case DepositArrives(n, result) => DepositArrivalKeeps(w, n, result);
    case BurnArrives(i, result) => BurnArrivalKeeps(w, i, result);
    case Elsewhere(step) => ElsewhereKeeps(w, step);
    case _ =>
  }

  lemma {:induction false} LoopKeeps(w: World, inputs: seq<Input>)
    requires BetweenHandlers(w) && Allowed(inputs)
    ensures BetweenHandlers(Looped(w, inputs))
    decreases |inputs|
  {
    if inputs != [] && ExitOf(inputs[0]) == StillRunning {
      InputKeeps(w, inputs[0]);
      RunSplits(w, StepsOf(inputs[0]), StepsUntilExit(inputs[1..]));
      LoopKeeps(Arrived(w, inputs[0]), inputs[1..]);
    }
  }

  // ----- Every arrival is served -----

  ghost predicate ServedFurther(w: World, t: World) {
    && w.paid <= t.paid && w.peg.burns <= t.peg.burns
    && w.peg.usedNonces <= t.peg.usedNonces && w.peg.mints <= t.peg.mints && w.lock.withdrawals <= t.lock.withdrawals
  }

  lemma StepServesFurther(w: World, step: Step)
    ensures ServedFurther(w, Next(w, step))
  {
    StepExtends(w, step);
    LedgersOnlyGrow(w, step);
  }

  lemma LedgersOnlyGrow(w: World, step: Step)
    ensures var t := Next(w, step);
            w.peg.usedNonces <= t.peg.usedNonces && w.peg.mints <= t.peg.mints && w.lock.withdrawals <= t.lock.withdrawals
  {
    if step.CallWithdraw? { CallOutcome(w, step.i, step.result); }
  }

  lemma {:induction false} RunServesFurther(w: World, steps: seq<Step>)
    ensures ServedFurther(w, Run(w, steps))
  {
    if steps != [] {
      RunServesFurther(w, steps[..|steps| - 1]);
      StepServesFurther(Run(w, steps[..|steps| - 1]), steps[|steps| - 1]);
    }
  }

  /** The state in which the loop meets input `k`, and the run from there on. */
  lemma LoopMeets(w: World, inputs: seq<Input>, k: nat)
    requires k < |inputs| && AllGoOn(inputs, k + 1)
    ensures var u := Looped(w, inputs[..k]);
            ServedFurther(Arrived(u, inputs[k]), Looped(w, inputs))
  {
    var u := Looped(w, inputs[..k]);
    var rest := inputs[k..];
    LoopSplits(inputs, k);
    RunSplits(w, StepsUntilExit(inputs[..k]), StepsUntilExit(rest));
    assert GoesOn(inputs[k]) && rest[0] == inputs[k];
    RunSplits(u, StepsOf(inputs[k]), StepsUntilExit(rest[1..]));
    RunServesFurther(Arrived(u, inputs[k]), StepsUntilExit(rest[1..]));
  }

  /**
   Every burn that reaches the loop is paid: one whose nonce is unmarked and whose withdrawal is carried out is paid
   once more than before, and its event is in the log.
   */
  lemma LoopPaysBurn(w: World, inputs: seq<Input>, k: nat, i: nat)
    requires BetweenHandlers(w) && Allowed(inputs) && k < |inputs| && AllGoOn(inputs, k + 1)
    requires inputs[k] == BurnArrives(i, Carried)
    requires var u := Looped(w, inputs[..k]);
             && i < |u.peg.burns| && u.peg.burns[i].withdrawNonce !in u.seenWithdrawn
             && u.peg.burns[i].amount <= Get(u.lock.tokens, LOCK)
    ensures var u := Looped(w, inputs[..k]);
            var t := Looped(w, inputs);
            var b := u.peg.burns[i];
            t.paid[i] >= u.paid[i] + 1 && Withdrawn(b.from, b.amount, b.withdrawNonce) in t.lock.withdrawals
  {
    var u := Looped(w, inputs[..k]);
    LoopKeeps(w, inputs[..k]);
    BurnArrivalPays(u, i);
    LoopMeets(w, inputs, k);
    var v := Arrived(u, inputs[k]);
    assert v.lock.withdrawals[|u.lock.withdrawals|] == Withdrawn(u.peg.burns[i].from, u.peg.burns[i].amount, u.peg.burns[i].withdrawNonce);
    assert v.paid[i] == u.paid[i] + 1;
  }

  /** Inputs of one lifetime: withdrawals that report an error had no effect. */
  predicate OneLifetime(inputs: seq<Input>) {
    forall k :: 0 <= k < |inputs| && inputs[k].BurnArrives? ==> !inputs[k].result.Misreported?
  }

  lemma LifetimeIsSound(w: World, inputs: seq<Input>)
    requires Initial(w) && Allowed(inputs) && OneLifetime(inputs)
    ensures Sound(Looped(w, inputs))
  {
    LoopIsOneLifetime(inputs);
    InitialIsSound(w);
    RunKeepsSound(w, StepsUntilExit(inputs));
  }

  /** In a lifetime an unmarked burn has not been paid, and the lock holds its amount. */
  lemma UnmarkedIsFunded(u: World, i: nat)
    requires Sound(u) && i < |u.peg.burns| && u.peg.burns[i].withdrawNonce !in u.seenWithdrawn
    ensures i !in u.paid && u.peg.burns[i].amount <= Get(u.lock.tokens, LOCK)
  {
    assert i in u.paid ==> i in TakenUp(u);
    SoundMeansSolvent(u);
    SolventMeansFunded(u, i);
  }

  /**
   From deployment on, every burn that arrives with a withdrawal that is carried out is paid, exactly once, unless a
   burn with the same nonce, which senders choose, has been paid instead. The lock never lacks the funds.
   */
  lemma LoopPaysEveryBurn(w: World, inputs: seq<Input>, k: nat, i: nat)
    requires Initial(w) && Allowed(inputs) && OneLifetime(inputs) && k < |inputs| && AllGoOn(inputs, k + 1)
    requires inputs[k] == BurnArrives(i, Carried) && i < |Looped(w, inputs[..k]).peg.burns|
    ensures BurnServed(Looped(w, inputs[..k]), i, Looped(w, inputs))
  {
    InitialIsBetweenHandlers(w);
    LifetimeIsSound(w, inputs[..k]);
    LifetimeIsSound(w, inputs);
    LoopKeeps(w, inputs[..k]);
    LoopMeets(w, inputs, k);
    BurnIsServed(Looped(w, inputs[..k]), i, Looped(w, inputs));
  }

  lemma InitialIsBetweenHandlers(w: World)
    requires Initial(w)
    ensures BetweenHandlers(w)
  {
  }

  /** Burn `i` of `u` has been paid once in `t` if its nonce was unmarked, and in any case one with its nonce has. */
  ghost predicate BurnServed(u: World, i: nat, t: World)
    requires i < |u.peg.burns|
  {
    && (u.peg.burns[i].withdrawNonce !in u.seenWithdrawn ==> t.paid[i] == 1)
    && exists j :: 0 <= j < |t.peg.burns| && t.peg.burns[j].withdrawNonce == u.peg.burns[i].withdrawNonce && t.paid[j] == 1
  }

  /** What follows the arrival of burn `i` in `u` keeps the burn served. */
  lemma BurnIsServed(u: World, i: nat, t: World)
    requires Sound(u) && BetweenHandlers(u) && i < |u.peg.burns| && Sound(t)
    requires ServedFurther(Arrived(u, BurnArrives(i, Carried)), t)
    ensures BurnServed(u, i, t)
  {
    SoundMeansSolvent(t);
    if u.peg.burns[i].withdrawNonce !in u.seenWithdrawn {
      UnmarkedIsFunded(u, i);
      BurnArrivalPays(u, i);
      assert (u.paid + multiset{i})[i] <= t.paid[i] <= 1;
      assert t.peg.burns[i] == u.peg.burns[i];
    } else {
      BurnArrivalChangesNothing(u, i, Carried);
      var j :| 0 <= j < |u.peg.burns| && j in u.paid && u.peg.burns[j].withdrawNonce == u.peg.burns[i].withdrawNonce;
      assert u.paid[j] <= t.paid[j] <= 1;
      assert t.peg.burns[j] == u.peg.burns[j];
    }
  }

  /**
   Every deposit that arrives with a mint that is carried out is minted, while the supply fits a word: exactly one
   Minted event answers it, to its user and with its net amount.
   */
  lemma LoopMintsEveryDeposit(w: World, inputs: seq<Input>, k: nat, n: nat)
    requires Initial(w) && Allowed(inputs) && k < |inputs| && AllGoOn(inputs, k + 1)
    requires inputs[k] == DepositArrives(n, Carried)
    requires var u := Looped(w, inputs[..k]);
             n < |u.lock.deposits| && u.peg.totalSupply + u.lock.deposits[n].amount < WORD
    ensures var t := Looped(w, inputs);
            && n in t.peg.usedNonces && n < |t.lock.deposits|
            && Minted(t.lock.deposits[n].user, t.lock.deposits[n].amount, n) in t.peg.mints
            && forall j, m :: 0 <= j < m < |t.peg.mints| ==> !(t.peg.mints[j].sourceNonce == n && t.peg.mints[m].sourceNonce == n)
  {
    var u, t := Looped(w, inputs[..k]), Looped(w, inputs);
    InitialIsSound(w);
    InitialIsBetweenHandlers(w);
    MintingIsAlwaysExact(w, StepsUntilExit(inputs[..k]));
    MintingIsAlwaysExact(w, StepsUntilExit(inputs));
    LoopKeeps(w, inputs[..k]);
    LoopMeets(w, inputs, k);
    DepositIsServed(u, n, t);
  }

  lemma DepositIsServed(u: World, n: nat, t: World)
    requires BetweenHandlers(u) && MintingIsExact(u) && MintingIsExact(t)
    requires n < |u.lock.deposits| && u.peg.totalSupply + u.lock.deposits[n].amount < WORD
    requires ServedFurther(Arrived(u, DepositArrives(n, Carried)), t)
    ensures n in t.peg.usedNonces && n < |t.lock.deposits|
    ensures Minted(t.lock.deposits[n].user, t.lock.deposits[n].amount, n) in t.peg.mints
  {
    if n in u.peg.usedNonces {
      RunServesFurther(u, DepositSteps(n, Carried));
    } else {
      DepositArrivalMints(u, n);
    }
    assert n in t.peg.usedNonces;
    var j :| 0 <= j < |t.peg.mints| && t.peg.mints[j].sourceNonce == n;
    assert t.peg.mints[j] == Minted(t.lock.deposits[n].user, t.lock.deposits[n].amount, n);
  }
}
