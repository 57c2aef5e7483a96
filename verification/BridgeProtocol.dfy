/**
 The bridge as a transition system: two ledgers, users who act at any time, and a relayer (go/bridge/relayer.go)
 whose handlers mark an event, make a call that may fail, and unmark the event on an error. Any emitted event may
 be delivered any number of times, and the phases of different handlers interleave freely.
 */
module BridgeProtocol {
  import opened Sums
  import opened BridgeLedgers

  /**
   Deposits are named by their nonce, which is their position in the log; burns by their position. `minting` and
   `withdrawing` are marked events whose call is still to come, `mintFailed` and `withdrawFailed` those whose call
   reported an error and that are still marked. `paid` records, per burn, how often it was paid out.
   */
  datatype World = World(
    lock: Lock,
    peg: Peg,
    seenMinted: set<nat>,
    seenWithdrawn: set<nat>,
    minting: multiset<nat>,
    mintFailed: multiset<nat>,
    withdrawing: multiset<nat>,
    withdrawFailed: multiset<nat>,
    paid: multiset<nat>)

  /** How a relayed call ends: it is carried out, it is lost with an error, or it is carried out and yet reports one. */
  datatype CallResult = Carried | LostCall | Misreported

  datatype Step =
    | UserDeposits(user: Address, amount: nat)
    | OwnerSetsFee(newFee: nat)
    | TokenMoves(from: Address, to: Address, amount: nat)
    | PegMoves(from: Address, to: Address, amount: nat)
    | UserBurns(from: Address, amount: nat, withdrawNonce: nat)
    | MarkDeposit(n: nat)
    | CallMint(n: nat, result: CallResult)
    | UnmarkDeposit(n: nat)
    | MarkBurn(i: nat)
    | CallWithdraw(i: nat, result: CallResult)
    | UnmarkBurn(i: nat)
    | RelayerRestarts

  function OnLock(w: World, r: Result<Lock>): World { w.(lock := OrSame(r, w.lock)) }
  function OnPeg(w: World, r: Result<Peg>): World { w.(peg := OrSame(r, w.peg)) }

  function DepositMarked(w: World, n: nat): World {
    if n >= |w.lock.deposits| || w.lock.deposits[n].nonce in w.seenMinted then w
    else w.(seenMinted := w.seenMinted + {w.lock.deposits[n].nonce}, minting := w.minting + multiset{n})
  }

  function MintCalled(w: World, n: nat, result: CallResult): World {
    if n !in w.minting || n >= |w.lock.deposits| then w
    else
      var d := w.lock.deposits[n];
      var r := AfterMint(w.peg, d.user, d.amount, d.nonce);
      var w' := w.(minting := w.minting - multiset{n}, peg := if result.LostCall? then w.peg else OrSame(r, w.peg));
      if result.Carried? && r.Done? then w' else w'.(mintFailed := w.mintFailed + multiset{n})
  }

  function DepositUnmarked(w: World, n: nat): World {
    if n !in w.mintFailed || n >= |w.lock.deposits| then w
    else w.(seenMinted := w.seenMinted - {w.lock.deposits[n].nonce}, mintFailed := w.mintFailed - multiset{n})
  }

  function BurnMarked(w: World, i: nat): World {
    if i >= |w.peg.burns| || w.peg.burns[i].withdrawNonce in w.seenWithdrawn then w
    else
      w.(seenWithdrawn := w.seenWithdrawn + {w.peg.burns[i].withdrawNonce},
         withdrawing := w.withdrawing + multiset{i})
  }

  function WithdrawCalled(w: World, i: nat, result: CallResult): World {
    if i !in w.withdrawing || i >= |w.peg.burns| then w
    else
      var b := w.peg.burns[i];
      var r := AfterWithdraw(w.lock, b.from, b.amount, b.withdrawNonce);
      var w1 := w.(withdrawing := w.withdrawing - multiset{i});
      var w2 := if result.LostCall? || r.Reverted? then w1 else w1.(lock := r.s, paid := w.paid + multiset{i});
      if result.Carried? && r.Done? then w2 else w2.(withdrawFailed := w.withdrawFailed + multiset{i})
  }

  function BurnUnmarked(w: World, i: nat): World {
    if i !in w.withdrawFailed || i >= |w.peg.burns| then w
    else
      w.(seenWithdrawn := w.seenWithdrawn - {w.peg.burns[i].withdrawNonce},
         withdrawFailed := w.withdrawFailed - multiset{i})
  }

  /** A new relayer process has empty maps and forgets which calls failed; calls already sent stay under way. */
  function Restarted(w: World): World {
    w.(seenMinted := {}, seenWithdrawn := {}, mintFailed := multiset{}, withdrawFailed := multiset{})
  }

  function Next(w: World, step: Step): World {
    match step
    case UserDeposits(user, amount) => OnLock(w, AfterDeposit(w.lock, user, amount))
    case OwnerSetsFee(newFee) => OnLock(w, AfterSetFeeBps(w.lock, newFee))
    case TokenMoves(from, to, amount) => OnLock(w, AfterTransferToken(w.lock, from, to, amount))
    case PegMoves(from, to, amount) => OnPeg(w, AfterTransferPeg(w.peg, from, to, amount))
    case UserBurns(from, amount, withdrawNonce) => OnPeg(w, AfterBurn(w.peg, from, amount, withdrawNonce))
    case MarkDeposit(n) => DepositMarked(w, n)
    case CallMint(n, result) => MintCalled(w, n, result)
    case UnmarkDeposit(n) => DepositUnmarked(w, n)
    case MarkBurn(i) => BurnMarked(w, i)
    case CallWithdraw(i, result) => WithdrawCalled(w, i, result)
    case UnmarkBurn(i) => BurnUnmarked(w, i)
    case RelayerRestarts => Restarted(w)
  }

  function Run(w: World, steps: seq<Step>): World {
    if steps == [] then w else Next(Run(w, steps[..|steps| - 1]), steps[|steps| - 1])
  }

  lemma {:induction false} RunSplits(w: World, a: seq<Step>, b: seq<Step>)
    ensures Run(w, a + b) == Run(Run(w, a), b)
  {
    if b == [] {
      assert a + b == a;
    } else {
      assert (a + b)[..|a + b| - 1] == a + b[..|b| - 1];
      RunSplits(a := a, w := w, b := b[..|b| - 1]);
    }
  }

  lemma RunOne(w: World, a: Step)
    ensures Run(w, [a]) == Next(w, a)
  {
    assert [a][..0] == [];
  }

  lemma RunTwo(w: World, a: Step, b: Step)
    ensures Run(w, [a, b]) == Next(Next(w, a), b)
  {
    RunOne(w, a);
    assert [a, b][..1] == [a];
  }

  /** Three steps in a row end at `t`. */
  ghost predicate Leads(w: World, a: Step, b: Step, c: Step, t: World) {
    t == Next(Next(Next(w, a), b), c)
  }

  lemma RunThree(w: World, a: Step, b: Step, c: Step)
    ensures Leads(w, a, b, c, Run(w, [a, b, c]))
  {
    RunTwo(w, a, b);
    assert [a, b, c][..2] == [a, b];
  }

  // ----- The relayer's handlers -----

  function DepositSteps(n: nat, result: CallResult): seq<Step> {
    [MarkDeposit(n), CallMint(n, result), UnmarkDeposit(n)]
  }

  function BurnSteps(i: nat, result: CallResult): seq<Step> {
    [MarkBurn(i), CallWithdraw(i, result), UnmarkBurn(i)]
  }

  lemma DepositPhases(w: World, n: nat, result: CallResult)
    ensures Leads(w, MarkDeposit(n), CallMint(n, result), UnmarkDeposit(n),
                  DepositUnmarked(MintCalled(DepositMarked(w, n), n, result), n))
  {
  }

  lemma BurnPhases(w: World, i: nat, result: CallResult)
    ensures Leads(w, MarkBurn(i), CallWithdraw(i, result), UnmarkBurn(i),
                  BurnUnmarked(WithdrawCalled(BurnMarked(w, i), i, result), i))
  {
  }

  /** A handler that sees deposit `n` marks, calls and unmarks. */
  lemma HandleDepositUnfolds(w: World, n: nat, result: CallResult)
    ensures Run(w, DepositSteps(n, result)) == DepositUnmarked(MintCalled(DepositMarked(w, n), n, result), n)
  {
    RunThree(w, MarkDeposit(n), CallMint(n, result), UnmarkDeposit(n));
    DepositPhases(w, n, result);
  }

  lemma HandleBurnUnfolds(w: World, i: nat, result: CallResult)
    ensures Run(w, BurnSteps(i, result)) == BurnUnmarked(WithdrawCalled(BurnMarked(w, i), i, result), i)
  {
    RunThree(w, MarkBurn(i), CallWithdraw(i, result), UnmarkBurn(i));
    BurnPhases(w, i, result);
  }

  /** Both contracts freshly deployed over some ERC20 ledger, and no relayer activity yet. */
  ghost predicate Initial(w: World) {
    && w.lock == Lock(w.lock.tokens, 10, [], [], 0, Get(w.lock.tokens, LOCK))
    && w.peg == Peg(map[], 0, {}, [], [])
    && w == World(w.lock, w.peg, {}, {}, multiset{}, multiset{}, multiset{}, multiset{}, multiset{})
  }
}
