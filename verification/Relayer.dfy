/**
 The relayer program (go/bridge/relayer.go): two handlers and the event loop, proved to be runs of the bridge's
 transition system.
 */
module RelayerProgram {
  import opened BridgeLedgers
  import opened BridgeProtocol
  import opened BridgeSolvency

  /** What the loop's `select` receives next; `Elsewhere` is a step of some user or owner in the meantime. */
  datatype Input =
    | DepositArrives(n: nat, result: CallResult)
    | BurnArrives(i: nat, result: CallResult)
    | DepositsClosed(rewatched: bool)
    | BurnsClosed(rewatched: bool)
    | Cancelled
    | Elsewhere(step: Step)

  datatype Exit = CtxDone | WatchFailed | StillRunning

  predicate IsElsewhere(step: Step) {
    step.UserDeposits? || step.OwnerSetsFee? || step.TokenMoves? || step.PegMoves? || step.UserBurns?
  }

  /** The steps behind one input. */
  function StepsOf(input: Input): seq<Step> {
    match input
    case DepositArrives(n, result) => DepositSteps(n, result)
    case BurnArrives(i, result) => BurnSteps(i, result)
    case Elsewhere(step) => [step]
    case _ => []
  }

  function ExitOf(input: Input): Exit {
    match input
    case Cancelled => CtxDone
    case DepositsClosed(rewatched) => if rewatched then StillRunning else WatchFailed
    case BurnsClosed(rewatched) => if rewatched then StillRunning else WatchFailed
    case _ => StillRunning
  }

  /** The steps of the loop up to its exit. */
  function StepsUntilExit(inputs: seq<Input>): seq<Step> {
    if inputs == [] || ExitOf(inputs[0]) != StillRunning then []
    else StepsOf(inputs[0]) + StepsUntilExit(inputs[1..])
  }

  function ExitAfter(inputs: seq<Input>): Exit {
    if inputs == [] then StillRunning
    else if ExitOf(inputs[0]) != StillRunning then ExitOf(inputs[0])
    else ExitAfter(inputs[1..])
  }

  /**
   A loop whose failing withdrawals have no effect stays within one lifetime, so whatever arrives in whatever order,
   the bridge is solvent when it stops.
   */
  lemma LoopIsSolvent(w: World, inputs: seq<Input>)
    requires Initial(w)
    requires forall k :: 0 <= k < |inputs| ==>
               && (inputs[k].BurnArrives? ==> !inputs[k].result.Misreported?)
               && (inputs[k].Elsewhere? ==> IsElsewhere(inputs[k].step))
    ensures Solvent(Run(w, StepsUntilExit(inputs)))
  {
    LoopIsOneLifetime(inputs);
    BridgeIsSolvent(w, StepsUntilExit(inputs));
  }

  lemma {:induction false} LoopIsOneLifetime(inputs: seq<Input>)
    requires forall k :: 0 <= k < |inputs| ==>
               && (inputs[k].BurnArrives? ==> !inputs[k].result.Misreported?)
               && (inputs[k].Elsewhere? ==> IsElsewhere(inputs[k].step))
    ensures forall k :: 0 <= k < |StepsUntilExit(inputs)| ==> WithinOneLifetime(StepsUntilExit(inputs)[k])
  {
    if inputs != [] && ExitOf(inputs[0]) == StillRunning {
      LoopIsOneLifetime(inputs[1..]);
      forall k | 0 <= k < |StepsOf(inputs[0])| ensures WithinOneLifetime(StepsOf(inputs[0])[k]) {
      }
    }
  }

  class Relayer {
    const eth: BridgeLock
    const scdo: BridgeMint
    const account: Address
    var seenMinted: set<nat>
    var seenWithdrawn: set<nat>
    ghost var paid: multiset<nat>

    /** The relayer is the lock's admin and the peg's minter. */
    ghost predicate Valid()
      reads this, eth, scdo
    {
      eth.Valid() && eth.admin == account && scdo.minter == account
    }

    /** The bridge as the transition system sees it, between handlers. */
    ghost function State(): World
      reads this, eth, scdo
    {
      World(eth.State(), scdo.State(), seenMinted, seenWithdrawn, multiset{}, multiset{}, multiset{}, multiset{}, paid)
    }

    constructor (eth: BridgeLock, scdo: BridgeMint, account: Address)
      requires eth.Valid() && eth.admin == account && scdo.minter == account
      ensures Valid() && this.eth == eth && this.scdo == scdo
      ensures State() == World(eth.State(), scdo.State(), {}, {}, multiset{}, multiset{}, multiset{}, multiset{}, multiset{})
    {
      this.eth, this.scdo, this.account := eth, scdo, account;
      seenMinted, seenWithdrawn, paid := {}, {}, multiset{};
    }

    /** `scdo.Mint`: whether the call is carried out and whether it reports an error. */
    method CallMint(d: Deposited, result: CallResult) returns (err: bool)
      requires Valid()
      modifies scdo
      ensures Valid()
      ensures var r := AfterMint(old(scdo.State()), d.user, d.amount, d.nonce);
              && scdo.State() == (if result.LostCall? then old(scdo.State()) else OrSame(r, old(scdo.State())))
              && err == !(result.Carried? && r.Done?)
    {
      var ok := false;
      if !result.LostCall? {
        ok := scdo.Mint(account, d.user, d.amount, d.nonce);
      }
      err := !(ok && result.Carried?);
    }

    method HandleDeposit(d: Deposited, ghost n: nat, result: CallResult)
      requires Valid() && n < |eth.deposits| && eth.deposits[n] == d
      modifies this`seenMinted, scdo
      ensures Valid() && State() == Run(old(State()), DepositSteps(n, result))
    {
      HandleDepositUnfolds(State(), n, result);
      if d.nonce in seenMinted {
        return;
      }
      seenMinted := seenMinted + {d.nonce};
      var err := CallMint(d, result);
      if err {
        seenMinted := seenMinted - {d.nonce};
      }
    }

    /** `eth.Withdraw`, signed by the relayer. */
    method CallWithdraw(b: Burned, ghost i: nat, result: CallResult) returns (err: bool)
      requires Valid()
      modifies eth, this`paid
      ensures Valid()
      ensures var r := AfterWithdraw(old(eth.State()), b.from, b.amount, b.withdrawNonce);
              && eth.State() == (if result.LostCall? then old(eth.State()) else OrSame(r, old(eth.State())))
              && paid == (if result.LostCall? || r.Reverted? then old(paid) else old(paid) + multiset{i})
              && err == !(result.Carried? && r.Done?)
    {
      var ok := false;
      if !result.LostCall? {
        ok := eth.Withdraw(account, b.from, b.amount, b.withdrawNonce);
        if ok { paid := paid + multiset{i}; }
      }
      err := !(ok && result.Carried?);
    }

    method HandleBurn(b: Burned, ghost i: nat, result: CallResult)
      requires Valid() && i < |scdo.burns| && scdo.burns[i] == b
      modifies this`seenWithdrawn, this`paid, eth
      ensures Valid() && State() == Run(old(State()), BurnSteps(i, result))
    {
      HandleBurnUnfolds(State(), i, result);
      if b.withdrawNonce in seenWithdrawn {
        return;
      }
      seenWithdrawn := seenWithdrawn + {b.withdrawNonce};
      var err := CallWithdraw(b, i, result);
      if err {
        seenWithdrawn := seenWithdrawn - {b.withdrawNonce};
      }
    }

    /** A step taken by someone else between two events. */
    method LetOthersAct(step: Step)
      requires Valid() && IsElsewhere(step)
      modifies eth, scdo
      ensures Valid() && State() == Run(old(State()), [step])
    {
      RunOne(State(), step);
      match step
      case UserDeposits(user, amount) => var _ := eth.Deposit(user, amount);
      case OwnerSetsFee(newFee) => var _ := eth.SetFeeBps(eth.owner, newFee);
      case TokenMoves(from, to, amount) => var _ := eth.TransferToken(from, to, amount);
      case PegMoves(from, to, amount) => var _ := scdo.Transfer(from, to, amount);
      case UserBurns(from, amount, withdrawNonce) => var _ := scdo.Burn(from, amount, withdrawNonce);
    }

    /** One turn of the loop that does not end it. */
    method Receive(input: Input)
      requires Valid() && (input.Elsewhere? ==> IsElsewhere(input.step))
      modifies this, eth, scdo
      ensures Valid() && State() == Run(old(State()), StepsOf(input))
    {
      match input
      case DepositArrives(n, result) =>
        HandleDepositUnfolds(State(), n, result);
        if n < |eth.deposits| {
          HandleDeposit(eth.deposits[n], n, result);
        }
      case BurnArrives(i, result) =>
        HandleBurnUnfolds(State(), i, result);
        if i < |scdo.burns| {
          HandleBurn(scdo.burns[i], i, result);
        }
      case Elsewhere(step) => LetOthersAct(step);
      case _ =>
    }

    /** The event loop: every execution of it is a run of the transition system. */
    method Loop(inputs: seq<Input>) returns (exit: Exit)
      requires Valid() && forall k :: 0 <= k < |inputs| && inputs[k].Elsewhere? ==> IsElsewhere(inputs[k].step)
      modifies this, eth, scdo
      ensures Valid() && exit == ExitAfter(inputs)
      ensures State() == Run(old(State()), StepsUntilExit(inputs))
    {
      exit := StillRunning;
      for k := 0 to |inputs|
        invariant Valid() && exit == StillRunning && ExitAfter(inputs[k..]) == ExitAfter(inputs)
        invariant Run(State(), StepsUntilExit(inputs[k..])) == Run(old(State()), StepsUntilExit(inputs))
      {
        exit := ExitOf(inputs[k]);
        if exit != StillRunning {
          return;
        }
        assert inputs[k..][1..] == inputs[k + 1..];
        RunSplits(State(), StepsOf(inputs[k]), StepsUntilExit(inputs[k + 1..]));
        Receive(inputs[k]);
      }
    }
  }
}
