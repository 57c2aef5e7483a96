/**
 The V1 peg token (solidity/contracts/bridge/BridgeMintV1.sol), under the REVERT semantics it is written for and
 under the STOP semantics it runs with once its bytecode is patched. Words are 256 bits and wrap, as in
 Solidity 0.5.
 */
module PegTokenV1 {
  import opened Sums

  type Word = x: nat | x < WORD
  type Address = string

  /** Storage words are kept below 2^256, so one subtraction or addition of 2^256 wraps a result. */
  function WrapAdd(a: nat, b: Word): nat {
    if a + b < WORD then a + b else a + b - WORD
  }

  function WrapSub(a: nat, b: Word): nat {
    if a >= b then a - b else a + WORD - b
  }

  datatype Storage = Storage(
    balanceOf: map<Address, nat>,
    allowance: map<(Address, Address), nat>,
    usedNonces: set<nat>,
    totalSupply: nat,
    minter: Address)

  datatype Call =
    | Transfer(sender: Address, to: Address, amount: Word)
    | Approve(sender: Address, spender: Address, amount: Word)
    | TransferFrom(sender: Address, from: Address, to: Address, amount: Word)
    | Mint(sender: Address, to: Address, amount: Word, nonce: nat)
    | Burn(sender: Address, amount: Word, withdrawNonce: nat)
    | SetMinter(sender: Address, newMinter: Address)

  /** Where a call halts: at its end, or at a failed `require` with the writes made before it. */
  datatype Halt = Halt(ok: bool, s: Storage)

  function Moved(s: Storage, from: Address, to: Address, amount: Word): Halt {
    if Get(s.balanceOf, from) < amount then Halt(false, s)
    else
      var debited := s.balanceOf[from := Get(s.balanceOf, from) - amount];
      Halt(true, s.(balanceOf := debited[to := WrapAdd(Get(debited, to), amount)]))
  }

  function Body(s: Storage, c: Call): Halt {
    match c
    case Transfer(sender, to, amount) => Moved(s, sender, to, amount)
    case Approve(sender, spender, amount) => Halt(true, s.(allowance := s.allowance[(sender, spender) := amount]))
    case TransferFrom(sender, from, to, amount) =>
      var allowed := Get(s.allowance, (from, sender));
      if allowed < amount then Halt(false, s)
      else Moved(s.(allowance := s.allowance[(from, sender) := allowed - amount]), from, to, amount)
    case Mint(sender, to, amount, nonce) =>
      if sender != s.minter || nonce in s.usedNonces then Halt(false, s)
      else Halt(true, s.(
        usedNonces := s.usedNonces + {nonce},
        balanceOf := s.balanceOf[to := WrapAdd(Get(s.balanceOf, to), amount)],
        totalSupply := WrapAdd(s.totalSupply, amount)))
    case Burn(sender, amount, _) =>
      if Get(s.balanceOf, sender) < amount then Halt(false, s)
      else Halt(true, s.(
        balanceOf := s.balanceOf[sender := Get(s.balanceOf, sender) - amount],
        totalSupply := WrapSub(s.totalSupply, amount)))
    case SetMinter(sender, newMinter) =>
      if sender != s.minter then Halt(false, s) else Halt(true, s.(minter := newMinter))
  }

  /** What a failed `require` does: undo the call's writes, or merely halt. */
  datatype OnFailure = Revert | Stop

  function After(mode: OnFailure, s: Storage, c: Call): Storage {
    var halt := Body(s, c);
    if halt.ok || mode.Stop? then halt.s else s
  }

  function Run(mode: OnFailure, s: Storage, calls: seq<Call>): Storage {
    if calls == [] then s else After(mode, Run(mode, s, calls[..|calls| - 1]), calls[|calls| - 1])
  }

  // ----- The contract -----

  class BridgeMint {
    const onFailure: OnFailure
    var balanceOf: map<Address, nat>
    var allowance: map<(Address, Address), nat>
    var usedNonces: set<nat>
    var totalSupply: nat
    var minter: Address

    function State(): Storage
      reads this
    {
      Storage(balanceOf, allowance, usedNonces, totalSupply, minter)
    }

    constructor (onFailure: OnFailure, minter: Address)
      ensures this.onFailure == onFailure && State() == Storage(map[], map[], {}, 0, minter)
    {
      this.onFailure := onFailure;
      this.minter := minter;
      balanceOf, allowance, usedNonces, totalSupply := map[], map[], {}, 0;
    }

    /** The internal `_transfer`; the caller handles a failed `require`. */
    method Move(from: Address, to: Address, amount: Word) returns (ok: bool)
      modifies this
      ensures Halt(ok, State()) == Moved(old(State()), from, to, amount)
    {
      if Get(balanceOf, from) < amount {
        return false;
      }
      balanceOf := balanceOf[from := Get(balanceOf, from) - amount];
      balanceOf := balanceOf[to := WrapAdd(Get(balanceOf, to), amount)];
      ok := true;
    }

    method Transfer(sender: Address, to: Address, amount: Word) returns (ok: bool)
      modifies this
      ensures ok == Body(old(State()), Call.Transfer(sender, to, amount)).ok
      ensures State() == After(onFailure, old(State()), Call.Transfer(sender, to, amount))
    {
      ok := Move(sender, to, amount);
    }

    method Approve(sender: Address, spender: Address, amount: Word)
      modifies this
      ensures State() == After(onFailure, old(State()), Call.Approve(sender, spender, amount))
    {
      allowance := allowance[(sender, spender) := amount];
    }

    method TransferFrom(sender: Address, from: Address, to: Address, amount: Word) returns (ok: bool)
      modifies this
      ensures ok == Body(old(State()), Call.TransferFrom(sender, from, to, amount)).ok
      ensures State() == After(onFailure, old(State()), Call.TransferFrom(sender, from, to, amount))
    {
      if Get(allowance, (from, sender)) < amount {
        return false;
      }
      var before := allowance;
      allowance := allowance[(from, sender) := Get(allowance, (from, sender)) - amount];
      ok := Move(from, to, amount);
      if !ok && onFailure.Revert? {
        allowance := before;
      }
    }

    method Mint(sender: Address, to: Address, amount: Word, sourceNonce: nat) returns (ok: bool)
      modifies this
      ensures ok == Body(old(State()), Call.Mint(sender, to, amount, sourceNonce)).ok
      ensures State() == After(onFailure, old(State()), Call.Mint(sender, to, amount, sourceNonce))
    {
      if sender != minter || sourceNonce in usedNonces {
        return false;
      }
      usedNonces := usedNonces + {sourceNonce};
      balanceOf := balanceOf[to := WrapAdd(Get(balanceOf, to), amount)];
      totalSupply := WrapAdd(totalSupply, amount);
      ok := true;
    }

    method Burn(sender: Address, amount: Word, withdrawNonce: nat) returns (ok: bool)
      modifies this
      ensures ok == Body(old(State()), Call.Burn(sender, amount, withdrawNonce)).ok
      ensures State() == After(onFailure, old(State()), Call.Burn(sender, amount, withdrawNonce))
    {
      if Get(balanceOf, sender) < amount {
        return false;
      }
      balanceOf := balanceOf[sender := Get(balanceOf, sender) - amount];
      totalSupply := WrapSub(totalSupply, amount);
      ok := true;
    }

    method SetMinter(sender: Address, newMinter: Address) returns (ok: bool)
      modifies this
      ensures ok == Body(old(State()), Call.SetMinter(sender, newMinter)).ok
      ensures State() == After(onFailure, old(State()), Call.SetMinter(sender, newMinter))
    {
      if sender != minter {
        return false;
      }
      minter := newMinter;
      ok := true;
    }
  }

  // ----- STOP against REVERT -----

  /** The stopping contract agrees with the reverting one, except that its allowances may be smaller. */
  ghost predicate Simulates(stopping: Storage, reverting: Storage) {
    && stopping.balanceOf == reverting.balanceOf
    && stopping.usedNonces == reverting.usedNonces
    && stopping.totalSupply == reverting.totalSupply
    && stopping.minter == reverting.minter
    && forall p :: Get(stopping.allowance, p) <= Get(reverting.allowance, p)
  }

  /** The calls of a stopping run that halt at their end. */
  function Succeeding(s: Storage, calls: seq<Call>): (kept: seq<Call>) {
    if calls == [] then []
    else
      var before := calls[..|calls| - 1];
      Succeeding(s, before) + if Body(Run(Stop, s, before), calls[|calls| - 1]).ok then [calls[|calls| - 1]] else []
  }

  ghost predicate AllSucceed(mode: OnFailure, s: Storage, calls: seq<Call>) {
    forall i :: 0 <= i < |calls| ==> Body(Run(mode, s, calls[..i]), calls[i]).ok
  }

  lemma StopStep(stopping: Storage, reverting: Storage, c: Call)
    requires Simulates(stopping, reverting)
    ensures Body(stopping, c).ok ==>
              Body(reverting, c).ok && Simulates(After(Stop, stopping, c), After(Revert, reverting, c))
    ensures !Body(stopping, c).ok ==> Simulates(After(Stop, stopping, c), reverting)
  {
    var q := if c.TransferFrom? then (c.from, c.sender) else (c.sender, c.sender);
    assert Get(stopping.allowance, q) <= Get(reverting.allowance, q);
    AllowancesStayBelow(stopping, reverting, c);
  }

  lemma AllowancesStayBelow(stopping: Storage, reverting: Storage, c: Call)
    requires Simulates(stopping, reverting)
    ensures var left := After(Stop, stopping, c).allowance;
            forall p :: Get(left, p) <= Get(if Body(stopping, c).ok then Body(reverting, c).s.allowance else reverting.allowance, p)
  {
    var left := After(Stop, stopping, c).allowance;
    var right := if Body(stopping, c).ok then Body(reverting, c).s.allowance else reverting.allowance;
    var q := if c.TransferFrom? then (c.from, c.sender) else (c.sender, c.sender);
    forall p ensures Get(left, p) <= Get(right, p) {
      assert Get(stopping.allowance, p) <= Get(reverting.allowance, p);
      assert Get(stopping.allowance, q) <= Get(reverting.allowance, q);
    }
  }

  /**
   Every run of the stopping contract is matched by the reverting contract on the same calls without the failing
   ones, none of which fails there.
   */
  lemma {:induction false} StopSimulatesRevert(stopping: Storage, reverting: Storage, calls: seq<Call>)
    requires Simulates(stopping, reverting)
    ensures Simulates(Run(Stop, stopping, calls), Run(Revert, reverting, Succeeding(stopping, calls)))
    ensures AllSucceed(Revert, reverting, Succeeding(stopping, calls))
  {
    if calls != [] {
      var before, last := calls[..|calls| - 1], calls[|calls| - 1];
      var kept := Succeeding(stopping, before);
      StopSimulatesRevert(stopping, reverting, before);
      StopStep(Run(Stop, stopping, before), Run(Revert, reverting, kept), last);
      if Body(Run(Stop, stopping, before), last).ok {
        var all := kept + [last];
        assert all[..|kept|] == kept;
        forall i | 0 <= i < |all| ensures Body(Run(Revert, reverting, all[..i]), all[i]).ok {
          if i < |kept| { assert all[..i] == kept[..i]; }
        }
      } else {
        assert kept + [] == kept;
      }
    }
  }

  /**
   A single call leaves different storage under the two semantics exactly when it is a `transferFrom` that has
   the allowance but not the balance: stopping keeps the spent allowance.
   */
  lemma StopDiffersExactly(s: Storage, c: Call)
    ensures After(Stop, s, c) != After(Revert, s, c)
            <==> (c.TransferFrom? && Get(s.balanceOf, c.from) < c.amount <= Get(s.allowance, (c.from, c.sender)))
  {
    if c.TransferFrom? && c.amount <= Get(s.allowance, (c.from, c.sender)) {
      var p := (c.from, c.sender);
      assert s.allowance[p := Get(s.allowance, p) - c.amount][p] == Get(s.allowance, p) - c.amount;
    }
  }

  // ----- Supply -----

  /** What the successful mints of a run add up to. */
  function Minted(mode: OnFailure, s: Storage, calls: seq<Call>): nat {
    if calls == [] then 0
    else
      var before, last := calls[..|calls| - 1], calls[|calls| - 1];
      Minted(mode, s, before) + MintedBy(Run(mode, s, before), last)
  }

  ghost predicate Words(s: Storage) {
    s.totalSupply < WORD && forall a :: Get(s.balanceOf, a) < WORD
  }

  /** The balances exceed the supply by `k` times 2^256. */
  ghost predicate OffBy(s: Storage, k: int) {
    Sum(s.balanceOf) == s.totalSupply + k * WORD
  }

  lemma MoveTotal(s: Storage, from: Address, to: Address, amount: Word) returns (wraps: nat)
    requires Words(s)
    ensures Words(Moved(s, from, to, amount).s)
    ensures Sum(Moved(s, from, to, amount).s.balanceOf) == Sum(s.balanceOf) - wraps * WORD
    ensures Sum(s.balanceOf) < WORD ==> wraps == 0
  {
    wraps := 0;
    if Get(s.balanceOf, from) >= amount {
      var left := Get(s.balanceOf, from) - amount;
      var debited := s.balanceOf[from := left];
      WordsAfterSet(s.balanceOf, from, left, debited);
      SumAfterSet(s.balanceOf, from, left);
      wraps := CreditTotal(debited, to, amount);
      WordsAfterSet(debited, to, WrapAdd(Get(debited, to), amount), Moved(s, from, to, amount).s.balanceOf);
    }
  }

  lemma CreditTotal(m: map<Address, nat>, a: Address, amount: Word) returns (wraps: nat)
    requires Get(m, a) < WORD
    ensures Sum(m[a := WrapAdd(Get(m, a), amount)]) == Sum(m) + amount - wraps * WORD
    ensures Sum(m) + amount < WORD ==> wraps == 0
  {
    SumAfterSet(m, a, WrapAdd(Get(m, a), amount));
    GetAtMostSum(m, a);
    wraps := if Get(m, a) + amount < WORD then 0 else 1;
  }

  lemma WordsAfterSet(m: map<Address, nat>, a: Address, v: nat, t: map<Address, nat>)
    requires v < WORD && t == m[a := v] && forall b :: Get(m, b) < WORD
    ensures forall b :: Get(t, b) < WORD
  {
    forall b ensures Get(t, b) < WORD {
      assert Get(m, b) < WORD;
    }
  }

  lemma MintTotal(s: Storage, c: Call, k: int) returns (k': int)
    requires Words(s) && OffBy(s, k) && c.Mint? && Body(s, c).ok
    ensures Words(Body(s, c).s) && OffBy(Body(s, c).s, k')
    ensures k == 0 && s.totalSupply + c.amount < WORD ==> k' == 0
  {
    var balance := Get(s.balanceOf, c.to);
    SumAfterSet(s.balanceOf, c.to, WrapAdd(balance, c.amount));
    GetAtMostSum(s.balanceOf, c.to);
    WordsAfterSet(s.balanceOf, c.to, WrapAdd(balance, c.amount), Body(s, c).s.balanceOf);
    k' := k + (if s.totalSupply + c.amount < WORD then 0 else 1) - (if balance + c.amount < WORD then 0 else 1);
  }

  lemma BurnTotal(s: Storage, c: Call, k: int) returns (k': int)
    requires Words(s) && OffBy(s, k) && c.Burn? && Body(s, c).ok
    ensures Words(Body(s, c).s) && OffBy(Body(s, c).s, k')
    ensures k == 0 ==> k' == 0 && Body(s, c).s.totalSupply <= s.totalSupply
  {
    var balance := Get(s.balanceOf, c.sender);
    SumAfterSet(s.balanceOf, c.sender, balance - c.amount);
    GetAtMostSum(s.balanceOf, c.sender);
    WordsAfterSet(s.balanceOf, c.sender, balance - c.amount, Body(s, c).s.balanceOf);
    k' := k - (if s.totalSupply >= c.amount then 0 else 1);
  }

  function MintedBy(s: Storage, c: Call): nat {
    if c.Mint? && Body(s, c).ok then c.amount else 0
  }

  lemma TransferFromTotal(mode: OnFailure, s: Storage, c: Call, k: int) returns (k': int)
    requires Words(s) && OffBy(s, k) && c.TransferFrom?
    ensures Words(After(mode, s, c)) && OffBy(After(mode, s, c), k')
    ensures k == 0 ==> k' == 0
    ensures After(mode, s, c).totalSupply == s.totalSupply
  {
    k' := k;
    var allowed := Get(s.allowance, (c.from, c.sender));
    if c.amount <= allowed && c.amount <= Get(s.balanceOf, c.from) {
      var spent := s.(allowance := s.allowance[(c.from, c.sender) := allowed - c.amount]);
      var wraps := MoveTotal(spent, c.from, c.to, c.amount);
      k' := k - wraps;
    }
  }

  lemma CallKeepsTotal(mode: OnFailure, s: Storage, c: Call, k: int) returns (k': int)
    requires Words(s) && OffBy(s, k)
    ensures Words(After(mode, s, c)) && OffBy(After(mode, s, c), k')
    ensures k == 0 && s.totalSupply + MintedBy(s, c) < WORD ==>
              k' == 0 && After(mode, s, c).totalSupply <= s.totalSupply + MintedBy(s, c)
  {
    k' := k;
    match c
    case Transfer(sender, to, amount) =>
      var wraps := MoveTotal(s, sender, to, amount);
      k' := k - wraps;
    case TransferFrom(sender, from, to, amount) =>
      k' := TransferFromTotal(mode, s, c, k);
    case Mint(_, _, _, _) =>
      if Body(s, c).ok { k' := MintTotal(s, c, k); }
    case Burn(_, _, _) =>
      if Body(s, c).ok { k' := BurnTotal(s, c, k); }
    case _ =>
  }

  lemma {:induction false} RunKeepsTotal(mode: OnFailure, s: Storage, calls: seq<Call>, k: int) returns (k': int)
    requires Words(s) && OffBy(s, k)
    ensures Words(Run(mode, s, calls)) && OffBy(Run(mode, s, calls), k')
    ensures k == 0 && s.totalSupply + Minted(mode, s, calls) < WORD ==>
              k' == 0 && Run(mode, s, calls).totalSupply <= s.totalSupply + Minted(mode, s, calls)
  {
    k' := k;
    if calls != [] {
      var before, last := calls[..|calls| - 1], calls[|calls| - 1];
      k' := RunKeepsTotal(mode, s, before, k);
      k' := CallKeepsTotal(mode, Run(mode, s, before), last, k');
    }
  }

  /**
   Over every run and under both semantics the balances add up to the supply modulo 2^256, and as plain numbers
   while the initial supply and everything minted stay below 2^256.
   */
  lemma BalancesMatchSupply(mode: OnFailure, s: Storage, calls: seq<Call>)
    requires Words(s) && Sum(s.balanceOf) % WORD == s.totalSupply
    ensures var t := Run(mode, s, calls);
            Words(t) && Sum(t.balanceOf) % WORD == t.totalSupply
    ensures Sum(s.balanceOf) == s.totalSupply && s.totalSupply + Minted(mode, s, calls) < WORD ==>
              var t := Run(mode, s, calls);
              Sum(t.balanceOf) == t.totalSupply <= s.totalSupply + Minted(mode, s, calls)
  {
    var k := RunKeepsTotal(mode, s, calls, Sum(s.balanceOf) / WORD);
    RemainderOf(Run(mode, s, calls).totalSupply, k);
  }

  lemma RemainderOf(r: nat, k: int)
    requires r < WORD
    ensures (r + k * WORD) % WORD == r
  {
  }
}
