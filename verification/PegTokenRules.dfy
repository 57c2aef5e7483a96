/** What each call of the V1 peg token may do and to whom, and what that means over whole runs under both semantics. */
module PegTokenRules {
  import opened Sums
  import opened PegTokenV1

  // ----- One call -----

  /** Every balance but these two is what it was. */
  ghost predicate OthersKeep(before: map<Address, nat>, after: map<Address, nat>, a: Address, b: Address) {
    forall c :: c != a && c != b ==> Get(after, c) == Get(before, c)
  }

  /** A transfer needs the balance; it debits `from`, credits `to` modulo 2^256 and touches no one else. */
  lemma MovedRule(s: Storage, from: Address, to: Address, amount: Word)
    requires Words(s)
    ensures var r := Moved(s, from, to, amount);
            && (r.ok <==> amount <= Get(s.balanceOf, from))
            && r.s == s.(balanceOf := r.s.balanceOf)
            && OthersKeep(s.balanceOf, r.s.balanceOf, from, to)
            && (!r.ok ==> r.s == s)
            && (r.ok && from == to ==> Get(r.s.balanceOf, to) == Get(s.balanceOf, to))
            && (r.ok && from != to ==>
                  && Get(r.s.balanceOf, from) == Get(s.balanceOf, from) - amount
                  && (Get(s.balanceOf, to) + amount < WORD ==> Get(r.s.balanceOf, to) == Get(s.balanceOf, to) + amount)
                  && (Get(s.balanceOf, to) + amount >= WORD ==> Get(r.s.balanceOf, to) == Get(s.balanceOf, to) + amount - WORD))
  {
    assert Get(s.balanceOf, from) < WORD && Get(s.balanceOf, to) < WORD;
  }

  /** `approve` sets what the spender may take from the caller, and nothing else. */
  lemma ApproveRule(s: Storage, sender: Address, spender: Address, amount: Word)
    ensures var r := Body(s, Approve(sender, spender, amount));
            && r.ok && r.s == s.(allowance := r.s.allowance)
            && Get(r.s.allowance, (sender, spender)) == amount
            && forall p :: p != (sender, spender) ==> Get(r.s.allowance, p) == Get(s.allowance, p)
  {
  }

  /** `transferFrom` needs what `from` allowed the caller and what `from` holds, and uses both up by the amount. */
  lemma TransferFromRule(s: Storage, sender: Address, from: Address, to: Address, amount: Word)
    requires Words(s)
    ensures var r := Body(s, TransferFrom(sender, from, to, amount));
            && (r.ok <==> amount <= Get(s.allowance, (from, sender)) && amount <= Get(s.balanceOf, from))
            && (r.ok ==>
                  && Get(r.s.allowance, (from, sender)) == Get(s.allowance, (from, sender)) - amount
                  && (forall p :: p != (from, sender) ==> Get(r.s.allowance, p) == Get(s.allowance, p))
                  && r.s.balanceOf == Moved(s, from, to, amount).s.balanceOf
                  && r.s == s.(allowance := r.s.allowance, balanceOf := r.s.balanceOf))
  {
  }

  /** A mint needs the minter and a new nonce; otherwise it leaves storage as it was, under both semantics. */
  lemma MintRule(mode: OnFailure, s: Storage, sender: Address, to: Address, amount: Word, nonce: nat)
    ensures var r := Body(s, Mint(sender, to, amount, nonce));
            && (r.ok <==> sender == s.minter && nonce !in s.usedNonces)
            && (!r.ok ==> After(mode, s, Mint(sender, to, amount, nonce)) == s)
            && (r.ok ==>
                  && (forall n :: n in r.s.usedNonces <==> n in s.usedNonces || n == nonce)
                  && OthersKeep(s.balanceOf, r.s.balanceOf, to, to)
                  && Get(r.s.balanceOf, to) == WrapAdd(Get(s.balanceOf, to), amount)
                  && r.s.totalSupply == WrapAdd(s.totalSupply, amount)
                  && r.s.allowance == s.allowance && r.s.minter == s.minter)
  {
  }

  /** A burn needs the balance and takes it from the caller alone. */
  lemma BurnRule(mode: OnFailure, s: Storage, sender: Address, amount: Word, nonce: nat)
    ensures var r := Body(s, Burn(sender, amount, nonce));
            && (r.ok <==> amount <= Get(s.balanceOf, sender))
            && (!r.ok ==> After(mode, s, Burn(sender, amount, nonce)) == s)
            && (r.ok ==>
                  && Get(r.s.balanceOf, sender) == Get(s.balanceOf, sender) - amount
                  && OthersKeep(s.balanceOf, r.s.balanceOf, sender, sender)
                  && r.s.totalSupply == WrapSub(s.totalSupply, amount)
                  && r.s.usedNonces == s.usedNonces && r.s.allowance == s.allowance && r.s.minter == s.minter)
  {
  }

  /** Only the minter passes the role on. */
  lemma SetMinterRule(mode: OnFailure, s: Storage, sender: Address, newMinter: Address)
    ensures var r := Body(s, SetMinter(sender, newMinter));
            && (r.ok <==> sender == s.minter)
            && After(mode, s, SetMinter(sender, newMinter)) == if sender == s.minter then s.(minter := newMinter) else s
  {
  }

  /** Words wrap as 256-bit arithmetic does. */
  lemma WrapsModulo(a: Word, b: Word)
    ensures WrapAdd(a, b) < WORD && WrapAdd(a, b) == (a + b) % WORD
    ensures WrapSub(a, b) < WORD && WrapSub(a, b) == (a - b) % WORD
  {
  }

  // ----- Runs -----

  /** A nonce once used stays used. */
  lemma {:induction false} NoncesStayUsed(mode: OnFailure, s: Storage, calls: seq<Call>)
    ensures s.usedNonces <= Run(mode, s, calls).usedNonces
  {
    if calls != [] {
      NoncesStayUsed(mode, s, calls[..|calls| - 1]);
    }
  }

  lemma {:induction false} RunSplits(mode: OnFailure, s: Storage, a: seq<Call>, b: seq<Call>)
    ensures Run(mode, s, a + b) == Run(mode, Run(mode, s, a), b)
  {
    if b == [] {
      assert a + b == a;
    } else {
      assert (a + b)[..|a + b| - 1] == a + b[..|b| - 1];
      RunSplits(mode, s, a, b[..|b| - 1]);
    }
  }

  /**
   Each nonce is credited by at most one call of a run, under both semantics: once a mint of it has succeeded, every
   later mint of it, by whomever, leaves storage as it was.
   */
  lemma NonceMintsOnce(mode: OnFailure, s: Storage, calls: seq<Call>, j: nat, k: nat)
    requires j < k < |calls| && calls[j].Mint? && calls[k].Mint? && calls[j].nonce == calls[k].nonce
    requires Body(Run(mode, s, calls[..j]), calls[j]).ok
    ensures !Body(Run(mode, s, calls[..k]), calls[k]).ok
    ensures Run(mode, s, calls[..k + 1]) == Run(mode, s, calls[..k])
  {
    var before, c := calls[..j], calls[j];
    var between := calls[j + 1..k];
    assert calls[..j + 1][..j] == before && calls[..k] == calls[..j + 1] + between && calls[..k + 1][..k] == calls[..k];
    var u := Run(mode, s, calls[..j + 1]);
    MintRule(mode, Run(mode, s, before), c.sender, c.to, c.amount, c.nonce);
    assert c.nonce in u.usedNonces;
    RunSplits(mode, s, calls[..j + 1], between);
    NoncesStayUsed(mode, u, between);
    MintRule(mode, Run(mode, s, calls[..k]), calls[k].sender, calls[k].to, calls[k].amount, calls[k].nonce);
  }

  /** Without a call by the minter nothing is minted and the role stays where it is. */
  lemma {:induction false} OnlyTheMinterMints(mode: OnFailure, s: Storage, calls: seq<Call>)
    requires forall k :: 0 <= k < |calls| && (calls[k].Mint? || calls[k].SetMinter?) ==> calls[k].sender != s.minter
    ensures Run(mode, s, calls).minter == s.minter && Run(mode, s, calls).usedNonces == s.usedNonces
    ensures Minted(mode, s, calls) == 0
  {
    if calls != [] {
      OnlyTheMinterMints(mode, s, calls[..|calls| - 1]);
    }
  }
}
