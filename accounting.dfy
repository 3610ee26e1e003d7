/**
 * The genesis accountant (`AccountingGenesis`): a mutable ledger of accounts
 * keyed by address and a map of delegations keyed destination-first
 * (`delegations[to][from]`), with a running total of the tokens allocated to
 * accounts, from which the common pool is derived at the end.
 */
module Accounting {
  import opened Wrappers
  import opened Quantity
  import opened Staking
  import opened Errors

  /** The account `AddAccount` creates: everything spendable, empty escrow, no commission schedule. */
  function NewAccount(balance: nat): Account
  {
    Account(GeneralAccount(balance, 0), EscrowAccount(EmptyPool, EmptyPool, NoSchedule))
  }

  /** The single-step schedule installed on every account that receives a delegation. */
  function SingleStepSchedule(rate: nat, rateMin: nat, rateMax: nat): CommissionSchedule
  {
    CommissionSchedule([CommissionRateStep(0, rate)], [CommissionRateBoundStep(0, rateMin, rateMax)])
  }

  /** The delegators of `to` and their shares; none when `to` has no entry. */
  function InnerOf<K>(delegations: map<K, map<K, Delegation>>, to: K): map<K, Delegation>
  {
    if to in delegations then delegations[to] else map[]
  }

  predicate HasDelegation<K>(delegations: map<K, map<K, Delegation>>, from: K, to: K)
  {
    to in delegations && from in delegations[to]
  }

  /**
   * The ledger after `amount` leaves `from`'s general balance and enters
   * `to`'s active pool as the same number of shares, with `schedule`
   * installed on `to`. The two writes are sequential, so `from == to` moves
   * tokens within one account.
   */
  function Escrowed(ledger: map<Address, Account>, from: Address, to: Address, amount: nat, schedule: CommissionSchedule): (r: map<Address, Account>)
    requires from in ledger && to in ledger && amount <= ledger[from].general.balance
    ensures r.Keys == ledger.Keys
    ensures forall k {:trigger r[k]} | k in ledger && k != from && k != to :: r[k] == ledger[k]
    ensures r[from].general.balance == ledger[from].general.balance - amount
    ensures r[to].escrow.active.balance == ledger[to].escrow.active.balance + amount
    ensures r[to].escrow.active.totalShares == ledger[to].escrow.active.totalShares + amount
    ensures r[to].escrow.commissionSchedule == schedule
    ensures r[to].escrow.debonding == ledger[to].escrow.debonding
    ensures from != to ==> r[from].escrow == ledger[from].escrow && r[to].general == ledger[to].general
  {
    var src := ledger[from];
    var debited := ledger[from := src.(general := src.general.(balance := src.general.balance - amount))];
    var dst := debited[to];
    var pool := SharePool(dst.escrow.active.balance + amount, dst.escrow.active.totalShares + amount);
    debited[to := dst.(escrow := dst.escrow.(active := pool, commissionSchedule := schedule))]
  }

  /** The delegations after recording a `from -> to` edge carrying `shares`. */
  function Recorded<K>(delegations: map<K, map<K, Delegation>>, from: K, to: K, shares: nat): map<K, map<K, Delegation>>
  {
    delegations[to := InnerOf(delegations, to)[from := Delegation(shares)]]
  }

  /** Every account's escrow agrees with its delegators, and the schedule with whether it has any. */
  ghost predicate EscrowMatches(a: Account, incoming: map<Address, Delegation>, schedule: CommissionSchedule)
  {
    && a.escrow.active.balance == TotalShares(incoming)
    && a.escrow.active.totalShares == TotalShares(incoming)
    && a.escrow.debonding == EmptyPool
    && a.escrow.commissionSchedule == (if incoming == map[] then NoSchedule else schedule)
  }

  /** Account `a` is in the ledger and its escrow agrees with its delegators. */
  ghost predicate PoolMatches(ledger: map<Address, Account>, delegations: map<Address, map<Address, Delegation>>, schedule: CommissionSchedule, a: Address)
  {
    a in ledger && EscrowMatches(ledger[a], InnerOf(delegations, a), schedule)
  }

  /**
   * The accountant's invariant: the ledger holds exactly the allocated
   * tokens, delegations join existing accounts, each active pool is the sum
   * of its delegators' shares (issued 1:1), debonding pools are empty, and
   * the commission schedule is installed exactly on accounts with delegators.
   */
  ghost predicate Consistent(ledger: map<Address, Account>, delegations: map<Address, map<Address, Delegation>>, total: nat, schedule: CommissionSchedule)
  {
    && TotalHeld(ledger) == total
    && (forall to {:trigger delegations[to]} | to in delegations :: to in ledger && delegations[to].Keys <= ledger.Keys)
    && (forall a {:trigger PoolMatches(ledger, delegations, schedule, a)} | a in ledger :: PoolMatches(ledger, delegations, schedule, a))
  }

  lemma EmptyConsistent(schedule: CommissionSchedule)
    ensures Consistent(map[], map[], 0, schedule)
  {
  }

  /** Creating an account with `balance` keeps the invariant and raises the total by `balance`. */
  lemma AddAccountKeepsConsistent(ledger: map<Address, Account>, delegations: map<Address, map<Address, Delegation>>, total: nat, schedule: CommissionSchedule, address: Address, balance: nat)
    requires Consistent(ledger, delegations, total, schedule)
    requires address !in ledger
    ensures Consistent(ledger[address := NewAccount(balance)], delegations, total + balance, schedule)
  {
    var ledger' := ledger[address := NewAccount(balance)];
    assert TotalHeld(ledger') == total + balance by {
      TotalHeldUpdate(ledger, address, NewAccount(balance));
    }
    assert forall to | to in delegations :: to in ledger' && delegations[to].Keys <= ledger'.Keys;
    forall a | a in ledger' ensures PoolMatches(ledger', delegations, schedule, a) {
      if a == address {
        assert InnerOf(delegations, address) == map[];
        TotalSharesEmpty(InnerOf(delegations, address));
      } else {
        assert ledger'[a] == ledger[a];
        assert PoolMatches(ledger, delegations, schedule, a);
      }
    }
  }

  /** Moving tokens from a general balance into an active pool leaves the ledger total unchanged. */
  lemma EscrowConserves(ledger: map<Address, Account>, from: Address, to: Address, amount: nat, schedule: CommissionSchedule)
    requires from in ledger && to in ledger && amount <= ledger[from].general.balance
    ensures TotalHeld(Escrowed(ledger, from, to, amount, schedule)) == TotalHeld(ledger)
  {
    var src := ledger[from];
    var debited := ledger[from := src.(general := src.general.(balance := src.general.balance - amount))];
    var dst := debited[to];
    var pool := SharePool(dst.escrow.active.balance + amount, dst.escrow.active.totalShares + amount);
    var credited := dst.(escrow := dst.escrow.(active := pool, commissionSchedule := schedule));
    assert Escrowed(ledger, from, to, amount, schedule) == debited[to := credited];
    assert TotalHeld(debited) + Held(src) == TotalHeld(ledger) + Held(debited[from]) by {
      TotalHeldUpdate(ledger, from, debited[from]);
    }
    assert TotalHeld(debited[to := credited]) + Held(dst) == TotalHeld(debited) + Held(credited) by {
      TotalHeldUpdate(debited, to, credited);
    }
    assert Held(debited[from]) + amount == Held(src);
    assert Held(credited) == Held(dst) + amount;
  }

  /** A new delegation keeps the invariant: tokens are conserved and the shares match the pool. */
  lemma EscrowKeepsConsistent(ledger: map<Address, Account>, delegations: map<Address, map<Address, Delegation>>, total: nat, schedule: CommissionSchedule, from: Address, to: Address, amount: nat)
    requires Consistent(ledger, delegations, total, schedule)
    requires from in ledger && to in ledger && !HasDelegation(delegations, from, to)
    requires amount <= ledger[from].general.balance
    ensures Consistent(Escrowed(ledger, from, to, amount, schedule), Recorded(delegations, from, to, amount), total, schedule)
  {
    EscrowConserves(ledger, from, to, amount, schedule);
    EscrowKeepsPools(ledger, delegations, total, schedule, from, to, amount);
  }

  lemma EscrowKeepsPools(ledger: map<Address, Account>, delegations: map<Address, map<Address, Delegation>>, total: nat, schedule: CommissionSchedule, from: Address, to: Address, amount: nat)
    requires Consistent(ledger, delegations, total, schedule)
    requires from in ledger && to in ledger && !HasDelegation(delegations, from, to)
    requires amount <= ledger[from].general.balance
    ensures var ledger', delegations' := Escrowed(ledger, from, to, amount, schedule), Recorded(delegations, from, to, amount);
      && (forall t | t in delegations' :: t in ledger' && delegations'[t].Keys <= ledger'.Keys)
      && (forall a | a in ledger' :: PoolMatches(ledger', delegations', schedule, a))
  {
    var ledger' := Escrowed(ledger, from, to, amount, schedule);
    var delegations' := Recorded(delegations, from, to, amount);
    var inner := InnerOf(delegations, to);
    assert PoolMatches(ledger', delegations', schedule, to) by {
      assert from !in inner;
      TotalSharesUpdate(inner, from, Delegation(amount));
      assert InnerOf(delegations', to) == inner[from := Delegation(amount)];
      assert PoolMatches(ledger, delegations, schedule, to);
    }
    forall a | a in ledger' && a != to ensures PoolMatches(ledger', delegations', schedule, a) {
      RecordedElsewhere(delegations, from, to, amount, a);
      assert PoolMatches(ledger, delegations, schedule, a);
    }
  }

  lemma RecordedElsewhere(delegations: map<Address, map<Address, Delegation>>, from: Address, to: Address, shares: nat, a: Address)
    requires a != to
    ensures InnerOf(Recorded(delegations, from, to, shares), a) == InnerOf(delegations, a)
  {
  }

  /** Creating the empty inner map first and then adding the edge is `Recorded`. */
  lemma RecordedInSteps(delegations: map<Address, map<Address, Delegation>>, withInner: map<Address, map<Address, Delegation>>, from: Address, to: Address, shares: nat, recorded: map<Address, map<Address, Delegation>>)
    requires withInner == if to in delegations then delegations else delegations[to := map[]]
    requires to in withInner && recorded == withInner[to := withInner[to][from := Delegation(shares)]]
    ensures recorded == Recorded(delegations, from, to, shares)
  {
  }

  /** Writing the debit and then the credit, as two map updates, is `Escrowed`. */
  lemma EscrowedInSteps(ledger: map<Address, Account>, from: Address, to: Address, amount: nat, schedule: CommissionSchedule, debited: map<Address, Account>, credited: map<Address, Account>)
    requires from in ledger && to in ledger && amount <= ledger[from].general.balance
    requires debited == ledger[from := ledger[from].(general := ledger[from].general.(balance := ledger[from].general.balance - amount))]
    requires credited == debited[to := debited[to].(escrow := debited[to].escrow.(active := SharePool(debited[to].escrow.active.balance + amount, debited[to].escrow.active.totalShares + amount), commissionSchedule := schedule))]
    ensures credited == Escrowed(ledger, from, to, amount, schedule)
  {
  }

  /** An empty delegator map left behind by a failed delegation changes nothing the invariant sees. */
  lemma ResidueKeepsConsistent(ledger: map<Address, Account>, delegations: map<Address, map<Address, Delegation>>, total: nat, schedule: CommissionSchedule, to: Address)
    requires Consistent(ledger, delegations, total, schedule)
    requires to in ledger
    ensures Consistent(ledger, delegations[to := InnerOf(delegations, to)], total, schedule)
  {
    var delegations' := delegations[to := InnerOf(delegations, to)];
    forall a | a in ledger ensures PoolMatches(ledger, delegations', schedule, a) {
      assert InnerOf(delegations', a) == InnerOf(delegations, a);
      assert PoolMatches(ledger, delegations, schedule, a);
    }
  }

  /** An address with no account has no delegators. */
  lemma MissingHasNoDelegators(ledger: map<Address, Account>, delegations: map<Address, map<Address, Delegation>>, total: nat, schedule: CommissionSchedule, a: Address)
    requires Consistent(ledger, delegations, total, schedule)
    requires a !in ledger
    ensures InnerOf(delegations, a) == map[]
  {
  }

  class AccountingGenesis {
    var ledger: map<Address, Account>
    var delegations: map<Address, map<Address, Delegation>>
    var totalAllocatedTokens: nat
    const totalSupply: nat
    const commissionRateMax: nat
    const commissionRateMin: nat
    const commissionRate: nat
    const precision: nat

    /** The schedule every delegated-to account carries. */
    function Schedule(): CommissionSchedule
    {
      SingleStepSchedule(commissionRate, commissionRateMin, commissionRateMax)
    }

    ghost predicate Valid()
      reads this
    {
      Consistent(ledger, delegations, totalAllocatedTokens, Schedule())
    }

    /** `NewAccountingGenesis`: an empty ledger with the configured constants. */
    constructor (precision: nat, totalSupply: Uint64, commissionRateMax: Uint64, commissionRateMin: Uint64, commissionRate: Uint64)
      ensures Valid()
      ensures ledger == map[] && delegations == map[] && totalAllocatedTokens == 0
      ensures this.precision == precision && this.totalSupply == totalSupply
      ensures this.commissionRateMax == commissionRateMax && this.commissionRateMin == commissionRateMin
      ensures this.commissionRate == commissionRate
    {
      this.ledger := map[];
      this.delegations := map[];
      this.totalAllocatedTokens := 0;
      this.precision := precision;
      this.totalSupply := totalSupply;
      this.commissionRateMax := commissionRateMax;
      this.commissionRateMin := commissionRateMin;
      this.commissionRate := commissionRate;
      new;
      EmptyConsistent(Schedule());
    }

    /**
     * `preciseTokens`: a whole-token amount in base units. No tokens are no
     * base units, and at a precision of at least 1 an amount never shrinks.
     */
    function PreciseTokens(q: nat): (r: nat)
      ensures q == 0 ==> r == 0
      ensures precision >= 1 ==> q <= r
    {
      precision * q
    }

    /**
     * `accountExists`: whether `address` has an account in the ledger. Under
     * the invariant, an address without an account has no delegators.
     */
    predicate AccountExists(address: Address): (r: bool)
      reads this
      ensures !r && Valid() ==> InnerOf(delegations, address) == map[]
    {
      address in ledger
    }

    /** `AddAccount`: a new account holding `tokenBalance` whole tokens, all spendable. */
    method AddAccount(address: Address, tokenBalance: nat) returns (err: Option<Error>)
      requires Valid()
      modifies this
      ensures Valid()
      ensures address in old(ledger) ==> err == Some(DuplicateAccount(address))
      ensures address in old(ledger) ==> ledger == old(ledger) && totalAllocatedTokens == old(totalAllocatedTokens)
      ensures address !in old(ledger) ==> err.None?
      ensures address !in old(ledger) ==> ledger == old(ledger)[address := NewAccount(PreciseTokens(tokenBalance))]
      ensures address !in old(ledger) ==> totalAllocatedTokens == old(totalAllocatedTokens) + PreciseTokens(tokenBalance)
      ensures delegations == old(delegations)
    {
      if AccountExists(address) {
        return Some(DuplicateAccount(address));
      }
      var preciseTokenBalance := PreciseTokens(tokenBalance);
      AddAccountKeepsConsistent(ledger, delegations, totalAllocatedTokens, Schedule(), address, preciseTokenBalance);
      ledger := ledger[address := NewAccount(preciseTokenBalance)];
      totalAllocatedTokens := totalAllocatedTokens + preciseTokenBalance;
      return None;
    }

    /**
     * `AddDelegation`: `from` escrows `amount` whole tokens into `to`'s
     * active pool and receives the same number of shares.
     */
    method AddDelegation(from: Address, to: Address, amount: nat) returns (err: Option<Error>)
      requires Valid()
      modifies this
      ensures Valid()
      ensures totalAllocatedTokens == old(totalAllocatedTokens)
      ensures err.None? <==>
        && from in old(ledger) && to in old(ledger)
        && !HasDelegation(old(delegations), from, to)
        && PreciseTokens(amount) <= old(ledger)[from].general.balance
      ensures from !in old(ledger) ==> err == Some(MissingAccount(from))
      ensures from in old(ledger) && to !in old(ledger) ==> err == Some(MissingAccount(to))
      ensures from !in old(ledger) || to !in old(ledger) ==> ledger == old(ledger) && delegations == old(delegations)
      ensures from in old(ledger) && to in old(ledger) && HasDelegation(old(delegations), from, to) ==>
        err == Some(DuplicateDelegation(from, to)) && ledger == old(ledger) && delegations == old(delegations)
      ensures (from in old(ledger) && to in old(ledger) && !HasDelegation(old(delegations), from, to)
        && PreciseTokens(amount) > old(ledger)[from].general.balance) ==>
        && err == Some(InsufficientBalance)
        && ledger == old(ledger)
        && delegations == old(delegations)[to := InnerOf(old(delegations), to)]
      ensures err.Some? ==> ledger == old(ledger) && forall x :: InnerOf(delegations, x) == InnerOf(old(delegations), x)
      ensures err.None? ==>
        && ledger == Escrowed(old(ledger), from, to, PreciseTokens(amount), Schedule())
        && delegations == Recorded(old(delegations), from, to, PreciseTokens(amount))
    {
      var preciseAmount := PreciseTokens(amount);
      if !AccountExists(from) {
        return Some(MissingAccount(from));
      }
      if !AccountExists(to) {
        return Some(MissingAccount(to));
      }
      ghost var ledger0, delegations0 := ledger, delegations;
      if to !in delegations {
        delegations := delegations[to := map[]];
      }
      if from in delegations[to] {
        return Some(DuplicateDelegation(from, to));
      }
      var remaining := Sub(ledger[from].general.balance, preciseAmount);
      if remaining.None? {
        ResidueKeepsConsistent(ledger0, delegations0, totalAllocatedTokens, Schedule(), to);
        return Some(InsufficientBalance);
      }
      ghost var withInner := delegations;
      delegations := delegations[to := delegations[to][from := Delegation(preciseAmount)]];
      RecordedInSteps(delegations0, withInner, from, to, preciseAmount, delegations);
      var src := ledger[from];
      var debited := ledger[from := src.(general := src.general.(balance := remaining.value))];
      var dst := debited[to];
      var pool := SharePool(dst.escrow.active.balance + preciseAmount, dst.escrow.active.totalShares + preciseAmount);
      var credited := debited[to := dst.(escrow := dst.escrow.(active := pool, commissionSchedule := Schedule()))];
      EscrowedInSteps(ledger0, from, to, preciseAmount, Schedule(), debited, credited);
      EscrowKeepsConsistent(ledger0, delegations0, totalAllocatedTokens, Schedule(), from, to, preciseAmount);
      ledger := credited;
      return None;
    }

    /**
     * `GetPartialGenesis`: the ledger, the delegations, the total supply in
     * base units, and the common pool left over. The source discards the
     * error of the pool subtraction, so an over-total ledger reports the
     * whole supply as common pool.
     */
    method GetPartialGenesis() returns (g: Genesis<Address>)
      requires Valid()
      ensures g.ledger == ledger && g.delegations == delegations
      ensures g.totalSupply == PreciseTokens(totalSupply)
      ensures totalAllocatedTokens <= g.totalSupply ==> g.commonPool + TotalHeld(g.ledger) == g.totalSupply
      ensures totalAllocatedTokens > g.totalSupply ==> g.commonPool == g.totalSupply
      ensures g.parameters == ConsensusParameters([]) && g.tokenSymbol == "" && g.tokenValueExponent == 0
    {
      var preciseTotalSupply := PreciseTokens(totalSupply);
      var preciseCommonPool := preciseTotalSupply;
      var difference := Sub(preciseCommonPool, totalAllocatedTokens);
      if difference.Some? {
        preciseCommonPool := difference.value;
      }
      g := Genesis(ConsensusParameters([]), "", 0, preciseTotalSupply, preciseCommonPool, ledger, delegations);
    }
  }
}
