/**
 * Genesis assembly (`genesisCreator` of creator.go): the seed accounts of
 * the configuration are created first, the resolved entity names are
 * recorded, then every allocation (and, for a test genesis, every test-only
 * allocation) becomes an entity account with its self-escrow and the
 * delegations it receives from seed accounts. The accountant's snapshot is
 * the result. Go map iteration is modelled by picking an arbitrary
 * remaining key, so every property holds for every iteration order.
 */
module Creator {
  import opened Wrappers
  import opened Quantity
  import opened Staking
  import opened Errors
  import opened Text
  import opened Config
  import opened Accounting
  import opened GenesisCsv

  /** The addresses of the named seed accounts. */
  function SeedAddressesOf(accounts: map<string, GenesisAccount>, names: set<string>): set<Address>
  {
    set n | n in names && n in accounts :: accounts[n].address
  }

  lemma SeedAddressesStep(accounts: map<string, GenesisAccount>, names: set<string>, name: string)
    requires name in accounts
    ensures SeedAddressesOf(accounts, names + {name}) == SeedAddressesOf(accounts, names) + {accounts[name].address}
  {
  }

  function SeedAddresses(accounts: map<string, GenesisAccount>): set<Address>
  {
    SeedAddressesOf(accounts, accounts.Keys)
  }

  /** No two of the named seed accounts share an address. */
  predicate DistinctAddresses(accounts: map<string, GenesisAccount>, names: set<string>)
  {
    forall n1, n2 | n1 in names && n2 in names && n1 in accounts && n2 in accounts && accounts[n1].address == accounts[n2].address :: n1 == n2
  }

  /** The seed accounts that delegate a non-zero amount according to `delegations`. */
  function DelegatingAddresses(accounts: map<string, GenesisAccount>, delegations: map<string, Uint64>): set<Address>
  {
    set n | n in delegations && n in accounts && delegations[n] != 0 :: accounts[n].address
  }

  /** The shares `from` holds in `to`'s active pool, if it has delegated to it. */
  function SharesOf(delegations: map<Address, map<Address, Delegation>>, from: Address, to: Address): (r: Option<nat>)
    ensures r.Some? <==> HasDelegation(delegations, from, to)
  {
    if HasDelegation(delegations, from, to) then Some(delegations[to][from].shares) else None
  }

  /** The addresses the named entities map to. */
  function EntityAddresses(mappings: map<string, Address>, names: set<string>): set<Address>
  {
    set n | n in names && n in mappings :: mappings[n]
  }

  /** Every entry of `small` is in `big` with the same value. */
  predicate Extends<K, V(==)>(small: map<K, V>, big: map<K, V>)
  {
    forall k | k in small :: k in big && big[k] == small[k]
  }

  /**
   * The final state of one entity account `a` with `allocation` (at
   * `precision` base units per token): it keeps the minimum balance (or all
   * its funds when they do not exceed it), it escrows the rest to itself,
   * and it has received exactly the non-zero delegations of its seed
   * accounts.
   */
  ghost predicate EntityOutcome(account: Account, inner: map<Address, Delegation>, a: Address, precision: nat,
                                minimumBalance: nat, seeds: map<string, GenesisAccount>, allocation: Allocation)
  {
    var funds := allocation.funds;
    && account.general.balance == precision * (if funds > minimumBalance then minimumBalance else funds)
    && (funds > minimumBalance ==> a in inner && inner[a].shares == precision * (funds - minimumBalance))
    && (forall n | n in allocation.delegations && allocation.delegations[n] != 0 ::
          n in seeds && seeds[n].address in inner && inner[seeds[n].address].shares == precision * allocation.delegations[n])
    && (forall f | f in inner :: (f == a && funds > minimumBalance) || f in DelegatingAddresses(seeds, allocation.delegations))
  }

  /**
   * `ledger` holds exactly the accounts of the named seed accounts, each
   * with its amount (at `precision`) spendable and nothing in escrow.
   */
  ghost predicate SeedLedger(ledger: map<Address, Account>, accounts: map<string, GenesisAccount>, names: set<string>, precision: nat)
    requires names <= accounts.Keys
  {
    && (forall a :: a in ledger <==> a in SeedAddressesOf(accounts, names))
    && (forall n | n in names :: ledger[accounts[n].address] == NewAccount(precision * accounts[n].amount))
  }

  /** Creating the account of one more seed account, at an address not yet used, extends the description. */
  lemma SeedStep(ledger: map<Address, Account>, accounts: map<string, GenesisAccount>, names: set<string>, precision: nat, name: string)
    requires names <= accounts.Keys && name in accounts && name !in names
    requires DistinctAddresses(accounts, names) && SeedLedger(ledger, accounts, names, precision)
    requires accounts[name].address !in ledger
    ensures DistinctAddresses(accounts, names + {name})
    ensures SeedLedger(ledger[accounts[name].address := NewAccount(precision * accounts[name].amount)], accounts, names + {name}, precision)
  {
    SeedAddressesStep(accounts, names, name);
  }

  /** A seed account whose address is already taken shares it with an earlier one. */
  lemma SeedClash(ledger: map<Address, Account>, accounts: map<string, GenesisAccount>, names: set<string>, precision: nat, name: string)
    requires names <= accounts.Keys && name in accounts && name !in names
    requires SeedLedger(ledger, accounts, names, precision)
    requires accounts[name].address in ledger
    ensures !DistinctAddresses(accounts, accounts.Keys)
  {
    var other :| other in names && accounts[other].address == accounts[name].address;
    assert other != name;
  }

  /**
   * From (`ledger0`, `delegations0`) to (`ledger`, `delegations`) only `to`
   * has gained delegators, each new one from `sources`, no delegation was
   * removed or changed, no account was created, and no account changed but
   * `to` and those in `sources` (and `to`'s spendable balance only if it is
   * itself in `sources`).
   */
  ghost predicate DelegatedOnly(ledger0: map<Address, Account>, delegations0: map<Address, map<Address, Delegation>>,
                                ledger: map<Address, Account>, delegations: map<Address, map<Address, Delegation>>,
                                to: Address, sources: set<Address>)
  {
    && (forall a :: a in ledger <==> a in ledger0)
    && (forall x | x != to :: InnerOf(delegations, x) == InnerOf(delegations0, x))
    && (forall x | x in ledger0 && x != to && x !in sources :: ledger[x] == ledger0[x])
    && (to in ledger0 && to !in sources ==> ledger[to].general == ledger0[to].general)
    && Extends(InnerOf(delegations0, to), InnerOf(delegations, to))
    && (forall f | f in InnerOf(delegations, to) :: f in InnerOf(delegations0, to) || f in sources)
  }

  lemma DelegatedOnlyReflexive(ledger: map<Address, Account>, delegations: map<Address, map<Address, Delegation>>, to: Address, sources: set<Address>)
    ensures DelegatedOnly(ledger, delegations, ledger, delegations, to, sources)
  {
  }

  /** `DelegatedOnly` sees the delegations only through `InnerOf`. */
  lemma DelegatedSameInner(ledger0: map<Address, Account>, delegations0: map<Address, map<Address, Delegation>>,
                           ledger: map<Address, Account>, delegations: map<Address, map<Address, Delegation>>,
                           delegations': map<Address, map<Address, Delegation>>, to: Address, sources: set<Address>)
    requires DelegatedOnly(ledger0, delegations0, ledger, delegations, to, sources)
    requires forall x :: InnerOf(delegations', x) == InnerOf(delegations, x)
    ensures DelegatedOnly(ledger0, delegations0, ledger, delegations', to, sources)
  {
  }

  /** One more delegation from a source to `to` keeps `DelegatedOnly`. */
  lemma DelegatedEscrow(ledger0: map<Address, Account>, delegations0: map<Address, map<Address, Delegation>>,
                        ledger: map<Address, Account>, delegations: map<Address, map<Address, Delegation>>,
                        to: Address, sources: set<Address>, from: Address, amount: nat, schedule: CommissionSchedule)
    requires DelegatedOnly(ledger0, delegations0, ledger, delegations, to, sources)
    requires from in sources && from in ledger && to in ledger && !HasDelegation(delegations, from, to)
    requires amount <= ledger[from].general.balance
    ensures DelegatedOnly(ledger0, delegations0, Escrowed(ledger, from, to, amount, schedule), Recorded(delegations, from, to, amount), to, sources)
  {
    var ledger' := Escrowed(ledger, from, to, amount, schedule);
    var delegations' := Recorded(delegations, from, to, amount);
    forall x | x != to ensures InnerOf(delegations', x) == InnerOf(delegations0, x) {
      RecordedElsewhere(delegations, from, to, amount, x);
    }
    assert InnerOf(delegations', to) == InnerOf(delegations, to)[from := Delegation(amount)];
  }

  /**
   * Every named seed account with a non-zero amount is known and holds
   * `precision` times its amount as shares in `to`'s pool.
   */
  ghost predicate SharesRecorded(delegations: map<Address, map<Address, Delegation>>, accounts: map<string, GenesisAccount>,
                                 names: set<string>, amounts: map<string, Uint64>, to: Address, precision: nat)
  {
    && (forall n | n in names :: n in accounts)
    && (forall n | n in names && n in amounts && amounts[n] != 0 ::
          SharesOf(delegations, accounts[n].address, to) == Some(precision * amounts[n]))
  }

  /** Recording a new edge for one more name keeps the shares of the names before it. */
  lemma SharesStep(delegations: map<Address, map<Address, Delegation>>, accounts: map<string, GenesisAccount>,
                   names: set<string>, amounts: map<string, Uint64>, to: Address, precision: nat, name: string)
    requires SharesRecorded(delegations, accounts, names, amounts, to, precision)
    requires name in accounts && name in amounts && !HasDelegation(delegations, accounts[name].address, to)
    ensures SharesRecorded(Recorded(delegations, accounts[name].address, to, precision * amounts[name]), accounts, names + {name}, amounts, to, precision)
  {
    var from := accounts[name].address;
    var delegations' := Recorded(delegations, from, to, precision * amounts[name]);
    forall n | n in names && n in amounts && amounts[n] != 0
      ensures SharesOf(delegations', accounts[n].address, to) == Some(precision * amounts[n])
    {
      assert SharesOf(delegations, accounts[n].address, to).Some?;
      assert accounts[n].address != from;
    }
  }

  /** Every delegating seed account is a seed account. */
  lemma DelegatingAreSeeds(accounts: map<string, GenesisAccount>, delegations: map<string, Uint64>, a: Address)
    requires a in DelegatingAddresses(accounts, delegations)
    ensures a in SeedAddresses(accounts)
  {
  }

  /**
   * An entity account that starts with its minimum balance spendable and
   * its self-escrow as its only delegator, and then receives exactly its
   * seed accounts' delegations without being one of them, ends in
   * `EntityOutcome`.
   */
  lemma OutcomeAfterDelegations(ledger1: map<Address, Account>, delegations1: map<Address, map<Address, Delegation>>,
                                ledger2: map<Address, Account>, delegations2: map<Address, map<Address, Delegation>>,
                                a: Address, precision: nat, minimumBalance: nat, seeds: map<string, GenesisAccount>, allocation: Allocation)
    requires a in ledger1
    requires ledger1[a].general.balance == precision * (if allocation.funds > minimumBalance then minimumBalance else allocation.funds)
    requires InnerOf(delegations1, a) == if allocation.funds > minimumBalance
                                         then map[a := Delegation(precision * (allocation.funds - minimumBalance))] else map[]
    requires a !in DelegatingAddresses(seeds, allocation.delegations)
    requires DelegatedOnly(ledger1, delegations1, ledger2, delegations2, a, DelegatingAddresses(seeds, allocation.delegations))
    requires SharesRecorded(delegations2, seeds, allocation.delegations.Keys, allocation.delegations, a, precision)
    ensures a in ledger2
    ensures EntityOutcome(ledger2[a], InnerOf(delegations2, a), a, precision, minimumBalance, seeds, allocation)
  {
    var inner := InnerOf(delegations2, a);
    forall n | n in allocation.delegations && allocation.delegations[n] != 0
      ensures n in seeds && seeds[n].address in inner && inner[seeds[n].address].shares == precision * allocation.delegations[n]
    {
      assert SharesOf(delegations2, seeds[n].address, a) == Some(precision * allocation.delegations[n]);
    }
  }

  /**
   * The self-escrow threshold, for an entity no seed account delegates to:
   * with funds at or below the minimum balance everything stays spendable
   * and the active pool is empty; above it, the minimum stays spendable and
   * the rest is both the active pool and the entity's own shares.
   */
  lemma SelfEscrowThreshold(account: Account, inner: map<Address, Delegation>, a: Address, precision: nat, minimumBalance: nat,
                            seeds: map<string, GenesisAccount>, allocation: Allocation, schedule: CommissionSchedule)
    requires EntityOutcome(account, inner, a, precision, minimumBalance, seeds, allocation)
    requires EscrowMatches(account, inner, schedule)
    requires forall n | n in allocation.delegations :: allocation.delegations[n] == 0
    ensures allocation.funds <= minimumBalance ==>
      && account.general.balance == precision * allocation.funds
      && account.escrow.active.balance == 0 && account.escrow.active.totalShares == 0
      && inner == map[]
    ensures allocation.funds > minimumBalance ==>
      && account.general.balance == precision * minimumBalance
      && account.escrow.active.balance == precision * (allocation.funds - minimumBalance)
      && account.escrow.active.totalShares == precision * (allocation.funds - minimumBalance)
      && inner == map[a := Delegation(precision * (allocation.funds - minimumBalance))]
  {
    assert DelegatingAddresses(seeds, allocation.delegations) == {};
    if allocation.funds > minimumBalance {
      var self := Delegation(precision * (allocation.funds - minimumBalance));
      assert inner == map[a := self];
      var none: map<Address, Delegation> := map[];
      TotalSharesEmpty(none);
      TotalSharesUpdate(none, a, self);
    } else {
      assert inner == map[];
      TotalSharesEmpty(inner);
    }
  }

  /** A self-escrow of a new account changes neither the accounts nor the delegators of the accounts before it. */
  lemma SelfEscrowFrame(ledger0: map<Address, Account>, ledger: map<Address, Account>, delegations: map<Address, map<Address, Delegation>>,
                        a: Address, amount: nat, schedule: CommissionSchedule)
    requires a in ledger && amount <= ledger[a].general.balance
    requires a !in ledger0 && forall y | y in ledger0 :: y in ledger
    ensures forall y | y in ledger0 ::
      Escrowed(ledger, a, a, amount, schedule)[y] == ledger[y] && InnerOf(Recorded(delegations, a, a, amount), y) == InnerOf(delegations, y)
  {
    forall y | y in ledger0
      ensures InnerOf(Recorded(delegations, a, a, amount), y) == InnerOf(delegations, y)
    {
      RecordedElsewhere(delegations, a, a, amount, y);
    }
  }

  lemma MulSub(p: nat, f: nat, m: nat)
    requires m < f
    ensures p * f - p * (f - m) == p * m
  {
  }

  /** The precision of a token value exponent: ten to that power. */
  function Precision(exponent: Uint8): (p: nat)
    ensures p >= 1
  {
    Pow10(exponent)
  }

  /** What `delegations` asks of seed account `seed`: its amount, or 0 when it does not name it. */
  function AmountOf(delegations: map<string, Uint64>, seed: string): nat
  {
    if seed in delegations then delegations[seed] else 0
  }

  /** What an allocation asks of seed account `seed`. */
  function Ask(seed: string): Allocation -> nat
  {
    (a: Allocation) => AmountOf(a.delegations, seed)
  }

  function FundsOf(a: Allocation): nat
  {
    a.funds
  }

  function SeedAmount(a: GenesisAccount): nat
  {
    a.amount
  }

  /** The whole tokens the allocations of `entities` together ask of seed account `seed`. */
  ghost function Requested(entities: map<string, Allocation>, seed: string): nat
  {
    SumOf(entities, Ask(seed))
  }

  /** Counting one more entity adds what it asks, and never exceeds what all of them ask. */
  lemma RequestedStep(entities: map<string, Allocation>, done: set<string>, n: string, seed: string)
    requires n in entities && n !in done
    ensures Requested(Restrict(entities, done + {n}), seed) == Requested(Restrict(entities, done), seed) + AmountOf(entities[n].delegations, seed)
    ensures Requested(Restrict(entities, done + {n}), seed) <= Requested(entities, seed)
  {
    SumOfRestrictAdd(entities, Ask(seed), done, n);
    SumOfRestrictBound(entities, Ask(seed), done + {n});
  }

  lemma RequestedNone(entities: map<string, Allocation>, seed: string)
    ensures Requested(Restrict(entities, {}), seed) == 0
  {
    assert Restrict(entities, {}) == map[];
  }

  /** `after` is `before` with `amount` taken from its spendable balance, and nothing else changed. */
  predicate DebitedBy(before: Account, after: Account, amount: nat)
  {
    amount <= before.general.balance && after == before.(general := before.general.(balance := before.general.balance - amount))
  }

  lemma DebitedTwice(a: Account, b: Account, c: Account, x: nat, y: nat)
    requires DebitedBy(a, b, x) && DebitedBy(b, c, y)
    ensures DebitedBy(a, c, x + y)
  {
  }

  /** `tokens` whole tokens in base units, at `precision` base units per token. */
  function Precise(precision: nat, tokens: nat): nat
  {
    precision * tokens
  }

  lemma PreciseAdd(precision: nat, x: nat, y: nat)
    ensures Precise(precision, x + y) == Precise(precision, x) + Precise(precision, y)
  {
    MulAdd(precision, x, y);
  }

  /** Precision is at least 1, so comparing amounts at precision compares the whole-token amounts. */
  lemma PreciseLe(precision: nat, x: nat, y: nat)
    ensures x <= y ==> Precise(precision, x) <= Precise(precision, y)
    ensures precision >= 1 && Precise(precision, x) <= Precise(precision, y) ==> x <= y
  {
    if x <= y {
      assert Precise(precision, y) == Precise(precision, x) + precision * (y - x);
    } else {
      assert Precise(precision, x) == Precise(precision, y) + precision * (x - y);
      if precision >= 1 {
        assert precision * (x - y) >= x - y;
      }
    }
  }

  /** Every seed account has an account in `ledger`, and no two share an address. */
  ghost predicate SeedsReady(accounts: map<string, GenesisAccount>, ledger: map<Address, Account>)
  {
    DistinctAddresses(accounts, accounts.Keys) && forall s | s in accounts :: accounts[s].address in ledger
  }

  /** Every seed account `delegations` names is known and holds at least its amount (at `precision`) spendable in `ledger`. */
  ghost predicate Affordable(accounts: map<string, GenesisAccount>, delegations: map<string, Uint64>, ledger: map<Address, Account>, precision: nat)
  {
    forall n | n in delegations ::
      && n in accounts && accounts[n].address in ledger
      && Precise(precision, delegations[n]) <= ledger[accounts[n].address].general.balance
  }

  /** From `ledger0` to `ledger`, every seed account paid exactly what `delegations` asks of it (at `precision`) and changed in nothing else. */
  ghost predicate SeedsPaid(accounts: map<string, GenesisAccount>, ledger0: map<Address, Account>, ledger: map<Address, Account>,
                            precision: nat, delegations: map<string, Uint64>)
  {
    forall s | s in accounts ::
      && accounts[s].address in ledger0 && accounts[s].address in ledger
      && DebitedBy(ledger0[accounts[s].address], ledger[accounts[s].address], Precise(precision, AmountOf(delegations, s)))
  }

  /** From `ledger0` to `ledger`, every seed account paid exactly what the allocations of `entities` ask of it and changed in nothing else. */
  ghost predicate SeedsPaidFor(accounts: map<string, GenesisAccount>, ledger0: map<Address, Account>, ledger: map<Address, Account>,
                               precision: nat, entities: map<string, Allocation>)
  {
    forall s | s in accounts ::
      && accounts[s].address in ledger0 && accounts[s].address in ledger
      && DebitedBy(ledger0[accounts[s].address], ledger[accounts[s].address], Precise(precision, Requested(entities, s)))
  }

  /**
   * Nothing but a balance can refuse a delegation from a seed account to
   * `to`: every seed account has an account at an address of its own, that
   * address is not `to`, and it has not delegated to `to` yet.
   */
  ghost predicate DelegationsReady(accounts: map<string, GenesisAccount>, ledger: map<Address, Account>,
                                   delegations: map<Address, map<Address, Delegation>>, to: Address)
  {
    && SeedsReady(accounts, ledger) && to in ledger
    && forall s | s in accounts :: accounts[s].address != to && !HasDelegation(delegations, accounts[s].address, to)
  }

  /**
   * What the loop of `setupEntityDelegations` keeps after the names `done`,
   * from `ledger0`: every seed account paid what those names ask of it and
   * could afford it, and no seed account outside `done` has delegated to `to`.
   */
  ghost predicate DelegationsSoFar(accounts: map<string, GenesisAccount>, ledger0: map<Address, Account>, ledger: map<Address, Account>,
                                   delegations: map<Address, map<Address, Delegation>>, to: Address, precision: nat,
                                   amounts: map<string, Uint64>, done: set<string>)
  {
    && SeedsPaid(accounts, ledger0, ledger, precision, Restrict(amounts, done))
    && Affordable(accounts, Restrict(amounts, done), ledger0, precision)
    && to in ledger
    && forall s | s in accounts && s !in done :: !HasDelegation(delegations, accounts[s].address, to)
  }

  lemma DelegationsStart(accounts: map<string, GenesisAccount>, ledger0: map<Address, Account>, delegations0: map<Address, map<Address, Delegation>>,
                         to: Address, precision: nat, amounts: map<string, Uint64>)
    requires DelegationsReady(accounts, ledger0, delegations0, to)
    ensures DelegationsSoFar(accounts, ledger0, ledger0, delegations0, to, precision, amounts, {})
  {
    assert Restrict(amounts, {}) == map[];
  }

  /** The seed account a round reaches has not paid anything yet and can still delegate to `to`. */
  lemma DelegationsNext(accounts: map<string, GenesisAccount>, ledger0: map<Address, Account>, delegations0: map<Address, map<Address, Delegation>>,
                        ledger: map<Address, Account>, delegations: map<Address, map<Address, Delegation>>,
                        to: Address, precision: nat, amounts: map<string, Uint64>, done: set<string>, s: string)
    requires DelegationsReady(accounts, ledger0, delegations0, to)
    requires DelegationsSoFar(accounts, ledger0, ledger, delegations, to, precision, amounts, done)
    requires s in accounts && s !in done
    ensures accounts[s].address in ledger && to in ledger && !HasDelegation(delegations, accounts[s].address, to)
    ensures ledger[accounts[s].address].general.balance == ledger0[accounts[s].address].general.balance
  {
    assert AmountOf(Restrict(amounts, done), s) == 0;
  }

  /** A round that delegates a seed account's amount to `to` extends `DelegationsSoFar` by that name. */
  lemma DelegationsStep(accounts: map<string, GenesisAccount>, ledger0: map<Address, Account>, delegations0: map<Address, map<Address, Delegation>>,
                        ledger: map<Address, Account>, delegations: map<Address, map<Address, Delegation>>,
                        to: Address, precision: nat, amounts: map<string, Uint64>, done: set<string>, s: string, schedule: CommissionSchedule)
    requires DelegationsReady(accounts, ledger0, delegations0, to)
    requires DelegationsSoFar(accounts, ledger0, ledger, delegations, to, precision, amounts, done)
    requires s in accounts && s in amounts && s !in done && accounts[s].address in ledger
    requires Precise(precision, amounts[s]) <= ledger[accounts[s].address].general.balance
    ensures DelegationsSoFar(accounts, ledger0, Escrowed(ledger, accounts[s].address, to, Precise(precision, amounts[s]), schedule),
                             Recorded(delegations, accounts[s].address, to, Precise(precision, amounts[s])), to, precision, amounts, done + {s})
  {
    var a := accounts[s].address;
    var amount := Precise(precision, amounts[s]);
    var ledger' := Escrowed(ledger, a, to, amount, schedule);
    var delegations' := Recorded(delegations, a, to, amount);
    var paid := Restrict(amounts, done + {s});
    assert paid == Restrict(amounts, done)[s := amounts[s]];
    forall t | t in accounts
      ensures accounts[t].address in ledger0 && accounts[t].address in ledger'
      ensures DebitedBy(ledger0[accounts[t].address], ledger'[accounts[t].address], Precise(precision, AmountOf(paid, t)))
    {
      var b := accounts[t].address;
      assert DebitedBy(ledger0[b], ledger[b], Precise(precision, AmountOf(Restrict(amounts, done), t)));
      if t == s {
        assert AmountOf(Restrict(amounts, done), s) == 0;
      } else {
        assert b != a && b != to;
      }
    }
    forall t | t in accounts && t !in done + {s} ensures !HasDelegation(delegations', accounts[t].address, to) {
      assert accounts[t].address != a;
    }
  }

  /** A zero amount is skipped: `DelegationsSoFar` extends by that name with nothing changed. */
  lemma DelegationsSkip(accounts: map<string, GenesisAccount>, ledger0: map<Address, Account>,
                        ledger: map<Address, Account>, delegations: map<Address, map<Address, Delegation>>,
                        to: Address, precision: nat, amounts: map<string, Uint64>, done: set<string>, s: string)
    requires DelegationsSoFar(accounts, ledger0, ledger, delegations, to, precision, amounts, done)
    requires s in accounts && s in amounts && s !in done && amounts[s] == 0
    ensures DelegationsSoFar(accounts, ledger0, ledger, delegations, to, precision, amounts, done + {s})
  {
    assert Restrict(amounts, done + {s}) == Restrict(amounts, done)[s := 0];
  }

  lemma DelegationsEnd(accounts: map<string, GenesisAccount>, ledger0: map<Address, Account>,
                       ledger: map<Address, Account>, delegations: map<Address, map<Address, Delegation>>,
                       to: Address, precision: nat, amounts: map<string, Uint64>)
    requires DelegationsSoFar(accounts, ledger0, ledger, delegations, to, precision, amounts, amounts.Keys)
    ensures SeedsPaid(accounts, ledger0, ledger, precision, amounts)
    ensures Affordable(accounts, amounts, ledger0, precision)
  {
    RestrictAll(amounts, amounts.Keys);
  }

  /**
   * What the loop of `setupEntityDelegations` keeps after the names `done`:
   * their shares are recorded, and, when delegations to `to` were `ready`
   * from `ledger0`, `DelegationsSoFar`.
   */
  ghost predicate Delegating(accounts: map<string, GenesisAccount>, ledger0: map<Address, Account>, ledger: map<Address, Account>,
                             delegations: map<Address, map<Address, Delegation>>, to: Address, precision: nat,
                             amounts: map<string, Uint64>, done: set<string>, ready: bool)
  {
    && SharesRecorded(delegations, accounts, done, amounts, to, precision)
    && (ready ==> DelegationsSoFar(accounts, ledger0, ledger, delegations, to, precision, amounts, done))
  }

  /** A delegation of a known seed account that was refused leaves it unable to afford its amount, when all was ready. */
  lemma DelegationsRefused(accounts: map<string, GenesisAccount>, ledger0: map<Address, Account>, delegations0: map<Address, map<Address, Delegation>>,
                           ledger: map<Address, Account>, delegations: map<Address, map<Address, Delegation>>,
                           to: Address, precision: nat, amounts: map<string, Uint64>, done: set<string>, s: string)
    requires DelegationsReady(accounts, ledger0, delegations0, to)
    requires DelegationsSoFar(accounts, ledger0, ledger, delegations, to, precision, amounts, done)
    requires s in accounts && s in amounts && s !in done
    requires !(&& accounts[s].address in ledger && to in ledger && !HasDelegation(delegations, accounts[s].address, to)
               && Precise(precision, amounts[s]) <= ledger[accounts[s].address].general.balance)
    ensures !Affordable(accounts, amounts, ledger0, precision)
  {
    DelegationsNext(accounts, ledger0, delegations0, ledger, delegations, to, precision, amounts, done, s);
  }

  /** A round of `setupEntityDelegations` that delegated `s`'s amount to `to` extends `Delegating` by `s`. */
  lemma DelegatingStep(accounts: map<string, GenesisAccount>, ledger0: map<Address, Account>, delegations0: map<Address, map<Address, Delegation>>,
                       ledger: map<Address, Account>, delegations: map<Address, map<Address, Delegation>>,
                       to: Address, precision: nat, amounts: map<string, Uint64>, done: set<string>, ready: bool, s: string, schedule: CommissionSchedule)
    requires ready ==> DelegationsReady(accounts, ledger0, delegations0, to)
    requires Delegating(accounts, ledger0, ledger, delegations, to, precision, amounts, done, ready)
    requires s in accounts && s in amounts && s !in done
    requires accounts[s].address in ledger && to in ledger && !HasDelegation(delegations, accounts[s].address, to)
    requires Precise(precision, amounts[s]) <= ledger[accounts[s].address].general.balance
    ensures Delegating(accounts, ledger0, Escrowed(ledger, accounts[s].address, to, Precise(precision, amounts[s]), schedule),
                       Recorded(delegations, accounts[s].address, to, Precise(precision, amounts[s])), to, precision, amounts, done + {s}, ready)
  {
    SharesStep(delegations, accounts, done, amounts, to, precision, s);
    if ready {
      DelegationsStep(accounts, ledger0, delegations0, ledger, delegations, to, precision, amounts, done, s, schedule);
    }
  }

  /**
   * What one round of `setupAccountsForEntities` leaves, from (`ledger0`,
   * `delegations0`) with a fresh `address`, with success `ok`: only
   * `address` is new, no older account gained delegators, only delegating
   * seed accounts changed, on success the entity ends in `EntityOutcome`,
   * and, when the seed accounts were ready, the round succeeds exactly when
   * they can afford it and they pay exactly their amounts.
   */
  ghost predicate EntityAccountOutcome(accounts: map<string, GenesisAccount>, minimumBalance: nat,
                                       ledger0: map<Address, Account>, delegations0: map<Address, map<Address, Delegation>>,
                                       ledger: map<Address, Account>, delegations: map<Address, map<Address, Delegation>>,
                                       address: Address, precision: nat, allocation: Allocation, ok: bool)
  {
    && (forall a :: a in ledger <==> a in ledger0 || a == address)
    && (forall y | y in ledger0 :: InnerOf(delegations, y) == InnerOf(delegations0, y))
    && (forall y | y in ledger0 && y !in DelegatingAddresses(accounts, allocation.delegations) :: ledger[y] == ledger0[y])
    && (ok && address !in DelegatingAddresses(accounts, allocation.delegations) ==>
          EntityOutcome(ledger[address], InnerOf(delegations, address), address, precision, minimumBalance, accounts, allocation))
    && (SeedsReady(accounts, ledger0) ==> (ok <==> Affordable(accounts, allocation.delegations, ledger0, precision)))
    && (SeedsReady(accounts, ledger0) && ok ==> SeedsPaid(accounts, ledger0, ledger, precision, allocation.delegations))
  }

  /**
   * An entity account at the fresh `address` created as `CreateEntityAccount`
   * promises, giving (`ledger1`, `delegations1`), to which its seed accounts
   * then delegated as `SetupEntityDelegations` promises, giving (`ledger2`,
   * `delegations2`) and success `ok`, ends in `EntityAccountOutcome`.
   */
  lemma EntityAccountSetUp(accounts: map<string, GenesisAccount>, minimumBalance: nat,
                           ledger0: map<Address, Account>, delegations0: map<Address, map<Address, Delegation>>,
                           ledger1: map<Address, Account>, delegations1: map<Address, map<Address, Delegation>>,
                           ledger2: map<Address, Account>, delegations2: map<Address, map<Address, Delegation>>,
                           address: Address, precision: nat, allocation: Allocation, ok: bool)
    requires address !in ledger0
    requires forall a :: a in ledger1 <==> a in ledger0 || a == address
    requires ledger1[address].general.balance == precision * (if allocation.funds > minimumBalance then minimumBalance else allocation.funds)
    requires InnerOf(delegations1, address) == if allocation.funds > minimumBalance
               then map[address := Delegation(precision * (allocation.funds - minimumBalance))] else map[]
    requires forall y | y in ledger0 :: ledger1[y] == ledger0[y] && InnerOf(delegations1, y) == InnerOf(delegations0, y)
    requires DelegatedOnly(ledger1, delegations1, ledger2, delegations2, address, DelegatingAddresses(accounts, allocation.delegations))
    requires ok ==> SharesRecorded(delegations2, accounts, allocation.delegations.Keys, allocation.delegations, address, precision)
    requires DelegationsReady(accounts, ledger1, delegations1, address) ==>
      (ok <==> Affordable(accounts, allocation.delegations, ledger1, precision))
    requires DelegationsReady(accounts, ledger1, delegations1, address) && ok ==>
      SeedsPaid(accounts, ledger1, ledger2, precision, allocation.delegations)
    ensures EntityAccountOutcome(accounts, minimumBalance, ledger0, delegations0, ledger2, delegations2, address, precision, allocation, ok)
  {
    if ok && address !in DelegatingAddresses(accounts, allocation.delegations) {
      OutcomeAfterDelegations(ledger1, delegations1, ledger2, delegations2, address, precision, minimumBalance, accounts, allocation);
    }
    if SeedsReady(accounts, ledger0) {
      EntityAccountSeeds(accounts, ledger0, ledger1, delegations1, ledger2, address, precision, allocation.delegations);
    }
  }

  /**
   * Around a fresh entity account at `address`, created with at most a
   * self-delegation: delegations to it are ready, the seed accounts can
   * afford the same as before, and what they paid since counts from before.
   */
  lemma EntityAccountSeeds(accounts: map<string, GenesisAccount>, ledger0: map<Address, Account>, ledger1: map<Address, Account>,
                           delegations1: map<Address, map<Address, Delegation>>, ledger2: map<Address, Account>,
                           address: Address, precision: nat, amounts: map<string, Uint64>)
    requires SeedsReady(accounts, ledger0) && address !in ledger0
    requires forall x :: x in ledger1 <==> x in ledger0 || x == address
    requires forall y | y in ledger0 :: ledger1[y] == ledger0[y]
    requires InnerOf(delegations1, address).Keys <= {address}
    ensures DelegationsReady(accounts, ledger1, delegations1, address)
    ensures Affordable(accounts, amounts, ledger1, precision) <==> Affordable(accounts, amounts, ledger0, precision)
    ensures SeedsPaid(accounts, ledger1, ledger2, precision, amounts) ==> SeedsPaid(accounts, ledger0, ledger2, precision, amounts)
  {
  }

  /** No two of the named entities are mapped to the same address. */
  ghost predicate Injective(mappings: map<string, Address>, names: set<string>)
  {
    forall n, m | n in names && m in names && n in mappings && m in mappings && mappings[n] == mappings[m] :: n == m
  }

  /**
   * The entities can be given accounts: each is mapped, to an address not
   * in `taken` and not another entity's, and each delegation names a known
   * seed account.
   */
  ghost predicate EntitiesPlaced(accounts: map<string, GenesisAccount>, mappings: map<string, Address>,
                                 entities: map<string, Allocation>, taken: set<Address>)
  {
    && (forall n | n in entities :: n in mappings && mappings[n] !in taken && entities[n].delegations.Keys <= accounts.Keys)
    && Injective(mappings, entities.Keys)
  }

  /**
   * A round of `setupAccountsForEntities` over `entities` can succeed from
   * `ledger`: the entities can be placed next to the accounts there, and
   * every seed account can afford all that the round asks of it.
   */
  ghost predicate RoundFits(accounts: map<string, GenesisAccount>, mappings: map<string, Address>,
                            entities: map<string, Allocation>, ledger: map<Address, Account>, precision: nat)
  {
    && EntitiesPlaced(accounts, mappings, entities, ledger.Keys)
    && forall s | s in accounts ::
         accounts[s].address in ledger && Precise(precision, Requested(entities, s)) <= ledger[accounts[s].address].general.balance
  }

  /**
   * What a round of `setupAccountsForEntities` keeps after the successful
   * entities `done`, from `start`: they were placed, and every seed account
   * paid what they ask of it.
   */
  ghost predicate FitSoFar(accounts: map<string, GenesisAccount>, mappings: map<string, Address>, entities: map<string, Allocation>,
                           start: map<Address, Account>, ledger: map<Address, Account>, precision: nat, done: set<string>)
  {
    && DistinctAddresses(accounts, accounts.Keys)
    && (forall n | n in done :: n in entities && n in mappings && mappings[n] !in start && entities[n].delegations.Keys <= accounts.Keys)
    && Injective(mappings, done)
    && SeedsPaidFor(accounts, start, ledger, precision, Restrict(entities, done))
  }

  lemma FitStart(accounts: map<string, GenesisAccount>, mappings: map<string, Address>, entities: map<string, Allocation>,
                 start: map<Address, Account>, precision: nat)
    requires SeedsReady(accounts, start)
    ensures FitSoFar(accounts, mappings, entities, start, start, precision, {})
  {
    forall s | s in accounts ensures Requested(Restrict(entities, {}), s) == 0 {
      RequestedNone(entities, s);
    }
  }

  /**
   * When the whole round fits, the next entity's address is still free and
   * its seed accounts can afford its delegations from what they have left.
   */
  lemma FitNext(accounts: map<string, GenesisAccount>, mappings: map<string, Address>, entities: map<string, Allocation>,
                start: map<Address, Account>, ledger: map<Address, Account>, precision: nat, done: set<string>, n: string)
    requires FitSoFar(accounts, mappings, entities, start, ledger, precision, done)
    requires forall a :: a in ledger <==> a in start || a in EntityAddresses(mappings, done)
    requires n in entities && n !in done && n in mappings
    ensures SeedsReady(accounts, ledger)
    ensures RoundFits(accounts, mappings, entities, start, precision) ==>
      mappings[n] !in ledger && Affordable(accounts, entities[n].delegations, ledger, precision)
  {
    if RoundFits(accounts, mappings, entities, start, precision) {
      forall m | m in done && m in mappings ensures mappings[m] != mappings[n] {
        assert m != n;
      }
      var d := entities[n].delegations;
      forall k | k in d
        ensures k in accounts && accounts[k].address in ledger && Precise(precision, d[k]) <= ledger[accounts[k].address].general.balance
      {
        var a := accounts[k].address;
        AffordNext(start[a], ledger[a], precision, entities, done, n, k);
      }
    }
  }

  /** A seed account that can afford the whole round can afford entity `n` after the entities `done`. */
  lemma AffordNext(before: Account, current: Account, precision: nat, entities: map<string, Allocation>, done: set<string>, n: string, seed: string)
    requires n in entities && n !in done && seed in entities[n].delegations
    requires DebitedBy(before, current, Precise(precision, Requested(Restrict(entities, done), seed)))
    requires Precise(precision, Requested(entities, seed)) <= before.general.balance
    ensures Precise(precision, entities[n].delegations[seed]) <= current.general.balance
  {
    RequestedStep(entities, done, n, seed);
    var paid := Requested(Restrict(entities, done), seed);
    PreciseLe(precision, paid + entities[n].delegations[seed], Requested(entities, seed));
    PreciseAdd(precision, paid, entities[n].delegations[seed]);
  }

  /** What a seed account paid for the entities `done` and then for entity `n` is what it paid for both. */
  lemma PaidStep(before: Account, middle: Account, after: Account, precision: nat, entities: map<string, Allocation>, done: set<string>, n: string, seed: string)
    requires n in entities && n !in done
    requires DebitedBy(before, middle, Precise(precision, Requested(Restrict(entities, done), seed)))
    requires DebitedBy(middle, after, Precise(precision, AmountOf(entities[n].delegations, seed)))
    ensures DebitedBy(before, after, Precise(precision, Requested(Restrict(entities, done + {n}), seed)))
  {
    RequestedStep(entities, done, n, seed);
    PreciseAdd(precision, Requested(Restrict(entities, done), seed), AmountOf(entities[n].delegations, seed));
  }

  /** A successful round for entity `n` extends `FitSoFar` by `n`. */
  lemma FitStep(accounts: map<string, GenesisAccount>, mappings: map<string, Address>, entities: map<string, Allocation>,
                start: map<Address, Account>, ledger0: map<Address, Account>, ledger1: map<Address, Account>,
                precision: nat, done: set<string>, n: string)
    requires FitSoFar(accounts, mappings, entities, start, ledger0, precision, done)
    requires forall a :: a in ledger0 <==> a in start || a in EntityAddresses(mappings, done)
    requires n in entities && n !in done && n in mappings && mappings[n] !in ledger0
    requires entities[n].delegations.Keys <= accounts.Keys
    requires SeedsPaid(accounts, ledger0, ledger1, precision, entities[n].delegations)
    ensures FitSoFar(accounts, mappings, entities, start, ledger1, precision, done + {n})
  {
    forall m | m in done ensures mappings[m] != mappings[n] {
      assert mappings[m] in EntityAddresses(mappings, done);
    }
    forall s | s in accounts
      ensures DebitedBy(start[accounts[s].address], ledger1[accounts[s].address], Precise(precision, Requested(Restrict(entities, done + {n}), s)))
    {
      var a := accounts[s].address;
      PaidStep(start[a], ledger0[a], ledger1[a], precision, entities, done, n, s);
    }
  }

  lemma FitEnd(accounts: map<string, GenesisAccount>, mappings: map<string, Address>, entities: map<string, Allocation>,
               start: map<Address, Account>, ledger: map<Address, Account>, precision: nat)
    requires FitSoFar(accounts, mappings, entities, start, ledger, precision, entities.Keys)
    ensures RoundFits(accounts, mappings, entities, start, precision)
    ensures SeedsPaidFor(accounts, start, ledger, precision, entities)
  {
    RestrictAll(entities, entities.Keys);
  }

  /** Counting one more entry adds its amount, at `precision`, to the amount counted so far. */
  lemma PreciseSumStep<V>(m: map<string, V>, f: V -> nat, done: set<string>, n: string, precision: nat)
    requires n in m && n !in done
    ensures Precise(precision, SumOf(Restrict(m, done + {n}), f)) == Precise(precision, SumOf(Restrict(m, done), f)) + Precise(precision, f(m[n]))
  {
    SumOfRestrictAdd(m, f, done, n);
    PreciseAdd(precision, SumOf(Restrict(m, done), f), f(m[n]));
  }

  /**
   * From (`start`, `startDelegations`) to (`ledger`, `delegations`) every
   * account is still there with the same delegators, and only seed
   * accounts changed.
   */
  ghost predicate KeptSince(accounts: map<string, GenesisAccount>, start: map<Address, Account>,
                            startDelegations: map<Address, map<Address, Delegation>>,
                            ledger: map<Address, Account>, delegations: map<Address, map<Address, Delegation>>)
  {
    && (forall y | y in start :: y in ledger && InnerOf(delegations, y) == InnerOf(startDelegations, y))
    && (forall y | y in start && y !in SeedAddresses(accounts) :: ledger[y] == start[y])
  }

  /** A round of `setupAccountsForEntities`, failed or not, keeps `KeptSince`. */
  lemma KeptRound(accounts: map<string, GenesisAccount>, minimumBalance: nat, start: map<Address, Account>,
                  startDelegations: map<Address, map<Address, Delegation>>,
                  ledger0: map<Address, Account>, delegations0: map<Address, map<Address, Delegation>>,
                  ledger1: map<Address, Account>, delegations1: map<Address, map<Address, Delegation>>,
                  address: Address, precision: nat, allocation: Allocation, ok: bool)
    requires KeptSince(accounts, start, startDelegations, ledger0, delegations0)
    requires address in ledger0 ==> ledger1 == ledger0 && delegations1 == delegations0
    requires address !in ledger0 ==>
      EntityAccountOutcome(accounts, minimumBalance, ledger0, delegations0, ledger1, delegations1, address, precision, allocation, ok)
    ensures KeptSince(accounts, start, startDelegations, ledger1, delegations1)
  {
    forall y | y in DelegatingAddresses(accounts, allocation.delegations) ensures y in SeedAddresses(accounts) {
      DelegatingAreSeeds(accounts, allocation.delegations, y);
    }
  }

  /** Entity `name` is mapped and its account is in the final state `EntityOutcome` describes. */
  ghost predicate EntitySetUp(config: GenesisConfig, mappings: map<string, Address>, ledger: map<Address, Account>,
                              delegations: map<Address, map<Address, Delegation>>, precision: nat, name: string, allocation: Allocation)
  {
    && name in mappings
    && mappings[name] in ledger
    && EntityOutcome(ledger[mappings[name]], InnerOf(delegations, mappings[name]), mappings[name],
                     precision, config.minimumBalance, config.accounts, allocation)
  }

  /** What the allocations of a genesis ask of seed account `seed`: the table's, and the test-only entities' in a test genesis. */
  ghost function TotalRequested(config: GenesisConfig, isTestGenesis: bool, table: map<string, Allocation>, seed: string): nat
  {
    Requested(table, seed) + if isTestGenesis then Requested(config.testOnlyEntities, seed) else 0
  }

  /** The whole tokens the entities of a genesis are funded with. */
  ghost function EntityFunds(config: GenesisConfig, isTestGenesis: bool, table: map<string, Allocation>): nat
  {
    SumOf(table, FundsOf) + if isTestGenesis then SumOf(config.testOnlyEntities, FundsOf) else 0
  }

  /** The whole tokens a genesis creates: the seed accounts' amounts and the entities' funds. */
  ghost function AllocatedTokens(config: GenesisConfig, isTestGenesis: bool, table: map<string, Allocation>): nat
  {
    SumOf(config.accounts, SeedAmount) + EntityFunds(config, isTestGenesis, table)
  }

  /** In base units, the entities' funds are those of the table and, in a test genesis, those of the test-only entities. */
  lemma EntityFundsPrecise(config: GenesisConfig, isTestGenesis: bool, table: map<string, Allocation>, precision: nat)
    ensures Precise(precision, EntityFunds(config, isTestGenesis, table))
         == Precise(precision, SumOf(table, FundsOf)) + if isTestGenesis then Precise(precision, SumOf(config.testOnlyEntities, FundsOf)) else 0
  {
    PreciseAdd(precision, SumOf(table, FundsOf), if isTestGenesis then SumOf(config.testOnlyEntities, FundsOf) else 0);
  }

  /** In base units, the tokens a genesis creates are the seed accounts' amounts and the entities' funds. */
  lemma AllocatedPrecise(config: GenesisConfig, isTestGenesis: bool, table: map<string, Allocation>, precision: nat)
    ensures Precise(precision, AllocatedTokens(config, isTestGenesis, table))
         == Precise(precision, SumOf(config.accounts, SeedAmount)) + Precise(precision, EntityFunds(config, isTestGenesis, table))
  {
    PreciseAdd(precision, SumOf(config.accounts, SeedAmount), EntityFunds(config, isTestGenesis, table));
  }

  /**
   * The allocations of a genesis can all be set up with `mappings`: every
   * entity of the table is mapped to an address of its own that no seed
   * account has, in a test genesis every test-only entity is mapped to an
   * address of its own that neither a seed account nor an entity of the
   * table has, every delegation names a known seed account, and no seed
   * account is asked more than its amount.
   */
  ghost predicate EntitiesFit(config: GenesisConfig, isTestGenesis: bool, table: map<string, Allocation>, mappings: map<string, Address>)
  {
    && EntitiesPlaced(config.accounts, mappings, table, SeedAddresses(config.accounts))
    && (isTestGenesis ==>
          EntitiesPlaced(config.accounts, mappings, config.testOnlyEntities, SeedAddresses(config.accounts) + EntityAddresses(mappings, table.Keys)))
    && forall s | s in config.accounts :: TotalRequested(config, isTestGenesis, table, s) <= config.accounts[s].amount
  }

  /** Generating the genesis fails: two seed accounts share an address, or the allocations do not fit. */
  ghost predicate MustFail(config: GenesisConfig, isTestGenesis: bool, table: map<string, Allocation>, mappings: map<string, Address>)
  {
    !DistinctAddresses(config.accounts, config.accounts.Keys) || !EntitiesFit(config, isTestGenesis, table, mappings)
  }

  /**
   * `ledger` holds exactly the accounts `others` and those of the entities
   * (of the test-only entities too in a test genesis).
   */
  ghost predicate HoldsEntities(config: GenesisConfig, isTestGenesis: bool, table: map<string, Allocation>, mappings: map<string, Address>,
                                ledger: map<Address, Account>, others: set<Address>)
  {
    forall a :: a in ledger <==>
      || a in others
      || a in EntityAddresses(mappings, table.Keys)
      || (isTestGenesis && a in EntityAddresses(mappings, config.testOnlyEntities.Keys))
  }

  /** Every seed account is in `ledger`, created with its amount and debited by exactly what the allocations ask of it. */
  ghost predicate SeedsDebited(config: GenesisConfig, isTestGenesis: bool, table: map<string, Allocation>, ledger: map<Address, Account>, precision: nat)
  {
    forall s | s in config.accounts ::
      && config.accounts[s].address in ledger
      && DebitedBy(NewAccount(Precise(precision, config.accounts[s].amount)), ledger[config.accounts[s].address],
                   Precise(precision, TotalRequested(config, isTestGenesis, table, s)))
  }

  /** Every entity (and every test-only entity in a test genesis) is set up at an address outside `others`. */
  ghost predicate EntitiesSetUp(config: GenesisConfig, isTestGenesis: bool, table: map<string, Allocation>, mappings: map<string, Address>,
                                ledger: map<Address, Account>, delegations: map<Address, map<Address, Delegation>>, precision: nat, others: set<Address>)
  {
    && (forall n | n in table :: EntitySetUp(config, mappings, ledger, delegations, precision, n, table[n]) && mappings[n] !in others)
    && (isTestGenesis ==> forall n | n in config.testOnlyEntities ::
          EntitySetUp(config, mappings, ledger, delegations, precision, n, config.testOnlyEntities[n]) && mappings[n] !in others)
  }

  /**
   * The pools of `g` agree with its delegations and hold the `created`
   * tokens, its total supply is in base units, and its common pool is what
   * the created tokens leave of the supply (the whole supply when they
   * exceed it).
   */
  ghost predicate SupplyOutcome(config: GenesisConfig, g: Genesis<Address>, created: nat)
  {
    var precision := Precision(config.tokenValueExponent);
    && Consistent(g.ledger, g.delegations, created,
                  SingleStepSchedule(config.commissionRate, config.commissionRateMin, config.commissionRateMax))
    && g.totalSupply == Precise(precision, config.totalSupply)
    && (created <= g.totalSupply ==> g.commonPool + created == g.totalSupply)
    && (created > g.totalSupply ==> g.commonPool == g.totalSupply)
  }

  /**
   * What a generated accounting genesis `g` holds: exactly the seed accounts
   * and the entity accounts (of the test-only entities too in a test
   * genesis); every seed account created with its amount and debited by
   * exactly what the allocations ask of it; every entity set up as
   * `EntityOutcome` describes at an address no seed account has; no
   * delegation to a seed account; and the supply `SupplyOutcome` describes
   * for all the tokens created.
   */
  ghost predicate AccountingOutcome(config: GenesisConfig, isTestGenesis: bool, table: map<string, Allocation>,
                                    mappings: map<string, Address>, g: Genesis<Address>)
  {
    var precision := Precision(config.tokenValueExponent);
    var seeds := SeedAddresses(config.accounts);
    && HoldsEntities(config, isTestGenesis, table, mappings, g.ledger, seeds)
    && SeedsDebited(config, isTestGenesis, table, g.ledger, precision)
    && EntitiesSetUp(config, isTestGenesis, table, mappings, g.ledger, g.delegations, precision, seeds)
    && (forall a | a in seeds :: InnerOf(g.delegations, a) == map[])
    && SupplyOutcome(config, g, Precise(precision, AllocatedTokens(config, isTestGenesis, table)))
  }

  /** The seed accounts of a seed ledger are ready to delegate. */
  lemma SeedLedgerReady(accounts: map<string, GenesisAccount>, ledger: map<Address, Account>, precision: nat)
    requires DistinctAddresses(accounts, accounts.Keys) && SeedLedger(ledger, accounts, accounts.Keys, precision)
    ensures SeedsReady(accounts, ledger) && ledger.Keys == SeedAddresses(accounts)
  {
  }

  /** A seed account holding `amount` can afford `asked` exactly when `asked` is at most `amount`. */
  lemma SeedAffords(account: Account, precision: nat, amount: nat, asked: nat)
    requires precision >= 1 && account.general.balance == Precise(precision, amount)
    ensures Precise(precision, asked) <= account.general.balance <==> asked <= amount
  {
    PreciseLe(precision, asked, amount);
  }

  /** A seed account holding `amount` and debited by `first` can afford `second` exactly when both together are at most `amount`. */
  lemma SeedAffordsAfter(before: Account, after: Account, precision: nat, amount: nat, first: nat, second: nat)
    requires precision >= 1 && before.general.balance == Precise(precision, amount)
    requires DebitedBy(before, after, Precise(precision, first))
    ensures Precise(precision, second) <= after.general.balance <==> first + second <= amount
  {
    PreciseAdd(precision, first, second);
    PreciseLe(precision, first + second, amount);
  }

  /**
   * The round of the allocation table fits the seed ledger exactly when its
   * entities can be placed next to the seed accounts and no seed account is
   * asked more than its amount; in particular whenever all allocations fit.
   */
  lemma FirstRoundFits(config: GenesisConfig, isTestGenesis: bool, table: map<string, Allocation>, mappings: map<string, Address>,
                       ledger0: map<Address, Account>, precision: nat)
    requires precision >= 1
    requires DistinctAddresses(config.accounts, config.accounts.Keys) && SeedLedger(ledger0, config.accounts, config.accounts.Keys, precision)
    ensures RoundFits(config.accounts, mappings, table, ledger0, precision) <==>
      && EntitiesPlaced(config.accounts, mappings, table, SeedAddresses(config.accounts))
      && forall s | s in config.accounts :: Requested(table, s) <= config.accounts[s].amount
    ensures EntitiesFit(config, isTestGenesis, table, mappings) ==> RoundFits(config.accounts, mappings, table, ledger0, precision)
  {
    var accounts := config.accounts;
    SeedLedgerReady(accounts, ledger0, precision);
    forall s | s in accounts
      ensures Precise(precision, Requested(table, s)) <= ledger0[accounts[s].address].general.balance <==> Requested(table, s) <= accounts[s].amount
    {
      SeedAffords(ledger0[accounts[s].address], precision, accounts[s].amount, Requested(table, s));
    }
  }

  /**
   * After the round of the allocation table, the round of the test-only
   * entities fits exactly when all allocations fit; without a test round,
   * all allocations fit as soon as the first round did.
   */
  lemma SecondRoundFits(config: GenesisConfig, isTestGenesis: bool, table: map<string, Allocation>, mappings: map<string, Address>,
                        ledger0: map<Address, Account>, ledger1: map<Address, Account>, precision: nat)
    requires precision >= 1
    requires DistinctAddresses(config.accounts, config.accounts.Keys) && SeedLedger(ledger0, config.accounts, config.accounts.Keys, precision)
    requires RoundFits(config.accounts, mappings, table, ledger0, precision)
    requires forall a :: a in ledger1 <==> a in ledger0 || a in EntityAddresses(mappings, table.Keys)
    requires SeedsPaidFor(config.accounts, ledger0, ledger1, precision, table)
    ensures SeedsReady(config.accounts, ledger1)
    ensures isTestGenesis ==>
      (EntitiesFit(config, isTestGenesis, table, mappings) <==> RoundFits(config.accounts, mappings, config.testOnlyEntities, ledger1, precision))
    ensures !isTestGenesis ==> EntitiesFit(config, isTestGenesis, table, mappings)
  {
    var accounts := config.accounts;
    SeedLedgerReady(accounts, ledger0, precision);
    assert ledger1.Keys == SeedAddresses(accounts) + EntityAddresses(mappings, table.Keys);
    FirstRoundFits(config, isTestGenesis, table, mappings, ledger0, precision);
    forall s | s in accounts
      ensures Precise(precision, Requested(config.testOnlyEntities, s)) <= ledger1[accounts[s].address].general.balance
              <==> Requested(table, s) + Requested(config.testOnlyEntities, s) <= accounts[s].amount
    {
      var a := accounts[s].address;
      SeedAffordsAfter(ledger0[a], ledger1[a], precision, accounts[s].amount, Requested(table, s), Requested(config.testOnlyEntities, s));
    }
  }

  /** After both rounds every seed account has paid what all allocations ask of it. */
  lemma SeedsFinal(config: GenesisConfig, isTestGenesis: bool, table: map<string, Allocation>,
                   ledger0: map<Address, Account>, ledger1: map<Address, Account>, ledger2: map<Address, Account>, precision: nat)
    requires SeedLedger(ledger0, config.accounts, config.accounts.Keys, precision)
    requires SeedsPaidFor(config.accounts, ledger0, ledger1, precision, table)
    requires isTestGenesis ==> SeedsPaidFor(config.accounts, ledger1, ledger2, precision, config.testOnlyEntities)
    requires !isTestGenesis ==> ledger2 == ledger1
    ensures SeedsDebited(config, isTestGenesis, table, ledger2, precision)
  {
    var accounts := config.accounts;
    forall s | s in accounts
      ensures accounts[s].address in ledger2
      ensures DebitedBy(NewAccount(Precise(precision, accounts[s].amount)), ledger2[accounts[s].address],
                        Precise(precision, TotalRequested(config, isTestGenesis, table, s)))
    {
      var a := accounts[s].address;
      var test := if isTestGenesis then Requested(config.testOnlyEntities, s) else 0;
      PreciseAdd(precision, Requested(table, s), test);
      if isTestGenesis {
        DebitedTwice(ledger0[a], ledger1[a], ledger2[a], Precise(precision, Requested(table, s)), Precise(precision, test));
      }
    }
  }

  /**
   * What the loop of `setupAccountsForEntities` keeps about the entities
   * `done` so far, between the state it started from (`start`,
   * `startDelegations`) and the current one: the accounts before it are
   * still there with the same delegators, only seed accounts among them
   * changed, every name done is mapped with known seed accounts, the new
   * accounts are exactly those of the names done, and, when the seed
   * accounts existed from the start, each of those names ended in
   * `EntityOutcome` at an address that is new.
   */
  ghost predicate EntitiesSoFar(config: GenesisConfig, mappings: map<string, Address>, start: map<Address, Account>, startDelegations: map<Address, map<Address, Delegation>>,
                                ledger: map<Address, Account>, delegations: map<Address, map<Address, Delegation>>,
                                precision: nat, entities: map<string, Allocation>, done: set<string>)
  {
    && KeptSince(config.accounts, start, startDelegations, ledger, delegations)
    && (forall n | n in done :: n in entities && n in mappings && forall s | s in entities[n].delegations :: s in config.accounts)
    && (forall a :: a in ledger <==> a in start || a in EntityAddresses(mappings, done))
    && (SeedAddresses(config.accounts) <= start.Keys ==>
          forall n | n in done :: mappings[n] !in start && EntitySetUp(config, mappings, ledger, delegations, precision, n, entities[n]))
  }

  /** One successful round (`SetupEntityAccount` on the account of `name`) extends `EntitiesSoFar` by `name`. */
  lemma EntityRound(config: GenesisConfig, mappings: map<string, Address>, start: map<Address, Account>, startDelegations: map<Address, map<Address, Delegation>>,
                    ledger0: map<Address, Account>, delegations0: map<Address, map<Address, Delegation>>,
                    ledger1: map<Address, Account>, delegations1: map<Address, map<Address, Delegation>>,
                    precision: nat, entities: map<string, Allocation>, done: set<string>, name: string)
    requires EntitiesSoFar(config, mappings, start, startDelegations, ledger0, delegations0, precision, entities, done)
    requires name in entities && name in mappings
    requires forall s | s in entities[name].delegations :: s in config.accounts
    requires mappings[name] !in ledger0
    requires forall x :: x in ledger1 <==> x in ledger0 || x == mappings[name]
    requires forall y | y in ledger0 :: InnerOf(delegations1, y) == InnerOf(delegations0, y)
    requires forall y | y in ledger0 && y !in DelegatingAddresses(config.accounts, entities[name].delegations) :: ledger1[y] == ledger0[y]
    requires mappings[name] !in DelegatingAddresses(config.accounts, entities[name].delegations) ==>
      EntityOutcome(ledger1[mappings[name]], InnerOf(delegations1, mappings[name]), mappings[name],
                    precision, config.minimumBalance, config.accounts, entities[name])
    ensures EntitiesSoFar(config, mappings, start, startDelegations, ledger1, delegations1, precision, entities, done + {name})
  {
    var a := mappings[name];
    var sources := DelegatingAddresses(config.accounts, entities[name].delegations);
    forall y | y in sources ensures y in SeedAddresses(config.accounts) {
      DelegatingAreSeeds(config.accounts, entities[name].delegations, y);
    }
    forall x ensures x in ledger1 <==> x in start || x in EntityAddresses(mappings, done + {name}) {
      assert x in EntityAddresses(mappings, done + {name}) <==> x in EntityAddresses(mappings, done) || x == a;
    }
    if SeedAddresses(config.accounts) <= start.Keys {
      assert a !in start;
      forall n | n in done + {name}
        ensures mappings[n] !in start && EntitySetUp(config, mappings, ledger1, delegations1, precision, n, entities[n])
      {
        if n != name {
          var b := mappings[n];
          assert b in EntityAddresses(mappings, done);
          assert EntitySetUp(config, mappings, ledger0, delegations0, precision, n, entities[n]);
          assert ledger1[b] == ledger0[b];
        }
      }
    }
  }

  /**
   * What the loop of `setupAccountsForEntities` keeps after the entities
   * `done`, from (`start`, `startDelegations`) with `total0` tokens held:
   * `EntitiesSoFar`, the funds of those entities added to the total, and,
   * when the seed accounts were ready at the start, `FitSoFar`.
   */
  ghost predicate RoundSoFar(config: GenesisConfig, mappings: map<string, Address>, start: map<Address, Account>, startDelegations: map<Address, map<Address, Delegation>>, total0: nat,
                             ledger: map<Address, Account>, delegations: map<Address, map<Address, Delegation>>, total: nat,
                             precision: nat, entities: map<string, Allocation>, done: set<string>, ready: bool)
  {
    && EntitiesSoFar(config, mappings, start, startDelegations, ledger, delegations, precision, entities, done)
    && total == total0 + Precise(precision, SumOf(Restrict(entities, done), FundsOf))
    && (ready ==> FitSoFar(config.accounts, mappings, entities, start, ledger, precision, done))
  }

  /** Before the loop of `setupAccountsForEntities`, `RoundSoFar` holds with no entity done. */
  lemma RoundStart(config: GenesisConfig, mappings: map<string, Address>, start: map<Address, Account>,
                   startDelegations: map<Address, map<Address, Delegation>>, total0: nat,
                   precision: nat, entities: map<string, Allocation>, ready: bool)
    requires ready == SeedsReady(config.accounts, start)
    ensures RoundSoFar(config, mappings, start, startDelegations, total0, start, startDelegations, total0, precision, entities, {}, ready)
  {
    assert Restrict(entities, {}) == map[];
    if ready {
      FitStart(config.accounts, mappings, entities, start, precision);
    }
  }

  /**
   * What a round of `setupAccountsForEntities` over `entities` leaves, from
   * (`start`, `startDelegations`) with `total0` tokens held, succeeding
   * when `ok`: the accounts before it kept as `KeptSince` says; failure
   * when a name is not mapped or a delegation names an unknown seed
   * account; on success, exactly the entity accounts added, each entity
   * set up at a new address when the seed accounts were there, and the
   * entities' funds added to the total; and, when the seed accounts were
   * ready, success exactly when the round fits, with every seed account
   * then having paid what the round asks of it.
   */
  ghost predicate EntitiesResult(config: GenesisConfig, mappings: map<string, Address>, start: map<Address, Account>,
                                 startDelegations: map<Address, map<Address, Delegation>>, total0: nat,
                                 ledger: map<Address, Account>, delegations: map<Address, map<Address, Delegation>>, total: nat,
                                 precision: nat, entities: map<string, Allocation>, ok: bool)
  {
    && KeptSince(config.accounts, start, startDelegations, ledger, delegations)
    && ((exists n | n in entities :: n !in mappings) ==> !ok)
    && ((exists n | n in entities :: exists s | s in entities[n].delegations :: s !in config.accounts) ==> !ok)
    && (ok ==> forall a :: a in ledger <==> a in start || a in EntityAddresses(mappings, entities.Keys))
    && (ok && SeedAddresses(config.accounts) <= start.Keys ==>
          forall n | n in entities :: mappings[n] !in start && EntitySetUp(config, mappings, ledger, delegations, precision, n, entities[n]))
    && (ok ==> total == total0 + Precise(precision, SumOf(entities, FundsOf)))
    && (SeedsReady(config.accounts, start) ==> (ok <==> RoundFits(config.accounts, mappings, entities, start, precision)))
    && (SeedsReady(config.accounts, start) && ok ==> SeedsPaidFor(config.accounts, start, ledger, precision, entities))
  }

  /** A round whose loop went through every entity ends in the successful `EntitiesResult`. */
  lemma RoundDone(config: GenesisConfig, mappings: map<string, Address>, start: map<Address, Account>,
                  startDelegations: map<Address, map<Address, Delegation>>, total0: nat,
                  ledger: map<Address, Account>, delegations: map<Address, map<Address, Delegation>>, total: nat,
                  precision: nat, entities: map<string, Allocation>, ready: bool)
    requires ready == SeedsReady(config.accounts, start)
    requires RoundSoFar(config, mappings, start, startDelegations, total0, ledger, delegations, total, precision, entities, entities.Keys, ready)
    ensures EntitiesResult(config, mappings, start, startDelegations, total0, ledger, delegations, total, precision, entities, true)
  {
    RestrictAll(entities, entities.Keys);
    if ready {
      FitEnd(config.accounts, mappings, entities, start, ledger, precision);
    }
  }

  /** A round stopped early, keeping the accounts before it, ends in the failed `EntitiesResult`, provided it could not fit. */
  lemma RoundStopped(config: GenesisConfig, mappings: map<string, Address>, start: map<Address, Account>,
                     startDelegations: map<Address, map<Address, Delegation>>, total0: nat,
                     ledger: map<Address, Account>, delegations: map<Address, map<Address, Delegation>>, total: nat,
                     precision: nat, entities: map<string, Allocation>)
    requires KeptSince(config.accounts, start, startDelegations, ledger, delegations)
    requires SeedsReady(config.accounts, start) ==> !RoundFits(config.accounts, mappings, entities, start, precision)
    ensures EntitiesResult(config, mappings, start, startDelegations, total0, ledger, delegations, total, precision, entities, false)
  {
  }

  /** The accountant's snapshot after both entity rounds is the genesis `AccountingOutcome` describes. */
  lemma AssemblyOutcome(config: GenesisConfig, isTestGenesis: bool, table: map<string, Allocation>, mappings: map<string, Address>, ledger0: map<Address, Account>, g: Genesis<Address>, total: nat, precision: nat)
    requires precision == Precision(config.tokenValueExponent)
    requires SeedLedger(ledger0, config.accounts, config.accounts.Keys, precision)
    requires AllocationsOutcome(config, isTestGenesis, table, mappings, ledger0, map[], g.ledger, g.delegations, precision)
    requires SeedsDebited(config, isTestGenesis, table, g.ledger, precision)
    requires Consistent(g.ledger, g.delegations, total, SingleStepSchedule(config.commissionRate, config.commissionRateMin, config.commissionRateMax))
    requires total == Precise(precision, AllocatedTokens(config, isTestGenesis, table))
    requires g.totalSupply == precision * config.totalSupply
    requires total <= g.totalSupply ==> g.commonPool + TotalHeld(g.ledger) == g.totalSupply
    requires total > g.totalSupply ==> g.commonPool == g.totalSupply
    ensures AccountingOutcome(config, isTestGenesis, table, mappings, g)
  {
    assert ledger0.Keys == SeedAddresses(config.accounts);
  }

  /**
   * What the entity rounds of `generateAccountingGenesis` leave, from
   * `ledger0` and `delegations0`: the entity accounts added, each entity
   * set up at an address that was not in use, and the delegations to the
   * accounts that were there untouched.
   */
  ghost predicate AllocationsOutcome(config: GenesisConfig, isTestGenesis: bool, table: map<string, Allocation>, mappings: map<string, Address>, ledger0: map<Address, Account>, delegations0: map<Address, map<Address, Delegation>>,
                                     ledger: map<Address, Account>, delegations: map<Address, map<Address, Delegation>>, precision: nat)
  {
    && HoldsEntities(config, isTestGenesis, table, mappings, ledger, ledger0.Keys)
    && EntitiesSetUp(config, isTestGenesis, table, mappings, ledger, delegations, precision, ledger0.Keys)
    && (forall y | y in ledger0 :: InnerOf(delegations, y) == InnerOf(delegations0, y))
  }

  /** The test-only round keeps the entities of the allocation table set up. */
  lemma TestRoundKeeps(config: GenesisConfig, table: map<string, Allocation>, mappings: map<string, Address>, ledger0: map<Address, Account>, ledger1: map<Address, Account>, delegations1: map<Address, map<Address, Delegation>>,
                       ledger2: map<Address, Account>, delegations2: map<Address, map<Address, Delegation>>, precision: nat)
    requires forall n | n in table :: EntitySetUp(config, mappings, ledger1, delegations1, precision, n, table[n]) && mappings[n] !in ledger0
    requires SeedAddresses(config.accounts) <= ledger0.Keys
    requires forall y | y in ledger1 :: y in ledger2 && InnerOf(delegations2, y) == InnerOf(delegations1, y)
    requires forall y | y in ledger1 && y !in SeedAddresses(config.accounts) :: ledger2[y] == ledger1[y]
    ensures forall n | n in table :: EntitySetUp(config, mappings, ledger2, delegations2, precision, n, table[n])
  {
    forall n | n in table ensures EntitySetUp(config, mappings, ledger2, delegations2, precision, n, table[n]) {
      var a := mappings[n];
      assert a in ledger1 && a !in SeedAddresses(config.accounts);
      assert ledger2[a] == ledger1[a];
    }
  }

  class GenesisCreator {
    const config: GenesisConfig
    const isTestGenesis: bool
    /** The entity resolver's names and the addresses of their entities. */
    const resolved: map<string, Address>
    /** The allocation table's entries (`EntityAllocationTable.All`). */
    const allocationTable: map<string, Allocation>
    var entityMappings: map<string, Address>

    constructor (config: GenesisConfig, isTestGenesis: bool, resolved: map<string, Address>, allocationTable: map<string, Allocation>)
      ensures this.config == config && this.isTestGenesis == isTestGenesis
      ensures this.resolved == resolved && this.allocationTable == allocationTable
      ensures entityMappings == map[]
    {
      this.config := config;
      this.isTestGenesis := isTestGenesis;
      this.resolved := resolved;
      this.allocationTable := allocationTable;
      entityMappings := map[];
    }


    /**
     * `initializeAccountingGenesis`: an accountant with the configured
     * constants and one account per seed account, in map order. It fails
     * exactly when two seed accounts share an address.
     */
    method InitializeAccountingGenesis() returns (genesis: AccountingGenesis, err: Option<Error>)
      ensures fresh(genesis) && genesis.Valid()
      ensures genesis.precision == Precision(config.tokenValueExponent) && genesis.totalSupply == config.totalSupply
      ensures genesis.commissionRateMax == config.commissionRateMax && genesis.commissionRateMin == config.commissionRateMin
      ensures genesis.commissionRate == config.commissionRate
      ensures err.None? <==> DistinctAddresses(config.accounts, config.accounts.Keys)
      ensures err.Some? ==> err.value.DuplicateAccount?
      ensures err.None? ==> genesis.delegations == map[] && SeedLedger(genesis.ledger, config.accounts, config.accounts.Keys, genesis.precision)
      ensures err.None? ==> genesis.totalAllocatedTokens == Precise(genesis.precision, SumOf(config.accounts, SeedAmount))
    {
      genesis := new AccountingGenesis(Precision(config.tokenValueExponent), config.totalSupply,
        config.commissionRateMax, config.commissionRateMin, config.commissionRate);
      err := CreateSeedAccounts(genesis, config.accounts);
    }

    /** The loop of `initializeAccountingGenesis`: one account per seed account, stopping at the first duplicate address. */
    static method CreateSeedAccounts(genesis: AccountingGenesis, accounts: map<string, GenesisAccount>) returns (err: Option<Error>)
      requires genesis.Valid() && genesis.ledger == map[] && genesis.delegations == map[]
      modifies genesis
      ensures genesis.Valid()
      ensures err.None? <==> DistinctAddresses(accounts, accounts.Keys)
      ensures err.Some? ==> err.value.DuplicateAccount?
      ensures err.None? ==> genesis.delegations == map[] && SeedLedger(genesis.ledger, accounts, accounts.Keys, genesis.precision)
      ensures err.None? ==> genesis.totalAllocatedTokens == Precise(genesis.precision, SumOf(accounts, SeedAmount))
    {
      assert Restrict(accounts, {}) == map[];
      var remaining := accounts.Keys;
      ghost var done: set<string> := {};
      while remaining != {}
        invariant remaining + done == accounts.Keys && remaining !! done
        invariant genesis.Valid() && genesis.delegations == map[]
        invariant DistinctAddresses(accounts, done) && SeedLedger(genesis.ledger, accounts, done, genesis.precision)
        invariant genesis.totalAllocatedTokens == Precise(genesis.precision, SumOf(Restrict(accounts, done), SeedAmount))
        decreases remaining
      {
        var name :| name in remaining;
        var account := accounts[name];
        ghost var before := genesis.ledger;
        err := genesis.AddAccount(account.address, account.amount);
        if err.Some? {
          SeedClash(before, accounts, done, genesis.precision, name);
          return;
        }
        SeedStep(before, accounts, done, genesis.precision, name);
        PreciseSumStep(accounts, SeedAmount, done, name, genesis.precision);
        remaining := remaining - {name};
        done := done + {name};
      }
      RestrictAll(accounts, done);
      err := None;
    }

    /** `addEntityMapping`: a name already mapped is rejected and keeps its address. */
    method AddEntityMapping(name: string, address: Address) returns (err: Option<Error>)
      modifies this`entityMappings
      ensures name in old(entityMappings) ==> err == Some(DuplicateEntityMapping(name)) && entityMappings == old(entityMappings)
      ensures name !in old(entityMappings) ==> err.None? && entityMappings == old(entityMappings)[name := address]
    {
      if name in entityMappings {
        return Some(DuplicateEntityMapping(name));
      }
      entityMappings := entityMappings[name := address];
      return None;
    }

    /**
     * The mapping loop of `generateAccountingGenesis`: every resolved name is
     * added, in map order, and the error of `addEntityMapping` is ignored, so
     * a name mapped before keeps its earlier address.
     */
    method MapEntities()
      modifies this`entityMappings
      ensures entityMappings == resolved + old(entityMappings)
    {
      var remaining := resolved.Keys;
      ghost var done: set<string> := {};
      while remaining != {}
        invariant remaining + done == resolved.Keys && remaining !! done
        invariant entityMappings == Restrict(resolved, done) + old(entityMappings)
        decreases remaining
      {
        var name :| name in remaining;
        var _ := AddEntityMapping(name, resolved[name]);
        remaining := remaining - {name};
        done := done + {name};
      }
      assert Restrict(resolved, done) == resolved;
    }

    /**
     * `setupEntityDelegations`: each named seed account, in map order,
     * delegates its amount to `delegateAddress`. An unknown name is an error
     * (checked before the amount), a zero amount is skipped, and the first
     * failing delegation ends the loop. Only `delegateAddress` gains
     * delegators, and only it and the delegating seed accounts change.
     */
    method SetupEntityDelegations(genesis: AccountingGenesis, delegateAddress: Address, delegations: map<string, Uint64>) returns (err: Option<Error>)
      requires genesis.Valid()
      modifies genesis
      ensures genesis.Valid()
      ensures genesis.totalAllocatedTokens == old(genesis.totalAllocatedTokens)
      ensures DelegatedOnly(old(genesis.ledger), old(genesis.delegations), genesis.ledger, genesis.delegations,
                            delegateAddress, DelegatingAddresses(config.accounts, delegations))
      ensures (exists n | n in delegations :: n !in config.accounts) ==> err.Some?
      ensures err.None? ==> SharesRecorded(genesis.delegations, config.accounts, delegations.Keys, delegations, delegateAddress, genesis.precision)
      ensures DelegationsReady(config.accounts, old(genesis.ledger), old(genesis.delegations), delegateAddress) ==>
        (err.None? <==> Affordable(config.accounts, delegations, old(genesis.ledger), genesis.precision))
      ensures DelegationsReady(config.accounts, old(genesis.ledger), old(genesis.delegations), delegateAddress) && err.None? ==>
        SeedsPaid(config.accounts, old(genesis.ledger), genesis.ledger, genesis.precision, delegations)
    {
      ghost var sources := DelegatingAddresses(config.accounts, delegations);
      ghost var ready := DelegationsReady(config.accounts, genesis.ledger, genesis.delegations, delegateAddress);
      DelegatedOnlyReflexive(genesis.ledger, genesis.delegations, delegateAddress, sources);
      if ready {
        DelegationsStart(config.accounts, genesis.ledger, genesis.delegations, delegateAddress, genesis.precision, delegations);
      }
      var remaining := delegations.Keys;
      ghost var done: set<string> := {};
      while remaining != {}
        invariant remaining + done == delegations.Keys && remaining !! done
        invariant genesis.Valid()
        invariant genesis.totalAllocatedTokens == old(genesis.totalAllocatedTokens)
        invariant DelegatedOnly(old(genesis.ledger), old(genesis.delegations), genesis.ledger, genesis.delegations, delegateAddress, sources)
        invariant Delegating(config.accounts, old(genesis.ledger), genesis.ledger, genesis.delegations, delegateAddress,
                             genesis.precision, delegations, done, ready)
        decreases remaining
      {
        var accountName :| accountName in remaining;
        var amount := delegations[accountName];
        if accountName !in config.accounts {
          return Some(UnknownSeedAccount(accountName));
        }
        var account := config.accounts[accountName];
        if amount != 0 {
          err := DelegateFromSeed(genesis, account.address, delegateAddress, amount, old(genesis.ledger), old(genesis.delegations),
                                  sources, config.accounts, delegations, accountName, done, ready);
          if err.Some? {
            return;
          }
        } else if ready {
          DelegationsSkip(config.accounts, old(genesis.ledger), genesis.ledger, genesis.delegations, delegateAddress,
                          genesis.precision, delegations, done, accountName);
        }
        remaining := remaining - {accountName};
        done := done + {accountName};
      }
      if ready {
        DelegationsEnd(config.accounts, old(genesis.ledger), genesis.ledger, genesis.delegations, delegateAddress, genesis.precision, delegations);
      }
      err := None;
    }

    /**
     * `setupAccountsForEntities`: every allocation, in map order, becomes an
     * entity account at its mapped address (see `SetupEntityAccount`). The
     * first unmapped name or failing round ends the loop. Accounts that
     * existed before change only if they are seed accounts, and none of them
     * gains delegators; when the seed accounts already exist, every entity
     * ends in `EntityOutcome` at an address that is new.
     */
    method SetupAccountsForEntities(genesis: AccountingGenesis, entities: map<string, Allocation>) returns (err: Option<Error>)
      requires genesis.Valid()
      modifies genesis
      ensures genesis.Valid()
      ensures EntitiesResult(config, entityMappings, old(genesis.ledger), old(genesis.delegations), old(genesis.totalAllocatedTokens),
                             genesis.ledger, genesis.delegations, genesis.totalAllocatedTokens, genesis.precision, entities, err.None?)
    {
      ghost var start, startDelegations, total0 := genesis.ledger, genesis.delegations, genesis.totalAllocatedTokens;
      ghost var ready := SeedsReady(config.accounts, start);
      var mappings := entityMappings;
      RoundStart(config, mappings, start, startDelegations, total0, genesis.precision, entities, ready);
      var remaining := entities.Keys;
      ghost var done: set<string> := {};
      while remaining != {}
        invariant remaining + done == entities.Keys && remaining !! done
        invariant genesis.Valid()
        invariant RoundSoFar(config, mappings, start, startDelegations, total0,
                             genesis.ledger, genesis.delegations, genesis.totalAllocatedTokens, genesis.precision, entities, done, ready)
        decreases remaining
      {
        var name :| name in remaining;
        if name !in mappings {
          err := Some(UnmappedEntity(name));
          RoundStopped(config, mappings, start, startDelegations, total0,
                       genesis.ledger, genesis.delegations, genesis.totalAllocatedTokens, genesis.precision, entities);
          return;
        }
        err := SetupEntityRound(genesis, mappings, entities, name, start, startDelegations, total0, done, ready);
        if err.Some? {
          RoundStopped(config, mappings, start, startDelegations, total0,
                       genesis.ledger, genesis.delegations, genesis.totalAllocatedTokens, genesis.precision, entities);
          return;
        }
        remaining := remaining - {name};
        done := done + {name};
      }
      err := None;
      RoundDone(config, mappings, start, startDelegations, total0,
                genesis.ledger, genesis.delegations, genesis.totalAllocatedTokens, genesis.precision, entities, ready);
    }

    /**
     * The body of the loop of `setupAccountsForEntities` for the mapped
     * entity `name`: `SetupEntityAccount` at its address. Earlier accounts
     * are kept as `KeptSince` says, success extends `RoundSoFar` by `name`,
     * and, when the seed accounts were ready at the start, a failure means
     * the round could not fit.
     */
    method SetupEntityRound(genesis: AccountingGenesis, mappings: map<string, Address>, entities: map<string, Allocation>, name: string,
                            ghost start: map<Address, Account>, ghost startDelegations: map<Address, map<Address, Delegation>>,
                            ghost total0: nat, ghost done: set<string>, ghost ready: bool) returns (err: Option<Error>)
      requires genesis.Valid()
      requires name in entities && name !in done && name in mappings
      requires ready ==> SeedsReady(config.accounts, start)
      requires RoundSoFar(config, mappings, start, startDelegations, total0, genesis.ledger, genesis.delegations, genesis.totalAllocatedTokens,
                          genesis.precision, entities, done, ready)
      modifies genesis
      ensures genesis.Valid()
      ensures KeptSince(config.accounts, start, startDelegations, genesis.ledger, genesis.delegations)
      ensures err.None? ==> RoundSoFar(config, mappings, start, startDelegations, total0, genesis.ledger, genesis.delegations, genesis.totalAllocatedTokens,
                                       genesis.precision, entities, done + {name}, ready)
      ensures err.Some? && ready ==> !RoundFits(config.accounts, mappings, entities, start, genesis.precision)
    {
      ghost var ledger0, delegations0 := genesis.ledger, genesis.delegations;
      var address := mappings[name];
      if ready {
        FitNext(config.accounts, mappings, entities, start, ledger0, genesis.precision, done, name);
      }
      err := SetupEntityAccount(genesis, address, entities[name]);
      KeptRound(config.accounts, config.minimumBalance, start, startDelegations, ledger0, delegations0, genesis.ledger, genesis.delegations,
                address, genesis.precision, entities[name], err.None?);
      if err.Some? {
        return;
      }
      EntityRound(config, mappings, start, startDelegations, ledger0, delegations0, genesis.ledger, genesis.delegations, genesis.precision, entities, done, name);
      PreciseSumStep(entities, FundsOf, done, name, genesis.precision);
      if ready {
        FitStep(config.accounts, mappings, entities, start, ledger0, genesis.ledger, genesis.precision, done, name);
      }
    }

    /**
     * One round of the loop of `setupAccountsForEntities`: the entity
     * account at `address` is created with the allocated funds, escrows what
     * exceeds the minimum balance to itself, and receives its seed
     * accounts' delegations. Accounts that existed before change only if
     * they delegate, and none of them gains delegators.
     */
    method SetupEntityAccount(genesis: AccountingGenesis, address: Address, allocation: Allocation) returns (err: Option<Error>)
      requires genesis.Valid()
      modifies genesis
      ensures genesis.Valid()
      ensures address in old(genesis.ledger) ==>
        err == Some(DuplicateAccount(address)) && genesis.ledger == old(genesis.ledger) && genesis.delegations == old(genesis.delegations)
      ensures address !in old(genesis.ledger) ==>
        EntityAccountOutcome(config.accounts, config.minimumBalance, old(genesis.ledger), old(genesis.delegations),
                             genesis.ledger, genesis.delegations, address, genesis.precision, allocation, err.None?)
      ensures address !in old(genesis.ledger) && (exists n | n in allocation.delegations :: n !in config.accounts) ==> err.Some?
      ensures err.None? ==> genesis.totalAllocatedTokens == old(genesis.totalAllocatedTokens) + Precise(genesis.precision, allocation.funds)
    {
      ghost var ledger0, delegations0 := genesis.ledger, genesis.delegations;
      err := CreateEntityAccount(genesis, address, allocation.funds);
      if err.Some? {
        return;
      }
      ghost var ledger1, delegations1 := genesis.ledger, genesis.delegations;
      err := SetupEntityDelegations(genesis, address, allocation.delegations);
      EntityAccountSetUp(config.accounts, config.minimumBalance, ledger0, delegations0, ledger1, delegations1,
                         genesis.ledger, genesis.delegations, address, genesis.precision, allocation, err.None?);
    }

    /**
     * The first half of a round of `setupAccountsForEntities`: the account
     * is created with `funds`, and what exceeds the minimum balance is
     * escrowed to the account itself. Only a taken address fails.
     */
    method CreateEntityAccount(genesis: AccountingGenesis, address: Address, funds: Uint64) returns (err: Option<Error>)
      requires genesis.Valid()
      modifies genesis
      ensures genesis.Valid()
      ensures address in old(genesis.ledger) ==>
        err == Some(DuplicateAccount(address)) && genesis.ledger == old(genesis.ledger) && genesis.delegations == old(genesis.delegations)
      ensures address !in old(genesis.ledger) ==> err.None? && forall a :: a in genesis.ledger <==> a in old(genesis.ledger) || a == address
      ensures address !in old(genesis.ledger) ==> genesis.totalAllocatedTokens == old(genesis.totalAllocatedTokens) + Precise(genesis.precision, funds)
      ensures address !in old(genesis.ledger) ==>
        && genesis.ledger[address].general.balance == genesis.precision * (if funds > config.minimumBalance then config.minimumBalance else funds)
        && InnerOf(genesis.delegations, address) == if funds > config.minimumBalance
             then map[address := Delegation(genesis.precision * (funds - config.minimumBalance))] else map[]
      ensures forall y | y in old(genesis.ledger) ::
        genesis.ledger[y] == old(genesis.ledger)[y] && InnerOf(genesis.delegations, y) == InnerOf(old(genesis.delegations), y)
    {
      ghost var ledger0, delegations0 := genesis.ledger, genesis.delegations;
      err := genesis.AddAccount(address, funds);
      if err.Some? {
        return;
      }
      MissingHasNoDelegators(ledger0, delegations0, genesis.totalAllocatedTokens - genesis.PreciseTokens(funds), genesis.Schedule(), address);
      if funds > config.minimumBalance {
        var escrowBalance := funds - config.minimumBalance;
        MulSub(genesis.precision, funds, config.minimumBalance);
        ghost var ledger1, delegations1 := genesis.ledger, genesis.delegations;
        // The account was just created with all of `funds` spendable and no delegators, so the self-escrow cannot fail.
        err := genesis.AddDelegation(address, address, escrowBalance);
        assert err.None?;
        SelfEscrowFrame(ledger0, ledger1, delegations1, address, genesis.PreciseTokens(escrowBalance), genesis.Schedule());
      }
    }

    /**
     * One `AddDelegation` of the loop of `setupEntityDelegations`, for seed
     * account `name` after the names `done`: it succeeds exactly when both
     * accounts exist, `from` has not delegated to `to` yet and can afford
     * the amount, and it keeps `DelegatedOnly` and, on success, extends
     * `Delegating` by `name`.
     */
    static method DelegateFromSeed(genesis: AccountingGenesis, from: Address, to: Address, amount: Uint64,
                                   ghost ledger0: map<Address, Account>, ghost delegations0: map<Address, map<Address, Delegation>>,
                                   ghost sources: set<Address>, ghost accounts: map<string, GenesisAccount>, ghost amounts: map<string, Uint64>,
                                   ghost name: string, ghost done: set<string>, ghost ready: bool) returns (err: Option<Error>)
      requires genesis.Valid() && from in sources
      requires DelegatedOnly(ledger0, delegations0, genesis.ledger, genesis.delegations, to, sources)
      requires name in accounts && name in amounts && name !in done && from == accounts[name].address && amount == amounts[name]
      requires ready ==> DelegationsReady(accounts, ledger0, delegations0, to)
      requires Delegating(accounts, ledger0, genesis.ledger, genesis.delegations, to, genesis.precision, amounts, done, ready)
      modifies genesis
      ensures genesis.Valid() && genesis.totalAllocatedTokens == old(genesis.totalAllocatedTokens)
      ensures DelegatedOnly(ledger0, delegations0, genesis.ledger, genesis.delegations, to, sources)
      ensures err.None? <==>
        && from in old(genesis.ledger) && to in old(genesis.ledger) && !HasDelegation(old(genesis.delegations), from, to)
        && Precise(genesis.precision, amount) <= old(genesis.ledger)[from].general.balance
      ensures err.None? ==> genesis.ledger == Escrowed(old(genesis.ledger), from, to, Precise(genesis.precision, amount), genesis.Schedule())
      ensures err.None? ==> genesis.delegations == Recorded(old(genesis.delegations), from, to, Precise(genesis.precision, amount))
      ensures err.None? ==> Delegating(accounts, ledger0, genesis.ledger, genesis.delegations, to, genesis.precision, amounts, done + {name}, ready)
      ensures err.Some? && ready ==> !Affordable(accounts, amounts, ledger0, genesis.precision)
    {
      ghost var ledger1, delegations1 := genesis.ledger, genesis.delegations;
      err := genesis.AddDelegation(from, to, amount);
      if err.Some? {
        DelegatedSameInner(ledger0, delegations0, ledger1, delegations1, genesis.delegations, to, sources);
        if ready {
          DelegationsRefused(accounts, ledger0, delegations0, ledger1, delegations1, to, genesis.precision, amounts, done, name);
        }
      } else {
        DelegatedEscrow(ledger0, delegations0, ledger1, delegations1, to, sources, from, genesis.PreciseTokens(amount), genesis.Schedule());
        DelegatingStep(accounts, ledger0, delegations0, ledger1, delegations1, to, genesis.precision, amounts, done, ready, name, genesis.Schedule());
      }
    }

    /**
     * `generateAccountingGenesis`: the seed accounts, then the entity
     * mappings, then the allocation table, then (in a test genesis) the
     * test-only entities, then the accountant's snapshot; the first error
     * is returned.
     */
    method GenerateAccountingGenesis() returns (r: Result<Genesis<Address>, Error>)
      modifies this`entityMappings
      ensures !DistinctAddresses(config.accounts, config.accounts.Keys) ==>
        r.Failure? && r.error.DuplicateAccount? && entityMappings == old(entityMappings)
      ensures DistinctAddresses(config.accounts, config.accounts.Keys) ==> entityMappings == resolved + old(entityMappings)
      ensures r.Success? <==> !MustFail(config, isTestGenesis, allocationTable, resolved + old(entityMappings))
      ensures r.Success? ==> AccountingOutcome(config, isTestGenesis, allocationTable, entityMappings, r.value)
      ensures r.Success? ==> r.value.parameters == ConsensusParameters([]) && r.value.tokenSymbol == "" && r.value.tokenValueExponent == 0
    {
      var genesis, err := InitializeAccountingGenesis();
      if err.Some? {
        return Failure(err.value);
      }
      ghost var ledger0 := genesis.ledger;
      MapEntities();
      err := SetupAllocations(genesis);
      if err.Some? {
        return Failure(err.value);
      }
      var partial := genesis.GetPartialGenesis();
      AllocatedPrecise(config, isTestGenesis, allocationTable, genesis.precision);
      AssemblyOutcome(config, isTestGenesis, allocationTable, entityMappings, ledger0, partial, genesis.totalAllocatedTokens, genesis.precision);
      return Success(partial);
    }

    /**
     * The entity rounds of `generateAccountingGenesis` from the seed ledger:
     * the allocation table, then the test-only entities in a test genesis.
     * They succeed exactly when the allocations fit, and then every seed
     * account has paid exactly what the allocations ask of it and the
     * accountant holds the entities' funds on top of what it held.
     */
    method SetupAllocations(genesis: AccountingGenesis) returns (err: Option<Error>)
      requires genesis.Valid() && genesis.delegations == map[] && genesis.precision == Precision(config.tokenValueExponent)
      requires DistinctAddresses(config.accounts, config.accounts.Keys)
      requires SeedLedger(genesis.ledger, config.accounts, config.accounts.Keys, genesis.precision)
      modifies genesis
      ensures genesis.Valid()
      ensures err.None? <==> EntitiesFit(config, isTestGenesis, allocationTable, entityMappings)
      ensures err.None? ==> AllocationsOutcome(config, isTestGenesis, allocationTable, entityMappings, old(genesis.ledger), old(genesis.delegations), genesis.ledger, genesis.delegations, genesis.precision)
      ensures err.None? ==> SeedsDebited(config, isTestGenesis, allocationTable, genesis.ledger, genesis.precision)
      ensures err.None? ==>
        genesis.totalAllocatedTokens == old(genesis.totalAllocatedTokens) + Precise(genesis.precision, EntityFunds(config, isTestGenesis, allocationTable))
    {
      ghost var ledger0 := genesis.ledger;
      SeedLedgerReady(config.accounts, ledger0, genesis.precision);
      FirstRoundFits(config, isTestGenesis, allocationTable, entityMappings, ledger0, genesis.precision);
      err := SetupAccountsForEntities(genesis, allocationTable);
      if err.Some? {
        return;
      }
      ghost var ledger1, delegations1 := genesis.ledger, genesis.delegations;
      SecondRoundFits(config, isTestGenesis, allocationTable, entityMappings, ledger0, ledger1, genesis.precision);
      if isTestGenesis {
        err := SetupAccountsForEntities(genesis, config.testOnlyEntities);
        if err.Some? {
          return;
        }
        TestRoundKeeps(config, allocationTable, entityMappings, ledger0, ledger1, delegations1, genesis.ledger, genesis.delegations, genesis.precision);
      }
      SeedsFinal(config, isTestGenesis, allocationTable, ledger0, ledger1, genesis.ledger, genesis.precision);
      EntityFundsPrecise(config, isTestGenesis, allocationTable, genesis.precision);
    }

    /**
     * `GenerateGenesis`: the consensus parameters are loaded first (their
     * loading is an input here), then the accounting genesis is generated
     * and completed with them, the token symbol and the value exponent.
     */
    method GenerateGenesis(parameters: Result<ConsensusParameters, Error>) returns (r: Result<Genesis<Address>, Error>)
      modifies this`entityMappings
      ensures parameters.Failure? ==> r == Failure(parameters.error) && entityMappings == old(entityMappings)
      ensures parameters.Success? && DistinctAddresses(config.accounts, config.accounts.Keys) ==> entityMappings == resolved + old(entityMappings)
      ensures parameters.Success? ==> (r.Success? <==> !MustFail(config, isTestGenesis, allocationTable, resolved + old(entityMappings)))
      ensures r.Success? ==> parameters.Success? && AccountingOutcome(config, isTestGenesis, allocationTable, entityMappings, r.value)
      ensures r.Success? ==> r.value.parameters == parameters.value
      ensures r.Success? ==> r.value.tokenSymbol == config.tokenSymbol && r.value.tokenValueExponent == config.tokenValueExponent
    {
      if parameters.Failure? {
        return Failure(parameters.error);
      }
      r := GenerateAccountingGenesis();
      if r.Failure? {
        return;
      }
      var genesis := r.value.(parameters := parameters.value, tokenSymbol := config.tokenSymbol, tokenValueExponent := config.tokenValueExponent);
      return Success(genesis);
    }
  }

  /**
   * A worked example: precision 10^9, a total supply of 10 tokens, a
   * minimum balance of 1 token, no seed accounts and a single entity funded
   * with 3 tokens. The entity keeps 1 token spendable and escrows 2 to
   * itself, and the common pool is the remaining 7 tokens.
   */
  lemma OneEntityExample(config: GenesisConfig, mappings: map<string, Address>, g: Genesis<Address>, name: string)
    requires config.tokenValueExponent == 9 && config.totalSupply == 10 && config.minimumBalance == 1 && config.accounts == map[]
    requires AccountingOutcome(config, false, map[name := Allocation(map[], 3)], mappings, g)
    ensures name in mappings && g.ledger.Keys == {mappings[name]}
    ensures var account := g.ledger[mappings[name]];
      && account.general.balance == 1_000_000_000
      && account.escrow.active.balance == 2_000_000_000
      && account.escrow.active.totalShares == 2_000_000_000
      && account.escrow.debonding == EmptyPool
    ensures g.commonPool == 7_000_000_000
  {
    var table := map[name := Allocation(map[], 3)];
    var precision := Precision(9);
    assert precision == 1_000_000_000;
    var schedule := SingleStepSchedule(config.commissionRate, config.commissionRateMin, config.commissionRateMax);
    assert EntitySetUp(config, mappings, g.ledger, g.delegations, precision, name, table[name]);
    assert name in mappings;
    var a := mappings[name];
    var account := g.ledger[a];
    assert SeedAddresses(config.accounts) == {};
    forall x ensures x in g.ledger <==> x == a {
      assert x in EntityAddresses(mappings, table.Keys) <==> x == a;
    }
    assert g.ledger == map[a := account];
    assert PoolMatches(g.ledger, g.delegations, schedule, a);
    SelfEscrowThreshold(account, InnerOf(g.delegations, a), a, precision, 1, map[], table[name], schedule);
    SumOfRemove(table, FundsOf, name);
    assert table - {name} == map[];
    assert AllocatedTokens(config, false, table) == 3;
  }

  /**
   * A worked example without allocations: precision 1, a total supply of
   * 1000 tokens and one seed account of 5 tokens. The seed account keeps
   * its 5 tokens and the common pool holds the other 995.
   */
  lemma SeedOnlyExample(config: GenesisConfig, mappings: map<string, Address>, g: Genesis<Address>,
                        seed: string, address: Address, csvLabel: string)
    requires config.tokenValueExponent == 0 && config.totalSupply == 1000
    requires config.accounts == map[seed := GenesisAccount(5, address, csvLabel)]
    requires AccountingOutcome(config, false, map[], mappings, g)
    ensures g.ledger == map[address := NewAccount(5)]
    ensures g.commonPool == 995
  {
    var table: map<string, Allocation> := map[];
    assert Precision(0) == 1;
    assert config.accounts[seed].address == address;
    forall x ensures x in SeedAddresses(config.accounts) <==> x == address {
      if x == address {
        assert seed in config.accounts.Keys;
      }
    }
    assert SeedAddresses(config.accounts) == {address};
    assert EntityAddresses(mappings, table.Keys) == {};
    assert TotalRequested(config, false, table, seed) == 0;
    assert g.ledger[address] == NewAccount(5);
    assert g.ledger == map[address := NewAccount(5)];
    SumOfRemove(config.accounts, SeedAmount, seed);
    assert config.accounts - {seed} == map[];
    assert AllocatedTokens(config, false, table) == 5;
  }

  /** The column positions `mapIndices` records from `header`, with `lookup` as the seed accounts' label lookup. */
  function HeaderColumns(header: seq<string>, options: GenesisCsvOptions, lookup: map<string, string>): Columns
  {
    Columns(RoleIndex(header, options, Kyc, 0, |header|), RoleIndex(header, options, Submitted, 0, |header|),
            RoleIndex(header, options, Name, 0, |header|), RoleIndex(header, options, Funding, 0, |header|),
            AccountColumns(header, options, lookup, map[], |header|))
  }

  /**
   * `table` is the allocation table `GenesisCsv` reads from `records`: the
   * rows after the header, up to the first rejected one, folded with the
   * columns of the header.
   */
  ghost predicate CsvTable(config: GenesisConfig, records: seq<seq<string>>, table: map<string, Allocation>)
  {
    && records != []
    && exists lookup | IsLabelLookup(config.accounts, config.accounts.Keys, lookup) ::
         var cols := HeaderColumns(records[0], config.csvOptions, lookup);
         && RowsFit(records[1..], cols)
         && table == Fold(records[1..][..FirstRejected(records[1..], cols)], cols, map[])
  }

  /**
   * `Create`: the configuration, the allocation records, the entity
   * resolver's names and the consensus parameters come in already loaded;
   * the allocation table is read from the records and the genesis is
   * generated from it. Once the parameters are loaded, it succeeds exactly
   * when the allocations of the table read fit, and then holds the genesis
   * `AccountingOutcome` describes.
   */
  method Create(config: GenesisConfig, records: seq<seq<string>>, resolved: map<string, Address>, isTestGenesis: bool,
                parameters: Result<ConsensusParameters, Error>) returns (r: Result<Genesis<Address>, Error>)
    requires Rectangular(records)
    ensures parameters.Failure? ==> r == Failure(parameters.error)
    ensures r.Success? ==> r.value.tokenSymbol == config.tokenSymbol && r.value.tokenValueExponent == config.tokenValueExponent
    ensures exists table | CsvTable(config, records, table) ::
      && (parameters.Success? ==> (r.Success? <==> !MustFail(config, isTestGenesis, table, resolved)))
      && (r.Success? ==> AccountingOutcome(config, isTestGenesis, table, resolved, r.value))
  {
    var csv := new GenesisCsv(config.csvOptions, config.accounts, records);
    ghost var lookup :| IsLabelLookup(config.accounts, config.accounts.Keys, lookup)
                        && csv.accountIndices == AccountColumns(records[0], config.csvOptions, lookup, map[], |records[0]|);
    assert csv.Cols() == HeaderColumns(records[0], config.csvOptions, lookup);
    assert CsvTable(config, records, csv.allocations);
    var creator := new GenesisCreator(config, isTestGenesis, resolved, csv.allocations);
    r := creator.GenerateGenesis(parameters);
    NoEarlierMappings(resolved);
  }

  /** A fresh creator has no mappings of its own, so its entities are mapped as the resolver says. */
  lemma NoEarlierMappings(resolved: map<string, Address>)
    ensures resolved + map[] == resolved
  {
  }
}
