/**
 * The older ledger builder (`genesisCreator` of ledger.go), superseded by
 * the accountant but kept as its own variant: it writes a staking genesis
 * keyed by entity public keys directly, funding every entity with the same
 * default balance and self-escrow, optionally adding a faucet account, and
 * deriving the common pool at the end. Its setters overwrite whatever was
 * there; nothing is checked but the final supply.
 */
module LegacyLedger {
  import opened Wrappers
  import opened Quantity
  import opened Staking
  import opened Errors
  import opened Accounting

  /** Go's `int64`. */
  type Int64 = x: int | -0x8000_0000_0000_0000 <= x < 0x8000_0000_0000_0000

  /**
   * The options the builder reads. `entities` is the entity registry's
   * `All()`: entity names and the public keys (`ID`) of their entities.
   */
  datatype LegacyOptions = LegacyOptions(
    faucetBase64Address: string,
    faucetAmount: Int64,
    totalSupply: Int64,
    precisionConstant: Int64,
    defaultFundingAmount: Int64,
    defaultSelfEscrowAmount: Int64,
    entities: map<string, PublicKey>)

  /**
   * The precision constant: `quantity.FromInt64` rejects a negative value,
   * `create` ignores that error, and the constant stays at zero.
   */
  function PrecisionOf(constant: Int64): (p: nat)
    ensures constant >= 0 ==> p == constant
    ensures constant < 0 ==> p == 0
  {
    if constant < 0 then 0 else constant
  }

  /** The public keys of the named entities. */
  function EntityKeys(entities: map<string, PublicKey>, names: set<string>): set<PublicKey>
  {
    set n | n in names && n in entities :: entities[n]
  }

  /** Whether `create` sets up a faucet: an address is configured and its text decodes to `faucetKey`. */
  predicate HasFaucet(options: LegacyOptions, faucetKey: Option<PublicKey>)
  {
    options.faucetBase64Address != "" && faucetKey.Some?
  }

  /** The default amounts are never negative when some entity uses them. */
  predicate EntityAmountsValid(options: LegacyOptions)
  {
    options.entities != map[] ==> options.defaultFundingAmount >= 0 && options.defaultSelfEscrowAmount >= 0
  }

  /** The amounts `create` turns into quantities are never negative, so it never panics. */
  predicate AmountsValid(options: LegacyOptions, faucetKey: Option<PublicKey>)
  {
    (HasFaucet(options, faucetKey) ==> options.faucetAmount >= 0) && EntityAmountsValid(options)
  }

  /** Every entity's account: the default funding spendable and the default self-escrow in its active pool. */
  function EntityAccount(options: LegacyOptions, precision: nat): Account
    requires EntityAmountsValid(options)
  {
    if options.entities == map[] then FundedAccount(0, 0)
    else FundedAccount(options.defaultFundingAmount * precision, options.defaultSelfEscrowAmount * precision)
  }

  /** The shares of every entity's self-delegation. */
  function SelfShares(options: LegacyOptions, precision: nat): nat
    requires EntityAmountsValid(options)
  {
    if options.entities == map[] then 0 else options.defaultSelfEscrowAmount * precision
  }

  /** The faucet's ledger: its account with the faucet amount spendable, when there is a faucet. */
  function FaucetLedger(options: LegacyOptions, faucetKey: Option<PublicKey>, precision: nat): map<PublicKey, Account>
    requires AmountsValid(options, faucetKey)
  {
    if HasFaucet(options, faucetKey) then map[faucetKey.value := FundedAccount(options.faucetAmount * precision, 0)] else map[]
  }

  /** The accounts of the entities `names`. */
  function EntityLedger(options: LegacyOptions, precision: nat, names: set<string>): map<PublicKey, Account>
    requires EntityAmountsValid(options)
  {
    map k | k in EntityKeys(options.entities, names) :: EntityAccount(options, precision)
  }

  /** The self-delegations of the entities `names`: each entity key has only its own. */
  function EntityDelegations(options: LegacyOptions, precision: nat, names: set<string>): map<PublicKey, map<PublicKey, Delegation>>
    requires EntityAmountsValid(options)
  {
    map k | k in EntityKeys(options.entities, names) :: map[k := Delegation(SelfShares(options, precision))]
  }

  /** The ledger `create` builds: the faucet's account, then every entity's, an entity replacing a faucet with its key. */
  function ExpectedLedger(options: LegacyOptions, faucetKey: Option<PublicKey>, precision: nat): map<PublicKey, Account>
    requires AmountsValid(options, faucetKey)
  {
    FaucetLedger(options, faucetKey, precision) + EntityLedger(options, precision, options.entities.Keys)
  }

  class LegacyGenesisCreator {
    const options: LegacyOptions
    var genesis: Genesis<PublicKey>
    var precisionConstant: nat

    constructor (options: LegacyOptions)
      ensures this.options == options && precisionConstant == 0
      ensures genesis == Genesis(ConsensusParameters([]), "", 0, 0, 0, map[], map[])
    {
      this.options := options;
      genesis := Genesis(ConsensusParameters([]), "", 0, 0, 0, map[], map[]);
      precisionConstant := 0;
    }

    /**
     * `toStakingQuantity`: whole tokens times the precision constant (a
     * negative amount panics in the source). Zero stays zero, and at a
     * precision of at least 1 an amount never shrinks.
     */
    function ToStakingQuantity(v: Int64): (r: nat)
      requires v >= 0
      reads this
      ensures v == 0 ==> r == 0
      ensures precisionConstant >= 1 ==> v <= r
    {
      v * precisionConstant
    }

    /** `setLedgerForEntity`: sets or overwrites the account of `key`; nothing else changes. */
    method SetLedgerForEntity(key: PublicKey, tokenBalance: Int64, tokensInEscrow: Int64)
      requires tokenBalance >= 0 && tokensInEscrow >= 0
      modifies this`genesis
      ensures genesis == old(genesis).(ledger := old(genesis.ledger)[key :=
        FundedAccount(ToStakingQuantity(tokenBalance), ToStakingQuantity(tokensInEscrow))])
    {
      var account := Account(
        GeneralAccount(ToStakingQuantity(tokenBalance), 0),
        EscrowAccount(
          SharePool(ToStakingQuantity(tokensInEscrow), ToStakingQuantity(tokensInEscrow)),
          SharePool(ToStakingQuantity(0), ToStakingQuantity(0)),
          NoSchedule));
      genesis := genesis.(ledger := genesis.ledger[key := account]);
    }

    /**
     * `setDelegation`: creates `to`'s delegator map when it has none, then
     * sets or overwrites the shares of `from` in it, without any check.
     */
    method SetDelegation(from: PublicKey, to: PublicKey, tokensToEscrow: Int64)
      requires tokensToEscrow >= 0
      modifies this`genesis
      ensures genesis == old(genesis).(delegations := Recorded(old(genesis.delegations), from, to, ToStakingQuantity(tokensToEscrow)))
    {
      var delegations: map<PublicKey, Delegation>;
      if to in genesis.delegations {
        delegations := genesis.delegations[to];
      } else {
        delegations := map[];
      }
      delegations := delegations[from := Delegation(ToStakingQuantity(tokensToEscrow))];
      genesis := genesis.(delegations := genesis.delegations[to := delegations]);
    }

    /**
     * `setupEntity`: the entity's account with `tokenBalance` spendable and
     * `tokensInEscrow` in its active pool (the escrow is not taken from the
     * balance), and its self-delegation of `tokensInEscrow`.
     */
    method SetupEntity(id: PublicKey, tokenBalance: Int64, tokensInEscrow: Int64)
      requires tokenBalance >= 0 && tokensInEscrow >= 0
      modifies this`genesis
      ensures genesis == old(genesis).(
        ledger := old(genesis.ledger)[id := FundedAccount(ToStakingQuantity(tokenBalance), ToStakingQuantity(tokensInEscrow))],
        delegations := Recorded(old(genesis.delegations), id, id, ToStakingQuantity(tokensInEscrow)))
    {
      SetLedgerForEntity(id, tokenBalance, tokensInEscrow);
      SetDelegation(id, id, tokensInEscrow);
    }

    /**
     * `setupFaucet`: nothing happens without a faucet address; an address
     * whose text does not decode (`faucetKey` is the decoding) is an error;
     * otherwise the faucet gets an account with the faucet amount spendable.
     */
    method SetupFaucet(faucetKey: Option<PublicKey>) returns (err: Option<Error>)
      requires HasFaucet(options, faucetKey) ==> options.faucetAmount >= 0
      modifies this`genesis
      ensures options.faucetBase64Address == "" ==> err.None? && genesis == old(genesis)
      ensures options.faucetBase64Address != "" && faucetKey.None? ==>
        err == Some(InvalidFaucetKey(options.faucetBase64Address)) && genesis == old(genesis)
      ensures HasFaucet(options, faucetKey) ==>
        err.None? && genesis == old(genesis).(ledger := old(genesis.ledger)[faucetKey.value := FundedAccount(ToStakingQuantity(options.faucetAmount), 0)])
    {
      if options.faucetBase64Address == "" {
        return None;
      }
      if faucetKey.None? {
        return Some(InvalidFaucetKey(options.faucetBase64Address));
      }
      SetLedgerForEntity(faucetKey.value, options.faucetAmount, 0);
      return None;
    }

    /**
     * `calculateCommonPool`: the holdings of every account, in map order,
     * are added up; the common pool is the total supply less that sum, and
     * a sum above the supply is an error that leaves the pool unset.
     */
    method CalculateCommonPool() returns (err: Option<Error>)
      modifies this`genesis
      ensures err.None? <==> TotalHeld(old(genesis.ledger)) <= old(genesis.totalSupply)
      ensures err.None? ==> genesis == old(genesis).(commonPool := old(genesis.totalSupply) - TotalHeld(old(genesis.ledger)))
      ensures err.Some? ==> err == Some(InsufficientBalance) && genesis == old(genesis)
    {
      var allocatedTokens: nat := 0;
      var remaining := genesis.ledger.Keys;
      ghost var done: set<PublicKey> := {};
      while remaining != {}
        invariant genesis == old(genesis)
        invariant done == genesis.ledger.Keys - remaining && remaining <= genesis.ledger.Keys
        invariant allocatedTokens == TotalHeld(Restrict(genesis.ledger, done))
        decreases remaining
      {
        var entityPubKey :| entityPubKey in remaining;
        var account := genesis.ledger[entityPubKey];
        // The source also adds the general balance into a fresh quantity (its lookup in a nil map always misses) and discards it.
        TotalHeldRestrictAdd(genesis.ledger, done, entityPubKey);
        allocatedTokens := allocatedTokens + account.general.balance;
        allocatedTokens := allocatedTokens + account.escrow.active.balance;
        allocatedTokens := allocatedTokens + account.escrow.debonding.balance;
        remaining := remaining - {entityPubKey};
        done := done + {entityPubKey};
      }
      RestrictAll(genesis.ledger, done);
      var commonPool := Sub(genesis.totalSupply, allocatedTokens);
      if commonPool.None? {
        return Some(InsufficientBalance);
      }
      genesis := genesis.(commonPool := commonPool.value);
      return None;
    }

    /**
     * The loop of `create` over the entity registry, in map order: every
     * entity gets its account and its self-delegation from the defaults.
     */
    method SetupEntities()
      requires EntityAmountsValid(options) && genesis.delegations == map[]
      modifies this`genesis
      ensures genesis == old(genesis).(
        ledger := old(genesis.ledger) + EntityLedger(options, precisionConstant, options.entities.Keys),
        delegations := EntityDelegations(options, precisionConstant, options.entities.Keys))
    {
      var remaining := options.entities.Keys;
      ghost var done: set<string> := {};
      while remaining != {}
        invariant done == options.entities.Keys - remaining && remaining <= options.entities.Keys
        invariant EntitiesSetUp(options, precisionConstant, old(genesis), genesis, done)
        decreases remaining
      {
        var name :| name in remaining;
        var id := options.entities[name];
        ghost var before := genesis;
        SetupEntity(id, options.defaultFundingAmount, options.defaultSelfEscrowAmount);
        EntitiesSetUpStep(options, precisionConstant, old(genesis), before, done, name);
        remaining := remaining - {name};
        done := done + {name};
      }
      assert done == options.entities.Keys;
    }

    /**
     * `create`: fresh ledger and delegations, the precision constant, the
     * total supply, the consensus parameters (their loading is an input
     * here), the faucet, every entity, and the common pool; the first error
     * is returned. An amount must be non-negative only when its conversion
     * is reached: a run that fails earlier never converts it.
     */
    method Create(parameters: Result<ConsensusParameters, Error>, faucetKey: Option<PublicKey>) returns (r: Result<Genesis<PublicKey>, Error>)
      requires options.totalSupply >= 0
      requires parameters.Success? && HasFaucet(options, faucetKey) ==> options.faucetAmount >= 0
      requires parameters.Success? && (options.faucetBase64Address == "" || faucetKey.Some?) ==> EntityAmountsValid(options)
      modifies this`genesis, this`precisionConstant
      ensures parameters.Failure? ==> r == Failure(parameters.error)
      ensures options.faucetBase64Address != "" && faucetKey.None? && parameters.Success? ==>
        r == Failure(InvalidFaucetKey(options.faucetBase64Address))
      ensures r.Success? <==>
        && parameters.Success?
        && (options.faucetBase64Address == "" || faucetKey.Some?)
        && TotalHeld(ExpectedLedger(options, faucetKey, PrecisionOf(options.precisionConstant)))
             <= options.totalSupply * PrecisionOf(options.precisionConstant)
      ensures r.Success? ==>
        var precision := PrecisionOf(options.precisionConstant);
        && r.value.parameters == parameters.value
        && r.value.totalSupply == options.totalSupply * precision
        && r.value.ledger == ExpectedLedger(options, faucetKey, precision)
        && r.value.delegations == EntityDelegations(options, precision, options.entities.Keys)
        && r.value.commonPool + TotalHeld(r.value.ledger) == r.value.totalSupply
    {
      genesis := genesis.(ledger := map[], delegations := map[]);
      precisionConstant := PrecisionOf(options.precisionConstant);
      genesis := genesis.(totalSupply := ToStakingQuantity(options.totalSupply));
      if parameters.Failure? {
        return Failure(parameters.error);
      }
      genesis := genesis.(parameters := parameters.value);
      var err := SetupFaucet(faucetKey);
      if err.Some? {
        return Failure(err.value);
      }
      SetupEntities();
      err := CalculateCommonPool();
      if err.Some? {
        return Failure(err.value);
      }
      return Success(genesis);
    }
  }

  /** `g` is `g0` after setting up the entities `names` from empty delegations. */
  ghost predicate EntitiesSetUp(options: LegacyOptions, precision: nat, g0: Genesis<PublicKey>, g: Genesis<PublicKey>, names: set<string>)
    requires EntityAmountsValid(options)
  {
    g == g0.(ledger := g0.ledger + EntityLedger(options, precision, names), delegations := EntityDelegations(options, precision, names))
  }

  /** Setting up one more entity the way `setupEntity` does keeps `EntitiesSetUp`. */
  lemma EntitiesSetUpStep(options: LegacyOptions, precision: nat, g0: Genesis<PublicKey>, g: Genesis<PublicKey>, names: set<string>, name: string)
    requires EntityAmountsValid(options) && name in options.entities
    requires EntitiesSetUp(options, precision, g0, g, names)
    ensures var id := options.entities[name];
      var e := options.defaultSelfEscrowAmount * precision;
      EntitiesSetUp(options, precision, g0,
        g.(ledger := g.ledger[id := FundedAccount(options.defaultFundingAmount * precision, e)],
           delegations := Recorded(g.delegations, id, id, e)),
        names + {name})
  {
    var id := options.entities[name];
    EntityStep(options, precision, names, name);
    MergeUpdate(g0.ledger, EntityLedger(options, precision, names), id, EntityAccount(options, precision));
  }

  /** Overwriting after a merge is overwriting the map merged in. */
  lemma MergeUpdate<K, V>(base: map<K, V>, m: map<K, V>, k: K, v: V)
    ensures (base + m)[k := v] == base + m[k := v]
  {
  }

  /** Setting up one more entity extends its ledger and its delegations by its key. */
  lemma EntityStep(options: LegacyOptions, precision: nat, names: set<string>, name: string)
    requires EntityAmountsValid(options) && name in options.entities
    ensures var id := options.entities[name];
      && EntityLedger(options, precision, names + {name}) == EntityLedger(options, precision, names)[id := EntityAccount(options, precision)]
      && EntityDelegations(options, precision, names + {name}) ==
           Recorded(EntityDelegations(options, precision, names), id, id, SelfShares(options, precision))
  {
    var id := options.entities[name];
    var selfDelegation := map[id := Delegation(SelfShares(options, precision))];
    assert EntityKeys(options.entities, names + {name}) == EntityKeys(options.entities, names) + {id};
    assert InnerOf(EntityDelegations(options, precision, names), id)[id := Delegation(SelfShares(options, precision))] == selfDelegation;
  }

  /** The entities' accounts hold the default funding and self-escrow each: the escrow is not taken from the funding. */
  lemma {:induction false} EntityLedgerHeld(options: LegacyOptions, precision: nat)
    requires EntityAmountsValid(options)
    ensures TotalHeld(EntityLedger(options, precision, options.entities.Keys)) ==
      |EntityKeys(options.entities, options.entities.Keys)| *
        (if options.entities == map[] then 0 else (options.defaultFundingAmount + options.defaultSelfEscrowAmount) * precision)
  {
    var ledger := EntityLedger(options, precision, options.entities.Keys);
    var each := Held(EntityAccount(options, precision));
    assert ledger.Keys == EntityKeys(options.entities, options.entities.Keys);
    TotalHeldConstant(ledger, each);
    if options.entities != map[] {
      assert each == (options.defaultFundingAmount + options.defaultSelfEscrowAmount) * precision;
    }
  }

  /**
   * What `create` allocates: the entities' holdings, plus the faucet amount
   * when there is a faucet whose key is no entity's.
   */
  lemma ExpectedLedgerHeld(options: LegacyOptions, faucetKey: Option<PublicKey>, precision: nat)
    requires AmountsValid(options, faucetKey)
    requires HasFaucet(options, faucetKey) ==> faucetKey.value !in EntityKeys(options.entities, options.entities.Keys)
    ensures TotalHeld(ExpectedLedger(options, faucetKey, precision)) ==
      TotalHeld(EntityLedger(options, precision, options.entities.Keys)) +
        (if HasFaucet(options, faucetKey) then options.faucetAmount * precision else 0)
  {
    var entities := EntityLedger(options, precision, options.entities.Keys);
    var ledger := ExpectedLedger(options, faucetKey, precision);
    if HasFaucet(options, faucetKey) {
      var k := faucetKey.value;
      TotalHeldRemove(ledger, k);
      assert ledger - {k} == entities;
    } else {
      assert ledger == entities;
    }
  }

  /** Ten entities with the default 250 tokens funded and 250 escrowed, no faucet: the common pool is 99999950000. */
  lemma TenEntitiesPool(options: LegacyOptions, faucetKey: Option<PublicKey>)
    requires options.totalSupply == 10_000_000_000 && options.precisionConstant == 10
    requires options.defaultFundingAmount == 250 && options.defaultSelfEscrowAmount == 250
    requires |EntityKeys(options.entities, options.entities.Keys)| == 10
    requires options.faucetBase64Address == ""
    ensures AmountsValid(options, faucetKey)
    ensures var supply := options.totalSupply * PrecisionOf(options.precisionConstant);
      var held := TotalHeld(ExpectedLedger(options, faucetKey, PrecisionOf(options.precisionConstant)));
      held <= supply && supply - held == 99999950000
  {
    assert options.entities != map[];
    ExpectedLedgerHeld(options, faucetKey, 10);
    EntityLedgerHeld(options, 10);
  }

  /** The same with a faucet of 1000000 tokens under a key no entity has: the common pool is 99989950000. */
  lemma TenEntitiesAndFaucetPool(options: LegacyOptions, faucetKey: Option<PublicKey>)
    requires options.totalSupply == 10_000_000_000 && options.precisionConstant == 10
    requires options.defaultFundingAmount == 250 && options.defaultSelfEscrowAmount == 250
    requires |EntityKeys(options.entities, options.entities.Keys)| == 10
    requires options.faucetBase64Address != "" && options.faucetAmount == 1_000_000
    requires faucetKey.Some? && faucetKey.value !in EntityKeys(options.entities, options.entities.Keys)
    ensures AmountsValid(options, faucetKey)
    ensures var supply := options.totalSupply * PrecisionOf(options.precisionConstant);
      var held := TotalHeld(ExpectedLedger(options, faucetKey, PrecisionOf(options.precisionConstant)));
      held <= supply && supply - held == 99989950000
  {
    assert options.entities != map[];
    ExpectedLedgerHeld(options, faucetKey, 10);
    EntityLedgerHeld(options, 10);
  }
}
