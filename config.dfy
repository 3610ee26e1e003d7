/**
 * The decoded genesis configuration of creator.go: seed accounts, entity
 * allocations, table labels, and the name normalisation the YAML decoders
 * apply to the seed-account and test-entity tables.
 */
module Config {
  import opened Quantity
  import opened Staking
  import opened Text

  type Uint8 = x: nat | x < 256

  /** A seed account of the configuration: its whole-token amount, address and table label. */
  datatype GenesisAccount = GenesisAccount(amount: Uint64, address: Address, csvLabel: string)

  /** What one entity receives: whole tokens from each named seed account, and its own funds. */
  datatype Allocation = Allocation(delegations: map<string, Uint64>, funds: Uint64)

  /** The header labels of the four fixed columns of the allocation table. */
  datatype GenesisCsvOptions = GenesisCsvOptions(
    kycLabel: string,
    entityPackageSubmittedLabel: string,
    entityPackageNameLabel: string,
    fundingLabel: string)

  datatype GenesisConfig = GenesisConfig(
    minimumBalance: Uint64,
    totalSupply: Uint64,
    tokenSymbol: string,
    tokenValueExponent: Uint8,
    accounts: map<string, GenesisAccount>,
    testOnlyEntities: map<string, Allocation>,
    commissionRateMax: Uint64,
    commissionRateMin: Uint64,
    commissionRate: Uint64,
    csvOptions: GenesisCsvOptions)

  /**
   * The key loops of `GenesisAccounts.UnmarshalYAML` and
   * `GenesisEntityAllocations.UnmarshalYAML`: every decoded entry is stored
   * under its lower-cased name; of names equal up to case, one survives.
   */
  method NormalizeNames<V>(raw: map<string, V>) returns (normalized: map<string, V>)
    ensures Renamed(normalized, raw, raw.Keys)
  {
    normalized := map[];
    var remaining := raw.Keys;
    ghost var done: set<string> := {};
    while remaining != {}
      invariant remaining + done == raw.Keys && remaining !! done
      invariant Renamed(normalized, raw, done)
      decreases remaining
    {
      var name :| name in remaining;
      RenameStep(normalized, raw, done, name);
      normalized := normalized[ToLower(name) := raw[name]];
      remaining := remaining - {name};
      done := done + {name};
    }
  }
}
