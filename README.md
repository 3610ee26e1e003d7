# Staking genesis builder

A Dafny model of the staking-genesis core of the network's genesis tools. The
core turns a configuration into the staking part of a genesis document:
- the configuration names the seed accounts, the total supply, the minimum
  balance, commission rates and the token exponent;
- an allocation table (read from a CSV sheet) gives each entity its funds
  and the delegations it receives from seed accounts;
- the entity registry maps entity names to addresses.

The result is a ledger of accounts, a map of delegations, the total supply
and the common pool.

Modules follow the source files:

- `Quantity`, `Staking`, `Errors`, `Wrappers`: token amounts as unbounded
  naturals, with a subtraction that fails instead of going negative and the
  64-bit multiplication that wraps. Also the staking records (account,
  share pool, commission schedule, delegation, genesis) and the error kinds.
- `Text`: ASCII lower-casing, comma removal and `strconv.ParseUint` in base
  10 with 64 bits, with its meaning, its error cases and a round trip.
- `Config`: the configuration records, and the loops that lower-case the
  names of seed accounts and entity allocations when the YAML is decoded.
- `Accounting` (accounting.go): the class `AccountingGenesis` with
  `AddAccount`, `AddDelegation` and `GetPartialGenesis`. Its invariant
  `Valid` carries these facts:
  - the tokens of all accounts sum to `totalAllocatedTokens`;
  - both ends of every delegation have accounts in the ledger;
  - every active pool's balance and shares equal the shares delegated to it;
  - every debonding pool is empty;
  - an account has a commission schedule exactly when something is
    delegated to it.
- `GenesisCsv` (creator.go): the class over the CSV records, with
  `mapIndices` and `process`, specified by functions over the rows.
- `Creator` (creator.go): the class `GenesisCreator`, covering
  initialisation with the seed accounts, entity mappings, entity accounts
  with their self-escrow above the minimum balance, and delegations from
  seed accounts. `GenerateAccountingGenesis` and `GenerateGenesis` keep the
  source's order of operations. `Create` builds the CSV table and then the
  creator.
- `Allocations` (allocations.go): loading the case-insensitive allocation
  map and `ResolveAllocation`.
- `LegacyLedger` (ledger.go): the older builder, keyed by entity public
  keys. It gives every entity a default funding and a default self-escrow,
  adds an optional faucet, and derives the common pool.

Go map iteration is unordered. Every loop over a map picks an arbitrary
remaining key, so each contract holds for every iteration order.

## Model

| member | source | states |
|---|---|---|
| Quantity.Sub | go/genesis-tools/stakinggenesis/accounting.go:102-106 | quantity subtraction fails exactly when the amount exceeds the balance; otherwise the result plus the amount is the balance |
| Quantity.MulUint64 | go/genesis-tools/stakinggenesis/allocations.go:44 | 64-bit product: exact below 2^64; otherwise it differs from the true product by a multiple of 2^64, which with the 64-bit result type pins the wrapped value |
| Staking.SharesByDelegator | go/genesis-tools/stakinggenesis/accounting.go:108-110 | the share amounts of a delegator map have exactly its delegators as keys |
| Staking.TotalHeldRemove | go/genesis-tools/stakinggenesis/ledger.go:163-184 | the ledger's total is any one account's holdings plus the total of the rest, so summing in any order gives the same result |
| Staking.TotalHeldUpdate | go/genesis-tools/stakinggenesis/accounting.go:55-72 | writing one account changes the ledger's total by the new holdings minus the old ones |
| Staking.TotalHeldRestrictAdd | go/genesis-tools/stakinggenesis/ledger.go:163-184 | adding one more account's three balances to the running sum gives the total of the accounts visited so far |
| Staking.TotalHeldConstant | go/genesis-tools/stakinggenesis/ledger.go:69-71 | a ledger where every account holds the same amount holds that amount times the number of accounts |
| Staking.TotalSharesUpdate | go/genesis-tools/stakinggenesis/accounting.go:108-119 | recording one delegation changes the shares delegated to an account by the new shares minus any old ones |
| Staking.TotalSharesEmpty | go/genesis-tools/stakinggenesis/accounting.go:93-95 | a freshly made delegator map carries no shares |
| Text.ToLower | go/genesis-tools/stakinggenesis/creator.go:231 | lower-casing keeps the length |
| Text.ToLowerAt | go/genesis-tools/stakinggenesis/creator.go:231 | lower-casing maps each character on its own, at the same position |
| Text.ToLowerIdempotent | go/genesis-tools/stakinggenesis/allocations.go:45-52 | lower-casing an already lower-cased name changes nothing, so stored names are found again by their lower-cased lookup |
| Text.RemoveCharConcat | go/genesis-tools/stakinggenesis/creator.go:269 | removing commas distributes over concatenation |
| Text.RemoveCharAbsent | go/genesis-tools/stakinggenesis/creator.go:269 | text without commas is unchanged by comma removal |
| Text.RemoveCharRemoves | go/genesis-tools/stakinggenesis/creator.go:269 | no comma is left after removal |
| Text.Pow10 | go/genesis-tools/stakinggenesis/creator.go:317 | the precision 10^exponent is at least 1 |
| Text.DecimalValueConcat | go/genesis-tools/stakinggenesis/creator.go:270 | the value of a digit string is the value of its head shifted past its tail plus the tail's value |
| Text.AccumulateMeaning | go/genesis-tools/stakinggenesis/creator.go:270 | the digit-by-digit parse succeeds exactly on all-digit text whose value fits in 64 bits, returns that value, and fails with a syntax or range error otherwise (range when all digits) |
| Text.ParseUintMeaning | go/genesis-tools/stakinggenesis/creator.go:23-30 | `ParseUint` succeeds exactly on non-empty all-digit text below 2^64 and returns its decimal value; every failure is a syntax or range error, and all-digit text of 2^64 or more is a range error |
| Text.AccumulateError | go/genesis-tools/stakinggenesis/creator.go:270 | the digit loop stops at the first non-digit or at the first digit that takes the value to 2^64: a range error exactly when the leading digits already reach 2^64, a syntax error exactly when a non-digit follows leading digits below it |
| Text.ParseUintError | go/genesis-tools/stakinggenesis/creator.go:23-30 | which error `ParseUint` returns is decided by the leading run of digits: a range error exactly when it denotes 2^64 or more, whatever follows it; a syntax error exactly when the text is empty or a non-digit follows leading digits below 2^64 |
| Text.DecimalStringValue | go/genesis-tools/stakinggenesis/creator.go:270 | the decimal rendering of a number has that number as its value |
| Text.ParseFormatRoundTrip | go/genesis-tools/stakinggenesis/creator.go:270 | parsing the decimal rendering of any 64-bit value gives that value back |
| Text.RenamedKeysLower | go/genesis-tools/stakinggenesis/creator.go:89-97 | every key of a name-normalised table is already lower-case |
| Text.RenamedCaseDistinct | go/genesis-tools/stakinggenesis/creator.go:111-118 | when no two raw names differ only by case, each raw entry survives normalisation under its lower-cased name with its own value |
| Config.NormalizeNames | go/genesis-tools/stakinggenesis/creator.go:81-120 | the loop yields one entry per lower-cased raw name, each holding the value of some raw entry with that name |
| Accounting.Escrowed | go/genesis-tools/stakinggenesis/accounting.go:102-136 | escrowing moves the amount from the delegator's general balance into the delegatee's active pool balance and shares, installs the commission schedule, and leaves every other account unchanged |
| Accounting.EmptyConsistent | go/genesis-tools/stakinggenesis/accounting.go:24-35 | the empty ledger with no delegations and nothing allocated satisfies the accounting invariant |
| Accounting.AddAccountKeepsConsistent | go/genesis-tools/stakinggenesis/accounting.go:48-75 | adding a fresh account with a balance, and adding that balance to the allocated total, keeps the invariant |
| Accounting.EscrowConserves | go/genesis-tools/stakinggenesis/accounting.go:102-119 | escrowing does not change the ledger's total holdings |
| Accounting.EscrowKeepsConsistent | go/genesis-tools/stakinggenesis/accounting.go:82-139 | a successful delegation (both accounts exist, no earlier delegation, enough balance) keeps the invariant |
| Accounting.EscrowKeepsPools | go/genesis-tools/stakinggenesis/accounting.go:108-136 | after a delegation every pool still equals the shares delegated to it, and the schedule is still present exactly when there are delegators |
| Accounting.RecordedElsewhere | go/genesis-tools/stakinggenesis/accounting.go:93-110 | recording a delegation to one account leaves every other account's delegators untouched |
| Accounting.ResidueKeepsConsistent | go/genesis-tools/stakinggenesis/accounting.go:93-106 | the empty delegator map left behind by a delegation that fails for lack of balance does not break the invariant |
| Accounting.MissingHasNoDelegators | go/genesis-tools/stakinggenesis/accounting.go:85-91 | an address that is not in the ledger has no delegators |
| Accounting.AccountingGenesis.constructor | go/genesis-tools/stakinggenesis/accounting.go:24-35 | an empty ledger, no delegations, nothing allocated, the given constants, and the invariant |
| Accounting.AccountingGenesis.PreciseTokens | go/genesis-tools/stakinggenesis/accounting.go:37-41 | a whole-token amount in base units: zero tokens are zero base units, and at a precision of at least 1 the amount never shrinks |
| Accounting.AccountingGenesis.AccountExists | go/genesis-tools/stakinggenesis/accounting.go:77-80 | whether the address has an account; under the invariant an address without one has no delegators |
| Accounting.AccountingGenesis.AddAccount | go/genesis-tools/stakinggenesis/accounting.go:48-80 | a duplicate address is an error that changes nothing; otherwise the account gets precision times the balance, the allocated total grows by that much, delegations are untouched, and the invariant holds |
| Accounting.AccountingGenesis.AddDelegation | go/genesis-tools/stakinggenesis/accounting.go:82-139 | success exactly when both accounts exist, there is no earlier delegation and the balance covers precision times the amount. A missing account, a duplicate or a short balance gives its own error, and the ledger is never changed on error. On success it escrows and records the shares. The allocated total and the invariant are kept |
| Accounting.AccountingGenesis.GetPartialGenesis | go/genesis-tools/stakinggenesis/accounting.go:141-153 | the snapshot has the ledger and delegations and precision times the supply. Its common pool plus the ledger's holdings is the supply; when the ledger holds more, the subtraction error is dropped and the pool stays the whole supply |
| Allocations.ResolveAllocation | go/genesis-tools/stakinggenesis/allocations.go:51-58 | a non-zero amount is found only under the lower-cased name |
| Allocations.Scaled | go/genesis-tools/stakinggenesis/allocations.go:39-45 | exactly the parsable entries, each scaled by the precision with 64-bit wrap-around |
| Allocations.NewGenesisAllocationsFromFile | go/genesis-tools/stakinggenesis/allocations.go:25-48 | loading succeeds exactly when every value parses; the error is that of some unparsable value; on success the table is the scaled entries re-keyed by lower-cased name |
| Allocations.ResolveCaseInsensitive | go/genesis-tools/stakinggenesis/allocations.go:51-53 | names equal up to case resolve to the same amount |
| Allocations.ResolveLowered | go/genesis-tools/stakinggenesis/allocations.go:51-53 | resolving the lower-cased name is the same as resolving the name |
| Allocations.ResolveLoaded | go/genesis-tools/stakinggenesis/allocations.go:39-58 | in a loaded table, a name matching no entry up to case resolves to 0; otherwise it resolves to the scaled value of some entry matching it up to case |
| Allocations.ResolveCaseDistinct | go/genesis-tools/stakinggenesis/allocations.go:39-58 | when no two raw names differ only by case, every raw name resolves to its own scaled value |
| Allocations.ScalingWraps | go/genesis-tools/stakinggenesis/allocations.go:44 | 20 000 000 000 tokens at precision 10^9 wrap to 1 553 255 926 290 448 384 |
| Allocations.ResolveTestEntry | go/genesis-tools/stakinggenesis/allocations_test.go:12-22 | an entry `TEST1: "10000"` at precision 10^9 resolves to 10^13 under both `test1` and `TEST1` |
| Allocations.TestEntryText | go/genesis-tools/stakinggenesis/allocations_test.go:18-22 | the text `10000` parses to 10000, and both spellings of the name lower-case to `test1` |
| GenesisCsv.ParseHumanReadableMeaning | go/genesis-tools/stakinggenesis/creator.go:267-271 | a human-readable number parses exactly when its comma-free text is non-empty, all digits and below 2^64, to that text's value; otherwise a syntax or range error |
| GenesisCsv.CommaIgnored | go/genesis-tools/stakinggenesis/creator.go:267-271 | a comma anywhere does not change the parse |
| GenesisCsv.ParseHumanReadableRoundTrip | go/genesis-tools/stakinggenesis/creator.go:267-271 | the decimal rendering of any 64-bit value parses back to it |
| GenesisCsv.RoleIndex | go/genesis-tools/stakinggenesis/creator.go:198-211 | a recorded column index is the initial one or a header cell carrying that label |
| GenesisCsv.RoleIndexIsLast | go/genesis-tools/stakinggenesis/creator.go:198-211 | the recorded index is the last header cell carrying the label; it is the initial value when no cell carries it |
| GenesisCsv.MappedColumnsMeaning | go/genesis-tools/stakinggenesis/creator.go:197-218 | the header scan sets each of the four role columns and the account columns independently, as their own last-match functions |
| GenesisCsv.LookupStep | go/genesis-tools/stakinggenesis/creator.go:194-196 | adding one account's CSV label to the label lookup keeps the description of the lookup |
| GenesisCsv.LabelLookup | go/genesis-tools/stakinggenesis/creator.go:191-196 | the lookup maps every account's CSV label to the name of some account with that label, and holds no other labels |
| GenesisCsv.LabelLookupUnique | go/genesis-tools/stakinggenesis/creator.go:191-196 | when CSV labels are distinct, the lookup does not depend on the iteration order |
| GenesisCsv.AccountColumnsMeaning | go/genesis-tools/stakinggenesis/creator.go:212-216 | an account gets a column exactly when a header cell that is no role label carries its CSV label; the column is the last such cell; unmatched accounts keep their initial entry |
| GenesisCsv.AccountColumnsFit | go/genesis-tools/stakinggenesis/creator.go:212-216 | every account column lies within the header |
| GenesisCsv.ParseDelegations | go/genesis-tools/stakinggenesis/creator.go:249-257 | the delegations of a row are read exactly when every account cell parses; then there is one amount per account column, that cell's value; otherwise it returns the error of some failing cell |
| GenesisCsv.FirstRejected | go/genesis-tools/stakinggenesis/creator.go:225-263 | the position where processing stops: every earlier row is skipped or kept, and the row there is rejected |
| GenesisCsv.FoldNames | go/genesis-tools/stakinggenesis/creator.go:259-262 | every name the rows add to the table comes from some kept row |
| GenesisCsv.FoldLastWins | go/genesis-tools/stakinggenesis/creator.go:259-262 | a kept row not followed by another kept row of the same name decides that name's entry |
| GenesisCsv.SkippedRows | go/genesis-tools/stakinggenesis/creator.go:226-236 | a row is skipped exactly when its submitted cell is not `TRUE` or its lower-cased name is blank |
| GenesisCsv.KeptRow | go/genesis-tools/stakinggenesis/creator.go:231-262 | a kept row is stored under its lower-cased name. Its funds are 0 unless KYC is `TRUE`, and then they are the funding cell's value. It has one delegation per account column, read from that cell |
| GenesisCsv.RejectedRow | go/genesis-tools/stakinggenesis/creator.go:240-257 | a submitted, named row is rejected exactly when its funding cell (read only under KYC) or some account cell fails to parse |
| GenesisCsv.GenesisCsv.constructor | go/genesis-tools/stakinggenesis/creator.go:163-188 | every role column is its last matching header cell (0 when none), the account columns come from a label lookup, and the allocations are the rows up to the first rejected one applied to an empty table. The errors of both steps are dropped |
| GenesisCsv.GenesisCsv.MapIndices | go/genesis-tools/stakinggenesis/creator.go:190-220 | every role column is its last matching header cell, or unchanged; the account columns come from a label lookup of the accounts; the allocations are untouched |
| GenesisCsv.GenesisCsv.Process | go/genesis-tools/stakinggenesis/creator.go:222-265 | the allocations are the old ones updated by the rows up to the first rejected row, in order. The result is an error exactly when a row is rejected, and that error is the row's error |
| Creator.SeedStep | go/genesis-tools/stakinggenesis/creator.go:327-333 | adding the next seed account at an unused address keeps the addresses distinct and extends the ledger by its account with precision times its amount |
| Creator.SeedClash | go/genesis-tools/stakinggenesis/creator.go:327-333 | a seed account whose address is already in the ledger means the seed addresses are not distinct |
| Creator.DelegatingAreSeeds | go/genesis-tools/stakinggenesis/creator.go:387-395 | every delegator of an entity is a seed account |
| Creator.DelegationsStep | go/genesis-tools/stakinggenesis/creator.go:387-399 | when nothing but a balance can refuse a seed delegation, delegating one more seed account's amount keeps every seed account debited by exactly what the names so far ask of it |
| Creator.DelegationsRefused | go/genesis-tools/stakinggenesis/creator.go:395-398 | when nothing but a balance can refuse a seed delegation, a refused one means the delegations cannot all be afforded |
| Creator.DelegatingStep | go/genesis-tools/stakinggenesis/creator.go:395-398 | one seed delegation extends the record of the recorded shares and, when ready, of what each seed account paid |
| Creator.EntityAccountSetUp | go/genesis-tools/stakinggenesis/creator.go:349-381 | creating the entity's account and then its seed delegations adds only its address, keeps older delegators, changes only delegating seed accounts, puts the entity in `EntityOutcome` on success and, with the seed accounts ready, succeeds exactly when they can afford it, each paying exactly its amount |
| Creator.KeptRound | go/genesis-tools/stakinggenesis/creator.go:348-382 | a round of the entity loop, failed or not, keeps every earlier account with the same delegators and changes only seed accounts |
| Creator.FitNext | go/genesis-tools/stakinggenesis/creator.go:348-382 | when the whole round fits, the next entity's address is still free and its seed accounts can afford its delegations from what they have left |
| Creator.FitStep | go/genesis-tools/stakinggenesis/creator.go:348-382 | a successful round for one more entity keeps the entities at fresh, distinct addresses and every seed account debited by exactly what they ask of it |
| Creator.RoundDone | go/genesis-tools/stakinggenesis/creator.go:346-384 | a loop that went through every entity ends in success with the round's full description |
| Creator.RoundStopped | go/genesis-tools/stakinggenesis/creator.go:346-384 | a loop stopped early, with the earlier accounts kept and a round that could not fit, ends in the failed description |
| Creator.FirstRoundFits | go/genesis-tools/stakinggenesis/creator.go:423-426 | the allocation-table round fits the seed ledger exactly when its entities can be placed next to the seed accounts and no seed account is asked more than its amount |
| Creator.SecondRoundFits | go/genesis-tools/stakinggenesis/creator.go:428-433 | after the first round, the test-only round fits exactly when all allocations fit; without it, all allocations fit once the first round did |
| Creator.SeedsFinal | go/genesis-tools/stakinggenesis/creator.go:423-433 | after both rounds every seed account is debited by exactly what all the allocations ask of it |
| Creator.SeedAffordsAfter | go/genesis-tools/stakinggenesis/creator.go:395 | a seed account holding its amount, debited by a first request, can afford a second exactly when both together stay within its amount |
| Creator.AllocatedPrecise | go/genesis-tools/stakinggenesis/creator.go:404-439 | in base units, the tokens a genesis creates are the seed accounts' amounts plus the entities' funds |
| Creator.EntityFundsPrecise | go/genesis-tools/stakinggenesis/creator.go:423-433 | in base units, the entities' funds are those of the table plus, in a test genesis, those of the test-only entities |
| Creator.AssemblyOutcome | go/genesis-tools/stakinggenesis/creator.go:437-438 | the accountant's snapshot after both rounds is the genesis `AccountingOutcome` describes |
| Creator.OutcomeAfterDelegations | go/genesis-tools/stakinggenesis/creator.go:346-384 | after the self-escrow and the seed delegations, the entity's account, pools and delegators are as `EntityOutcome` describes |
| Creator.SelfEscrowThreshold | go/genesis-tools/stakinggenesis/creator.go:362-376 | without seed delegations: funds up to the minimum balance stay spendable with no self-delegation. Funds above it leave exactly the minimum spendable, and the excess becomes the entity's only delegation and all of its active pool |
| Creator.Precision | go/genesis-tools/stakinggenesis/creator.go:316-317 | the precision is 10^exponent and at least 1 |
| Creator.GenesisCreator.constructor | go/genesis-tools/stakinggenesis/creator.go:305-310 | the creator starts with no entity mappings and the given configuration and allocation table |
| Creator.GenesisCreator.InitializeAccountingGenesis | go/genesis-tools/stakinggenesis/creator.go:315-335 | the accountant gets the configured constants; it fails (with a duplicate-account error) exactly when two seed accounts share an address; on success the ledger is exactly the seed accounts with precision times their amounts |
| Creator.GenesisCreator.CreateSeedAccounts | go/genesis-tools/stakinggenesis/creator.go:327-333 | the seed loop fails exactly when two seed accounts share an address, and otherwise creates exactly their accounts |
| Creator.GenesisCreator.AddEntityMapping | go/genesis-tools/stakinggenesis/creator.go:338-344 | a name already mapped is an error that changes nothing; otherwise the name is mapped to the address |
| Creator.GenesisCreator.MapEntities | go/genesis-tools/stakinggenesis/creator.go:411-421 | every resolved entity is mapped; names mapped before keep their address, since the duplicate error is ignored |
| Creator.GenesisCreator.SetupEntityDelegations | go/genesis-tools/stakinggenesis/creator.go:386-401 | an unknown seed-account name is an error. Only delegations from those seed accounts to this entity are added. On success every non-zero amount is recorded as precision times shares from that account. The allocated total and the invariant are kept |
| Creator.EntityRound | go/genesis-tools/stakinggenesis/creator.go:348-382 | setting up one more entity at a fresh address extends the description of the entities set up so far: earlier accounts kept, only seed accounts changed, and each entity done in `EntityOutcome` at an address that was not in use |
| Creator.GenesisCreator.SetupAccountsForEntities | go/genesis-tools/stakinggenesis/creator.go:346-384 | an unmapped entity or an unknown seed-account name is an error. Earlier accounts keep their delegators and only seed accounts among them change. When the seed accounts exist, the round succeeds exactly when it fits: every entity mapped to an address not in use and not another entity's, only known seed names, and every seed account able to afford all the round asks of it. On success exactly the entities' addresses are added, each set up as `EntityOutcome` says, every seed account is debited by exactly what the round asks of it, and the allocated total grows by the entities' funds |
| Creator.GenesisCreator.SetupEntityAccount | go/genesis-tools/stakinggenesis/creator.go:349-381 | a used address is a duplicate-account error that changes nothing. Otherwise exactly the entity's account is added and other accounts' delegators are untouched; only its delegating seed accounts change; on success the entity is in `EntityOutcome` and the total grows by its funds. With the seed accounts ready, it succeeds exactly when each can afford its amount, and each then pays exactly that amount |
| Creator.GenesisCreator.SetupEntityRound | go/genesis-tools/stakinggenesis/creator.go:349-381 | one pass of the entity loop keeps the earlier accounts; a success extends the loop's description by the entity; a failure, when the seed accounts were ready, means the whole round could not fit |
| Creator.GenesisCreator.CreateEntityAccount | go/genesis-tools/stakinggenesis/creator.go:354-376 | the new account keeps precision times the smaller of funds and minimum balance spendable; funds above the minimum are self-escrowed, which cannot fail |
| Creator.GenesisCreator.DelegateFromSeed | go/genesis-tools/stakinggenesis/creator.go:395-398 | one seed delegation to the entity keeps the record of which delegations were added and the allocated total |
| Creator.GenesisCreator.GenerateAccountingGenesis | go/genesis-tools/stakinggenesis/creator.go:404-439 | succeeds exactly when the seed addresses are distinct and the allocations fit (`MustFail` and its converse): every entity mapped to an address of its own that no seed account has, test-only entities also apart from the table's, only known seed names, and no seed account asked more than its amount. A success holds exactly the seed and entity accounts, every seed account debited by exactly what is asked of it, every entity in `EntityOutcome`, no delegation to a seed account, Consistent pools, the precise supply and the common pool |
| Creator.GenesisCreator.SetupAllocations | go/genesis-tools/stakinggenesis/creator.go:423-433 | both rounds succeed exactly when the allocations fit. On success both rounds' entities are set up at fresh addresses, the earlier accounts' delegators are untouched, every seed account is debited by exactly what both rounds ask of it, and the total grows by the entities' funds |
| Creator.TestRoundKeeps | go/genesis-tools/stakinggenesis/creator.go:428-433 | the test-only round leaves the allocation-table entities as they were set up |
| Creator.GenesisCreator.GenerateGenesis | go/genesis-tools/stakinggenesis/creator.go:441-458 | a parameter-loading failure comes first and changes nothing; otherwise it succeeds exactly when the seed addresses are distinct and the allocations fit, and a success is the genesis `AccountingOutcome` describes, completed with the parameters, token symbol and exponent |
| Creator.OneEntityExample | go/genesis-tools/stakinggenesis/creator.go:362-376 | one entity with 3 tokens, minimum 1, exponent 9, supply 10: 10^9 spendable, 2·10^9 self-escrowed, and a common pool of 7·10^9 |
| Creator.SeedOnlyExample | go/genesis-tools/stakinggenesis/creator.go:404-439 | one seed account of 5 tokens, exponent 0, supply 1000 and no allocations: the seed account keeps its 5 tokens and the common pool is 995 |
| Creator.Create | go/genesis-tools/stakinggenesis/creator.go:287-313 | a parameter failure is passed through. For the allocation table read from the CSV records, it succeeds exactly when the seed addresses are distinct and the allocations fit, and a success holds the genesis `AccountingOutcome` describes, with the configured symbol and exponent |
| LegacyLedger.PrecisionOf | go/genesis-tools/stakinggenesis/ledger.go:44-45 | a negative precision constant is rejected and leaves the constant at 0 |
| LegacyLedger.LegacyGenesisCreator.constructor | go/genesis-tools/stakinggenesis/ledger.go:35-38 | a creator with the options and an empty genesis |
| LegacyLedger.LegacyGenesisCreator.ToStakingQuantity | go/genesis-tools/stakinggenesis/ledger.go:84-100 | a non-negative amount in base units: zero stays zero, and at a precision constant of at least 1 the amount never shrinks (negative amounts panic; see Left out) |
| LegacyLedger.LegacyGenesisCreator.SetLedgerForEntity | go/genesis-tools/stakinggenesis/ledger.go:107-124 | the key's account is set or overwritten: balance and escrow scaled by the precision, with an empty debonding pool; nothing else changes |
| LegacyLedger.LegacyGenesisCreator.SetDelegation | go/genesis-tools/stakinggenesis/ledger.go:126-135 | the delegation from one key to another is set or overwritten with the scaled shares; nothing else changes |
| LegacyLedger.LegacyGenesisCreator.SetupEntity | go/genesis-tools/stakinggenesis/ledger.go:102-105 | the entity's account (balance and escrow, the escrow not taken from the balance) and its self-delegation of the escrow |
| LegacyLedger.LegacyGenesisCreator.SetupFaucet | go/genesis-tools/stakinggenesis/ledger.go:137-154 | no faucet address does nothing. An undecodable address is an error that changes nothing. Otherwise the faucet gets its amount spendable |
| LegacyLedger.LegacyGenesisCreator.CalculateCommonPool | go/genesis-tools/stakinggenesis/ledger.go:156-195 | succeeds exactly when the ledger holds no more than the supply, and sets the common pool to the supply less the holdings. Otherwise it fails and changes nothing |
| LegacyLedger.LegacyGenesisCreator.SetupEntities | go/genesis-tools/stakinggenesis/ledger.go:66-71 | every registered entity gets its default account and its self-delegation, overwriting any account under the same key |
| LegacyLedger.LegacyGenesisCreator.Create | go/genesis-tools/stakinggenesis/ledger.go:40-80 | fails on the parameters, then on the faucet address, then when the built ledger exceeds the supply; an amount is required to be non-negative only once its conversion is reached. On success: the parameters, the precise supply, the expected ledger and self-delegations, and common pool plus holdings equal to the supply |
| LegacyLedger.EntityLedgerHeld | go/genesis-tools/stakinggenesis/ledger.go:102-124 | the entities hold the number of distinct entity keys times (funding + escrow) times the precision |
| LegacyLedger.ExpectedLedgerHeld | go/genesis-tools/stakinggenesis/ledger.go:137-184 | the built ledger holds the entities' total plus the faucet amount, when the faucet's key is no entity's |
| LegacyLedger.TenEntitiesPool | go/genesis-tools/stakinggenesis/ledger_test.go:73-94 | ten entities at 250 funded and 250 escrowed, precision 10, supply 10^10: common pool 99999950000 |
| LegacyLedger.TenEntitiesAndFaucetPool | go/genesis-tools/stakinggenesis/ledger_test.go:96-105 | the same with a 1000000-token faucet: common pool 99989950000 |

## Left out

- File reading, YAML, CSV and JSON decoding: the model takes the decoded values as inputs.
  - The configuration and the allocation file arrive as maps.
  - The CSV sheet arrives as a rectangular sequence of rows.
  - Consensus-parameter loading (`LoadConsensusParameters`, `loadConsensusParameters`) arrives as a `Result`.
  - The faucet's base64 public-key decoding arrives as an `Option`.
- The entity registry (`Entities.All`, `ResolveEntity`, `staking.NewAddress`) is a map from names to addresses or public keys. Address text encoding (`MarshalText`, whose error `generateAccountingGenesis` would return) is not modelled.
- Logging is not modelled.
- `GenesisAccount.UnmarshalYAML` (creator.go:40-77) and the `test_only_outbound_delegations` it parses are not modelled: nothing in the core reads them. A seed account is its address, amount and CSV label.
- Creator.Precision: `math.Pow(10, exponent)` is computed in floating point and converted to `uint64`. The model uses the exact 10^exponent, so it diverges for exponents above 19, where the conversion overflows.
- Creator.Create: `loadGenesisCSV` drops the errors of `mapIndices` and `process`; the model drops them too. It does not model reading an empty CSV file, where `records[0]` would panic: the model requires at least the header row (`Rectangular`).
- LegacyLedger.LegacyGenesisCreator.ToStakingQuantity: a negative `int64` amount makes `toQuantity` panic. The model requires non-negative amounts instead, through the requires of the setters and of `Create`. `Create` requires only the conversions a run reaches: the total supply always, the faucet amount once the parameters load and the faucet key decodes, and the default amounts once the faucet step passes and the registry is non-empty. `quantity.Quantity.Mul` cannot fail on non-negative values.
- LegacyLedger.LegacyGenesisCreator.CalculateCommonPool: the source adds each general balance into a fresh quantity (its lookup in a nil map always misses) and discards it; nothing is stored, so the model has no counterpart.
- Creator.AccountingOutcome: does not state that the genesis holds no empty delegator map. The source never leaves one on success, because an `AddDelegation` that opens a new map either records an edge in it or aborts the run. The model does not carry this fact through the entity loops.
- Text.ToLower: only ASCII letters are lower-cased; Go's Unicode case mapping is not modelled.
- The unused helpers `resolveEntityPublicKey` (ledger.go:197-203), `preciseTokensFromUint64` (accounting.go:43-45) and `All` (creator.go:273-275, a field read) have no members of their own.
