/** The error conditions the genesis tools report, one constructor per kind. */
module Errors {
  import opened Staking

  datatype Error =
    /** `quantity.Sub` would have gone below zero. */
    | InsufficientBalance
    | DuplicateAccount(address: Address)
    | MissingAccount(address: Address)
    | DuplicateDelegation(from: Address, to: Address)
    /** `strconv.ErrSyntax` for the given text. */
    | NumSyntax(text: string)
    /** `strconv.ErrRange` for the given text. */
    | NumRange(text: string)
    /** An allocation names an entity with no address mapping. */
    | UnmappedEntity(name: string)
    /** A delegation names a seed account that the configuration does not define. */
    | UnknownSeedAccount(name: string)
    | DuplicateEntityMapping(name: string)
    /** The faucet key text could not be decoded. */
    | InvalidFaucetKey(text: string)
    /** An error surfaced by a collaborator outside the model (file loading, decoding). */
    | External(reason: string)
}
