/**
 * The staking-ledger vocabulary of oasis-core that the genesis tools fill in:
 * accounts with a general balance and escrow share pools, delegations
 * (shares one account holds in another's active pool), commission schedules,
 * and the staking genesis document itself.
 */
module Staking {
  import opened Quantity

  /** `staking.Address`: an opaque identifier compared byte by byte. */
  datatype Address = Address(bytes: seq<bv8>)

  /** `signature.PublicKey`, the ledger key of the older builder. */
  datatype PublicKey = PublicKey(bytes: seq<bv8>)

  datatype SharePool = SharePool(balance: nat, totalShares: nat)

  datatype CommissionRateStep = CommissionRateStep(start: nat, rate: nat)

  datatype CommissionRateBoundStep = CommissionRateBoundStep(start: nat, rateMin: nat, rateMax: nat)

  datatype CommissionSchedule = CommissionSchedule(rates: seq<CommissionRateStep>, bounds: seq<CommissionRateBoundStep>)

  datatype EscrowAccount = EscrowAccount(active: SharePool, debonding: SharePool, commissionSchedule: CommissionSchedule)

  datatype GeneralAccount = GeneralAccount(balance: nat, nonce: nat)

  datatype Account = Account(general: GeneralAccount, escrow: EscrowAccount)

  datatype Delegation = Delegation(shares: nat)

  /** Consensus parameters are attached to the document verbatim and never read. */
  datatype ConsensusParameters = ConsensusParameters(encoded: seq<bv8>)

  /** `staking.Genesis`, keyed by `K` (addresses, or public keys in the older builder). */
  datatype Genesis<K> = Genesis(
    parameters: ConsensusParameters,
    tokenSymbol: string,
    tokenValueExponent: nat,
    totalSupply: nat,
    commonPool: nat,
    ledger: map<K, Account>,
    delegations: map<K, map<K, Delegation>>)

  const EmptyPool := SharePool(0, 0)

  /** The zero commission schedule of a freshly created account. */
  const NoSchedule := CommissionSchedule([], [])

  /** An account holding `general` spendable tokens and `escrow` tokens issued 1:1 as active shares. */
  function FundedAccount(general: nat, escrow: nat): Account
  {
    Account(GeneralAccount(general, 0), EscrowAccount(SharePool(escrow, escrow), EmptyPool, NoSchedule))
  }

  /** Everything an account holds: its general balance and both escrow pools. */
  function Held(a: Account): nat
  {
    a.general.balance + a.escrow.active.balance + a.escrow.debonding.balance
  }

  /** The tokens held across the whole ledger; the common pool is what supply leaves over. */
  ghost function TotalHeld<K>(ledger: map<K, Account>): nat
    decreases ledger.Keys
  {
    if ledger == map[] then 0
    else
      var k := Pick(ledger);
      assert (ledger - {k}).Keys < ledger.Keys;
      Held(ledger[k]) + TotalHeld(ledger - {k})
  }

  function SharesByDelegator<K>(incoming: map<K, Delegation>): (s: map<K, nat>)
    ensures s.Keys == incoming.Keys
  {
    map k | k in incoming :: incoming[k].shares
  }

  /** The shares held by all delegators of one account. */
  ghost function TotalShares<K>(incoming: map<K, Delegation>): nat
  {
    Sum(SharesByDelegator(incoming))
  }

  /** The ledger total does not depend on which account it happens to count first. */
  lemma {:induction false} TotalHeldRemove<K>(ledger: map<K, Account>, k: K)
    requires k in ledger
    ensures TotalHeld(ledger) == Held(ledger[k]) + TotalHeld(ledger - {k})
    decreases ledger.Keys
  {
    var j := Pick(ledger);
    if j != k {
      assert (ledger - {j}).Keys < ledger.Keys;
      TotalHeldRemove(ledger - {j}, k);
      assert (ledger - {k}).Keys < ledger.Keys;
      TotalHeldRemove(ledger - {k}, j);
      assert ledger - {j} - {k} == ledger - {k} - {j};
    }
  }

  /** Writing one account changes the ledger total by the difference of holdings. */
  lemma TotalHeldUpdate<K>(ledger: map<K, Account>, k: K, a: Account)
    ensures TotalHeld(ledger[k := a]) + (if k in ledger then Held(ledger[k]) else 0)
         == TotalHeld(ledger) + Held(a)
  {
    TotalHeldRemove(ledger[k := a], k);
    assert ledger[k := a] - {k} == ledger - {k};
    if k in ledger {
      TotalHeldRemove(ledger, k);
    } else {
      assert ledger - {k} == ledger;
    }
  }

  /** Counting one more account adds its holdings. */
  lemma TotalHeldRestrictAdd<K>(ledger: map<K, Account>, done: set<K>, k: K)
    requires k in ledger && k !in done
    ensures TotalHeld(Restrict(ledger, done + {k})) == TotalHeld(Restrict(ledger, done)) + Held(ledger[k])
  {
    assert Restrict(ledger, done + {k}) == Restrict(ledger, done)[k := ledger[k]];
    TotalHeldUpdate(Restrict(ledger, done), k, ledger[k]);
  }

  lemma MulSucc(c: nat, n: nat)
    ensures c * (n + 1) == c * n + c
  {
  }

  /** A ledger whose every account holds `c` holds `c` times its number of accounts. */
  lemma {:induction false} TotalHeldConstant<K>(ledger: map<K, Account>, c: nat)
    requires forall k | k in ledger :: Held(ledger[k]) == c
    ensures TotalHeld(ledger) == c * |ledger.Keys|
    decreases ledger.Keys
  {
    if ledger == map[] {
      assert ledger.Keys == {};
    } else {
      var k := Pick(ledger);
      var rest := ledger - {k};
      TotalHeldRemove(ledger, k);
      TotalHeldConstant(rest, c);
      assert ledger.Keys == rest.Keys + {k} && k !in rest.Keys;
      MulSucc(c, |rest.Keys|);
    }
  }

  /** Recording one delegation changes the delegators' total by the difference of shares. */
  lemma TotalSharesUpdate<K>(incoming: map<K, Delegation>, k: K, d: Delegation)
    ensures TotalShares(incoming[k := d]) + (if k in incoming then incoming[k].shares else 0)
         == TotalShares(incoming) + d.shares
  {
    assert SharesByDelegator(incoming[k := d]) == SharesByDelegator(incoming)[k := d.shares];
    SumUpdate(SharesByDelegator(incoming), k, d.shares);
  }

  /** Nobody has delegated to an account with no recorded delegators. */
  lemma TotalSharesEmpty<K>(incoming: map<K, Delegation>)
    requires incoming == map[]
    ensures TotalShares(incoming) == 0
  {
    assert SharesByDelegator(incoming) == map[];
  }
}
