// The case-insensitive allocation table: entity name to an amount in base
// units, loaded from an already decoded name -> decimal-text mapping.
module Allocations {
  import opened Wrappers
  import opened Quantity
  import opened Errors
  import opened Text

  /** `BasicGenesisAllocations`: lower-cased entity names and their amounts. */
  datatype BasicGenesisAllocations = BasicGenesisAllocations(allocations: map<string, Uint64>)

  /** `ResolveAllocation`: the amount stored under the lower-cased name, or 0. */
  function ResolveAllocation(a: BasicGenesisAllocations, name: string): (q: Uint64)
    ensures q != 0 ==> ToLower(name) in a.allocations
  {
    var searchName := ToLower(name);
    if searchName in a.allocations then a.allocations[searchName] else 0
  }

  /** The raw entries whose text parses, each scaled by `precision` in 64 bits. */
  function Scaled(raw: map<string, string>, precision: Uint64): (m: map<string, Uint64>)
    ensures m.Keys == (set k | k in raw && ParseUint(raw[k]).Success?)
    ensures forall k | k in m :: m[k] == MulUint64(ParseUint(raw[k]).value, precision)
  {
    map k | k in raw && ParseUint(raw[k]).Success? :: MulUint64(ParseUint(raw[k]).value, precision)
  }

  /**
   * `NewGenesisAllocationsFromFile`, after decoding: every value is parsed
   * as a base-10 64-bit number, scaled by `precision` with wrap-around, and
   * stored under the lower-cased name; a value that does not parse aborts
   * the load.
   */
  method NewGenesisAllocationsFromFile(raw: map<string, string>, precision: Uint64) returns (r: Result<BasicGenesisAllocations, Error>)
    ensures r.Success? <==> forall k | k in raw :: ParseUint(raw[k]).Success?
    ensures r.Success? ==> Renamed(r.value.allocations, Scaled(raw, precision), raw.Keys)
    ensures r.Failure? ==> exists k :: k in raw && ParseUint(raw[k]) == Failure(r.error)
  {
    var allocations: map<string, Uint64> := map[];
    var remaining := raw.Keys;
    ghost var done: set<string> := {};
    ghost var scaled := Scaled(raw, precision);
    while remaining != {}
      invariant remaining + done == raw.Keys && remaining !! done
      invariant done <= scaled.Keys
      invariant Renamed(allocations, scaled, done)
      decreases remaining
    {
      var entityName :| entityName in remaining;
      var allocationInt := ParseUint(raw[entityName]);
      if allocationInt.Failure? {
        return Failure(allocationInt.error);
      }
      var allocation := MulUint64(allocationInt.value, precision);
      RenameStep(allocations, scaled, done, entityName);
      allocations := allocations[ToLower(entityName) := allocation];
      remaining := remaining - {entityName};
      done := done + {entityName};
    }
    return Success(BasicGenesisAllocations(allocations));
  }

  /** Names that agree after lower-casing resolve to the same amount. */
  lemma ResolveCaseInsensitive(a: BasicGenesisAllocations, name1: string, name2: string)
    requires ToLower(name1) == ToLower(name2)
    ensures ResolveAllocation(a, name1) == ResolveAllocation(a, name2)
  {
  }

  /** Resolving the lower-cased name is resolving the name. */
  lemma {:induction false} ResolveLowered(a: BasicGenesisAllocations, name: string)
    ensures ResolveAllocation(a, ToLower(name)) == ResolveAllocation(a, name)
  {
    ToLowerIdempotent(name);
  }

  /**
   * What a loaded table resolves a name to: the scaled value of some raw
   * entry whose name matches it up to case, or 0 when no raw entry does.
   */
  lemma ResolveLoaded(raw: map<string, string>, precision: Uint64, a: BasicGenesisAllocations, name: string)
    requires raw.Keys <= Scaled(raw, precision).Keys
    requires Renamed(a.allocations, Scaled(raw, precision), raw.Keys)
    ensures (forall k | k in raw :: ToLower(k) != ToLower(name)) ==> ResolveAllocation(a, name) == 0
    ensures (exists k :: k in raw && ToLower(k) == ToLower(name)) ==>
      exists k :: k in raw && ToLower(k) == ToLower(name) && ResolveAllocation(a, name) == Scaled(raw, precision)[k]
  {
    if exists k :: k in raw && ToLower(k) == ToLower(name) {
      var k :| k in raw && ToLower(k) == ToLower(name);
      assert ToLower(name) in a.allocations;
    }
  }

  /** When no two raw names differ only in case, each raw name resolves to its own scaled value. */
  lemma ResolveCaseDistinct(raw: map<string, string>, precision: Uint64, a: BasicGenesisAllocations, k: string)
    requires forall k1, k2 | k1 in raw && k2 in raw && ToLower(k1) == ToLower(k2) :: k1 == k2
    requires raw.Keys <= Scaled(raw, precision).Keys
    requires Renamed(a.allocations, Scaled(raw, precision), raw.Keys)
    requires k in raw
    ensures ResolveAllocation(a, k) == MulUint64(ParseUint(raw[k]).value, precision)
  {
    var j :| j in raw && ToLower(j) == ToLower(k) && Scaled(raw, precision)[j] == a.allocations[ToLower(k)];
  }

  /** The scaling is 64-bit: twenty billion tokens at nine decimals wrap around. */
  lemma ScalingWraps(raw: map<string, string>, name: string, tokens: Uint64, precision: Uint64)
    requires name in raw && raw[name] == DecimalString(tokens)
    requires tokens == 20_000_000_000 && precision == 1_000_000_000
    ensures name in Scaled(raw, precision) && Scaled(raw, precision)[name] == 1_553_255_926_290_448_384
  {
    ParseFormatRoundTrip(tokens);
    assert tokens * precision == 20_000_000_000_000_000_000;
    assert 20_000_000_000_000_000_000 % TwoTo64 == 1_553_255_926_290_448_384;
  }

  /** A table loaded from `TEST1: 10000` at nine decimals answers `test1` and `TEST1` alike. */
  lemma ResolveTestEntry(raw: map<string, string>, precision: Uint64, a: BasicGenesisAllocations)
    requires raw == map["TEST1" := "10000"] && precision == 1_000_000_000
    requires raw.Keys <= Scaled(raw, precision).Keys
    requires Renamed(a.allocations, Scaled(raw, precision), raw.Keys)
    ensures ResolveAllocation(a, "test1") == 10_000_000_000_000
    ensures ResolveAllocation(a, "TEST1") == 10_000_000_000_000
  {
    TestEntryText();
    ResolveCaseDistinct(raw, precision, a, "TEST1");
    ResolveCaseInsensitive(a, "TEST1", "test1");
  }

  lemma TestEntryText()
    ensures ParseUint("10000") == Success(10000)
    ensures ToLower("TEST1") == "test1" && ToLower("test1") == "test1"
  {
    assert ToLower("1") == "1";
    assert ToLower("T1") == "t1";
  }
}
