/**
 * Token quantities. The source uses oasis-core's arbitrary-precision
 * `quantity.Quantity`; here a quantity is an unbounded `nat` whose
 * subtraction fails instead of going negative, and a few 64-bit helpers
 * model the places where the source computes in Go's `uint64`.
 */
module Quantity {
  import opened Wrappers

  const TwoTo64: nat := 0x1_0000_0000_0000_0000

  /** Go's `uint64`. */
  type Uint64 = x: nat | x < TwoTo64

  /** `quantity.Sub`: succeeds exactly when the result is not negative. */
  function Sub(q: nat, n: nat): (r: Option<nat>)
    ensures r.Some? <==> n <= q
    ensures r.Some? ==> r.value + n == q
  {
    if n <= q then Some(q - n) else None
  }

  /** Multiplication of two `uint64` values, which wraps around modulo 2^64. */
  function MulUint64(a: Uint64, b: Uint64): (r: Uint64)
    ensures a * b < TwoTo64 ==> r == a * b
    ensures (a * b - r) % TwoTo64 == 0
  {
    (a * b) % TwoTo64
  }

  /** Some key of a non-empty map. */
  ghost function Pick<K, V>(m: map<K, V>): (k: K)
    requires m != map[]
    ensures k in m
  {
    var k :| k in m; k
  }

  /** The sum of the values of a finite map, in no particular order. */
  ghost function Sum<K>(m: map<K, nat>): nat
    decreases m.Keys
  {
    if m == map[] then 0
    else
      var k := Pick(m);
      assert (m - {k}).Keys < m.Keys;
      m[k] + Sum(m - {k})
  }

  /** The entries of `m` whose keys lie in `keys`. */
  function Restrict<K, V>(m: map<K, V>, keys: set<K>): (r: map<K, V>)
    ensures r.Keys == m.Keys * keys
    ensures forall k | k in r :: r[k] == m[k]
  {
    map k | k in m && k in keys :: m[k]
  }

  /** Sum does not depend on which key it happens to pick first. */
  lemma {:induction false} SumRemove<K>(m: map<K, nat>, k: K)
    requires k in m
    ensures Sum(m) == m[k] + Sum(m - {k})
    decreases m.Keys
  {
    var j := Pick(m);
    if j != k {
      assert (m - {j}).Keys < m.Keys;
      SumRemove(m - {j}, k);
      assert (m - {k}).Keys < m.Keys;
      SumRemove(m - {k}, j);
      assert m - {j} - {k} == m - {k} - {j};
    }
  }

  /** Overwriting or inserting one entry changes the sum by the difference. */
  lemma SumUpdate<K>(m: map<K, nat>, k: K, v: nat)
    ensures Sum(m[k := v]) + (if k in m then m[k] else 0) == Sum(m) + v
  {
    SumRemove(m[k := v], k);
    assert m[k := v] - {k} == m - {k};
    if k in m {
      SumRemove(m, k);
    } else {
      assert m - {k} == m;
    }
  }

  /** The sum of `f` over the values of a finite map, in no particular order. */
  ghost function SumOf<K, V>(m: map<K, V>, f: V -> nat): nat
    decreases m.Keys
  {
    if m == map[] then 0
    else
      var k := Pick(m);
      assert (m - {k}).Keys < m.Keys;
      f(m[k]) + SumOf(m - {k}, f)
  }

  /** SumOf does not depend on which key it happens to pick first. */
  lemma {:induction false} SumOfRemove<K, V>(m: map<K, V>, f: V -> nat, k: K)
    requires k in m
    ensures SumOf(m, f) == f(m[k]) + SumOf(m - {k}, f)
    decreases m.Keys
  {
    var j := Pick(m);
    if j != k {
      assert (m - {j}).Keys < m.Keys;
      SumOfRemove(m - {j}, f, k);
      assert (m - {k}).Keys < m.Keys;
      SumOfRemove(m - {k}, f, j);
      assert m - {j} - {k} == m - {k} - {j};
    }
  }

  /** Taking one more key into a restriction adds that key's term. */
  lemma SumOfRestrictAdd<K, V>(m: map<K, V>, f: V -> nat, keys: set<K>, k: K)
    requires k in m && k !in keys
    ensures SumOf(Restrict(m, keys + {k}), f) == SumOf(Restrict(m, keys), f) + f(m[k])
  {
    var r := Restrict(m, keys + {k});
    SumOfRemove(r, f, k);
    assert r - {k} == Restrict(m, keys);
  }

  /** A restriction sums to no more than the whole map. */
  lemma {:induction false} SumOfRestrictBound<K, V>(m: map<K, V>, f: V -> nat, keys: set<K>)
    ensures SumOf(Restrict(m, keys), f) <= SumOf(m, f)
    decreases m.Keys
  {
    if m == map[] {
      assert Restrict(m, keys) == map[];
    } else {
      var k := Pick(m);
      assert (m - {k}).Keys < m.Keys;
      SumOfRestrictBound(m - {k}, f, keys);
      if k in keys {
        SumOfRemove(Restrict(m, keys), f, k);
        assert Restrict(m, keys) - {k} == Restrict(m - {k}, keys);
      } else {
        assert Restrict(m, keys) == Restrict(m - {k}, keys);
      }
    }
  }

  lemma MulAdd(c: nat, x: nat, y: nat)
    ensures c * (x + y) == c * x + c * y
  {
  }

  /** Restricting to every key of the map gives the map back. */
  lemma RestrictAll<K, V>(m: map<K, V>, keys: set<K>)
    requires m.Keys <= keys
    ensures Restrict(m, keys) == m
  {
  }
}
