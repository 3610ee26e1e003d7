/**
 * The parts of Go's `strings` and `strconv` packages the genesis tools rely
 * on: lower-casing, removal of a character, and `strconv.ParseUint(s, 10, 64)`.
 */
module Text {
  import opened Wrappers
  import opened Quantity
  import opened Errors

  /** Lower-casing of one character (letters A to Z only). */
  function LowerChar(c: char): char
  {
    if 'A' <= c <= 'Z' then (c as int - 'A' as int + 'a' as int) as char else c
  }

  /** `strings.ToLower`, restricted to the ASCII letters. */
  function ToLower(s: string): (r: string)
    ensures |r| == |s|
    decreases |s|
  {
    if s == [] then [] else [LowerChar(s[0])] + ToLower(s[1..])
  }

  lemma {:induction false} ToLowerAt(s: string, i: nat)
    requires i < |s|
    ensures ToLower(s)[i] == LowerChar(s[i])
    decreases |s|
  {
    if i > 0 {
      ToLowerAt(s[1..], i - 1);
    }
  }

  /** Lower-casing twice is lower-casing once, so a normalised name is its own key. */
  lemma {:induction false} ToLowerIdempotent(s: string)
    ensures ToLower(ToLower(s)) == ToLower(s)
    decreases |s|
  {
    if s != [] {
      var t := ToLower(s);
      assert t[1..] == ToLower(s[1..]);
      ToLowerIdempotent(s[1..]);
    }
  }

  /** `strings.ReplaceAll(s, [c], "")`. */
  function RemoveChar(s: string, c: char): string
    decreases |s|
  {
    if s == [] then [] else (if s[0] == c then [] else [s[0]]) + RemoveChar(s[1..], c)
  }

  lemma {:induction false} RemoveCharConcat(a: string, b: string, c: char)
    ensures RemoveChar(a + b, c) == RemoveChar(a, c) + RemoveChar(b, c)
    decreases |a|
  {
    if a != [] {
      assert (a + b)[1..] == a[1..] + b;
      RemoveCharConcat(a[1..], b, c);
    } else {
      assert a + b == b;
    }
  }

  lemma {:induction false} RemoveCharAbsent(s: string, c: char)
    requires c !in s
    ensures RemoveChar(s, c) == s
    decreases |s|
  {
    if s != [] {
      RemoveCharAbsent(s[1..], c);
    }
  }

  lemma {:induction false} RemoveCharRemoves(s: string, c: char)
    ensures c !in RemoveChar(s, c)
    decreases |s|
  {
    if s != [] {
      RemoveCharRemoves(s[1..], c);
    }
  }

  predicate IsDigit(c: char)
  {
    '0' <= c <= '9'
  }

  function DigitValue(c: char): (d: nat)
    requires IsDigit(c)
    ensures d < 10
  {
    c as int - '0' as int
  }

  predicate AllDigits(s: string)
  {
    forall i | 0 <= i < |s| :: IsDigit(s[i])
  }

  function Pow10(k: nat): (p: nat)
    ensures p >= 1
  {
    if k == 0 then 1 else 10 * Pow10(k - 1)
  }

  /** The number a string of decimal digits denotes, read from its last digit. */
  function DecimalValue(s: string): nat
    requires AllDigits(s)
    decreases |s|
  {
    if s == [] then 0 else DecimalValue(s[..|s| - 1]) * 10 + DigitValue(s[|s| - 1])
  }

  lemma AllDigitsConcat(a: string, b: string)
    requires AllDigits(a) && AllDigits(b)
    ensures AllDigits(a + b)
  {
    forall i | 0 <= i < |a + b| ensures IsDigit((a + b)[i]) {
      if i < |a| { assert (a + b)[i] == a[i]; } else { assert (a + b)[i] == b[i - |a|]; }
    }
  }

  lemma {:induction false} DecimalValueConcat(a: string, b: string)
    requires AllDigits(a) && AllDigits(b)
    ensures AllDigits(a + b)
    ensures DecimalValue(a + b) == DecimalValue(a) * Pow10(|b|) + DecimalValue(b)
    decreases |b|
  {
    AllDigitsConcat(a, b);
    if b == [] {
      assert a + b == a;
    } else {
      var b' := b[..|b| - 1];
      assert (a + b)[..|a + b| - 1] == a + b';
      DecimalValueConcat(a, b');
      ShiftStep(DecimalValue(a + b), DecimalValue(a + b'), DecimalValue(a), Pow10(|b'|),
                DecimalValue(b'), DecimalValue(b), Pow10(|b|), DigitValue(b[|b| - 1]));
    }
  }

  /** Appending digit `d` to both `prefix` and its low part `low` shifts the high part `high` by one place. */
  lemma ShiftStep(whole: nat, prefix: nat, high: nat, p: nat, low: nat, low': nat, p': nat, d: nat)
    requires whole == prefix * 10 + d && prefix == high * p + low
    requires low' == low * 10 + d && p' == 10 * p
    ensures whole == high * p' + low'
  {
  }

  /** `strconv.ParseUint(s, 10, 64)`: digits only, at least one, below 2^64. */
  function ParseUint(s: string): Result<Uint64, Error>
  {
    if s == [] then Failure(NumSyntax(s)) else Accumulate(s, 0, s)
  }

  /**
   * The digit loop of `strconv.ParseUint`: a non-digit is a syntax error and,
   * digit by digit, an accumulated value reaching 2^64 is a range error.
   */
  function Accumulate(rest: string, n: Uint64, s: string): Result<Uint64, Error>
    decreases |rest|
  {
    if rest == [] then Success(n)
    else if !IsDigit(rest[0]) then Failure(NumSyntax(s))
    else if n * 10 + DigitValue(rest[0]) >= TwoTo64 then Failure(NumRange(s))
    else Accumulate(rest[1..], n * 10 + DigitValue(rest[0]), s)
  }

  lemma {:induction false} AccumulateMeaning(rest: string, n: Uint64, s: string)
    ensures var r := Accumulate(rest, n, s);
      && (r.Success? <==> AllDigits(rest) && n * Pow10(|rest|) + DecimalValue(rest) < TwoTo64)
      && (r.Success? ==> r.value == n * Pow10(|rest|) + DecimalValue(rest))
      && (r.Failure? ==> r.error == NumSyntax(s) || r.error == NumRange(s))
      && (r.Failure? && AllDigits(rest) ==> r.error == NumRange(s))
    decreases |rest|
  {
    if rest != [] {
      var t := rest[1..];
      assert rest == [rest[0]] + t;
      if IsDigit(rest[0]) {
        var d := DigitValue(rest[0]);
        var n1 := n * 10 + d;
        if AllDigits(rest) {
          assert AllDigits(t);
          assert AllDigits([rest[0]]);
          DecimalValueConcat([rest[0]], t);
          assert DecimalValue([rest[0]]) == d by {
            assert [rest[0]][..0] == [];
          }
          var p := Pow10(|t|);
          assert Pow10(|rest|) == 10 * p;
          assert DecimalValue(rest) == d * p + DecimalValue(t);
          FoldStep(n, d, p, DecimalValue(t));
        } else {
          assert !AllDigits(t) by {
            var i :| 0 <= i < |rest| && !IsDigit(rest[i]);
            assert t[i - 1] == rest[i];
          }
        }
        if n1 < TwoTo64 {
          AccumulateMeaning(t, n1, s);
        }
      }
    }
  }

  lemma FoldStep(n: nat, d: nat, p: nat, v: nat)
    requires p >= 1
    ensures n * (10 * p) + (d * p + v) == (n * 10 + d) * p + v
    ensures n * 10 + d <= (n * 10 + d) * p + v
  {
  }

  /** What `strconv.ParseUint(s, 10, 64)` accepts, and the value it returns. */
  lemma ParseUintMeaning(s: string)
    ensures ParseUint(s).Success? <==> s != [] && AllDigits(s) && DecimalValue(s) < TwoTo64
    ensures ParseUint(s).Success? ==> ParseUint(s).value == DecimalValue(s)
    ensures ParseUint(s).Failure? ==> ParseUint(s).error in {NumSyntax(s), NumRange(s)}
    ensures s != [] && AllDigits(s) && DecimalValue(s) >= TwoTo64 ==> ParseUint(s) == Failure(NumRange(s))
  {
    if s != [] {
      AccumulateMeaning(s, 0, s);
    }
  }

  /** The length of the run of digits `s` starts with. */
  function DigitRun(s: string): (k: nat)
    ensures k <= |s| && AllDigits(s[..k])
    ensures k < |s| ==> !IsDigit(s[k])
  {
    if s == [] || !IsDigit(s[0]) then 0
    else
      var k' := DigitRun(s[1..]);
      assert s[..1 + k'] == [s[0]] + s[1..][..k'];
      1 + k'
  }

  /**
   * Which error the digit loop returns: it stops at the first non-digit or
   * at the first digit that takes the value to 2^64, so the error is a
   * range error exactly when the leading digits already reach 2^64, and a
   * syntax error exactly when a non-digit follows leading digits that do not.
   */
  lemma {:induction false} AccumulateError(rest: string, n: Uint64, s: string)
    ensures var k := DigitRun(rest);
      var v := n * Pow10(k) + DecimalValue(rest[..k]);
      && (Accumulate(rest, n, s) == Failure(NumRange(s)) <==> v >= TwoTo64)
      && (Accumulate(rest, n, s) == Failure(NumSyntax(s)) <==> k < |rest| && v < TwoTo64)
    decreases |rest|
  {
    if rest != [] && IsDigit(rest[0]) {
      var t := rest[1..];
      var k' := DigitRun(t);
      var d := DigitValue(rest[0]);
      assert rest[..1 + k'] == [rest[0]] + t[..k'];
      assert AllDigits([rest[0]]);
      DecimalValueConcat([rest[0]], t[..k']);
      assert DecimalValue([rest[0]]) == d by {
        assert [rest[0]][..0] == [];
      }
      FoldStep(n, d, Pow10(k'), DecimalValue(t[..k']));
      if n * 10 + d < TwoTo64 {
        AccumulateError(t, n * 10 + d, s);
      }
    }
  }

  /**
   * `ParseUint` decides its error at the first digit that overflows or the
   * first non-digit, whichever comes first: a range error exactly when the
   * leading digits of `s` denote 2^64 or more (whatever follows them), a
   * syntax error exactly when `s` is empty or a non-digit follows leading
   * digits below 2^64.
   */
  lemma ParseUintError(s: string)
    ensures var k := DigitRun(s);
      && (ParseUint(s) == Failure(NumRange(s)) <==> DecimalValue(s[..k]) >= TwoTo64)
      && (ParseUint(s) == Failure(NumSyntax(s)) <==> s == [] || (k < |s| && DecimalValue(s[..k]) < TwoTo64))
  {
    if s != [] {
      AccumulateError(s, 0, s);
    }
  }

  function DigitChar(d: nat): (c: char)
    requires d < 10
    ensures IsDigit(c) && DigitValue(c) == d
  {
    ('0' as int + d) as char
  }

  /** `strconv.FormatUint(n, 10)`: the shortest decimal text of `n`. */
  function DecimalString(n: nat): (s: string)
    ensures s != [] && AllDigits(s)
  {
    if n < 10 then [DigitChar(n)] else DecimalString(n / 10) + [DigitChar(n % 10)]
  }

  lemma {:induction false} DecimalStringValue(n: nat)
    ensures DecimalValue(DecimalString(n)) == n
  {
    var s := DecimalString(n);
    if n < 10 {
      assert s[..0] == [];
    } else {
      assert s[..|s| - 1] == DecimalString(n / 10);
      DecimalStringValue(n / 10);
    }
  }

  /** Formatting and parsing are inverse on the `uint64` range. */
  lemma ParseFormatRoundTrip(n: Uint64)
    ensures ParseUint(DecimalString(n)) == Success(n)
  {
    DecimalStringValue(n);
    ParseUintMeaning(DecimalString(n));
  }

  /**
   * `table` results from re-keying the entries of `raw` named in `keys` by
   * their lower-cased names, in some order: one entry per lower-cased name,
   * holding the value of some raw entry with that name.
   */
  ghost predicate Renamed<V>(table: map<string, V>, raw: map<string, V>, keys: set<string>)
    requires keys <= raw.Keys
  {
    && table.Keys == (set k | k in keys :: ToLower(k))
    && forall n | n in table :: exists k :: k in keys && ToLower(k) == n && raw[k] == table[n]
  }

  /** Storing one more raw entry under its lower-cased name keeps the description. */
  lemma RenameStep<V>(table: map<string, V>, raw: map<string, V>, done: set<string>, k: string)
    requires done <= raw.Keys && k in raw
    requires Renamed(table, raw, done)
    ensures Renamed(table[ToLower(k) := raw[k]], raw, done + {k})
  {
    var table' := table[ToLower(k) := raw[k]];
    forall n | n in table'
      ensures exists j :: j in done + {k} && ToLower(j) == n && raw[j] == table'[n]
    {
      if n == ToLower(k) {
        assert k in done + {k};
      } else {
        var j :| j in done && ToLower(j) == n && raw[j] == table[n];
        assert j in done + {k};
      }
    }
    assert table'.Keys == (set j | j in done + {k} :: ToLower(j));
  }

  /** Every key of a normalised table is already lower-case. */
  lemma RenamedKeysLower<V>(table: map<string, V>, raw: map<string, V>, n: string)
    requires Renamed(table, raw, raw.Keys)
    requires n in table
    ensures ToLower(n) == n
  {
    var k :| k in raw && ToLower(k) == n;
    ToLowerIdempotent(k);
  }

  /** A name that differs from no other raw name up to case keeps its value. */
  lemma RenamedCaseDistinct<V>(table: map<string, V>, raw: map<string, V>, k: string)
    requires forall k1, k2 | k1 in raw && k2 in raw && ToLower(k1) == ToLower(k2) :: k1 == k2
    requires Renamed(table, raw, raw.Keys)
    requires k in raw
    ensures ToLower(k) in table && table[ToLower(k)] == raw[k]
  {
    var j :| j in raw && ToLower(j) == ToLower(k) && raw[j] == table[ToLower(k)];
  }
}
