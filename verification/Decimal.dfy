/** Decimal text, as written by `std::to_string` and `operator<<` and read by `std::from_chars` and `operator>>`. */
module Decimal {
  import opened Files

  const ZERO := '0' as int

  predicate IsDigit(b: byte) {
    ZERO <= b < ZERO + 10
  }

  ghost predicate AllDigits(s: seq<byte>) {
    forall i :: 0 <= i < |s| ==> IsDigit(s[i])
  }

  function Digits(n: nat): seq<byte> {
    if n < 10 then [ZERO + n] else Digits(n / 10) + [ZERO + n % 10]
  }

  /** The length of the leading run of digits. */
  function DigitRun(s: seq<byte>): (k: nat)
    ensures k <= |s| && AllDigits(s[..k]) && (k < |s| ==> !IsDigit(s[k]))
  {
    if s == [] || !IsDigit(s[0]) then 0
    else
      var k := DigitRun(s[1..]);
      assert s[..1 + k] == [s[0]] + s[1..][..k];
      1 + k
  }

  /** The number written by a digit string. */
  function ValueOf(s: seq<byte>): nat {
    if s == [] then 0 else 10 * ValueOf(s[..|s| - 1]) + DigitValue(s[|s| - 1])
  }

  function DigitValue(b: byte): nat {
    if IsDigit(b) then b - ZERO else 0
  }

  lemma {:induction false} DigitsRoundTrip(n: nat)
    ensures |Digits(n)| >= 1 && AllDigits(Digits(n)) && ValueOf(Digits(n)) == n
  {
    if n >= 10 {
      DigitsRoundTrip(n / 10);
      assert Digits(n)[..|Digits(n)| - 1] == Digits(n / 10);
    } else {
      assert Digits(n)[..0] == [];
    }
  }

  /** A run of digits stops exactly where the digits do. */
  lemma {:induction false} RunStops(a: seq<byte>, b: seq<byte>)
    requires AllDigits(a) && (b != [] ==> !IsDigit(b[0]))
    ensures DigitRun(a + b) == |a|
  {
    if a == [] {
      assert a + b == b;
    } else {
      assert (a + b)[1..] == a[1..] + b;
      RunStops(a[1..], b);
    }
  }

  lemma {:induction false} LengthMonotone(n: nat, m: nat)
    requires n <= m
    ensures |Digits(n)| <= |Digits(m)|
  {
    if n >= 10 {
      LengthMonotone(n / 10, m / 10);
    }
  }

  function Pow10(k: nat): nat {
    if k == 0 then 1 else 10 * Pow10(k - 1)
  }

  lemma {:induction false} LengthIff(n: nat, k: nat)
    requires k >= 1
    ensures |Digits(n)| <= k <==> n < Pow10(k)
  {
    if k == 1 {
      assert Pow10(1) == 10;
      DigitsRoundTrip(n / 10);
    } else if n < 10 {
      PowPositive(k - 1);
    } else {
      LengthIff(n / 10, k - 1);
    }
  }

  lemma {:induction false} PowPositive(k: nat)
    ensures Pow10(k) >= 1
  {
    if k > 0 { PowPositive(k - 1); }
  }

  /** `v` followed by `n` zeros. */
  function Shifted(v: nat, n: nat): nat {
    if n == 0 then v else 10 * Shifted(v, n - 1)
  }

  lemma {:induction false} ShiftedNext(v: nat, n: nat)
    ensures Shifted(v + 1, n) == Shifted(v, n) + Pow10(n)
  {
    if n > 0 { ShiftedNext(v, n - 1); }
  }

  lemma {:induction false} ShiftedMonotone(v: nat, w: nat, n: nat)
    requires v <= w
    ensures Shifted(v, n) <= Shifted(w, n)
  {
    if n > 0 { ShiftedMonotone(v, w, n - 1); }
  }

  lemma {:induction false} ShiftedPower(k: nat, n: nat)
    ensures Shifted(Pow10(k), n) == Pow10(k + n)
  {
    if n > 0 { ShiftedPower(k, n - 1); }
  }

  lemma {:induction false} ValueAppend(a: seq<byte>, b: seq<byte>)
    ensures ValueOf(a + b) == Shifted(ValueOf(a), |b|) + ValueOf(b)
  {
    if b == [] {
      assert a + b == a;
    } else {
      assert (a + b)[..|a + b| - 1] == a + b[..|b| - 1];
      ValueAppend(a, b[..|b| - 1]);
    }
  }

  lemma {:induction false} ValueBound(s: seq<byte>)
    ensures ValueOf(s) < Pow10(|s|)
  {
    if s != [] {
      ValueBound(s[..|s| - 1]);
    }
  }
}
