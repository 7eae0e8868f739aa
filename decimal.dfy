/**
 * Decimal digit strings and signed decimal numerals, the textual numbers a
 * camera descriptor is made of, with their exact values.
 */
module Decimal {
  import opened Base

  function DigitValue(c: char): (d: nat)
    requires IsDigit(c)
    ensures d < 10
  {
    c as int - '0' as int
  }

  function DigitChar(d: nat): (c: char)
    requires d < 10
    ensures IsDigit(c) && DigitValue(c) == d
  {
    ('0' as int + d) as char
  }

  /** The value of a digit string, most significant digit first; the empty string is worth 0. */
  function Value(ds: string): nat
    requires AllDigits(ds)
  {
    if ds == [] then 0 else Value(ds[..|ds| - 1]) * 10 + DigitValue(ds[|ds| - 1])
  }

  /** Appending digits shifts the value left: the positional law of decimal notation. */
  lemma {:induction false} ValueConcat(a: string, b: string)
    requires AllDigits(a) && AllDigits(b)
    ensures AllDigits(a + b)
    ensures Value(a + b) == Value(a) * Pow10(|b|) + Value(b)
  {
    if b == [] {
      assert a + b == a;
    } else {
      var b' := b[..|b| - 1];
      assert (a + b)[..|a + b| - 1] == a + b';
      ValueConcat(a, b');
      var d := DigitValue(b[|b| - 1]);
      assert Value(a + b) == Value(a + b') * 10 + d;
      assert Value(b) == Value(b') * 10 + d;
      ShiftDigit(Value(a), Pow10(|b'|), Value(b'), d);
    }
  }

  lemma ShiftDigit(va: nat, p: nat, vb: nat, d: nat)
    ensures (va * p + vb) * 10 + d == va * (10 * p) + (vb * 10 + d)
  {
  }

  /** A string of `k` zero digits. */
  function Zeros(k: nat): (z: string)
    ensures |z| == k && AllDigits(z)
    ensures forall i :: 0 <= i < k ==> z[i] == '0'
  {
    if k == 0 then [] else Zeros(k - 1) + ['0']
  }

  lemma {:induction false} ValueZeros(k: nat)
    ensures Value(Zeros(k)) == 0
  {
    if k > 0 {
      assert Zeros(k)[..k - 1] == Zeros(k - 1);
      ValueZeros(k - 1);
    }
  }

  /** Leading zeros do not change the value of a digit string. */
  lemma LeadingZeros(k: nat, ds: string)
    requires AllDigits(ds)
    ensures AllDigits(Zeros(k) + ds) && Value(Zeros(k) + ds) == Value(ds)
  {
    ValueConcat(Zeros(k), ds);
    ValueZeros(k);
  }

  /** Trailing zeros multiply the value by a power of ten. */
  lemma TrailingZerosScale(ds: string, k: nat)
    requires AllDigits(ds)
    ensures AllDigits(ds + Zeros(k)) && Value(ds + Zeros(k)) == Value(ds) * Pow10(k)
  {
    ValueConcat(ds, Zeros(k));
    ValueZeros(k);
  }

  /** A string of `k` digits is worth less than 10^k. */
  lemma {:induction false} ValueBound(ds: string)
    requires AllDigits(ds)
    ensures Value(ds) < Pow10(|ds|)
  {
    if ds != [] {
      ValueBound(ds[..|ds| - 1]);
    }
  }

  /** The decimal representation of `n` with no leading zero (the digits of `n` in ECMAScript's toFixed). */
  function Digits(n: nat): (ds: string)
    ensures |ds| >= 1 && AllDigits(ds) && Value(ds) == n
    ensures |ds| > 1 ==> ds[0] != '0'
  {
    if n < 10 then [DigitChar(n)]
    else
      var ds := Digits(n / 10) + [DigitChar(n % 10)];
      assert ds[..|ds| - 1] == Digits(n / 10);
      ds
  }

  /** A number below 10^k has at most k digits. */
  lemma {:induction false} DigitsLength(n: nat, k: nat)
    requires 1 <= k && n < Pow10(k)
    ensures |Digits(n)| <= k
  {
    if n >= 10 {
      assert k >= 2;
      DigitsLength(n / 10, k - 1);
    }
  }

  /** `v` times 10^-e, exactly. */
  function ScaleDown(v: nat, e: nat): (r: real)
    ensures r >= 0.0
  {
    if e == 0 then v as real else ScaleDown(v, e - 1) / 10.0
  }

  lemma {:induction false} ScaleDownDivides(v: nat, e: nat)
    ensures ScaleDown(v, e) == v as real / Pow10(e) as real
  {
    if e > 0 {
      ScaleDownDivides(v, e - 1);
      var P := Pow10(e - 1) as real;
      assert Pow10(e) as real == 10.0 * P;
      assert (v as real / P) / 10.0 == v as real / (10.0 * P);
    }
  }

  /** The `.digits` part of a numeral; nothing when there are no fraction digits. */
  function PointFraction(fraction: string): string {
    if fraction == [] then "" else "." + fraction
  }

  /**
   * A signed decimal numeral `-?\d+(\.\d+)?`; an empty `fraction` stands
   * for a numeral without a fractional part.
   */
  datatype Numeral = Numeral(negative: bool, whole: string, fraction: string) {

    predicate WellFormed() {
      |whole| >= 1 && AllDigits(whole) && AllDigits(fraction)
    }

    /** The numeral as written. */
    function Text(): string {
      Sign() + (whole + PointFraction(fraction))
    }

    function Sign(): string {
      if negative then "-" else ""
    }

    /**
     * The exact value `parseFloat` reads from the numeral: all its digits read
     * as one integer, scaled down by one power of ten per fraction digit.
     */
    function ToReal(): (r: real)
      requires WellFormed()
    {
      var magnitude := ScaleDown(Value(whole + fraction), |fraction|);
      if negative then -magnitude else magnitude
    }
  }
}
