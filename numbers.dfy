/**
 * The ECMAScript number operations the pipeline applies to the fixed-width
 * fields: `parseInt(s, 10)`, `parseFloat(s)` and `x.toFixed(2)`, together
 * with NaN and `===`.
 *
 * Money is kept as a whole number of cents. The legacy value field carries
 * two decimals, so rounding to two decimals (what `toFixed(2)` does) is the
 * identity on it; the round trip `ParseFloat(ToFixed(m)) == m` below is the
 * fact that makes the source's per-step `parseFloat(total.toFixed(2))`
 * exact in this model.
 */
module Numbers {
  import opened Strings
  import Wrappers

  /** A number produced by `parseInt(..., 10)`: an integer, or NaN when no digit was found. */
  datatype Num = Int(n: int) | NaN

  /** `a === b` on numbers: NaN is equal to nothing, not even to itself. */
  predicate StrictEquals(a: Num, b: Num) {
    a.Int? && b.Int? && a.n == b.n
  }

  /** A number produced by `parseFloat`: an amount in cents, or NaN. */
  datatype Money = Cents(cents: int) | NotANumber

  /** `a + b` on amounts: NaN absorbs everything. */
  function Add(a: Money, b: Money): (r: Money)
    ensures r.Cents? <==> a.Cents? && b.Cents?
    ensures r.Cents? ==> r.cents == a.cents + b.cents
  {
    if a.Cents? && b.Cents? then Cents(a.cents + b.cents) else NotANumber
  }

  predicate IsDigit(c: char) {
    '0' <= c <= '9'
  }

  predicate AllDigits(s: string) {
    forall i :: 0 <= i < |s| ==> IsDigit(s[i])
  }

  function DigitValue(c: char): (d: nat)
    requires IsDigit(c)
    ensures d < 10
  {
    (c as int) - ('0' as int)
  }

  function Digit(d: nat): (c: char)
    requires d < 10
    ensures IsDigit(c) && DigitValue(c) == d
  {
    (('0' as int) + d) as char
  }

  /** The longest prefix of `s` made of decimal digits. */
  function LeadingDigits(s: string): (ds: string)
    ensures |ds| <= |s| && ds == s[..|ds|] && AllDigits(ds)
    ensures |ds| < |s| ==> !IsDigit(s[|ds|])
  {
    if |s| > 0 && IsDigit(s[0]) then [s[0]] + LeadingDigits(s[1..]) else []
  }

  /** What follows the leading digits of `s`. */
  function AfterDigits(s: string): (r: string)
    ensures |r| <= |s|
    ensures r != [] ==> !IsDigit(r[0])
  {
    if |s| > 0 && IsDigit(s[0]) then AfterDigits(s[1..]) else s
  }

  /** The value of a string of decimal digits, most significant first. */
  function DigitsValue(ds: string): nat
    requires AllDigits(ds)
  {
    if ds == [] then 0 else 10 * DigitsValue(ds[..|ds| - 1]) + DigitValue(ds[|ds| - 1])
  }

  /** The decimal representation of `n`, without leading zeros. */
  function NatToString(n: nat): (s: string)
    ensures s != [] && AllDigits(s)
    ensures s[0] == '0' ==> n == 0
    ensures |s| > 1 ==> s[0] != '0'
  {
    if n < 10 then [Digit(n)] else NatToString(n / 10) + [Digit(n % 10)]
  }

  /**
   * `parseInt(s, 10)`: leading white space is skipped one character at a
   * time; then an optional sign and the leading digits; NaN without a digit.
   */
  function ParseInt(s: string): Num {
    if |s| > 0 && IsSpace(s[0]) then ParseInt(s[1..])
    else
      var negative := |s| > 0 && s[0] == '-';
      var body := if |s| > 0 && (s[0] == '-' || s[0] == '+') then s[1..] else s;
      var ds := LeadingDigits(body);
      if ds == [] then NaN
      else
        var v: int := DigitsValue(ds);
        Int(if negative then -v else v)
  }

  /** The cents named by the digits after the decimal point (further digits are dropped). */
  function FractionCents(fraction: string): (c: nat)
    requires AllDigits(fraction)
    ensures c < 100
  {
    (if |fraction| >= 1 then 10 * DigitValue(fraction[0]) else 0)
    + (if |fraction| >= 2 then DigitValue(fraction[1]) else 0)
  }

  /**
   * The unsigned decimal at the start of `body`: integer digits and an
   * optional point followed by fraction digits, in cents; None when neither
   * part has a digit.
   */
  function ParseUnsignedCents(body: string): Wrappers.Option<nat> {
    var whole := LeadingDigits(body);
    var rest := AfterDigits(body);
    var fraction := if |rest| > 0 && rest[0] == '.' then LeadingDigits(rest[1..]) else [];
    if whole == [] && fraction == [] then Wrappers.None
    else Wrappers.Some(DigitsValue(whole) * 100 + FractionCents(fraction))
  }

  /** `parseFloat(s)` on decimal notation: leading white space skipped, an optional sign, then an unsigned decimal. */
  function ParseFloat(s: string): Money {
    if |s| > 0 && IsSpace(s[0]) then ParseFloat(s[1..])
    else
      var negative := |s| > 0 && s[0] == '-';
      var body := if |s| > 0 && (s[0] == '-' || s[0] == '+') then s[1..] else s;
      match ParseUnsignedCents(body)
      case None => NotANumber
      case Some(c) =>
        var v: int := c;
        Cents(if negative then -v else v)
  }

  /** Non-negative cents written as integer part, point and exactly two decimals. */
  function FixedUnsigned(a: nat): string {
    NatToString(a / 100) + "." + [Digit(a % 100 / 10), Digit(a % 10)]
  }

  /** `x.toFixed(2)`: sign, integer part, point and exactly two decimals; "NaN" for NaN. */
  function ToFixed(m: Money): string {
    match m
    case NotANumber => "NaN"
    case Cents(c) =>
      if c < 0 then "-" + FixedUnsigned(-c) else FixedUnsigned(c)
  }

  // ---------------------------------------------------------------------------
  // Lemmas

  /** Reading back the digits written for `n` gives `n`. */
  lemma {:induction false} NatToStringValue(n: nat)
    ensures DigitsValue(NatToString(n)) == n
  {
    if n >= 10 {
      var s := NatToString(n);
      assert s[..|s| - 1] == NatToString(n / 10);
      NatToStringValue(n / 10);
    }
  }

  /** Leading zeros do not change the value of a digit string. */
  lemma {:induction false} LeadingZerosValue(zeros: string, ds: string)
    requires forall i :: 0 <= i < |zeros| ==> zeros[i] == '0'
    requires AllDigits(ds)
    ensures AllDigits(zeros + ds) && DigitsValue(zeros + ds) == DigitsValue(ds)
  {
    var s := zeros + ds;
    assert AllDigits(s) by {
      forall i | 0 <= i < |s| ensures IsDigit(s[i]) {
        if i < |zeros| { assert s[i] == zeros[i]; } else { assert s[i] == ds[i - |zeros|]; }
      }
    }
    if ds == [] {
      if zeros != [] {
        assert s[..|s| - 1] == zeros[..|zeros| - 1] + [];
        LeadingZerosValue(zeros[..|zeros| - 1], []);
      }
    } else {
      assert s[..|s| - 1] == zeros + ds[..|ds| - 1];
      LeadingZerosValue(zeros, ds[..|ds| - 1]);
    }
  }

  /** The leading digits of a digit string followed by a non-digit are that digit string. */
  lemma {:induction false} LeadingDigitsOf(ds: string, rest: string)
    requires AllDigits(ds)
    requires rest != [] ==> !IsDigit(rest[0])
    ensures LeadingDigits(ds + rest) == ds && AfterDigits(ds + rest) == rest
  {
    if ds != [] {
      assert (ds + rest)[1..] == ds[1..] + rest;
      LeadingDigitsOf(ds[1..], rest);
    }
  }

  /** `parseInt` reads back any digit string that is not followed by a further digit. */
  lemma ParseIntDigits(ds: string, rest: string)
    requires ds != [] && AllDigits(ds)
    requires rest != [] ==> !IsDigit(rest[0])
    ensures ParseInt(ds + rest) == Int(DigitsValue(ds))
  {
    assert (ds + rest)[0] == ds[0];
    LeadingDigitsOf(ds, rest);
  }

  /** `parseInt` of a blank string is NaN. */
  lemma {:induction false} ParseIntBlank(s: string)
    requires AllSpace(s)
    ensures ParseInt(s) == NaN
  {
    if s != [] {
      assert IsSpace(s[0]);
      assert AllSpace(s[1..]) by {
        forall i | 0 <= i < |s| - 1 ensures IsSpace(s[1..][i]) {
          assert s[1..][i] == s[i + 1];
        }
      }
      ParseIntBlank(s[1..]);
    }
  }

  /** The unsigned part written by `toFixed(2)` reads back as the same number of cents. */
  lemma FixedUnsignedRoundTrip(a: nat)
    ensures ParseUnsignedCents(FixedUnsigned(a)) == Wrappers.Some(a)
  {
    var q := NatToString(a / 100);
    var f := [Digit(a % 100 / 10), Digit(a % 10)];
    var tail := "." + f;
    var body := FixedUnsigned(a);
    assert body == q + tail;
    LeadingDigitsOf(q, tail);
    assert tail[1..] == f + [];
    LeadingDigitsOf(f, []);
    NatToStringValue(a / 100);
    assert FractionCents(f) == a % 100;
  }

  /**
   * `parseFloat(x.toFixed(2))`, the re-rounding step applied to running
   * totals: on an amount already in cents it gives the amount back.
   */
  method RoundToCents(m: Money) returns (r: Money)
    ensures r == m
  {
    r := ParseFloat(ToFixed(m));
    ToFixedRoundTrip(m);
  }

  /** `toFixed(2)` of an amount ends in a point and exactly two digits, after at least one digit. */
  lemma ToFixedShape(m: Money)
    requires m.Cents?
    ensures var s := ToFixed(m);
      |s| >= 4 && s[|s| - 3] == '.' && AllDigits(s[|s| - 2..]) && IsDigit(s[|s| - 4])
  {
    var a: nat := if m.cents < 0 then -m.cents else m.cents;
    var q := NatToString(a / 100);
    var u := FixedUnsigned(a);
    assert u == q + "." + [Digit(a % 100 / 10), Digit(a % 10)];
    assert u[|u| - 4] == q[|q| - 1];
    var s := ToFixed(m);
    assert s == u || s == "-" + u;
    assert s[|s| - 2..] == u[|u| - 2..];
  }

  /** Writing an amount with `toFixed(2)` and reading it back with `parseFloat` loses nothing. */
  lemma ToFixedRoundTrip(m: Money)
    ensures ParseFloat(ToFixed(m)) == m
  {
    if m.Cents? {
      var c := m.cents;
      var s := ToFixed(m);
      if c < 0 {
        assert s == "-" + FixedUnsigned(-c) && s[0] == '-';
        SignedRoundTrip(s, -c);
      } else {
        assert s == FixedUnsigned(c) && IsDigit(s[0]);
        SignedRoundTrip(s, c);
      }
    } else {
      ParseFloatOfNaN();
    }
  }

  /** `parseFloat("NaN")` is NaN: there is no digit to read. */
  lemma ParseFloatOfNaN()
    ensures ParseFloat("NaN") == NotANumber
  {
    var s := "NaN";
    assert !IsSpace(s[0]);
    assert LeadingDigits(s) == [];
  }

  /** The signed form written by `toFixed(2)` reads back, sign included. */
  lemma SignedRoundTrip(s: string, a: nat)
    requires s == FixedUnsigned(a) || s == "-" + FixedUnsigned(a)
    ensures ParseFloat(s) == Cents(if s[0] == '-' then -(a as int) else a)
  {
    var body := FixedUnsigned(a);
    assert s[0] == '-' || s[0] == body[0];
    assert (if s[0] == '-' then s[1..] else s) == body;
    FixedUnsignedRoundTrip(a);
  }

  /** `parseFloat` ignores leading white space, so a right-aligned amount reads as the amount. */
  lemma {:induction false} ParseFloatPadded(pad: string, s: string)
    requires AllSpace(pad)
    ensures ParseFloat(pad + s) == ParseFloat(s)
  {
    if pad != [] {
      assert (pad + s)[0] == pad[0] && (pad + s)[1..] == pad[1..] + s;
      assert AllSpace(pad[1..]) by {
        forall i | 0 <= i < |pad| - 1 ensures IsSpace(pad[1..][i]) {
          assert pad[1..][i] == pad[i + 1];
        }
      }
      ParseFloatPadded(pad[1..], s);
    } else {
      assert pad + s == s;
    }
  }
}
