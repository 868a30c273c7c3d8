/** The decimal integer conversion `std::stoi` performs on each `/`-separated
    segment of a face token: `strtol` in base 10 followed by a range check
    against `int`. Also a decimal printer, the reference the conversion is
    proved to invert. */
module Decimal {
  import opened Wrappers
  import opened Ints

  predicate IsDigit(c: char) {
    '0' <= c <= '9'
  }

  /** The characters `isspace` accepts in the "C" locale. */
  predicate IsSpace(c: char) {
    c == ' ' || c == '\t' || c == '\n' || c == '\U{B}' || c == '\U{C}' || c == '\r'
  }

  predicate AllDigits(s: string) {
    forall i | 0 <= i < |s| :: IsDigit(s[i])
  }

  function DigitValue(c: char): (d: nat)
    requires IsDigit(c)
    ensures d < 10
  {
    (c as int) - ('0' as int)
  }

  function DigitChar(d: nat): (c: char)
    requires d < 10
    ensures IsDigit(c) && DigitValue(c) == d
  {
    (('0' as int) + d) as char
  }

  /** The leading white space `strtol` skips is dropped; what is left is a suffix. */
  function SkipSpace(s: string): (r: string)
    ensures |r| <= |s| && r == s[|s| - |r|..]
    ensures |r| > 0 ==> !IsSpace(r[0])
    ensures forall i | 0 <= i < |s| - |r| :: IsSpace(s[i])
  {
    if |s| > 0 && IsSpace(s[0]) then SkipSpace(s[1..]) else s
  }

  /** The longest prefix of decimal digits. */
  function LeadingDigits(s: string): (r: string)
    ensures r <= s
    ensures AllDigits(r)
    ensures |r| < |s| ==> !IsDigit(s[|r|])
  {
    if |s| > 0 && IsDigit(s[0]) then [s[0]] + LeadingDigits(s[1..]) else []
  }

  /** The number a digit string denotes, most significant digit first. */
  function DigitsValue(ds: string): nat
    requires AllDigits(ds)
  {
    if |ds| == 0 then 0 else 10 * DigitsValue(ds[..|ds| - 1]) + DigitValue(ds[|ds| - 1])
  }

  /** `std::stoi(s)` with base 10: `None` stands for the `invalid_argument`
      thrown when no digit follows the optional sign, and for the
      `out_of_range` thrown when the value does not fit in an `int`.
      Characters after the digits are ignored. */
  function Stoi(s: string): (r: Option<Int32>)
    ensures (forall i | 0 <= i < |s| :: !IsDigit(s[i])) ==> r == None
  {
    var t := SkipSpace(s);
    var r := SignedValue(t);
    assert r.Some? ==> IsDigit(s[|s| - |t| + |t| - |Unsigned(t)|]);
    r
  }

  /** The text after an optional leading sign. */
  function Unsigned(t: string): (u: string)
    ensures |u| <= |t| && u == t[|t| - |u|..]
  {
    if |t| > 0 && (t[0] == '-' || t[0] == '+') then t[1..] else t
  }

  /** Conversion once the white space is skipped. */
  function SignedValue(t: string): (r: Option<Int32>)
    ensures r.Some? ==> |Unsigned(t)| > 0 && IsDigit(Unsigned(t)[0])
  {
    var ds := LeadingDigits(Unsigned(t));
    if |ds| == 0 then None
    else
      var n: int := if |t| > 0 && t[0] == '-' then -(DigitsValue(ds) as int) else DigitsValue(ds);
      if InInt32(n) then Some(n) else None
  }

  /** Decimal text of a natural number, without leading zeros. */
  function ShowNat(n: nat): (s: string)
    ensures |s| > 0 && AllDigits(s)
    decreases n
  {
    if n < 10 then [DigitChar(n)] else ShowNat(n / 10) + [DigitChar(n % 10)]
  }

  /** Decimal text of an integer, with a leading `-` when negative. */
  function Show(n: int): (s: string)
    ensures |s| > 0 && (IsDigit(s[0]) || s[0] == '-')
  {
    if n < 0 then "-" + ShowNat(-n) else ShowNat(n)
  }

  lemma {:induction false} DigitsValueShowNat(n: nat)
    ensures DigitsValue(ShowNat(n)) == n
    decreases n
  {
    if n >= 10 {
      var s := ShowNat(n);
      assert s[..|s| - 1] == ShowNat(n / 10);
      DigitsValueShowNat(n / 10);
    }
  }

  lemma {:induction false} LeadingDigitsOfDigits(ds: string, rest: string)
    requires AllDigits(ds)
    requires rest == [] || !IsDigit(rest[0])
    ensures LeadingDigits(ds + rest) == ds
    decreases |ds|
  {
    if |ds| > 0 {
      assert (ds + rest)[1..] == ds[1..] + rest;
      LeadingDigitsOfDigits(ds[1..], rest);
    }
  }

  lemma UnsignedAfterSign(negative: bool, ds: string, rest: string)
    requires |ds| > 0 && AllDigits(ds)
    ensures var t := (if negative then "-" else "") + ds + rest;
            Unsigned(t) == ds + rest && (|t| > 0 && t[0] == '-' <==> negative)
  {
    var t := (if negative then "-" else "") + ds + rest;
    if negative {
      assert t[0] == '-';
      assert t[1..] == ds + rest;
    } else {
      assert t == ds + rest;
      assert IsDigit(t[0]);
    }
  }

  lemma SignedValueOfDigits(t: string, ds: string)
    requires LeadingDigits(Unsigned(t)) == ds && |ds| > 0
    ensures var n: int := if |t| > 0 && t[0] == '-' then -(DigitsValue(ds) as int) else DigitsValue(ds);
            SignedValue(t) == if InInt32(n) then Some(n) else None
  {
  }

  /** Stoi on text that starts with an optional `-`, then the digits `ds`,
      then a non-digit or nothing. */
  lemma StoiOfDigits(negative: bool, ds: string, rest: string)
    requires |ds| > 0 && AllDigits(ds)
    requires rest == [] || !IsDigit(rest[0])
    ensures var n: int := if negative then -(DigitsValue(ds) as int) else DigitsValue(ds);
            Stoi((if negative then "-" else "") + ds + rest) == if InInt32(n) then Some(n) else None
  {
    var t := (if negative then "-" else "") + ds + rest;
    assert SkipSpace(t) == t by {
      assert !IsSpace(t[0]);
    }
    UnsignedAfterSign(negative, ds, rest);
    LeadingDigitsOfDigits(ds, rest);
    SignedValueOfDigits(t, ds);
  }

  /** Converting the printed form of any integer, followed by anything that
      does not start with a digit, gives the integer back when it fits in an
      `int` and fails otherwise. */
  lemma StoiShow(n: int, rest: string)
    requires rest == [] || !IsDigit(rest[0])
    ensures Stoi(Show(n) + rest) == if InInt32(n) then Some(n) else None
  {
    var ds := ShowNat(if n < 0 then -n else n);
    DigitsValueShowNat(if n < 0 then -n else n);
    StoiOfDigits(n < 0, ds, rest);
    assert Show(n) == (if n < 0 then "-" else "") + ds;
  }
}
