/**
 * Python's `int()` applied to a cell's text: surrounding white space is
 * ignored, and an optional sign is followed by one or more decimal digits.
 */
module Integers {
  import opened Wrappers
  import opened Strings

  predicate IsDigit(c: char) {
    '0' <= c <= '9'
  }

  predicate AllDigits(s: string) {
    forall k | 0 <= k < |s| :: IsDigit(s[k])
  }

  /** The number a run of decimal digits denotes, most significant first. */
  function DigitsValue(s: string): nat
    requires AllDigits(s)
    decreases |s|
  {
    if s == [] then 0
    else DigitsValue(s[..|s| - 1]) * 10 + (s[|s| - 1] as int - '0' as int)
  }

  /**
   * The most digits `int()` converts from decimal text, leading zeros
   * included and the sign not: the default of `sys.get_int_max_str_digits()`
   * since CPython 3.11. Longer text raises `ValueError`.
   */
  const MaxStrDigits: nat := 4300

  /** An optional sign followed by one to `MaxStrDigits` decimal digits. */
  predicate IntegerText(t: string) {
    || (0 < |t| <= MaxStrDigits && AllDigits(t))
    || (1 < |t| <= MaxStrDigits + 1 && (t[0] == '-' || t[0] == '+') && AllDigits(t[1..]))
  }

  /**
   * The white space `int()` skips around a number: what `str.strip()` removes
   * except the information separators U+001C to U+001F, which `int()` keeps
   * and then rejects.
   */
  predicate IsIntSpace(c: char) {
    IsSpace(c) && !('\U{1C}' <= c <= '\U{1F}')
  }

  predicate AllIntSpace(s: string) {
    forall k | 0 <= k < |s| :: IsIntSpace(s[k])
  }

  /**
   * `int(s)` on a string: `None` where Python raises `ValueError`.
   * A cell parses exactly when it is an optional sign and one to
   * `MaxStrDigits` digits, surrounded by white space that `int()` skips; only a minus sign gives a
   * negative number.
   */
  function ParseInt(s: string): (r: Option<int>)
    ensures r.Some? <==> AllIntSpace(Leading(s)) && AllIntSpace(Trailing(s)) && IntegerText(Trim(s))
    ensures Trim(s) == [] ==> r == None
    ensures r.Some? && r.value < 0 ==> Trim(s)[0] == '-'
  {
    if AllIntSpace(Leading(s)) && AllIntSpace(Trailing(s)) then ParseTrimmed(Trim(s)) else None
  }

  /** `int()` once the surrounding spaces are gone. */
  function ParseTrimmed(t: string): (r: Option<int>)
    ensures r.Some? <==> IntegerText(t)
    ensures r.Some? && r.value < 0 ==> t[0] == '-'
  {
    if |t| > 0 && (t[0] == '-' || t[0] == '+') then
      var digits := t[1..];
      if 0 < |digits| <= MaxStrDigits && AllDigits(digits) then
        Some(if t[0] == '-' then -(DigitsValue(digits) as int) else DigitsValue(digits))
      else
        None
    else if 0 < |t| <= MaxStrDigits && AllDigits(t) then
      Some(DigitsValue(t))
    else
      None
  }

  /** The decimal spelling of a natural number, without leading zeros. */
  function NatDigits(n: nat): (r: string)
    ensures |r| > 0 && AllDigits(r)
    ensures n > 0 ==> r[0] != '0'
    decreases n
  {
    if n < 10 then ['0' + n as char]
    else NatDigits(n / 10) + ['0' + (n % 10) as char]
  }

  /** The way a spreadsheet cell shows an integer. */
  function Decimal(n: int): string {
    if n < 0 then "-" + NatDigits(-n) else NatDigits(n)
  }

  lemma {:induction false} NatDigitsValue(n: nat)
    ensures DigitsValue(NatDigits(n)) == n
    decreases n
  {
    if n >= 10 {
      var d := NatDigits(n);
      assert d[..|d| - 1] == NatDigits(n / 10);
      NatDigitsValue(n / 10);
    }
  }

  /** `n` is written with no more digits than `int()` converts. */
  predicate DecimalFits(n: int) {
    |NatDigits(if n < 0 then -n else n)| <= MaxStrDigits
  }

  /** The decimal form of a number that fits carries no padding and parses back to it. */
  lemma {:induction false} ParseDecimal(n: int)
    requires DecimalFits(n)
    ensures Unpadded(Decimal(n))
    ensures ParseTrimmed(Decimal(n)) == Some(n)
  {
    var d := Decimal(n);
    if n < 0 {
      var m := NatDigits(-n);
      assert d[1..] == m;
      assert d[|d| - 1] == m[|m| - 1];
      NatDigitsValue(-n);
    } else {
      NatDigitsValue(n);
    }
  }

  /** Any integer text, padded with white space `int()` skips, parses as the bare text does. */
  lemma ParsePadded(a: string, w: string, b: string)
    requires AllIntSpace(a) && AllIntSpace(b) && IntegerText(w)
    ensures ParseInt(a + w + b) == ParseTrimmed(w)
  {
    assert AllSpace(a) && AllSpace(b);
    assert !IsSpace(w[0]) && !IsSpace(w[|w| - 1]);
    TrimOfPadded(a, w, b);
  }

  /** An information separator next to the number makes `int()` fail. */
  lemma ParseRejectsSeparator(a: string, w: string, b: string)
    requires AllSpace(a) && AllSpace(b) && IntegerText(w)
    requires !AllIntSpace(a) || !AllIntSpace(b)
    ensures ParseInt(a + w + b) == None
  {
    assert !IsSpace(w[0]) && !IsSpace(w[|w| - 1]);
    TrimOfPadded(a, w, b);
  }

  /** More than `MaxStrDigits` digits make `int()` fail, whatever number they spell. */
  lemma ParseRejectsLongDigits(a: string, sign: string, d: string, b: string)
    requires AllIntSpace(a) && AllIntSpace(b)
    requires sign == "" || sign == "+" || sign == "-"
    requires AllDigits(d) && |d| > MaxStrDigits
    ensures ParseInt(a + (sign + d) + b) == None
  {
    var w := sign + d;
    assert w[0] == (if sign == "" then d[0] else sign[0]);
    assert w[|w| - 1] == d[|d| - 1];
    assert AllSpace(a) && AllSpace(b);
    TrimOfPadded(a, w, b);
    assert !IntegerText(w) by {
      if sign != "" {
        assert w[1..] == d;
      }
    }
  }

  /** Seven written with 4300 leading zeros, 4301 digits in all, is rejected. */
  lemma LongIdentifierSample()
    ensures ParseInt(Zeros(MaxStrDigits) + "7") == None
  {
    var d := Zeros(MaxStrDigits) + "7";
    assert AllDigits(d);
    ParseRejectsLongDigits([], [], d, []);
    assert [] + ([] + d) + [] == d;
  }

  /** "\U{1C}7" and "7\U{1F}" are rejected, although `strip()` would remove the separator. */
  lemma SeparatorSamples()
    ensures ParseInt("\U{1C}7") == None
    ensures ParseInt("7\U{1F}") == None
  {
    assert "\U{1C}7" == "\U{1C}" + "7" + "";
    assert "7\U{1F}" == "" + "7" + "\U{1F}";
    assert !IsIntSpace("\U{1C}"[0]) && !IsIntSpace("\U{1F}"[0]);
    ParseRejectsSeparator("\U{1C}", "7", "");
    ParseRejectsSeparator("", "7", "\U{1F}");
  }

  /** `z` zero digits. */
  function Zeros(z: nat): (r: string)
    ensures |r| == z && AllDigits(r)
  {
    seq(z, _ => '0')
  }

  lemma {:induction false} LeadingZeroValue(d: string)
    requires AllDigits(d)
    ensures AllDigits(['0'] + d) && DigitsValue(['0'] + d) == DigitsValue(d)
    decreases |d|
  {
    var e := ['0'] + d;
    if d == [] {
      assert e[..|e| - 1] == [];
    } else {
      assert e[..|e| - 1] == ['0'] + d[..|d| - 1];
      assert e[|e| - 1] == d[|d| - 1];
      LeadingZeroValue(d[..|d| - 1]);
    }
  }

  /** Leading zeros do not change the number a run of digits denotes. */
  lemma {:induction false} LeadingZerosValue(z: nat, d: string)
    requires AllDigits(d)
    ensures AllDigits(Zeros(z) + d) && DigitsValue(Zeros(z) + d) == DigitsValue(d)
    decreases z
  {
    if z > 0 {
      assert Zeros(z) == ['0'] + Zeros(z - 1);
      assert Zeros(z) + d == ['0'] + (Zeros(z - 1) + d);
      LeadingZerosValue(z - 1, d);
      LeadingZeroValue(Zeros(z - 1) + d);
    } else {
      assert Zeros(z) + d == d;
    }
  }

  /**
   * A cell denotes the number it writes: with any padding `int()` skips, an
   * optional sign and leading zeros before the digits of `n`, and no more
   * than `MaxStrDigits` digits in all, it parses to `n`, negated under a
   * minus sign.
   */
  lemma ParseSpelling(a: string, sign: string, z: nat, n: nat, b: string)
    requires AllIntSpace(a) && AllIntSpace(b)
    requires sign == "" || sign == "+" || sign == "-"
    requires z + |NatDigits(n)| <= MaxStrDigits
    ensures ParseInt(a + (sign + Zeros(z) + NatDigits(n)) + b) == Some(if sign == "-" then -(n as int) else n as int)
  {
    var w := sign + Zeros(z) + NatDigits(n);
    ZeroPaddedValue(sign, z, n);
    ParsePadded(a, w, b);
  }

  /** Leading zeros after the sign leave the value of the digits of `n` unchanged. */
  lemma ZeroPaddedValue(sign: string, z: nat, n: nat)
    requires sign == "" || sign == "+" || sign == "-"
    requires z + |NatDigits(n)| <= MaxStrDigits
    ensures IntegerText(sign + Zeros(z) + NatDigits(n))
    ensures ParseTrimmed(sign + Zeros(z) + NatDigits(n)) == Some(if sign == "-" then -(n as int) else n as int)
  {
    var digits := Zeros(z) + NatDigits(n);
    assert sign + Zeros(z) + NatDigits(n) == sign + digits;
    LeadingZerosValue(z, NatDigits(n));
    NatDigitsValue(n);
    ParseSigned(sign, digits);
  }

  /** A sign followed by digits is integer text with the signed value of the digits. */
  lemma ParseSigned(sign: string, digits: string)
    requires sign == "" || sign == "+" || sign == "-"
    requires 0 < |digits| <= MaxStrDigits && AllDigits(digits)
    ensures IntegerText(sign + digits)
    ensures ParseTrimmed(sign + digits)
      == Some(if sign == "-" then -(DigitsValue(digits) as int) else DigitsValue(digits) as int)
  {
    var w := sign + digits;
    if sign == "" {
      assert w == digits;
    } else {
      assert w[0] == sign[0] && w[1..] == digits;
    }
  }

  /**
   * A cell that shows the decimal form of `n`, padded with white space
   * `int()` skips, parses back to exactly `n` when its digits fit.
   */
  lemma {:induction false} ParsePaddedDecimal(a: string, n: int, b: string)
    requires AllIntSpace(a) && AllIntSpace(b) && DecimalFits(n)
    ensures ParseInt(a + Decimal(n) + b) == Some(n)
  {
    ParseDecimal(n);
    ParsePadded(a, Decimal(n), b);
  }
}
