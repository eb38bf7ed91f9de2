/**
 * Reading a metafield's raw text as a number, as `parseFloat(value) || 0`
 * does in the re-pricing action.
 *
 * `parseFloat` reads the longest prefix of its argument (after leading white
 * space) that spells a decimal number and ignores the rest; when no digit can
 * be read it yields NaN. `|| 0` then turns NaN (and zero) into 0. The model
 * covers the forms `[sign] digits [. digits]` and `[sign] . digits`.
 */
module NumberParse {
  import opened Wrappers

  predicate IsDigit(c: char) {
    '0' <= c <= '9'
  }

  /** The white space `parseFloat` skips before a number (the ASCII part and NBSP/BOM). */
  predicate IsSpace(c: char) {
    c == ' ' || c == '\t' || c == '\n' || c == '\r' ||
    c == '\U{B}' || c == '\U{C}' || c == '\U{A0}' || c == '\U{FEFF}'
  }

  predicate AllDigits(d: string) {
    forall i :: 0 <= i < |d| ==> IsDigit(d[i])
  }

  /** `s` without its leading white space. */
  function TrimStart(s: string): (t: string)
    ensures |t| <= |s| && t == s[|s| - |t|..]
    ensures t == [] || !IsSpace(t[0])
    ensures forall i :: 0 <= i < |s| - |t| ==> IsSpace(s[i])
  {
    if |s| > 0 && IsSpace(s[0]) then TrimStart(s[1..]) else s
  }

  /** The length of the run of decimal digits that `s` starts with. */
  function DigitRun(s: string): (n: nat)
    ensures n <= |s| && AllDigits(s[..n])
    ensures n < |s| ==> !IsDigit(s[n])
  {
    if |s| > 0 && IsDigit(s[0]) then
      var n := 1 + DigitRun(s[1..]);
      assert s[..n] == [s[0]] + s[1..][..n - 1];
      n
    else 0
  }

  /** The value of a string of decimal digits, most significant digit first. */
  function DigitsValue(d: string): nat
    requires AllDigits(d)
  {
    if d == [] then 0
    else 10 * DigitsValue(d[..|d| - 1]) + (d[|d| - 1] as int - '0' as int)
  }

  function Pow10(n: nat): (r: nat)
    ensures r >= 1
  {
    if n == 0 then 1 else 10 * Pow10(n - 1)
  }

  /** The decimal digits after a leading '.', or none. */
  function FractionDigits(s: string): (f: string)
    ensures AllDigits(f)
  {
    if |s| > 0 && s[0] == '.' then s[1..][..DigitRun(s[1..])] else ""
  }

  /** `t` without the one sign character it may start with. */
  function DropSign(t: string): (u: string)
    ensures u == t || (|t| > 0 && u == t[1..])
  {
    if |t| > 0 && (t[0] == '-' || t[0] == '+') then t[1..] else t
  }

  /** The value of the decimal number with integer digits `whole` and fraction digits `fraction`. */
  function DecimalValue(whole: string, fraction: string): (x: real)
    requires AllDigits(whole) && AllDigits(fraction)
    ensures x >= 0.0
  {
    DigitsValue(whole) as real + DigitsValue(fraction) as real / Pow10(|fraction|) as real
  }

  /** The value of `digits [. digits]` or `. digits` at the start of `u`, or `None` when no digit is read. */
  function ParseMagnitude(u: string): (r: Option<real>)
    ensures r.Some? ==> r.value >= 0.0
  {
    var n := DigitRun(u);
    var frac := FractionDigits(u[n..]);
    if n == 0 && frac == "" then None
    else Some(DecimalValue(u[..n], frac))
  }

  /**
   * JavaScript's `parseFloat`, restricted to plain decimal notation:
   * `None` stands for NaN.
   */
  function ParseFloat(s: string): Option<real>
  {
    ParseSigned(TrimStart(s))
  }

  /** `parseFloat` on text that no longer starts with white space: an optional sign, then the magnitude. */
  function ParseSigned(t: string): Option<real>
  {
    match ParseMagnitude(DropSign(t))
    case None => None
    case Some(m) => Some(if |t| > 0 && t[0] == '-' then -m else m)
  }

  /**
   * `parseFloat(value) || 0` for a metafield value that is a string or
   * `null` (`None`): text that does not start with a number, the empty
   * string and `null` all become 0.
   */
  function NumberOr0(value: Option<string>): (x: real)
    ensures value == None ==> x == 0.0
    ensures value == Some("") ==> x == 0.0
  {
    match value
    case None => 0.0
    case Some(s) => ParseFloat(s).GetOr(0.0)
  }

  /** The digit run of `s` ends exactly where its first non-digit stands. */
  lemma {:induction false} DigitRunStops(s: string, m: nat)
    requires m <= |s| && AllDigits(s[..m])
    requires m < |s| ==> !IsDigit(s[m])
    ensures DigitRun(s) == m
  {
    if m > 0 {
      assert s[..m][0] == s[0];
      assert s[1..][..m - 1] == s[..m][1..];
      DigitRunStops(s[1..], m - 1);
    }
  }

  /** A string made only of digits is one whole run of digits. */
  lemma DigitRunOfDigits(d: string)
    requires AllDigits(d)
    ensures DigitRun(d) == |d| && d[..DigitRun(d)] == d
  {
    assert d[..|d|] == d;
    DigitRunStops(d, |d|);
  }

  /** Text that starts with neither white space nor a sign is parsed from its first character. */
  lemma ParseFromStart(s: string)
    requires s != [] && !IsSpace(s[0]) && s[0] != '-' && s[0] != '+'
    ensures ParseFloat(s) == ParseMagnitude(s)
  {
    assert TrimStart(s) == s;
    assert DropSign(s) == s;
  }

  /** A non-empty run of digits is read as the integer it spells. */
  lemma ParseDigits(d: string)
    requires d != [] && AllDigits(d)
    ensures ParseFloat(d) == Some(DigitsValue(d) as real)
  {
    assert IsDigit(d[0]);
    ParseFromStart(d);
    DigitRunOfDigits(d);
    assert d[|d|..] == [];
    assert FractionDigits(d[|d|..]) == "";
    assert DecimalValue(d, "") == DigitsValue(d) as real;
  }

  /** The magnitude read from `u`, once its integer digits and fraction digits are known. */
  lemma MagnitudeOf(u: string, whole: string, fraction: string)
    requires whole != [] && DigitRun(u) == |whole| && u[..|whole|] == whole
    requires FractionDigits(u[|whole|..]) == fraction
    ensures ParseMagnitude(u)
         == Some(DecimalValue(whole, fraction))
  {
  }

  /** A metafield value made only of digits contributes the integer it spells. */
  lemma ReadsAsInteger(d: string)
    requires d != [] && AllDigits(d)
    ensures NumberOr0(Some(d)) == DigitsValue(d) as real
  {
    ParseDigits(d);
  }

  /** `digits.digits` is read as the decimal number it spells. */
  lemma ParseDecimal(whole: string, fraction: string)
    requires whole != [] && AllDigits(whole) && AllDigits(fraction)
    ensures ParseFloat(whole + "." + fraction)
         == Some(DecimalValue(whole, fraction))
  {
    var s := whole + "." + fraction;
    assert s[0] == whole[0] && IsDigit(s[0]);
    ParseFromStart(s);
    assert s[..|whole|] == whole;
    DigitRunStops(s, |whole|);
    var n := DigitRun(s);
    assert s[..n] == whole;
    assert s[n..][1..] == fraction;
    DigitRunOfDigits(fraction);
    assert FractionDigits(s[n..]) == fraction;
    MagnitudeOf(s, whole, fraction);
  }

  predicate NoDigit(s: string) {
    forall i :: 0 <= i < |s| ==> !IsDigit(s[i])
  }

  lemma NoDigitSuffix(s: string, k: nat)
    requires NoDigit(s) && k <= |s|
    ensures NoDigit(s[k..])
  {
    assert forall i :: 0 <= i < |s| - k ==> s[k..][i] == s[k + i];
  }

  /** Text in which no digit occurs at all is NaN, and so counts as 0. */
  lemma NoDigitIsNaN(s: string)
    requires NoDigit(s)
    ensures ParseFloat(s) == None
    ensures NumberOr0(Some(s)) == 0.0
  {
    var t := TrimStart(s);
    NoDigitSuffix(s, |s| - |t|);
    var u := DropSign(t);
    if u != t {
      NoDigitSuffix(t, 1);
    }
    assert NoDigit(u);
    assert DigitRun(u) == 0;
    assert u[0..] == u;
    if |u| > 0 && u[0] == '.' {
      NoDigitSuffix(u, 1);
      assert DigitRun(u[1..]) == 0;
    }
    assert FractionDigits(u) == "";
  }

  /** Leading white space is skipped: it never changes what is read. */
  lemma SpaceSkipped(s: string)
    requires |s| > 0 && IsSpace(s[0])
    ensures ParseFloat(s) == ParseFloat(s[1..])
  {
    assert TrimStart(s) == TrimStart(s[1..]);
  }

  /** A leading minus sign is dropped and the magnitude after it negated. */
  lemma MinusParsed(t: string)
    requires |t| > 0 && t[0] == '-'
    ensures ParseFloat(t).Some? == ParseMagnitude(t[1..]).Some?
    ensures ParseFloat(t).Some? ==> ParseFloat(t).value == -ParseMagnitude(t[1..]).value
  {
    assert TrimStart(t) == t;
    assert DropSign(t) == t[1..];
  }

  /** A plus sign before anything but white space or another sign is skipped. */
  lemma PlusSkipped(t: string)
    requires |t| > 1 && t[0] == '+' && !IsSpace(t[1]) && t[1] != '-' && t[1] != '+'
    ensures ParseFloat(t) == ParseFloat(t[1..])
  {
    assert TrimStart(t) == t;
    assert DropSign(t) == t[1..];
    assert ParseFloat(t) == ParseMagnitude(t[1..]);
    ParseFromStart(t[1..]);
  }

  /**
   * A minus sign before anything but white space or another sign negates
   * what follows: a number is negated, and NaN stays NaN ("-g5", "-.").
   */
  lemma MinusSign(t: string)
    requires |t| > 1 && t[0] == '-' && !IsSpace(t[1]) && t[1] != '-' && t[1] != '+'
    ensures ParseFloat(t) == match ParseFloat(t[1..]) case None => None case Some(m) => Some(-m)
  {
    MinusParsed(t);
    ParseFromStart(t[1..]);
    var r := ParseMagnitude(t[1..]);
    if r.Some? {
      assert ParseFloat(t) == Some(-r.value);
    } else {
      assert ParseFloat(t) == None;
    }
  }

  /** A minus sign before a digit negates the number that follows. */
  lemma MinusNegates(t: string)
    requires |t| > 1 && t[0] == '-' && IsDigit(t[1])
    ensures ParseFloat(t[1..]).Some?
    ensures ParseFloat(t) == Some(-ParseFloat(t[1..]).value)
  {
    MinusSign(t);
    ParseFromStart(t[1..]);
    StartsWithNumber(t[1..]);
  }

  /** Text that starts with a digit has a magnitude. */
  lemma StartsWithNumber(u: string)
    requires |u| > 0 && IsDigit(u[0])
    ensures ParseMagnitude(u).Some?
  {
    assert DigitRun(u) > 0;
  }

  /**
   * Only the longest number at the start is read: `n` integer digits
   * followed by anything other than a digit or '.' (a unit, a percent sign,
   * an exponent letter) give the integer alone.
   */
  lemma TrailingIgnored(s: string, n: nat)
    requires 0 < n <= |s| && AllDigits(s[..n])
    requires n < |s| ==> !IsDigit(s[n]) && s[n] != '.'
    ensures ParseFloat(s) == Some(DigitsValue(s[..n]) as real)
  {
    assert IsDigit(s[..n][0]);
    ParseFromStart(s);
    DigitRunStops(s, n);
    assert FractionDigits(s[n..]) == [];
    MagnitudeOf(s, s[..n], []);
  }

  /** A '.' followed by `k` digits and then no digit gives those `k` fraction digits. */
  lemma FractionStops(v: string, k: nat)
    requires 0 < |v| && v[0] == '.' && k < |v| && AllDigits(v[1..][..k])
    requires k + 1 < |v| ==> !IsDigit(v[k + 1])
    ensures FractionDigits(v) == v[1..][..k]
  {
    DigitRunStops(v[1..], k);
  }

  /**
   * The same for a decimal: `n` integer digits, a '.', and `k` fraction
   * digits followed by anything but a digit give the decimal alone.
   */
  lemma DecimalTrailingIgnored(s: string, n: nat, k: nat)
    requires 0 < n < |s| && AllDigits(s[..n]) && s[n] == '.'
    requires n + 1 + k <= |s| && AllDigits(s[n + 1..n + 1 + k])
    requires n + 1 + k < |s| ==> !IsDigit(s[n + 1 + k])
    ensures ParseFloat(s) == Some(DecimalValue(s[..n], s[n + 1..n + 1 + k]))
  {
    assert IsDigit(s[..n][0]);
    ParseFromStart(s);
    DigitRunStops(s, n);
    var v := s[n..];
    assert v[1..][..k] == s[n + 1..n + 1 + k];
    FractionStops(v, k);
    MagnitudeOf(s, s[..n], s[n + 1..n + 1 + k]);
  }

  /**
   * A leading '.' followed by `k` digits and then no digit: `.digits` reads
   * as the fraction alone (".5" is 0.5), and a '.' with no digit after it
   * is NaN.
   */
  lemma LeadingPoint(s: string, k: nat)
    requires 1 + k <= |s| && s[0] == '.' && AllDigits(s[1..1 + k])
    requires 1 + k < |s| ==> !IsDigit(s[1 + k])
    ensures ParseFloat(s) == if k == 0 then None else Some(DecimalValue("", s[1..1 + k]))
  {
    ParseFromStart(s);
    DigitRunStops(s, 0);
    assert s[0..] == s;
    assert s[1..][..k] == s[1..1 + k];
    FractionStops(s, k);
    assert s[..0] == "";
  }

  /** Text whose first character cannot begin a number is NaN, whatever follows. */
  lemma NoPrefixIsNaN(s: string)
    requires s != [] && !IsSpace(s[0]) && s[0] != '-' && s[0] != '+' && !IsDigit(s[0]) && s[0] != '.'
    ensures ParseFloat(s) == None
    ensures NumberOr0(Some(s)) == 0.0
  {
    ParseFromStart(s);
    DigitRunStops(s, 0);
    assert s[0..] == s;
  }

  /** Text without a minus sign is never read as a negative number. */
  lemma UnsignedIsNonNegative(s: string)
    requires forall i :: 0 <= i < |s| ==> s[i] != '-'
    ensures NumberOr0(Some(s)) >= 0.0
  {
    var t := TrimStart(s);
    if |t| > 0 {
      assert t[0] == s[|s| - |t|];
    }
  }
}
