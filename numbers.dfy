/**
 * JavaScript's `parseInt` and `parseFloat` as used by the core, over a restricted
 * grammar: optional leading white space, an optional sign, decimal digits and (for
 * `parseFloat`) one optional `.` followed by digits. Both read the longest prefix
 * that fits the grammar and ignore the rest; when no digit can be read the result
 * is `None`, which stands for JavaScript's `NaN`.
 */
module Numbers {
  import opened Wrappers

  predicate IsDigit(c: char) {
    '0' <= c <= '9'
  }

  predicate AllDigits(s: string) {
    forall i :: 0 <= i < |s| ==> IsDigit(s[i])
  }

  /** ASCII white space, which `parseInt` and `parseFloat` skip before the number. */
  predicate IsSpace(c: char) {
    c == ' ' || c == '\t' || c == '\n' || c == '\r' || c == '\U{B}' || c == '\U{C}'
  }

  /** The value of a string of decimal digits, most significant first. */
  function DigitsValue(s: string): (v: int)
    requires AllDigits(s)
    ensures v >= 0
    decreases |s|
  {
    if s == [] then 0 else 10 * DigitsValue(s[..|s| - 1]) + (s[|s| - 1] as int - '0' as int)
  }

  function Pow10(n: nat): (r: nat)
    ensures r >= 1
  {
    if n == 0 then 1 else 10 * Pow10(n - 1)
  }

  /** `whole.frac` read as an exact decimal number. */
  function DecimalValue(whole: string, frac: string): (v: real)
    requires AllDigits(whole) && AllDigits(frac)
    ensures v >= 0.0
  {
    DigitsValue(whole) as real + DigitsValue(frac) as real / Pow10(|frac|) as real
  }

  /** The length of the run of digits that starts `s`. */
  function DigitRun(s: string): (n: nat)
    ensures n <= |s|
    ensures AllDigits(s[..n])
    ensures s != [] && IsDigit(s[0]) ==> n > 0
    decreases |s|
  {
    if s != [] && IsDigit(s[0]) then 1 + DigitRun(s[1..]) else 0
  }

  /** `s` without its leading white space. */
  function TrimStart(s: string): string
    decreases |s|
  {
    if s != [] && IsSpace(s[0]) then TrimStart(s[1..]) else s
  }

  /** Whether a leading `-` is present, and the text after an optional `+` or `-`. */
  function Unsigned(s: string): (bool, string) {
    if s != [] && s[0] == '-' then (true, s[1..])
    else if s != [] && s[0] == '+' then (false, s[1..])
    else (false, s)
  }

  /** `parseInt(s)` (radix 10): `None` when no digit follows the optional sign. */
  function ParseInt(s: string): (r: Option<int>)
    ensures s == [] ==> r == None
    ensures s != [] && IsDigit(s[0]) ==> r.Some? && r.value >= 0
  {
    var (negative, u) := Unsigned(TrimStart(s));
    var n := DigitRun(u);
    if n == 0 then None
    else
      var v: int := DigitsValue(u[..n]);
      Some(if negative then -v else v)
  }

  /** The digits right after a leading `.` of `rest`, or nothing when `rest` does not start with `.`. */
  function FractionDigits(rest: string): (f: string)
    ensures AllDigits(f)
  {
    if rest != [] && rest[0] == '.' then rest[1..][..DigitRun(rest[1..])] else ""
  }

  /** The unsigned part of `parseFloat`: digits, then an optional `.` and digits. */
  function ParseUnsignedFloat(u: string): Option<real> {
    var n := DigitRun(u);
    var frac := FractionDigits(u[n..]);
    if n == 0 && frac == "" then None else Some(DecimalValue(u[..n], frac))
  }

  /** `parseFloat(s)` without exponents or `Infinity`: `None` when neither part has a digit. */
  function ParseFloat(s: string): (r: Option<real>)
    ensures s == [] ==> r == None
    ensures s != [] && IsDigit(s[0]) ==> r.Some? && r.value >= 0.0
  {
    var (negative, u) := Unsigned(TrimStart(s));
    match ParseUnsignedFloat(u)
    case None => None
    case Some(v) => Some(if negative then -v else v)
  }

  /** A digit run extends exactly across a prefix made of digits. */
  lemma {:induction false} DigitRunAppend(a: string, t: string)
    requires AllDigits(a)
    ensures DigitRun(a + t) == |a| + DigitRun(t)
    decreases |a|
  {
    if a != [] {
      assert (a + t)[0] == a[0];
      assert (a + t)[1..] == a[1..] + t;
      DigitRunAppend(a[1..], t);
    } else {
      assert a + t == t;
    }
  }

  /** A number written with digits, optionally followed by text that is not a digit, reads as its value. */
  lemma ParseIntDigits(a: string, t: string)
    requires AllDigits(a) && a != []
    requires t == [] || !IsDigit(t[0])
    ensures ParseInt(a + t) == Some(DigitsValue(a))
  {
    var s := a + t;
    assert s[0] == a[0] && IsDigit(s[0]);
    assert TrimStart(s) == s;
    assert Unsigned(s) == (false, s);
    DigitRunAppend(a, t);
    assert DigitRun(t) == 0;
    assert s[..|a|] == a;
  }

  /** Text that starts with a digit has no white space or sign to skip. */
  lemma ParseFloatStartsWithDigit(s: string)
    requires s != [] && IsDigit(s[0])
    ensures ParseFloat(s) == ParseUnsignedFloat(s)
  {
    assert TrimStart(s) == s;
    assert Unsigned(s) == (false, s);
  }

  /** The unsigned reading of `whole.frac`, followed by text that does not start with a digit. */
  lemma ParseUnsignedDecimal(whole: string, frac: string, t: string)
    requires AllDigits(whole) && AllDigits(frac) && whole != []
    requires t == [] || !IsDigit(t[0])
    ensures ParseUnsignedFloat(whole + ("." + (frac + t))) == Some(DecimalValue(whole, frac))
  {
    var rest := "." + (frac + t);
    var s := whole + rest;
    DigitRunAppend(whole, rest);
    assert DigitRun(rest) == 0;
    assert s[..|whole|] == whole;
    assert s[|whole|..] == rest;
    assert rest[1..] == frac + t;
    DigitRunAppend(frac, t);
    assert (frac + t)[..|frac|] == frac;
  }

  /** `whole.frac` (then anything that does not start with a digit) reads as its exact decimal value. */
  lemma ParseFloatDecimal(whole: string, frac: string, t: string)
    requires AllDigits(whole) && AllDigits(frac) && whole != []
    requires t == [] || !IsDigit(t[0])
    ensures ParseFloat(whole + "." + frac + t) == Some(DecimalValue(whole, frac))
  {
    var s := whole + ("." + (frac + t));
    assert s == whole + "." + frac + t;
    assert s[0] == whole[0];
    ParseFloatStartsWithDigit(s);
    ParseUnsignedDecimal(whole, frac, t);
  }

  /** With no fraction digits the decimal value is the whole part's. */
  lemma NoFraction(whole: string)
    requires AllDigits(whole)
    ensures DecimalValue(whole, "") == DigitsValue(whole) as real
  {
    var w := DigitsValue(whole);
    assert DigitsValue("") == 0 && Pow10(0) == 1;
    assert DecimalValue(whole, "") == w as real + 0.0 / 1.0;
  }

  /** A plain run of digits reads as its value. */
  lemma ParseFloatWhole(whole: string)
    requires AllDigits(whole) && whole != []
    ensures ParseFloat(whole) == Some(DigitsValue(whole) as real)
  {
    ParseFloatStartsWithDigit(whole);
    DigitRunAppend(whole, []);
    assert whole + [] == whole;
    var n := DigitRun(whole);
    assert n == |whole|;
    assert whole[n..] == [];
    assert FractionDigits(whole[n..]) == "";
    NoFraction(whole);
    assert ParseUnsignedFloat(whole) == Some(DecimalValue(whole[..n], ""));
  }

  /** The default text "0" reads as zero. */
  lemma ParseFloatZero()
    ensures ParseFloat("0") == Some(0.0)
  {
    var zero := "0";
    assert AllDigits(zero);
    assert zero[..0] == [];
    assert DigitsValue(zero) == 10 * DigitsValue([]) + 0;
    ParseFloatWhole(zero);
  }

  /** Text that starts with no sign, point, digit or white space is not a number. */
  lemma ParseFloatNotANumber(s: string)
    requires s == [] || (!IsDigit(s[0]) && !IsSpace(s[0]) && s[0] != '-' && s[0] != '+' && s[0] != '.')
    ensures ParseFloat(s) == None
  {
  }
}
