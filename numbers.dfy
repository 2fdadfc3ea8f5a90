/** Number literals as the pipeline reads them: Python's `float()` applied to
    a string, and the number tokens of the JSON grammar. Both are the
    decimal forms only (no exponent, `inf`, `nan` or digit separators). */
module Numbers {
  import opened Outcomes
  import Text

  predicate IsDigit(c: char) {
    '0' <= c <= '9'
  }

  predicate AllDigits(s: string) {
    forall i | 0 <= i < |s| :: IsDigit(s[i])
  }

  function Pow10(n: nat): (r: nat)
    ensures r >= 1
  {
    if n == 0 then 1 else 10 * Pow10(n - 1)
  }

  /** The value of a string of decimal digits; it has fewer digits than 10^|s|. */
  function DigitsValue(s: string): (n: nat)
    requires AllDigits(s)
    ensures n < Pow10(|s|)
    decreases |s|
  {
    if s == [] then 0
    else DigitsValue(s[..|s| - 1]) * 10 + (s[|s| - 1] as int - '0' as int)
  }

  /** An unsigned decimal literal as `float()` accepts it: `d`, `d.`, `d.d` or `.d`. */
  function UnsignedValue(u: string): (r: Option<real>)
    ensures r.Some? ==> r.value >= 0.0
    ensures r.Some? ==> u != [] && forall i | 0 <= i < |u| :: IsDigit(u[i]) || u[i] == '.'
  {
    var k := Text.AfterLast(u, '.');
    if k == 0 then
      if u != [] && AllDigits(u) then Some(DigitsValue(u) as real) else None
    else
      var ip, fp := u[..k - 1], u[k..];
      if AllDigits(ip) && AllDigits(fp) && (ip != [] || fp != []) then
        assert u == ip + ['.'] + fp;
        Some(DigitsValue(ip) as real + DigitsValue(fp) as real / Pow10(|fp|) as real)
      else None
  }

  /** A decimal literal with an optional sign, once surrounding whitespace is gone. */
  function DecimalValue(t: string): Option<real>
  {
    if t != [] && (t[0] == '+' || t[0] == '-') then
      match UnsignedValue(t[1..])
      case Some(v) => Some(if t[0] == '-' then -v else v)
      case None => None
    else UnsignedValue(t)
  }

  /** `float(s)` for a string `s`: `None` stands for the ValueError it raises. */
  function ParseFloat(s: string): Option<real>
  {
    DecimalValue(Text.Strip(s))
  }

  /** `float()` ignores the whitespace around the number: stripping it first changes nothing. */
  lemma ParseFloatStrips(s: string)
    ensures ParseFloat(Text.Strip(s)) == ParseFloat(s)
  {
    Text.StripTwice(s);
  }

  /** The JSON number grammar without an exponent: `-?(0|[1-9][0-9]*)(\.[0-9]+)?`. */
  predicate JsonNumberSyntax(t: string) {
    JsonUnsignedSyntax(if t != [] && t[0] == '-' then t[1..] else t)
  }

  /** `(0|[1-9][0-9]*)(\.[0-9]+)?` */
  predicate JsonUnsignedSyntax(u: string) {
    var k := Text.AfterLast(u, '.');
    var ip := if k == 0 then u else u[..k - 1];
    var fp := if k == 0 then [] else u[k..];
    ip != [] && AllDigits(ip) && (ip[0] == '0' ==> |ip| == 1) && AllDigits(fp) && (k > 0 ==> fp != [])
  }

  lemma JsonUnsignedShape(u: string)
    requires JsonUnsignedSyntax(u)
    ensures u != [] && IsDigit(u[0]) && IsDigit(u[|u| - 1])
    ensures forall i | 0 <= i < |u| :: IsDigit(u[i]) || u[i] == '.'
  {
    var k := Text.AfterLast(u, '.');
    if k > 0 {
      var ip, fp := u[..k - 1], u[k..];
      assert u == ip + ['.'] + fp;
      forall i | 0 <= i < |u| ensures IsDigit(u[i]) || u[i] == '.' {
        if i < k - 1 { assert u[i] == ip[i]; }
        else if i >= k { assert u[i] == fp[i - k]; }
      }
      assert u[0] == ip[0] && u[|u| - 1] == fp[|fp| - 1];
    }
  }

  /** A JSON number token: it starts with `-` or a digit, ends with a digit and
      holds nothing but digits, `-` and `.`. */
  lemma JsonNumberShape(t: string)
    requires JsonNumberSyntax(t)
    ensures t != [] && (t[0] == '-' || IsDigit(t[0])) && IsDigit(t[|t| - 1])
    ensures forall i | 0 <= i < |t| :: IsDigit(t[i]) || t[i] == '-' || t[i] == '.'
  {
    if t != [] && t[0] == '-' {
      JsonUnsignedShape(t[1..]);
      forall i | 1 <= i < |t| ensures IsDigit(t[i]) || t[i] == '.' {
        assert t[i] == t[1..][i - 1];
      }
    } else {
      JsonUnsignedShape(t);
    }
  }

  /** A JSON number token, with its value; `None` when `t` is not one. */
  function ParseJsonNumber(t: string): (r: Option<real>)
    ensures r.Some? <==> JsonNumberSyntax(t)
  {
    if JsonNumberSyntax(t) then
      JsonNumberHasValue(t);
      DecimalValue(t)
    else None
  }

  /** Every token of the JSON number grammar is a decimal literal with a value. */
  lemma JsonNumberHasValue(t: string)
    requires JsonNumberSyntax(t)
    ensures DecimalValue(t).Some?
  {
    if t == [] || t[0] != '-' {
      JsonUnsignedShape(t);
    }
  }

  /** Every JSON number token is a literal `float()` accepts, with the same value. */
  lemma JsonNumberIsFloat(t: string)
    requires ParseJsonNumber(t).Some?
    ensures ParseFloat(t) == ParseJsonNumber(t)
  {
    JsonNumberShape(t);
    NotSpace(t[0]);
    NotSpace(t[|t| - 1]);
    assert Text.Strip(t) == t;
  }

  /** Digits and the minus sign are not whitespace. */
  lemma NotSpace(c: char)
    requires IsDigit(c) || c == '-'
    ensures !Text.IsSpace(c)
  {
  }
}
