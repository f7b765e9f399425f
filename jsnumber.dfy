/**
 * JavaScript number conversions used by the modelled code: decimal rendering (`String(n)`,
 * `n.toString()`), `parseInt` without a radix, `String.prototype.padStart(2, '0')`, and the
 * `parseInt(x) || default` idiom. `NaN` is `None`.
 */
module JsNumber {
  import opened Wrappers
  import opened JsString

  predicate IsDigit(c: char) {
    '0' <= c <= '9'
  }

  predicate AllDigits(s: string) {
    forall i :: 0 <= i < |s| ==> IsDigit(s[i])
  }

  function DigitValue(c: char): nat
    requires IsDigit(c)
  {
    c as int - '0' as int
  }

  function DigitChar(d: nat): (c: char)
    requires d < 10
    ensures IsDigit(c) && DigitValue(c) == d
  {
    ('0' as int + d) as char
  }

  predicate IsHexDigit(c: char) {
    IsDigit(c) || 'a' <= c <= 'f' || 'A' <= c <= 'F'
  }

  function HexDigitValue(c: char): nat
    requires IsHexDigit(c)
  {
    if IsDigit(c) then DigitValue(c)
    else if 'a' <= c <= 'f' then c as int - 'a' as int + 10
    else c as int - 'A' as int + 10
  }

  /** The value of a run of decimal digits, most significant first. */
  function DecimalValue(ds: string): nat
    requires AllDigits(ds)
  {
    if ds == [] then 0 else 10 * DecimalValue(ds[..|ds| - 1]) + DigitValue(ds[|ds| - 1])
  }

  /** The value of a run of hexadecimal digits, most significant first. */
  function HexValue(ds: string): nat
    requires forall i :: 0 <= i < |ds| ==> IsHexDigit(ds[i])
  {
    if ds == [] then 0 else 16 * HexValue(ds[..|ds| - 1]) + HexDigitValue(ds[|ds| - 1])
  }

  /** Decimal rendering of a natural number: digits only, no leading zero, and it reads back
      as the same number. */
  function NatToString(n: nat): (r: string)
    ensures r != [] && AllDigits(r)
    ensures |r| > 1 ==> r[0] != '0'
    ensures DecimalValue(r) == n
  {
    if n < 10 then [DigitChar(n)]
    else
      var h := NatToString(n / 10);
      var r := h + [DigitChar(n % 10)];
      assert r[..|r| - 1] == h;
      r
  }

  /** Distinct numbers render differently. */
  lemma NatToStringInjective(a: nat, b: nat)
    requires NatToString(a) == NatToString(b)
    ensures a == b
  {
    assert DecimalValue(NatToString(a)) == a;
  }

  function Pow10(k: nat): nat {
    if k == 0 then 1 else 10 * Pow10(k - 1)
  }

  /** A number with `k` digits renders with `k` characters. */
  lemma {:induction false} DigitsLength(n: nat, k: nat)
    requires k >= 1 && Pow10(k - 1) <= n < Pow10(k)
    ensures |NatToString(n)| == k
  {
    if k > 1 {
      DigitsLength(n / 10, k - 1);
    }
  }

  /** `String(n)` for an integer. */
  function IntToString(n: int): (r: string)
    ensures r != [] && (n < 0 <==> r[0] == '-')
  {
    if n < 0 then "-" + NatToString(-n) else NatToString(n)
  }

  /** Length of the longest prefix of decimal digits. */
  function DigitRun(u: string): (k: nat)
    ensures k <= |u| && AllDigits(u[..k]) && (k == |u| || !IsDigit(u[k]))
  {
    if u != [] && IsDigit(u[0]) then
      var k := DigitRun(u[1..]) + 1;
      assert u[..k] == [u[0]] + u[1..][..k - 1];
      k
    else 0
  }

  /** Length of the longest prefix of hexadecimal digits. */
  function HexRun(u: string): (k: nat)
    ensures k <= |u| && (forall i :: 0 <= i < k ==> IsHexDigit(u[i])) && (k == |u| || !IsHexDigit(u[k]))
  {
    if u != [] && IsHexDigit(u[0]) then
      var k := HexRun(u[1..]) + 1;
      assert forall i :: 1 <= i < k ==> u[i] == u[1..][i - 1];
      k
    else 0
  }

  predicate IsHexPrefix(u: string) {
    |u| >= 2 && u[0] == '0' && (u[1] == 'x' || u[1] == 'X')
  }

  /** The magnitude `parseInt` reads after the sign: hexadecimal after `0x`/`0X`, decimal
      otherwise; `None` when no digit follows. */
  function Magnitude(u: string): Option<nat> {
    if IsHexPrefix(u) then
      var k := HexRun(u[2..]);
      if k == 0 then None else Some(HexValue(u[2..][..k]))
    else
      var k := DigitRun(u);
      if k == 0 then None else Some(DecimalValue(u[..k]))
  }

  /** `parseInt(s)` without a radix: leading white space is skipped, an optional sign is read,
      then the longest run of digits; `None` (NaN) when there is none. Values beyond 2^53 are
      exact here. */
  function ParseInt(s: string): Option<int> {
    var t := TrimStart(s);
    var signed := t != [] && (t[0] == '-' || t[0] == '+');
    var u := if signed then t[1..] else t;
    match Magnitude(u)
    case None => None
    case Some(m) => Some(if signed && t[0] == '-' then -(m as int) else m)
  }

  /** `parseInt` reads back every rendered integer. */
  lemma ParseIntToString(n: int)
    ensures ParseInt(IntToString(n)) == Some(n)
  {
    if n < 0 {
      var s := IntToString(n);
      assert s[1..] == NatToString(-n);
      ParseIntNegative(s);
    } else {
      ParseIntDigits(NatToString(n));
    }
  }

  /** A rendered magnitude is read as decimal digits to its end. */
  lemma MagnitudeDigits(d: string)
    requires d != [] && AllDigits(d)
    ensures Magnitude(d) == Some(DecimalValue(d))
  {
    assert !IsHexPrefix(d) by {
      if |d| >= 2 { assert IsDigit(d[1]); }
    }
    DigitRunAll(d);
    assert d[..|d|] == d;
  }

  lemma ParseIntDigits(d: string)
    requires d != [] && AllDigits(d)
    ensures ParseInt(d) == Some(DecimalValue(d) as int)
  {
    assert !IsSpace(d[0]);
    assert TrimStart(d) == d;
    MagnitudeDigits(d);
  }

  lemma ParseIntNegative(s: string)
    requires |s| > 1 && s[0] == '-' && AllDigits(s[1..])
    ensures ParseInt(s) == Some(-(DecimalValue(s[1..]) as int))
  {
    ParseIntMinus(s);
    MagnitudeDigits(s[1..]);
  }

  /** After a leading minus sign `parseInt` negates the magnitude that follows. */
  lemma ParseIntMinus(s: string)
    requires s != [] && s[0] == '-'
    ensures ParseInt(s) == match Magnitude(s[1..]) case None => None case Some(m) => Some(-(m as int))
  {
    assert !IsSpace(s[0]);
    assert TrimStart(s) == s;
  }

  lemma DigitRunAll(d: string)
    requires AllDigits(d)
    ensures DigitRun(d) == |d|
  {
    if d != [] {
      DigitRunAll(d[1..]);
    }
  }

  /** `Number(s)` for the integer literals: surrounding white space is ignored, a blank
      string is 0, then either `0x`/`0X` and hexadecimal digits or an optional sign and
      decimal digits; anything else is `None` (NaN). */
  function ToNumber(s: string): (r: Option<int>)
    ensures AllSpace(s) ==> r == Some(0)
    ensures Trim(s) != [] && AllDigits(Trim(s)) ==> r == Some(DecimalValue(Trim(s)) as int)
  {
    IntegerLiteral(Trim(s))
  }

  /** The value of a trimmed integer literal. */
  function IntegerLiteral(t: string): Option<int> {
    if t == [] then Some(0)
    else if IsHexPrefix(t) then
      var h := t[2..];
      if h != [] && forall i :: 0 <= i < |h| ==> IsHexDigit(h[i]) then Some(HexValue(h)) else None
    else
      var signed := t[0] == '-' || t[0] == '+';
      var u := if signed then t[1..] else t;
      if u != [] && AllDigits(u) then Some(if t[0] == '-' then -(DecimalValue(u) as int) else DecimalValue(u))
      else None
  }

  /** `Number` reads back every rendered integer. */
  lemma ToNumberToString(n: int)
    ensures ToNumber(IntToString(n)) == Some(n)
  {
    TrimRendered(n);
    LiteralRendered(n);
  }

  lemma LiteralRendered(n: int)
    ensures IntegerLiteral(IntToString(n)) == Some(n)
  {
    var s := IntToString(n);
    var m: nat := if n < 0 then -n else n;
    var d := NatToString(m);
    assert !IsHexPrefix(d) by {
      if |d| >= 2 { assert IsDigit(d[1]); }
    }
    if n < 0 {
      assert s[1..] == d;
      assert !IsHexPrefix(s);
    } else {
      assert !IsDigit('-');
    }
  }

  /** A rendered integer has no white space to trim. */
  lemma TrimRendered(n: int)
    ensures Trim(IntToString(n)) == IntToString(n)
  {
    var s := IntToString(n);
    assert forall i :: 0 <= i < |s| ==> s[i] == '-' || IsDigit(s[i]);
    assert !IsSpace(s[0]) && !IsSpace(s[|s| - 1]);
    TrimNoSpace(s);
  }

  /** `parseInt(x) || d`: the parsed integer, or `d` when `x` is absent, not numeric or 0. */
  function ParseIntOr(x: Option<string>, d: int): (r: int)
    ensures x.None? ==> r == d
    ensures x.Some? && ParseInt(x.value).Some? && ParseInt(x.value).value != 0 ==>
      r == ParseInt(x.value).value
    ensures x.Some? && (ParseInt(x.value).None? || ParseInt(x.value) == Some(0)) ==> r == d
  {
    match x
    case None => d
    case Some(s) =>
      match ParseInt(s)
      case Some(v) => if v != 0 then v else d
      case None => d
  }

  /** `s.padStart(2, '0')`. */
  function PadStart2(s: string): (r: string)
    ensures |s| >= 2 ==> r == s
    ensures |s| < 2 ==> |r| == 2 && r[2 - |s|..] == s && forall i :: 0 <= i < 2 - |s| ==> r[i] == '0'
  {
    if |s| >= 2 then s else seq(2 - |s|, _ => '0') + s
  }

  /** `String(n).padStart(2, '0')` for 0 <= n < 100: two digits that read back as `n`. */
  lemma PadStart2Digits(n: nat)
    requires n < 100
    ensures var r := PadStart2(NatToString(n));
      |r| == 2 && AllDigits(r) && DecimalValue(r) == n
  {
    var d := NatToString(n);
    var r := PadStart2(d);
    if n < 10 {
      assert r == ['0'] + d;
      assert r[..1] == ['0'];
    } else {
      DigitsLength(n, 2);
    }
  }

  /** `Math.ceil(a / b)` for a non-negative `a` and a positive `b`. */
  function CeilDiv(a: nat, b: nat): (q: nat)
    requires b > 0
    ensures q * b >= a && (q == 0 || (q - 1) * b < a)
  {
    if a == 0 then 0 else (a - 1) / b + 1
  }
}
