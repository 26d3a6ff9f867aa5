/**
 * Exact decimal numbers and the text form that Python's `Decimal(str)`
 * accepts: surrounding whitespace is stripped, underscores are dropped, and
 * what remains is an optional sign, digits with at most one decimal point,
 * and an optional exponent. Non-finite forms (`NaN`, `Infinity`) are not
 * decimals here: every use the handler makes of them raises.
 */
module Decimals {
  import opened Wrappers

  /** An exact decimal number: `units / 10^places`. */
  datatype Decimal = Decimal(units: int, places: nat)

  function Pow10(n: nat): (r: nat)
    ensures r >= 1
  {
    if n == 0 then 1 else 10 * Pow10(n - 1)
  }

  lemma Pow10Split(n: nat)
    requires n >= 2
    ensures Pow10(n) == 100 * Pow10(n - 2)
  {
    assert Pow10(n) == 10 * Pow10(n - 1);
  }

  function Abs(x: int): nat {
    if x < 0 then -x else x
  }

  predicate IsDigit(c: char) {
    '0' <= c <= '9'
  }

  predicate AllDigits(s: string) {
    forall i :: 0 <= i < |s| ==> IsDigit(s[i])
  }

  /** The number a string of decimal digits spells; 0 for the empty string. */
  function DigitsValue(s: string): nat
    requires AllDigits(s)
  {
    if s == [] then 0
    else 10 * DigitsValue(s[..|s| - 1]) + (s[|s| - 1] as int - '0' as int)
  }

  /** The characters Python's `str.strip()` removes. */
  predicate IsSpace(c: char) {
    var n := c as int;
    || 9 <= n <= 13 || 28 <= n <= 32 || n == 0x85 || n == 0xA0 || n == 0x1680
    || 0x2000 <= n <= 0x200A || n == 0x2028 || n == 0x2029 || n == 0x202F
    || n == 0x205F || n == 0x3000
  }

  function TrimStart(s: string): string {
    if s != [] && IsSpace(s[0]) then TrimStart(s[1..]) else s
  }

  function TrimEnd(s: string): string {
    if s != [] && IsSpace(s[|s| - 1]) then TrimEnd(s[..|s| - 1]) else s
  }

  /** `s` with every `c` removed. */
  function Without(s: string, c: char): (r: string)
    ensures c !in r
  {
    if s == [] then []
    else (if s[0] == c then [] else [s[0]]) + Without(s[1..], c)
  }

  /** The index of the first character of `t` in `cs`, or `|t|` when there is none. */
  function FirstIndex(t: string, cs: set<char>): (i: nat)
    ensures i <= |t|
    ensures i < |t| ==> t[i] in cs
    ensures forall j :: 0 <= j < i ==> t[j] !in cs
  {
    if t == [] then 0
    else if t[0] in cs then 0
    else 1 + FirstIndex(t[1..], cs)
  }

  /** An exponent: an optional sign followed by at least one digit. */
  function ParseExponent(x: string): Option<int> {
    if x != [] && (x[0] == '+' || x[0] == '-') then
      if |x| > 1 && AllDigits(x[1..]) then
        var magnitude: int := DigitsValue(x[1..]);
        Some(if x[0] == '-' then -magnitude else magnitude)
      else None
    else if x != [] && AllDigits(x) then Some(DigitsValue(x))
    else None
  }

  /** digits [`.` digits] with at least one digit: the coefficient, over `10^` the fraction's length. */
  function ParseMantissa(m: string): Option<Decimal> {
    var dot := FirstIndex(m, {'.'});
    var whole := m[..dot];
    var fraction := if dot == |m| then [] else m[dot + 1..];
    if !AllDigits(whole) || !AllDigits(fraction) || |whole| + |fraction| == 0 then None
    else Some(Decimal(DigitsValue(whole + fraction), |fraction|))
  }

  /** `d` times `10^exponent`. */
  function Scale(d: Decimal, exponent: int): Decimal {
    var shift := exponent - d.places;
    if shift >= 0 then Decimal(d.units * Pow10(shift), 0) else Decimal(d.units, -shift)
  }

  /** A mantissa, then an optional exponent introduced by `e` or `E`. */
  function ParseUnsigned(t: string): Option<Decimal> {
    var e := FirstIndex(t, {'e', 'E'});
    var exponent := if e == |t| then Some(0) else ParseExponent(t[e + 1..]);
    match ParseMantissa(t[..e])
    case None => None
    case Some(m) => if exponent.None? then None else Some(Scale(m, exponent.value))
  }

  function ParseSigned(t: string): Option<Decimal> {
    if t != [] && (t[0] == '+' || t[0] == '-') then
      match ParseUnsigned(t[1..])
      case None => None
      case Some(d) => Some(if t[0] == '-' then Decimal(-d.units, d.places) else d)
    else ParseUnsigned(t)
  }

  /** `Decimal(s)` for a string `s`, when it is a finite number. */
  function ParseDecimal(s: string): Option<Decimal> {
    ParseSigned(Without(TrimEnd(TrimStart(s)), '_'))
  }

  function DigitChar(n: nat): char
    requires n < 10
  {
    ('0' as int + n) as char
  }

  /** The decimal digits of `n`, without leading zeros. */
  function DigitsOf(n: nat): (s: string)
    ensures |s| >= 1 && AllDigits(s)
    ensures DigitsValue(s) == n
  {
    if n < 10 then [DigitChar(n)]
    else
      var s := DigitsOf(n / 10) + [DigitChar(n % 10)];
      assert s[..|s| - 1] == DigitsOf(n / 10);
      s
  }

  /** `s` with zeros put in front until it is at least `width` long. */
  function ZeroPad(s: string, width: nat): (r: string)
    requires AllDigits(s)
    ensures |r| >= width && |r| >= |s| && AllDigits(r)
    ensures DigitsValue(r) == DigitsValue(s)
    decreases width - |s|
  {
    if |s| >= width then s
    else
      LeadingZero(s);
      ZeroPad("0" + s, width)
  }

  lemma {:induction false} LeadingZero(s: string)
    requires AllDigits(s)
    ensures AllDigits("0" + s) && DigitsValue("0" + s) == DigitsValue(s)
  {
    if s != [] {
      var z := "0" + s;
      assert z[..|z| - 1] == "0" + s[..|s| - 1];
      LeadingZero(s[..|s| - 1]);
    }
  }

  /** `whole`, then a point and `fraction` when there is a fraction. */
  function PointText(whole: string, fraction: string): (t: string)
    requires AllDigits(whole) && AllDigits(fraction)
    ensures forall c :: c in t ==> c == '.' || IsDigit(c)
  {
    if fraction == [] then whole else whole + "." + fraction
  }

  /** The digits of `|d.units|`, padded so that at least one precedes the point. */
  function Magnitude(d: Decimal): (s: string)
    ensures |s| >= d.places + 1 && AllDigits(s)
    ensures DigitsValue(s) == Abs(d.units)
  {
    ZeroPad(DigitsOf(Abs(d.units)), d.places + 1)
  }

  /** `digits` with a point before the last `places` of them (none when `places` is 0). */
  function PointedDigits(digits: string, places: nat): string
    requires AllDigits(digits) && |digits| >= places + 1
  {
    PointText(digits[..|digits| - places], digits[|digits| - places..])
  }

  /** `body` with a `-` in front when `negative`. */
  function SignedText(negative: bool, body: string): string {
    (if negative then "-" else "") + body
  }

  /** The plain text of `d`: a `-` for a negative value, then exactly `places` fraction digits. */
  function Render(d: Decimal): string {
    SignedText(d.units < 0, PointedDigits(Magnitude(d), d.places))
  }

  lemma WithoutAbsent(s: string, c: char)
    requires c !in s
    ensures Without(s, c) == s
  {
  }

  /** Text without an exponent marker is read as a mantissa alone. */
  lemma NoExponentMarker(t: string)
    requires 'e' !in t && 'E' !in t
    ensures ParseUnsigned(t) == ParseMantissa(t)
  {
    assert FirstIndex(t, {'e', 'E'}) == |t|;
    assert t[..|t|] == t;
    match ParseMantissa(t)
    case None =>
    case Some(m) =>
      assert Scale(m, 0) == m by {
        if m.places == 0 {
          assert Pow10(0) == 1;
        }
      }
  }

  /** Digits alone read back as their value. */
  lemma MantissaWhole(whole: string)
    requires AllDigits(whole) && |whole| >= 1
    ensures ParseMantissa(whole) == Some(Decimal(DigitsValue(whole), 0))
  {
    assert '.' !in whole;
    assert FirstIndex(whole, {'.'}) == |whole|;
    assert whole[..|whole|] == whole;
    assert whole + [] == whole;
  }

  /** Digits, a point and more digits read back as their value over `10^` the fraction's length. */
  lemma MantissaPoint(whole: string, fraction: string)
    requires AllDigits(whole) && AllDigits(fraction) && |whole| >= 1 && |fraction| >= 1
    ensures ParseMantissa(whole + "." + fraction) == Some(Decimal(DigitsValue(whole + fraction), |fraction|))
  {
    var t := whole + "." + fraction;
    assert t[|whole|] == '.';
    assert forall j :: 0 <= j < |whole| ==> t[j] == whole[j];
    var dot := FirstIndex(t, {'.'});
    assert dot == |whole|;
    assert t[..dot] == whole;
    assert t[dot + 1..] == fraction;
  }

  lemma MantissaRenderedWhole(digits: string)
    requires AllDigits(digits) && |digits| >= 1
    ensures ParseMantissa(PointText(digits[..|digits|], digits[|digits|..])) == Some(Decimal(DigitsValue(digits), 0))
  {
    assert digits[..|digits|] == digits && digits[|digits|..] == [];
    MantissaWhole(digits);
  }

  lemma MantissaRenderedPoint(digits: string, places: nat)
    requires AllDigits(digits) && |digits| >= places + 1 && places > 0
    ensures ParseMantissa(PointText(digits[..|digits| - places], digits[|digits| - places..]))
         == Some(Decimal(DigitsValue(digits), places))
  {
    var whole, fraction := digits[..|digits| - places], digits[|digits| - places..];
    assert whole + fraction == digits;
    MantissaPoint(whole, fraction);
  }

  /** Digits with a point before the last `places` of them read back as their value over `10^places`. */
  lemma MantissaRendered(digits: string, places: nat)
    requires AllDigits(digits) && |digits| >= places + 1
    ensures ParseMantissa(PointText(digits[..|digits| - places], digits[|digits| - places..]))
         == Some(Decimal(DigitsValue(digits), places))
  {
    if places == 0 {
      MantissaRenderedWhole(digits);
    } else {
      MantissaRenderedPoint(digits, places);
    }
  }

  /** Text with nothing to strip and no underscore is parsed as it stands. */
  lemma CleanTextParses(r: string)
    requires r != [] && !IsSpace(r[0]) && !IsSpace(r[|r| - 1]) && '_' !in r
    ensures ParseDecimal(r) == ParseSigned(r)
  {
    assert TrimStart(r) == r;
    assert TrimEnd(r) == r;
    WithoutAbsent(r, '_');
  }

  /** Unsigned number text, with nothing around it, parses to its unsigned reading. */
  lemma UnsignedTextParses(body: string)
    requires body != [] && IsDigit(body[0]) && IsDigit(body[|body| - 1]) && '_' !in body
    ensures ParseDecimal(body) == ParseUnsigned(body)
  {
    CleanTextParses(body);
  }

  /** A `-` in front of unsigned number text negates its reading. */
  lemma NegatedTextParses(body: string, v: Decimal)
    requires body != [] && IsDigit(body[|body| - 1]) && '_' !in body
    requires ParseUnsigned(body) == Some(v)
    ensures ParseDecimal("-" + body) == Some(Decimal(-v.units, v.places))
  {
    var r := "-" + body;
    assert r[0] == '-' && r[1..] == body;
    assert ParseSigned(r) == Some(Decimal(-v.units, v.places));
    CleanTextParses(r);
  }

  /** Pointed digits begin and end with a digit and hold no exponent marker or underscore. */
  lemma PointedDigitsShape(digits: string, places: nat)
    requires AllDigits(digits) && |digits| >= places + 1
    ensures var t := PointedDigits(digits, places);
      t != [] && IsDigit(t[0]) && IsDigit(t[|t| - 1]) && 'e' !in t && 'E' !in t && '_' !in t
  {
    var t := PointedDigits(digits, places);
    assert t[0] in t && t[|t| - 1] in t;
  }

  /** Pointed digits read back as their value over `10^places`. */
  lemma PointedDigitsRead(digits: string, places: nat)
    requires AllDigits(digits) && |digits| >= places + 1
    ensures ParseUnsigned(PointedDigits(digits, places)) == Some(Decimal(DigitsValue(digits), places))
  {
    PointedDigitsShape(digits, places);
    NoExponentMarker(PointedDigits(digits, places));
    MantissaRendered(digits, places);
  }

  /** Number text with a digit at each end and no underscore parses back, with the sign in front. */
  lemma SignedTextParses(negative: bool, body: string, v: Decimal)
    requires body != [] && IsDigit(body[0]) && IsDigit(body[|body| - 1]) && '_' !in body
    requires ParseUnsigned(body) == Some(v)
    ensures ParseDecimal(SignedText(negative, body)) == Some(if negative then Decimal(-v.units, v.places) else v)
  {
    if negative {
      assert SignedText(negative, body) == "-" + body;
      NegatedTextParses(body, v);
    } else {
      assert SignedText(negative, body) == body;
      UnsignedTextParses(body);
    }
  }

  /** Python reads back exactly the decimal that `Render` wrote. */
  lemma RenderParses(d: Decimal)
    ensures ParseDecimal(Render(d)) == Some(d)
  {
    var body := PointedDigits(Magnitude(d), d.places);
    PointedDigitsShape(Magnitude(d), d.places);
    PointedDigitsRead(Magnitude(d), d.places);
    SignedTextParses(d.units < 0, body, Decimal(Abs(d.units), d.places));
  }
}
