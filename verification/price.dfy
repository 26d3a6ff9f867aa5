/**
 * The price check of the handler: `round(Decimal(str(data['price'])), 2)`
 * under Python's default decimal context (precision 28, ROUND_HALF_EVEN),
 * followed by the test `price <= 0`.
 */
module Price {
  import opened Wrappers
  import opened Decimals
  import opened Json

  /** 10^28: a quantized coefficient must have at most 28 digits (the default context precision). */
  const MaxCoefficient: nat := 10_000_000_000_000_000_000_000_000_000

  /**
   * With `u = q * step + r` and `p = 100 * step`, the half-even choice between
   * `q` and `q + 1` is within half of `p` of `100 * u`, and even on a tie.
   */
  lemma HalfEvenChoice(u: int, step: int, p: int, q: int, r: int, c: int)
    requires step >= 1 && p == 100 * step && u == q * step + r && 0 <= r < step
    requires c == (if 2 * r < step then q
                   else if 2 * r > step then q + 1
                   else if q % 2 == 0 then q
                   else q + 1)
    ensures 2 * Abs(100 * u - c * p) <= p
    ensures 2 * Abs(100 * u - c * p) == p ==> c % 2 == 0
  {
    assert q * p == 100 * (q * step);
    assert (q + 1) * p == q * p + p;
  }

  /**
   * The number of hundredths in `round(d, 2)`: the multiple of 0.01 nearest
   * to `d`, ties going to the even multiple. The distance between `d` and
   * `c / 100` is `(100 * units - c * 10^places) / (100 * 10^places)`, so the
   * first ensures says that distance is at most half a hundredth.
   */
  function RoundToCents(d: Decimal): (c: int)
    ensures 2 * Abs(100 * d.units - c * Pow10(d.places)) <= Pow10(d.places)
    ensures 2 * Abs(100 * d.units - c * Pow10(d.places)) == Pow10(d.places) ==> c % 2 == 0
  {
    if d.places == 0 then
      d.units * 100
    else if d.places == 1 then
      assert Pow10(1) == 10;
      d.units * 10
    else
      var step := Pow10(d.places - 2);
      var q, r := d.units / step, d.units % step;
      var c := if 2 * r < step then q
               else if 2 * r > step then q + 1
               else if q % 2 == 0 then q
               else q + 1;
      Pow10Split(d.places);
      HalfEvenChoice(d.units, step, Pow10(d.places), q, r, c);
      c
  }

  /**
   * `str(v)` for a value whose text `Decimal` might read. A list or a dict
   * has no such text: its `str` begins with a bracket, which `Decimal`
   * refuses, so it is None here.
   */
  function PriceText(v: Value): Option<string> {
    match v
    case IntV(i) => Some(Render(Decimal(i, 0)))
    case FloatV(d) => Some(Render(d))
    case StrV(s) => Some(s)
    case BoolV(b) => Some(if b then "True" else "False")
    case NullV => Some("None")
    case ListV(_) => None
    case DictV(_) => None
  }

  /** `Decimal(str(v))` read literally: the text of `v`, parsed. */
  function DecimalOfText(v: Value): Option<Decimal> {
    match PriceText(v)
    case None => None
    case Some(t) => ParseDecimal(t)
  }

  /**
   * The decimal that `Decimal(str(v))` builds, or None where that raises,
   * by kind of value: a number keeps its value, a string is parsed, and
   * anything else is refused.
   */
  function PriceDecimal(v: Value): Option<Decimal> {
    match v
    case IntV(i) => Some(Decimal(i, 0))
    case FloatV(d) => Some(d)
    case StrV(s) => ParseDecimal(s)
    case _ => None
  }

  /** Reading by kind agrees with printing and parsing, for every value. */
  lemma PriceDecimalIsDecimalOfText(v: Value)
    ensures PriceDecimal(v) == DecimalOfText(v)
  {
    match v
    case IntV(i) => RenderParses(Decimal(i, 0));
    case FloatV(d) => RenderParses(d);
    case BoolV(b) => WordRefused(if b then "True" else "False");
    case NullV => WordRefused("None");
    case _ =>
  }

  /** Text that starts with anything but a sign, a point or a digit is not a decimal. */
  lemma WordRefused(w: string)
    requires |w| >= 1 && !IsSpace(w[0]) && !IsSpace(w[|w| - 1]) && '_' !in w
    requires w[0] != '+' && w[0] != '-' && w[0] != '.' && !IsDigit(w[0])
    ensures ParseDecimal(w) == None
  {
    CleanTextParses(w);
    var e := FirstIndex(w, {'e', 'E'});
    if e > 0 {
      var m := w[..e];
      var dot := FirstIndex(m, {'.'});
      assert dot > 0 && m[..dot][0] == w[0];
    }
  }

  /**
   * The hundredths of `round(Decimal(str(v)), 2)`, or None where Python
   * raises: the value is not a decimal number, or the rounded coefficient
   * has more digits than the context precision allows.
   */
  function PriceCents(v: Value): (r: Option<int>)
    ensures r.Some? ==> PriceDecimal(v).Some? && r.value == RoundToCents(PriceDecimal(v).value)
    ensures r.Some? ==> Abs(r.value) < MaxCoefficient
    ensures PriceDecimal(v).Some? && Abs(RoundToCents(PriceDecimal(v).value)) < MaxCoefficient ==> r.Some?
  {
    match PriceDecimal(v)
    case None => None
    case Some(d) =>
      var c := RoundToCents(d);
      if Abs(c) < MaxCoefficient then Some(c) else None
  }

  /** The sign facts about `c * p` that the price test needs. */
  lemma SignOfProduct(c: int, p: int)
    requires p >= 1
    ensures c <= 0 ==> c * p <= 0
    ensures c >= 1 ==> c * p >= p
    ensures c >= 2 ==> c * p >= 2 * p
  {
    if c >= 2 { assert c * p == (c - 2) * p + 2 * p; }
    if c >= 1 { assert c * p == (c - 1) * p + p; }
  }

  /**
   * A price passes the `price <= 0` test exactly when it exceeds half a
   * hundredth: 0.005 itself rounds to the even 0.00 and is refused.
   */
  lemma RoundedPositiveIff(d: Decimal)
    ensures RoundToCents(d) > 0 <==> 200 * d.units > Pow10(d.places)
  {
    var c, p := RoundToCents(d), Pow10(d.places);
    SignOfProduct(c, p);
  }
}
