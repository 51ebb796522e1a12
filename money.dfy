/**
 * Money amounts. The server stores prices in decimal fields with two decimal places and sends them as
 * strings; the client turns them into numbers with `Number(...)`. Amounts are modelled exactly, in cents.
 */
module Money {
  import opened Wrappers
  import opened Text

  /** A number on the client after `Number(...)`: an amount in cents, or NaN. */
  datatype Num = Cents(cents: int) | NaN

  /** `Number(x) || 0`: NaN and zero both count as 0. */
  function OrZero(n: Num): (r: int)
    ensures n.NaN? ==> r == 0
    ensures n.Cents? ==> r == n.cents
  {
    if n.Cents? then n.cents else 0
  }

  /** The value of the numeral `whole.frac`, at most two fraction digits and at least one digit in all. */
  function DecimalValue(whole: string, frac: string): Option<nat> {
    if AllDigits(whole) && AllDigits(frac) && |frac| <= 2 && |whole| + |frac| > 0
    then Some(ParseNat(whole) * 100 + ParseNat(frac) * (if |frac| == 1 then 10 else 1))
    else None
  }

  /** The value of an unsigned decimal numeral ("12", "12.5", "12.50", ".5", "5."). */
  function ParseUnsigned(s: string): Option<nat> {
    var k := IndexOf(s, '.');
    DecimalValue(s[..k], if k < |s| then s[k + 1..] else "")
  }

  /** JavaScript's `Number(s)`: the empty string is 0, a signed decimal numeral is its value, anything else NaN. */
  function ParseNumber(s: string): (r: Num)
    ensures s == [] ==> r == Cents(0)
    ensures s != [] && AllDigits(s) ==> r == Cents(ParseNat(s) * 100)
    ensures s != [] && !IsDigit(s[0]) && s[0] !in "+-." ==> r.NaN?
  {
    ParseUnsignedShape(s);
    if s == "" then Cents(0)
    else if s[0] == '-' then (match ParseUnsigned(s[1..]) case Some(v) => Cents(-(v as int)) case None => NaN)
    else if s[0] == '+' then (match ParseUnsigned(s[1..]) case Some(v) => Cents(v) case None => NaN)
    else (match ParseUnsigned(s) case Some(v) => Cents(v) case None => NaN)
  }

  /** Whole digits read as that many units; a text starting with neither a digit nor a point is no numeral. */
  lemma ParseUnsignedShape(s: string)
    ensures s != [] && AllDigits(s) ==> ParseUnsigned(s) == Some(ParseNat(s) * 100)
    ensures s != [] && !IsDigit(s[0]) && s[0] != '.' ==> ParseUnsigned(s).None?
  {
    if s != [] && AllDigits(s) {
      ParseUnsignedNoDot(s);
    }
    if s != [] && !IsDigit(s[0]) && s[0] != '.' {
      var k := IndexOf(s, '.');
      assert s[..k][0] == s[0];
    }
  }

  function TwoDigits(r: nat): (t: string)
    requires r < 100
    ensures |t| == 2 && AllDigits(t)
  {
    [DigitChar(r / 10), DigitChar(r % 10)]
  }

  function Abs(c: int): nat {
    if c < 0 then -c else c
  }

  /**
   * `x.toFixed(2)` in JavaScript and `f"{x:.2f}"` in Python; also how the server renders a price
   * stored in a two-decimal field ("19.99", "-0.50").
   */
  function Fixed2(c: int): (r: string)
    ensures |r| >= 4 && r[|r| - 3] == '.' && AllDigits(r[|r| - 2..])
    ensures r[0] == '-' <==> c < 0
  {
    (if c < 0 then "-" else "") + Unsigned2(Abs(c))
  }

  /** `a` cents as whole units, a point and exactly two decimals. */
  function Unsigned2(a: nat): (r: string)
    ensures |r| >= 4 && r[|r| - 3] == '.' && AllDigits(r[|r| - 2..]) && IsDigit(r[0])
  {
    var w := NatToString(a / 100);
    var t := TwoDigits(a % 100);
    assert (w + "." + t)[|w| + 1..] == t;
    w + "." + t
  }

  /** JavaScript's `String(x)` for a number with at most two decimals: "12", "12.5", "12.05", "NaN". */
  function JsString(n: Num): (r: string)
    ensures n.NaN? ==> r == "NaN"
    ensures n.Cents? ==> r != [] && (r[0] == '-' <==> n.cents < 0)
    ensures n.Cents? && n.cents % 100 == 0 ==> '.' !in r
  {
    match n
    case NaN => "NaN"
    case Cents(c) => (if c < 0 then "-" else "") + UnsignedString(Abs(c))
  }

  /** The shortest decimal numeral of `a` cents: trailing fraction zeros and a bare point dropped. */
  function UnsignedString(a: nat): (r: string)
    ensures r != [] && IsDigit(r[0])
    ensures a % 100 == 0 ==> '.' !in r
  {
    NoDotInDigits(NatToString(a / 100));
    NatToString(a / 100)
    + (if a % 100 == 0 then ""
       else if a % 100 % 10 == 0 then "." + [DigitChar(a % 100 / 10)]
       else "." + TwoDigits(a % 100))
  }

  lemma ParseTwoDigits(r: nat)
    requires r < 100
    ensures ParseNat(TwoDigits(r)) == r
  {
    var t := TwoDigits(r);
    assert t[..1] == [t[0]];
    assert [t[0]][..0] == [];
    assert ParseNat([t[0]]) == r / 10;
    assert ParseNat(t) == ParseNat([t[0]]) * 10 + r % 10;
  }

  lemma ParseOneDigit(d: nat)
    requires d < 10
    ensures ParseNat([DigitChar(d)]) == d
  {
    assert [DigitChar(d)][..0] == [];
  }

  lemma NoDotInDigits(w: string)
    requires AllDigits(w)
    ensures '.' !in w
  {
    assert !IsDigit('.');
  }

  lemma ParseUnsignedWithDot(w: string, f: string)
    requires AllDigits(w) && AllDigits(f) && |f| <= 2 && |w| >= 1
    ensures ParseUnsigned(w + "." + f) == DecimalValue(w, f)
    ensures ParseUnsigned(w + ("." + f)) == DecimalValue(w, f)
  {
    assert w + ("." + f) == w + "." + f;
    var s := w + "." + f;
    NoDotInDigits(w);
    IndexOfJoin(w, '.', f);
    assert IndexOf(s, '.') == |w|;
    assert s[..|w|] == w;
    assert s[|w| + 1..] == f;
  }

  lemma DecimalValueOf(w: string, f: string, x: nat, y: nat, v: nat)
    requires AllDigits(w) && AllDigits(f) && |f| <= 2 && |w| >= 1 && ParseNat(w) == x && ParseNat(f) == y
    requires v == x * 100 + y * (if |f| == 1 then 10 else 1)
    ensures DecimalValue(w, f) == Some(v)
  {
  }

  lemma ParseUnsignedNoDot(w: string)
    requires AllDigits(w) && |w| >= 1
    ensures ParseUnsigned(w) == DecimalValue(w, "")
  {
    NoDotInDigits(w);
    assert IndexOf(w, '.') == |w|;
    assert w[..|w|] == w;
  }

  /** Reads the sign off a rendering that starts with '-' exactly for negative amounts. */
  lemma ParseSigned(c: int, body: string)
    requires |body| >= 1 && IsDigit(body[0])
    requires ParseUnsigned(body) == Some(Abs(c))
    ensures ParseNumber((if c < 0 then "-" else "") + body) == Cents(c)
  {
    var s := (if c < 0 then "-" else "") + body;
    if c < 0 {
      assert s[1..] == body;
    } else {
      assert s == body;
    }
  }

  lemma DivModHundred(a: nat)
    ensures a / 100 * 100 + a % 100 == a
    ensures a % 100 / 10 * 10 == a % 100 <== a % 100 % 10 == 0
  {
    var m := a % 100;
    assert m == m / 10 * 10 + m % 10;
  }

  /** A price rendered with two decimals reads back as the same amount: the server's string survives `Number(...)`. */
  lemma ParseFixed2(c: int)
    ensures ParseNumber(Fixed2(c)) == Cents(c)
  {
    ParseUnsigned2(Abs(c));
    ParseSigned(c, Unsigned2(Abs(c)));
  }

  lemma ParseUnsigned2(a: nat)
    ensures ParseUnsigned(Unsigned2(a)) == Some(a)
  {
    var w := NatToString(a / 100);
    var f := TwoDigits(a % 100);
    ParseUnsignedWithDot(w, f);
    ParseTwoDigits(a % 100);
    ParseNatToString(a / 100);
    DivModHundred(a);
    assert a == a / 100 * 100 + a % 100;
    DecimalValueOf(w, f, a / 100, a % 100, a);
  }

  lemma ParseWholeAmount(a: nat)
    requires a % 100 == 0
    ensures ParseUnsigned(UnsignedString(a)) == Some(a)
  {
    var w := NatToString(a / 100);
    ParseNatToString(a / 100);
    DivModHundred(a);
    ParseUnsignedNoDot(w);
    assert UnsignedString(a) == w;
  }

  lemma ParseOneDecimal(a: nat)
    requires a % 100 != 0 && a % 100 % 10 == 0
    ensures ParseUnsigned(UnsignedString(a)) == Some(a)
  {
    var w := NatToString(a / 100);
    var f := [DigitChar(a % 100 / 10)];
    ParseNatToString(a / 100);
    DivModHundred(a);
    ParseUnsignedWithDot(w, f);
    ParseOneDigit(a % 100 / 10);
    assert a == a / 100 * 100 + a % 100 / 10 * 10;
    DecimalValueOf(w, f, a / 100, a % 100 / 10, a);
    assert UnsignedString(a) == w + ("." + f);
  }

  lemma ParseTwoDecimals(a: nat)
    requires a % 100 % 10 != 0
    ensures ParseUnsigned(UnsignedString(a)) == Some(a)
  {
    var w := NatToString(a / 100);
    var f := TwoDigits(a % 100);
    ParseNatToString(a / 100);
    DivModHundred(a);
    ParseUnsignedWithDot(w, f);
    ParseTwoDigits(a % 100);
    assert a == a / 100 * 100 + a % 100;
    DecimalValueOf(w, f, a / 100, a % 100, a);
    assert UnsignedString(a) == w + ("." + f);
  }

  lemma ParseUnsignedString(a: nat)
    ensures ParseUnsigned(UnsignedString(a)) == Some(a)
  {
    if a % 100 == 0 {
      ParseWholeAmount(a);
    } else if a % 100 % 10 == 0 {
      ParseOneDecimal(a);
    } else {
      ParseTwoDecimals(a);
    }
  }

  /** `String(x)` of an amount reads back as the same amount, so a price filter survives the query string. */
  lemma ParseJsString(c: int)
    ensures ParseNumber(JsString(Cents(c))) == Cents(c)
  {
    ParseUnsignedString(Abs(c));
    ParseSigned(c, UnsignedString(Abs(c)));
  }

  // ---------------------------------------------------------------------------------------------
  // Decimals on the server

  /** An exact decimal number `units / 10^scale`, as Python's `Decimal` holds it. */
  datatype Decimal = Decimal(units: int, scale: nat)

  /** An unsigned numeral `whole.frac` with any number of fraction digits and at least one digit in all. */
  function ParseUnsignedDecimal(s: string): Option<Decimal> {
    var k := IndexOf(s, '.');
    var whole := s[..k];
    var frac := if k < |s| then s[k + 1..] else "";
    if AllDigits(whole) && AllDigits(frac) && |whole| + |frac| > 0
    then Some(Decimal(ParseNat(whole + frac), |frac|))
    else None
  }

  /** A run of digits is a whole decimal. */
  lemma DigitsAsDecimal(s: string)
    ensures s != [] && AllDigits(s) ==> ParseUnsignedDecimal(s) == Some(Decimal(ParseNat(s), 0))
  {
    if s != [] && AllDigits(s) {
      NoDotInDigits(s);
      assert s + "" == s;
    }
  }

  /** `Decimal(s)` for an optionally signed numeral; any other text, the empty text included, is refused. */
  function ParseDecimal(s: string): (r: Option<Decimal>)
    ensures s == [] ==> r.None?
    ensures s != [] && AllDigits(s) ==> r == Some(Decimal(ParseNat(s), 0))
  {
    DigitsAsDecimal(s);
    if s != [] && s[0] == '-' then
      match ParseUnsignedDecimal(s[1..])
      case Some(d) => Some(Decimal(-d.units, d.scale))
      case None => None
    else if s != [] && s[0] == '+' then ParseUnsignedDecimal(s[1..])
    else ParseUnsignedDecimal(s)
  }

  /** `d` is exactly `c` cents. */
  predicate Represents(d: Decimal, c: int) {
    d.units * 100 == c * Pow10(d.scale)
  }

  /** A price of `c` cents is at least `d` (the `price__gte` lookup). */
  predicate AtLeast(c: int, d: Decimal) {
    c * Pow10(d.scale) >= d.units * 100
  }

  /** A price of `c` cents is at most `d` (the `price__lte` lookup). */
  predicate AtMost(c: int, d: Decimal) {
    c * Pow10(d.scale) <= d.units * 100
  }

  lemma {:induction false} NonNegativeProduct(x: nat, m: nat)
    ensures x * m >= 0
  {
    if x > 0 {
      NonNegativeProduct(x - 1, m);
      assert x * m == (x - 1) * m + m;
    }
  }

  lemma ScaledOrder(p: int, c: int, m: int)
    requires m >= 1
    ensures p * m >= c * m <==> p >= c
  {
    var x := p - c;
    assert p * m - c * m == x * m;
    if x >= 0 {
      NonNegativeProduct(x, m);
    } else {
      NonNegativeProduct(-x - 1, m);
      assert (-x) * m == (-x - 1) * m + m;
      assert x * m == -((-x) * m);
    }
  }

  /** Against a decimal that is exactly `c` cents, the bounds compare prices with `c`. */
  lemma BoundsAgainstExact(d: Decimal, c: int, p: int)
    requires Represents(d, c)
    ensures AtLeast(p, d) <==> p >= c
    ensures AtMost(p, d) <==> p <= c
  {
    ScaledOrder(p, c, Pow10(d.scale));
    ScaledOrder(c, p, Pow10(d.scale));
  }

  lemma UnsignedDecimalAgrees(s: string)
    requires ParseUnsigned(s).Some?
    ensures ParseUnsignedDecimal(s).Some? && Represents(ParseUnsignedDecimal(s).value, ParseUnsigned(s).value)
  {
    var k := IndexOf(s, '.');
    var whole := s[..k];
    var frac := if k < |s| then s[k + 1..] else "";
    DigitsAgree(whole, frac);
  }

  /** The digits `whole.frac` read as a decimal of scale `|frac|` represent their value in cents. */
  lemma DigitsAgree(whole: string, frac: string)
    requires DecimalValue(whole, frac).Some?
    ensures Represents(Decimal(ParseNat(whole + frac), |frac|), DecimalValue(whole, frac).value)
  {
    ParseNatAppend(whole, frac);
    CentsScale(ParseNat(whole), ParseNat(frac), |frac|, Pow10(|frac|), ParseNat(whole + frac));
  }

  /** `w.f` with `n` fraction digits, scaled to cents, agrees with its value as a decimal of scale `n`. */
  lemma CentsScale(w: int, f: int, n: nat, p: int, units: int)
    requires n <= 2 && (n == 0 ==> f == 0) && p == Pow10(n) && units == w * p + f
    ensures units * 100 == (w * 100 + f * (if n == 1 then 10 else 1)) * p
  {
    if n == 0 {
      assert p == 1;
    } else if n == 1 {
      assert p == 10;
    } else {
      assert p == 100;
    }
  }

  lemma NegatedRepresents(d: Decimal, v: int)
    requires Represents(d, v)
    ensures Represents(Decimal(-d.units, d.scale), -v)
  {
    assert (-d.units) * 100 == -(d.units * 100);
    assert (-v) * Pow10(d.scale) == -(v * Pow10(d.scale));
  }

  /** A non-empty text that `Number(...)` reads as `c` cents is a decimal the server reads as exactly `c` cents. */
  lemma DecimalAgreesWithNumber(s: string, c: int)
    requires s != [] && ParseNumber(s) == Cents(c)
    ensures ParseDecimal(s).Some? && Represents(ParseDecimal(s).value, c)
  {
    if s[0] == '-' {
      UnsignedDecimalAgrees(s[1..]);
      NegatedRepresents(ParseUnsignedDecimal(s[1..]).value, ParseUnsigned(s[1..]).value);
    } else if s[0] == '+' {
      UnsignedDecimalAgrees(s[1..]);
    } else {
      UnsignedDecimalAgrees(s);
    }
  }
}
