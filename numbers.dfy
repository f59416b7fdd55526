/** JavaScript numbers as exact decimals, with the two conversions the client
    uses between numbers and text: `Number.parseFloat` and
    `Number.prototype.toFixed`. */
module Numbers {
  import opened Common
  import Text

  /** An exact decimal: `units / 10^scale`. */
  datatype Decimal = Decimal(units: int, scale: nat)

  /** A JavaScript number: a finite exact decimal, or `NaN` (`None`). */
  type Number = Option<Decimal>

  function Pow10(n: nat): (p: nat)
    ensures p >= 1
  {
    if n == 0 then 1 else 10 * Pow10(n - 1)
  }

  lemma {:induction false} Pow10Add(a: nat, b: nat)
    ensures Pow10(a + b) == Pow10(a) * Pow10(b)
    decreases a
  {
    if a > 0 {
      Pow10Add(a - 1, b);
      assert Pow10(a + b) == 10 * Pow10(a - 1 + b);
    }
  }

  function Abs(n: int): nat
  {
    if n < 0 then -n else n
  }

  lemma MulDistributes(a: int, b: int, m: int)
    ensures a * m - b * m == (a - b) * m
  {
  }

  lemma MulAtLeast(k: int, m: int)
    requires k >= 1 && m > 0
    ensures k * m >= m
  {
  }

  /** Quotient and remainder are determined by the division equation. */
  lemma DivModUnique(n: int, m: int, q: int, r: int)
    requires m > 0 && n == q * m + r && 0 <= r < m
    ensures n / m == q && n % m == r
  {
    var q', r' := n / m, n % m;
    assert n == q' * m + r';
    MulDistributes(q, q', m);
    if q > q' {
      MulAtLeast(q - q', m);
    } else if q < q' {
      MulDistributes(q', q, m);
      MulAtLeast(q' - q, m);
    }
  }

  /** Integer division of naturals. */
  function Div(a: nat, b: nat): (q: nat)
    requires b >= 1
    ensures q * b <= a < q * b + b
  {
    a / b
  }

  /** Remainder of the division of naturals. */
  function Mod(a: nat, b: nat): (r: nat)
    requires b >= 1
    ensures r < b && a == Div(a, b) * b + r
  {
    a % b
  }

  predicate IsDigit(c: char)
  {
    '0' <= c <= '9'
  }

  predicate AllDigits(s: string)
  {
    forall k :: 0 <= k < |s| ==> IsDigit(s[k])
  }

  function DigitChar(d: nat): (c: char)
    requires d < 10
    ensures IsDigit(c)
  {
    ('0' as int + d) as char
  }

  function DigitValue(c: char): nat
    requires IsDigit(c)
  {
    c as int - '0' as int
  }

  /** The number a string of decimal digits denotes. */
  function DigitsValue(s: string): nat
    requires AllDigits(s)
  {
    if s == [] then 0 else DigitsValue(s[..|s| - 1]) * 10 + DigitValue(s[|s| - 1])
  }

  /** `String(n)` for a natural number: its shortest decimal digits. */
  function DecimalDigits(n: nat): (s: string)
    ensures |s| >= 1 && AllDigits(s)
  {
    if n < 10 then [DigitChar(n)] else DecimalDigits(n / 10) + [DigitChar(n % 10)]
  }

  /** The last `width` decimal digits of `n`, zero-padded to exactly `width`. */
  function PaddedDigits(n: nat, width: nat): (s: string)
    ensures |s| == width && AllDigits(s)
  {
    if width == 0 then [] else PaddedDigits(n / 10, width - 1) + [DigitChar(n % 10)]
  }

  /** `String(i)` for an integer: its decimal digits, behind a minus sign
      when it is negative. */
  function IntToString(i: int): (s: string)
    ensures i >= 0 ==> |s| >= 1 && AllDigits(s) && DigitsValue(s) == i
    ensures i < 0 ==> |s| >= 2 && s[0] == '-' && AllDigits(s[1..]) && DigitsValue(s[1..]) == -i
  {
    if i < 0 then
      DecimalDigitsValue(-i);
      assert ("-" + DecimalDigits(-i))[1..] == DecimalDigits(-i);
      "-" + DecimalDigits(-i)
    else
      DecimalDigitsValue(i);
      DecimalDigits(i)
  }

  /** Distinct integers are written as distinct texts. */
  lemma IntToStringInjective(i: int, j: int)
    requires IntToString(i) == IntToString(j)
    ensures i == j
  {
  }

  lemma {:induction false} DecimalDigitsValue(n: nat)
    ensures DigitsValue(DecimalDigits(n)) == n
    decreases n
  {
    if n >= 10 {
      DecimalDigitsValue(n / 10);
      var s := DecimalDigits(n);
      assert s[..|s| - 1] == DecimalDigits(n / 10);
    }
  }

  lemma PaddedStep(n: nat, p: nat, q: nat, b: nat)
    requires p >= 1 && b < p && n / 10 == q * p + b
    ensures Mod(n, 10 * p) == 10 * b + n % 10
  {
    assert n == q * (10 * p) + (10 * b + n % 10);
    DivModUnique(n, 10 * p, q, 10 * b + n % 10);
  }

  lemma {:induction false} PaddedDigitsValue(n: nat, width: nat)
    ensures DigitsValue(PaddedDigits(n, width)) == Mod(n, Pow10(width))
    decreases width
  {
    if width == 0 {
      DivModUnique(n, 1, n, 0);
    } else {
      PaddedDigitsValue(n / 10, width - 1);
      var s := PaddedDigits(n, width);
      assert s[..|s| - 1] == PaddedDigits(n / 10, width - 1);
      var p := Pow10(width - 1);
      PaddedStep(n, p, Div(n / 10, p), Mod(n / 10, p));
    }
  }

  /** Length of the run of digits that `s` starts with. */
  function LeadingDigitCount(s: string): (n: nat)
    ensures n <= |s| && AllDigits(s[..n])
    ensures n < |s| ==> !IsDigit(s[n])
  {
    if s != [] && IsDigit(s[0]) then 1 + LeadingDigitCount(s[1..]) else 0
  }

  lemma {:induction false} LeadingDigitsOfConcat(a: string, b: string)
    requires AllDigits(a)
    requires b == [] || !IsDigit(b[0])
    ensures LeadingDigitCount(a + b) == |a|
    decreases |a|
  {
    if a != [] {
      LeadingDigitsOfConcat(a[1..], b);
      assert (a + b)[1..] == a[1..] + b;
    }
  }

  /** The digits after a leading `.`, up to the first non-digit. */
  function FractionDigits(rest: string): (f: string)
    ensures AllDigits(f) && |f| <= |rest|
  {
    if rest != [] && rest[0] == '.' then rest[1..][..LeadingDigitCount(rest[1..])] else ""
  }

  /** An unsigned decimal literal at the start of `u`: digits, then an
      optional `.digits`; `NaN` when neither part has a digit. */
  function ParseUnsigned(u: string): (x: Number)
    ensures x.Some? ==> x.value.units >= 0
  {
    var i := LeadingDigitCount(u);
    var frac := FractionDigits(u[i..]);
    if i + |frac| == 0 then None
    else Some(Decimal(DigitsValue(u[..i] + frac), |frac|))
  }

  function Negate(x: Number): Number
  {
    if x.Some? then Some(Decimal(-x.value.units, x.value.scale)) else None
  }

  lemma NegateSome(d: int, scale: nat)
    ensures Negate(Some(Decimal(d, scale))) == Some(Decimal(-d, scale))
  {
  }

  /** `Number.parseFloat(s)`: skips leading white space, reads an optional
      sign and an unsigned decimal literal, ignores whatever follows, and is
      `NaN` when no digit was read. */
  function ParseFloat(s: string): (x: Number)
    // Nothing but white space reads as `NaN`.
    ensures Text.TrimStart(s) == [] ==> x.None?
    // Only a leading minus sign makes the number negative.
    ensures x.Some? && x.value.units < 0 ==> Text.TrimStart(s) != [] && Text.TrimStart(s)[0] == '-'
  {
    var t := Text.TrimStart(s);
    if t != [] && t[0] == '-' then Negate(ParseUnsigned(t[1..]))
    else if t != [] && t[0] == '+' then ParseUnsigned(t[1..])
    else ParseUnsigned(t)
  }

  /** `|x| * 10^digits` rounded to the nearest integer, halves upwards. */
  function RoundedMagnitude(x: Decimal, digits: nat): nat
  {
    Div(2 * (Abs(x.units) * Pow10(digits)) + Pow10(x.scale), 2 * Pow10(x.scale))
  }

  /** The decimal a fixed-point rendering denotes when read back. */
  function Rounded(x: Decimal, digits: nat): Decimal
  {
    var m: int := RoundedMagnitude(x, digits);
    Decimal(if x.units < 0 then -m else m, digits)
  }

  /** The text after a point: the digits `f` behind a `.`, or nothing. */
  function PointAnd(f: string): string
  {
    if f == [] then "" else "." + f
  }

  /** The integer digits and fraction digits `toFixed` writes for the
      rounded magnitude `m` (in units of `10^-digits`). */
  function WholeDigits(m: nat, digits: nat): (w: string)
    ensures |w| >= 1 && AllDigits(w)
  {
    DecimalDigits(Div(m, Pow10(digits)))
  }

  function FractionOf(m: nat, digits: nat): (f: string)
    ensures |f| == digits && AllDigits(f)
  {
    PaddedDigits(Mod(m, Pow10(digits)), digits)
  }

  /** `x.toFixed(digits)`: a `-` for a negative number, the integer part, and
      (for `digits > 0`) a point followed by exactly `digits` digits; `NaN`
      stays `"NaN"`. */
  function ToFixed(x: Number, digits: nat): (s: string)
    ensures x.None? ==> s == "NaN"
  {
    match x
    case None => "NaN"
    case Some(v) =>
      var m := RoundedMagnitude(v, digits);
      (if v.units < 0 then "-" else "") + (WholeDigits(m, digits) + PointAnd(FractionOf(m, digits)))
  }

  /** `toFixed` written out from the rounded magnitude `m` and the digits `w`
      and `f` of its integer and fractional parts. */
  lemma ToFixedParts(v: Decimal, digits: nat, m: nat, w: string, f: string)
    requires m == RoundedMagnitude(v, digits)
    requires w == WholeDigits(m, digits) && f == FractionOf(m, digits)
    ensures ToFixed(Some(v), digits) == (if v.units < 0 then "-" else "") + (w + PointAnd(f))
  {
  }

  /** A number printed with `digits > 0` ends in a point and exactly `digits`
      digits, and starts with a minus sign exactly when it is negative. */
  lemma ToFixedLayout(v: Decimal, digits: nat)
    requires digits > 0
    ensures var s := ToFixed(Some(v), digits);
      |s| > digits + 1 && s[|s| - digits - 1] == '.' && AllDigits(s[|s| - digits..])
      && (s[0] == '-' <==> v.units < 0)
  {
    var m := RoundedMagnitude(v, digits);
    var w := WholeDigits(m, digits);
    var f := FractionOf(m, digits);
    ToFixedParts(v, digits, m, w, f);
    PointLayout(v.units < 0, w, f);
  }

  /** A sign, at least one digit, a point and the digits `f`: the point sits
      `|f|` places from the end, and only a sign can be a minus. */
  lemma PointLayout(negative: bool, w: string, f: string)
    requires |w| >= 1 && AllDigits(w) && |f| > 0 && AllDigits(f)
    ensures var s := (if negative then "-" else "") + (w + PointAnd(f));
      |s| > |f| + 1 && s[|s| - |f| - 1] == '.' && s[|s| - |f|..] == f
      && (s[0] == '-' <==> negative)
  {
    var s := (if negative then "-" else "") + (w + ("." + f));
    assert s[|s| - |f|..] == f;
    assert IsDigit(w[0]);
  }

  /** The exact product of two numbers; `NaN` absorbs. */
  function Mul(a: Number, b: Number): (c: Number)
    ensures c.Some? <==> a.Some? && b.Some?
  {
    if a.Some? && b.Some? then Some(Decimal(a.value.units * b.value.units, a.value.scale + b.value.scale))
    else None
  }

  /** `10^n` as a real number. */
  function RealPow10(n: nat): (p: real)
    ensures p >= 1.0
  {
    if n == 0 then 1.0 else 10.0 * RealPow10(n - 1)
  }

  lemma {:induction false} RealPow10Add(a: nat, b: nat)
    ensures RealPow10(a + b) == RealPow10(a) * RealPow10(b)
    decreases a
  {
    if a > 0 {
      RealPow10Add(a - 1, b);
      assert RealPow10(a + b) == 10.0 * RealPow10(a - 1 + b);
    }
  }

  /** The rational number a decimal denotes: `units / 10^scale`. */
  function Value(d: Decimal): real
  {
    d.units as real / RealPow10(d.scale)
  }

  lemma QuotientProduct(n: real, d: real, x: real, y: real, p: real, q: real)
    requires p > 0.0 && q > 0.0 && n == x * y && d == p * q
    ensures n / d == (x / p) * (y / q)
  {
    var u, v := x / p, y / q;
    assert x == u * p && y == v * q;
    assert n == (u * v) * d;
  }

  lemma RealOfProduct(n: int, x: int, y: int)
    requires n == x * y
    ensures n as real == x as real * y as real
  {
  }

  /** The product of two numbers denotes the product of their values. */
  lemma MulValue(a: Decimal, b: Decimal)
    ensures Mul(Some(a), Some(b)).Some?
    ensures Value(Mul(Some(a), Some(b)).value) == Value(a) * Value(b)
  {
    var m := Decimal(a.units * b.units, a.scale + b.scale);
    assert Mul(Some(a), Some(b)) == Some(m);
    RealOfProduct(m.units, a.units, b.units);
    RealPow10Add(a.scale, b.scale);
    QuotientProduct(m.units as real, RealPow10(m.scale),
      a.units as real, b.units as real, RealPow10(a.scale), RealPow10(b.scale));
  }

  lemma ShiftAndAdd(da: nat, p: nat, db: nat, d: nat)
    ensures (da * p + db) * 10 + d == da * (10 * p) + (db * 10 + d)
  {
  }

  /** The digits of `a` followed by those of `b` denote `a` shifted left by
      `|b|` places plus `b`. */
  lemma {:induction false} DigitsValueConcat(a: string, b: string)
    requires AllDigits(a) && AllDigits(b)
    ensures DigitsValue(a + b) == DigitsValue(a) * Pow10(|b|) + DigitsValue(b)
    decreases |b|
  {
    if b == [] {
      assert a + b == a;
    } else {
      var b' := b[..|b| - 1];
      DigitsValueConcat(a, b');
      assert (a + b)[..|a + b| - 1] == a + b';
      ShiftAndAdd(DigitsValue(a), Pow10(|b'|), DigitsValue(b'), DigitValue(b[|b| - 1]));
    }
  }

  /** An integer part and an optional fraction, as `toFixed` writes them,
      read back as an unsigned literal. */
  lemma ParseUnsignedRendered(w: string, f: string)
    requires |w| >= 1 && AllDigits(w) && AllDigits(f)
    ensures ParseUnsigned(w + PointAnd(f)) == Some(Decimal(DigitsValue(w + f), |f|))
  {
    var fraction := PointAnd(f);
    var u := w + fraction;
    LeadingDigitsOfConcat(w, fraction);
    assert u[..|w|] == w && u[|w|..] == fraction;
    LeadingDigitsOfConcat(f, "");
    assert f + "" == f;
    if f != [] {
      assert fraction[1..] == f;
    }
    assert FractionDigits(fraction) == f;
  }

  /** `parseFloat` of a literal that starts with a digit, possibly behind a
      minus sign. */
  lemma ParseSigned(negative: bool, u: string)
    requires u != [] && IsDigit(u[0])
    ensures ParseFloat((if negative then "-" else "") + u)
      == if negative then Negate(ParseUnsigned(u)) else ParseUnsigned(u)
  {
    if negative {
      ParseMinus(u);
    } else {
      assert "" + u == u;
      ParseDigitFirst(u);
    }
  }

  lemma ParseMinus(u: string)
    requires u != [] && IsDigit(u[0])
    ensures ParseFloat("-" + u) == Negate(ParseUnsigned(u))
  {
    var s := "-" + u;
    assert Text.TrimStart(s) == s;
    assert s[1..] == u;
  }

  lemma ParseDigitFirst(u: string)
    requires u != [] && IsDigit(u[0])
    ensures ParseFloat(u) == ParseUnsigned(u)
  {
    assert Text.TrimStart(u) == u;
  }

  /** The same, once the unsigned part is known to read as `d / 10^scale`. */
  lemma ParseSignedValue(negative: bool, u: string, d: nat, scale: nat)
    requires u != [] && IsDigit(u[0]) && ParseUnsigned(u) == Some(Decimal(d, scale))
    ensures ParseFloat((if negative then "-" else "") + u)
      == Some(Decimal(if negative then -(d as int) else d, scale))
  {
    ParseSigned(negative, u);
    NegateSome(d, scale);
  }

  /** What `toFixed` writes, read back: the digits of both parts as one
      integer over `10^|f|`, negated behind a minus sign. */
  lemma ParseRendered(negative: bool, w: string, f: string, d: nat)
    requires |w| >= 1 && AllDigits(w) && AllDigits(f) && AllDigits(w + f) && d == DigitsValue(w + f)
    ensures ParseFloat((if negative then "-" else "") + (w + PointAnd(f))) == Some(Decimal(if negative then -(d as int) else d, |f|))
  {
    ParseUnsignedRendered(w, f);
    ParseSignedValue(negative, w + PointAnd(f), d, |f|);
  }

  /** A rendering with `digits > 0` has its point and fractional digits in
      place, and reads back as the rounded number. */
  lemma FixedReadBack(v: Decimal, digits: nat, s: string)
    requires digits > 0 && s == ToFixed(Some(v), digits)
    ensures |s| > digits + 1 && s[|s| - digits - 1] == '.' && AllDigits(s[|s| - digits..])
    ensures ParseFloat(s) == Some(Rounded(v, digits))
  {
    ParseToFixed(v, digits);
    ToFixedLayout(v, digits);
  }

  /** Reading back what `toFixed` wrote gives the rounded number, with the
      sign and scale of the rendering. */
  lemma ParseToFixed(v: Decimal, digits: nat)
    ensures ParseFloat(ToFixed(Some(v), digits)) == Some(Rounded(v, digits))
  {
    var m := RoundedMagnitude(v, digits);
    var w := WholeDigits(m, digits);
    var f := FractionOf(m, digits);
    ToFixedParts(v, digits, m, w, f);
    RenderedDigitsValue(m, digits);
    ParseRendered(v.units < 0, w, f, m);
    assert Rounded(v, digits) == Decimal(if v.units < 0 then -(m as int) else m, |f|);
  }

  /** The digits `toFixed` writes for the magnitude `m` spell `m` again. */
  lemma RenderedDigitsValue(m: nat, digits: nat)
    ensures AllDigits(WholeDigits(m, digits) + FractionOf(m, digits))
    ensures DigitsValue(WholeDigits(m, digits) + FractionOf(m, digits)) == m
  {
    var p := Pow10(digits);
    var w := WholeDigits(m, digits);
    var f := FractionOf(m, digits);
    DigitsAppend(w, f);
    DecimalDigitsValue(Div(m, p));
    SmallRemainder(Mod(m, p), p);
    PaddedDigitsValue(Mod(m, p), digits);
    DigitsValueConcat(w, f);
  }

  lemma SmallRemainder(r: nat, p: nat)
    requires r < p
    ensures Mod(r, p) == r
  {
    DivModUnique(r, p, 0, r);
  }

  lemma DigitsAppend(a: string, b: string)
    requires AllDigits(a) && AllDigits(b)
    ensures AllDigits(a + b)
  {
  }

  lemma HalfUnitBound(a: nat, p: nat, m: nat)
    requires p >= 1 && m * (2 * p) <= 2 * a + p < m * (2 * p) + 2 * p
    ensures 2 * Abs(m * p - a) <= p
  {
    assert m * (2 * p) == 2 * (m * p);
  }

  /** `toFixed` is within half a unit of the last printed digit:
      `| m / 10^digits - |x| | <= 1 / (2 * 10^digits)`. */
  lemma RoundingError(x: Decimal, digits: nat)
    ensures 2 * Abs(RoundedMagnitude(x, digits) * Pow10(x.scale) - Abs(x.units) * Pow10(digits)) <= Pow10(x.scale)
  {
    HalfUnitBound(Abs(x.units) * Pow10(digits), Pow10(x.scale), RoundedMagnitude(x, digits));
  }

  lemma ExactQuotient(k: nat, p: nat)
    requires p >= 1
    ensures Div(2 * (k * p) + p, 2 * p) == k
  {
    assert 2 * (k * p) + p == k * (2 * p) + p;
    DivModUnique(2 * (k * p) + p, 2 * p, k, p);
  }

  /** A number with no more than `digits` fractional digits is printed
      exactly. */
  lemma ExactWhenFewerDigits(x: Decimal, digits: nat)
    requires x.scale <= digits
    ensures Rounded(x, digits) == Decimal(x.units * Pow10(digits - x.scale), digits)
  {
    var p := Pow10(x.scale);
    var q := Pow10(digits - x.scale);
    var k := Abs(x.units) * q;
    Pow10Add(digits - x.scale, x.scale);
    assert Pow10(digits) == q * p;
    MulAssociates(Abs(x.units), q, p);
    assert Abs(x.units) * Pow10(digits) == k * p;
    ExactQuotient(k, p);
    assert RoundedMagnitude(x, digits) == k;
    SignedProduct(x.units, q);
  }

  lemma MulAssociates(a: int, b: int, c: int)
    ensures a * (b * c) == a * b * c
  {
  }

  lemma SignedProduct(u: int, q: int)
    ensures (if u < 0 then -(Abs(u) * q) else Abs(u) * q) == u * q
  {
  }
}
