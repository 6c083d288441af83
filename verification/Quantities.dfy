/** Exact localization of scaled quantities (src/packages/ir/quantities.py). */
module Quantities {
  import opened Wrappers
  import opened Decimals
  import opened Numbers

  /** Digits the decimal context keeps. */
  const PRECISION := 120

  /** A decimal value `(-1)^negative * coefficient * 10^exponent`, as its arithmetic represents it. */
  datatype Decimal = Decimal(negative: bool, coefficient: nat, exponent: int)

  function AsScaled(d: Decimal): Scaled {
    Signed(d.negative, Scaled(d.coefficient, d.exponent))
  }

  /** The nearest number of units, the even one of two equally near. */
  function HalfEven(c: nat, unit: nat): nat
    requires unit > 0
  {
    var q, r := c / unit, c % unit;
    if 2 * r > unit || (2 * r == unit && q % 2 == 1) then q + 1 else q
  }

  /** Rounding to the context precision, half to even. */
  function Round(d: Decimal, precision: nat): Decimal {
    if d.coefficient < Pow10(precision) then d
    else
      var k := |NatText(d.coefficient)| - precision;
      if k <= 0 then d else Decimal(d.negative, HalfEven(d.coefficient, Pow10(k)), d.exponent + k)
  }

  function TimesPow10(d: Decimal, exponent: nat, precision: nat): Decimal {
    Round(Decimal(d.negative, d.coefficient * Pow10(exponent), d.exponent), precision)
  }

  /** Trailing zeros are dropped until the exponent reaches the ideal one. */
  function TowardIdeal(c: nat, exponent: int, ideal: int): (r: (nat, int))
    ensures r.1 <= Max(exponent, ideal)
    decreases ideal - exponent
  {
    if exponent < ideal && c % 10 == 0 then TowardIdeal(c / 10, exponent + 1, ideal) else (c, exponent)
  }

  /** Exact division by a power of ten keeps the exponent as close to the dividend's as it can. */
  function DividePow10(d: Decimal, scale: nat, precision: nat): Decimal {
    var (c, e) := TowardIdeal(d.coefficient, d.exponent - scale, d.exponent);
    Round(Decimal(d.negative, c, e), precision)
  }

  /** The digits before and behind the point. */
  function FixedParts(d: Decimal): (string, string)
    requires d.exponent < 0
  {
    var digits, places := NatText(d.coefficient), -d.exponent;
    if |digits| <= places then ("0", Zeros(places - |digits|) + digits)
    else (digits[..|digits| - places], digits[|digits| - places..])
  }

  /** Fixed-point text of a decimal without a positive exponent. */
  function Fixed(d: Decimal): string
    requires d.exponent <= 0
  {
    if d.exponent == 0 then Sign(d.negative) + NatText(d.coefficient)
    else Sign(d.negative) + (FixedParts(d).0 + "." + FixedParts(d).1)
  }

  function TrimZeros(s: string): string {
    if '.' in s then StripRight(StripRight(s, {'0'}), {'.'}) else s
  }

  predicate AtLeast(d: Decimal, power: nat)
    requires d.exponent <= 0
  {
    d.coefficient >= Pow10(power) * Pow10(-d.exponent)
  }

  datatype Unit = Plain | TenThousand | HundredMillion

  function UnitScale(u: Unit): nat {
    match u case Plain => 0 case TenThousand => 4 case HundredMillion => 8
  }

  function UnitText(u: Unit, traditional: bool): string {
    match u
    case Plain => ""
    case TenThousand => if traditional then "\U{842C}" else "\U{4E07}"
    case HundredMillion => if traditional then "\U{5104}" else "\U{4EBF}"
  }

  datatype Localized = Localized(number: string, unit: Unit)

  function UnitOf(number: Decimal): Unit
    requires number.exponent <= 0
  {
    if AtLeast(number, 8) then HundredMillion else if AtLeast(number, 4) then TenThousand else Plain
  }

  /** The numeral read as a decimal: its digits with as many places as it has after the point. */
  function Read(p: Parts): (d: Decimal)
    ensures d.exponent <= 0
  {
    Decimal(p.negative, Nat(p.whole + p.fraction), -|p.fraction|)
  }

  function InUnit(number: Decimal, unit: Unit, precision: nat): Localized {
    var quotient := DividePow10(number, UnitScale(unit), precision);
    if quotient.exponent <= 0 then Localized(TrimZeros(Fixed(quotient)), unit) else Localized("", unit)
  }

  function LocalizeParts(p: Parts, exponent: nat, precision: nat): Localized {
    var number := TimesPow10(Read(p), exponent, precision);
    InUnit(number, if number.exponent <= 0 then UnitOf(number) else Plain, precision)
  }

  /** `literal` is the matched numeral without commas, `exponent` the power of its scale word. */
  function LocalizeLiteral(literal: string, exponent: nat): Localized {
    LocalizeParts(Parse(literal), exponent, PRECISION)
  }

  /** `localize_quantity` for a value of `length` characters that matched the quantity pattern. */
  function LocalizeQuantity(literal: string, exponent: nat, length: nat, chinese: bool,
      traditional: bool): Option<string> {
    if !chinese || length > 100 then None
    else
      var r := LocalizeLiteral(literal, exponent);
      Some(r.number + UnitText(r.unit, traditional))
  }

  /** `[+-] digits [. digits]` of at most a hundred characters. */
  ghost predicate PlainLiteral(literal: string) {
    && Literal(literal) && Parse(literal).exponent == "" && |Parse(literal).whole| + |Parse(literal).fraction| <= 100
  }

  lemma {:induction false} BelowPrecision(c: nat, digits: nat, exponent: nat, precision: nat)
    requires c < Pow10(digits) && digits + exponent <= precision
    ensures c * Pow10(exponent) < Pow10(precision)
  {
    Pow10Add(digits, exponent);
    Pow10Mono(digits + exponent, precision);
    ProductBelow(c, Pow10(digits), Pow10(exponent), Pow10(exponent));
  }

  lemma {:induction false} ProductBelow(a: nat, b: nat, c: nat, d: nat)
    requires a < b && 0 < c <= d
    ensures a * c < b * d
  {
    assert a * c < b * c <= b * d by {
      assert (b - a) * c > 0;
      assert b * (d - c) >= 0;
    }
  }

  lemma {:induction false} IdealKeepsNumber(c: nat, exponent: int, ideal: int)
    ensures var (q, e) := TowardIdeal(c, exponent, ideal);
      && q <= c && (exponent <= ideal ==> e <= ideal)
      && Reduce(Scaled(q, e)) == Reduce(Scaled(c, exponent))
    decreases ideal - exponent
  {
    if exponent < ideal && c % 10 == 0 {
      IdealKeepsNumber(c / 10, exponent + 1, ideal);
    }
  }

  lemma {:induction false} ReduceSign(negative: bool, a: Scaled, b: Scaled)
    requires a.coefficient >= 0 && b.coefficient >= 0 && Reduce(a) == Reduce(b)
    ensures Reduce(Signed(negative, a)) == Reduce(Signed(negative, b))
  {
    SignedReduce(negative, a);
    SignedReduce(negative, b);
  }

  lemma {:induction false} SignedReduce(negative: bool, a: Scaled)
    requires a.coefficient >= 0
    ensures Reduce(Signed(negative, a)) == Signed(negative, Reduce(a))
  {
    if negative { ReduceNegated(a); }
  }

  lemma {:induction false} ReduceNegated(a: Scaled)
    requires a.coefficient >= 0
    ensures Reduce(Negate(a)) == Negate(Reduce(a))
    decreases a.coefficient
  {
    if a.coefficient != 0 && a.coefficient % 10 == 0 {
      assert (-a.coefficient) / 10 == -(a.coefficient / 10) && (-a.coefficient) % 10 == 0;
      ReduceNegated(Scaled(a.coefficient / 10, a.power + 1));
    }
  }

  lemma {:induction false} StripAfterPoint(head: string, f: string)
    ensures StripRight(head + "." + f, {'0'}) == head + "." + StripRight(f, {'0'})
  {
    var s := head + "." + f;
    if f == "" {
      assert s[|s| - 1] == '.';
    } else if f[|f| - 1] == '0' {
      assert s[..|s| - 1] == head + "." + f[..|f| - 1];
      StripAfterPoint(head, f[..|f| - 1]);
    }
  }

  /** Trimming removes zeros behind the point, and a bare point with them. */
  lemma {:induction false} TrimPointed(head: string, f: string)
    requires head != "" && Digit(head[|head| - 1]) && Digits(f)
    ensures var g := StripRight(f, {'0'});
      TrimZeros(head + "." + f) == if g == "" then head else head + "." + g
  {
    var g := StripRight(f, {'0'});
    var s := head + "." + f;
    assert s[|head|] == '.';
    StripAfterPoint(head, f);
    StripRightZeros(f);
    var t := head + "." + g;
    if g == "" {
      assert t[..|t| - 1] == head;
      assert StripRight(t, {'.'}) == StripRight(head, {'.'}) == head;
    } else {
      assert t[|t| - 1] == g[|g| - 1] == f[|g| - 1];
    }
  }

  lemma {:induction false} WholeAndFraction(negative: bool, whole: string, f: string, n: nat)
    requires Nat(whole + f) == n
    ensures Worth(Parts(negative, whole, f, "")) == Signed(negative, Scaled(n, -|f|))
  {}

  /** Zeros behind the point do not change the number. */
  lemma {:induction false} PaddedFraction(negative: bool, whole: string, g: string, k: nat)
    ensures Reduce(Worth(Parts(negative, whole, g + Zeros(k), ""))) == Reduce(Worth(Parts(negative, whole, g, "")))
  {
    var n := Nat(whole + g);
    assert whole + (g + Zeros(k)) == (whole + g) + Zeros(k);
    NatTrailingZeros(whole + g, k);
    WholeAndFraction(negative, whole, g, n);
    WholeAndFraction(negative, whole, g + Zeros(k), n * Pow10(k));
    ReducePaddedSigned(negative, n, k, -(|g| + k));
  }

  lemma {:induction false} SignedHead(negative: bool, whole: string, f: string)
    requires whole != "" && Digits(whole)
    ensures Sign(negative) + (whole + "." + f) == (Sign(negative) + whole) + "." + f
    ensures (Sign(negative) + whole) != "" && Digit((Sign(negative) + whole)[|Sign(negative) + whole| - 1])
  {}

  lemma {:induction false} PlainCharacters(negative: bool, whole: string, g: string)
    requires Digits(whole) && Digits(g)
    ensures var text := Sign(negative) + (whole + (if g != "" then "." + g else ""));
      forall i :: 0 <= i < |text| ==> Digit(text[i]) || text[i] in {'+', '-', '.', 'e', 'E'}
  {}

  lemma {:induction false} IsLiteral(text: string, whole: string, g: string)
    requires Parse(text).whole == whole && Parse(text).fraction == g && Parse(text).exponent == ""
    requires whole != "" && Digits(whole) && Digits(g)
    requires forall i :: 0 <= i < |text| ==> Digit(text[i]) || text[i] in {'+', '-', '.', 'e', 'E'}
    ensures Literal(text)
  {}

  lemma {:induction false} PlainText(negative: bool, whole: string, g: string)
    requires whole != "" && Digits(whole) && Digits(g)
    ensures var text := Sign(negative) + (whole + (if g != "" then "." + g else ""));
      Parse(text) == Parts(negative, whole, g, "") && Literal(text)
  {
    ParsePlain(Sign(negative), whole, g, g != "");
    PlainCharacters(negative, whole, g);
    IsLiteral(Sign(negative) + (whole + (if g != "" then "." + g else "")), whole, g);
  }

  lemma {:induction false} Joined(sign: string, whole: string, g: string)
    ensures sign + (whole + ("." + g)) == (sign + whole) + "." + g
    ensures sign + (whole + "." + g) == (sign + whole) + "." + g
  {}

  lemma {:induction false} TrimmedIs(negative: bool, whole: string, f: string, g: string)
    requires whole != "" && Digits(whole) && Digits(f) && g == StripRight(f, {'0'})
    ensures TrimZeros(Sign(negative) + (whole + "." + f)) ==
      Sign(negative) + (whole + (if g != "" then "." + g else ""))
  {
    var sign := Sign(negative);
    SignedHead(negative, whole, f);
    TrimPointed(sign + whole, f);
    Joined(sign, whole, f);
    Joined(sign, whole, g);
    assert whole + "" == whole;
  }

  /** Reading a trimmed pointed text back. */
  lemma {:induction false} TrimmedText(negative: bool, whole: string, f: string)
    requires whole != "" && Digits(whole) && Digits(f)
    ensures var text := TrimZeros(Sign(negative) + (whole + "." + f));
      Parse(text) == Parts(negative, whole, StripRight(f, {'0'}), "") && Literal(text)
  {
    var g := StripRight(f, {'0'});
    StripRightZeros(f);
    assert Digits(g) by { assert g == f[..|g|]; }
    TrimmedIs(negative, whole, f, g);
    PlainText(negative, whole, g);
  }

  lemma {:induction false} ZeroShape(digits: string, n: nat)
    requires Digits(digits)
    ensures Digits("0") && Digits(Zeros(n) + digits) && Nat("0" + (Zeros(n) + digits)) == Nat(digits)
  {
    PaddedNat(n, digits);
  }

  lemma {:induction false} CutShape(digits: string, point: nat)
    requires Digits(digits) && 0 < point <= |digits|
    ensures digits[..point] != "" && Digits(digits[..point]) && Digits(digits[point..])
    ensures Nat(digits[..point] + digits[point..]) == Nat(digits)
  {
    assert digits[..point] + digits[point..] == digits;
  }

  lemma {:induction false} FixedShape(d: Decimal)
    requires d.exponent < 0
    ensures var (whole, f) := FixedParts(d);
      whole != "" && Digits(whole) && Digits(f) && Nat(whole + f) == d.coefficient && |f| == -d.exponent
  {
    var digits, places := NatText(d.coefficient), -d.exponent;
    if |digits| <= places { ZeroShape(digits, places - |digits|); } else { CutShape(digits, |digits| - places); }
  }

  ghost predicate PrintsExactly(text: string, value: Scaled) {
    Reduce(Denote(text)) == Reduce(value) && Literal(text) && Parse(text).exponent == ""
  }

  /** The fixed-point text of a decimal, trimmed, denotes exactly that decimal. */
  lemma {:induction false} FixedDenotes(d: Decimal)
    requires d.exponent <= 0
    ensures PrintsExactly(TrimZeros(Fixed(d)), AsScaled(d))
  {
    if d.exponent == 0 {
      FixedWhole(d.negative, NatText(d.coefficient));
    } else {
      FixedPoint(d);
    }
  }

  lemma {:induction false} FixedPoint(d: Decimal)
    requires d.exponent < 0
    ensures PrintsExactly(TrimZeros(Fixed(d)), AsScaled(d))
  {
    FixedShape(d);
    FixedPointed(d.negative, FixedParts(d).0, FixedParts(d).1, d.coefficient);
  }

  lemma {:induction false} FixedWhole(negative: bool, digits: string)
    requires digits != "" && Digits(digits)
    ensures TrimZeros(Sign(negative) + digits) == Sign(negative) + digits
    ensures PrintsExactly(Sign(negative) + digits, Signed(negative, Scaled(Nat(digits), 0)))
  {
    PlainText(negative, digits, "");
    WorthPlain(negative, digits);
    assert digits + "" == digits;
  }

  lemma {:induction false} PrintsPart(text: string, p: Parts, value: Scaled)
    requires Parse(text) == p && p.exponent == "" && Literal(text) && Reduce(Worth(p)) == Reduce(value)
    ensures PrintsExactly(text, value)
  {}

  lemma {:induction false} FixedPointed(negative: bool, whole: string, f: string, n: nat)
    requires whole != "" && Digits(whole) && Digits(f) && Nat(whole + f) == n
    ensures PrintsExactly(TrimZeros(Sign(negative) + (whole + "." + f)), Signed(negative, Scaled(n, -|f|)))
  {
    TrimmedText(negative, whole, f);
    StrippedWorth(negative, whole, f, n);
    PrintsPart(TrimZeros(Sign(negative) + (whole + "." + f)), Parts(negative, whole, StripRight(f, {'0'}), ""),
      Signed(negative, Scaled(n, -|f|)));
  }

  lemma {:induction false} StrippedWorth(negative: bool, whole: string, f: string, n: nat)
    requires Nat(whole + f) == n
    ensures Reduce(Worth(Parts(negative, whole, StripRight(f, {'0'}), ""))) == Reduce(Signed(negative, Scaled(n, -|f|)))
  {
    var g := StripRight(f, {'0'});
    StripRightZeros(f);
    PaddedFraction(negative, whole, g, |f| - |g|);
    WholeAndFraction(negative, whole, f, n);
  }

  /** The context holds the numeral's digits and the scale word's. */
  predicate Holds(p: Parts, exponent: nat, precision: nat) {
    |p.whole| + |p.fraction| + exponent <= precision
  }

  /** Then no step rounds. */
  lemma {:induction false} NothingRounds(p: Parts, exponent: nat, precision: nat)
    requires Holds(p, exponent, precision)
    ensures TimesPow10(Read(p), exponent, precision) ==
      Decimal(p.negative, Nat(p.whole + p.fraction) * Pow10(exponent), -|p.fraction|)
    ensures Nat(p.whole + p.fraction) * Pow10(exponent) < Pow10(precision)
  {
    NatBelow(p.whole + p.fraction);
    BelowPrecision(Nat(p.whole + p.fraction), |p.whole + p.fraction|, exponent, precision);
  }

  lemma {:induction false} DivisionKeepsNumber(number: Decimal, scale: nat, precision: nat)
    requires number.exponent <= 0 && number.coefficient < Pow10(precision)
    ensures var q := DividePow10(number, scale, precision);
      && q.exponent <= 0 && Reduce(AsScaled(q)) == Reduce(Shift(AsScaled(number), -(scale as int)))
  {
    var (c, e) := TowardIdeal(number.coefficient, number.exponent - scale, number.exponent);
    IdealKeepsNumber(number.coefficient, number.exponent - scale, number.exponent);
    assert DividePow10(number, scale, precision) == Decimal(number.negative, c, e);
    ReduceSign(number.negative, Scaled(c, e), Scaled(number.coefficient, number.exponent - scale));
    SignedShift(number, scale);
  }

  lemma {:induction false} SignedShift(number: Decimal, scale: nat)
    ensures Signed(number.negative, Scaled(number.coefficient, number.exponent - scale)) ==
      Shift(AsScaled(number), -(scale as int))
  {}

  /** Expressing a number in a unit keeps it. */
  lemma {:induction false} InUnitIsExact(number: Decimal, unit: Unit, precision: nat)
    requires number.exponent <= 0 && number.coefficient < Pow10(precision)
    ensures var r := InUnit(number, unit, precision);
      r.unit == unit && PrintsExactly(r.number, Shift(AsScaled(number), -(UnitScale(unit) as int)))
  {
    DivisionKeepsNumber(number, UnitScale(unit), precision);
    FixedDenotes(DividePow10(number, UnitScale(unit), precision));
  }

  lemma {:induction false} LocalizedParts(p: Parts, exponent: nat, precision: nat)
    requires Holds(p, exponent, precision)
    ensures var r := LocalizeParts(p, exponent, precision);
      PrintsExactly(r.number, Shift(AsScaled(TimesPow10(Read(p), exponent, precision)), -(UnitScale(r.unit) as int)))
  {
    NothingRounds(p, exponent, precision);
    InUnitIsExact(TimesPow10(Read(p), exponent, precision), LocalizeParts(p, exponent, precision).unit, precision);
  }

  lemma {:induction false} ExactProduct(p: Parts, exponent: nat, scale: nat, printed: Scaled, precision: nat)
    requires Holds(p, exponent, precision) && p.exponent == ""
    requires Reduce(printed) == Reduce(Shift(AsScaled(TimesPow10(Read(p), exponent, precision)), -(scale as int)))
    ensures Equal(Shift(printed, scale), Shift(Worth(p), exponent))
  {
    NothingRounds(p, exponent, precision);
    WholeAndFraction(p.negative, p.whole, p.fraction, Nat(p.whole + p.fraction));
    ExactChain(p.negative, Nat(p.whole + p.fraction), exponent, -|p.fraction|, scale, printed);
  }

  lemma {:induction false} NotLong(s: string)
    requires Parse(s).exponent == ""
    ensures !Long(s)
  {}

  /** The printed number times its unit is exactly the source number times its scale word, so both
      forms compare as the same quantity. */
  lemma {:induction false} LocalizeIsExact(literal: string, exponent: nat)
    requires PlainLiteral(literal) && exponent <= 12
    ensures var r := LocalizeLiteral(literal, exponent);
      && Literal(r.number) && Parse(r.number).exponent == ""
      && Equal(Shift(Denote(r.number), UnitScale(r.unit)), Shift(Denote(literal), exponent))
      && Canonical(r.number, UnitScale(r.unit)) == Canonical(literal, exponent)
  {
    var r := LocalizeLiteral(literal, exponent);
    PartsAreExact(Parse(literal), exponent, PRECISION, r);
    SameQuantitySameText(r.number, UnitScale(r.unit), literal, exponent);
  }

  lemma {:induction false} PartsAreExact(p: Parts, exponent: nat, precision: nat, r: Localized)
    requires Holds(p, exponent, precision) && p.exponent == "" && r == LocalizeParts(p, exponent, precision)
    ensures Literal(r.number) && Parse(r.number).exponent == ""
    ensures Equal(Shift(Denote(r.number), UnitScale(r.unit)), Shift(Worth(p), exponent))
  {
    LocalizedParts(p, exponent, precision);
    ExactProduct(p, exponent, UnitScale(r.unit), Denote(r.number), precision);
  }

  lemma {:induction false} SameQuantitySameText(a: string, sa: nat, b: string, sb: nat)
    requires Literal(a) && Literal(b) && Parse(a).exponent == "" && Parse(b).exponent == ""
    requires Equal(Shift(Denote(a), sa), Shift(Denote(b), sb))
    ensures Canonical(a, sa) == Canonical(b, sb)
  {
    NotLong(a);
    NotLong(b);
    CanonicalIffEqual(a, sa, b, sb);
  }

  /** A numeral that carries one of the two unit characters, split at it. */
  function SplitUnit(s: string, traditional: bool): (string, nat) {
    if s == "" then (s, 0)
    else
      var last := s[|s| - 1..];
      if last == (if traditional then "\U{5104}" else "\U{4EBF}") then (s[..|s| - 1], 8)
      else if last == (if traditional then "\U{842C}" else "\U{4E07}") then (s[..|s| - 1], 4)
      else (s, 0)
  }

  lemma {:induction false} UnitSplits(number: string, unit: Unit, traditional: bool)
    requires Literal(number)
    ensures SplitUnit(number + UnitText(unit, traditional), traditional) == (number, UnitScale(unit))
  {
    var s := number + UnitText(unit, traditional);
    if unit == Plain {
      assert s == number;
      if s != "" { assert s[|s| - 1..] == [s[|s| - 1]]; }
    } else {
      assert s[|s| - 1..] == UnitText(unit, traditional) && s[..|s| - 1] == number;
    }
  }

  /** Every localized text, read with its Chinese unit, states exactly the source quantity; other
      locales and values over a hundred characters are left alone. */
  lemma {:induction false} LocalizedTextIsExact(literal: string, exponent: nat, length: nat, chinese: bool,
      traditional: bool)
    requires PlainLiteral(literal) && exponent <= 12
    ensures var r := LocalizeQuantity(literal, exponent, length, chinese, traditional);
      && (r == None <==> !chinese || length > 100)
      && (r.Some? ==> var (number, scale) := SplitUnit(r.value, traditional);
            Literal(number) && Equal(Shift(Denote(number), scale), Shift(Denote(literal), exponent)))
  {
    LocalizeIsExact(literal, exponent);
    UnitSplits(LocalizeLiteral(literal, exponent).number, LocalizeLiteral(literal, exponent).unit, traditional);
  }

  /** The magnitude of `x` is at least `10^k`. */
  ghost predicate Reaches(x: Scaled, k: nat) {
    var size := if x.coefficient < 0 then -x.coefficient else x.coefficient;
    if x.power >= 0 then size * Pow10(x.power) >= Pow10(k) else size >= Pow10(k - x.power)
  }

  lemma {:induction false} ScaleBoth(a: int, b: int, c: int)
    requires c > 0
    ensures a >= b <==> a * c >= b * c
  {
    if a >= b { assert (a - b) * c >= 0; } else { assert (b - a) * c > 0; }
  }

  lemma {:induction false} MorePower(n: nat, extra: nat, places: nat, bound: nat)
    ensures n * Pow10(extra) >= bound <==> n * Pow10(extra + places) >= bound * Pow10(places)
  {
    Pow10Add(extra, places);
    Associate(n, Pow10(extra), Pow10(places));
    ScaleBoth(n * Pow10(extra), bound, Pow10(places));
  }

  lemma {:induction false} Power10Product(a: nat, b: nat, total: nat)
    requires total == a + b
    ensures Pow10(a) * Pow10(b) == Pow10(total)
  {
    Pow10Add(a, b);
  }

  lemma {:induction false} SameProduct(a: nat, b: nat, c: nat, d: nat)
    requires a + b == c + d
    ensures Pow10(a) * Pow10(b) == Pow10(c) * Pow10(d)
  {
    var total := a + b;
    Power10Product(a, b, total);
    Power10Product(c, d, total);
  }

  lemma {:induction false} MorePlaces(n: nat, exponent: nat, places: nat, k: nat, bound: nat)
    requires bound + exponent == k + places
    ensures n >= Pow10(bound) <==> n * Pow10(exponent) >= Pow10(k) * Pow10(places)
  {
    SameProduct(bound, exponent, k, places);
    ScaleBoth(n, Pow10(bound), Pow10(exponent));
  }

  lemma {:induction false} ReachesSmall(n: nat, power: int, k: nat, bound: nat)
    requires power < 0 && bound == k - power
    ensures Reaches(Scaled(n, power), k) <==> n >= Pow10(bound)
  {}

  lemma {:induction false} ReachesWhole(n: nat, power: nat, exponent: nat, places: nat, k: nat)
    requires exponent == power + places
    ensures Reaches(Scaled(n, power), k) <==> n * Pow10(exponent) >= Pow10(k) * Pow10(places)
  {
    MorePower(n, power, places, Pow10(k));
  }

  lemma {:induction false} ReachesFraction(n: nat, power: int, exponent: nat, places: nat, k: nat, bound: nat)
    requires power < 0 && exponent == power + places && bound == k - power
    ensures Reaches(Scaled(n, power), k) <==> n * Pow10(exponent) >= Pow10(k) * Pow10(places)
  {
    ReachesSmall(n, power, k, bound);
    MorePlaces(n, exponent, places, k, bound);
  }

  lemma {:induction false} ReachesOverPlaces(n: nat, exponent: nat, places: nat, k: nat)
    ensures Reaches(Scaled(n, exponent - places), k) <==> n * Pow10(exponent) >= Pow10(k) * Pow10(places)
  {
    if exponent >= places {
      ReachesWhole(n, exponent - places, exponent, places, k);
    } else {
      ReachesFraction(n, exponent - places, exponent, places, k, k + places - exponent);
    }
  }

  lemma {:induction false} ReachesSigned(negative: bool, x: Scaled, k: nat)
    requires x.coefficient >= 0
    ensures Reaches(Signed(negative, x), k) == Reaches(x, k)
  {}

  lemma {:induction false} UnitByProduct(number: Decimal, product: nat, places: nat)
    requires number.coefficient == product && number.exponent == -(places as int)
    ensures UnitOf(number) == HundredMillion <==> product >= Pow10(8) * Pow10(places)
    ensures UnitOf(number) == Plain <==> !(product >= Pow10(4) * Pow10(places))
  {
    Pow10Mono(4, 8);
    ScaleBoth(Pow10(8), Pow10(4), Pow10(places));
  }

  lemma {:induction false} UnitOfNumber(p: Parts, exponent: nat, precision: nat)
    requires Holds(p, exponent, precision)
    ensures var unit, product := LocalizeParts(p, exponent,
      precision).unit, Nat(p.whole + p.fraction) * Pow10(exponent);
      && (unit == HundredMillion <==> product >= Pow10(8) * Pow10(|p.fraction|))
      && (unit == Plain <==> !(product >= Pow10(4) * Pow10(|p.fraction|)))
  {
    NothingRounds(p, exponent, precision);
    UnitByProduct(TimesPow10(Read(p), exponent, precision), Nat(p.whole + p.fraction) * Pow10(exponent), |p.fraction|);
  }

  lemma {:induction false} ShiftedQuantity(p: Parts, exponent: nat, n: nat)
    requires p.exponent == "" && n == Nat(p.whole + p.fraction)
    ensures Shift(Worth(p), exponent) == Signed(p.negative, Scaled(n, exponent - |p.fraction|))
  {
    WholeAndFraction(p.negative, p.whole, p.fraction, n);
  }

  lemma {:induction false} SignedReaches(x: Scaled, negative: bool, n: nat, exponent: nat, places: nat, k: nat)
    requires x == Signed(negative, Scaled(n, exponent - places))
    ensures Reaches(x, k) <==> n * Pow10(exponent) >= Pow10(k) * Pow10(places)
  {
    ReachesSigned(negative, Scaled(n, exponent - places), k);
    ReachesOverPlaces(n, exponent, places, k);
  }

  lemma {:induction false} QuantityReaches(p: Parts, exponent: nat, k: nat, x: Scaled)
    requires p.exponent == "" && x == Shift(Worth(p), exponent)
    ensures Reaches(x, k) <==> Nat(p.whole + p.fraction) * Pow10(exponent) >= Pow10(k) * Pow10(|p.fraction|)
  {
    ShiftedQuantity(p, exponent, Nat(p.whole + p.fraction));
    SignedReaches(x, p.negative, Nat(p.whole + p.fraction), exponent, |p.fraction|, k);
  }

  /** The unit is the largest the quantity reaches. */
  lemma {:induction false} UnitIsLargest(literal: string, exponent: nat)
    requires PlainLiteral(literal) && exponent <= 12
    ensures var unit, quantity := LocalizeLiteral(literal, exponent).unit, Shift(Denote(literal), exponent);
      && (unit == HundredMillion <==> Reaches(quantity, 8))
      && (unit == Plain <==> !Reaches(quantity, 4))
  {
    UnitOfNumber(Parse(literal), exponent, PRECISION);
    QuantityReaches(Parse(literal), exponent, 8, Shift(Denote(literal), exponent));
    QuantityReaches(Parse(literal), exponent, 4, Shift(Denote(literal), exponent));
  }

  lemma {:induction false} ReduceShifted(x: Scaled, k: int)
    ensures Reduce(Shift(x, k)) == if x.coefficient == 0 then Scaled(0, 0) else Shift(Reduce(x), k)
    decreases if x.coefficient < 0 then -x.coefficient else x.coefficient
  {
    if x.coefficient != 0 && x.coefficient % 10 == 0 {
      ReduceShifted(Scaled(x.coefficient / 10, x.power + 1), k);
    }
  }

  lemma {:induction false} ExactChain(negative: bool, n: nat, exponent: nat, power: int, scale: nat, printed: Scaled)
    requires Reduce(printed) == Reduce(Shift(Signed(negative, Scaled(n * Pow10(exponent), power)), -(scale as int)))
    ensures Equal(Shift(printed, scale), Shift(Signed(negative, Scaled(n, power)), exponent))
  {
    ReducePaddedSigned(negative, n, exponent, power - scale);
    var target := Signed(negative, Scaled(n, power - scale + exponent));
    assert Reduce(printed) == Reduce(target);
    ReduceShifted(printed, scale);
    ReduceShifted(target, scale);
    assert printed.coefficient == 0 <==> target.coefficient == 0;
    assert Shift(target, scale) == Shift(Signed(negative, Scaled(n, power)), exponent);
    EqualIsReduced(Shift(printed, scale), Shift(target, scale));
  }
}
