/** Numeric equivalence for quality checks (src/packages/editorial/numbers.py). */
module Numbers {
  import opened Decimals

  /** Plain or scientific notation of `d * 10^power`, whichever stays short. */
  function Layout(d: string, power: int): string
    requires d != ""
  {
    var adjusted := |d| + power - 1;
    var point := |d| + power;
    if -20 <= adjusted <= 30 then
      if point <= 0 then "0." + Zeros(-point) + d
      else if point >= |d| then d + Zeros(point - |d|)
      else d[..point] + "." + d[point..]
    else d[..1] + (if |d| > 1 then "." + d[1..] else "") + "e" + IntText(adjusted)
  }

  function Significant(p: Parts): string {
    StripLeft(p.whole + p.fraction, {'0'})
  }

  function Coefficient(p: Parts): string {
    StripRight(Significant(p), {'0'})
  }

  function Power(p: Parts, scale: int): int {
    IntOf(p.exponent) - |p.fraction| + scale + |Significant(p)| - |Coefficient(p)|
  }

  function Sign(negative: bool): string {
    if negative then "-" else ""
  }

  function CanonicalParts(p: Parts, scale: int): string {
    if Coefficient(p) == "" then "0" else Sign(p.negative) + Layout(Coefficient(p), Power(p, scale))
  }

  predicate Long(literal: string) {
    |StripLeft(Parse(literal).exponent, SIGNS)| > 6
  }

  function Canonical(literal: string, scale: int): string {
    if Long(literal) then "literal:" + LowerE(literal) + "*1e" + IntText(scale)
    else CanonicalParts(Parse(literal), scale)
  }

  /** Digits without leading or trailing zeros. */
  ghost predicate Trimmed(d: string) {
    d != "" && Digits(d) && d[0] != '0' && d[|d| - 1] != '0'
  }

  lemma {:induction false} TrimmedNat(d: string)
    requires Trimmed(d)
    ensures Nat(d) > 0 && Nat(d) % 10 != 0 && (-(Nat(d) as int)) % 10 != 0
  {}

  lemma {:induction false} PaddedNat(n: nat, d: string)
    ensures Nat("0" + (Zeros(n) + d)) == Nat(d)
  {
    assert "0" + (Zeros(n) + d) == Zeros(n + 1) + d;
    NatLeadingZeros(n + 1, d);
  }

  lemma {:induction false} FractionWorth(negative: bool, n: nat, d: string)
    ensures Worth(Parts(negative, "0", Zeros(n) + d, "")) == Signed(negative, Scaled(Nat(d), -(n + |d|)))
  {
    PaddedNat(n, d);
  }

  lemma {:induction false} FractionText(negative: bool, zeros: string, d: string)
    requires Digits(zeros) && Digits(d)
    ensures Parse(Sign(negative) + ("0." + zeros + d)) == Parts(negative, "0", zeros + d, "")
  {
    ParsePlain(Sign(negative), "0", zeros + d, true);
    LeadingZeroPoint(zeros, d);
  }

  lemma {:induction false} LeadingZeroPoint(zeros: string, d: string)
    ensures "0" + ("." + (zeros + d)) == "0." + zeros + d
  {}

  lemma {:induction false} MinusProduct(a: int, b: int)
    ensures -(a * b) == (-a) * b
  {}

  lemma {:induction false} ReducePaddedSigned(negative: bool, n: nat, k: nat, q: int)
    ensures Reduce(Signed(negative, Scaled(n * Pow10(k), q))) == Reduce(Signed(negative, Scaled(n, q + k)))
  {
    MinusProduct(n, Pow10(k));
    ReducePadded(if negative then -(n as int) else n, q, k);
  }

  lemma {:induction false} WorthPlain(negative: bool, w: string)
    ensures Worth(Parts(negative, w, "", "")) == Signed(negative, Scaled(Nat(w), 0))
  {
    assert w + "" == w;
  }

  lemma {:induction false} WholeWorth(negative: bool, d: string, n: nat)
    ensures Reduce(Worth(Parts(negative, d + Zeros(n), "", ""))) == Reduce(Signed(negative, Scaled(Nat(d), n)))
  {
    WorthPlain(negative, d + Zeros(n));
    NatTrailingZeros(d, n);
    ReducePaddedSigned(negative, Nat(d), n, 0);
  }

  lemma {:induction false} WholeText(negative: bool, d: string, n: nat)
    requires d != "" && Digits(d)
    ensures Parse(Sign(negative) + (d + Zeros(n))) == Parts(negative, d + Zeros(n), "", "")
  {
    ParsePlain(Sign(negative), d + Zeros(n), "", false);
    assert d + Zeros(n) + "" == d + Zeros(n);
  }

  lemma {:induction false} SplitWorth(negative: bool, d: string, point: nat, exponent: string)
    requires point <= |d|
    ensures Worth(Parts(negative, d[..point], d[point..], exponent)) ==
      Signed(negative, Scaled(Nat(d), IntOf(exponent) - (|d| - point)))
  {
    assert d[..point] + d[point..] == d;
  }

  lemma {:induction false} PointedText(negative: bool, whole: string, fraction: string)
    requires whole != "" && Digits(whole) && Digits(fraction)
    ensures Parse(Sign(negative) + (whole + "." + fraction)) == Parts(negative, whole, fraction, "")
  {
    ParsePlain(Sign(negative), whole, fraction, true);
    assert whole + ("." + fraction) == whole + "." + fraction;
  }

  lemma {:induction false} JoinExponent(sign: string, mantissa: string, e: string)
    ensures sign + (mantissa + "e" + e) == (sign + mantissa) + "e" + e
  {}

  lemma {:induction false} ScientificText(sign: string, d: string, e: string)
    requires sign == "" || sign == "-"
    requires d != "" && Digits(d) && 'E' !in e
    ensures Parse(sign + (d[..1] + (if |d| > 1 then "." + d[1..] else "") + "e" + e)) ==
      Parts(sign == "-", d[..1], d[1..], e)
  {
    var mantissa := d[..1] + (if |d| > 1 then "." + d[1..] else "");
    JoinExponent(sign, mantissa, e);
    ParseScientific(sign, d[..1], d[1..], |d| > 1, e);
  }

  /** The signed text, read as ordinary decimal notation, denotes exactly `d * 10^power`. */
  ghost predicate ReadsAs(negative: bool, text: string, d: string, power: int) {
    Reduce(Denote(Sign(negative) + text)) == Reduce(Signed(negative, Scaled(Nat(d), power)))
  }

  lemma {:induction false} ScientificReads(negative: bool, d: string, power: int)
    requires Trimmed(d)
    ensures ReadsAs(negative, d[..1] + (if |d| > 1 then "." + d[1..] else "") + "e" + IntText(|d| + power - 1), d,
      power)
  {
    var e := IntText(|d| + power - 1);
    ScientificText(Sign(negative), d, e);
    SplitWorth(negative, d, 1, e);
  }

  lemma {:induction false} FractionParts(negative: bool, d: string, n: nat, power: int, text: string)
    requires Trimmed(d) && text == "0." + Zeros(n) + d && power == -(n + |d|)
    ensures Denote(Sign(negative) + text) == Signed(negative, Scaled(Nat(d), power))
  {
    FractionText(negative, Zeros(n), d);
    FractionWorth(negative, n, d);
  }

  lemma {:induction false} DenotesReads(negative: bool, text: string, d: string, power: int)
    requires Denote(Sign(negative) + text) == Signed(negative, Scaled(Nat(d), power))
    ensures ReadsAs(negative, text, d, power)
  {}

  lemma {:induction false} FractionReads(negative: bool, d: string, n: nat, power: int, text: string)
    requires Trimmed(d) && text == "0." + Zeros(n) + d && power == -(n + |d|)
    ensures ReadsAs(negative, text, d, power)
  {
    FractionParts(negative, d, n, power, text);
    DenotesReads(negative, text, d, power);
  }

  lemma {:induction false} WholeReads(negative: bool, d: string, power: int)
    requires Trimmed(d) && power >= 0
    ensures ReadsAs(negative, d + Zeros(power), d, power)
  {
    WholeText(negative, d, power);
    WholeWorth(negative, d, power);
  }

  lemma {:induction false} PointedReads(negative: bool, d: string, power: int)
    requires Trimmed(d) && 0 < |d| + power < |d|
    ensures ReadsAs(negative, d[..|d| + power] + "." + d[|d| + power..], d, power)
  {
    var point := |d| + power;
    var whole, fraction := d[..point], d[point..];
    PointedText(negative, whole, fraction);
    SplitWorth(negative, d, point, "");
  }

  /** All four layouts denote exactly `d * 10^power`. */
  lemma {:induction false} LayoutReads(negative: bool, d: string, power: int)
    requires Trimmed(d)
    ensures ReadsAs(negative, Layout(d, power), d, power)
  {
    var point := |d| + power;
    if !(-20 <= point - 1 <= 30) {
      ScientificReads(negative, d, power);
    } else if point <= 0 {
      FractionReads(negative, d, -point, power, Layout(d, power));
    } else if point >= |d| {
      WholeReads(negative, d, power);
    } else {
      PointedReads(negative, d, power);
    }
  }

  lemma {:induction false} StripLeftNat(all: string)
    requires Digits(all)
    ensures var digits := StripLeft(all,
      {'0'}); Nat(all) == Nat(digits) && Digits(digits) && (digits != "" ==> digits[0] != '0')
  {
    var digits := StripLeft(all, {'0'});
    StripLeftZeros(all);
    NatLeadingZeros(|all| - |digits|, digits);
    assert digits == all[|all| - |digits|..];
  }

  lemma {:induction false} StripRightNat(digits: string)
    requires Digits(digits) && (digits != "" ==> digits[0] != '0')
    ensures var trimmed := StripRight(digits, {'0'});
      && |trimmed| <= |digits| && Nat(digits) == Nat(trimmed) * Pow10(|digits| - |trimmed|)
      && (trimmed != "" ==> Trimmed(trimmed))
  {
    var trimmed := StripRight(digits, {'0'});
    StripRightZeros(digits);
    NatTrailingZeros(trimmed, |digits| - |trimmed|);
    assert trimmed == digits[..|trimmed|];
  }

  lemma {:induction false} ReduceSigned(negative: bool, n: nat, k: nat, q: int)
    requires n > 0 && n % 10 != 0 && (-(n as int)) % 10 != 0
    ensures Reduce(Signed(negative, Scaled(n * Pow10(k), q))) == Signed(negative, Scaled(n, q + k))
  {
    ReducePaddedSigned(negative, n, k, q);
  }

  lemma {:induction false} ShiftWorth(p: Parts, scale: int, n: nat)
    requires Nat(p.whole + p.fraction) == n
    ensures Shift(Worth(p), scale) == Signed(p.negative, Scaled(n, IntOf(p.exponent) - |p.fraction| + scale))
  {}

  lemma {:induction false} CoefficientNat(p: Parts)
    requires Digits(p.whole) && Digits(p.fraction)
    ensures |Coefficient(p)| <= |Significant(p)|
    ensures Nat(p.whole + p.fraction) == Nat(Coefficient(p)) * Pow10(|Significant(p)| - |Coefficient(p)|)
    ensures Coefficient(p) != "" ==> Trimmed(Coefficient(p))
  {
    StripLeftNat(p.whole + p.fraction);
    StripRightNat(Significant(p));
  }

  lemma {:induction false} ZeroProduct(n: nat, p: nat)
    requires n == 0
    ensures n * p == 0
  {}

  lemma {:induction false} ReducedShift(p: Parts, scale: int, n: nat, k: nat)
    requires Nat(p.whole + p.fraction) == n * Pow10(k) && n > 0 && n % 10 != 0 && (-(n as int)) % 10 != 0
    ensures Reduce(Shift(Worth(p), scale)) ==
      Signed(p.negative, Scaled(n, IntOf(p.exponent) - |p.fraction| + scale + k))
  {
    ShiftWorth(p, scale, n * Pow10(k));
    ReduceSigned(p.negative, n, k, IntOf(p.exponent) - |p.fraction| + scale);
  }

  /** Stripping zeros keeps the number: the reduced form of a literal is its coefficient and power. */
  lemma {:induction false} NormalForm(p: Parts, scale: int)
    requires Digits(p.whole) && Digits(p.fraction)
    ensures Coefficient(p) == "" ==> Worth(p).coefficient == 0
    ensures Coefficient(p) != "" ==> Trimmed(Coefficient(p))
    ensures Coefficient(p) != "" ==>
      Reduce(Shift(Worth(p), scale)) == Signed(p.negative, Scaled(Nat(Coefficient(p)), Power(p, scale)))
  {
    CoefficientNat(p);
    var k := |Significant(p)| - |Coefficient(p)|;
    if Coefficient(p) != "" {
      TrimmedNat(Coefficient(p));
      ReducedShift(p, scale, Nat(Coefficient(p)), k);
    } else {
      ZeroProduct(Nat(Coefficient(p)), Pow10(k));
    }
  }

  /** The canonical text, read as ordinary decimal notation, is exactly the scaled literal. */
  lemma {:induction false} CanonicalDenotes(literal: string, scale: int)
    requires Literal(literal) && !Long(literal)
    ensures Equal(Denote(Canonical(literal, scale)), Shift(Denote(literal), scale))
  {
    var p := Parse(literal);
    NormalForm(p, scale);
    if Coefficient(p) == "" {
      ParsePlain("", "0", "", false);
      assert "" + ("0" + "") == "0" && "0" + "" == "0" && Nat("0") == 0;
      ZeroEqual(Denote("0"), Shift(Denote(literal), scale));
    } else {
      LayoutReads(p.negative, Coefficient(p), Power(p, scale));
      TrimmedNat(Coefficient(p));
      EqualIsReduced(Denote(Canonical(literal, scale)), Shift(Denote(literal), scale));
    }
  }

  /** Equal numbers get the same canonical text. */
  lemma {:induction false} EqualNumbersSameText(a: Parts, sa: int, b: Parts, sb: int)
    requires Digits(a.whole) && Digits(a.fraction) && Digits(b.whole) && Digits(b.fraction)
    requires Equal(Shift(Worth(a), sa), Shift(Worth(b), sb))
    ensures CanonicalParts(a, sa) == CanonicalParts(b, sb)
  {
    NormalForm(a, sa);
    NormalForm(b, sb);
    var x, y := Shift(Worth(a), sa), Shift(Worth(b), sb);
    EqualIsReduced(x, y);
    if Coefficient(a) != "" { TrimmedNat(Coefficient(a)); }
    if Coefficient(b) != "" { TrimmedNat(Coefficient(b)); }
    if Coefficient(a) != "" && Coefficient(b) != "" {
      DigitsUnique(Coefficient(a), Coefficient(b));
    }
  }

  /** Two literals with exponents of at most six digits have the same canonical text exactly when
      they denote, with their scales, the same number. */
  lemma {:induction false} CanonicalIffEqual(a: string, sa: int, b: string, sb: int)
    requires Literal(a) && Literal(b) && !Long(a) && !Long(b)
    ensures Canonical(a, sa) == Canonical(b, sb) <==> Equal(Shift(Denote(a), sa), Shift(Denote(b), sb))
  {
    if Canonical(a, sa) == Canonical(b, sb) {
      CanonicalDenotes(a, sa);
      CanonicalDenotes(b, sb);
      EqualIsReduced(Denote(Canonical(a, sa)), Shift(Denote(a), sa));
      EqualIsReduced(Denote(Canonical(b, sb)), Shift(Denote(b), sb));
      EqualIsReduced(Shift(Denote(a), sa), Shift(Denote(b), sb));
    } else if Equal(Shift(Denote(a), sa), Shift(Denote(b), sb)) {
      EqualNumbersSameText(Parse(a), sa, Parse(b), sb);
    }
  }

  lemma {:induction false} StarSplits(x: string, s: string, y: string, t: string)
    requires '*' !in x && '*' !in y && x + "*" + s == y + "*" + t
    ensures x == y && s == t
  {
    PartitionAt(x, '*', s);
    PartitionAt(y, '*', t);
  }

  lemma {:induction false} LongTexts(a: string, sa: int, b: string, sb: int)
    requires '*' !in a && '*' !in b
    requires "literal:" + a + "*1e" + IntText(sa) == "literal:" + b + "*1e" + IntText(sb)
    ensures a == b && sa == sb
  {
    var s, t := IntText(sa), IntText(sb);
    assert "literal:" + a + "*1e" + s == ("literal:" + a) + "*" + ("1e" + s);
    assert "literal:" + b + "*1e" + t == ("literal:" + b) + "*" + ("1e" + t);
    StarSplits("literal:" + a, "1e" + s, "literal:" + b, "1e" + t);
    SuffixesAgree("literal:", a, b);
    SuffixesAgree("1e", s, t);
  }

  lemma {:induction false} LongTextsDiffer(a: string, sa: int, b: string, sb: int)
    requires Literal(a) && Literal(b) && Long(a)
    ensures Canonical(a, sa) == Canonical(b, sb) <==> Long(b) && LowerE(a) == LowerE(b) && sa == sb
  {
    if Long(b) {
      NoStar(a);
      NoStar(b);
      if Canonical(a, sa) == Canonical(b, sb) {
        LongTexts(LowerE(a), sa, LowerE(b), sb);
      }
    } else {
      ShortStart(b, sb);
    }
  }

  lemma {:induction false} NoStar(a: string)
    requires Literal(a)
    ensures '*' !in LowerE(a)
  {}

  lemma {:induction false} SuffixesAgree(prefix: string, s: string, t: string)
    requires prefix + s == prefix + t
    ensures s == t
  {
    assert s == (prefix + s)[|prefix|..] && t == (prefix + t)[|prefix|..];
  }

  lemma {:induction false} ShortStart(literal: string, scale: int)
    requires Literal(literal) && !Long(literal)
    ensures Canonical(literal, scale) != "" && Canonical(literal, scale)[0] != 'l'
  {
    var p := Parse(literal);
    NormalForm(p, scale);
    if Coefficient(p) != "" {
      var d, power := Coefficient(p), Power(p, scale);
      assert Layout(d, power) != "" && (Layout(d, power)[0] == '0' || Layout(d, power)[0] == d[0]);
    }
  }

  lemma {:induction false} SameLowerSameNumber(a: string, b: string)
    requires LowerE(a) == LowerE(b)
    ensures Denote(a) == Denote(b)
  {}

  lemma {:induction false} EqualReflexive(x: Scaled)
    ensures Equal(x, x)
  {}

  /** For all literals: the same text always means the same number; an exponent of more than six
      digits makes the comparison one of spelling and scale, never a wrong match. */
  lemma {:induction false} CanonicalIsSound(a: string, sa: int, b: string, sb: int)
    requires Literal(a) && Literal(b)
    ensures Canonical(a, sa) == Canonical(b, sb) <==>
      if Long(a) || Long(b) then Long(a) && Long(b) && LowerE(a) == LowerE(b) && sa == sb
      else Equal(Shift(Denote(a), sa), Shift(Denote(b), sb))
    ensures Canonical(a, sa) == Canonical(b, sb) ==> Equal(Shift(Denote(a), sa), Shift(Denote(b), sb))
  {
    if Long(a) {
      LongTextsDiffer(a, sa, b, sb);
    } else if Long(b) {
      LongTextsDiffer(b, sb, a, sa);
    } else {
      CanonicalIffEqual(a, sa, b, sb);
    }
    if Long(a) && Canonical(a, sa) == Canonical(b, sb) {
      SameLowerSameNumber(a, b);
      EqualReflexive(Shift(Denote(a), sa));
    }
  }

  /** One number of a text: its literal, the power of its scale word, and whether a percent sign follows. */
  datatype Token = Token(literal: string, scale: int, percent: bool)

  function Value(t: Token): (string, string) {
    (Canonical(t.literal, t.scale), if t.percent then "%" else "")
  }

  function Values(tokens: seq<Token>): multiset<(string, string)> {
    if tokens == [] then multiset{} else Values(tokens[..|tokens| - 1]) + multiset{Value(tokens[|tokens| - 1])}
  }

  datatype Comparison = Comparison(matches: bool, missing: multiset<(string, string)>,
      extra: multiset<(string, string)>)

  /** `compare_numbers` on the tokens of both texts. */
  function CompareNumbers(source: seq<Token>, target: seq<Token>): Comparison {
    var left, right := Values(source), Values(target);
    Comparison(left == right, left - right, right - left)
  }

  ghost predicate ShortTokens(tokens: seq<Token>) {
    forall i :: 0 <= i < |tokens| ==> Literal(tokens[i].literal) && !Long(tokens[i].literal)
  }

  ghost predicate SameQuantity(a: Token, b: Token) {
    a.percent == b.percent && Equal(Shift(Denote(a.literal), a.scale), Shift(Denote(b.literal), b.scale))
  }

  /** How often a text states the same quantity as `t`. */
  ghost function Occurrences(tokens: seq<Token>, t: Token): nat {
    if tokens == [] then 0
    else Occurrences(tokens[..|tokens| - 1], t) + if SameQuantity(tokens[|tokens| - 1], t) then 1 else 0
  }

  lemma {:induction false} CountsAreOccurrences(tokens: seq<Token>, t: Token)
    requires ShortTokens(tokens) && ShortTokens([t])
    ensures Values(tokens)[Value(t)] == Occurrences(tokens, t)
  {
    if tokens != [] {
      var last := tokens[|tokens| - 1];
      CountsAreOccurrences(tokens[..|tokens| - 1], t);
      assert [t][0] == t;
      CanonicalIffEqual(last.literal, last.scale, t.literal, t.scale);
    }
  }

  lemma {:induction false} ValuesComeFromTokens(tokens: seq<Token>, v: (string, string))
    requires v in Values(tokens)
    ensures exists i :: 0 <= i < |tokens| && Value(tokens[i]) == v
  {
    var n := |tokens| - 1;
    if Value(tokens[n]) != v {
      ValuesComeFromTokens(tokens[..n], v);
      var i :| 0 <= i < n && Value(tokens[..n][i]) == v;
      assert tokens[i] == tokens[..n][i];
    }
  }

  ghost predicate StatesEqually(source: seq<Token>, target: seq<Token>) {
    forall t :: t in source || t in target ==> Occurrences(source, t) == Occurrences(target, t)
  }

  lemma {:induction false} TokenCounts(source: seq<Token>, target: seq<Token>, t: Token)
    requires ShortTokens(source) && ShortTokens(target) && (t in source || t in target)
    ensures Values(source)[Value(t)] == Occurrences(source, t) && Values(target)[Value(t)] == Occurrences(target, t)
  {
    assert ShortTokens([t]);
    CountsAreOccurrences(source, t);
    CountsAreOccurrences(target, t);
  }

  lemma {:induction false} ValueCounts(source: seq<Token>, target: seq<Token>, v: (string, string))
    requires ShortTokens(source) && ShortTokens(target) && StatesEqually(source, target)
    ensures Values(source)[v] == Values(target)[v]
  {
    if v in Values(source) {
      ValuesComeFromTokens(source, v);
      var i :| 0 <= i < |source| && Value(source[i]) == v;
      TokenCounts(source, target, source[i]);
    } else if v in Values(target) {
      ValuesComeFromTokens(target, v);
      var i :| 0 <= i < |target| && Value(target[i]) == v;
      TokenCounts(source, target, target[i]);
    }
  }

  /** The comparison matches exactly when both texts state every quantity equally often. */
  lemma {:induction false} ComparisonCountsQuantities(source: seq<Token>, target: seq<Token>)
    requires ShortTokens(source) && ShortTokens(target)
    ensures CompareNumbers(source, target).matches <==> StatesEqually(source, target)
  {
    if Values(source) == Values(target) {
      forall t | t in source || t in target ensures Occurrences(source, t) == Occurrences(target, t) {
        TokenCounts(source, target, t);
      }
    } else if StatesEqually(source, target) {
      forall v ensures Values(source)[v] == Values(target)[v] {
        ValueCounts(source, target, v);
      }
      assert false;
    }
  }

  /** What is missing or extra is exactly the surplus of occurrences on either side. */
  lemma {:induction false} DifferencesAreSurplus(source: seq<Token>, target: seq<Token>, t: Token)
    requires ShortTokens(source) && ShortTokens(target) && (t in source || t in target)
    ensures CompareNumbers(source, target).missing[Value(t)] == Surplus(Occurrences(source, t), Occurrences(target, t))
    ensures CompareNumbers(source, target).extra[Value(t)] == Surplus(Occurrences(target, t), Occurrences(source, t))
  {
    TokenCounts(source, target, t);
    DifferenceAt(Values(source), Values(target), Value(t));
    DifferenceAt(Values(target), Values(source), Value(t));
  }

  lemma {:induction false} DifferenceAt<T>(a: multiset<T>, b: multiset<T>, v: T)
    ensures (a - b)[v] == Surplus(a[v], b[v])
  {}

  function Surplus(a: nat, b: nat): nat {
    if a > b then a - b else 0
  }
}
