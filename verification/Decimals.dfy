/** Decimal notation: digits, powers of ten and the number a literal denotes. */
module Decimals {
  import opened Wrappers

  predicate Digit(c: char) { '0' <= c <= '9' }

  predicate Digits(s: string) {
    forall i :: 0 <= i < |s| ==> Digit(s[i])
  }

  function DigitValue(c: char): nat {
    if Digit(c) then c as int - '0' as int else 0
  }

  /** The natural number a digit string denotes. */
  function Nat(s: string): nat {
    if s == "" then 0 else Nat(s[..|s| - 1]) * 10 + DigitValue(s[|s| - 1])
  }

  function Zeros(n: nat): (z: string)
    ensures |z| == n && Digits(z)
    ensures forall i :: 0 <= i < n ==> z[i] == '0'
  {
    seq(n, _ => '0')
  }

  function Pow10(n: nat): (p: nat)
    ensures p > 0
  {
    if n == 0 then 1 else 10 * Pow10(n - 1)
  }

  /** The exact number `coefficient * 10^power`. */
  datatype Scaled = Scaled(coefficient: int, power: int)

  /** Two scaled numbers are equal: compared over the smaller power. */
  ghost predicate Equal(x: Scaled, y: Scaled) {
    var m := Min(x.power, y.power);
    x.coefficient * Pow10(x.power - m) == y.coefficient * Pow10(y.power - m)
  }

  function Shift(x: Scaled, scale: int): Scaled {
    Scaled(x.coefficient, x.power + scale)
  }

  function Negate(x: Scaled): Scaled {
    Scaled(-x.coefficient, x.power)
  }

  /** The one representation whose coefficient is no multiple of ten; zero is 0 * 10^0. */
  function Reduce(x: Scaled): (r: Scaled)
    ensures x.coefficient == 0 ==> r == Scaled(0, 0)
    ensures x.coefficient != 0 ==> r.coefficient % 10 != 0 && x.power <= r.power
    decreases if x.coefficient < 0 then -x.coefficient else x.coefficient
  {
    if x.coefficient == 0 then Scaled(0, 0)
    else if x.coefficient % 10 == 0 then Reduce(Scaled(x.coefficient / 10, x.power + 1))
    else x
  }

  lemma {:induction false} Pow10Add(a: nat, b: nat)
    ensures Pow10(a + b) == Pow10(a) * Pow10(b)
  {
    if a > 0 {
      Pow10Add(a - 1, b);
      TenTimes(Pow10(a - 1), Pow10(b));
    }
  }

  lemma {:induction false} TenTimes(a: int, b: int)
    ensures 10 * (a * b) == (10 * a) * b == a * (10 * b)
  {}

  /** Shifting digits into the coefficient does not change the number. */
  lemma {:induction false} ReducePadded(c: int, p: int, k: nat)
    ensures Reduce(Scaled(c * Pow10(k), p)) == Reduce(Scaled(c, p + k))
    decreases k
  {
    if k == 0 {
      assert c * 1 == c;
    } else {
      TenTimes(c, Pow10(k - 1));
      var n := c * Pow10(k - 1);
      assert c * Pow10(k) == 10 * n;
      assert (10 * n) % 10 == 0 && (10 * n) / 10 == n;
      ReducePadded(c, p + 1, k - 1);
      assert n == 0 ==> c == 0 by { if c != 0 { NonzeroProduct(c, Pow10(k - 1)); } }
    }
  }

  lemma {:induction false} NonzeroProduct(a: int, b: int)
    requires a != 0 && b > 0
    ensures a * b != 0
  {}

  /** The reduced coefficient times the dropped power of ten gives the number back. */
  lemma {:induction false} ReduceExact(x: Scaled)
    requires x.coefficient != 0
    ensures x.coefficient == Reduce(x).coefficient * Pow10(Reduce(x).power - x.power)
    decreases if x.coefficient < 0 then -x.coefficient else x.coefficient
  {
    if x.coefficient % 10 == 0 {
      var y := Scaled(x.coefficient / 10, x.power + 1);
      ReduceExact(y);
      TenTimes(Reduce(y).coefficient, Pow10(Reduce(y).power - y.power));
    }
  }

  lemma {:induction false} ZeroEqual(x: Scaled, y: Scaled)
    requires x.coefficient == 0 || y.coefficient == 0
    ensures Equal(x, y) <==> x.coefficient == y.coefficient == 0
  {
    var m := Min(x.power, y.power);
    if x.coefficient != 0 { NonzeroProduct(x.coefficient, Pow10(x.power - m)); }
    if y.coefficient != 0 { NonzeroProduct(y.coefficient, Pow10(y.power - m)); }
  }

  lemma {:induction false} SameFormIsEqual(x: Scaled, y: Scaled, m: int)
    requires x.coefficient != 0 && y.coefficient != 0 && m <= x.power && m <= y.power && Reduce(x) == Reduce(y)
    ensures x.coefficient * Pow10(x.power - m) == y.coefficient * Pow10(y.power - m)
  {
    OverPower(x, m);
    OverPower(y, m);
  }

  lemma {:induction false} SameOverPower(x: Scaled, y: Scaled, m: int)
    requires m <= x.power && m <= y.power && x.coefficient * Pow10(x.power - m) == y.coefficient * Pow10(y.power - m)
    ensures Reduce(x) == Reduce(y)
  {
    ReducePadded(x.coefficient, m, x.power - m);
    ReducePadded(y.coefficient, m, y.power - m);
  }

  /** Equal numbers are those with the same reduced form. */
  lemma {:induction false} EqualIsReduced(x: Scaled, y: Scaled)
    ensures Equal(x, y) <==> Reduce(x) == Reduce(y)
  {
    var m := Min(x.power, y.power);
    if x.coefficient == 0 || y.coefficient == 0 {
      ZeroEqual(x, y);
    } else if Reduce(x) == Reduce(y) {
      SameFormIsEqual(x, y, m);
    } else if Equal(x, y) {
      SameOverPower(x, y, m);
    }
  }

  lemma {:induction false} OverPower(x: Scaled, m: int)
    requires x.coefficient != 0 && m <= x.power
    ensures x.coefficient * Pow10(x.power - m) == Reduce(x).coefficient * Pow10(Reduce(x).power - m)
  {
    var r := Reduce(x);
    ReduceExact(x);
    Pow10Add(r.power - x.power, x.power - m);
    Associate(r.coefficient, Pow10(r.power - x.power), Pow10(x.power - m));
  }

  lemma {:induction false} Associate(a: int, b: int, c: int)
    ensures (a * b) * c == a * (b * c)
  {}

  lemma {:induction false} Distribute(a: int, p: int, b: int, d: int)
    ensures (a * p + b) * 10 + d == a * (10 * p) + (b * 10 + d)
  {}

  lemma {:induction false} NatAppend(a: string, b: string)
    ensures Nat(a + b) == Nat(a) * Pow10(|b|) + Nat(b)
  {
    if b == "" {
      assert a + b == a;
    } else {
      var n := |b| - 1;
      assert (a + b)[..|a + b| - 1] == a + b[..n];
      NatAppend(a, b[..n]);
      Distribute(Nat(a), Pow10(n), Nat(b[..n]), DigitValue(b[n]));
    }
  }

  lemma {:induction false} NatZeros(n: nat)
    ensures Nat(Zeros(n)) == 0
  {
    if n > 0 {
      assert Zeros(n)[..n - 1] == Zeros(n - 1);
      NatZeros(n - 1);
    }
  }

  lemma {:induction false} NatLeadingZeros(n: nat, s: string)
    ensures Nat(Zeros(n) + s) == Nat(s)
  {
    NatAppend(Zeros(n), s);
    NatZeros(n);
  }

  lemma {:induction false} NatTrailingZeros(s: string, n: nat)
    ensures Nat(s + Zeros(n)) == Nat(s) * Pow10(n)
  {
    NatAppend(s, Zeros(n));
    NatZeros(n);
  }

  lemma {:induction false} NatBelow(s: string)
    ensures Nat(s) < Pow10(|s|)
  {
    if s != "" { NatBelow(s[..|s| - 1]); }
  }

  lemma {:induction false} NatAtLeast(s: string)
    requires s != "" && Digits(s) && s[0] != '0'
    ensures Pow10(|s| - 1) <= Nat(s)
  {
    if |s| > 1 {
      NatAtLeast(s[..|s| - 1]);
    } else {
      assert s[..0] == "";
    }
  }

  lemma {:induction false} Pow10Mono(a: nat, b: nat)
    requires a <= b
    ensures Pow10(a) <= Pow10(b)
  {
    if a < b { Pow10Mono(a, b - 1); }
  }

  /** Digit strings of the same length that denote the same number are the same. */
  lemma {:induction false} NatInjective(a: string, b: string)
    requires Digits(a) && Digits(b) && |a| == |b| && Nat(a) == Nat(b)
    ensures a == b
  {
    if a != "" {
      var n := |a| - 1;
      NatInjective(a[..n], b[..n]);
      assert a == a[..n] + [a[n]] && b == b[..n] + [b[n]];
    }
  }

  lemma {:induction false} LongerIsLarger(a: string, b: string)
    requires Digits(b) && |a| < |b| && b[0] != '0'
    ensures Nat(a) < Nat(b)
  {
    NatBelow(a);
    NatAtLeast(b);
    Pow10Mono(|a|, |b| - 1);
  }

  /** Without leading zeros a number has one digit string. */
  lemma {:induction false} DigitsUnique(a: string, b: string)
    requires Digits(a) && Digits(b) && a != "" && b != "" && a[0] != '0' && b[0] != '0' && Nat(a) == Nat(b)
    ensures a == b
  {
    if |a| < |b| { LongerIsLarger(a, b); }
    if |b| < |a| { LongerIsLarger(b, a); }
    NatInjective(a, b);
  }

  /** Text before and after the first `c`; everything and nothing when there is none. */
  function Partition(s: string, c: char): (r: (string, string))
    ensures c !in r.0
    ensures c in s ==> s == r.0 + [c] + r.1
    ensures c !in s ==> r == (s, "")
  {
    if s == "" then ("", "")
    else if s[0] == c then ("", s[1..])
    else
      var rest := Partition(s[1..], c);
      assert s == s[..1] + s[1..];
      (s[..1] + rest.0, rest.1)
  }

  lemma {:induction false} PartitionAt(a: string, c: char, b: string)
    requires c !in a
    ensures Partition(a + [c] + b, c) == (a, b)
  {
    if a == "" {
      assert a + [c] + b == [c] + b;
    } else {
      var s := a + [c] + b;
      assert s[1..] == a[1..] + [c] + b && s[0] == a[0];
      PartitionAt(a[1..], c, b);
      assert s[..1] + a[1..] == a;
    }
  }

  function StripLeft(s: string, cs: set<char>): string {
    if s != "" && s[0] in cs then StripLeft(s[1..], cs) else s
  }

  function StripRight(s: string, cs: set<char>): string {
    if s != "" && s[|s| - 1] in cs then StripRight(s[..|s| - 1], cs) else s
  }

  lemma {:induction false} StripLeftZeros(s: string)
    ensures var r := StripLeft(s, {'0'});
      |r| <= |s| && s == Zeros(|s| - |r|) + r && (r != "" ==> r[0] != '0')
  {
    if s != "" && s[0] == '0' {
      var t := s[1..];
      StripLeftZeros(t);
      var r := StripLeft(t, {'0'});
      assert s == ['0'] + t && Zeros(|s| - |r|) == ['0'] + Zeros(|t| - |r|);
    }
  }

  lemma {:induction false} StripRightZeros(s: string)
    ensures var r := StripRight(s, {'0'});
      |r| <= |s| && s == r + Zeros(|s| - |r|) && (r != "" ==> r[|r| - 1] != '0')
  {
    if s != "" && s[|s| - 1] == '0' {
      var t := s[..|s| - 1];
      StripRightZeros(t);
      var r := StripRight(t, {'0'});
      assert s == t + ['0'] && Zeros(|s| - |r|) == Zeros(|t| - |r|) + ['0'];
    }
  }

  lemma {:induction false} StripNoSign(s: string)
    requires s == "" || Digit(s[0])
    ensures StripLeft(s, SIGNS) == s
  {}

  lemma {:induction false} StripMinus(s: string)
    requires s == "" || Digit(s[0])
    ensures StripLeft("-" + s, SIGNS) == s
  {
    assert ("-" + s)[1..] == s;
    StripNoSign(s);
  }

  const SIGNS: set<char> := {'+', '-'}

  /** Python's `int` on an optionally signed digit string; the empty text counts as zero. */
  function IntOf(s: string): int {
    if s != "" && s[0] == '-' then -(Nat(StripLeft(s, SIGNS)) as int) else Nat(StripLeft(s, SIGNS))
  }

  function NatText(n: nat): (s: string)
    ensures s != "" && Digits(s) && Nat(s) == n
  {
    var last := [('0' as int + n % 10) as char];
    if n < 10 then (assert last[..0] == ""; last) else (assert (NatText(n / 10) + last)[..|NatText(n / 10)|] ==
      NatText(n / 10); NatText(n / 10) + last)
  }

  /** Python's `str` of an integer. */
  function IntText(n: int): (s: string)
    ensures IntOf(s) == n && s != "" && 'e' !in s && '.' !in s && '*' !in s && 'E' !in s
  {
    if n < 0 then
      var t := NatText(-n);
      StripMinus(t);
      "-" + t
    else
      var t := NatText(n);
      StripNoSign(t);
      t
  }

  function LowerE(s: string): (r: string)
    ensures |r| == |s| && forall i :: 0 <= i < |s| ==> r[i] == if s[i] == 'E' then 'e' else s[i]
  {
    seq(|s|, i requires 0 <= i < |s| => if s[i] == 'E' then 'e' else s[i])
  }

  /** The pieces of a numeric literal; `exponent` is still text. */
  datatype Parts = Parts(negative: bool, whole: string, fraction: string, exponent: string)

  function Parse(s: string): Parts {
    var (mantissa, exponent) := Partition(LowerE(s), 'e');
    var (whole, fraction) := Partition(StripLeft(mantissa, SIGNS), '.');
    Parts(mantissa != "" && mantissa[0] == '-', whole, fraction, exponent)
  }

  /** `[+-] digits [. digits] [e [+-] digits]`, the shape the number pattern matches. */
  predicate Literal(s: string) {
    && (forall i :: 0 <= i < |s| ==> Digit(s[i]) || s[i] in {'+', '-', '.', 'e', 'E'})
    && Parse(s).whole != "" && Digits(Parse(s).whole) && Digits(Parse(s).fraction)
    && Digits(StripLeft(Parse(s).exponent, SIGNS))
  }

  function Signed(negative: bool, x: Scaled): Scaled {
    if negative then Negate(x) else x
  }

  function Worth(p: Parts): Scaled {
    Signed(p.negative, Scaled(Nat(p.whole + p.fraction), IntOf(p.exponent) - |p.fraction|))
  }

  /** The number a literal denotes in ordinary decimal notation. */
  function Denote(s: string): Scaled {
    Worth(Parse(s))
  }

  lemma {:induction false} SplitMantissa(whole: string, fraction: string, point: bool)
    requires Digits(whole) && (point || fraction == "")
    ensures Partition(whole + (if point then "." + fraction else ""), '.') == (whole, fraction)
  {
    if point {
      assert whole + ("." + fraction) == whole + ['.'] + fraction;
      PartitionAt(whole, '.', fraction);
    } else {
      assert whole + "" == whole && '.' !in whole;
    }
  }

  lemma {:induction false} StripSign(sign: string, body: string)
    requires sign == "" || sign == "-"
    requires body != "" && Digit(body[0])
    ensures StripLeft(sign + body, SIGNS) == body && ((sign + body)[0] == '-' <==> sign == "-")
  {
    if sign == "" {
      assert sign + body == body;
      StripNoSign(body);
    } else {
      StripMinus(body);
    }
  }

  lemma {:induction false} NoExponent(sign: string, whole: string, fraction: string, point: bool)
    requires (sign == "" || sign == "-") && Digits(whole) && Digits(fraction)
    ensures var mantissa := sign + (whole + (if point then "." + fraction else ""));
      'e' !in mantissa && 'E' !in mantissa
  {}

  lemma {:induction false} ParseMantissa(sign: string, whole: string, fraction: string, point: bool)
    requires sign == "" || sign == "-"
    requires whole != "" && Digits(whole) && Digits(fraction) && (point || fraction == "")
    ensures var mantissa := sign + (whole + (if point then "." + fraction else ""));
      && Partition(StripLeft(mantissa, SIGNS), '.') == (whole, fraction)
      && mantissa != "" && (mantissa[0] == '-' <==> sign == "-")
      && 'e' !in mantissa && 'E' !in mantissa
  {
    var body := whole + (if point then "." + fraction else "");
    assert body[0] == whole[0];
    SplitMantissa(whole, fraction, point);
    StripSign(sign, body);
    NoExponent(sign, whole, fraction, point);
  }

  lemma {:induction false} ParsePlain(sign: string, whole: string, fraction: string, point: bool)
    requires sign == "" || sign == "-"
    requires whole != "" && Digits(whole) && Digits(fraction) && (point || fraction == "")
    ensures Parse(sign + (whole + (if point then "." + fraction else ""))) == Parts(sign == "-", whole, fraction, "")
  {
    var text := sign + (whole + (if point then "." + fraction else ""));
    ParseMantissa(sign, whole, fraction, point);
    assert LowerE(text) == text;
  }

  lemma {:induction false} ParseScientific(sign: string, whole: string, fraction: string, point: bool, exponent: string)
    requires sign == "" || sign == "-"
    requires whole != "" && Digits(whole) && Digits(fraction) && (point || fraction == "") && 'E' !in exponent
    ensures Parse(sign + (whole + (if point then "." + fraction else "")) + "e" + exponent) ==
      Parts(sign == "-", whole, fraction, exponent)
  {
    var mantissa := sign + (whole + (if point then "." + fraction else ""));
    var text := mantissa + "e" + exponent;
    ParseMantissa(sign, whole, fraction, point);
    assert LowerE(text) == text;
    PartitionAt(mantissa, 'e', exponent);
  }
}
