/** Which occupancy figures count as measured (src/cmd/gateway_log.rs): those that Rust's `f64` parser reads
    as a finite number that is not negative. A decimal number is rounded to the nearest double: it stays
    finite below the middle between the largest double and the next power of two, and a negative one
    becomes zero up to half the smallest double. (The parser caps exponents past 65536, which only a figure
    of more than 65536 digits could tell.) */
module Occupancy {
  import opened Text

  predicate AllDigits(s: string) { forall k :: 0 <= k < |s| ==> IsDigit(s[k]) }

  function Number(digits: string): nat
    requires AllDigits(digits)
  {
    if digits == [] then 0 else Number(digits[..|digits| - 1]) * 10 + (digits[|digits| - 1] as int - 48)
  }

  function Power(base: real, n: nat): real { if n == 0 then 1.0 else base * Power(base, n - 1) }

  function Scaled(m: nat, exponent: int): real {
    if exponent >= 0 then m as real * Power(10.0, exponent) else m as real * Power(0.1, -exponent)
  }

  function FirstOf(s: string, a: char, b: char): (k: nat)
    ensures k <= |s| && (k < |s| ==> s[k] == a || s[k] == b)
    ensures forall j :: 0 <= j < k ==> s[j] != a && s[j] != b
  {
    if s == [] || s[0] == a || s[0] == b then 0 else 1 + FirstOf(s[1..], a, b)
  }

  function Unsigned(s: string): string { if s != [] && (s[0] == '+' || s[0] == '-') then s[1..] else s }

  predicate IsNegative(s: string) { s != [] && s[0] == '-' }

  function Exponent(s: string): Option<int> {
    if s == [] then Some(0)
    else if Unsigned(s[1..]) == [] || !AllDigits(Unsigned(s[1..])) then None
    else
      var n: int := Number(Unsigned(s[1..]));
      Some(if IsNegative(s[1..]) then -n else n)
  }

  /** An unsigned decimal number: digits with at most one point, at least one digit, and an exponent. */
  function Decimal(s: string): Option<real> {
    var e := FirstOf(s, 'e', 'E');
    var point := FirstOf(s[..e], '.', '.');
    var whole, fraction := s[..point], if point < e then s[point + 1..e] else "";
    if whole + fraction == [] || !AllDigits(whole + fraction) || Exponent(s[e..]).None? then None
    else Some(Scaled(Number(whole + fraction), Exponent(s[e..]).value - |fraction|))
  }

  const TOO_LARGE := Power(2.0, 1024) - Power(2.0, 970)
  const TINY := Power(0.5, 1075)

  /** `parse::<f64>()` succeeds with a finite number that is not negative. */
  predicate Figure(s: string) {
    var v := Decimal(Unsigned(s));
    v.Some? && v.value < TOO_LARGE && (IsNegative(s) ==> v.value <= TINY)
  }

  predicate Measured(occupancy: string) {
    occupancy != [] && occupancy[|occupancy| - 1] == '%' && Figure(occupancy[..|occupancy| - 1])
  }

  // ---- which figures these are ----

  lemma {:induction false} PowerGrows(base: real, n: nat)
    requires base >= 1.0
    ensures Power(base, n) >= 1.0
  {
    if n > 0 {
      PowerGrows(base, n - 1);
      Times(1.0, base, Power(base, n - 1));
    }
  }

  lemma Times(a: real, b: real, c: real)
    requires a <= b && c >= 0.0
    ensures a * c <= b * c
  {
  }

  lemma {:induction false} PowerSum(base: real, m: nat, n: nat)
    ensures Power(base, m + n) == Power(base, m) * Power(base, n)
  {
    if m > 0 {
      PowerSum(base, m - 1, n);
      Associate(base, Power(base, m - 1), Power(base, n));
    }
  }

  lemma Associate(a: real, b: real, c: real)
    ensures (a * b) * c == a * (b * c)
  {
  }

  lemma {:induction false} PowersMeet(n: nat)
    ensures Power(10.0, n) * Power(0.1, n) == 1.0
  {
    if n > 0 {
      PowersMeet(n - 1);
      Pair(Power(10.0, n - 1), Power(0.1, n - 1));
    }
  }

  lemma Pair(a: real, b: real)
    ensures (10.0 * a) * (0.1 * b) == a * b
  {
  }

  lemma {:induction false} NumberBound(digits: string)
    requires AllDigits(digits)
    ensures Number(digits) as real + 1.0 <= Power(10.0, |digits|)
  {
    if digits != [] {
      var high := Number(digits[..|digits| - 1]);
      NumberBound(digits[..|digits| - 1]);
      assert Number(digits) <= high * 10 + 9;
      assert Power(10.0, |digits|) == 10.0 * Power(10.0, |digits| - 1);
    }
  }

  /** Three decimal places are worth less than ten binary ones. */
  lemma {:induction false} ThousandsBelow(n: nat)
    ensures Power(10.0, 3 * n) <= Power(2.0, 10 * n)
  {
    if n > 0 {
      ThousandsBelow(n - 1);
      PowerSum(10.0, 3, 3 * (n - 1));
      PowerSum(2.0, 10, 10 * (n - 1));
      SmallPowers();
      PowerGrows(10.0, 3 * (n - 1));
      Times(Power(10.0, 3 * (n - 1)), Power(2.0, 10 * (n - 1)), 1024.0);
    }
  }

  lemma SmallPowers()
    ensures Power(10.0, 3) == 1000.0 && Power(2.0, 10) == 1024.0
  {
    assert Power(10.0, 0) == 1.0 && Power(10.0, 1) == 10.0 && Power(10.0, 2) == 100.0;
    assert Power(2.0, 0) == 1.0 && Power(2.0, 1) == 2.0 && Power(2.0, 2) == 4.0 && Power(2.0, 3) == 8.0;
    assert Power(2.0, 4) == 16.0 && Power(2.0, 5) == 32.0 && Power(2.0, 6) == 64.0 && Power(2.0, 7) == 128.0;
    assert Power(2.0, 8) == 256.0 && Power(2.0, 9) == 512.0;
  }

  /** What has at most 300 digits before the point is far from too large. */
  lemma NotTooLarge(n: nat)
    requires n <= 300
    ensures Power(10.0, n) <= TOO_LARGE
  {
    hide Power;
    Ordered(10.0, n, 300);
    ThousandsBelow(100);
    Doubling(1000, 970, 54);
  }

  /** `2^p <= 2^(q + r) - 2^q` where the difference is at least half of the larger one. */
  lemma Doubling(p: nat, q: nat, r: nat)
    requires r >= 1 && p < q + r
    ensures Power(2.0, p) <= Power(2.0, q + r) - Power(2.0, q)
  {
    var half := q + r - 1;
    assert Power(2.0, q + r) == 2.0 * Power(2.0, half);
    Ordered(2.0, p, half);
    Ordered(2.0, q, half);
  }

  lemma {:induction false} Ordered(base: real, m: nat, n: nat)
    requires base >= 1.0 && m <= n
    ensures Power(base, m) <= Power(base, n)
    decreases n - m
  {
    if m < n {
      Ordered(base, m, n - 1);
      PowerGrows(base, n - 1);
      Times(1.0, base, Power(base, n - 1));
    }
  }

  lemma {:induction false} NoLetters(s: string, a: char, b: char)
    requires a !in s && b !in s
    ensures FirstOf(s, a, b) == |s|
  {
    if s != [] {
      NoLetters(s[1..], a, b);
    }
  }

  lemma {:induction false} FirstOfIs(s: string, a: char, k: nat)
    requires k < |s| && s[k] == a && a !in s[..k]
    ensures FirstOf(s, a, a) == k
  {
    if k > 0 {
      assert s[..k][0] == s[0] && s[..k][1..] == s[1..][..k - 1];
      FirstOfIs(s[1..], a, k - 1);
    }
  }

  lemma DigitParts(whole: string, fraction: string)
    requires AllDigits(whole + fraction)
    ensures forall c :: c in whole || c in fraction ==> IsDigit(c)
  {
    assert forall k :: 0 <= k < |whole| ==> whole[k] == (whole + fraction)[k];
    assert forall k :: 0 <= k < |fraction| ==> fraction[k] == (whole + fraction)[|whole| + k];
  }

  lemma DecimalIs(whole: string, fraction: string, s: string)
    requires AllDigits(whole + fraction) && whole + fraction != []
    requires s == whole + "." + fraction || (s == whole && fraction == "")
    ensures Decimal(s) == Some(Scaled(Number(whole + fraction), -|fraction|))
  {
    hide FirstOf, AllDigits, Number, Scaled;
    DigitParts(whole, fraction);
    NoLetters(s, 'e', 'E');
    assert s[..|s|] == s && s[|s|..] == "";
    if s == whole {
      NoLetters(s, '.', '.');
      assert whole + "" == whole;
    } else {
      assert s[..|whole|] == whole && s[|whole| + 1..] == fraction;
      FirstOfIs(s, '.', |whole|);
    }
  }

  /** Plain decimal figures are measured: digits with at most one point, at most 300 of them before it. */
  lemma PlainFigures(whole: string, fraction: string, s: string)
    requires AllDigits(whole + fraction) && whole + fraction != [] && |whole| <= 300
    requires s == whole + "." + fraction || (s == whole && fraction == "")
    ensures Figure(s) && Measured(s + "%")
  {
    hide Decimal;
    DecimalIs(whole, fraction, s);
    assert s[0] == '.' || s[0] == (whole + fraction)[0];
    ScaledBound(whole + fraction, |whole|, |fraction|);
    NotTooLarge(|whole|);
    assert (s + "%")[..|s|] == s;
  }

  lemma ScaledBound(digits: string, w: nat, places: nat)
    requires AllDigits(digits) && |digits| == w + places
    ensures Scaled(Number(digits), 0 - places) < Power(10.0, w)
  {
    hide Power, Number, Scaled;
    NumberBound(digits);
    ShiftedBound(Number(digits), w, places);
    ScaledDown(Number(digits), places);
  }

  lemma ShiftedBound(n: nat, w: nat, places: nat)
    requires n as real + 1.0 <= Power(10.0, w + places)
    ensures n as real * Power(0.1, places) < Power(10.0, w)
  {
    hide Power;
    PowerSum(10.0, w, places);
    PowersMeet(places);
    PowerPositive(places);
    Cancelled(n as real, Power(10.0, w), Power(10.0, places), Power(0.1, places));
  }

  lemma Cancelled(n: real, a: real, b: real, c: real)
    requires n + 1.0 <= a * b && b * c == 1.0 && c > 0.0
    ensures n * c < a
  {
    Times(n + 1.0, a * b, c);
    Associate(a, b, c);
    assert (n + 1.0) * c == n * c + c;
  }

  lemma ScaledDown(m: nat, places: nat)
    ensures Scaled(m, 0 - places) == m as real * Power(0.1, places)
  {
    if places == 0 {
      assert Power(10.0, 0) == Power(0.1, 0);
    }
  }

  lemma {:induction false} PowerPositive(n: nat)
    ensures 0.0 < Power(0.1, n) <= 1.0
  {
    if n > 0 {
      PowerPositive(n - 1);
    }
  }

  /** What holds no digit is no figure: no word is one, with or without a sign. */
  lemma WordsAreUnmeasured(s: string)
    requires forall k :: 0 <= k < |s| ==> !IsDigit(s[k])
    ensures !Figure(s) && !Measured(s + "%")
  {
    hide FirstOf, Number, Scaled, Power, Exponent;
    NoDigitNoNumber(Unsigned(s));
    assert (s + "%")[..|s|] == s;
  }

  lemma NoDigitNoNumber(s: string)
    requires forall k :: 0 <= k < |s| ==> !IsDigit(s[k])
    ensures Decimal(s).None?
  {
    hide FirstOf, Number, Scaled, Exponent;
    var e := FirstOf(s, 'e', 'E');
    var point := FirstOf(s[..e], '.', '.');
    var whole, fraction := s[..point], if point < e then s[point + 1..e] else "";
    if whole != [] {
      assert !IsDigit((whole + fraction)[0]);
    } else if fraction != [] {
      assert fraction[0] == s[point + 1] && (whole + fraction)[0] == fraction[0];
    }
  }

  /** The powers of two and of a half are inverse to each other. */
  lemma {:induction false} HalvesMeet(n: nat)
    ensures Power(2.0, n) * Power(0.5, n) == 1.0 && Power(0.5, n) > 0.0
  {
    if n > 0 {
      HalvesMeet(n - 1);
      HalfPair(Power(2.0, n - 1), Power(0.5, n - 1));
    }
  }

  lemma HalfPair(a: real, b: real)
    ensures (2.0 * a) * (0.5 * b) == a * b
  {
  }

  /** Of two products that are one, the larger factor has the smaller partner. */
  lemma Inverses(a: real, x: real, b: real, y: real)
    requires 0.0 < a < b && a * x == 1.0 && b * y == 1.0 && x > 0.0 && y > 0.0
    ensures y < x
  {
    if y >= x {
      Times(a, b, x);
      Larger(b, x, y);
      StrictTimes(a, b, x);
    }
  }

  lemma Larger(b: real, x: real, y: real)
    requires b > 0.0 && x <= y
    ensures b * x <= b * y
  {
  }

  lemma StrictTimes(a: real, b: real, x: real)
    requires a < b && x > 0.0
    ensures a * x < b * x
  {
  }

  /** With at most 300 decimal places the smallest step is far from tiny. */
  lemma NotTiny(places: nat)
    requires places <= 300
    ensures TINY < Power(0.1, places)
  {
    hide Power;
    Ordered(10.0, places, 300);
    ThousandsBelow(100);
    Ordered(2.0, 1000, 1074);
    assert Power(2.0, 1075) == 2.0 * Power(2.0, 1074) by { Doubled(1074); }
    PowerGrows(2.0, 1074);
    PowerGrows(10.0, places);
    PowersMeet(places);
    PowerPositive(places);
    HalvesMeet(1075);
    Inverses(Power(10.0, places), Power(0.1, places), Power(2.0, 1075), Power(0.5, 1075));
  }

  lemma Doubled(n: nat)
    ensures Power(2.0, n + 1) == 2.0 * Power(2.0, n)
  {
  }

  lemma TinyIsZero(n: nat, places: nat)
    requires places <= 300
    ensures Scaled(n, 0 - places) <= TINY <==> n == 0
    ensures n == 0 ==> Scaled(n, 0 - places) < TOO_LARGE
  {
    hide Power, Scaled;
    ScaledDown(n, places);
    NotTiny(places);
    HalvesMeet(1075);
    NotTooLarge(0);
    PowerGrows(10.0, 0);
    if n == 0 {
      Zero(Power(0.1, places));
    } else {
      PowerPositive(places);
      AtLeastOnce(n, Power(0.1, places));
    }
  }

  lemma AtLeastOnce(n: nat, x: real)
    requires n > 0 && x > 0.0
    ensures n as real * x >= x
  {
    Times(1.0, n as real, x);
  }

  lemma Zero(x: real)
    ensures (0 as nat) as real * x == 0.0
  {
  }

  /** A plain figure with a minus sign and at most 300 decimal places is measured exactly when it is zero. */
  lemma NegativeFigures(whole: string, fraction: string, s: string)
    requires AllDigits(whole + fraction) && whole + fraction != [] && |fraction| <= 300
    requires s == whole + "." + fraction || (s == whole && fraction == "")
    ensures Measured("-" + s + "%") <==> Number(whole + fraction) == 0
  {
    hide Decimal, Power, Scaled, Number, AllDigits;
    var figure := "-" + s;
    assert figure[1..] == s && Unsigned(figure) == s && IsNegative(figure);
    assert (figure + "%")[..|figure|] == figure;
    DecimalIs(whole, fraction, s);
    TinyIsZero(Number(whole + fraction), |fraction|);
  }

  // ---- every figure ----

  lemma NumberOfDigit(c: char)
    requires IsDigit(c)
    ensures Number([c]) == c as int - '0' as int
  {
    assert [c][..0] == "";
  }

  lemma NumberSnoc(high: string, c: char)
    requires AllDigits(high) && IsDigit(c)
    ensures AllDigits(high + [c]) && Number(high + [c]) == Number(high) * 10 + (c as int - 48)
  {
    assert (high + [c])[..|high|] == high;
  }

  /** The number that digits write, by place values. */
  lemma {:induction false} NumberMeans(a: string, b: string)
    requires AllDigits(a) && AllDigits(b)
    ensures AllDigits(a + b) && Number(a + b) as real == Number(a) as real * Power(10.0, |b|) + Number(b) as real
    decreases |b|
  {
    hide Number;
    if b == [] {
      assert a + b == a;
      NumberOfNone();
    } else {
      var high, c := b[..|b| - 1], b[|b| - 1];
      NumberMeans(a, high);
      NumberSnoc(a + high, c);
      NumberSnoc(high, c);
      assert b == high + [c] && a + b == (a + high) + [c];
      PlaceMoves(Number(a) as real, Power(10.0, |high|), Number(high) as real, (c as int - 48) as real);
    }
  }

  lemma PlaceMoves(a: real, power: real, high: real, last: real)
    ensures (a * power + high) * 10.0 + last == a * (10.0 * power) + (high * 10.0 + last)
  {
    assert a * power * 10.0 == a * (10.0 * power);
  }

  /** `v` is `m` times ten to the power of `exponent`. */
  ghost predicate IsScaled(v: real, m: nat, exponent: int) {
    if exponent >= 0 then v == m as real * Power(10.0, exponent) else v * Power(10.0, -exponent) == m as real
  }

  lemma ScaledMeans(v: real, m: nat, exponent: int)
    ensures IsScaled(v, m, exponent) <==> v == Scaled(m, exponent)
  {
    if exponent < 0 {
      var up, down := Power(10.0, -exponent), Power(0.1, -exponent);
      PowersMeet(-exponent);
      if v * up == m as real {
        Cancelling(v, up, down);
      }
      if v == m as real * down {
        Cancelling(m as real, down, up);
      }
    }
  }

  lemma Cancelling(a: real, b: real, c: real)
    requires b * c == 1.0 || c * b == 1.0
    ensures (a * b) * c == a
  {
    Associate(a, b, c);
  }

  /** The parts of a figure: a sign, digits with a point among them, and an exponent with a sign of its own. */
  datatype Parts = Parts(
    sign: string, whole: string, point: string, fraction: string, mark: string, power: string, digits: string)

  predicate IsSign(s: string) { s == "" || s == "+" || s == "-" }

  predicate IsExponent(p: Parts) {
    && IsSign(p.power) && AllDigits(p.digits)
    && if p.mark == "" then p.power == "" && p.digits == "" else (p.mark == "e" || p.mark == "E") && p.digits != ""
  }

  predicate IsParts(p: Parts) {
    && IsSign(p.sign) && AllDigits(p.whole) && AllDigits(p.fraction) && p.whole + p.fraction != ""
    && (p.point == "." || (p.point == "" && p.fraction == "")) && IsExponent(p)
  }

  function Exponential(p: Parts): string { p.mark + (p.power + p.digits) }

  function Magnitude(p: Parts): string { p.whole + (p.point + (p.fraction + Exponential(p))) }

  function Signed(sign: string, n: int): int { if sign == "-" then -n else n }

  function ExponentOf(p: Parts): int
    requires IsParts(p)
  {
    Signed(p.power, Number(p.digits)) - |p.fraction|
  }

  /** The text is written of these parts, and the number they stand for is finite and not negative once it is rounded
      to a double. */
  ghost predicate Stands(s: string, p: Parts, v: real) {
    && IsParts(p) && s == p.sign + Magnitude(p) && AllDigits(p.whole + p.fraction)
    && IsScaled(v, Number(p.whole + p.fraction), ExponentOf(p))
    && v < Power(2.0, 1024) - Power(2.0, 970) && (p.sign == "-" ==> v <= Power(0.5, 1075))
  }

  lemma {:induction false} FirstOfAt(s: string, a: char, b: char, k: nat)
    requires k <= |s| && (k == |s| || s[k] == a || s[k] == b) && forall j :: 0 <= j < k ==> s[j] != a && s[j] != b
    ensures FirstOf(s, a, b) == k
  {
    if k > 0 {
      FirstOfAt(s[1..], a, b, k - 1);
    }
  }

  lemma ExponentIs(p: Parts)
    requires IsExponent(p)
    ensures Exponent(Exponential(p)) == Some(Signed(p.power, Number(p.digits)))
  {
    hide Number;
    var s := Exponential(p);
    if p.mark == "" {
      assert s == "" && p.digits == "" && Number("") == 0 by { NumberOfNone(); }
    } else {
      var signed := p.power + p.digits;
      assert s[1..] == signed;
      if p.power != "" {
        assert signed[1..] == p.digits;
      } else {
        assert signed == p.digits && IsDigit(signed[0]);
      }
    }
  }

  lemma NumberOfNone()
    ensures Number("") == 0
  {
  }

  lemma DecimalOfParts(p: Parts)
    requires IsParts(p)
    ensures AllDigits(p.whole + p.fraction)
    ensures Decimal(Magnitude(p)) == Some(Scaled(Number(p.whole + p.fraction), ExponentOf(p)))
  {
    hide Scaled, Number, Exponent, Exponential, FirstOf;
    var u, tail := Magnitude(p), Exponential(p);
    var w := |p.whole|;
    var e := w + |p.point| + |p.fraction|;
    MagnitudeCuts(p);
    FirstOfAt(u, 'e', 'E', e);
    FirstOfAt(u[..e], '.', '.', w);
    ExponentIs(p);
  }

  /** Where the parts of a magnitude stand. */
  lemma MagnitudeCuts(p: Parts)
    requires IsParts(p)
    ensures var u, w := Magnitude(p), |p.whole|;
      var e := w + |p.point| + |p.fraction|;
      && e <= |u| && u[e..] == Exponential(p) && u[..w] == p.whole == u[..e][..w]
      && (p.point == "." ==> w < e && u[w + 1..e] == p.fraction) && (p.point == "" ==> w == e)
      && (forall j :: 0 <= j < e ==> u[j] != 'e' && u[j] != 'E') && (e == |u| || u[e] == 'e' || u[e] == 'E')
      && (forall j :: 0 <= j < w ==> u[..e][j] != '.') && (w < e ==> u[..e][w] == '.')
  {
    hide Number;
    var u, w := Magnitude(p), |p.whole|;
    var e := w + |p.point| + |p.fraction|;
    assert forall j :: 0 <= j < w ==> u[j] == p.whole[j];
    assert forall j :: w + |p.point| <= j < e ==> u[j] == p.fraction[j - w - |p.point|];
    assert p.point == "." ==> u[w] == '.';
  }

  lemma UnsignedIs(p: Parts)
    requires IsParts(p)
    ensures Unsigned(p.sign + Magnitude(p)) == Magnitude(p)
    ensures IsNegative(p.sign + Magnitude(p)) <==> p.sign == "-"
  {
    hide Magnitude, IsExponent, AllDigits;
    MagnitudeStarts(p);
    SignedIs(p.sign, Magnitude(p));
  }

  lemma MagnitudeStarts(p: Parts)
    requires IsParts(p)
    ensures Magnitude(p) != "" && Magnitude(p)[0] != '+' && Magnitude(p)[0] != '-'
  {
    hide IsExponent;
    if p.whole != "" {
      assert Magnitude(p)[0] == p.whole[0];
    } else {
      assert Magnitude(p)[0] == '.';
    }
  }

  lemma SignedIs(sign: string, u: string)
    requires IsSign(sign) && u != "" && u[0] != '+' && u[0] != '-'
    ensures Unsigned(sign + u) == u && (IsNegative(sign + u) <==> sign == "-")
  {
    if sign == "" {
      assert sign + u == u;
    } else {
      assert (sign + u)[1..] == u;
    }
  }

  lemma SignCut(s: string) returns (sign: string)
    ensures IsSign(sign) && s == sign + Unsigned(s) && (IsNegative(s) <==> sign == "-")
  {
    sign := "";
    if s != [] && (s[0] == '+' || s[0] == '-') {
      sign := s[..1];
      assert sign == [s[0]];
    }
    assert s == sign + Unsigned(s);
  }

  /** Every text that the parser reads has such parts. */
  lemma ReadHasParts(s: string) returns (p: Parts)
    requires Decimal(Unsigned(s)).Some?
    ensures IsParts(p) && s == p.sign + Magnitude(p)
  {
    hide Number, Scaled, FirstOf, IsSign, Exponential, Exponent, AllDigits, Magnitude, Unsigned;
    var sign := SignCut(s);
    var u := Unsigned(s);
    var e := FirstOf(u, 'e', 'E');
    var w := FirstOf(u[..e], '.', '.');
    var mark, power, digits := ExponentParts(u[e..]);
    p := Parts(sign, u[..w], if w < e then "." else "", if w < e then u[w + 1..e] else "", mark, power, digits);
    ExponentialIs(p);
    DecimalDigits(u);
    Magnifies(p, u, e, w);
  }

  lemma ExponentialIs(p: Parts)
    ensures Exponential(p) == p.mark + (p.power + p.digits)
  {
  }

  /** What the parser has found when it reads a magnitude. */
  lemma DecimalDigits(u: string)
    requires Decimal(u).Some?
    ensures var e := FirstOf(u, 'e', 'E');
      var w := FirstOf(u[..e], '.', '.');
      && w <= e && AllDigits(u[..w]) && (w < e ==> AllDigits(u[w + 1..e]) && u[w] == '.')
      && AllDigits("") && (w == e ==> u[..w] + "" != "") && (w < e ==> u[..w] + u[w + 1..e] != "")
  {
    hide Number, Scaled, FirstOf, Exponent;
    var e := FirstOf(u, 'e', 'E');
    var w := FirstOf(u[..e], '.', '.');
    assert u[..w] == u[..e][..w];
    DigitsSplit(u, e, w);
  }

  lemma DigitsSplit(u: string, e: nat, w: nat)
    requires w <= e <= |u| && AllDigits(u[..w] + if w < e then u[w + 1..e] else "")
    ensures AllDigits(u[..w]) && (w < e ==> AllDigits(u[w + 1..e]))
  {
    var fraction := if w < e then u[w + 1..e] else "";
    var both := u[..w] + fraction;
    assert forall k :: 0 <= k < w ==> both[k] == u[..w][k];
    assert forall k :: 0 <= k < |fraction| ==> both[w + k] == fraction[k];
  }

  lemma Magnifies(p: Parts, u: string, e: nat, w: nat)
    requires w <= e <= |u| && p.whole == u[..w] && u[e..] == Exponential(p) && (w < e ==> u[w] == '.')
    requires p.point == (if w < e then "." else "") && p.fraction == if w < e then u[w + 1..e] else ""
    ensures Magnitude(p) == u
  {
    hide Exponential;
    assert u == u[..w] + u[w..];
    if w < e {
      assert u[w..] == "." + (u[w + 1..e] + u[e..]);
    } else {
      assert "" + ("" + u[e..]) == u[e..];
    }
  }

  lemma ExponentParts(s: string) returns (mark: string, power: string, digits: string)
    requires Exponent(s).Some? && (s == "" || s[0] == 'e' || s[0] == 'E')
    ensures s == mark + (power + digits) && IsSign(power) && AllDigits(digits)
    ensures if mark == "" then power == "" && digits == "" else (mark == "e" || mark == "E") && digits != ""
  {
    mark, power, digits := "", "", "";
    if s != "" {
      mark := s[..1];
      power := SignCut(s[1..]);
      digits := Unsigned(s[1..]);
      assert mark == [s[0]] && s == mark + s[1..];
    }
  }

  /** The occupancy counts as measured exactly when it is written as a number with a percent sign behind it, and the
      number is finite and not negative once it is rounded to a double. */
  lemma MeasuredMeans(occupancy: string)
    ensures Measured(occupancy) <==> exists s, p, v :: occupancy == s + "%" && Stands(s, p, v)
  {
    hide Figure, Stands;
    if Measured(occupancy) {
      var s := occupancy[..|occupancy| - 1];
      assert occupancy == s + "%";
      FigureStands(s);
    }
    if s, p, v :| occupancy == s + "%" && Stands(s, p, v) {
      assert occupancy[..|occupancy| - 1] == s;
      StandsIsFigure(s, p, v);
    }
  }

  lemma FigureStands(s: string)
    requires Figure(s)
    ensures exists p, v :: Stands(s, p, v)
  {
    hide Number, Scaled, Magnitude, IsScaled, Decimal, Unsigned, IsNegative, Power, IsSign, IsExponent;
    var p := ReadHasParts(s);
    UnsignedIs(p);
    DecimalOfParts(p);
    var m, v := Number(p.whole + p.fraction), Decimal(Unsigned(s)).value;
    ScaledMeans(v, m, ExponentOf(p));
    assert Stands(s, p, v);
  }

  lemma StandsIsFigure(s: string, p: Parts, v: real)
    requires Stands(s, p, v)
    ensures Figure(s)
  {
    hide Number, Scaled, Magnitude, IsScaled, Decimal, Unsigned, IsNegative, Power, IsSign, IsExponent;
    UnsignedIs(p);
    DecimalOfParts(p);
    ScaledMeans(v, Number(p.whole + p.fraction), ExponentOf(p));
  }
}
