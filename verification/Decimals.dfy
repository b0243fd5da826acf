/** Decimal numbers: reading, rounding half to even within the context precision, and printing with fixed decimals. */
module Decimals {
  import opened Prelude
  import opened Numerals

  /** `coeff * 10^exp`, negated when `neg`; zero keeps its sign. */
  datatype Dec = Dec(neg: bool, coeff: nat, exp: int)

  /** The precision of Python's default decimal context. */
  const PRECISION := 28

  function Pow10(n: nat): (r: nat)
    ensures r > 0
  {
    if n == 0 then 1 else 10 * Pow10(n - 1)
  }

  lemma {:induction false} Pow10Monotonic(m: nat, n: nat)
    requires m <= n
    ensures Pow10(m) <= Pow10(n)
    decreases n
  {
    if m < n {
      Pow10Monotonic(m, n - 1);
    }
  }

  lemma {:induction false} Pow10Sum(m: nat, n: nat)
    ensures Pow10(m) * Pow10(n) == Pow10(m + n)
  {
    if m > 0 {
      Pow10Sum(m - 1, n);
    }
  }

  /** The coefficient over the common exponent `low`, with its sign. */
  function Aligned(d: Dec, low: int): int
    requires low <= d.exp
  {
    var scaled := d.coeff * Pow10(d.exp - low);
    if d.neg then -scaled else scaled
  }

  /** `a < b` on decimals. */
  predicate Less(a: Dec, b: Dec) {
    var low := if a.exp < b.exp then a.exp else b.exp;
    Aligned(a, low) < Aligned(b, low)
  }

  function Signed(d: Dec): int {
    if d.neg then -(d.coeff as int) else d.coeff
  }

  /** The number in units of `10^-k`. */
  function Units(d: Dec, k: int): int
    requires d.exp + k >= 0
  {
    Signed(d) * Pow10(d.exp + k)
  }

  /** So many decimals that both numbers are whole in these units. */
  function CommonScale(a: Dec, b: Dec): (k: nat)
    ensures a.exp + k >= 0 && b.exp + k >= 0
  {
    if a.exp >= 0 && b.exp >= 0 then 0 else if a.exp <= b.exp then -a.exp else -b.exp
  }

  /** `a <= b` as numbers: compared in common units. */
  predicate NotAbove(a: Dec, b: Dec) {
    Units(a, CommonScale(a, b)) <= Units(b, CommonScale(a, b))
  }

  lemma UnitsFiner(d: Dec, k: int, more: nat)
    requires d.exp + k >= 0
    ensures Units(d, k + more) == Units(d, k) * Pow10(more)
  {
    hide Pow10;
    Pow10Sum(d.exp + k, more);
    MulAssociates(Signed(d), Pow10(d.exp + k), Pow10(more));
  }

  lemma MulAssociates(x: int, y: int, z: int)
    ensures x * (y * z) == (x * y) * z
  {
  }

  lemma TimesPositive(x: int, y: int, m: int)
    requires m > 0
    ensures x < y <==> x * m < y * m
  {
    if x < y {
      assert y * m == x * m + (y - x) * m;
      assert (y - x) * m > 0;
    } else {
      assert x * m == y * m + (x - y) * m;
      assert (x - y) * m >= 0;
    }
  }

  lemma AlignedIsUnits(d: Dec, low: int)
    requires low <= d.exp
    ensures Aligned(d, low) == Units(d, -low)
  {
    hide Pow10;
  }

  lemma LessInUnits(a: Dec, b: Dec, k: int)
    requires a.exp + k >= 0 && b.exp + k >= 0
    ensures Less(a, b) <==> Units(a, k) < Units(b, k)
  {
    hide Pow10;
    var low := if a.exp < b.exp then a.exp else b.exp;
    UnitsFiner(a, -low, k + low);
    UnitsFiner(b, -low, k + low);
    AlignedIsUnits(a, low);
    AlignedIsUnits(b, low);
    hide Units, Aligned;
    TimesPositive(Units(a, -low), Units(b, -low), Pow10(k + low));
  }

  /** `Less` is the order of numbers, in whatever units both are whole. */
  lemma LessIff(a: Dec, b: Dec)
    ensures Less(a, b) <==> !NotAbove(b, a)
    ensures forall k :: a.exp + k >= 0 && b.exp + k >= 0 ==> (Less(a, b) <==> Units(a, k) < Units(b, k))
  {
    hide Less, Units;
    forall k | a.exp + k >= 0 && b.exp + k >= 0
      ensures Less(a, b) <==> Units(a, k) < Units(b, k)
    {
      LessInUnits(a, b, k);
    }
  }

  /** `Decimal(n)`. */
  function Whole(n: int): Dec {
    Dec(n < 0, if n < 0 then -n else n, 0)
  }

  lemma WholeOrder(m: int, n: int)
    ensures NotAbove(Whole(m), Whole(n)) <==> m <= n
  {
    assert Pow10(0) == 1;
  }

  /** Numbers with decimals are ordered as the integers they become when each is multiplied by the other's unit. */
  lemma FractionOrder(a: Dec, b: Dec)
    requires a.exp <= 0 && b.exp <= 0
    ensures NotAbove(a, b) <==> Signed(a) * Pow10(-b.exp) <= Signed(b) * Pow10(-a.exp)
  {
    hide NotAbove, Pow10, Less;
    LessIff(b, a);
    LessInUnits(b, a, -a.exp - b.exp);
  }

  // ----------------------------------------------------------------- rounding

  function HalfEven(c: nat, p: nat): nat
    requires p > 0
  {
    var q, r := c / p, c % p;
    if 2 * r > p || (2 * r == p && q % 2 == 1) then q + 1 else q
  }

  /** The coefficient of `d` at exponent `-scale`. */
  function Rounded(d: Dec, scale: nat): nat {
    var shift := d.exp + scale;
    if shift >= 0 then d.coeff * Pow10(shift) else HalfEven(d.coeff, Pow10(-shift))
  }

  /** `d.quantize(Decimal(1).scaleb(-scale))`; None stands for InvalidOperation. */
  function Quantize(d: Dec, scale: nat, precision: nat): Option<Dec> {
    var q := Rounded(d, scale);
    if q >= Pow10(precision) then None else Some(Dec(d.neg, q, -(scale as int)))
  }

  /** The rounded number is within half a unit in the last place, and on a tie it is the even neighbour. */
  lemma QuantizeNearest(d: Dec, scale: nat, precision: nat)
    requires Quantize(d, scale, precision).Some?
    ensures var q := Quantize(d, scale, precision).value;
            && q.neg == d.neg && q.exp == -(scale as int)
            && (d.exp + scale >= 0 ==> q.coeff == d.coeff * Pow10(d.exp + scale))
            && (d.exp + scale < 0 ==>
                  var unit := Pow10(-(d.exp + scale));
                  && 2 * (q.coeff * unit - d.coeff) <= unit && 2 * (d.coeff - q.coeff * unit) <= unit
                  && ((2 * (q.coeff * unit - d.coeff) == unit || 2 * (d.coeff - q.coeff * unit) == unit) ==> q.coeff % 2 == 0))
  {
    if d.exp + scale < 0 {
      HalfEvenNearest(d.coeff, Pow10(-(d.exp + scale)));
    }
  }

  lemma HalfEvenNearest(c: nat, p: nat)
    requires p > 0
    ensures var h := HalfEven(c, p);
            && 2 * (h * p - c) <= p && 2 * (c - h * p) <= p
            && (2 * (h * p - c) == p || 2 * (c - h * p) == p ==> h % 2 == 0)
  {
    var q, r := c / p, c % p;
    assert c == q * p + r;
    assert (q + 1) * p == q * p + p;
  }

  /** Rounding reaches an even number exactly from half a unit below it. */
  lemma HalfEvenReaches(c: nat, p: nat, half: nat)
    requires p > 0 && half > 0
    ensures HalfEven(c, p) >= 2 * half <==> 2 * c >= (4 * half - 1) * p
  {
    var q, r, n := c / p, c % p, 2 * half;
    Products(q, n, p);
    TwiceLess(n, p);
    ReachesLinear(c, p, q, r, n, q * p, n * p);
  }

  lemma Products(q: nat, n: nat, p: nat)
    ensures q >= n ==> q * p >= n * p
    ensures q == n - 1 ==> q * p == n * p - p
    ensures q <= n - 2 ==> q * p + 2 * p <= n * p
  {
    if q >= n {
      MulMonotonic(n, q, p);
    } else if q <= n - 2 {
      MulMonotonic(q + 2, n, p);
      assert (q + 2) * p == q * p + 2 * p;
    } else {
      assert n * p == (q + 1) * p == q * p + p;
    }
  }

  lemma TwiceLess(n: nat, p: nat)
    requires n > 0
    ensures (2 * n - 1) * p == 2 * (n * p) - p
  {
  }

  /** The case analysis, with the products as given numbers. */
  lemma ReachesLinear(c: nat, p: nat, q: nat, r: nat, n: nat, qp: int, np: int)
    requires p > 0 && n > 0 && n % 2 == 0 && c == qp + r && r < p
    requires q >= n ==> qp >= np
    requires q == n - 1 ==> qp == np - p
    requires q <= n - 2 ==> qp + 2 * p <= np
    ensures (if 2 * r > p || (2 * r == p && q % 2 == 1) then q + 1 else q) >= n <==> 2 * c >= 2 * np - p
  {
  }

  lemma MulMonotonic(a: nat, b: nat, p: nat)
    requires a <= b
    ensures a * p <= b * p
  {
    assert b * p == a * p + (b - a) * p;
  }

  /** From half a unit in the last place below 10^precision units upwards there are too many digits. */
  predicate Overflows(d: Dec, scale: nat, precision: nat) {
    var shift := d.exp + scale;
    if shift >= 0 then d.coeff * Pow10(shift) >= Pow10(precision)
    else 2 * d.coeff >= (2 * Pow10(precision) - 1) * Pow10(-shift)
  }

  /** Where rounding fails. */
  lemma QuantizeFailsIff(d: Dec, scale: nat, precision: nat)
    requires precision > 0
    ensures Quantize(d, scale, precision).None? <==> Overflows(d, scale, precision)
  {
    if d.exp + scale < 0 {
      HalfEvenReaches(d.coeff, Pow10(-(d.exp + scale)), 5 * Pow10(precision - 1));
    }
  }

  lemma ParseDigits(n: nat)
    requires |Digits(n)| <= 30
    ensures ParseDecimal(Digits(n)) == Some(Dec(false, n, 0))
  {
    ValueOfDigits(n);
    PointAfterDigits(Digits(n), "");
    assert Digits(n) + "" == Digits(n);
    assert Digits(n)[..|Digits(n)|] == Digits(n);
  }

  // ------------------------------------------------------------------ reading

  const MAX_NUMERIC_CHARS := 40

  predicate IsSign(c: char) {
    c == '+' || c == '-'
  }

  function Unsigned(s: string): string {
    if |s| > 0 && IsSign(s[0]) then s[1..] else s
  }

  predicate Negative(s: string) {
    |s| > 0 && s[0] == '-'
  }

  /** The position of the first point, or the length. */
  function PointAt(s: string): (k: nat)
    ensures k <= |s|
  {
    if |s| == 0 || s[0] == '.' then 0 else 1 + PointAt(s[1..])
  }

  lemma {:induction false} PointAfterDigits(a: string, rest: string)
    requires AllDigits(a) && (|rest| == 0 || rest[0] == '.')
    ensures PointAt(a + rest) == |a|
  {
    if |a| == 0 {
      assert a + rest == rest;
    } else {
      assert (a + rest)[1..] == a[1..] + rest;
      PointAfterDigits(a[1..], rest);
    }
  }

  /** `[+-]?\d{1,30}(\.\d{1,10})?`, at most 40 characters, as a number. */
  function ParseDecimal(s: string): Option<Dec> {
    var body := Unsigned(s);
    var k := PointAt(body);
    var whole := body[..k];
    if |s| > MAX_NUMERIC_CHARS || !AllDigits(whole) || !(1 <= |whole| <= 30) then None
    else if k == |body| then Some(Dec(Negative(s), NumberOf(whole), 0))
    else
      var decimals := body[k + 1..];
      if !AllDigits(decimals) || !(1 <= |decimals| <= 10) then None
      else Some(Dec(Negative(s), NumberOf(whole + decimals), -|decimals|))
  }

  // ----------------------------------------------------------------- printing

  function Zeros(n: nat): (z: string)
    ensures |z| == n && AllDigits(z)
  {
    if n == 0 then "" else "0" + Zeros(n - 1)
  }

  /** The digits of `n`, with zeros in front up to `width` digits. */
  function Padded(n: nat, width: nat): (s: string)
    ensures AllDigits(s) && |s| >= width && |s| >= 1
  {
    var d := Digits(n);
    if |d| >= width then d else Zeros(width - |d|) + d
  }

  /** The digits with a point before the last `scale` of them. */
  function Fixed(neg: bool, digits: string, scale: nat): string
    requires scale < |digits|
  {
    var split := |digits| - scale;
    (if neg then "-" else "") + digits[..split] + if scale == 0 then "" else "." + digits[split..]
  }

  /** `format(d, "f")` of a number with exponent `-scale`. */
  function Print(neg: bool, coeff: nat, scale: nat): string {
    Fixed(neg, Padded(coeff, scale + 1), scale)
  }

  /** A printed number ends in exactly `scale` decimals. */
  lemma {:induction false} PrintedDecimals(neg: bool, coeff: nat, scale: nat)
    ensures var s := Print(neg, coeff, scale);
            && Trimmed(s) && |s| > scale
            && AllDigits(s[|s| - scale..])
            && (scale > 0 ==> |s| > scale + 1 && s[|s| - scale - 1] == '.')
            && IsDigit(s[|s| - 1])
  {
    hide Padded;
    var digits := Padded(coeff, scale + 1);
    var split := |digits| - scale;
    var s := Print(neg, coeff, scale);
    assert s[|s| - scale..] == digits[split..];
    assert s[0] == '-' || s[0] == digits[0];
    if scale == 0 {
      assert s[|s| - 1] == digits[|digits| - 1];
    }
  }

  lemma {:induction false} ValueOfZeros(n: nat, s: string)
    requires AllDigits(s)
    ensures NumberOf(Zeros(n) + s) == NumberOf(s)
    decreases n, |s|
  {
    if |s| > 0 {
      var whole := Zeros(n) + s;
      assert whole[..|whole| - 1] == Zeros(n) + s[..|s| - 1];
      ValueOfZeros(n, s[..|s| - 1]);
    } else if n > 0 {
      assert Zeros(n) + s == Zeros(n - 1) + "0" by { ZerosCommute(n - 1); }
      var whole := Zeros(n - 1) + "0";
      assert whole[..|whole| - 1] == Zeros(n - 1) + s;
      ValueOfZeros(n - 1, s);
    }
  }

  lemma {:induction false} ZerosCommute(n: nat)
    ensures "0" + Zeros(n) == Zeros(n) + "0"
  {
    if n > 0 {
      ZerosCommute(n - 1);
    }
  }

  lemma {:induction false} DigitsShort(n: nat, k: nat)
    requires k >= 1 && n < Pow10(k)
    ensures |Digits(n)| <= k
  {
    if n >= 10 {
      assert k > 1;
      DigitsShort(n / 10, k - 1);
    }
  }

  /** Reading a printed number gives the number back. */
  lemma ParsePrinted(neg: bool, coeff: nat, scale: nat, precision: nat)
    requires coeff < Pow10(precision) && scale <= 10 && 1 <= precision <= PRECISION
    ensures ParseDecimal(Print(neg, coeff, scale)) == Some(Dec(neg, coeff, -(scale as int)))
  {
    PaddedShort(coeff, scale + 1, precision);
    PaddedValue(coeff, scale + 1);
    ParseFixed(neg, Padded(coeff, scale + 1), scale);
  }

  lemma {:induction false} ParseFixed(neg: bool, digits: string, scale: nat)
    requires AllDigits(digits) && scale < |digits| <= PRECISION && scale <= 10
    ensures ParseDecimal(Fixed(neg, digits, scale)) == Some(Dec(neg, NumberOf(digits), -(scale as int)))
  {
    var split := |digits| - scale;
    FixedParts(neg, digits, scale);
    if scale == 0 {
      assert digits[..split] == digits;
      ParseSigned(neg, digits, "");
    } else {
      ParseWithPoint(neg, digits, split);
    }
  }

  lemma {:induction false} ParseWithPoint(neg: bool, digits: string, split: nat)
    requires AllDigits(digits) && 1 <= split < |digits| <= PRECISION && |digits| - split <= 10
    ensures ParseDecimal((if neg then "-" else "") + (digits[..split] + ("." + digits[split..]))) ==
            Some(Dec(neg, NumberOf(digits), split - |digits|))
  {
    var whole, decimals := digits[..split], digits[split..];
    assert whole + decimals == digits && ("." + decimals)[1..] == decimals;
    ParseSigned(neg, whole, "." + decimals);
  }

  lemma ParseSigned(neg: bool, whole: string, rest: string)
    requires AllDigits(whole) && 1 <= |whole| <= PRECISION
    requires rest == "" || (2 <= |rest| <= 11 && rest[0] == '.' && AllDigits(rest[1..]))
    ensures ParseDecimal((if neg then "-" else "") + (whole + rest)) ==
            if rest == "" then Some(Dec(neg, NumberOf(whole), 0)) else Some(Dec(neg, NumberOf(whole + rest[1..]), 1 - |rest|))
  {
    SignOf(neg, whole + rest);
    PointAfterDigits(whole, rest);
    ParseParts((if neg then "-" else "") + (whole + rest), whole, rest);
  }

  lemma FixedParts(neg: bool, digits: string, scale: nat)
    requires scale < |digits|
    ensures var split := |digits| - scale;
            var rest := if scale == 0 then "" else "." + digits[split..];
            Fixed(neg, digits, scale) == (if neg then "-" else "") + (digits[..split] + rest)
  {
  }

  lemma PaddedShort(n: nat, width: nat, precision: nat)
    requires n < Pow10(precision) && width <= PRECISION && 1 <= precision <= PRECISION
    ensures |Padded(n, width)| <= PRECISION
  {
    DigitsShort(n, precision);
  }

  lemma SignOf(neg: bool, body: string)
    requires |body| > 0 && IsDigit(body[0])
    ensures var s := (if neg then "-" else "") + body;
            Unsigned(s) == body && Negative(s) == neg && |s| <= |body| + 1
  {
  }

  lemma {:induction false} PaddedValue(n: nat, width: nat)
    ensures NumberOf(Padded(n, width)) == n
  {
    hide NumberOf, Digits;
    ValueOfDigits(n);
    if |Digits(n)| < width {
      ValueOfZeros(width - |Digits(n)|, Digits(n));
    }
  }

  lemma ParseParts(s: string, whole: string, rest: string)
    requires Unsigned(s) == whole + rest && |s| <= MAX_NUMERIC_CHARS && AllDigits(whole) && 1 <= |whole| <= 30
    requires rest == "" || (2 <= |rest| <= 11 && rest[0] == '.' && AllDigits(rest[1..]))
    requires PointAt(whole + rest) == |whole|
    ensures ParseDecimal(s) ==
            if rest == "" then Some(Dec(Negative(s), NumberOf(whole), 0))
            else Some(Dec(Negative(s), NumberOf(whole + rest[1..]), 1 - |rest|))
  {
    assert (whole + rest)[..|whole|] == whole;
    assert rest != "" ==> (whole + rest)[|whole| + 1..] == rest[1..];
  }

  /** Rounding a number that already has the scale changes nothing. */
  lemma QuantizeFixpoint(neg: bool, coeff: nat, scale: nat, precision: nat)
    requires coeff < Pow10(precision)
    ensures Quantize(Dec(neg, coeff, -(scale as int)), scale, precision) == Some(Dec(neg, coeff, -(scale as int)))
  {
  }

  // ------------------------------------------------------- what is a numeral

  /** `s` is a sign, one to thirty digits and at most ten decimals, and denotes `d`. */
  predicate IsNumeral(s: string, sign: string, whole: string, decimals: string, d: Dec) {
    && sign in {"", "+", "-"} && s == sign + whole + (if decimals == "" then "" else "." + decimals) && |s| <= 40
    && AllDigits(whole) && 1 <= |whole| <= 30 && AllDigits(decimals) && |decimals| <= 10
    && AllDigits(whole + decimals) && d == Dec(sign == "-", NumberOf(whole + decimals), -|decimals|)
  }

  lemma {:induction false} SplitAtPoint(s: string)
    ensures s == s[..PointAt(s)] + s[PointAt(s)..]
    ensures PointAt(s) < |s| ==> s[PointAt(s)] == '.'
  {
    if |s| > 0 && s[0] != '.' {
      SplitAtPoint(s[1..]);
    }
  }

  lemma SignAndBody(s: string) returns (sign: string)
    ensures s == sign + Unsigned(s) && sign in {"", "+", "-"} && (sign == "-" <==> Negative(s))
  {
    if |s| > 0 && IsSign(s[0]) {
      sign := [s[0]];
    } else {
      sign := "";
    }
  }

  lemma ParsedIsNumeral(s: string, d: Dec)
    requires ParseDecimal(s) == Some(d)
    ensures exists sign, whole, decimals :: IsNumeral(s, sign, whole, decimals, d)
  {
    var sign := SignAndBody(s);
    var body, k := Unsigned(s), PointAt(Unsigned(s));
    SplitAtPoint(body);
    hide NumberOf, PointAt, Unsigned, Negative;
    var whole := body[..k];
    if k == |body| {
      assert whole + "" == whole;
      assert IsNumeral(s, sign, whole, "", d);
    } else {
      var decimals := body[k + 1..];
      assert body[k..] == "." + decimals;
      assert s == sign + whole + ("." + decimals);
      assert IsNumeral(s, sign, whole, decimals, d);
    }
  }

  /** Exactly the numerals are read, each as the number it denotes. */
  lemma ParseDecimalIff(s: string, d: Dec)
    ensures ParseDecimal(s) == Some(d) <==> exists sign, whole, decimals :: IsNumeral(s, sign, whole, decimals, d)
  {
    hide ParseDecimal, IsNumeral;
    if ParseDecimal(s) == Some(d) {
      ParsedIsNumeral(s, d);
    }
    if sign, whole, decimals :| IsNumeral(s, sign, whole, decimals, d) {
      NumeralParses(s, sign, whole, decimals, d);
    }
  }

  lemma NumeralParses(s: string, sign: string, whole: string, decimals: string, d: Dec)
    requires IsNumeral(s, sign, whole, decimals, d)
    ensures ParseDecimal(s) == Some(d)
  {
    hide NumberOf;
    var rest := if decimals == "" then "" else "." + decimals;
    PointAfterDigits(whole, rest);
    assert sign == "" ==> s == whole + rest && IsDigit(s[0]);
    assert sign != "" ==> s[0] == sign[0] && s[1..] == whole + rest;
    assert Unsigned(s) == whole + rest;
    assert whole + "" == whole;
    assert decimals != "" ==> rest[1..] == decimals;
    ParseParts(s, whole, rest);
  }

  /** A printed number has a sign exactly when it is negative, and no zero in front of its whole part but a single one. */
  lemma PrintedWhole(neg: bool, coeff: nat, scale: nat)
    ensures var s := Print(neg, coeff, scale);
            var start, end := if neg then 1 else 0, |s| - scale - if scale > 0 then 1 else 0;
            && (neg <==> s[0] == '-') && start < end && AllDigits(s[start..end]) && (s[start] == '0' ==> end == start + 1)
  {
    var digits := Padded(coeff, scale + 1);
    var split := |digits| - scale;
    var s := Print(neg, coeff, scale);
    var start, end := if neg then 1 else 0, |s| - scale - if scale > 0 then 1 else 0;
    assert end - start == split;
    assert s[start..end] == digits[..split];
    assert s[start] == s[start..end][0] == digits[0];
  }
}
