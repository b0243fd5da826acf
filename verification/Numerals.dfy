/** Decimal numerals, Python's `str.strip`, and names of the form `<text><separator><number>`. */
module Numerals {

  function DigitChar(d: nat): char
    requires d < 10
  {
    "0123456789"[d]
  }

  predicate IsDigit(c: char) {
    '0' <= c <= '9'
  }

  function DigitValue(c: char): nat
    requires IsDigit(c)
  {
    c as int - '0' as int
  }

  /** `str(n)` for a natural number. */
  function Digits(n: nat): (s: string)
    ensures |s| > 0 && forall i :: 0 <= i < |s| ==> IsDigit(s[i])
    ensures n > 0 ==> s[0] != '0'
    ensures n == 0 ==> s == "0"
  {
    if n < 10 then [DigitChar(n)] else Digits(n / 10) + [DigitChar(n % 10)]
  }

  predicate AllDigits(s: string) {
    forall i :: 0 <= i < |s| ==> IsDigit(s[i])
  }

  /** `int(s)` for a string of digits. */
  function NumberOf(s: string): nat
    requires AllDigits(s)
  {
    if |s| == 0 then 0 else 10 * NumberOf(s[..|s| - 1]) + DigitValue(s[|s| - 1])
  }

  lemma {:induction false} ValueOfDigits(n: nat)
    ensures NumberOf(Digits(n)) == n
  {
    var s := Digits(n);
    if n < 10 {
      assert s[..0] == [];
    } else {
      ValueOfDigits(n / 10);
      assert s[..|s| - 1] == Digits(n / 10);
    }
  }

  lemma NumberedNameParts(a: string, m: nat, sep: char)
    ensures var x := a + [sep] + Digits(m);
            && |x| > |a| + 1 && x[..|a|] == a && x[|a|] == sep && x[|a| + 1..] == Digits(m)
            && forall i :: |a| < i < |x| ==> IsDigit(x[i])
  {
  }

  /** A text, a separator that is no digit, and a number: both parts can be read back. */
  lemma NumberedNameInjective(a: string, m: nat, b: string, n: nat, sep: char)
    requires !IsDigit(sep)
    requires a + [sep] + Digits(m) == b + [sep] + Digits(n)
    ensures a == b && m == n
  {
    NumberedNameParts(a, m, sep);
    NumberedNameParts(b, n, sep);
    assert |a| == |b|;
    ValueOfDigits(m);
    ValueOfDigits(n);
  }

  /** The characters for which Python's `str.isspace` holds. */
  predicate IsSpace(c: char) {
    var u := c as int;
    || 0x09 <= u <= 0x0d || 0x1c <= u <= 0x20 || u == 0x85 || u == 0xa0 || u == 0x1680
    || 0x2000 <= u <= 0x200a || u == 0x2028 || u == 0x2029 || u == 0x202f || u == 0x205f || u == 0x3000
  }

  predicate Trimmed(s: string) {
    |s| > 0 ==> !IsSpace(s[0]) && !IsSpace(s[|s| - 1])
  }

  /** `s.strip()`. */
  function Strip(s: string): (r: string)
    ensures Trimmed(r) && |r| <= |s|
    ensures Trimmed(s) ==> r == s
  {
    if |s| == 0 then s
    else if IsSpace(s[0]) then Strip(s[1..])
    else if IsSpace(s[|s| - 1]) then Strip(s[..|s| - 1])
    else s
  }

  predicate AllSpaces(s: string) {
    forall i :: 0 <= i < |s| ==> IsSpace(s[i])
  }

  /** What is stripped off at either end is blank. */
  lemma {:induction false} StrippedParts(s: string) returns (lead: string, trail: string)
    ensures s == lead + Strip(s) + trail && AllSpaces(lead) && AllSpaces(trail)
  {
    if |s| == 0 {
      lead, trail := "", "";
    } else if IsSpace(s[0]) {
      lead, trail := StrippedParts(s[1..]);
      lead := [s[0]] + lead;
      assert s == [s[0]] + s[1..];
    } else if IsSpace(s[|s| - 1]) {
      lead, trail := StrippedParts(s[..|s| - 1]);
      trail := trail + [s[|s| - 1]];
      assert s == s[..|s| - 1] + [s[|s| - 1]];
    } else {
      lead, trail := "", "";
    }
  }

  lemma {:induction false} StripEmptyIff(s: string)
    ensures Strip(s) == "" <==> AllSpaces(s)
  {
    if |s| == 0 {
    } else if IsSpace(s[0]) {
      StripEmptyIff(s[1..]);
      assert s == [s[0]] + s[1..];
    } else if IsSpace(s[|s| - 1]) {
      StripEmptyIff(s[..|s| - 1]);
      assert s == s[..|s| - 1] + [s[|s| - 1]];
    }
  }

  /** `str(n)` for an integer. */
  function IntText(n: int): (s: string)
    ensures Trimmed(s) && |s| > 0
  {
    if n < 0 then "-" + Digits(-n) else Digits(n)
  }
}
