/** Place values: what reading and printing mean by character codes and powers of ten
    (libft: ft_atoi, ft_itoa, ft_putnbr_fd). */
module Positional {
  import opened Arithmetic
  import opened Decimal

  function Pow10(k: nat): (p: nat)
    ensures p >= 1
  {
    if k == 0 then 1 else 10 * Pow10(k - 1)
  }

  /** Codes of decimal digits only. */
  predicate DigitCodes(s: string) {
    forall i :: 0 <= i < |s| ==> 48 <= s[i] as int <= 57
  }

  /** Every character stands for its code less 48, times its power of ten. */
  function Places(s: string): int {
    if s == "" then 0 else (s[0] as int - 48) * Pow10(|s| - 1) + Places(s[1..])
  }

  /** The last character adds its code less 48 to ten times what stands before it. */
  lemma ValueByCodes(s: string)
    requires s != "" && DigitCodes(s)
    ensures AllDigits(s) && Value(s) == 10 * Value(s[..|s| - 1]) + (s[|s| - 1] as int - 48)
  {
  }

  lemma {:induction false} LastPlace(s: string, c: char)
    ensures Places(s + [c]) == 10 * Places(s) + (c as int - 48)
  {
    var t := s + [c];
    if s == "" {
      assert t[1..] == "";
      assert Pow10(0) == 1;
    } else {
      assert t[1..] == s[1..] + [c];
      LastPlace(s[1..], c);
      TenTimes(s[0] as int - 48, Pow10(|s| - 1));
      assert Pow10(|s|) == 10 * Pow10(|s| - 1);
    }
  }

  lemma TenTimes(d: int, p: int)
    ensures d * (10 * p) == 10 * (d * p)
  {
  }

  /** The number that is read is the sum of the digits times their powers of ten. */
  lemma {:induction false} ValueIsPositional(s: string)
    requires DigitCodes(s)
    ensures AllDigits(s) && Value(s) == Places(s)
  {
    if s != "" {
      var t := s[..|s| - 1];
      ValueIsPositional(t);
      assert s == t + [s[|s| - 1]];
      LastPlace(t, s[|s| - 1]);
    }
  }

  // ----- ft_atoi -----

  predicate BlankCodes(s: string) {
    forall i :: 0 <= i < |s| ==> 9 <= s[i] as int <= 13 || s[i] as int == 32
  }

  lemma {:induction false} SkipsTo(s: string, i: nat, e: nat)
    requires i <= e <= |s| && BlankCodes(s[i..e]) && (e < |s| ==> !BlankCodes([s[e]]))
    ensures SkipBlanks(s, i) == e
    decreases e - i
  {
    if i < e {
      assert s[i] == s[i..e][0];
      assert s[i + 1..e] == s[i..e][1..];
      SkipsTo(s, i + 1, e);
    } else if e < |s| {
      assert [s[e]][0] == s[e];
    }
  }

  lemma {:induction false} DigitsUpTo(s: string, i: nat, e: nat)
    requires i <= e <= |s| && DigitCodes(s[i..e]) && (e < |s| ==> !DigitCodes([s[e]]))
    ensures SkipDigits(s, i) == e
    decreases e - i
  {
    if i < e {
      assert s[i] == s[i..e][0];
      assert s[i + 1..e] == s[i..e][1..];
      DigitsUpTo(s, i + 1, e);
    } else if e < |s| {
      assert [s[e]][0] == s[e];
    }
  }

  /** Where the parts of a text for ft_atoi lie. */
  lemma PartsLie(blanks: string, sign: string, digits: string, rest: string, s: string, b: nat, d: nat, e: nat)
    requires s == blanks + sign + digits + rest
    requires b == |blanks| && d == b + |sign| && e == d + |digits|
    ensures e <= |s| && s[0..b] == blanks && s[b..d] == sign && s[d..e] == digits && s[e..] == rest
  {
  }

  /** What ft_atoi reads: blanks (codes 9 to 13 and 32) are skipped, then at most one sign, then
      the digits up to the first other character; they count by their places. */
  lemma AtoiReads(blanks: string, sign: string, digits: string, rest: string)
    requires BlankCodes(blanks) && sign in ["", "-", "+"] && DigitCodes(digits) && digits != ""
    requires rest == "" || !DigitCodes(rest[..1])
    ensures var s := blanks + sign + digits + rest;
            && AtoiRun(s) == digits
            && AtoiOf(s) == if sign == "-" then 0 - Places(digits) else Places(digits)
  {
    var s := blanks + sign + digits + rest;
    var b, d, e := |blanks|, |blanks| + |sign|, |blanks| + |sign| + |digits|;
    PartsLie(blanks, sign, digits, rest, s, b, d, e);
    assert s[b] == if sign == "" then digits[0] else sign[0];
    assert [s[b]][0] == s[b];
    SkipsTo(s, 0, b);
    assert e < |s| ==> [s[e]] == rest[..1];
    assert RunStart(s) == d;
    DigitsUpTo(s, d, e);
    ValueIsPositional(digits);
  }

  // ----- ft_itoa -----

  lemma DivideTwice(n: nat, a: nat, b: nat)
    requires a > 0 && b > 0
    ensures a * b > 0 && (n / a) / b == n / (a * b)
  {
    var q, r := n / a, n % a;
    var k, t := q / b, q % b;
    assert n == (k * b + t) * a + r;
    Regrouped(k, b, t, a, r);
    Remainder(t, a, b, r);
    QuotientIs(n, a * b, k, t * a + r);
  }

  lemma Regrouped(k: int, b: int, t: int, a: int, r: int)
    ensures (k * b + t) * a + r == k * (a * b) + (t * a + r)
  {
    assert (k * b + t) * a == k * b * a + t * a;
    assert k * b * a == k * (a * b);
  }

  lemma Remainder(t: int, a: int, b: int, r: int)
    requires 0 <= t < b && 0 <= r < a
    ensures 0 <= t * a + r < a * b
  {
    assert t * a <= (b - 1) * a;
    assert (b - 1) * a == a * b - a;
    assert t * a >= 0;
  }

  /** Character i from the end is 48 plus the digit of n at 10 to the i. */
  lemma {:induction false} PrintedDigits(n: nat, i: nat)
    requires i < |NatText(n)|
    ensures NatText(n)[|NatText(n)| - 1 - i] as int == 48 + (n / Pow10(i)) % 10
  {
    if i > 0 {
      PrintedDigits(n / 10, i - 1);
      DivideTwice(n, 10, Pow10(i - 1));
    } else {
      assert n / 1 == n;
    }
  }

  /** There are no leading zeros and no digit is missing. */
  lemma {:induction false} PrintedLength(n: nat)
    ensures n < Pow10(|NatText(n)|) && (n >= 10 ==> Pow10(|NatText(n)| - 1) <= n)
  {
    if n >= 10 {
      PrintedLength(n / 10);
    } else {
      assert Pow10(0) == 1;
    }
  }

  /** The text of a negative number is a dash and the text of its opposite. */
  lemma PrintedSign(n: int)
    ensures n < 0 ==> IntText(n) == ['-'] + NatText(0 - n)
    ensures n >= 0 ==> IntText(n) == NatText(n)
  {
  }
}
