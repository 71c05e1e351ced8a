/** Reading and printing decimal integers (libft: ft_atoi, ft_itoa, ft_putnbr_fd). */
module Decimal {
  import opened CTypes

  predicate IsDigit(c: char) {
    '0' <= c <= '9'
  }

  predicate IsBlank(c: char) {
    9 <= c as int <= 13 || c == ' '
  }

  predicate AllDigits(s: string) {
    forall i :: 0 <= i < |s| ==> IsDigit(s[i])
  }

  function DigitOf(c: char): nat
    requires IsDigit(c)
  {
    c as int - '0' as int
  }

  function CharOf(d: nat): (c: char)
    requires d < 10
    ensures IsDigit(c) && DigitOf(c) == d
  {
    (d + '0' as int) as char
  }

  /** The number a run of digits denotes; the empty run denotes 0. */
  function Value(s: string): nat
    requires AllDigits(s)
  {
    if s == "" then 0 else Value(s[..|s| - 1]) * 10 + DigitOf(s[|s| - 1])
  }

  lemma {:induction false} PrefixValueIsSmaller(s: string, k: nat)
    requires AllDigits(s) && k <= |s|
    ensures Value(s[..k]) <= Value(s)
  {
    if k == |s| {
      assert s[..k] == s;
    } else {
      assert s[..|s| - 1][..k] == s[..k];
      PrefixValueIsSmaller(s[..|s| - 1], k);
    }
  }

  function SkipBlanks(s: string, i: nat): (r: nat)
    requires i <= |s|
    ensures i <= r <= |s|
    decreases |s| - i
  {
    if i < |s| && IsBlank(s[i]) then SkipBlanks(s, i + 1) else i
  }

  function SkipDigits(s: string, i: nat): (r: nat)
    requires i <= |s|
    ensures i <= r <= |s|
    ensures forall k :: i <= k < r ==> IsDigit(s[k])
    ensures r < |s| ==> !IsDigit(s[r])
    decreases |s| - i
  {
    if i < |s| && IsDigit(s[i]) then SkipDigits(s, i + 1) else i
  }

  predicate Signed(s: string) {
    var b := SkipBlanks(s, 0);
    b < |s| && (s[b] == '-' || s[b] == '+')
  }

  function RunStart(s: string): (r: nat)
    ensures r <= |s|
  {
    SkipBlanks(s, 0) + if Signed(s) then 1 else 0
  }

  /** The digits that ft_atoi reads: after blanks and at most one sign. */
  function AtoiRun(s: string): (r: string)
    ensures AllDigits(r)
  {
    s[RunStart(s)..SkipDigits(s, RunStart(s))]
  }

  function AtoiOf(s: string): int {
    var magnitude: int := Value(AtoiRun(s));
    if Signed(s) && s[SkipBlanks(s, 0)] == '-' then -magnitude else magnitude
  }

  /** The digit loop of ft_atoi: no partial result overflows when the whole run fits. */
  method ReadDigits(nptr: string, start: nat) returns (nbr: int32)
    requires start <= |nptr|
    requires Value(nptr[start..SkipDigits(nptr, start)]) <= INT_MAX
    ensures nbr == Value(nptr[start..SkipDigits(nptr, start)])
  {
    nbr := 0;
    var i := start;
    ghost var end := SkipDigits(nptr, start);
    ghost var run := nptr[start..end];
    assert run[..0] == "";
    while i < |nptr| && IsDigit(nptr[i])
      invariant start <= i <= end
      invariant nbr == Value(run[..i - start])
    {
      ghost var k := i - start;
      assert run[..k + 1][..k] == run[..k];
      assert run[..k + 1][k] == nptr[i];
      PrefixValueIsSmaller(run, k + 1);
      nbr := nbr * 10 + DigitOf(nptr[i]);
      i := i + 1;
    }
    assert run[..i - start] == run;
  }

  /** The C function computes the denoted number whenever the digits read fit an int. */
  method FtAtoi(nptr: string) returns (r: int32)
    requires Value(AtoiRun(nptr)) <= INT_MAX
    ensures r == AtoiOf(nptr)
  {
    var minus: int := 1;
    var i := 0;
    while i < |nptr| && IsBlank(nptr[i])
      invariant i <= |nptr|
      invariant SkipBlanks(nptr, i) == SkipBlanks(nptr, 0)
    {
      i := i + 1;
    }
    if i < |nptr| && (nptr[i] == '-' || nptr[i] == '+') {
      if nptr[i] == '-' {
        minus := -1;
      }
      i := i + 1;
    }
    var nbr := ReadDigits(nptr, i);
    r := nbr * minus;
  }

  // ----- printing -----

  function NatText(n: nat): (s: string)
    ensures s != "" && AllDigits(s)
  {
    if n < 10 then [CharOf(n)] else NatText(n / 10) + [CharOf(n % 10)]
  }

  /** The canonical decimal text of an integer. */
  function IntText(n: int): string {
    if n < 0 then "-" + NatText(-n) else NatText(n)
  }

  lemma {:induction false} ValueOfNatText(n: nat)
    ensures Value(NatText(n)) == n
  {
    var s := NatText(n);
    if n < 10 {
      assert s[..0] == "";
    } else {
      ValueOfNatText(n / 10);
      assert s[..|s| - 1] == NatText(n / 10);
    }
  }

  lemma {:induction false} SkipDigitsToEnd(s: string, i: nat)
    requires i <= |s| && AllDigits(s[i..])
    ensures SkipDigits(s, i) == |s|
    decreases |s| - i
  {
    if i < |s| {
      assert s[i] == s[i..][0];
      assert s[i + 1..] == s[i..][1..];
      SkipDigitsToEnd(s, i + 1);
    }
  }

  lemma ReadsItsDigits(negative: bool, t: string)
    requires t != "" && AllDigits(t)
    ensures var s := (if negative then "-" else "") + t;
            AtoiRun(s) == t && AtoiOf(s) == if negative then 0 - Value(t) else Value(t)
  {
    var s := (if negative then "-" else "") + t;
    var d := if negative then 1 else 0;
    assert s[d] == t[0] && IsDigit(t[0]);
    assert SkipBlanks(s, 0) == 0;
    assert RunStart(s) == d;
    assert s[d..] == t;
    SkipDigitsToEnd(s, d);
  }

  /** Reading back what ft_itoa prints: always the same number, and the digit
      accumulation stays inside an int for every value except the minimum. */
  lemma PrintThenRead(n: int32)
    ensures AtoiOf(IntText(n)) == n
    ensures Value(AtoiRun(IntText(n))) <= INT_MAX <==> n != INT_MIN
  {
    var magnitude: int := if n < 0 then 0 - n else n;
    ReadsItsDigits(n < 0, NatText(magnitude));
    assert "" + NatText(magnitude) == NatText(magnitude);
    ValueOfNatText(magnitude);
  }

  /** The one int whose text ft_atoi cannot accumulate in an int: its digits exceed the maximum by 1. */
  lemma MinimumDoesNotFit(n: int32)
    requires n == INT_MIN
    ensures IntText(n) == "-2147483648" && Value(AtoiRun(IntText(n))) == INT_MAX + 1
  {
    MinimumText();
    ReadsItsDigits(true, NatText(0 - n));
    ValueOfNatText(0 - n);
  }

  lemma {:induction false} NatTextIsInjective(a: nat, b: nat)
    requires NatText(a) == NatText(b)
    ensures a == b
  {
    ValueOfNatText(a);
    ValueOfNatText(b);
  }

  /** The number of digits of a positive number, and 1 for 0. */
  method FtLen(n: nat) returns (len: int)
    ensures len == |NatText(n)|
  {
    if n == 0 {
      return 1;
    }
    var m: nat := n;
    len := 0;
    while m > 0
      invariant |NatText(n)| == len + if m == 0 then 0 else |NatText(m)|
    {
      len := len + 1;
      m := m / 10;
    }
  }

  /** The digits still to be stored when m is what remains of the number. */
  ghost function Pending(m: nat): string {
    if m == 0 then "" else NatText(m)
  }

  lemma NextDigit(text: string, w: nat, m: nat)
    requires m > 0 && w <= |text| && text[..w] == Pending(m)
    ensures w > 0 && text[w - 1] == CharOf(m % 10) && text[..w - 1] == Pending(m / 10)
  {
    assert "" + [CharOf(m % 10)] == [CharOf(m % 10)];
    assert text[..w][..w - 1] == text[..w - 1];
    assert text[..w][w - 1] == text[w - 1];
  }

  /** The store loop of crea_nbr: the digits of n fill the cells from `start` to `end`. */
  method StoreDigits(temp: array<char>, n: nat, ghost start: nat, end: nat)
    requires n > 0 && start + |NatText(n)| == end <= temp.Length
    modifies temp
    ensures forall k :: start <= k < end ==> temp[k] == NatText(n)[k - start]
    ensures forall k :: 0 <= k < start || end <= k < temp.Length ==> temp[k] == old(temp[k])
  {
    var m: nat := n;
    var len := end - 1;
    ghost var text := NatText(n);
    assert text[..|text|] == text;
    while m > 0
      invariant start - 1 <= len < end && text[..len + 1 - start] == Pending(m)
      invariant forall k :: len < k < end ==> temp[k] == text[k - start]
      invariant forall k :: 0 <= k < start || end <= k < temp.Length ==> temp[k] == old(temp[k])
    {
      NextDigit(text, len + 1 - start, m);
      temp[len] := CharOf(m % 10);
      m := m / 10;
      len := len - 1;
    }
  }

  /** Nothing is assumed about the allocated cells: every one of them is written. */
  method CreaNbr(n: nat, neg: nat) returns (temp: array<char>)
    requires neg <= 1
    ensures fresh(temp)
    ensures temp[..] == (if neg == 1 then "-" else "") + NatText(n) + ['\0']
  {
    var len := FtLen(n);
    len := len + neg;
    temp := new char[len + 1];
    if neg == 1 {
      temp[0] := '-';
    }
    temp[len] := '\0';
    if n == 0 {
      temp[len - 1] := '0';
      assert NatText(0) == ['0'];
    } else {
      StoreDigits(temp, n, neg, len);
    }
    assert temp[neg..len] == NatText(n);
    assert temp[..] == temp[..neg] + temp[neg..len] + [temp[len]];
  }

  method FtItoa(n: int32) returns (str: array<char>)
    ensures fresh(str)
    ensures str[..] == IntText(n) + ['\0']
  {
    var neg := 0;
    var nbr: int := 0;
    if n == INT_MIN {
      nbr := 2147483648;
      neg := 1;
    } else if n < 0 {
      neg := 1;
      var negated: int32 := -n;
      nbr := negated;
    } else {
      nbr := n;
    }
    str := CreaNbr(nbr, neg);
  }

  /** An open descriptor, with what has been written to it. */
  class Descriptor {
    var written: string

    constructor ()
      ensures written == ""
    {
      written := "";
    }

    method PutChar(c: char)
      modifies this
      ensures written == old(written) + [c]
    {
      written := written + [c];
    }
  }

  /** The text of a number is that of its parts, as the printer takes it apart. */
  lemma TextParts(n: int)
    ensures 0 <= n < 10 ==> IntText(n) == [(48 + n) as char]
    ensures n >= 10 ==> IntText(n) == IntText(n / 10) + IntText(n % 10)
    ensures n < 0 ==> IntText(n) == ['-'] + IntText(0 - n)
  {
  }

  lemma TwoWrites(a: string, b: string, c: string)
    ensures (a + b) + c == a + (b + c)
  {
  }

  /** The recursive printer emits the same characters as ft_itoa, the minimum included. */
  method FtPutnbrFd(n: int32, fd: Descriptor)
    modifies fd
    ensures fd.written == old(fd.written) + IntText(n)
    decreases n < 0, if n < 0 then 0 - n as int else n as int
  {
    if n == 0 {
      TextParts(n);
      fd.PutChar('0');
      return;
    } else if n == INT_MIN {
      MinimumText();
      fd.written := fd.written + "-2147483648";
      return;
    }
    var m: int32 := n;
    ghost var sign := if n < 0 then ['-'] else [];
    if m < 0 {
      fd.PutChar('-');
      m := -m;
    }
    TextParts(n);
    TextParts(m);
    assert IntText(n) == sign + IntText(m);
    if m < 10 {
      fd.PutChar(CharOf(m));
    } else {
      FtPutnbrFd(m / 10, fd);
      FtPutnbrFd(m % 10, fd);
      TwoWrites(old(fd.written) + sign, IntText(m / 10), IntText(m % 10));
    }
    TwoWrites(old(fd.written), sign, IntText(m));
  }

  lemma OneDigitMore(n: nat, d: nat, shorter: string, longer: string)
    requires n > 0 && d < 10 && NatText(n) == shorter && longer == shorter + [CharOf(d)]
    ensures NatText(10 * n + d) == longer
  {
  }

  lemma {:induction false} MinimumPrefix()
    ensures NatText(21474) == "21474"
  {
    assert NatText(2) == "2";
    OneDigitMore(2, 1, "2", "21");
    OneDigitMore(21, 4, "21", "214");
    OneDigitMore(214, 7, "214", "2147");
    OneDigitMore(2147, 4, "2147", "21474");
  }

  lemma {:induction false} MinimumText()
    ensures IntText(INT_MIN) == "-2147483648"
  {
    MinimumPrefix();
    OneDigitMore(21474, 8, "21474", "214748");
    OneDigitMore(214748, 3, "214748", "2147483");
    OneDigitMore(2147483, 6, "2147483", "21474836");
    OneDigitMore(21474836, 4, "21474836", "214748364");
    OneDigitMore(214748364, 8, "214748364", "2147483648");
  }
}
