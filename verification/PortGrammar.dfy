/** The scanners that recognise the argument of --ports (utils/utils_parsing.c, parsing/ports.c). */
module PortGrammar {
  import opened CTypes
  import opened Decimal
  import opened Split

  // ----- the grammar -----

  /** A number. */
  predicate Digits(s: string) {
    s != "" && AllDigits(s)
  }

  predicate RangeAt(s: string, k: nat) {
    k < |s| && s[k] == '-' && Digits(s[..k]) && Digits(s[k + 1..])
  }

  /** Two numbers joined by a dash. */
  ghost predicate IsRange(s: string) {
    exists k: nat :: RangeAt(s, k)
  }

  ghost predicate ListAt(s: string, k: nat)
    decreases |s|, 0
  {
    k < |s| && s[k] == ',' && Digits(s[..k]) && PortList(s[k + 1..])
  }

  /** Numbers separated by commas, the last of which may be a range instead. */
  ghost predicate PortList(s: string)
    decreases |s|, 1
  {
    Digits(s) || IsRange(s) || exists k: nat | k < |s| :: ListAt(s, k)
  }

  // ----- what the scanners check, position by position -----

  predicate IsSeparator(c: char) {
    c == ',' || c == '-'
  }

  function Count(s: string, c: char, i: nat): nat
    requires i <= |s|
    decreases |s| - i
  {
    if i == |s| then 0 else (if s[i] == c then 1 else 0) + Count(s, c, i + 1)
  }

  predicate KnownChars(s: string) {
    forall i :: 0 <= i < |s| ==> IsDigit(s[i]) || IsSeparator(s[i])
  }

  predicate MisplacedAt(s: string, i: nat)
    requires i < |s|
  {
    && IsSeparator(s[i])
    && (i == 0 || i + 1 == |s| || s[i + 1] == '-' || s[i - 1] == ',')
  }

  predicate Misplaced(s: string) {
    exists i :: 0 <= i < |s| && MisplacedAt(s, i)
  }

  predicate CommaAfterDash(s: string) {
    exists i, j :: 0 <= i < j < |s| && s[i] == '-' && s[j] == ','
  }

  predicate Accepted(s: string) {
    KnownChars(s) && Count(s, '-', 0) <= 1 && !Misplaced(s) && ('-' in s ==> !CommaAfterDash(s))
  }

  method OnlyDigitsInStr(str: string) returns (ok: bool)
    ensures ok <==> AllDigits(str)
  {
    var i := 0;
    while i < |str|
      invariant i <= |str|
      invariant forall k :: 0 <= k < i ==> IsDigit(str[k])
    {
      if !IsDigit(str[i]) {
        return false;
      }
      i := i + 1;
    }
    return true;
  }

  method OnlyDigitsCommaDashInStr(str: string) returns (ok: bool)
    ensures ok <==> KnownChars(str)
  {
    var i := 0;
    while i < |str|
      invariant i <= |str|
      invariant forall k :: 0 <= k < i ==> IsDigit(str[k]) || IsSeparator(str[k])
    {
      if !IsDigit(str[i]) && str[i] != '-' && str[i] != ',' {
        return false;
      }
      i := i + 1;
    }
    return true;
  }

  method CharCount(str: string, c: char) returns (counter: nat)
    ensures counter == Count(str, c, 0)
  {
    var i := 0;
    counter := 0;
    while i < |str|
      invariant i <= |str|
      invariant counter + Count(str, c, i) == Count(str, c, 0)
    {
      if str[i] == c {
        counter := counter + 1;
      }
      i := i + 1;
    }
  }

  method DashNumber(str: string) returns (several: bool)
    ensures several <==> Count(str, '-', 0) > 1
  {
    var i := 0;
    var dash := 0;
    while i < |str|
      invariant i <= |str|
      invariant dash + Count(str, '-', i) == Count(str, '-', 0)
    {
      if str[i] == '-' {
        dash := dash + 1;
      }
      i := i + 1;
    }
    return dash > 1;
  }

  method MisplacedCommaDash(str: string) returns (bad: bool)
    ensures bad <==> Misplaced(str)
  {
    var i := 0;
    while i < |str|
      invariant i <= |str|
      invariant forall k :: 0 <= k < i ==> !MisplacedAt(str, k)
    {
      if str[i] == ',' || str[i] == '-' {
        if i == 0 {
          assert MisplacedAt(str, i);
          return true;
        }
        if i + 1 < |str| && (str[i + 1] == '-' || str[i - 1] == ',') {
          assert MisplacedAt(str, i);
          return true;
        }
      }
      if i + 1 == |str| && (str[i] == ',' || str[i] == '-') {
        assert MisplacedAt(str, i);
        return true;
      }
      i := i + 1;
    }
    return false;
  }

  method CommasThenSingleDash(str: string) returns (ok: bool)
    ensures ok <==> !CommaAfterDash(str)
  {
    var i := 0;
    var dash := false;
    ghost var at := 0;
    while i < |str|
      invariant i <= |str|
      invariant dash ==> at < i && str[at] == '-'
      invariant !dash ==> forall k :: 0 <= k < i ==> str[k] != '-'
      invariant forall k, j :: 0 <= k < j < i && str[k] == '-' ==> str[j] != ','
    {
      if str[i] == '-' {
        dash, at := true, i;
      } else if str[i] == ',' && dash {
        assert str[at] == '-' && str[i] == ',';
        return false;
      }
      i := i + 1;
    }
    return true;
  }

  /** Where the first occurrence is, None for NULL; the terminating NUL is an occurrence of NUL. */
  method FtStrchr(str: string, c: char) returns (at: Option<nat>)
    ensures c in str ==> at.Some? && at.value < |str| && str[at.value] == c && c !in str[..at.value]
    ensures c !in str ==> at == if c == '\0' then Some(|str|) else None
  {
    var i := 0;
    while i < |str|
      invariant i <= |str| && c !in str[..i]
    {
      if str[i] == c {
        return Some(i);
      }
      i := i + 1;
    }
    return if c == '\0' then Some(|str|) else None;
  }

  /** The combined checks let a string through exactly when it is empty or in the
      grammar, and tell whether it holds a range. */
  method BasicParsingPortsOption(str: string) returns (outcome: Outcome, dash: bool)
    ensures outcome == Continue <==> str == "" || PortList(str)
    ensures outcome == Continue ==> (dash <==> '-' in str)
  {
    RecogniserIsGrammar(str);
    dash := false;
    var known := OnlyDigitsCommaDashInStr(str);
    if !known {
      return Exit, false;
    }
    var several := DashNumber(str);
    if several {
      return Exit, false;
    }
    var misplaced := MisplacedCommaDash(str);
    if misplaced {
      return Exit, false;
    }
    var at := FtStrchr(str, '-');
    if at.Some? {
      dash := true;
      var inOrder := CommasThenSingleDash(str);
      if !inOrder {
        return Exit, dash;
      }
    }
    return Continue, dash;
  }

  // ----- recogniser equals grammar -----

  lemma {:induction false} CountIsZero(s: string, c: char, i: nat)
    requires i <= |s|
    ensures Count(s, c, i) == 0 <==> forall k :: i <= k < |s| ==> s[k] != c
    decreases |s| - i
  {
    if i < |s| {
      CountIsZero(s, c, i + 1);
    }
  }

  lemma {:induction false} CountShift(s: string, c: char, k: nat, i: nat)
    requires k + i <= |s|
    ensures Count(s[k..], c, i) == Count(s, c, k + i)
    decreases |s| - i
  {
    if k + i < |s| {
      CountShift(s, c, k, i + 1);
    }
  }

  lemma {:induction false} CountSkips(s: string, c: char, i: nat, e: nat)
    requires i <= e <= |s| && forall k :: i <= k < e ==> s[k] != c
    ensures Count(s, c, i) == Count(s, c, e)
    decreases e - i
  {
    if i < e {
      CountSkips(s, c, i + 1, e);
    }
  }

  /** The run from i to e, and what is left behind the separator after it. */
  lemma FirstRun(s: string, c: char, i: nat, e: nat)
    requires i < e <= |s| && (forall k :: i <= k < e ==> s[k] != c) && (e < |s| ==> s[e] == c)
    ensures RunEnd(s, c, i) == e
    ensures Spans(s, c, i) == [Span(i, e)] + if e < |s| then Spans(s, c, e + 1) else []
    ensures Count(s, c, i) == if e < |s| then 1 + Count(s, c, e + 1) else 0
  {
    CountSkips(s, c, i, e);
    RunEndIs(s, c, i, e);
  }

  lemma {:induction false} RunEndIs(s: string, c: char, i: nat, e: nat)
    requires i <= e <= |s| && (forall k :: i <= k < e ==> s[k] != c) && (e < |s| ==> s[e] == c)
    ensures RunEnd(s, c, i) == e
    decreases e - i
  {
    if i < e {
      RunEndIs(s, c, i + 1, e);
    }
  }

  /** The position of the first separator, or the length. */
  function FirstSeparator(s: string, i: nat): (r: nat)
    requires i <= |s|
    ensures i <= r <= |s|
    ensures forall k :: i <= k < r ==> !IsSeparator(s[k])
    ensures r < |s| ==> IsSeparator(s[r])
    decreases |s| - i
  {
    if i < |s| && !IsSeparator(s[i]) then FirstSeparator(s, i + 1) else i
  }

  lemma {:induction false} TailIsAccepted(s: string, k: nat)
    requires Accepted(s) && k < |s| && s[k] == ','
    ensures Accepted(s[k + 1..]) && s[k + 1..] != ""
  {
    assert !MisplacedAt(s, k);
    var t := s[k + 1..];
    forall i | 0 <= i < |t| ensures !MisplacedAt(t, i) {
      assert !MisplacedAt(s, k + 1 + i);
    }
    CountShift(s, '-', k + 1, 0);
    CountFalls(s, '-', 0, k + 1);
  }

  lemma {:induction false} CountFalls(s: string, c: char, i: nat, k: nat)
    requires i <= k <= |s|
    ensures Count(s, c, k) <= Count(s, c, i)
    decreases k - i
  {
    if i < k {
      CountFalls(s, c, i + 1, k);
    }
  }

  lemma {:induction false} AcceptedIsPortList(s: string)
    requires Accepted(s) && s != ""
    ensures PortList(s)
    decreases |s|
  {
    var k := FirstSeparator(s, 0);
    if k == |s| {
      assert Digits(s);
    } else {
      assert !MisplacedAt(s, k);
      assert Digits(s[..k]);
      if s[k] == ',' {
        TailIsAccepted(s, k);
        AcceptedIsPortList(s[k + 1..]);
        assert ListAt(s, k);
      } else {
        CountFalls(s, '-', 0, k);
        CountIsZero(s, '-', k + 1);
        assert Digits(s[k + 1..]);
        assert RangeAt(s, k);
      }
    }
  }

  lemma {:induction false} DigitsAreAccepted(s: string)
    requires Digits(s)
    ensures Accepted(s)
  {
    CountIsZero(s, '-', 0);
  }

  lemma {:induction false} RangeIsAccepted(s: string, k: nat)
    requires RangeAt(s, k)
    ensures Accepted(s)
  {
    assert forall i :: 0 <= i < k ==> s[i] == s[..k][i];
    assert forall i :: k < i < |s| ==> s[i] == s[k + 1..][i - k - 1];
    CountSkips(s, '-', 0, k);
    CountIsZero(s, '-', k + 1);
  }

  lemma {:induction false} PortListIsAccepted(s: string)
    requires PortList(s)
    ensures Accepted(s) && s != ""
    decreases |s|
  {
    if Digits(s) {
      DigitsAreAccepted(s);
    } else if IsRange(s) {
      var k: nat :| RangeAt(s, k);
      RangeIsAccepted(s, k);
    } else {
      var k: nat :| k < |s| && ListAt(s, k);
      var t := s[k + 1..];
      PortListIsAccepted(t);
      assert forall i :: 0 <= i < k ==> s[i] == s[..k][i];
      assert forall i :: k < i < |s| ==> s[i] == t[i - k - 1];
      CountSkips(s, '-', 0, k + 1);
      CountShift(s, '-', k + 1, 0);
      forall i | 0 <= i < |s| ensures !MisplacedAt(s, i) {
        if i > k {
          assert !MisplacedAt(t, i - k - 1);
        }
        if i == k {
          assert !MisplacedAt(t, 0);
        }
      }
    }
  }

  lemma RecogniserIsGrammar(s: string)
    ensures Accepted(s) <==> s == "" || PortList(s)
  {
    if s != "" && Accepted(s) {
      AcceptedIsPortList(s);
    }
    if PortList(s) {
      PortListIsAccepted(s);
    }
  }

  // ----- what splitting an accepted string gives -----

  lemma {:induction false} ItemCount(s: string, i: nat)
    requires Accepted(s) && i < |s| && (i == 0 || s[i - 1] == ',')
    ensures |Spans(s, ',', i)| == Count(s, ',', i) + 1
    decreases |s| - i
  {
    assert !MisplacedAt(s, i);
    var e := RunEnd(s, ',', i);
    CountSkips(s, ',', i, e);
    if e < |s| {
      assert !MisplacedAt(s, e);
      ItemCount(s, e + 1);
    }
  }

  lemma NoDashBeforeComma(s: string, i: nat, j: nat)
    requires Accepted(s) && i < j < |s| && s[j] == ','
    ensures s[i] != '-'
  {
    assert s[i] in s;
  }

  lemma {:induction false} ItemShape(s: string, k: nat)
    requires Accepted(s) && k < |Tokens(s, ',')|
    ensures Digits(Tokens(s, ',')[k]) || (k + 1 == |Tokens(s, ',')| && IsRange(Tokens(s, ',')[k]))
    ensures '-' in s && k + 1 == |Tokens(s, ',')| ==> IsRange(Tokens(s, ',')[k])
  {
    var spans := Spans(s, ',', 0);
    SpansAreMaximalRuns(s, ',');
    var sp := spans[k];
    assert sp in spans && MaximalRun(s, ',', sp);
    var t := TextOf(s, sp);
    if '-' in s && k + 1 == |spans| {
      var d :| 0 <= d < |s| && s[d] == '-';
      DashIsInLast(s, d);
      DashMakesRange(s, d, sp);
    } else {
      assert k + 1 < |spans| ==> sp.to < spans[k + 1].from && spans[k + 1] in spans;
      forall m | 0 <= m < |t| ensures IsDigit(t[m]) {
        assert t[m] == s[sp.from + m] && t[m] in s;
        if sp.to < |s| {
          NoDashBeforeComma(s, sp.from + m, sp.to);
        }
      }
    }
  }

  /** With a dash somewhere, the last item reaches over it to the end of the string. */
  lemma {:induction false} DashIsInLast(s: string, d: nat)
    requires Accepted(s) && d < |s| && s[d] == '-'
    ensures var spans := Spans(s, ',', 0);
            spans != [] && spans[|spans| - 1].from <= d < spans[|spans| - 1].to == |s|
  {
    var spans := Spans(s, ',', 0);
    SpansAreMaximalRuns(s, ',');
    var run := Span(RunBegin(s, d), |s|);
    assert forall j :: d < j < |s| ==> s[j] != ',';
    assert MaximalRun(s, ',', run);
    var k :| 0 <= k < |spans| && spans[k] == run;
    assert spans[|spans| - 1] in spans && MaximalRun(s, ',', spans[|spans| - 1]);
  }

  /** Where the comma-free stretch ending at d begins. */
  function RunBegin(s: string, d: nat): (r: nat)
    requires d < |s| && s[d] != ','
    ensures r <= d && (forall k :: r <= k <= d ==> s[k] != ',') && (r == 0 || s[r - 1] == ',')
  {
    if d == 0 || s[d - 1] == ',' then d else RunBegin(s, d - 1)
  }

  lemma {:induction false} DashMakesRange(s: string, d: nat, sp: Span)
    requires Accepted(s) && d < |s| && s[d] == '-'
    requires MaximalRun(s, ',', sp) && sp.from <= d < sp.to == |s|
    ensures IsRange(s[sp.from..sp.to])
  {
    var t := s[sp.from..sp.to];
    var k := d - sp.from;
    assert !MisplacedAt(s, d);
    OneDash(s, d);
    assert sp.from > 0 ==> s[sp.from - 1] == ',';
    assert forall m :: 0 <= m < |t| ==> t[m] == s[sp.from + m];
    assert Digits(t[..k]) && Digits(t[k + 1..]);
    assert RangeAt(t, k);
  }

  lemma {:induction false} OneDash(s: string, d: nat)
    requires Accepted(s) && d < |s| && s[d] == '-'
    ensures forall j :: 0 <= j < |s| && j != d ==> s[j] != '-'
  {
    forall j | 0 <= j < |s| && j != d ensures s[j] != '-' {
      var lo, hi := if j < d then j else d, if j < d then d else j;
      CountFalls(s, '-', 0, lo);
      CountIsZero(s, '-', lo + 1);
    }
  }

  lemma RangeItemHasDash(s: string, n: nat)
    requires n < |Tokens(s, ',')| && IsRange(Tokens(s, ',')[n])
    ensures '-' in s
  {
    var k: nat :| RangeAt(Tokens(s, ',')[n], k);
    CharOfText(s, Spans(s, ',', 0)[n], k);
  }

  lemma CharOfText(s: string, sp: Span, k: nat)
    requires k < |TextOf(s, sp)|
    ensures sp.from + k < |s| && TextOf(s, sp)[k] == s[sp.from + k]
  {
  }

  /** An accepted non-empty string has one more item than commas; every item is a
      number except that the last one is a range when there is a dash. */
  lemma ItemsOfAccepted(s: string)
    requires PortList(s)
    ensures |Tokens(s, ',')| == Count(s, ',', 0) + 1
    ensures forall k :: 0 <= k < |Tokens(s, ',')| - 1 ==> Digits(Tokens(s, ',')[k])
    ensures var last := Tokens(s, ',')[|Tokens(s, ',')| - 1];
            if '-' in s then IsRange(last) else Digits(last)
  {
    PortListIsAccepted(s);
    ItemCount(s, 0);
    forall k | 0 <= k < |Tokens(s, ',')| - 1 ensures Digits(Tokens(s, ',')[k]) {
      ItemShape(s, k);
    }
    var n := |Tokens(s, ',')| - 1;
    ItemShape(s, n);
    if IsRange(Tokens(s, ',')[n]) {
      RangeItemHasDash(s, n);
    }
  }

  /** Splitting a range at the dash gives its two ends. */
  lemma RangeTokens(t: string, k: nat)
    requires RangeAt(t, k)
    ensures Tokens(t, '-') == [t[..k], t[k + 1..]]
  {
    assert forall m :: 0 <= m < k ==> t[m] == t[..k][m];
    assert forall m :: k < m < |t| ==> t[m] == t[k + 1..][m - k - 1];
    assert RunEnd(t, '-', 0) == k;
    assert RunEnd(t, '-', k + 1) == |t|;
    assert Spans(t, '-', k + 1) == [Span(k + 1, |t|)];
    assert Spans(t, '-', k) == Spans(t, '-', k + 1);
    assert Spans(t, '-', 0) == [Span(0, k), Span(k + 1, |t|)];
    assert TextOf(t, Span(0, k)) == t[..k];
    assert TextOf(t, Span(k + 1, |t|)) == t[k + 1..];
  }
}
