/** Recognising dotted IPv4 addresses (parsing/ip.c: ip_ipv4_deeper; utils/utils_parsing.c). */
module Ipv4 {
  import opened CTypes
  import opened Decimal
  import opened Split
  import opened PortGrammar

  /** A number from 0 to 255. */
  predicate Octet(t: string) {
    Digits(t) && Value(t) <= 255
  }

  predicate QuadAt(s: string, i: nat, j: nat, k: nat) {
    && i < j < k < |s| && s[i] == s[j] == s[k] == '.'
    && Octet(s[..i]) && Octet(s[i + 1..j]) && Octet(s[j + 1..k]) && Octet(s[k + 1..])
  }

  /** Four octets joined by dots. */
  ghost predicate Quad(s: string) {
    exists i: nat, j: nat, k: nat :: QuadAt(s, i, j, k)
  }

  method TabLen(tab: seq<string>, len: nat) returns (ok: bool)
    ensures ok <==> |tab| == len
  {
    var i := 0;
    while i < |tab|
      invariant i <= |tab|
    {
      i := i + 1;
    }
    return i == len;
  }

  method NonNumeric(tab: seq<string>) returns (ok: bool)
    ensures ok <==> forall k :: 0 <= k < |tab| ==> AllDigits(tab[k])
  {
    var i := 0;
    while i < |tab|
      invariant i <= |tab| && forall k :: 0 <= k < i ==> AllDigits(tab[k])
    {
      var digits := OnlyDigitsInStr(tab[i]);
      if !digits {
        return false;
      }
      i := i + 1;
    }
    return true;
  }

  method NumberRange(tab: seq<string>) returns (ok: bool)
    requires forall k :: 0 <= k < |tab| ==> Value(AtoiRun(tab[k])) <= INT_MAX
    ensures ok <==> forall k :: 0 <= k < |tab| ==> 0 <= AtoiOf(tab[k]) <= 255
  {
    var i := 0;
    while i < |tab|
      invariant i <= |tab| && forall k :: 0 <= k < i ==> 0 <= AtoiOf(tab[k]) <= 255
    {
      var nbr := FtAtoi(tab[i]);
      if nbr < 0 || nbr > 255 {
        return false;
      }
      i := i + 1;
    }
    return true;
  }

  // ----- splitting at every separator -----

  lemma {:induction false} AtMostOneMore(s: string, c: char, i: nat)
    requires i <= |s|
    ensures |Spans(s, c, i)| <= Count(s, c, i) + 1
    decreases |s| - i
  {
    if i == |s| {
    } else if s[i] == c {
      AtMostOneMore(s, c, i + 1);
    } else {
      var e := RunEnd(s, c, i);
      FirstRun(s, c, i, e);
      if e < |s| {
        AtMostOneMore(s, c, e + 1);
      }
    }
  }

  /** One token more than separators: no token is missing between two separators. */
  ghost predicate Full(s: string, c: char, i: nat) {
    i <= |s| && |Spans(s, c, i)| == Count(s, c, i) + 1
  }

  lemma FirstOfFull(s: string, c: char, i: nat) returns (e: nat)
    requires Full(s, c, i)
    ensures i < e <= |s| && Spans(s, c, i) == [Span(i, e)] + if e < |s| then Spans(s, c, e + 1) else []
    ensures if Count(s, c, i) == 0 then e == |s|
            else e < |s| && s[e] == c && Full(s, c, e + 1) && Count(s, c, e + 1) == Count(s, c, i) - 1
  {
    e := RunEnd(s, c, i);
    if s[i] == c {
      AtMostOneMore(s, c, i + 1);
    } else {
      FirstRun(s, c, i, e);
    }
  }

  /** The four stretches between three positions. */
  function Cut(s: string, i: nat, j: nat, k: nat): seq<Span> {
    [Span(0, i), Span(i + 1, j), Span(j + 1, k), Span(k + 1, |s|)]
  }

  function Parts(s: string, i: nat, j: nat, k: nat): seq<string>
    requires i < j < k < |s|
  {
    [s[..i], s[i + 1..j], s[j + 1..k], s[k + 1..]]
  }

  lemma FourTexts(s: string, cut: seq<Span>)
    requires |cut| == 4
    ensures Texts(s, cut) == [TextOf(s, cut[0]), TextOf(s, cut[1]), TextOf(s, cut[2]), TextOf(s, cut[3])]
  {
  }

  lemma CutTexts(s: string, i: nat, j: nat, k: nat, cut: seq<Span>)
    requires i < j < k < |s| && cut == Cut(s, i, j, k)
    ensures Texts(s, cut) == Parts(s, i, j, k)
  {
    FourTexts(s, cut);
    assert s[0..i] == s[..i] && s[k + 1..|s|] == s[k + 1..];
  }

  lemma FourTokens(s: string) returns (i: nat, j: nat, k: nat)
    requires Full(s, '.', 0) && Count(s, '.', 0) == 3
    ensures i < j < k < |s| && s[i] == s[j] == s[k] == '.'
    ensures Tokens(s, '.') == Parts(s, i, j, k)
  {
    i := FirstOfFull(s, '.', 0);
    j := FirstOfFull(s, '.', i + 1);
    k := FirstOfFull(s, '.', j + 1);
    var e := FirstOfFull(s, '.', k + 1);
    assert Spans(s, '.', 0) == Cut(s, i, j, k);
    CutTexts(s, i, j, k, Spans(s, '.', 0));
  }

  lemma OctetRun(s: string, i: nat, e: nat)
    requires i <= e <= |s| && Octet(s[i..e])
    ensures i < e && forall k :: i <= k < e ==> s[k] != '.'
  {
    assert forall k :: i <= k < e ==> s[k] == s[i..e][k - i];
  }

  /** An octet at the end of the string, or before a dot. */
  lemma OctetSpan(s: string, i: nat, e: nat)
    requires i <= e <= |s| && Octet(s[i..e]) && (e < |s| ==> s[e] == '.')
    ensures Spans(s, '.', i) == [Span(i, e)] + if e < |s| then Spans(s, '.', e + 1) else []
    ensures Count(s, '.', i) == if e < |s| then 1 + Count(s, '.', e + 1) else 0
  {
    OctetRun(s, i, e);
    FirstRun(s, '.', i, e);
  }

  lemma QuadTokens(s: string, i: nat, j: nat, k: nat)
    requires QuadAt(s, i, j, k)
    ensures Count(s, '.', 0) == 3 && Tokens(s, '.') == Parts(s, i, j, k)
  {
    assert s[k + 1..|s|] == s[k + 1..] && s[0..i] == s[..i];
    OctetSpan(s, k + 1, |s|);
    OctetSpan(s, j + 1, k);
    OctetSpan(s, i + 1, j);
    OctetSpan(s, 0, i);
    assert Spans(s, '.', 0) == Cut(s, i, j, k);
    CutTexts(s, i, j, k, Spans(s, '.', 0));
  }

  /** Reading a token that is digits gives its value. */
  lemma DigitsRead(t: string)
    requires Digits(t)
    ensures AtoiOf(t) == Value(t)
  {
    assert "" + t == t;
    ReadsItsDigits(false, t);
  }

  /** What the scanners check of the tokens. */
  predicate OctetTokens(toks: seq<string>) {
    |toks| == 4 && forall k :: 0 <= k < |toks| ==> AllDigits(toks[k]) && 0 <= AtoiOf(toks[k]) <= 255
  }

  lemma FourOctets(toks: seq<string>)
    requires |toks| == 4 && forall k :: 0 <= k < |toks| ==> Octet(toks[k])
    ensures OctetTokens(toks)
  {
    forall k | 0 <= k < |toks| ensures AllDigits(toks[k]) && 0 <= AtoiOf(toks[k]) <= 255 {
      DigitsRead(toks[k]);
    }
  }

  lemma QuadHasOctets(s: string)
    requires Quad(s)
    ensures Count(s, '.', 0) == 3 && OctetTokens(Tokens(s, '.'))
  {
    var i: nat, j: nat, k: nat :| QuadAt(s, i, j, k);
    QuadTokens(s, i, j, k);
    FourOctets(Parts(s, i, j, k));
  }

  lemma OctetsMakeQuad(s: string)
    requires Count(s, '.', 0) == 3 && OctetTokens(Tokens(s, '.'))
    ensures Quad(s)
  {
    var toks := Tokens(s, '.');
    forall k | 0 <= k < 4 ensures Octet(toks[k]) {
      TokensAreClean(s, '.', k);
      DigitsRead(toks[k]);
    }
    var i, j, k := FourTokens(s);
    assert Octet(toks[0]) && Octet(toks[1]) && Octet(toks[2]) && Octet(toks[3]);
    assert QuadAt(s, i, j, k);
  }

  /** Exactly the dotted quads are accepted: counting the dots makes up for ft_split, which
      would let several dots in a row through. */
  method IpIpv4Deeper(str: string) returns (res: bool)
    requires forall t :: t in Tokens(str, '.') ==> Value(AtoiRun(t)) <= INT_MAX
    ensures res <==> Quad(str)
  {
    var dots := CharCount(str, '.');
    if Quad(str) {
      QuadHasOctets(str);
    }
    if dots != 3 {
      return false;
    }
    if OctetTokens(Tokens(str, '.')) {
      OctetsMakeQuad(str);
    }
    var tab := SplitTable(str, '.');
    res := true;
    var four := TabLen(tab, 4);
    if !four {
      res := false;
    }
    var numeric := NonNumeric(tab);
    if !numeric {
      res := false;
    }
    var inRange := NumberRange(tab);
    if !inRange {
      res := false;
    }
  }
}
