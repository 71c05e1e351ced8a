/** ft_split: cutting a string at a separator (libft/ft_split.c). */
module Split {
  import opened CTypes

  /** A half-open interval of positions. */
  datatype Span = Span(from: nat, to: nat)

  function RunEnd(s: string, c: char, i: nat): (r: nat)
    requires i <= |s|
    ensures i <= r <= |s|
    ensures forall k :: i <= k < r ==> s[k] != c
    ensures r < |s| ==> s[r] == c
    decreases |s| - i
  {
    if i < |s| && s[i] != c then RunEnd(s, c, i + 1) else i
  }

  /** The runs of s between separators, from position i on. */
  function Spans(s: string, c: char, i: nat): seq<Span>
    requires i <= |s|
    decreases |s| - i
  {
    if i == |s| then []
    else if s[i] == c then Spans(s, c, i + 1)
    else [Span(i, RunEnd(s, c, i))] + Spans(s, c, RunEnd(s, c, i))
  }

  function TextOf(s: string, sp: Span): string {
    if sp.from <= sp.to <= |s| then s[sp.from..sp.to] else ""
  }

  function Texts(s: string, spans: seq<Span>): (r: seq<string>)
    ensures |r| == |spans|
    ensures forall k :: 0 <= k < |r| ==> r[k] == TextOf(s, spans[k])
  {
    if spans == [] then [] else [TextOf(s, spans[0])] + Texts(s, spans[1..])
  }

  function Tokens(s: string, c: char): seq<string> {
    Texts(s, Spans(s, c, 0))
  }

  /** A non-empty separator-free stretch that no longer stretch contains. */
  ghost predicate MaximalRun(s: string, c: char, sp: Span) {
    && sp.from < sp.to <= |s|
    && (forall k :: sp.from <= k < sp.to ==> s[k] != c)
    && (sp.from == 0 || s[sp.from - 1] == c)
    && (sp.to == |s| || s[sp.to] == c)
  }

  /** Later spans begin beyond the end of earlier ones. */
  lemma {:induction false} SpansAscend(s: string, c: char, i: nat)
    requires i <= |s|
    ensures forall k :: 0 <= k < |Spans(s, c, i)| ==> i <= Spans(s, c, i)[k].from
    ensures i < |s| && s[i] == c ==> forall k :: 0 <= k < |Spans(s, c, i)| ==> i < Spans(s, c, i)[k].from
    ensures forall j, k :: 0 <= j < k < |Spans(s, c, i)| ==> Spans(s, c, i)[j].to < Spans(s, c, i)[k].from
    decreases |s| - i
  {
    if i < |s| {
      SpansAscend(s, c, if s[i] == c then i + 1 else RunEnd(s, c, i));
    }
  }

  lemma {:induction false} SpansFrom(s: string, c: char, i: nat, sp: Span)
    requires i <= |s| && (i == 0 || i == |s| || s[i - 1] == c || s[i] == c)
    ensures sp in Spans(s, c, i) <==> MaximalRun(s, c, sp) && i <= sp.from
    decreases |s| - i
  {
    if i < |s| {
      if s[i] == c {
        SpansFrom(s, c, i + 1, sp);
      } else {
        var e := RunEnd(s, c, i);
        SpansFrom(s, c, e, sp);
        if MaximalRun(s, c, sp) && i <= sp.from < e {
          assert sp.from > 0 ==> s[sp.from - 1] == c;
          assert sp == Span(i, e);
        }
      }
    }
  }

  /** The spans are exactly the maximal runs, each once, from left to right. */
  lemma SpansAreMaximalRuns(s: string, c: char)
    ensures forall sp :: sp in Spans(s, c, 0) <==> MaximalRun(s, c, sp)
    ensures forall j, k :: 0 <= j < k < |Spans(s, c, 0)| ==> Spans(s, c, 0)[j].to < Spans(s, c, 0)[k].from
  {
    SpansAscend(s, c, 0);
    forall sp: Span ensures sp in Spans(s, c, 0) <==> MaximalRun(s, c, sp) {
      SpansFrom(s, c, 0, sp);
    }
  }

  /** No token is empty and none holds the separator. */
  lemma TokensAreClean(s: string, c: char, k: nat)
    requires k < |Tokens(s, c)|
    ensures Tokens(s, c)[k] != "" && c !in Tokens(s, c)[k]
  {
    SpansAreMaximalRuns(s, c);
    var sp := Spans(s, c, 0)[k];
    assert sp in Spans(s, c, 0);
    assert MaximalRun(s, c, sp);
  }

  function Concat(parts: seq<string>): string {
    if parts == [] then "" else parts[0] + Concat(parts[1..])
  }

  function Without(s: string, c: char): string {
    if s == "" then "" else (if s[0] == c then "" else [s[0]]) + Without(s[1..], c)
  }

  lemma {:induction false} WithoutSkips(s: string, c: char, i: nat, e: nat)
    requires i <= e <= |s| && forall k :: i <= k < e ==> s[k] != c
    ensures Without(s[i..], c) == s[i..e] + Without(s[e..], c)
    decreases e - i
  {
    if i < e {
      WithoutSkips(s, c, i + 1, e);
      assert s[i..][1..] == s[i + 1..];
      assert s[i..e] == [s[i]] + s[i + 1..e];
    } else {
      assert s[i..e] == "";
    }
  }

  lemma {:induction false} ConcatFrom(s: string, c: char, i: nat)
    requires i <= |s|
    ensures Concat(Texts(s, Spans(s, c, i))) == Without(s[i..], c)
    decreases |s| - i
  {
    if i == |s| {
    } else if s[i] == c {
      assert s[i..][1..] == s[i + 1..];
      ConcatFrom(s, c, i + 1);
      assert "" + Without(s[i + 1..], c) == Without(s[i + 1..], c);
    } else {
      var e := RunEnd(s, c, i);
      var spans := Spans(s, c, i);
      assert spans[1..] == Spans(s, c, e);
      assert Texts(s, spans)[1..] == Texts(s, spans[1..]);
      ConcatFrom(s, c, e);
      WithoutSkips(s, c, i, e);
    }
  }

  /** Joining the tokens gives the input with the separators taken out. */
  lemma TokensConserve(s: string, c: char)
    ensures Concat(Tokens(s, c)) == Without(s, c)
  {
    ConcatFrom(s, c, 0);
    assert s[0..] == s;
  }

  /** The number of tokens. */
  method StrNbr(s: string, c: char) returns (j: nat)
    ensures j == |Tokens(s, c)|
  {
    var i := 0;
    j := 0;
    while i < |s|
      invariant i <= |s|
      invariant |Spans(s, c, 0)| == j + |Spans(s, c, i)|
    {
      i := SkipSeparators(s, i, c);
      if i < |s| && s[i] != c {
        j := j + 1;
      }
      i := SkipRun(s, i, c);
    }
  }

  /** The inner loop over separators that str_nbr and ft_split share. */
  method SkipSeparators(s: string, i: nat, c: char) returns (r: nat)
    requires i <= |s|
    ensures i <= r <= |s| && (r < |s| ==> s[r] != c)
    ensures Spans(s, c, r) == Spans(s, c, i)
    ensures i < |s| ==> r > i || s[r] != c
  {
    r := i;
    while r < |s| && s[r] == c
      invariant i <= r <= |s|
      invariant Spans(s, c, r) == Spans(s, c, i)
    {
      r := r + 1;
    }
  }

  /** The inner loop over a run that str_nbr and ft_split share. */
  method SkipRun(s: string, i: nat, c: char) returns (r: nat)
    requires i <= |s|
    ensures r == RunEnd(s, c, i)
  {
    r := i;
    while r < |s| && s[r] != c
      invariant i <= r <= |s|
      invariant RunEnd(s, c, r) == RunEnd(s, c, i)
    {
      r := r + 1;
    }
  }

  /** A fresh, NUL-terminated copy of the run that starts at i. */
  method Cpypste(s: string, i: nat, c: char) returns (str: array<char>)
    requires i <= |s|
    ensures fresh(str)
    ensures str[..] == s[i..RunEnd(s, c, i)] + ['\0']
  {
    var j := SkipRun(s, i, c);
    str := new char[j - i + 1];
    j := 0;
    var k := i;
    while k < |s| && s[k] != c
      invariant i <= k <= RunEnd(s, c, i)
      invariant j == k - i
      invariant str[..j] == s[i..k]
    {
      str[j] := s[k];
      j := j + 1;
      k := k + 1;
    }
    str[j] := '\0';
  }

  /** A NULL-terminated table of strings. */
  ghost predicate IsTable(tab: array<Option<string>>, strings: seq<string>)
    reads tab
  {
    && tab.Length == |strings| + 1
    && (forall k :: 0 <= k < |strings| ==> tab[k] == Some(strings[k]))
    && tab[|strings|] == None
  }

  /** The table holds every token in order, and its terminating NULL is in the last slot. */
  method FtSplit(s: string, c: char) returns (tab: array<Option<string>>)
    ensures fresh(tab)
    ensures IsTable(tab, Tokens(s, c))
  {
    var i := 0;
    var j := 0;
    var count := StrNbr(s, c);
    tab := new Option<string>[count + 1];
    ghost var spans := Spans(s, c, 0);
    while i < |s|
      invariant i <= |s| && j <= count
      invariant spans[j..] == Spans(s, c, i)
      invariant forall k :: 0 <= k < j ==> tab[k] == Some(Tokens(s, c)[k])
    {
      i := SkipSeparators(s, i, c);
      if i < |s| && s[i] != c {
        var str := Cpypste(s, i, c);
        assert spans[j] == spans[j..][0] == Span(i, RunEnd(s, c, i));
        assert str[..str.Length - 1] == TextOf(s, spans[j]);
        assert spans[j + 1..] == spans[j..][1..];
        tab[j] := Some(str[..str.Length - 1]);
        j := j + 1;
      }
      i := SkipRun(s, i, c);
    }
    tab[j] := None;
  }

  /** A table as its readers walk it, up to the NULL. */
  method ReadTable(table: array<Option<string>>, ghost strings: seq<string>) returns (tab: seq<string>)
    requires IsTable(table, strings)
    ensures tab == strings
  {
    var i := 0;
    tab := [];
    while table[i].Some?
      invariant i <= |strings| && tab == strings[..i]
      decreases table.Length - i
    {
      tab := tab + [table[i].value];
      i := i + 1;
    }
  }

  /** The split table, read. */
  method SplitTable(s: string, c: char) returns (tab: seq<string>)
    ensures tab == Tokens(s, c)
  {
    var table := FtSplit(s, c);
    tab := ReadTable(table, Tokens(s, c));
  }
}
