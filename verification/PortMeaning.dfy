/** What an argument of --ports lists, by the grammar instead of by the splits. */
module PortMeaning {
  import opened Positional
  import opened Split
  import opened PortGrammar
  import opened Ports

  lemma RunEndShift(s: string, c: char, k: nat, i: nat)
    requires k + i <= |s|
    ensures RunEnd(s, c, k + i) == k + RunEnd(s[k..], c, i)
  {
    RunEndIs(s[k..], c, i, RunEnd(s, c, k + i) - k);
  }

  lemma FirstText(s: string, sp: Span, spans: seq<Span>)
    ensures Texts(s, [sp] + spans) == [TextOf(s, sp)] + Texts(s, spans)
  {
    assert ([sp] + spans)[1..] == spans;
  }

  /** The tokens from the beginning of a run on. */
  lemma RunTexts(s: string, c: char, i: nat, e: nat)
    requires i < |s| && s[i] != c && e == RunEnd(s, c, i)
    ensures Texts(s, Spans(s, c, i)) == [s[i..e]] + Texts(s, Spans(s, c, e))
  {
    FirstText(s, Span(i, e), Spans(s, c, e));
  }

  lemma RunShift(s: string, c: char, k: nat, i: nat, t: string, e: nat)
    requires k + i < |s| && t == s[k..] && t[i] != c && e == RunEnd(t, c, i)
    requires Texts(s, Spans(s, c, k + e)) == Texts(t, Spans(t, c, e))
    ensures Texts(s, Spans(s, c, k + i)) == Texts(t, Spans(t, c, i))
  {
    RunEndShift(s, c, k, i);
    RunTexts(s, c, k + i, k + e);
    RunTexts(t, c, i, e);
    assert s[k + i..k + e] == t[i..e];
  }

  lemma SeparatorSkipped(s: string, c: char, i: nat)
    requires i < |s| && s[i] == c
    ensures Spans(s, c, i) == Spans(s, c, i + 1)
  {
  }

  /** The tokens from a position on are those of the rest of the string. */
  lemma {:induction false} TextsShift(s: string, c: char, k: nat, i: nat, t: string)
    requires k + i <= |s| && t == s[k..]
    ensures Texts(s, Spans(s, c, k + i)) == Texts(t, Spans(t, c, i))
    decreases |s| - k - i
  {
    if k + i == |s| {
    } else if t[i] == c {
      TextsShift(s, c, k, i + 1, t);
      SeparatorSkipped(s, c, k + i);
      SeparatorSkipped(t, c, i);
    } else {
      TextsShift(s, c, k, RunEnd(t, c, i), t);
      RunShift(s, c, k, i, t, RunEnd(t, c, i));
    }
  }

  lemma OneToken(s: string)
    requires s != "" && ',' !in s
    ensures Tokens(s, ',') == [s]
  {
    FirstRun(s, ',', 0, |s|);
    assert TextOf(s, Span(0, |s|)) == s;
  }

  lemma FirstToken(s: string, k: nat)
    requires 0 < k < |s| && s[k] == ',' && ',' !in s[..k]
    ensures Tokens(s, ',') == [s[..k]] + Tokens(s[k + 1..], ',')
  {
    assert forall j :: 0 <= j < k ==> s[j] == s[..k][j];
    FirstRun(s, ',', 0, k);
    FirstText(s, Span(0, k), Spans(s, ',', k + 1));
    TextsShift(s, ',', k + 1, 0, s[k + 1..]);
    assert TextOf(s, Span(0, k)) == s[..k];
  }

  lemma NoComma(s: string)
    requires Digits(s)
    ensures ',' !in s && DigitCodes(s)
  {
  }

  lemma DenotesNumber(t: string, p: int)
    requires Digits(t)
    ensures Denotes(t, p) <==> p == Places(t)
  {
    NoComma(t);
    ValueIsPositional(t);
    NumberItem([t], 0);
  }

  /** A number lists itself, as it reads by its places. */
  lemma NumberLists(s: string, p: int)
    requires Digits(s)
    ensures Listed(s, p) <==> p == Places(s)
  {
    NoComma(s);
    OneToken(s);
    DenotesNumber(s, p);
    assert s in Tokens(s, ',');
  }

  /** A range lists what lies between its ends, both included. */
  lemma RangeLists(s: string, k: nat, p: int)
    requires RangeAt(s, k)
    ensures Listed(s, p) <==> Places(s[..k]) <= p <= Places(s[k + 1..])
  {
    NoComma(s[..k]);
    NoComma(s[k + 1..]);
    assert forall j :: 0 <= j < |s| ==>
             s[j] == if j < k then s[..k][j] else if j == k then '-' else s[k + 1..][j - k - 1];
    OneToken(s);
    RangeDenotes(s, k);
    ValueIsPositional(s[..k]);
    ValueIsPositional(s[k + 1..]);
    assert s in Tokens(s, ',');
  }

  /** A list lists its first number and what the rest lists. */
  lemma ListLists(s: string, k: nat, p: int)
    requires ListAt(s, k)
    ensures Listed(s, p) <==> p == Places(s[..k]) || Listed(s[k + 1..], p)
  {
    NoComma(s[..k]);
    FirstToken(s, k);
    DenotesNumber(s[..k], p);
    var rest := Tokens(s[k + 1..], ',');
    assert forall t :: t in Tokens(s, ',') <==> t == s[..k] || t in rest;
  }

  /** `--ports 5` asks for port 5. */
  lemma PortFive()
    ensures PortSet("5") == {5}
  {
    assert Pow10(0) == 1;
    assert "5"[1..] == "";
    assert Places("5") == 5;
    forall p: int ensures Listed("5", p) <==> p == 5 {
      NumberLists("5", p);
    }
  }
}
