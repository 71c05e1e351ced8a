/** The --ports option: from the accepted string to the table of ports (init/init.c, parsing/ports.c). */
module Ports {
  import opened CTypes
  import opened Decimal
  import opened Split
  import opened PortGrammar
  import opened PortTable
  import opened Bag

  // ----- what an argument denotes -----

  /** Port p is the number t, or lies in the range t. */
  ghost predicate Denotes(t: string, p: int) {
    || (Digits(t) && p == Value(t))
    || (exists k: nat :: RangeAt(t, k) && Value(t[..k]) <= p <= Value(t[k + 1..]))
  }

  ghost predicate Listed(str: string, p: int) {
    exists t :: t in Tokens(str, ',') && Denotes(t, p)
  }

  ghost function PortSet(str: string): set<int> {
    set p | 0 <= p < RANGE_PORT && Listed(str, p)
  }

  ghost predicate Descending(t: string) {
    exists k: nat :: RangeAt(t, k) && Value(t[k + 1..]) < Value(t[..k])
  }

  /** The arguments that the option should take. */
  ghost predicate Acceptable(str: string) {
    && (str == "" || PortList(str))
    && (forall t :: t in Tokens(str, ',') ==> !Descending(t))
    && (forall p :: Listed(str, p) ==> p < RANGE_PORT)
    && |PortSet(str)| <= 1024
  }

  /** The number at the beginning of an item fits an int. */
  predicate Fits(t: string) {
    Value(AtoiRun(t)) <= INT_MAX
  }

  /** The upper end of a range fits an int, and so does the number of its ports. */
  ghost predicate RangeFits(t: string) {
    forall k: nat :: RangeAt(t, k) ==> Fits(t[k + 1..]) && Value(t[k + 1..]) - Value(t[..k]) < INT_MAX
  }

  ghost predicate NumbersFit(str: string) {
    forall t :: t in Tokens(str, ',') ==> Fits(t) && RangeFits(t)
  }

  predicate AllFit(toks: seq<string>) {
    forall k :: 0 <= k < |toks| ==> Fits(toks[k])
  }

  function Values(toks: seq<string>): (v: seq<int>)
    ensures |v| == |toks|
  {
    if toks == [] then [] else Values(toks[..|toks| - 1]) + [AtoiOf(toks[|toks| - 1])]
  }

  lemma {:induction false} ValuesAt(toks: seq<string>, k: nat)
    requires k < |toks|
    ensures Values(toks)[k] == AtoiOf(toks[k])
  {
    if k < |toks| - 1 {
      ValuesAt(toks[..|toks| - 1], k);
    }
  }

  lemma NumberAtStart(t: string, k: nat)
    requires k <= |t| && Digits(t[..k]) && (k == |t| || !IsDigit(t[k]))
    ensures AtoiRun(t) == t[..k] && AtoiOf(t) == Value(t[..k])
  {
    assert forall i :: 0 <= i < k ==> t[i] == t[..k][i];
    assert IsDigit(t[0]);
    assert SkipDigits(t, 0) == k;
  }

  // ----- init.c -----

  /** ft_atoi(tab[k]). */
  method PortNumber(tab: seq<string>, k: nat) returns (x: int32)
    requires AllFit(tab) && k < |tab|
    ensures x == Values(tab)[k]
  {
    ValuesAt(tab, k);
    x := FtAtoi(tab[k]);
  }

  method IsCharInDouble(tab: seq<string>, i: nat) returns (r: bool)
    requires AllFit(tab) && i < |tab|
    ensures r <==> Repeats(Values(tab), i)
  {
    ghost var v := Values(tab);
    var j := 0;
    while j < i
      invariant j <= i && v[i] !in v[..j]
    {
      var x := PortNumber(tab, i);
      var y := PortNumber(tab, j);
      if x == y {
        return true;
      }
      j := j + 1;
    }
    return false;
  }

  method LenIndivWithoutDoubles(tab: seq<string>) returns (count: nat)
    requires AllFit(tab)
    ensures count == CountRepeats(Values(tab), |tab|)
  {
    ghost var v := Values(tab);
    count := 0;
    var i := 0;
    while i < |tab|
      invariant i <= |tab| && count == CountRepeats(v, i)
    {
      var j := 0;
      ghost var before := count;
      while j < i
        invariant j <= i && count == before && v[i] !in v[..j]
      {
        var x := PortNumber(tab, i);
        var y := PortNumber(tab, j);
        if x == y {
          count := count + 1;
          break;
        }
        j := j + 1;
      }
      i := i + 1;
    }
  }

  /** in_range(lo, hi, tab[k]). */
  method PortInRange(lo: int, hi: int, tab: seq<string>, k: nat) returns (r: bool)
    requires AllFit(tab) && k < |tab|
    ensures r <==> InRange(lo, hi, Values(tab)[k])
  {
    var num := PortNumber(tab, k);
    return num >= lo && num <= hi;
  }

  method DoublesOutOfRange(list: Bag, tab: seq<string>) returns (count: nat)
    requires AllFit(tab)
    ensures count == CountOutRepeats(Values(tab), list.portFrom, list.portTo, |tab|)
  {
    var i := 0;
    count := 0;
    while i < |tab|
      invariant i <= |tab| && count == CountOutRepeats(Values(tab), list.portFrom, list.portTo, i)
    {
      var double := IsCharInDouble(tab, i);
      if double {
        var inside := PortInRange(list.portFrom, list.portTo, tab, i);
        if !inside {
          count := count + 1;
        }
      }
      i := i + 1;
    }
  }

  /** The inner loop of init_range_ports: how many entries are port p. */
  method CountPort(p: int, indiv: seq<string>) returns (count: nat)
    requires AllFit(indiv)
    ensures count == CountEqual(Values(indiv), p, |indiv|)
  {
    count := 0;
    var j := 0;
    while j < |indiv|
      invariant j <= |indiv| && count == CountEqual(Values(indiv), p, j)
    {
      var x := PortNumber(indiv, j);
      if p == x {
        count := count + 1;
      }
      j := j + 1;
    }
  }

  /** The size predicted by counting port by port is the number of entries the fill keeps. */
  method InitRangePorts(list: Bag, range: seq<string>, indiv: seq<string>) returns (outcome: Outcome)
    requires |range| == 2 && AllFit(range) && AllFit(indiv)
    requires 0 <= Values(range)[0] <= Values(range)[1]
    modifies list`portFrom, list`portTo, list`lenTabPortsIndiv
    ensures outcome == Continue <==> Values(range)[1] < RANGE_PORT
    ensures outcome == Continue ==>
              && list.portFrom == Values(range)[0] && list.portTo == Values(range)[1]
              && list.lenTabPortsIndiv == |Kept(Values(indiv), list.portFrom, list.portTo, |indiv|)|
  {
    ghost var v := Values(indiv);
    list.portFrom := PortNumber(range, 0);
    list.portTo := PortNumber(range, 1);
    ghost var lo, hi := list.portFrom, list.portTo;
    var count: int := 0;
    var i := list.portFrom;
    EmptyRangeCountsNothing(v, i, |indiv|);
    while i <= list.portTo
      invariant lo <= i <= hi + 1 && (i <= RANGE_PORT || i == lo)
      invariant list.portFrom == lo && list.portTo == hi
      invariant count == CountIn(v, lo, i - 1, |indiv|)
    {
      if i >= RANGE_PORT || i < 0 {
        return Exit;
      }
      var here := CountPort(i, indiv);
      count := count + here;
      CountByPort(v, lo, i, |indiv|);
      i := i + 1;
    }
    var outside := DoublesOutOfRange(list, indiv);
    count := count + outside;
    list.lenTabPortsIndiv := |indiv| - count;
    PredictionWithRange(v, lo, hi, |indiv|);
    return Continue;
  }

  lemma {:induction false} KeptGrows(v: seq<int>, lo: int, hi: int, i: nat, n: nat)
    requires i <= n <= |v|
    ensures Kept(v, lo, hi, i) <= Kept(v, lo, hi, n)
  {
    if i < n {
      KeptGrows(v, lo, hi, i, n - 1);
    }
  }

  /** One turn of the fill loop: entry j is stored if it is outside the range and new. */
  method FillEntry(list: Bag, indiv: seq<string>, j: nat, i: nat, ghost kept: seq<int>)
    returns (outcome: Outcome, next: nat)
    requires AllFit(indiv) && j < |indiv| && Values(indiv)[j] >= 0
    requires kept == Kept(Values(indiv), list.portFrom, list.portTo, j) && i == |kept|
    requires |Kept(Values(indiv), list.portFrom, list.portTo, j + 1)| <= list.tabPortsIndiv.Length
    requires i <= list.tabPortsIndiv.Length && list.tabPortsIndiv[..i] == kept
    modifies list.tabPortsIndiv
    ensures outcome == Exit <==>
              Values(indiv)[j] >= RANGE_PORT && !InRange(list.portFrom, list.portTo, Values(indiv)[j])
              && !Repeats(Values(indiv), j)
    ensures outcome == Continue ==>
              && next == |Kept(Values(indiv), list.portFrom, list.portTo, j + 1)|
              && list.tabPortsIndiv[..next] == Kept(Values(indiv), list.portFrom, list.portTo, j + 1)
    ensures i <= next
    ensures forall k :: next <= k < list.tabPortsIndiv.Length ==> list.tabPortsIndiv[k] == old(list.tabPortsIndiv[k])
  {
    next := i;
    var inside := PortInRange(list.portFrom, list.portTo, indiv, j);
    var double := IsCharInDouble(indiv, j);
    if !inside && !double {
      var tmp := PortNumber(indiv, j);
      if tmp >= RANGE_PORT || tmp < 0 {
        return Exit, next;
      }
      list.tabPortsIndiv[i] := tmp;
      next := i + 1;
    }
    return Continue, next;
  }

  /** The fill loop of init_ports: every store is inside the allocated table, and the
      cells after the last store keep what they held. */
  method FillTable(list: Bag, indiv: seq<string>) returns (outcome: Outcome)
    requires AllFit(indiv)
    requires 0 <= list.portFrom <= list.portTo < RANGE_PORT
    requires forall x :: x in Values(indiv) ==> x >= 0
    requires |Kept(Values(indiv), list.portFrom, list.portTo, |indiv|)| <= list.tabPortsIndiv.Length
    modifies list.tabPortsIndiv
    ensures outcome == Continue <==> forall x :: x in Values(indiv) ==> x < RANGE_PORT
    ensures outcome == Continue ==> var kept := Kept(Values(indiv), list.portFrom, list.portTo, |indiv|);
              && list.tabPortsIndiv[..|kept|] == kept
              && list.tabPortsIndiv[|kept|..] == old(list.tabPortsIndiv[|kept|..])
  {
    ghost var v := Values(indiv);
    ghost var lo, hi := list.portFrom, list.portTo;
    var tab := list.tabPortsIndiv;
    var i := 0;
    var j := 0;
    while j < |indiv|
      invariant j <= |indiv| && i == |Kept(v, lo, hi, j)| <= tab.Length
      invariant tab[..i] == Kept(v, lo, hi, j)
      invariant forall k :: i <= k < tab.Length ==> tab[k] == old(tab[k])
      invariant forall k :: 0 <= k < j ==> v[k] < RANGE_PORT
    {
      KeptGrows(v, lo, hi, j + 1, |indiv|);
      assert v[j] in v;
      outcome, i := FillEntry(list, indiv, j, i, Kept(v, lo, hi, j));
      if outcome == Exit {
        return;
      }
      j := j + 1;
    }
    return Continue;
  }

  function Ends(range: Option<seq<string>>): Option<(int, int)>
    requires range.Some? ==> |range.value| == 2
  {
    match range
    case None => None
    case Some(ends) => Some((Values(ends)[0], Values(ends)[1]))
  }

  lemma TableFits(list: Bag, v: seq<int>, range: Option<(int, int)>)
    requires range.None? ==> list.portFrom == list.portTo == 0
    requires range.Some? ==> range.value == (list.portFrom, list.portTo)
    ensures Kept(v, list.portFrom, list.portTo, |v|) <= IndivTable(v, range)
    ensures range.None? ==> |IndivTable(v, range)| == |v| - CountRepeats(v, |v|)
  {
    PredictionWithoutRange(v, |v|);
    assert v[..|v|] == v;
  }

  /** The table ends up full: its predicted size is the number of ports it is to hold. */
  method InitPorts(list: Bag, indiv: seq<string>, range: Option<seq<string>>) returns (outcome: Outcome)
    requires AllFit(indiv) && forall x :: x in Values(indiv) ==> x >= 0
    requires range.Some? ==> |range.value| == 2 && AllFit(range.value)
    requires range.Some? ==> 0 <= Ends(range).value.0 <= Ends(range).value.1
    requires range.None? ==> list.portFrom == list.portTo == 0
    modifies list`portFrom, list`portTo, list`lenTabPortsIndiv, list`tabPortsIndiv
    ensures outcome == Continue <==>
              && (range.Some? ==> Ends(range).value.1 < RANGE_PORT)
              && (forall x :: x in Values(indiv) ==> x < RANGE_PORT)
    ensures outcome == Continue ==>
              && fresh(list.tabPortsIndiv)
              && list.lenTabPortsIndiv == list.tabPortsIndiv.Length
              && list.tabPortsIndiv[..list.lenTabPortsIndiv] == IndivTable(Values(indiv), Ends(range))
              && (range.Some? ==> (list.portFrom, list.portTo) == Ends(range).value)
              && (range.None? ==> list.portFrom == list.portTo == 0)
  {
    if range.Some? {
      outcome := InitRangePorts(list, range.value, indiv);
      if outcome == Exit {
        return;
      }
    } else {
      var doubles := LenIndivWithoutDoubles(indiv);
      list.lenTabPortsIndiv := |indiv| - doubles;
    }
    ghost var v := Values(indiv);
    ghost var table := IndivTable(v, Ends(range));
    TableFits(list, v, Ends(range));
    list.tabPortsIndiv := new int32[list.lenTabPortsIndiv](_ => 0);
    outcome := FillTable(list, indiv);
    if outcome == Continue {
      ghost var kept := Kept(v, list.portFrom, list.portTo, |v|);
      assert list.tabPortsIndiv[..list.lenTabPortsIndiv] == list.tabPortsIndiv[..|kept|] + list.tabPortsIndiv[|kept|..];
    }
  }

  // ----- ports.c -----

  method GetTotalRangePorts(range: seq<string>) returns (outcome: Outcome, total: int32)
    requires |range| == 2 && AllFit(range) && 0 <= Values(range)[0]
    requires Values(range)[1] - Values(range)[0] < INT_MAX
    ensures outcome == Exit <==> Values(range)[1] < Values(range)[0]
    ensures outcome == Continue ==> total == Values(range)[1] - Values(range)[0] + 1
  {
    var rangeFrom := PortNumber(range, 0);
    var rangeTo := PortNumber(range, 1);
    if rangeTo < rangeFrom {
      return Exit, 0;
    }
    var totalRange: int32 := rangeTo - rangeFrom;
    return Continue, totalRange + 1;
  }

  lemma RangeHasOneDash(t: string, k: nat)
    requires RangeAt(t, k)
    ensures forall m: nat :: RangeAt(t, m) ==> m == k
    ensures !Digits(t)
  {
    assert !IsDigit(t[k]);
    forall m: nat | m < |t| && m != k ensures t[m] != '-' {
      assert t[m] == if m < k then t[..k][m] else t[k + 1..][m - k - 1];
    }
  }

  lemma NumberItem(toks: seq<string>, k: nat)
    requires k < |toks| && Digits(toks[k])
    ensures Values(toks)[k] == Value(toks[k])
    ensures forall p :: Denotes(toks[k], p) <==> p == Values(toks)[k]
    ensures !Descending(toks[k])
  {
    var t := toks[k];
    ValuesAt(toks, k);
    WholeNumber(t);
    assert forall m: nat :: m < |t| ==> t[m] != '-';
  }

  lemma RangeDenotes(t: string, m: nat)
    requires RangeAt(t, m)
    ensures forall p :: Denotes(t, p) <==> Value(t[..m]) <= p <= Value(t[m + 1..])
    ensures Descending(t) <==> Value(t[m + 1..]) < Value(t[..m])
  {
    RangeHasOneDash(t, m);
  }

  /** Splitting a range gives its two ends, and ft_atoi reads the range as its lower end. */
  lemma RangeValues(toks: seq<string>, k: nat, m: nat)
    requires k < |toks| && RangeAt(toks[k], m)
    ensures Tokens(toks[k], '-') == [toks[k][..m], toks[k][m + 1..]]
    ensures Values(Tokens(toks[k], '-')) == [Value(toks[k][..m]), Value(toks[k][m + 1..])]
    ensures Values(toks)[k] == Value(toks[k][..m])
  {
    var t := toks[k];
    RangeTokens(t, m);
    NumberItem([t[..m], t[m + 1..]], 0);
    NumberItem([t[..m], t[m + 1..]], 1);
    ValuesAt(toks, k);
    NumberAtStart(t, m);
  }

  ghost predicate RangeIs(t: string, m: nat, lo: int, hi: int) {
    RangeAt(t, m) && lo == Value(t[..m]) && hi == Value(t[m + 1..])
  }

  predicate Within(range: Option<(int, int)>, p: int) {
    range.Some? && InRange(range.value.0, range.value.1, p)
  }

  ghost predicate RangeItem(t: string, range: Option<(int, int)>) {
    range.Some? && exists m: nat :: RangeIs(t, m, range.value.0, range.value.1)
  }

  ghost predicate ItemOf(t: string, range: Option<(int, int)>) {
    Digits(t) || RangeItem(t, range)
  }

  lemma RangeItemDenotes(toks: seq<string>, k: nat, range: Option<(int, int)>)
    requires k < |toks| && RangeItem(toks[k], range) && range.value.0 <= range.value.1
    ensures !Descending(toks[k]) && Values(toks)[k] == range.value.0 >= 0
    ensures forall p :: Denotes(toks[k], p) <==> Within(range, p)
  {
    var m: nat :| RangeIs(toks[k], m, range.value.0, range.value.1);
    RangeDenotes(toks[k], m);
    RangeValues(toks, k, m);
  }

  lemma ItemDenotes(toks: seq<string>, k: nat, range: Option<(int, int)>)
    requires k < |toks| && ItemOf(toks[k], range)
    requires range.Some? ==> range.value.0 <= range.value.1
    ensures !Descending(toks[k]) && Values(toks)[k] >= 0
    ensures Denotes(toks[k], Values(toks)[k])
    ensures forall p :: Denotes(toks[k], p) ==> p == Values(toks)[k] || Within(range, p)
    ensures !Digits(toks[k]) ==> forall p :: Within(range, p) ==> Denotes(toks[k], p)
  {
    if Digits(toks[k]) {
      NumberItem(toks, k);
    } else {
      RangeItemDenotes(toks, k, range);
    }
  }

  ghost predicate ItemsOf(toks: seq<string>, range: Option<(int, int)>) {
    && (range.Some? ==> range.value.0 <= range.value.1 && toks != [] && !Digits(toks[|toks| - 1]))
    && forall k :: 0 <= k < |toks| ==> ItemOf(toks[k], range)
  }

  /** A port is listed when it is one of the numbers ft_atoi reads, or lies in the range. */
  lemma ListedPort(str: string, range: Option<(int, int)>, p: int)
    requires ItemsOf(Tokens(str, ','), range)
    ensures Listed(str, p) <==> p in Values(Tokens(str, ',')) || Within(range, p)
  {
    var toks := Tokens(str, ',');
    if Listed(str, p) {
      var k :| 0 <= k < |toks| && Denotes(toks[k], p);
      ItemDenotes(toks, k, range);
    }
    if p in Values(toks) {
      var k :| 0 <= k < |toks| && Values(toks)[k] == p;
      ItemDenotes(toks, k, range);
    }
    if Within(range, p) {
      ItemDenotes(toks, |toks| - 1, range);
    }
  }

  lemma NoItemDescends(toks: seq<string>, range: Option<(int, int)>)
    requires ItemsOf(toks, range)
    ensures forall t :: t in toks ==> !Descending(t)
    ensures forall x :: x in Values(toks) ==> x >= 0
  {
    forall k | 0 <= k < |toks| ensures !Descending(toks[k]) && Values(toks)[k] >= 0 {
      ItemDenotes(toks, k, range);
    }
  }

  lemma {:induction false} AcceptedItemsFit(str: string)
    requires PortList(str) ==> NumbersFit(str)
    requires str == "" || PortList(str)
    ensures AllFit(Tokens(str, ','))
    ensures '-' !in str ==> forall k :: 0 <= k < |Tokens(str, ',')| ==> ItemOf(Tokens(str, ',')[k], None)
  {
    if str != "" {
      ItemsOfAccepted(str);
    }
  }

  lemma WholeNumber(t: string)
    requires Digits(t)
    ensures AtoiRun(t) == t && AtoiOf(t) == Value(t)
  {
    assert t[..|t|] == t;
    NumberAtStart(t, |t|);
  }

  lemma RangeEndsFit(t: string, m: nat)
    requires RangeAt(t, m) && Fits(t) && Fits(t[m + 1..])
    ensures AllFit([t[..m], t[m + 1..]])
  {
    NumberAtStart(t, m);
    WholeNumber(t[..m]);
    assert Fits(t[..m]);
  }

  /** The range as its two ends, split at the dash. */
  ghost predicate RangeSplit(t: string, ends: seq<string>) {
    && |ends| == 2 && AllFit(ends)
    && 0 <= Values(ends)[0] && 0 <= Values(ends)[1] && Values(ends)[1] - Values(ends)[0] < INT_MAX
    && (Descending(t) <==> Values(ends)[1] < Values(ends)[0])
    && RangeItem(t, Ends(Some(ends)))
  }

  lemma RangeIsSplit(toks: seq<string>, k: nat, m: nat)
    requires k < |toks| && RangeAt(toks[k], m) && Fits(toks[k]) && RangeFits(toks[k])
    ensures RangeSplit(toks[k], Tokens(toks[k], '-')) && !Digits(toks[k])
  {
    var t := toks[k];
    RangeHasOneDash(t, m);
    RangeDenotes(t, m);
    RangeValues(toks, k, m);
    RangeEndsFit(t, m);
    assert RangeIs(t, m, Value(t[..m]), Value(t[m + 1..]));
  }

  lemma LastItemIsRange(str: string)
    requires PortList(str) && NumbersFit(str) && '-' in str
    ensures var toks := Tokens(str, ',');
            && toks != [] && !Digits(toks[|toks| - 1])
            && var range := Tokens(toks[|toks| - 1], '-');
            && RangeSplit(toks[|toks| - 1], range)
            && (forall k :: 0 <= k < |toks| ==> ItemOf(toks[k], Ends(Some(range))))
  {
    ItemsOfAccepted(str);
    var toks := Tokens(str, ',');
    var n := |toks| - 1;
    var m: nat :| RangeAt(toks[n], m);
    assert toks[n] in toks;
    RangeIsSplit(toks, n, m);
  }

  /** The items read as numbers, with the range, are what the argument lists. */
  ghost predicate Reads(str: string, range: Option<(int, int)>) {
    && (range.Some? ==> 0 <= range.value.0 <= range.value.1)
    && (forall x :: x in Values(Tokens(str, ',')) ==> x >= 0)
    && (forall p :: Listed(str, p) <==> p in Values(Tokens(str, ',')) || Within(range, p))
    && (forall t :: t in Tokens(str, ',') ==> !Descending(t))
  }

  /** The part of check_ports_option that reads the range. */
  method ReadRange(str: string, commaSplit: seq<string>, dash: bool)
    returns (outcome: Outcome, total: int, dashSplit: Option<seq<string>>)
    requires str == "" || PortList(str)
    requires PortList(str) ==> NumbersFit(str)
    requires commaSplit == Tokens(str, ',') && (dash <==> '-' in str)
    ensures outcome == Exit ==> exists t :: t in commaSplit && Descending(t)
    ensures outcome == Continue ==>
              && (dashSplit.Some? ==> |dashSplit.value| == 2 && AllFit(dashSplit.value) && '-' in str)
              && Reads(str, Ends(dashSplit))
              && total == (if dashSplit.Some? then Ends(dashSplit).value.1 - Ends(dashSplit).value.0 + 1 else 0)
  {
    total, dashSplit := 0, None;
    AcceptedItemsFit(str);
    if dash {
      LastItemIsRange(str);
      var range := SplitTable(commaSplit[|commaSplit| - 1], '-');
      outcome, total := GetTotalRangePorts(range);
      if outcome == Exit {
        return;
      }
      dashSplit := Some(range);
    }
    NoItemDescends(commaSplit, Ends(dashSplit));
    forall p ensures Listed(str, p) <==> p in Values(commaSplit) || Within(Ends(dashSplit), p) {
      ListedPort(str, Ends(dashSplit), p);
    }
    outcome := Continue;
  }

  /** What the parsed range and table hold is what the argument lists. */
  lemma TableIsListed(str: string, range: Option<(int, int)>)
    requires Reads(str, range) && (range.Some? ==> range.value.1 < RANGE_PORT)
    requires forall x :: x in Values(Tokens(str, ',')) ==> x < RANGE_PORT
    ensures forall p :: p in PortSet(str) <==> Listed(str, p)
    ensures forall p :: Listed(str, p) <==> p in IndivTable(Values(Tokens(str, ',')), range) || Within(range, p)
    ensures |PortSet(str)| == |IndivTable(Values(Tokens(str, ',')), range)|
              + if range.Some? then range.value.1 - range.value.0 + 1 else 0
  {
    IndivTableHolds(Values(Tokens(str, ',')), range);
    ListedSize(Values(Tokens(str, ',')), range, PortSet(str));
  }

  lemma TooLargeIsListed(str: string, range: Option<(int, int)>)
    requires Reads(str, range)
    ensures (range.Some? && range.value.1 >= RANGE_PORT)
              || (exists x :: x in Values(Tokens(str, ',')) && x >= RANGE_PORT)
            ==> !Acceptable(str)
  {
    assert range.Some? ==> Within(range, range.value.1);
  }

  method InitStatusOfPortsType(list: Bag, dashSplit: Option<seq<string>>)
    modifies list`portsIndiv, list`portsRange
    ensures list.portsIndiv <==> old(list.portsIndiv) || list.lenTabPortsIndiv > 0
    ensures list.portsRange <==> old(list.portsRange) || dashSplit.Some?
  {
    if list.lenTabPortsIndiv > 0 {
      list.portsIndiv := true;
    }
    if dashSplit.Some? {
      list.portsRange := true;
    }
  }

  lemma NoItemsOnlyIfEmpty(str: string)
    requires str == "" || PortList(str)
    ensures |Tokens(str, ',')| == 0 <==> str == ""
  {
    if str != "" {
      ItemsOfAccepted(str);
    }
  }

  lemma EmptyTable(v: seq<int>)
    ensures |IndivTable(v, None)| == 0 <==> |v| == 0
  {
    IndivTableHolds(v, None);
    var table := IndivTable(v, None);
    if v != [] {
      var x := v[0];
      assert x in v && x in table;
    } else {
      assert Kept(v, 0, 0, |v|) == [];
    }
  }

  /** The end of check_ports_option: the flags, the limit and the total. Here `ports` are
      the listed ports, `table` the ones outside the range. */
  method RecordPorts(list: Bag, totalRange: int, dashSplit: Option<seq<string>>,
                     ghost table: seq<int>, ghost range: Option<(int, int)>, ghost ports: set<int>)
    returns (outcome: Outcome)
    requires list.Sized() && !list.PortsGiven()
    requires list.tabPortsIndiv[..list.lenTabPortsIndiv] == table
    requires range.Some? <==> dashSplit.Some?
    requires range.Some? ==> range.value == (list.portFrom, list.portTo)
    requires forall p :: p in ports <==> p in table || Within(range, p)
    requires totalRange >= 0 && |ports| == totalRange + |table| && (totalRange > 0 <==> range.Some?)
    modifies list`portsRange, list`portsIndiv, list`countPorts
    ensures outcome == Continue <==> |ports| <= 1024
    ensures forall p :: list.PortAsked(p) <==> p in ports
    ensures outcome == Continue ==> list.countPorts == |ports|
    ensures list.PortsGiven() <==> |ports| > 0
  {
    InitStatusOfPortsType(list, dashSplit);
    if totalRange + list.lenTabPortsIndiv > 1024 {
      return Exit;
    }
    list.countPorts := totalRange + list.lenTabPortsIndiv;
    return Continue;
  }

  /** The first half of check_ports_option: the checks, the splits and the range. */
  method ReadPorts(list: Bag, str: string)
    returns (outcome: Outcome, commaSplit: seq<string>, totalRange: int, dashSplit: Option<seq<string>>)
    requires PortList(str) ==> NumbersFit(str)
    ensures outcome == Exit ==> list.PortsGiven() || !Acceptable(str)
    ensures outcome == Continue ==>
              && !list.PortsGiven() && (str == "" || PortList(str))
              && commaSplit == Tokens(str, ',') && AllFit(commaSplit)
              && (commaSplit == [] <==> str == "")
              && (dashSplit.Some? ==> |dashSplit.value| == 2 && AllFit(dashSplit.value))
              && Reads(str, Ends(dashSplit))
              && totalRange == (if dashSplit.Some? then Ends(dashSplit).value.1 - Ends(dashSplit).value.0 + 1 else 0)
  {
    var dash: bool;
    commaSplit, totalRange, dashSplit := [], 0, None;
    outcome, dash := BasicParsingPortsOption(str);
    if outcome == Exit {
      return;
    }
    commaSplit := SplitTable(str, ',');
    if list.portsRange || list.portsIndiv {
      outcome := Exit;
      return;
    }
    outcome, totalRange, dashSplit := ReadRange(str, commaSplit, dash);
    AcceptedItemsFit(str);
    NoItemsOnlyIfEmpty(str);
  }

  /** When a string that has been read is acceptable. */
  lemma AcceptableOnceRead(str: string, range: Option<(int, int)>)
    requires Reads(str, range) && (str == "" || PortList(str))
    requires range.Some? ==> range.value.1 < RANGE_PORT
    requires forall x :: x in Values(Tokens(str, ',')) ==> x < RANGE_PORT
    ensures Acceptable(str) <==> |PortSet(str)| <= 1024
  {
  }

  /** The second half of check_ports_option: the table, the flags, the limit and the total. */
  method StorePorts(list: Bag, str: string, commaSplit: seq<string>, totalRange: int, dashSplit: Option<seq<string>>)
    returns (outcome: Outcome)
    requires list.Sized() && !list.PortsGiven() && list.portFrom == list.portTo == 0
    requires str == "" || PortList(str)
    requires commaSplit == Tokens(str, ',') && AllFit(commaSplit) && (commaSplit == [] <==> str == "")
    requires dashSplit.Some? ==> |dashSplit.value| == 2 && AllFit(dashSplit.value)
    requires Reads(str, Ends(dashSplit))
    requires totalRange == (if dashSplit.Some? then Ends(dashSplit).value.1 - Ends(dashSplit).value.0 + 1 else 0)
    modifies list`portsRange, list`portsIndiv, list`portFrom, list`portTo
    modifies list`lenTabPortsIndiv, list`tabPortsIndiv, list`countPorts
    ensures outcome == Continue <==> Acceptable(str)
    ensures outcome == Continue ==> list.Sized() && fresh(list.tabPortsIndiv)
    ensures outcome == Continue ==> forall p :: list.PortAsked(p) <==> p in PortSet(str)
    ensures outcome == Continue ==> list.countPorts == |PortSet(str)|
    ensures outcome == Continue ==> (list.PortsGiven() <==> |PortSet(str)| > 0)
    ensures outcome == Continue ==> (str != "" <==> |PortSet(str)| > 0)
    ensures outcome == Continue && str == "" ==> list.portFrom == list.portTo == 0
  {
    outcome := InitPorts(list, commaSplit, dashSplit);
    if outcome == Exit {
      TooLargeIsListed(str, Ends(dashSplit));
      return;
    }
    AcceptableOnceRead(str, Ends(dashSplit));
    TableIsListed(str, Ends(dashSplit));
    EmptyTable(Values(commaSplit));
    outcome := RecordPorts(list, totalRange, dashSplit,
                           IndivTable(Values(commaSplit), Ends(dashSplit)), Ends(dashSplit), PortSet(str));
  }

  /** The option is taken exactly when its argument is acceptable and ports have not been
      given before; it then records exactly the listed ports and their number. */
  method CheckPortsOption(list: Bag, str: string) returns (outcome: Outcome)
    requires list.Sized()
    requires !list.PortsGiven() ==> list.portFrom == list.portTo == 0
    requires PortList(str) ==> NumbersFit(str)
    modifies list`portsRange, list`portsIndiv, list`portFrom, list`portTo
    modifies list`lenTabPortsIndiv, list`tabPortsIndiv, list`countPorts
    ensures outcome == Continue <==> !old(list.PortsGiven()) && Acceptable(str)
    ensures outcome == Continue ==>
              && list.Sized() && fresh(list.tabPortsIndiv)
              && (forall p :: list.PortAsked(p) <==> p in PortSet(str))
              && list.countPorts == |PortSet(str)|
              && (list.PortsGiven() <==> list.countPorts >= 1)
              && (list.PortsGiven() <==> str != "")
              && (!list.PortsGiven() ==> list.portFrom == list.portTo == 0)
  {
    var commaSplit: seq<string>;
    var totalRange: int;
    var dashSplit: Option<seq<string>>;
    outcome, commaSplit, totalRange, dashSplit := ReadPorts(list, str);
    if outcome == Continue {
      outcome := StorePorts(list, str, commaSplit, totalRange, dashSplit);
    }
  }
}
