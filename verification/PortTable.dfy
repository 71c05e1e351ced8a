/** Counting repeated and in-range entries of a list of ports, and the table that is left. */
module PortTable {
  import opened CTypes

  predicate InRange(lo: int, hi: int, x: int) {
    lo <= x <= hi
  }

  /** Entry i has already occurred. */
  predicate Repeats(v: seq<int>, i: nat)
    requires i < |v|
  {
    v[i] in v[..i]
  }

  // ----- the four counts, over the first n entries -----

  function CountEqual(v: seq<int>, p: int, n: nat): nat
    requires n <= |v|
  {
    if n == 0 then 0 else CountEqual(v, p, n - 1) + if v[n - 1] == p then 1 else 0
  }

  function CountIn(v: seq<int>, lo: int, hi: int, n: nat): nat
    requires n <= |v|
  {
    if n == 0 then 0 else CountIn(v, lo, hi, n - 1) + if InRange(lo, hi, v[n - 1]) then 1 else 0
  }

  function CountRepeats(v: seq<int>, n: nat): nat
    requires n <= |v|
  {
    if n == 0 then 0 else CountRepeats(v, n - 1) + if Repeats(v, n - 1) then 1 else 0
  }

  function CountOutRepeats(v: seq<int>, lo: int, hi: int, n: nat): nat
    requires n <= |v|
  {
    if n == 0 then 0
    else CountOutRepeats(v, lo, hi, n - 1) + if Repeats(v, n - 1) && !InRange(lo, hi, v[n - 1]) then 1 else 0
  }

  /** Counting the entries of a range port by port counts them entry by entry. */
  lemma {:induction false} CountByPort(v: seq<int>, lo: int, p: int, n: nat)
    requires n <= |v| && lo <= p
    ensures CountIn(v, lo, p, n) == CountIn(v, lo, p - 1, n) + CountEqual(v, p, n)
  {
    if n > 0 {
      CountByPort(v, lo, p, n - 1);
    }
  }

  lemma {:induction false} EmptyRangeCountsNothing(v: seq<int>, lo: int, n: nat)
    requires n <= |v|
    ensures CountIn(v, lo, lo - 1, n) == 0
  {
    if n > 0 {
      EmptyRangeCountsNothing(v, lo, n - 1);
    }
  }

  // ----- the entries that are kept -----

  /** The first occurrences that lie outside the range, in order. */
  function Kept(v: seq<int>, lo: int, hi: int, n: nat): seq<int>
    requires n <= |v|
  {
    if n == 0 then []
    else Kept(v, lo, hi, n - 1) + if !InRange(lo, hi, v[n - 1]) && !Repeats(v, n - 1) then [v[n - 1]] else []
  }

  /** The predicted size is the number of entries the fill keeps. */
  lemma {:induction false} PredictionWithRange(v: seq<int>, lo: int, hi: int, n: nat)
    requires n <= |v|
    ensures |Kept(v, lo, hi, n)| == n - (CountIn(v, lo, hi, n) + CountOutRepeats(v, lo, hi, n))
  {
    if n > 0 {
      PredictionWithRange(v, lo, hi, n - 1);
    }
  }

  /** Without a range, the fill treats 0 as in range and so keeps one entry less than
      predicted exactly when 0 is listed. */
  lemma {:induction false} PredictionWithoutRange(v: seq<int>, n: nat)
    requires n <= |v|
    ensures |Kept(v, 0, 0, n)| + (if 0 in v[..n] then 1 else 0) == n - CountRepeats(v, n)
  {
    if n > 0 {
      PredictionWithoutRange(v, n - 1);
      assert v[..n] == v[..n - 1] + [v[n - 1]];
    }
  }

  predicate Distinct(s: seq<int>) {
    forall i, j :: 0 <= i < j < |s| ==> s[i] != s[j]
  }

  lemma {:induction false} KeptMember(v: seq<int>, lo: int, hi: int, n: nat, x: int)
    requires n <= |v|
    ensures x in Kept(v, lo, hi, n) <==> x in v[..n] && !InRange(lo, hi, x)
  {
    if n > 0 {
      KeptMember(v, lo, hi, n - 1, x);
      assert v[..n] == v[..n - 1] + [v[n - 1]];
      assert x in v[..n] <==> x in v[..n - 1] || x == v[n - 1];
    }
  }

  lemma {:induction false} KeptDistinct(v: seq<int>, lo: int, hi: int, n: nat)
    requires n <= |v|
    ensures Distinct(Kept(v, lo, hi, n))
  {
    if n > 0 {
      KeptDistinct(v, lo, hi, n - 1);
      KeptMember(v, lo, hi, n - 1, v[n - 1]);
      var before := Kept(v, lo, hi, n - 1);
      if !Repeats(v, n - 1) {
        forall i | 0 <= i < |before| ensures before[i] != v[n - 1] {
          assert before[i] in before;
        }
      }
    }
  }

  lemma KeptHolds(v: seq<int>, lo: int, hi: int, n: nat)
    requires n <= |v|
    ensures Distinct(Kept(v, lo, hi, n))
    ensures forall x :: x in Kept(v, lo, hi, n) <==> x in v[..n] && !InRange(lo, hi, x)
  {
    KeptDistinct(v, lo, hi, n);
    forall x ensures x in Kept(v, lo, hi, n) <==> x in v[..n] && !InRange(lo, hi, x) {
      KeptMember(v, lo, hi, n, x);
    }
  }

  /** What tab_ports_indiv must hold: the listed ports outside the range (all of them
      when there is no range), 0 last when it is the leftover zeroed slot. */
  function IndivTable(v: seq<int>, range: Option<(int, int)>): seq<int> {
    match range
    case Some((lo, hi)) => Kept(v, lo, hi, |v|)
    case None => Kept(v, 0, 0, |v|) + if 0 in v then [0] else []
  }

  lemma IndivTableHolds(v: seq<int>, range: Option<(int, int)>)
    ensures Distinct(IndivTable(v, range))
    ensures forall x :: x in IndivTable(v, range) <==>
              x in v && (range.Some? ==> !InRange(range.value.0, range.value.1, x))
  {
    assert v[..|v|] == v;
    match range
    case Some((lo, hi)) =>
      KeptHolds(v, lo, hi, |v|);
    case None =>
      KeptHolds(v, 0, 0, |v|);
      var kept := Kept(v, 0, 0, |v|);
      forall i | 0 <= i < |kept| ensures kept[i] != 0 {
        assert kept[i] in kept;
      }
  }

  // ----- cardinalities -----

  function Interval(lo: int, hi: int): set<int> {
    set p | lo <= p <= hi && InRange(lo, hi, p)
  }

  lemma OnePortMore(lo: int, hi: int)
    requires lo <= hi
    ensures Interval(lo, hi) == Interval(lo, hi - 1) + {hi} && hi !in Interval(lo, hi - 1)
  {
    forall p ensures p in Interval(lo, hi) <==> p in Interval(lo, hi - 1) + {hi} {
      assert p in Interval(lo, hi) <==> InRange(lo, hi, p);
      assert p in Interval(lo, hi - 1) <==> InRange(lo, hi - 1, p);
    }
  }

  lemma {:induction false} IntervalSize(lo: int, hi: int)
    requires lo <= hi + 1
    ensures |Interval(lo, hi)| == hi - lo + 1
    decreases hi - lo + 1
  {
    if lo <= hi {
      IntervalSize(lo, hi - 1);
      OnePortMore(lo, hi);
    } else {
      assert Interval(lo, hi) == {};
    }
  }

  function Elements(s: seq<int>): set<int> {
    set x | x in s
  }

  lemma {:induction false} DistinctSize(s: seq<int>)
    requires Distinct(s)
    ensures |Elements(s)| == |s|
  {
    if s != [] {
      var t := s[..|s| - 1];
      DistinctSize(t);
      assert s == t + [s[|s| - 1]];
      assert Elements(s) == Elements(t) + {s[|s| - 1]};
    }
  }

  /** The range and the table together hold every listed port once. */
  lemma ListedSize(v: seq<int>, range: Option<(int, int)>, all: set<int>)
    requires range.Some? ==> range.value.0 <= range.value.1
    requires forall x :: x in all <==> x in v || (range.Some? && InRange(range.value.0, range.value.1, x))
    ensures |all| == |IndivTable(v, range)| + if range.Some? then range.value.1 - range.value.0 + 1 else 0
  {
    var table := IndivTable(v, range);
    IndivTableHolds(v, range);
    DistinctSize(table);
    match range
    case None =>
      forall x ensures x in all <==> x in Elements(table) {
        assert x in table <==> x in v;
      }
      assert all == Elements(table);
    case Some((lo, hi)) =>
      IntervalSize(lo, hi);
      assert all == Elements(table) + Interval(lo, hi);
      assert Elements(table) !! Interval(lo, hi);
  }
}
