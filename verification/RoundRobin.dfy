/** ft_setter: dealing a total one by one to the enabled slots in turn (execution/thread_scan.c). */
module RoundRobin {
  import opened CTypes
  import opened Arithmetic
  import opened Counting

  // ----- the closed form -----

  /** What the slot of rank r among n gets out of a total. */
  function Share(total: nat, n: nat, r: nat): nat
    requires n > 0
  {
    total / n + if r < total % n then 1 else 0
  }

  lemma DivModStep(t: nat, n: nat)
    requires n > 0
    ensures if t % n + 1 == n then (t + 1) / n == t / n + 1 && (t + 1) % n == 0
            else (t + 1) / n == t / n && (t + 1) % n == t % n + 1
  {
    var q, r := t / n, t % n;
    assert t == q * n + r;
    if r + 1 == n {
      QuotientIs(t + 1, n, q + 1, 0);
    } else {
      QuotientIs(t + 1, n, q, r + 1);
    }
  }

  /** Dealing one more unit raises exactly the share of the slot whose turn it is. */
  lemma ShareStep(t: nat, n: nat, r: nat)
    requires r < n
    ensures Share(t + 1, n, r) == Share(t, n, r) + if r == t % n then 1 else 0
  {
    DivModStep(t, n);
  }

  lemma NothingDealt(n: nat, r: nat)
    requires r < n
    ensures Share(0, n, r) == 0 && 0 % n == 0
  {
    QuotientIs(0, n, 0, 0);
  }

  /** Shares of the same total differ by at most one, lower ranks being served first. */
  lemma SharesAreBalanced(total: nat, n: nat, r: nat, s: nat)
    requires r <= s < n
    ensures Share(total, n, s) <= Share(total, n, r) <= Share(total, n, s) + 1
  {
  }

  /** With at least one unit for every slot, every slot gets one. */
  lemma {:induction false} ShareIsPositive(total: nat, n: nat, r: nat)
    requires r < n <= total
    ensures Share(total, n, r) >= 1
  {
    assert total == (total / n) * n + total % n;
    assert (total / n) * n >= 1;
  }

  /** The sum of the first m shares. */
  function ShareSum(total: nat, n: nat, m: nat): nat
    requires n > 0
  {
    if m == 0 then 0 else ShareSum(total, n, m - 1) + Share(total, n, m - 1)
  }

  lemma OneMultipleMore(m: nat, q: nat)
    ensures (m + 1) * q == m * q + q
  {
  }

  lemma {:induction false} ShareSumClosed(total: nat, n: nat, m: nat)
    requires n > 0 && m <= n
    ensures ShareSum(total, n, m) == m * (total / n) + if m < total % n then m else total % n
  {
    var q := total / n;
    if m > 0 {
      ShareSumClosed(total, n, m - 1);
      OneMultipleMore(m - 1, q);
    } else {
      assert m * q == 0;
    }
  }

  /** Nothing is lost: the shares of all n slots add up to the total. */
  lemma SharesAddUp(total: nat, n: nat)
    requires n > 0
    ensures ShareSum(total, n, n) == total
  {
    ShareSumClosed(total, n, n);
  }

  // ----- the loop -----

  function AllOn(n: nat): (on: seq<bool>)
    ensures |on| == n && forall k :: 0 <= k < n ==> on[k]
  {
    seq(n, _ => true)
  }

  /** The slots that take part: all of them when there is no list of flags. */
  function Enabled(ele: Option<seq<bool>>, end: nat): seq<bool> {
    ele.GetOr(AllOn(end))
  }

  /** What slot k gets: a share if it takes part. */
  function Dealt(total: nat, on: seq<bool>, start: nat, end: nat, k: int): nat
    requires start <= end <= |on|
  {
    if start <= k < end && on[k] && Rank(on, start, end) > 0 then
      Share(total, Rank(on, start, end), Rank(on, start, k))
    else 0
  }

  lemma NoneDealt(on: seq<bool>, start: nat, end: nat)
    requires start <= end <= |on|
    ensures forall k :: Dealt(0, on, start, end, k) == 0
  {
    var n := Rank(on, start, end);
    if n > 0 {
      NothingDealt(n, 0);
    }
  }

  /** The loop is about to look at slot `at`: its rank is the number of units dealt in this round. */
  ghost predicate Turn(i: nat, on: seq<bool>, start: nat, end: nat, at: nat)
    requires start <= at <= end <= |on| && Rank(on, start, end) > 0
  {
    var n := Rank(on, start, end);
    Rank(on, start, at) == i % n || (Rank(on, start, at) == n && i % n == 0)
  }

  /** One unit goes to slot `at`: that is what the closed form gives for one unit more. */
  lemma DealtStep(i: nat, on: seq<bool>, start: nat, end: nat, at: nat)
    requires start <= at < end <= |on| && on[at] && Rank(on, start, end) > 0
    requires Turn(i, on, start, end, at)
    ensures forall k :: Dealt(i + 1, on, start, end, k) == Dealt(i, on, start, end, k) + if k == at then 1 else 0
    ensures Turn(i + 1, on, start, end, at + 1)
  {
    var n := Rank(on, start, end);
    DivModStep(i, n);
    RankGrows(on, start, at, end);
    forall k
      ensures Dealt(i + 1, on, start, end, k) == Dealt(i, on, start, end, k) + if k == at then 1 else 0
    {
      if start <= k < end && on[k] {
        RankGrows(on, start, k, end);
        ShareStep(i, n, Rank(on, start, k));
        RankGrows(on, start, if k < at then k else at, if k < at then at else k);
      }
    }
  }

  method FtBzero(s: array<int>, n: nat)
    requires n <= s.Length
    modifies s
    ensures forall k :: 0 <= k < s.Length ==> s[k] == if k < n then 0 else old(s[k])
  {
    var i := 0;
    while i < n
      invariant i <= n
      invariant forall k :: 0 <= k < s.Length ==> s[k] == if k < i then 0 else old(s[k])
    {
      s[i] := 0;
      i := i + 1;
    }
  }

  /** Clears the first end - start cells (as written: from index 0, not from start) and deals
      the total. It ends although a disabled slot takes the unit back with i--. */
  method FtSetter(total: int, setter: array<int>, start: nat, end: nat, ele: Option<seq<bool>>)
    requires start <= end <= setter.Length && total >= 0
    requires ele.Some? ==> end <= |ele.value|
    requires total > 0 ==> Rank(Enabled(ele, end), start, end) > 0
    modifies setter
    ensures forall k :: 0 <= k < setter.Length ==>
              setter[k] == Dealt(total, Enabled(ele, end), start, end, k)
                           + if k < end - start then 0 else old(setter[k])
  {
    FtBzero(setter, end - start);
    ghost var on := Enabled(ele, end);
    ghost var n := Rank(on, start, end);
    ghost var base := setter[..];
    NoneDealt(on, start, end);
    assert n > 0 ==> Turn(0, on, start, end, start) by {
      if n > 0 {
        NothingDealt(n, 0);
      }
    }
    var current: int := start;
    var i: int := 0;
    while i < total
      invariant 0 <= i <= total && start <= current <= end
      invariant n > 0 ==> Turn(i, on, start, end, current)
      invariant forall k :: 0 <= k < setter.Length ==> setter[k] == Dealt(i, on, start, end, k) + base[k]
      decreases total - i, if Rank(on, start, current) < n then 0 else 1, end - current
    {
      if current >= end {
        current := start;
      }
      if ele.Some? && !ele.value[current] {
        i := i - 1;
      } else {
        DealtStep(i, on, start, end, current);
        setter[current] := setter[current] + 1;
      }
      current := current + 1;
      i := i + 1;
    }
  }
}
