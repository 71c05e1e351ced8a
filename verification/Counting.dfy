/** Ranks: how many of the flags of a range are set before a position. */
module Counting {
  function Rank(on: seq<bool>, start: nat, k: nat): nat
    requires start <= k <= |on|
    decreases k
  {
    if k == start then 0 else Rank(on, start, k - 1) + if on[k - 1] then 1 else 0
  }

  /** The number of set flags. */
  function Total(on: seq<bool>): nat {
    Rank(on, 0, |on|)
  }

  lemma {:induction false} RankGrows(on: seq<bool>, start: nat, j: nat, k: nat)
    requires start <= j <= k <= |on|
    ensures Rank(on, start, j) <= Rank(on, start, k)
    ensures j < k && on[j] ==> Rank(on, start, j) < Rank(on, start, k)
    decreases k - j
  {
    if j < k {
      RankGrows(on, start, j + 1, k);
    }
  }

  /** A rank below the total is reached by a set flag further on. */
  lemma {:induction false} NextSet(on: seq<bool>, start: nat, j: nat, k: nat) returns (m: nat)
    requires start <= j <= k <= |on| && Rank(on, start, j) < Rank(on, start, k)
    ensures j <= m < k && on[m] && Rank(on, start, m) == Rank(on, start, j)
    decreases k - j
  {
    if on[j] {
      m := j;
    } else {
      m := NextSet(on, start, j + 1, k);
    }
  }

  lemma {:induction false} RankIsSize(on: seq<bool>, k: nat, s: set<int>)
    requires k <= |on| && forall p :: p in s <==> 0 <= p < k && on[p]
    ensures |s| == Rank(on, 0, k)
  {
    if k == 0 {
      assert forall p :: p !in s;
      assert s == {};
    } else {
      var t := s - {k - 1};
      RankIsSize(on, k - 1, t);
      assert on[k - 1] ==> s == t + {k - 1};
      assert !on[k - 1] ==> s == t;
    }
  }
}
