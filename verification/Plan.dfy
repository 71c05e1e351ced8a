/** How the scheduler shares the asked scans and ports among the threads. */
module Plan {
  import opened CTypes
  import opened Arithmetic
  import opened Counting
  import opened RoundRobin

  /** What one thread is told to do (t_infos): flags of its ports and of its scan type. */
  datatype Info = Info(port: seq<bool>, scan: seq<bool>)

  predicate Covers(info: Info, s: int, p: int) {
    0 <= s < |info.scan| && info.scan[s] && 0 <= p < |info.port| && info.port[p]
  }

  /** The set ports whose rank lies in [lo, hi). */
  function Block(ports: seq<bool>, lo: int, hi: int): (b: seq<bool>)
    ensures |b| == |ports|
    ensures forall p :: 0 <= p < |ports| ==> (b[p] <==> ports[p] && lo <= Rank(ports, 0, p) < hi)
  {
    seq(|ports|, p requires 0 <= p < |ports| => ports[p] && lo <= Rank(ports, 0, p) < hi)
  }

  function OnlyScan(s: nat): (b: seq<bool>)
    ensures |b| == TOTAL_TYPE && forall k :: 0 <= k < TOTAL_TYPE ==> (b[k] <==> k == s)
  {
    seq(TOTAL_TYPE, k => k == s)
  }

  /** Where the first m of n blocks begin and end, counted in ports. */
  function OffsetsUpTo(total: nat, n: nat, m: nat): (o: seq<nat>)
    requires n > 0
    ensures |o| == m + 1
  {
    if m == 0 then [0] else OffsetsUpTo(total, n, m - 1) + [ShareSum(total, n, m)]
  }

  /** Where the blocks of n threads begin and end. */
  function Offsets(total: nat, n: nat): (o: seq<nat>)
    requires n > 0
    ensures |o| == n + 1
  {
    OffsetsUpTo(total, n, n)
  }

  lemma {:induction false} OffsetAt(total: nat, n: nat, m: nat, t: nat)
    requires n > 0 && t <= m
    ensures OffsetsUpTo(total, n, m)[t] == ShareSum(total, n, t)
  {
    if t < m {
      OffsetAt(total, n, m - 1, t);
    }
  }

  ghost predicate Ascending(o: seq<nat>) {
    forall t, u :: 0 <= t <= u < |o| ==> o[t] <= o[u]
  }

  lemma {:induction false} ShareSumGrows(total: nat, n: nat, t: nat, u: nat)
    requires n > 0 && t <= u
    ensures ShareSum(total, n, t) <= ShareSum(total, n, u)
    decreases u - t
  {
    if t < u {
      ShareSumGrows(total, n, t, u - 1);
    }
  }

  lemma OffsetsAscend(total: nat, n: nat)
    requires n > 0
    ensures Ascending(Offsets(total, n))
    ensures Offsets(total, n)[0] == 0 && Offsets(total, n)[n] == total
  {
    var o := Offsets(total, n);
    forall t, u | 0 <= t <= u <= n ensures o[t] <= o[u] {
      OffsetAt(total, n, n, t);
      OffsetAt(total, n, n, u);
      ShareSumGrows(total, n, t, u);
    }
    OffsetAt(total, n, n, 0);
    OffsetAt(total, n, n, n);
    SharesAddUp(total, n);
  }

  lemma OffsetStep(total: nat, n: nat, t: nat)
    requires t < n
    ensures Offsets(total, n)[t + 1] == Offsets(total, n)[t] + Share(total, n, t) <= total
  {
    OffsetsAscend(total, n);
    OffsetAt(total, n, n, t);
    OffsetAt(total, n, n, t + 1);
  }

  /** Thread t of scan type s, when the blocks have the given offsets. */
  function BlockInfo(ports: seq<bool>, s: nat, offsets: seq<nat>, t: nat): Info
    requires t + 1 < |offsets|
  {
    Info(Block(ports, offsets[t], offsets[t + 1]), OnlyScan(s))
  }

  /** The first t threads of scan type s. */
  function ScanPlan(ports: seq<bool>, s: nat, offsets: seq<nat>, t: nat): (plan: seq<Info>)
    requires t < |offsets|
    ensures |plan| == t
  {
    if t == 0 then [] else ScanPlan(ports, s, offsets, t - 1) + [BlockInfo(ports, s, offsets, t - 1)]
  }

  /** Every asked scan has a thread. */
  ghost predicate Served(scans: seq<bool>, threads: seq<nat>) {
    && |scans| == |threads| == TOTAL_TYPE
    && forall s :: 1 <= s < TOTAL_TYPE && scans[s] ==> threads[s] > 0
  }

  /** The threads of scan type s, given the number of threads of each scan. */
  function ThreadsOfScan(ports: seq<bool>, threads: seq<nat>, s: nat): (plan: seq<Info>)
    requires s < |threads| && threads[s] > 0
    ensures |plan| == threads[s]
  {
    ScanPlan(ports, s, Offsets(Total(ports), threads[s]), threads[s])
  }

  /** The threads of the scan types below k, in the order of their creation. */
  ghost function PlanBelow(ports: seq<bool>, scans: seq<bool>, threads: seq<nat>, k: nat): seq<Info>
    requires Served(scans, threads) && k <= TOTAL_TYPE
  {
    if k <= 1 then []
    else PlanBelow(ports, scans, threads, k - 1) + if scans[k - 1] then ThreadsOfScan(ports, threads, k - 1) else []
  }

  // ----- the blocks of one scan type -----

  lemma {:induction false} ScanPlanAt(ports: seq<bool>, s: nat, offsets: seq<nat>, t: nat, j: nat)
    requires j < t < |offsets|
    ensures ScanPlan(ports, s, offsets, t)[j] == BlockInfo(ports, s, offsets, j)
  {
    if j < t - 1 {
      ScanPlanAt(ports, s, offsets, t - 1, j);
    }
  }

  /** A later thread of a scan only has larger ports than an earlier one. */
  lemma BlocksAscend(ports: seq<bool>, s: nat, offsets: seq<nat>, i: nat, j: nat, p: nat, q: nat)
    requires Ascending(offsets) && i < j && j + 1 < |offsets| && p < |ports| && q < |ports|
    requires BlockInfo(ports, s, offsets, i).port[p] && BlockInfo(ports, s, offsets, j).port[q]
    ensures p < q
  {
    assert Rank(ports, 0, p) < offsets[i + 1] <= offsets[j] <= Rank(ports, 0, q);
    if q <= p {
      RankGrows(ports, 0, q, p);
    }
  }

  /** Which block a rank falls into. */
  lemma {:induction false} BlockOfRank(offsets: seq<nat>, m: nat, r: nat) returns (t: nat)
    requires m < |offsets| && offsets[0] <= r < offsets[m]
    ensures t < m && offsets[t] <= r < offsets[t + 1]
  {
    if r < offsets[m - 1] {
      t := BlockOfRank(offsets, m - 1, r);
    } else {
      t := m - 1;
    }
  }

  /** Every set port falls to a thread. */
  lemma BlocksCover(ports: seq<bool>, s: nat, offsets: seq<nat>, p: nat) returns (t: nat)
    requires |offsets| >= 2 && offsets[0] == 0 && offsets[|offsets| - 1] == Total(ports)
    requires p < |ports| && ports[p] && s < TOTAL_TYPE
    ensures t + 1 < |offsets| && Covers(BlockInfo(ports, s, offsets, t), s, p)
  {
    RankGrows(ports, 0, p, |ports|);
    t := BlockOfRank(offsets, |offsets| - 1, Rank(ports, 0, p));
  }

  /** The number of ports of a block. */
  lemma {:induction false} BlockCount(ports: seq<bool>, lo: nat, hi: nat, k: nat)
    requires k <= |ports| && lo <= hi
    ensures Rank(Block(ports, lo, hi), 0, k) ==
              var r := Rank(ports, 0, k); (if r < hi then r else hi) - (if r < lo then r else lo)
  {
    if k > 0 {
      BlockCount(ports, lo, hi, k - 1);
    }
  }

  /** Thread t gets exactly its share of the ports, and so at least one when there are
      no more threads than ports. */
  lemma BlockSize(ports: seq<bool>, threads: seq<nat>, s: nat, t: nat)
    requires s < |threads| && t < threads[s]
    ensures Total(ThreadsOfScan(ports, threads, s)[t].port) == Share(Total(ports), threads[s], t)
    ensures threads[s] <= Total(ports) ==> Total(ThreadsOfScan(ports, threads, s)[t].port) >= 1
  {
    var n := threads[s];
    var offsets := Offsets(Total(ports), n);
    OffsetsAscend(Total(ports), n);
    ScanPlanAt(ports, s, offsets, n, t);
    BlockCount(ports, offsets[t], offsets[t + 1], |ports|);
    OffsetStep(Total(ports), n, t);
    if n <= Total(ports) {
      ShareIsPositive(Total(ports), n, t);
    }
  }

  // ----- the whole plan -----

  lemma {:induction false} PlanGrows(ports: seq<bool>, scans: seq<bool>, threads: seq<nat>, j: nat, k: nat)
    requires Served(scans, threads) && j <= k <= TOTAL_TYPE
    ensures PlanBelow(ports, scans, threads, j) <= PlanBelow(ports, scans, threads, k)
    decreases k - j
  {
    if j < k {
      PlanGrows(ports, scans, threads, j, k - 1);
    }
  }

  lemma InPrefix<T>(a: seq<T>, b: seq<T>, c: seq<T>, t: nat)
    requires a + b <= c && t < |b|
    ensures |a| + t < |c| && c[|a| + t] == b[t]
  {
    assert (a + b)[|a| + t] == b[t];
  }

  /** Thread j of the plan is thread t of some asked scan. */
  lemma {:induction false} PlanAt(ports: seq<bool>, scans: seq<bool>, threads: seq<nat>, k: nat, j: nat)
    returns (s: nat, t: nat)
    requires Served(scans, threads) && k <= TOTAL_TYPE && j < |PlanBelow(ports, scans, threads, k)|
    ensures 1 <= s < k && scans[s] && t < threads[s] && j == |PlanBelow(ports, scans, threads, s)| + t
    ensures PlanBelow(ports, scans, threads, k)[j] == BlockInfo(ports, s, Offsets(Total(ports), threads[s]), t)
  {
    var before := PlanBelow(ports, scans, threads, k - 1);
    if j < |before| {
      s, t := PlanAt(ports, scans, threads, k - 1, j);
    } else {
      s, t := k - 1, j - |before|;
      InPrefix(before, ThreadsOfScan(ports, threads, s), PlanBelow(ports, scans, threads, k), t);
      ScanPlanAt(ports, s, Offsets(Total(ports), threads[s]), threads[s], t);
    }
  }

  /** The threads divide the probes: every asked (scan, port) pair belongs to exactly one
      thread, no other pair to any, and every thread makes just one scan. */
  ghost predicate Partition(jobs: seq<Info>, scans: seq<bool>, ports: seq<bool>) {
    && (forall j :: 0 <= j < |jobs| ==> MakesOneScan(jobs[j], scans, ports))
    && (forall s, p :: Asked(scans, ports, s, p) ==> exists j :: 0 <= j < |jobs| && Covers(jobs[j], s, p))
    && (forall i, j, s, p :: 0 <= i < j < |jobs| && Covers(jobs[i], s, p) ==> !Covers(jobs[j], s, p))
  }

  predicate Asked(scans: seq<bool>, ports: seq<bool>, s: int, p: int) {
    1 <= s < TOTAL_TYPE == |scans| && scans[s] && 0 <= p < |ports| && ports[p]
  }

  /** The thread makes one asked scan, of asked ports only. */
  ghost predicate MakesOneScan(job: Info, scans: seq<bool>, ports: seq<bool>) {
    && |job.port| == |ports|
    && (exists s :: 1 <= s < TOTAL_TYPE && job.scan == OnlyScan(s))
    && forall s, p :: Covers(job, s, p) ==> Asked(scans, ports, s, p)
  }

  /** Thread t of an asked scan is in the plan. */
  lemma PlanHolds(ports: seq<bool>, scans: seq<bool>, threads: seq<nat>, k: nat, s: nat, t: nat) returns (j: nat)
    requires Served(scans, threads) && 1 <= s < k <= TOTAL_TYPE && scans[s] && t < threads[s]
    ensures j < |PlanBelow(ports, scans, threads, k)|
    ensures PlanBelow(ports, scans, threads, k)[j] == BlockInfo(ports, s, Offsets(Total(ports), threads[s]), t)
  {
    var before := PlanBelow(ports, scans, threads, s);
    var here := ThreadsOfScan(ports, threads, s);
    PlanGrows(ports, scans, threads, s + 1, k);
    InPrefix(before, here, PlanBelow(ports, scans, threads, k), t);
    j := |before| + t;
    ScanPlanAt(ports, s, Offsets(Total(ports), threads[s]), threads[s], t);
  }

  lemma PlanCovers(ports: seq<bool>, scans: seq<bool>, threads: seq<nat>, s: nat, p: nat) returns (j: nat)
    requires Served(scans, threads) && Asked(scans, ports, s, p)
    ensures j < |PlanBelow(ports, scans, threads, TOTAL_TYPE)|
    ensures Covers(PlanBelow(ports, scans, threads, TOTAL_TYPE)[j], s, p)
  {
    OffsetsAscend(Total(ports), threads[s]);
    var t := BlocksCover(ports, s, Offsets(Total(ports), threads[s]), p);
    j := PlanHolds(ports, scans, threads, TOTAL_TYPE, s, t);
  }

  lemma PlanNeverOverlaps(ports: seq<bool>, scans: seq<bool>, threads: seq<nat>, i: nat, j: nat, s: int, p: int)
    requires Served(scans, threads) && i < j < |PlanBelow(ports, scans, threads, TOTAL_TYPE)|
    requires Covers(PlanBelow(ports, scans, threads, TOTAL_TYPE)[i], s, p)
    ensures !Covers(PlanBelow(ports, scans, threads, TOTAL_TYPE)[j], s, p)
  {
    var a, t := PlanAt(ports, scans, threads, TOTAL_TYPE, i);
    var b, u := PlanAt(ports, scans, threads, TOTAL_TYPE, j);
    if a == b {
      OffsetsAscend(Total(ports), threads[s]);
      var offsets := Offsets(Total(ports), threads[s]);
      assert offsets[t + 1] <= offsets[u];
    }
  }

  lemma PlanMakesOneScan(ports: seq<bool>, scans: seq<bool>, threads: seq<nat>, j: nat)
    requires Served(scans, threads) && j < |PlanBelow(ports, scans, threads, TOTAL_TYPE)|
    ensures MakesOneScan(PlanBelow(ports, scans, threads, TOTAL_TYPE)[j], scans, ports)
  {
    var s, t := PlanAt(ports, scans, threads, TOTAL_TYPE, j);
  }

  /** With at least one thread a scan, the plan divides the probes. */
  lemma PlanIsPartition(ports: seq<bool>, scans: seq<bool>, threads: seq<nat>)
    requires Served(scans, threads)
    ensures Partition(PlanBelow(ports, scans, threads, TOTAL_TYPE), scans, ports)
  {
    var jobs := PlanBelow(ports, scans, threads, TOTAL_TYPE);
    forall j | 0 <= j < |jobs| ensures MakesOneScan(jobs[j], scans, ports) {
      PlanMakesOneScan(ports, scans, threads, j);
    }
    forall s, p | Asked(scans, ports, s, p) ensures exists j :: 0 <= j < |jobs| && Covers(jobs[j], s, p) {
      var j := PlanCovers(ports, scans, threads, s, p);
    }
    forall i, j, s, p | 0 <= i < j < |jobs| && Covers(jobs[i], s, p) ensures !Covers(jobs[j], s, p) {
      PlanNeverOverlaps(ports, scans, threads, i, j, s, p);
    }
  }

  // ----- the number of threads -----

  /** The number of threads of each scan type. */
  function ThreadCounts(scans: seq<bool>, total: nat): (threads: seq<nat>)
    requires |scans| == TOTAL_TYPE
    ensures |threads| == TOTAL_TYPE
    ensures forall s :: 0 <= s < TOTAL_TYPE ==> threads[s] == Dealt(total, scans, 1, TOTAL_TYPE, s)
  {
    seq(TOTAL_TYPE, s => Dealt(total, scans, 1, TOTAL_TYPE, s))
  }

  /** With no fewer threads than scans, every asked scan has a thread. */
  lemma EveryScanIsServed(scans: seq<bool>, total: nat)
    requires |scans| == TOTAL_TYPE && Rank(scans, 1, TOTAL_TYPE) <= total
    ensures Served(scans, ThreadCounts(scans, total))
  {
    forall s | 1 <= s < TOTAL_TYPE && scans[s] ensures Dealt(total, scans, 1, TOTAL_TYPE, s) > 0 {
      RankGrows(scans, 1, s, TOTAL_TYPE);
      ShareIsPositive(total, Rank(scans, 1, TOTAL_TYPE), Rank(scans, 1, s));
    }
  }

  lemma {:induction false} PlanLength(ports: seq<bool>, scans: seq<bool>, total: nat, k: nat)
    requires |scans| == TOTAL_TYPE && 1 <= k <= TOTAL_TYPE && 0 < Rank(scans, 1, TOTAL_TYPE)
    requires Served(scans, ThreadCounts(scans, total))
    ensures |PlanBelow(ports, scans, ThreadCounts(scans, total), k)|
         == ShareSum(total, Rank(scans, 1, TOTAL_TYPE), Rank(scans, 1, k))
  {
    if k > 1 {
      PlanLength(ports, scans, total, k - 1);
      RankGrows(scans, 1, k - 1, TOTAL_TYPE);
    }
  }

  /** The number of threads over all scans is the requested one. */
  lemma PlanHasAllThreads(ports: seq<bool>, scans: seq<bool>, total: nat)
    requires |scans| == TOTAL_TYPE && 0 < Rank(scans, 1, TOTAL_TYPE)
    requires Served(scans, ThreadCounts(scans, total))
    ensures |PlanBelow(ports, scans, ThreadCounts(scans, total), TOTAL_TYPE)| == total
  {
    PlanLength(ports, scans, total, TOTAL_TYPE);
    SharesAddUp(total, Rank(scans, 1, TOTAL_TYPE));
  }

  lemma MultipleBound(total: nat, n: nat, c: nat)
    requires n > 0 && total <= n * c
    ensures total / n + (if total % n == 0 then 0 else 1) <= c
  {
    var q := total / n;
    assert total == q * n + total % n;
    assert (q - c) * n == total - total % n - n * c;
    Multiples(q - c, n);
  }

  /** With no more threads than probes, no scan has more threads than there are ports, so
      every thread has a port. */
  lemma NoIdleThread(ports: seq<bool>, scans: seq<bool>, total: nat, s: nat, t: nat)
    requires |scans| == TOTAL_TYPE && 1 <= s < TOTAL_TYPE && scans[s]
    requires total <= Rank(scans, 1, TOTAL_TYPE) * Total(ports)
    requires t < ThreadCounts(scans, total)[s]
    ensures ThreadCounts(scans, total)[s] <= Total(ports)
    ensures Total(ThreadsOfScan(ports, ThreadCounts(scans, total), s)[t].port) >= 1
  {
    RankGrows(scans, 1, s, TOTAL_TYPE);
    MultipleBound(total, Rank(scans, 1, TOTAL_TYPE), Total(ports));
    BlockSize(ports, ThreadCounts(scans, total), s, t);
  }
}
