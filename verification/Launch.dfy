/** launch_thread_scan: handing the probes to the threads (execution/thread_scan.c). */
module Launch {
  import opened CTypes
  import opened Counting
  import opened RoundRobin
  import opened Plan
  import opened Bag
  import opened Options

  lemma {:induction false} RankOfAllOn(n: nat, k: nat)
    requires k <= n
    ensures Rank(AllOn(n), 0, k) == k
  {
    if k > 0 {
      RankOfAllOn(n, k - 1);
    }
  }

  /** The flags of the ports from position `from` up to `to`. */
  ghost predicate TakesBetween(port: seq<bool>, on: seq<bool>, from: nat, to: nat) {
    |port| == |on| && forall p :: 0 <= p < |on| ==> (port[p] <==> on[p] && from <= p < to)
  }

  lemma TakesBlock(port: seq<bool>, on: seq<bool>, from: nat, to: nat)
    requires from <= to <= |on| && TakesBetween(port, on, from, to)
    ensures port == Block(on, Rank(on, 0, from), Rank(on, 0, to))
  {
    var block := Block(on, Rank(on, 0, from), Rank(on, 0, to));
    forall p | 0 <= p < |on| ensures port[p] == block[p] {
      RankGrows(on, 0, if p < from then p else from, if p < from then from else p);
      RankGrows(on, 0, if p < to then p else to, if p < to then to else p);
    }
  }

  /** Takes the next `count` asked ports from position iport on. */
  method TakePortsFrom(infoPort: seq<bool>, iport: nat, count: nat) returns (port: seq<bool>, next: nat)
    requires iport <= |infoPort|
    requires Rank(infoPort, 0, iport) + count <= Total(infoPort)
    ensures iport <= next <= |infoPort|
    ensures Rank(infoPort, 0, next) == Rank(infoPort, 0, iport) + count
    ensures TakesBetween(port, infoPort, iport, next)
  {
    var flags := new bool[|infoPort|](_ => false);
    next := iport;
    var totalToSend: int := count;
    while next < |infoPort| && totalToSend > 0
      invariant iport <= next <= |infoPort| && 0 <= totalToSend
      invariant Rank(infoPort, 0, next) + totalToSend == Rank(infoPort, 0, iport) + count
      invariant forall p :: iport <= p < next ==> flags[p] == infoPort[p]
      invariant forall p :: 0 <= p < iport || next <= p < |infoPort| ==> !flags[p]
    {
      if infoPort[next] {
        flags[next] := true;
        totalToSend := totalToSend - 1;
      }
      next := next + 1;
    }
    port := flags[..];
  }

  /** The flags of a thread that makes scan type s alone. */
  method FlagScan(s: nat) returns (flags: seq<bool>)
    requires 1 <= s < TOTAL_TYPE
    ensures flags == OnlyScan(s)
  {
    var scan := new bool[TOTAL_TYPE](_ => false);
    var i := 1;
    while i < TOTAL_TYPE
      invariant 1 <= i <= TOTAL_TYPE
      invariant forall k :: 0 <= k < TOTAL_TYPE ==> !scan[k]
    {
      scan[i] := false;
      i := i + 1;
    }
    scan[s] := true;
    flags := scan[..];
  }

  /** The entries of the thread table are the threads of the plan, in order, as far as it has room. */
  ghost predicate Started(threads: array<Option<Info>>, plan: seq<Info>)
    reads threads
  {
    forall j :: 0 <= j < |plan| && j < threads.Length ==> threads[j] == Some(plan[j])
  }

  /** The block sizes that go with the given block ends. */
  ghost predicate SizesOf(sizes: seq<nat>, offsets: seq<nat>) {
    && |offsets| == |sizes| + 1
    && forall t {:trigger sizes[t]} :: 0 <= t < |sizes| ==> offsets[t] + sizes[t] == offsets[t + 1]
  }

  /** How many ports each of the n threads of a scan gets. */
  method SharePorts(countPorts: nat, n: nat) returns (threadsNbr: seq<nat>)
    requires n > 0
    ensures |threadsNbr| == n && SizesOf(threadsNbr, Offsets(countPorts, n))
  {
    var nbr := new int[n];
    RankOfAllOn(n, n);
    FtSetter(countPorts, nbr, 0, n, None);
    forall t | 0 <= t < n
      ensures nbr[t] == Share(countPorts, n, t)
      ensures Offsets(countPorts, n)[t] + Share(countPorts, n, t) == Offsets(countPorts, n)[t + 1]
    {
      RankOfAllOn(n, t);
      OffsetStep(countPorts, n, t);
    }
    threadsNbr := nbr[..];
  }

  /** Stores a started thread in the next entry of the table; a store behind the table, which
      C leaves undefined, is not made. */
  method RecordThread(threads: array<Option<Info>>, threadId: nat, info: Info, ghost plan: seq<Info>)
    requires Started(threads, plan) && threadId == |plan|
    modifies threads
    ensures Started(threads, plan + [info])
  {
    if threadId < threads.Length {
      threads[threadId] := Some(info);
    }
  }

  /** Builds thread t of scan type s; its ports are the next `count` asked ones. */
  method StartThread(infoPort: seq<bool>, s: nat, iport: nat, count: nat, ghost offsets: seq<nat>, ghost t: nat)
    returns (info: Info, next: nat)
    requires 1 <= s < TOTAL_TYPE && iport <= |infoPort|
    requires t + 1 < |offsets| && offsets[t + 1] == offsets[t] + count <= Total(infoPort)
    requires Rank(infoPort, 0, iport) == offsets[t]
    ensures next <= |infoPort| && Rank(infoPort, 0, next) == offsets[t + 1]
    ensures info == BlockInfo(infoPort, s, offsets, t)
  {
    var scan := FlagScan(s);
    var port;
    port, next := TakePortsFrom(infoPort, iport, count);
    TakesBlock(port, infoPort, iport, next);
    info := Info(port, scan);
  }

  /** The threads of one scan type: consecutive blocks of ports, one a thread. */
  method LaunchScan(infoPort: seq<bool>, countPorts: nat, s: nat, n: nat, threads: array<Option<Info>>, threadId: nat,
                    ghost plan: seq<Info>)
    returns (next: nat)
    requires 1 <= s < TOTAL_TYPE && n > 0 && countPorts == Total(infoPort)
    requires Started(threads, plan) && threadId == |plan|
    modifies threads
    ensures next == threadId + n
    ensures Started(threads, plan + ScanPlan(infoPort, s, Offsets(Total(infoPort), n), n))
  {
    ghost var offsets := Offsets(countPorts, n);
    OffsetsAscend(countPorts, n);
    var threadsNbr := SharePorts(countPorts, n);
    var iport: nat := 0;
    next := threadId;
    ghost var started := plan;
    var launched := 0;
    while launched < n
      invariant 0 <= launched <= n && next == threadId + launched == |started|
      invariant iport <= |infoPort| && Rank(infoPort, 0, iport) == offsets[launched]
      invariant started == plan + ScanPlan(infoPort, s, offsets, launched)
      invariant Started(threads, started)
    {
      var info;
      info, iport := StartThread(infoPort, s, iport, threadsNbr[launched], offsets, launched);
      RecordThread(threads, next, info, started);
      started := started + [info];
      next := next + 1;
      launched := launched + 1;
    }
  }

  /** What slot s of the per-scan counts holds after the deal, when the last slot held
      `stale` before: ft_setter clears slots 0 to 5 only. */
  function SlotAfterDeal(scans: seq<bool>, total: nat, stale: int, s: nat): int
    requires |scans| == TOTAL_TYPE && s < TOTAL_TYPE
  {
    Dealt(total, scans, 1, TOTAL_TYPE, s) + if s == TOTAL_TYPE - 1 then stale else 0
  }

  /** The threads that are started for the scan types below k. */
  function StartedBelow(scans: seq<bool>, total: nat, stale: int, k: nat): int
    requires |scans| == TOTAL_TYPE && k <= TOTAL_TYPE
  {
    if k <= 1 then 0
    else
      StartedBelow(scans, total, stale, k - 1)
      + if scans[k - 1] then SlotAfterDeal(scans, total, stale, k - 1) else 0
  }

  lemma {:induction false} StartedBelowIs(scans: seq<bool>, total: nat, stale: int, k: nat)
    requires |scans| == TOTAL_TYPE && 1 <= k <= TOTAL_TYPE && 0 < Rank(scans, 1, TOTAL_TYPE)
    ensures StartedBelow(scans, total, stale, k)
         == ShareSum(total, Rank(scans, 1, TOTAL_TYPE), Rank(scans, 1, k))
            + if k == TOTAL_TYPE && scans[UDP] then stale else 0
  {
    if k > 1 {
      StartedBelowIs(scans, total, stale, k - 1);
      RankGrows(scans, 1, k - 1, TOTAL_TYPE);
    }
  }

  /** A leftover in the uncleared slot starts as many threads more, or fewer, if UDP is asked. */
  lemma StartedInAll(scans: seq<bool>, total: nat, stale: int)
    requires |scans| == TOTAL_TYPE && 0 < Rank(scans, 1, TOTAL_TYPE)
    ensures StartedBelow(scans, total, stale, TOTAL_TYPE) == total + if scans[UDP] then stale else 0
  {
    StartedBelowIs(scans, total, stale, TOTAL_TYPE);
    SharesAddUp(total, Rank(scans, 1, TOTAL_TYPE));
  }

  /** An input that overruns the table: UDP alone, one thread asked for, and 1 left in the slot. */
  lemma LeftoverStartsTwoForOne()
    ensures var scans := OnlyScan(UDP);
            Rank(scans, 1, TOTAL_TYPE) == 1 && StartedBelow(scans, 1, 1, TOTAL_TYPE) == 2
  {
    var scans := OnlyScan(UDP);
    NoneSet(scans, 1, UDP);
    assert Rank(scans, 1, TOTAL_TYPE) == Rank(scans, 1, UDP) + 1;
    StartedInAll(scans, 1, 1);
  }

  lemma {:induction false} NoneSet(on: seq<bool>, start: nat, k: nat)
    requires start <= k <= |on| && forall j :: start <= j < k ==> !on[j]
    ensures Rank(on, start, k) == 0
  {
    if start < k {
      NoneSet(on, start, k - 1);
    }
  }

  /** The thread counts of the asked scans after the deal. */
  function SlotCounts(scans: seq<bool>, total: nat, stale: int): (counts: seq<nat>)
    requires |scans| == TOTAL_TYPE && (scans[UDP] ==> SlotAfterDeal(scans, total, stale, UDP) >= 0)
    ensures |counts| == TOTAL_TYPE
    ensures forall s :: 0 <= s < TOTAL_TYPE ==>
              counts[s] == if scans[s] then SlotAfterDeal(scans, total, stale, s) else 0
  {
    seq(TOTAL_TYPE, s requires 0 <= s < TOTAL_TYPE => if scans[s] then SlotAfterDeal(scans, total, stale, s) else 0)
  }

  lemma {:induction false} StartedIsPlanned(ports: seq<bool>, scans: seq<bool>, total: nat, stale: int,
                                            counts: seq<nat>, k: nat)
    requires |scans| == TOTAL_TYPE && k <= TOTAL_TYPE && (scans[UDP] ==> SlotAfterDeal(scans, total, stale, UDP) >= 0)
    requires counts == SlotCounts(scans, total, stale) && Served(scans, counts)
    ensures |PlanBelow(ports, scans, counts, k)| == StartedBelow(scans, total, stale, k)
  {
    if k > 1 {
      StartedIsPlanned(ports, scans, total, stale, counts, k - 1);
    }
  }

  /** The plan that is launched. */
  ghost function PlanOf(ports: seq<bool>, scans: seq<bool>, total: nat): seq<Info>
    requires |scans| == TOTAL_TYPE && Rank(scans, 1, TOTAL_TYPE) <= total
  {
    EveryScanIsServed(scans, total);
    PlanBelow(ports, scans, ThreadCounts(scans, total), TOTAL_TYPE)
  }

  /** ft_setter applied to the scan types. */
  method ShareThreads(list: Bag, stale: int) returns (setter: array<int>)
    requires list.Sized() && list.speedupVal >= 0
    requires list.speedupVal > 0 ==> Rank(list.infoScan[..], 1, TOTAL_TYPE) > 0
    ensures fresh(setter) && setter.Length == TOTAL_TYPE
    ensures forall s :: 0 <= s < TOTAL_TYPE ==>
              setter[s] == SlotAfterDeal(list.infoScan[..], list.speedupVal, stale, s)
  {
    setter := new int[TOTAL_TYPE];
    setter[TOTAL_TYPE - 1] := stale;
    FtSetter(list.speedupVal, setter, 1, TOTAL_TYPE, Some(list.infoScan[..]));
  }

  lemma OneScanOfPlan(ports: seq<bool>, scans: seq<bool>, counts: seq<nat>, s: nat)
    requires Served(scans, counts) && 1 <= s < TOTAL_TYPE
    ensures PlanBelow(ports, scans, counts, s + 1)
         == PlanBelow(ports, scans, counts, s) + if scans[s] then ThreadsOfScan(ports, counts, s) else []
  {
  }

  /** The loop over the scan types, for given thread counts. */
  method LaunchScans(infoPort: seq<bool>, infoScan: seq<bool>, countPorts: nat, setter: seq<int>,
                     threads: array<Option<Info>>, ghost counts: seq<nat>)
    returns (threadId: nat)
    requires countPorts == Total(infoPort) && Served(infoScan, counts) && |setter| == TOTAL_TYPE
    requires forall s :: 0 <= s < TOTAL_TYPE && infoScan[s] ==> setter[s] == counts[s]
    modifies threads
    ensures threadId == |PlanBelow(infoPort, infoScan, counts, TOTAL_TYPE)|
    ensures Started(threads, PlanBelow(infoPort, infoScan, counts, TOTAL_TYPE))
  {
    ghost var plan: seq<Info> := [];
    threadId := 0;
    var scan: nat := 1;
    while scan < TOTAL_TYPE
      invariant 1 <= scan <= TOTAL_TYPE
      invariant plan == PlanBelow(infoPort, infoScan, counts, scan)
      invariant threadId == |plan| && Started(threads, plan)
    {
      OneScanOfPlan(infoPort, infoScan, counts, scan);
      if infoScan[scan] {
        threadId := LaunchScan(infoPort, countPorts, scan, setter[scan], threads, threadId, plan);
        plan := plan + ThreadsOfScan(infoPort, counts, scan);
      }
      scan := scan + 1;
    }
  }

  /** What the launched plan guarantees: it divides the asked probes among the threads, and
      no thread is idle. */
  lemma PlanOfIsSound(ports: seq<bool>, scans: seq<bool>, total: nat)
    requires |scans| == TOTAL_TYPE && 0 < Rank(scans, 1, TOTAL_TYPE) <= total
    requires total <= Rank(scans, 1, TOTAL_TYPE) * Total(ports)
    ensures |PlanOf(ports, scans, total)| == total
    ensures Partition(PlanOf(ports, scans, total), scans, ports)
    ensures forall j :: 0 <= j < total ==> Total(PlanOf(ports, scans, total)[j].port) >= 1
  {
    var counts := ThreadCounts(scans, total);
    var plan := PlanOf(ports, scans, total);
    EveryScanIsServed(scans, total);
    PlanHasAllThreads(ports, scans, total);
    PlanIsPartition(ports, scans, counts);
    forall j | 0 <= j < total ensures Total(plan[j].port) >= 1 {
      var s, t := PlanAt(ports, scans, counts, TOTAL_TYPE, j);
      ScanPlanAt(ports, s, Offsets(Total(ports), counts[s]), counts[s], t);
      NoIdleThread(ports, scans, total, s, t);
    }
  }

  /** The launched table: it is full, its threads divide the asked probes, and none is idle. */
  ghost predicate Launched(threads: array<Option<Info>>, plan: seq<Info>, scans: seq<bool>, ports: seq<bool>)
    reads threads
  {
    && |plan| == threads.Length && Started(threads, plan) && Partition(plan, scans, ports)
    && forall j :: 0 <= j < |plan| ==> Total(plan[j].port) >= 1
  }

  lemma SlotsServeEveryScan(scans: seq<bool>, total: nat, stale: int)
    requires |scans| == TOTAL_TYPE && Rank(scans, 1, TOTAL_TYPE) <= total
    requires scans[UDP] ==> SlotAfterDeal(scans, total, stale, UDP) >= 1
    ensures Served(scans, SlotCounts(scans, total, stale))
    ensures (scans[UDP] ==> stale == 0) ==> SlotCounts(scans, total, stale) == ThreadCounts(scans, total)
  {
    EveryScanIsServed(scans, total);
  }

  /** Starts the threads of every asked scan. `stale` is what the uncleared slot held, and
      `started` the number of threads: exactly if the slot does not matter or held 0, the table,
      which has one entry a requested thread, is neither overrun nor left with empty entries; its
      threads then divide the asked probes and none is idle. */
  method LaunchThreadScan(list: Bag, stale: int) returns (threads: array<Option<Info>>, started: nat)
    requires Launchable(list) && list.speedup
    requires list.infoScan[UDP] ==> SlotAfterDeal(list.infoScan[..], list.speedupVal, stale, UDP) >= 1
    ensures fresh(threads) && threads.Length == list.speedupVal
    ensures started == threads.Length + if list.infoScan[UDP] then stale else 0
    ensures started == threads.Length ==>
              Launched(threads, PlanOf(list.infoPort[..], list.infoScan[..], list.speedupVal),
                       list.infoScan[..], list.infoPort[..])
  {
    ghost var scans, ports, total := list.infoScan[..], list.infoPort[..], list.speedupVal;
    threads := new Option<Info>[list.speedupVal](_ => None);
    var setter := ShareThreads(list, stale);
    SlotsServeEveryScan(scans, total, stale);
    ghost var counts := SlotCounts(scans, total, stale);
    StartedIsPlanned(ports, scans, total, stale, counts, TOTAL_TYPE);
    StartedInAll(scans, total, stale);
    started := LaunchScans(list.infoPort[..], list.infoScan[..], list.countPorts, setter[..], threads, counts);
    if started == threads.Length {
      PlanOfIsSound(ports, scans, total);
    }
  }
}
