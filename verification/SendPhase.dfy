/** send_requests: the sequential loop or the threads (execution/launch.c), and why it does not matter which. */
module SendPhase {
  import opened CTypes
  import opened Counting
  import opened Packet
  import opened Plan
  import opened Probes
  import opened HostList
  import opened Bag
  import opened Options
  import opened Launch
  import opened Execution
  import opened Workers
  import opened Threads

  /** The records handed to the threads. */
  method JobsOf(threads: array<Option<Info>>, ghost plan: seq<Info>) returns (jobs: seq<Info>)
    requires |plan| == threads.Length && Started(threads, plan)
    ensures jobs == plan
  {
    jobs := [];
    var i := 0;
    while i < threads.Length
      invariant 0 <= i <= threads.Length && jobs == plan[..i]
    {
      jobs := jobs + [threads[i].value];
      i := i + 1;
    }
  }

  lemma LaunchedIsSound(net: Net, plan: seq<Info>, scans: seq<bool>, ports: seq<bool>, nodes: seq<Ip>)
    requires |scans| == TOTAL_TYPE && |ports| <= RANGE_PORT && Partition(plan, scans, ports)
    requires Apart(nodes) && net.hosts == AddressesOf(nodes)
    ensures Sound(ThreadEnv(net, ports, plan), scans, ports)
  {
  }

  /** The started threads, up to the joins. */
  method RunThreads(hosts: Hosts, little: bool, src: Address, line: Line, threads: array<Option<Info>>,
                    ghost plan: seq<Info>, ghost scans: seq<bool>, ghost ports: seq<bool>, ghost v: Values)
    requires hosts.Valid() && |scans| == TOTAL_TYPE && |ports| == RANGE_PORT && Launched(threads, plan, scans, ports)
    requires Shows(hosts.nodes, 0, |hosts.nodes|, v)
    modifies line, set n | n in hosts.nodes :: n.state
    ensures Shows(hosts.nodes, 0, |hosts.nodes|, MarkedIn(v, SCAN_ORDER, scans, ports))
    ensures multiset(line.sent) == multiset(old(line.sent))
              + multiset(SequentialTrace(ProberOf(NetOf(little, src, hosts.nodes)), |hosts.nodes|, scans, ports))
  {
    var addresses := HostAddresses(hosts);
    var jobs := JobsOf(threads, plan);
    var net := Net(little, src, addresses);
    LaunchedIsSound(net, plan, scans, ports, hosts.nodes);
    RunJobs(hosts, line, Env(net, RANGE_PORT, jobs), scans, ports, v);
  }

  lemma SequentialIsDone(nodes: seq<Ip>, line: Line, f: Prober, scans: seq<bool>, ports: seq<bool>, v: Values,
                         before: seq<Probe>)
    requires Apart(nodes) && DoneIn(nodes, line, f, SCAN_ORDER, scans, ports, v, before)
    ensures line.sent == before + SequentialTrace(f, |nodes|, scans, ports)
    ensures multiset(line.sent) == multiset(before) + multiset(SequentialTrace(f, |nodes|, scans, ports))
  {
  }

  /** Either runs the scans one after the other, or starts the threads of the plan and waits for
      them: the states recorded are the same, and so are the probes sent, up to their order. */
  method SendRequests(list: Bag, hosts: Hosts, little: bool, src: Address, line: Line, stale: int, ghost v: Values)
    requires Launchable(list) && hosts.Valid()
    requires list.speedup && list.infoScan[UDP] ==> stale == 0
    requires Shows(hosts.nodes, 0, |hosts.nodes|, v)
    modifies line, set n | n in hosts.nodes :: n.state
    ensures Shows(hosts.nodes, 0, |hosts.nodes|, MarkedIn(v, SCAN_ORDER, list.infoScan[..], list.infoPort[..]))
    ensures var trace := SequentialTrace(ProberOf(NetOf(little, src, hosts.nodes)), |hosts.nodes|,
                                         list.infoScan[..], list.infoPort[..]);
            && multiset(line.sent) == multiset(old(line.sent)) + multiset(trace)
            && (!list.speedup ==> line.sent == old(line.sent) + trace)
  {
    ghost var scans, ports := list.infoScan[..], list.infoPort[..];
    ghost var f := ProberOf(NetOf(little, src, hosts.nodes));
    if list.speedup {
      EveryScanIsServed(scans, list.speedupVal);
      var threads, started := LaunchThreadScan(list, stale);
      RunThreads(hosts, little, src, line, threads, PlanOf(ports, scans, list.speedupVal), scans, ports, v);
    } else {
      SendSequentially(list, hosts, little, src, line, f, scans, ports, v);
      SequentialIsDone(hosts.nodes, line, f, scans, ports, v, old(line.sent));
    }
  }

  /** The environment of the started threads. */
  function ThreadEnv(net: Net, ports: seq<bool>, jobs: seq<Info>): Env {
    Env(net, |ports|, jobs)
  }

  lemma PlanIsSound(net: Net, scans: seq<bool>, ports: seq<bool>, total: nat)
    requires |scans| == TOTAL_TYPE && |ports| <= RANGE_PORT && HostsApart(net.hosts)
    requires 0 < Rank(scans, 1, TOTAL_TYPE) <= total
    ensures Sound(ThreadEnv(net, ports, PlanOf(ports, scans, total)), scans, ports)
  {
    EveryScanIsServed(scans, total);
    PlanIsPartition(ports, scans, ThreadCounts(scans, total));
  }

  /** Main result of the send phase: whatever the interleaving of the threads that were
      started, when they have all finished the recorded states and the multiset of sent probes
      are those of the sequential branch of send_requests. */
  lemma ThreadsActSequentially(net: Net, scans: seq<bool>, ports: seq<bool>, total: nat, m: Matrix, schedule: seq<nat>)
    requires |scans| == TOTAL_TYPE && |ports| <= RANGE_PORT && HostsApart(net.hosts)
    requires 0 < Rank(scans, 1, TOTAL_TYPE) <= total
    requires var env := ThreadEnv(net, ports, PlanOf(ports, scans, total));
             FullMatrix(env, m) && Schedules(env, schedule) && AllFinished(env, Run(env, m, schedule))
    ensures var final := Run(ThreadEnv(net, ports, PlanOf(ports, scans, total)), m, schedule);
            && final.sent == multiset(ScanProbes(ProberOf(net), |net.hosts|, SCAN_ORDER, scans, ports))
            && final.matrix.Keys == m.Keys
            && forall c :: c in m ==>
                 final.matrix[c] ==
                   if 1 <= c.scan <= 6 && scans[c.scan] && c.port < |ports| && ports[c.port] then
                     (if c.scan == 2 || c.scan == 3 || c.scan == 4 || c.scan == 6 then 3 else 2)
                   else m[c]
  {
    PlanIsSound(net, scans, ports, total);
    ParallelRefinesSequential(ThreadEnv(net, ports, PlanOf(ports, scans, total)), scans, ports, m, schedule);
  }

  /** The states the sequential branch records are the same function of the initial ones. */
  lemma SequentialStates(v: Values, scans: seq<bool>, ports: seq<bool>, h: nat, s: nat, p: nat)
    requires |scans| == TOTAL_TYPE
    ensures MarkedIn(v, SCAN_ORDER, scans, ports)(h, s, p)
         == if 1 <= s <= 6 && scans[s] && p < |ports| && ports[p] then
              (if s == 2 || s == 3 || s == 4 || s == 6 then 3 else 2)
            else v(h, s, p)
  {
    OrderListsEveryScan(SCAN_ORDER);
    DefaultStates(s);
    assert MarkedIn(v, SCAN_ORDER, scans, ports)(h, s, p)
        == if s in SCAN_ORDER && Asked(scans, ports, s, p) then DefaultState(s) else v(h, s, p);
  }
}
