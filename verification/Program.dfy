/** The whole run (program/ft_nmap.c): options, hosts, send phase, answers. */
module Program {
  import opened CTypes
  import opened Counting
  import opened Packet
  import opened Probes
  import opened Targets
  import opened HostList
  import opened Bag
  import opened Options
  import opened Launch
  import opened Execution
  import opened Workers
  import opened Threads
  import opened SendPhase
  import opened Receive

  /** The zeroed global state is where the option parser may start. */
  method NewList() returns (list: Bag)
    ensures fresh(list) && fresh(list.infoPort) && fresh(list.infoScan) && fresh(list.tabPortsIndiv)
    ensures OptionsKept(list) && Tracks(list, NOTHING)
  {
    list := new Bag();
  }

  const ZERO: Values := (h: nat, s: nat, p: nat) => 0

  lemma ZeroedShows(nodes: seq<Ip>)
    requires Apart(nodes) && forall i :: 0 <= i < |nodes| ==> Zeroed(nodes[i])
    ensures Shows(nodes, 0, |nodes|, ZERO)
  {
    forall h: nat | h < |nodes| ensures ShowsHost(nodes[h], h, ZERO) {
      assert Zeroed(nodes[h]);
    }
  }

  /** The outcome of a run over some addresses: a host for each, the probes of the asked cells
      (in the sequential order if there are no threads), and the answers of the trace folded over
      the default states. */
  ghost predicate Scanned(list: Bag, hosts: Hosts, line: Line, addresses: seq<Address>, little: bool,
                          src: Address, trace: seq<Captured>)
    reads list`speedup, list.infoScan, list.infoPort, line, hosts, hosts.nodes, set n | n in hosts.nodes :: n.state
  {
    var scans, ports := list.infoScan[..], list.infoPort[..];
    var probes := SequentialTrace(ProberOf(Net(little, src, addresses)), |addresses|, scans, ports);
    && hosts.Valid() && AddressesOf(hosts.nodes) == addresses
    && multiset(line.sent) == multiset(probes) && (!list.speedup ==> line.sent == probes)
    && Shows(hosts.nodes, 0, |hosts.nodes|, AfterTrace(MarkedIn(ZERO, SCAN_ORDER, scans, ports), addresses, trace))
  }

  /** The two phases of main: all probes are sent, then the answers are dispatched. */
  method SendAndReceive(list: Bag, hosts: Hosts, little: bool, src: Address, line: Line, stale: int,
                        trace: seq<Captured>)
    requires Launchable(list) && hosts.Valid() && (list.speedup && list.infoScan[UDP] ==> stale == 0)
    requires forall k :: 0 <= k < |trace| ==> Deliverable(AddressesOf(hosts.nodes), trace[k])
    requires line.sent == [] && Shows(hosts.nodes, 0, |hosts.nodes|, ZERO)
    modifies line, set n | n in hosts.nodes :: n.state
    ensures Scanned(list, hosts, line, AddressesOf(hosts.nodes), little, src, trace)
  {
    ghost var scans, ports := list.infoScan[..], list.infoPort[..];
    SendRequests(list, hosts, little, src, line, stale, ZERO);
    assert line.sent == [] + line.sent;
    Dispatch(hosts, trace, MarkedIn(ZERO, SCAN_ORDER, scans, ports));
  }

  /** From the texts of the addresses on, duplicates dropped. */
  method ScanHosts(list: Bag, texts: seq<string>, little: bool, src: Address, stale: int, trace: seq<Captured>,
                   ghost ips: seq<Address>)
    returns (outcome: Outcome, hosts: Hosts, line: Line)
    requires Launchable(list) && texts == Dotted(ips) && (list.speedup && list.infoScan[UDP] ==> stale == 0)
    requires forall k :: 0 <= k < |trace| ==> Deliverable(Dedup(ips), trace[k])
    ensures outcome == Exit <==> |ips| > 42
    ensures outcome == Continue ==> Scanned(list, hosts, line, Dedup(ips), little, src, trace)
  {
    hosts := new Hosts();
    line := new Line();
    outcome := hosts.AddIpNodes(texts, ips);
    if outcome == Exit {
      return;
    }
    ZeroedShows(hosts.nodes);
    SendAndReceive(list, hosts, little, src, line, stale, trace);
  }

  /** The addresses that a command line names, without duplicates. */
  ghost function Addresses(r: Request): seq<Address> {
    if r.hosts.NoHosts? then [] else Dedup(r.hosts.addresses)
  }

  ghost predicate FewEnough(r: Request) {
    !r.hosts.NoHosts? && |r.hosts.addresses| <= 42
  }

  method ParseArguments(av: seq<string>, world: World, ghost r: Request) returns (outcome: Outcome, list: Bag)
    requires |av| >= 1 && ArgumentsFit(av, world)
    requires |av| >= 2 ==> r == Requested(Words(av), world)
    ensures outcome == Continue <==> CommandLine(av, world)
    ensures outcome == Continue ==> Leaves(list, r) && !r.hosts.NoHosts?
    ensures fresh(list)
  {
    list := NewList();
    outcome := FtParsing(list, av, world);
  }

  /** A run from the command line: it scans exactly for the command lines of FtParsing with at most
      42 targets, and then exactly the hosts, ports and scans that are asked for, with or without
      threads. Here r is what the words ask for. */
  method FtNmap(av: seq<string>, world: World, little: bool, src: Address, stale: int, trace: seq<Captured>,
                ghost r: Request)
    returns (outcome: Outcome, list: Bag, hosts: Hosts?, line: Line?)
    requires |av| >= 1 && ArgumentsFit(av, world)
    requires |av| >= 2 ==> r == Requested(Words(av), world)
    requires r.threads.Some? && ScanToMake(r.scans, UDP) ==> stale == 0
    requires forall k :: 0 <= k < |trace| ==> Deliverable(Addresses(r), trace[k])
    ensures outcome == Continue <==> CommandLine(av, world) && FewEnough(r)
    ensures outcome == Continue ==>
              && Leaves(list, r) && hosts != null && line != null
              && Scanned(list, hosts, line, Addresses(r), little, src, trace)
  {
    hosts, line := null, null;
    outcome, list := ParseArguments(av, world, r);
    if outcome == Continue {
      outcome, hosts, line := ScanHosts(list, list.ipStr.value, little, src, stale, trace, r.hosts.addresses);
    }
  }

  lemma {:induction false} TraceIsPointwise(v: Values, u: Values, hosts: seq<Address>, trace: seq<Captured>,
                                            h: nat, s: nat, p: nat)
    requires v(h, s, p) == u(h, s, p)
    ensures AfterTrace(v, hosts, trace)(h, s, p) == AfterTrace(u, hosts, trace)(h, s, p)
  {
    if trace != [] {
      TraceIsPointwise(v, u, hosts, trace[..|trace| - 1], h, s, p);
    }
  }

  /** A run with threads ends as the run without: for every plan, every interleaving that runs
      to completion and every trace of answers, each cell ends with the same state. */
  lemma ThreadsDoNotMatter(net: Net, scans: seq<bool>, ports: seq<bool>, total: nat, m: Matrix, schedule: seq<nat>,
                           trace: seq<Captured>, c: Cell)
    requires |scans| == TOTAL_TYPE && |ports| <= RANGE_PORT && HostsApart(net.hosts)
    requires 0 < Rank(scans, 1, TOTAL_TYPE) <= total
    requires var env := ThreadEnv(net, ports, PlanOf(ports, scans, total));
             FullMatrix(env, m) && Schedules(env, schedule) && AllFinished(env, Run(env, m, schedule))
    requires c in m
    ensures var final := Run(ThreadEnv(net, ports, PlanOf(ports, scans, total)), m, schedule).matrix;
            var sequential := MarkedIn(ValuesOf(m), SCAN_ORDER, scans, ports);
            (AfterTrace(ValuesOf(final), net.hosts, trace)(c.host, c.scan, c.port)
             == AfterTrace(sequential, net.hosts, trace)(c.host, c.scan, c.port))
  {
    var final := Run(ThreadEnv(net, ports, PlanOf(ports, scans, total)), m, schedule).matrix;
    ThreadsActSequentially(net, scans, ports, total, m, schedule);
    SequentialStates(ValuesOf(m), scans, ports, c.host, c.scan, c.port);
    assert Cell(c.host, c.scan, c.port) == c;
    TraceIsPointwise(ValuesOf(final), MarkedIn(ValuesOf(m), SCAN_ORDER, scans, ports), net.hosts, trace,
                     c.host, c.scan, c.port);
  }
}
