/** What the send phase sends and records: the sequential reference. */
module Probes {
  import opened CTypes
  import opened Packet
  import opened Plan

  const CLOSED: int := 0
  const OPEN: int := 1
  const FILTERED: int := 2
  const OPENFILTERED: int := 3
  const UNFILTERED: int := 4

  /** Scans whose silence may also mean an open port. */
  predicate OpensOnSilence(scan: int) {
    scan == FIN || scan == NUL || scan == XMAS || scan == UDP
  }

  /** The state recorded when a probe is sent. */
  function DefaultState(scan: int): int {
    if OpensOnSilence(scan) then OPENFILTERED else FILTERED
  }

  /** FIN, NULL, XMAS and UDP probes leave Open or Filtered, SYN and ACK probes Filtered. */
  lemma DefaultStates(scan: int)
    ensures DefaultState(scan) == if scan == 2 || scan == 3 || scan == 4 || scan == 6 then 3 else 2
  {
  }

  /** A sent packet, with the cell it is for. */
  datatype Probe = Probe(dst: Address, scan: nat, port: nat, bytes: seq<byte>)

  /** The probe of (host number, scan, port). */
  type Prober = (nat, nat, nat) -> Probe

  /** Every probe is labelled with its cell. */
  ghost predicate Labels(f: Prober, hosts: seq<Address>) {
    forall h: nat, s: nat, p: nat :: h < |hosts| ==>
      f(h, s, p).dst == hosts[h] && f(h, s, p).scan == s && f(h, s, p).port == p
  }

  /** The probes of one scan to host h, ports below k in ascending order. */
  function PortProbes(f: Prober, h: nat, scan: nat, ports: seq<bool>, k: nat): seq<Probe>
    requires k <= |ports|
  {
    if k == 0 then []
    else PortProbes(f, h, scan, ports, k - 1) + if ports[k - 1] then [f(h, scan, k - 1)] else []
  }

  /** The probes of one scan to the first n hosts, host after host. */
  function HostProbes(f: Prober, scan: nat, ports: seq<bool>, n: nat): seq<Probe> {
    if n == 0 then [] else HostProbes(f, scan, ports, n - 1) + PortProbes(f, n - 1, scan, ports, |ports|)
  }

  /** The probes of the asked scans of a list to n hosts, scan after scan. */
  function ScanProbes(f: Prober, n: nat, order: seq<nat>, scans: seq<bool>, ports: seq<bool>): seq<Probe> {
    if order == [] then []
    else
      var s := order[|order| - 1];
      ScanProbes(f, n, order[..|order| - 1], scans, ports)
      + if s < |scans| && scans[s] then HostProbes(f, s, ports, n) else []
  }

  /** The order of send_requests. */
  const SCAN_ORDER: seq<nat> := [NUL, SYN, ACK, FIN, XMAS, UDP]

  function SequentialTrace(f: Prober, n: nat, scans: seq<bool>, ports: seq<bool>): seq<Probe> {
    ScanProbes(f, n, SCAN_ORDER, scans, ports)
  }

  /** The scans in the order of their calls: NULL, SYN, ACK, FIN, XMAS, UDP. */
  lemma SequentialOrder(f: Prober, n: nat, scans: seq<bool>, ports: seq<bool>)
    requires |scans| == 7
    ensures SequentialTrace(f, n, scans, ports)
         == ScanPart(f, n, 2, scans, ports) + ScanPart(f, n, 1, scans, ports) + ScanPart(f, n, 5, scans, ports)
            + ScanPart(f, n, 3, scans, ports) + ScanPart(f, n, 4, scans, ports) + ScanPart(f, n, 6, scans, ports)
  {
    LastPart(f, n, [2, 1, 5, 3, 4], 6, scans, ports, SCAN_ORDER);
    LastPart(f, n, [2, 1, 5, 3], 4, scans, ports, [2, 1, 5, 3, 4]);
    LastPart(f, n, [2, 1, 5], 3, scans, ports, [2, 1, 5, 3]);
    LastPart(f, n, [2, 1], 5, scans, ports, [2, 1, 5]);
    LastPart(f, n, [2], 1, scans, ports, [2, 1]);
    LastPart(f, n, [], 2, scans, ports, [2]);
    assert [] + ScanPart(f, n, 2, scans, ports) == ScanPart(f, n, 2, scans, ports);
  }

  /** The probes of one scan, if it is asked. */
  function ScanPart(f: Prober, n: nat, scan: nat, scans: seq<bool>, ports: seq<bool>): seq<Probe> {
    if scan < |scans| && scans[scan] then HostProbes(f, scan, ports, n) else []
  }

  lemma LastPart(f: Prober, n: nat, order: seq<nat>, last: nat, scans: seq<bool>, ports: seq<bool>, all: seq<nat>)
    requires all == order + [last]
    ensures ScanProbes(f, n, all, scans, ports)
         == ScanProbes(f, n, order, scans, ports) + ScanPart(f, n, last, scans, ports)
  {
    assert all[..|all| - 1] == order;
  }

  ghost predicate AscendBelow(probes: seq<Probe>, k: nat) {
    && (forall i :: 0 <= i < |probes| ==> probes[i].port < k)
    && forall i, j :: 0 <= i < j < |probes| ==> probes[i].port < probes[j].port
  }

  lemma OneProbeMore(probes: seq<Probe>, x: Probe, k: nat)
    requires AscendBelow(probes, k) && x.port == k
    ensures AscendBelow(probes + [x], k + 1)
  {
  }

  /** The ports of a host are probed in ascending order. */
  lemma {:induction false} PortsAscend(f: Prober, hosts: seq<Address>, h: nat, scan: nat, ports: seq<bool>, k: nat)
    requires k <= |ports| && h < |hosts| && Labels(f, hosts)
    ensures AscendBelow(PortProbes(f, h, scan, ports, k), k)
  {
    if k > 0 {
      PortsAscend(f, hosts, h, scan, ports, k - 1);
      var before := PortProbes(f, h, scan, ports, k - 1);
      if ports[k - 1] {
        OneProbeMore(before, f(h, scan, k - 1), k - 1);
      } else {
        assert before + [] == before;
      }
    }
  }

  // ----- each asked probe is sent exactly once, and nothing else -----

  /** x is the probe of some asked cell of the first n hosts. */
  ghost predicate IsAskedProbe(f: Prober, n: nat, scans: seq<bool>, ports: seq<bool>, x: Probe) {
    Asked(scans, ports, x.scan, x.port) && AmongHosts(f, x.scan, n, x)
  }

  /** How often x occurs. */
  function Times(trace: seq<Probe>, x: Probe): nat {
    if trace == [] then 0 else Times(trace[..|trace| - 1], x) + if trace[|trace| - 1] == x then 1 else 0
  }

  lemma {:induction false} TimesConcat(a: seq<Probe>, b: seq<Probe>, x: Probe)
    ensures Times(a + b, x) == Times(a, x) + Times(b, x)
  {
    if b == [] {
      assert a + b == a;
    } else {
      assert (a + b)[..|a + b| - 1] == a + b[..|b| - 1];
      TimesConcat(a, b[..|b| - 1], x);
    }
  }

  lemma TimesOne(y: Probe, x: Probe)
    ensures Times([y], x) == if y == x then 1 else 0
  {
    assert [y][..0] == [];
  }

  lemma {:induction false} TimesIsMultiplicity(trace: seq<Probe>, x: Probe)
    ensures multiset(trace)[x] == Times(trace, x)
  {
    if trace != [] {
      var t := trace[..|trace| - 1];
      TimesIsMultiplicity(t, x);
      assert trace == t + [trace[|trace| - 1]];
    }
  }

  lemma {:induction false} PortProbesCount(f: Prober, hosts: seq<Address>, h: nat, scan: nat, ports: seq<bool>,
                                          k: nat, x: Probe)
    requires k <= |ports| && h < |hosts| && Labels(f, hosts)
    ensures Times(PortProbes(f, h, scan, ports, k), x)
         == if x.port < k && ports[x.port] && x == f(h, scan, x.port) then 1 else 0
  {
    if k > 0 {
      PortProbesCount(f, hosts, h, scan, ports, k - 1, x);
      var before := PortProbes(f, h, scan, ports, k - 1);
      if ports[k - 1] {
        TimesConcat(before, [f(h, scan, k - 1)], x);
        TimesOne(f(h, scan, k - 1), x);
      } else {
        assert before + [] == before;
      }
    }
  }

  /** x is the probe of one of the first n hosts. */
  ghost predicate AmongHosts(f: Prober, scan: nat, n: nat, x: Probe) {
    exists h: nat :: h < n && x == f(h, scan, x.port)
  }

  /** Different hosts get different probes. */
  lemma OneHostMore(f: Prober, hosts: seq<Address>, scan: nat, n: nat, x: Probe)
    requires 0 < n <= |hosts| && HostsApart(hosts) && Labels(f, hosts)
    ensures AmongHosts(f, scan, n, x) <==> AmongHosts(f, scan, n - 1, x) || x == f(n - 1, scan, x.port)
    ensures AmongHosts(f, scan, n - 1, x) ==> x != f(n - 1, scan, x.port)
  {
    if AmongHosts(f, scan, n - 1, x) {
      var h: nat :| h < n - 1 && x == f(h, scan, x.port);
      assert x.dst == hosts[h] != hosts[n - 1];
    }
  }

  lemma {:induction false} HostProbesCount(f: Prober, hosts: seq<Address>, scan: nat, ports: seq<bool>,
                                          n: nat, x: Probe)
    requires n <= |hosts| && HostsApart(hosts) && Labels(f, hosts)
    ensures Times(HostProbes(f, scan, ports, n), x)
         == if x.port < |ports| && ports[x.port] && AmongHosts(f, scan, n, x) then 1 else 0
  {
    if n > 0 {
      HostProbesCount(f, hosts, scan, ports, n - 1, x);
      PortProbesCount(f, hosts, n - 1, scan, ports, |ports|, x);
      OneHostMore(f, hosts, scan, n, x);
      TimesConcat(HostProbes(f, scan, ports, n - 1), PortProbes(f, n - 1, scan, ports, |ports|), x);
    }
  }

  lemma {:induction false} ScanProbesCount(f: Prober, hosts: seq<Address>, order: seq<nat>, scans: seq<bool>,
                                          ports: seq<bool>, x: Probe)
    requires |scans| == TOTAL_TYPE && HostsApart(hosts) && Labels(f, hosts)
    requires forall k :: 0 <= k < |order| ==> 1 <= order[k] < TOTAL_TYPE
    requires forall j, k :: 0 <= j < k < |order| ==> order[j] != order[k]
    ensures Times(ScanProbes(f, |hosts|, order, scans, ports), x)
         == if x.scan in order && IsAskedProbe(f, |hosts|, scans, ports, x) then 1 else 0
  {
    if order != [] {
      var s := order[|order| - 1];
      ScanProbesCount(f, hosts, order[..|order| - 1], scans, ports, x);
      HostProbesCount(f, hosts, s, ports, |hosts|, x);
      TimesConcat(ScanProbes(f, |hosts|, order[..|order| - 1], scans, ports),
                  if scans[s] then HostProbes(f, s, ports, |hosts|) else [], x);
    }
  }

  lemma OrderListsEveryScan(order: seq<nat>)
    requires order == SCAN_ORDER
    ensures forall s :: s in order <==> 1 <= s < TOTAL_TYPE
    ensures forall k :: 0 <= k < |order| ==> 1 <= order[k] < TOTAL_TYPE
    ensures forall j, k :: 0 <= j < k < |order| ==> order[j] != order[k]
  {
    assert order[0] == 2 && order[1] == 1 && order[2] == 5 && order[3] == 3 && order[4] == 4 && order[5] == 6;
  }

  /** In the sequential run every asked probe is sent exactly once, and nothing else is sent. */
  lemma SequentialTraceCount(f: Prober, hosts: seq<Address>, scans: seq<bool>, ports: seq<bool>, x: Probe)
    requires |scans| == TOTAL_TYPE && HostsApart(hosts) && Labels(f, hosts)
    ensures multiset(SequentialTrace(f, |hosts|, scans, ports))[x]
         == if IsAskedProbe(f, |hosts|, scans, ports, x) then 1 else 0
  {
    OrderListsEveryScan(SCAN_ORDER);
    ScanProbesCount(f, hosts, SCAN_ORDER, scans, ports, x);
    TimesIsMultiplicity(SequentialTrace(f, |hosts|, scans, ports), x);
  }

  // ----- the probes of a run -----

  /** What is fixed during the send phase: byte order, source address, hosts. */
  datatype Net = Net(little: bool, src: Address, hosts: seq<Address>)

  /** The wire probe to host h; only hosts, scans and ports in range are ever used. */
  function ProberOf(net: Net): Prober {
    (h: nat, s: nat, p: nat) =>
      if h < |net.hosts| && s < TOTAL_TYPE && p < RANGE_PORT then
        Probe(net.hosts[h], s, p, Wire(net.little, net.src, net.hosts[h], s, p))
      else Probe(if h < |net.hosts| then net.hosts[h] else [0, 0, 0, 0], s, p, [])
  }

  lemma ProberLabels(net: Net)
    ensures Labels(ProberOf(net), net.hosts)
  {
  }
}
