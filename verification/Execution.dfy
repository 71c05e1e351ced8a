/** The sequential send phase (execution/execution.c, execution/launch.c). */
module Execution {
  import opened CTypes
  import opened Packet
  import opened Plan
  import opened Probes
  import opened HostList
  import opened Bag
  import opened Options

  /** What the raw sockets have put on the wire. */
  class Line {
    var sent: seq<Probe>

    constructor ()
      ensures sent == []
    {
      sent := [];
    }
  }

  /** The fixed data of a send phase over the hosts of a list. */
  ghost function NetOf(little: bool, src: Address, nodes: seq<Ip>): Net {
    Net(little, src, AddressesOf(nodes))
  }

  /** The asked ports, as flags. */
  ghost predicate AreAsked(list: Bag, ports: seq<bool>)
    requires list.Sized()
    reads list`portsRange, list`portsIndiv, list`portFrom, list`portTo
    reads list`lenTabPortsIndiv, list`tabPortsIndiv, list.tabPortsIndiv
  {
    |ports| == RANGE_PORT && forall p :: 0 <= p < RANGE_PORT ==> (ports[p] <==> list.PortAsked(p))
  }

  /** A value for every (host, scan, port). */
  type Values = (nat, nat, nat) -> int

  /** The states of one node are those of v for host number h. */
  ghost predicate ShowsHost(n: Ip, h: nat, v: Values)
    requires n.Sized()
    reads n.state
  {
    forall s: nat, p: nat :: s < TOTAL_TYPE && p < RANGE_PORT ==> n.state[s, p] == v(h, s, p)
  }

  /** The states of the nodes from position `from` up to `to` are those of v. */
  ghost predicate Shows(nodes: seq<Ip>, from: nat, to: nat, v: Values)
    requires Apart(nodes) && to <= |nodes|
    reads set n | n in nodes :: n.state
  {
    forall h: nat :: from <= h < to ==> ShowsHost(nodes[h], h, v)
  }

  /** v with the default states of one scan on the given ports. */
  function Marked(v: Values, scan: nat, ports: seq<bool>): Values {
    (h: nat, s: nat, p: nat) => if s == scan && p < |ports| && ports[p] then DefaultState(scan) else v(h, s, p)
  }

  /** One probe: the default state, then the packet. */
  method SendProbe(little: bool, src: Address, ip: Ip, scan: nat, port: nat, packet: array<byte>, line: Line,
                   ghost net: Net, ghost f: Prober, ghost h: nat)
    requires f == ProberOf(net)
    requires ip.Sized() && 1 <= scan < TOTAL_TYPE && port < RANGE_PORT
    requires packet.Length == PACKET_SIZE && MadeFor(packet[..], scan)
    requires net.little == little && net.src == src && h < |net.hosts| && net.hosts[h] == ip.addr
    modifies ip.state, packet, line
    ensures MadeFor(packet[..], scan)
    ensures line.sent == old(line.sent) + [f(h, scan, port)]
    ensures ip.state[scan, port] == DefaultState(scan)
    ensures ip.state[scan, port] == if scan == 2 || scan == 3 || scan == 4 || scan == 6 then 3 else 2
    ensures forall s, p :: 0 <= s < TOTAL_TYPE && 0 <= p < RANGE_PORT && (s != scan || p != port) ==>
              ip.state[s, p] == old(ip.state[s, p])
  {
    ip.state[scan, port] := FILTERED;
    if scan == FIN || scan == NUL || scan == XMAS || scan == UDP {
      ip.state[scan, port] := ip.state[scan, port] + OPEN;
    }
    var protocol := ProtocolOf(scan);
    ReuseIsHarmless(little, src, ip.addr, scan, packet[..], port);
    StampPacket(little, src, ip.addr, protocol, packet, port);
    line.sent := line.sent + [Probe(ip.addr, scan, port, packet[..HeaderLength(protocol)])];
  }

  /** The inner loop of execution: all asked ports of one host, in ascending order. */
  method ProbeHost(list: Bag, little: bool, src: Address, ip: Ip, scan: nat, packet: array<byte>, line: Line,
                   ghost net: Net, ghost f: Prober, ghost h: nat, ghost ports: seq<bool>, ghost v: Values)
    requires list.Sized() && AreAsked(list, ports) && packet as object != list.tabPortsIndiv
    requires ip.Sized() && 1 <= scan < TOTAL_TYPE && ShowsHost(ip, h, v)
    requires packet.Length == PACKET_SIZE && MadeFor(packet[..], scan)
    requires net.little == little && net.src == src && h < |net.hosts| && net.hosts[h] == ip.addr && f == ProberOf(net)
    modifies ip.state, packet, line
    ensures MadeFor(packet[..], scan)
    ensures line.sent == old(line.sent) + PortProbes(f, h, scan, ports, |ports|)
    ensures ShowsHost(ip, h, Marked(v, scan, ports))
  {
    var port: nat := 0;
    while port < RANGE_PORT
      invariant 0 <= port <= RANGE_PORT
      invariant AreAsked(list, ports) && MadeFor(packet[..], scan)
      invariant line.sent == old(line.sent) + PortProbes(f, h, scan, ports, port)
      invariant forall s: nat, p: nat :: s < TOTAL_TYPE && p < RANGE_PORT ==>
                  ip.state[s, p] == if s == scan && ports[p] && p < port then DefaultState(scan) else v(h, s, p)
    {
      var asked := PortAsked(list, port);
      if asked {
        SendProbe(little, src, ip, scan, port, packet, line, net, f, h);
      }
      port := port + 1;
    }
  }

  lemma Regroup(a: seq<Probe>, b: seq<Probe>, c: seq<Probe>)
    ensures (a + b) + c == a + (b + c)
  {
  }

  /** The turn of host number h in the outer loop of execution. */
  method ProbeNode(list: Bag, little: bool, src: Address, ip: Ip, scan: nat, packet: array<byte>, line: Line,
                   ghost nodes: seq<Ip>, ghost f: Prober, ghost h: nat, ghost ports: seq<bool>, ghost v: Values,
                   ghost trace: seq<Probe>)
    requires list.Sized() && AreAsked(list, ports) && packet as object != list.tabPortsIndiv
    requires 1 <= scan < TOTAL_TYPE && packet.Length == PACKET_SIZE && MadeFor(packet[..], scan)
    requires Apart(nodes) && h < |nodes| && ip == nodes[h] && f == ProberOf(NetOf(little, src, nodes))
    requires Shows(nodes, 0, h, Marked(v, scan, ports)) && Shows(nodes, h, |nodes|, v)
    modifies ip.state, packet, line
    ensures MadeFor(packet[..], scan)
    ensures old(line.sent) == trace + HostProbes(f, scan, ports, h) ==>
              line.sent == trace + HostProbes(f, scan, ports, h + 1)
    ensures Shows(nodes, 0, h + 1, Marked(v, scan, ports)) && Shows(nodes, h + 1, |nodes|, v)
  {
    assert ShowsHost(nodes[h], h, v);
    ProbeHost(list, little, src, ip, scan, packet, line, NetOf(little, src, nodes), f, h, ports, v);
    Regroup(trace, HostProbes(f, scan, ports, h), PortProbes(f, h, scan, ports, |ports|));
  }

  /** The loop over the hosts, with the one packet. */
  method ProbeHosts(list: Bag, hosts: Hosts, little: bool, src: Address, scan: nat, packet: array<byte>, line: Line,
                    ghost f: Prober, ghost ports: seq<bool>, ghost v: Values)
    requires list.Sized() && AreAsked(list, ports) && hosts.Valid() && 1 <= scan < TOTAL_TYPE
    requires packet as object != list.tabPortsIndiv && packet.Length == PACKET_SIZE && MadeFor(packet[..], scan)
    requires f == ProberOf(NetOf(little, src, hosts.nodes))
    requires Shows(hosts.nodes, 0, |hosts.nodes|, v)
    modifies line, packet, set n | n in hosts.nodes :: n.state
    ensures line.sent == old(line.sent) + HostProbes(f, scan, ports, |hosts.nodes|)
    ensures Shows(hosts.nodes, 0, |hosts.nodes|, Marked(v, scan, ports))
  {
    ghost var nodes := hosts.nodes;
    ghost var h: nat := 0;
    ghost var before := line.sent;
    var ip := hosts.res;
    while ip != null
      invariant h <= |nodes| && ip == NodeAt(nodes, h)
      invariant MadeFor(packet[..], scan) && AreAsked(list, ports)
      invariant line.sent == before + HostProbes(f, scan, ports, h)
      invariant Shows(nodes, 0, h, Marked(v, scan, ports)) && Shows(nodes, h, |nodes|, v)
      decreases |nodes| - h
    {
      assert ip == nodes[h];
      ProbeNode(list, little, src, ip, scan, packet, line, nodes, f, h, ports, v, before);
      ip := ip.next;
      h := h + 1;
    }
    assert h == |nodes|;
  }

  /** The sequential loop: host after host, every asked port. */
  method Execution(list: Bag, hosts: Hosts, little: bool, src: Address, scan: nat, line: Line,
                   ghost f: Prober, ghost ports: seq<bool>, ghost v: Values)
    requires list.Sized() && AreAsked(list, ports) && hosts.Valid() && 1 <= scan < TOTAL_TYPE
    requires f == ProberOf(NetOf(little, src, hosts.nodes))
    requires Shows(hosts.nodes, 0, |hosts.nodes|, v)
    modifies line, set n | n in hosts.nodes :: n.state
    ensures line.sent == old(line.sent) + HostProbes(f, scan, ports, |hosts.nodes|)
    ensures Shows(hosts.nodes, 0, |hosts.nodes|, Marked(v, scan, ports))
  {
    var packet := CreatePckt(scan);
    ProbeHosts(list, hosts, little, src, scan, packet, line, f, ports, v);
  }

  /** v with the default states of the asked scans of a list. */
  function MarkedIn(v: Values, order: seq<nat>, scans: seq<bool>, ports: seq<bool>): Values {
    (h: nat, s: nat, p: nat) => if s in order && Asked(scans, ports, s, p) then DefaultState(s) else v(h, s, p)
  }

  lemma ShowsPointwise(nodes: seq<Ip>, v: Values, u: Values)
    requires Apart(nodes) && Shows(nodes, 0, |nodes|, v)
    requires forall h: nat, s: nat, p: nat :: h < |nodes| && s < TOTAL_TYPE && p < RANGE_PORT ==>
               v(h, s, p) == u(h, s, p)
    ensures Shows(nodes, 0, |nodes|, u)
  {
    forall h: nat | h < |nodes| ensures ShowsHost(nodes[h], h, u) {
      assert ShowsHost(nodes[h], h, v);
    }
  }

  lemma {:induction false} OneScanMore(f: Prober, n: nat, order: seq<nat>, s: nat, scans: seq<bool>, ports: seq<bool>)
    ensures ScanProbes(f, n, order + [s], scans, ports)
         == ScanProbes(f, n, order, scans, ports) + if s < |scans| && scans[s] then HostProbes(f, s, ports, n) else []
  {
    assert (order + [s])[..|order|] == order;
  }

  lemma MarkedInStep(v: Values, order: seq<nat>, scan: nat, scans: seq<bool>, ports: seq<bool>,
                     h: nat, s: nat, p: nat)
    requires |scans| == TOTAL_TYPE && 1 <= scan < TOTAL_TYPE && |ports| == RANGE_PORT && p < RANGE_PORT
    ensures MarkedIn(v, order + [scan], scans, ports)(h, s, p)
         == if scans[scan] then Marked(MarkedIn(v, order, scans, ports), scan, ports)(h, s, p)
            else MarkedIn(v, order, scans, ports)(h, s, p)
  {
    assert s in order + [scan] <==> s in order || s == scan;
    var next := MarkedIn(v, order + [scan], scans, ports)(h, s, p);
    assert next == if s in order + [scan] && Asked(scans, ports, s, p) then DefaultState(s) else v(h, s, p);
    var now := MarkedIn(v, order, scans, ports)(h, s, p);
    assert now == if s in order && Asked(scans, ports, s, p) then DefaultState(s) else v(h, s, p);
  }

  /** What has been recorded and sent after the scans of a list. */
  ghost predicate DoneIn(nodes: seq<Ip>, line: Line, f: Prober, order: seq<nat>, scans: seq<bool>, ports: seq<bool>,
                         v: Values, before: seq<Probe>)
    requires Apart(nodes)
    reads line, set n | n in nodes :: n.state
  {
    && Shows(nodes, 0, |nodes|, MarkedIn(v, order, scans, ports))
    && line.sent == before + ScanProbes(f, |nodes|, order, scans, ports)
  }

  lemma ShowsOneMore(nodes: seq<Ip>, v: Values, order: seq<nat>, scan: nat, scans: seq<bool>, ports: seq<bool>)
    requires Apart(nodes) && |scans| == TOTAL_TYPE && 1 <= scan < TOTAL_TYPE && |ports| == RANGE_PORT
    requires Shows(nodes, 0, |nodes|, if scans[scan] then Marked(MarkedIn(v, order, scans, ports), scan, ports)
                                      else MarkedIn(v, order, scans, ports))
    ensures Shows(nodes, 0, |nodes|, MarkedIn(v, order + [scan], scans, ports))
  {
    var now := if scans[scan] then Marked(MarkedIn(v, order, scans, ports), scan, ports)
               else MarkedIn(v, order, scans, ports);
    var next := MarkedIn(v, order + [scan], scans, ports);
    forall h: nat, s: nat, p: nat | s < TOTAL_TYPE && p < RANGE_PORT ensures now(h, s, p) == next(h, s, p) {
      MarkedInStep(v, order, scan, scans, ports, h, s, p);
    }
    ShowsPointwise(nodes, now, next);
  }

  /** One of the guarded calls of send_requests. */
  method ExecuteIf(asked: bool, list: Bag, hosts: Hosts, little: bool, src: Address, scan: nat, line: Line,
                   ghost f: Prober, ghost order: seq<nat>, ghost scans: seq<bool>, ghost ports: seq<bool>,
                   ghost v: Values, ghost before: seq<Probe>)
    requires list.Sized() && AreAsked(list, ports) && hosts.Valid() && 1 <= scan < TOTAL_TYPE
    requires f == ProberOf(NetOf(little, src, hosts.nodes))
    requires |scans| == TOTAL_TYPE && (asked <==> scans[scan])
    requires DoneIn(hosts.nodes, line, f, order, scans, ports, v, before)
    modifies line, set n | n in hosts.nodes :: n.state
    ensures DoneIn(hosts.nodes, line, f, order + [scan], scans, ports, v, before)
  {
    OneScanMore(f, |hosts.nodes|, order, scan, scans, ports);
    if asked {
      Execution(list, hosts, little, src, scan, line, f, ports, MarkedIn(v, order, scans, ports));
      Regroup(before, ScanProbes(f, |hosts.nodes|, order, scans, ports), HostProbes(f, scan, ports, |hosts.nodes|));
    } else {
      assert ScanProbes(f, |hosts.nodes|, order, scans, ports) + []
          == ScanProbes(f, |hosts.nodes|, order, scans, ports);
    }
    ShowsOneMore(hosts.nodes, v, order, scan, scans, ports);
  }

  ghost predicate ScansAsked(list: Bag, scans: seq<bool>)
    reads list`scans
  {
    |scans| == TOTAL_TYPE && forall k :: 1 <= k < TOTAL_TYPE ==> (scans[k] <==> ScanAsked(list.scans, k))
  }

  /** Three guarded calls in a row. */
  method ExecuteThree(list: Bag, hosts: Hosts, little: bool, src: Address, line: Line,
                      first: nat, second: nat, third: nat, askFirst: bool, askSecond: bool, askThird: bool,
                      ghost f: Prober, ghost order: seq<nat>, ghost scans: seq<bool>, ghost ports: seq<bool>,
                      ghost v: Values, ghost before: seq<Probe>)
    requires list.Sized() && AreAsked(list, ports) && hosts.Valid()
    requires f == ProberOf(NetOf(little, src, hosts.nodes)) && |scans| == TOTAL_TYPE
    requires 1 <= first < TOTAL_TYPE && (askFirst <==> scans[first])
    requires 1 <= second < TOTAL_TYPE && (askSecond <==> scans[second])
    requires 1 <= third < TOTAL_TYPE && (askThird <==> scans[third])
    requires DoneIn(hosts.nodes, line, f, order, scans, ports, v, before)
    modifies line, set n | n in hosts.nodes :: n.state
    ensures DoneIn(hosts.nodes, line, f, order + [first] + [second] + [third], scans, ports, v, before)
  {
    ExecuteIf(askFirst, list, hosts, little, src, first, line, f, order, scans, ports, v, before);
    ExecuteIf(askSecond, list, hosts, little, src, second, line, f, order + [first], scans, ports, v, before);
    ExecuteIf(askThird, list, hosts, little, src, third, line, f, order + [first] + [second], scans, ports, v, before);
  }

  lemma OrderOfCalls(half: seq<nat>)
    requires half == [] + [NUL] + [SYN] + [ACK]
    ensures half + [FIN] + [XMAS] + [UDP] == SCAN_ORDER
  {
  }

  /** The sequential branch of send_requests. */
  method SendSequentially(list: Bag, hosts: Hosts, little: bool, src: Address, line: Line,
                          ghost f: Prober, ghost scans: seq<bool>, ghost ports: seq<bool>, ghost v: Values)
    requires list.Sized() && AreAsked(list, ports) && ScansAsked(list, scans) && hosts.Valid()
    requires f == ProberOf(NetOf(little, src, hosts.nodes))
    requires Shows(hosts.nodes, 0, |hosts.nodes|, v)
    modifies line, set n | n in hosts.nodes :: n.state
    ensures DoneIn(hosts.nodes, line, f, SCAN_ORDER, scans, ports, v, old(line.sent))
  {
    NothingDoneYet(hosts.nodes, line, f, scans, ports, v);
    var s := list.scans;
    ExecuteThree(list, hosts, little, src, line, NUL, SYN, ACK, s.all || s.nul, s.all || s.syn, s.all || s.ack,
                 f, [], scans, ports, v, line.sent);
    ghost var half := [] + [NUL] + [SYN] + [ACK];
    ExecuteThree(list, hosts, little, src, line, FIN, XMAS, UDP, s.all || s.fin, s.all || s.xmas, s.all || s.udp,
                 f, half, scans, ports, v, old(line.sent));
    OrderOfCalls(half);
  }

  lemma NothingDoneYet(nodes: seq<Ip>, line: Line, f: Prober, scans: seq<bool>, ports: seq<bool>, v: Values)
    requires Apart(nodes) && Shows(nodes, 0, |nodes|, v)
    ensures DoneIn(nodes, line, f, [], scans, ports, v, line.sent)
  {
    ShowsPointwise(nodes, v, MarkedIn(v, [], scans, ports));
    assert line.sent + [] == line.sent;
  }
}
