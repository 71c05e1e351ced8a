/** Reading the answers (receive/receive.c). */
module Receive {
  import opened CTypes
  import opened Packet
  import opened Probes
  import opened HostList
  import opened Execution

  type Captured = seq<byte>

  // Offsets in a captured frame: a 16-byte link header, then a 20-byte IP header.
  const IP: nat := 16
  const L4: nat := 36
  const QUOTED_IP: nat := 44
  const QUOTED_L4: nat := 64

  const ICMP_UNREACH: byte := 3
  const ICMP_UNREACH_HOST: byte := 1
  const ICMP_UNREACH_PROTOCOL: byte := 2
  const ICMP_UNREACH_PORT: byte := 3
  const ICMP_UNREACH_NET_PROHIB: byte := 9
  const ICMP_UNREACH_HOST_PROHIB: byte := 10
  const ICMP_UNREACH_FILTER_PROHIB: byte := 13

  // ----- what a frame says -----

  function Source(c: Captured): Address
    requires |c| >= L4
  {
    c[IP + 12..IP + 16]
  }

  function Protocol(c: Captured): byte
    requires |c| >= L4
  {
    c[IP + 9]
  }

  function QuotedProtocol(c: Captured): byte
    requires |c| >= QUOTED_L4
  {
    c[QUOTED_IP + 9]
  }

  predicate Quotes(c: Captured) {
    |c| >= QUOTED_L4 && (QuotedProtocol(c) == IPPROTO_TCP || QuotedProtocol(c) == IPPROTO_UDP)
  }

  /** The frame is long enough for the fields that are read of it. */
  predicate Readable(c: Captured) {
    && |c| >= L4
    && if Protocol(c) == IPPROTO_ICMP then |c| >= QUOTED_L4 && (Quotes(c) ==> |c| >= QUOTED_L4 + 4)
       else |c| >= L4 + 4 && (Ntohs(c[L4 + 2], c[L4 + 3]) != UDP ==> |c| >= L4 + 14)
  }

  /** The scan type a frame answers: the destination port of a reply, the source port of the
      probe that an ICMP error quotes. */
  function ScanField(c: Captured): uint16
    requires Readable(c)
  {
    if Protocol(c) != IPPROTO_ICMP then Ntohs(c[L4 + 2], c[L4 + 3])
    else if Quotes(c) then Ntohs(c[QUOTED_L4], c[QUOTED_L4 + 1])
    else 0
  }

  function PortField(c: Captured): uint16
    requires Readable(c)
  {
    if Protocol(c) != IPPROTO_ICMP then Ntohs(c[L4], c[L4 + 1])
    else if Quotes(c) then Ntohs(c[QUOTED_L4 + 2], c[QUOTED_L4 + 3])
    else 0
  }

  predicate Syn(c: Captured)
    requires |c| >= L4 + 14
  {
    (c[L4 + 13] / 2) % 2 == 1
  }

  predicate Rst(c: Captured)
    requires |c| >= L4 + 14
  {
    (c[L4 + 13] / 4) % 2 == 1
  }

  predicate TellsUnreachable(t: byte, code: byte) {
    && t == ICMP_UNREACH
    && (code == ICMP_UNREACH_HOST || code == ICMP_UNREACH_PROTOCOL || code == ICMP_UNREACH_PORT
        || code == ICMP_UNREACH_NET_PROHIB || code == ICMP_UNREACH_HOST_PROHIB || code == ICMP_UNREACH_FILTER_PROHIB)
  }

  /** The state a frame reports for its cell, if any. */
  function Report(c: Captured): Option<int>
    requires Readable(c)
  {
    var scan := ScanField(c);
    if Protocol(c) == IPPROTO_ICMP then
      if !TellsUnreachable(c[L4], c[L4 + 1]) then None
      else if scan == UDP && c[L4 + 1] == ICMP_UNREACH_PORT then Some(CLOSED)
      else Some(FILTERED)
    else if scan == UDP || Syn(c) then Some(OPEN)
    else if Rst(c) then (if scan == ACK then Some(UNFILTERED) else Some(CLOSED))
    else None
  }

  /** The verdict of a frame on one cell, given the addresses of the hosts. */
  function Verdict(hosts: seq<Address>, c: Captured, h: nat, s: nat, p: nat): Option<int> {
    if Readable(c) && h < |hosts| && Source(c) == hosts[h] && ScanField(c) == s && PortField(c) == p then Report(c)
    else None
  }

  // ----- the same by the numbers -----

  /** What a captured frame tells: nothing, or a state for a (scan, port). */
  datatype Answer = Silent | Tells(scan: int, port: int, state: int)

  /** The answer, read off the bytes: protocol 1 at 25 is ICMP, whose type 3 with one of six codes
      (36, 37) tells of the probe quoted from 44 on; any other reply has its ports at 36 and 38 and
      its flags at 49, of which SYN is bit 1 and RST bit 2. */
  function AnswerOf(c: Captured): Answer {
    if |c| < 40 then Silent
    else if c[25] == 1 then
      if |c| < 64 || c[36] != 3 || c[37] !in {1, 2, 3, 9, 10, 13} then Silent
      else if c[53] != 6 && c[53] != 17 then Tells(0, 0, 2)
      else if |c| < 68 then Silent
      else
        Tells(Ntohs(c[64], c[65]), Ntohs(c[66], c[67]), if Ntohs(c[64], c[65]) == 6 && c[37] == 3 then 0 else 2)
    else if Ntohs(c[38], c[39]) == 6 then Tells(6, Ntohs(c[36], c[37]), 1)
    else if |c| < 50 then Silent
    else if (c[49] / 2) % 2 == 1 then Tells(Ntohs(c[38], c[39]), Ntohs(c[36], c[37]), 1)
    else if (c[49] / 4) % 2 == 1 then
      Tells(Ntohs(c[38], c[39]), Ntohs(c[36], c[37]), if Ntohs(c[38], c[39]) == 5 then 4 else 0)
    else Silent
  }

  /** The state of cell (s, p) of the frame's host, which held `before`. */
  function StateAfter(c: Captured, s: int, p: int, before: int): int {
    match AnswerOf(c)
    case Tells(scan, port, state) => if scan == s && port == p then state else before
    case Silent => before
  }

  lemma ReportByBytes(c: Captured, s: int, p: int, before: int)
    requires Readable(c)
    ensures StateAfter(c, s, p, before)
         == if s == ScanField(c) && p == PortField(c) then Report(c).GetOr(before) else before
  {
  }

  /** A verdict is for the host whose address stands at bytes 28 to 31. */
  lemma VerdictByBytes(hosts: seq<Address>, c: Captured, h: nat, s: nat, p: nat, before: int)
    requires h < |hosts|
    ensures Verdict(hosts, c, h, s, p).GetOr(before)
         == if |c| >= 40 && c[28..32] == hosts[h] then StateAfter(c, s, p, before) else before
  {
    if Readable(c) {
      ReportByBytes(c, s, p, before);
    }
  }

  // ----- the state of all cells -----

  function Received(v: Values, hosts: seq<Address>, c: Captured): Values {
    (h: nat, s: nat, p: nat) => Verdict(hosts, c, h, s, p).GetOr(v(h, s, p))
  }

  function AfterTrace(v: Values, hosts: seq<Address>, trace: seq<Captured>): Values {
    if trace == [] then v
    else Received(AfterTrace(v, hosts, trace[..|trace| - 1]), hosts, trace[|trace| - 1])
  }

  /** Frames that may be handed to the receiver: complete, and deciding only cells that exist. */
  predicate Deliverable(hosts: seq<Address>, c: Captured) {
    Readable(c) && (Source(c) in hosts && Report(c).Some? ==> ScanField(c) < TOTAL_TYPE)
  }

  // ----- the handlers -----

  /** The cell write of the handlers (under the mutex in the program). */
  method SetState(ip: Ip, scan: nat, port: nat, state: int)
    requires ip.Sized() && scan < TOTAL_TYPE && port < RANGE_PORT
    modifies ip.state
    ensures ip.state[scan, port] == state
    ensures forall s: nat, p: nat :: s < TOTAL_TYPE && p < RANGE_PORT && (s != scan || p != port) ==>
              ip.state[s, p] == old(ip.state[s, p])
  {
    ip.state[scan, port] := state;
  }

  method ParseIcmpResponse(scan: uint16, port: uint16, t: byte, code: byte, ip: Ip)
    requires ip.Sized() && (TellsUnreachable(t, code) ==> scan < TOTAL_TYPE)
    modifies ip.state
    ensures forall s: nat, p: nat :: s < TOTAL_TYPE && p < RANGE_PORT ==>
              ip.state[s, p] == if TellsUnreachable(t, code) && s == scan && p == port then
                                  (if scan == UDP && code == ICMP_UNREACH_PORT then CLOSED else FILTERED)
                                else old(ip.state[s, p])
  {
    if t != ICMP_UNREACH {
      return;
    } else if code != ICMP_UNREACH_HOST && code != ICMP_UNREACH_PROTOCOL && code != ICMP_UNREACH_PORT
              && code != ICMP_UNREACH_NET_PROHIB && code != ICMP_UNREACH_HOST_PROHIB
              && code != ICMP_UNREACH_FILTER_PROHIB {
      return;
    }
    if scan == UDP && code == ICMP_UNREACH_PORT {
      SetState(ip, scan, port, CLOSED);
    } else {
      SetState(ip, scan, port, FILTERED);
    }
  }

  /** A TCP or UDP reply (in fact any protocol but ICMP). */
  method ParseReply(c: Captured, ip: Ip)
    requires ip.Sized() && Readable(c) && Protocol(c) != IPPROTO_ICMP
    requires Report(c).Some? ==> ScanField(c) < TOTAL_TYPE
    modifies ip.state
    ensures forall s: nat, p: nat :: s < TOTAL_TYPE && p < RANGE_PORT ==>
              ip.state[s, p] == StateAfter(c, s, p, old(ip.state[s, p]))
  {
    var scan := Ntohs(c[L4 + 2], c[L4 + 3]);
    var port := Ntohs(c[L4], c[L4 + 1]);
    if scan == UDP || Syn(c) {
      SetState(ip, scan, port, OPEN);
    } else if Rst(c) {
      if scan == ACK {
        SetState(ip, scan, port, UNFILTERED);
      } else {
        SetState(ip, scan, port, CLOSED);
      }
    }
  }

  /** The effect of a frame on its host. */
  method ParseFrame(c: Captured, ip: Ip)
    requires ip.Sized() && Readable(c) && (Report(c).Some? ==> ScanField(c) < TOTAL_TYPE)
    modifies ip.state
    ensures forall s: nat, p: nat :: s < TOTAL_TYPE && p < RANGE_PORT ==>
              ip.state[s, p] == StateAfter(c, s, p, old(ip.state[s, p]))
  {
    if Protocol(c) == IPPROTO_ICMP {
      var scan: uint16, port: uint16 := 0, 0;
      var protocol := QuotedProtocol(c);
      if protocol == IPPROTO_TCP || protocol == IPPROTO_UDP {
        scan := Ntohs(c[QUOTED_L4], c[QUOTED_L4 + 1]);
        port := Ntohs(c[QUOTED_L4 + 2], c[QUOTED_L4 + 3]);
      }
      ParseIcmpResponse(scan, port, c[L4], c[L4 + 1], ip);
    } else {
      ParseReply(c, ip);
    }
  }

  /** The receiver's search by source address; at most one host can match. */
  method FindHost(hosts: Hosts, addr: Address) returns (ips: Ip?, ghost h: nat)
    requires hosts.Valid()
    ensures h <= |hosts.nodes| && ips == NodeAt(hosts.nodes, h)
    ensures ips != null ==> ips.addr == addr
    ensures ips == null ==> addr !in AddressesOf(hosts.nodes)
  {
    ips := hosts.res;
    h := 0;
    while ips != null
      invariant h <= |hosts.nodes| && ips == NodeAt(hosts.nodes, h)
      invariant forall k :: 0 <= k < h ==> hosts.nodes[k].addr != addr
      decreases |hosts.nodes| - h
    {
      assert ips == hosts.nodes[h];
      if ips.addr == addr {
        return;
      }
      ips := ips.next;
      h := h + 1;
    }
    assert h == |hosts.nodes|;
  }

  lemma {:induction false} OneHostMatches(nodes: seq<Ip>, c: Captured, h: nat, k: nat, s: nat, p: nat)
    requires Apart(nodes) && Readable(c) && h < |nodes| && k < |nodes| && nodes[h].addr == Source(c)
    ensures Verdict(AddressesOf(nodes), c, k, s, p)
         == if k == h && ScanField(c) == s && PortField(c) == p then Report(c) else None
  {
    assert k < h ==> nodes[k].addr != nodes[h].addr;
    assert h < k ==> nodes[h].addr != nodes[k].addr;
  }

  lemma OtherHostsKeep(nodes: seq<Ip>, c: Captured, h: nat, k: nat, v: Values)
    requires Apart(nodes) && Readable(c) && h < |nodes| && k < |nodes| && nodes[h].addr == Source(c) && k != h
    requires ShowsHost(nodes[k], k, v)
    ensures ShowsHost(nodes[k], k, Received(v, AddressesOf(nodes), c))
  {
    forall s: nat, p: nat | s < TOTAL_TYPE && p < RANGE_PORT
      ensures nodes[k].state[s, p] == Received(v, AddressesOf(nodes), c)(k, s, p)
    {
      OneHostMatches(nodes, c, h, k, s, p);
    }
  }

  /** The frame is folded into the states of its host. */
  method ReceiveFor(ip: Ip, c: Captured, ghost nodes: seq<Ip>, ghost h: nat, ghost v: Values)
    requires Apart(nodes) && h < |nodes| && ip == nodes[h] && Readable(c) && ip.addr == Source(c)
    requires Report(c).Some? ==> ScanField(c) < TOTAL_TYPE
    requires ShowsHost(ip, h, v)
    modifies ip.state
    ensures ShowsHost(ip, h, Received(v, AddressesOf(nodes), c))
  {
    ParseFrame(c, ip);
    forall s: nat, p: nat | s < TOTAL_TYPE && p < RANGE_PORT
      ensures ip.state[s, p] == Received(v, AddressesOf(nodes), c)(h, s, p)
    {
      OneHostMatches(nodes, c, h, h, s, p);
      ReportByBytes(c, s, p, v(h, s, p));
    }
  }

  lemma NoHostMatches(nodes: seq<Ip>, c: Captured, k: nat, v: Values)
    requires Apart(nodes) && Readable(c) && k < |nodes| && Source(c) !in AddressesOf(nodes)
    requires ShowsHost(nodes[k], k, v)
    ensures ShowsHost(nodes[k], k, Received(v, AddressesOf(nodes), c))
  {
    var hosts := AddressesOf(nodes);
    assert hosts[k] in hosts;
    forall s: nat, p: nat | s < TOTAL_TYPE && p < RANGE_PORT
      ensures nodes[k].state[s, p] == Received(v, hosts, c)(k, s, p)
    {
      assert Verdict(hosts, c, k, s, p) == None;
    }
  }

  lemma ShownByBytes(nodes: seq<Ip>, c: Captured, v: Values)
    requires Apart(nodes) && Shows(nodes, 0, |nodes|, Received(v, AddressesOf(nodes), c))
    ensures forall h: nat, s: nat, p: nat :: h < |nodes| && s < 7 && p < 65536 ==>
              nodes[h].state[s, p] ==
                if |c| >= 40 && c[28..32] == nodes[h].addr then StateAfter(c, s, p, v(h, s, p)) else v(h, s, p)
  {
    forall h: nat, s: nat, p: nat | h < |nodes| && s < 7 && p < 65536
      ensures nodes[h].state[s, p] ==
                if |c| >= 40 && c[28..32] == nodes[h].addr then StateAfter(c, s, p, v(h, s, p)) else v(h, s, p)
    {
      assert ShowsHost(nodes[h], h, Received(v, AddressesOf(nodes), c));
      VerdictByBytes(AddressesOf(nodes), c, h, s, p, v(h, s, p));
    }
  }

  /** The handler: the frame's verdict is recorded in its cell, and no other cell changes. */
  method FtReceivePckt(hosts: Hosts, packet: Captured, ghost v: Values)
    requires hosts.Valid() && Deliverable(AddressesOf(hosts.nodes), packet)
    requires Shows(hosts.nodes, 0, |hosts.nodes|, v)
    modifies set n | n in hosts.nodes :: n.state
    ensures Shows(hosts.nodes, 0, |hosts.nodes|, Received(v, AddressesOf(hosts.nodes), packet))
    ensures forall h: nat, s: nat, p: nat :: h < |hosts.nodes| && s < 7 && p < 65536 ==>
              hosts.nodes[h].state[s, p] ==
                if |packet| >= 40 && packet[28..32] == hosts.nodes[h].addr then StateAfter(packet, s, p, v(h, s, p))
                else v(h, s, p)
  {
    ghost var nodes := hosts.nodes;
    var ips;
    ghost var h;
    ips, h := FindHost(hosts, Source(packet));
    if ips == null {
      forall k: nat | k < |nodes| ensures ShowsHost(nodes[k], k, Received(v, AddressesOf(nodes), packet)) {
        assert ShowsHost(nodes[k], k, v);
        NoHostMatches(nodes, packet, k, v);
      }
      ShownByBytes(nodes, packet, v);
      return;
    }
    assert AddressesOf(nodes)[h] == Source(packet);
    assert ShowsHost(nodes[h], h, v);
    ReceiveFor(ips, packet, nodes, h, v);
    forall k: nat | k < |nodes| && k != h
      ensures ShowsHost(nodes[k], k, Received(v, AddressesOf(nodes), packet))
    {
      assert nodes[k].state != nodes[h].state;
      assert ShowsHost(nodes[k], k, v);
      OtherHostsKeep(nodes, packet, h, k, v);
    }
    ShownByBytes(nodes, packet, v);
  }

  lemma OneFrameMore(v: Values, hosts: seq<Address>, trace: seq<Captured>, i: nat)
    requires i < |trace|
    ensures AfterTrace(v, hosts, trace[..i + 1]) == Received(AfterTrace(v, hosts, trace[..i]), hosts, trace[i])
  {
    assert trace[..i + 1][..i] == trace[..i];
  }

  /** The dispatch loop of main: the states are the fold of the frames. */
  method Dispatch(hosts: Hosts, trace: seq<Captured>, ghost v: Values)
    requires hosts.Valid() && forall k :: 0 <= k < |trace| ==> Deliverable(AddressesOf(hosts.nodes), trace[k])
    requires Shows(hosts.nodes, 0, |hosts.nodes|, v)
    modifies set n | n in hosts.nodes :: n.state
    ensures Shows(hosts.nodes, 0, |hosts.nodes|, AfterTrace(v, AddressesOf(hosts.nodes), trace))
  {
    ghost var addresses := AddressesOf(hosts.nodes);
    ghost var sofar: Values := v;
    var i := 0;
    while i < |trace|
      invariant 0 <= i <= |trace| && sofar == AfterTrace(v, addresses, trace[..i])
      invariant Shows(hosts.nodes, 0, |hosts.nodes|, sofar)
    {
      FtReceivePckt(hosts, trace[i], sofar);
      OneFrameMore(v, addresses, trace, i);
      sofar := Received(sofar, addresses, trace[i]);
      i := i + 1;
    }
    assert trace[..i] == trace;
  }
}
