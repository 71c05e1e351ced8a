/** What the recorded states mean after any trace of answers. */
module Verdicts {
  import opened CTypes
  import opened Packet
  import opened Plan
  import opened Probes
  import opened Execution
  import opened Receive

  /** Frame k is the last one of the trace that decides the cell. */
  ghost predicate LastDecider(hosts: seq<Address>, trace: seq<Captured>, h: nat, s: nat, p: nat, k: nat) {
    && k < |trace| && Verdict(hosts, trace[k], h, s, p).Some?
    && forall j :: k < j < |trace| ==> Verdict(hosts, trace[j], h, s, p) == None
  }

  ghost predicate NoneDecides(hosts: seq<Address>, trace: seq<Captured>, h: nat, s: nat, p: nat) {
    forall j :: 0 <= j < |trace| ==> Verdict(hosts, trace[j], h, s, p) == None
  }

  lemma {:induction false} LastStep(v: Values, hosts: seq<Address>, trace: seq<Captured>, h: nat, s: nat, p: nat)
    requires trace != []
    ensures AfterTrace(v, hosts, trace)(h, s, p)
         == Verdict(hosts, trace[|trace| - 1], h, s, p).GetOr(AfterTrace(v, hosts, trace[..|trace| - 1])(h, s, p))
  {
  }

  lemma {:induction false} VerdictOfLastDecider(v: Values, hosts: seq<Address>, trace: seq<Captured>,
                                                h: nat, s: nat, p: nat, k: nat)
    requires LastDecider(hosts, trace, h, s, p, k)
    ensures AfterTrace(v, hosts, trace)(h, s, p) == Verdict(hosts, trace[k], h, s, p).value
  {
    var n := |trace| - 1;
    LastStep(v, hosts, trace, h, s, p);
    if k < n {
      assert forall j :: 0 <= j < n ==> trace[..n][j] == trace[j];
      VerdictOfLastDecider(v, hosts, trace[..n], h, s, p, k);
      assert Verdict(hosts, trace[n], h, s, p) == None;
    }
  }

  lemma {:induction false} NoVerdict(v: Values, hosts: seq<Address>, trace: seq<Captured>, h: nat, s: nat, p: nat)
    requires NoneDecides(hosts, trace, h, s, p)
    ensures AfterTrace(v, hosts, trace)(h, s, p) == v(h, s, p)
  {
    if trace != [] {
      var n := |trace| - 1;
      LastStep(v, hosts, trace, h, s, p);
      assert forall j :: 0 <= j < n ==> trace[..n][j] == trace[j];
      NoVerdict(v, hosts, trace[..n], h, s, p);
      assert Verdict(hosts, trace[n], h, s, p) == None;
    }
  }

  lemma {:induction false} FindLastDecider(hosts: seq<Address>, trace: seq<Captured>, h: nat, s: nat, p: nat)
    returns (k: nat)
    requires !NoneDecides(hosts, trace, h, s, p)
    ensures LastDecider(hosts, trace, h, s, p, k)
  {
    var n := |trace| - 1;
    if Verdict(hosts, trace[n], h, s, p).Some? {
      k := n;
    } else {
      assert forall j :: 0 <= j < n ==> trace[..n][j] == trace[j];
      k := FindLastDecider(hosts, trace[..n], h, s, p);
    }
  }

  /** A cell holds the verdict of the last frame that decides it, or its value before the trace. */
  lemma LastVerdictWins(v: Values, hosts: seq<Address>, trace: seq<Captured>, h: nat, s: nat, p: nat)
    ensures forall k: nat :: LastDecider(hosts, trace, h, s, p, k) ==>
              AfterTrace(v, hosts, trace)(h, s, p) == Verdict(hosts, trace[k], h, s, p).value
    ensures NoneDecides(hosts, trace, h, s, p) ==> AfterTrace(v, hosts, trace)(h, s, p) == v(h, s, p)
    ensures NoneDecides(hosts, trace, h, s, p) || exists k: nat :: LastDecider(hosts, trace, h, s, p, k)
  {
    forall k: nat | LastDecider(hosts, trace, h, s, p, k)
      ensures AfterTrace(v, hosts, trace)(h, s, p) == Verdict(hosts, trace[k], h, s, p).value
    {
      VerdictOfLastDecider(v, hosts, trace, h, s, p, k);
    }
    if NoneDecides(hosts, trace, h, s, p) {
      NoVerdict(v, hosts, trace, h, s, p);
    } else {
      var k := FindLastDecider(hosts, trace, h, s, p);
    }
  }

  /** No frame decides more than one cell. */
  lemma {:induction false} OneCellPerFrame(hosts: seq<Address>, c: Captured,
                                          h: nat, s: nat, p: nat, g: nat, t: nat, q: nat)
    requires HostsApart(hosts)
    requires Verdict(hosts, c, h, s, p).Some? && Verdict(hosts, c, g, t, q).Some?
    ensures h == g && s == t && p == q
  {
    assert hosts[h] == hosts[g];
  }

  /** Two frames that never decide the same cell. */
  ghost predicate Independent(hosts: seq<Address>, a: Captured, b: Captured) {
    forall h: nat, s: nat, p: nat :: Verdict(hosts, a, h, s, p) == None || Verdict(hosts, b, h, s, p) == None
  }

  lemma AfterOneMore(v: Values, hosts: seq<Address>, trace: seq<Captured>, c: Captured, h: nat, s: nat, p: nat)
    ensures AfterTrace(v, hosts, trace + [c])(h, s, p)
         == Verdict(hosts, c, h, s, p).GetOr(AfterTrace(v, hosts, trace)(h, s, p))
  {
    assert (trace + [c])[..|trace|] == trace;
  }

  /** Frames for different cells commute, wherever they stand next to each other in a trace. */
  lemma {:induction false} IndependentFramesCommute(v: Values, hosts: seq<Address>, before: seq<Captured>,
                                                    a: Captured, b: Captured, rest: seq<Captured>,
                                                    h: nat, s: nat, p: nat)
    requires Independent(hosts, a, b)
    ensures AfterTrace(v, hosts, before + [a] + [b] + rest)(h, s, p)
         == AfterTrace(v, hosts, before + [b] + [a] + rest)(h, s, p)
    decreases |rest|
  {
    if rest == [] {
      assert before + [a] + [b] + rest == before + [a] + [b];
      assert before + [b] + [a] + rest == before + [b] + [a];
      AfterOneMore(v, hosts, before, a, h, s, p);
      AfterOneMore(v, hosts, before, b, h, s, p);
      AfterOneMore(v, hosts, before + [a], b, h, s, p);
      AfterOneMore(v, hosts, before + [b], a, h, s, p);
    } else {
      var r, last := rest[..|rest| - 1], rest[|rest| - 1];
      IndependentFramesCommute(v, hosts, before, a, b, r, h, s, p);
      assert before + [a] + [b] + rest == before + [a] + [b] + r + [last];
      assert before + [b] + [a] + rest == before + [b] + [a] + r + [last];
      AfterOneMore(v, hosts, before + [a] + [b] + r, last, h, s, p);
      AfterOneMore(v, hosts, before + [b] + [a] + r, last, h, s, p);
    }
  }

  // ----- which states can appear -----

  /** An ICMP port-unreachable error. */
  predicate IsPortUnreachable(c: Captured) {
    Readable(c) && Protocol(c) == IPPROTO_ICMP && c[L4] == ICMP_UNREACH && c[L4 + 1] == ICMP_UNREACH_PORT
  }

  /** Verdicts are never Open|Filtered, are Unfiltered only for ACK scans, and close a UDP
      cell only by a port-unreachable error. */
  lemma VerdictShape(hosts: seq<Address>, c: Captured, h: nat, s: nat, p: nat)
    requires Verdict(hosts, c, h, s, p).Some?
    ensures var x := Verdict(hosts, c, h, s, p).value;
            && x in {CLOSED, OPEN, FILTERED, UNFILTERED}
            && (x == UNFILTERED ==> s == ACK)
            && (s == UDP && x == CLOSED ==> IsPortUnreachable(c))
  {
  }

  /** Unfiltered appears only in the ACK row. */
  lemma {:induction false} UnfilteredOnlyForAck(v: Values, hosts: seq<Address>, trace: seq<Captured>,
                                               h: nat, s: nat, p: nat)
    requires s != ACK && v(h, s, p) != UNFILTERED
    ensures AfterTrace(v, hosts, trace)(h, s, p) != UNFILTERED
  {
    LastVerdictWins(v, hosts, trace, h, s, p);
    if k: nat :| LastDecider(hosts, trace, h, s, p, k) {
      VerdictShape(hosts, trace[k], h, s, p);
    }
  }

  /** A UDP cell becomes Closed exactly when the last frame that decides it is a
      port-unreachable error. */
  lemma {:induction false} UdpClosedOnlyByPortUnreachable(v: Values, hosts: seq<Address>, trace: seq<Captured>,
                                                         h: nat, p: nat)
    requires v(h, UDP, p) != CLOSED
    ensures AfterTrace(v, hosts, trace)(h, UDP, p) == CLOSED
       <==> exists k: nat :: LastDecider(hosts, trace, h, UDP, p, k) && IsPortUnreachable(trace[k])
  {
    LastVerdictWins(v, hosts, trace, h, UDP, p);
    if k: nat :| LastDecider(hosts, trace, h, UDP, p, k) {
      VerdictShape(hosts, trace[k], h, UDP, p);
    }
  }

  /** A cell that has left Open|Filtered never returns to it. */
  lemma {:induction false} NeverBackToOpenFiltered(v: Values, hosts: seq<Address>, trace: seq<Captured>, i: nat,
                                                   h: nat, s: nat, p: nat)
    requires i <= |trace| && AfterTrace(v, hosts, trace[..i])(h, s, p) != OPENFILTERED
    ensures AfterTrace(v, hosts, trace)(h, s, p) != OPENFILTERED
    decreases |trace|
  {
    if i == |trace| {
      assert trace[..i] == trace;
    } else {
      var t, last := trace[..|trace| - 1], trace[|trace| - 1];
      assert t[..i] == trace[..i];
      NeverBackToOpenFiltered(v, hosts, t, i, h, s, p);
      if Verdict(hosts, last, h, s, p).Some? {
        VerdictShape(hosts, last, h, s, p);
      }
    }
  }

  /** After the send phase and any trace, an asked cell holds the last verdict or the
      default state of its scan. */
  lemma {:induction false} AskedCellAtTheEnd(v: Values, hosts: seq<Address>, scans: seq<bool>, ports: seq<bool>,
                                            trace: seq<Captured>, h: nat, s: nat, p: nat)
    requires Asked(scans, ports, s, p)
    ensures var sent := MarkedIn(v, SCAN_ORDER, scans, ports);
            && (forall k: nat :: LastDecider(hosts, trace, h, s, p, k) ==>
                  AfterTrace(sent, hosts, trace)(h, s, p) == Verdict(hosts, trace[k], h, s, p).value)
            && (NoneDecides(hosts, trace, h, s, p) ==>
                  AfterTrace(sent, hosts, trace)(h, s, p) == (if s == 2 || s == 3 || s == 4 || s == 6 then 3 else 2))
  {
    OrderListsEveryScan(SCAN_ORDER);
    DefaultStates(s);
    assert MarkedIn(v, SCAN_ORDER, scans, ports)(h, s, p) == DefaultState(s);
    LastVerdictWins(MarkedIn(v, SCAN_ORDER, scans, ports), hosts, trace, h, s, p);
  }

  // ----- answers by the numbers -----

  /** A TCP reply to a scan of type 1 to 5: SYN means open; RST means closed, or unfiltered for an
      ACK scan; anything else says nothing. */
  lemma TcpReplyTells(hosts: seq<Address>, c: Captured, h: nat, scan: nat, port: nat)
    requires |c| >= 50 && h < |hosts| && c[28..32] == hosts[h] && c[25] == 6
    requires 1 <= scan == 256 * (c[38] as int) + (c[39] as int) <= 5
    requires port == 256 * (c[36] as int) + (c[37] as int)
    ensures Verdict(hosts, c, h, scan, port)
         == if (c[49] / 2) % 2 == 1 then Some(1)
            else if (c[49] / 4) % 2 == 1 then (if scan == 5 then Some(4) else Some(0))
            else None
  {
  }

  /** Any UDP reply to a UDP scan means open. */
  lemma UdpReplyTells(hosts: seq<Address>, c: Captured, h: nat, port: nat)
    requires |c| >= 40 && h < |hosts| && c[28..32] == hosts[h] && c[25] == 17 && c[38] == 0 && c[39] == 6
    requires port == 256 * (c[36] as int) + (c[37] as int)
    ensures Verdict(hosts, c, h, 6, port) == Some(1)
  {
  }

  /** An ICMP error that quotes a probe: type 3 with code 1, 2, 3, 9, 10 or 13 means filtered,
      except that code 3 means closed for a UDP probe; anything else says nothing. */
  lemma IcmpErrorTells(hosts: seq<Address>, c: Captured, h: nat, scan: nat, port: nat)
    requires |c| >= 68 && h < |hosts| && c[28..32] == hosts[h] && c[25] == 1 && (c[53] == 6 || c[53] == 17)
    requires scan == 256 * (c[64] as int) + (c[65] as int) && port == 256 * (c[66] as int) + (c[67] as int)
    ensures Verdict(hosts, c, h, scan, port)
         == if c[36] == 3 && c[37] in {1, 2, 3, 9, 10, 13} then (if scan == 6 && c[37] == 3 then Some(0) else Some(2))
            else None
  {
  }

  /** The answers to a probe: a TCP reply with SYN opens its cell and no other, and so on for
      every kind of answer. */
  lemma AnswerSettlesItsCell(net: Net, h: nat, scan: uint16, port: uint16, c: Captured)
    requires HostsApart(net.hosts) && 1 <= scan <= 6 && |c| >= 68
    requires IsReplyTo(net, h, scan, port, c) || IsErrorFor(net, h, scan, port, c)
    ensures Verdict(net.hosts, c, h, scan, port)
         == if c[25] == 1 then
              (if c[36] == 3 && c[37] in {1, 2, 3, 9, 10, 13} then Some(if scan == 6 && c[37] == 3 then 0 else 2)
               else None)
            else if scan == 6 || (c[49] / 2) % 2 == 1 then Some(1)
            else if (c[49] / 4) % 2 == 1 then Some(if scan == 5 then 4 else 0)
            else None
  {
    AnswerFields(net, h, scan, port, c);
    AnswerFindsItsCell(net, h, scan, port, c);
  }

  // ----- probe and answer -----

  /** A reply from host h to the probe: its address stands at bytes 28 to 31, and the ports (at 36
      and 38) are the probe's, swapped. */
  ghost predicate IsReplyTo(net: Net, h: nat, scan: uint16, port: uint16, c: Captured) {
    && h < |net.hosts| && |c| >= 40
    && c[28..32] == net.hosts[h] && c[25] == (if scan == 6 then 17 else 6)
    && var wire := Wire(net.little, net.src, net.hosts[h], scan, port);
       c[36..38] == wire[2..4] && c[38..40] == wire[0..2]
  }

  /** An ICMP error from host h that quotes the probe: its IP header (44 to 63, with the protocol
      at 53) and at least the first 4 bytes behind it. */
  ghost predicate IsErrorFor(net: Net, h: nat, scan: uint16, port: uint16, c: Captured) {
    && h < |net.hosts| && |c| >= 68
    && c[28..32] == net.hosts[h] && c[25] == 1 && c[53] == (if scan == 6 then 17 else 6)
    && var wire := Wire(net.little, net.src, net.hosts[h], scan, port);
       c[64..68] == wire[..4]
  }

  lemma TwoBytes(c: Captured, o: nat, w: seq<byte>, i: nat)
    requires o + 2 <= |c| && i + 2 <= |w| && c[o..o + 2] == w[i..i + 2]
    ensures c[o] == w[i] && c[o + 1] == w[i + 1]
  {
    assert c[o..o + 2][0] == w[i..i + 2][0];
    assert c[o..o + 2][1] == w[i..i + 2][1];
  }

  lemma AnswerFields(net: Net, h: nat, scan: uint16, port: uint16, c: Captured)
    requires Readable(c) && (IsReplyTo(net, h, scan, port, c) || IsErrorFor(net, h, scan, port, c))
    ensures Source(c) == net.hosts[h] && ScanField(c) == scan && PortField(c) == port
  {
    var wire := Wire(net.little, net.src, net.hosts[h], scan, port);
    ProbeCarriesCell(net.little, net.src, net.hosts[h], scan, port);
    if IsReplyTo(net, h, scan, port, c) {
      TwoBytes(c, 36, wire, 2);
      TwoBytes(c, 38, wire, 0);
    } else {
      assert c[64..66] == c[64..68][..2] == wire[0..2];
      assert c[66..68] == c[64..68][2..] == wire[2..4];
      TwoBytes(c, 64, wire, 0);
      TwoBytes(c, 66, wire, 2);
    }
  }

  /** Round trip: the answer to a probe is attributed to exactly the cell the probe was sent
      for; it decides no other cell of any host. */
  lemma AnswerFindsItsCell(net: Net, h: nat, scan: uint16, port: uint16, c: Captured)
    requires HostsApart(net.hosts) && Readable(c)
    requires IsReplyTo(net, h, scan, port, c) || IsErrorFor(net, h, scan, port, c)
    ensures Verdict(net.hosts, c, h, scan, port) == Report(c)
    ensures forall g: nat, s: nat, p: nat :: (g, s, p) != (h, scan, port) ==> Verdict(net.hosts, c, g, s, p) == None
  {
    AnswerFields(net, h, scan, port, c);
    forall g: nat, s: nat, p: nat | (g, s, p) != (h, scan, port) ensures Verdict(net.hosts, c, g, s, p) == None {
      assert g < h && g < |net.hosts| ==> net.hosts[g] != net.hosts[h];
      assert h < g < |net.hosts| ==> net.hosts[h] != net.hosts[g];
    }
  }
}
