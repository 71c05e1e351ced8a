/** The probe packets (execution/execution.c: create_pckt; checksum/ft_checksum.c: init_checksum). */
module Packet {
  import opened CTypes
  import opened Checksum

  const IPPROTO_ICMP: byte := 1
  const IPPROTO_TCP: byte := 6
  const IPPROTO_UDP: byte := 17

  /** sizeof(t_packet_header), and the TCP header; the UDP header is 8 bytes. */
  const PACKET_SIZE: nat := 20

  /** An IPv4 address as it stands on the wire. */
  type Address = a: seq<byte> | |a| == 4 witness [0, 0, 0, 0]

  /** Pairwise different addresses. */
  ghost predicate HostsApart(hosts: seq<Address>) {
    forall i, j :: 0 <= i < j < |hosts| ==> hosts[i] != hosts[j]
  }

  function ProtocolOf(scan: nat): byte {
    if scan == UDP then IPPROTO_UDP else IPPROTO_TCP
  }

  function HeaderLength(protocol: byte): nat {
    if protocol == IPPROTO_UDP then 8 else 20
  }

  /** Where the header keeps its checksum. */
  function CheckOffset(protocol: byte): nat {
    if protocol == IPPROTO_UDP then 6 else 16
  }

  /** The flag byte: FIN 1, SYN 2, PSH 8, ACK 16, URG 32. */
  function FlagsOf(scan: nat): byte {
    if scan == SYN then 0x02 else if scan == ACK then 0x10 else if scan == FIN then 0x01
    else if scan == XMAS then 0x29 else 0
  }

  /** Byte k of the packet of a scan before a port is set: the scan type is the source port
      (bytes 0 and 1); UDP has its length (4 and 5), TCP its data offset (12) and flags (13). */
  function BaseByte(scan: uint16, k: int): byte {
    if k == 0 then scan / 0x100
    else if k == 1 then scan % 0x100
    else if scan == UDP then (if k == 5 then 8 else 0)
    else if k == 12 then 0x50
    else if k == 13 then FlagsOf(scan)
    else 0
  }

  function BasePacket(scan: uint16): (p: seq<byte>)
    ensures |p| == PACKET_SIZE
    ensures forall k :: 0 <= k < PACKET_SIZE ==> p[k] == BaseByte(scan, k)
  {
    seq(PACKET_SIZE, k => BaseByte(scan, k))
  }

  /** The flag assignments of create_pckt; every flag is a bit of its own. */
  method SetFlags(scan: nat) returns (flags: byte)
    ensures flags == FlagsOf(scan)
  {
    flags := 0;
    if scan == ACK {
      flags := flags + 0x10;
    }
    if scan == SYN {
      flags := flags + 0x02;
    }
    if scan == FIN {
      flags := flags + 0x01;
    }
    if scan == XMAS {
      flags := flags + 0x01 + 0x08 + 0x20;
    }
  }

  /** The packet before a port is set, byte by byte: source port; for UDP the length 8; for TCP the
      data offset 5, and the flags SYN (0x02), none, FIN (0x01), FIN, PSH and URG (0x29), or ACK (0x10). */
  lemma BaseBytes(scan: uint16)
    ensures |BasePacket(scan)| == 20 && 256 * (BasePacket(scan)[0] as int) + (BasePacket(scan)[1] as int) == scan
    ensures scan == 6 ==> forall k :: 2 <= k < 20 ==> BasePacket(scan)[k] == if k == 5 then 8 else 0
    ensures 1 <= scan <= 5 ==> forall k :: 2 <= k < 20 ==>
              BasePacket(scan)[k] == if k == 12 then 0x50 else if k == 13 then [2, 0, 1, 0x29, 0x10][scan - 1] else 0
  {
  }

  /** The packet of each scan, with its bytes as above. */
  method CreatePckt(scan: uint16) returns (packet: array<byte>)
    ensures fresh(packet) && packet[..] == BasePacket(scan)
    ensures packet.Length == 20 && 256 * (packet[0] as int) + (packet[1] as int) == scan
    ensures scan == 6 ==> forall k :: 2 <= k < 20 ==> packet[k] == if k == 5 then 8 else 0
    ensures 1 <= scan <= 5 ==> forall k :: 2 <= k < 20 ==>
              packet[k] == if k == 12 then 0x50 else if k == 13 then [2, 0, 1, 0x29, 0x10][scan - 1] else 0
  {
    packet := new byte[PACKET_SIZE](_ => 0);
    packet[0], packet[1] := scan / 0x100, scan % 0x100;
    if scan == UDP {
      packet[5] := 8;
    } else {
      packet[12] := 5 * 0x10;
      var flags := SetFlags(scan);
      packet[13] := flags;
    }
    assert packet[..] == BasePacket(scan);
    BaseBytes(scan);
  }

  /** The pseudo-header: section 3.1 of RFC 9293, and RFC 768. */
  function PseudoHeader(src: Address, dst: Address, protocol: byte, length: uint16): (p: seq<byte>)
    ensures |p| == 12
  {
    src + dst + [0, protocol, length / 0x100, length % 0x100]
  }

  /** Source, destination, a zero byte, the protocol, and the length in network order. */
  lemma PseudoBytes(src: Address, dst: Address, protocol: byte)
    ensures protocol == 6 ==> PseudoHeader(src, dst, protocol, HeaderLength(protocol)) == src + dst + [0, 6, 0, 20]
    ensures protocol == 17 ==> PseudoHeader(src, dst, protocol, HeaderLength(protocol)) == src + dst + [0, 17, 0, 8]
    ensures protocol == 6 ==> HeaderLength(protocol) == 20 && CheckOffset(protocol) == 16
    ensures protocol == 17 ==> HeaderLength(protocol) == 8 && CheckOffset(protocol) == 6
  {
  }

  /** The checksum over pseudo-header and header. */
  function HeaderChecksum(little: bool, src: Address, dst: Address, protocol: byte, header: seq<byte>): uint16
    requires |header| < 0x1_0000
  {
    ChecksumOf(little, PseudoHeader(src, dst, protocol, |header|) + header)
  }

  /** The buffer that is summed: the pseudo-header, then the header as it stands in the packet. */
  method PseudoBuffer(pseudo: seq<byte>, header: seq<byte>) returns (buf: array<byte>)
    ensures fresh(buf) && buf[..] == pseudo + header
  {
    buf := new byte[|pseudo| + |header|](_ => 0);
    var i := 0;
    while i < |pseudo|
      invariant 0 <= i <= |pseudo| && buf[..i] == pseudo[..i]
    {
      buf[i] := pseudo[i];
      i := i + 1;
    }
    var j := 0;
    while j < |header|
      invariant 0 <= j <= |header| && buf[..|pseudo| + j] == pseudo + header[..j]
    {
      buf[|pseudo| + j] := header[j];
      j := j + 1;
    }
  }

  /** Stores the checksum of the packet as it is, its check field included. */
  method InitChecksum(little: bool, protocol: byte, packet: array<byte>, src: Address, dst: Address)
    requires packet.Length == PACKET_SIZE && protocol in {IPPROTO_TCP, IPPROTO_UDP}
    modifies packet
    ensures packet[..] == WithWord(little, old(packet[..]), CheckOffset(protocol),
              HeaderChecksum(little, src, dst, protocol, old(packet[..HeaderLength(protocol)])))
    ensures protocol == 6 ==>
              packet[..] == WithWord(little, old(packet[..]), 16,
                ChecksumOf(little, src + dst + [0, 6, 0, 20] + old(packet[..20])))
    ensures protocol == 17 ==>
              packet[..] == WithWord(little, old(packet[..]), 6,
                ChecksumOf(little, src + dst + [0, 17, 0, 8] + old(packet[..8])))
  {
    PseudoBytes(src, dst, protocol);
    var len := HeaderLength(protocol);
    var buf := PseudoBuffer(PseudoHeader(src, dst, protocol, len), packet[..len]);
    var check := FtChecksum(little, buf[..]);
    var o := CheckOffset(protocol);
    var stored := HostBytes(little, check);
    packet[o], packet[o + 1] := stored.0, stored.1;
  }

  // ----- one turn of the send loop -----

  /** The packet with its destination port set and its check field reset. */
  function Addressed(packet: seq<byte>, protocol: byte, port: uint16): (r: seq<byte>)
    requires |packet| == PACKET_SIZE
    ensures |r| == PACKET_SIZE
  {
    var o := CheckOffset(protocol);
    packet[2 := port / 0x100][3 := port % 0x100][o := 0][o + 1 := 0]
  }

  /** The packet after the turn: addressed, and with its checksum stored. */
  function Stamped(little: bool, src: Address, dst: Address, protocol: byte, packet: seq<byte>, port: uint16):
    (r: seq<byte>)
    requires |packet| == PACKET_SIZE
    ensures |r| == PACKET_SIZE
  {
    var a := Addressed(packet, protocol, port);
    WithWord(little, a, CheckOffset(protocol), HeaderChecksum(little, src, dst, protocol, a[..HeaderLength(protocol)]))
  }

  method StampPacket(little: bool, src: Address, dst: Address, protocol: byte, packet: array<byte>, port: uint16)
    requires packet.Length == PACKET_SIZE && protocol in {IPPROTO_TCP, IPPROTO_UDP}
    modifies packet
    ensures packet[..] == Stamped(little, src, dst, protocol, old(packet[..]), port)
  {
    packet[2], packet[3] := port / 0x100, port % 0x100;
    if protocol == IPPROTO_TCP {
      packet[16], packet[17] := 0, 0;
    } else {
      packet[6], packet[7] := 0, 0;
    }
    ghost var a := Addressed(old(packet[..]), protocol, port);
    assert packet[..] == a;
    assert packet[..HeaderLength(protocol)] == a[..HeaderLength(protocol)];
    InitChecksum(little, protocol, packet, src, dst);
  }

  /** The probe of (scan, port) to a host, as it is sent. */
  function Wire(little: bool, src: Address, dst: Address, scan: uint16, port: uint16): (r: seq<byte>)
    ensures |r| == HeaderLength(ProtocolOf(scan))
  {
    Stamped(little, src, dst, ProtocolOf(scan), BasePacket(scan), port)[..HeaderLength(ProtocolOf(scan))]
  }

  /** A packet that was made for the scan, whatever port and checksum it now carries. */
  ghost predicate MadeFor(packet: seq<byte>, scan: uint16) {
    && |packet| == PACKET_SIZE
    && var o := CheckOffset(ProtocolOf(scan));
       forall k :: 0 <= k < PACKET_SIZE && k != 2 && k != 3 && k != o && k != o + 1 ==> packet[k] == BaseByte(scan, k)
  }

  /** Reusing the packet of the previous turn sends the same bytes as a fresh one would. */
  lemma ReuseIsHarmless(little: bool, src: Address, dst: Address, scan: uint16, packet: seq<byte>, port: uint16)
    requires MadeFor(packet, scan)
    ensures var next := Stamped(little, src, dst, ProtocolOf(scan), packet, port);
            MadeFor(next, scan) && next[..HeaderLength(ProtocolOf(scan))] == Wire(little, src, dst, scan, port)
  {
    var protocol := ProtocolOf(scan);
    assert Addressed(packet, protocol, port) == Addressed(BasePacket(scan), protocol, port);
  }

  /** Every probe verifies under its pseudo-header in network order, and in either host order. */
  lemma ProbeVerifies(little: bool, src: Address, dst: Address, scan: uint16, port: uint16, order: bool)
    ensures var wire := Wire(little, src, dst, scan, port);
            HeaderChecksum(order, src, dst, ProtocolOf(scan), wire) == 0
  {
    var protocol := ProtocolOf(scan);
    var len := HeaderLength(protocol);
    var o := CheckOffset(protocol);
    var header := Addressed(BasePacket(scan), protocol, port)[..len];
    var buf := PseudoHeader(src, dst, protocol, len) + header;
    var check := ChecksumOf(little, buf);
    StoredChecksumVerifies(little, buf, 12 + o);
    var wire := Wire(little, src, dst, scan, port);
    assert wire == WithWord(little, header, o, check);
    var sent := PseudoHeader(src, dst, protocol, len) + wire;
    assert sent == WithWord(little, buf, 12 + o, check);
    if order != little {
      VerifiesInAnyOrder(sent, little);
    }
  }

  /** The big-endian number in two bytes: ntohs. */
  function Ntohs(a: byte, b: byte): uint16 {
    0x100 * a + b
  }

  /** The probe carries its scan type and its port in the clear, as its two ports. */
  lemma ProbeCarriesCell(little: bool, src: Address, dst: Address, scan: uint16, port: uint16)
    ensures var wire := Wire(little, src, dst, scan, port);
            && Ntohs(wire[0], wire[1]) == 256 * (wire[0] as int) + (wire[1] as int) == scan
            && Ntohs(wire[2], wire[3]) == 256 * (wire[2] as int) + (wire[3] as int) == port
  {
  }

  /** A UDP probe on the wire: ports, length 8, and a checksum that verifies over source address,
      destination address and [0, 17, 0, 8]. */
  lemma UdpProbeBytes(little: bool, src: Address, dst: Address, port: uint16, order: bool)
    ensures var wire := Wire(little, src, dst, 6, port);
            && |wire| == 8 && wire[0] == 0 && wire[1] == 6
            && 256 * (wire[2] as int) + (wire[3] as int) == port && wire[4] == 0 && wire[5] == 8
            && ChecksumOf(order, src + dst + [0, 17, 0, 8] + wire) == 0
  {
    ProbeVerifies(little, src, dst, 6, port, order);
    PseudoBytes(src, dst, 17);
    ProbeCarriesCell(little, src, dst, 6, port);
  }

  /** A TCP probe on the wire: ports, sequence and acknowledgement number 0, data offset 5, the
      flags of its scan, window 0, urgent pointer 0, and a checksum that verifies over source
      address, destination address and [0, 6, 0, 20]. */
  lemma TcpProbeBytes(little: bool, src: Address, dst: Address, scan: uint16, port: uint16, order: bool)
    requires 1 <= scan <= 5
    ensures var wire := Wire(little, src, dst, scan, port);
            && |wire| == 20 && wire[0] == 0 && wire[1] == scan
            && 256 * (wire[2] as int) + (wire[3] as int) == port
            && (forall k :: 4 <= k < 16 && k != 12 && k != 13 ==> wire[k] == 0)
            && wire[12] == 0x50 && wire[13] == [2, 0, 1, 0x29, 0x10][scan - 1]
            && wire[18] == 0 && wire[19] == 0
            && ChecksumOf(order, src + dst + [0, 6, 0, 20] + wire) == 0
  {
    ProbeVerifies(little, src, dst, scan, port, order);
    PseudoBytes(src, dst, 6);
    ProbeCarriesCell(little, src, dst, scan, port);
    BaseBytes(scan);
  }
}
