/** The global state of the program: struct s_bag, without the sockets (includes/ft_nmap.h). */
module Bag {
  import opened CTypes

  datatype Scans = Scans(all: bool, nul: bool, syn: bool, ack: bool, fin: bool, xmas: bool, udp: bool)

  /** Scan type k is to be made (is_scan_asked). */
  predicate ScanAsked(s: Scans, k: int) {
    || (k == NUL && (s.all || s.nul))
    || (k == SYN && (s.all || s.syn))
    || (k == ACK && (s.all || s.ack))
    || (k == FIN && (s.all || s.fin))
    || (k == XMAS && (s.all || s.xmas))
    || (k == UDP && (s.all || s.udp))
  }

  const NO_SCANS := Scans(false, false, false, false, false, false, false)

  class Bag {
    var portsRange: bool
    var portsIndiv: bool
    var ip: bool
    var file: bool
    var speedup: bool
    var scan: bool

    var lenTabPortsIndiv: int
    var tabPortsIndiv: array<int32>
    var portFrom: int
    var portTo: int
    var countPorts: int
    var speedupVal: int
    var speedupOrigins: int

    /** The hosts to scan by name, later by address text; None for NULL. */
    var ipStr: Option<seq<string>>

    var scans: Scans
    var countScans: int

    const infoPort: array<bool>
    const infoScan: array<bool>

    /** Everything is zeroed, as main does. */
    constructor ()
      ensures Sized() && fresh(infoPort) && fresh(infoScan) && fresh(tabPortsIndiv)
      ensures !portsRange && !portsIndiv && !ip && !file && !speedup && !scan
      ensures portFrom == portTo == countPorts == speedupVal == speedupOrigins == countScans == 0
      ensures lenTabPortsIndiv == 0 && scans == NO_SCANS && ipStr == None
      ensures (forall p :: 0 <= p < RANGE_PORT ==> !infoPort[p]) && forall k :: 0 <= k < TOTAL_TYPE ==> !infoScan[k]
    {
      portsRange, portsIndiv, ip, file, speedup, scan := false, false, false, false, false, false;
      lenTabPortsIndiv, tabPortsIndiv := 0, new int32[0];
      portFrom, portTo, countPorts, speedupVal, speedupOrigins := 0, 0, 0, 0, 0;
      scans, countScans, ipStr := NO_SCANS, 0, None;
      infoPort := new bool[RANGE_PORT](_ => false);
      infoScan := new bool[TOTAL_TYPE](_ => false);
    }

    predicate Sized()
      reads `lenTabPortsIndiv, `tabPortsIndiv
    {
      && infoPort.Length == RANGE_PORT && infoScan.Length == TOTAL_TYPE && infoPort != infoScan
      && 0 <= lenTabPortsIndiv <= tabPortsIndiv.Length
    }

    predicate PortsGiven()
      reads `portsRange, `portsIndiv
    {
      portsRange || portsIndiv
    }

    /** The ports the scan is to cover. */
    predicate PortAsked(port: int)
      requires Sized()
      reads `portsRange, `portsIndiv, `portFrom, `portTo, `lenTabPortsIndiv, `tabPortsIndiv, tabPortsIndiv
    {
      || (portsIndiv && port in tabPortsIndiv[..lenTabPortsIndiv])
      || (portsRange && portFrom <= port <= portTo)
    }

    ghost function AskedPorts(): set<int>
      requires Sized()
      reads `portsRange, `portsIndiv, `portFrom, `portTo, `lenTabPortsIndiv, `tabPortsIndiv, tabPortsIndiv
    {
      set p | 0 <= p < RANGE_PORT && PortAsked(p)
    }
  }
}
