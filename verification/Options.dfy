/** The option parser (parsing/scan.c, parsing/speedup.c, parsing/parsing.c). */
module Options {
  import opened CTypes
  import opened Decimal
  import opened Split
  import opened PortGrammar
  import opened Ports
  import opened Bag
  import opened Counting
  import opened PortTable
  import opened Packet
  import opened Targets

  // ----- scan.c -----

  /** How option --scan names scan type k. */
  function ScanName(k: int): string {
    if k == SYN then "SYN" else if k == NUL then "NULL" else if k == FIN then "FIN"
    else if k == XMAS then "XMAS" else if k == ACK then "ACK" else if k == UDP then "UDP" else ""
  }

  /** The chain of comparisons with the names; 0 for an unknown one. */
  function ScanIndex(t: string): nat {
    if t == "SYN" then SYN else if t == "NULL" then NUL else if t == "FIN" then FIN
    else if t == "XMAS" then XMAS else if t == "ACK" then ACK else if t == "UDP" then UDP else 0
  }

  lemma NamesIndex(t: string, k: int)
    requires 1 <= k < TOTAL_TYPE
    ensures ScanName(k) == t <==> ScanIndex(t) == k
  {
    assert "NULL"[0] == 'N' && "XMAS"[0] == 'X' && "SYN"[0] == 'S' && "FIN"[0] == 'F'
        && "ACK"[0] == 'A' && "UDP"[0] == 'U';
  }

  predicate IsScanName(t: string) {
    t in ["SYN", "NULL", "FIN", "XMAS", "ACK", "UDP"]
  }

  /** The number of asked scan types among those below k. */
  function Tally(s: Scans, k: nat): nat {
    if k == 0 then 0 else Tally(s, k - 1) + if ScanAsked(s, k - 1) then 1 else 0
  }

  method ScansCount(list: Bag)
    modifies list`countScans
    ensures list.countScans == Tally(list.scans, TOTAL_TYPE) <= 6
  {
    ghost var s := list.scans;
    assert Tally(s, 7) == Tally(s, 6) + (if ScanAsked(s, 6) then 1 else 0);
    assert Tally(s, 6) == Tally(s, 5) + (if ScanAsked(s, 5) then 1 else 0);
    assert Tally(s, 5) == Tally(s, 4) + (if ScanAsked(s, 4) then 1 else 0);
    assert Tally(s, 4) == Tally(s, 3) + (if ScanAsked(s, 3) then 1 else 0);
    assert Tally(s, 3) == Tally(s, 2) + (if ScanAsked(s, 2) then 1 else 0);
    assert Tally(s, 2) == Tally(s, 1) + (if ScanAsked(s, 1) then 1 else 0);
    assert Tally(s, 1) == Tally(s, 0) + (if ScanAsked(s, 0) then 1 else 0);
    var i := 0;
    if list.scans.all {
      list.countScans := 6;
      return;
    }
    if list.scans.nul {
      i := i + 1;
    }
    if list.scans.fin {
      i := i + 1;
    }
    if list.scans.xmas {
      i := i + 1;
    }
    if list.scans.ack {
      i := i + 1;
    }
    if list.scans.udp {
      i := i + 1;
    }
    if list.scans.syn {
      i := i + 1;
    }
    list.countScans := i;
  }

  /** Exactly the scans named in the list are asked. */
  ghost predicate ScansNamed(s: Scans, names: seq<string>) {
    forall k :: 1 <= k < TOTAL_TYPE ==> (ScanAsked(s, k) <==> ScanName(k) in names)
  }

  lemma ScansNamedGrows(s: Scans, names: seq<string>, t: string, r: Scans)
    requires ScansNamed(s, names)
    requires forall k :: 1 <= k < TOTAL_TYPE ==> (ScanAsked(r, k) <==> ScanAsked(s, k) || ScanIndex(t) == k)
    ensures ScansNamed(r, names + [t])
  {
    forall k | 1 <= k < TOTAL_TYPE ensures ScanAsked(r, k) <==> ScanName(k) in names + [t] {
      NamesIndex(t, k);
    }
  }

  lemma KnownNames(t: string)
    ensures IsScanName(t) <==> ScanIndex(t) != 0
  {
  }

  /** The flags of the scans are set by their names. */
  ghost predicate FlagsNamed(s: Scans, names: seq<string>) {
    && (s.syn <==> "SYN" in names) && (s.nul <==> "NULL" in names) && (s.fin <==> "FIN" in names)
    && (s.xmas <==> "XMAS" in names) && (s.ack <==> "ACK" in names) && (s.udp <==> "UDP" in names)
  }

  /** Scan types 1 to 6 are SYN, NULL, FIN, XMAS, ACK and UDP. */
  lemma ScansByName(s: Scans, names: seq<string>)
    requires ScansNamed(s, names) && !s.all
    ensures FlagsNamed(s, names)
  {
    assert ScanAsked(s, 1) <==> ScanName(1) in names;
    assert ScanAsked(s, 2) <==> ScanName(2) in names;
    assert ScanAsked(s, 3) <==> ScanName(3) in names;
    assert ScanAsked(s, 4) <==> ScanName(4) in names;
    assert ScanAsked(s, 5) <==> ScanName(5) in names;
    assert ScanAsked(s, 6) <==> ScanName(6) in names;
  }

  /** The flags with the named one set. */
  function WithScan(s: Scans, t: string): Scans {
    Scans(s.all, s.nul || t == "NULL", s.syn || t == "SYN", s.ack || t == "ACK",
          s.fin || t == "FIN", s.xmas || t == "XMAS", s.udp || t == "UDP")
  }

  lemma WithScanAsks(s: Scans, t: string, k: int)
    requires !s.all && 1 <= k < TOTAL_TYPE
    ensures ScanAsked(WithScan(s, t), k) <==> ScanAsked(s, k) || ScanIndex(t) == k
  {
  }

  /** One comparison chain of check_scan_option. */
  method SetScan(scans: Scans, t: string) returns (known: bool, r: Scans)
    ensures known <==> t in ["SYN", "NULL", "FIN", "XMAS", "ACK", "UDP"]
    ensures r.all == scans.all && (r.syn <==> scans.syn || t == "SYN") && (r.nul <==> scans.nul || t == "NULL")
    ensures (r.fin <==> scans.fin || t == "FIN") && (r.xmas <==> scans.xmas || t == "XMAS")
    ensures (r.ack <==> scans.ack || t == "ACK") && (r.udp <==> scans.udp || t == "UDP")
  {
    r := scans;
    known := true;
    if t == "SYN" {
      r := r.(syn := true);
    } else if t == "NULL" {
      r := r.(nul := true);
    } else if t == "FIN" {
      r := r.(fin := true);
    } else if t == "XMAS" {
      r := r.(xmas := true);
    } else if t == "ACK" {
      r := r.(ack := true);
    } else if t == "UDP" {
      r := r.(udp := true);
    } else {
      known := false;
    }
  }

  /** The loop of check_scan_option. */
  method SetScans(scans: Scans, tab: seq<string>) returns (known: bool, r: Scans)
    requires !scans.all && ScansNamed(scans, [])
    ensures known <==> ScanListKnown(tab)
    ensures known ==> !r.all && ScansNamed(r, tab) && FlagsNamed(r, tab)
  {
    var i := 0;
    r := scans;
    ghost var seen: seq<string> := [];
    while i < |tab|
      invariant i <= |tab| && seen == tab[..i]
      invariant !r.all && ScansNamed(r, seen)
      invariant forall k :: 0 <= k < i ==> IsScanName(tab[k])
    {
      var next;
      known, next := SetScan(r, tab[i]);
      KnownNames(tab[i]);
      if !known {
        return;
      }
      forall k | 1 <= k < TOTAL_TYPE ensures ScanAsked(next, k) <==> ScanAsked(r, k) || ScanIndex(tab[i]) == k {
        WithScanAsks(r, tab[i], k);
        assert next == WithScan(r, tab[i]);
      }
      ScansNamedGrows(r, seen, tab[i], next);
      r := next;
      seen := seen + [tab[i]];
      i := i + 1;
    }
    assert tab[..i] == tab;
    ScansByName(r, tab);
    known := true;
  }

  lemma NoScanNamed()
    ensures ScansNamed(NO_SCANS, [])
  {
  }

  /** The option is taken once, when every item is a scan name; it asks exactly the named scans. */
  method CheckScanOption(list: Bag, av: string) returns (outcome: Outcome)
    requires !list.scan ==> list.scans == NO_SCANS
    modifies list`scan, list`scans, list`countScans
    ensures outcome == Continue <==> !old(list.scan) && ScanListKnown(Tokens(av, ','))
    ensures outcome == Continue ==>
              && list.scan && !list.scans.all && ScansNamed(list.scans, Tokens(av, ','))
              && FlagsNamed(list.scans, Tokens(av, ','))
              && list.countScans == Tally(list.scans, TOTAL_TYPE) <= 6
  {
    if list.scan {
      return Exit;
    }
    var tab := SplitTable(av, ',');
    NoScanNamed();
    var known, scans := SetScans(list.scans, tab);
    if !known {
      return Exit;
    }
    list.scans := scans;
    list.scan := true;
    ScansCount(list);
    return Continue;
  }

  ghost predicate ScanListKnown(names: seq<string>) {
    forall k :: 0 <= k < |names| ==> IsScanName(names[k])
  }

  method IsScanAsked(list: Bag, scan: int) returns (r: bool)
    ensures r <==> ScanAsked(list.scans, scan)
  {
    if (list.scans.all || list.scans.nul) && scan == NUL {
      return true;
    }
    if (list.scans.all || list.scans.syn) && scan == SYN {
      return true;
    }
    if (list.scans.all || list.scans.ack) && scan == ACK {
      return true;
    }
    if (list.scans.all || list.scans.fin) && scan == FIN {
      return true;
    }
    if (list.scans.all || list.scans.xmas) && scan == XMAS {
      return true;
    }
    if (list.scans.all || list.scans.udp) && scan == UDP {
      return true;
    }
    return false;
  }

  // ----- the invariant that every option keeps, in any order -----

  ghost predicate ScansKept(list: Bag)
    reads list`scan, list`scans, list`countScans
  {
    if list.scan then !list.scans.all && list.countScans == Tally(list.scans, TOTAL_TYPE) <= 6
    else list.scans == NO_SCANS && list.countScans == 0
  }

  ghost predicate PortsKept(list: Bag)
    reads list`countPorts, list`portsRange, list`portsIndiv, list`portFrom, list`portTo
    reads list`lenTabPortsIndiv, list`tabPortsIndiv, list.tabPortsIndiv
  {
    && list.Sized()
    && if list.PortsGiven() then
         && 1 <= list.countPorts == |list.AskedPorts()| <= 1024
         && forall p :: list.PortAsked(p) ==> 0 <= p < RANGE_PORT
       else list.countPorts == 0 && list.portFrom == list.portTo == 0
  }

  /** While no ports are given, only the raise to one thread a scan can have enabled the threads. */
  ghost predicate SpeedupKept(list: Bag)
    reads list`speedup, list`speedupVal, list`countScans, list`countPorts, list`portsRange, list`portsIndiv
  {
    list.speedup ==>
      && 1 <= list.countScans <= list.speedupVal
      && if list.PortsGiven() then list.speedupVal <= list.countScans * list.countPorts
         else list.speedupVal == list.countScans
  }

  ghost predicate OptionsKept(list: Bag)
    reads list, list.tabPortsIndiv
  {
    ScansKept(list) && PortsKept(list) && SpeedupKept(list)
  }

  // ----- speedup.c -----

  /** The thread count that is used for a wish v. */
  function Clamped(v: int, scans: int, all: int): int {
    if v < scans then scans else if v > all then all else v
  }

  method CheckSpeedupLogic(list: Bag)
    modifies list`speedupVal
    ensures list.speedupVal == Clamped(old(list.speedupVal), list.countScans, list.countScans * list.countPorts)
  {
    if list.speedupVal < list.countScans {
      list.speedupVal := list.countScans;
    } else if list.speedupVal > list.countScans * list.countPorts {
      list.speedupVal := list.countScans * list.countPorts;
    }
  }

  lemma OnePortSuffices(scans: nat, ports: nat)
    requires ports >= 1
    ensures scans <= scans * ports
  {
    assert scans * ports == scans + scans * (ports - 1);
  }

  /** More than one thread after the clamp means there are scans to share them, and, when
      no port is given yet, exactly one thread a scan. */
  lemma {:induction false} ClampedIsSound(v: int, scans: int, ports: int)
    requires v >= 0 && 0 <= scans <= 6 && 0 <= ports
    requires Clamped(v, scans, scans * ports) > 1
    ensures 1 <= scans <= Clamped(v, scans, scans * ports)
    ensures if ports >= 1 then Clamped(v, scans, scans * ports) <= scans * ports
            else Clamped(v, scans, scans * ports) == scans
  {
    if scans == 0 || ports == 0 {
      assert scans * ports == 0;
    } else {
      OnePortSuffices(scans, ports);
    }
  }

  /** The assignments of check_speedup_option, for any counts. */
  method EnableThreads(list: Bag, speedup: int)
    requires !list.speedup && speedup >= 0 && 0 <= list.countScans <= 6
    requires list.countPorts >= 0 && (list.PortsGiven() <==> list.countPorts >= 1)
    modifies list`speedup, list`speedupVal, list`speedupOrigins
    ensures SpeedupKept(list) && list.speedupOrigins == speedup
    ensures list.speedupVal == Clamped(speedup, list.countScans, list.countScans * list.countPorts)
    ensures list.speedup <==> list.speedupVal > 1
  {
    list.speedupVal := speedup;
    list.speedupOrigins := speedup;
    CheckSpeedupLogic(list);
    if list.speedupVal > 1 {
      ClampedIsSound(speedup, list.countScans, list.countPorts);
      list.speedup := true;
    }
  }

  method UseSpeedup(list: Bag, speedup: int)
    requires OptionsKept(list) && !list.speedup && speedup >= 0
    modifies list`speedup, list`speedupVal, list`speedupOrigins
    ensures OptionsKept(list) && list.speedupOrigins == speedup
    ensures list.speedupVal == Clamped(speedup, list.countScans, list.countScans * list.countPorts)
    ensures list.speedup <==> list.speedupVal > 1
  {
    EnableThreads(list, speedup);
  }

  method CheckSpeedupOption(list: Bag, str: string) returns (outcome: Outcome)
    requires AllDigits(str) ==> Value(AtoiRun(str)) <= INT_MAX
    requires OptionsKept(list)
    modifies list`speedup, list`speedupVal, list`speedupOrigins
    ensures outcome == Continue <==> !old(list.speedup) && AllDigits(str) && AtoiOf(str) <= 250
    ensures outcome == Continue ==>
              && OptionsKept(list) && list.speedupOrigins == AtoiOf(str)
              && list.speedupVal == Clamped(AtoiOf(str), list.countScans, list.countScans * list.countPorts)
              && (list.speedup <==> list.speedupVal > 1)
  {
    if list.speedup {
      return Exit;
    }
    var digits := OnlyDigitsInStr(str);
    if !digits {
      return Exit;
    }
    var speedup := FtAtoi(str);
    if speedup > 250 {
      return Exit;
    }
    NoSign(str);
    UseSpeedup(list, speedup);
    return Continue;
  }

  lemma NoSign(str: string)
    requires AllDigits(str)
    ensures AtoiOf(str) >= 0
  {
    var b := SkipBlanks(str, 0);
    assert b < |str| ==> IsDigit(str[b]);
  }

  // ----- execution.c: port_asked -----

  method PortAsked(list: Bag, port: int) returns (r: bool)
    requires list.Sized()
    ensures r <==> list.PortAsked(port)
  {
    var i := 0;
    if list.portsIndiv {
      while i < list.lenTabPortsIndiv
        invariant 0 <= i <= list.lenTabPortsIndiv
        invariant port !in list.tabPortsIndiv[..i]
      {
        if list.tabPortsIndiv[i] == port {
          assert port == list.tabPortsIndiv[..list.lenTabPortsIndiv][i];
          return true;
        }
        i := i + 1;
      }
    }
    if list.portsRange {
      var start := list.portFrom;
      while start <= list.portTo
        invariant !(list.portFrom <= port < start)
        invariant list.portFrom <= start
      {
        if start == port {
          return true;
        }
        start := start + 1;
      }
    }
    return false;
  }

  // ----- parsing.c -----

  /** The names in a list all resolve. */
  predicate GoodNames(world: World, arg: string) {
    AllResolve(world, Tokens(arg, ','))
  }

  /** The file can be opened, has a line, and its lines all resolve. */
  predicate GoodFile(world: World, name: string) {
    world.files(name).Some? && LinesOf(world, name) != [] && AllResolve(world, LinesOf(world, name))
  }

  /** --ip: taken if no target has been given and all names resolve; the texts of their
      addresses are kept. */
  method CheckIpOption(list: Bag, str: string, world: World) returns (outcome: Outcome)
    modifies list`ip, list`ipStr
    ensures outcome == Continue <==> !list.file && !old(list.ip) && GoodNames(world, str)
    ensures outcome == Continue ==> list.ip && list.ipStr == Some(Dotted(Resolved(world, Tokens(str, ','))))
  {
    if list.file || list.ip {
      return Exit;
    }
    var tab := SplitTable(str, ',');
    var texts;
    outcome, texts := ResolveAll(world, tab);
    if outcome == Continue {
      list.ipStr := Some(texts);
      list.ip := true;
    }
  }

  /** --file: the same for the lines of a file, which must not be empty. */
  method CheckFileOption(list: Bag, fname: string, world: World) returns (outcome: Outcome)
    requires world.files(fname).Some? ==> Readable(world.files(fname).value)
    modifies list`file, list`ipStr
    ensures outcome == Continue <==> !old(list.file) && old(list.ipStr).None? && GoodFile(world, fname)
    ensures outcome == Continue ==> list.file && list.ipStr == Some(Dotted(Resolved(world, LinesOf(world, fname))))
  {
    if list.file {
      return Exit;
    }
    var tab := ReadFile(world, fname);
    if tab.None? || list.ipStr.Some? || tab.value == [] {
      return Exit;
    }
    var texts;
    outcome, texts := ResolveAll(world, tab.value);
    if outcome == Continue {
      list.ipStr := Some(texts);
      list.file := true;
    }
  }

  lemma {:induction false} AllScansTally(s: Scans)
    requires s.all
    ensures Tally(s, TOTAL_TYPE) == 6
  {
    assert Tally(s, 7) == Tally(s, 6) + 1;
    assert Tally(s, 6) == Tally(s, 5) + 1;
    assert Tally(s, 5) == Tally(s, 4) + 1;
    assert Tally(s, 4) == Tally(s, 3) + 1;
    assert Tally(s, 3) == Tally(s, 2) + 1;
    assert Tally(s, 2) == Tally(s, 1) + 1;
    assert Tally(s, 1) == Tally(s, 0);
  }

  /** What holds of the options once the defaults are filled in. */
  ghost predicate Complete(list: Bag)
    reads list, list.tabPortsIndiv
  {
    && PortsKept(list) && list.PortsGiven()
    && list.countScans == Tally(list.scans, TOTAL_TYPE) <= 6
    && (list.speedup ==> 1 <= list.countScans <= list.speedupVal <= list.countScans * list.countPorts)
  }

  method DefaultPorts(list: Bag)
    requires OptionsKept(list) && !list.PortsGiven()
    modifies list`portsRange, list`portFrom, list`portTo, list`countPorts
    ensures OptionsKept(list) && list.PortsGiven()
    ensures list.AskedPorts() == Interval(1, 1024)
  {
    list.portsRange := true;
    list.portFrom := 1;
    list.portTo := 1024;
    list.countPorts := 1024;
    IntervalSize(1, 1024);
    assert forall p :: p in Interval(1, 1024) <==> InRange(1, 1024, p);
    assert list.AskedPorts() == Interval(1, 1024);
    if list.speedup {
      OnePortSuffices(list.countScans, 1024);
    }
  }

  /** Without --scan all six scans are made; no threads have been enabled then. */
  method DefaultScans(list: Bag)
    requires OptionsKept(list) && list.PortsGiven()
    modifies list`scans, list`countScans
    ensures Complete(list)
    ensures if list.scan then list.scans == old(list.scans) else list.scans.all
  {
    if !list.scan {
      list.scans := list.scans.(all := true);
      list.countScans := 6;
      AllScansTally(list.scans);
    }
  }

  /** The defaults: ports 1 to 1024, and all six scans. */
  method CheckMandatoryOptions(list: Bag) returns (outcome: Outcome)
    requires OptionsKept(list)
    modifies list`portsRange, list`portFrom, list`portTo, list`countPorts, list`scans, list`countScans
    ensures outcome == Continue <==> list.ip || list.file
    ensures outcome == Continue ==> Complete(list)
    ensures outcome == Continue ==>
              list.AskedPorts() == if old(list.PortsGiven()) then old(list.AskedPorts()) else Interval(1, 1024)
    ensures outcome == Continue ==> if list.scan then list.scans == old(list.scans) else list.scans.all
  {
    if !list.ip && !list.file {
      return Exit;
    }
    if !list.portsRange && !list.portsIndiv {
      DefaultPorts(list);
    }
    DefaultScans(list);
    return Continue;
  }

  lemma {:induction false} TallyIsRank(s: Scans, on: seq<bool>, k: nat)
    requires 1 <= k <= TOTAL_TYPE == |on|
    requires forall j :: 1 <= j < TOTAL_TYPE ==> (on[j] <==> ScanAsked(s, j))
    ensures Rank(on, 1, k) == Tally(s, k)
  {
    if k > 1 {
      TallyIsRank(s, on, k - 1);
    } else {
      assert Tally(s, 1) == Tally(s, 0);
    }
  }

  /** What the send phase may rely on. */
  ghost predicate Launchable(list: Bag)
    reads list, list.tabPortsIndiv, list.infoPort, list.infoScan
  {
    && list.Sized()
    && (forall p :: 0 <= p < RANGE_PORT ==> (list.infoPort[p] <==> list.PortAsked(p)))
    && (forall k :: 1 <= k < TOTAL_TYPE ==> (list.infoScan[k] <==> ScanAsked(list.scans, k)))
    && 1 <= list.countPorts == Total(list.infoPort[..]) <= 1024
    && list.countScans == Rank(list.infoScan[..], 1, TOTAL_TYPE)
    && (list.speedup ==> 1 <= list.countScans <= list.speedupVal <= list.countScans * list.countPorts)
  }

  method PortsIntoGlobalList(list: Bag)
    requires list.Sized()
    modifies list.infoPort
    ensures forall p :: 0 <= p < RANGE_PORT ==> (list.infoPort[p] <==> list.PortAsked(p))
    ensures list.AskedPorts() == old(list.AskedPorts())
    ensures forall p :: 0 <= p < RANGE_PORT ==> (list.infoPort[p] <==> p in list.AskedPorts())
  {
    var port := 0;
    while port < RANGE_PORT
      invariant 0 <= port <= RANGE_PORT
      invariant forall p :: 0 <= p < port ==> (list.infoPort[p] <==> list.PortAsked(p))
    {
      var asked := PortAsked(list, port);
      if asked {
        list.infoPort[port] := true;
      } else {
        list.infoPort[port] := false;
      }
      port := port + 1;
    }
  }

  method ScansIntoGlobalList(list: Bag)
    requires list.Sized()
    modifies list.infoScan
    ensures forall k :: 1 <= k < TOTAL_TYPE ==> (list.infoScan[k] <==> ScanAsked(list.scans, k))
  {
    var i := 1;
    while i < TOTAL_TYPE
      invariant 1 <= i <= TOTAL_TYPE
      invariant forall k :: 1 <= k < i ==> (list.infoScan[k] <==> ScanAsked(list.scans, k))
    {
      var asked := IsScanAsked(list, i);
      list.infoScan[i] := asked;
      i := i + 1;
    }
  }

  /** The flags the workers and the scheduler read: their counts are the recorded ones. */
  /** What the counts say of the flags. */
  lemma FlagsAreCounted(list: Bag)
    requires Complete(list) && (forall p :: 0 <= p < RANGE_PORT ==> (list.infoPort[p] <==> p in list.AskedPorts()))
    requires forall k :: 1 <= k < TOTAL_TYPE ==> (list.infoScan[k] <==> ScanAsked(list.scans, k))
    ensures list.countPorts == Total(list.infoPort[..]) && list.countScans == Rank(list.infoScan[..], 1, TOTAL_TYPE)
  {
    TallyIsRank(list.scans, list.infoScan[..], TOTAL_TYPE);
    RankIsSize(list.infoPort[..], RANGE_PORT, list.AskedPorts());
  }

  method PortsAndTypeAskedIntoGlobalList(list: Bag)
    requires Complete(list)
    modifies list.infoPort, list.infoScan
    ensures Launchable(list)
    ensures forall p :: 0 <= p < RANGE_PORT ==> (list.infoPort[p] <==> p in old(list.AskedPorts()))
  {
    PortsIntoGlobalList(list);
    ScansIntoGlobalList(list);
    FlagsAreCounted(list);
  }

  datatype OptionName = PortsOption | IpOption | FileOption | SpeedupOption | ScanOption | UnknownOption

  /** The chain of string comparisons on an argument. */
  function NameOf(t: string): OptionName {
    if t == "--scan" then ScanOption
    else if t == "--ip" then IpOption
    else if t == "--ports" then PortsOption
    else if t == "--speedup" then SpeedupOption
    else if t == "--file" then FileOption
    else UnknownOption
  }

  method CheckHelpOption(av: seq<string>) returns (outcome: Outcome)
    ensures outcome == Exit <==> exists j :: 1 <= j < |av| && av[j] == "--help"
  {
    var i := 1;
    while i < |av|
      invariant 1 <= i && forall j :: 1 <= j < i && j < |av| ==> av[j] != "--help"
    {
      if av[i] == "--help" {
        return Exit;
      }
      i := i + 1;
    }
    return Continue;
  }

  /** The five options. */
  predicate IsOption(t: string) {
    t in ["--ports", "--ip", "--file", "--speedup", "--scan"]
  }

  method CheckOptions(av: seq<string>) returns (outcome: Outcome)
    ensures outcome == Continue <==> forall j :: 1 <= j < |av| && j % 2 == 1 ==> IsOption(av[j])
  {
    var i := 1;
    while i < |av|
      invariant 1 <= i && forall j :: 1 <= j < i && j < |av| && j % 2 == 1 ==> IsOption(av[j])
    {
      if i % 2 == 1 {
        if av[i] != "--ports" && av[i] != "--ip" && av[i] != "--file" && av[i] != "--speedup" && av[i] != "--scan" {
          return Exit;
        }
      }
      i := i + 1;
    }
    return Continue;
  }

  /** The comparisons with the last argument. */
  method IsLastOption(t: string) returns (option: bool)
    ensures option <==> IsOption(t)
  {
    return t == "--ports" || t == "--ip" || t == "--file" || t == "--speedup" || t == "--scan";
  }

  /** An option and the word that follows it. */
  datatype Word = Word(name: OptionName, arg: string)

  /** What the loop of ft_parsing looks at: every word after the program name, with its successor. */
  function Words(av: seq<string>): (words: seq<Word>)
    requires |av| >= 2
    ensures |words| == |av| - 2
  {
    seq(|av| - 2, k requires 0 <= k < |av| - 2 => Word(NameOf(av[k + 1]), av[k + 2]))
  }

  /** The numbers that are read fit an int, and the file that is read is text the table has room for. */
  ghost predicate WordFits(w: Word, world: World) {
    && (w.name == PortsOption && PortList(w.arg) ==> NumbersFit(w.arg))
    && (w.name == SpeedupOption && AllDigits(w.arg) ==> Value(AtoiRun(w.arg)) <= INT_MAX)
    && (w.name == FileOption && world.files(w.arg).Some? ==> Readable(world.files(w.arg).value))
  }

  ghost predicate WordsFit(words: seq<Word>, world: World) {
    forall k :: 0 <= k < |words| ==> WordFits(words[k], world)
  }

  ghost predicate ArgumentsFit(av: seq<string>, world: World) {
    |av| >= 2 ==> WordsFit(Words(av), world)
  }

  // ----- what the words ask for -----

  /** The addresses of the named hosts. */
  datatype Target = NoHosts | FromNames(addresses: seq<Address>) | FromFile(addresses: seq<Address>)

  /** The ports and scans given so far, the thread count in force (None while the run is to be
      sequential), and the hosts. */
  datatype Request = Request(ports: Option<set<int>>, scans: Option<seq<string>>, threads: Option<int>, hosts: Target)

  const NOTHING := Request(None, None, None, NoHosts)

  function PortCount(r: Request): nat {
    match r.ports
    case Some(ports) => |ports|
    case None => 0
  }

  /** The number of scan types below k that are named. */
  function NamedBelow(names: seq<string>, k: nat): nat {
    if k <= 1 then 0 else NamedBelow(names, k - 1) + if ScanName(k - 1) in names then 1 else 0
  }

  function ScanCount(r: Request): nat {
    match r.scans
    case Some(names) => NamedBelow(names, TOTAL_TYPE)
    case None => 0
  }

  /** The thread count that a wish v brings into force. */
  function ThreadsFor(v: int, scans: nat, ports: nat): Option<int> {
    if Clamped(v, scans, scans * ports) > 1 then Some(Clamped(v, scans, scans * ports)) else None
  }

  /** The thread count depends on the scans and ports given before the option that asks for
      threads, not on later ones. */
  ghost function After(r: Request, w: Word, world: World): Request {
    match w.name
    case PortsOption => if w.arg == "" then r else r.(ports := Some(PortSet(w.arg)))
    case ScanOption => r.(scans := Some(Tokens(w.arg, ',')))
    case SpeedupOption => r.(threads := ThreadsFor(AtoiOf(w.arg), ScanCount(r), PortCount(r)))
    case IpOption => r.(hosts := FromNames(Resolved(world, Tokens(w.arg, ','))))
    case FileOption => r.(hosts := FromFile(Resolved(world, LinesOf(world, w.arg))))
    case UnknownOption => r
  }

  ghost function Requested(words: seq<Word>, world: World): Request {
    if words == [] then NOTHING else After(Requested(words[..|words| - 1], world), words[|words| - 1], world)
  }

  /** The loop of ft_parsing goes on after word w when r has been asked for before. */
  ghost predicate Passes(w: Word, r: Request, world: World) {
    match w.name
    case PortsOption => r.ports.None? && Acceptable(w.arg)
    case ScanOption => r.scans.None? && ScanListKnown(Tokens(w.arg, ','))
    case SpeedupOption => r.threads.None? && AllDigits(w.arg) && AtoiOf(w.arg) <= 250
    case IpOption => r.hosts.NoHosts? && GoodNames(world, w.arg)
    case FileOption => r.hosts.NoHosts? && GoodFile(world, w.arg)
    case UnknownOption => true
  }

  ghost predicate AllPass(words: seq<Word>, world: World) {
    words == []
    || (AllPass(words[..|words| - 1], world)
        && Passes(words[|words| - 1], Requested(words[..|words| - 1], world), world))
  }

  /** A word that passes overrides nothing. */
  lemma PassingKeeps(r: Request, w: Word, world: World)
    requires Passes(w, r, world)
    ensures r.ports.Some? ==> After(r, w, world).ports == r.ports
    ensures r.scans.Some? ==> After(r, w, world).scans == r.scans
    ensures !r.hosts.NoHosts? ==> After(r, w, world).hosts == r.hosts
    ensures r.threads.Some? ==> After(r, w, world).threads == r.threads
  {
  }

  /** What the word asks for is asked for. */
  ghost predicate Heard(w: Word, r: Request, world: World) {
    match w.name
    case PortsOption => w.arg != "" ==> r.ports == Some(PortSet(w.arg))
    case ScanOption => r.scans == Some(Tokens(w.arg, ','))
    case IpOption => r.hosts == FromNames(Resolved(world, Tokens(w.arg, ',')))
    case FileOption => r.hosts == FromFile(Resolved(world, LinesOf(world, w.arg)))
    case _ => true
  }

  lemma HeardStays(w: Word, r: Request, next: Word, world: World)
    requires Heard(w, r, world) && Passes(next, r, world)
    ensures Heard(w, After(r, next, world), world)
  {
    PassingKeeps(r, next, world);
  }

  /** Wherever they stand, the words that give the ports, the scans and the hosts of an
      accepted command line are heard. */
  lemma {:induction false} OrderDoesNotMatter(words: seq<Word>, world: World, k: nat)
    requires AllPass(words, world) && k < |words|
    ensures Heard(words[k], Requested(words, world), world)
  {
    var n := |words| - 1;
    if k < n {
      OrderDoesNotMatter(words[..n], world, k);
      HeardStays(words[k], Requested(words[..n], world), words[n], world);
    }
  }

  ghost predicate SomeWord(words: seq<Word>, name: OptionName) {
    exists k :: 0 <= k < |words| && words[k].name == name
  }

  lemma SomeWordGrows(words: seq<Word>, name: OptionName)
    requires words != []
    ensures SomeWord(words, name) <==> SomeWord(words[..|words| - 1], name) || words[|words| - 1].name == name
  {
    var n := |words| - 1;
    assert forall k :: 0 <= k < n ==> words[..n][k] == words[k];
  }

  /** What no word gives is not asked for. */
  lemma {:induction false} OnlyWhatIsGiven(words: seq<Word>, world: World)
    ensures Requested(words, world).ports.Some? ==> SomeWord(words, PortsOption)
    ensures Requested(words, world).scans.Some? ==> SomeWord(words, ScanOption)
    ensures Requested(words, world).threads.Some? ==> SomeWord(words, SpeedupOption)
    ensures Requested(words, world).hosts.FromNames? ==> SomeWord(words, IpOption)
    ensures Requested(words, world).hosts.FromFile? ==> SomeWord(words, FileOption)
  {
    if words != [] {
      OnlyWhatIsGiven(words[..|words| - 1], world);
      SomeWordGrows(words, PortsOption);
      SomeWordGrows(words, ScanOption);
      SomeWordGrows(words, SpeedupOption);
      SomeWordGrows(words, IpOption);
      SomeWordGrows(words, FileOption);
    }
  }

  // ----- the same for the arguments themselves -----

  /** A word is what its argument spells. */
  lemma WordSpells(av: seq<string>, k: nat)
    requires |av| >= 2 && k < |av| - 2
    ensures var w := Words(av)[k];
            && (w.name == PortsOption <==> av[k + 1] == "--ports") && (w.name == IpOption <==> av[k + 1] == "--ip")
            && (w.name == FileOption <==> av[k + 1] == "--file") && (w.name == ScanOption <==> av[k + 1] == "--scan")
            && (w.name == SpeedupOption <==> av[k + 1] == "--speedup") && w.arg == av[k + 2]
  {
  }

  lemma {:induction false} PassesAt(words: seq<Word>, world: World, k: nat)
    requires AllPass(words, world) && k < |words|
    ensures Passes(words[k], Requested(words[..k], world), world)
  {
    PrefixPasses(words, world, k + 1);
    OneWordMore(words, world, k);
  }

  /** Threads, once in force, stay as they are. */
  lemma {:induction false} ThreadsStay(words: seq<Word>, world: World, k: nat)
    requires AllPass(words, world) && k <= |words| && Requested(words[..k], world).threads.Some?
    ensures Requested(words, world).threads == Requested(words[..k], world).threads
  {
    if k < |words| {
      var n := |words| - 1;
      assert words[..n][..k] == words[..k];
      ThreadsStay(words[..n], world, k);
      PassingKeeps(Requested(words[..n], world), words[n], world);
    } else {
      assert words[..k] == words;
    }
  }

  lemma PortsArgument(av: seq<string>, world: World, k: nat)
    requires |av| >= 2 && k < |av| - 2 && AllPass(Words(av), world) && av[k + 1] == "--ports"
    ensures Acceptable(av[k + 2])
    ensures av[k + 2] != "" ==> Requested(Words(av), world).ports == Some(PortSet(av[k + 2]))
  {
    WordSpells(av, k);
    PassesAt(Words(av), world, k);
    OrderDoesNotMatter(Words(av), world, k);
  }

  lemma ScanArgument(av: seq<string>, world: World, k: nat)
    requires |av| >= 2 && k < |av| - 2 && AllPass(Words(av), world) && av[k + 1] == "--scan"
    ensures ScanListKnown(Tokens(av[k + 2], ','))
    ensures Requested(Words(av), world).scans == Some(Tokens(av[k + 2], ','))
  {
    WordSpells(av, k);
    PassesAt(Words(av), world, k);
    OrderDoesNotMatter(Words(av), world, k);
  }

  lemma IpArgument(av: seq<string>, world: World, k: nat)
    requires |av| >= 2 && k < |av| - 2 && AllPass(Words(av), world) && av[k + 1] == "--ip"
    ensures AllResolve(world, Tokens(av[k + 2], ','))
    ensures Requested(Words(av), world).hosts == FromNames(Resolved(world, Tokens(av[k + 2], ',')))
  {
    WordSpells(av, k);
    PassesAt(Words(av), world, k);
    OrderDoesNotMatter(Words(av), world, k);
  }

  lemma FileArgument(av: seq<string>, world: World, k: nat)
    requires |av| >= 2 && k < |av| - 2 && AllPass(Words(av), world) && av[k + 1] == "--file"
    ensures world.files(av[k + 2]).Some?
    ensures var names := LineReader.Lines(world.files(av[k + 2]).value);
            && names != [] && AllResolve(world, names)
            && Requested(Words(av), world).hosts == FromFile(Resolved(world, names))
  {
    WordSpells(av, k);
    PassesAt(Words(av), world, k);
    OrderDoesNotMatter(Words(av), world, k);
  }

  lemma SpeedupArgument(av: seq<string>, world: World, k: nat)
    requires |av| >= 2 && k < |av| - 2 && AllPass(Words(av), world) && av[k + 1] == "--speedup"
    ensures AllDigits(av[k + 2]) && AtoiOf(av[k + 2]) <= 250
    ensures var before := Requested(Words(av)[..k], world);
            && before.threads == None
            && var wish := ThreadsFor(AtoiOf(av[k + 2]), ScanCount(before), PortCount(before));
               wish.Some? ==> Requested(Words(av), world).threads == wish
  {
    WordSpells(av, k);
    PassesAt(Words(av), world, k);
    OneWordMore(Words(av), world, k);
    if Requested(Words(av)[..k + 1], world).threads.Some? {
      ThreadsStay(Words(av), world, k + 1);
    }
  }

  lemma SomeArgument(av: seq<string>, name: OptionName)
    requires |av| >= 2 && SomeWord(Words(av), name)
    ensures name == PortsOption ==> "--ports" in av
    ensures name == ScanOption ==> "--scan" in av
    ensures name == SpeedupOption ==> "--speedup" in av
    ensures name == IpOption ==> "--ip" in av
    ensures name == FileOption ==> "--file" in av
  {
    var k :| 0 <= k < |Words(av)| && Words(av)[k].name == name;
    WordSpells(av, k);
    assert av[k + 1] in av;
  }

  /** What no argument gives is not asked for. */
  lemma OnlyArgumentsAreHeard(av: seq<string>, world: World)
    requires |av| >= 2
    ensures var r := Requested(Words(av), world);
            && (r.ports.Some? ==> "--ports" in av) && (r.scans.Some? ==> "--scan" in av)
            && (r.threads.Some? ==> "--speedup" in av)
            && (r.hosts.FromNames? ==> "--ip" in av) && (r.hosts.FromFile? ==> "--file" in av)
  {
    OnlyWhatIsGiven(Words(av), world);
    forall name | SomeWord(Words(av), name)
      ensures name == PortsOption ==> "--ports" in av
      ensures name == ScanOption ==> "--scan" in av
      ensures name == SpeedupOption ==> "--speedup" in av
      ensures name == IpOption ==> "--ip" in av
      ensures name == FileOption ==> "--file" in av
    {
      SomeArgument(av, name);
    }
  }

  /** Threads come into force only if scans were given before the option that asks for them,
      and then the wish is kept between one thread a scan and one thread a probe if ports were
      given before too; else it is used only as far as one thread a scan. */
  lemma {:induction false} ThreadsNeedScansAndPortsFirst(v: nat, scans: nat, ports: nat)
    requires scans <= 6
    ensures scans == 0 ==> ThreadsFor(v, scans, ports).None?
    ensures ports == 0 ==> (ThreadsFor(v, scans, ports).Some? <==> v < scans && scans > 1)
    ensures ports == 0 && ThreadsFor(v, scans, ports).Some? ==> ThreadsFor(v, scans, ports).value == scans
    ensures scans >= 1 && ports >= 1 ==>
              (ThreadsFor(v, scans, ports).Some? <==> scans > 1 || (v > 1 && scans * ports > 1))
    ensures scans >= 1 && ports >= 1 && ThreadsFor(v, scans, ports).Some? ==>
              && scans <= ThreadsFor(v, scans, ports).value <= scans * ports
              && (scans <= v <= scans * ports ==> ThreadsFor(v, scans, ports).value == v)
              && (v < scans ==> ThreadsFor(v, scans, ports).value == scans)
              && (v > scans * ports ==> ThreadsFor(v, scans, ports).value == scans * ports)
  {
    if scans == 0 || ports == 0 {
      assert scans * ports == 0;
    } else {
      OnePortSuffices(scans, ports);
    }
  }

  /** The same options in two orders: asking for threads first is in vain. */
  lemma SpeedupFirstIsLost(world: World, scans: Word, ports: Word, speedup: Word)
    requires scans.name == ScanOption && ports.name == PortsOption && ports.arg != "" && speedup.name == SpeedupOption
    requires 1 < NamedBelow(Tokens(scans.arg, ','), TOTAL_TYPE) <= AtoiOf(speedup.arg)
    requires AtoiOf(speedup.arg) <= NamedBelow(Tokens(scans.arg, ','), TOTAL_TYPE) * |PortSet(ports.arg)|
    ensures Requested([speedup] + [scans] + [ports], world).threads == None
    ensures Requested([scans] + [ports] + [speedup], world).threads == Some(AtoiOf(speedup.arg))
  {
    RequestedOneMore([], speedup, world);
    RequestedOneMore([speedup], scans, world);
    RequestedOneMore([speedup] + [scans], ports, world);
    RequestedOneMore([], scans, world);
    RequestedOneMore([scans], ports, world);
    RequestedOneMore([scans] + [ports], speedup, world);
  }

  lemma RequestedOneMore(words: seq<Word>, w: Word, world: World)
    ensures Requested(words + [w], world) == After(Requested(words, world), w, world)
    ensures words == [] ==> Requested([w], world) == After(NOTHING, w, world)
  {
    assert (words + [w])[..|words|] == words;
    assert words == [] ==> words + [w] == [w];
  }

  // ----- the state follows the words -----

  ghost predicate TracksPorts(list: Bag, ports: Option<set<int>>)
    requires list.Sized()
    reads list`portsRange, list`portsIndiv, list`portFrom, list`portTo
    reads list`lenTabPortsIndiv, list`tabPortsIndiv, list.tabPortsIndiv
  {
    (list.PortsGiven() <==> ports.Some?) && (ports.Some? ==> list.AskedPorts() == ports.value)
  }

  ghost predicate TracksScans(list: Bag, scans: Option<seq<string>>)
    reads list`scan, list`scans
  {
    (list.scan <==> scans.Some?) && (scans.Some? ==> ScansNamed(list.scans, scans.value))
  }

  ghost predicate TracksThreads(list: Bag, threads: Option<int>)
    reads list`speedup, list`speedupVal
  {
    (list.speedup <==> threads.Some?) && (threads.Some? ==> list.speedupVal == threads.value)
  }

  ghost predicate TracksHosts(list: Bag, hosts: Target)
    reads list`ip, list`file, list`ipStr
  {
    && list.ip == hosts.FromNames? && list.file == hosts.FromFile?
    && list.ipStr == if hosts.NoHosts? then None else Some(Dotted(hosts.addresses))
  }

  /** What is recorded is what has been asked for. */
  ghost predicate Tracks(list: Bag, r: Request)
    requires list.Sized()
    reads list`portsRange, list`portsIndiv, list`portFrom, list`portTo
    reads list`lenTabPortsIndiv, list`tabPortsIndiv, list.tabPortsIndiv
    reads list`scan, list`scans, list`speedup, list`speedupVal, list`ip, list`file, list`ipStr
  {
    && TracksPorts(list, r.ports) && TracksScans(list, r.scans)
    && TracksThreads(list, r.threads) && TracksHosts(list, r.hosts)
  }

  lemma {:induction false} TallyIsNamed(s: Scans, names: seq<string>, k: nat)
    requires k <= TOTAL_TYPE && ScansNamed(s, names)
    ensures Tally(s, k) == NamedBelow(names, k)
  {
    if k > 1 {
      TallyIsNamed(s, names, k - 1);
    } else if k == 1 {
      assert Tally(s, 1) == Tally(s, 0);
    }
  }

  /** The counts that the clamp uses are those of the scans and ports asked for so far. */
  lemma CountsAreRequested(list: Bag, r: Request)
    requires OptionsKept(list) && Tracks(list, r)
    ensures list.countScans == ScanCount(r) && list.countPorts == PortCount(r)
  {
    if list.scan {
      TallyIsNamed(list.scans, r.scans.value, TOTAL_TYPE);
    }
  }

  // ----- one turn of the loop of ft_parsing, option by option -----

  /** --ports under the invariant, which holds even when the threads are already enabled. */
  method TakePorts(list: Bag, str: string, ghost r: Request) returns (outcome: Outcome)
    requires OptionsKept(list) && Tracks(list, r)
    requires PortList(str) ==> NumbersFit(str)
    modifies list`portsRange, list`portsIndiv, list`portFrom, list`portTo
    modifies list`lenTabPortsIndiv, list`tabPortsIndiv, list`countPorts
    ensures outcome == Continue <==> r.ports.None? && Acceptable(str)
    ensures outcome == Continue ==> OptionsKept(list) && fresh(list.tabPortsIndiv)
    ensures outcome == Continue ==> Tracks(list, if str == "" then r else r.(ports := Some(PortSet(str))))
  {
    outcome := CheckPortsOption(list, str);
    if outcome == Continue {
      assert list.AskedPorts() == PortSet(str);
      if list.speedup && str != "" {
        OnePortSuffices(list.countScans, list.countPorts);
      }
    }
  }

  /** --speedup under the invariant. */
  method TakeSpeedup(list: Bag, arg: string, ghost r: Request) returns (outcome: Outcome)
    requires OptionsKept(list) && Tracks(list, r)
    requires AllDigits(arg) ==> Value(AtoiRun(arg)) <= INT_MAX
    modifies list`speedup, list`speedupVal, list`speedupOrigins
    ensures outcome == Continue <==> r.threads.None? && AllDigits(arg) && AtoiOf(arg) <= 250
    ensures outcome == Continue ==>
              OptionsKept(list) && Tracks(list, r.(threads := ThreadsFor(AtoiOf(arg), ScanCount(r), PortCount(r))))
  {
    CountsAreRequested(list, r);
    outcome := CheckSpeedupOption(list, arg);
  }

  /** --scan under the invariant. While no scan is given the threads are not enabled. */
  method TakeScans(list: Bag, arg: string, ghost r: Request) returns (outcome: Outcome)
    requires OptionsKept(list) && Tracks(list, r)
    modifies list`scan, list`scans, list`countScans
    ensures outcome == Continue <==> r.scans.None? && ScanListKnown(Tokens(arg, ','))
    ensures outcome == Continue ==> OptionsKept(list) && Tracks(list, r.(scans := Some(Tokens(arg, ','))))
  {
    assert !list.scan ==> !list.speedup;
    outcome := CheckScanOption(list, arg);
  }

  /** --ip under the invariant. */
  method TakeNames(list: Bag, arg: string, world: World, ghost r: Request) returns (outcome: Outcome)
    requires OptionsKept(list) && Tracks(list, r)
    modifies list`ip, list`ipStr
    ensures outcome == Continue <==> r.hosts.NoHosts? && GoodNames(world, arg)
    ensures outcome == Continue ==>
              OptionsKept(list) && Tracks(list, r.(hosts := FromNames(Resolved(world, Tokens(arg, ',')))))
  {
    outcome := CheckIpOption(list, arg, world);
  }

  /** --file under the invariant. */
  method TakeFile(list: Bag, arg: string, world: World, ghost r: Request) returns (outcome: Outcome)
    requires OptionsKept(list) && Tracks(list, r)
    requires world.files(arg).Some? ==> Readable(world.files(arg).value)
    modifies list`file, list`ipStr
    ensures outcome == Continue <==> r.hosts.NoHosts? && GoodFile(world, arg)
    ensures outcome == Continue ==>
              OptionsKept(list) && Tracks(list, r.(hosts := FromFile(Resolved(world, LinesOf(world, arg)))))
  {
    outcome := CheckFileOption(list, arg, world);
  }

  /** Any option but --ports. */
  method TakeOption(list: Bag, w: Word, world: World, ghost r: Request) returns (outcome: Outcome)
    requires OptionsKept(list) && Tracks(list, r) && w.name != PortsOption && WordFits(w, world)
    modifies list`scan, list`scans, list`countScans, list`ip, list`file, list`ipStr
    modifies list`speedup, list`speedupVal, list`speedupOrigins
    ensures outcome == Continue <==> Passes(w, r, world)
    ensures outcome == Continue ==> OptionsKept(list) && Tracks(list, After(r, w, world))
  {
    match w.name
    case ScanOption => outcome := TakeScans(list, w.arg, r);
    case SpeedupOption => outcome := TakeSpeedup(list, w.arg, r);
    case IpOption => outcome := TakeNames(list, w.arg, world, r);
    case FileOption => outcome := TakeFile(list, w.arg, world, r);
    case UnknownOption => outcome := Continue;
  }

  /** One turn of the loop of ft_parsing. */
  method TakeWord(list: Bag, w: Word, world: World, ghost r: Request) returns (outcome: Outcome)
    requires OptionsKept(list) && Tracks(list, r) && WordFits(w, world)
    modifies list
    ensures outcome == Continue <==> Passes(w, r, world)
    ensures outcome == Continue ==>
              && OptionsKept(list)
              && (list.tabPortsIndiv == old(list.tabPortsIndiv) || fresh(list.tabPortsIndiv))
              && Tracks(list, After(r, w, world))
  {
    if w.name == PortsOption {
      outcome := TakePorts(list, w.arg, r);
    } else {
      outcome := TakeOption(list, w, world, r);
    }
  }

  /** The string comparisons of the loop of ft_parsing, for every position with a successor. */
  method CompareWords(av: seq<string>) returns (words: seq<Word>)
    requires |av| >= 2
    ensures words == Words(av)
  {
    words := [];
    var i := 1;
    while i < |av| - 1
      invariant 1 <= i <= |av| - 1 && words == Words(av)[..i - 1]
    {
      words := words + [Word(NameOf(av[i]), av[i + 1])];
      i := i + 1;
    }
  }

  lemma OneWordMore(words: seq<Word>, world: World, i: nat)
    requires i < |words|
    ensures Requested(words[..i + 1], world) == After(Requested(words[..i], world), words[i], world)
    ensures AllPass(words[..i + 1], world) <==>
              AllPass(words[..i], world) && Passes(words[i], Requested(words[..i], world), world)
  {
    assert words[..i + 1][..i] == words[..i];
  }

  lemma {:induction false} PrefixPasses(words: seq<Word>, world: World, k: nat)
    requires k <= |words| && AllPass(words, world)
    ensures AllPass(words[..k], world)
  {
    if k < |words| {
      PrefixPasses(words[..|words| - 1], world, k);
      assert words[..|words| - 1][..k] == words[..k];
    } else {
      assert words[..k] == words;
    }
  }

  lemma WordFails(words: seq<Word>, world: World, i: nat)
    requires i < |words| && !Passes(words[i], Requested(words[..i], world), world)
    ensures !AllPass(words, world)
  {
    if AllPass(words, world) {
      PrefixPasses(words, world, i + 1);
      OneWordMore(words, world, i);
    }
  }

  method TakeWords(list: Bag, words: seq<Word>, world: World) returns (outcome: Outcome)
    requires OptionsKept(list) && Tracks(list, NOTHING) && WordsFit(words, world)
    modifies list
    ensures outcome == Continue <==> AllPass(words, world)
    ensures outcome == Continue ==>
              && OptionsKept(list)
              && (list.tabPortsIndiv == old(list.tabPortsIndiv) || fresh(list.tabPortsIndiv))
              && Tracks(list, Requested(words, world))
  {
    var i := 0;
    while i < |words|
      invariant 0 <= i <= |words| && OptionsKept(list)
      invariant list.tabPortsIndiv == old(list.tabPortsIndiv) || fresh(list.tabPortsIndiv)
      invariant Tracks(list, Requested(words[..i], world)) && AllPass(words[..i], world)
    {
      OneWordMore(words, world, i);
      outcome := TakeWord(list, words[i], world, Requested(words[..i], world));
      if outcome == Exit {
        WordFails(words, world, i);
        return;
      }
      i := i + 1;
    }
    assert words[..i] == words;
    outcome := Continue;
  }

  /** The loop of ft_parsing: it goes on to the end exactly when every word passes and the
      last argument is not an option; the invariant then holds, whatever the order of the
      options, and what is recorded is what the words ask for. */
  method ParseWords(list: Bag, av: seq<string>, world: World) returns (outcome: Outcome)
    requires OptionsKept(list) && Tracks(list, NOTHING) && ArgumentsFit(av, world) && |av| >= 2
    modifies list
    ensures outcome == Continue <==> AllPass(Words(av), world) && !IsOption(av[|av| - 1])
    ensures outcome == Continue ==>
              && OptionsKept(list)
              && (list.tabPortsIndiv == old(list.tabPortsIndiv) || fresh(list.tabPortsIndiv))
              && Tracks(list, Requested(Words(av), world))
  {
    var words := CompareWords(av);
    outcome := TakeWords(list, words, world);
    var last := IsLastOption(av[|av| - 1]);
    if last {
      outcome := Exit;
    }
  }

  // ----- the whole command line -----

  /** The ports to scan: the given ones, or 1 to 1024. */
  function PortsToScan(ports: Option<set<int>>): set<int> {
    ports.GetOr(Interval(1, 1024))
  }

  /** Scan type k is to be made: it is named, or no scan option is given. */
  predicate ScanToMake(scans: Option<seq<string>>, k: int) {
    scans.Some? ==> ScanName(k) in scans.value
  }

  /** No help is asked for, and every other argument names an option. */
  ghost predicate WellShaped(av: seq<string>) {
    && (forall j :: 1 <= j < |av| ==> av[j] != "--help")
    && (forall j :: 1 <= j < |av| && j % 2 == 1 ==> IsOption(av[j]))
    && (|av| >= 2 ==> !IsOption(av[|av| - 1]))
  }

  /** The command lines that lead to a scan. */
  ghost predicate CommandLine(av: seq<string>, world: World) {
    && |av| >= 2 && WellShaped(av) && AllPass(Words(av), world)
    && !Requested(Words(av), world).hosts.NoHosts?
  }

  /** What the options leave for the rest of the program. */
  ghost predicate Leaves(list: Bag, r: Request)
    reads list, list.tabPortsIndiv, list.infoPort, list.infoScan
  {
    && Launchable(list) && TracksThreads(list, r.threads) && TracksHosts(list, r.hosts)
    && (forall p :: 0 <= p < RANGE_PORT ==> (list.infoPort[p] <==> p in PortsToScan(r.ports)))
    && (forall k :: 1 <= k < TOTAL_TYPE ==> (list.infoScan[k] <==> ScanToMake(r.scans, k)))
  }

  method FillDefaults(list: Bag, ghost ports: Option<set<int>>, ghost scans: Option<seq<string>>)
    returns (outcome: Outcome)
    requires OptionsKept(list) && TracksPorts(list, ports) && TracksScans(list, scans)
    modifies list`portsRange, list`portFrom, list`portTo, list`countPorts, list`scans, list`countScans
    ensures outcome == Continue <==> list.ip || list.file
    ensures outcome == Continue ==> Complete(list) && list.AskedPorts() == PortsToScan(ports)
    ensures outcome == Continue ==>
              forall k :: 1 <= k < TOTAL_TYPE ==> (ScanAsked(list.scans, k) <==> ScanToMake(scans, k))
  {
    outcome := CheckMandatoryOptions(list);
  }

  /** The end of ft_parsing: the defaults and the flags. */
  method FinishParsing(list: Bag, ghost ports: Option<set<int>>, ghost scans: Option<seq<string>>)
    returns (outcome: Outcome)
    requires OptionsKept(list) && TracksPorts(list, ports) && TracksScans(list, scans)
    modifies list`portsRange, list`portFrom, list`portTo, list`countPorts, list`scans, list`countScans
    modifies list.infoPort, list.infoScan
    ensures outcome == Continue <==> list.ip != list.file
    ensures outcome == Continue ==> Launchable(list)
    ensures outcome == Continue ==> forall p :: 0 <= p < RANGE_PORT ==> (list.infoPort[p] <==> p in PortsToScan(ports))
    ensures outcome == Continue ==> forall k :: 1 <= k < TOTAL_TYPE ==> (list.infoScan[k] <==> ScanToMake(scans, k))
  {
    if list.ip && list.file {
      return Exit;
    }
    outcome := FillDefaults(list, ports, scans);
    if outcome == Continue {
      PortsAndTypeAskedIntoGlobalList(list);
    }
  }

  /** The checks before the loop. */
  method CheckShape(av: seq<string>) returns (outcome: Outcome)
    ensures outcome == Continue <==>
              && (forall j :: 1 <= j < |av| ==> av[j] != "--help")
              && (forall j :: 1 <= j < |av| && j % 2 == 1 ==> IsOption(av[j]))
  {
    outcome := CheckHelpOption(av);
    if outcome == Continue {
      outcome := CheckOptions(av);
    }
  }

  /** The flags that are left: scan types 1 to 6 are SYN, NULL, FIN, XMAS, ACK and UDP, all of them
      unless scans are given, and the ports are 1 to 1024 unless ports are given. */
  lemma FlagsLeft(list: Bag, r: Request)
    requires Leaves(list, r)
    ensures r.scans.None? ==> forall k :: 1 <= k <= 6 ==> list.infoScan[k]
    ensures r.scans.Some? ==>
              && (list.infoScan[1] <==> "SYN" in r.scans.value) && (list.infoScan[2] <==> "NULL" in r.scans.value)
              && (list.infoScan[3] <==> "FIN" in r.scans.value) && (list.infoScan[4] <==> "XMAS" in r.scans.value)
              && (list.infoScan[5] <==> "ACK" in r.scans.value) && (list.infoScan[6] <==> "UDP" in r.scans.value)
    ensures forall p :: 0 <= p < 65536 ==>
              (list.infoPort[p] <==> if r.ports.Some? then p in r.ports.value else 1 <= p <= 1024)
  {
    assert forall p :: p in Interval(1, 1024) <==> InRange(1, 1024, p);
  }

  /** The end of ft_parsing, for what has been asked for. */
  method FinishRequest(list: Bag, ghost r: Request) returns (outcome: Outcome)
    requires OptionsKept(list) && Tracks(list, r)
    modifies list`portsRange, list`portFrom, list`portTo, list`countPorts, list`scans, list`countScans
    modifies list.infoPort, list.infoScan
    ensures outcome == Continue <==> !r.hosts.NoHosts?
    ensures outcome == Continue ==> Leaves(list, r)
  {
    outcome := FinishParsing(list, r.ports, r.scans);
  }

  method ParseAll(list: Bag, av: seq<string>, world: World) returns (outcome: Outcome)
    requires OptionsKept(list) && Tracks(list, NOTHING) && ArgumentsFit(av, world) && |av| >= 2
    modifies list, list.infoPort, list.infoScan
    ensures outcome == Continue <==>
              && AllPass(Words(av), world) && !IsOption(av[|av| - 1])
              && !Requested(Words(av), world).hosts.NoHosts?
    ensures outcome == Continue ==> Leaves(list, Requested(Words(av), world))
  {
    outcome := ParseWords(list, av, world);
    if outcome == Continue {
      outcome := FinishRequest(list, Requested(Words(av), world));
    }
  }

  /** The parser goes on exactly for the command lines above. It then leaves the flags of the
      ports and scans that are asked for, and the thread count in force, which is between one
      thread a scan and one thread a probe. */
  method FtParsing(list: Bag, av: seq<string>, world: World) returns (outcome: Outcome)
    requires OptionsKept(list) && Tracks(list, NOTHING)
    requires |av| >= 1 && ArgumentsFit(av, world)
    modifies list, list.infoPort, list.infoScan
    ensures outcome == Continue <==> CommandLine(av, world)
    ensures outcome == Continue ==> Leaves(list, Requested(Words(av), world))
  {
    if |av| == 1 {
      return Exit;
    }
    outcome := CheckShape(av);
    if outcome == Continue {
      outcome := ParseAll(list, av, world);
    }
  }
}
