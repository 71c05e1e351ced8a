/** The worker threads as a state machine (execution/thread_scan.c: routine): any interleaving
    of their lock, write, add, unlock and send steps has the effect of the sequential run. */
module Workers {
  import opened CTypes
  import opened Packet
  import opened Plan
  import opened Probes

  // ----- states -----

  /** A state cell of host number `host`. */
  datatype Cell = Cell(host: nat, scan: nat, port: nat)

  type Matrix = map<Cell, int>

  /** Where a worker is in the body of its loops. The addition of OPEN reads, then writes. */
  datatype Pc = Look | Lock | Write | Load | Store | Unlock | Send

  /** The local variables of a worker. */
  datatype Worker = Worker(host: nat, port: nat, pc: Pc, tmp: int, packet: seq<byte>)

  datatype Sys = Sys(matrix: Matrix, mutex: Option<nat>, sent: multiset<Probe>, workers: seq<Worker>)

  /** What does not change: the hosts, the number of ports and the jobs of the threads. */
  datatype Env = Env(net: Net, range: nat, jobs: seq<Info>)

  /** The first set scan flag from position k on: the loop at the head of routine. */
  function FirstScan(flags: seq<bool>, k: nat): (s: nat)
    requires k <= |flags|
    ensures k <= s <= |flags| && (s < |flags| ==> flags[s]) && forall j :: k <= j < s ==> !flags[j]
    decreases |flags| - k
  {
    if k == |flags| || flags[k] then k else FirstScan(flags, k + 1)
  }

  method FindScan(info: Info) returns (scan: nat)
    requires |info.scan| == TOTAL_TYPE
    ensures scan == FirstScan(info.scan, 1)
  {
    scan := 1;
    while scan < TOTAL_TYPE
      invariant 1 <= scan <= TOTAL_TYPE && FirstScan(info.scan, 1) == FirstScan(info.scan, scan)
    {
      if info.scan[scan] {
        break;
      }
      scan := scan + 1;
    }
  }

  /** The environments that the scheduler produces. */
  ghost predicate Sound(env: Env, scans: seq<bool>, ports: seq<bool>) {
    && |scans| == TOTAL_TYPE && |ports| == env.range <= RANGE_PORT
    && Partition(env.jobs, scans, ports)
    && HostsApart(env.net.hosts)
  }

  function ScanOf(env: Env, w: nat): nat
    requires w < |env.jobs|
  {
    if |env.jobs[w].scan| == TOTAL_TYPE then FirstScan(env.jobs[w].scan, 1) else 0
  }

  /** The cells of all hosts. */
  ghost predicate FullMatrix(env: Env, m: Matrix) {
    forall c :: c in m <==> c.host < |env.net.hosts| && c.scan < TOTAL_TYPE && c.port < env.range
  }

  function Init(env: Env, m: Matrix): Sys {
    Sys(m, None, multiset{}, seq(|env.jobs|, w requires 0 <= w < |env.jobs| =>
      Worker(0, 0, Look, 0, BasePacket(if ScanOf(env, w) < TOTAL_TYPE then ScanOf(env, w) else 0))))
  }

  predicate Finished(env: Env, me: Worker) {
    me.pc == Look && me.host >= |env.net.hosts|
  }

  predicate AllFinished(env: Env, st: Sys) {
    forall w :: 0 <= w < |st.workers| ==> Finished(env, st.workers[w])
  }

  // ----- steps -----

  function Current(env: Env, w: nat, me: Worker): Cell
    requires w < |env.jobs|
  {
    Cell(me.host, ScanOf(env, w), me.port)
  }

  /** The packet that a Send step puts on the wire, as the next packet. */
  function NextPacket(env: Env, scan: nat, me: Worker): seq<byte> {
    if me.host < |env.net.hosts| && me.port < RANGE_PORT && |me.packet| == PACKET_SIZE then
      Stamped(env.net.little, env.net.src, env.net.hosts[me.host], ProtocolOf(scan), me.packet, me.port)
    else me.packet
  }

  function SentProbe(env: Env, scan: nat, me: Worker): Probe
    requires me.host < |env.net.hosts|
  {
    var packet := NextPacket(env, scan, me);
    var len := HeaderLength(ProtocolOf(scan));
    Probe(env.net.hosts[me.host], scan, me.port, if len <= |packet| then packet[..len] else packet)
  }

  /** The local effect of a step that is not blocked. */
  function Move(env: Env, w: nat, me: Worker, m: Matrix): Worker
    requires w < |env.jobs|
  {
    var job := env.jobs[w];
    var scan := ScanOf(env, w);
    match me.pc
    case Look =>
      if me.host >= |env.net.hosts| then me
      else if me.port >= env.range then me.(host := me.host + 1, port := 0)
      else if me.port < |job.port| && job.port[me.port] then me.(pc := Lock)
      else me.(port := me.port + 1)
    case Lock => me.(pc := Write)
    case Write => me.(pc := if OpensOnSilence(scan) then Load else Unlock)
    case Load => me.(pc := Store, tmp := if Current(env, w, me) in m then m[Current(env, w, me)] else 0)
    case Store => me.(pc := Unlock)
    case Unlock => me.(pc := Send)
    case Send => me.(pc := Look, port := me.port + 1, packet := NextPacket(env, scan, me))
  }

  /** One step of worker w. A worker that waits for the mutex, or has finished, stays where it is. */
  function Step(env: Env, st: Sys, w: nat): Sys
    requires w < |env.jobs| == |st.workers|
  {
    var me := st.workers[w];
    var c := Current(env, w, me);
    if me.pc == Lock && st.mutex != None then st
    else
      var moved := st.(workers := st.workers[w := Move(env, w, me, st.matrix)]);
      match me.pc
      case Look => moved
      case Lock => moved.(mutex := Some(w))
      case Write => moved.(matrix := st.matrix[c := FILTERED])
      case Load => moved
      case Store => moved.(matrix := st.matrix[c := me.tmp + OPEN])
      case Unlock => moved.(mutex := None)
      case Send =>
        if me.host < |env.net.hosts| then moved.(sent := st.sent + multiset{SentProbe(env, c.scan, me)}) else moved
  }

  /** The state after a schedule: a list saying which worker takes each step. */
  function Run(env: Env, m: Matrix, schedule: seq<nat>): (st: Sys)
    requires forall k :: 0 <= k < |schedule| ==> schedule[k] < |env.jobs|
    ensures |st.workers| == |env.jobs|
  {
    if schedule == [] then Init(env, m)
    else Step(env, Run(env, m, schedule[..|schedule| - 1]), schedule[|schedule| - 1])
  }

  // ----- the invariant -----

  predicate InCell(pc: Pc) {
    pc == Write || pc == Load || pc == Store || pc == Unlock
  }

  ghost predicate WorkerOk(env: Env, w: nat, me: Worker)
    requires w < |env.jobs|
  {
    && me.host <= |env.net.hosts| && me.port <= env.range
    && (me.pc != Look ==> me.host < |env.net.hosts| && Covers(env.jobs[w], ScanOf(env, w), me.port))
    && (me.pc == Load || me.pc == Store ==> OpensOnSilence(ScanOf(env, w)))
    && (me.pc == Store ==> me.tmp == FILTERED)
    && 1 <= ScanOf(env, w) < TOTAL_TYPE && MadeFor(me.packet, ScanOf(env, w))
  }

  predicate Passed(me: Worker, h: nat, p: nat) {
    h < me.host || (h == me.host && p < me.port)
  }

  /** What a cell holds that only this worker writes. */
  function CellValue(init: int, me: Worker, c: Cell): int {
    if Passed(me, c.host, c.port) then DefaultState(c.scan)
    else if c.host == me.host && c.port == me.port then
      if me.pc == Load || me.pc == Store then FILTERED
      else if me.pc == Unlock || me.pc == Send then DefaultState(c.scan)
      else init
    else init
  }

  ghost predicate CellOk(env: Env, m: Matrix, st: Sys, c: Cell)
    requires |st.workers| == |env.jobs| && c in m && c in st.matrix
  {
    && (forall w :: 0 <= w < |env.jobs| && Covers(env.jobs[w], c.scan, c.port) ==>
          st.matrix[c] == CellValue(m[c], st.workers[w], c))
    && ((forall w :: 0 <= w < |env.jobs| ==> !Covers(env.jobs[w], c.scan, c.port)) ==> st.matrix[c] == m[c])
  }

  ghost predicate MutexOk(st: Sys) {
    && (forall w :: 0 <= w < |st.workers| ==> (InCell(st.workers[w].pc) <==> st.mutex == Some(w)))
    && (st.mutex.Some? ==> st.mutex.value < |st.workers|)
  }

  /** x is the probe of some host for a cell that worker w covers. */
  ghost predicate OwnProbe(env: Env, w: nat, h: nat, x: Probe)
    requires w < |env.jobs|
  {
    h < |env.net.hosts| && Covers(env.jobs[w], x.scan, x.port) && x == ProberOf(env.net)(h, x.scan, x.port)
  }

  ghost predicate SentOk(env: Env, st: Sys, x: Probe)
    requires |st.workers| == |env.jobs|
  {
    && (forall w: nat, h: nat :: w < |env.jobs| && OwnProbe(env, w, h, x) ==>
          st.sent[x] == if Passed(st.workers[w], h, x.port) then 1 else 0)
    && ((forall w: nat, h: nat :: w < |env.jobs| ==> !OwnProbe(env, w, h, x)) ==> st.sent[x] == 0)
  }

  ghost predicate Inv(env: Env, m: Matrix, st: Sys) {
    && |st.workers| == |env.jobs| && FullMatrix(env, st.matrix)
    && (forall w :: 0 <= w < |env.jobs| ==> WorkerOk(env, w, st.workers[w]))
    && MutexOk(st)
    && (forall c :: c in m && c in st.matrix ==> CellOk(env, m, st, c))
    && (forall x :: SentOk(env, st, x))
  }

  /** The scan of a job is the one its flags name. */
  lemma JobHasItsScan(env: Env, scans: seq<bool>, ports: seq<bool>, w: nat, s: nat, p: nat)
    requires Sound(env, scans, ports) && w < |env.jobs|
    ensures 1 <= ScanOf(env, w) < TOTAL_TYPE
    ensures Covers(env.jobs[w], s, p) ==> s == ScanOf(env, w)
    ensures |env.jobs[w].port| == env.range
  {
    assert MakesOneScan(env.jobs[w], scans, ports);
    var one: nat :| 1 <= one < TOTAL_TYPE && env.jobs[w].scan == OnlyScan(one);
    var s := FirstScan(env.jobs[w].scan, 1);
    assert env.jobs[w].scan[one];
  }

  /** The bytes of a Send step are those of a fresh packet: the probe of the current cell. */
  lemma SendIsProbe(env: Env, scan: nat, me: Worker)
    requires me.host < |env.net.hosts| && me.port < RANGE_PORT && scan < TOTAL_TYPE && MadeFor(me.packet, scan)
    ensures MadeFor(NextPacket(env, scan, me), scan)
    ensures SentProbe(env, scan, me) == ProberOf(env.net)(me.host, scan, me.port)
  {
    ReuseIsHarmless(env.net.little, env.net.src, env.net.hosts[me.host], scan, me.packet, me.port);
  }

  lemma MoveKeepsWorker(env: Env, w: nat, me: Worker, m: Matrix)
    requires w < |env.jobs| && |env.jobs[w].port| == env.range <= RANGE_PORT && WorkerOk(env, w, me)
    requires |env.jobs[w].scan| == TOTAL_TYPE
    requires me.pc == Load ==> Current(env, w, me) in m && m[Current(env, w, me)] == FILTERED
    ensures WorkerOk(env, w, Move(env, w, me, m))
  {
    if me.pc == Send {
      SendIsProbe(env, ScanOf(env, w), me);
    }
  }

  /** The matrix after a step of worker w, and what the step leaves alone. */
  function MatrixAfter(env: Env, st: Sys, w: nat): Matrix
    requires w < |env.jobs| == |st.workers|
  {
    var me := st.workers[w];
    match me.pc
    case Write => st.matrix[Current(env, w, me) := FILTERED]
    case Store => st.matrix[Current(env, w, me) := me.tmp + OPEN]
    case _ => st.matrix
  }

  /** A cell of its own job follows the worker's program counter. */
  lemma OwnCellFollows(env: Env, st: Sys, w: nat, c: Cell, init: int)
    requires w < |env.jobs| == |st.workers| && |env.jobs[w].port| == env.range && WorkerOk(env, w, st.workers[w])
    requires Covers(env.jobs[w], c.scan, c.port) && c.scan == ScanOf(env, w) && c in st.matrix
    requires c.host < |env.net.hosts| && c.port < env.range
    requires st.matrix[c] == CellValue(init, st.workers[w], c)
    ensures c in MatrixAfter(env, st, w)
    ensures MatrixAfter(env, st, w)[c] == CellValue(init, Move(env, w, st.workers[w], st.matrix), c)
  {
  }

  lemma StepIs(env: Env, st: Sys, w: nat)
    requires w < |env.jobs| == |st.workers|
    requires !(st.workers[w].pc == Lock && st.mutex != None)
    ensures var next := Step(env, st, w);
            && next.matrix == MatrixAfter(env, st, w)
            && next.workers == st.workers[w := Move(env, w, st.workers[w], st.matrix)]
            && next.sent == st.sent + SentBy(env, st, w)
  {
  }

  /** What the step puts on the wire. */
  function SentBy(env: Env, st: Sys, w: nat): multiset<Probe>
    requires w < |env.jobs| == |st.workers|
  {
    var me := st.workers[w];
    if me.pc == Send && me.host < |env.net.hosts| then multiset{SentProbe(env, ScanOf(env, w), me)} else multiset{}
  }

  lemma StepKeepsOwnedCell(env: Env, scans: seq<bool>, ports: seq<bool>, st: Sys, w: nat, v: nat, c: Cell, init: int)
    requires Sound(env, scans, ports) && w < |env.jobs| == |st.workers| && WorkerOk(env, w, st.workers[w])
    requires v < |env.jobs| && Covers(env.jobs[v], c.scan, c.port)
    requires c in st.matrix && c.host < |env.net.hosts| && c.port < env.range
    requires st.matrix[c] == CellValue(init, st.workers[v], c)
    ensures c in MatrixAfter(env, st, w)
    ensures MatrixAfter(env, st, w)[c]
         == CellValue(init, if v == w then Move(env, w, st.workers[w], st.matrix) else st.workers[v], c)
  {
    JobHasItsScan(env, scans, ports, v, c.scan, c.port);
    if v == w {
      OwnCellFollows(env, st, w, c, init);
    } else {
      ForeignCellStays(env, scans, ports, st, w, v, c);
    }
  }

  lemma UnownedCellStays(env: Env, st: Sys, w: nat, c: Cell)
    requires w < |env.jobs| == |st.workers| && WorkerOk(env, w, st.workers[w]) && c in st.matrix
    requires !Covers(env.jobs[w], c.scan, c.port)
    ensures c in MatrixAfter(env, st, w) && MatrixAfter(env, st, w)[c] == st.matrix[c]
  {
  }

  lemma StepKeepsCell(env: Env, scans: seq<bool>, ports: seq<bool>, m: Matrix, st: Sys, w: nat, c: Cell)
    requires Sound(env, scans, ports) && w < |env.jobs| == |st.workers| && WorkerOk(env, w, st.workers[w])
    requires c in m && c in st.matrix && c.host < |env.net.hosts| && c.port < env.range && CellOk(env, m, st, c)
    requires !(st.workers[w].pc == Lock && st.mutex != None)
    ensures c in Step(env, st, w).matrix && CellOk(env, m, Step(env, st, w), c)
  {
    StepIs(env, st, w);
    forall v | 0 <= v < |env.jobs| && Covers(env.jobs[v], c.scan, c.port)
      ensures c in Step(env, st, w).matrix
      ensures Step(env, st, w).matrix[c] == CellValue(m[c], Step(env, st, w).workers[v], c)
    {
      StepKeepsOwnedCell(env, scans, ports, st, w, v, c, m[c]);
    }
    if !Covers(env.jobs[w], c.scan, c.port) {
      UnownedCellStays(env, st, w, c);
    }
  }

  /** A step writes only cells of its own job. */
  lemma ForeignCellStays(env: Env, scans: seq<bool>, ports: seq<bool>, st: Sys, w: nat, v: nat, c: Cell)
    requires Sound(env, scans, ports) && w < |env.jobs| == |st.workers| && WorkerOk(env, w, st.workers[w])
    requires v < |env.jobs| && v != w && Covers(env.jobs[v], c.scan, c.port) && c in st.matrix
    ensures c in MatrixAfter(env, st, w) && MatrixAfter(env, st, w)[c] == st.matrix[c]
  {
    assert !Covers(env.jobs[w], c.scan, c.port);
  }

  lemma StepKeepsMutex(env: Env, st: Sys, w: nat)
    requires w < |env.jobs| == |st.workers| && MutexOk(st)
    ensures MutexOk(Step(env, st, w))
  {
    var next := Step(env, st, w);
    forall v | 0 <= v < |next.workers| ensures InCell(next.workers[v].pc) <==> next.mutex == Some(v) {
      assert InCell(st.workers[v].pc) <==> st.mutex == Some(v);
      assert InCell(st.workers[w].pc) <==> st.mutex == Some(w);
    }
  }

  /** Only a Send step takes the worker past a cell of its job. */
  lemma OnlySendPasses(env: Env, w: nat, me: Worker, m: Matrix, h: nat, p: nat)
    requires w < |env.jobs| && WorkerOk(env, w, me) && |env.jobs[w].port| == env.range
    requires h < |env.net.hosts| && p < env.range && env.jobs[w].port[p]
    ensures Passed(Move(env, w, me, m), h, p) <==> Passed(me, h, p) || (me.pc == Send && h == me.host && p == me.port)
  {
  }

  lemma SentIsOwn(env: Env, scans: seq<bool>, ports: seq<bool>, st: Sys, w: nat)
    requires Sound(env, scans, ports) && w < |env.jobs| == |st.workers| && WorkerOk(env, w, st.workers[w])
    requires st.workers[w].pc == Send
    ensures var me := st.workers[w];
            && SentBy(env, st, w) == multiset{ProberOf(env.net)(me.host, ScanOf(env, w), me.port)}
            && OwnProbe(env, w, me.host, ProberOf(env.net)(me.host, ScanOf(env, w), me.port))
  {
    var me := st.workers[w];
    JobHasItsScan(env, scans, ports, w, ScanOf(env, w), me.port);
    SendIsProbe(env, ScanOf(env, w), me);
    ProberLabels(env.net);
  }

  /** A probe of another cell is not what the step sends. */
  lemma OtherProbe(env: Env, scans: seq<bool>, ports: seq<bool>, st: Sys, w: nat, v: nat, h: nat, x: Probe)
    requires Sound(env, scans, ports) && w < |env.jobs| == |st.workers| && WorkerOk(env, w, st.workers[w])
    requires v < |env.jobs| && OwnProbe(env, v, h, x)
    requires !(v == w && h == st.workers[w].host && x.port == st.workers[w].port)
    ensures SentBy(env, st, w)[x] == 0
  {
    var me := st.workers[w];
    if me.pc == Send {
      SentIsOwn(env, scans, ports, st, w);
      ProberLabels(env.net);
      var y := ProberOf(env.net)(me.host, ScanOf(env, w), me.port);
      if v != w {
        OneOwner(env, scans, ports, v, w, x.scan, x.port);
        assert x.scan != y.scan || x.port != y.port;
      } else {
        assert x.dst != y.dst || x.port != y.port;
      }
    }
  }

  lemma OneOwner(env: Env, scans: seq<bool>, ports: seq<bool>, v: nat, w: nat, s: nat, p: nat)
    requires Sound(env, scans, ports) && v < |env.jobs| && w < |env.jobs| && v != w && Covers(env.jobs[v], s, p)
    ensures !Covers(env.jobs[w], s, p)
  {
  }

  lemma StepKeepsSentProbe(env: Env, scans: seq<bool>, ports: seq<bool>, st: Sys, w: nat, v: nat, h: nat, x: Probe)
    requires Sound(env, scans, ports) && w < |env.jobs| == |st.workers| && WorkerOk(env, w, st.workers[w])
    requires v < |env.jobs| && OwnProbe(env, v, h, x)
    requires st.sent[x] == if Passed(st.workers[v], h, x.port) then 1 else 0
    ensures (st.sent + SentBy(env, st, w))[x]
         == if Passed(if v == w then Move(env, w, st.workers[w], st.matrix) else st.workers[v], h, x.port) then 1 else 0
  {
    var me := st.workers[w];
    JobHasItsScan(env, scans, ports, v, x.scan, x.port);
    if v == w {
      OnlySendPasses(env, w, me, st.matrix, h, x.port);
    }
    if v == w && h == me.host && x.port == me.port {
      if me.pc == Send {
        SentIsOwn(env, scans, ports, st, w);
      }
    } else {
      OtherProbe(env, scans, ports, st, w, v, h, x);
    }
  }

  lemma StepKeepsSent(env: Env, scans: seq<bool>, ports: seq<bool>, st: Sys, w: nat, x: Probe)
    requires Sound(env, scans, ports) && w < |env.jobs| == |st.workers| && WorkerOk(env, w, st.workers[w])
    requires SentOk(env, st, x) && !(st.workers[w].pc == Lock && st.mutex != None)
    ensures SentOk(env, Step(env, st, w), x)
  {
    StepIs(env, st, w);
    forall v: nat, h: nat | v < |env.jobs| && OwnProbe(env, v, h, x)
      ensures Step(env, st, w).sent[x] == if Passed(Step(env, st, w).workers[v], h, x.port) then 1 else 0
    {
      StepKeepsSentProbe(env, scans, ports, st, w, v, h, x);
    }
    if st.workers[w].pc == Send {
      SentIsOwn(env, scans, ports, st, w);
    }
  }

  lemma StepKeepsWorkers(env: Env, scans: seq<bool>, ports: seq<bool>, m: Matrix, st: Sys, w: nat)
    requires Sound(env, scans, ports) && FullMatrix(env, m) && Inv(env, m, st) && w < |env.jobs|
    ensures WorkerOk(env, w, Move(env, w, st.workers[w], st.matrix))
  {
    var me := st.workers[w];
    JobHasItsScan(env, scans, ports, w, ScanOf(env, w), me.port);
    if me.pc == Load {
      var c := Current(env, w, me);
      assert CellOk(env, m, st, c);
    }
    MoveKeepsWorker(env, w, me, st.matrix);
  }

  /** Every step of every worker keeps the invariant. */
  lemma StepKeepsInv(env: Env, scans: seq<bool>, ports: seq<bool>, m: Matrix, st: Sys, w: nat)
    requires Sound(env, scans, ports) && FullMatrix(env, m) && Inv(env, m, st) && w < |env.jobs|
    ensures Inv(env, m, Step(env, st, w))
  {
    if !(st.workers[w].pc == Lock && st.mutex != None) {
      var next := Step(env, st, w);
      StepIs(env, st, w);
      StepKeepsWorkers(env, scans, ports, m, st, w);
      StepKeepsMutex(env, st, w);
      assert WorkerOk(env, w, st.workers[w]);
      forall c | c in m && c in next.matrix ensures CellOk(env, m, next, c) {
        StepKeepsCell(env, scans, ports, m, st, w, c);
      }
      forall x ensures SentOk(env, next, x) {
        StepKeepsSent(env, scans, ports, st, w, x);
      }
    }
  }

  lemma InitHolds(env: Env, scans: seq<bool>, ports: seq<bool>, m: Matrix)
    requires Sound(env, scans, ports) && FullMatrix(env, m)
    ensures Inv(env, m, Init(env, m))
  {
    var st := Init(env, m);
    forall w | 0 <= w < |env.jobs| ensures WorkerOk(env, w, st.workers[w]) {
      JobHasItsScan(env, scans, ports, w, 0, 0);
    }
    forall x ensures SentOk(env, st, x) {
      assert st.sent[x] == 0;
    }
  }

  ghost predicate Schedules(env: Env, schedule: seq<nat>) {
    forall k :: 0 <= k < |schedule| ==> schedule[k] < |env.jobs|
  }

  /** Every reachable state satisfies the invariant. */
  lemma {:induction false} RunKeepsInv(env: Env, scans: seq<bool>, ports: seq<bool>, m: Matrix, schedule: seq<nat>)
    requires Sound(env, scans, ports) && FullMatrix(env, m) && Schedules(env, schedule)
    ensures Inv(env, m, Run(env, m, schedule))
  {
    if schedule == [] {
      InitHolds(env, scans, ports, m);
    } else {
      var before := schedule[..|schedule| - 1];
      RunKeepsInv(env, scans, ports, m, before);
      StepKeepsInv(env, scans, ports, m, Run(env, m, before), schedule[|schedule| - 1]);
    }
  }

  // ----- parallel refines sequential -----

  /** The matrix after the sequential send phase. */
  function SequentialMatrix(m: Matrix, scans: seq<bool>, ports: seq<bool>): Matrix {
    map c | c in m :: if Asked(scans, ports, c.scan, c.port) then DefaultState(c.scan) else m[c]
  }

  lemma FinalCell(env: Env, scans: seq<bool>, ports: seq<bool>, m: Matrix, st: Sys, c: Cell)
    requires Sound(env, scans, ports) && |st.workers| == |env.jobs| && AllFinished(env, st)
    requires c in m && c in st.matrix && c.host < |env.net.hosts| && CellOk(env, m, st, c)
    ensures st.matrix[c] == if Asked(scans, ports, c.scan, c.port) then DefaultState(c.scan) else m[c]
  {
    if Asked(scans, ports, c.scan, c.port) {
      var w :| 0 <= w < |env.jobs| && Covers(env.jobs[w], c.scan, c.port);
      assert Finished(env, st.workers[w]);
    } else {
      forall w | 0 <= w < |env.jobs| ensures !Covers(env.jobs[w], c.scan, c.port) {
        assert MakesOneScan(env.jobs[w], scans, ports);
      }
    }
  }

  lemma OwnProbesAreAsked(env: Env, scans: seq<bool>, ports: seq<bool>, x: Probe)
    requires Sound(env, scans, ports)
    ensures IsAskedProbe(ProberOf(env.net), |env.net.hosts|, scans, ports, x)
       <==> exists w: nat, h: nat :: w < |env.jobs| && OwnProbe(env, w, h, x)
  {
    if IsAskedProbe(ProberOf(env.net), |env.net.hosts|, scans, ports, x) {
      var h: nat :| h < |env.net.hosts| && x == ProberOf(env.net)(h, x.scan, x.port);
      var w :| 0 <= w < |env.jobs| && Covers(env.jobs[w], x.scan, x.port);
      assert OwnProbe(env, w, h, x);
    }
    if w: nat, h: nat :| w < |env.jobs| && OwnProbe(env, w, h, x) {
      assert MakesOneScan(env.jobs[w], scans, ports);
      assert AmongHosts(ProberOf(env.net), x.scan, |env.net.hosts|, x);
    }
  }

  lemma FinalSent(env: Env, scans: seq<bool>, ports: seq<bool>, m: Matrix, st: Sys, x: Probe)
    requires Sound(env, scans, ports) && Inv(env, m, st) && AllFinished(env, st)
    ensures st.sent[x] == if IsAskedProbe(ProberOf(env.net), |env.net.hosts|, scans, ports, x) then 1 else 0
  {
    assert SentOk(env, st, x);
    OwnProbesAreAsked(env, scans, ports, x);
    if w: nat, h: nat :| w < |env.jobs| && OwnProbe(env, w, h, x) {
      assert Finished(env, st.workers[w]);
    }
  }

  lemma FinalMatrix(env: Env, scans: seq<bool>, ports: seq<bool>, m: Matrix, st: Sys)
    requires Sound(env, scans, ports) && FullMatrix(env, m) && Inv(env, m, st) && AllFinished(env, st)
    ensures st.matrix == SequentialMatrix(m, scans, ports)
  {
    forall c | c in m ensures c in st.matrix && st.matrix[c] == SequentialMatrix(m, scans, ports)[c] {
      FinalCell(env, scans, ports, m, st, c);
    }
  }

  lemma FinalTrace(env: Env, scans: seq<bool>, ports: seq<bool>, m: Matrix, st: Sys)
    requires Sound(env, scans, ports) && Inv(env, m, st) && AllFinished(env, st)
    ensures st.sent == multiset(SequentialTrace(ProberOf(env.net), |env.net.hosts|, scans, ports))
  {
    ProberLabels(env.net);
    var f := ProberOf(env.net);
    var trace := multiset(SequentialTrace(f, |env.net.hosts|, scans, ports));
    forall x: Probe ensures st.sent[x] == trace[x] {
      FinalSent(env, scans, ports, m, st, x);
      SequentialTraceCount(f, env.net.hosts, scans, ports, x);
    }
  }

  /** Whatever the interleaving, once all threads have finished the state matrix is the
      sequential one, and exactly the probes of the sequential run have been sent. */
  lemma ParallelRefinesSequential(env: Env, scans: seq<bool>, ports: seq<bool>, m: Matrix, schedule: seq<nat>)
    requires Sound(env, scans, ports) && FullMatrix(env, m) && Schedules(env, schedule)
    requires AllFinished(env, Run(env, m, schedule))
    ensures Run(env, m, schedule).matrix == SequentialMatrix(m, scans, ports)
    ensures forall c :: c in m ==>
              Run(env, m, schedule).matrix[c] ==
                if 1 <= c.scan <= 6 && scans[c.scan] && c.port < |ports| && ports[c.port] then
                  (if c.scan == 2 || c.scan == 3 || c.scan == 4 || c.scan == 6 then 3 else 2)
                else m[c]
    ensures Run(env, m, schedule).sent
         == multiset(SequentialTrace(ProberOf(env.net), |env.net.hosts|, scans, ports))
  {
    RunKeepsInv(env, scans, ports, m, schedule);
    FinalMatrix(env, scans, ports, m, Run(env, m, schedule));
    forall c | c in m ensures SequentialMatrix(m, scans, ports)[c] ==
                                if 1 <= c.scan <= 6 && scans[c.scan] && c.port < |ports| && ports[c.port] then
                                  (if c.scan == 2 || c.scan == 3 || c.scan == 4 || c.scan == 6 then 3 else 2)
                                else m[c] {
      DefaultStates(c.scan);
    }
    FinalTrace(env, scans, ports, m, Run(env, m, schedule));
  }

  // ----- safety on the way -----

  /** The holder of the mutex is between its two stores to cell c, which holds FILTERED. */
  ghost predicate HalfWritten(env: Env, st: Sys, c: Cell)
    requires |st.workers| == |env.jobs| && c in st.matrix
  {
    && st.mutex.Some? && st.mutex.value < |env.jobs|
    && InCell(st.workers[st.mutex.value].pc) && Current(env, st.mutex.value, st.workers[st.mutex.value]) == c
    && st.matrix[c] == FILTERED
  }

  lemma HalfWrittenCell(env: Env, scans: seq<bool>, ports: seq<bool>, m: Matrix, st: Sys, c: Cell)
    requires Sound(env, scans, ports) && |st.workers| == |env.jobs| && MutexOk(st)
    requires c in m && c in st.matrix && CellOk(env, m, st, c)
    ensures st.matrix[c] == m[c] || st.matrix[c] == DefaultState(c.scan) || HalfWritten(env, st, c)
  {
    if w :| 0 <= w < |env.jobs| && Covers(env.jobs[w], c.scan, c.port) {
      JobHasItsScan(env, scans, ports, w, c.scan, c.port);
      assert st.matrix[c] == CellValue(m[c], st.workers[w], c);
      assert InCell(st.workers[w].pc) <==> st.mutex == Some(w);
    }
  }

  /** Whatever the schedule, a cell holds its old value or its default, except that the thread
      that holds the mutex may be between its two stores to it: nobody else who takes the mutex
      sees FILTERED before OPEN is added. */
  lemma HalfWrittenOnlyUnderMutex(env: Env, scans: seq<bool>, ports: seq<bool>, m: Matrix, schedule: seq<nat>, c: Cell)
    requires Sound(env, scans, ports) && FullMatrix(env, m) && Schedules(env, schedule) && c in m
    ensures var st := Run(env, m, schedule);
            && c in st.matrix
            && (st.matrix[c] == m[c] || st.matrix[c] == DefaultState(c.scan) || HalfWritten(env, st, c))
  {
    RunKeepsInv(env, scans, ports, m, schedule);
    HalfWrittenCell(env, scans, ports, m, Run(env, m, schedule), c);
  }

  /** The next step of worker w stores to cell c. */
  predicate Stores(env: Env, st: Sys, w: nat, c: Cell)
    requires w < |env.jobs| == |st.workers|
  {
    var me := st.workers[w];
    (me.pc == Write || me.pc == Store) && Current(env, w, me) == c
  }

  /** Only a store changes a cell. */
  lemma OnlyStoresChange(env: Env, st: Sys, w: nat, c: Cell)
    requires w < |env.jobs| == |st.workers| && c in st.matrix
    ensures c in Step(env, st, w).matrix
    ensures Step(env, st, w).matrix[c] != st.matrix[c] ==> Stores(env, st, w, c)
  {
  }

  lemma StoreIsOwn(env: Env, st: Sys, w: nat, c: Cell)
    requires w < |env.jobs| == |st.workers| && WorkerOk(env, w, st.workers[w]) && Stores(env, st, w, c)
    ensures Covers(env.jobs[w], c.scan, c.port)
  {
  }

  /** Threads store only under the mutex. */
  lemma StoresUnderMutex(env: Env, scans: seq<bool>, ports: seq<bool>, m: Matrix, schedule: seq<nat>, w: nat, c: Cell)
    requires Sound(env, scans, ports) && FullMatrix(env, m) && Schedules(env, schedule) && w < |env.jobs|
    requires Stores(env, Run(env, m, schedule), w, c)
    ensures Run(env, m, schedule).mutex == Some(w)
  {
    RunKeepsInv(env, scans, ports, m, schedule);
    assert InCell(Run(env, m, schedule).workers[w].pc);
  }

  /** No cell is ever written by two different workers: if v stores to it at some time, no other
      worker stores to it at any time, whatever the schedules. */
  lemma OneWriterPerCell(env: Env, scans: seq<bool>, ports: seq<bool>, m: Matrix,
                         before: seq<nat>, later: seq<nat>, v: nat, w: nat, c: Cell)
    requires Sound(env, scans, ports) && FullMatrix(env, m) && v != w
    requires Schedules(env, before) && Schedules(env, later) && v < |env.jobs| && w < |env.jobs|
    requires Stores(env, Run(env, m, before), v, c)
    ensures !Stores(env, Run(env, m, later), w, c)
  {
    RunKeepsInv(env, scans, ports, m, before);
    StoreIsOwn(env, Run(env, m, before), v, c);
    OneOwner(env, scans, ports, v, w, c.scan, c.port);
    if Stores(env, Run(env, m, later), w, c) {
      RunKeepsInv(env, scans, ports, m, later);
      StoreIsOwn(env, Run(env, m, later), w, c);
    }
  }

  // ----- progress -----

  function PcRank(pc: Pc): nat {
    match pc
    case Look => 7
    case Lock => 6
    case Write => 5
    case Load => 4
    case Store => 3
    case Unlock => 2
    case Send => 1
  }

  predicate InBounds(env: Env, me: Worker) {
    me.host <= |env.net.hosts| && me.port <= env.range
  }

  /** The steps that hosts and ports still to come can take, eight for each. */
  function Rounds(env: Env, hosts: nat, ports: nat): nat {
    8 * (hosts * (env.range + 1) + ports)
  }

  /** A bound on the steps that a worker still takes. */
  function Left(env: Env, me: Worker): nat
    requires InBounds(env, me)
  {
    Rounds(env, |env.net.hosts| - me.host, env.range - me.port) + PcRank(me.pc)
  }

  lemma NextHost(env: Env, hosts: nat)
    requires hosts > 0
    ensures Rounds(env, hosts - 1, env.range) + 8 == Rounds(env, hosts, 0)
  {
    assert hosts * (env.range + 1) == (hosts - 1) * (env.range + 1) + env.range + 1;
  }

  /** A worker that moves comes closer to its end. */
  lemma MoveGoesOn(env: Env, w: nat, me: Worker, m: Matrix)
    requires w < |env.jobs| && WorkerOk(env, w, me) && |env.jobs[w].port| == env.range
    ensures InBounds(env, Move(env, w, me, m))
    ensures if Finished(env, me) then Move(env, w, me, m) == me else Left(env, Move(env, w, me, m)) < Left(env, me)
  {
    if me.pc == Look && !Finished(env, me) && me.port >= env.range {
      NextHost(env, |env.net.hosts| - me.host);
    }
  }

  /** A worker stands still only when it has finished or waits for a mutex that is taken. */
  lemma StandsStillOnlyIf(env: Env, st: Sys, w: nat)
    requires w < |env.jobs| == |st.workers| && WorkerOk(env, w, st.workers[w]) && |env.jobs[w].port| == env.range
    requires !Finished(env, st.workers[w]) && !(st.workers[w].pc == Lock && st.mutex != None)
    ensures Step(env, st, w) != st
  {
    StepIs(env, st, w);
    MoveGoesOn(env, w, st.workers[w], st.matrix);
    assert Step(env, st, w).workers[w] != st.workers[w];
  }

  lemma FreeWorker(env: Env, st: Sys) returns (w: nat)
    requires |st.workers| == |env.jobs| && MutexOk(st) && !AllFinished(env, st)
    ensures w < |env.jobs| && !Finished(env, st.workers[w]) && !(st.workers[w].pc == Lock && st.mutex != None)
  {
    w :| 0 <= w < |st.workers| && !Finished(env, st.workers[w]);
    if st.mutex != None {
      w := st.mutex.value;
      assert InCell(st.workers[w].pc);
    }
  }

  /** The mutex never blocks everybody: as long as a thread has not finished, some thread can move. */
  lemma SomeWorkerMoves(env: Env, scans: seq<bool>, ports: seq<bool>, m: Matrix, schedule: seq<nat>) returns (w: nat)
    requires Sound(env, scans, ports) && FullMatrix(env, m) && Schedules(env, schedule)
    requires !AllFinished(env, Run(env, m, schedule))
    ensures w < |env.jobs| && Step(env, Run(env, m, schedule), w) != Run(env, m, schedule)
  {
    var st := Run(env, m, schedule);
    RunKeepsInv(env, scans, ports, m, schedule);
    w := FreeWorker(env, st);
    JobHasItsScan(env, scans, ports, w, 0, 0);
    StandsStillOnlyIf(env, st, w);
  }

  /** What all the workers together can still take. */
  function LeftOf(env: Env, workers: seq<Worker>): nat
    requires forall w :: 0 <= w < |workers| ==> InBounds(env, workers[w])
  {
    if workers == [] then 0 else LeftOf(env, workers[..|workers| - 1]) + Left(env, workers[|workers| - 1])
  }

  lemma {:induction false} LeftUpdate(env: Env, workers: seq<Worker>, w: nat, me: Worker)
    requires forall v :: 0 <= v < |workers| ==> InBounds(env, workers[v])
    requires w < |workers| && InBounds(env, me)
    ensures LeftOf(env, workers[w := me]) + Left(env, workers[w]) == LeftOf(env, workers) + Left(env, me)
  {
    var n := |workers| - 1;
    if w < n {
      LeftUpdate(env, workers[..n], w, me);
      assert workers[w := me][..n] == workers[..n][w := me];
    } else {
      assert workers[w := me][..n] == workers[..n];
    }
  }

  /** The number of steps of a schedule that changed anything: the others are those of threads
      that wait for the mutex or have finished. */
  function Moves(env: Env, m: Matrix, schedule: seq<nat>): nat
    requires Schedules(env, schedule)
  {
    if schedule == [] then 0
    else
      var st := Run(env, m, schedule[..|schedule| - 1]);
      Moves(env, m, schedule[..|schedule| - 1]) + if Step(env, st, schedule[|schedule| - 1]) != st then 1 else 0
  }

  ghost predicate AllInBounds(env: Env, st: Sys) {
    forall w :: 0 <= w < |st.workers| ==> InBounds(env, st.workers[w])
  }

  lemma StepGoesOn(env: Env, scans: seq<bool>, ports: seq<bool>, m: Matrix, st: Sys, w: nat)
    requires Sound(env, scans, ports) && FullMatrix(env, m) && Inv(env, m, st) && w < |env.jobs|
    ensures AllInBounds(env, st) && AllInBounds(env, Step(env, st, w))
    ensures Step(env, st, w) != st ==> LeftOf(env, Step(env, st, w).workers) < LeftOf(env, st.workers)
  {
    var me := st.workers[w];
    assert WorkerOk(env, w, me);
    JobHasItsScan(env, scans, ports, w, 0, 0);
    MoveGoesOn(env, w, me, st.matrix);
    if Step(env, st, w) != st {
      StepIs(env, st, w);
      assert st.workers[w := me] == st.workers;
      LeftUpdate(env, st.workers, w, Move(env, w, me, st.matrix));
    }
  }

  lemma {:induction false} MovesAreCounted(env: Env, scans: seq<bool>, ports: seq<bool>, m: Matrix, schedule: seq<nat>)
    requires Sound(env, scans, ports) && FullMatrix(env, m) && Schedules(env, schedule)
    ensures AllInBounds(env, Run(env, m, schedule)) && AllInBounds(env, Init(env, m))
    ensures Moves(env, m, schedule) + LeftOf(env, Run(env, m, schedule).workers) <= LeftOf(env, Init(env, m).workers)
  {
    if schedule != [] {
      var before := schedule[..|schedule| - 1];
      MovesAreCounted(env, scans, ports, m, before);
      RunKeepsInv(env, scans, ports, m, before);
      StepGoesOn(env, scans, ports, m, Run(env, m, before), schedule[|schedule| - 1]);
    }
  }

  lemma {:induction false} LeftAtStart(env: Env, workers: seq<Worker>, each: nat)
    requires each == Rounds(env, |env.net.hosts|, env.range) + 7
    requires forall w :: 0 <= w < |workers| ==> workers[w].host == workers[w].port == 0 && workers[w].pc == Look
    ensures forall w :: 0 <= w < |workers| ==> InBounds(env, workers[w])
    ensures LeftOf(env, workers) == |workers| * each
  {
    if workers != [] {
      var n := |workers| - 1;
      LeftAtStart(env, workers[..n], each);
      assert n * each + each == (n + 1) * each;
    }
  }

  /** A bound on the effective steps of all threads. */
  function Bound(env: Env): nat {
    |env.jobs| * (Rounds(env, |env.net.hosts|, env.range) + 7)
  }

  lemma InitialBound(env: Env, m: Matrix)
    ensures AllInBounds(env, Init(env, m)) && LeftOf(env, Init(env, m).workers) == Bound(env)
  {
    LeftAtStart(env, Init(env, m).workers, Rounds(env, |env.net.hosts|, env.range) + 7);
  }

  lemma MovesAreBounded(env: Env, scans: seq<bool>, ports: seq<bool>, m: Matrix, schedule: seq<nat>)
    requires Sound(env, scans, ports) && FullMatrix(env, m) && Schedules(env, schedule)
    ensures Moves(env, m, schedule) <= Bound(env)
  {
    MovesAreCounted(env, scans, ports, m, schedule);
    InitialBound(env, m);
  }

  /** No thread runs or waits forever: whatever the schedule, only so many of its steps change
      anything; and as long as a thread has not finished, some thread can move. So every run
      in which threads that can move do move comes to the end that the sequential run reaches. */
  lemma RunsAreBounded(env: Env, scans: seq<bool>, ports: seq<bool>, m: Matrix, schedule: seq<nat>)
    requires Sound(env, scans, ports) && FullMatrix(env, m) && Schedules(env, schedule)
    ensures Moves(env, m, schedule) <= Bound(env)
    ensures AllFinished(env, Run(env, m, schedule))
       <==> forall w :: 0 <= w < |env.jobs| ==> Step(env, Run(env, m, schedule), w) == Run(env, m, schedule)
  {
    MovesAreBounded(env, scans, ports, m, schedule);
    var st := Run(env, m, schedule);
    if AllFinished(env, st) {
      forall w | 0 <= w < |env.jobs| ensures Step(env, st, w) == st {
        FinishedStays(env, st, w);
      }
    } else {
      var w := SomeWorkerMoves(env, scans, ports, m, schedule);
    }
  }

  lemma FinishedStays(env: Env, st: Sys, w: nat)
    requires w < |env.jobs| == |st.workers| && Finished(env, st.workers[w])
    ensures Step(env, st, w) == st
  {
    assert st.workers[w := st.workers[w]] == st.workers;
  }
}
