/** The threads at work on the hosts (execution/thread_scan.c: routine and the joins): a scheduler
    that picks any thread that can move runs them to their end. */
module Threads {
  import opened CTypes
  import opened Packet
  import opened Probes
  import opened HostList
  import opened Execution
  import opened Workers

  // ----- matrices and values -----

  /** The cells of a matrix as values; cells outside it count as 0. */
  function ValuesOf(m: Matrix): Values {
    (h: nat, s: nat, p: nat) => if Cell(h, s, p) in m then m[Cell(h, s, p)] else 0
  }

  /** The values of all cells of some hosts as a matrix. */
  ghost function MatrixOf(v: Values, hosts: nat, range: nat): Matrix {
    map h: nat, s: nat, p: nat | h < hosts && s < TOTAL_TYPE && p < range :: Cell(h, s, p) := v(h, s, p)
  }

  lemma MatrixHolds(v: Values, env: Env, m: Matrix)
    requires m == MatrixOf(v, |env.net.hosts|, env.range)
    ensures FullMatrix(env, m)
    ensures forall c :: c in m ==> m[c] == v(c.host, c.scan, c.port)
  {
    forall c: Cell ensures c in m <==> c.host < |env.net.hosts| && c.scan < TOTAL_TYPE && c.port < env.range {
      assert c == Cell(c.host, c.scan, c.port);
    }
  }

  /** v with one cell changed. */
  function Changed(v: Values, c: Cell, x: int): Values {
    (h: nat, s: nat, p: nat) => if h == c.host && s == c.scan && p == c.port then x else v(h, s, p)
  }

  lemma ChangedMatrix(m: Matrix, c: Cell, x: int, h: nat, s: nat, p: nat)
    ensures ValuesOf(m[c := x])(h, s, p) == Changed(ValuesOf(m), c, x)(h, s, p)
  {
  }

  // ----- reading and writing a cell -----

  /** The node that a worker's pointer stands for. */
  method NodeOf(hosts: Hosts, h: nat) returns (ip: Ip)
    requires hosts.Valid() && h < |hosts.nodes|
    ensures ip == hosts.nodes[h]
  {
    ip := hosts.res;
    var i := 0;
    while i < h
      invariant 0 <= i <= h && ip == hosts.nodes[i]
    {
      ip := ip.next;
      i := i + 1;
    }
  }

  lemma OtherCellsShow(nodes: seq<Ip>, k: nat, v: Values, c: Cell, x: int)
    requires Apart(nodes) && k < |nodes| && k != c.host && ShowsHost(nodes[k], k, v)
    ensures ShowsHost(nodes[k], k, Changed(v, c, x))
  {
  }

  method WriteCell(hosts: Hosts, c: Cell, x: int, ghost v: Values)
    requires hosts.Valid() && c.host < |hosts.nodes| && c.scan < TOTAL_TYPE && c.port < RANGE_PORT
    requires Shows(hosts.nodes, 0, |hosts.nodes|, v)
    modifies set n | n in hosts.nodes :: n.state
    ensures Shows(hosts.nodes, 0, |hosts.nodes|, Changed(v, c, x))
  {
    ghost var nodes := hosts.nodes;
    var ip := NodeOf(hosts, c.host);
    assert ShowsHost(nodes[c.host], c.host, v);
    ip.state[c.scan, c.port] := x;
    assert ShowsHost(nodes[c.host], c.host, Changed(v, c, x));
    forall k: nat | k < |nodes| && k != c.host ensures ShowsHost(nodes[k], k, Changed(v, c, x)) {
      assert nodes[k].state != nodes[c.host].state;
      assert ShowsHost(nodes[k], k, v);
      OtherCellsShow(nodes, k, v, c, x);
    }
  }

  method ReadCell(hosts: Hosts, c: Cell, ghost v: Values) returns (x: int)
    requires hosts.Valid() && c.host < |hosts.nodes| && c.scan < TOTAL_TYPE && c.port < RANGE_PORT
    requires Shows(hosts.nodes, 0, |hosts.nodes|, v)
    ensures x == v(c.host, c.scan, c.port)
  {
    var ip := NodeOf(hosts, c.host);
    assert ShowsHost(hosts.nodes[c.host], c.host, v);
    x := ip.state[c.scan, c.port];
  }

  // ----- one step of a thread -----

  predicate CanMove(env: Env, me: Worker, mutex: Option<nat>) {
    !Finished(env, me) && !(me.pc == Lock && mutex != None)
  }

  function MutexAfter(pc: Pc, mutex: Option<nat>, w: nat): Option<nat> {
    match pc
    case Lock => Some(w)
    case Unlock => None
    case _ => mutex
  }

  /** What a step does to the hosts, the wire, the mutex and its worker. */
  lemma StepEffects(env: Env, st: Sys, w: nat)
    requires w < |env.jobs| == |st.workers| && CanMove(env, st.workers[w], st.mutex)
    ensures var next := Step(env, st, w);
            && next.matrix == MatrixAfter(env, st, w) && next.sent == st.sent + SentBy(env, st, w)
            && next.mutex == MutexAfter(st.workers[w].pc, st.mutex, w)
            && next.workers == st.workers[w := Move(env, w, st.workers[w], st.matrix)]
  {
    StepIs(env, st, w);
  }

  lemma MoveIsLocal(env: Env, w: nat, me: Worker, m: Matrix)
    requires w < |env.jobs| && me.pc != Load
    ensures Move(env, w, me, m) == Move(env, w, me, map[])
  {
  }

  /** The matrix step of a worker on the hosts: a store, or nothing. */
  method StepStates(hosts: Hosts, env: Env, w: nat, me: Worker, ghost st: Sys)
    requires hosts.Valid() && env.range == RANGE_PORT && |env.net.hosts| == |hosts.nodes|
    requires w < |env.jobs| == |st.workers| && me == st.workers[w] && WorkerOk(env, w, me)
    requires |env.jobs[w].port| == env.range
    requires Shows(hosts.nodes, 0, |hosts.nodes|, ValuesOf(st.matrix))
    modifies set n | n in hosts.nodes :: n.state
    ensures Shows(hosts.nodes, 0, |hosts.nodes|, ValuesOf(MatrixAfter(env, st, w)))
  {
    var c := Current(env, w, me);
    if me.pc == Write || me.pc == Store {
      var x := if me.pc == Write then FILTERED else me.tmp + OPEN;
      WriteCell(hosts, c, x, ValuesOf(st.matrix));
      forall h: nat, s: nat, p: nat | s < TOTAL_TYPE && p < RANGE_PORT
        ensures Changed(ValuesOf(st.matrix), c, x)(h, s, p) == ValuesOf(st.matrix[c := x])(h, s, p)
      {
        ChangedMatrix(st.matrix, c, x, h, s, p);
      }
      ShowsPointwise(hosts.nodes, Changed(ValuesOf(st.matrix), c, x), ValuesOf(st.matrix[c := x]));
    }
  }

  /** The next local state of a worker. */
  method StepWorker(hosts: Hosts, env: Env, w: nat, me: Worker, ghost st: Sys) returns (next: Worker)
    requires hosts.Valid() && env.range == RANGE_PORT && |env.net.hosts| == |hosts.nodes|
    requires w < |env.jobs| == |st.workers| && me == st.workers[w] && WorkerOk(env, w, me)
    requires |env.jobs[w].port| == env.range
    requires Shows(hosts.nodes, 0, |hosts.nodes|, ValuesOf(st.matrix)) && FullMatrix(env, st.matrix)
    ensures next == Move(env, w, me, st.matrix)
  {
    if me.pc == Load {
      var x := ReadCell(hosts, Current(env, w, me), ValuesOf(st.matrix));
      next := me.(pc := Store, tmp := x);
    } else {
      MoveIsLocal(env, w, me, st.matrix);
      next := Move(env, w, me, map[]);
    }
  }

  lemma OneMoreSent(sent: seq<Probe>, x: Probe)
    ensures multiset(sent + [x]) == multiset(sent) + multiset{x}
  {
  }

  method StepWire(line: Line, env: Env, w: nat, me: Worker, ghost st: Sys, ghost before: multiset<Probe>)
    requires w < |env.jobs| == |st.workers| && me == st.workers[w] && WorkerOk(env, w, me)
    requires multiset(line.sent) == before + st.sent
    modifies line
    ensures multiset(line.sent) == before + (st.sent + SentBy(env, st, w))
  {
    if me.pc == Send {
      var x := SentProbe(env, ScanOf(env, w), me);
      OneMoreSent(line.sent, x);
      line.sent := line.sent + [x];
    }
  }

  /** The hosts, the wire, the mutex and the workers are those of the state st. */
  ghost predicate Represents(nodes: seq<Ip>, line: Line, workers: seq<Worker>, mutex: Option<nat>, st: Sys,
                             before: multiset<Probe>)
    requires Apart(nodes)
    reads line, set n | n in nodes :: n.state
  {
    && Shows(nodes, 0, |nodes|, ValuesOf(st.matrix)) && multiset(line.sent) == before + st.sent
    && workers == st.workers && mutex == st.mutex
  }

  method StepThread(hosts: Hosts, line: Line, env: Env, workers: seq<Worker>, mutex: Option<nat>, w: nat,
                    ghost st: Sys, ghost before: multiset<Probe>)
    returns (nextWorkers: seq<Worker>, nextMutex: Option<nat>)
    requires hosts.Valid() && env.range == RANGE_PORT && |env.net.hosts| == |hosts.nodes|
    requires w < |env.jobs| == |workers| && WorkerOk(env, w, workers[w]) && CanMove(env, workers[w], mutex)
    requires |env.jobs[w].port| == env.range
    requires FullMatrix(env, st.matrix) && Represents(hosts.nodes, line, workers, mutex, st, before)
    modifies line, set n | n in hosts.nodes :: n.state
    ensures Represents(hosts.nodes, line, nextWorkers, nextMutex, Step(env, st, w), before)
  {
    var me := workers[w];
    StepEffects(env, st, w);
    var next := StepWorker(hosts, env, w, me, st);
    StepStates(hosts, env, w, me, st);
    StepWire(line, env, w, me, st, before);
    nextWorkers := workers[w := next];
    nextMutex := MutexAfter(me.pc, mutex, w);
  }

  // ----- the run -----

  /** The addresses along the list. */
  method HostAddresses(hosts: Hosts) returns (addresses: seq<Address>)
    requires hosts.Valid()
    ensures addresses == AddressesOf(hosts.nodes)
  {
    addresses := [];
    var ip := hosts.res;
    ghost var h: nat := 0;
    while ip != null
      invariant h <= |hosts.nodes| && ip == NodeAt(hosts.nodes, h)
      invariant addresses == AddressesOf(hosts.nodes)[..h]
      decreases |hosts.nodes| - h
    {
      assert ip == hosts.nodes[h];
      addresses := addresses + [ip.addr];
      ip := ip.next;
      h := h + 1;
    }
  }

  lemma SomebodyCanMove(env: Env, st: Sys)
    requires |st.workers| == |env.jobs| && MutexOk(st)
    ensures AllFinished(env, st) || exists w :: 0 <= w < |st.workers| && CanMove(env, st.workers[w], st.mutex)
  {
    if !AllFinished(env, st) {
      var w := FreeWorker(env, st);
      assert CanMove(env, st.workers[w], st.mutex);
    }
  }

  ghost predicate NoneCanMove(env: Env, workers: seq<Worker>, mutex: Option<nat>) {
    forall k :: 0 <= k < |workers| ==> !CanMove(env, workers[k], mutex)
  }

  /** A thread that can move, if there is one: any of them may be picked. */
  method PickThread(env: Env, workers: seq<Worker>, mutex: Option<nat>) returns (found: bool, w: nat)
    ensures found ==> w < |workers| && CanMove(env, workers[w], mutex)
    ensures !found ==> NoneCanMove(env, workers, mutex)
  {
    if k: nat :| k < |workers| && CanMove(env, workers[k], mutex) {
      return true, k;
    }
    return false, 0;
  }

  /** The state st is reached from m by the schedule. */
  ghost predicate Reached(env: Env, m: Matrix, schedule: seq<nat>, st: Sys) {
    Schedules(env, schedule) && Run(env, m, schedule) == st
  }

  lemma ReachedAtStart(env: Env, m: Matrix)
    ensures Reached(env, m, [], Init(env, m)) && Init(env, m).matrix == m
    ensures Init(env, m).mutex == None && Init(env, m).sent == multiset{}
    ensures Init(env, m).workers == Init(env, map[]).workers
  {
  }

  ghost function ToCome(env: Env, m: Matrix, schedule: seq<nat>): int
    requires Schedules(env, schedule)
  {
    Bound(env) - Moves(env, m, schedule)
  }

  lemma OneStepMore(env: Env, m: Matrix, schedule: seq<nat>, w: nat)
    requires Schedules(env, schedule) && w < |env.jobs|
    ensures Schedules(env, schedule + [w])
    ensures Run(env, m, schedule + [w]) == Step(env, Run(env, m, schedule), w)
    ensures Moves(env, m, schedule + [w])
         == Moves(env, m, schedule) + if Step(env, Run(env, m, schedule), w) != Run(env, m, schedule) then 1 else 0
  {
    assert (schedule + [w])[..|schedule|] == schedule;
  }

  /** What a thread may rely on when it takes a step. */
  lemma ReadyToStep(env: Env, scans: seq<bool>, ports: seq<bool>, m: Matrix, schedule: seq<nat>, st: Sys, w: nat)
    requires Sound(env, scans, ports) && FullMatrix(env, m) && Reached(env, m, schedule, st) && w < |env.jobs|
    ensures WorkerOk(env, w, st.workers[w]) && |env.jobs[w].port| == env.range && FullMatrix(env, st.matrix)
  {
    RunKeepsInv(env, scans, ports, m, schedule);
    JobHasItsScan(env, scans, ports, w, 0, 0);
  }

  lemma CanMoveMoves(env: Env, scans: seq<bool>, ports: seq<bool>, m: Matrix, schedule: seq<nat>, st: Sys, w: nat)
    requires Sound(env, scans, ports) && FullMatrix(env, m) && Reached(env, m, schedule, st)
    requires w < |env.jobs| && CanMove(env, st.workers[w], st.mutex)
    ensures Step(env, st, w) != st
  {
    ReadyToStep(env, scans, ports, m, schedule, st, w);
    StandsStillOnlyIf(env, st, w);
  }

  lemma FewerToCome(env: Env, scans: seq<bool>, ports: seq<bool>, m: Matrix, schedule: seq<nat>, w: nat)
    requires Sound(env, scans, ports) && FullMatrix(env, m) && Schedules(env, schedule) && w < |env.jobs|
    requires Step(env, Run(env, m, schedule), w) != Run(env, m, schedule)
    ensures Schedules(env, schedule + [w]) && 0 <= ToCome(env, m, schedule + [w]) < ToCome(env, m, schedule)
  {
    OneStepMore(env, m, schedule, w);
    MovesAreBounded(env, scans, ports, m, schedule + [w]);
  }

  /** A step of a thread that can move. */
  lemma ReachedNext(env: Env, scans: seq<bool>, ports: seq<bool>, m: Matrix, schedule: seq<nat>, st: Sys, w: nat)
    requires Sound(env, scans, ports) && FullMatrix(env, m) && Reached(env, m, schedule, st)
    requires w < |env.jobs| && CanMove(env, st.workers[w], st.mutex)
    ensures Reached(env, m, schedule + [w], Step(env, st, w))
    ensures 0 <= ToCome(env, m, schedule + [w]) < ToCome(env, m, schedule)
  {
    CanMoveMoves(env, scans, ports, m, schedule, st, w);
    FewerToCome(env, scans, ports, m, schedule, w);
    OneStepMore(env, m, schedule, w);
  }

  lemma NobodyCanMove(env: Env, scans: seq<bool>, ports: seq<bool>, m: Matrix, schedule: seq<nat>, st: Sys)
    requires Sound(env, scans, ports) && FullMatrix(env, m) && Reached(env, m, schedule, st)
    requires NoneCanMove(env, st.workers, st.mutex)
    ensures AllFinished(env, st)
  {
    RunKeepsInv(env, scans, ports, m, schedule);
    SomebodyCanMove(env, st);
  }

  /** The scheduler: as long as some thread can move, one of them does. It ends, and then all
      threads have finished. */
  method Schedule(hosts: Hosts, line: Line, env: Env, ghost scans: seq<bool>, ghost ports: seq<bool>,
                  ghost m: Matrix, ghost before: multiset<Probe>)
    returns (ghost schedule: seq<nat>, ghost st: Sys)
    requires hosts.Valid() && env.range == RANGE_PORT && |env.net.hosts| == |hosts.nodes|
    requires Sound(env, scans, ports) && FullMatrix(env, m)
    requires Shows(hosts.nodes, 0, |hosts.nodes|, ValuesOf(m)) && multiset(line.sent) == before
    modifies line, set n | n in hosts.nodes :: n.state
    ensures Reached(env, m, schedule, st) && AllFinished(env, st)
    ensures Shows(hosts.nodes, 0, |hosts.nodes|, ValuesOf(st.matrix))
    ensures multiset(line.sent) == before + st.sent
  {
    st, schedule := Init(env, m), [];
    ReachedAtStart(env, m);
    var workers := Init(env, map[]).workers;
    var mutex: Option<nat> := None;
    var found: bool, w: nat := PickThread(env, workers, mutex);
    while found
      invariant Reached(env, m, schedule, st)
      invariant Represents(hosts.nodes, line, workers, mutex, st, before)
      invariant found ==> w < |workers| && CanMove(env, workers[w], mutex)
      invariant !found ==> NoneCanMove(env, workers, mutex)
      decreases ToCome(env, m, schedule)
    {
      ReadyToStep(env, scans, ports, m, schedule, st, w);
      ReachedNext(env, scans, ports, m, schedule, st, w);
      workers, mutex := StepThread(hosts, line, env, workers, mutex, w, st, before);
      schedule, st := schedule + [w], Step(env, st, w);
      found, w := PickThread(env, workers, mutex);
    }
    NobodyCanMove(env, scans, ports, m, schedule, st);
  }

  /** What the sequential branch records, as a matrix and as values. */
  lemma SequentialValues(v: Values, env: Env, scans: seq<bool>, ports: seq<bool>, m: Matrix, h: nat, s: nat, p: nat)
    requires m == MatrixOf(v, |env.net.hosts|, env.range) && |scans| == TOTAL_TYPE
    requires h < |env.net.hosts| && s < TOTAL_TYPE && p < env.range
    ensures ValuesOf(m)(h, s, p) == v(h, s, p)
    ensures ValuesOf(SequentialMatrix(m, scans, ports))(h, s, p) == MarkedIn(v, SCAN_ORDER, scans, ports)(h, s, p)
  {
    MatrixHolds(v, env, m);
    OrderListsEveryScan(SCAN_ORDER);
    assert Cell(h, s, p) in m;
  }

  lemma MatrixShows(nodes: seq<Ip>, env: Env, v: Values, scans: seq<bool>, ports: seq<bool>, m: Matrix)
    requires Apart(nodes) && |env.net.hosts| == |nodes| && env.range == RANGE_PORT && |scans| == TOTAL_TYPE
    requires m == MatrixOf(v, |env.net.hosts|, env.range)
    ensures Shows(nodes, 0, |nodes|, v) ==> Shows(nodes, 0, |nodes|, ValuesOf(m))
    ensures Shows(nodes, 0, |nodes|, ValuesOf(SequentialMatrix(m, scans, ports))) ==>
              Shows(nodes, 0, |nodes|, MarkedIn(v, SCAN_ORDER, scans, ports))
  {
    forall h: nat, s: nat, p: nat | h < |nodes| && s < TOTAL_TYPE && p < RANGE_PORT
      ensures ValuesOf(m)(h, s, p) == v(h, s, p)
      ensures ValuesOf(SequentialMatrix(m, scans, ports))(h, s, p) == MarkedIn(v, SCAN_ORDER, scans, ports)(h, s, p)
    {
      SequentialValues(v, env, scans, ports, m, h, s, p);
    }
    if Shows(nodes, 0, |nodes|, v) {
      ShowsPointwise(nodes, v, ValuesOf(m));
    }
    if Shows(nodes, 0, |nodes|, ValuesOf(SequentialMatrix(m, scans, ports))) {
      ShowsPointwise(nodes, ValuesOf(SequentialMatrix(m, scans, ports)), MarkedIn(v, SCAN_ORDER, scans, ports));
    }
  }

  /** Starts the jobs and waits for them: whatever the scheduler does, in the end the hosts hold
      the states of the sequential run, and its probes have been sent. */
  method RunJobs(hosts: Hosts, line: Line, env: Env, ghost scans: seq<bool>, ghost ports: seq<bool>, ghost v: Values)
    requires hosts.Valid() && env.range == RANGE_PORT && |env.net.hosts| == |hosts.nodes| && Sound(env, scans, ports)
    requires Shows(hosts.nodes, 0, |hosts.nodes|, v)
    modifies line, set n | n in hosts.nodes :: n.state
    ensures Shows(hosts.nodes, 0, |hosts.nodes|, MarkedIn(v, SCAN_ORDER, scans, ports))
    ensures multiset(line.sent) == multiset(old(line.sent))
                                   + multiset(SequentialTrace(ProberOf(env.net), |env.net.hosts|, scans, ports))
  {
    ghost var m := MatrixOf(v, |env.net.hosts|, env.range);
    MatrixHolds(v, env, m);
    MatrixShows(hosts.nodes, env, v, scans, ports, m);
    ghost var schedule, st := Schedule(hosts, line, env, scans, ports, m, multiset(line.sent));
    ParallelRefinesSequential(env, scans, ports, m, schedule);
    MatrixShows(hosts.nodes, env, v, scans, ports, m);
  }
}
