/** TPs/Fork/primes.c as processes over pipes. Process 0 is main; process j >= 1 runs receive_numbers, reads pipe
    j-1 and writes pipe j. Each step is one system call (or one printf) of one process; any process whose next call
    does not block may be the one to go. */
module Sieve {
  import opened SieveMath

  datatype Pc =
    // main, after its fork
    | MCloseRead | MSend(p: int) | MWait
    // receive_numbers up to the first read
    | FDropParent | FCloseWrite | FFirst
    // after the first number
    | FPrint(p: int) | FPipe(p: int) | FFork(p: int)
    // the father branch
    | FCloseNextRead(p: int) | FLoop(p: int) | FWrite(p: int, m: int) | FCloseNextWrite | FCloseRead | FWait
    // end of input on the first read
    | FGiveUp
    | Done
    // write on a pipe without readers: SIGPIPE
    | Broken

  /** A FIFO: what it holds, what has been read from it so far, and who holds its ends. Pipe k is made by process k,
      or by main for k = 0, inherited by k + 1, and its read end by k + 2 until that process closes it. */
  datatype Pipe = Pipe(q: seq<int>, got: seq<int>, w0: bool, w1: bool, r0: bool, r1: bool, r2: bool) {
    function Sent(): seq<int> { got + q }
    predicate Writers() { w0 || w1 }
    predicate Readers() { r0 || r1 || r2 }
  }

  datatype State = State(n: int, cap: nat, procs: seq<Pc>, pipes: seq<Pipe>, out: seq<int>)

  function Init(n: int, cap: nat): State {
    State(n, cap, [MCloseRead, FCloseWrite], [Pipe([], [], true, true, true, true, false)], [])
  }

  // --- which descriptors a process holds, and which processes it has ---

  predicate IsMain(pc: Pc) { pc.MCloseRead? || pc.MSend? || pc.MWait? || pc.Done? }

  predicate IsFirstPart(pc: Pc) {
    pc.FDropParent? || pc.FCloseWrite? || pc.FFirst? || pc.FPrint? || pc.FPipe? || pc.FFork? || pc.FGiveUp?
  }

  predicate IsFather(pc: Pc) {
    pc.FCloseNextRead? || pc.FLoop? || pc.FWrite? || pc.FCloseNextWrite? || pc.FCloseRead? || pc.FWait?
  }

  predicate HoldsRead(pc: Pc) { IsFirstPart(pc) || (IsFather(pc) && !pc.FWait?) }

  predicate HoldsWrite(pc: Pc) {
    pc.MCloseRead? || pc.MSend? || pc.FFork? || pc.FCloseNextRead? || pc.FLoop? || pc.FWrite? || pc.FCloseNextWrite?
  }

  function At(procs: seq<Pc>, j: nat): Pc { if j < |procs| then procs[j] else Done }

  // --- the program points, by the part of the program they are in ---

  predicate InMain(pc: Pc) { pc.MCloseRead? || pc.MSend? || pc.MWait? }
  predicate InStart(pc: Pc) { pc.FDropParent? || pc.FCloseWrite? || pc.FFirst? || pc.FGiveUp? }
  predicate InSpawn(pc: Pc) { pc.FPrint? || pc.FPipe? || pc.FFork? }
  predicate InLoop(pc: Pc) { pc.FCloseNextRead? || pc.FLoop? || pc.FWrite? }
  predicate InEnd(pc: Pc) { pc.FCloseNextWrite? || pc.FCloseRead? || pc.FWait? }

  // --- the step relation ---

  predicate Wf(s: State) {
    && |s.procs| >= 2 && IsMain(s.procs[0])
    && (forall j | 1 <= j < |s.procs| - 1 :: IsFather(s.procs[j]) || s.procs[j].Done?)
    && (var last := s.procs[|s.procs| - 1]; IsFirstPart(last) || last.Done?)
    && |s.pipes| == |s.procs| - 1 + (if s.procs[|s.procs| - 1].FFork? then 1 else 0)
  }

  predicate CanRead(p: Pipe) { p.q != [] || !p.Writers() }
  predicate CanWrite(p: Pipe, cap: nat) { |p.q| < cap || !p.Readers() }

  predicate Enabled(s: State, j: nat)
    requires Wf(s)
  {
    j < |s.procs| &&
    match s.procs[j]
    case MSend(p) => p > s.n || CanWrite(s.pipes[0], s.cap)
    case MWait => s.procs[1].Done?
    case FFirst => CanRead(s.pipes[j - 1])
    case FLoop(_) => CanRead(s.pipes[j - 1])
    case FWrite(_, _) => CanWrite(s.pipes[j], s.cap)
    case FWait => s.procs[j + 1].Done?
    case Done => false
    case Broken => false
    case _ => true
  }

  function Go(s: State, j: nat, pc: Pc): State
    requires j < |s.procs|
  {
    s.(procs := s.procs[j := pc])
  }

  function SetPipe(s: State, k: nat, p: Pipe): State
    requires k < |s.pipes|
  {
    s.(pipes := s.pipes[k := p])
  }

  function Pop(s: State, k: nat): State
    requires k < |s.pipes| && s.pipes[k].q != []
  {
    var p := s.pipes[k];
    SetPipe(s, k, p.(q := p.q[1..], got := p.got + [p.q[0]]))
  }

  function Push(s: State, k: nat, m: int): State
    requires k < |s.pipes|
  {
    SetPipe(s, k, s.pipes[k].(q := s.pipes[k].q + [m]))
  }

  // fork() in receive_numbers: the child inherits both ends of the new pipe and the read end of the current one.
  function Fork(s: State, j: nat): State
    requires 1 <= j < |s.pipes|
  {
    var cur, next := s.pipes[j - 1], s.pipes[j];
    s.(procs := s.procs + [FDropParent],
       pipes := s.pipes[j - 1 := cur.(r2 := cur.r1)][j := next.(r1 := next.r0, w1 := next.w0)])
  }

  // main: close the read end, send 2..n, close the write end, wait.
  function MainNext(s: State, j: nat): State
    requires Wf(s) && j < |s.procs| && InMain(s.procs[j])
  {
    match s.procs[j]
    case MCloseRead => Go(SetPipe(s, 0, s.pipes[0].(r0 := false)), j, MSend(2))
    case MSend(p) =>
      if p > s.n then Go(SetPipe(s, 0, s.pipes[0].(w0 := false)), j, MWait)
      else if !s.pipes[0].Readers() then Go(s, j, Broken)
      else Go(Push(s, 0, p), j, MSend(p + 1))
    case MWait => Go(s, j, Done)
  }

  // receive_numbers up to its first read, and its way out when that finds the end.
  function StartNext(s: State, j: nat): State
    requires Wf(s) && j < |s.procs| && InStart(s.procs[j])
  {
    match s.procs[j]
    case FDropParent =>
      if j >= 2 then Go(SetPipe(s, j - 2, s.pipes[j - 2].(r2 := false)), j, FCloseWrite) else Go(s, j, FCloseWrite)
    case FCloseWrite => Go(SetPipe(s, j - 1, s.pipes[j - 1].(w1 := false)), j, FFirst)
    case FFirst =>
      if s.pipes[j - 1].q != [] then Go(Pop(s, j - 1), j, FPrint(s.pipes[j - 1].q[0])) else Go(s, j, FGiveUp)
    case FGiveUp => Go(SetPipe(s, j - 1, s.pipes[j - 1].(r1 := false)), j, Done)
  }

  // printf, pipe, fork.
  function SpawnNext(s: State, j: nat): State
    requires Wf(s) && j < |s.procs| && InSpawn(s.procs[j])
  {
    match s.procs[j]
    case FPrint(p) => Go(s.(out := s.out + [p]), j, FPipe(p))
    case FPipe(p) => Go(s.(pipes := s.pipes + [Pipe([], [], true, false, true, false, false)]), j, FFork(p))
    case FFork(p) => Go(Fork(s, j), j, FCloseNextRead(p))
  }

  // The father: close the read end of the next pipe, then send_primes_candidates.
  function LoopNext(s: State, j: nat): State
    requires Wf(s) && j < |s.procs| && InLoop(s.procs[j])
  {
    match s.procs[j]
    case FCloseNextRead(p) => Go(SetPipe(s, j, s.pipes[j].(r0 := false)), j, FLoop(p))
    case FLoop(p) =>
      if s.pipes[j - 1].q == [] then Go(s, j, FCloseNextWrite)
      else if Divides(p, s.pipes[j - 1].q[0]) then Pop(s, j - 1)
      else Go(Pop(s, j - 1), j, FWrite(p, s.pipes[j - 1].q[0]))
    case FWrite(p, m) =>
      if !s.pipes[j].Readers() then Go(s, j, Broken) else Go(Push(s, j, m), j, FLoop(p))
  }

  // The father after the loop: close both ends and wait for the child.
  function EndNext(s: State, j: nat): State
    requires Wf(s) && j < |s.procs| && InEnd(s.procs[j])
  {
    match s.procs[j]
    case FCloseNextWrite => Go(SetPipe(s, j, s.pipes[j].(w0 := false)), j, FCloseRead)
    case FCloseRead => Go(SetPipe(s, j - 1, s.pipes[j - 1].(r1 := false)), j, FWait)
    case FWait => Go(s, j, Done)
  }

  /** The next system call of process j. */
  function Next(s: State, j: nat): State
    requires Wf(s) && Enabled(s, j)
  {
    if InMain(s.procs[j]) then MainNext(s, j)
    else if InStart(s.procs[j]) then StartNext(s, j)
    else if InSpawn(s.procs[j]) then SpawnNext(s, j)
    else if InLoop(s.procs[j]) then LoopNext(s, j)
    else EndNext(s, j)
  }

  // --- the invariant ---

  predicate Closed(pc: Pc) { pc.MWait? || pc.FCloseRead? || pc.FWait? || pc.Done? }

  // Process k will never write again and everything it wrote has been read.
  predicate Eof(s: State, k: nat)
    requires k < |s.procs| && k < |s.pipes|
  {
    Closed(s.procs[k]) && s.pipes[k].q == []
  }

  // What main has written so far is 2, 3, ..., up to here.
  function MainBound(n: int, pc: Pc): int {
    match pc
    case MCloseRead => 2
    case MSend(p) => p
    case _ => n + 1
  }

  // A filter that has read c has forwarded what its prime does not divide, but for the number in its hand.
  predicate FilterFlow(pc: Pc, c: seq<int>, sent: seq<int>, eof: bool) {
    c != [] &&
    match pc
    case FCloseNextRead(p) => p == c[0] && sent == Drop(c[0], c[1..])
    case FLoop(p) => p == c[0] && sent == Drop(c[0], c[1..])
    case FWrite(p, m) => p == c[0] && sent + [m] == Drop(c[0], c[1..])
    case FCloseNextWrite => sent == Drop(c[0], c[1..]) && eof
    case FCloseRead => sent == Drop(c[0], c[1..]) && eof
    case FWait => sent == Drop(c[0], c[1..]) && eof
    case Done => sent == Drop(c[0], c[1..]) && eof
    case _ => false
  }

  // The last process of the chain has read at most its prime.
  predicate LastFlow(pc: Pc, c: seq<int>, eof: bool) {
    match pc
    case FDropParent => c == []
    case FCloseWrite => c == []
    case FFirst => c == []
    case FPrint(p) => c == [p]
    case FPipe(p) => c == [p]
    case FFork(p) => c == [p]
    case FGiveUp => c == [] && eof
    case Done => c == [] && eof
    case _ => false
  }

  // The holders of a pipe's ends, from where the three processes concerned are.
  predicate EndsOk(p: Pipe, maker: Pc, child: Pc, grandchild: Pc) {
    && p.w0 == HoldsWrite(maker) && p.w1 == (child.FDropParent? || child.FCloseWrite?)
    && p.r0 == (maker.MCloseRead? || maker.FFork? || maker.FCloseNextRead?)
    && p.r1 == HoldsRead(child) && p.r2 == grandchild.FDropParent?
  }

  predicate Fds(s: State, k: nat)
    requires k < |s.pipes|
  {
    EndsOk(s.pipes[k], At(s.procs, k), At(s.procs, k + 1), At(s.procs, k + 2))
  }

  predicate Flow(s: State, k: nat)
    requires k < |s.procs| && k < |s.pipes|
  {
    if k == 0 then
      s.pipes[0].Sent() == Range(2, MainBound(s.n, s.procs[0])) &&
      (s.procs[0].MSend? ==> 2 <= s.procs[0].p && (s.procs[0].p <= s.n + 1 || s.procs[0].p == 2))
    else
      FilterFlow(s.procs[k], s.pipes[k - 1].got, s.pipes[k].Sent(), Eof(s, k - 1))
  }

  function Printed(s: State): int
    requires |s.procs| >= 2
  {
    var last := s.procs[|s.procs| - 1];
    |s.procs| - (if last.FPipe? || last.FFork? then 1 else 2)
  }

  // The last process, and what has been printed: the first number each process read, in chain order.
  ghost predicate Tail(s: State)
    requires Wf(s)
  {
    var last := |s.procs| - 1;
    && LastFlow(s.procs[last], s.pipes[last - 1].got, Eof(s, last - 1))
    && (s.procs[last].FFork? ==> s.pipes[last].Sent() == [])
    && |s.out| == Printed(s)
    && (forall i | 0 <= i < |s.out| :: s.pipes[i].got != [] && s.out[i] == s.pipes[i].got[0])
  }

  ghost predicate Inv(s: State) {
    && Wf(s)
    && (forall k: nat | k < |s.pipes| :: Fds(s, k))
    && (forall k: nat | k < |s.procs| - 1 :: Flow(s, k))
    && Tail(s)
  }

  lemma InitInv(n: int, cap: nat)
    ensures Inv(Init(n, cap))
  {
  }

  // --- every step keeps it ---

  // The pipes that a step of process j can touch, and the flows that speak of them.
  predicate NearFds(s: State, j: nat) {
    && (2 <= j < |s.pipes| + 2 ==> Fds(s, j - 2))
    && (1 <= j < |s.pipes| + 1 ==> Fds(s, j - 1))
    && (j < |s.pipes| ==> Fds(s, j))
  }

  predicate NearFlow(s: State, j: nat)
    requires Wf(s)
  {
    && (1 <= j < |s.procs| ==> Flow(s, j - 1))
    && (j < |s.procs| - 1 ==> Flow(s, j))
    && (j + 1 < |s.procs| - 1 ==> Flow(s, j + 1))
  }

  predicate Near(s: State, j: nat)
    requires Wf(s)
  {
    NearFds(s, j) && NearFlow(s, j)
  }

  // s' differs from s only where a step of process j may make it differ.
  predicate Touches(s: State, s': State, j: nat) {
    && s'.n == s.n && |s.procs| <= |s'.procs| && |s.pipes| <= |s'.pipes|
    && (|s'.procs| > |s.procs| || |s'.pipes| > |s.pipes| ==> j == |s.procs| - 1)
    && |s'.procs| <= |s.procs| + 1 && |s'.pipes| <= |s.pipes| + 1 && |s'.pipes| <= |s.procs|
    && (forall i: nat | i < |s.procs| && i != j :: s'.procs[i] == s.procs[i])
    && (forall i: nat | i < |s.pipes| && i != j && i + 1 != j && i + 2 != j :: s'.pipes[i] == s.pipes[i])
    && (forall i: nat | i + 2 == j && i < |s.pipes| ::
          s'.pipes[i].q == s.pipes[i].q && s'.pipes[i].got == s.pipes[i].got)
    && (j < |s.pipes| ==> s'.pipes[j].got == s.pipes[j].got)
    && (|s'.procs| > |s.procs| ==> s'.procs[|s.procs|].FDropParent?)
  }

  lemma FdsFar(s: State, s': State, j: nat, k: nat)
    requires Wf(s) && Wf(s') && Touches(s, s', j) && k < |s.pipes| && Fds(s, k)
    requires j < |s.procs| && k != j && k + 1 != j && k + 2 != j
    ensures Fds(s', k)
  {
    assert |s'.procs| > |s.procs| ==> k + 2 < |s.procs|;
    assert At(s'.procs, k) == At(s.procs, k) && At(s'.procs, k + 1) == At(s.procs, k + 1);
    assert At(s'.procs, k + 2) == At(s.procs, k + 2);
  }

  lemma FlowFar(s: State, s': State, j: nat, k: nat)
    requires Wf(s) && Wf(s') && Touches(s, s', j) && k < |s.procs| - 1 && Flow(s, k)
    requires k != j && k + 1 != j && k != j + 1
    ensures Flow(s', k)
  {
    hide FilterFlow;
    hide MainBound;
  }

  lemma Rebuild(s: State, s': State, j: nat)
    requires Inv(s) && Wf(s') && j < |s.procs| && Touches(s, s', j) && Near(s', j) && Tail(s')
    ensures Inv(s')
  {
    hide Fds;
    hide Flow;
    hide Tail;
    forall k: nat | k < |s'.pipes|
      ensures Fds(s', k)
    {
      if k != j && k + 1 != j && k + 2 != j {
        FdsFar(s, s', j, k);
      }
    }
    forall k: nat | k < |s'.procs| - 1
      ensures Flow(s', k)
    {
      if k != j && k + 1 != j && k != j + 1 {
        FlowFar(s, s', j, k);
      }
    }
  }

  // What a step of process j needs to know, and what it has to show afterwards.
  ghost predicate Local(s: State, j: nat) { Wf(s) && Near(s, j) && Tail(s) }

  lemma InvLocal(s: State, j: nat)
    requires Inv(s)
    ensures Local(s, j)
  {
    hide Fds;
    hide Flow;
    hide Tail;
  }

  /** A process that may still write has a reader, so no write is ever answered by SIGPIPE. */
  lemma ReaderAlive(s: State, k: nat)
    requires Local(s, k) && k < |s.procs| - 1 && !Closed(s.procs[k])
    ensures s.pipes[k].r1
  {
    assert Fds(s, k);
    if k + 1 < |s.procs| - 1 {
      assert Flow(s, k + 1);
    }
  }

  /** An empty pipe that nobody holds for writing is at its end. */
  lemma EofKnown(s: State, k: nat)
    requires Local(s, k + 1) && k < |s.procs| - 1 && s.pipes[k].q == [] && !s.pipes[k].Writers()
    ensures Eof(s, k)
  {
    assert Fds(s, k);
  }

  lemma DropAppend(p: int, c: seq<int>, m: int)
    requires c != []
    ensures Drop(p, (c + [m])[1..]) == Drop(p, c[1..]) + (if Divides(p, m) then [] else [m])
  {
    var t := (c + [m])[1..];
    assert t[..|t| - 1] == c[1..] && t[|t| - 1] == m;
  }

  // What a reading step needs: the end of the pipe is real, and nothing is lost between queue and history.
  lemma ReadFacts(s: State, j: nat)
    requires Local(s, j) && 1 <= j < |s.procs| && CanRead(s.pipes[j - 1])
    ensures s.pipes[j - 1].q == [] ==> Eof(s, j - 1)
    ensures s.pipes[j - 1].q != [] ==> Pop(s, j - 1).pipes[j - 1].Sent() == s.pipes[j - 1].Sent()
    ensures s.pipes[j - 1].q != [] && s.procs[j].FLoop? ==>
              var c, m := s.pipes[j - 1].got, s.pipes[j - 1].q[0];
              c != [] &&
                  Drop(s.procs[j].p, (c + [m])[1..]) ==
                  Drop(s.procs[j].p, c[1..]) + (if Divides(s.procs[j].p, m) then [] else [m])
  {
    hide Divides;
    var pipe := s.pipes[j - 1];
    if pipe.q == [] {
      EofKnown(s, j - 1);
    } else {
      assert pipe.got + pipe.q == pipe.got + [pipe.q[0]] + pipe.q[1..];
      if s.procs[j].FLoop? {
        assert Flow(s, j);
        DropAppend(s.procs[j].p, pipe.got, pipe.q[0]);
      }
    }
  }

  lemma MainShape(s: State, j: nat)
    requires Local(s, j) && Enabled(s, j) && InMain(s.procs[j])
    ensures Wf(MainNext(s, j)) && Touches(s, MainNext(s, j), j)
  {
    hide Divides;
    hide NearFds;
    hide NearFlow;
    hide Tail;
    if s.procs[j].MSend? {
      ReaderAlive(s, 0);
    }
  }

  lemma MainEnds(s: State, j: nat)
    requires Local(s, j) && Enabled(s, j) && InMain(s.procs[j])
    ensures NearFds(MainNext(s, j), j)
  {
    hide Divides;
    hide NearFlow;
    hide Tail;
    if s.procs[j].MSend? {
      ReaderAlive(s, 0);
    }
  }

  lemma MainFlow(s: State, j: nat)
    requires Local(s, j) && Enabled(s, j) && InMain(s.procs[j]) && Wf(MainNext(s, j))
    ensures NearFlow(MainNext(s, j), j)
  {
    hide Drop;
    hide Divides;
    hide NearFds;
    hide Tail;
    if s.procs[j].MSend? && s.procs[j].p <= s.n {
      ReaderAlive(s, 0);
      assert s.pipes[0].got + (s.pipes[0].q + [s.procs[0].p]) == s.pipes[0].Sent() + [s.procs[0].p];
    }
  }

  lemma StartShape(s: State, j: nat)
    requires Local(s, j) && Enabled(s, j) && InStart(s.procs[j])
    ensures Wf(StartNext(s, j)) && Touches(s, StartNext(s, j), j)
  {
    hide Divides;
    hide NearFds;
    hide NearFlow;
    hide Tail;
  }

  lemma FirstEnds(s: State, j: nat)
    requires Local(s, j) && Enabled(s, j) && (s.procs[j].FFirst? || s.procs[j].FGiveUp?)
    ensures NearFds(StartNext(s, j), j)
  {
    hide NearFlow;
    hide Tail;
  }

  lemma StartEnds(s: State, j: nat)
    requires Local(s, j) && Enabled(s, j) && InStart(s.procs[j])
    ensures NearFds(StartNext(s, j), j)
  {
    hide NearFlow;
    hide Tail;
    if s.procs[j].FFirst? || s.procs[j].FGiveUp? {
      FirstEnds(s, j);
    }
  }

  lemma StartFlow(s: State, j: nat)
    requires Local(s, j) && Enabled(s, j) && InStart(s.procs[j]) && Wf(StartNext(s, j))
    ensures NearFlow(StartNext(s, j), j)
  {
    hide Drop;
    hide Divides;
    hide NearFds;
    hide Tail;
    if s.procs[j].FFirst? {
      ReadFacts(s, j);
    }
  }

  lemma SpawnShape(s: State, j: nat)
    requires Local(s, j) && Enabled(s, j) && InSpawn(s.procs[j])
    ensures Wf(SpawnNext(s, j)) && Touches(s, SpawnNext(s, j), j)
  {
    hide Divides;
    hide NearFds;
    hide NearFlow;
    hide Tail;
  }

  lemma SpawnEnds(s: State, j: nat)
    requires Local(s, j) && Enabled(s, j) && InSpawn(s.procs[j])
    ensures NearFds(SpawnNext(s, j), j)
  {
    hide Divides;
    hide NearFlow;
    hide Tail;
  }

  lemma LoopShape(s: State, j: nat)
    requires Local(s, j) && Enabled(s, j) && InLoop(s.procs[j])
    ensures Wf(LoopNext(s, j)) && Touches(s, LoopNext(s, j), j)
  {
    hide Divides;
    hide NearFds;
    hide NearFlow;
    hide Tail;
    ReaderAlive(s, j);
  }

  lemma FCloseNextReadEnds(s: State, j: nat)
    requires Local(s, j) && Enabled(s, j) && s.procs[j].FCloseNextRead?
    ensures NearFds(LoopNext(s, j), j)
  {
    hide Divides;
    hide NearFlow;
    hide Tail;
    assert 1 <= j < |s.procs| - 1 && |s.procs| - 1 <= |s.pipes| <= |s.procs|;
    hide Wf;
  }

  lemma FLoopEnds(s: State, j: nat)
    requires Local(s, j) && Enabled(s, j) && s.procs[j].FLoop?
    ensures NearFds(LoopNext(s, j), j)
  {
    hide Divides;
    hide NearFlow;
    hide Tail;
    assert 1 <= j < |s.procs| - 1 && |s.procs| - 1 <= |s.pipes| <= |s.procs|;
    hide Wf;
  }

  lemma FWriteEnds(s: State, j: nat)
    requires Local(s, j) && Enabled(s, j) && s.procs[j].FWrite?
    ensures NearFds(LoopNext(s, j), j)
  {
    hide Divides;
    hide NearFlow;
    hide Tail;
    ReaderAlive(s, j);
    assert 1 <= j < |s.procs| - 1 && |s.procs| - 1 <= |s.pipes| <= |s.procs|;
    hide Wf;
  }

  lemma LoopEnds(s: State, j: nat)
    requires Local(s, j) && Enabled(s, j) && InLoop(s.procs[j])
    ensures NearFds(LoopNext(s, j), j)
  {
    hide Local;
    hide NearFds;
    hide LoopNext;
    match s.procs[j] {
      case FCloseNextRead(_) => FCloseNextReadEnds(s, j);
      case FLoop(_) => FLoopEnds(s, j);
      case FWrite(_, _) => FWriteEnds(s, j);
    }
  }

  lemma FLoopFlow(s: State, j: nat)
    requires Local(s, j) && Enabled(s, j) && s.procs[j].FLoop? && Wf(LoopNext(s, j))
    ensures NearFlow(LoopNext(s, j), j)
  {
    hide Drop;
    hide Divides;
    hide NearFds;
    hide Tail;
    ReadFacts(s, j);
  }

  lemma LoopFlow(s: State, j: nat)
    requires Local(s, j) && Enabled(s, j) && InLoop(s.procs[j]) && Wf(LoopNext(s, j))
    ensures NearFlow(LoopNext(s, j), j)
  {
    hide Drop;
    hide Divides;
    hide NearFds;
    hide Tail;
    ReaderAlive(s, j);
    if s.procs[j].FLoop? {
      FLoopFlow(s, j);
    } else if s.procs[j].FWrite? {
      assert s.pipes[j].got + (s.pipes[j].q + [s.procs[j].m]) == s.pipes[j].Sent() + [s.procs[j].m];
    }
  }

  lemma EndShape(s: State, j: nat)
    requires Local(s, j) && Enabled(s, j) && InEnd(s.procs[j])
    ensures Wf(EndNext(s, j)) && Touches(s, EndNext(s, j), j)
  {
    hide Divides;
    hide NearFds;
    hide NearFlow;
    hide Tail;
  }

  lemma FCloseNextWriteEnds(s: State, j: nat)
    requires Local(s, j) && Enabled(s, j) && s.procs[j].FCloseNextWrite?
    ensures NearFds(EndNext(s, j), j)
  {
    hide Divides;
    hide NearFlow;
    hide Tail;
    assert 1 <= j < |s.procs| - 1 && |s.procs| - 1 <= |s.pipes| <= |s.procs|;
    hide Wf;
  }

  lemma FCloseReadEnds(s: State, j: nat)
    requires Local(s, j) && Enabled(s, j) && s.procs[j].FCloseRead?
    ensures NearFds(EndNext(s, j), j)
  {
    hide Divides;
    hide NearFlow;
    hide Tail;
    assert 1 <= j < |s.procs| - 1 && |s.procs| - 1 <= |s.pipes| <= |s.procs|;
    hide Wf;
  }

  lemma FWaitEnds(s: State, j: nat)
    requires Local(s, j) && Enabled(s, j) && s.procs[j].FWait?
    ensures NearFds(EndNext(s, j), j)
  {
    hide Divides;
    hide NearFlow;
    hide Tail;
    assert 1 <= j < |s.procs| - 1 && |s.procs| - 1 <= |s.pipes| <= |s.procs|;
    hide Wf;
  }

  lemma EndEnds(s: State, j: nat)
    requires Local(s, j) && Enabled(s, j) && InEnd(s.procs[j])
    ensures NearFds(EndNext(s, j), j)
  {
    hide Local;
    hide NearFds;
    hide EndNext;
    match s.procs[j] {
      case FCloseNextWrite => FCloseNextWriteEnds(s, j);
      case FCloseRead => FCloseReadEnds(s, j);
      case FWait => FWaitEnds(s, j);
    }
  }

  lemma EndFlow(s: State, j: nat)
    requires Local(s, j) && Enabled(s, j) && InEnd(s.procs[j]) && Wf(EndNext(s, j))
    ensures NearFlow(EndNext(s, j), j)
  {
    hide Drop;
    hide Divides;
    hide NearFds;
    hide Tail;
  }

  lemma SpawnFlow(s: State, j: nat)
    requires Local(s, j) && Enabled(s, j) && InSpawn(s.procs[j]) && Wf(SpawnNext(s, j))
    ensures NearFlow(SpawnNext(s, j), j)
  {
    hide Divides;
    hide NearFds;
  }

  // A step that is not the last process's leaves what is known of that process.
  lemma TailFrame(s: State, s': State)
    requires Wf(s) && Wf(s') && Tail(s)
    requires |s'.procs| == |s.procs| && |s'.pipes| == |s.pipes| && s'.out == s.out
    requires s'.procs[|s.procs| - 1] == s.procs[|s.procs| - 1]
    requires forall i: nat | i < |s.pipes| :: s.pipes[i].got <= s'.pipes[i].got
    requires s'.pipes[|s.procs| - 2].got == s.pipes[|s.procs| - 2].got
    requires |s.pipes| == |s.procs| ==> s'.pipes[|s.procs| - 1] == s.pipes[|s.procs| - 1]
    requires Eof(s, |s.procs| - 2) ==> Eof(s', |s.procs| - 2)
    ensures Tail(s')
  {
  }

  lemma MainTail(s: State, j: nat)
    requires Local(s, j) && Enabled(s, j) && InMain(s.procs[j]) && Wf(MainNext(s, j))
    ensures Tail(MainNext(s, j))
  {
    hide Divides;
    hide NearFds;
    hide NearFlow;
    hide Tail;
    hide Drop;
    if s.procs[j].MSend? {
      ReaderAlive(s, 0);
    }
    TailFrame(s, MainNext(s, j));
  }

  lemma FFirstTail(s: State, j: nat)
    requires Local(s, j) && Enabled(s, j) && s.procs[j].FFirst? && Wf(StartNext(s, j))
    ensures Tail(StartNext(s, j))
  {
    hide NearFds;
    hide NearFlow;
    ReadFacts(s, j);
  }

  lemma StartTail(s: State, j: nat)
    requires Local(s, j) && Enabled(s, j) && InStart(s.procs[j]) && Wf(StartNext(s, j))
    ensures Tail(StartNext(s, j))
  {
    hide NearFds;
    hide NearFlow;
    if s.procs[j].FFirst? {
      FFirstTail(s, j);
    } else if s.procs[j].FGiveUp? {
      FGiveUpTail(s, j);
    }
  }

  lemma FGiveUpTail(s: State, j: nat)
    requires Local(s, j) && Enabled(s, j) && s.procs[j].FGiveUp? && Wf(StartNext(s, j))
    ensures Tail(StartNext(s, j))
  {
    hide NearFds;
    hide NearFlow;
  }

  lemma FPrintTail(s: State, j: nat)
    requires Local(s, j) && Enabled(s, j) && s.procs[j].FPrint? && Wf(SpawnNext(s, j))
    ensures Tail(SpawnNext(s, j))
  {
    hide NearFds;
    hide NearFlow;
  }

  lemma SpawnTail(s: State, j: nat)
    requires Local(s, j) && Enabled(s, j) && InSpawn(s.procs[j]) && Wf(SpawnNext(s, j))
    ensures Tail(SpawnNext(s, j))
  {
    hide NearFds;
    hide NearFlow;
    if s.procs[j].FPrint? {
      FPrintTail(s, j);
    }
  }

  lemma LoopTail(s: State, j: nat)
    requires Local(s, j) && Enabled(s, j) && InLoop(s.procs[j]) && Wf(LoopNext(s, j))
    ensures Tail(LoopNext(s, j))
  {
    hide Divides;
    hide NearFds;
    hide NearFlow;
    hide Tail;
    hide Drop;
    ReaderAlive(s, j);
    TailFrame(s, LoopNext(s, j));
  }

  lemma EndTail(s: State, j: nat)
    requires Local(s, j) && Enabled(s, j) && InEnd(s.procs[j]) && Wf(EndNext(s, j))
    ensures Tail(EndNext(s, j))
  {
    hide Divides;
    hide NearFds;
    hide NearFlow;
    hide Tail;
    hide Drop;
    TailFrame(s, EndNext(s, j));
  }

  lemma StepTouches(s: State, j: nat)
    requires Inv(s) && Enabled(s, j)
    ensures Touches(s, Next(s, j), j) && Wf(Next(s, j))
  {
    hide MainNext;
    hide StartNext;
    hide SpawnNext;
    hide LoopNext;
    hide EndNext;
    hide Tail;
    hide NearFds;
    hide NearFlow;
    hide Touches;
    hide Flow;
    hide Fds;
    InvLocal(s, j);
    if InMain(s.procs[j]) {
      MainShape(s, j);
    } else if InStart(s.procs[j]) {
      StartShape(s, j);
    } else if InSpawn(s.procs[j]) {
      SpawnShape(s, j);
    } else if InLoop(s.procs[j]) {
      LoopShape(s, j);
    } else {
      EndShape(s, j);
    }
  }

  /** Whatever process goes next, the invariant holds after it. */
  lemma StepKeepsInv(s: State, j: nat)
    requires Inv(s) && Enabled(s, j)
    ensures Inv(Next(s, j))
  {
    hide MainNext;
    hide StartNext;
    hide SpawnNext;
    hide LoopNext;
    hide EndNext;
    hide Tail;
    hide NearFds;
    hide NearFlow;
    hide Touches;
    hide Flow;
    hide Fds;
    InvLocal(s, j);
    StepTouches(s, j);
    if InMain(s.procs[j]) {
      MainEnds(s, j);
      MainFlow(s, j);
      MainTail(s, j);
    } else if InStart(s.procs[j]) {
      StartEnds(s, j);
      StartFlow(s, j);
      StartTail(s, j);
    } else if InSpawn(s.procs[j]) {
      SpawnEnds(s, j);
      SpawnFlow(s, j);
      SpawnTail(s, j);
    } else if InLoop(s.procs[j]) {
      LoopEnds(s, j);
      LoopFlow(s, j);
      LoopTail(s, j);
    } else {
      EndEnds(s, j);
      EndFlow(s, j);
      EndTail(s, j);
    }
    Rebuild(s, Next(s, j), j);
  }
}
