/** Whole runs of the sieve: under every schedule the chain of processes comes to an end by itself, no write meets a
    closed pipe, and what has been printed then is the primes up to n. */
module SieveRuns {
  import opened SieveMath
  import opened Sieve

  // --- what has been sent is a prefix of what the stage will hold ---

  lemma RangePrefix(a: int, b: int, c: int)
    requires b <= c || b <= a
    ensures Range(a, b) <= Range(a, c)
  {
  }

  lemma {:induction false} SentPrefix(s: State, k: nat)
    requires Inv(s) && k < |s.procs| - 1
    ensures s.pipes[k].Sent() <= Stage(s.n, k)
    ensures forall i: nat | i < k :: Stage(s.n, i) != []
  {
    hide Divides;
    hide Drop;
    assert Flow(s, k);
    if k == 0 {
      RangePrefix(2, MainBound(s.n, s.procs[0]), s.n + 1);
    } else {
      SentPrefix(s, k - 1);
      var c := s.pipes[k - 1].got;
      assert c <= Stage(s.n, k - 1) && c != [];
      SiftPrefix(c, Stage(s.n, k - 1));
      assert s.pipes[k].Sent() <= Drop(c[0], c[1..]);
    }
  }

  /** At every moment the printed numbers are the first numbers of the first stages, in order. */
  lemma OutIsHeads(s: State)
    requires Inv(s)
    ensures forall i: nat | i < |s.out| :: Stage(s.n, i) != []
    ensures s.out == Heads(s.n, |s.out|)
  {
    hide Divides;
    hide Stage;
    hide Flow;
    hide Fds;
    forall i: nat | i < |s.out|
      ensures Stage(s.n, i) != [] && s.out[i] == Stage(s.n, i)[0]
    {
      SentPrefix(s, i);
    }
  }

  predicate AllDone(s: State) { forall j | 0 <= j < |s.procs| :: s.procs[j].Done? }

  lemma {:induction false} DoneSentAll(s: State, k: nat)
    requires Inv(s) && AllDone(s) && k < |s.procs| - 1
    ensures s.pipes[k].Sent() == Stage(s.n, k) && s.pipes[k].q == []
  {
    hide Divides;
    hide Drop;
    assert Flow(s, k);
    if k + 1 < |s.procs| - 1 {
      assert Flow(s, k + 1);
    }
    if k > 0 {
      DoneSentAll(s, k - 1);
      assert s.pipes[k - 1].Sent() == s.pipes[k - 1].got;
    }
  }

  /** A run in which every process has ended printed exactly the primes up to n, once each and in order. */
  lemma DoneMeansPrimes(s: State)
    requires Inv(s) && AllDone(s)
    ensures s.out == PrimesUpTo(s.n)
  {
    hide Divides;
    hide Stage;
    OutIsHeads(s);
    var m := |s.procs| - 2;
    assert |s.out| == m;
    DoneSentAll(s, m);
    assert s.pipes[m].got == [];
    HeadsArePrimes(s.n, m);
  }

  // --- no deadlock ---

  ghost predicate Stuck(s: State)
    requires Wf(s)
  {
    forall j: nat :: !Enabled(s, j)
  }

  predicate Writing(s: State, k: nat)
    requires k < |s.procs|
  {
    s.procs[k].MSend? || s.procs[k].FWrite?
  }

  // Where a process of a stuck state can be.
  lemma StuckPoints(s: State, k: nat)
    requires Inv(s) && Stuck(s) && k < |s.procs|
    ensures Writing(s, k) || s.procs[k].MWait? || s.procs[k].FFirst? || s.procs[k].FLoop? || s.procs[k].FWait? ||
            s.procs[k].Done?
    ensures Writing(s, k) ==> k < |s.procs| - 1 && (s.pipes[k].Readers() ==> |s.pipes[k].q| >= s.cap)
    ensures s.procs[k].FFirst? || s.procs[k].FLoop? ==> k > 0 && s.pipes[k - 1].q == [] && s.pipes[k - 1].Writers()
    ensures k < |s.procs| - 1 && (s.procs[k].MWait? || s.procs[k].FWait?) ==> !s.procs[k + 1].Done?
  {
    hide Fds;
    hide Flow;
    hide Tail;
    assert !Enabled(s, k);
    if k == |s.procs| - 1 {
      assert IsFirstPart(s.procs[k]) || s.procs[k].Done?;
    } else if k > 0 {
      assert IsFather(s.procs[k]) || s.procs[k].Done?;
    }
  }

  // A full pipe is drained unless its reader is itself blocked on a full pipe, and the chain ends.
  lemma {:induction false} NobodyWrites(s: State, k: nat)
    requires Inv(s) && Stuck(s) && s.cap >= 1 && k < |s.procs|
    ensures !Writing(s, k)
    decreases |s.procs| - k
  {
    hide Drop;
    StuckPoints(s, k);
    if Writing(s, k) {
      InvLocal(s, k);
      ReaderAlive(s, k);
      assert k + 1 < |s.procs| - 1 ==> Flow(s, k + 1);
      StuckPoints(s, k + 1);
      NobodyWrites(s, k + 1);
    }
  }

  // End of file travels down the chain.
  lemma {:induction false} EverybodyClosed(s: State, k: nat)
    requires Inv(s) && Stuck(s) && s.cap >= 1 && k < |s.procs|
    ensures Closed(s.procs[k])
  {
    hide Drop;
    hide Flow;
    NobodyWrites(s, k);
    StuckPoints(s, k);
    if k > 0 {
      EverybodyClosed(s, k - 1);
      assert Fds(s, k - 1);
    }
  }

  // The waits come back from the end of the chain.
  lemma {:induction false} EverybodyDone(s: State, k: nat)
    requires Inv(s) && Stuck(s) && s.cap >= 1 && k < |s.procs|
    ensures s.procs[k].Done?
    decreases |s.procs| - k
  {
    hide Flow;
    hide Fds;
    EverybodyClosed(s, k);
    StuckPoints(s, k);
    if k < |s.procs| - 1 {
      EverybodyDone(s, k + 1);
    }
  }

  /** Nothing can go on only when everything has ended. */
  lemma NoDeadlock(s: State)
    requires Inv(s) && s.cap >= 1
    ensures Stuck(s) <==> AllDone(s)
  {
    hide Flow;
    hide Fds;
    if Stuck(s) {
      forall j | 0 <= j < |s.procs|
        ensures s.procs[j].Done?
      {
        EverybodyDone(s, j);
      }
    }
  }

  // --- termination ---

  // How many candidates there are.
  function Candidates(n: int): nat { if n < 2 then 0 else n - 1 }

  // An upper bound on the steps a process still takes, from where it is and how much it has read.
  function RankAt(n: int, pc: Pc, read: nat): nat {
    var left := if read <= Candidates(n) then 2 * (Candidates(n) - read) else 0;
    match pc
    case MCloseRead => Candidates(n) + 3
    case MSend(p) => (if p <= n then n + 1 - p else 0) + 2
    case MWait => 1
    case FDropParent => left + 20
    case FCloseWrite => left + 19
    case FFirst => left + 18
    case FPrint(_) => left + 17
    case FPipe(_) => left + 16
    case FFork(_) => left + 15
    case FCloseNextRead(_) => left + 14
    case FWrite(_, _) => left + 11
    case FLoop(_) => left + 10
    case FCloseNextWrite => 9
    case FCloseRead => 8
    case FGiveUp => 8
    case FWait => 7
    case Done => 0
    case Broken => 0
  }

  function Read(s: State, j: nat): nat { if 1 <= j <= |s.pipes| then |s.pipes[j - 1].got| else 0 }

  // A process that does not exist yet counts full.
  function Rank(s: State, j: nat): nat {
    if j < |s.procs| then RankAt(s.n, s.procs[j], Read(s, j)) else 2 * Candidates(s.n) + 21
  }

  function Total(s: State, m: nat): nat {
    if m == 0 then 0 else Total(s, m - 1) + Rank(s, m - 1)
  }

  lemma {:induction false} TotalLess(s: State, s': State, m: nat, j: nat)
    requires forall i: nat | i < m :: Rank(s', i) <= Rank(s, i)
    requires j < m ==> Rank(s', j) < Rank(s, j)
    ensures Total(s', m) <= Total(s, m)
    ensures j < m ==> Total(s', m) < Total(s, m)
  {
    hide Rank;
    if m > 0 {
      TotalLess(s, s', m - 1, j);
    }
  }

  lemma ReadBound(s: State, k: nat)
    requires Inv(s) && k < |s.procs| - 1
    ensures |s.pipes[k].Sent()| <= Candidates(s.n)
    ensures |s.procs| <= Candidates(s.n) + 2
  {
    hide Divides;
    hide Drop;
    hide Flow;
    hide Fds;
    hide Tail;
    SentPrefix(s, k);
    StageShrinks(s.n, k);
    SentPrefix(s, |s.procs| - 2);
    StageShrinks(s.n, |s.procs| - 2);
  }

  lemma MainRank(s: State, j: nat)
    requires Inv(s) && Enabled(s, j) && InMain(s.procs[j])
    ensures Rank(MainNext(s, j), j) < Rank(s, j)
  {
    hide Fds;
    hide Flow;
    hide Tail;
    hide Divides;
  }

  lemma StartRank(s: State, j: nat)
    requires Inv(s) && Enabled(s, j) && InStart(s.procs[j])
    ensures Rank(StartNext(s, j), j) < Rank(s, j)
  {
    hide Fds;
    hide Flow;
    hide Tail;
    hide Divides;
    ReadBound(s, j - 1);
  }

  lemma SpawnRank(s: State, j: nat)
    requires Inv(s) && Enabled(s, j) && InSpawn(s.procs[j])
    ensures Rank(SpawnNext(s, j), j) < Rank(s, j)
  {
    hide Fds;
    hide Flow;
    hide Tail;
    hide Divides;
    ReadBound(s, j - 1);
  }

  lemma LoopRank(s: State, j: nat)
    requires Inv(s) && Enabled(s, j) && InLoop(s.procs[j])
    ensures Rank(LoopNext(s, j), j) < Rank(s, j)
  {
    hide Fds;
    hide Flow;
    hide Tail;
    hide Divides;
    ReadBound(s, j - 1);
  }

  lemma EndRank(s: State, j: nat)
    requires Inv(s) && Enabled(s, j) && InEnd(s.procs[j])
    ensures Rank(EndNext(s, j), j) < Rank(s, j)
  {
    hide Fds;
    hide Flow;
    hide Tail;
    hide Divides;
  }

  lemma OwnRank(s: State, j: nat)
    requires Inv(s) && Enabled(s, j)
    ensures Rank(Next(s, j), j) < Rank(s, j)
  {
    hide Fds;
    hide Flow;
    hide Tail;
    hide MainNext;
    hide StartNext;
    hide SpawnNext;
    hide LoopNext;
    hide EndNext;
    hide Rank;
    if InMain(s.procs[j]) {
      MainRank(s, j);
    } else if InStart(s.procs[j]) {
      StartRank(s, j);
    } else if InSpawn(s.procs[j]) {
      SpawnRank(s, j);
    } else if InLoop(s.procs[j]) {
      LoopRank(s, j);
    } else {
      EndRank(s, j);
    }
  }

  // Nobody else is moved, and nobody else's input is read.
  lemma OtherRank(s: State, j: nat, i: nat)
    requires Inv(s) && Enabled(s, j) && i != j
    ensures Rank(Next(s, j), i) <= Rank(s, i)
  {
    hide Fds;
    hide Flow;
    hide Tail;
    hide Next;
    StepTouches(s, j);
    if i < |s.procs| {
      assert Next(s, j).procs[i] == s.procs[i] && Read(Next(s, j), i) == Read(s, i);
    }
  }

  // --- runs ---

  /** sched names, step by step, which process goes; each of them is able to. */
  ghost predicate Schedule(s: State, sched: seq<nat>)
    requires Inv(s)
    decreases |sched|
  {
    sched == [] ||
    (Enabled(s, sched[0]) && (StepKeepsInv(s, sched[0]); Schedule(Next(s, sched[0]), sched[1..])))
  }

  ghost function After(s: State, sched: seq<nat>): (t: State)
    requires Inv(s) && Schedule(s, sched)
    ensures Inv(t) && t.n == s.n && t.cap == s.cap
    decreases |sched|
  {
    if sched == [] then s
    else
      StepKeepsInv(s, sched[0]);
      After(Next(s, sched[0]), sched[1..])
  }

  lemma {:induction false} RunBounded(s: State, sched: seq<nat>)
    requires Inv(s) && Schedule(s, sched)
    ensures |sched| + Total(After(s, sched), Candidates(s.n) + 3) <= Total(s, Candidates(s.n) + 3)
    decreases |sched|
  {
    hide Total;
    hide Rank;
    hide Fds;
    hide Flow;
    hide Tail;
    hide Next;
    if sched != [] {
      var j := sched[0];
      StepKeepsInv(s, j);
      OwnRank(s, j);
      forall i: nat | i != j
        ensures Rank(Next(s, j), i) <= Rank(s, i)
      {
        OtherRank(s, j, i);
      }
      ReadBound(s, 0);
      TotalLess(s, Next(s, j), Candidates(s.n) + 3, j);
      RunBounded(Next(s, j), sched[1..]);
    }
  }

  lemma {:induction false} TotalBound(s: State, m: nat)
    requires s == Init(s.n, s.cap)
    ensures Total(s, m) <= m * (2 * Candidates(s.n) + 21)
  {
    if m > 0 {
      TotalBound(s, m - 1);
    }
  }

  // --- the waits ---

  // Whoever has ended has waited for its child to end.
  predicate Waited(s: State) { forall j: nat | j + 1 < |s.procs| && s.procs[j].Done? :: s.procs[j + 1].Done? }

  lemma WaitedStep(s: State, j: nat)
    requires Inv(s) && Waited(s) && Enabled(s, j)
    ensures Waited(Next(s, j))
  {
    hide Fds;
    hide Flow;
    hide Tail;
    StepTouches(s, j);
    var t := Next(s, j);
    EndsWhen(s, j);
    forall i: nat | i + 1 < |t.procs| && t.procs[i].Done?
      ensures t.procs[i + 1].Done?
    {
      if i != j {
        assert t.procs[i] == s.procs[i];
        assert i + 1 < |s.procs|;
      }
    }
  }

  // A step by which a process ends: it has nothing to wait for, or its child has ended.
  lemma EndsWhen(s: State, j: nat)
    requires Inv(s) && Enabled(s, j)
    ensures !s.procs[j].Done?
    ensures At(Next(s, j).procs, j).Done? && j + 1 < |s.procs| ==> s.procs[j + 1].Done?
    ensures At(Next(s, j).procs, j).Done? ==> |Next(s, j).procs| == |s.procs|
  {
    hide Fds;
    hide Flow;
    hide Tail;
    hide Divides;
  }

  lemma {:induction false} RunWaits(s: State, sched: seq<nat>)
    requires Inv(s) && Waited(s) && Schedule(s, sched)
    ensures Waited(After(s, sched))
    decreases |sched|
  {
    hide Fds;
    hide Flow;
    hide Tail;
    hide Waited;
    hide Next;
    if sched != [] {
      StepKeepsInv(s, sched[0]);
      WaitedStep(s, sched[0]);
      RunWaits(Next(s, sched[0]), sched[1..]);
    }
  }

  // No pipe holds more than its capacity.
  predicate Bounded(s: State) { forall k: nat | k < |s.pipes| :: |s.pipes[k].q| <= s.cap }

  lemma BoundedStep(s: State, j: nat)
    requires Inv(s) && Bounded(s) && Enabled(s, j)
    ensures Bounded(Next(s, j))
  {
    hide Fds;
    hide Flow;
    hide Tail;
    hide Divides;
    if InMain(s.procs[j]) {
      assert Bounded(MainNext(s, j));
    } else if InStart(s.procs[j]) {
      assert Bounded(StartNext(s, j));
    } else if InSpawn(s.procs[j]) {
      assert Bounded(SpawnNext(s, j));
    } else if InLoop(s.procs[j]) {
      assert Bounded(LoopNext(s, j));
    } else {
      assert Bounded(EndNext(s, j));
    }
  }

  lemma {:induction false} RunBoundedPipes(s: State, sched: seq<nat>)
    requires Inv(s) && Bounded(s) && Schedule(s, sched)
    ensures Bounded(After(s, sched))
    decreases |sched|
  {
    hide Fds;
    hide Flow;
    hide Tail;
    hide Bounded;
    hide Next;
    if sched != [] {
      StepKeepsInv(s, sched[0]);
      BoundedStep(s, sched[0]);
      RunBoundedPipes(Next(s, sched[0]), sched[1..]);
    }
  }

  lemma {:induction false} EndedBelow(s: State, i: nat, j: nat)
    requires Waited(s) && i <= j < |s.procs| && s.procs[i].Done?
    ensures s.procs[j].Done?
    decreases j - i
  {
    if i < j {
      EndedBelow(s, i + 1, j);
    }
  }

  lemma NobodyBroken(s: State)
    requires Inv(s)
    ensures forall j | 0 <= j < |s.procs| :: !s.procs[j].Broken?
  {
    hide Fds;
    hide Flow;
    hide Tail;
  }

  lemma Populated(s: State)
    requires Inv(s)
    ensures |s.procs| >= 2
  {
  }

  /** Every schedule of the sieve, for every n and every pipe capacity, is finite; it gets stuck only when all processes
      have ended; nobody is ever killed by a write; whoever has ended, all processes it started have ended before; and
      when main ends the printed numbers are the primes up to n. */
  lemma SieveCorrect(n: int, cap: nat, sched: seq<nat>)
    requires cap >= 1
    ensures Inv(Init(n, cap))
    ensures Schedule(Init(n, cap), sched) ==>
              var t := After(Init(n, cap), sched);
              && |t.procs| >= 2 && |sched| <= (Candidates(n) + 3) * (2 * Candidates(n) + 21)
              && (forall j | 0 <= j < |t.procs| :: !t.procs[j].Broken?)
              && (Stuck(t) <==> AllDone(t))
              && (forall i, j | 0 <= i <= j < |t.procs| && t.procs[i].Done? :: t.procs[j].Done?)
              && (t.procs[0].Done? ==> t.out == PrimesUpTo(n))
              && (forall k: nat | k < |t.pipes| :: |t.pipes[k].q| <= cap)
              && (forall i: nat | i < |t.out| :: Stage(n, i) != []) && t.out == Heads(n, |t.out|)
  {
    hide Inv;
    hide Total;
    hide Stage;
    hide PrimesUpTo;
    hide Schedule;
    InitInv(n, cap);
    if Schedule(Init(n, cap), sched) {
      var t := After(Init(n, cap), sched);
      RunBounded(Init(n, cap), sched);
      TotalBound(Init(n, cap), Candidates(n) + 3);
      NoDeadlock(t);
      NobodyBroken(t);
      RunWaits(Init(n, cap), sched);
      RunBoundedPipes(Init(n, cap), sched);
      forall i, j | 0 <= i <= j < |t.procs| && t.procs[i].Done?
        ensures t.procs[j].Done?
      {
        EndedBelow(t, i, j);
      }
      Populated(t);
      if t.procs[0].Done? {
        DoneMeansPrimes(t);
      }
      OutIsHeads(t);
    }
  }

  /** Once its reader has started, the only holder of a pipe's write end is the process upstream, and it holds it
      exactly until it has nothing more to send: end of file is always seen. */
  lemma OneWriter(s: State, k: nat)
    requires Inv(s) && k < |s.procs| - 1 && !s.procs[k + 1].FDropParent? && !s.procs[k + 1].FCloseWrite?
    ensures !s.pipes[k].w1 && (s.pipes[k].w0 <==> !Closed(s.procs[k]))
  {
    hide Drop;
    assert Fds(s, k) && Flow(s, k);
  }
}
