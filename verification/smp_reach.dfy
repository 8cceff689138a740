/** Runs from the boot of two CPUs to the states in which set_status and a second destroy do their harm. */
module SmpReach {
  import opened Mmu
  import opened EnvId
  import opened Smp

  lemma {:induction false} RunConcat(s: State, a: seq<Action>, b: seq<Action>)
    requires Run(s, a) && Run(After(s, a), b)
    ensures Run(s, a + b) && After(s, a + b) == After(After(s, a), b)
    decreases |a|
  {
    hide Enabled;
    hide Polite;
    if a == [] {
      assert a + b == b;
    } else {
      RunConcat(Step(s, a[0]), a[1..], b);
      assert (a + b)[1..] == a[1..] + b;
    }
  }

  lemma One(s: State, a: Action)
    requires Enabled(s, a) && Polite(s, a)
    ensures Run(s, [a]) && After(s, [a]) == Step(s, a)
  {
  }

  function At(s: State, c: nat, pc: Pc): State
    requires c < |s.cpus|
  {
    s.(cpus := s.cpus[c := s.cpus[c].(pc := pc)])
  }

  // lock_kernel when nobody holds the lock.
  lemma Locks(s: State, c: nat) returns (acts: seq<Action>)
    requires s.Wf() && c < |s.cpus| && s.cpus[c].pc.LockRead? && !s.cpus[c].pc.from.Twice? && !s.locked
    ensures Run(s, acts) && After(s, acts) == At(s, c, Entry(s.cpus[c].pc.from)).(locked := true, owner := c)
  {
    var s1 := Step(s, Next(c));
    var s2 := Step(s1, Next(c));
    One(s, Next(c));
    One(s1, Next(c));
    One(s2, Next(c));
    RunConcat(s1, [Next(c)], [Next(c)]);
    RunConcat(s, [Next(c)], [Next(c)] + [Next(c)]);
    acts := [Next(c)] + ([Next(c)] + [Next(c)]);
    assert s1 == At(s, c, LockSpin(s.cpus[c].pc.from)) && s2 == At(s, c, LockMark(s.cpus[c].pc.from)).(locked := true);
  }

  // The steps of unlock_kernel and of the rest of env_run.
  lemma UnlockSteps(s: State, c: nat)
    requires s.Wf() && c < |s.cpus| && s.cpus[c].pc == UnlockRead(ToUser) && s.locked && s.owner == c &&
             s.cpus[c].cur != NULL
    ensures Enabled(s, Next(c)) && Step(s, Next(c)) == At(s, c, UnlockOwner(ToUser))
    ensures var s1 := At(s, c, UnlockOwner(ToUser));
            Enabled(s1, Next(c)) && Step(s1, Next(c)) == At(s, c, UnlockClear(ToUser))
    ensures var s2 := At(s, c, UnlockClear(ToUser));
            Enabled(s2, Next(c)) && Step(s2, Next(c)) == At(s, c, UnlockRelease(ToUser)).(owner := NULL)
  {
  }

  lemma ReleaseSteps(s: State, c: nat)
    requires s.Wf() && c < |s.cpus| && s.cpus[c].pc == UnlockRead(ToUser) && s.locked && s.owner == c &&
             s.cpus[c].cur != NULL
    ensures var s3 := At(s, c, UnlockRelease(ToUser)).(owner := NULL);
            Enabled(s3, Next(c)) && Step(s3, Next(c)) == At(s, c, Number).(owner := NULL, locked := false)
    ensures var s4 := At(s, c, Number).(owner := NULL, locked := false);
            && Enabled(s4, Next(c))
            && Step(s4, Next(c)) ==
                  At(s, c, User).(locked := false, owner := NULL, cpunum := s.cpunum[s.cpus[c].cur := c])
  {
  }

  lemma Unlocks(s: State, c: nat) returns (acts: seq<Action>)
    requires s.Wf() && c < |s.cpus| && s.cpus[c].pc == UnlockRead(ToUser) && s.locked && s.owner == c &&
             s.cpus[c].cur != NULL
    ensures Run(s, acts)
    ensures After(s, acts) == At(s, c, User).(locked := false, owner := NULL, cpunum := s.cpunum[s.cpus[c].cur := c])
  {
    UnlockSteps(s, c);
    ReleaseSteps(s, c);
    var s1 := At(s, c, UnlockOwner(ToUser));
    var s2 := At(s, c, UnlockClear(ToUser));
    var s3 := At(s, c, UnlockRelease(ToUser)).(owner := NULL);
    var s4 := At(s, c, Number).(owner := NULL, locked := false);
    var n := [Next(c)];
    hide Enabled;
    hide Step;
    hide At;
    hide Run;
    hide After;
    One(s, Next(c));
    One(s1, Next(c));
    One(s2, Next(c));
    One(s3, Next(c));
    One(s4, Next(c));
    RunConcat(s3, n, n);
    RunConcat(s2, n, n + n);
    RunConcat(s1, n, n + (n + n));
    RunConcat(s, n, n + (n + (n + n)));
    acts := n + (n + (n + (n + n)));
  }

  // A trap from user mode, up to trap_dispatch.
  lemma Traps(s: State, c: nat) returns (acts: seq<Action>)
    requires s.Wf() && c < |s.cpus| && s.cpus[c].pc == User && !s.cpus[c].halted && s.cpus[c].cur != NULL && !s.locked
    requires !s.status[s.cpus[c].cur].ENV_DYING?
    ensures Run(s, acts) && After(s, acts) == At(s, c, Dispatch).(locked := true, owner := c)
  {
    var s1 := At(s, c, Trapped(true));
    var s2 := At(s, c, LockRead(UserTrap));
    var s3 := At(s, c, Entry(UserTrap)).(locked := true, owner := c);
    assert Step(s, Interrupt(c)) == s1 && Step(s1, Next(c)) == s2;
    One(s, Interrupt(c));
    One(s1, Next(c));
    var up := Locks(s2, c);
    assert After(s2, up) == s3;
    One(s3, Next(c));
    RunConcat(s2, up, [Next(c)]);
    RunConcat(s1, [Next(c)], up + [Next(c)]);
    RunConcat(s, [Interrupt(c)], [Next(c)] + (up + [Next(c)]));
    acts := [Interrupt(c)] + ([Next(c)] + (up + [Next(c)]));
  }

  // Two CPUs, of which CPU 0 runs environment 0, and two environments.
  predicate Pair(s: State, x: Cpu, y: Cpu, st1: EnvStatus) {
    s.Wf() && s.cpus == [x, y] && s.status[0] == ENV_RUNNING && s.status[1] == st1
  }

  predicate Unlocked(s: State) { !s.locked && s.owner == NULL }

  // Three steps in a row.
  lemma Three(s: State, a: Action, b: Action, c: Action)
    requires Enabled(s, a) && Polite(s, a) && Enabled(Step(s, a), b) && Polite(Step(s, a), b)
    requires Enabled(Step(Step(s, a), b), c) && Polite(Step(Step(s, a), b), c)
    ensures Run(s, [a] + ([b] + [c])) && After(s, [a] + ([b] + [c])) == Step(Step(Step(s, a), b), c)
  {
    var s1 := Step(s, a);
    var s2 := Step(s1, b);
    hide Enabled;
    hide Polite;
    hide Step;
    One(s, a);
    One(s1, b);
    One(s2, c);
    RunConcat(s1, [b], [c]);
    RunConcat(s, [a], [b] + [c]);
  }

  // The holder of the lock on its way to user mode.
  predicate Leaving(s: State, c: nat, x: Cpu, y: Cpu, st1: EnvStatus) {
    Pair(s, x, y, st1) && s.locked && s.owner == c && c < 2 && s.cpus[c].pc == UnlockRead(ToUser) &&
        s.cpus[c].cur != NULL
  }

  // Into the kernel, some steps there, and out again.
  lemma Visit(s: State, up: seq<Action>, mid: seq<Action>, c: nat, x: Cpu, y: Cpu, st1: EnvStatus)
      returns (acts: seq<Action>)
    requires Run(s, up) && Run(After(s, up), mid) && Leaving(After(After(s, up), mid), c, x, y, st1)
    ensures Run(s, acts) && Unlocked(After(s, acts))
    ensures var z := Cpu(User, false, if c == 0 then x.cur else y.cur);
            && (c == 0 && !x.halted ==> Pair(After(s, acts), z, y, st1))
            && (c == 1 && !y.halted ==> Pair(After(s, acts), x, z, st1))
  {
    hide Run;
    hide After;
    var s2 := After(After(s, up), mid);
    var down := Unlocks(s2, c);
    RunConcat(After(s, up), mid, down);
    acts := up + (mid + down);
    RunConcat(s, up, mid + down);
  }

  lemma ReturnStep(s: State, c: nat)
    requires s.Wf() && c < |s.cpus| && s.cpus[c].pc == Done
    requires s.cpus[c].cur != NULL && s.status[s.cpus[c].cur].ENV_RUNNING?
    ensures Enabled(s, Return(c)) && Step(s, Return(c)) == At(s, c, UnlockRead(ToUser))
  {
    assert Step(s, Return(c)).status == s.status;
  }

  // After a system call: out of the kernel, and in again with the next one.
  lemma NextCall(s: State, c: nat) returns (acts: seq<Action>)
    requires s.Wf() && c < |s.cpus| && s.cpus[c].pc == Done && !s.cpus[c].halted && s.locked && s.owner == c
    requires s.cpus[c].cur != NULL && s.status[s.cpus[c].cur].ENV_RUNNING?
    ensures Run(s, acts)
    ensures After(s, acts) == At(s, c, Dispatch).(cpunum := s.cpunum[s.cpus[c].cur := c])
  {
    ReturnStep(s, c);
    hide Enabled;
    hide Step;
    hide Run;
    hide After;
    var s1 := At(s, c, UnlockRead(ToUser));
    One(s, Return(c));
    var down := Unlocks(s1, c);
    var up := Traps(After(s1, down), c);
    RunConcat(s1, down, up);
    acts := [Return(c)] + (down + up);
    RunConcat(s, [Return(c)], down + up);
  }

  lemma BootSteps(s: State)
    requires s == At(Start(2), 0, Entry(Boot)).(locked := true, owner := 0)
    ensures var mid := [Next(0)] + ([Create(0, 0)] + [Pick(0, 0)]);
            Run(s, mid) && Leaving(After(s, mid), 0, Cpu(UnlockRead(ToUser), false, 0), Cpu(Off, false, NULL), ENV_FREE)
  {
    var s1 := Step(s, Next(0));
    assert s1 == At(s, 0, Yield);
    var s2 := Step(s1, Create(0, 0));
    var s3 := Step(s2, Pick(0, 0));
    assert s3.cpus == [Cpu(UnlockRead(ToUser), false, 0), Cpu(Off, false, NULL)];
    Three(s, Next(0), Create(0, 0), Pick(0, 0));
  }

  // Boot: CPU 0 creates environment 0 and runs it.
  lemma Boots() returns (acts: seq<Action>)
    ensures Run(Start(2), acts)
    ensures var t := After(Start(2), acts); Unlocked(t) && Pair(t, Cpu(User, false, 0), Cpu(Off, false, NULL), ENV_FREE)
  {
    hide Run;
    hide After;
    var up := Locks(Start(2), 0);
    BootSteps(After(Start(2), up));
    var mid := [Next(0)] + ([Create(0, 0)] + [Pick(0, 0)]);
    acts := Visit(Start(2), up, mid, 0, Cpu(UnlockRead(ToUser), false, 0), Cpu(Off, false, NULL), ENV_FREE);
  }

  // One system call and the way out of trap().
  lemma CallSteps(s: State, a: Action, y: Cpu, st1: EnvStatus)
    requires s.locked && s.owner == 0 && s.Wf() && s.cpus == [Cpu(Dispatch, false, 0), y] && s.status[0] == ENV_RUNNING
    requires a.c == 0 && (a.Exofork? || a.SetStatus? || a.Destroy?) && a.e == 1 && Enabled(s, a) && Polite(s, a)
    requires Step(s, a).status[1] == st1
    ensures Run(s, [a] + [Return(0)])
    ensures Leaving(After(s, [a] + [Return(0)]), 0, Cpu(UnlockRead(ToUser), false, 0), y, st1)
  {
    var s1 := Step(s, a);
    assert s1.cpus == [Cpu(Done, false, 0), y] && s1.status[0] == ENV_RUNNING && s1.owner == 0 && s1.locked && s1.Wf();
    ReturnStep(s1, 0);
    hide Enabled;
    hide Step;
    hide Run;
    hide After;
    One(s, a);
    One(s1, Return(0));
    RunConcat(s, [a], [Return(0)]);
  }

  // Environment 0 makes the system call a.
  lemma Calls(s: State, a: Action, y: Cpu, st0: EnvStatus, st1: EnvStatus) returns (acts: seq<Action>)
    requires Unlocked(s) && Pair(s, Cpu(User, false, 0), y, st0)
    requires || (a == Exofork(0, 1) && st0 == ENV_FREE && st1 == ENV_NOT_RUNNABLE)
             || (a == SetStatus(0, 1, true) && st0 == ENV_NOT_RUNNABLE && st1 == ENV_RUNNABLE && y.cur == NULL)
             || (a == Destroy(0, 1) && st0 == ENV_RUNNING && st1 == ENV_DYING)
    ensures Run(s, acts)
    ensures var t := After(s, acts); Unlocked(t) && Pair(t, Cpu(User, false, 0), y, st1)
  {
    var up := Traps(s, 0);
    var s1 := After(s, up);
    assert s1.cpus == [Cpu(Dispatch, false, 0), y];
    CallSteps(s1, a, y, st1);
    hide Run;
    hide After;
    acts := Visit(s, up, [a] + [Return(0)], 0, Cpu(UnlockRead(ToUser), false, 0), y, st1);
  }

  // Environment 0 makes a child and lets it run, in two calls.
  lemma Forks(s: State) returns (acts: seq<Action>)
    requires Unlocked(s) && Pair(s, Cpu(User, false, 0), Cpu(Off, false, NULL), ENV_FREE)
    ensures Run(s, acts)
    ensures var t := After(s, acts); Unlocked(t) && Pair(t, Cpu(User, false, 0), Cpu(Off, false, NULL), ENV_RUNNABLE)
  {
    hide Run;
    hide After;
    var off := Cpu(Off, false, NULL);
    var a := Calls(s, Exofork(0, 1), off, ENV_FREE, ENV_NOT_RUNNABLE);
    var b := Calls(After(s, a), SetStatus(0, 1, true), off, ENV_NOT_RUNNABLE, ENV_RUNNABLE);
    RunConcat(s, a, b);
    acts := a + b;
  }

  lemma PickSteps(s: State)
    requires s.locked && s.owner == 1 && Pair(s, Cpu(User, false, 0), Cpu(Entry(Boot), false, NULL), ENV_RUNNABLE)
    ensures var mid := [Next(1)] + [Pick(1, 1)];
            Run(s, mid) &&
                Leaving(After(s, mid), 1, Cpu(User, false, 0), Cpu(UnlockRead(ToUser), false, 1), ENV_RUNNING)
  {
    var s1 := Step(s, Next(1));
    assert s1 == At(s, 1, Yield);
    var s2 := Step(s1, Pick(1, 1));
    assert s2.cpus == [Cpu(User, false, 0), Cpu(UnlockRead(ToUser), false, 1)];
    One(s, Next(1));
    One(s1, Pick(1, 1));
    RunConcat(s, [Next(1)], [Pick(1, 1)]);
  }

  // CPU 1 comes up and picks the child.
  lemma Picks(s: State) returns (acts: seq<Action>)
    requires Unlocked(s) && Pair(s, Cpu(User, false, 0), Cpu(Off, false, NULL), ENV_RUNNABLE)
    ensures Run(s, acts)
    ensures var t := After(s, acts); Unlocked(t) && Pair(t, Cpu(User, false, 0), Cpu(User, false, 1), ENV_RUNNING)
  {
    One(s, PowerOn(1));
    var s1 := Step(s, PowerOn(1));
    assert s1 == At(s, 1, LockRead(Boot));
    hide Run;
    hide After;
    var lock := Locks(s1, 1);
    RunConcat(s, [PowerOn(1)], lock);
    var up := [PowerOn(1)] + lock;
    PickSteps(After(s, up));
    acts := Visit(s, up, [Next(1)] + [Pick(1, 1)], 1, Cpu(User, false, 0), Cpu(UnlockRead(ToUser), false, 1),
        ENV_RUNNING);
  }

  // Both CPUs in user mode, CPU 1 running the child of environment 0.
  lemma BothRun() returns (acts: seq<Action>)
    ensures Run(Start(2), acts)
    ensures var t := After(Start(2), acts);
            Unlocked(t) && Pair(t, Cpu(User, false, 0), Cpu(User, false, 1), ENV_RUNNING)
  {
    hide Run;
    hide After;
    var s := Start(2);
    var a := Boots();
    var b := Forks(After(s, a));
    var c := Picks(After(After(s, a), b));
    RunConcat(After(s, a), b, c);
    acts := a + (b + c);
    RunConcat(s, a, b + c);
  }

  // sched_yield, and the scheduler takes e.
  lemma Switches(s: State, c: nat, e: nat) returns (acts: seq<Action>)
    requires s.Wf() && c < |s.cpus| && s.cpus[c].pc == Dispatch && e < NENV && s.status[e].ENV_RUNNABLE?
    ensures Run(s, acts)
    ensures After(s, acts).cpus == s.cpus[c := s.cpus[c].(pc := UnlockRead(ToUser), cur := e)]
  {
    var s1 := Step(s, GiveUp(c));
    One(s, GiveUp(c));
    One(s1, Pick(c, e));
    assert Step(s1, Pick(c, e)).cpus == s.cpus[c := s.cpus[c].(pc := UnlockRead(ToUser), cur := e)];
    hide Enabled;
    hide Step;
    hide Run;
    hide After;
    RunConcat(s, [GiveUp(c)], [Pick(c, e)]);
    acts := [GiveUp(c)] + [Pick(c, e)];
  }

  lemma SetStep(s: State, c: nat, e: nat)
    requires Inv(s) && Enabled(s, SetStatus(c, e, true)) && s.cpus[c].cur != e
    ensures 0 <= s.cpus[c].cur < NENV && s.owner == c
    ensures var s1 := Step(s, SetStatus(c, e, true));
            && s1.Wf() && s1.cpus == s.cpus[c := s.cpus[c].(pc := Done)] && s1.locked && s1.owner == c
            && !s1.cpus[c].halted && s1.status[s.cpus[c].cur].ENV_RUNNING? && s1.status[e].ENV_RUNNABLE?
  {
    assert CpuOk(s.status, s.cpunum, s.cpus[c], c);
  }

  /** What set_status on another CPU's environment leads to, from every state: on its next call the caller may yield,
      and the scheduler gives the environment a second CPU. */
  lemma SecondCpu(s: State, c: nat, d: nat, e: nat) returns (acts: seq<Action>)
    requires Inv(s) && Enabled(s, SetStatus(c, e, true)) && d < |s.cpus| && d != c && s.cpus[d].cur == e
    ensures !Polite(s, SetStatus(c, e, true)) && Run(Step(s, SetStatus(c, e, true)), acts)
    ensures var u := After(Step(s, SetStatus(c, e, true)), acts);
            |u.cpus| == |s.cpus| && u.cpus[c].cur == e && u.cpus[d].cur == e && !Distinct(u.cpus)
  {
    var s1 := Step(s, SetStatus(c, e, true));
    OtherRuns(s, c, d);
    SetStep(s, c, e);
    assert !Polite(s, SetStatus(c, e, true));
    hide Inv;
    hide Enabled;
    hide Step;
    hide Run;
    hide After;
    var again := NextCall(s1, c);
    var switch := Switches(After(s1, again), c, e);
    RunConcat(s1, again, switch);
    acts := again + switch;
    assert s1.cpus[d].cur == e && After(s1, acts).cpus[c].cur == e;
  }

  /** A second destroy frees the slot of an environment that still runs elsewhere, and on its next call the caller may
      be handed that slot by sys_exofork. */
  lemma SlotReusedWhileRunning(s: State, c: nat, d: nat, e: nat) returns (acts: seq<Action>)
    requires Inv(s) && Enabled(s, Destroy(c, e)) && s.status[e].ENV_DYING? && d < |s.cpus| && d != c &&
             s.cpus[d].cur == e
    ensures !Polite(s, Destroy(c, e)) && Run(Step(s, Destroy(c, e)), acts)
    ensures var u := After(Step(s, Destroy(c, e)), acts);
            Enabled(u, Exofork(c, e)) && |u.cpus| == |s.cpus| && u.cpus[d] == s.cpus[d]
  {
    assert CpuOk(s.status, s.cpunum, s.cpus[c], c);
    acts := NextCall(Step(s, Destroy(c, e)), c);
  }

  /** From boot, one system call a trap: an environment calls set_status on the child that the other CPU is running, and
      the scheduler then gives the child a second CPU. */
  lemma SecondCpuReachable() returns (before: seq<Action>, after: seq<Action>)
    ensures Run(Start(2), before)
    ensures var t := After(Start(2), before);
            && Enabled(t, SetStatus(0, 1, true)) && !Polite(t, SetStatus(0, 1, true))
            && Run(Step(t, SetStatus(0, 1, true)), after)
            && !Distinct(After(Step(t, SetStatus(0, 1, true)), after).cpus)
  {
    hide Run;
    hide After;
    var s := Start(2);
    var a := BothRun();
    var b := Traps(After(s, a), 0);
    RunConcat(s, a, b);
    before := a + b;
    StartInv(2);
    RunInv(s, before);
    after := SecondCpu(After(s, before), 0, 1, 1);
  }

  /** From boot, one system call a trap: an environment destroys the child that the other CPU is running, which makes it
      DYING, and destroys it again; its slot is then handed out while it still runs. */
  lemma SlotReusedReachable() returns (before: seq<Action>, after: seq<Action>)
    ensures Run(Start(2), before)
    ensures var t := After(Start(2), before);
            && Enabled(t, Destroy(0, 1)) && !Polite(t, Destroy(0, 1)) && Run(Step(t, Destroy(0, 1)), after)
            && var u := After(Step(t, Destroy(0, 1)), after);
            Enabled(u, Exofork(0, 1)) && |u.cpus| == 2 && u.cpus[1] == Cpu(User, false, 1)
  {
    hide Run;
    hide After;
    var s := Start(2);
    var a := BothRun();
    var b := Calls(After(s, a), Destroy(0, 1), Cpu(User, false, 1), ENV_RUNNING, ENV_DYING);
    var c := Traps(After(After(s, a), b), 0);
    RunConcat(After(s, a), b, c);
    before := a + (b + c);
    RunConcat(s, a, b + c);
    StartInv(2);
    RunInv(s, before);
    after := SlotReusedWhileRunning(After(s, before), 0, 1, 1);
  }
}
