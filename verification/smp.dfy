/** Several CPUs under the big kernel lock: kern/spinlock.c with its debug owner field, word access by word access; trap
    entry, env_run, sched_yield and sched_halt; and the environment status machine. Any CPU may take the next step. */
module Smp {
  import opened Mmu
  import opened EnvId

  /** Why a CPU takes the lock. `Twice` is a trap from user mode that finds cpu_status at CPU_HALTED: trap() would then
      call lock_kernel a second time. */
  datatype From = Boot | UserTrap | HaltTrap | Twice

  /** Where it goes after releasing it. */
  datatype To = ToUser | ToIdle

  datatype Pc =
    | Off
    // spin_lock: holding() reads `locked`, then `cpu`; xchg; lk->cpu = thiscpu
    | LockRead(from: From) | LockOwner(from: From) | LockSpin(from: From) | LockMark(from: From)
    // with the lock: trap entry, trap_dispatch and after it, sched_yield, the monitor loop of sched_halt
    | Entry(from: From) | Dispatch | Done | Yield | Monitor
    // spin_unlock: holding() again; lk->cpu = 0; xchg
    | UnlockRead(to: To) | UnlockOwner(to: To) | UnlockClear(to: To) | UnlockRelease(to: To)
    // env_run after unlock_kernel: curenv->env_cpunum = cpunum()
    | Number
    | User | Idle
    // trap() before its xchg on cpu_status
    | Trapped(user: bool)
    | Panicked

  /** cpu_status == CPU_HALTED, and cpu_env as a slot or NULL. */
  datatype Cpu = Cpu(pc: Pc, halted: bool, cur: int)

  datatype State = State(locked: bool, owner: int, cpus: seq<Cpu>, status: seq<EnvStatus>, cpunum: seq<int>) {
    predicate Wf() {
      && |status| == NENV && |cpunum| == NENV
      && forall c | 0 <= c < |cpus| :: cpus[c].cur == NULL || 0 <= cpus[c].cur < NENV
    }
  }

  datatype Action =
    | Next(c: nat)
    | PowerOn(c: nat)
    | Interrupt(c: nat)
    | Create(c: nat, e: nat)
    | Destroy(c: nat, e: nat)
    | Exofork(c: nat, e: nat)
    | SetStatus(c: nat, e: nat, runnable: bool)
    | Wake(c: nat, e: nat)
    | Block(c: nat)
    | GiveUp(c: nat)
    | Return(c: nat)
    | Pick(c: nat, e: nat)
    | PickNone(c: nat)

  // --- the steps ---

  function SetCpu(s: State, c: nat, x: Cpu): State
    requires c < |s.cpus|
  {
    s.(cpus := s.cpus[c := x])
  }

  function Go(s: State, c: nat, pc: Pc): State
    requires c < |s.cpus|
  {
    SetCpu(s, c, s.cpus[c].(pc := pc))
  }

  function SetEnv(s: State, e: nat, st: EnvStatus): State
    requires e < |s.status|
  {
    s.(status := s.status[e := st])
  }

  predicate InLock(pc: Pc) { pc.LockRead? || pc.LockOwner? || pc.LockSpin? || pc.LockMark? }
  predicate InUnlock(pc: Pc) { pc.UnlockRead? || pc.UnlockOwner? || pc.UnlockClear? || pc.UnlockRelease? }

  // One access of spin_lock.
  function LockStep(s: State, c: nat): State
    requires c < |s.cpus| && InLock(s.cpus[c].pc)
  {
    match s.cpus[c].pc
    case LockRead(f) => Go(s, c, if s.locked then LockOwner(f) else LockSpin(f))
    case LockOwner(f) => Go(s, c, if s.owner == c then Panicked else LockSpin(f))
    case LockSpin(f) => if s.locked then s else Go(s.(locked := true), c, LockMark(f))
    case LockMark(f) => Go(s.(owner := c), c, if f.Twice? then LockRead(UserTrap) else Entry(f))
  }

  // One access of spin_unlock.
  function UnlockStep(s: State, c: nat): State
    requires c < |s.cpus| && InUnlock(s.cpus[c].pc)
  {
    match s.cpus[c].pc
    case UnlockRead(t) => Go(s, c, if s.locked then UnlockOwner(t) else Panicked)
    case UnlockOwner(t) => Go(s, c, if s.owner == c then UnlockClear(t) else Panicked)
    case UnlockClear(t) => Go(s.(owner := NULL), c, UnlockRelease(t))
    case UnlockRelease(t) => Go(s.(locked := false), c, if t.ToUser? then Number else Idle)
  }

  // trap(): the xchg on cpu_status, and what follows it.
  function TrapStep(s: State, c: nat): State
    requires c < |s.cpus| && s.cpus[c].pc.Trapped?
  {
    var x := s.cpus[c];
    var pc := if x.pc.user then (if x.halted then LockRead(Twice) else LockRead(UserTrap))
              else (if x.halted then LockRead(HaltTrap) else Dispatch);
    SetCpu(s, c, x.(pc := pc, halted := false))
  }

  // trap() after lock_kernel: a zombie is freed; a CPU that was not running anything goes to the scheduler.
  function EntryStep(s: State, c: nat): State
    requires s.Wf() && c < |s.cpus| && s.cpus[c].pc.Entry?
  {
    var x := s.cpus[c];
    if x.pc.from.UserTrap? then
      if x.cur == NULL then Go(s, c, Panicked)
      else if s.status[x.cur].ENV_DYING? then SetCpu(SetEnv(s, x.cur, ENV_FREE), c, x.(pc := Yield, cur := NULL))
      else Go(s, c, Dispatch)
    else Go(s, c, Yield)
  }

  function NumberStep(s: State, c: nat): State
    requires s.Wf() && c < |s.cpus| && s.cpus[c].pc.Number?
  {
    if s.cpus[c].cur == NULL then Go(s, c, Panicked)
    else Go(s.(cpunum := s.cpunum[s.cpus[c].cur := c]), c, User)
  }

  // env_run(e): a current environment that is still RUNNING becomes RUNNABLE first.
  function EnvRun(s: State, c: nat, e: nat): State
    requires s.Wf() && c < |s.cpus| && e < NENV
  {
    var x := s.cpus[c];
    var s1 := if x.cur != NULL && s.status[x.cur].ENV_RUNNING? then SetEnv(s, x.cur, ENV_RUNNABLE) else s;
    SetCpu(SetEnv(s1, e, ENV_RUNNING), c, x.(pc := UnlockRead(ToUser), cur := e))
  }

  // env_destroy(e), and back to trap() unless it is the caller itself
  function EnvDestroy(s: State, c: nat, e: nat): State
    requires s.Wf() && c < |s.cpus| && e < NENV
  {
    var x := s.cpus[c];
    if s.status[e].ENV_RUNNING? && x.cur != e then Go(SetEnv(s, e, ENV_DYING), c, Done)
    else if x.cur == e then SetCpu(SetEnv(s, e, ENV_FREE), c, x.(pc := Yield, cur := NULL))
    else Go(SetEnv(s, e, ENV_FREE), c, Done)
  }

  predicate NoneRunnable(s: State) { forall e | 0 <= e < |s.status| :: !s.status[e].ENV_RUNNABLE? }

  predicate NothingToDo(s: State) {
    forall e | 0 <= e < |s.status| :: !s.status[e].ENV_RUNNABLE? && !s.status[e].ENV_RUNNING? && !s.status[e].ENV_DYING?
  }

  // sched_yield when no environment is RUNNABLE: go on with the current one, or sched_halt.
  function NoPick(s: State, c: nat): State
    requires s.Wf() && c < |s.cpus|
  {
    var x := s.cpus[c];
    if x.cur != NULL && s.status[x.cur].ENV_RUNNING? && s.cpunum[x.cur] == c then EnvRun(s, c, x.cur)
    else if NothingToDo(s) then Go(s, c, Monitor)
    else SetCpu(s, c, x.(pc := UnlockRead(ToIdle), halted := true, cur := NULL))
  }

  predicate Enabled(s: State, a: Action) {
    && s.Wf() && a.c < |s.cpus|
    && var pc := s.cpus[a.c].pc;
    match a
    case Next(_) => InLock(pc) || InUnlock(pc) || pc.Trapped? || pc.Entry? || pc.Number?
    case PowerOn(_) => pc.Off?
    case Interrupt(_) => pc.User? || pc.Idle?
    // i386_init, with the lock, before its sched_yield
    case Create(c, e) => pc.Yield? && c == 0 && s.cpus[c].cur == NULL && e < NENV && s.status[e].ENV_FREE?
    case Destroy(_, e) => pc.Dispatch? && e < NENV && !s.status[e].ENV_FREE?
    case Exofork(_, e) => pc.Dispatch? && e < NENV && s.status[e].ENV_FREE?
    case SetStatus(_, e, _) => pc.Dispatch? && e < NENV && !s.status[e].ENV_FREE?
    case Wake(_, e) => pc.Dispatch? && e < NENV && !s.status[e].ENV_FREE?
    case Block(c) => pc.Dispatch? && s.cpus[c].cur != NULL
    case GiveUp(_) => pc.Dispatch?
    case Return(_) => pc.Dispatch? || pc.Done?
    case Pick(_, e) => pc.Yield? && e < NENV && s.status[e].ENV_RUNNABLE?
    case PickNone(_) => pc.Yield? && NoneRunnable(s)
  }

  function NextStep(s: State, c: nat): State
    requires Enabled(s, Next(c))
  {
    var pc := s.cpus[c].pc;
    if InLock(pc) then LockStep(s, c) else if InUnlock(pc) then UnlockStep(s, c)
    else if pc.Trapped? then TrapStep(s, c) else if pc.Entry? then EntryStep(s, c) else NumberStep(s, c)
  }

  function Step(s: State, a: Action): State
    requires Enabled(s, a)
  {
    match a
    case Next(c) => NextStep(s, c)
    case PowerOn(c) => SetCpu(s, c, s.cpus[c].(pc := LockRead(Boot), halted := false))
    case Interrupt(c) => Go(s, c, Trapped(s.cpus[c].pc.User?))
    case Create(_, e) => SetEnv(s, e, ENV_RUNNABLE)
    case Destroy(c, e) => EnvDestroy(s, c, e)
    // a trap makes one system call
    case Exofork(c, e) => Go(SetEnv(s, e, ENV_NOT_RUNNABLE), c, Done)
    case SetStatus(c, e, r) => Go(SetEnv(s, e, if r then ENV_RUNNABLE else ENV_NOT_RUNNABLE), c, Done)
    case Wake(c, e) => Go(SetEnv(s, e, ENV_RUNNABLE), c, Done)
    case Block(c) => Go(SetEnv(s, s.cpus[c].cur, ENV_NOT_RUNNABLE), c, Yield)
    case GiveUp(c) => Go(s, c, Yield)
    case Return(c) =>
      var x := s.cpus[c];
      if x.cur != NULL && s.status[x.cur].ENV_RUNNING? then EnvRun(s, c, x.cur) else Go(s, c, Yield)
    case Pick(c, e) => EnvRun(s, c, e)
    case PickNone(c) => NoPick(s, c)
  }

  // --- the invariant ---

  predicate Holds(pc: Pc) {
    pc.LockMark? || pc.Entry? || pc.Dispatch? || pc.Done? || pc.Yield? || pc.Monitor? || InUnlock(pc)
  }

  predicate Marked(pc: Pc) { Holds(pc) && !pc.LockMark? && !pc.UnlockRelease? }

  ghost predicate Excl(locked: bool, owner: int, cpus: seq<Cpu>) {
    && (forall c, d | 0 <= c < |cpus| && 0 <= d < |cpus| && Holds(cpus[c].pc) && Holds(cpus[d].pc) :: c == d)
    && (locked <==> Held(cpus))
    && (forall c | 0 <= c < |cpus| :: owner == c <==> Marked(cpus[c].pc))
  }

  ghost predicate Held(cpus: seq<Cpu>) { exists c :: 0 <= c < |cpus| && Holds(cpus[c].pc) }

  predicate Active(st: EnvStatus) { st.ENV_RUNNING? || st.ENV_DYING? }

  // The current environment of a CPU that runs user code, or came from there and has not looked at it yet.
  predicate Runs(status: seq<EnvStatus>, x: Cpu) { 0 <= x.cur < |status| && Active(status[x.cur]) }

  predicate Mine(cpunum: seq<int>, x: Cpu, c: nat) { 0 <= x.cur < |cpunum| && cpunum[x.cur] == c }

  // The current environment of a CPU inside the kernel: not a zombie, and not freed.
  predicate Alive(status: seq<EnvStatus>, x: Cpu) {
    0 <= x.cur < |status| && !status[x.cur].ENV_FREE? && !status[x.cur].ENV_DYING?
  }

  predicate FromOk(status: seq<EnvStatus>, cpunum: seq<int>, x: Cpu, c: nat, f: From) {
    !x.halted && !f.Twice? && if f.UserTrap? then Runs(status, x) && Mine(cpunum, x, c) else x.cur == NULL
  }

  predicate ToOk(status: seq<EnvStatus>, x: Cpu, t: To) {
    if t.ToUser? then !x.halted && 0 <= x.cur < |status| && status[x.cur].ENV_RUNNING? else x.halted && x.cur == NULL
  }

  // What CPU c's point says of its status word, its current environment and env_cpunum.
  predicate CpuOk(status: seq<EnvStatus>, cpunum: seq<int>, x: Cpu, c: nat) {
    match x.pc
    case Off => !x.halted && x.cur == NULL
    case LockRead(f) => FromOk(status, cpunum, x, c, f)
    case LockOwner(f) => FromOk(status, cpunum, x, c, f)
    case LockSpin(f) => FromOk(status, cpunum, x, c, f)
    case LockMark(f) => FromOk(status, cpunum, x, c, f)
    case Entry(f) => FromOk(status, cpunum, x, c, f)
    case Dispatch => !x.halted && Mine(cpunum, x, c) && Runs(status, x) && status[x.cur].ENV_RUNNING?
    case Done => !x.halted && Mine(cpunum, x, c) && Alive(status, x)
    case Yield => !x.halted && (x.cur == NULL || (Mine(cpunum, x, c) && Alive(status, x)))
    case Monitor => !x.halted && (x.cur == NULL || Alive(status, x))
    case UnlockRead(t) => ToOk(status, x, t)
    case UnlockOwner(t) => ToOk(status, x, t)
    case UnlockClear(t) => ToOk(status, x, t)
    case UnlockRelease(t) => ToOk(status, x, t)
    case Number => !x.halted && Runs(status, x)
    case User => !x.halted && Runs(status, x) && Mine(cpunum, x, c)
    case Idle => x.halted && x.cur == NULL
    case Trapped(u) => if u then !x.halted && Runs(status, x) && Mine(cpunum, x, c) else x.halted && x.cur == NULL
    case Panicked => false
  }

  /** No environment is current on two CPUs. */
  predicate Distinct(cpus: seq<Cpu>) {
    forall c, d | 0 <= c < |cpus| && 0 <= d < |cpus| && c != d && cpus[c].cur != NULL :: cpus[c].cur != cpus[d].cur
  }

  ghost predicate Current(cpus: seq<Cpu>, e: nat) { exists c :: 0 <= c < |cpus| && cpus[c].cur == e }

  ghost predicate ActiveCurrent(status: seq<EnvStatus>, cpus: seq<Cpu>) {
    forall e: nat | e < |status| && Active(status[e]) :: Current(cpus, e)
  }

  ghost predicate CpusOk(s: State) { forall c: nat | c < |s.cpus| :: CpuOk(s.status, s.cpunum, s.cpus[c], c) }

  ghost predicate Inv(s: State) {
    s.Wf() && Excl(s.locked, s.owner, s.cpus) && Distinct(s.cpus) && CpusOk(s) && ActiveCurrent(s.status, s.cpus)
  }

  /** The boot CPU about to take the lock, the others off, all environments free. */
  function Start(n: nat): State {
    State(false, NULL, seq(n, c => Cpu(if c == 0 then LockRead(Boot) else Off, false, NULL)),
          seq(NENV, i => ENV_FREE), seq(NENV, i => NULL))
  }

  lemma StartInv(n: nat)
    ensures Inv(Start(n))
  {
  }

  // What the kernel does not check: set_status and IPC sends aimed at an environment that another CPU is running, and
  // env_destroy of one that is already DYING.
  predicate Polite(s: State, a: Action)
    requires Enabled(s, a)
  {
    match a
    case Destroy(_, e) => !s.status[e].ENV_DYING?
    case SetStatus(c, e, _) => forall d | 0 <= d < |s.cpus| && d != c :: s.cpus[d].cur != e
    case Wake(c, e) => forall d | 0 <= d < |s.cpus| && d != c :: s.cpus[d].cur != e
    case _ => true
  }

  // --- every step keeps it ---

  // A CPU moves on without taking, marking, clearing or releasing the lock.
  lemma ExclMove(locked: bool, owner: int, cpus: seq<Cpu>, c: nat, x: Cpu)
    requires Excl(locked, owner, cpus) && c < |cpus|
    requires Holds(x.pc) == Holds(cpus[c].pc) && Marked(x.pc) == Marked(cpus[c].pc)
    ensures Excl(locked, owner, cpus[c := x])
  {
    var cpus' := cpus[c := x];
    assert forall d | 0 <= d < |cpus| ::
           Holds(cpus'[d].pc) == Holds(cpus[d].pc) && Marked(cpus'[d].pc) == Marked(cpus[d].pc);
    if Held(cpus) {
      var h :| 0 <= h < |cpus| && Holds(cpus[h].pc);
      assert Holds(cpus'[h].pc);
    }
  }

  // A CPU changes its point but not its current environment.
  lemma CurrentMove(status: seq<EnvStatus>, cpus: seq<Cpu>, c: nat, x: Cpu)
    requires ActiveCurrent(status, cpus) && Distinct(cpus) && c < |cpus| && x.cur == cpus[c].cur
    ensures ActiveCurrent(status, cpus[c := x]) && Distinct(cpus[c := x])
  {
    var cpus' := cpus[c := x];
    forall e: nat | e < |status| && Active(status[e])
      ensures Current(cpus', e)
    {
      var d :| 0 <= d < |cpus| && cpus[d].cur == e;
      assert cpus'[d].cur == e;
    }
  }

  // Two CPUs are never both inside.
  lemma OnlyHolder(s: State, c: nat, d: nat)
    requires Inv(s) && c < |s.cpus| && d < |s.cpus| && c != d && Holds(s.cpus[c].pc)
    ensures !Holds(s.cpus[d].pc)
  {
  }

  lemma LockExcl(s: State, c: nat)
    requires Excl(s.locked, s.owner, s.cpus) && c < |s.cpus| && InLock(s.cpus[c].pc) && s.cpus[c].pc.from != Twice
    ensures var s' := LockStep(s, c); Excl(s'.locked, s'.owner, s'.cpus) && !s'.cpus[c].pc.Panicked?
  {
    var s' := LockStep(s, c);
    if s.cpus[c].pc.LockSpin? || s.cpus[c].pc.LockMark? {
      assert s.cpus[c].pc.LockSpin? && !s.locked ==> Holds(s'.cpus[c].pc);
      assert s.cpus[c].pc.LockMark? ==> Holds(s'.cpus[c].pc);
    } else {
      ExclMove(s.locked, s.owner, s.cpus, c, s'.cpus[c]);
    }
  }

  lemma UnlockExcl(s: State, c: nat)
    requires Excl(s.locked, s.owner, s.cpus) && c < |s.cpus| && InUnlock(s.cpus[c].pc)
    ensures var s' := UnlockStep(s, c); Excl(s'.locked, s'.owner, s'.cpus) && !s'.cpus[c].pc.Panicked?
  {
    var s' := UnlockStep(s, c);
    if s.cpus[c].pc.UnlockRead? || s.cpus[c].pc.UnlockOwner? {
      ExclMove(s.locked, s.owner, s.cpus, c, s'.cpus[c]);
    } else {
      assert s.cpus[c].pc.UnlockClear? ==> Holds(s'.cpus[c].pc);
    }
  }

  lemma LockInv(s: State, c: nat)
    requires Inv(s) && c < |s.cpus| && InLock(s.cpus[c].pc)
    ensures Inv(LockStep(s, c))
  {
    hide Excl;
    var s' := LockStep(s, c);
    assert CpuOk(s.status, s.cpunum, s.cpus[c], c);
    LockExcl(s, c);
    CurrentMove(s.status, s.cpus, c, s'.cpus[c]);
    assert s'.cpus == s.cpus[c := s'.cpus[c]];
  }

  lemma UnlockInv(s: State, c: nat)
    requires Inv(s) && c < |s.cpus| && InUnlock(s.cpus[c].pc)
    ensures Inv(UnlockStep(s, c))
  {
    hide Excl;
    var s' := UnlockStep(s, c);
    assert CpuOk(s.status, s.cpunum, s.cpus[c], c);
    UnlockExcl(s, c);
    CurrentMove(s.status, s.cpus, c, s'.cpus[c]);
    assert s'.cpus == s.cpus[c := s'.cpus[c]];
  }

  /** A step of the holder of the lock: it may move, take another current environment and change statuses, as long as
      what other CPUs run stays RUNNING or DYING. */
  lemma HolderStep(s: State, s': State, c: nat)
    requires Inv(s) && c < |s.cpus| == |s'.cpus| && Marked(s.cpus[c].pc) && s'.cpus == s.cpus[c := s'.cpus[c]]
    requires s'.locked == s.locked && s'.owner == s.owner && s'.cpunum == s.cpunum && |s'.status| == NENV
    requires Marked(s'.cpus[c].pc) && CpuOk(s'.status, s'.cpunum, s'.cpus[c], c)
    requires var x := s'.cpus[c];
             x.cur == NULL || x.cur == s.cpus[c].cur || (0 <= x.cur < NENV && !Active(s.status[x.cur]))
    requires forall d | 0 <= d < |s.cpus| && d != c && s.cpus[d].cur != NULL :: Active(s'.status[s.cpus[d].cur])
    requires forall e: nat | e < NENV && Active(s'.status[e]) ::
             s'.cpus[c].cur == e || (Active(s.status[e]) && e != s.cpus[c].cur)
    ensures Inv(s')
  {
    var x := s'.cpus[c];
    ExclMove(s.locked, s.owner, s.cpus, c, x);
    forall d: nat | d < |s.cpus|
      ensures CpuOk(s'.status, s'.cpunum, s'.cpus[d], d)
      ensures d != c && x.cur != NULL ==> s.cpus[d].cur != x.cur
    {
      if d != c {
        OnlyHolder(s, c, d);
        assert CpuOk(s.status, s.cpunum, s.cpus[d], d);
        assert s.cpus[d].cur != NULL ==> Active(s.status[s.cpus[d].cur]);
      }
    }
    forall e: nat | e < NENV && Active(s'.status[e])
      ensures Current(s'.cpus, e)
    {
      if x.cur == e {
        assert s'.cpus[c].cur == e;
      } else {
        var d :| 0 <= d < |s.cpus| && s.cpus[d].cur == e;
        assert s'.cpus[d].cur == e;
      }
    }
  }

  // What a CPU outside the lock has as its current environment is RUNNING or DYING.
  lemma OtherRuns(s: State, c: nat, d: nat)
    requires Inv(s) && c < |s.cpus| && d < |s.cpus| && c != d && Holds(s.cpus[c].pc) && s.cpus[d].cur != NULL
    ensures Active(s.status[s.cpus[d].cur]) && s.cpus[d].cur != s.cpus[c].cur
  {
    OnlyHolder(s, c, d);
    assert CpuOk(s.status, s.cpunum, s.cpus[d], d);
  }

  lemma OthersRun(s: State, c: nat)
    requires Inv(s) && c < |s.cpus| && Holds(s.cpus[c].pc)
    ensures forall d | 0 <= d < |s.cpus| && d != c && s.cpus[d].cur != NULL ::
              Active(s.status[s.cpus[d].cur]) && s.cpus[d].cur != s.cpus[c].cur
  {
    forall d: nat | d < |s.cpus| && d != c && s.cpus[d].cur != NULL
      ensures Active(s.status[s.cpus[d].cur]) && s.cpus[d].cur != s.cpus[c].cur
    {
      OtherRuns(s, c, d);
    }
  }

  lemma EntryInv(s: State, c: nat)
    requires Inv(s) && c < |s.cpus| && s.cpus[c].pc.Entry?
    ensures Inv(EntryStep(s, c))
  {
    assert CpuOk(s.status, s.cpunum, s.cpus[c], c);
    OthersRun(s, c);
    HolderStep(s, EntryStep(s, c), c);
  }

  lemma EnvRunInv(s: State, c: nat, e: nat)
    requires Inv(s) && c < |s.cpus| && e < NENV
    requires s.cpus[c].pc.Dispatch? || s.cpus[c].pc.Done? || s.cpus[c].pc.Yield?
    requires s.status[e].ENV_RUNNABLE? || (s.cpus[c].cur == e && s.status[e].ENV_RUNNING?)
    ensures Inv(EnvRun(s, c, e))
  {
    assert CpuOk(s.status, s.cpunum, s.cpus[c], c);
    OthersRun(s, c);
    HolderStep(s, EnvRun(s, c, e), c);
  }

  lemma DestroyInv(s: State, c: nat, e: nat)
    requires Inv(s) && Enabled(s, Destroy(c, e)) && Polite(s, Destroy(c, e))
    ensures Inv(EnvDestroy(s, c, e))
  {
    assert CpuOk(s.status, s.cpunum, s.cpus[c], c);
    OthersRun(s, c);
    HolderStep(s, EnvDestroy(s, c, e), c);
  }

  lemma NoPickInv(s: State, c: nat)
    requires Inv(s) && Enabled(s, PickNone(c))
    ensures Inv(NoPick(s, c))
  {
    assert CpuOk(s.status, s.cpunum, s.cpus[c], c);
    var x := s.cpus[c];
    if x.cur != NULL && s.status[x.cur].ENV_RUNNING? {
      EnvRunInv(s, c, x.cur);
    } else {
      OthersRun(s, c);
      HolderStep(s, NoPick(s, c), c);
    }
  }

  // The remaining steps inside the kernel, which set one status or none.
  lemma KernelInv(s: State, a: Action)
    requires Inv(s) && Enabled(s, a) && Polite(s, a)
    requires a.Create? || a.Exofork? || a.SetStatus? || a.Wake? || a.Block? || a.GiveUp?
    ensures Inv(Step(s, a))
  {
    assert CpuOk(s.status, s.cpunum, s.cpus[a.c], a.c);
    OthersRun(s, a.c);
    HolderStep(s, Step(s, a), a.c);
  }

  // Steps outside the lock: only the CPU itself is concerned.
  lemma OutsideStep(s: State, s': State, c: nat)
    requires Inv(s) && c < |s.cpus| == |s'.cpus| && s'.cpus == s.cpus[c := s'.cpus[c]] && s'.status == s.status
    requires s'.locked == s.locked && s'.owner == s.owner && s'.cpus[c].cur == s.cpus[c].cur
    requires !Holds(s.cpus[c].pc) && !Holds(s'.cpus[c].pc) && CpuOk(s'.status, s'.cpunum, s'.cpus[c], c)
    requires |s'.cpunum| == NENV && forall e | 0 <= e < NENV && e != s.cpus[c].cur :: s'.cpunum[e] == s.cpunum[e]
    ensures Inv(s')
  {
    ExclMove(s.locked, s.owner, s.cpus, c, s'.cpus[c]);
    CurrentMove(s.status, s.cpus, c, s'.cpus[c]);
    forall d: nat | d < |s.cpus|
      ensures CpuOk(s'.status, s'.cpunum, s'.cpus[d], d)
    {
      assert CpuOk(s.status, s.cpunum, s.cpus[d], d);
    }
  }

  lemma OutsideInv(s: State, a: Action)
    requires Inv(s) && Enabled(s, a)
    requires a.PowerOn? || a.Interrupt? || (a.Next? && (s.cpus[a.c].pc.Trapped? || s.cpus[a.c].pc.Number?))
    ensures Inv(Step(s, a))
  {
    assert CpuOk(s.status, s.cpunum, s.cpus[a.c], a.c);
    OutsideStep(s, Step(s, a), a.c);
  }

  /** Whichever CPU goes next, the lock stays exact and no environment gets two CPUs. */
  lemma StepInv(s: State, a: Action)
    requires Inv(s) && Enabled(s, a) && Polite(s, a)
    ensures Inv(Step(s, a))
  {
    hide Inv;
    match a {
      case Next(c) =>
        if InLock(s.cpus[c].pc) {
          LockInv(s, c);
        } else if InUnlock(s.cpus[c].pc) {
          UnlockInv(s, c);
        } else if s.cpus[c].pc.Entry? {
          EntryInv(s, c);
        } else {
          OutsideInv(s, a);
        }
      case PowerOn(_) => OutsideInv(s, a);
      case Interrupt(_) => OutsideInv(s, a);
      case Destroy(c, e) => DestroyInv(s, c, e);
      case Return(c) => ReturnInv(s, c);
      case Pick(c, e) => EnvRunInv(s, c, e);
      case PickNone(c) => NoPickInv(s, c);
      case _ => KernelInv(s, a);
    }
  }

  lemma ReturnInv(s: State, c: nat)
    requires Inv(s) && Enabled(s, Return(c))
    ensures Inv(Step(s, Return(c)))
  {
    assert CpuOk(s.status, s.cpunum, s.cpus[c], c);
    if s.cpus[c].cur != NULL && s.status[s.cpus[c].cur].ENV_RUNNING? {
      EnvRunInv(s, c, s.cpus[c].cur);
    } else {
      OthersRun(s, c);
      HolderStep(s, Step(s, Return(c)), c);
    }
  }

  // --- runs ---

  predicate Run(s: State, acts: seq<Action>)
    decreases |acts|
  {
    acts == [] || (Enabled(s, acts[0]) && Polite(s, acts[0]) && Run(Step(s, acts[0]), acts[1..]))
  }

  function After(s: State, acts: seq<Action>): State
    requires Run(s, acts)
    decreases |acts|
  {
    if acts == [] then s else After(Step(s, acts[0]), acts[1..])
  }

  lemma {:induction false} RunInv(s: State, acts: seq<Action>)
    requires Inv(s) && Run(s, acts)
    ensures Inv(After(s, acts))
    decreases |acts|
  {
    hide Inv;
    hide Enabled;
    hide Polite;
    if acts != [] {
      StepInv(s, acts[0]);
      RunInv(Step(s, acts[0]), acts[1..]);
    }
  }

  // What holding() computes on CPU c.
  predicate Holding(s: State, c: nat) { s.locked && s.owner == c }

  /** In every state of every run on any number of CPUs: at most one CPU has the lock, and `holding` is true on
      exactly that CPU, except on the owner itself between its xchg and its owner-field access; neither panic of the
      lock nor the assertion on curenv is reached; and no environment is current on two CPUs, is RUNNING or DYING
      without being current, or is executed by a CPU while it is anything else. */
  lemma SmpSafe(n: nat, acts: seq<Action>)
    requires Run(Start(n), acts)
    ensures var t := After(Start(n), acts);
            && t.Wf()
            && (forall c, d | 0 <= c < |t.cpus| && 0 <= d < |t.cpus| && Holds(t.cpus[c].pc) && Holds(t.cpus[d].pc) ::
                  c == d)
            && (forall c: nat | c < |t.cpus| && !t.cpus[c].pc.LockMark? && !t.cpus[c].pc.UnlockRelease? ::
                  Holding(t, c) <==> Holds(t.cpus[c].pc))
            && (forall c | 0 <= c < |t.cpus| :: !t.cpus[c].pc.Panicked?)
            && Distinct(t.cpus)
            && (forall e: nat | e < NENV && Active(t.status[e]) :: Current(t.cpus, e))
            && (forall c | 0 <= c < |t.cpus| && t.cpus[c].pc.User? ::
                  t.cpus[c].cur != NULL && Active(t.status[t.cpus[c].cur]))
  {
    StartInv(n);
    RunInv(Start(n), acts);
    var t := After(Start(n), acts);
    forall c: nat | c < |t.cpus|
      ensures !t.cpus[c].pc.Panicked?
      ensures t.cpus[c].pc.User? ==> t.cpus[c].cur != NULL && Active(t.status[t.cpus[c].cur])
    {
      assert CpuOk(t.status, t.cpunum, t.cpus[c], c);
    }
  }

  // --- the calls that do not check ---

  /** set_status, an IPC wake-up and destroy keep the invariant exactly when they are not aimed at another CPU's current
      environment, or at one that is already DYING. */
  lemma PoliteExact(s: State, a: Action)
    requires Inv(s) && Enabled(s, a)
    ensures Inv(Step(s, a)) <==> Polite(s, a)
  {
    if Polite(s, a) {
      StepInv(s, a);
    } else {
      ImpoliteBreaks(s, a);
    }
  }

  lemma ImpoliteBreaks(s: State, a: Action)
    requires Inv(s) && Enabled(s, a) && !Polite(s, a)
    ensures !Inv(Step(s, a))
  {
    var e, t := a.e, Step(s, a);
    OthersRun(s, a.c);
    assert CpuOk(s.status, s.cpunum, s.cpus[a.c], a.c);
    var d :| 0 <= d < |s.cpus| && d != a.c && s.cpus[d].cur == e;
    OnlyHolder(s, a.c, d);
    assert CpuOk(s.status, s.cpunum, s.cpus[d], d);
    assert !CpuOk(t.status, t.cpunum, t.cpus[d], d);
  }
}
