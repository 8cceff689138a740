/** Who changes the status of an environment, step by step and over whole runs: an environment that nobody blocks or
    destroys goes on being RUNNABLE or RUNNING, however often it loses its CPU. */
module SmpStatus {
  import opened Mmu
  import opened EnvId
  import opened Smp

  // The environment CPU c has as its current one.
  predicate IsCurrent(s: State, c: nat, e: nat) { c < |s.cpus| && s.cpus[c].cur == e }

  // The steps that may take the status of e from one value to another.
  predicate Cause(s: State, a: Action, e: nat, st: EnvStatus, st': EnvStatus) {
    match st'
    case ENV_RUNNING => a.Pick? && a.e == e && st.ENV_RUNNABLE?
    case ENV_RUNNABLE =>
      || (a.Pick? && a.e != e && IsCurrent(s, a.c, e) && st.ENV_RUNNING?)
      || (a.Create? && a.e == e && st.ENV_FREE?)
      || (a.SetStatus? && a.e == e && a.runnable && !st.ENV_FREE?) || (a.Wake? && a.e == e && !st.ENV_FREE?)
    case ENV_NOT_RUNNABLE =>
      || (a.Exofork? && a.e == e && st.ENV_FREE?) || (a.Block? && IsCurrent(s, a.c, e))
      || (a.SetStatus? && a.e == e && !a.runnable && !st.ENV_FREE?)
    case ENV_DYING => a.Destroy? && a.e == e && st.ENV_RUNNING? && !IsCurrent(s, a.c, e)
    case ENV_FREE =>
      || (a.Destroy? && a.e == e && (!st.ENV_RUNNING? || IsCurrent(s, a.c, e)))
      || (a.Next? && IsCurrent(s, a.c, e) && st.ENV_DYING?)
  }

  // What one step does to the environments: the state stays well-formed, and changes have their causes.
  ghost predicate Caused(s: State, a: Action, t: State) {
    t.Wf() && |s.status| == NENV && forall e: nat | e < NENV && t.status[e] != s.status[e] ::
      Cause(s, a, e, s.status[e], t.status[e])
  }

  lemma NextCaused(s: State, c: nat)
    requires Enabled(s, Next(c))
    ensures Caused(s, Next(c), NextStep(s, c))
  {
    if s.cpus[c].pc.Entry? {
      assert Caused(s, Next(c), EntryStep(s, c));
    } else if s.cpus[c].pc.Number? {
      assert Caused(s, Next(c), NumberStep(s, c));
    } else if InLock(s.cpus[c].pc) {
      assert Caused(s, Next(c), LockStep(s, c));
    } else if InUnlock(s.cpus[c].pc) {
      assert Caused(s, Next(c), UnlockStep(s, c));
    } else {
      assert Caused(s, Next(c), TrapStep(s, c));
    }
  }

  // env_run, for a RUNNABLE environment or for the current one.
  lemma SwitchCaused(s: State, a: Action)
    requires Enabled(s, a) && (a.Pick? || a.Return? || a.PickNone?)
    ensures Caused(s, a, Step(s, a))
  {
  }

  lemma CallCaused(s: State, a: Action)
    requires Enabled(s, a) && !a.Next? && !a.Pick? && !a.Return? && !a.PickNone?
    ensures Caused(s, a, Step(s, a))
  {
    if a.Destroy? {
      assert Caused(s, a, EnvDestroy(s, a.c, a.e));
    } else if a.PowerOn? || a.Interrupt? || a.GiveUp? {
      assert Step(s, a).status == s.status && Caused(s, a, Step(s, a));
    } else {
      hide EnvDestroy;
      assert Caused(s, a, Step(s, a));
    }
  }

  /** Every change of a status has its cause. In particular an environment becomes NOT_RUNNABLE only when it is created
      by sys_exofork, when it blocks itself, or by set_status. */
  lemma ChangeHasCause(s: State, a: Action, e: nat)
    requires Enabled(s, a) && e < NENV
    ensures Step(s, a).Wf()
    ensures Step(s, a).status[e] != s.status[e] ==> Cause(s, a, e, s.status[e], Step(s, a).status[e])
  {
    hide Cause;
    hide NextStep;
    hide EnvRun;
    hide NoPick;
    hide EnvDestroy;
    if a.Next? {
      NextCaused(s, a.c);
    } else if a.Pick? || a.Return? || a.PickNone? {
      SwitchCaused(s, a);
    } else {
      CallCaused(s, a);
    }
  }

  /** Switching to e: e is RUNNING and current, the environment that loses the CPU is RUNNABLE if it was RUNNING, and
      nobody else changes. */
  lemma PickEffect(s: State, c: nat, e: nat)
    requires Enabled(s, Pick(c, e))
    ensures var t, old' := Step(s, Pick(c, e)), s.cpus[c].cur;
            && t.status[e].ENV_RUNNING? && IsCurrent(t, c, e)
            && (old' != NULL && old' != e && s.status[old'].ENV_RUNNING? ==> t.status[old'].ENV_RUNNABLE?)
            && (forall i | 0 <= i < NENV && i != e && i != old' :: t.status[i] == s.status[i])
            && (old' != NULL && old' != e && !s.status[old'].ENV_RUNNING? ==> t.status[old'] == s.status[old'])
            && (forall d | 0 <= d < |s.cpus| && d != c :: t.cpus[d] == s.cpus[d])
  {
  }

  /** What the other calls are for comes about. */
  lemma CallEffect(s: State, a: Action)
    requires Enabled(s, a)
    ensures a.Create? || a.Wake? ==> Step(s, a).status[a.e].ENV_RUNNABLE?
    ensures a.Exofork? ==> Step(s, a).status[a.e].ENV_NOT_RUNNABLE?
    ensures a.SetStatus? ==> Step(s, a).status[a.e] == if a.runnable then ENV_RUNNABLE else ENV_NOT_RUNNABLE
    ensures a.Block? ==> Step(s, a).status[s.cpus[a.c].cur].ENV_NOT_RUNNABLE?
    ensures a.Destroy? ==> Step(s, a).status[a.e].ENV_DYING? || Step(s, a).status[a.e].ENV_FREE?
    ensures a.Return? && s.cpus[a.c].cur != NULL && s.status[s.cpus[a.c].cur].ENV_RUNNING? ==>
              Step(s, a).status == s.status && IsCurrent(Step(s, a), a.c, s.cpus[a.c].cur)
    ensures a.PickNone? && s.cpus[a.c].cur != NULL && s.status[s.cpus[a.c].cur].ENV_RUNNING? &&
            s.cpunum[s.cpus[a.c].cur] == a.c ==>
              Step(s, a).status == s.status && IsCurrent(Step(s, a), a.c, s.cpus[a.c].cur)
  {
  }

  /** With nothing RUNNABLE: the CPU goes on with its environment if that is RUNNING on it; otherwise it enters the
      monitor, and keeps the lock, if and only if no environment is RUNNING or DYING anywhere, and else it halts and is
      on its way to release the lock. */
  lemma IdleEffect(s: State, c: nat)
    requires Enabled(s, PickNone(c))
    ensures var t, old' := Step(s, PickNone(c)), s.cpus[c].cur;
            var resumes := old' != NULL && s.status[old'].ENV_RUNNING? && s.cpunum[old'] == c;
            && t.status == s.status && t.locked == s.locked
            && (t.cpus[c].pc.Monitor? <==> !resumes && forall e | 0 <= e < NENV :: !Active(s.status[e]))
            && (!resumes && !t.cpus[c].pc.Monitor? ==>
                  t.cpus[c].halted && t.cpus[c].cur == NULL && t.cpus[c].pc == UnlockRead(ToIdle))
  {
    if s.cpus[c].cur != NULL && s.status[s.cpus[c].cur].ENV_RUNNING? && s.cpunum[s.cpus[c].cur] == c {
      assert Step(s, PickNone(c)).status == s.status;
    }
  }

  /** No CPU is ever stuck, but in the monitor: it has a next access, or waits for an interrupt; trap_dispatch can make
      any call, and sched_yield has an environment to switch to or none. */
  lemma CpuGoes(s: State, c: nat, e: nat)
    requires Inv(s) && c < |s.cpus| && e < NENV
    ensures var pc := s.cpus[c].pc;
            && (pc.Off? ==> Enabled(s, PowerOn(c)))
            && (pc.User? || pc.Idle? ==> Enabled(s, Interrupt(c)))
            && (InLock(pc) || InUnlock(pc) || pc.Trapped? || pc.Entry? || pc.Number? ==> Enabled(s, Next(c)))
            && (pc.Dispatch? ==> Enabled(s, GiveUp(c)) && Enabled(s, Return(c)) && Enabled(s, Block(c)))
            && (pc.Dispatch? && !s.status[e].ENV_FREE? ==>
                  && Enabled(s, Destroy(c, e)) && Enabled(s, Wake(c, e))
                  && Enabled(s, SetStatus(c, e, true)) && Enabled(s, SetStatus(c, e, false)))
            && (pc.Dispatch? && s.status[e].ENV_FREE? ==> Enabled(s, Exofork(c, e)))
            && (pc.Done? ==> Enabled(s, Return(c)))
            && (pc.Yield? ==> (Enabled(s, Pick(c, e)) <==> s.status[e].ENV_RUNNABLE?))
            && (pc.Yield? ==> Enabled(s, PickNone(c)) || exists i: nat :: i < NENV && Enabled(s, Pick(c, i)))
  {
    assert CpuOk(s.status, s.cpunum, s.cpus[c], c);
    if s.cpus[c].pc.Yield? && !NoneRunnable(s) {
      var i: nat :| i < |s.status| && s.status[i].ENV_RUNNABLE?;
      assert Enabled(s, Pick(c, i));
    }
  }

  predicate Ready(st: EnvStatus) { st.ENV_RUNNABLE? || st.ENV_RUNNING? }

  // A step that is meant to stop e: it blocks itself, or somebody blocks or destroys it.
  predicate Stops(s: State, a: Action, e: nat) {
    (a.Block? && IsCurrent(s, a.c, e)) || (a.SetStatus? && a.e == e && !a.runnable) || (a.Destroy? && a.e == e)
  }

  predicate NeverStopped(s: State, acts: seq<Action>, e: nat)
    requires Run(s, acts)
    decreases |acts|
  {
    acts == [] || (!Stops(s, acts[0], e) && NeverStopped(Step(s, acts[0]), acts[1..], e))
  }

  /** An environment that is RUNNABLE or RUNNING stays so in every run in which nobody stops it: losing the CPU never
      costs it its turn. */
  lemma {:induction false} NeverLost(s: State, acts: seq<Action>, e: nat)
    requires Run(s, acts) && s.Wf() && e < NENV && Ready(s.status[e]) && NeverStopped(s, acts, e)
    ensures After(s, acts).Wf() && Ready(After(s, acts).status[e])
    decreases |acts|
  {
    hide Enabled;
    hide Polite;
    hide Step;
    if acts != [] {
      ChangeHasCause(s, acts[0], e);
      NeverLost(Step(s, acts[0]), acts[1..], e);
    }
  }

  predicate NeverWoken(s: State, acts: seq<Action>, e: nat)
    requires Run(s, acts)
    decreases |acts|
  {
    acts == [] ||
    (!((acts[0].SetStatus? || acts[0].Wake? || acts[0].Destroy?) && acts[0].e == e) &&
     NeverWoken(Step(s, acts[0]), acts[1..], e))
  }

  /** And one that has been stopped without being destroyed stays so until somebody lets it run again. */
  lemma {:induction false} StaysBlocked(s: State, acts: seq<Action>, e: nat)
    requires Run(s, acts) && s.Wf() && e < NENV && s.status[e].ENV_NOT_RUNNABLE? && NeverWoken(s, acts, e)
    ensures After(s, acts).Wf() && After(s, acts).status[e].ENV_NOT_RUNNABLE?
    decreases |acts|
  {
    hide Enabled;
    hide Polite;
    hide Step;
    if acts != [] {
      ChangeHasCause(s, acts[0], e);
      StaysBlocked(Step(s, acts[0]), acts[1..], e);
    }
  }
}
