/** IPC: sys_ipc_try_send and sys_ipc_recv of kern/syscall.c, and the loops of lib/ipc.c around them, as to messages. A
    system call is one step, so is each field ipc_recv reads from its own struct Env afterwards. What a send does to the
    page tables, and when it fails there, is in KernelIpc. */
module Ipc {
  import opened Mmu

  datatype Msg = Msg(from: nat, perm: nat, value: int)

  /** Where an environment is in lib/ipc.c: outside, in ipc_send's loop, blocked in or just back from sys_ipc_recv, and
      between the three reads of ipc_recv. */
  datatype Pc =
    | Out
    | Sending(to: nat, value: int, page: bool, perm: nat)
    | Waiting
    | HasFrom(from: nat)
    | HasPerm(from: nat, perm: nat)

  /** The IPC fields of struct Env; `blocked` is ENV_NOT_RUNNABLE. `sent` lists the successful sends to this environment
      and `got` what its calls of ipc_recv returned. */
  datatype Env = Env(alive: bool, blocked: bool, recving: bool, dstva: nat, from: nat, perm: nat, value: int, pc: Pc,
                     sent: seq<Msg>, got: seq<Msg>)

  type State = seq<Env>

  datatype Action =
    | Recv(e: nat, dstva: nat)
    | Send(e: nat, to: nat, value: int, page: bool, perm: nat)
    | Try(e: nat, fails: bool)
    | ReadFrom(e: nat)
    | ReadPerm(e: nat)
    | ReadValue(e: nat)
    | SetStatus(e: nat, runnable: bool)
    | Create(e: nat)
    | Destroy(e: nat)

  predicate Enabled(s: State, a: Action) {
    && a.e < |s|
    && match a
       case Recv(e, _) => s[e].alive && !s[e].blocked && s[e].pc.Out?
       case Send(e, to, _, _, _) => s[e].alive && !s[e].blocked && s[e].pc.Out? && to < |s|
       // only the transfer of a page can fail
       case Try(e, fails) =>
         s[e].alive && !s[e].blocked && s[e].pc.Sending? && s[e].pc.to < |s| && (fails ==> s[e].pc.page)
       case ReadFrom(e) => s[e].alive && !s[e].blocked && s[e].pc.Waiting?
       case ReadPerm(e) => s[e].alive && !s[e].blocked && s[e].pc.HasFrom?
       case ReadValue(e) => s[e].alive && !s[e].blocked && s[e].pc.HasPerm?
       case SetStatus(e, _) => s[e].alive
       case Create(e) => !s[e].alive
       case Destroy(e) => s[e].alive
  }

  // sys_ipc_recv: the flag is set before the check, and stays set when the call fails.
  function DoRecv(x: Env, dstva: nat): Env {
    var y := x.(recving := true);
    if !PageVa(dstva) then y else y.(blocked := true, pc := Waiting, dstva := dstva)
  }

  // What sys_ipc_try_send puts in env_ipc_perm: nothing new if a page is offered and the receiver asked for address 0.
  function PermAfter(x: Env, page: bool, perm: nat): nat {
    if !page then 0 else if x.dstva != 0 then WithUP(perm) else x.perm
  }

  // sys_ipc_try_send to an environment that is receiving.
  function Deliver(x: Env, from: nat, value: int, page: bool, perm: nat): Env {
    var p := PermAfter(x, page, perm);
    x.(perm := p, from := from, recving := false, value := value, blocked := false,
        sent := x.sent + [Msg(from, p, value)])
  }

  function Step(s: State, a: Action): State
    requires Enabled(s, a)
  {
    match a
    case Recv(e, va) => s[e := DoRecv(s[e], va)]
    case Send(e, to, v, page, perm) => s[e := s[e].(pc := Sending(to, v, page, perm))]
    case Try(e, fails) =>
      // -E_IPC_NOT_RECV: sys_yield and try again; any other error makes ipc_send panic
      var to := s[e].pc.to;
      if !s[to].alive then s[e := s[e].(alive := false)]
      else if !s[to].recving then s
      else if fails then s[e := s[e].(alive := false)]
      else
        var s1 := s[to := Deliver(s[to], e, s[e].pc.value, s[e].pc.page, s[e].pc.perm)];
        s1[e := s1[e].(pc := Out)]
    case ReadFrom(e) => s[e := s[e].(pc := HasFrom(s[e].from))]
    case ReadPerm(e) => s[e := s[e].(pc := HasPerm(s[e].pc.from, s[e].perm))]
    case ReadValue(e) =>
      s[e := s[e].(pc := Out, got := s[e].got + [Msg(s[e].pc.from, s[e].pc.perm, s[e].value)])]
    // sys_env_set_status, by itself or by its parent
    case SetStatus(e, r) => s[e := s[e].(blocked := !r)]
    // env_alloc clears the flag
    case Create(e) => s[e := Env(true, false, false, s[e].dstva, s[e].from, s[e].perm, s[e].value, Out, [], [])]
    case Destroy(e) => s[e := s[e].(alive := false)]
  }

  /** A receiving environment is blocked; an undelivered message is the one in the fields, and everything else that
      was sent has been received, in order. */
  predicate EnvOk(x: Env) {
    x.alive ==>
      && (x.recving ==> x.blocked && x.pc.Waiting?)
      && match x.pc
         case Out => x.sent == x.got
         case Sending(_, _, _, _) => x.sent == x.got
         case Waiting => x.sent == if x.recving then x.got else x.got + [Msg(x.from, x.perm, x.value)]
         case HasFrom(f) => x.sent == x.got + [Msg(f, x.perm, x.value)] && x.from == f
         case HasPerm(f, p) => x.sent == x.got + [Msg(f, p, x.value)]
  }

  predicate Inv(s: State) { forall e | 0 <= e < |s| :: EnvOk(s[e]) }

  // No refused receive, and no outside wake-up of an environment that is receiving.
  predicate GoodCall(s: State, a: Action)
    requires Enabled(s, a)
  {
    (a.Recv? ==> PageVa(a.dstva)) && (a.SetStatus? && a.runnable ==> !s[a.e].recving)
  }

  lemma StepInv(s: State, a: Action)
    requires Inv(s) && Enabled(s, a) && GoodCall(s, a)
    ensures Inv(Step(s, a))
  {
    if a.Try? {
      assert EnvOk(s[a.e]) && EnvOk(s[s[a.e].pc.to]);
    }
  }

  predicate Run(s: State, acts: seq<Action>)
    decreases |acts|
  {
    acts == [] || (Enabled(s, acts[0]) && GoodCall(s, acts[0]) && Run(Step(s, acts[0]), acts[1..]))
  }

  function After(s: State, acts: seq<Action>): State
    requires Run(s, acts)
    decreases |acts|
  {
    if acts == [] then s else After(Step(s, acts[0]), acts[1..])
  }

  lemma {:induction false} RunInv(s: State, acts: seq<Action>)
    requires Inv(s) && Run(s, acts)
    ensures Inv(After(s, acts))
    decreases |acts|
  {
    if acts != [] {
      StepInv(s, acts[0]);
      RunInv(Step(s, acts[0]), acts[1..]);
    }
  }

  function Boot(n: nat): State { seq(n, i => Env(false, false, false, 0, 0, 0, 0, Out, [], [])) }

  // --- what the callers see ---

  // ipc_send, in the environment that takes step a, returns.
  predicate SendReturns(s: State, a: Action)
    requires Enabled(s, a)
  {
    s[a.e].alive && s[a.e].pc.Sending? && Step(s, a)[a.e].alive && Step(s, a)[a.e].pc.Out?
  }

  /** ipc_send returns only when its message is in the fields of a receiver, and until then it goes on trying: a target
      that is not receiving never makes it give up. Any other error ends its environment. */
  lemma SendReturnsIff(s: State, a: Action)
    requires Enabled(s, a) && s[a.e].pc.Sending? && s[a.e].alive && a.Try?
    ensures var to := s[a.e].pc.to;
            && (SendReturns(s, a) <==> s[to].alive && s[to].recving && !a.fails)
            && (SendReturns(s, a) ==>
                  var x := Step(s, a)[to]; x.from == a.e && x.value == s[a.e].pc.value && !x.recving && !x.blocked)
            && (s[to].alive && !s[to].recving ==> Step(s, a) == s)
            && (!s[to].alive || (s[to].recving && a.fails) ==> !Step(s, a)[a.e].alive)
  {
  }

  /** The messages that calls of ipc_send to e have returned for, since e was created. */
  ghost function SendsTo(s: State, acts: seq<Action>, e: nat, log: seq<Msg>): seq<Msg>
    requires Run(s, acts)
    decreases |acts|
  {
    if acts == [] then log
    else
      var a := acts[0];
      var log' := if a.Create? && a.e == e then []
                  else if SendReturns(s, a) && s[a.e].pc.to == e && e < |s| then
                    log + [Msg(a.e, PermAfter(s[e], s[a.e].pc.page, s[a.e].pc.perm), s[a.e].pc.value)]
                  else log;
      SendsTo(Step(s, a), acts[1..], e, log')
  }

  // ipc_recv returns: the sender and the permission it has stored, and the value it reads last.
  predicate RecvReturns(s: State, a: Action)
    requires Enabled(s, a)
  {
    s[a.e].alive && s[a.e].pc.HasPerm? && Step(s, a)[a.e].pc.Out?
  }

  /** What e's calls of ipc_recv have returned, since it was created. */
  ghost function RecvsOf(s: State, acts: seq<Action>, e: nat, log: seq<Msg>): seq<Msg>
    requires Run(s, acts)
    decreases |acts|
  {
    if acts == [] then log
    else
      var a := acts[0];
      var log' := if a.Create? && a.e == e then []
                  else if RecvReturns(s, a) && a.e == e then
                    log + [Msg(s[e].pc.from, s[e].pc.perm, s[e].value)]
                  else log;
      RecvsOf(Step(s, a), acts[1..], e, log')
  }

  lemma {:induction false} Ledger(s: State, acts: seq<Action>, e: nat)
    requires Inv(s) && Run(s, acts) && e < |s|
    ensures e < |After(s, acts)| && After(s, acts)[e].sent == SendsTo(s, acts, e, s[e].sent)
    ensures After(s, acts)[e].got == RecvsOf(s, acts, e, s[e].got)
    decreases |acts|
  {
    if acts != [] {
      LogStep(s, acts[0], e);
      StepInv(s, acts[0]);
      hide Inv;
      hide Step;
      hide SendReturns;
      hide RecvReturns;
      hide Enabled;
      hide GoodCall;
      Ledger(Step(s, acts[0]), acts[1..], e);
    }
  }

  lemma LogStep(s: State, a: Action, e: nat)
    requires Inv(s) && Enabled(s, a) && e < |s|
    ensures e < |Step(s, a)|
    ensures Step(s, a)[e].sent ==
            if a.Create? && a.e == e then []
            else if SendReturns(s, a) && s[a.e].pc.to == e then
              s[e].sent + [Msg(a.e, PermAfter(s[e], s[a.e].pc.page, s[a.e].pc.perm), s[a.e].pc.value)]
            else s[e].sent
    ensures Step(s, a)[e].got ==
            if a.Create? && a.e == e then []
            else if RecvReturns(s, a) && a.e == e then s[e].got + [Msg(s[e].pc.from, s[e].pc.perm, s[e].value)]
            else s[e].got
  {
    assert EnvOk(s[a.e]);
    if a.Try? {
      assert EnvOk(s[s[a.e].pc.to]);
    }
  }

  /** An environment that is alive and not blocked always has a next step, at whatever point it is; one that is alive
      can be destroyed or have its status set, and a dead slot can be given out. */
  lemma EnvGoes(s: State, e: nat)
    requires Inv(s) && e < |s|
    ensures Enabled(s, Create(e)) <==> !s[e].alive
    ensures s[e].alive ==> Enabled(s, Destroy(e)) && Enabled(s, SetStatus(e, true)) && Enabled(s, SetStatus(e, false))
    ensures s[e].alive && !s[e].blocked ==>
              match s[e].pc
              case Out => Enabled(s, Recv(e, 0)) && Enabled(s, Send(e, e, 0, false, 0))
              case Sending(to, _, _, _) => to < |s| ==> Enabled(s, Try(e, false))
              case Waiting => Enabled(s, ReadFrom(e))
              case HasFrom(_) => Enabled(s, ReadPerm(e))
              case HasPerm(_, _) => Enabled(s, ReadValue(e))
  {
  }

  /** In every run with valid receive addresses and no outside wake-up of a receiver, what an environment's calls of
      ipc_recv have returned is a prefix of what calls of ipc_send to it have returned for, short of at most the one
      message that is still in its fields, which no send can then overwrite. */
  lemma NothingLost(n: nat, acts: seq<Action>, e: nat)
    requires Run(Boot(n), acts) && e < n
    ensures var t := After(Boot(n), acts);
            && |t| == n
            && t[e].sent == SendsTo(Boot(n), acts, e, []) && t[e].got == RecvsOf(Boot(n), acts, e, [])
            && (t[e].alive ==>
                  && (t[e].recving ==> t[e].blocked)
                  && t[e].got <= t[e].sent && |t[e].sent| <= |t[e].got| + 1
                  && (t[e].recving ==> t[e].sent == t[e].got)
                  && (t[e].got != t[e].sent ==> !t[e].recving && t[e].sent[|t[e].got|].value == t[e].value))
  {
    RunInv(Boot(n), acts);
    RunLength(Boot(n), acts);
    Ledger(Boot(n), acts, e);
    assert EnvOk(After(Boot(n), acts)[e]);
  }

  lemma {:induction false} RunLength(s: State, acts: seq<Action>)
    requires Run(s, acts)
    ensures |After(s, acts)| == |s|
    decreases |acts|
  {
    if acts != [] {
      RunLength(Step(s, acts[0]), acts[1..]);
    }
  }

  /** These are the only calls that do harm, and they always do: a refused sys_ipc_recv leaves the flag set on an
      environment that goes on running, and so does waking a receiver with sys_env_set_status. */
  lemma GoodCallIff(s: State, a: Action)
    requires Inv(s) && Enabled(s, a)
    ensures Inv(Step(s, a)) <==> GoodCall(s, a)
  {
    assert EnvOk(s[a.e]);
    if GoodCall(s, a) {
      StepInv(s, a);
    } else {
      assert !EnvOk(Step(s, a)[a.e]);
    }
  }

  /** env_ipc_perm ends up as documented, perm if a page was transferred and 0 otherwise, if and only if the receiver
      did not ask for address 0, or no page is offered, or the field was 0 before. */
  lemma PermIff(s: State, e: nat)
    requires Enabled(s, Try(e, false))
    requires var to := s[e].pc.to; s[to].alive && s[to].recving
    ensures var pc, to := s[e].pc, s[e].pc.to;
            Step(s, Try(e, false))[to].perm == (if pc.page && s[to].dstva != 0 then WithUP(pc.perm) else 0) <==>
            !pc.page || s[to].dstva != 0 || s[to].perm == 0
  {
  }

  /** A receiver that is woken so reads its fields although nothing was sent: its call returns the message it had
      before, or whatever the fields held at first. */
  lemma WokenReadsStale(s: State, e: nat)
    requires Inv(s) && e < |s| && s[e].alive && s[e].recving
    ensures var s1 := Step(s, SetStatus(e, true));
            && Enabled(s1, ReadFrom(e)) && Enabled(Step(s1, ReadFrom(e)), ReadPerm(e))
            && var s2 := Step(Step(s1, ReadFrom(e)), ReadPerm(e));
            && Enabled(s2, ReadValue(e))
            && var t := Step(s2, ReadValue(e))[e];
            t.got == s[e].got + [Msg(s[e].from, s[e].perm, s[e].value)] && t.sent == s[e].sent && !(t.got <= t.sent)
  {
    assert EnvOk(s[e]);
  }

  /** And then a message is lost: after the refused call somebody's send succeeds, and after the next, valid call the
      second send overwrites it before it was ever read. */
  lemma RefusedRecvLoses(s: State, e: nat, f: nat, bad: nat, v: int, w: int)
    requires Inv(s) && e < |s| && f < |s| && e != f && !PageVa(bad) && v != w
    requires s[f].alive && !s[f].blocked && s[f].pc.Out? && s[e].alive && !s[e].blocked && s[e].pc.Out?
    ensures Enabled(s, Recv(e, bad))
    ensures var s1 := Step(s, Recv(e, bad));
            && Enabled(s1, Send(f, e, v, false, 0))
            && var s2 := Step(s1, Send(f, e, v, false, 0));
            && Enabled(s2, Try(f, false))
            && var s3 := Step(s2, Try(f, false));
            && Enabled(s3, Recv(e, 0))
            && var s4 := Step(s3, Recv(e, 0));
            && Enabled(s4, Send(f, e, w, false, 0))
            && var s5 := Step(s4, Send(f, e, w, false, 0));
            && Enabled(s5, Try(f, false))
            && var s6 := Step(s5, Try(f, false));
            && Enabled(s6, ReadFrom(e)) && Enabled(Step(s6, ReadFrom(e)), ReadPerm(e))
            && var s7 := Step(Step(s6, ReadFrom(e)), ReadPerm(e));
            && Enabled(s7, ReadValue(e))
            && var t := Step(s7, ReadValue(e))[e];
            t.got == s[e].got + [Msg(f, 0, w)] && t.sent == s[e].sent + [Msg(f, 0, v), Msg(f, 0, w)] &&
                !(t.got <= t.sent)
  {
    assert EnvOk(s[e]);
    var s1 := Step(s, Recv(e, bad));
    var s3 := Step(Step(s1, Send(f, e, v, false, 0)), Try(f, false));
    assert s3[e].recving == false && s3[e].sent == s[e].sent + [Msg(f, 0, v)] && s3[f] == s[f].(pc := Out);
    var s4 := Step(s3, Recv(e, 0));
    var s6 := Step(Step(s4, Send(f, e, w, false, 0)), Try(f, false));
    assert s6[e].sent == s3[e].sent + [Msg(f, 0, w)] && s6[e].got == s[e].got && s6[e].value == w && s6[e].from == f;
    var t := Step(Step(Step(s6, ReadFrom(e)), ReadPerm(e)), ReadValue(e))[e];
    assert t.sent == s[e].sent + [Msg(f, 0, v), Msg(f, 0, w)];
    var n := |s[e].got|;
    assert t.got[n] == Msg(f, 0, w) && t.sent[n] == Msg(f, 0, v);
  }
}
