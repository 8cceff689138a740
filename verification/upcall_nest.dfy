/** Page faults inside page-fault handlers, to any depth: every level gets its whole state back. */
module UpcallNest {
  import opened Mmu
  import opened Upcall

  /** What a handler does, as a list: store a byte, compute (ending with other registers), or fault, which runs the
      handler again from the start, with a list of its own. */
  datatype Act = Poke(a: int, b: int) | Compute(r: Regs) | Fault(va: int, err: int, body: Acts)
  datatype Acts = Nil | Cons(head: Act, tail: Acts)

  datatype Outcome = Done(m: Mem, r: Regs) | Panic

  // pushl %esp, and the return address of the call
  function CallHandler(m: Mem, f: int, ret: int): Mem { Store(Store(m, f - 4, f), f - 8, ret) }

  function Exec(m: Mem, r: Regs, ret: int, acts: Acts): Outcome
    decreases acts, 0
  {
    match acts
    case Nil => Done(m, r)
    case Cons(Poke(a, b), t) => Exec(m[a := b], r, ret, t)
    case Cons(Compute(r'), t) => Exec(m, r', ret, t)
    case Cons(Fault(va, err, body), t) =>
      match TakeFault(m, r, ret, va, err, body)
      case Done(m', r') => Exec(m', r', ret, t)
      case Panic => Panic
  }

  /** A fault in state (m, r): the kernel pushes a frame, the upcall runs the handler and unwinds the frame. */
  function TakeFault(m: Mem, r: Regs, ret: int, va: int, err: int, body: Acts): Outcome
    decreases body, 1
  {
    match Push(m, r, va, err)
    case Overflow => Panic
    case Pushed(m1, f) =>
      match Exec(CallHandler(m1, f, ret), r.(esp := f - 8), ret, body)
      case Done(m2, _) => Done(UnwindMem(m2, f), UnwindRegs(m2, f))
      case Panic => Panic
  }

  // There is room for another frame and for the call of the handler.
  predicate Fits(esp: int) { FrameAt(esp) - 8 >= EXSTK }

  /** A handler called with its frame at f behaves: it stores nothing at or above its frame on the exception stack, and
      keeps its stack pointer on that stack, below the frame. */
  predicate Behaved(r: Regs, acts: Acts, f: int)
    decreases acts
  {
    match acts
    case Nil => true
    case Cons(Poke(a, _), t) => !(f <= a < UXSTACKTOP) && Behaved(r, t, f)
    case Cons(Compute(r'), t) => r'.Ok() && EXSTK <= r'.esp <= f && Behaved(r', t, f)
    case Cons(Fault(_, _, body), t) => Fits(r.esp) && Behaved(Entry(r), body, FrameAt(r.esp)) && Behaved(r, t, f)
  }

  function Entry(r: Regs): Regs { r.(esp := FrameAt(r.esp) - 8) }

  // Some handler stores a byte at b.
  predicate Poked(acts: Acts, b: int) {
    match acts
    case Nil => false
    case Cons(Poke(a, _), t) => a == b || Poked(t, b)
    case Cons(Compute(_), t) => Poked(t, b)
    case Cons(Fault(_, _, body), t) => Poked(body, b) || Poked(t, b)
  }

  // What may change while a handler with its frame at f runs.
  predicate Safe(acts: Acts, f: int, b: int) { f <= b < UXSTACKTOP || (!(EXSTK <= b < UXSTACKTOP) && !Poked(acts, b)) }

  lemma CallKeeps(m: Mem, f: int, ret: int, b: int)
    requires !(f - 8 <= b < f)
    ensures Get(CallHandler(m, f, ret), b) == Get(m, b)
  {
    hide Get;
    hide Store;
    GetOther(m, f - 4, f, b);
    GetOther(Store(m, f - 4, f), f - 8, ret, b);
  }

  lemma PushKeeps(m: Mem, r: Regs, va: int, err: int, b: int)
    requires Push(m, r, va, err).Pushed?
    requires !(FrameAt(r.esp) <= b < FrameAt(r.esp) + FRAME) && !(OnExStack(r.esp) && r.esp - 4 <= b < r.esp)
    ensures Get(Push(m, r, va, err).m, b) == Get(m, b)
  {
    hide Get;
    hide Store;
    hide StoreAll;
    var m1 := if OnExStack(r.esp) then Store(m, r.esp - 4, 0) else m;
    if OnExStack(r.esp) {
      GetOther(m, r.esp - 4, 0, b);
    }
    GetAll(m1, FrameAt(r.esp), Words(r, va, err), b);
  }

  lemma PushHolds(m: Mem, r: Regs, va: int, err: int)
    requires r.Ok() && Fits(r.esp)
    ensures var p := Push(m, r, va, err); p.Pushed? && p.f == FrameAt(r.esp) && Holds(p.m, p.f, r)
    ensures IsWord(va) && IsWord(err) ==> Tells(Push(m, r, va, err).m, FrameAt(r.esp), va, err)
  {
    hide Holds;
    hide Tells;
    hide StoreAll;
    hide Store;
    var m1 := if OnExStack(r.esp) then Store(m, r.esp - 4, 0) else m;
    FrameHolds(m1, FrameAt(r.esp), r, va, err);
  }

  // The kernel's and the upcall's writes before the handler starts.
  lemma EntryKeeps(m: Mem, r: Regs, ret: int, va: int, err: int)
    requires r.Ok() && Fits(r.esp)
    ensures Push(m, r, va, err).Pushed? && Push(m, r, va, err).f == FrameAt(r.esp)
    ensures var f, n := FrameAt(r.esp), CallHandler(Push(m, r, va, err).m, FrameAt(r.esp), ret);
            && Holds(n, f, r) && (IsWord(va) && IsWord(err) ==> Tells(n, f, va, err))
            && forall b | !(f - 8 <= b < f + FRAME) && !(OnExStack(r.esp) && r.esp - 4 <= b < r.esp) ::
                  Get(n, b) == Get(m, b)
  {
    PushHolds(m, r, va, err);
    hide Push;
    hide Holds;
    hide CallHandler;
    hide Get;
    var f, p := FrameAt(r.esp), Push(m, r, va, err);
    var n := CallHandler(p.m, f, ret);
    forall b | !(f - 8 <= b < f)
      ensures Get(n, b) == Get(p.m, b)
    {
      CallKeeps(p.m, f, ret, b);
    }
    forall b | !(f - 8 <= b < f + FRAME) && !(OnExStack(r.esp) && r.esp - 4 <= b < r.esp)
      ensures Get(p.m, b) == Get(m, b)
    {
      PushKeeps(m, r, va, err, b);
    }
    HoldsKept(p.m, n, f, r);
    if IsWord(va) && IsWord(err) {
      TellsKept(p.m, n, f, va, err);
    }
  }

  // The argument of the call, and its return address.
  lemma CallPushes(m: Mem, f: int, ret: int)
    requires IsWord(f) && IsWord(ret)
    ensures Load(CallHandler(m, f, ret), f - 4) == f && Load(CallHandler(m, f, ret), f - 8) == ret
  {
    hide Load;
    hide Store;
    LoadStored(m, f - 4, f);
    LoadOther(Store(m, f - 4, f), f - 8, ret, f - 4);
    LoadStored(Store(m, f - 4, f), f - 8, ret);
  }

  /** What the handler finds at its first instruction, at any depth: the return address, its argument, and at the
      address that gives the faulting address, the error code and the trap-time state. */
  lemma HandlerFinds(m: Mem, r: Regs, ret: int, va: int, err: int)
    requires r.Ok() && Fits(r.esp) && IsWord(va) && IsWord(err) && IsWord(ret)
    ensures var n, sp := CallHandler(Push(m, r, va, err).m, FrameAt(r.esp), ret), Entry(r).esp;
            && Load(n, sp) == ret
            && var f := Load(n, sp + 4);
            && f == FrameAt(r.esp) && Tells(n, f, va, err) && Holds(n, f, r)
  {
    hide Load;
    hide Tells;
    hide Holds;
    hide CallHandler;
    EntryKeeps(m, r, ret, va, err);
    CallPushes(Push(m, r, va, err).m, FrameAt(r.esp), ret);
  }

  /** And it goes on finding them there whatever it does below its frame, however often it faults: after every list of
      actions the frame still tells the same fault. */
  lemma FaultTold(m: Mem, r: Regs, ret: int, va: int, err: int, acts: Acts)
    requires r.Ok() && Fits(r.esp) && IsWord(va) && IsWord(err) && Behaved(Entry(r), acts, FrameAt(r.esp))
    ensures var f := FrameAt(r.esp);
            var o := Exec(CallHandler(Push(m, r, va, err).m, f, ret), Entry(r), ret, acts);
            o.Done? && Tells(o.m, f, va, err) && Holds(o.m, f, r)
  {
    var f := FrameAt(r.esp);
    EntryOk(r);
    hide *;
    EntryKeeps(m, r, ret, va, err);
    var n := CallHandler(Push(m, r, va, err).m, f, ret);
    HandlerKeeps(n, Entry(r), ret, acts, f);
    var m2 := Exec(n, Entry(r), ret, acts).m;
    SafeFacts(acts, f);
    FrameKept(n, m2, r, va, err, acts, f);
  }

  lemma FrameKept(n: Mem, m2: Mem, r: Regs, va: int, err: int, acts: Acts, f: int)
    requires EXSTK <= f && f + FRAME <= UXSTACKTOP && Holds(n, f, r) && Tells(n, f, va, err)
    requires forall b | Safe(acts, f, b) :: Get(m2, b) == Get(n, b)
    ensures Holds(m2, f, r) && Tells(m2, f, va, err)
  {
    hide Get;
    hide Holds;
    hide Tells;
    SafeFacts(acts, f);
    hide Safe;
    assert forall b | f <= b < f + FRAME :: Get(m2, b) == Get(n, b);
    HoldsKept(n, m2, f, r);
    TellsKept(n, m2, f, va, err);
  }

  /** Whatever the handlers do below, a fault is followed by the very state it happened in: general registers, flags,
      stack pointer and program counter. The word below the trap-time stack pointer holds the return address; on the
      exception stack nothing from the trap-time stack pointer up has changed, and elsewhere only what some handler
      stored. */
  lemma {:induction false} FaultRestores(m: Mem, r: Regs, ret: int, va: int, err: int, body: Acts)
    requires r.Ok() && Clear(FrameAt(r.esp), r.esp) && Fits(r.esp) && Behaved(Entry(r), body, FrameAt(r.esp))
    ensures TakeFault(m, r, ret, va, err, body).Done?
    ensures TakeFault(m, r, ret, va, err, body).r == r
    ensures var m', w := TakeFault(m, r, ret, va, err, body).m, Wrap(r.esp - 4);
            && Load(m', w) == r.eip
            && (OnExStack(r.esp) ==> w == FrameAt(r.esp) + FRAME)
            && (forall b | Safe(body, UXSTACKTOP, b) && !(w <= b < w + 4) :: Get(m', b) == Get(m, b))
            && (OnExStack(r.esp) ==> forall b | r.esp <= b < UXSTACKTOP :: Get(m', b) == Get(m, b))
    decreases body, 2
  {
    var f, w := FrameAt(r.esp), Wrap(r.esp - 4);
    assert OnExStack(r.esp) ==> w == r.esp - 4 == f + FRAME;
    hide Wrap;
    hide Load;
    hide Get;
    hide Holds;
    hide UnwindMem;
    hide UnwindRegs;
    hide TakeFault;
    var m2 := FrameSurvives(m, r, ret, va, err, body);
    UnwindExact(m2, f, r);
  }

  lemma EntryOk(r: Regs)
    requires r.Ok() && Fits(r.esp)
    ensures var f := FrameAt(r.esp);
            && Entry(r).Ok() && Entry(r).esp == f - 8 >= EXSTK && f + FRAME <= UXSTACKTOP
            && (OnExStack(r.esp) ==> f + FRAME == r.esp - 4)
  {
  }

  lemma TakeFaultDone(m: Mem, r: Regs, ret: int, va: int, err: int, body: Acts, n: Mem, m2: Mem)
    requires Push(m, r, va, err).Pushed? && Push(m, r, va, err).f == FrameAt(r.esp)
    requires n == CallHandler(Push(m, r, va, err).m, FrameAt(r.esp), ret)
    requires Exec(n, Entry(r), ret, body).Done? && m2 == Exec(n, Entry(r), ret, body).m
    ensures TakeFault(m, r, ret, va, err, body) == Done(UnwindMem(m2, FrameAt(r.esp)), UnwindRegs(m2, FrameAt(r.esp)))
  {
    hide Exec;
    hide Push;
    hide CallHandler;
    hide UnwindMem;
    hide UnwindRegs;
  }

  // When the handler returns, its frame is intact.
  lemma {:induction false} FrameSurvives(m: Mem, r: Regs, ret: int, va: int, err: int, body: Acts) returns (m2: Mem)
    requires r.Ok() && Fits(r.esp) && Behaved(Entry(r), body, FrameAt(r.esp))
    ensures var f := FrameAt(r.esp);
            && TakeFault(m, r, ret, va, err, body) == Done(UnwindMem(m2, f), UnwindRegs(m2, f))
            && Holds(m2, f, r) && EXSTK <= f - 8 && f + FRAME <= UXSTACKTOP
            && (forall b | Safe(body, UXSTACKTOP, b) :: Get(m2, b) == Get(m, b))
            && (OnExStack(r.esp) ==> forall b | r.esp <= b < UXSTACKTOP :: Get(m2, b) == Get(m, b))
    decreases body, 1
  {
    var f := FrameAt(r.esp);
    EntryOk(r);
    hide *;
    EntryKeeps(m, r, ret, va, err);
    var n := CallHandler(Push(m, r, va, err).m, f, ret);
    HandlerKeeps(n, Entry(r), ret, body, f);
    m2 := Exec(n, Entry(r), ret, body).m;
    TakeFaultDone(m, r, ret, va, err, body, n, m2);
    SafeFacts(body, f);
    FrameBytes(m, n, m2, r, body, f);
    HoldsKept(n, m2, f, r);
  }

  // Byte by byte, over the two stretches.
  lemma FrameBytes(m: Mem, n: Mem, m2: Mem, r: Regs, body: Acts, f: int)
    requires EXSTK <= f - 8 && f + FRAME <= UXSTACKTOP && (OnExStack(r.esp) ==> f + FRAME == r.esp - 4)
    requires forall b | !(f - 8 <= b < f + FRAME) && !(OnExStack(r.esp) && r.esp - 4 <= b < r.esp) ::
             Get(n, b) == Get(m, b)
    requires forall b | Safe(body, f, b) :: Get(m2, b) == Get(n, b)
    ensures forall b | f <= b < f + FRAME :: Get(m2, b) == Get(n, b)
    ensures forall b | Safe(body, UXSTACKTOP, b) :: Get(m2, b) == Get(m, b)
    ensures OnExStack(r.esp) ==> forall b | r.esp <= b < UXSTACKTOP :: Get(m2, b) == Get(m, b)
  {
    hide Get;
    SafeFacts(body, f);
    hide Safe;
  }

  lemma SafeFacts(acts: Acts, f: int)
    requires EXSTK <= f < UXSTACKTOP
    ensures forall b | f <= b < UXSTACKTOP :: Safe(acts, f, b)
    ensures forall b | Safe(acts, UXSTACKTOP, b) :: Safe(acts, f, b) && !(EXSTK <= b < UXSTACKTOP)
  {
  }

  lemma {:induction false} HandlerKeeps(m: Mem, r: Regs, ret: int, acts: Acts, f: int)
    requires r.Ok() && EXSTK <= r.esp <= f <= EXSTK_TOP && Behaved(r, acts, f)
    ensures Exec(m, r, ret, acts).Done?
    ensures forall b | Safe(acts, f, b) :: Get(Exec(m, r, ret, acts).m, b) == Get(m, b)
    decreases acts, 0
  {
    match acts {
      case Nil =>
      case Cons(Poke(a, x), t) =>
        HandlerKeeps(m[a := x], r, ret, t, f);
        forall b | Safe(acts, f, b)
          ensures Safe(t, f, b) && Get(m[a := x], b) == Get(m, b)
        {
        }
      case Cons(Compute(r'), t) =>
        HandlerKeeps(m, r', ret, t, f);
        assert forall b | Safe(acts, f, b) :: Safe(t, f, b);
      case Cons(Fault(va, err, body), t) =>
        ClearIff(r.esp);
        FaultRestores(m, r, ret, va, err, body);
        var m' := TakeFault(m, r, ret, va, err, body).m;
        HandlerKeeps(m', r, ret, t, f);
        forall b | Safe(acts, f, b)
          ensures Safe(t, f, b) && Get(m', b) == Get(m, b)
        {
          assert f <= b < UXSTACKTOP || Safe(body, UXSTACKTOP, b);
        }
    }
  }
}
