/** TPs/Sched/lib/fork.c: copy-on-write fork at the granularity of reads of uvpt, system calls and words of memmove.
    Any live environment may take the next step. Page tables are the flat maps that the kernel calls are proved to
    maintain. */
module Cow {
  import opened Mmu

  const WORDS: nat := 1024
  const PFTEMP_PN: nat := PFTEMP / PGSIZE
  const XSTACK_PN: nat := UXSTACKTOP / PGSIZE - 1

  type Page = p: seq<int> | |p| == 1024 witness Zero()
  function Zero(): seq<int> { seq(1024, i => 0) }

  datatype Slot = Slot(env: nat, pn: nat)
  datatype Pte = Pte(frame: nat, w: bool, cow: bool)

  /** How far an environment is in fork(): at page pn of the loop; in duppage(pn), with the PTE_W and PTE_COW bits it
      has read from uvpt; between its two calls; at sys_env_set_pgfault_upcall; or at sys_env_set_status. `wasW` is
      PTE_W at the time of the first call. */
  datatype Fork =
    | NoFork
    | Loop(child: nat, pn: nat)
    | Seen(child: nat, pn: nat, w: bool, cow: bool)
    | Mid(child: nat, pn: nat, wasW: bool)
    | Upcall(child: nat)
    | Last(child: nat)

  /** How far it is in pgfault(): nothing done yet, k words copied to PFTEMP, PFTEMP's page mapped at the address. */
  datatype Fault = NoFault | Trapped(pn: nat) | Copying(pn: nat, k: nat) | Swapped(pn: nat)

  function ForkAt(fork: map<nat, Fork>, e: nat): Fork { if e in fork then fork[e] else NoFork }

  /** Page tables and pages, where environments are in fork and pgfault, which are RUNNABLE or running, and which have
      set env_pgfault_upcall. */
  datatype State = State(pt: map<Slot, Pte>, mem: map<nat, Page>, fork: map<nat, Fork>, fault: map<nat, Fault>,
                         live: set<nat>, up: set<nat>) {
    function ForkOf(e: nat): Fork { ForkAt(fork, e) }
    function FaultOf(e: nat): Fault { if e in fault then fault[e] else NoFault }
    // A page no table names: what page_alloc may return.
    predicate Free(f: nat) { forall a | a in pt :: pt[a].frame != f }
  }

  datatype Action =
    | Write(e: nat, pn: nat, off: nat, v: int)
    | Trap(e: nat, pn: nat)
    | TempAlloc(e: nat, f: nat)
    | TempCopy(e: nat)
    | TempMap(e: nat)
    | TempUnmap(e: nat)
    | Exofork(e: nat, c: nat)
    | Look(e: nat)
    | MapChild(e: nat)
    | DupEnd(e: nat)
    | ChildStack(e: nat, f: nat)
    | SetUpcall(e: nat)
    | Start(e: nat)
    | Handle(e: nat)
    | Kill(e: nat, pn: nat)
    | PageAlloc(e: nat, pn: nat, f: nat, w: bool)
    | PageUnmap(e: nat, pn: nat)
    | Exit(e: nat)

  // --- the steps ---

  predicate Running(s: State, e: nat) { e in s.live && s.FaultOf(e).NoFault? }
  predicate Idle(s: State, e: nat) { Running(s, e) && s.ForkOf(e).NoFork? }

  /** The kernel can hand e its page faults: there is an upcall, and the exception stack passes user_mem_assert. */
  predicate Deliverable(s: State, e: nat) {
    e in s.up && Slot(e, XSTACK_PN) in s.pt && s.pt[Slot(e, XSTACK_PN)].w
  }

  predicate Enabled(s: State, a: Action) {
    match a
    // a store through a writable mapping; the handler itself stores on its exception stack only
    case Write(e, pn, off, v) =>
      && e in s.live && Slot(e, pn) in s.pt && s.pt[Slot(e, pn)].w && s.pt[Slot(e, pn)].frame in s.mem
      && off < WORDS && pn != PFTEMP_PN && (s.FaultOf(e).NoFault? || pn == XSTACK_PN)
    // a store through a mapping without PTE_W
    case Trap(e, pn) =>
      && Running(s, e) && Slot(e, pn) in s.pt && !s.pt[Slot(e, pn)].w && pn != PFTEMP_PN && pn != XSTACK_PN
      && Deliverable(s, e)
    // the same, when the fault cannot be handed out: page_fault_handler destroys the environment
    case Kill(e, pn) => Idle(s, e) && Slot(e, pn) in s.pt && !s.pt[Slot(e, pn)].w && !Deliverable(s, e)
    // sys_env_set_pgfault_upcall in set_pgfault_handler
    case Handle(e) => Idle(s, e)
    case TempAlloc(e, f) => e in s.live && s.FaultOf(e).Trapped? && s.Free(f)
    case TempCopy(e) =>
      && e in s.live && s.FaultOf(e).Copying? && s.FaultOf(e).k < WORDS
      && Slot(e, s.FaultOf(e).pn) in s.pt && s.pt[Slot(e, s.FaultOf(e).pn)].frame in s.mem
      && Slot(e, PFTEMP_PN) in s.pt && s.pt[Slot(e, PFTEMP_PN)].frame in s.mem
    case TempMap(e) =>
      e in s.live && s.FaultOf(e).Copying? && s.FaultOf(e).k == WORDS && Slot(e, PFTEMP_PN) in s.pt
    case TempUnmap(e) => e in s.live && s.FaultOf(e).Swapped?
    case Exofork(e, c) =>
      && Idle(s, e) && c !in s.live && s.ForkOf(c).NoFork? && s.FaultOf(c).NoFault?
      && (forall a | a in s.pt :: a.env != c)
      && (forall e' | e' in s.live && !s.ForkOf(e').NoFork? :: s.ForkOf(e').child != c)
    case Look(e) => Running(s, e) && s.ForkOf(e).Loop? && s.ForkOf(e).pn < NUPN
    case MapChild(e) => Running(s, e) && s.ForkOf(e).Seen? && Slot(e, s.ForkOf(e).pn) in s.pt
    case DupEnd(e) => Running(s, e) && s.ForkOf(e).Mid? && Slot(e, s.ForkOf(e).pn) in s.pt
    case ChildStack(e, f) => Running(s, e) && s.ForkOf(e).Loop? && s.ForkOf(e).pn == NUPN && s.Free(f)
    case SetUpcall(e) => Running(s, e) && s.ForkOf(e).Upcall?
    case Start(e) => Running(s, e) && s.ForkOf(e).Last?
    case PageAlloc(e, pn, f, w) => Idle(s, e) && s.Free(f) && pn < NUPN && pn != PFTEMP_PN
    case PageUnmap(e, pn) => Idle(s, e) && pn < NUPN && pn != PFTEMP_PN
    case Exit(e) => Idle(s, e)
  }

  function Store(s: State, e: nat, pn: nat, off: nat, v: int): State
    requires Enabled(s, Write(e, pn, off, v))
  {
    var f := s.pt[Slot(e, pn)].frame;
    s.(mem := s.mem[f := s.mem[f][off := v]])
  }

  // sys_page_alloc(0, PFTEMP, PTE_P|PTE_U|PTE_W)
  function DoTempAlloc(s: State, e: nat, f: nat): State
    requires Enabled(s, TempAlloc(e, f))
  {
    s.(pt := s.pt[Slot(e, PFTEMP_PN) := Pte(f, true, false)], mem := s.mem[f := Zero()],
       fault := s.fault[e := Copying(s.FaultOf(e).pn, 0)])
  }

  // one word of memmove(PFTEMP, addr, PGSIZE)
  function DoTempCopy(s: State, e: nat): State
    requires Enabled(s, TempCopy(e))
  {
    var k, src, dst := s.FaultOf(e).k, s.pt[Slot(e, s.FaultOf(e).pn)].frame, s.pt[Slot(e, PFTEMP_PN)].frame;
    s.(mem := s.mem[dst := s.mem[dst][k := s.mem[src][k]]], fault := s.fault[e := Copying(s.FaultOf(e).pn, k + 1)])
  }

  // sys_page_map(0, PFTEMP, 0, addr, PTE_P|PTE_U|PTE_W)
  function DoTempMap(s: State, e: nat): State
    requires Enabled(s, TempMap(e))
  {
    var pn := s.FaultOf(e).pn;
    s.(pt := s.pt[Slot(e, pn) := Pte(s.pt[Slot(e, PFTEMP_PN)].frame, true, false)], fault := s.fault[e := Swapped(pn)])
  }

  // sys_page_unmap(0, PFTEMP)
  function DoTempUnmap(s: State, e: nat): State {
    s.(pt := s.pt - {Slot(e, PFTEMP_PN)}, fault := s.fault[e := NoFault])
  }

  function DoExofork(s: State, e: nat, c: nat): State { s.(fork := s.fork[e := Loop(c, 0)], up := s.up - {c}) }

  // fork's loop passes over the exception stack and over what is not mapped.
  predicate Skips(s: State, e: nat)
    requires Enabled(s, Look(e))
  {
    s.ForkOf(e).pn == XSTACK_PN || Slot(e, s.ForkOf(e).pn) !in s.pt
  }

  // The top of the loop, as far as duppage's reading of uvpt[pn].
  function DoLook(s: State, e: nat): State
    requires Enabled(s, Look(e))
  {
    var c, pn := s.ForkOf(e).child, s.ForkOf(e).pn;
    s.(fork := s.fork[e := if Skips(s, e) then Loop(c, pn + 1)
                           else Seen(c, pn, s.pt[Slot(e, pn)].w, s.pt[Slot(e, pn)].cow)])
  }

  // duppage takes the page for read-only: its only sys_page_map.
  function DoShare(s: State, e: nat): State
    requires Enabled(s, MapChild(e))
  {
    var c, pn := s.ForkOf(e).child, s.ForkOf(e).pn;
    s.(pt := s.pt[Slot(c, pn) := Pte(s.pt[Slot(e, pn)].frame, false, false)], fork := s.fork[e := Loop(c, pn + 1)])
  }

  // It takes it for writable or copy-on-write: the first of two.
  function DoDupFirst(s: State, e: nat): State
    requires Enabled(s, MapChild(e))
  {
    var c, pn, p := s.ForkOf(e).child, s.ForkOf(e).pn, s.pt[Slot(e, s.ForkOf(e).pn)];
    s.(pt := s.pt[Slot(c, pn) := Pte(p.frame, false, true)], fork := s.fork[e := Mid(c, pn, p.w)])
  }

  // The bits that were read decide, not those the entry has now.
  predicate SawReadOnly(s: State, e: nat)
    requires s.ForkOf(e).Seen?
  {
    !s.ForkOf(e).w && !s.ForkOf(e).cow
  }

  function DoMapChild(s: State, e: nat): State
    requires Enabled(s, MapChild(e))
  {
    if SawReadOnly(s, e) then DoShare(s, e) else DoDupFirst(s, e)
  }

  // The second sys_page_map of duppage: the page the parent has there now becomes copy-on-write.
  function DoDupEnd(s: State, e: nat): State
    requires Enabled(s, DupEnd(e))
  {
    var c, pn := s.ForkOf(e).child, s.ForkOf(e).pn;
    s.(pt := s.pt[Slot(e, pn) := Pte(s.pt[Slot(e, pn)].frame, false, true)], fork := s.fork[e := Loop(c, pn + 1)])
  }

  function DoChildStack(s: State, e: nat, f: nat): State
    requires Enabled(s, ChildStack(e, f))
  {
    var c := s.ForkOf(e).child;
    s.(pt := s.pt[Slot(c, XSTACK_PN) := Pte(f, true, false)], mem := s.mem[f := Zero()], fork := s.fork[e := Upcall(c)])
  }

  // sys_env_set_pgfault_upcall(envid, thisenv->env_pgfault_upcall)
  function DoSetUpcall(s: State, e: nat): State
    requires Enabled(s, SetUpcall(e))
  {
    var c := s.ForkOf(e).child;
    s.(up := if e in s.up then s.up + {c} else s.up - {c}, fork := s.fork[e := Last(c)])
  }

  function DoStart(s: State, e: nat): State
    requires Enabled(s, Start(e))
  {
    s.(live := s.live + {s.ForkOf(e).child}, fork := s.fork[e := NoFork])
  }

  function DoPageAlloc(s: State, e: nat, pn: nat, f: nat, w: bool): State {
    s.(pt := s.pt[Slot(e, pn) := Pte(f, w, false)], mem := s.mem[f := Zero()])
  }

  function DoPageUnmap(s: State, e: nat, pn: nat): State { s.(pt := s.pt - {Slot(e, pn)}) }

  function DoExit(s: State, e: nat): State {
    s.(pt := map a | a in s.pt && a.env != e :: s.pt[a], live := s.live - {e})
  }

  function Step(s: State, a: Action): State
    requires Enabled(s, a)
  {
    match a
    case Write(e, pn, off, v) => Store(s, e, pn, off, v)
    case Trap(e, pn) => s.(fault := s.fault[e := Trapped(pn)])
    case TempAlloc(e, f) => DoTempAlloc(s, e, f)
    case TempCopy(e) => DoTempCopy(s, e)
    case TempMap(e) => DoTempMap(s, e)
    case TempUnmap(e) => DoTempUnmap(s, e)
    case Exofork(e, c) => DoExofork(s, e, c)
    case Look(e) => DoLook(s, e)
    case MapChild(e) => DoMapChild(s, e)
    case DupEnd(e) => DoDupEnd(s, e)
    case ChildStack(e, f) => DoChildStack(s, e, f)
    case SetUpcall(e) => DoSetUpcall(s, e)
    case Start(e) => DoStart(s, e)
    case Handle(e) => s.(up := s.up + {e})
    case Kill(e, _) => DoExit(s, e)
    case PageAlloc(e, pn, f, w) => DoPageAlloc(s, e, pn, f, w)
    case PageUnmap(e, pn) => DoPageUnmap(s, e, pn)
    case Exit(e) => DoExit(s, e)
  }

  // --- the invariant ---

  // The only ways in which a writable page has a second mapping: between duppage's two calls the child's mapping beside
  // the parent's, and at the end of pgfault PFTEMP beside the faulting page.
  predicate MayShare(s: State, a: Slot, b: Slot)
    requires a in s.pt && b in s.pt
  {
    || (s.ForkOf(a.env) == Mid(b.env, a.pn, true) && b.pn == a.pn && !s.pt[b].w)
    || (s.FaultOf(a.env).Swapped? && b.env == a.env && a.pn == s.FaultOf(a.env).pn && b.pn == PFTEMP_PN)
    || (s.FaultOf(a.env).Swapped? && b.env == a.env && b.pn == s.FaultOf(a.env).pn && a.pn == PFTEMP_PN)
  }

  predicate Single(s: State) {
    forall a, b | a in s.pt && b in s.pt && a != b && s.pt[a].frame == s.pt[b].frame && s.pt[a].w :: MayShare(s, a, b)
  }

  predicate Backed(s: State) { forall a | a in s.pt :: s.pt[a].frame in s.mem && a.pn < NUPN }

  function Content(s: State, a: Slot): Page
    requires a in s.pt && s.pt[a].frame in s.mem
  {
    s.mem[s.pt[a].frame]
  }

  // fork() in progress: the child is not live and is nobody else's, its pages are those below pn.
  predicate ForkOk(s: State, e: nat)
    requires Backed(s)
  {
    var k := s.ForkOf(e);
    !k.NoFork? ==>
      && e in s.live && k.child !in s.live && s.ForkOf(k.child).NoFork? && s.FaultOf(k.child).NoFault?
      && (k.Loop? || k.Seen? ==> k.pn <= NUPN && forall a | a in s.pt && a.env == k.child :: a.pn < k.pn)
      && (k.Seen? ==> k.pn < NUPN && k.pn != XSTACK_PN && k.pn != PFTEMP_PN && Slot(e, k.pn) in s.pt)
      && (k.Mid? ==>
            && k.pn != XSTACK_PN && k.pn != PFTEMP_PN && Slot(e, k.pn) in s.pt && Slot(k.child, k.pn) in s.pt
            && (forall a | a in s.pt && a.env == k.child :: a.pn <= k.pn)
            && !s.pt[Slot(k.child, k.pn)].w
            && (k.wasW ==> s.pt[Slot(e, k.pn)].w && s.pt[Slot(e, k.pn)].frame == s.pt[Slot(k.child, k.pn)].frame))
  }

  ghost predicate OneParent(fork: map<nat, Fork>) {
    forall e, e' | !ForkAt(fork, e).NoFork? && !ForkAt(fork, e').NoFork? && e != e' ::
      ForkAt(fork, e).child != ForkAt(fork, e').child
  }

  predicate FaultOk(s: State, e: nat)
    requires Backed(s)
  {
    var t := Slot(e, PFTEMP_PN);
    match s.FaultOf(e)
    case NoFault => t !in s.pt
    case Trapped(pn) =>
      e in s.live && t !in s.pt && pn != PFTEMP_PN && pn != XSTACK_PN && Slot(e, pn) in s.pt && !s.pt[Slot(e, pn)].w
    case Copying(pn, k) =>
      && e in s.live && t in s.pt && s.pt[t].w && pn != PFTEMP_PN && pn != XSTACK_PN
      && Slot(e, pn) in s.pt && !s.pt[Slot(e, pn)].w
      && k <= WORDS && Content(s, t)[..k] == Content(s, Slot(e, pn))[..k]
    case Swapped(pn) =>
      && e in s.live && t in s.pt && pn != PFTEMP_PN && pn != XSTACK_PN && Slot(e, pn) in s.pt
      && s.pt[t].frame == s.pt[Slot(e, pn)].frame && s.pt[t].w && s.pt[Slot(e, pn)].w
  }

  ghost predicate Inv(s: State) {
    Backed(s) && Single(s) && OneParent(s.fork) && (forall e: nat :: ForkOk(s, e)) && (forall e: nat :: FaultOk(s, e))
  }

  // --- copying eagerly ---

  /** What a step means for a machine in which every address space has its own pages. */
  datatype Event =
    | Silent
    | Wrote(a: Slot, off: nat, v: int)
    | Copied(src: Slot, dst: Slot)
    | Zeroed(a: Slot)
    | Dropped(a: Slot)
    | Gone(e: nat)

  // The page e's duppage is about, copied to the child.
  function Copy(s: State, e: nat): Event
    requires s.ForkOf(e).Seen? || s.ForkOf(e).Mid?
  {
    Copied(Slot(e, s.ForkOf(e).pn), Slot(s.ForkOf(e).child, s.ForkOf(e).pn))
  }

  // Steps outside duppage.
  function Plain(s: State, a: Action): Event
    requires Enabled(s, a)
  {
    match a
    case Write(e, pn, off, v) => Wrote(Slot(e, pn), off, v)
    case ChildStack(e, _) => Zeroed(Slot(s.ForkOf(e).child, XSTACK_PN))
    case PageAlloc(e, pn, _, _) => Zeroed(Slot(e, pn))
    case PageUnmap(e, pn) => Dropped(Slot(e, pn))
    case Exit(e) => Gone(e)
    case Kill(e, _) => Gone(e)
    case _ => Silent
  }

  /** When duppage copies in effect: a page that is writable at the first call, when duppage returns; any other, at that
      call. */
  function InEffect(s: State, a: Action): Event
    requires Enabled(s, a)
  {
    match a
    case MapChild(e) => if SawReadOnly(s, e) || !s.pt[Slot(e, s.ForkOf(e).pn)].w then Copy(s, e) else Silent
    case DupEnd(e) => if s.ForkOf(e).wasW then Copy(s, e) else Silent
    case _ => Plain(s, a)
  }

  /** When it should: every page at the moment duppage returns. */
  function AtReturn(s: State, a: Action): Event
    requires Enabled(s, a)
  {
    match a
    case MapChild(e) => if SawReadOnly(s, e) then Copy(s, e) else Silent
    case DupEnd(e) => Copy(s, e)
    case _ => Plain(s, a)
  }

  /** The eager machine: one private page per address space and page number. */
  function Eager(v: map<Slot, Page>, ev: Event): map<Slot, Page> {
    match ev
    case Silent => v
    case Wrote(a, off, x) => if a in v && off < WORDS then v[a := v[a][off := x]] else v
    case Copied(src, dst) => if src in v then v[dst := v[src]] else v
    case Zeroed(a) => v[a := Zero()]
    case Dropped(a) => v - {a}
    case Gone(e) => map a | a in v && a.env != e :: v[a]
  }

  // Everything but PFTEMP, and the child's page of a duppage that has still to copy it.
  ghost predicate Visible(s: State, a: Slot) { a in s.pt && a.pn != PFTEMP_PN && !Pending(s.fork, a) }

  ghost predicate Pending(fork: map<nat, Fork>, a: Slot) { exists e: nat :: Waits(ForkAt(fork, e), a, true) }

  // A duppage between its calls on the child's page a.
  predicate Waits(k: Fork, a: Slot, wasW: bool) { k.Mid? && k.wasW == wasW && a == Slot(k.child, k.pn) }

  ghost predicate Reads(s: State, v: map<Slot, Page>)
    requires Backed(s)
  {
    forall a :: ReadsAt(s, v, a)
  }

  ghost predicate ReadsAt(s: State, v: map<Slot, Page>, a: Slot)
    requires Backed(s)
  {
    if Visible(s, a) then a in v && v[a] == Content(s, a) else a !in v
  }

  // --- the two exceptions ---

  // The page was read-only when duppage looked, and is writable when it makes its one call: the parent has stored to
  // it in between, and the handler, which turns nothing away, has given it a writable copy.
  predicate Stale(s: State, a: Action)
    requires Enabled(s, a)
  {
    a.MapChild? && SawReadOnly(s, a.e) && s.pt[Slot(a.e, s.ForkOf(a.e).pn)].w
  }

  // The parent stores to a page between duppage's two calls on it, and the page was not writable at the first.
  predicate Untimely(s: State, a: Action) {
    a.Write? && s.ForkOf(a.e).Mid? && s.ForkOf(a.e).pn == a.pn && !s.ForkOf(a.e).wasW
  }
}
