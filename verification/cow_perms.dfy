/** Who may write what: over whole runs of the copy-on-write machine every live environment has, at every page, the
    right it would have if fork copied rights with the pages, and the exception stack of a child stays writable. */
module CowPerms {
  import opened Mmu
  import opened Cow
  import opened CowSteps
  import opened CowRuns

  /** The right to write a page: at once, or after the copy that pgfault makes. */
  predicate May(p: Pte) { p.w || p.cow }

  // The eager machine's rights, one per address space and page number.
  type Rights = map<Slot, bool>

  /** What a step means for them. fork gives the child the parent's right to each page and a writable exception stack;
      sys_page_alloc gives what it is asked for; and a fault that pgfault has dealt with leaves the page writable. */
  function Grant(u: Rights, s: State, a: Action): Rights
    requires Enabled(s, a)
  {
    match InEffect(s, a)
    case Copied(src, dst) => if src in u then u[dst := u[src]] else u
    case Zeroed(x) => u[x := if a.PageAlloc? then a.w else true]
    case Dropped(x) => u - {x}
    case Gone(e) => map x | x in u && x.env != e :: u[x]
    case _ => if a.TempMap? then u[Slot(a.e, s.FaultOf(a.e).pn) := true] else u
  }

  ghost predicate Right(s: State, u: Rights) { forall a :: RightAt(s, u, a) }

  ghost predicate RightAt(s: State, u: Rights, a: Slot) {
    if Visible(s, a) then a in u && u[a] == May(s.pt[a]) else a !in u
  }

  // In the middle of duppage the parent has the right that duppage has read.
  predicate SeenOk(s: State, e: nat) {
    var k := s.ForkOf(e);
    && (k.Seen? && Slot(e, k.pn) in s.pt ==>
          (k.w || k.cow ==> May(s.pt[Slot(e, k.pn)])) && (!k.w && !k.cow ==> !s.pt[Slot(e, k.pn)].cow))
    && (k.Mid? && Slot(e, k.pn) in s.pt ==> May(s.pt[Slot(e, k.pn)]))
    && (k.Mid? && Slot(k.child, k.pn) in s.pt ==> May(s.pt[Slot(k.child, k.pn)]))
  }

  // --- one step ---

  // Steps that leave the page table and the visible pages as they are.
  lemma IdleRights(s: State, a: Action, u: Rights)
    requires Inv(s) && Right(s, u) && Enabled(s, a) && Inv(Step(s, a))
    requires a.Write? || a.Trap? || a.TempCopy? || a.Exofork? || a.Look? || a.Handle?
    ensures Right(Step(s, a), u) && Grant(u, s, a) == u
  {
    var t := Step(s, a);
    assert ForkOk(s, a.e) && FaultOk(s, a.e);
    forall x
      ensures RightAt(t, u, x)
    {
      assert RightAt(s, u, x);
      if a.Exofork? || a.Look? {
        SetPending(s.fork, a.e, t.fork[a.e], x);
      }
    }
  }

  lemma TempRights(s: State, a: Action, u: Rights)
    requires Inv(s) && Right(s, u) && Enabled(s, a) && (a.TempAlloc? || a.TempMap? || a.TempUnmap?) && Inv(Step(s, a))
    ensures Right(Step(s, a), Grant(u, s, a))
  {
    var t := Step(s, a);
    assert ForkOk(s, a.e) && FaultOk(s, a.e);
    forall x
      ensures RightAt(t, Grant(u, s, a), x)
    {
      assert RightAt(s, u, x);
      LiveNotPending(s, Slot(a.e, s.FaultOf(a.e).pn));
    }
  }

  lemma MapRights(s: State, e: nat, u: Rights)
    requires Inv(s) && Right(s, u) && Enabled(s, MapChild(e)) && !Stale(s, MapChild(e)) && Inv(DoMapChild(s, e))
    requires SeenOk(s, e)
    ensures Right(DoMapChild(s, e), Grant(u, s, MapChild(e)))
  {
    var t := DoMapChild(s, e);
    assert ForkOk(s, e) && FaultOk(s, e);
    var a1, a2 := Slot(e, s.ForkOf(e).pn), Slot(s.ForkOf(e).child, s.ForkOf(e).pn);
    ChildNotPending(s, e, a2);
    LiveNotPending(s, a1);
    assert RightAt(s, u, a1) && RightAt(s, u, a2);
    forall x
      ensures RightAt(t, Grant(u, s, MapChild(e)), x)
    {
      assert RightAt(s, u, x);
      SetPending(s.fork, e, t.fork[e], x);
    }
  }

  lemma DupEndRights(s: State, e: nat, u: Rights)
    requires Inv(s) && Right(s, u) && Enabled(s, DupEnd(e)) && Inv(DoDupEnd(s, e)) && SeenOk(s, e)
    ensures Right(DoDupEnd(s, e), Grant(u, s, DupEnd(e)))
  {
    var t := DoDupEnd(s, e);
    assert ForkOk(s, e) && FaultOk(s, e);
    var a1 := Slot(e, s.ForkOf(e).pn);
    LiveNotPending(s, a1);
    assert RightAt(s, u, a1);
    forall x
      ensures RightAt(t, Grant(u, s, DupEnd(e)), x)
    {
      assert RightAt(s, u, x);
      SetPending(s.fork, e, t.fork[e], x);
    }
  }

  lemma StackRights(s: State, a: Action, u: Rights)
    requires Inv(s) && Right(s, u) && Enabled(s, a) && (a.ChildStack? || a.SetUpcall? || a.Start?) && Inv(Step(s, a))
    ensures Right(Step(s, a), Grant(u, s, a))
  {
    var t := Step(s, a);
    assert ForkOk(s, a.e) && FaultOk(s, a.e);
    forall x
      ensures RightAt(t, Grant(u, s, a), x)
    {
      assert RightAt(s, u, x);
      if a.ChildStack? {
        ChildNotPending(s, a.e, Slot(s.ForkOf(a.e).child, XSTACK_PN));
      }
      SetPending(s.fork, a.e, t.fork[a.e], x);
    }
  }

  lemma PageAllocRights(s: State, a: Action, u: Rights)
    requires Inv(s) && Right(s, u) && Enabled(s, a) && a.PageAlloc? && Inv(Step(s, a))
    ensures Right(Step(s, a), Grant(u, s, a))
  {
    var t := Step(s, a);
    LiveNotPending(s, Slot(a.e, a.pn));
    forall x
      ensures RightAt(t, Grant(u, s, a), x)
    {
      assert RightAt(s, u, x);
    }
  }

  lemma DropRights(s: State, a: Action, u: Rights)
    requires Inv(s) && Right(s, u) && Enabled(s, a) && (a.PageUnmap? || a.Exit? || a.Kill?) && Inv(Step(s, a))
    ensures Right(Step(s, a), Grant(u, s, a))
  {
    var t := Step(s, a);
    forall x
      ensures RightAt(t, Grant(u, s, a), x)
    {
      assert RightAt(s, u, x);
    }
  }

  /** Every step but the stale call keeps every environment's rights equal to those of the eager machine. */
  lemma RightsKept(s: State, a: Action, u: Rights)
    requires Inv(s) && Right(s, u) && Enabled(s, a) && !Stale(s, a) && Inv(Step(s, a)) && SeenOk(s, a.e)
    ensures Right(Step(s, a), Grant(u, s, a))
  {
    hide Inv;
    hide Right;
    hide Grant;
    hide SeenOk;
    match a {
      case MapChild(e) => MapRights(s, e, u);
      case DupEnd(e) => DupEndRights(s, e, u);
      case TempAlloc(_, _) => TempRights(s, a, u);
      case TempMap(_) => TempRights(s, a, u);
      case TempUnmap(_) => TempRights(s, a, u);
      case ChildStack(_, _) => StackRights(s, a, u);
      case SetUpcall(_) => StackRights(s, a, u);
      case Start(_) => StackRights(s, a, u);
      case PageAlloc(_, _, _, _) => PageAllocRights(s, a, u);
      case PageUnmap(_, _) => DropRights(s, a, u);
      case Exit(_) => DropRights(s, a, u);
      case Kill(_, _) => DropRights(s, a, u);
      case _ => IdleRights(s, a, u);
    }
  }

  lemma SeenKept(s: State, a: Action, e: nat)
    requires Inv(s) && Enabled(s, a) && SeenOk(s, e) && !Stale(s, a)
    ensures SeenOk(Step(s, a), e)
  {
    hide Inv;
    hide SeenOk;
    if a.e == e {
      SeenOwn(s, a);
    } else {
      SeenOther(s, a, e);
    }
  }

  lemma SeenOwn(s: State, a: Action)
    requires Inv(s) && Enabled(s, a) && SeenOk(s, a.e) && !Stale(s, a)
    ensures SeenOk(Step(s, a), a.e)
  {
    assert ForkOk(s, a.e) && FaultOk(s, a.e);
  }

  lemma SeenOther(s: State, a: Action, e: nat)
    requires Inv(s) && Enabled(s, a) && SeenOk(s, e) && !Stale(s, a) && a.e != e
    ensures SeenOk(Step(s, a), e)
  {
    var k := s.ForkOf(e);
    assert ForkOk(s, e) && ForkOk(s, a.e);
    assert !k.NoFork? && !s.ForkOf(a.e).NoFork? ==> ForkAt(s.fork, e).child != ForkAt(s.fork, a.e).child;
    hide Inv;
    hide ForkOk;
    FarFork(s, a, e);
    if k.Seen? || k.Mid? {
      FarEntry(s, a, Slot(e, k.pn));
      FarEntry(s, a, Slot(k.child, k.pn));
    }
  }

  // A step touches the entries of its environment and of that one's child.
  lemma FarEntry(s: State, a: Action, x: Slot)
    requires Enabled(s, a) && x.env != a.e && (!s.ForkOf(a.e).NoFork? ==> x.env != s.ForkOf(a.e).child)
    ensures x in Step(s, a).pt <==> x in s.pt
    ensures x in s.pt ==> Step(s, a).pt[x] == s.pt[x]
  {
  }

  lemma FarFork(s: State, a: Action, e: nat)
    requires Enabled(s, a) && e != a.e
    ensures Step(s, a).ForkOf(e) == s.ForkOf(e)
  {
  }

  // --- exception stacks ---

  // c has a writable exception stack of its own.
  predicate StackOk(s: State, c: nat) {
    Slot(c, XSTACK_PN) in s.pt && s.pt[Slot(c, XSTACK_PN)].w && !s.pt[Slot(c, XSTACK_PN)].cow
  }

  // fork never makes an exception stack copy-on-write.
  predicate StacksPlain(s: State) { forall a | a in s.pt && a.pn == XSTACK_PN :: !s.pt[a].cow }

  // c can be given its page faults.
  predicate Served(s: State, c: nat) { c in s.up && StackOk(s, c) }

  // Towards its end a fork has given its child an exception stack, and then the upcall, if it has one itself.
  predicate LastOk(s: State, e: nat) {
    var k := s.ForkOf(e);
    (k.Upcall? || k.Last? ==> StackOk(s, k.child)) && (k.Last? && e in s.up ==> k.child in s.up)
  }

  lemma PlainKept(s: State, a: Action)
    requires Inv(s) && Enabled(s, a) && StacksPlain(s)
    ensures StacksPlain(Step(s, a))
  {
    assert ForkOk(s, a.e) && FaultOk(s, a.e);
    hide Single;
    hide OneParent;
  }

  // The environments that a fork with a handler has made live and that have not given up their exception stacks since.
  function Launched(s: State, a: Action, on: set<nat>): set<nat> {
    match a
    case Start(e) => if s.ForkOf(e).Last? && e in s.up then on + {s.ForkOf(e).child} else on
    case PageAlloc(e, pn, _, _) => if pn == XSTACK_PN then on - {e} else on
    case PageUnmap(e, pn) => if pn == XSTACK_PN then on - {e} else on
    case Exit(e) => on - {e}
    case _ => on
  }

  lemma StackKept(s: State, a: Action, c: nat)
    requires Inv(s) && Enabled(s, a) && StackOk(s, c)
    requires !((a.PageAlloc? || a.PageUnmap?) && a.e == c && a.pn == XSTACK_PN) && !((a.Exit? || a.Kill?) && a.e == c)
    ensures StackOk(Step(s, a), c)
  {
    assert ForkOk(s, a.e) && FaultOk(s, a.e);
  }

  // An upcall is lost only when the slot is given out again, or when the parent that is setting it has none.
  lemma UpKept(s: State, a: Action, c: nat)
    requires Enabled(s, a) && c in s.up
    requires !(a.Exofork? && a.c == c) && !(a.SetUpcall? && s.ForkOf(a.e).child == c && a.e !in s.up)
    ensures c in Step(s, a).up
  {
  }

  lemma LastOther(s: State, a: Action, e: nat)
    requires Inv(s) && Enabled(s, a) && LastOk(s, e) && a.e != e
    ensures LastOk(Step(s, a), e)
  {
    var k := s.ForkOf(e);
    assert ForkOk(s, e) && ForkOk(s, a.e);
    assert !k.NoFork? && !s.ForkOf(a.e).NoFork? ==> ForkAt(s.fork, e).child != ForkAt(s.fork, a.e).child;
    FarFork(s, a, e);
    if k.Upcall? || k.Last? {
      StackKept(s, a, k.child);
      if k.Last? && e in Step(s, a).up {
        UpOnly(s, a, e);
        UpKept(s, a, k.child);
      }
    }
  }

  // A live environment gets an upcall only by its own call.
  lemma UpOnly(s: State, a: Action, e: nat)
    requires Inv(s) && Enabled(s, a) && e in s.live && a.e != e && e in Step(s, a).up
    ensures e in s.up
  {
    assert ForkOk(s, a.e);
  }

  lemma LastOwn(s: State, a: Action)
    requires Inv(s) && Enabled(s, a) && LastOk(s, a.e)
    ensures LastOk(Step(s, a), a.e)
  {
    var k := s.ForkOf(a.e);
    assert !k.NoFork? ==> k.child != a.e by {
      assert ForkOk(s, a.e);
    }
    ForkMoves(s, a);
    if k.Upcall? || k.Last? {
      StackKept(s, a, k.child);
      hide Inv;
      if k.Last? && a.e in s.up {
        UpKept(s, a, k.child);
      }
    }
  }

  // How a fork comes to its last two calls.
  lemma ForkMoves(s: State, a: Action)
    requires Enabled(s, a)
    ensures var k, k' := s.ForkOf(a.e), Step(s, a).ForkOf(a.e);
            && (k'.Upcall? && k' != k ==> StackOk(Step(s, a), k'.child))
            && (k'.Last? && k' != k ==>
                  && k.Upcall? && k'.child == k.child
                  && (a.e in Step(s, a).up ==> k'.child in Step(s, a).up || k'.child == a.e))
            && (k.Last? && k' == k ==> (a.e in Step(s, a).up ==> a.e in s.up) && !a.Exofork? && !a.SetUpcall?)
  {
  }

  // --- runs ---

  // What every state of a run keeps beside the machine's invariant.
  ghost predicate Kept(s: State, u: Rights, on: set<nat>) {
    && Right(s, u) && (forall e: nat :: SeenOk(s, e)) && (forall e: nat :: LastOk(s, e))
    && (forall c: nat | c in on :: Served(s, c) && c in s.live)
  }

  lemma StepRights(s: State, a: Action, v: map<Slot, Page>, u: Rights, on: set<nat>)
    requires Inv(s) && Reads(s, v) && Enabled(s, a) && !Stale(s, a) && Kept(s, u, on)
    ensures Kept(Step(s, a), Grant(u, s, a), Launched(s, a, on))
  {
    StepKeeps(s, a, v);
    hide Inv;
    hide Reads;
    hide Right;
    hide Grant;
    hide SeenOk;
    hide LastOk;
    hide Served;
    RightsKept(s, a, u);
    forall e: nat
      ensures SeenOk(Step(s, a), e) && LastOk(Step(s, a), e)
    {
      SeenKept(s, a, e);
      if a.e == e {
        LastOwn(s, a);
      } else {
        LastOther(s, a, e);
      }
    }
    forall c: nat | c in Launched(s, a, on)
      ensures Served(Step(s, a), c) && c in Step(s, a).live
    {
      ServedKept(s, a, on, c);
    }
  }

  lemma ServedKept(s: State, a: Action, on: set<nat>, c: nat)
    requires Inv(s) && Enabled(s, a) && c in Launched(s, a, on) && (c in on ==> Served(s, c) && c in s.live)
    requires LastOk(s, a.e)
    ensures Served(Step(s, a), c) && c in Step(s, a).live
  {
    assert ForkOk(s, a.e);
    if c !in on {
      assert a.Start? && c == s.ForkOf(a.e).child && s.ForkOf(a.e).Last? && Served(s, c);
    }
    StackKept(s, a, c);
    UpKept(s, a, c);
  }

  // The eager machine's rights after a run, and the environments launched in it.
  function GrantRun(u: Rights, s: State, acts: seq<Action>): Rights
    requires Run(s, acts)
    decreases |acts|
  {
    if acts == [] then u else GrantRun(Grant(u, s, acts[0]), Step(s, acts[0]), acts[1..])
  }

  function LaunchedIn(s: State, acts: seq<Action>, on: set<nat>): set<nat>
    requires Run(s, acts)
    decreases |acts|
  {
    if acts == [] then on else LaunchedIn(Step(s, acts[0]), acts[1..], Launched(s, acts[0], on))
  }

  lemma {:induction false} RunRights(s: State, acts: seq<Action>, v: map<Slot, Page>, u: Rights, on: set<nat>)
    requires Inv(s) && Reads(s, v) && Run(s, acts) && Kept(s, u, on)
    ensures Kept(After(s, acts), GrantRun(u, s, acts), LaunchedIn(s, acts, on))
    ensures StacksPlain(s) ==> StacksPlain(After(s, acts))
    decreases |acts|
  {
    hide Inv;
    hide Reads;
    hide Enabled;
    hide Stale;
    hide Kept;
    hide StacksPlain;
    hide Grant;
    hide Launched;
    if acts != [] {
      var a := acts[0];
      StepKeeps(s, a, v);
      StepRights(s, a, v, u, on);
      if StacksPlain(s) {
        PlainKept(s, a);
      }
      RunRights(Step(s, a), acts[1..], Eager(v, InEffect(s, a)), Grant(u, s, a), Launched(s, a, on));
    }
  }

  function Owned(s: State): Rights { map a | a in s.pt :: May(s.pt[a]) }

  lemma BeginRights(s: State)
    requires Begin(s)
    ensures Kept(s, Owned(s), {})
  {
    assert forall e: nat :: s.ForkOf(e) == ForkAt(s.fork, e) == NoFork;
    forall a
      ensures RightAt(s, Owned(s), a)
    {
    }
  }

  // What the live environments may do in t is what u says, at the exception stack at once.
  ghost predicate Allowed(t: State, u: Rights, plain: bool) {
    forall e, pn: nat | e in t.live && pn != PFTEMP_PN ::
      (Slot(e, pn) in t.pt <==> Slot(e, pn) in u) &&
      (Slot(e, pn) in u ==>
         u[Slot(e, pn)] == May(t.pt[Slot(e, pn)]) && (plain && pn == XSTACK_PN ==> !t.pt[Slot(e, pn)].cow))
  }

  /** After every run each live environment may write exactly the pages it could write if every fork had copied the
      rights with the pages; and every child started by a fork that has a handler can be given its page faults, and is
      not destroyed for one, until it replaces its exception stack or gives it up. */
  lemma RightsCopied(s: State, acts: seq<Action>)
    requires Begin(s) && Run(s, acts)
    ensures Allowed(After(s, acts), GrantRun(Owned(s), s, acts), StacksPlain(s))
    ensures forall c: nat | c in LaunchedIn(s, acts, {}) ::
              Served(After(s, acts), c) && forall pn: nat :: !Enabled(After(s, acts), Kill(c, pn))
  {
    BeginInv(s);
    BeginRights(s);
    hide Inv;
    hide Begin;
    hide Reads;
    hide Kept;
    hide Allowed;
    hide Served;
    hide Enabled;
    hide Run;
    hide After;
    RunKeeps(s, acts, Private(s));
    RunRights(s, acts, Private(s), Owned(s), {});
    var t, u := After(s, acts), GrantRun(Owned(s), s, acts);
    AllAllowed(t, u, StacksPlain(s), LaunchedIn(s, acts, {}));
    AllServed(t, u, LaunchedIn(s, acts, {}));
  }

  lemma AllServed(t: State, u: Rights, on: set<nat>)
    requires Kept(t, u, on)
    ensures forall c: nat | c in on :: Served(t, c) && forall pn: nat :: !Enabled(t, Kill(c, pn))
  {
    hide Right;
    hide SeenOk;
    hide LastOk;
  }

  lemma AllAllowed(t: State, u: Rights, plain: bool, on: set<nat>)
    requires Inv(t) && Kept(t, u, on) && (plain ==> StacksPlain(t))
    ensures Allowed(t, u, plain)
  {
    forall e, pn: nat | e in t.live && pn != PFTEMP_PN
      ensures Slot(e, pn) in t.pt <==> Slot(e, pn) in u
      ensures Slot(e, pn) in u ==> u[Slot(e, pn)] == May(t.pt[Slot(e, pn)])
      ensures Slot(e, pn) in u && plain && pn == XSTACK_PN ==> !t.pt[Slot(e, pn)].cow
    {
      LiveRight(t, u, Slot(e, pn));
    }
  }

  // Every visible page with the right to it.
  ghost function RightsOf(s: State): (u: Rights)
    ensures Right(s, u)
  {
    var u := map a | a in s.pt && Visible(s, a) :: May(s.pt[a]);
    assert forall a :: RightAt(s, u, a);
    u
  }

  lemma LiveRight(t: State, u: Rights, a: Slot)
    requires Inv(t) && Right(t, u) && a.env in t.live && a.pn != PFTEMP_PN
    ensures a in t.pt <==> a in u
    ensures a in u ==> u[a] == May(t.pt[a])
  {
    assert RightAt(t, u, a);
    LiveNotPending(t, a);
  }
}
