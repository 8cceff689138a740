/** Copy-on-write fork refines eager copying over whole interleaved runs. */
module CowRuns {
  import opened Mmu
  import opened Cow
  import opened CowSteps

  lemma MapChildKeeps(s: State, e: nat, v: map<Slot, Page>)
    requires Inv(s) && Reads(s, v) && Enabled(s, MapChild(e)) && !Stale(s, MapChild(e))
    ensures Inv(DoMapChild(s, e)) && Reads(DoMapChild(s, e), Eager(v, InEffect(s, MapChild(e))))
  {
    hide Inv;
    hide Reads;
    if SawReadOnly(s, e) {
      ShareInv(s, e);
      ShareReads(s, e, v);
    } else {
      DupFirstInv(s, e);
      DupFirstReads(s, e, v);
    }
  }

  // Stores, and the steps of pgfault.
  predicate InFault(a: Action) { a.Write? || a.Trap? || a.TempAlloc? || a.TempCopy? || a.TempMap? || a.TempUnmap? }

  lemma FaultKeeps(s: State, a: Action, v: map<Slot, Page>)
    requires Inv(s) && Reads(s, v) && Enabled(s, a) && !Stale(s, a) && InFault(a)
    ensures Inv(Step(s, a)) && Reads(Step(s, a), Eager(v, InEffect(s, a)))
  {
    hide Inv;
    hide Reads;
    hide Enabled;
    match a {
      case Write(e, pn, off, x) =>
        StoreInv(s, e, pn, off, x);
        StoreReads(s, e, pn, off, x, v);
      case Trap(e, pn) =>
        TrapInv(s, e, pn);
        TrapReads(s, e, pn, v);
      case TempAlloc(e, f) =>
        TempAllocInv(s, e, f);
        TempAllocReads(s, e, f, v);
      case TempCopy(e) =>
        TempCopyInv(s, e);
        TempCopyReads(s, e, v);
      case TempMap(e) =>
        TempMapInv(s, e);
        TempMapReads(s, e, v);
      case TempUnmap(e) =>
        TempUnmapInv(s, e);
        TempUnmapReads(s, e, v);
    }
  }

  lemma KillIsExit(s: State, e: nat, pn: nat)
    requires Enabled(s, Kill(e, pn))
    ensures Enabled(s, Exit(e)) && Step(s, Kill(e, pn)) == DoExit(s, e)
  {
  }

  // The system calls outside fork, and the end of an environment.
  predicate Outside(a: Action) { a.PageAlloc? || a.PageUnmap? || a.Exit? || a.Kill? || a.Handle? }

  lemma OutsideKeeps(s: State, a: Action, v: map<Slot, Page>)
    requires Inv(s) && Reads(s, v) && Enabled(s, a) && Outside(a)
    ensures Inv(Step(s, a)) && Reads(Step(s, a), Eager(v, InEffect(s, a)))
  {
    hide Inv;
    hide Reads;
    hide Enabled;
    match a {
      case Handle(e) => HandleKeeps(s, e, v);
      case Kill(e, pn) =>
        KillIsExit(s, e, pn);
        ExitInv(s, e);
        ExitReads(s, e, v);
      case PageAlloc(e, pn, f, w) =>
        PageAllocInv(s, e, pn, f, w);
        PageAllocReads(s, e, pn, f, w, v);
      case PageUnmap(e, pn) =>
        PageUnmapInv(s, e, pn);
        PageUnmapReads(s, e, pn, v);
      case Exit(e) =>
        ExitInv(s, e);
        ExitReads(s, e, v);
    }
  }

  // The steps of fork.
  lemma ForkKeeps(s: State, a: Action, v: map<Slot, Page>)
    requires Inv(s) && Reads(s, v) && Enabled(s, a) && !Stale(s, a) && !InFault(a) && !Outside(a)
    ensures Inv(Step(s, a)) && Reads(Step(s, a), Eager(v, InEffect(s, a)))
  {
    hide Inv;
    hide Reads;
    hide Enabled;
    match a {
      case Exofork(e, c) =>
        ExoforkInv(s, e, c);
        ExoforkReads(s, e, c, v);
      case Look(e) =>
        LookInv(s, e);
        LookReads(s, e, v);
      case MapChild(e) => MapChildKeeps(s, e, v);
      case DupEnd(e) =>
        DupEndInv(s, e);
        DupEndReads(s, e, v);
      case ChildStack(e, f) =>
        ChildStackInv(s, e, f);
        ChildStackReads(s, e, f, v);
      case SetUpcall(e) =>
        SetUpcallInv(s, e);
        SetUpcallReads(s, e, v);
      case Start(e) =>
        StartInv(s, e);
        StartReads(s, e, v);
    }
  }

  /** Whatever live environment goes next, with one exception (see StaleIff), the invariant is kept and every
      environment goes on reading what it would read from private pages. */
  lemma StepKeeps(s: State, a: Action, v: map<Slot, Page>)
    requires Inv(s) && Reads(s, v) && Enabled(s, a) && !Stale(s, a)
    ensures Inv(Step(s, a)) && Reads(Step(s, a), Eager(v, InEffect(s, a)))
  {
    hide *;
    if InFault(a) {
      FaultKeeps(s, a, v);
    } else if Outside(a) {
      OutsideKeeps(s, a, v);
    } else {
      ForkKeeps(s, a, v);
    }
  }

  // --- runs ---

  predicate Run(s: State, acts: seq<Action>)
    decreases |acts|
  {
    acts == [] || (Enabled(s, acts[0]) && !Stale(s, acts[0]) && Run(Step(s, acts[0]), acts[1..]))
  }

  function After(s: State, acts: seq<Action>): State
    requires Run(s, acts)
    decreases |acts|
  {
    if acts == [] then s else After(Step(s, acts[0]), acts[1..])
  }

  function EventOf(s: State, a: Action, late: bool): Event
    requires Enabled(s, a)
  {
    if late then AtReturn(s, a) else InEffect(s, a)
  }

  // The steps as the eager machine sees them, with pages copied when duppage copies them in effect, or when it returns.
  function Events(s: State, acts: seq<Action>, late: bool): seq<Event>
    requires Run(s, acts)
    decreases |acts|
  {
    if acts == [] then [] else [EventOf(s, acts[0], late)] + Events(Step(s, acts[0]), acts[1..], late)
  }

  function EagerRun(v: map<Slot, Page>, evs: seq<Event>): map<Slot, Page>
    decreases |evs|
  {
    if evs == [] then v else EagerRun(Eager(v, evs[0]), evs[1..])
  }

  /** Where a run may start: nobody forking or faulting, PFTEMP free, and a page mapped writable is mapped once. */
  predicate Begin(s: State) {
    && s.fork == map[] && s.fault == map[] && Backed(s)
    && (forall a | a in s.pt :: a.pn != PFTEMP_PN)
    && (forall a, b | a in s.pt && b in s.pt && a != b && s.pt[a].frame == s.pt[b].frame :: !s.pt[a].w)
  }

  function Private(s: State): map<Slot, Page>
    requires Backed(s)
  {
    map a | a in s.pt :: Content(s, a)
  }

  lemma BeginInv(s: State)
    requires Begin(s)
    ensures Inv(s) && Reads(s, Private(s))
  {
    assert forall e: nat :: s.ForkOf(e) == ForkAt(s.fork, e) == NoFork;
    forall a
      ensures ReadsAt(s, Private(s), a)
    {
    }
  }

  lemma {:induction false} RunKeeps(s: State, acts: seq<Action>, v: map<Slot, Page>)
    requires Inv(s) && Reads(s, v) && Run(s, acts)
    ensures Inv(After(s, acts)) && Reads(After(s, acts), EagerRun(v, Events(s, acts, false)))
    decreases |acts|
  {
    hide Inv;
    hide Reads;
    hide Enabled;
    hide Stale;
    if acts != [] {
      StepKeeps(s, acts[0], v);
      RunKeeps(Step(s, acts[0]), acts[1..], Eager(v, InEffect(s, acts[0])));
      assert Events(s, acts, false)[1..] == Events(Step(s, acts[0]), acts[1..], false);
    }
  }

  // Nobody is inside pgfault or between the two calls of a duppage.
  ghost predicate Quiet(s: State) { forall e: nat :: s.FaultOf(e).NoFault? && !s.ForkOf(e).Mid? }

  lemma LiveReads(t: State, v: map<Slot, Page>, e: nat, pn: nat)
    requires Inv(t) && Reads(t, v) && e in t.live && pn != PFTEMP_PN
    ensures Slot(e, pn) in t.pt <==> Slot(e, pn) in v
    ensures Slot(e, pn) in v ==> t.pt[Slot(e, pn)].frame in t.mem && Content(t, Slot(e, pn)) == v[Slot(e, pn)]
  {
    assert ReadsAt(t, v, Slot(e, pn));
    LiveNotPending(t, Slot(e, pn));
  }

  lemma QuietSingle(t: State)
    requires Inv(t) && Quiet(t)
    ensures forall a, b | a in t.pt && b in t.pt && a != b && t.pt[a].frame == t.pt[b].frame :: !t.pt[a].w
  {
    assert Single(t);
  }

  // What live environments have mapped and read in t is what v holds for them.
  ghost predicate Agrees(t: State, v: map<Slot, Page>) {
    forall e, pn: nat | e in t.live && pn != PFTEMP_PN ::
      (Slot(e, pn) in t.pt <==> Slot(e, pn) in v) &&
      (Slot(e, pn) in v ==> t.pt[Slot(e, pn)].frame in t.mem && Content(t, Slot(e, pn)) == v[Slot(e, pn)])
  }

  /** After every run, each live environment has the pages, and reads the words, that it would have if each duppage had
      copied its page: at its return if the page was writable at its first call, and at that call if it was not. Between
      handler and duppage calls a page that is mapped twice is writable nowhere. */
  lemma CowCopiesInEffect(s: State, acts: seq<Action>)
    requires Begin(s) && Run(s, acts)
    ensures Agrees(After(s, acts), EagerRun(Private(s), Events(s, acts, false)))
    ensures var t := After(s, acts);
            Quiet(t) ==> forall a, b | a in t.pt && b in t.pt && a != b && t.pt[a].frame == t.pt[b].frame :: !t.pt[a].w
  {
    hide Inv;
    hide Reads;
    BeginInv(s);
    RunKeeps(s, acts, Private(s));
    var t, v := After(s, acts), EagerRun(Private(s), Events(s, acts, false));
    forall e, pn: nat | e in t.live && pn != PFTEMP_PN
      ensures Slot(e, pn) in t.pt <==> Slot(e, pn) in v
      ensures Slot(e, pn) in v ==> t.pt[Slot(e, pn)].frame in t.mem && Content(t, Slot(e, pn)) == v[Slot(e, pn)]
    {
      LiveReads(t, v, e, pn);
    }
    if Quiet(t) {
      QuietSingle(t);
    }
  }
}
