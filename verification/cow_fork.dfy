/** The two routines of lib/fork.c run from beginning to end: pgfault always finishes, leaving a private writable page
    with the same contents, and an uninterrupted fork gives the child the parent's memory. */
module CowFork {
  import opened Mmu
  import opened Cow
  import opened CowSteps
  import opened CowRuns
  import opened CowReturn
  import opened CowPerms

  // --- pgfault ---

  function Copies(e: nat, n: nat): seq<Action> { if n == 0 then [] else [TempCopy(e)] + Copies(e, n - 1) }

  /** What pgfault does after the trap: sys_page_alloc, memmove, sys_page_map, sys_page_unmap. */
  function Handler(e: nat, f: nat): seq<Action> { [TempAlloc(e, f)] + (Copies(e, WORDS) + [TempMap(e), TempUnmap(e)]) }

  lemma {:induction false} RunConcat(s: State, a: seq<Action>, b: seq<Action>)
    requires Run(s, a) && Run(After(s, a), b)
    ensures Run(s, a + b) && After(s, a + b) == After(After(s, a), b)
    decreases |a|
  {
    hide Enabled;
    hide Stale;
    if a == [] {
      assert a + b == b;
    } else {
      RunConcat(Step(s, a[0]), a[1..], b);
      assert (a + b)[1..] == a[1..] + b;
    }
  }

  // Everything but the frame under PFTEMP and the count of copied words is as it was.
  predicate OnlyCopied(s: State, t: State, e: nat) {
    && t.pt == s.pt && t.fork == s.fork && t.live == s.live && t.fault == s.fault[e := t.FaultOf(e)]
    && Slot(e, PFTEMP_PN) in s.pt && t.mem.Keys == s.mem.Keys
    && forall f | f in s.mem && f != s.pt[Slot(e, PFTEMP_PN)].frame :: t.mem[f] == s.mem[f]
  }

  lemma {:induction false} CopiesRun(s: State, e: nat, n: nat)
    requires Inv(s) && s.FaultOf(e).Copying? && s.FaultOf(e).k + n == WORDS
    ensures Run(s, Copies(e, n)) && Inv(After(s, Copies(e, n))) && OnlyCopied(s, After(s, Copies(e, n)), e)
    ensures After(s, Copies(e, n)).FaultOf(e) == Copying(s.FaultOf(e).pn, WORDS)
    decreases n
  {
    assert FaultOk(s, e);
    if n == 0 {
      assert s.fault == s.fault[e := s.FaultOf(e)];
    } else {
      assert Enabled(s, TempCopy(e));
      TempCopyInv(s, e);
      var t := DoTempCopy(s, e);
      assert OnlyCopied(s, t, e);
      hide Inv;
      CopiesRun(t, e, n - 1);
      assert Copies(e, n)[1..] == Copies(e, n - 1);
      assert Copies(e, n)[0] == TempCopy(e) && Step(s, TempCopy(e)) == t;
    }
  }

  lemma RunCons(s: State, a: Action, rest: seq<Action>)
    requires Enabled(s, a) && !Stale(s, a) && Run(Step(s, a), rest)
    ensures Run(s, [a] + rest) && After(s, [a] + rest) == After(Step(s, a), rest)
  {
    assert ([a] + rest)[1..] == rest;
  }

  // The two mapping calls at the end of the handler.
  lemma SwapRun(s: State, e: nat)
    requires Inv(s) && s.FaultOf(e).Copying? && s.FaultOf(e).k == WORDS && Slot(e, PFTEMP_PN) in s.pt
    ensures var acts := [TempMap(e)] + ([TempUnmap(e)] + []);
            && Run(s, acts)
            && var t, a, f := After(s, acts), Slot(e, s.FaultOf(e).pn), s.pt[Slot(e, PFTEMP_PN)].frame;
            && Inv(t) && t.FaultOf(e).NoFault? && t.fork == s.fork && t.live == s.live && t.mem == s.mem
            && t.pt == s.pt[a := Pte(f, true, false)] - {Slot(e, PFTEMP_PN)}
  {
    assert FaultOk(s, e);
    TempMapInv(s, e);
    var s1 := DoTempMap(s, e);
    TempUnmapInv(s1, e);
    hide Inv;
    RunCons(s1, TempUnmap(e), []);
    RunCons(s, TempMap(e), [TempUnmap(e)] + []);
  }

  // The words in PFTEMP at the end are the words of the page.
  lemma AllCopied(s: State, e: nat)
    requires Inv(s) && s.FaultOf(e).Copying? && s.FaultOf(e).k == WORDS
    ensures var t, a := Slot(e, PFTEMP_PN), Slot(e, s.FaultOf(e).pn);
            t in s.pt && a in s.pt && a != t && Content(s, t) == Content(s, a)
  {
    assert FaultOk(s, e);
    var t, a := Slot(e, PFTEMP_PN), Slot(e, s.FaultOf(e).pn);
    assert Content(s, t)[..WORDS] == Content(s, t) && Content(s, a)[..WORDS] == Content(s, a);
  }

  // The allocation and the copy: every page mapped at the trap still holds its words, and f those of the page.
  lemma CopyStates(s: State, e: nat, f: nat) returns (s2: State)
    requires Inv(s) && s.FaultOf(e).Trapped? && s.Free(f)
    ensures Enabled(s, TempAlloc(e, f)) && Run(DoTempAlloc(s, e, f), Copies(e, WORDS))
    ensures s2 == After(DoTempAlloc(s, e, f), Copies(e, WORDS)) && Inv(s2) && s2.fork == s.fork && s2.live == s.live
    ensures s2.FaultOf(e) == Copying(s.FaultOf(e).pn, WORDS)
    ensures s2.pt == s.pt[Slot(e, PFTEMP_PN) := Pte(f, true, false)] && Slot(e, PFTEMP_PN) !in s.pt && f in s2.mem
    ensures forall b | b in s.pt ::
              var g := s.pt[b].frame; g != f && g in s.mem && g in s2.mem && s2.mem[g] == s.mem[g]
    ensures var a := Slot(e, s.FaultOf(e).pn);
            a in s.pt && a.pn != PFTEMP_PN && s2.mem[f] == s.mem[s.pt[a].frame]
  {
    assert FaultOk(s, e) && ForkOk(s, e);
    TempAllocInv(s, e, f);
    CopiesRun(DoTempAlloc(s, e, f), e, WORDS);
    s2 := After(DoTempAlloc(s, e, f), Copies(e, WORDS));
    AllCopied(s2, e);
  }

  /** From the trap, whatever page was hit (copy-on-write or plainly read-only: the guard on the error code never
      fires), the handler runs through and leaves it writable, private and with the same words. */
  lemma HandlerCompletes(s: State, e: nat, f: nat)
    requires Inv(s) && s.FaultOf(e).Trapped? && s.Free(f)
    ensures Run(s, Handler(e, f))
    ensures var t, a := After(s, Handler(e, f)), Slot(e, s.FaultOf(e).pn);
            && Inv(t) && t.FaultOf(e).NoFault? && t.fork == s.fork && t.live == s.live
            && a in s.pt && t.pt == s.pt[a := Pte(f, true, false)]
            && forall b | b in s.pt ::
                  s.pt[b].frame in s.mem && t.pt[b].frame in t.mem && Content(t, b) == Content(s, b)
  {
    var s2 := CopyStates(s, e, f);
    SwapRun(s2, e);
    hide Inv;
    hide Run;
    hide After;
    hide Copies;
    hide Enabled;
    hide Step;
    hide Stale;
    var swap, a := [TempMap(e)] + ([TempUnmap(e)] + []), Slot(e, s.FaultOf(e).pn);
    assert swap == [TempMap(e), TempUnmap(e)];
    RunConcat(DoTempAlloc(s, e, f), Copies(e, WORDS), swap);
    FirstStep(s, e, f);
    RunCons(s, TempAlloc(e, f), Copies(e, WORDS) + swap);
    assert s2.pt[a := Pte(f, true, false)] - {Slot(e, PFTEMP_PN)} == s.pt[a := Pte(f, true, false)];
  }

  lemma FirstStep(s: State, e: nat, f: nat)
    requires Enabled(s, TempAlloc(e, f))
    ensures Step(s, TempAlloc(e, f)) == DoTempAlloc(s, e, f) && !Stale(s, TempAlloc(e, f))
  {
  }

  // --- the exceptions are reachable ---

  // One environment with a handler, an exception stack and one page that is not writable: copy-on-write from an earlier
  // fork, or plainly read-only.
  function Lone(cow: bool): State {
    State(map[Slot(0, 0) := Pte(1, false, cow), Slot(0, XSTACK_PN) := Pte(3, true, false)],
          map[1 := Zero(), 3 := Zero()], map[], map[], {0}, {0})
  }

  lemma LoneBegins(cow: bool)
    ensures Begin(Lone(cow)) && Inv(Lone(cow)) && Enabled(Lone(cow), Exofork(0, 1))
  {
    BeginInv(Lone(cow));
  }

  // fork() up to duppage's reading of the entry.
  lemma LoneLooks(cow: bool)
    ensures Enabled(Lone(cow), Exofork(0, 1))
    ensures var s1 := Step(Lone(cow), Exofork(0, 1));
            && Enabled(s1, Look(0))
            && var s2 := Step(s1, Look(0));
            && Inv(s2) && s2.ForkOf(0) == Seen(1, 0, false, cow) && s2.live == {0} && s2.FaultOf(0).NoFault?
            && s2.pt == Lone(cow).pt && s2.mem == Lone(cow).mem && s2.up == {0}
  {
    LoneBegins(cow);
    var s1 := DoExofork(Lone(cow), 0, 1);
    ExoforkInv(Lone(cow), 0, 1);
    LookInv(s1, 0);
  }

  // A store of the parent's to page 0, as far as the return of the handler.
  lemma StoreTraps(s: State)
    requires Inv(s) && s.live == {0} && s.FaultOf(0).NoFault? && s.Free(2) && Slot(0, 0) in s.pt && !s.pt[Slot(0, 0)].w
    requires Deliverable(s, 0)
    ensures Run(s, [Trap(0, 0)] + Handler(0, 2))
    ensures var t := After(s, [Trap(0, 0)] + Handler(0, 2));
            && Inv(t) && t.FaultOf(0).NoFault? && t.fork == s.fork && t.live == s.live
            && t.pt == s.pt[Slot(0, 0) := Pte(2, true, false)] && forall b | b in s.pt :: Content(t, b) == Content(s, b)
  {
    var s1 := Step(s, Trap(0, 0));
    TrapInv(s, 0, 0);
    hide Inv;
    HandlerCompletes(s1, 0, 2);
    RunCons(s, Trap(0, 0), Handler(0, 2));
  }

  // fork(), stopped between duppage's two calls by a store to that page, as a push on the parent's stack is.
  function Stopped(): seq<Action> { [Exofork(0, 1)] + ([Look(0)] + ([MapChild(0)] + ([Trap(0, 0)] + Handler(0, 2)))) }

  // fork(), stopped between duppage's reading of the entry and its first call.
  function Overtaken(): seq<Action> { [Exofork(0, 1)] + ([Look(0)] + ([Trap(0, 0)] + Handler(0, 2))) }

  // The first call of duppage on a page that is copy-on-write already.
  lemma LoneMaps() returns (s3: State)
    ensures Enabled(Lone(true), Exofork(0, 1)) && Enabled(Step(Lone(true), Exofork(0, 1)), Look(0))
    ensures var s2 := Step(Step(Lone(true), Exofork(0, 1)), Look(0));
            Enabled(s2, MapChild(0)) && !Stale(s2, MapChild(0)) && s3 == Step(s2, MapChild(0))
    ensures Inv(s3) && s3.live == {0} && s3.FaultOf(0).NoFault? && s3.ForkOf(0) == Mid(1, 0, false) && s3.Free(2)
    ensures Slot(0, 0) in s3.pt && !s3.pt[Slot(0, 0)].w && Slot(1, 0) in s3.pt && Deliverable(s3, 0)
    ensures Content(s3, Slot(0, 0)) == Content(s3, Slot(1, 0)) == Zero()
  {
    LoneLooks(true);
    var s2 := Step(Step(Lone(true), Exofork(0, 1)), Look(0));
    s3 := LoneMapped(s2);
  }

  lemma LoneMapped(s2: State) returns (s3: State)
    requires Inv(s2) && s2.ForkOf(0) == Seen(1, 0, false, true) && s2.live == {0} && s2.FaultOf(0).NoFault?
    requires s2.pt == Lone(true).pt && s2.mem == Lone(true).mem && s2.up == {0}
    ensures Enabled(s2, MapChild(0)) && !Stale(s2, MapChild(0)) && s3 == Step(s2, MapChild(0))
    ensures Inv(s3) && s3.live == {0} && s3.FaultOf(0).NoFault? && s3.ForkOf(0) == Mid(1, 0, false) && s3.Free(2)
    ensures Slot(0, 0) in s3.pt && !s3.pt[Slot(0, 0)].w && Slot(1, 0) in s3.pt && Deliverable(s3, 0)
    ensures Content(s3, Slot(0, 0)) == Content(s3, Slot(1, 0)) == Zero()
  {
    assert Enabled(s2, MapChild(0)) && !SawReadOnly(s2, 0);
    s3 := DoDupFirst(s2, 0);
    DupFirstInv(s2, 0);
    hide Inv;
    hide Enabled;
  }

  lemma StoppedRun()
    ensures Run(Lone(true), Stopped())
    ensures var t := After(Lone(true), Stopped());
            && Inv(t) && t.live == {0} && t.FaultOf(0).NoFault? && t.ForkOf(0) == Mid(1, 0, false)
            && Slot(0, 0) in t.pt && t.pt[Slot(0, 0)].w && Slot(1, 0) in t.pt
            && Content(t, Slot(0, 0)) == Content(t, Slot(1, 0)) == Zero()
  {
    var s3 := LoneMaps();
    var s1 := Step(Lone(true), Exofork(0, 1));
    var s2 := Step(s1, Look(0));
    hide Inv;
    hide Lone;
    hide Deliverable;
    StoreTraps(s3);
    hide Step;
    hide Enabled;
    RunCons(s2, MapChild(0), [Trap(0, 0)] + Handler(0, 2));
    RunCons(s1, Look(0), [MapChild(0)] + ([Trap(0, 0)] + Handler(0, 2)));
    RunCons(Lone(true), Exofork(0, 1), [Look(0)] + ([MapChild(0)] + ([Trap(0, 0)] + Handler(0, 2))));
  }

  /** A run from a legal start after which the parent's store leaves the child with a page that differs from the
      parent's at the moment duppage returns. */
  lemma UntimelyReachable()
    ensures Begin(Lone(true)) && Run(Lone(true), Stopped())
    ensures var t, w := After(Lone(true), Stopped()), Write(0, 0, 0, 7);
            && Inv(t) && Enabled(t, w) && Untimely(t, w)
            && var u := Step(t, w);
            && Enabled(u, DupEnd(0)) && Slot(1, 0) in DoDupEnd(u, 0).pt && Slot(0, 0) in DoDupEnd(u, 0).pt
            && Backed(DoDupEnd(u, 0)) && Content(DoDupEnd(u, 0), Slot(1, 0)) != Content(DoDupEnd(u, 0), Slot(0, 0))
  {
    LoneBegins(true);
    StoppedRun();
    hide *;
    StoreBetween(After(Lone(true), Stopped()));
  }

  lemma StoreBetween(t: State)
    requires Inv(t) && t.live == {0} && t.FaultOf(0).NoFault? && t.ForkOf(0) == Mid(1, 0, false)
    requires Slot(0, 0) in t.pt && t.pt[Slot(0, 0)].w && Slot(1, 0) in t.pt
    requires Content(t, Slot(0, 0)) == Content(t, Slot(1, 0)) == Zero()
    ensures var w := Write(0, 0, 0, 7);
            && Enabled(t, w) && Untimely(t, w)
            && var u := Step(t, w);
            && Enabled(u, DupEnd(0)) && Slot(1, 0) in DoDupEnd(u, 0).pt && Slot(0, 0) in DoDupEnd(u, 0).pt
            && Backed(DoDupEnd(u, 0)) && Content(DoDupEnd(u, 0), Slot(1, 0)) != Content(DoDupEnd(u, 0), Slot(0, 0))
  {
    assert Zero()[0] == 0;
    UntimelyIff(t, Write(0, 0, 0, 7));
  }

  lemma OvertakenRun()
    ensures Run(Lone(false), Overtaken())
    ensures var t := After(Lone(false), Overtaken());
            && Inv(t) && t.live == {0} && t.FaultOf(0).NoFault? && t.ForkOf(0) == Seen(1, 0, false, false)
            && t.pt == Lone(false).pt[Slot(0, 0) := Pte(2, true, false)] && Backed(t)
            && Content(t, Slot(0, 0)) == Zero()
  {
    LoneLooks(false);
    var s1 := Step(Lone(false), Exofork(0, 1));
    var s2 := Step(s1, Look(0));
    assert s2.Free(2) && Slot(0, 0) in s2.pt && Content(s2, Slot(0, 0)) == Zero();
    StoreTraps(s2);
    assert Backed(After(s2, [Trap(0, 0)] + Handler(0, 2)));
    hide Inv;
    hide Step;
    hide Enabled;
    RunCons(s1, Look(0), [Trap(0, 0)] + Handler(0, 2));
    RunCons(Lone(false), Exofork(0, 1), [Look(0)] + ([Trap(0, 0)] + Handler(0, 2)));
  }

  /** A run from a legal start after which duppage maps, for the child, a page the parent can write: the invariant is
      lost, and the parent's next store shows in the child's memory. */
  lemma StaleReachable()
    ensures Begin(Lone(false)) && Run(Lone(false), Overtaken())
    ensures var t := After(Lone(false), Overtaken());
            && Inv(t) && Enabled(t, MapChild(0)) && Stale(t, MapChild(0))
            && var u := DoMapChild(t, 0);
            && !Inv(u) && Enabled(u, Write(0, 0, 0, 7)) && Slot(1, 0) in u.pt && Backed(u)
            && Content(u, Slot(1, 0)) == Zero() && Backed(Store(u, 0, 0, 0, 7))
            && Content(Store(u, 0, 0, 0, 7), Slot(1, 0))[0] == 7
  {
    LoneBegins(false);
    OvertakenRun();
    hide Run;
    hide After;
    hide Inv;
    var t := After(Lone(false), Overtaken());
    StaleIff(t, 0);
    StaleLeaks(t, 0, 0, 7);
  }

  // --- fork ---

  // Every visible page with its contents.
  ghost function ViewOf(s: State): (v: map<Slot, Page>)
    requires Backed(s)
    ensures Reads(s, v)
  {
    var v := map a | a in s.pt && Visible(s, a) :: Content(s, a);
    assert forall a :: ReadsAt(s, v, a);
    v
  }

  // The child's part of the view, once the loop has passed the pages below n.
  ghost predicate Cloned<T(!new)>(v0: map<Slot, T>, v: map<Slot, T>, e: nat, c: nat, n: nat) {
    && (forall a: Slot | a.env != c :: (a in v <==> a in v0) && (a in v ==> v[a] == v0[a]))
    && (forall pn: nat :: Slot(c, pn) in v <==> pn < n && pn != XSTACK_PN && Slot(e, pn) in v0)
    && (forall pn: nat :: Slot(c, pn) in v ==> v[Slot(c, pn)] == v0[Slot(e, pn)])
  }

  // What does not change while fork's loop runs alone.
  predicate Looping(s: State, t: State, e: nat, c: nat, pn: nat, f: nat) {
    t.ForkOf(e) == Loop(c, pn) && t.live == s.live && t.up == s.up - {c} && Running(t, e) && t.Free(f)
  }

  lemma TurnCloned<T(!new)>(v0: map<Slot, T>, v: map<Slot, T>, e: nat, c: nat, pn: nat)
    requires Cloned(v0, v, e, c, pn) && e != c
    ensures pn == XSTACK_PN || Slot(e, pn) !in v ==> Cloned(v0, v, e, c, pn + 1)
    ensures pn != XSTACK_PN && Slot(e, pn) in v ==> Cloned(v0, v[Slot(c, pn) := v[Slot(e, pn)]], e, c, pn + 1)
  {
  }

  // The two views of a state in fork's loop: what everybody reads, and what everybody may write.
  ghost predicate Views(t: State, e: nat, v: map<Slot, Page>, u: Rights)
    requires Backed(t)
  {
    Reads(t, v) && Right(t, u) && SeenOk(t, e)
  }

  // In fork's loop, what the parent has mapped is what it reads.
  lemma LoopFacts(t: State, e: nat, v: map<Slot, Page>, u: Rights)
    requires Inv(t) && Views(t, e, v, u) && Running(t, e) && t.ForkOf(e).Loop?
    ensures t.ForkOf(e).child != e && Backed(t)
    ensures forall pn: nat :: (Slot(e, pn) in v <==> Slot(e, pn) in t.pt) && (Slot(e, pn) in u <==> Slot(e, pn) in t.pt)
  {
    assert ForkOk(t, e) && FaultOk(t, e);
    forall pn: nat
      ensures Slot(e, pn) in v <==> Slot(e, pn) in t.pt
      ensures Slot(e, pn) in u <==> Slot(e, pn) in t.pt
    {
      assert ReadsAt(t, v, Slot(e, pn)) && RightAt(t, u, Slot(e, pn));
      LiveNotPending(t, Slot(e, pn));
    }
  }

  lemma StepViews(t: State, a: Action, v: map<Slot, Page>, u: Rights)
    requires Inv(t) && Views(t, a.e, v, u) && Enabled(t, a) && !Stale(t, a)
    ensures Inv(Step(t, a)) && Views(Step(t, a), a.e, Eager(v, InEffect(t, a)), Grant(u, t, a))
  {
    hide Inv;
    hide Reads;
    hide Right;
    hide SeenOk;
    hide Grant;
    StepKeeps(t, a, v);
    RightsKept(t, a, u);
    SeenKept(t, a, a.e);
  }

  // duppage's calls, after it has read the entry.
  method DupCalls(s: State, t: State, e: nat, c: nat, pn: nat, f: nat, ghost v: map<Slot, Page>, ghost u: Rights)
    returns (t': State, ghost v': map<Slot, Page>, ghost u': Rights)
    requires Inv(t) && Views(t, e, v, u) && t.live == s.live && t.up == s.up - {c} && Running(t, e) && t.Free(f)
    requires e != c
    requires t.ForkOf(e).Seen? && t.ForkOf(e).child == c && t.ForkOf(e).pn == pn && Slot(e, pn) in t.pt
    requires t.ForkOf(e).w == t.pt[Slot(e, pn)].w && Slot(e, pn) in v && Slot(e, pn) in u
    ensures Inv(t') && Views(t', e, v', u') && Looping(s, t', e, c, pn + 1, f)
    ensures v' == v[Slot(c, pn) := v[Slot(e, pn)]] && u' == u[Slot(c, pn) := u[Slot(e, pn)]]
  {
    hide Inv;
    hide Views;
    StepViews(t, MapChild(e), v, u);
    t', v', u' := Step(t, MapChild(e)), Eager(v, InEffect(t, MapChild(e))), Grant(u, t, MapChild(e));
    if t'.ForkOf(e).Mid? {
      StepViews(t', DupEnd(e), v', u');
      v', u' := Eager(v', InEffect(t', DupEnd(e))), Grant(u', t', DupEnd(e));
      t' := Step(t', DupEnd(e));
    }
  }

  /** One turn of the loop: duppage as the parent sees it when nobody else runs. */
  method DupPage(s: State, t: State, e: nat, c: nat, pn: nat, f: nat, ghost v0: map<Slot, Page>, ghost u0: Rights,
                 ghost v: map<Slot, Page>, ghost u: Rights)
    returns (t': State, ghost v': map<Slot, Page>, ghost u': Rights)
    requires Inv(t) && Views(t, e, v, u) && Looping(s, t, e, c, pn, f) && pn < NUPN
    requires Cloned(v0, v, e, c, pn) && Cloned(u0, u, e, c, pn)
    ensures Inv(t') && Views(t', e, v', u') && Looping(s, t', e, c, pn + 1, f)
    ensures Cloned(v0, v', e, c, pn + 1) && Cloned(u0, u', e, c, pn + 1)
  {
    hide Inv;
    hide Views;
    hide Cloned;
    LoopFacts(t, e, v, u);
    TurnCloned(v0, v, e, c, pn);
    TurnCloned(u0, u, e, c, pn);
    StepViews(t, Look(e), v, u);
    t', v', u' := Step(t, Look(e)), v, u;
    if t'.ForkOf(e).Seen? {
      t', v', u' := DupCalls(s, t', e, c, pn, f, v, u);
    }
  }

  // fork's loop, from the first page to the last.
  method ForkLoop(s: State, t: State, e: nat, c: nat, f: nat, ghost v: map<Slot, Page>, ghost u: Rights)
    returns (t': State, ghost v': map<Slot, Page>, ghost u': Rights)
    requires Inv(t) && Views(t, e, v, u) && Looping(s, t, e, c, 0, f) && Cloned(v, v, e, c, 0) && Cloned(u, u, e, c, 0)
    ensures Inv(t') && Views(t', e, v', u') && Looping(s, t', e, c, NUPN, f)
    ensures Cloned(v, v', e, c, NUPN) && Cloned(u, u', e, c, NUPN)
  {
    hide Views;
    hide Cloned;
    t', v', u' := t, v, u;
    var pn: nat := 0;
    while pn < NUPN
      invariant pn <= NUPN && Inv(t') && Views(t', e, v', u') && Looping(s, t', e, c, pn, f)
      invariant Cloned(v, v', e, c, pn) && Cloned(u, u', e, c, pn)
    {
      t', v', u' := DupPage(s, t', e, c, pn, f, v, u, v', u');
      pn := pn + 1;
    }
  }

  // What environment i reads at page pn, and whether it may write there.
  ghost predicate SamePage(s: State, a: Slot, t: State, b: Slot) {
    && (a in s.pt <==> b in t.pt)
    && (a in s.pt ==>
          && s.pt[a].frame in s.mem && t.pt[b].frame in t.mem && Content(s, a) == Content(t, b)
          && May(s.pt[a]) == May(t.pt[b]))
  }

  // From the views to the pages.
  lemma ForkDone(s: State, t: State, v0: map<Slot, Page>, v: map<Slot, Page>, u0: Rights, u: Rights, e: nat, c: nat,
                 i: nat, pn: nat)
    requires Inv(s) && Inv(t) && Reads(s, v0) && Reads(t, v[Slot(c, XSTACK_PN) := Zero()]) && Cloned(v0, v, e, c, NUPN)
    requires Right(s, u0) && Right(t, u[Slot(c, XSTACK_PN) := true]) && Cloned(u0, u, e, c, NUPN)
    requires t.live == s.live + {c} && c !in s.live && e in s.live && pn != PFTEMP_PN
    ensures i in s.live ==> SamePage(s, Slot(i, pn), t, Slot(i, pn))
    ensures pn != XSTACK_PN ==> SamePage(s, Slot(e, pn), t, Slot(c, pn))
    ensures SlotZero(t, Slot(c, XSTACK_PN))
  {
    hide Right;
    var v', u' := v[Slot(c, XSTACK_PN) := Zero()], u[Slot(c, XSTACK_PN) := true];
    LiveReads(s, v0, e, pn);
    LiveReads(t, v', c, pn);
    LiveReads(t, v', c, XSTACK_PN);
    LiveRight(s, u0, Slot(e, pn));
    LiveRight(t, u', Slot(c, pn));
    PageBound(s, Slot(e, pn));
    if i in s.live {
      LiveReads(s, v0, i, pn);
      LiveReads(t, v', i, pn);
      LiveRight(s, u0, Slot(i, pn));
      LiveRight(t, u', Slot(i, pn));
    }
  }

  predicate SlotZero(t: State, a: Slot) { a in t.pt && t.pt[a].frame in t.mem && Content(t, a) == Zero() }

  lemma PageBound(s: State, a: Slot)
    requires Inv(s)
    ensures a in s.pt ==> a.pn < NUPN
  {
  }

  // What fork does after its loop: the child's exception stack, its upcall, and its status.
  method ForkEnd(s: State, t: State, e: nat, c: nat, f: nat, ghost v: map<Slot, Page>, ghost u: Rights)
    returns (t': State)
    requires Inv(t) && Views(t, e, v, u) && Looping(s, t, e, c, NUPN, f) && e in s.live && c !in s.live
    ensures Inv(t') && Views(t', e, v[Slot(c, XSTACK_PN) := Zero()], u[Slot(c, XSTACK_PN) := true])
    ensures t'.live == s.live + {c} && t'.ForkOf(e).NoFork? && StackOk(t', c)
    ensures t'.up == if e in s.up then s.up + {c} else s.up - {c}
  {
    hide Inv;
    hide Views;
    StepViews(t, ChildStack(e, f), v, u);
    t' := Step(t, ChildStack(e, f));
    StepViews(t', SetUpcall(e), v[Slot(c, XSTACK_PN) := Zero()], u[Slot(c, XSTACK_PN) := true]);
    t' := Step(t', SetUpcall(e));
    StepViews(t', Start(e), v[Slot(c, XSTACK_PN) := Zero()], u[Slot(c, XSTACK_PN) := true]);
    t' := Step(t', Start(e));
  }

  /** fork() run without interruption: the child is live, has the parent's pages with the parent's words and the
      parent's rights, except for a fresh and writable exception stack, and an upcall exactly if the parent has one; the
      parent and everybody else read what they read before and may write what they could write before. */
  method Fork(s: State, e: nat, c: nat, f: nat) returns (t: State)
    requires Inv(s) && Enabled(s, Exofork(e, c)) && s.Free(f)
    ensures Inv(t) && t.live == s.live + {c} && t.ForkOf(e).NoFork?
    ensures forall pn: nat | pn != XSTACK_PN && pn != PFTEMP_PN :: SamePage(s, Slot(e, pn), t, Slot(c, pn))
    ensures SlotZero(t, Slot(c, XSTACK_PN)) && StackOk(t, c)
    ensures t.up == if e in s.up then s.up + {c} else s.up - {c}
    ensures forall i, pn: nat | i in s.live && pn != PFTEMP_PN :: SamePage(s, Slot(i, pn), t, Slot(i, pn))
  {
    ghost var v0, u0 := ViewOf(s), RightsOf(s);
    NotCloned(s, e, c, v0, u0);
    hide Inv;
    hide Views;
    hide Cloned;
    StepViews(s, Exofork(e, c), v0, u0) by {
      BeforeFork(s, e, c, v0, u0);
    }
    t := Step(s, Exofork(e, c));
    ghost var v, u;
    t, v, u := ForkLoop(s, t, e, c, f, v0, u0);
    t := ForkEnd(s, t, e, c, f, v, u);
    ViewsApart(t, e, v[Slot(c, XSTACK_PN) := Zero()], u[Slot(c, XSTACK_PN) := true]);
    hide SamePage;
    forall i, pn: nat | pn != PFTEMP_PN
      ensures i in s.live ==> SamePage(s, Slot(i, pn), t, Slot(i, pn))
      ensures pn != XSTACK_PN ==> SamePage(s, Slot(e, pn), t, Slot(c, pn))
    {
      ForkDone(s, t, v0, v, u0, u, e, c, i, pn);
    }
    ForkDone(s, t, v0, v, u0, u, e, c, e, 0);
  }

  lemma BeforeFork(s: State, e: nat, c: nat, v: map<Slot, Page>, u: Rights)
    requires Inv(s) && Enabled(s, Exofork(e, c)) && Reads(s, v) && Right(s, u)
    ensures Views(s, e, v, u)
  {
  }

  lemma ViewsApart(t: State, e: nat, v: map<Slot, Page>, u: Rights)
    requires Inv(t) && Views(t, e, v, u)
    ensures Backed(t) && Reads(t, v) && Right(t, u)
  {
  }

  // Before the loop the child has nothing.
  lemma NotCloned(s: State, e: nat, c: nat, v: map<Slot, Page>, u: Rights)
    requires Inv(s) && Reads(s, v) && Right(s, u) && Enabled(s, Exofork(e, c))
    ensures Cloned(v, v, e, c, 0) && Cloned(u, u, e, c, 0)
  {
    forall pn: nat
      ensures Slot(c, pn) !in v && Slot(c, pn) !in u
    {
      assert ReadsAt(s, v, Slot(c, pn)) && RightAt(s, u, Slot(c, pn));
    }
  }
}
