/** When fork is as good as copying every page at the moment duppage returns, and exactly when it is not. */
module CowReturn {
  import opened Mmu
  import opened Cow
  import opened CowSteps
  import opened CowRuns

  // A child's page that has been copied in effect, by a duppage that has not returned.
  ghost predicate Early(fork: map<nat, Fork>, a: Slot) { exists e: nat :: Waits(ForkAt(fork, e), a, false) }

  /** u is v without those pages: what copying at the return gives, beside what copying in effect gives. */
  ghost predicate Late(fork: map<nat, Fork>, v: map<Slot, Page>, u: map<Slot, Page>) {
    forall a :: LateAt(fork, v, u, a)
  }

  ghost predicate LateAt(fork: map<nat, Fork>, v: map<Slot, Page>, u: map<Slot, Page>, a: Slot) {
    (a in u <==> a in v && !Early(fork, a)) && (a in u ==> u[a] == v[a])
  }

  // The parent's page of such a duppage is still as it was copied.
  predicate SameAt(k: Fork, e: nat, v: map<Slot, Page>) {
    k.Mid? && !k.wasW ==>
      Slot(e, k.pn) in v && Slot(k.child, k.pn) in v && v[Slot(e, k.pn)] == v[Slot(k.child, k.pn)]
  }

  ghost predicate Same(fork: map<nat, Fork>, v: map<Slot, Page>) { forall e: nat :: SameAt(ForkAt(fork, e), e, v) }

  // Which entries an event touches.
  predicate Hits(ev: Event, a: Slot) {
    match ev
    case Silent => false
    case Wrote(b, _, _) => a == b
    case Copied(_, dst) => a == dst
    case Zeroed(b) => a == b
    case Dropped(b) => a == b
    case Gone(e) => a.env == e
  }

  lemma EagerOther(v: map<Slot, Page>, ev: Event, a: Slot)
    requires !Hits(ev, a)
    ensures a in Eager(v, ev) <==> a in v
    ensures a in v ==> Eager(v, ev)[a] == v[a]
  {
  }

  lemma SetEarly(fork: map<nat, Fork>, e: nat, k: Fork, a: Slot)
    requires OneParent(fork) && !(k.Mid? && ForkAt(fork, e).Mid?)
    ensures Early(fork[e := k], a) <==> Waits(k, a, false) || (Early(fork, a) && !Waits(ForkAt(fork, e), a, false))
  {
    var fork' := fork[e := k];
    assert ForkAt(fork', e) == k;
    if Early(fork, a) {
      var i: nat :| Waits(ForkAt(fork, i), a, false);
      assert i != e ==> ForkAt(fork', i) == ForkAt(fork, i);
    }
    if Early(fork', a) {
      var i: nat :| Waits(ForkAt(fork', i), a, false);
      assert i != e ==> ForkAt(fork', i) == ForkAt(fork, i);
    }
  }

  lemma LiveNotEarly(s: State, a: Slot)
    requires Inv(s) && a.env in s.live
    ensures !Early(s.fork, a)
  {
    assert forall i: nat :: ForkOk(s, i) && s.ForkOf(i) == ForkAt(s.fork, i);
  }

  lemma ChildNotEarly(s: State, e: nat, a: Slot)
    requires Inv(s) && !s.ForkOf(e).NoFork? && a.env == s.ForkOf(e).child && !Waits(s.ForkOf(e), a, false)
    ensures !Early(s.fork, a)
  {
  }

  // An event both machines see, on pages that are not in between.
  lemma LateSame(fork: map<nat, Fork>, fork': map<nat, Fork>, v: map<Slot, Page>, u: map<Slot, Page>, ev: Event)
    requires Late(fork, v, u) && forall a :: Early(fork', a) == Early(fork, a)
    requires forall a | !ev.Gone? && !ev.Dropped? && Hits(ev, a) :: !Early(fork, a)
    requires ev.Copied? ==> !Early(fork, ev.src)
    ensures Late(fork', Eager(v, ev), Eager(u, ev))
  {
    forall a
      ensures LateAt(fork', Eager(v, ev), Eager(u, ev), a)
    {
      assert LateAt(fork, v, u, a) && Early(fork', a) == Early(fork, a);
      assert ev.Copied? ==> LateAt(fork, v, u, ev.src);
      if Hits(ev, a) {
      } else {
        EagerOther(v, ev, a);
        EagerOther(u, ev, a);
      }
    }
  }

  // Events that touch neither page of a pair leave the two the same.
  lemma SameKept(fork: map<nat, Fork>, v: map<Slot, Page>, ev: Event)
    requires Same(fork, v)
    requires forall e: nat | ForkAt(fork, e).Mid? && !ForkAt(fork, e).wasW ::
               !Hits(ev, Slot(e, ForkAt(fork, e).pn)) && !Hits(ev, Slot(ForkAt(fork, e).child, ForkAt(fork, e).pn))
    ensures Same(fork, Eager(v, ev))
  {
    forall e: nat
      ensures SameAt(ForkAt(fork, e), e, Eager(v, ev))
    {
      var k := ForkAt(fork, e);
      assert SameAt(k, e, v);
      if k.Mid? && !k.wasW {
        EagerOther(v, ev, Slot(e, k.pn));
        EagerOther(v, ev, Slot(k.child, k.pn));
      }
    }
  }

  // No step but an untimely store touches a page of a pair.
  lemma PairUntouched(s: State, a: Action, e: nat)
    requires Inv(s) && Enabled(s, a) && !Untimely(s, a) && s.ForkOf(e).Mid? && !s.ForkOf(e).wasW
    ensures var ev, k := InEffect(s, a), s.ForkOf(e); !Hits(ev, Slot(e, k.pn)) && !Hits(ev, Slot(k.child, k.pn))
  {
    assert ForkOk(s, e) && ForkOk(s, a.e);
  }

  // The fork map after a step, and whether it opens or closes a pair.
  lemma ForkAfter(s: State, a: Action)
    requires Inv(s) && Enabled(s, a)
    ensures var s' := Step(s, a);
            s'.fork == s.fork ||
                (s'.fork == s.fork[a.e := s'.ForkOf(a.e)] && !(s'.ForkOf(a.e).Mid? && s.ForkOf(a.e).Mid?))
    ensures Step(s, a).ForkOf(a.e) != s.ForkOf(a.e) && Step(s, a).ForkOf(a.e).Mid? ==> a.MapChild?
    ensures s.ForkOf(a.e).Mid? && Step(s, a).ForkOf(a.e) != s.ForkOf(a.e) ==> a.DupEnd?
  {
  }

  // The first call on a page that is not writable: copied in effect, not yet in the other machine.
  predicate Opens(s: State, a: Action)
    requires Enabled(s, a)
  {
    a.MapChild? && !SawReadOnly(s, a.e) && !s.pt[Slot(a.e, s.ForkOf(a.e).pn)].w
  }

  // The return of that duppage.
  predicate Closes(s: State, a: Action)
    requires Enabled(s, a)
  {
    a.DupEnd? && !s.ForkOf(a.e).wasW
  }

  lemma OpenStep(s: State, e: nat, v: map<Slot, Page>, u: map<Slot, Page>)
    requires Inv(s) && Reads(s, v) && Enabled(s, MapChild(e)) && Opens(s, MapChild(e)) && Late(s.fork, v, u)
    ensures Late(DoMapChild(s, e).fork, Eager(v, Copy(s, e)), u)
    ensures Slot(e, s.ForkOf(e).pn) in v
  {
    var c, pn := s.ForkOf(e).child, s.ForkOf(e).pn;
    var s', v' := DoMapChild(s, e), Eager(v, Copy(s, e));
    assert ForkOk(s, e);
    LiveNotPending(s, Slot(e, pn));
    assert ReadsAt(s, v, Slot(e, pn)) && ReadsAt(s, v, Slot(c, pn));
    forall a
      ensures LateAt(s'.fork, v', u, a)
    {
      assert LateAt(s.fork, v, u, a);
      SetEarly(s.fork, e, Mid(c, pn, false), a);
    }
  }

  /** When a duppage that copied early returns, copying at the return gives the child the same page if and only if the
      parent's page is what it was at the first call. */
  lemma ReturnIff(s: State, e: nat, v: map<Slot, Page>, u: map<Slot, Page>)
    requires Inv(s) && Reads(s, v) && Enabled(s, DupEnd(e)) && Closes(s, DupEnd(e)) && Late(s.fork, v, u)
    ensures var c, pn := s.ForkOf(e).child, s.ForkOf(e).pn;
            && Slot(c, pn) in s.pt
            && (Late(DoDupEnd(s, e).fork, v, Eager(u, Copy(s, e))) <==>
                  Content(s, Slot(c, pn)) == Content(s, Slot(e, pn)))
  {
    var c, pn := s.ForkOf(e).child, s.ForkOf(e).pn;
    var s', u' := DoDupEnd(s, e), Eager(u, Copy(s, e));
    assert ForkOk(s, e);
    LiveNotPending(s, Slot(e, pn));
    LiveNotEarly(s, Slot(e, pn));
    assert LateAt(s.fork, v, u, Slot(e, pn)) && ReadsAt(s, v, Slot(e, pn)) && ReadsAt(s, v, Slot(c, pn));
    assert !Pending(s.fork, Slot(c, pn));
    SetEarly(s.fork, e, Loop(c, pn + 1), Slot(c, pn));
    assert u' == u[Slot(c, pn) := v[Slot(e, pn)]];
    if Content(s, Slot(c, pn)) == Content(s, Slot(e, pn)) {
      forall a
        ensures LateAt(s'.fork, v, u', a)
      {
        assert LateAt(s.fork, v, u, a);
        SetEarly(s.fork, e, Loop(c, pn + 1), a);
      }
    } else {
      assert !LateAt(s'.fork, v, u', Slot(c, pn));
    }
  }

  // Every other step is the same event for both.
  lemma OtherStep(s: State, a: Action, v: map<Slot, Page>, u: map<Slot, Page>)
    requires Inv(s) && Enabled(s, a) && !Opens(s, a) && !Closes(s, a) && Late(s.fork, v, u)
    ensures InEffect(s, a) == AtReturn(s, a)
    ensures Late(Step(s, a).fork, Eager(v, InEffect(s, a)), Eager(u, InEffect(s, a)))
  {
    var s', ev := Step(s, a), InEffect(s, a);
    assert ForkOk(s, a.e);
    ForkAfter(s, a);
    forall b
      ensures Early(s'.fork, b) == Early(s.fork, b)
    {
      if s'.fork != s.fork {
        SetEarly(s.fork, a.e, s'.ForkOf(a.e), b);
      }
    }
    forall b | !ev.Gone? && !ev.Dropped? && Hits(ev, b)
      ensures !Early(s.fork, b)
    {
      if b.env in s.live {
        LiveNotEarly(s, b);
      } else {
        ChildNotEarly(s, a.e, b);
      }
    }
    if ev.Copied? {
      LiveNotEarly(s, ev.src);
    }
    LateSame(s.fork, s'.fork, v, u, ev);
  }

  lemma SameStep(s: State, a: Action, v: map<Slot, Page>)
    requires Inv(s) && Reads(s, v) && Enabled(s, a) && !Untimely(s, a) && Same(s.fork, v)
    ensures Same(Step(s, a).fork, Eager(v, InEffect(s, a)))
  {
    var s', v' := Step(s, a), Eager(v, InEffect(s, a));
    forall e: nat | ForkAt(s.fork, e).Mid? && !ForkAt(s.fork, e).wasW
      ensures var ev, k := InEffect(s, a), s.ForkOf(e); !Hits(ev, Slot(e, k.pn)) && !Hits(ev, Slot(k.child, k.pn))
    {
      PairUntouched(s, a, e);
    }
    SameKept(s.fork, v, InEffect(s, a));
    ForkAfter(s, a);
    forall e: nat
      ensures SameAt(ForkAt(s'.fork, e), e, v')
    {
      assert SameAt(ForkAt(s.fork, e), e, v');
      if e == a.e && Opens(s, a) {
        assert ForkOk(s, e);
        LiveNotPending(s, Slot(e, s.ForkOf(e).pn));
        assert ReadsAt(s, v, Slot(e, s.ForkOf(e).pn));
      }
    }
  }

  // One step of both machines.
  lemma ReturnStep(s: State, a: Action, v: map<Slot, Page>, u: map<Slot, Page>)
    requires Inv(s) && Reads(s, v) && Enabled(s, a) && !Stale(s, a) && !Untimely(s, a)
    requires Late(s.fork, v, u) && Same(s.fork, v)
    ensures var v', u' := Eager(v, InEffect(s, a)), Eager(u, AtReturn(s, a));
            Late(Step(s, a).fork, v', u') && Same(Step(s, a).fork, v')
  {
    SameStep(s, a, v);
    if Opens(s, a) {
      OpenStep(s, a.e, v, u);
    } else if Closes(s, a) {
      var c, pn := s.ForkOf(a.e).child, s.ForkOf(a.e).pn;
      assert ForkOk(s, a.e) && SameAt(ForkAt(s.fork, a.e), a.e, v);
      assert ReadsAt(s, v, Slot(a.e, pn)) && ReadsAt(s, v, Slot(c, pn));
      ReturnIff(s, a.e, v, u);
    } else {
      OtherStep(s, a, v, u);
    }
  }

  predicate Timely(s: State, acts: seq<Action>)
    requires Run(s, acts)
    decreases |acts|
  {
    acts == [] || (!Untimely(s, acts[0]) && Timely(Step(s, acts[0]), acts[1..]))
  }

  lemma {:induction false} RunReturns(s: State, acts: seq<Action>, v: map<Slot, Page>, u: map<Slot, Page>)
    requires Inv(s) && Reads(s, v) && Run(s, acts) && Timely(s, acts) && Late(s.fork, v, u) && Same(s.fork, v)
    ensures Late(After(s, acts).fork, EagerRun(v, Events(s, acts, false)), EagerRun(u, Events(s, acts, true)))
    decreases |acts|
  {
    hide Inv;
    hide Reads;
    hide Enabled;
    hide Stale;
    hide Untimely;
    hide Late;
    hide Same;
    if acts != [] {
      var a, s' := acts[0], Step(s, acts[0]);
      StepKeeps(s, a, v);
      ReturnStep(s, a, v, u);
      RunReturns(s', acts[1..], Eager(v, InEffect(s, a)), Eager(u, AtReturn(s, a)));
      assert Events(s, acts, false)[1..] == Events(s', acts[1..], false);
      assert Events(s, acts, true)[1..] == Events(s', acts[1..], true);
    }
  }

  /** After every run without a store of the parent's own to a page between the two calls of its duppage, when the
      page was not writable at the first: each live environment has the pages, and reads the words, that it would have
      if every duppage had copied its page at the moment it returned. */
  lemma CowRefinesEager(s: State, acts: seq<Action>)
    requires Begin(s) && Run(s, acts) && Timely(s, acts)
    ensures Agrees(After(s, acts), EagerRun(Private(s), Events(s, acts, true)))
  {
    BeginInv(s);
    var t := After(s, acts);
    var v, u := EagerRun(Private(s), Events(s, acts, false)), EagerRun(Private(s), Events(s, acts, true));
    assert forall e: nat :: ForkAt(s.fork, e) == NoFork;
    RunReturns(s, acts, Private(s), Private(s));
    RunKeeps(s, acts, Private(s));
    CowCopiesInEffect(s, acts);
    forall e, pn: nat | e in t.live && pn != PFTEMP_PN
      ensures Slot(e, pn) in u <==> Slot(e, pn) in v
      ensures Slot(e, pn) in v ==> u[Slot(e, pn)] == v[Slot(e, pn)]
    {
      LiveNotEarly(t, Slot(e, pn));
      assert LateAt(t.fork, v, u, Slot(e, pn));
    }
  }

  // --- the exceptions ---

  /** An untimely store to a page that is still the same makes it differ from the child's if and only if it changes
      it. */
  lemma UntimelyIff(s: State, a: Action)
    requires Inv(s) && Enabled(s, a) && Untimely(s, a)
    ensures var c := s.ForkOf(a.e).child; var t := Step(s, a);
            && Slot(c, a.pn) in s.pt && Backed(t) && t.pt == s.pt
            && Content(t, Slot(c, a.pn)) == Content(s, Slot(c, a.pn))
            && Content(t, Slot(a.e, a.pn)) == Content(s, Slot(a.e, a.pn))[a.off := a.v]
            && (Content(s, Slot(c, a.pn)) == Content(s, Slot(a.e, a.pn)) ==>
                  (Content(t, Slot(c, a.pn)) == Content(t, Slot(a.e, a.pn)) <==>
                      a.v == Content(s, Slot(a.e, a.pn))[a.off]))
  {
    var e, pn, t := a.e, a.pn, Step(s, a);
    assert ForkOk(s, e);
    var f, old' := s.pt[Slot(e, pn)].frame, Content(s, Slot(e, pn));
    assert s.pt[Slot(s.ForkOf(e).child, pn)].frame != f;
    assert a.v == old'[a.off] ==> old'[a.off := a.v] == old';
    assert old'[a.off := a.v][a.off] == a.v;
  }

  /** duppage's one call for a page it took for read-only keeps the invariant if and only if the page is still not
      writable in the parent. */
  lemma StaleIff(s: State, e: nat)
    requires Inv(s) && Enabled(s, MapChild(e)) && SawReadOnly(s, e)
    ensures Inv(DoMapChild(s, e)) <==> !Stale(s, MapChild(e))
  {
    var c, pn := s.ForkOf(e).child, s.ForkOf(e).pn;
    assert ForkOk(s, e);
    if Stale(s, MapChild(e)) {
      var t := DoMapChild(s, e);
      assert t.pt[Slot(e, pn)].frame == t.pt[Slot(c, pn)].frame && t.pt[Slot(e, pn)].w && Slot(e, pn) != Slot(c, pn);
      assert !MayShare(t, Slot(e, pn), Slot(c, pn));
      assert !Single(t);
    } else {
      ShareInv(s, e);
    }
  }

  /** And from then on every store of the parent's to that page is a store to the child's. */
  lemma StaleLeaks(s: State, e: nat, off: nat, x: int)
    requires Inv(s) && Enabled(s, MapChild(e)) && Stale(s, MapChild(e)) && off < WORDS
    ensures var t, pn, c := DoMapChild(s, e), s.ForkOf(e).pn, s.ForkOf(e).child;
            && Enabled(t, Write(e, pn, off, x)) && !Untimely(t, Write(e, pn, off, x))
            && var u := Store(t, e, pn, off, x);
            && Backed(u) && Slot(c, pn) in u.pt && Content(u, Slot(c, pn))[off] == x
  {
    assert ForkOk(s, e) && FaultOk(s, e);
  }
}
