/** Every step of the copy-on-write machine keeps its invariant and matches a step of the eager machine. */
module CowSteps {
  import opened Mmu
  import opened Cow

  lemma SetFork(fork: map<nat, Fork>, e: nat, k: Fork)
    requires OneParent(fork)
    requires !k.NoFork? ==> forall i | i != e && !ForkAt(fork, i).NoFork? :: ForkAt(fork, i).child != k.child
    ensures OneParent(fork[e := k])
  {
    var fork' := fork[e := k];
    forall i, j | !ForkAt(fork', i).NoFork? && !ForkAt(fork', j).NoFork? && i != j
      ensures ForkAt(fork', i).child != ForkAt(fork', j).child
    {
      assert i != e ==> ForkAt(fork', i) == ForkAt(fork, i);
      assert j != e ==> ForkAt(fork', j) == ForkAt(fork, j);
    }
  }

  // Which child pages are pending after e moves on.
  lemma SetPending(fork: map<nat, Fork>, e: nat, k: Fork, a: Slot)
    requires OneParent(fork) && !(k.Mid? && ForkAt(fork, e).Mid?)
    ensures Pending(fork[e := k], a) <==> Waits(k, a, true) || (Pending(fork, a) && !Waits(ForkAt(fork, e), a, true))
  {
    var fork' := fork[e := k];
    assert ForkAt(fork', e) == k;
    if Pending(fork, a) {
      var i: nat :| Waits(ForkAt(fork, i), a, true);
      assert i != e ==> ForkAt(fork', i) == ForkAt(fork, i);
    }
    if Pending(fork', a) {
      var i: nat :| Waits(ForkAt(fork', i), a, true);
      assert i != e ==> ForkAt(fork', i) == ForkAt(fork, i);
    }
  }

  lemma LiveNotPending(s: State, a: Slot)
    requires Inv(s) && a.env in s.live
    ensures !Pending(s.fork, a)
  {
    assert forall i: nat :: ForkOk(s, i) && s.ForkOf(i) == ForkAt(s.fork, i);
  }

  // A child whose parent is not in the middle of a duppage has no pending page.
  lemma ChildNotPending(s: State, e: nat, a: Slot)
    requires Inv(s) && !s.ForkOf(e).NoFork? && !s.ForkOf(e).Mid? && a.env == s.ForkOf(e).child
    ensures !Pending(s.fork, a)
  {
  }

  lemma FaultEnabled(s: State, e: nat, f: nat)
    requires Inv(s) && e in s.live && s.Free(f)
    ensures match s.FaultOf(e)
            case Trapped(_) => Enabled(s, TempAlloc(e, f))
            case Copying(_, k) => if k < WORDS then Enabled(s, TempCopy(e)) else Enabled(s, TempMap(e))
            case Swapped(_) => Enabled(s, TempUnmap(e))
            case NoFault => true
  {
    assert FaultOk(s, e);
  }

  lemma ForkEnabled(s: State, e: nat, f: nat)
    requires Inv(s) && Running(s, e) && s.Free(f)
    ensures match s.ForkOf(e)
            case Loop(_, n) => if n < NUPN then Enabled(s, Look(e)) else Enabled(s, ChildStack(e, f))
            case Seen(_, _, _, _) => Enabled(s, MapChild(e))
            case Mid(_, _, _) => Enabled(s, DupEnd(e))
            case Upcall(_) => Enabled(s, SetUpcall(e))
            case Last(_) => Enabled(s, Start(e))
            case NoFork => true
  {
    assert ForkOk(s, e);
  }

  /** No environment is ever stuck: whatever point of pgfault or fork a live one has reached, its next step can be made,
      given a free page where one is needed; and outside both it can make every call. */
  lemma NextEnabled(s: State, e: nat, f: nat, pn: nat, w: bool)
    requires Inv(s) && e in s.live && s.Free(f) && pn < NUPN && pn != PFTEMP_PN
    ensures match s.FaultOf(e)
            case Trapped(_) => Enabled(s, TempAlloc(e, f))
            case Copying(_, k) => if k < WORDS then Enabled(s, TempCopy(e)) else Enabled(s, TempMap(e))
            case Swapped(_) => Enabled(s, TempUnmap(e))
            case NoFault =>
              match s.ForkOf(e)
              case Loop(_, n) => if n < NUPN then Enabled(s, Look(e)) else Enabled(s, ChildStack(e, f))
              case Seen(_, _, _, _) => Enabled(s, MapChild(e))
              case Mid(_, _, _) => Enabled(s, DupEnd(e))
              case Upcall(_) => Enabled(s, SetUpcall(e))
              case Last(_) => Enabled(s, Start(e))
              case NoFork =>
                && Enabled(s, PageAlloc(e, pn, f, w)) && Enabled(s, PageUnmap(e, pn)) && Enabled(s, Exit(e))
                && Enabled(s, Handle(e))
  {
    FaultEnabled(s, e, f);
    if s.FaultOf(e).NoFault? {
      ForkEnabled(s, e, f);
    }
    hide Inv;
  }

  /** What a running environment's store to a mapped page comes to: it goes through if the page is writable; otherwise
      the handler gets it if there is one and its stack can be written, and if not the environment is destroyed. */
  lemma StoreOrTrap(s: State, e: nat, pn: nat, off: nat, v: int)
    requires Inv(s) && Running(s, e) && Slot(e, pn) in s.pt && pn != PFTEMP_PN && pn != XSTACK_PN && off < WORDS
    ensures Enabled(s, Write(e, pn, off, v)) <==> s.pt[Slot(e, pn)].w
    ensures Enabled(s, Trap(e, pn)) <==> !s.pt[Slot(e, pn)].w && Deliverable(s, e)
    ensures Idle(s, e) ==> (Enabled(s, Kill(e, pn)) <==> !s.pt[Slot(e, pn)].w && !Deliverable(s, e))
  {
  }

  // Outside pgfault and duppage, a live environment's page that has a second mapping is writable in neither.
  lemma SharedIsReadOnly(s: State, e: nat, pn: nat, b: Slot)
    requires Inv(s) && Running(s, e) && !s.ForkOf(e).Mid? && Slot(e, pn) in s.pt && b in s.pt && b != Slot(e, pn)
    requires s.pt[b].frame == s.pt[Slot(e, pn)].frame
    ensures !s.pt[b].w && !s.pt[Slot(e, pn)].w
  {
    assert ForkOk(s, b.env);
  }

  lemma StoreSingle(s: State, e: nat, pn: nat, off: nat, x: int)
    requires Inv(s) && Enabled(s, Write(e, pn, off, x))
    ensures Single(Store(s, e, pn, off, x))
  {
    hide Zero;
    assert ForkOk(s, e) && FaultOk(s, e);
  }

  lemma StoreInv(s: State, e: nat, pn: nat, off: nat, x: int)
    requires Inv(s) && Enabled(s, Write(e, pn, off, x))
    ensures Inv(Store(s, e, pn, off, x))
  {
    var s' := Store(s, e, pn, off, x);
    assert ForkOk(s, e) && FaultOk(s, e);
    assert Backed(s');
    forall i: nat
      ensures ForkOk(s', i) && FaultOk(s', i)
    {
      assert ForkOk(s, i) && FaultOk(s, i);
    }
    StoreSingle(s, e, pn, off, x);
  }

  lemma StoreReads(s: State, e: nat, pn: nat, off: nat, x: int, v: map<Slot, Page>)
    requires Inv(s) && Reads(s, v) && Enabled(s, Write(e, pn, off, x))
    requires Inv(Store(s, e, pn, off, x))
    ensures Reads(Store(s, e, pn, off, x), Eager(v, Wrote(Slot(e, pn), off, x)))
  {
    var s' := Store(s, e, pn, off, x);
    assert ForkOk(s, e) && FaultOk(s, e);
    forall a
      ensures ReadsAt(s', Eager(v, Wrote(Slot(e, pn), off, x)), a)
    {
      assert ReadsAt(s, v, a);
    }
  }

  lemma TrapSingle(s: State, e: nat, pn: nat)
    requires Inv(s) && Enabled(s, Trap(e, pn))
    ensures Single(Step(s, Trap(e, pn)))
  {
    assert ForkOk(s, e) && FaultOk(s, e);
  }

  lemma TrapInv(s: State, e: nat, pn: nat)
    requires Inv(s) && Enabled(s, Trap(e, pn))
    ensures Inv(Step(s, Trap(e, pn)))
  {
    var s' := Step(s, Trap(e, pn));
    assert ForkOk(s, e) && FaultOk(s, e);
    assert Backed(s');
    forall i: nat
      ensures ForkOk(s', i) && FaultOk(s', i)
    {
      assert ForkOk(s, i) && FaultOk(s, i);
    }
    TrapSingle(s, e, pn);
  }

  lemma TrapReads(s: State, e: nat, pn: nat, v: map<Slot, Page>)
    requires Inv(s) && Reads(s, v) && Enabled(s, Trap(e, pn))
    requires Inv(Step(s, Trap(e, pn)))
    ensures Reads(Step(s, Trap(e, pn)), v)
  {
    var s' := Step(s, Trap(e, pn));
    assert ForkOk(s, e) && FaultOk(s, e);
    forall a
      ensures ReadsAt(s', v, a)
    {
      assert ReadsAt(s, v, a);
    }
  }

  lemma TempAllocSingle(s: State, e: nat, f: nat)
    requires Inv(s) && Enabled(s, TempAlloc(e, f))
    ensures Single(DoTempAlloc(s, e, f))
  {
    assert ForkOk(s, e) && FaultOk(s, e);
  }

  lemma TempAllocInv(s: State, e: nat, f: nat)
    requires Inv(s) && Enabled(s, TempAlloc(e, f))
    ensures Inv(DoTempAlloc(s, e, f))
  {
    var s' := DoTempAlloc(s, e, f);
    assert ForkOk(s, e) && FaultOk(s, e);
    assert Backed(s');
    forall i: nat
      ensures ForkOk(s', i) && FaultOk(s', i)
    {
      assert ForkOk(s, i) && FaultOk(s, i);
    }
    TempAllocSingle(s, e, f);
  }

  lemma TempAllocReads(s: State, e: nat, f: nat, v: map<Slot, Page>)
    requires Inv(s) && Reads(s, v) && Enabled(s, TempAlloc(e, f))
    requires Inv(DoTempAlloc(s, e, f))
    ensures Reads(DoTempAlloc(s, e, f), v)
  {
    var s' := DoTempAlloc(s, e, f);
    assert ForkOk(s, e) && FaultOk(s, e);
    forall a
      ensures ReadsAt(s', v, a)
    {
      assert ReadsAt(s, v, a);
    }
  }

  lemma TempCopySingle(s: State, e: nat)
    requires Inv(s) && Enabled(s, TempCopy(e))
    ensures Single(DoTempCopy(s, e))
  {
    assert ForkOk(s, e) && FaultOk(s, e);
  }

  lemma TempCopyInv(s: State, e: nat)
    requires Inv(s) && Enabled(s, TempCopy(e))
    ensures Inv(DoTempCopy(s, e))
  {
    var s' := DoTempCopy(s, e);
    assert ForkOk(s, e) && FaultOk(s, e);
    assert Backed(s');
    forall i: nat
      ensures ForkOk(s', i) && FaultOk(s', i)
    {
      assert ForkOk(s, i) && FaultOk(s, i);
    }
    TempCopySingle(s, e);
  }

  lemma TempCopyReads(s: State, e: nat, v: map<Slot, Page>)
    requires Inv(s) && Reads(s, v) && Enabled(s, TempCopy(e))
    requires Inv(DoTempCopy(s, e))
    ensures Reads(DoTempCopy(s, e), v)
  {
    var s' := DoTempCopy(s, e);
    assert ForkOk(s, e) && FaultOk(s, e);
    forall a
      ensures ReadsAt(s', v, a)
    {
      assert ReadsAt(s, v, a);
    }
  }

  lemma TempMapSingle(s: State, e: nat)
    requires Inv(s) && Enabled(s, TempMap(e))
    ensures Single(DoTempMap(s, e))
  {
    hide Zero;
    assert ForkOk(s, e) && FaultOk(s, e);
  }

  lemma TempMapInv(s: State, e: nat)
    requires Inv(s) && Enabled(s, TempMap(e))
    ensures Inv(DoTempMap(s, e))
  {
    var s' := DoTempMap(s, e);
    assert ForkOk(s, e) && FaultOk(s, e);
    assert Backed(s');
    forall i: nat
      ensures ForkOk(s', i) && FaultOk(s', i)
    {
      assert ForkOk(s, i) && FaultOk(s, i);
    }
    TempMapSingle(s, e);
  }

  lemma TempMapReads(s: State, e: nat, v: map<Slot, Page>)
    requires Inv(s) && Reads(s, v) && Enabled(s, TempMap(e))
    requires Inv(DoTempMap(s, e))
    ensures Reads(DoTempMap(s, e), v)
  {
    var s' := DoTempMap(s, e);
    assert ForkOk(s, e) && FaultOk(s, e);
    forall a
      ensures ReadsAt(s', v, a)
    {
      assert ReadsAt(s, v, a);
    }
  }

  lemma TempUnmapSingle(s: State, e: nat)
    requires Inv(s) && Enabled(s, TempUnmap(e))
    ensures Single(DoTempUnmap(s, e))
  {
    assert ForkOk(s, e) && FaultOk(s, e);
  }

  lemma TempUnmapInv(s: State, e: nat)
    requires Inv(s) && Enabled(s, TempUnmap(e))
    ensures Inv(DoTempUnmap(s, e))
  {
    var s' := DoTempUnmap(s, e);
    assert ForkOk(s, e) && FaultOk(s, e);
    assert Backed(s');
    forall i: nat
      ensures ForkOk(s', i) && FaultOk(s', i)
    {
      assert ForkOk(s, i) && FaultOk(s, i);
    }
    TempUnmapSingle(s, e);
  }

  lemma TempUnmapReads(s: State, e: nat, v: map<Slot, Page>)
    requires Inv(s) && Reads(s, v) && Enabled(s, TempUnmap(e))
    requires Inv(DoTempUnmap(s, e))
    ensures Reads(DoTempUnmap(s, e), v)
  {
    var s' := DoTempUnmap(s, e);
    assert ForkOk(s, e) && FaultOk(s, e);
    forall a
      ensures ReadsAt(s', v, a)
    {
      assert ReadsAt(s, v, a);
    }
  }

  lemma ExoforkSingle(s: State, e: nat, c: nat)
    requires Inv(s) && Enabled(s, Exofork(e, c))
    ensures Single(DoExofork(s, e, c))
  {
    assert ForkOk(s, e) && FaultOk(s, e);
  }

  lemma ExoforkInv(s: State, e: nat, c: nat)
    requires Inv(s) && Enabled(s, Exofork(e, c))
    ensures Inv(DoExofork(s, e, c))
  {
    var s' := DoExofork(s, e, c);
    assert ForkOk(s, e) && FaultOk(s, e);
    assert Backed(s');
    forall i: nat
      ensures ForkOk(s', i) && FaultOk(s', i)
    {
      assert ForkOk(s, i) && FaultOk(s, i);
    }
    assert forall i: nat :: ForkOk(s, i) && ForkAt(s.fork, i) == s.ForkOf(i);
    SetFork(s.fork, e, Loop(c, 0));
    ExoforkSingle(s, e, c);
  }

  lemma ExoforkReads(s: State, e: nat, c: nat, v: map<Slot, Page>)
    requires Inv(s) && Reads(s, v) && Enabled(s, Exofork(e, c))
    requires Inv(DoExofork(s, e, c))
    ensures Reads(DoExofork(s, e, c), v)
  {
    var s' := DoExofork(s, e, c);
    assert ForkOk(s, e) && FaultOk(s, e);
    forall a
      ensures ReadsAt(s', v, a)
    {
      assert ReadsAt(s, v, a);
      SetPending(s.fork, e, Loop(c, 0), a);
    }
  }

  lemma LookSingle(s: State, e: nat)
    requires Inv(s) && Enabled(s, Look(e))
    ensures Single(DoLook(s, e))
  {
    assert ForkOk(s, e) && FaultOk(s, e);
  }

  lemma LookInv(s: State, e: nat)
    requires Inv(s) && Enabled(s, Look(e))
    ensures Inv(DoLook(s, e))
  {
    var s' := DoLook(s, e);
    assert ForkOk(s, e) && FaultOk(s, e);
    assert Backed(s');
    forall i: nat
      ensures ForkOk(s', i) && FaultOk(s', i)
    {
      assert ForkOk(s, i) && FaultOk(s, i);
    }
    SetFork(s.fork, e, s'.fork[e]);
    LookSingle(s, e);
  }

  lemma LookReads(s: State, e: nat, v: map<Slot, Page>)
    requires Inv(s) && Reads(s, v) && Enabled(s, Look(e)) && Inv(DoLook(s, e))
    ensures Reads(DoLook(s, e), v)
  {
    var s', v' := DoLook(s, e), v;
    assert ForkOk(s, e) && FaultOk(s, e);
    forall a
      ensures ReadsAt(s', v', a)
    {
      assert ReadsAt(s, v, a);
      SetPending(s.fork, e, s'.fork[e], a);
    }
  }

  lemma ShareSingle(s: State, e: nat)
    requires Inv(s) && Enabled(s, MapChild(e)) && !s.pt[Slot(e, s.ForkOf(e).pn)].w
    ensures Single(DoShare(s, e))
  {
    assert ForkOk(s, e) && FaultOk(s, e);
    forall b | b in s.pt && b != Slot(e, s.ForkOf(e).pn) && s.pt[b].frame == s.pt[Slot(e, s.ForkOf(e).pn)].frame
      ensures !s.pt[b].w && !s.pt[Slot(e, s.ForkOf(e).pn)].w
    {
      SharedIsReadOnly(s, e, s.ForkOf(e).pn, b);
    }
  }

  lemma ShareInv(s: State, e: nat)
    requires Inv(s) && Enabled(s, MapChild(e)) && !s.pt[Slot(e, s.ForkOf(e).pn)].w
    ensures Inv(DoShare(s, e))
  {
    var s' := DoShare(s, e);
    assert ForkOk(s, e) && FaultOk(s, e);
    assert Backed(s');
    forall i: nat
      ensures ForkOk(s', i) && FaultOk(s', i)
    {
      assert ForkOk(s, i) && FaultOk(s, i);
    }
    SetFork(s.fork, e, s'.fork[e]);
    ShareSingle(s, e);
  }

  lemma ShareReads(s: State, e: nat, v: map<Slot, Page>)
    requires Inv(s) && Reads(s, v) && Enabled(s, MapChild(e)) && !s.pt[Slot(e, s.ForkOf(e).pn)].w && Inv(DoShare(s, e))
    ensures Reads(DoShare(s, e), Eager(v, Copy(s, e)))
  {
    var s', v' := DoShare(s, e), Eager(v, Copy(s, e));
    assert ForkOk(s, e) && FaultOk(s, e);
    var a1, a2 := Slot(e, s.ForkOf(e).pn), Slot(s.ForkOf(e).child, s.ForkOf(e).pn);
    ChildNotPending(s, e, a2);
    LiveNotPending(s, a1);
    assert ReadsAt(s, v, a1) && ReadsAt(s, v, a2);
    forall a
      ensures ReadsAt(s', v', a)
    {
      assert ReadsAt(s, v, a);
      SetPending(s.fork, e, s'.fork[e], a);
    }
  }

  lemma DupFirstSingle(s: State, e: nat)
    requires Inv(s) && Enabled(s, MapChild(e))
    ensures Single(DoDupFirst(s, e))
  {
    hide Zero;
    assert ForkOk(s, e) && FaultOk(s, e);
    forall b | b in s.pt && b != Slot(e, s.ForkOf(e).pn) && s.pt[b].frame == s.pt[Slot(e, s.ForkOf(e).pn)].frame
      ensures !s.pt[b].w && !s.pt[Slot(e, s.ForkOf(e).pn)].w
    {
      SharedIsReadOnly(s, e, s.ForkOf(e).pn, b);
    }
  }

  lemma DupFirstInv(s: State, e: nat)
    requires Inv(s) && Enabled(s, MapChild(e))
    ensures Inv(DoDupFirst(s, e))
  {
    var s' := DoDupFirst(s, e);
    assert ForkOk(s, e) && FaultOk(s, e);
    assert Backed(s');
    forall i: nat
      ensures ForkOk(s', i) && FaultOk(s', i)
    {
      assert ForkOk(s, i) && FaultOk(s, i);
    }
    SetFork(s.fork, e, s'.fork[e]);
    DupFirstSingle(s, e);
  }

  lemma DupFirstReads(s: State, e: nat, v: map<Slot, Page>)
    requires Inv(s) && Reads(s, v) && Enabled(s, MapChild(e)) && Inv(DoDupFirst(s, e))
    ensures Reads(DoDupFirst(s, e), if s.pt[Slot(e, s.ForkOf(e).pn)].w then v else Eager(v, Copy(s, e)))
  {
    var s', v' := DoDupFirst(s, e), if s.pt[Slot(e, s.ForkOf(e).pn)].w then v else Eager(v, Copy(s, e));
    assert ForkOk(s, e) && FaultOk(s, e);
    var a1, a2 := Slot(e, s.ForkOf(e).pn), Slot(s.ForkOf(e).child, s.ForkOf(e).pn);
    ChildNotPending(s, e, a2);
    LiveNotPending(s, a1);
    assert ReadsAt(s, v, a1) && ReadsAt(s, v, a2);
    forall a
      ensures ReadsAt(s', v', a)
    {
      assert ReadsAt(s, v, a);
      SetPending(s.fork, e, s'.fork[e], a);
    }
  }

  lemma DupEndSingle(s: State, e: nat)
    requires Inv(s) && Enabled(s, DupEnd(e))
    ensures Single(DoDupEnd(s, e))
  {
    hide Zero;
    assert ForkOk(s, e) && FaultOk(s, e);
  }

  lemma DupEndInv(s: State, e: nat)
    requires Inv(s) && Enabled(s, DupEnd(e))
    ensures Inv(DoDupEnd(s, e))
  {
    var s' := DoDupEnd(s, e);
    assert ForkOk(s, e) && FaultOk(s, e);
    assert Backed(s');
    forall i: nat
      ensures ForkOk(s', i) && FaultOk(s', i)
    {
      assert ForkOk(s, i) && FaultOk(s, i);
    }
    SetFork(s.fork, e, s'.fork[e]);
    DupEndSingle(s, e);
  }

  lemma DupEndReads(s: State, e: nat, v: map<Slot, Page>)
    requires Inv(s) && Reads(s, v) && Enabled(s, DupEnd(e))
    requires Inv(DoDupEnd(s, e))
    ensures Reads(DoDupEnd(s, e), Eager(v, InEffect(s, DupEnd(e))))
  {
    var s' := DoDupEnd(s, e);
    assert ForkOk(s, e) && FaultOk(s, e);
    forall a
      ensures ReadsAt(s', Eager(v, InEffect(s, DupEnd(e))), a)
    {
      assert ReadsAt(s, v, a);
      LiveNotPending(s, Slot(e, s.ForkOf(e).pn));
      assert ReadsAt(s, v, Slot(e, s.ForkOf(e).pn));
      SetPending(s.fork, e, s'.fork[e], a);
    }
  }

  lemma ChildStackSingle(s: State, e: nat, f: nat)
    requires Inv(s) && Enabled(s, ChildStack(e, f))
    ensures Single(DoChildStack(s, e, f))
  {
    assert ForkOk(s, e) && FaultOk(s, e);
  }

  lemma ChildStackInv(s: State, e: nat, f: nat)
    requires Inv(s) && Enabled(s, ChildStack(e, f))
    ensures Inv(DoChildStack(s, e, f))
  {
    var s' := DoChildStack(s, e, f);
    assert ForkOk(s, e) && FaultOk(s, e);
    assert Backed(s');
    forall i: nat
      ensures ForkOk(s', i) && FaultOk(s', i)
    {
      assert ForkOk(s, i) && FaultOk(s, i);
    }
    SetFork(s.fork, e, s'.fork[e]);
    ChildStackSingle(s, e, f);
  }

  lemma ChildStackReads(s: State, e: nat, f: nat, v: map<Slot, Page>)
    requires Inv(s) && Reads(s, v) && Enabled(s, ChildStack(e, f))
    requires Inv(DoChildStack(s, e, f))
    ensures Reads(DoChildStack(s, e, f), Eager(v, InEffect(s, ChildStack(e, f))))
  {
    var s' := DoChildStack(s, e, f);
    assert ForkOk(s, e) && FaultOk(s, e);
    forall a
      ensures ReadsAt(s', Eager(v, InEffect(s, ChildStack(e, f))), a)
    {
      assert ReadsAt(s, v, a);
      ChildNotPending(s, e, Slot(s.ForkOf(e).child, XSTACK_PN));
      SetPending(s.fork, e, s'.fork[e], a);
    }
  }

  lemma SetUpcallInv(s: State, e: nat)
    requires Inv(s) && Enabled(s, SetUpcall(e))
    ensures Inv(DoSetUpcall(s, e))
  {
    var s' := DoSetUpcall(s, e);
    assert ForkOk(s, e) && FaultOk(s, e);
    assert Backed(s');
    forall i: nat
      ensures ForkOk(s', i) && FaultOk(s', i)
    {
      assert ForkOk(s, i) && FaultOk(s, i);
    }
    SetFork(s.fork, e, s'.fork[e]);
    SetUpcallSingle(s, e);
  }

  lemma SetUpcallSingle(s: State, e: nat)
    requires Inv(s) && Enabled(s, SetUpcall(e))
    ensures Single(DoSetUpcall(s, e))
  {
    assert ForkOk(s, e) && FaultOk(s, e);
  }

  lemma SetUpcallReads(s: State, e: nat, v: map<Slot, Page>)
    requires Inv(s) && Reads(s, v) && Enabled(s, SetUpcall(e))
    requires Inv(DoSetUpcall(s, e))
    ensures Reads(DoSetUpcall(s, e), v)
  {
    var s' := DoSetUpcall(s, e);
    assert ForkOk(s, e) && FaultOk(s, e);
    forall a
      ensures ReadsAt(s', v, a)
    {
      assert ReadsAt(s, v, a);
      SetPending(s.fork, e, s'.fork[e], a);
    }
  }

  lemma HandleKeeps(s: State, e: nat, v: map<Slot, Page>)
    requires Inv(s) && Reads(s, v) && Enabled(s, Handle(e))
    ensures Inv(Step(s, Handle(e))) && Reads(Step(s, Handle(e)), v)
  {
    var s' := Step(s, Handle(e));
    forall i: nat
      ensures ForkOk(s', i) && FaultOk(s', i)
    {
      assert ForkOk(s, i) && FaultOk(s, i);
    }
    forall a
      ensures ReadsAt(s', v, a)
    {
      assert ReadsAt(s, v, a);
    }
  }

  lemma StartSingle(s: State, e: nat)
    requires Inv(s) && Enabled(s, Start(e))
    ensures Single(DoStart(s, e))
  {
    assert ForkOk(s, e) && FaultOk(s, e);
  }

  lemma StartInv(s: State, e: nat)
    requires Inv(s) && Enabled(s, Start(e))
    ensures Inv(DoStart(s, e))
  {
    var s' := DoStart(s, e);
    assert ForkOk(s, e) && FaultOk(s, e);
    assert Backed(s');
    forall i: nat
      ensures ForkOk(s', i) && FaultOk(s', i)
    {
      assert ForkOk(s, i) && FaultOk(s, i);
    }
    SetFork(s.fork, e, NoFork);
    StartSingle(s, e);
  }

  lemma StartReads(s: State, e: nat, v: map<Slot, Page>)
    requires Inv(s) && Reads(s, v) && Enabled(s, Start(e))
    requires Inv(DoStart(s, e))
    ensures Reads(DoStart(s, e), v)
  {
    var s' := DoStart(s, e);
    assert ForkOk(s, e) && FaultOk(s, e);
    forall a
      ensures ReadsAt(s', v, a)
    {
      assert ReadsAt(s, v, a);
      SetPending(s.fork, e, NoFork, a);
    }
  }

  lemma PageAllocSingle(s: State, e: nat, pn: nat, f: nat, w: bool)
    requires Inv(s) && Enabled(s, PageAlloc(e, pn, f, w))
    ensures Single(DoPageAlloc(s, e, pn, f, w))
  {
    assert ForkOk(s, e) && FaultOk(s, e);
  }

  lemma PageAllocInv(s: State, e: nat, pn: nat, f: nat, w: bool)
    requires Inv(s) && Enabled(s, PageAlloc(e, pn, f, w))
    ensures Inv(DoPageAlloc(s, e, pn, f, w))
  {
    var s' := DoPageAlloc(s, e, pn, f, w);
    assert ForkOk(s, e) && FaultOk(s, e);
    assert Backed(s');
    forall i: nat
      ensures ForkOk(s', i) && FaultOk(s', i)
    {
      assert ForkOk(s, i) && FaultOk(s, i);
    }
    PageAllocSingle(s, e, pn, f, w);
  }

  lemma PageAllocReads(s: State, e: nat, pn: nat, f: nat, w: bool, v: map<Slot, Page>)
    requires Inv(s) && Reads(s, v) && Enabled(s, PageAlloc(e, pn, f, w))
    requires Inv(DoPageAlloc(s, e, pn, f, w))
    ensures Reads(DoPageAlloc(s, e, pn, f, w), v[Slot(e, pn) := Zero()])
  {
    var s', v' := DoPageAlloc(s, e, pn, f, w), v[Slot(e, pn) := Zero()];
    assert ForkOk(s, e) && FaultOk(s, e);
    forall a
      ensures ReadsAt(s', v', a)
    {
      assert ReadsAt(s, v, a);
      LiveNotPending(s, Slot(e, pn));
    }
  }

  lemma PageUnmapSingle(s: State, e: nat, pn: nat)
    requires Inv(s) && Enabled(s, PageUnmap(e, pn))
    ensures Single(DoPageUnmap(s, e, pn))
  {
    assert ForkOk(s, e) && FaultOk(s, e);
  }

  lemma PageUnmapInv(s: State, e: nat, pn: nat)
    requires Inv(s) && Enabled(s, PageUnmap(e, pn))
    ensures Inv(DoPageUnmap(s, e, pn))
  {
    var s' := DoPageUnmap(s, e, pn);
    assert ForkOk(s, e) && FaultOk(s, e);
    assert Backed(s');
    forall i: nat
      ensures ForkOk(s', i) && FaultOk(s', i)
    {
      assert ForkOk(s, i) && FaultOk(s, i);
    }
    PageUnmapSingle(s, e, pn);
  }

  lemma PageUnmapReads(s: State, e: nat, pn: nat, v: map<Slot, Page>)
    requires Inv(s) && Reads(s, v) && Enabled(s, PageUnmap(e, pn))
    requires Inv(DoPageUnmap(s, e, pn))
    ensures Reads(DoPageUnmap(s, e, pn), v - {Slot(e, pn)})
  {
    var s', v' := DoPageUnmap(s, e, pn), v - {Slot(e, pn)};
    assert ForkOk(s, e) && FaultOk(s, e);
    forall a
      ensures ReadsAt(s', v', a)
    {
      assert ReadsAt(s, v, a);
    }
  }

  lemma ExitSingle(s: State, e: nat)
    requires Inv(s) && Enabled(s, Exit(e))
    ensures Single(DoExit(s, e))
  {
    assert ForkOk(s, e) && FaultOk(s, e);
  }

  lemma ExitInv(s: State, e: nat)
    requires Inv(s) && Enabled(s, Exit(e))
    ensures Inv(DoExit(s, e))
  {
    var s' := DoExit(s, e);
    assert ForkOk(s, e) && FaultOk(s, e);
    assert Backed(s');
    forall i: nat
      ensures ForkOk(s', i) && FaultOk(s', i)
    {
      assert ForkOk(s, i) && FaultOk(s, i);
    }
    ExitSingle(s, e);
  }

  lemma ExitReads(s: State, e: nat, v: map<Slot, Page>)
    requires Inv(s) && Reads(s, v) && Enabled(s, Exit(e))
    requires Inv(DoExit(s, e))
    ensures Reads(DoExit(s, e), Eager(v, Gone(e)))
  {
    var s', v' := DoExit(s, e), Eager(v, Gone(e));
    assert ForkOk(s, e) && FaultOk(s, e);
    forall a
      ensures ReadsAt(s', v', a)
    {
      assert ReadsAt(s, v, a);
    }
  }

}
