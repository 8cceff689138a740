/** Whole interleaved runs of the copy-on-write machine, carried out by the kernel: every step is the system call,
    store or word of memmove it stands for, and the page tables and the memory follow the machine. */
module CowSystem {
  import opened Mmu
  import opened PermBits
  import opened VmStore
  import V = VmView
  import opened VmSteps
  import opened VmTeardown
  import opened EnvId
  import opened KernelVm
  import C = Cow
  import CowSteps
  import CowRuns
  import CowReturn
  import CowPerms
  import CowFork
  import opened CowKernel

  // Live environments are allocated, and so is the child of a fork in progress, which its parent may act on.
  ghost predicate Known(envs: seq<Env>, s: C.State) {
    && |envs| == NENV
    && (forall e: nat | e in s.live :: e < NENV && envs[e].env_status != ENV_FREE)
    && (forall e: nat | !s.ForkOf(e).NoFork? :: e < NENV && ChildKnown(envs, e, s.ForkOf(e).child))
  }

  predicate ChildKnown(envs: seq<Env>, e: nat, c: nat)
    requires |envs| == NENV && e < NENV
  {
    c < NENV && envs[c].env_status != ENV_FREE && envs[c].env_parent_id == envs[e].env_id
  }

  /** The kernel is in the machine's state s. */
  ghost predicate Tracks(k: Kernel, s: C.State)
    reads k
  {
    k.Valid() && k.V().s.Shape && C.Inv(s) && Known(k.envs, s) && Sim(V.FlatOf(k.V().s), k.mem, s)
  }

  lemma ChildId(envs: seq<Env>, head: int, efree: seq<nat>, e: nat, c: nat)
    requires EnvsOk(envs, head, efree) && e < NENV && ChildKnown(envs, e, c)
    ensures envs[c].env_id > 0 && Envid2Env(envs, e, envs[c].env_id, true) == c
  {
    EnvIdsExact(envs, head, efree, e, envs[c].env_id);
  }

  // --- what one change of the flat map does to the relation ---

  lemma SimSet(v: V.View, v': V.View, s: C.State, t: C.State, a: C.Slot, en: V.Entry)
    requires v.Ok() && Sim(V.FlatOf(v.s), v.s.mem, s) && v'.s.Shape && |v'.s.mem| == |v.s.mem| && DataKept(v, v')
    requires V.FlatOf(v'.s) == V.FlatOf(v.s)[Flat(a) := en] && t.pt == s.pt[a := PteOf(en)]
    requires forall b | b in s.pt && b != a :: s.pt[b].frame in t.mem && t.mem[s.pt[b].frame] == s.mem[s.pt[b].frame]
    requires en.page < |v'.s.mem| && en.page in t.mem && t.mem[en.page] == v'.s.mem[en.page]
    ensures Sim(V.FlatOf(v'.s), v'.s.mem, t)
  {
    hide V.View.Ok;
    hide V.FlatOf;
    V.Sizes(v);
    WordsKept(v, v', s);
    SimMap(V.FlatOf(v.s), s, t, a, en);
  }

  lemma SimDrop(v: V.View, v': V.View, s: C.State, t: C.State, a: C.Slot)
    requires v.Ok() && Sim(V.FlatOf(v.s), v.s.mem, s) && v'.s.Shape && |v'.s.mem| == |v.s.mem| && DataKept(v, v')
    requires V.FlatOf(v'.s) == V.FlatOf(v.s) - {Flat(a)} && t.pt == s.pt - {a} && t.mem == s.mem
    ensures Sim(V.FlatOf(v'.s), v'.s.mem, t)
  {
    hide V.View.Ok;
    hide V.FlatOf;
    WordsKept(v, v', s);
  }

  lemma SimMem(f: V.Flat, mem: seq<seq<nat>>, mem': seq<seq<nat>>, s: C.State, t: C.State, p: nat)
    requires Sim(f, mem, s) && t.pt == s.pt && p < |mem| == |mem'| && p in s.mem
    requires p in t.mem && t.mem == s.mem[p := t.mem[p]] && t.mem[p] == mem'[p]
    requires forall q | 0 <= q < |mem| && q != p :: mem'[q] == mem[q]
    ensures Sim(f, mem', t)
  {
  }

  // --- when the kernel can follow ---

  /** The kernel makes the step: the page or the environment it hands out is the one the step names, there is memory
      for it, the 16-bit count of a page to be shared has room, and a stored word is one. */
  ghost predicate Can(k: Kernel, s: C.State, a: C.Action)
    requires k.V().s.Shape && |k.envs| == NENV && C.Enabled(s, a) && C.Inv(s) && Known(k.envs, s)
    reads k
  {
    match a
    case Write(_, _, _, v) => v >= 0
    case TempAlloc(e, f) => !NoPage(k, e, C.PFTEMP_PN) && k.free[0] == f
    case Exofork(_, c) => k.efree != [] && k.free != [] && k.efree[0] == c
    case MapChild(e) =>
      var p := s.pt[C.Slot(e, s.ForkOf(e).pn)].frame;
      !NoTable(k, s.ForkOf(e).child, s.ForkOf(e).pn) && p < |k.pages| && k.pages[p].pp_ref < 0xffff
    case ChildStack(e, f) => !NoPage(k, s.ForkOf(e).child, C.XSTACK_PN) && k.free[0] == f
    case PageAlloc(e, pn, f, _) => !NoPage(k, e, pn) && k.free[0] == f
    case _ => true
  }

  // No page, or none left for the table that page pn of environment e needs.
  ghost predicate NoPage(k: Kernel, e: nat, pn: nat)
    requires k.V().s.Shape
    reads k
  {
    k.free == [] || (|k.free| == 1 && e < NENV && PDX(pn * PGSIZE) < NUPDE && k.V().s.PdeAt(e, PDX(pn * PGSIZE)) == 0)
  }

  // --- the steps ---

  lemma ZeroWords(v: V.View, f: nat)
    requires v.s.Shape && f < |v.s.mem| && ZeroPage(v.s, f)
    ensures v.s.mem[f] == C.Zero()
  {
  }

  /** sys_page_alloc: the machine's TempAlloc, ChildStack and PageAlloc. */
  method Alloc(k: Kernel, cur: nat, id: int, dst: nat, pn: nat, w: bool, ghost s: C.State, ghost t: C.State)
      returns (r: int)
    requires k.Valid() && k.Caller(cur) && k.V().s.Shape && Sim(V.FlatOf(k.V().s), k.mem, s) && pn < NUPN
    requires Envid2Env(k.envs, cur, id, true) == dst
    requires !NoPage(k, dst, pn) ==>
               && t.pt == s.pt[C.Slot(dst, pn) := C.Pte(k.free[0], w, false)] && t.mem == s.mem[k.free[0] := C.Zero()]
    modifies k
    ensures k.Valid() && k.envs == old(k.envs) && k.V().s.Shape
    ensures r == if old(NoPage(k, dst, pn)) then -E_NO_MEM else 0
    ensures Sim(V.FlatOf(k.V().s), k.mem, if r == 0 then t else s)
    ensures r != 0 ==> k.free == []
  {
    hide V.View.Ok;
    hide V.FlatOf;
    hide EnvsOk;
    hide Sim;
    ghost var v := k.V();
    PageAddress(pn);
    UserAddress(pn * PGSIZE);
    Perms();
    r := k.SysPageAlloc(cur, id, pn * PGSIZE, if w then 0x7 else 0x5);
    if r == 0 {
      ghost var f := v.free[0];
      FreeIsUnmapped(v, f);
      ZeroWords(k.V(), f);
      AllocSim(v, k.V(), s, t, C.Slot(dst, pn), f, w);
    } else {
      AllocFailed(v, k.V(), s);
    }
  }

  lemma AllocFailed(v: V.View, v': V.View, s: C.State)
    requires v.Ok() && Sim(V.FlatOf(v.s), v.s.mem, s) && v'.s.Shape && |v'.s.mem| == |v.s.mem| && DataKept(v, v')
    requires V.FlatOf(v'.s) == V.FlatOf(v.s)
    ensures Sim(V.FlatOf(v'.s), v'.s.mem, s)
  {
    WordsKept(v, v', s);
  }

  lemma AllocSim(v: V.View, v': V.View, s: C.State, t: C.State, a: C.Slot, f: nat, w: bool)
    requires v.Ok() && Sim(V.FlatOf(v.s), v.s.mem, s) && v'.s.Shape && |v'.s.mem| == |v.s.mem| && DataKept(v, v')
    requires V.FlatOf(v'.s) == V.FlatOf(v.s)[Flat(a) := V.Entry(f, if w then 0x7 else 0x5)]
    requires forall sl | sl in V.FlatOf(v.s) :: V.FlatOf(v.s)[sl].page != f
    requires t.pt == s.pt[a := C.Pte(f, w, false)] && t.mem == s.mem[f := C.Zero()]
    requires f < |v'.s.mem| && v'.s.mem[f] == C.Zero()
    ensures Sim(V.FlatOf(v'.s), v'.s.mem, t)
  {
    hide V.View.Ok;
    hide V.FlatOf;
    V.Sizes(v);
    Perms();
    forall b | b in s.pt
      ensures s.pt[b].frame != f
    {
      assert Flat(b) in V.FlatOf(v.s);
    }
    SimSet(v, v', s, t, a, V.Entry(f, if w then 0x7 else 0x5));
  }

  /** sys_page_unmap: the machine's TempUnmap and PageUnmap. */
  method Unmap(k: Kernel, cur: nat, pn: nat, ghost s: C.State, ghost t: C.State)
    requires k.Valid() && k.Caller(cur) && k.V().s.Shape && Sim(V.FlatOf(k.V().s), k.mem, s) && pn < NUPN
    requires t.pt == s.pt - {C.Slot(cur, pn)} && t.mem == s.mem
    modifies k
    ensures k.Valid() && k.envs == old(k.envs) && k.V().s.Shape && Sim(V.FlatOf(k.V().s), k.mem, t)
  {
    hide V.View.Ok;
    hide V.FlatOf;
    hide EnvsOk;
    hide Sim;
    ghost var v := k.V();
    PageAddress(pn);
    OwnId(k.envs, cur);
    var r := k.SysPageUnmap(cur, 0, pn * PGSIZE);
    SimDrop(v, k.V(), s, t, C.Slot(cur, pn));
  }

  /** A user store: the machine's Write. */
  method StoreWord(k: Kernel, cur: nat, pn: nat, off: nat, w: nat, ghost s: C.State)
    requires Models(k, cur, s) && C.Enabled(s, C.Write(cur, pn, off, w))
    modifies k`mem
    ensures Models(k, cur, C.Store(s, cur, pn, off, w))
  {
    hide V.View.Ok;
    hide V.FlatOf;
    hide EnvsOk;
    ghost var mem := k.mem;
    SlotFacts(k, cur, pn, s);
    assert Flat(C.Slot(cur, pn)) == V.Slot(cur, pn);
    var fault := k.UserStore(cur, pn * PGSIZE, off, w);
    ghost var p := s.pt[C.Slot(cur, pn)].frame;
    V.Sizes(k.V());
    assert k.mem[p] == s.mem[p][off := w as int];
    SimMem(V.FlatOf(k.V().s), mem, k.mem, s, C.Store(s, cur, pn, off, w), p);
  }

  /** One word of memmove: the machine's TempCopy. */
  method CopyOne(k: Kernel, cur: nat, pn: nat, i: nat, ghost s: C.State)
    requires Models(k, cur, s) && C.Inv(s) && C.Enabled(s, C.TempCopy(cur)) && s.FaultOf(cur) == C.Copying(pn, i)
    modifies k`mem
    ensures Models(k, cur, C.DoTempCopy(s, cur))
  {
    hide V.View.Ok;
    hide V.FlatOf;
    hide EnvsOk;
    ghost var mem := k.mem;
    assert C.FaultOk(s, cur);
    hide C.Inv;
    SlotFacts(k, cur, pn, s);
    SlotFacts(k, cur, C.PFTEMP_PN, s);
    TempSlot(cur);
    assert Flat(C.Slot(cur, pn)) == V.Slot(cur, pn) && Flat(C.Slot(cur, C.PFTEMP_PN)) == V.Slot(cur, C.PFTEMP_PN);
    CopyWord(k, cur, pn * PGSIZE, i);
    ghost var src, dst := s.pt[C.Slot(cur, pn)].frame, s.pt[C.Slot(cur, C.PFTEMP_PN)].frame;
    V.Sizes(k.V());
    assert k.mem[dst] == s.mem[dst][i := s.mem[src][i]];
    SimMem(V.FlatOf(k.V().s), mem, k.mem, s, C.DoTempCopy(s, cur), dst);
  }

  // While the handler copies, PFTEMP's page is mapped nowhere else.
  lemma TempUnshared(s: C.State, e: nat, b: C.Slot)
    requires C.Inv(s) && s.FaultOf(e).Copying? && b in s.pt
    ensures C.Slot(e, C.PFTEMP_PN) in s.pt &&
            (s.pt[b].frame == s.pt[C.Slot(e, C.PFTEMP_PN)].frame ==> b == C.Slot(e, C.PFTEMP_PN))
  {
    assert C.FaultOk(s, e) && C.ForkOk(s, e);
  }

  lemma TempAlone(v: V.View, s: C.State, e: nat)
    requires v.Ok() && v.held == NULL && Sim(V.FlatOf(v.s), v.s.mem, s) && C.Inv(s) && s.FaultOf(e).Copying?
    requires C.Slot(e, C.PFTEMP_PN) in s.pt
    ensures var p := s.pt[C.Slot(e, C.PFTEMP_PN)].frame; p < |v.pages| && v.pages[p].pp_ref == 1
  {
    hide V.FlatOf;
    hide V.View.Ok;
    hide C.Inv;
    var a := C.Slot(e, C.PFTEMP_PN);
    V.Sizes(v);
    forall o | o in V.FlatOf(v.s) && V.FlatOf(v.s)[o].page == s.pt[a].frame
      ensures o == Flat(a)
    {
      var b := C.Slot(o.e, o.vpn);
      assert Flat(b) == o && b in s.pt;
      TempUnshared(s, e, b);
    }
    MappedOnce(v, Flat(a), s.pt[a].frame);
  }

  // The arguments of the call are accepted.
  lemma SwapArguments(k: Kernel, cur: nat, pn: nat, s: C.State)
    requires Models(k, cur, s) && C.Slot(cur, pn) in s.pt && C.Slot(cur, C.PFTEMP_PN) in s.pt
    requires s.pt[C.Slot(cur, C.PFTEMP_PN)].w
    requires var p := s.pt[C.Slot(cur, C.PFTEMP_PN)].frame; p < |k.pages| && k.pages[p].pp_ref == 1
    ensures k.Now().Shaped() && cur < NENV && pn * PGSIZE < UTOP && SlotOf(cur, pn * PGSIZE) == V.Slot(cur, pn)
    ensures k.Now().MapResult(cur, 0, PFTEMP, 0, pn * PGSIZE, 0x7) == 0
    ensures k.Now().MapKeeps(cur, 0, PFTEMP, 0, pn * PGSIZE, 0x7)
    ensures k.V().s.Target(k.Now().At(cur, 0, PFTEMP)) == s.pt[C.Slot(cur, C.PFTEMP_PN)].frame
    ensures SlotOfRef(k.Now().At(cur, 0, pn * PGSIZE)) == V.Slot(cur, pn)
  {
    hide V.View.Ok;
    hide V.FlatOf;
    hide EnvsOk;
    hide Sim;
    SlotFacts(k, cur, pn, s);
    SlotFacts(k, cur, C.PFTEMP_PN, s);
    OwnTable(k, cur, pn, s);
    TempSlot(cur);
    OwnId(k.envs, cur);
    UserAddress(pn * PGSIZE);
    assert C.PFTEMP_PN * PGSIZE == PFTEMP;
  }

  lemma SwapSim(v: V.View, v': V.View, s: C.State, e: nat, pn: nat, f: nat)
    requires v.Ok() && Sim(V.FlatOf(v.s), v.s.mem, s) && v'.s.Shape && |v'.s.mem| == |v.s.mem| && DataKept(v, v')
    requires C.Enabled(s, C.TempMap(e)) && s.FaultOf(e).pn == pn && s.pt[C.Slot(e, C.PFTEMP_PN)].frame == f
    requires V.FlatOf(v'.s) == V.FlatOf(v.s)[V.Slot(e, pn) := V.Entry(f, 0x7)]
    ensures Sim(V.FlatOf(v'.s), v'.s.mem, C.DoTempMap(s, e))
  {
    hide V.View.Ok;
    hide V.FlatOf;
    Perms();
    WordsKept(v, v', s);
    SimSet(v, v', s, C.DoTempMap(s, e), C.Slot(e, pn), V.Entry(f, 0x7));
  }

  /** sys_page_map(0, PFTEMP, 0, addr, PTE_P|PTE_U|PTE_W): the machine's TempMap. */
  method SwapIn(k: Kernel, cur: nat, pn: nat, ghost s: C.State)
    requires Models(k, cur, s) && C.Inv(s) && C.Enabled(s, C.TempMap(cur)) && s.FaultOf(cur).pn == pn
    modifies k
    ensures k.envs == old(k.envs) && Models(k, cur, C.DoTempMap(s, cur))
  {
    hide V.View.Ok;
    hide V.FlatOf;
    hide EnvsOk;
    ghost var v, f := k.V(), s.pt[C.Slot(cur, C.PFTEMP_PN)].frame;
    assert C.FaultOk(s, cur);
    TempAlone(v, s, cur);
    SwapArguments(k, cur, pn, s);
    PageAddress(pn);
    OwnId(k.envs, cur);
    hide C.Inv;
    hide Sim;
    Perms();
    var r := k.SysPageMap(cur, 0, PFTEMP, 0, pn * PGSIZE, 0x7);
    SwapSim(v, k.V(), s, cur, pn, f);
  }

  /** sys_exofork */
  method NewChild(k: Kernel, cur: nat, ghost s: C.State) returns (r: int)
    requires Models(k, cur, s)
    modifies k
    ensures k.Valid() && k.V().s.Shape && Sim(V.FlatOf(k.V().s), k.mem, s)
    ensures r > 0 <==> old(k.efree) != [] && old(k.free) != []
    ensures r <= 0 ==> k.envs == old(k.envs) && k.V() == old(k.V()) && k.efree == old(k.efree)
    ensures r > 0 ==>
              && old(k.efree)[0] < NENV && |k.envs| == NENV && old(k.envs[k.efree[0]].env_status) == ENV_FREE
              && ChildKnown(k.envs, cur, old(k.efree)[0])
              && forall i | 0 <= i < NENV && i != old(k.efree)[0] :: k.envs[i] == old(k.envs[i])
  {
    hide V.View.Ok;
    hide V.FlatOf;
    hide EnvsOk;
    ghost var v := k.V();
    r := k.SysExofork(cur);
    WordsKept(v, k.V(), s);
  }

  /** env_destroy of the caller: the machine's Exit. */
  method Leave(k: Kernel, cur: nat, ghost s: C.State)
    requires Models(k, cur, s)
    modifies k
    ensures k.Valid() && k.V().s.Shape && Sim(V.FlatOf(k.V().s), k.mem, C.DoExit(s, cur)) && |k.envs| == NENV
    ensures forall i | 0 <= i < NENV && i != cur :: k.envs[i] == old(k.envs[i])
  {
    hide V.View.Ok;
    hide V.FlatOf;
    hide EnvsOk;
    ghost var v := k.V();
    OwnId(k.envs, cur);
    var r := k.SysEnvDestroy(cur, 0);
    V.Sizes(k.V());
    LeaveSim(v, k.V(), s, cur);
  }

  lemma LeaveSim(v: V.View, v': V.View, s: C.State, e: nat)
    requires v.Ok() && Sim(V.FlatOf(v.s), v.s.mem, s) && TornDown(v, v', e)
    ensures v'.s.Shape && Sim(V.FlatOf(v'.s), v'.s.mem, C.DoExit(s, e))
  {
    V.Sizes(v');
    var t := C.DoExit(s, e);
    forall a | a in t.pt
      ensures t.pt[a].frame < |v'.s.mem| && v'.s.mem[t.pt[a].frame] == v.s.mem[t.pt[a].frame]
    {
      assert Flat(a) in V.FlatOf(v.s) && Flat(a) in V.FlatOf(v'.s);
      MappedFrame(v, Flat(a));
      MappedFrame(v', Flat(a));
    }
  }

  // --- any step ---

  lemma ActorLive(s: C.State, a: C.Action)
    requires C.Enabled(s, a)
    ensures a.e in s.live
  {
  }

  lemma InvStep(s: C.State, a: C.Action)
    requires C.Inv(s) && C.Enabled(s, a) && !C.Stale(s, a)
    ensures C.Inv(C.Step(s, a))
  {
    hide C.Step;
    hide C.Enabled;
    hide C.Stale;
    CowRuns.StepKeeps(s, a, CowFork.ViewOf(s));
  }

  // Steps that neither make nor end an environment.
  lemma KnownStep(envs: seq<Env>, s: C.State, a: C.Action)
    requires Known(envs, s) && C.Enabled(s, a) && !a.Exofork? && !a.Start? && !a.Exit? && !a.Kill?
    ensures Known(envs, C.Step(s, a))
  {
    var t := C.Step(s, a);
    assert t.live == s.live;
    forall e: nat
      ensures !t.ForkOf(e).NoFork? ==> !s.ForkOf(e).NoFork? && t.ForkOf(e).child == s.ForkOf(e).child
    {
    }
  }

  lemma TracksModels(k: Kernel, s: C.State, a: C.Action)
    requires Tracks(k, s) && C.Enabled(s, a)
    ensures a.e < NENV && Models(k, a.e, s)
  {
    hide C.Inv;
    hide V.View.Ok;
    hide V.FlatOf;
    hide EnvsOk;
    hide Sim;
    ActorLive(s, a);
  }

  // The three calls that hand out a page.
  method DoTempAlloc(k: Kernel, s: C.State, a: C.Action) returns (ok: bool)
    requires Tracks(k, s) && C.Enabled(s, a) && a.TempAlloc?
    modifies k
    ensures k.Valid() && k.V().s.Shape && k.envs == old(k.envs)
    ensures ok <==> old(Can(k, s, a))
    ensures Sim(V.FlatOf(k.V().s), k.mem, if ok then C.Step(s, a) else s)
    ensures !ok ==> !Can(k, s, a)
  {
    hide C.Inv;
    hide V.View.Ok;
    hide V.FlatOf;
    hide EnvsOk;
    hide Sim;
    TracksModels(k, s, a);
    OwnId(k.envs, a.e);
    HeadOfFree(k.V());
    if k.page_free_list != a.f {
      return false;
    }
    var r := Alloc(k, a.e, 0, a.e, C.PFTEMP_PN, true, s, C.Step(s, a));
    ok := r == 0;
  }

  method DoChildStack(k: Kernel, s: C.State, a: C.Action) returns (ok: bool)
    requires Tracks(k, s) && C.Enabled(s, a) && a.ChildStack?
    modifies k
    ensures k.Valid() && k.V().s.Shape && k.envs == old(k.envs)
    ensures ok <==> old(Can(k, s, a))
    ensures Sim(V.FlatOf(k.V().s), k.mem, if ok then C.Step(s, a) else s)
    ensures !ok ==> !Can(k, s, a)
  {
    hide C.Inv;
    hide V.View.Ok;
    hide V.FlatOf;
    hide EnvsOk;
    hide Sim;
    TracksModels(k, s, a);
    HeadOfFree(k.V());
    if k.page_free_list != a.f {
      return false;
    }
    var c := s.ForkOf(a.e).child;
    ChildId(k.envs, k.env_free_list, k.efree, a.e, c);
    var r := Alloc(k, a.e, k.envs[c].env_id, c, C.XSTACK_PN, true, s, C.Step(s, a));
    ok := r == 0;
  }

  method DoPageAlloc(k: Kernel, s: C.State, a: C.Action) returns (ok: bool)
    requires Tracks(k, s) && C.Enabled(s, a) && a.PageAlloc?
    modifies k
    ensures k.Valid() && k.V().s.Shape && k.envs == old(k.envs)
    ensures ok <==> old(Can(k, s, a))
    ensures Sim(V.FlatOf(k.V().s), k.mem, if ok then C.Step(s, a) else s)
    ensures !ok ==> !Can(k, s, a)
  {
    hide C.Inv;
    hide V.View.Ok;
    hide V.FlatOf;
    hide EnvsOk;
    hide Sim;
    TracksModels(k, s, a);
    OwnId(k.envs, a.e);
    HeadOfFree(k.V());
    if k.page_free_list != a.f {
      return false;
    }
    var r := Alloc(k, a.e, 0, a.e, a.pn, a.w, s, C.Step(s, a));
    ok := r == 0;
  }

  lemma HeadOfFree(v: V.View)
    requires v.Ok()
    ensures v.head == if v.free == [] then NULL else v.free[0]
  {
  }

  // duppage's calls.
  lemma MapSteps(s: C.State, e: nat)
    requires C.Inv(s)
    ensures C.Enabled(s, C.MapChild(e)) ==>
              var c, pn := s.ForkOf(e).child, s.ForkOf(e).pn;
              var t := C.DoMapChild(s, e);
              t.mem == s.mem && c != e &&
              t.pt == s.pt[C.Slot(c, pn) := C.Pte(s.pt[C.Slot(e, pn)].frame, false, !C.SawReadOnly(s, e))]
    ensures C.Enabled(s, C.DupEnd(e)) ==>
              var pn, t := s.ForkOf(e).pn, C.DoDupEnd(s, e);
              t.mem == s.mem && t.pt == s.pt[C.Slot(e, pn) := C.Pte(s.pt[C.Slot(e, pn)].frame, false, true)]
  {
    assert C.ForkOk(s, e);
  }

  lemma MapFacts(k: Kernel, s: C.State, e: nat, c: nat, pn: nat)
    requires s.ForkOf(e).Seen? && s.ForkOf(e).child == c && s.ForkOf(e).pn == pn && C.Slot(e, pn) in s.pt
    requires C.Enabled(s, C.MapChild(e)) && Tracks(k, s)
    ensures e < NENV && Models(k, e, s) && |k.envs| == NENV && c < NENV && s.pt[C.Slot(e, pn)].frame < |k.pages|
    ensures Envid2Env(k.envs, e, k.envs[c].env_id, true) == c && k.envs[c].env_id != 0
  {
    hide C.Inv;
    hide V.View.Ok;
    hide V.FlatOf;
    hide EnvsOk;
    hide Sim;
    TracksModels(k, s, C.MapChild(e));
    ChildId(k.envs, k.env_free_list, k.efree, e, c);
    SlotFacts(k, e, pn, s);
  }

  // The call, unless the page's count is full.
  method MapCounted(k: Kernel, cur: nat, id: int, pn: nat, p: nat, perm: nat, ghost c: nat, ghost s: C.State,
                    ghost t: C.State)
    returns (ok: bool)
    requires Models(k, cur, s) && C.Slot(cur, pn) in s.pt && s.pt[C.Slot(cur, pn)].frame == p < |k.pages|
    requires (perm == 0x805 || perm == 0x5) && Envid2Env(k.envs, cur, id, true) == c
    requires t.mem == s.mem && t.pt == s.pt[C.Slot(c, pn) := C.Pte(p, false, perm == 0x805)]
    modifies k
    ensures k.envs == old(k.envs) && Models(k, cur, if ok then t else s)
    ensures ok <==> old(!NoTable(k, c, pn) && k.pages[p].pp_ref < 0xffff)
    ensures !ok ==> k.V() == old(k.V())
  {
    hide Models;
    hide NoTable;
    hide Envid2Env;
    ok := k.pages[p].pp_ref < 0xffff;
    if ok {
      var r := MapSame(k, cur, id, pn, perm, s, t);
      ok := r == 0;
    }
  }

  // The calls that make, start and end environments.
  method DoExofork(k: Kernel, s: C.State, e: nat, c: nat) returns (ok: bool)
    requires Tracks(k, s) && C.Enabled(s, C.Exofork(e, c))
    modifies k
    ensures ok <==> old(Can(k, s, C.Exofork(e, c)))
    ensures Tracks(k, if ok then C.DoExofork(s, e, c) else s)
    ensures !ok ==> k.V() == old(k.V()) && k.efree == old(k.efree)
  {
    InvStep(s, C.Exofork(e, c));
    hide C.Inv;
    hide V.View.Ok;
    hide V.FlatOf;
    hide EnvsOk;
    hide Sim;
    TracksModels(k, s, C.Exofork(e, c));
    EnvFacts(k.envs, k.env_free_list, k.efree);
    if k.env_free_list != c {
      return false;
    }
    ghost var envs := k.envs;
    var r := NewChild(k, e, s);
    ok := r > 0;
    if ok {
      KnownNew(envs, k.envs, s, e, c);
      SimSame(V.FlatOf(k.V().s), k.mem, s, C.DoExofork(s, e, c));
    }
  }

  lemma SimSame(f: V.Flat, mem: seq<seq<nat>>, s: C.State, t: C.State)
    requires Sim(f, mem, s) && t.pt == s.pt && t.mem == s.mem
    ensures Sim(f, mem, t)
  {
  }

  lemma KnownNew(envs: seq<Env>, envs': seq<Env>, s: C.State, e: nat, c: nat)
    requires Known(envs, s) && |envs'| == NENV && e < NENV && e in s.live && c < NENV && envs[c].env_status == ENV_FREE
    requires ChildKnown(envs', e, c) && s.ForkOf(c).NoFork? && forall i | 0 <= i < NENV && i != c :: envs'[i] == envs[i]
    ensures Known(envs', C.DoExofork(s, e, c))
  {
    var t := C.DoExofork(s, e, c);
    forall i: nat | !t.ForkOf(i).NoFork?
      ensures i < NENV && ChildKnown(envs', i, t.ForkOf(i).child)
    {
      if i != e {
        assert t.ForkOf(i) == s.ForkOf(i) && ChildKnown(envs, i, s.ForkOf(i).child);
        assert i != c;
      }
    }
  }

  method DoStart(k: Kernel, s: C.State, e: nat)
    requires Tracks(k, s) && C.Enabled(s, C.Start(e))
    modifies k
    ensures Tracks(k, C.DoStart(s, e))
  {
    InvStep(s, C.Start(e));
    hide C.Inv;
    hide V.View.Ok;
    hide V.FlatOf;
    hide EnvsOk;
    hide Sim;
    TracksModels(k, s, C.Start(e));
    var c := s.ForkOf(e).child;
    ChildId(k.envs, k.env_free_list, k.efree, e, c);
    ghost var envs := k.envs;
    var r := k.SysEnvSetStatus(e, k.envs[c].env_id, ENV_RUNNABLE);
    KnownStarted(envs, k.envs, s, e);
    SimSame(V.FlatOf(k.V().s), k.mem, s, C.DoStart(s, e));
  }

  lemma KnownStarted(envs: seq<Env>, envs': seq<Env>, s: C.State, e: nat)
    requires Known(envs, s) && s.ForkOf(e).Last?
    requires var c := s.ForkOf(e).child; envs' == envs[c := envs[c].(env_status := ENV_RUNNABLE)]
    ensures Known(envs', s.(live := s.live + {s.ForkOf(e).child}, fork := s.fork[e := C.NoFork]))
  {
    var t := s.(live := s.live + {s.ForkOf(e).child}, fork := s.fork[e := C.NoFork]);
    forall i: nat | !t.ForkOf(i).NoFork?
      ensures i < NENV && ChildKnown(envs', i, t.ForkOf(i).child)
    {
      assert t.ForkOf(i) == s.ForkOf(i) && ChildKnown(envs, i, s.ForkOf(i).child);
    }
  }

  method DoExit(k: Kernel, s: C.State, e: nat)
    requires Tracks(k, s) && C.Enabled(s, C.Exit(e))
    modifies k
    ensures Tracks(k, C.DoExit(s, e))
  {
    InvStep(s, C.Exit(e));
    ghost var envs := k.envs;
    TracksModels(k, s, C.Exit(e));
    KnownLeft(envs, s, e);
    hide C.Inv;
    hide V.View.Ok;
    hide V.FlatOf;
    hide EnvsOk;
    hide Sim;
    hide C.DoExit;
    Leave(k, e, s);
    assert Known(k.envs, C.DoExit(s, e));
  }

  // Nobody is forking into, or on behalf of, an idle live environment.
  lemma KnownLeft(envs: seq<Env>, s: C.State, e: nat)
    requires Known(envs, s) && C.Inv(s) && C.Enabled(s, C.Exit(e))
    ensures forall envs' | |envs'| == NENV && (forall i | 0 <= i < NENV && i != e :: envs'[i] == envs[i]) ::
              Known(envs', C.DoExit(s, e))
  {
    var t := C.DoExit(s, e);
    forall envs': seq<Env> | |envs'| == NENV && (forall i | 0 <= i < NENV && i != e :: envs'[i] == envs[i])
      ensures Known(envs', t)
    {
      forall i: nat | !t.ForkOf(i).NoFork?
        ensures i < NENV && ChildKnown(envs', i, t.ForkOf(i).child)
      {
        assert t.ForkOf(i) == s.ForkOf(i) && ChildKnown(envs, i, s.ForkOf(i).child) && C.ForkOk(s, i);
      }
    }
  }

  // Steps that change pages or nothing, and no environment.
  method PageStep(k: Kernel, s: C.State, a: C.Action) returns (ok: bool)
    requires Tracks(k, s) && C.Enabled(s, a) && !a.Exofork? && !a.Start? && !a.Exit? && !a.Kill?
    modifies k
    ensures k.Valid() && k.V().s.Shape && k.envs == old(k.envs)
    ensures ok <==> old(Can(k, s, a))
    ensures Sim(V.FlatOf(k.V().s), k.mem, if ok then C.Step(s, a) else s)
    ensures !ok ==> !Can(k, s, a)
  {
    hide V.View.Ok;
    hide V.FlatOf;
    hide EnvsOk;
    hide Sim;
    hide NoPage;
    hide C.Inv;
    TracksModels(k, s, a);
    TempSlot(a.e);
    ok := true;
    match a {
      case Write(e, pn, off, v) =>
        ok := v >= 0;
        if ok {
          StoreWord(k, e, pn, off, v, s);
        }
      case Trap(_, _) => SimSame(V.FlatOf(k.V().s), k.mem, s, C.Step(s, a));
      case TempAlloc(_, _) => ok := DoTempAlloc(k, s, a);
      case TempCopy(e) => CopyOne(k, e, s.FaultOf(e).pn, s.FaultOf(e).k, s);
      case TempMap(e) => SwapIn(k, e, s.FaultOf(e).pn, s);
      case TempUnmap(e) => Unmap(k, e, C.PFTEMP_PN, s, C.Step(s, a));
      case Look(_) => SimSame(V.FlatOf(k.V().s), k.mem, s, C.Step(s, a));
      case SetUpcall(_) => SimSame(V.FlatOf(k.V().s), k.mem, s, C.Step(s, a));
      case Handle(_) => SimSame(V.FlatOf(k.V().s), k.mem, s, C.Step(s, a));
      case MapChild(e) =>
        var c, n := s.ForkOf(e).child, s.ForkOf(e).pn;
        var perm := if C.SawReadOnly(s, e) then 0x5 else 0x805;
        MapSteps(s, e);
        MapFacts(k, s, e, c, n);
        ok := MapCounted(k, e, k.envs[c].env_id, n, s.pt[C.Slot(e, n)].frame, perm, c, s, C.Step(s, a));
      case DupEnd(e) =>
        MapSteps(s, e);
        OwnId(k.envs, e);
        OwnTable(k, e, s.ForkOf(e).pn, s);
        var r := MapSame(k, e, 0, s.ForkOf(e).pn, 0x805, s, C.Step(s, a));
      case ChildStack(_, _) => ok := DoChildStack(k, s, a);
      case PageAlloc(_, _, _, _) => ok := DoPageAlloc(k, s, a);
      case PageUnmap(e, pn) => Unmap(k, e, pn, s, C.Step(s, a));
    }
  }

  // Steps that make, start or end an environment.
  method EnvStep(k: Kernel, s: C.State, a: C.Action) returns (ok: bool)
    requires Tracks(k, s) && C.Enabled(s, a) && (a.Exofork? || a.Start? || a.Exit? || a.Kill?)
    modifies k
    ensures ok <==> old(Can(k, s, a))
    ensures Tracks(k, if ok then C.Step(s, a) else s)
    ensures !ok ==> !Can(k, s, a)
  {
    hide Tracks;
    hide C.Enabled;
    hide C.Inv;
    ok := true;
    StepIs(s, a);
    match a {
      case Exofork(e, c) => ok := DoExofork(k, s, e, c);
      case Start(e) => DoStart(k, s, e);
      case Exit(e) => DoExit(k, s, e);
      case Kill(e, pn) =>
        CowRuns.KillIsExit(s, e, pn);
        DoExit(k, s, e);
    }
  }

  lemma StepIs(s: C.State, a: C.Action)
    requires C.Enabled(s, a)
    ensures a.Exofork? ==> C.Step(s, a) == C.DoExofork(s, a.e, a.c)
    ensures a.Start? ==> C.Step(s, a) == C.DoStart(s, a.e)
    ensures a.Exit? ==> C.Step(s, a) == C.DoExit(s, a.e)
  {
  }

  /** One step of the machine, made by the kernel. */
  method Step(k: Kernel, s: C.State, a: C.Action) returns (ok: bool)
    requires Tracks(k, s) && C.Enabled(s, a) && !C.Stale(s, a)
    modifies k
    ensures ok <==> old(Can(k, s, a))
    ensures Tracks(k, if ok then C.Step(s, a) else s)
    ensures !ok ==> Stopped(k, s, a)
  {
    hide V.View.Ok;
    hide V.FlatOf;
    hide EnvsOk;
    hide Sim;
    hide C.Inv;
    hide C.Enabled;
    hide C.Step;
    hide Can;
    if a.Exofork? || a.Start? || a.Exit? || a.Kill? {
      ok := EnvStep(k, s, a);
    } else {
      InvStep(s, a);
      KnownStep(k.envs, s, a);
      ok := PageStep(k, s, a);
    }
  }

  // What the page tables give environment e at page pn, and what v says.
  ghost predicate ReadsPage(k: Kernel, e: nat, pn: nat, v: map<C.Slot, C.Page>)
    requires k.V().s.Shape
    reads k
  {
    var f, a := V.FlatOf(k.V().s), C.Slot(e, pn);
    (Flat(a) in f <==> a in v) && (a in v ==> f[Flat(a)].page < |k.mem| && k.mem[f[Flat(a)].page] == v[a])
  }

  /** What the live environments read through the kernel's page tables is what the eager machine holds for them, with
      pages copied when duppage copies them in effect, or when it returns. */
  ghost predicate KernelReads(k: Kernel, s: C.State, acts: seq<C.Action>, live: set<nat>, late: bool)
    requires k.V().s.Shape && CowRuns.Run(s, acts) && C.Backed(s)
    reads k
  {
    forall e, pn: nat | e in live && pn != C.PFTEMP_PN ::
      ReadsPage(k, e, pn, CowRuns.EagerRun(CowRuns.Private(s), CowRuns.Events(s, acts, late)))
  }

  // At page pn of environment e the page tables give the right u says: PTE_W, or PTE_COW and a copy on the first store.
  ghost predicate GivesRight(k: Kernel, e: nat, pn: nat, u: CowPerms.Rights)
    requires k.V().s.Shape
    reads k
  {
    var f, a := V.FlatOf(k.V().s), C.Slot(e, pn);
    (Flat(a) in f <==> a in u) && (a in u ==> u[a] == (Writable(f[Flat(a)].perm) || f[Flat(a)].perm / 0x800 % 2 == 1))
  }

  /** The live environments have the rights they would have if fork copied them, and whoever was started by fork can be
      given its page faults: its exception stack is mapped writable, until it replaces it or gives it up. */
  ghost predicate KernelGrants(k: Kernel, s: C.State, acts: seq<C.Action>, live: set<nat>)
    requires k.V().s.Shape && CowRuns.Run(s, acts)
    reads k
  {
    && (forall e, pn: nat | e in live && pn != C.PFTEMP_PN ::
          GivesRight(k, e, pn, CowPerms.GrantRun(CowPerms.Owned(s), s, acts)))
    && (forall c: nat | c in CowPerms.LaunchedIn(s, acts, {}) :: StackMapped(k, c))
  }

  ghost predicate StackMapped(k: Kernel, c: nat)
    requires k.V().s.Shape
    reads k
  {
    var f, a := V.FlatOf(k.V().s), SlotOf(c, UXSTACKTOP - PGSIZE);
    a in f && Writable(f[a].perm)
  }

  lemma Granted(k: Kernel, t: C.State, u: CowPerms.Rights, plain: bool, e: nat, pn: nat)
    requires Tracks(k, t) && CowPerms.Allowed(t, u, plain) && e in t.live && pn != C.PFTEMP_PN
    ensures GivesRight(k, e, pn, u)
  {
    hide V.View.Ok;
    hide V.FlatOf;
    hide EnvsOk;
    hide C.Inv;
    var a := C.Slot(e, pn);
    assert a in t.pt <==> Flat(a) in V.FlatOf(k.V().s);
    assert a in t.pt ==> t.pt[a] == PteOf(V.FlatOf(k.V().s)[Flat(a)]);
  }

  lemma StackIsMapped(k: Kernel, t: C.State, c: nat)
    requires Tracks(k, t) && CowPerms.StackOk(t, c)
    ensures StackMapped(k, c)
  {
    hide V.View.Ok;
    hide V.FlatOf;
    hide EnvsOk;
    hide C.Inv;
    assert Flat(C.Slot(c, C.XSTACK_PN)) == SlotOf(c, UXSTACKTOP - PGSIZE);
    assert t.pt[C.Slot(c, C.XSTACK_PN)] == PteOf(V.FlatOf(k.V().s)[Flat(C.Slot(c, C.XSTACK_PN))]);
  }

  lemma ConcludeRights(k: Kernel, s: C.State, acts: seq<C.Action>, t: C.State)
    requires CowRuns.Begin(s) && CowRuns.Run(s, acts) && t == CowRuns.After(s, acts) && Tracks(k, t)
    ensures KernelGrants(k, s, acts, t.live)
  {
    assert k.V().s.Shape;
    hide Tracks;
    CowPerms.RightsCopied(s, acts);
    hide CowPerms.Allowed;
    hide CowPerms.StackOk;
    hide C.Enabled;
    var u := CowPerms.GrantRun(CowPerms.Owned(s), s, acts);
    forall e, pn: nat | e in t.live && pn != C.PFTEMP_PN
      ensures GivesRight(k, e, pn, u)
    {
      Granted(k, t, u, CowPerms.StacksPlain(s), e, pn);
    }
    forall c: nat | c in CowPerms.LaunchedIn(s, acts, {})
      ensures StackMapped(k, c)
    {
      StackIsMapped(k, t, c);
    }
  }

  lemma {:induction false} RunPrefix(s: C.State, acts: seq<C.Action>, n: nat)
    requires CowRuns.Run(s, acts) && n <= |acts|
    ensures CowRuns.Run(s, acts[..n])
    ensures n < |acts| ==>
              var t := CowRuns.After(s, acts[..n]);
              && C.Enabled(t, acts[n]) && !C.Stale(t, acts[n])
              && CowRuns.Run(s, acts[..n + 1]) && CowRuns.After(s, acts[..n + 1]) == C.Step(t, acts[n])
    decreases n
  {
    hide C.Enabled;
    hide C.Stale;
    hide C.Step;
    if n > 0 {
      RunPrefix(C.Step(s, acts[0]), acts[1..], n - 1);
      assert acts[1..][..n - 1] == acts[..n][1..];
      if n < |acts| {
        assert acts[1..][..n] == acts[..n + 1][1..];
      }
    } else if |acts| > 0 {
      assert acts[..1][1..] == [];
    }
  }

  lemma Agreed(k: Kernel, t: C.State, v: map<C.Slot, C.Page>, e: nat, pn: nat)
    requires Tracks(k, t) && CowRuns.Agrees(t, v) && e in t.live && pn != C.PFTEMP_PN
    ensures ReadsPage(k, e, pn, v)
  {
    hide V.View.Ok;
    hide V.FlatOf;
    hide EnvsOk;
    hide C.Inv;
    assert C.Slot(e, pn) in t.pt <==> Flat(C.Slot(e, pn)) in V.FlatOf(k.V().s);
  }

  lemma Conclude(k: Kernel, s: C.State, acts: seq<C.Action>, t: C.State)
    requires CowRuns.Begin(s) && CowRuns.Run(s, acts) && t == CowRuns.After(s, acts) && Tracks(k, t)
    ensures KernelReads(k, s, acts, t.live, false)
    ensures CowReturn.Timely(s, acts) ==> KernelReads(k, s, acts, t.live, true)
  {
    assert k.V().s.Shape;
    hide Tracks;
    CowRuns.CowCopiesInEffect(s, acts);
    var v := CowRuns.EagerRun(CowRuns.Private(s), CowRuns.Events(s, acts, false));
    forall e, pn: nat | e in t.live && pn != C.PFTEMP_PN
      ensures ReadsPage(k, e, pn, v)
    {
      Agreed(k, t, v, e, pn);
    }
    if CowReturn.Timely(s, acts) {
      CowReturn.CowRefinesEager(s, acts);
      var u := CowRuns.EagerRun(CowRuns.Private(s), CowRuns.Events(s, acts, true));
      forall e, pn: nat | e in t.live && pn != C.PFTEMP_PN
        ensures ReadsPage(k, e, pn, u)
      {
        Agreed(k, t, u, e, pn);
      }
    }
  }

  // A state to start from: the first environment, without pages.
  function Alone(e: nat): C.State { C.State(map[], map[], map[], map[], {e}, {}) }

  /** env_alloc on a kernel without mappings gives such a state. */
  method FirstEnv(k: Kernel) returns (r: int, e: int)
    requires k.Valid() && k.V().s.Shape && V.FlatOf(k.V().s) == map[]
    modifies k
    ensures r == 0 <==> old(k.efree) != [] && old(k.free) != []
    ensures r == 0 ==> e >= 0 && Tracks(k, Alone(e)) && CowRuns.Begin(Alone(e))
  {
    hide V.View.Ok;
    hide V.FlatOf;
    hide EnvsOk;
    r, e := k.EnvAlloc(0);
    if r == 0 {
      CowRuns.BeginInv(Alone(e));
    }
  }

  // The kernel cannot make step a.
  ghost predicate Stopped(k: Kernel, s: C.State, a: C.Action)
    reads k
  {
    Tracks(k, s) && C.Enabled(s, a) && !Can(k, s, a)
  }

  /** Every run of the machine, made by the kernel as far as it can follow. What each live environment then reads
      through the kernel's page tables is what it would read from private pages, copied when duppage copies them in
      effect, and, if the parent makes no untimely store, when duppage returns; and what it may write is what it might
      write if fork had copied the rights. */
  method Run(k: Kernel, s: C.State, acts: seq<C.Action>) returns (n: nat, t: C.State)
    requires Tracks(k, s) && CowRuns.Begin(s) && CowRuns.Run(s, acts)
    modifies k
    ensures n <= |acts| && CowRuns.Run(s, acts[..n]) && t == CowRuns.After(s, acts[..n]) && Tracks(k, t)
    ensures n < |acts| ==> Stopped(k, t, acts[n])
    ensures KernelReads(k, s, acts[..n], t.live, false)
    ensures CowReturn.Timely(s, acts[..n]) ==> KernelReads(k, s, acts[..n], t.live, true)
    ensures KernelGrants(k, s, acts[..n], t.live)
  {
    hide Tracks;
    hide Stopped;
    hide C.Enabled;
    hide C.Step;
    hide CowRuns.After;
    n, t := 0, s;
    RunPrefix(s, acts, 0);
    StartPrefix(s, acts);
    var ok := true;
    while n < |acts| && ok
      invariant n <= |acts| && CowRuns.Run(s, acts[..n]) && t == CowRuns.After(s, acts[..n]) && Tracks(k, t)
      invariant !ok ==> n < |acts| && Stopped(k, t, acts[n])
      decreases |acts| - n, ok
    {
      RunPrefix(s, acts, n);
      ok := Step(k, t, acts[n]);
      if ok {
        t := C.Step(t, acts[n]);
        n := n + 1;
      }
    }
    Conclude(k, s, acts[..n], t);
    ConcludeRights(k, s, acts[..n], t);
  }

  lemma StartPrefix(s: C.State, acts: seq<C.Action>)
    ensures CowRuns.Run(s, acts[..0]) && CowRuns.After(s, acts[..0]) == s
  {
  }
}
