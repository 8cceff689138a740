/** lib/fork.c on the kernel itself: duppage and pgfault as the sequences of system calls they are, on the page tables
    of KernelVm. They do to the flat map and to the mapped pages what the steps of the copy-on-write machine say. */
module CowKernel {
  import opened Mmu
  import opened VmStore
  import V = VmView
  import opened VmSteps
  import opened KernelVm
  import C = Cow
  import CowRuns
  import CowFork

  function Flat(a: C.Slot): V.Slot { V.Slot(a.env, a.pn) }

  // PTE_COW is bit 11.
  function PteOf(en: V.Entry): C.Pte { C.Pte(en.page, Writable(en.perm), en.perm / 0x800 % 2 == 1) }

  /** The machine state s describes this kernel: the same pages are mapped, in the same way, with the same words. */
  ghost predicate Sim(f: V.Flat, mem: seq<seq<nat>>, s: C.State) { SamePages(f, s) && SameWords(mem, s) }

  ghost predicate SamePages(f: V.Flat, s: C.State) {
    (forall a: C.Slot :: a in s.pt <==> Flat(a) in f) && (forall a | a in s.pt :: s.pt[a] == PteOf(f[Flat(a)]))
  }

  ghost predicate SameWords(mem: seq<seq<nat>>, s: C.State) {
    forall a | a in s.pt ::
        s.pt[a].frame in s.mem && s.pt[a].frame < |mem| && s.mem[s.pt[a].frame] == mem[s.pt[a].frame]
  }

  /** The kernel is in a valid state, environment cur may call it, and s describes it. */
  ghost predicate Models(k: Kernel, cur: nat, s: C.State)
    reads k
  {
    k.Valid() && k.Caller(cur) && k.V().s.Shape && Sim(V.FlatOf(k.V().s), k.mem, s)
  }

  // A mapped page is neither free nor a table, so the calls keep its words.
  lemma MappedFrame(v: V.View, sl: V.Slot)
    requires v.Ok() && sl in V.FlatOf(v.s)
    ensures sl.e < NENV && sl.vpn < NUPN
    ensures var p := V.FlatOf(v.s)[sl].page; p < |v.s.mem| && p !in v.free && !v.s.IsTable(p)
    ensures v.s.Target(Pte(sl.e, sl.vpn / 1024, sl.vpn % 1024)) == V.FlatOf(v.s)[sl].page
  {
    MappedIsData(v, Pte(sl.e, sl.vpn / 1024, sl.vpn % 1024));
  }

  lemma WordsKept(v: V.View, v': V.View, s: C.State)
    requires v.Ok() && Sim(V.FlatOf(v.s), v.s.mem, s) && |v'.s.mem| == |v.s.mem| && DataKept(v, v')
    ensures SameWords(v'.s.mem, s)
  {
    forall a | a in s.pt
      ensures s.pt[a].frame < |v'.s.mem| && v'.s.mem[s.pt[a].frame] == v.s.mem[s.pt[a].frame]
    {
      MappedFrame(v, Flat(a));
    }
  }

  // One entry of the flat map changes.
  lemma SimMap(f: V.Flat, s: C.State, t: C.State, a: C.Slot, en: V.Entry)
    requires SamePages(f, s) && t.pt == s.pt[a := PteOf(en)]
    ensures SamePages(f[Flat(a) := en], t)
  {
  }

  // perm | PTE_U | PTE_P for the three perm arguments of fork.c
  lemma Perms()
    ensures WithUP(0x805) == 0x805 && WithUP(0x5) == 0x5 && WithUP(0x7) == 0x7
    ensures forall p: nat :: PteOf(V.Entry(p, 0x805)) == C.Pte(p, false, true)
    ensures forall p: nat :: PteOf(V.Entry(p, 0x5)) == C.Pte(p, false, false)
    ensures forall p: nat :: PteOf(V.Entry(p, 0x7)) == C.Pte(p, true, false)
    ensures GoodPerm(0x5) && GoodPerm(0x7)
  {
  }

  lemma PageAddress(pn: nat)
    requires pn < NUPN
    ensures pn * PGSIZE < UTOP && pn * PGSIZE % PGSIZE == 0 && PGNUM(pn * PGSIZE) == pn
  {
  }

  lemma CowBit(w: nat)
    ensures w % PGSIZE / 0x800 % 2 == w / 0x800 % 2
  {
  }

  // The entry behind a slot of the flat map.
  lemma EntryFacts(v: V.View, e: nat, pn: nat)
    requires v.Ok() && e < NENV && V.Slot(e, pn) in V.FlatOf(v.s)
    ensures pn < NUPN && pn * PGSIZE < UTOP && pn * PGSIZE % PGSIZE == 0
    ensures SlotOf(e, pn * PGSIZE) == V.Slot(e, pn) && ValidRef(RefOf(e, pn * PGSIZE)) && v.s.pgdir[e] != NULL
    ensures var en := V.FlatOf(v.s)[V.Slot(e, pn)];
            && v.s.Target(RefOf(e, pn * PGSIZE)) == en.page < |v.s.mem|
            && var w := v.s.PteAt(e, PDX(pn * PGSIZE), PTX(pn * PGSIZE));
            PteOf(en) == C.Pte(en.page, Writable(w), w / 0x800 % 2 == 1)
  {
    MappedFrame(v, V.Slot(e, pn));
    PageAddress(pn);
    UserAddress(pn * PGSIZE);
    hide V.View.Ok;
    MappedFlags(v, e, pn * PGSIZE);
    CowBit(v.s.PteAt(e, PDX(pn * PGSIZE), PTX(pn * PGSIZE)));
  }

  // What the kernel's view of a mapped slot is.
  lemma SlotFacts(k: Kernel, cur: nat, pn: nat, s: C.State)
    requires Models(k, cur, s) && C.Slot(cur, pn) in s.pt
    ensures pn < NUPN && pn * PGSIZE < UTOP && pn * PGSIZE % PGSIZE == 0 && k.UserVa(cur, pn * PGSIZE)
    ensures SlotOf(cur, pn * PGSIZE) == V.Slot(cur, pn)
    ensures var p := s.pt[C.Slot(cur, pn)].frame;
            && k.V().s.Target(RefOf(cur, pn * PGSIZE)) == p && k.Now().Shaped()
            && k.Now().At(cur, 0, pn * PGSIZE) == RefOf(cur, pn * PGSIZE) && p < |k.mem| == |k.pages|
    ensures var w := k.V().s.PteAt(cur, PDX(pn * PGSIZE), PTX(pn * PGSIZE));
            s.pt[C.Slot(cur, pn)].w == Writable(w) && s.pt[C.Slot(cur, pn)].cow == (w / 0x800 % 2 == 1)
  {
    hide V.View.Ok;
    hide V.FlatOf;
    hide EnvsOk;
    assert Flat(C.Slot(cur, pn)) == V.Slot(cur, pn);
    EntryFacts(k.V(), cur, pn);
    V.Sizes(k.V());
    assert k.V().s.pgdir[cur] == k.envs[cur].env_pgdir;
  }

  // There is no table for page pn of environment dst, and no page for one.
  ghost predicate NoTable(k: Kernel, dst: int, pn: nat)
    reads k
  {
    && k.free == [] && 0 <= dst < NENV && pn * PGSIZE < UTOP
    && k.V().s.Shape && PDX(pn * PGSIZE) < NUPDE && k.V().s.PdeAt(dst, PDX(pn * PGSIZE)) == 0
  }

  // The call is made with arguments the kernel accepts.
  lemma MapArguments(k: Kernel, cur: nat, dstid: int, pn: nat, perm: nat, s: C.State)
    requires Models(k, cur, s) && C.Slot(cur, pn) in s.pt && (perm == 0x805 || perm == 0x5)
    requires Envid2Env(k.envs, cur, dstid, true) != NULL
    ensures k.Now().Shaped() && cur < NENV && pn * PGSIZE < UTOP
    ensures k.Now().MapResult(cur, 0, pn * PGSIZE, dstid, pn * PGSIZE, perm) ==
            if NoTable(k, Envid2Env(k.envs, cur, dstid, true), pn) then -E_NO_MEM else 0
    ensures var p := s.pt[C.Slot(cur, pn)].frame;
            && p < |k.pages|
            && (!NoTable(k, Envid2Env(k.envs, cur, dstid, true), pn) && (dstid == 0 || k.pages[p].pp_ref < 0xffff) ==>
                  k.Now().MapKeeps(cur, 0, pn * PGSIZE, dstid, pn * PGSIZE, perm))
    ensures SlotOfRef(k.Now().At(cur, dstid, pn * PGSIZE)) == V.Slot(Envid2Env(k.envs, cur, dstid, true), pn)
  {
    hide V.View.Ok;
    hide V.FlatOf;
    hide EnvsOk;
    hide Sim;
    SlotFacts(k, cur, pn, s);
    UserAddress(pn * PGSIZE);
    Perms();
    assert !Writable(0x805) && !Writable(0x5);
  }

  lemma MapDone(v: V.View, v': V.View, s: C.State, t: C.State, a: C.Slot, page: nat, perm: nat)
    requires v.Ok() && v'.s.Shape && Sim(V.FlatOf(v.s), v.s.mem, s) && |v'.s.mem| == |v.s.mem| && DataKept(v, v')
    requires (perm == 0x805 || perm == 0x5) && V.FlatOf(v'.s) == V.FlatOf(v.s)[Flat(a) := V.Entry(page, perm)]
    requires t.mem == s.mem && t.pt == s.pt[a := C.Pte(page, false, perm == 0x805)]
    requires exists b :: b in s.pt && s.pt[b].frame == page
    ensures Sim(V.FlatOf(v'.s), v'.s.mem, t)
  {
    hide V.View.Ok;
    hide V.FlatOf;
    V.Sizes(v);
    Perms();
    WordsKept(v, v', s);
    SimMap(V.FlatOf(v.s), s, t, a, V.Entry(page, perm));
  }

  /** sys_page_map(0, addr, dst, addr, perm) as fork.c uses it: one entry changes, no words. */
  method MapSame(k: Kernel, cur: nat, dstid: int, pn: nat, perm: nat, ghost s: C.State, ghost t: C.State)
      returns (r: int)
    requires Models(k, cur, s) && C.Slot(cur, pn) in s.pt
    requires (perm == 0x805 || perm == 0x5) && Envid2Env(k.envs, cur, dstid, true) != NULL
    requires var p := s.pt[C.Slot(cur, pn)].frame; dstid == 0 || (p < |k.pages| && k.pages[p].pp_ref < 0xffff)
    requires t.mem == s.mem
    requires var dst, p := Envid2Env(k.envs, cur, dstid, true), s.pt[C.Slot(cur, pn)].frame;
             t.pt == s.pt[C.Slot(dst, pn) := C.Pte(p, false, perm == 0x805)]
    modifies k
    ensures k.Valid() && k.envs == old(k.envs)
    ensures r == if old(NoTable(k, Envid2Env(k.envs, cur, dstid, true), pn)) then -E_NO_MEM else 0
    ensures Models(k, cur, if r == 0 then t else s)
    ensures r != 0 ==> k.V() == old(k.V())
  {
    hide V.View.Ok;
    hide V.FlatOf;
    hide EnvsOk;
    hide Sim;
    hide NoTable;
    ghost var v := k.V();
    SlotFacts(k, cur, pn, s);
    MapArguments(k, cur, dstid, pn, perm, s);
    Perms();
    r := k.SysPageMap(cur, 0, pn * PGSIZE, dstid, pn * PGSIZE, perm);
    if r == 0 {
      ghost var dst := Envid2Env(k.envs, cur, dstid, true);
      MapDone(v, k.V(), s, t, C.Slot(dst, pn), s.pt[C.Slot(cur, pn)].frame, perm);
    }
  }

  // The machine's steps as changes of one entry each.
  lemma DupSteps(s: C.State, e: nat)
    requires C.Enabled(s, C.Look(e)) && !C.Skips(s, e) && s.ForkOf(e).child != e
    ensures var c, pn, s0 := s.ForkOf(e).child, s.ForkOf(e).pn, C.DoLook(s, e);
            var p := s.pt[C.Slot(e, pn)].frame;
            && s0.pt == s.pt && s0.mem == s.mem && C.Enabled(s0, C.MapChild(e))
            && C.SawReadOnly(s0, e) == (!s.pt[C.Slot(e, pn)].w && !s.pt[C.Slot(e, pn)].cow)
            && C.DoShare(s0, e).mem == s.mem && C.DoShare(s0, e).pt == s.pt[C.Slot(c, pn) := C.Pte(p, false, false)]
            && var s1 := C.DoDupFirst(s0, e);
            && s1.mem == s.mem && s1.pt == s.pt[C.Slot(c, pn) := C.Pte(p, false, true)]
            && C.Enabled(s1, C.DupEnd(e)) && C.Slot(e, pn) in s1.pt && s1.pt[C.Slot(e, pn)].frame == p
            && C.DoDupEnd(s1, e).mem == s.mem && C.DoDupEnd(s1, e).pt == s1.pt[C.Slot(e, pn) := C.Pte(p, false, true)]
  {
  }

  lemma OwnId(envs: seq<Env>, cur: nat)
    requires |envs| == NENV && cur < NENV
    ensures Envid2Env(envs, cur, 0, true) == cur
  {
  }

  // duppage as the machine does it, without a step in between.
  function Dupped(s: C.State, e: nat): C.State
    requires C.Enabled(s, C.Look(e)) && !C.Skips(s, e) && s.ForkOf(e).child != e
  {
    DupSteps(s, e);
    var s0 := C.DoLook(s, e);
    if C.SawReadOnly(s0, e) then C.DoShare(s0, e) else C.DoDupEnd(C.DoDupFirst(s0, e), e)
  }

  // What duppage needs: fork's loop of cur stands at pn, and childid names its child.
  ghost predicate AtPage(k: Kernel, cur: nat, child: nat, childid: int, pn: nat, s: C.State)
    reads k
  {
    && |k.envs| == NENV && cur < NENV && C.Enabled(s, C.Look(cur)) && !C.Skips(s, cur)
    && s.ForkOf(cur) == C.Loop(child, pn) && child != cur && Envid2Env(k.envs, cur, childid, true) == child
    && var p := s.pt[C.Slot(cur, pn)].frame; p < |k.pages| && k.pages[p].pp_ref < 0xffff
  }

  // A page that is mapped has a table.
  lemma OwnTable(k: Kernel, cur: nat, pn: nat, s: C.State)
    requires Models(k, cur, s) && C.Slot(cur, pn) in s.pt
    ensures !NoTable(k, cur, pn)
  {
    hide V.View.Ok;
    hide V.FlatOf;
    hide EnvsOk;
    assert Flat(C.Slot(cur, pn)) == V.Slot(cur, pn);
    TableThere(k.V(), cur, pn);
  }

  lemma TableThere(v: V.View, e: nat, pn: nat)
    requires v.Ok() && e < NENV && V.Slot(e, pn) in V.FlatOf(v.s)
    ensures pn * PGSIZE < UTOP && PDX(pn * PGSIZE) < NUPDE && v.s.PdeAt(e, PDX(pn * PGSIZE)) != 0
  {
    MappedFrame(v, V.Slot(e, pn));
    PageAddress(pn);
    UserAddress(pn * PGSIZE);
  }

  // The two calls for a page that is writable or copy-on-write.
  method DupTwice(k: Kernel, cur: nat, childid: int, pn: nat, ghost s: C.State, ghost s1: C.State, ghost s2: C.State)
    returns (r: int)
    requires Models(k, cur, s) && C.Slot(cur, pn) in s.pt && Envid2Env(k.envs, cur, childid, true) >= 0
    requires var p := s.pt[C.Slot(cur, pn)].frame;
             && p < |k.pages| && k.pages[p].pp_ref < 0xffff && Envid2Env(k.envs, cur, childid, true) != cur
             && s1.mem == s.mem && s2.mem == s.mem
             && s1.pt == s.pt[C.Slot(Envid2Env(k.envs, cur, childid, true), pn) := C.Pte(p, false, true)]
             && s2.pt == s1.pt[C.Slot(cur, pn) := C.Pte(p, false, true)]
    modifies k
    ensures k.Valid() && k.envs == old(k.envs)
    ensures r == if old(NoTable(k, Envid2Env(k.envs, cur, childid, true), pn)) then -E_NO_MEM else 0
    ensures Models(k, cur, if r == 0 then s2 else s)
  {
    hide V.View.Ok;
    hide V.FlatOf;
    hide EnvsOk;
    hide Sim;
    hide NoTable;
    OwnId(k.envs, cur);
    r := MapSame(k, cur, childid, pn, 0x805, s, s1);
    if r == 0 {
      OwnTable(k, cur, pn, s1);
      r := MapSame(k, cur, 0, pn, 0x805, s1, s2);
    }
  }

  // uvpt[pn]
  method ReadEntry(k: Kernel, cur: nat, pn: nat, ghost s: C.State) returns (w: bool, cow: bool)
    requires Models(k, cur, s) && C.Slot(cur, pn) in s.pt
    ensures w == s.pt[C.Slot(cur, pn)].w && cow == s.pt[C.Slot(cur, pn)].cow
  {
    hide V.View.Ok;
    hide V.FlatOf;
    hide EnvsOk;
    hide Sim;
    SlotFacts(k, cur, pn, s);
    var page, pte := k.PageLookup(cur, pn * PGSIZE);
    var word := k.mem[pte.page][pte.idx];
    return Writable(word), word / 0x800 % 2 == 1;
  }

  /** duppage: the two calls, or the one for a read-only page, are the machine's steps; it fails exactly when the
      child needs a table and there is no page for it, and has then changed nothing. */
  method DupPage(k: Kernel, cur: nat, ghost child: nat, childid: int, pn: nat, ghost s: C.State) returns (r: int)
    requires Models(k, cur, s) && AtPage(k, cur, child, childid, pn, s)
    modifies k
    ensures k.Valid() && k.envs == old(k.envs)
    ensures r == if old(NoTable(k, child, pn)) then -E_NO_MEM else 0
    ensures Models(k, cur, if r == 0 then Dupped(s, cur) else s)
  {
    hide Models;
    hide NoTable;
    hide Envid2Env;
    DupSteps(s, cur);
    ghost var s0 := C.DoLook(s, cur);
    ghost var s1 := C.DoDupFirst(s0, cur);
    var w, cow := ReadEntry(k, cur, pn, s);
    hide C.DoLook;
    hide C.DoDupFirst;
    hide C.DoDupEnd;
    hide C.DoShare;
    hide C.Enabled;
    if w || cow {
      r := DupTwice(k, cur, childid, pn, s, s1, C.DoDupEnd(s1, cur));
    } else {
      r := MapSame(k, cur, childid, pn, 0x5, s, C.DoShare(s0, cur));
    }
  }

  // --- pgfault ---

  // A free page is mapped nowhere.
  lemma FreeIsUnmapped(v: V.View, f: nat)
    requires v.Ok() && f in v.free
    ensures forall sl | sl in V.FlatOf(v.s) :: V.FlatOf(v.s)[sl].page != f
  {
    forall sl | sl in V.FlatOf(v.s)
      ensures V.FlatOf(v.s)[sl].page != f
    {
      MappedFrame(v, sl);
    }
  }

  // A page mapped once has count 1.
  lemma MappedOnce(v: V.View, sl: V.Slot, f: nat)
    requires v.Ok() && v.held == NULL && sl in V.FlatOf(v.s) && V.FlatOf(v.s)[sl].page == f
    requires forall o | o in V.FlatOf(v.s) && V.FlatOf(v.s)[o].page == f :: o == sl
    ensures f < |v.pages| && v.pages[f].pp_ref == 1
  {
    MappedFrame(v, sl);
    var r0 := Pte(sl.e, sl.vpn / 1024, sl.vpn % 1024);
    MappedIsData(v, r0);
    forall r | r in v.s.Refs(f)
      ensures r == r0
    {
      OnlyRef(v, r, sl, f);
    }
    assert v.s.Refs(f) == {r0};
    assert V.CountOk(v.pages[f], v.s, f, NULL);
  }

  lemma OnlyRef(v: V.View, r: Ref, sl: V.Slot, f: nat)
    requires v.Ok() && r in v.s.Refs(f) && sl in V.FlatOf(v.s) && V.FlatOf(v.s)[sl].page == f
    requires forall o | o in V.FlatOf(v.s) && V.FlatOf(v.s)[o].page == f :: o == sl
    ensures r == Pte(sl.e, sl.vpn / 1024, sl.vpn % 1024)
  {
    MappedFrame(v, sl);
    assert r.Pte?;
    var o := V.Slot(r.e, r.x * 1024 + r.t);
    assert o.vpn / 1024 == r.x && o.vpn % 1024 == r.t;
    assert o in V.FlatOf(v.s) && V.FlatOf(v.s)[o].page == f;
  }

  // The kernel's states around the steps of pgfault, for a page at `at` copied to frame f through `temp`.
  ghost predicate Handled(v0: V.View, v1: V.View, v2: V.View, v3: V.View, v4: V.View, at: V.Slot, temp: V.Slot,
                          f: nat) {
    && v0.Ok() && v1.Ok() && v2.Ok() && v3.Ok() && v4.s.Shape
    && at in V.FlatOf(v0.s) && temp !in V.FlatOf(v0.s) && at != temp && f in v0.free
    && |v1.s.mem| == |v0.s.mem| && |v2.s.mem| == |v0.s.mem| && |v3.s.mem| == |v0.s.mem| && |v4.s.mem| == |v0.s.mem|
    && V.FlatOf(v1.s) == V.FlatOf(v0.s)[temp := V.Entry(f, 7)] && DataKept(v0, v1)
    && V.FlatOf(v2.s) == V.FlatOf(v1.s)
    && V.FlatOf(v0.s)[at].page < |v0.s.mem| && f < |v0.s.mem|
    && v2.s.mem == v1.s.mem[f := v1.s.mem[V.FlatOf(v0.s)[at].page]]
    && V.FlatOf(v3.s) == V.FlatOf(v2.s)[at := V.Entry(f, 7)] && DataKept(v2, v3)
    && V.FlatOf(v4.s) == V.FlatOf(v3.s) - {temp} && DataKept(v3, v4)
  }

  // A page that stays mapped somewhere, other than f, keeps its words all the way; f gets those of the page.
  lemma HandledWords(v0: V.View, v1: V.View, v2: V.View, v3: V.View, v4: V.View, at: V.Slot, temp: V.Slot, f: nat,
                     b: V.Slot)
    requires Handled(v0, v1, v2, v3, v4, at, temp, f) && b in V.FlatOf(v0.s)
    ensures var g := V.FlatOf(v0.s)[b].page;
            g < |v0.s.mem| && g != f && v1.s.mem[g] == v0.s.mem[g] && (b != at ==> v4.s.mem[g] == v0.s.mem[g])
    ensures v4.s.mem[f] == v2.s.mem[f]
  {
    hide V.View.Ok;
    hide V.FlatOf;
    FreeIsUnmapped(v0, f);
    MappedFrame(v0, b);
    MappedFrame(v1, b);
    MappedFrame(v2, b);
    MappedFrame(v2, temp);
    MappedFrame(v3, b);
    MappedFrame(v3, at);
  }

  lemma HandledWord(v0: V.View, v1: V.View, v2: V.View, v3: V.View, v4: V.View, s: C.State, t: C.State, a: C.Slot,
                    temp: V.Slot, f: nat, b: C.Slot)
    requires Handled(v0, v1, v2, v3, v4, Flat(a), temp, f) && Sim(V.FlatOf(v0.s), v0.s.mem, s) && b in s.pt
    requires t.pt == s.pt[a := C.Pte(f, true, false)]
    requires s.pt[b].frame in s.mem && t.pt[b].frame in t.mem && t.mem[t.pt[b].frame] == s.mem[s.pt[b].frame]
    ensures t.pt[b].frame < |v4.s.mem| && t.mem[t.pt[b].frame] == v4.s.mem[t.pt[b].frame]
  {
    hide V.View.Ok;
    hide V.FlatOf;
    HandledWords(v0, v1, v2, v3, v4, Flat(a), temp, f, Flat(b));
    assert b == a ==> t.pt[b].frame == f && v4.s.mem[f] == v1.s.mem[s.pt[a].frame];
    assert b != a ==> t.pt[b].frame == s.pt[b].frame && Flat(b) != Flat(a);
  }

  lemma HandledSim(v0: V.View, v1: V.View, v2: V.View, v3: V.View, v4: V.View, s: C.State, t: C.State, a: C.Slot,
                   temp: V.Slot, f: nat)
    requires Handled(v0, v1, v2, v3, v4, Flat(a), temp, f) && Sim(V.FlatOf(v0.s), v0.s.mem, s)
    requires t.pt == s.pt[a := C.Pte(f, true, false)]
    requires forall b | b in s.pt ::
             s.pt[b].frame in s.mem && t.pt[b].frame in t.mem && t.mem[t.pt[b].frame] == s.mem[s.pt[b].frame]
    ensures Sim(V.FlatOf(v4.s), v4.s.mem, t)
  {
    hide V.View.Ok;
    hide V.FlatOf;
    Perms();
    V.Sizes(v0);
    var flat := V.FlatOf(v0.s);
    assert a in s.pt;
    assert V.FlatOf(v4.s) == flat[Flat(a) := V.Entry(f, 7)];
    SimMap(flat, s, t, a, V.Entry(f, 7));
    forall b | b in t.pt
      ensures t.pt[b].frame in t.mem && t.pt[b].frame < |v4.s.mem| && t.mem[t.pt[b].frame] == v4.s.mem[t.pt[b].frame]
    {
      HandledWord(v0, v1, v2, v3, v4, s, t, a, temp, f, b);
    }
  }

  // Reading word i of the page at va, and writing it to PFTEMP: one word of memmove.
  method CopyWord(k: Kernel, cur: nat, va: nat, i: nat)
    requires k.Valid() && k.Caller(cur) && k.V().s.Shape && va < UTOP && i < NPTENTRIES
    requires var f := V.FlatOf(k.V().s);
             && SlotOf(cur, va) in f && SlotOf(cur, PFTEMP) in f && Writable(f[SlotOf(cur, PFTEMP)].perm)
             && f[SlotOf(cur, va)].page < |k.mem| && f[SlotOf(cur, PFTEMP)].page < |k.mem|
    modifies k`mem
    ensures k.Valid() && k.V().s.Shape && V.FlatOf(k.V().s) == V.FlatOf(old(k.V().s))
    ensures var f := V.FlatOf(k.V().s); var src, dst := f[SlotOf(cur, va)].page, f[SlotOf(cur, PFTEMP)].page;
            && |old(k.mem)[src]| == |old(k.mem)[dst]| == NPTENTRIES
            && k.mem == Poke(old(k.mem), dst, i, old(k.mem)[src][i])
  {
    hide V.View.Ok;
    hide V.FlatOf;
    hide EnvsOk;
    V.Sizes(k.V());
    EnvFacts(k.envs, k.env_free_list, k.efree);
    UserAddress(va);
    assert k.V().s.pgdir[cur] == k.envs[cur].env_pgdir;
    assert EnvOk(k.envs[cur], cur, cur in k.efree);
    var page, _ := k.PageLookup(cur, va);
    var fault := k.UserStore(cur, PFTEMP, i, k.mem[page][i]);
    V.Sizes(k.V());
  }

  /** memmove(PFTEMP, addr, PGSIZE) */
  method CopyPage(k: Kernel, cur: nat, va: nat)
    requires k.Valid() && k.Caller(cur) && k.V().s.Shape && va < UTOP
    requires var f := V.FlatOf(k.V().s);
             && SlotOf(cur, va) in f && SlotOf(cur, PFTEMP) in f && Writable(f[SlotOf(cur, PFTEMP)].perm)
             && f[SlotOf(cur, va)].page < |k.mem| && f[SlotOf(cur, PFTEMP)].page < |k.mem|
             && f[SlotOf(cur, va)].page != f[SlotOf(cur, PFTEMP)].page
    modifies k`mem
    ensures k.Valid() && k.V().s.Shape && V.FlatOf(k.V().s) == V.FlatOf(old(k.V().s))
    ensures var f := V.FlatOf(k.V().s); var src, dst := f[SlotOf(cur, va)].page, f[SlotOf(cur, PFTEMP)].page;
            k.mem == old(k.mem)[dst := old(k.mem)[src]]
  {
    hide V.View.Ok;
    hide V.FlatOf;
    hide EnvsOk;
    V.Sizes(k.V());
    ghost var f := V.FlatOf(k.V().s);
    ghost var src, dst := f[SlotOf(cur, va)].page, f[SlotOf(cur, PFTEMP)].page;
    assert |k.mem[src]| == |k.mem[dst]| == NPTENTRIES;
    var i := 0;
    while i < NPTENTRIES
      invariant 0 <= i <= NPTENTRIES && k.Valid() && k.V().s.Shape && V.FlatOf(k.V().s) == f
      invariant |k.mem| == |old(k.mem)| && (forall q | 0 <= q < |k.mem| && q != dst :: k.mem[q] == old(k.mem)[q])
      invariant |k.mem[dst]| == NPTENTRIES && forall j | 0 <= j < i :: k.mem[dst][j] == old(k.mem)[src][j]
    {
      CopyWord(k, cur, va, i);
      i := i + 1;
    }
    assert k.mem[dst] == old(k.mem)[src];
  }

  // The page number of PFTEMP, in the kernel's and in the machine's words.
  lemma TempSlot(cur: nat)
    ensures SlotOf(cur, PFTEMP) == V.Slot(cur, C.PFTEMP_PN) && PFTEMP < UTOP && PFTEMP % PGSIZE == 0
  {
  }

  // There is no page for PFTEMP, or none for its table.
  ghost predicate NoTemp(k: Kernel, cur: nat)
    reads k
  {
    k.Now().Shaped() && ValidRef(RefOf(cur, PFTEMP)) && k.Now().NoRoom(cur, PFTEMP)
  }

  // sys_page_alloc(0, PFTEMP, PTE_P|PTE_U|PTE_W)
  method TempAlloc(k: Kernel, cur: nat) returns (r: int)
    requires k.Valid() && k.Caller(cur) && k.V().s.Shape
    modifies k
    ensures k.Valid() && k.envs == old(k.envs) && k.V().s.Shape && |k.mem| == |old(k.mem)|
    ensures DataKept(old(k.V()), k.V())
    ensures r == if old(NoTemp(k, cur)) then -E_NO_MEM else 0
    ensures r != 0 ==> V.FlatOf(k.V().s) == V.FlatOf(old(k.V().s))
    ensures r == 0 ==>
              && old(k.free) != [] && old(k.free)[0] < |k.mem|
              && V.FlatOf(k.V().s) == V.FlatOf(old(k.V().s))[SlotOf(cur, PFTEMP) := V.Entry(old(k.free)[0], 7)]
  {
    hide V.View.Ok;
    hide V.FlatOf;
    hide EnvsOk;
    hide AllocFree;
    Perms();
    TempSlot(cur);
    UserAddress(PFTEMP);
    OwnId(k.envs, cur);
    r := k.SysPageAlloc(cur, 0, PFTEMP, 7);
  }

  // The first two steps: afterwards f is mapped once, at PFTEMP, and holds the words of the page.
  method TempCopy(k: Kernel, cur: nat, pn: nat, ghost s: C.State) returns (r: int, ghost v1: V.View)
    requires Models(k, cur, s) && C.Slot(cur, pn) in s.pt && C.Slot(cur, C.PFTEMP_PN) !in s.pt
    modifies k
    ensures k.Valid() && k.envs == old(k.envs) && k.V().s.Shape
    ensures r == if old(NoTemp(k, cur)) then -E_NO_MEM else 0
    ensures r != 0 ==> Models(k, cur, s)
    ensures r == 0 ==>
              && old(k.free) != [] && v1.Ok() && |v1.s.mem| == |k.mem| == |old(k.mem)| && DataKept(old(k.V()), v1)
              && var f, src := old(k.free)[0], s.pt[C.Slot(cur, pn)].frame;
              && f < |k.mem| && src < |k.mem| && k.mem == v1.s.mem[f := v1.s.mem[src]]
              && V.FlatOf(v1.s) == V.FlatOf(old(k.V().s))[SlotOf(cur, PFTEMP) := V.Entry(f, 7)]
              && V.FlatOf(k.V().s) == V.FlatOf(v1.s) && f < |k.pages| && k.pages[f].pp_ref == 1
  {
    hide V.View.Ok;
    hide V.FlatOf;
    hide EnvsOk;
    ghost var v0 := k.V();
    SlotFacts(k, cur, pn, s);
    hide NoTemp;
    TempSlot(cur);
    V.Sizes(v0);
    r := TempAlloc(k, cur);
    v1 := k.V();
    V.Sizes(v1);
    if r != 0 {
      WordsKept(v0, v1, s);
      return;
    }
    ghost var f := v0.free[0];
    FreeIsUnmapped(v0, f);
    assert Flat(C.Slot(cur, pn)) == V.Slot(cur, pn);
    CopyPage(k, cur, pn * PGSIZE);
    V.Sizes(k.V());
    MappedOnce(k.V(), SlotOf(cur, PFTEMP), f);
  }

  // sys_page_map(0, PFTEMP, 0, addr, PTE_P|PTE_U|PTE_W) has good arguments.
  lemma TempMapResult(k: Kernel, cur: nat, pn: nat, f: nat)
    requires k.Valid() && k.Caller(cur) && k.V().s.Shape && pn < NUPN
    requires SlotOf(cur, PFTEMP) in V.FlatOf(k.V().s) && V.FlatOf(k.V().s)[SlotOf(cur, PFTEMP)] == V.Entry(f, 7)
    requires f < |k.pages| && k.pages[f].pp_ref < 0xffff && V.Slot(cur, pn) in V.FlatOf(k.V().s)
    ensures k.Now().Shaped() && PageVa(PFTEMP) && PageVa(pn * PGSIZE)
    ensures k.Now().MapResult(cur, 0, PFTEMP, 0, pn * PGSIZE, 7) == 0
    ensures k.Now().MapKeeps(cur, 0, PFTEMP, 0, pn * PGSIZE, 7)
    ensures k.V().s.Target(k.Now().At(cur, 0, PFTEMP)) == f
    ensures SlotOfRef(k.Now().At(cur, 0, pn * PGSIZE)) == V.Slot(cur, pn)
  {
    hide V.View.Ok;
    hide V.FlatOf;
    hide EnvsOk;
    TempSlot(cur);
    PageAddress(pn);
    UserAddress(pn * PGSIZE);
    Perms();
    OwnId(k.envs, cur);
    assert C.PFTEMP_PN * PGSIZE == PFTEMP;
    EntryFacts(k.V(), cur, C.PFTEMP_PN);
    TableThere(k.V(), cur, pn);
  }

  // The last two steps: the copy moves from PFTEMP to the page.
  method TempSwap(k: Kernel, cur: nat, pn: nat, ghost f: nat) returns (r: int, ghost v3: V.View)
    requires k.Valid() && k.Caller(cur) && k.V().s.Shape && pn < NUPN && pn != C.PFTEMP_PN
    requires SlotOf(cur, PFTEMP) in V.FlatOf(k.V().s) && V.FlatOf(k.V().s)[SlotOf(cur, PFTEMP)] == V.Entry(f, 7)
    requires f < |k.pages| && k.pages[f].pp_ref < 0xffff && V.Slot(cur, pn) in V.FlatOf(k.V().s)
    modifies k
    ensures k.Valid() && k.envs == old(k.envs) && k.V().s.Shape
    ensures r == 0 && v3.Ok() && |v3.s.mem| == |k.mem| == |old(k.mem)|
    ensures DataKept(old(k.V()), v3) && DataKept(v3, k.V())
    ensures V.FlatOf(v3.s) == V.FlatOf(old(k.V().s))[V.Slot(cur, pn) := V.Entry(f, 7)]
    ensures V.FlatOf(k.V().s) == V.FlatOf(v3.s) - {SlotOf(cur, PFTEMP)}
  {
    hide V.View.Ok;
    hide V.FlatOf;
    hide EnvsOk;
    hide Snapshot.MapResult;
    hide Snapshot.MapKeeps;
    hide InsertFree;
    TempMapResult(k, cur, pn, f);
    TempSlot(cur);
    UserAddress(PFTEMP);
    Perms();
    OwnId(k.envs, cur);
    V.Sizes(k.V());
    r := k.SysPageMap(cur, 0, PFTEMP, 0, pn * PGSIZE, 7);
    V.Sizes(k.V());
    v3 := k.V();
    r := k.SysPageUnmap(cur, 0, PFTEMP);
  }

  lemma TrapFacts(s: C.State, cur: nat, pn: nat)
    requires C.Inv(s) && s.FaultOf(cur) == C.Trapped(pn)
    ensures C.Slot(cur, pn) in s.pt && C.Slot(cur, C.PFTEMP_PN) !in s.pt && pn != C.PFTEMP_PN && pn < NUPN
  {
    assert C.FaultOk(s, cur);
  }

  /** pgfault: the four steps on the kernel end where the machine's handler ends, with the first free page as the
      copy. It fails exactly when there is no page for the copy, or for the table that PFTEMP needs, and then nothing
      is mapped otherwise than before. */
  method PgFault(k: Kernel, cur: nat, pn: nat, ghost s: C.State) returns (r: int)
    requires Models(k, cur, s) && C.Inv(s) && s.FaultOf(cur) == C.Trapped(pn)
    modifies k
    ensures k.Valid() && k.envs == old(k.envs)
    ensures r == if old(NoTemp(k, cur)) then -E_NO_MEM else 0
    ensures r != 0 ==> Models(k, cur, s)
    ensures r == 0 ==> old(k.free) != [] && CowRuns.Run(s, CowFork.Handler(cur, old(k.free)[0]))
    ensures r == 0 ==> Models(k, cur, CowRuns.After(s, CowFork.Handler(cur, old(k.free)[0])))
  {
    hide C.Inv;
    hide V.View.Ok;
    hide V.FlatOf;
    hide EnvsOk;
    hide CowRuns.Run;
    hide CowRuns.After;
    hide CowFork.Handler;
    ghost var v0 := k.V();
    V.Sizes(v0);
    TrapFacts(s, cur, pn);
    SlotFacts(k, cur, pn, s);
    TempSlot(cur);
    ghost var v1, v3;
    r, v1 := TempCopy(k, cur, pn, s);
    if r != 0 {
      return;
    }
    ghost var f, v2 := v0.free[0], k.V();
    assert Flat(C.Slot(cur, pn)) == V.Slot(cur, pn) && V.Slot(cur, pn) != SlotOf(cur, PFTEMP);
    r, v3 := TempSwap(k, cur, pn, f);
    assert Flat(C.Slot(cur, pn)) == V.Slot(cur, pn);
    assert Handled(v0, v1, v2, v3, k.V(), V.Slot(cur, pn), SlotOf(cur, PFTEMP), f);
    hide Handled;
    MachineHandled(v0, s, cur, f);
    HandledSim(v0, v1, v2, v3, k.V(), s, CowRuns.After(s, CowFork.Handler(cur, f)), C.Slot(cur, pn),
        SlotOf(cur, PFTEMP), f);
  }

  // The machine's side of it.
  lemma MachineHandled(v0: V.View, s: C.State, cur: nat, f: nat)
    requires v0.Ok() && Sim(V.FlatOf(v0.s), v0.s.mem, s) && C.Inv(s) && s.FaultOf(cur).Trapped? && f in v0.free
    ensures CowRuns.Run(s, CowFork.Handler(cur, f))
    ensures var t, a := CowRuns.After(s, CowFork.Handler(cur, f)), C.Slot(cur, s.FaultOf(cur).pn);
            && t.pt == s.pt[a := C.Pte(f, true, false)]
            && forall b | b in s.pt ::
                  s.pt[b].frame in s.mem && t.pt[b].frame in t.mem && t.mem[t.pt[b].frame] == s.mem[s.pt[b].frame]
  {
    FreeIsUnmapped(v0, f);
    assert s.Free(f);
    hide V.View.Ok;
    hide V.FlatOf;
    CowFork.HandlerCompletes(s, cur, f);
    var t := CowRuns.After(s, CowFork.Handler(cur, f));
    forall b | b in s.pt
      ensures s.pt[b].frame in s.mem && t.pt[b].frame in t.mem && t.mem[t.pt[b].frame] == s.mem[s.pt[b].frame]
    {
      assert C.Content(t, b) == C.Content(s, b);
    }
  }
}
