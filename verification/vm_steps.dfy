/** What pgdir_walk, page_remove and page_insert do to the machine, as relations between views,
    with the lemmas that the methods of `KernelVm` follow step by step. */
module VmSteps {
  import opened Mmu
  import opened VmStore
  import opened VmView

  // Pages below UTOP keep their contents; tables and free pages may be rewritten by the kernel.
  ghost predicate DataKept(v: View, v': View)
    requires v.s.Shape && |v'.s.mem| == |v.s.mem|
  {
    forall p: nat | p < |v.s.mem| && p !in v.free && !v.s.IsTable(p) :: v'.s.mem[p] == v.s.mem[p]
  }

  // The virtual page a page-table entry maps.
  function SlotOfRef(r: Ref): Slot
    requires r.Pte?
  {
    Slot(r.e, r.x * 1024 + r.t)
  }

  // The page, if any, whose last reference is r0.
  ghost function Freed(v: View, r0: Ref): seq<nat>
    requires v.s.Shape && ValidRef(r0)
  {
    var p := v.s.Target(r0);
    if p >= 0 && v.s.Refs(p) == {r0} && p != v.held then [p] else []
  }

  ghost predicate SameBoot(v: View, v': View) {
    |v'.pages| == |v.pages| && v'.reserved == v.reserved && v'.kpd == v.kpd && v'.s.pgdir == v.s.pgdir
  }

  /** pgdir_walk: at most one cleared table, taken from the free list, is hung under a directory slot. */
  ghost predicate Walked(v: View, v': View)
    requires v.s.Shape
  {
    && v'.Ok() && v'.held == v.held && SameBoot(v, v') && |v'.pages| == |v.s.mem|
    && FlatOf(v'.s) == FlatOf(v.s)
    && (forall q :: q in v'.free ==> q in v.free)
    && (forall q: nat | q < |v.s.mem| && q !in v.free ::
          v'.s.Refs(q) == v.s.Refs(q) && v'.s.IsTable(q) == v.s.IsTable(q))
    && (forall r | ValidRef(r) && r.Pte? :: v'.s.Target(r) == v.s.Target(r))
    && DataKept(v, v') && v'.Lost() == v.Lost()
  }

  // The free list after pgdir_walk with create, for directory slot x of env e.
  ghost function WalkFree(v: View, e: nat, x: nat): seq<nat>
    requires v.s.Shape && e < NENV && x < NUPDE
  {
    if v.s.PdeAt(e, x) == 0 && v.free != [] then v.free[1..] else v.free
  }

  /** page_remove: the virtual page of r0 is unmapped, alone. The page that was mapped there, if any, is freed
      exactly when this was its last reference (and page_insert is not holding it). */
  ghost predicate Removed(v: View, v': View, r0: Ref)
    requires v.s.Shape && ValidRef(r0) && r0.Pte?
  {
    && v'.Ok() && v'.held == v.held && SameBoot(v, v') && |v'.pages| == |v.s.mem|
    && FlatOf(v'.s) == FlatOf(v.s) - {SlotOfRef(r0)}
    && SameExcept(v.s, v'.s, r0) && v'.s.Target(r0) == NULL
    && (forall e: nat, x: nat | e < NENV && x < NUPDE :: v'.s.PdeAt(e, x) == v.s.PdeAt(e, x))
    && DataKept(v, v')
    && v'.free == Freed(v, r0) + v.free && v'.Lost() == v.Lost()
  }

  // The free list after page_insert of pp: a table may have been taken, and the page that was mapped there goes back if
  // it is another one and this was its last reference.
  ghost function InsertFree(v: View, r0: Ref, pp: nat): seq<nat>
    requires v.s.Shape && ValidRef(r0) && r0.Pte?
  {
    Freed(v.(held := pp), r0) + WalkFree(v, r0.e, r0.x)
  }

  /** page_insert: the virtual page of r0 maps pp with these flags, and no other virtual page of any env has
      changed. Re-inserting the page that is already there keeps its count. No page is lost, and pp, if it was, is
      found again. */
  ghost predicate Inserted(v: View, v': View, r0: Ref, pp: nat, flags: nat)
    requires v.s.Shape && ValidRef(r0) && r0.Pte? && pp < |v.pages|
  {
    && v'.Ok() && v'.held == v.held && SameBoot(v, v') && |v'.pages| == |v.s.mem|
    && FlatOf(v'.s) == FlatOf(v.s)[SlotOfRef(r0) := Entry(pp, flags)]
    && (v.s.Target(r0) == pp ==> v'.pages[pp].pp_ref == v.pages[pp].pp_ref)
    && DataKept(v, v') && v'.free == InsertFree(v, r0, pp) && v'.Lost() == v.Lost() - {pp}
  }

  lemma NotTable(s: Store, p: int)
    requires s.Shape && s.Refs(p) == {}
    ensures !s.IsTable(p)
  {
    assert forall r | ValidRef(r) && s.Target(r) == p :: r in s.Refs(p);
  }

  lemma SameNames(s: Store, s': Store, q: int)
    requires s.Shape && s'.Shape
    requires forall r | ValidRef(r) :: s.Target(r) == q <==> s'.Target(r) == q
    ensures s'.Refs(q) == s.Refs(q) && s'.IsTable(q) == s.IsTable(q)
  {
    if s.IsTable(q) {
      var r :| ValidRef(r) && !r.Pte? && s.Target(r) == q;
      assert s'.Target(r) == q;
    }
  }

  lemma TableWriteKeepsDirs(v: View, s': Store, e: nat, x: nat, t: nat, w: nat)
    requires v.Ok() && e < NENV && x < NUPDE && t < NPTENTRIES && v.s.PdeAt(e, x) != 0
    requires var q := v.s.PdeAt(e, x) / PGSIZE; q < |v.s.mem| && s' == v.s.(mem := Poke(v.s.mem, q, t, w))
    ensures s'.Shape && Dirs(s', v.reserved, v.kpd)
  {
    var q := v.s.PdeAt(e, x) / PGSIZE;
    assert v.s.Target(Pde(e, x)) == q;
    forall e' | 0 <= e' < NENV && v.s.pgdir[e'] != NULL
      ensures v.s.pgdir[e'] != q
    {
      assert v.s.Target(Pgdir(e')) == v.s.pgdir[e'];
    }
  }

  lemma TableWriteKeepsData(v: View, v': View, q: nat, t: nat, w: nat)
    requires v.s.Shape && q < |v.s.mem| && t < NPTENTRIES && v.s.IsTable(q)
    requires v'.s.mem == Poke(v.s.mem, q, t, w)
    ensures DataKept(v, v')
  {
  }

  /** pgdir_walk's create step: a cleared page becomes the table of an empty directory slot. */
  lemma HangTable(v: View, s': Store, e: nat, x: nat, p: nat)
    requires v.Ok() && v.held == NULL && e < NENV && x < NUPDE && v.s.pgdir[e] != NULL && v.s.PdeAt(e, x) == 0
    requires Managed(|v.pages|, v.reserved, p) && p !in v.free && v.s.Refs(p) == {} && ZeroPage(v.s, p)
    requires s' == v.s.(mem := Poke(v.s.mem, v.s.pgdir[e], x, MkEntry(p, 7)))
    ensures Incref(v, p).(s := s').Ok()
    ensures FlatOf(s') == FlatOf(v.s)
    ensures SameExcept(v.s, s', Pde(e, x))
    ensures s'.PdeAt(e, x) == MkEntry(p, 7) && s'.Target(Pde(e, x)) == p
  {
    var d := v.s.pgdir[e];
    NotTable(v.s, p);
    assert v.s.Target(Pgdir(e)) == d;
    WritePde(v.s, s', e, x, MkEntry(p, 7));
    HoldKeeps(v, p);
    FlatSame(v.s, s');
    AddRefKeeps(Hold(v, p), s', Pde(e, x), p);
    assert Hold(v, p).(s := s', held := NULL) == Incref(v, p).(s := s');
  }

  lemma WalkKeepsNames(v0: View, v': View, e: nat, x: nat, p: nat)
    requires v0.Ok() && v'.Ok() && e < NENV && x < NUPDE && p in v0.free
    requires SameExcept(v0.s, v'.s, Pde(e, x)) && v0.s.Target(Pde(e, x)) == NULL && v'.s.Target(Pde(e, x)) == p
    ensures forall q: nat | q < |v0.s.mem| && q !in v0.free ::
              v'.s.Refs(q) == v0.s.Refs(q) && v'.s.IsTable(q) == v0.s.IsTable(q)
  {
    forall q: nat | q < |v0.s.mem| && q !in v0.free
      ensures v'.s.Refs(q) == v0.s.Refs(q) && v'.s.IsTable(q) == v0.s.IsTable(q)
    {
      assert q != p;
      SameNames(v0.s, v'.s, q);
    }
  }

  lemma WalkNothing(v: View)
    requires v.Ok()
    ensures Walked(v, v)
  {
  }

  /** pgdir_walk with create on an empty slot, from page_alloc to the store in the directory. */
  lemma WalkCreate(v0: View, v1: View, v2: View, e: nat, x: nat, p: nat)
    requires v0.Ok() && v1.Ok() && v0.held == NULL && e < NENV && x < NUPDE && v0.s.pgdir[e] != NULL &&
             v0.s.PdeAt(e, x) == 0
    requires v1.held == v0.held && SameBoot(v0, v1) && v0.free == [p] + v1.free && FlatOf(v1.s) == FlatOf(v0.s)
    requires Managed(|v1.pages|, v1.reserved, p) && p !in v1.free && v1.s.Refs(p) == {} && ZeroPage(v1.s, p)
    requires forall r | ValidRef(r) :: v1.s.Target(r) == v0.s.Target(r)
    requires forall q: nat | q < |v0.s.mem| && q != p :: v1.s.mem[q] == v0.s.mem[q]
    requires v1.s.pgdir[e] >= 0
    requires v2 == Incref(v1, p).(s := v1.s.(mem := Poke(v1.s.mem, v1.s.pgdir[e], x, MkEntry(p, 7))))
    ensures v2.Ok() && Walked(v0, v2) && v2.s.PdeAt(e, x) == MkEntry(p, 7)
  {
    assert v1.s.Target(Pde(e, x)) == v0.s.Target(Pde(e, x));
    HangTable(v1, v2.s, e, x, p);
    WalkKeepsNames(v0, v2, e, x, p);
    WalkLost(v0, v2, e, x, p);
    assert v0.s.Target(Pgdir(e)) == v1.s.pgdir[e];
  }

  // The page that becomes a table leaves the free list.
  lemma WalkLost(v0: View, v2: View, e: nat, x: nat, p: nat)
    requires v0.Ok() && v2.Ok() && v2.held == v0.held && SameBoot(v0, v2) && e < NENV && x < NUPDE
    requires v0.free == [p] + v2.free && p !in v2.free
    requires SameExcept(v0.s, v2.s, Pde(e, x)) && v0.s.Target(Pde(e, x)) == NULL && v2.s.Target(Pde(e, x)) == p
    ensures v2.Lost() == v0.Lost()
  {
    assert forall q :: q in v2.free <==> q in v0.free && q != p;
    LostAdd(v0, v2, Pde(e, x), p);
    assert v0.Kept(p);
  }

  lemma ClearWord(v: View, s': Store, e: nat, x: nat, t: nat)
    requires v.Ok() && e < NENV && x < NUPDE && t < NPTENTRIES && v.s.PteAt(e, x, t) != 0
    requires var q := v.s.PdeAt(e, x) / PGSIZE; q < |v.s.mem| && s' == v.s.(mem := Poke(v.s.mem, q, t, 0))
    ensures s'.Shape && WordsOk(s') && Dirs(s', v.reserved, v.kpd)
    ensures SameExcept(v.s, s', Pte(e, x, t)) && s'.Target(Pte(e, x, t)) == NULL
    ensures forall e': nat, x': nat | e' < NENV && x' < NUPDE :: s'.PdeAt(e', x') == v.s.PdeAt(e', x')
    ensures FlatOf(s') == FlatOf(v.s) - {SlotOfRef(Pte(e, x, t))}
    ensures v.s.IsTable(v.s.PdeAt(e, x) / PGSIZE) && v.s.Target(Pte(e, x, t)) >= 0 && |v.s.mem| == |v.pages|
  {
    assert v.s.Target(Pde(e, x)) == v.s.PdeAt(e, x) / PGSIZE;
    WritePte(v.s, s', e, x, t, 0);
    FlatWritePte(v.s, s', SlotOfRef(Pte(e, x, t)), 0);
    TableWriteKeepsDirs(v, s', e, x, t, 0);
  }

  /** page_remove on a mapped page: the entry is cleared and the page loses that one reference. */
  lemma ClearEntry(v: View, s': Store, e: nat, x: nat, t: nat)
    requires v.Ok() && v.s.Shape && e < NENV && x < NUPDE && t < NPTENTRIES && v.s.PteAt(e, x, t) != 0
    requires var q := v.s.PdeAt(e, x) / PGSIZE; q < |v.s.mem| && s' == v.s.(mem := Poke(v.s.mem, q, t, 0))
    ensures var p := v.s.Target(Pte(e, x, t));
            Managed(|v.pages|, v.reserved, p) && v.pages[p].pp_link == NULL && v.pages[p].pp_ref < REFMOD &&
            Removed(v, Decref(v, p).(s := s'), Pte(e, x, t))
  {
    hide FlatOf;
    hide View.Ok;
    var r0 := Pte(e, x, t);
    var p := v.s.Target(r0);
    ClearWord(v, s', e, x, t);
    DropRefKeeps(v, s', r0, p);
    TableWriteKeepsData(v, Decref(v, p).(s := s'), v.s.PdeAt(e, x) / PGSIZE, t, 0);
    LostDrop(v, Decref(v, p).(s := s'), r0, p);
  }

  lemma NothingToRemove(v: View, r0: Ref)
    requires v.Ok() && ValidRef(r0) && r0.Pte? && v.s.Target(r0) == NULL && SlotOfRef(r0) !in FlatOf(v.s)
    ensures Removed(v, v, r0)
  {
    assert FlatOf(v.s) - {SlotOfRef(r0)} == FlatOf(v.s);
    assert Freed(v, r0) + v.free == v.free;
  }

  /** page_insert's last store: the held page becomes the page mapped at the empty entry r0. */
  lemma FillEntry(v: View, s': Store, e: nat, x: nat, t: nat, p: nat, flags: nat)
    requires v.Ok() && v.held == p && e < NENV && x < NUPDE && t < NPTENTRIES && v.s.PdeAt(e, x) != 0
    requires v.s.Target(Pte(e, x, t)) == NULL && |v.s.Refs(p)| + 1 < REFMOD
    requires flags < PGSIZE && Present(flags)
    requires var q := v.s.PdeAt(e, x) / PGSIZE;
             q < |v.s.mem| && s' == v.s.(mem := Poke(v.s.mem, q, t, MkEntry(p, flags)))
    ensures v.(s := s', held := NULL).Ok()
    ensures FlatOf(s') == FlatOf(v.s)[SlotOfRef(Pte(e, x, t)) := Entry(p, flags)]
    ensures v.s.IsTable(v.s.PdeAt(e, x) / PGSIZE)
  {
    var w := MkEntry(p, flags);
    assert v.s.Target(Pde(e, x)) == v.s.PdeAt(e, x) / PGSIZE;
    EntryBits(p, flags);
    assert w != 0;
    WritePte(v.s, s', e, x, t, w);
    FlatWritePte(v.s, s', SlotOfRef(Pte(e, x, t)), w);
    TableWriteKeepsDirs(v, s', e, x, t, w);
    AddRefKeeps(v, s', Pte(e, x, t), p);
  }

  /** The same store with a word that names another page, so that the count page_insert has taken is for nothing, or
      with a count that has wrapped round. */
  lemma StrayEntry(v: View, s': Store, e: nat, x: nat, t: nat, p: nat, w: nat)
    requires v.Ok() && v.held == p && e < NENV && x < NUPDE && t < NPTENTRIES && v.s.PdeAt(e, x) != 0
    requires v.s.Target(Pte(e, x, t)) == NULL && w > 0 && (w / PGSIZE != p || |v.s.Refs(p)| + 1 >= REFMOD)
    requires var q := v.s.PdeAt(e, x) / PGSIZE; q < |v.s.mem| && s' == v.s.(mem := Poke(v.s.mem, q, t, w))
    ensures !v.(s := s', held := NULL).Ok()
  {
    WritePte(v.s, s', e, x, t, w);
    RefsRetarget(v.s, s', Pte(e, x, t), p);
    assert CountOk(v.pages[p], v.s, p, p);
    assert !CountOk(v.pages[p], s', p, NULL);
  }

  lemma WalkedFacts(v0: View, v1: View, pp: nat)
    requires v0.Ok() && Walked(v0, v1) && Managed(|v0.pages|, v0.reserved, pp) && pp !in v0.free && !v0.s.IsTable(pp)
    ensures v1.Ok() && v1.held == v0.held && SameBoot(v0, v1) && |v1.s.mem| == |v1.pages| && v1.s.Shape
    ensures pp !in v1.free && !v1.s.IsTable(pp)
  {
  }

  lemma RemovedFacts(v: View, v': View, r0: Ref)
    requires v.Ok() && ValidRef(r0) && r0.Pte? && Removed(v, v', r0)
    ensures v'.Ok() && v'.held == v.held && SameBoot(v, v') && |v'.s.mem| == |v'.pages| && v'.s.Shape
    ensures v'.s.PdeAt(r0.e, r0.x) == v.s.PdeAt(r0.e, r0.x)
  {
  }

  lemma FlatReplace(f: Flat, sl: Slot, en: Entry)
    ensures (f - {sl})[sl := en] == f[sl := en]
  {
  }

  // Walking changes neither the count nor the references of a page that is not free.
  lemma WalkCount(v0: View, v1: View, r0: Ref, pp: nat)
    requires v0.Ok() && v0.held == NULL && Walked(v0, v1) && Managed(|v0.pages|, v0.reserved, pp) && pp !in v0.free
    requires ValidRef(r0)
    ensures v1.pages[pp].pp_ref == v0.pages[pp].pp_ref
    ensures v0.s.Target(r0) == pp <==> v1.s.Target(r0) == pp
  {
    assert CountOk(v0.pages[pp], v0.s, pp, NULL) && CountOk(v1.pages[pp], v1.s, pp, NULL);
    assert r0 in v0.s.Refs(pp) <==> r0 in v1.s.Refs(pp);
  }

  lemma InsertCount(v1: View, v3: View, r0: Ref, pp: nat)
    requires v1.Ok() && v1.held == NULL && Managed(|v1.pages|, v1.reserved, pp)
    requires Hold(v1, pp).Ok() && ValidRef(r0) && r0.Pte? && Removed(Hold(v1, pp), v3, r0)
    ensures |v3.s.Refs(pp)| + 1 < REFMOD <==> v1.pages[pp].pp_ref < 0xffff || v1.s.Target(r0) == pp
    ensures v1.s.Target(r0) == pp ==> v3.pages[pp].pp_ref == v1.pages[pp].pp_ref
  {
    RefsRetarget(v1.s, v3.s, r0, pp);
    assert CountOk(v1.pages[pp], v1.s, pp, NULL);
    assert CountOk(v3.pages[pp], v3.s, pp, pp);
  }

  lemma InsertData(v0: View, v1: View, v3: View, v4: View, q: nat, t: nat, w: nat, r0: Ref, pp: nat)
    requires v0.Ok() && Walked(v0, v1) && pp < |v1.pages| && Hold(v1, pp).Ok() && ValidRef(r0) && r0.Pte?
    requires Removed(Hold(v1, pp), v3, r0)
    requires q < |v3.s.mem| && t < NPTENTRIES && v3.s.IsTable(q) && v4.s.mem == Poke(v3.s.mem, q, t, w)
    ensures DataKept(v0, v4)
  {
    forall p: nat | p < |v0.s.mem| && p !in v0.free && !v0.s.IsTable(p)
      ensures v4.s.mem[p] == v0.s.mem[p]
    {
      assert v1.s.mem[p] == v0.s.mem[p];
      assert !v1.s.IsTable(p) && !v3.s.IsTable(p) by { NoNewTable(v1.s, v3.s, r0, p); }
      assert v3.s.mem[p] == v1.s.mem[p];
    }
  }

  // The state in which page_insert makes its last store: after the walk, the count and the removal.
  ghost predicate Prepared(v0: View, v1: View, v3: View, e: nat, x: nat, t: nat, pp: nat) {
    && e < NENV && x < NUPDE && t < NPTENTRIES && v0.Ok() && v0.held == NULL && pp < |v0.pages|
    && Walked(v0, v1) && v1.s.PdeAt(e, x) != 0 && v1.free == WalkFree(v0, e, x)
    && pp < |v1.pages| && Hold(v1, pp).Ok() && Removed(Hold(v1, pp), v3, Pte(e, x, t)) && v3.Ok()
  }

  // Storing word w in the entry (e, x, t).
  ghost predicate StoredAt(s: Store, s': Store, e: nat, x: nat, t: nat, w: nat) {
    && s.Shape && e < NENV && x < NUPDE && t < NPTENTRIES
    && var q := s.PdeAt(e, x) / PGSIZE; q < |s.mem| && s' == s.(mem := Poke(s.mem, q, t, w))
  }

  lemma InsertFinish(v0: View, v1: View, v3: View, s4: Store, e: nat, x: nat, t: nat, pp: nat, flags: nat)
    requires Prepared(v0, v1, v3, e, x, t, pp) && flags < PGSIZE && Present(flags)
    requires StoredAt(v3.s, s4, e, x, t, MkEntry(pp, flags)) && |v3.s.Refs(pp)| + 1 < REFMOD
    ensures var v4 := v3.(s := s4, held := NULL);
            v4.Ok() && FlatOf(v4.s) == FlatOf(v0.s)[SlotOfRef(Pte(e, x, t)) := Entry(pp, flags)] && DataKept(v0, v4)
  {
    var sl, en, v4 := SlotOfRef(Pte(e, x, t)), Entry(pp, flags), v3.(s := s4, held := NULL);
    FillEntry(v3, s4, e, x, t, pp, flags);
    FlatReplace(FlatOf(v0.s), sl, en);
    assert FlatOf(v3.s) == FlatOf(v0.s) - {sl};
    assert FlatOf(v4.s) == FlatOf(v0.s)[sl := en];
    InsertData(v0, v1, v3, v4, v3.s.PdeAt(e, x) / PGSIZE, t, MkEntry(pp, flags), Pte(e, x, t), pp);
  }

  // The free list when page_insert makes its last store.
  lemma InsertFreeList(v0: View, v1: View, v3: View, e: nat, x: nat, t: nat, pp: nat)
    requires Prepared(v0, v1, v3, e, x, t, pp)
    ensures v3.free == InsertFree(v0, Pte(e, x, t), pp)
  {
    var r0 := Pte(e, x, t);
    var q := v0.s.Target(r0);
    assert v1.s.Target(r0) == q;
    if q >= 0 {
      assert q < |v0.s.mem| && q !in v0.free;
      assert v1.s.Refs(q) == v0.s.Refs(q);
    }
    assert Freed(Hold(v1, pp), r0) == Freed(v0.(held := pp), r0);
  }

  lemma HoldLost(v: View, p: nat)
    requires v.s.Shape && p < |v.pages| && v.held == NULL
    ensures Hold(v, p).Lost() == v.Lost() - {p}
  {
    assert forall q: nat :: Hold(v, p).Kept(q) <==> v.Kept(q) || q == p;
  }

  // The held page gets the reference it was held for.
  lemma FillLost(v: View, v': View, r0: Ref, p: nat)
    requires v.s.Shape && v'.s.Shape && v.held == p && ValidRef(r0) && SameExcept(v.s, v'.s, r0)
    requires v' == v.(s := v'.s, held := NULL) && v.s.Target(r0) == NULL && v'.s.Target(r0) == p
    ensures v'.Lost() == v.Lost()
  {
    forall q: nat
      ensures v'.Kept(q) == v.Kept(q)
    {
      RefsRetarget(v.s, v'.s, r0, q);
      assert r0 in v'.s.Refs(p);
    }
    LostSame(v, v');
  }

  lemma InsertLost(v0: View, v1: View, v3: View, s4: Store, e: nat, x: nat, t: nat, pp: nat, w: nat)
    requires Prepared(v0, v1, v3, e, x, t, pp) && StoredAt(v3.s, s4, e, x, t, w) && w > 0 && w / PGSIZE == pp
    ensures v3.(s := s4, held := NULL).s.Shape && v3.(s := s4, held := NULL).Lost() == v0.Lost() - {pp}
  {
    HoldLost(v1, pp);
    WritePte(v3.s, s4, e, x, t, w);
    FillLost(v3, v3.(s := s4, held := NULL), Pte(e, x, t), pp);
  }

  lemma PreparedFacts(v0: View, v1: View, v3: View, e: nat, x: nat, t: nat, pp: nat)
    requires Prepared(v0, v1, v3, e, x, t, pp)
    ensures v0.s.Shape && v3.s.Shape && v3.held == pp && SameBoot(v0, v3) && |v3.pages| == |v0.s.mem|
    ensures ValidRef(Pte(e, x, t)) && pp < |v0.pages| && v0.held == NULL
  {
  }

  // The count page_insert has taken is good for the reference it makes.
  lemma InsertFits(v0: View, v1: View, v3: View, e: nat, x: nat, t: nat, pp: nat)
    requires v0.s.Shape && v3.s.Shape && ValidRef(Pte(e, x, t)) && |v3.pages| == |v0.pages|
    requires Managed(|v0.pages|, v0.reserved, pp) && pp !in v0.free
    requires Prepared(v0, v1, v3, e, x, t, pp)
    ensures |v3.s.Refs(pp)| + 1 < REFMOD <==> v0.pages[pp].pp_ref < 0xffff || v0.s.Target(Pte(e, x, t)) == pp
    ensures v0.s.Target(Pte(e, x, t)) == pp ==> v3.pages[pp].pp_ref == v0.pages[pp].pp_ref
  {
    hide FlatOf;
    WalkCount(v0, v1, Pte(e, x, t), pp);
    InsertCount(v1, v3, Pte(e, x, t), pp);
  }

  /** Walk, hold, remove, store: together these are an insertion. */
  lemma InsertChain(v0: View, v1: View, v3: View, s4: Store, e: nat, x: nat, t: nat, pp: nat, flags: nat)
    requires v0.s.Shape && ValidRef(Pte(e, x, t)) && flags < PGSIZE && Present(flags)
    requires Managed(|v0.pages|, v0.reserved, pp) && pp !in v0.free && !v0.s.IsTable(pp)
    requires v0.pages[pp].pp_ref < 0xffff || v0.s.Target(Pte(e, x, t)) == pp
    requires Prepared(v0, v1, v3, e, x, t, pp) && StoredAt(v3.s, s4, e, x, t, MkEntry(pp, flags))
    ensures Inserted(v0, v3.(s := s4, held := NULL), Pte(e, x, t), pp, flags)
  {
    hide Prepared;
    hide View.Ok;
    hide FlatOf;
    hide DataKept;
    hide InsertFree;
    PreparedFacts(v0, v1, v3, e, x, t, pp);
    InsertFits(v0, v1, v3, e, x, t, pp);
    InsertFinish(v0, v1, v3, s4, e, x, t, pp, flags);
    InsertFreeList(v0, v1, v3, e, x, t, pp);
    EntryBits(pp, flags);
    InsertLost(v0, v1, v3, s4, e, x, t, pp, MkEntry(pp, flags));
  }

  /** ... unless the word stored names another page than pp, or the 16-bit count is full and the entry did not name pp:
      then the accounting is lost. */
  lemma StrayChain(v0: View, v1: View, v3: View, s4: Store, e: nat, x: nat, t: nat, pp: nat, w: nat)
    requires v0.s.Shape && ValidRef(Pte(e, x, t)) && Managed(|v0.pages|, v0.reserved, pp) && pp !in v0.free && w > 0
    requires w / PGSIZE != pp || (v0.pages[pp].pp_ref >= 0xffff && v0.s.Target(Pte(e, x, t)) != pp)
    requires Prepared(v0, v1, v3, e, x, t, pp) && StoredAt(v3.s, s4, e, x, t, w)
    ensures !v3.(s := s4, held := NULL).Ok()
  {
    PreparedFacts(v0, v1, v3, e, x, t, pp);
    InsertFits(v0, v1, v3, e, x, t, pp);
    StrayEntry(v3, s4, e, x, t, pp, w);
  }
}
