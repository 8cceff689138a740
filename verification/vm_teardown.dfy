/** env_free and env_setup_vm: a whole address space given back, and a new one made. */
module VmTeardown {
  import opened Mmu
  import opened VmStore
  import opened VmView
  import opened VmSteps

  function SlotsOf(gone: set<Ref>): set<Slot> {
    set r | r in gone && r.Pte? :: SlotOfRef(r)
  }

  /** From v0 to v the references in `gone` were dropped, and nothing else happened: every other reference is as
      it was, and the free list gained exactly the pages that lost their last reference. */
  ghost predicate Shed(v0: View, v: View, gone: set<Ref>)
    requires v0.s.Shape
  {
    && v.Ok() && v.held == v0.held && |v.pages| == |v0.s.mem| && v.reserved == v0.reserved && v.kpd == v0.kpd
    && (forall r | ValidRef(r) :: v.s.Target(r) == if r in gone then NULL else v0.s.Target(r))
    && (forall p: nat :: p in v.free <==> p in v0.free || (v0.s.Refs(p) != {} && v.s.Refs(p) == {}))
    && FlatOf(v.s) == FlatOf(v0.s) - SlotsOf(gone)
    && (forall p: nat | p < |v0.s.mem| && p !in v.free && !v0.s.IsTable(p) :: v.s.mem[p] == v0.s.mem[p])
  }

  /** One reference dropped, together with page_decref on the page it named. */
  ghost predicate Dropped(v: View, v': View, r0: Ref)
    requires v.s.Shape && ValidRef(r0)
  {
    && v'.Ok() && v'.held == v.held && |v'.pages| == |v.s.mem| && v'.reserved == v.reserved && v'.kpd == v.kpd
    && SameExcept(v.s, v'.s, r0) && v'.s.Target(r0) == NULL
    && FlatOf(v'.s) == (if r0.Pte? then FlatOf(v.s) - {SlotOfRef(r0)} else FlatOf(v.s))
    && v'.free == Freed(v, r0) + v.free
    && DataKept(v, v')
  }

  lemma ShedNothing(v: View)
    requires v.Ok()
    ensures Shed(v, v, {})
  {
    assert SlotsOf({}) == {};
    forall p: nat | p in v.free
      ensures v.s.Refs(p) == {}
    {
      FreeIsUnnamed(v, p);
    }
  }

  lemma RefsShed(v0: View, v: View, gone: set<Ref>, p: nat)
    requires v0.s.Shape && Shed(v0, v, gone)
    ensures v.s.Refs(p) == v0.s.Refs(p) - gone
  {
  }

  lemma TableShed(v0: View, v: View, gone: set<Ref>, p: nat)
    requires v0.s.Shape && Shed(v0, v, gone) && !v0.s.IsTable(p)
    ensures !v.s.IsTable(p)
  {
    forall r | ValidRef(r) && !r.Pte?
      ensures v.s.Target(r) != p
    {
      assert v0.s.Target(r) != p;
    }
  }

  // One drop, seen from page p: it enters the free list exactly when r0 was its last name.
  lemma DropFree(v: View, v': View, r0: Ref, p: nat)
    requires v.Ok() && v.held == NULL && ValidRef(r0) && v.s.Target(r0) != NULL && Dropped(v, v', r0)
    ensures p in v'.free <==> p in v.free || (v.s.Refs(p) != {} && v'.s.Refs(p) == {})
    ensures v.s.Refs(p) == {} ==> v'.s.Refs(p) == {}
  {
    hide View.Ok;
    hide FlatOf;
    Sizes(v);
    Sizes(v');
    RefsRetarget(v.s, v'.s, r0, p);
    assert r0 in v.s.Refs(p) <==> v.s.Target(r0) == p;
    assert p in v'.free <==> p in Freed(v, r0) || p in v.free;
    if v.s.Target(r0) == p && v'.s.Refs(p) == {} {
      assert v.s.Refs(p) == {r0};
    }
  }

  lemma FlatShed(f0: Flat, gone: set<Ref>, r0: Ref)
    ensures (if r0.Pte? then (f0 - SlotsOf(gone)) - {SlotOfRef(r0)} else f0 - SlotsOf(gone)) ==
            f0 - SlotsOf(gone + {r0})
  {
    if r0.Pte? {
      assert SlotsOf(gone + {r0}) == SlotsOf(gone) + {SlotOfRef(r0)};
    } else {
      assert SlotsOf(gone + {r0}) == SlotsOf(gone);
    }
  }

  lemma ShedData(v0: View, v: View, v': View, gone: set<Ref>, r0: Ref)
    requires v0.s.Shape && Shed(v0, v, gone) && ValidRef(r0) && Dropped(v, v', r0)
    ensures forall p: nat | p < |v0.s.mem| && p !in v'.free && !v0.s.IsTable(p) :: v'.s.mem[p] == v0.s.mem[p]
  {
    forall p: nat | p < |v0.s.mem| && p !in v'.free && !v0.s.IsTable(p)
      ensures v'.s.mem[p] == v0.s.mem[p]
    {
      TableShed(v0, v, gone, p);
      assert p !in v.free;
    }
  }

  lemma ShedStep(v0: View, v: View, v': View, gone: set<Ref>, r0: Ref)
    requires v0.Ok() && v0.held == NULL && Shed(v0, v, gone) && ValidRef(r0) && v.s.Target(r0) != NULL &&
             Dropped(v, v', r0)
    ensures Shed(v0, v', gone + {r0})
  {
    hide FlatOf;
    hide View.Ok;
    Sizes(v0);
    Sizes(v);
    Sizes(v');
    FlatShed(FlatOf(v0.s), gone, r0);
    ShedData(v0, v, v', gone, r0);
    forall p: nat
      ensures p in v'.free <==> p in v0.free || (v0.s.Refs(p) != {} && v'.s.Refs(p) == {})
    {
      DropFree(v, v', r0, p);
    }
  }

  lemma RemovedIsDropped(v: View, v': View, r0: Ref)
    requires v.Ok() && ValidRef(r0) && r0.Pte? && Removed(v, v', r0)
    ensures Dropped(v, v', r0)
  {
  }

  // The directory slot is cleared, and no entry changes.
  lemma DetachWords(v: View, s': Store, e: nat, x: nat, p: nat)
    requires v.Ok() && e < NENV && x < NUPDE && v.s.pgdir[e] >= 0
    requires v.s.PdeAt(e, x) != 0 && p == v.s.PdeAt(e, x) / PGSIZE
    requires forall t: nat | t < NPTENTRIES :: v.s.PteAt(e, x, t) == 0
    requires s' == v.s.(mem := Poke(v.s.mem, v.s.pgdir[e], x, 0))
    ensures s'.Shape && SameExcept(v.s, s', Pde(e, x)) && v.s.Target(Pde(e, x)) == p && s'.Target(Pde(e, x)) == NULL
    ensures WordsOk(s') && Dirs(s', v.reserved, v.kpd) && FlatOf(s') == FlatOf(v.s)
    ensures v.s.Target(Pgdir(e)) == v.s.pgdir[e] && v.s.IsTable(v.s.pgdir[e])
    ensures s'.PdeAt(e, x) == 0 && forall x': nat | x' < NUPDE && x' != x :: s'.PdeAt(e, x') == v.s.PdeAt(e, x')
  {
    assert v.s.Target(Pde(e, x)) == p && v.s.Target(Pgdir(e)) == v.s.pgdir[e];
    WritePde(v.s, s', e, x, 0);
    hide FlatOf;
    FlatSame(v.s, s');
  }

  /** Detaching a table whose entries are all clear. */
  lemma DetachTable(v: View, s': Store, e: nat, x: nat, p: nat)
    requires v.Ok() && e < NENV && x < NUPDE && v.s.pgdir[e] >= 0
    requires v.s.PdeAt(e, x) != 0 && p == v.s.PdeAt(e, x) / PGSIZE
    requires forall t: nat | t < NPTENTRIES :: v.s.PteAt(e, x, t) == 0
    requires s' == v.s.(mem := Poke(v.s.mem, v.s.pgdir[e], x, 0))
    ensures Managed(|v.pages|, v.reserved, p) && v.pages[p].pp_link == NULL && v.pages[p].pp_ref < REFMOD
    ensures Dropped(v, Decref(v, p).(s := s'), Pde(e, x))
    ensures s'.PdeAt(e, x) == 0 && forall x': nat | x' < NUPDE && x' != x :: s'.PdeAt(e, x') == v.s.PdeAt(e, x')
  {
    hide View.Ok;
    hide FlatOf;
    hide WordsOk;
    hide Dirs;
    Sizes(v);
    DetachWords(v, s', e, x, p);
    DropRefKeeps(v, s', Pde(e, x), p);
    TableWriteKeepsData(v, Decref(v, p).(s := s'), v.s.pgdir[e], x, 0);
  }

  /** Dropping a directory whose user half is clear. */
  lemma DropDir(v: View, s': Store, e: nat, d: nat)
    requires v.Ok() && e < NENV && v.s.pgdir[e] == d
    requires forall x: nat | x < NUPDE :: v.s.PdeAt(e, x) == 0
    requires s' == v.s.(pgdir := v.s.pgdir[e := NULL])
    ensures Managed(|v.pages|, v.reserved, d) && v.pages[d].pp_link == NULL && v.pages[d].pp_ref < REFMOD
    ensures Dropped(v, Decref(v, d).(s := s'), Pgdir(e))
  {
    assert v.s.Target(Pgdir(e)) == d;
    WritePgdir(v.s, s', e, NULL);
    FlatSame(v.s, s');
    DropRefKeeps(v, s', Pgdir(e), d);
  }

  /** page_remove inside env_free. */
  lemma RemoveStep(v0: View, v: View, v': View, gone: set<Ref>, r0: Ref)
    requires v0.Ok() && v0.held == NULL && Shed(v0, v, gone) && ValidRef(r0) && r0.Pte? && v.s.Target(r0) != NULL
    requires Removed(v, v', r0)
    ensures Shed(v0, v', gone + {r0}) && v'.Ok() && SameExcept(v.s, v'.s, r0) && v'.s.Target(r0) == NULL
    ensures forall e: nat, x: nat | e < NENV && x < NUPDE :: v'.s.PdeAt(e, x) == v.s.PdeAt(e, x)
  {
    RemovedIsDropped(v, v', r0);
    ShedStep(v0, v, v', gone, r0);
  }

  lemma DetachStep(v0: View, v: View, v': View, gone: set<Ref>, e: nat, x: nat, p: nat)
    requires v0.Ok() && v0.held == NULL && v.Ok() && Shed(v0, v, gone) && e < NENV && x < NUPDE && v.s.pgdir[e] >= 0
    requires v.s.PdeAt(e, x) != 0 && p == v.s.PdeAt(e, x) / PGSIZE && p < |v.pages|
    requires forall t: nat | t < NPTENTRIES :: v.s.Target(Pte(e, x, t)) == NULL
    requires v' == Decref(v, p).(s := v.s.(mem := Poke(v.s.mem, v.s.pgdir[e], x, 0)))
    ensures Shed(v0, v', gone + {Pde(e, x)}) && v'.Ok()
    ensures v'.s.PdeAt(e, x) == 0 && forall x': nat | x' < NUPDE && x' != x :: v'.s.PdeAt(e, x') == v.s.PdeAt(e, x')
  {
    hide FlatOf;
    hide Shed;
    hide View.Ok;
    Sizes(v0);
    Sizes(v);
    assert forall t: nat | t < NPTENTRIES :: v.s.PteAt(e, x, t) == 0 by {
      forall t: nat | t < NPTENTRIES
        ensures v.s.PteAt(e, x, t) == 0
      {
        assert v.s.Target(Pte(e, x, t)) == NULL;
      }
    }
    DetachTable(v, v'.s, e, x, p);
    assert v.s.Target(Pde(e, x)) == p;
    ShedStep(v0, v, v', gone, Pde(e, x));
  }

  // What the drop of a table or directory needs to know of the page it drops.
  lemma TableFacts(v: View, r: Ref)
    requires v.Ok() && ValidRef(r) && v.s.Target(r) != NULL
    ensures var p := v.s.Target(r);
            Managed(|v.pages|, v.reserved, p) && p < |v.s.mem| && v.pages[p].pp_link == NULL &&
                v.pages[p].pp_ref < REFMOD
  {
    var p := v.s.Target(r);
    assert CountOk(v.pages[p], v.s, p, v.held);
  }

  lemma UserPageAddress(e: nat, x: nat, t: nat)
    requires e < NENV && x < NUPDE && t < NPTENTRIES
    ensures var va := PGADDR(x, t, 0); va < UTOP && PDX(va) == x && PTX(va) == t
  {
    var va := PGADDR(x, t, 0);
    assert va / PGSIZE == x * 1024 + t;
    assert va / PTSIZE == x;
  }

  // The references that belong to env e.
  ghost function Own(refs: set<Ref>, e: nat): set<Ref> { set r | r in refs && r.e == e }

  /** env_free conserves pages: each page's count falls by exactly the number of references the env had to it,
      the free list gains exactly the pages, tables and directory that only this env referenced, and every
      other env translates as before. */
  ghost predicate TornDown(v: View, v': View, e: nat)
    requires v.s.Shape
  {
    && v'.Ok() && |v'.pages| == |v.pages| == |v.s.mem|
    && (forall r | ValidRef(r) :: v'.s.Target(r) == if r.e == e then NULL else v.s.Target(r))
    && (forall p | Managed(|v.pages|, v.reserved, p) :: v'.pages[p].pp_ref == v.pages[p].pp_ref - |Own(v.s.Refs(p), e)|)
    && (forall p: nat :: p in v'.free <==> p in v.free || (v.s.Refs(p) != {} && Own(v.s.Refs(p), e) == v.s.Refs(p)))
    && FlatOf(v'.s) == (map sl | sl in FlatOf(v.s) && sl.e != e :: FlatOf(v.s)[sl])
    && (forall p: nat | p < |v.pages| && p !in v'.free && !v.s.IsTable(p) :: v'.s.mem[p] == v.s.mem[p])
  }

  lemma CardSplit<T>(a: set<T>, b: set<T>)
    requires b <= a
    ensures |a - b| == |a| - |b|
  {
    assert a == (a - b) + b;
  }

  lemma OwnRefs(v: View, v': View, gone: set<Ref>, e: nat, p: nat)
    requires v.s.Shape && Shed(v, v', gone) && (forall r | r in gone :: r.e == e)
    requires forall r | ValidRef(r) && r.e == e :: v'.s.Target(r) == NULL
    ensures v'.s.Refs(p) == v.s.Refs(p) - Own(v.s.Refs(p), e)
    ensures |v'.s.Refs(p)| == |v.s.Refs(p)| - |Own(v.s.Refs(p), e)|
  {
    hide FlatOf;
    RefsShed(v, v', gone, p);
    assert forall r | r in v'.s.Refs(p) :: r.e != e;
    assert v'.s.Refs(p) == v.s.Refs(p) - Own(v.s.Refs(p), e);
    CardSplit(v.s.Refs(p), Own(v.s.Refs(p), e));
  }

  lemma OwnSplit(v: View, v': View, gone: set<Ref>, e: nat, p: nat)
    requires v.Ok() && v.held == NULL && Shed(v, v', gone) && (forall r | r in gone :: r.e == e)
    requires forall r | ValidRef(r) && r.e == e :: v'.s.Target(r) == NULL
    ensures Managed(|v.pages|, v.reserved, p) ==> v'.pages[p].pp_ref == v.pages[p].pp_ref - |Own(v.s.Refs(p), e)|
    ensures p in v'.free <==> p in v.free || (v.s.Refs(p) != {} && Own(v.s.Refs(p), e) == v.s.Refs(p))
  {
    hide FlatOf;
    OwnRefs(v, v', gone, e, p);
    if Managed(|v.pages|, v.reserved, p) {
      assert CountOk(v.pages[p], v.s, p, NULL) && CountOk(v'.pages[p], v'.s, p, NULL);
    }
    if Own(v.s.Refs(p), e) != v.s.Refs(p) {
      var r :| r in v.s.Refs(p) && r !in Own(v.s.Refs(p), e);
      assert r in v'.s.Refs(p);
    }
  }

  lemma UnmappedEnv(s: Store, e: nat)
    requires s.Shape && forall r | ValidRef(r) && r.e == e :: s.Target(r) == NULL
    ensures forall sl | sl in FlatOf(s) :: sl.e != e
  {
    forall sl | sl in FlatOf(s)
      ensures sl.e != e
    {
      assert s.Target(Pte(sl.e, sl.vpn / 1024, sl.vpn % 1024)) != NULL;
    }
  }

  lemma FlatWithout(f: Flat, gone: set<Slot>, e: nat)
    requires (forall sl | sl in gone :: sl.e == e) && (forall sl | sl in f - gone :: sl.e != e)
    ensures f - gone == map sl | sl in f && sl.e != e :: f[sl]
  {
  }

  lemma FlatTorn(v: View, v': View, gone: set<Ref>, e: nat)
    requires v.Ok() && Shed(v, v', gone) && (forall r | r in gone :: r.e == e)
    requires forall r | ValidRef(r) && r.e == e :: v'.s.Target(r) == NULL
    ensures FlatOf(v'.s) == map sl | sl in FlatOf(v.s) && sl.e != e :: FlatOf(v.s)[sl]
  {
    hide FlatOf;
    hide View.Ok;
    Sizes(v);
    Sizes(v');
    UnmappedEnv(v'.s, e);
    FlatWithout(FlatOf(v.s), SlotsOf(gone), e);
  }

  lemma TearDownDone(v: View, v': View, gone: set<Ref>, e: nat)
    requires v.Ok() && v.held == NULL && Shed(v, v', gone) && (forall r | r in gone :: r.e == e)
    requires forall r | ValidRef(r) && r.e == e :: v'.s.Target(r) == NULL
    ensures TornDown(v, v', e)
  {
    hide FlatOf;
    FlatTorn(v, v', gone, e);
    forall p: nat
      ensures Managed(|v.pages|, v.reserved, p) ==> v'.pages[p].pp_ref == v.pages[p].pp_ref - |Own(v.s.Refs(p), e)|
      ensures p in v'.free <==> p in v.free || (v.s.Refs(p) != {} && Own(v.s.Refs(p), e) == v.s.Refs(p))
    {
      OwnSplit(v, v', gone, e, p);
    }
  }

  /** The last step of env_free: the directory itself. */
  lemma DropDirStep(v0: View, v: View, v': View, gone: set<Ref>, e: nat, d: nat)
    requires v0.Ok() && v0.held == NULL && v.Ok() && Shed(v0, v, gone) && (forall r | r in gone :: r.e == e)
    requires e < NENV && v.s.pgdir[e] == d && d < |v.pages|
    requires forall x: nat | x < NUPDE :: v.s.PdeAt(e, x) == 0
    requires v' == Decref(v, d).(s := v.s.(pgdir := v.s.pgdir[e := NULL]))
    ensures TornDown(v0, v', e)
  {
    hide FlatOf;
    hide Shed;
    hide View.Ok;
    Sizes(v);
    Sizes(v0);
    DropDir(v, v'.s, e, d);
    assert v.s.Target(Pgdir(e)) == d;
    ShedStep(v0, v, v', gone, Pgdir(e));
    Sizes(v');
    assert forall x: nat | x < NUPDE :: v'.s.PdeAt(e, x) == 0;
    TearDownDone(v0, v', gone + {Pgdir(e)}, e);
  }

  /** env_setup_vm: a fresh page becomes the directory of env e, a copy of kern_pgdir with the self-map. */
  lemma SetupDir(v: View, v': View, e: nat, p: nat, words: seq<nat>)
    requires v.Ok() && v.held == NULL && e < NENV && v.s.pgdir[e] == NULL
    requires Managed(|v.pages|, v.reserved, p) && p !in v.free && v.s.Refs(p) == {}
    requires |words| == NPTENTRIES && words[UVPT_PDX] == MkEntry(p, 5)
    requires v.kpd < |v.s.mem| && forall x | 0 <= x < NUPDE :: words[x] == v.s.mem[v.kpd][x]
    requires v' == Incref(v, p).(s := Store(v.s.mem[p := words], v.s.pgdir[e := p]))
    ensures v'.Ok() && FlatOf(v'.s) == FlatOf(v.s) && v'.s.Target(Pgdir(e)) == p
    ensures SameExcept(v.s, v'.s, Pgdir(e)) && v'.Lost() == v.Lost() - {p}
  {
    NotTable(v.s, p);
    var va := v.(s := v.s.(mem := v.s.mem[p := words]));
    DataPageKeeps(v, va, p, words);
    NotTable(va.s, p);
    HoldKeeps(va, p);
    assert va.s.Target(Pgdir(e)) == NULL;
    WritePgdir(va.s, v'.s, e, p);
    FlatSame(va.s, v'.s);
    SetupDirs(va, v'.s, e, p);
    AddRefKeeps(Hold(va, p), v'.s, Pgdir(e), p);
    assert Hold(va, p).(s := v'.s, held := NULL) == v';
    assert v.s.Target(Pgdir(e)) == NULL;
    LostAdd(v, v', Pgdir(e), p);
  }

  lemma SetupDirs(va: View, s': Store, e: nat, p: nat)
    requires va.Ok() && e < NENV && p < |va.s.mem| && s' == va.s.(pgdir := va.s.pgdir[e := p])
    requires va.s.mem[p][UVPT_PDX] == MkEntry(p, 5)
    ensures s'.Shape && Dirs(s', va.reserved, va.kpd)
  {
  }

  /** No page is lost by it, and none that was is found again. */
  lemma TornDownLost(v: View, v': View, e: nat)
    requires v.Ok() && TornDown(v, v', e) && v'.reserved == v.reserved && v.held == NULL && v'.held == NULL
    ensures v'.Lost() == v.Lost()
  {
    hide FlatOf;
    forall p: nat | p < |v.pages| && p !in v.reserved
      ensures v'.Kept(p) == v.Kept(p)
    {
      var a, b := v.s.Refs(p), v'.s.Refs(p);
      assert b == a - Own(a, e);
      if b == {} {
        assert Own(a, e) == a;
      } else {
        var r :| r in b;
        assert r in a && r !in Own(a, e);
      }
    }
    LostSame(v, v');
  }

  lemma TornDownFacts(v: View, v': View, e: nat)
    requires v.s.Shape && TornDown(v, v', e)
    ensures v'.Ok() && v'.s.Shape
  {
  }

  lemma KernDir(v: View)
    requires v.Ok()
    ensures v.kpd in v.reserved && v.kpd < |v.s.mem| && forall x :: 0 <= x < NUPDE ==> v.s.mem[v.kpd][x] == 0
  {
  }
}
