/** The allocator, the page tables and the flat map they stand for. */
module VmView {
  import opened Mmu
  import opened VmStore

  datatype PageInfo = PageInfo(pp_link: int, pp_ref: nat)

  // pp_ref is a uint16_t.
  const REFMOD: nat := 0x1_0000

  function Inc16(n: nat): nat { if n + 1 == REFMOD then 0 else n + 1 }
  function Dec16(n: nat): nat { if n == 0 then REFMOD - 1 else n - 1 }

  /** A user virtual page of one env, and what a flat page map says about it. */
  datatype Slot = Slot(e: nat, vpn: nat)
  datatype Entry = Entry(page: nat, perm: nat)
  type Flat = map<Slot, Entry>

  predicate ValidSlot(sl: Slot) { sl.e < NENV && sl.vpn < NUPN }

  ghost function AllSlots(): (ss: set<Slot>)
    ensures forall sl: Slot :: ValidSlot(sl) ==> sl in ss
  {
    set e: nat, vpn: nat | e < NENV && vpn < NUPN :: Slot(e, vpn)
  }

  function WordAt(s: Store, sl: Slot): nat
    requires s.Shape && ValidSlot(sl)
  {
    s.PteAt(sl.e, sl.vpn / 1024, sl.vpn % 1024)
  }

  /** The flat map a two-level store denotes: every present user entry, nothing else. */
  ghost function FlatOf(s: Store): Flat
    requires s.Shape
  {
    map sl | sl in AllSlots() && ValidSlot(sl) && WordAt(s, sl) != 0 ::
      Entry(WordAt(s, sl) / PGSIZE, WordAt(s, sl) % PGSIZE)
  }

  lemma FlatWritePte(s: Store, s': Store, sl: Slot, w: nat)
    requires s.Shape && s'.Shape && ValidSlot(sl)
    requires forall e': nat, x': nat, t': nat | e' < NENV && x' < NUPDE && t' < NPTENTRIES ::
               s'.PteAt(e', x', t') ==
               if e' == sl.e && x' == sl.vpn / 1024 && t' == sl.vpn % 1024 then w else s.PteAt(e', x', t')
    ensures FlatOf(s') == if w == 0 then FlatOf(s) - {sl} else FlatOf(s)[sl := Entry(w / PGSIZE, w % PGSIZE)]
  {
    forall sl' | ValidSlot(sl')
      ensures WordAt(s', sl') == if sl' == sl then w else WordAt(s, sl')
    {
      assert sl'.vpn == sl'.vpn / 1024 * 1024 + sl'.vpn % 1024;
    }
  }

  lemma FlatSame(s: Store, s': Store)
    requires s.Shape && s'.Shape
    requires forall e: nat, x: nat, t: nat | e < NENV && x < NUPDE && t < NPTENTRIES ::
             s'.PteAt(e, x, t) == s.PteAt(e, x, t)
    ensures FlatOf(s') == FlatOf(s)
  {
    forall sl | ValidSlot(sl)
      ensures WordAt(s', sl) == WordAt(s, sl)
    {
    }
  }

  // A page below npages that the boot code did not keep for itself.
  predicate Managed(n: nat, reserved: set<nat>, p: int) { 0 <= p < n && p !in reserved }

  // What follows the i-th page of a free list.
  function Next(free: seq<nat>, i: nat): int { if i + 1 < |free| then free[i + 1] else NULL }

  // The list reached from `head` through pp_link is `free`: acyclic, duplicate-free, managed pages only.
  ghost predicate ListOk(pages: seq<PageInfo>, head: int, free: seq<nat>, reserved: set<nat>) {
    && (forall i | 0 <= i < |free| :: Managed(|pages|, reserved, free[i]))
    && (forall i, j | 0 <= i < j < |free| :: free[i] != free[j])
    && head == (if free == [] then NULL else free[0])
    && (forall i | 0 <= i < |free| :: pages[free[i]].pp_link == Next(free, i))
    && (forall p: nat | Managed(|pages|, reserved, p) && p !in free :: pages[p].pp_link == NULL)
  }

  // Every name is a managed page that is not free.
  ghost predicate NamesOk(s: Store, free: seq<nat>, reserved: set<nat>)
    requires s.Shape
  {
    forall r | ValidRef(r) && s.Target(r) != NULL :: Managed(|s.mem|, reserved, s.Target(r)) && s.Target(r) !in free
  }

  // Every entry is 0 or present, and directory entries carry exactly PTE_P | PTE_W | PTE_U.
  ghost predicate WordsOk(s: Store)
    requires s.Shape
  {
    && (forall e: nat, x: nat | e < NENV && x < NUPDE :: s.PdeAt(e, x) == 0 || s.PdeAt(e, x) % PGSIZE == 7)
    && (forall e: nat, x: nat, t: nat | e < NENV && x < NUPDE && t < NPTENTRIES ::
          s.PteAt(e, x, t) == 0 || Present(s.PteAt(e, x, t)))
  }

  // pp_ref is the number of names, plus one for a page that page_insert is holding.
  ghost predicate CountOk(info: PageInfo, s: Store, p: int, held: int)
    requires s.Shape
  {
    |s.Refs(p)| < REFMOD && info.pp_ref == if p == held then Inc16(|s.Refs(p)|) else |s.Refs(p)|
  }

  ghost predicate Counts(pages: seq<PageInfo>, s: Store, reserved: set<nat>, held: int)
    requires s.Shape
  {
    forall p | Managed(|pages|, reserved, p) :: CountOk(pages[p], s, p, held)
  }

  // kern_pgdir is clear below UTOP, and every env directory maps itself at UVPT, read-only.
  ghost predicate Dirs(s: Store, reserved: set<nat>, kpd: nat)
    requires s.Shape
  {
    && kpd in reserved && kpd < |s.mem| && (forall x :: 0 <= x < NUPDE ==> s.mem[kpd][x] == 0)
    && (forall e :: 0 <= e < NENV && s.pgdir[e] != NULL ==> s.mem[s.pgdir[e]][UVPT_PDX] == MkEntry(s.pgdir[e], 5))
  }

  /** Everything kern/pmap.c maintains. `free` is the page free list front to back; `reserved` holds the
      pages the boot code keeps (never free, never named below UTOP); `kpd` is kern_pgdir; `held` is the page
      whose count page_insert has already taken, or NULL. */
  datatype View = View(pages: seq<PageInfo>, head: int, free: seq<nat>, s: Store, reserved: set<nat>, kpd: nat,
                       held: int) {
    ghost predicate Ok() {
      && s.Shape && |s.mem| == |pages|
      && ListOk(pages, head, free, reserved)
      && s.Exclusive()
      && NamesOk(s, free, reserved)
      && WordsOk(s)
      && Counts(pages, s, reserved, held)
      && Dirs(s, reserved, kpd)
      && (held == NULL || (Managed(|pages|, reserved, held) && held !in free && !s.IsTable(held)))
    }

    // Somebody still has page p: the free list, a reference, or page_insert.
    ghost predicate Kept(p: nat)
      requires s.Shape
    {
      p in free || p == held || s.Refs(p) != {}
    }

    /** The managed pages that nobody has any more. */
    ghost function Lost(): set<nat>
      requires s.Shape
    {
      set p: nat | p < |pages| && p !in reserved && !Kept(p)
    }
  }

  lemma LostSame(v: View, v': View)
    requires v.s.Shape && v'.s.Shape && |v'.pages| == |v.pages| && v'.reserved == v.reserved
    requires forall p: nat | p < |v.pages| && p !in v.reserved :: v'.Kept(p) == v.Kept(p)
    ensures v'.Lost() == v.Lost()
  {
  }

  // page_alloc hands out a page that nobody has then but its caller.
  lemma LostAlloc(v: View, v': View, p: nat)
    requires v.s.Shape && v'.s.Shape && |v'.pages| == |v.pages| && v'.reserved == v.reserved && v'.held == v.held
    requires v.free == [p] + v'.free && p !in v'.free && p != v.held
    requires p < |v.pages| && p !in v.reserved && v.s.Refs(p) == {} && forall q :: v'.s.Refs(q) == v.s.Refs(q)
    ensures v'.Lost() == v.Lost() + {p} && p !in v.Lost()
  {
    assert forall q :: q in v.free <==> q == p || q in v'.free;
    forall q: nat
      ensures v'.Kept(q) <==> v.Kept(q) && q != p
    {
    }
  }

  // A page from the free list, or one that was lost, gets its first reference.
  lemma LostAdd(v: View, v': View, r0: Ref, p: nat)
    requires v.s.Shape && v'.s.Shape && |v'.pages| == |v.pages| && v'.reserved == v.reserved && v'.held == v.held
    requires ValidRef(r0) && SameExcept(v.s, v'.s, r0) && v.s.Target(r0) == NULL && v'.s.Target(r0) == p
    requires forall q :: q in v'.free <==> q in v.free && q != p
    ensures v'.Lost() == v.Lost() - {p}
  {
    forall q: nat
      ensures v'.Kept(q) <==> v.Kept(q) || q == p
    {
      RefsRetarget(v.s, v'.s, r0, q);
      assert r0 in v'.s.Refs(p);
    }
  }

  // A reference is dropped, and its page is freed if it was the last one and nobody holds it.
  lemma LostDrop(v: View, v': View, r0: Ref, p: nat)
    requires v.s.Shape && v'.s.Shape && |v'.pages| == |v.pages| && v'.reserved == v.reserved && v'.held == v.held
    requires ValidRef(r0) && SameExcept(v.s, v'.s, r0) && v.s.Target(r0) == p && v'.s.Target(r0) == NULL
    requires v'.free == if v.s.Refs(p) == {r0} && p != v.held then [p] + v.free else v.free
    ensures v'.Lost() == v.Lost()
  {
    forall q: nat
      ensures v'.Kept(q) == v.Kept(q)
    {
      RefsRetarget(v.s, v'.s, r0, q);
      assert r0 in v.s.Refs(p);
      if q == p {
        assert v'.s.Refs(p) == v.s.Refs(p) - {r0};
        assert v'.s.Refs(p) == {} <==> v.s.Refs(p) == {r0};
      }
    }
    LostSame(v, v');
  }

  lemma Sizes(v: View)
    requires v.Ok()
    ensures v.s.Shape && |v.s.mem| == |v.pages|
  {
  }

  lemma FreeIsUnnamed(v: View, p: nat)
    requires v.Ok() && p in v.free
    ensures v.s.Refs(p) == {} && !v.s.IsTable(p) && v.pages[p].pp_ref == 0
  {
    assert forall r | ValidRef(r) :: v.s.Target(r) != p;
    assert v.s.Refs(p) == {};
  }

  lemma PopList(pages: seq<PageInfo>, head: int, free: seq<nat>, reserved: set<nat>, pages': seq<PageInfo>)
    requires ListOk(pages, head, free, reserved) && free != []
    requires pages' == pages[free[0] := pages[free[0]].(pp_link := NULL)]
    ensures Managed(|pages|, reserved, free[0])
    ensures ListOk(pages', pages[free[0]].pp_link, free[1..], reserved) && free[0] !in free[1..]
  {
    var p, free' := free[0], free[1..];
    assert forall q :: q in free <==> q == p || q in free';
    forall i | 0 <= i < |free'|
      ensures Managed(|pages'|, reserved, free'[i]) && pages'[free'[i]].pp_link == Next(free', i)
    {
      assert free'[i] == free[i + 1] != p;
      assert pages[free[i + 1]].pp_link == Next(free, i + 1);
    }
    assert pages[free[0]].pp_link == Next(free, 0);
  }

  /** page_alloc: unlink the first free page; everything else is untouched. */
  lemma PopKeeps(v: View, v': View)
    requires v.Ok() && v.free != []
    requires v' == v.(head := v.pages[v.free[0]].pp_link,
                      pages := v.pages[v.free[0] := v.pages[v.free[0]].(pp_link := NULL)],
                      free := v.free[1..])
    ensures v'.Ok() && v.free[0] !in v'.free
  {
    hide ListOk;
    PopList(v.pages, v.head, v.free, v.reserved, v'.pages);
    forall q | Managed(|v'.pages|, v'.reserved, q)
      ensures CountOk(v'.pages[q], v'.s, q, v'.held)
    {
      assert CountOk(v.pages[q], v.s, q, v.held);
    }
  }

  /** Rewriting an allocated page that is no table. */
  lemma DataPageKeeps(v: View, v': View, p: nat, words: seq<nat>)
    requires v.Ok() && Managed(|v.pages|, v.reserved, p) && !v.s.IsTable(p) && |words| == NPTENTRIES
    requires v' == v.(s := v.s.(mem := v.s.mem[p := words]))
    ensures v'.Ok() && FlatOf(v'.s) == FlatOf(v.s)
    ensures forall r | ValidRef(r) :: v'.s.Target(r) == v.s.Target(r)
    ensures forall q :: v'.s.Refs(q) == v.s.Refs(q)
  {
    WriteDataPage(v.s, v'.s, p, words);
    FlatSame(v.s, v'.s);
    ExclusiveSame(v.s, v'.s);
    forall q
      ensures v'.s.Refs(q) == v.s.Refs(q) && v'.s.IsTable(q) == v.s.IsTable(q)
    {
      RefsSame(v.s, v'.s, q);
    }
    assert Counts(v'.pages, v'.s, v'.reserved, v.held) by {
      forall q | Managed(|v.pages|, v.reserved, q)
        ensures CountOk(v'.pages[q], v'.s, q, v.held)
      {
        assert CountOk(v.pages[q], v.s, q, v.held);
      }
    }
    forall e | 0 <= e < NENV && v.s.pgdir[e] != NULL
      ensures v.s.pgdir[e] != p
    {
      assert v.s.Target(Pgdir(e)) == v.s.pgdir[e];
    }
  }

  /** pp_ref++, wrapping at 16 bits. */
  function Incref(v: View, p: nat): View
    requires p < |v.pages|
  {
    v.(pages := v.pages[p := v.pages[p].(pp_ref := Inc16(v.pages[p].pp_ref))])
  }

  /** What page_decref does: pp_ref--, and when that reaches 0 the page is pushed on the free list. */
  function Decref(v: View, p: nat): View
    requires p < |v.pages|
  {
    var n := Dec16(v.pages[p].pp_ref);
    if n == 0 then
      v.(pages := v.pages[p := PageInfo(v.head, 0)], free := [p] + v.free, head := p)
    else
      v.(pages := v.pages[p := v.pages[p].(pp_ref := n)])
  }

  // page_insert takes the new reference's count before it removes the old mapping.
  function Hold(v: View, p: nat): View
    requires p < |v.pages|
  {
    Incref(v, p).(held := p)
  }

  lemma HoldKeeps(v: View, p: nat)
    requires v.Ok() && v.held == NULL && Managed(|v.pages|, v.reserved, p) && p !in v.free && !v.s.IsTable(p)
    ensures Hold(v, p).Ok()
  {
    var v' := Hold(v, p);
    forall q | Managed(|v'.pages|, v.reserved, q)
      ensures CountOk(v'.pages[q], v'.s, q, p)
    {
      assert CountOk(v.pages[q], v.s, q, NULL);
    }
  }

  lemma CountAdd(info: PageInfo, s: Store, s': Store, r0: Ref, p: nat, q: int)
    requires s.Shape && s'.Shape && ValidRef(r0) && SameExcept(s, s', r0)
    requires s.Target(r0) == NULL && s'.Target(r0) == p && q != NULL
    requires CountOk(info, s, q, p) && |s.Refs(p)| + 1 < REFMOD
    ensures CountOk(info, s', q, NULL)
  {
    RefsRetarget(s, s', r0, q);
  }

  lemma CountsAdd(pages: seq<PageInfo>, s: Store, s': Store, reserved: set<nat>, r0: Ref, p: nat)
    requires s.Shape && s'.Shape && ValidRef(r0) && SameExcept(s, s', r0)
    requires s.Target(r0) == NULL && s'.Target(r0) == p
    requires Counts(pages, s, reserved, p) && |s.Refs(p)| + 1 < REFMOD
    ensures Counts(pages, s', reserved, NULL)
  {
    forall q | Managed(|pages|, reserved, q)
      ensures CountOk(pages[q], s', q, NULL)
    {
      CountAdd(pages[q], s, s', r0, p, q);
    }
  }

  lemma NamesRetarget(s: Store, s': Store, free: seq<nat>, reserved: set<nat>, r0: Ref)
    requires s.Shape && s'.Shape && |s'.mem| == |s.mem| && ValidRef(r0) && SameExcept(s, s', r0)
    requires NamesOk(s, free, reserved)
    requires var q := s'.Target(r0); q == NULL || (Managed(|s.mem|, reserved, q) && q !in free)
    ensures NamesOk(s', free, reserved)
  {
  }

  /** Giving the held count to a new reference. */
  lemma AddRefKeeps(v: View, s': Store, r0: Ref, p: nat)
    requires v.Ok() && v.held == p && s'.Shape && |s'.mem| == |v.s.mem|
    requires ValidRef(r0) && SameExcept(v.s, s', r0) && v.s.Target(r0) == NULL && s'.Target(r0) == p
    requires r0.Pte? || v.s.Refs(p) == {}
    requires |v.s.Refs(p)| + 1 < REFMOD && WordsOk(s') && Dirs(s', v.reserved, v.kpd)
    ensures v.(s := s', held := NULL).Ok()
  {
    ExclusiveRetarget(v.s, s', r0);
    CountsAdd(v.pages, v.s, s', v.reserved, r0, p);
    NamesRetarget(v.s, s', v.free, v.reserved, r0);
  }

  /** Pushing an unnamed page keeps the free list well formed. */
  lemma PushKeeps(v: View, p: nat)
    requires ListOk(v.pages, v.head, v.free, v.reserved) && Managed(|v.pages|, v.reserved, p) && p !in v.free
    ensures ListOk(v.pages[p := PageInfo(v.head, 0)], p, [p] + v.free, v.reserved)
  {
    var pages', free' := v.pages[p := PageInfo(v.head, 0)], [p] + v.free;
    forall i | 0 <= i < |free'|
      ensures Managed(|pages'|, v.reserved, free'[i]) && pages'[free'[i]].pp_link == Next(free', i)
    {
      if i > 0 {
        assert free'[i] == v.free[i - 1];
        assert v.pages[v.free[i - 1]].pp_link == Next(v.free, i - 1);
      }
    }
    assert forall q :: q in free' <==> q == p || q in v.free;
  }

  lemma CountDrop(info: PageInfo, s: Store, s': Store, r0: Ref, q: int, held: int)
    requires s.Shape && s'.Shape && ValidRef(r0) && SameExcept(s, s', r0)
    requires s.Target(r0) != NULL && s'.Target(r0) == NULL && q != NULL
    requires CountOk(info, s, q, held)
    ensures q != s.Target(r0) ==> CountOk(info, s', q, held)
    ensures q == s.Target(r0) ==>
              var n := Dec16(info.pp_ref);
              CountOk(info.(pp_ref := n), s', q, held) && (n == 0 <==> s.Refs(q) == {r0} && q != held)
  {
    RefsRetarget(s, s', r0, q);
    if q == s.Target(r0) {
      assert r0 in s.Refs(q);
      SingletonCard(s.Refs(q), r0);
    }
  }

  lemma CountsDrop(v: View, s': Store, r0: Ref, p: nat)
    requires v.s.Shape && s'.Shape && Counts(v.pages, v.s, v.reserved, v.held)
    requires ValidRef(r0) && SameExcept(v.s, s', r0) && v.s.Target(r0) == p && s'.Target(r0) == NULL
    requires Managed(|v.pages|, v.reserved, p)
    ensures Counts(Decref(v, p).pages, s', v.reserved, v.held)
    ensures Decref(v, p).free == if v.s.Refs(p) == {r0} && p != v.held then [p] + v.free else v.free
  {
    var pages' := Decref(v, p).pages;
    CountDrop(v.pages[p], v.s, s', r0, p, v.held);
    assert CountOk(pages'[p], s', p, v.held);
    forall q | Managed(|pages'|, v.reserved, q)
      ensures CountOk(pages'[q], s', q, v.held)
    {
      if q != p {
        CountDrop(v.pages[q], v.s, s', r0, q, v.held);
      }
    }
  }

  lemma NoNewTable(s: Store, s': Store, r0: Ref, q: int)
    requires s.Shape && s'.Shape && ValidRef(r0) && SameExcept(s, s', r0) && s'.Target(r0) == NULL
    requires q != NULL && !s.IsTable(q)
    ensures !s'.IsTable(q)
  {
    forall r | ValidRef(r) && !r.Pte?
      ensures s'.Target(r) != q
    {
      assert r != r0 ==> s.Target(r) != q;
    }
  }

  lemma NamesPush(s: Store, free: seq<nat>, reserved: set<nat>, p: nat)
    requires s.Shape && NamesOk(s, free, reserved) && s.Refs(p) == {}
    ensures NamesOk(s, [p] + free, reserved)
  {
    forall r | ValidRef(r) && s.Target(r) != NULL
      ensures s.Target(r) !in [p] + free
    {
      assert r in s.Refs(s.Target(r));
    }
  }

  lemma ListDecref(v: View, p: nat)
    requires ListOk(v.pages, v.head, v.free, v.reserved) && Managed(|v.pages|, v.reserved, p) && p !in v.free
    ensures ListOk(Decref(v, p).pages, Decref(v, p).head, Decref(v, p).free, v.reserved)
  {
    if Dec16(v.pages[p].pp_ref) == 0 {
      PushKeeps(v, p);
    } else {
      ListSameLinks(v, Decref(v, p).pages);
    }
  }

  lemma NamesDrop(v: View, s': Store, r0: Ref, p: nat)
    requires v.s.Shape && s'.Shape && |s'.mem| == |v.s.mem| && NamesOk(v.s, v.free, v.reserved)
    requires ValidRef(r0) && SameExcept(v.s, s', r0) && v.s.Target(r0) == p && s'.Target(r0) == NULL
    requires p < |v.pages|
    requires Decref(v, p).free == if v.s.Refs(p) == {r0} && p != v.held then [p] + v.free else v.free
    ensures NamesOk(s', Decref(v, p).free, v.reserved)
  {
    NamesRetarget(v.s, s', v.free, v.reserved, r0);
    if v.s.Refs(p) == {r0} && p != v.held {
      RefsRetarget(v.s, s', r0, p);
      NamesPush(s', v.free, v.reserved, p);
    }
  }

  /** Dropping the reference r0 together with page_decref on the page it named. */
  lemma DropRefKeeps(v: View, s': Store, r0: Ref, p: nat)
    requires v.Ok() && s'.Shape && |s'.mem| == |v.s.mem|
    requires ValidRef(r0) && SameExcept(v.s, s', r0) && v.s.Target(r0) == p && s'.Target(r0) == NULL
    requires WordsOk(s') && Dirs(s', v.reserved, v.kpd)
    ensures Managed(|v.pages|, v.reserved, p) && p !in v.free && v.pages[p].pp_link == NULL &&
            v.pages[p].pp_ref < REFMOD
    ensures Decref(v, p).(s := s').Ok()
    ensures Decref(v, p).free == if v.s.Refs(p) == {r0} && p != v.held then [p] + v.free else v.free
  {
    assert CountOk(v.pages[p], v.s, p, v.held);
    CountsDrop(v, s', r0, p);
    ExclusiveRetarget(v.s, s', r0);
    NamesDrop(v, s', r0, p);
    ListDecref(v, p);
    if v.held != NULL {
      NoNewTable(v.s, s', r0, v.held);
    }
  }

  lemma SingletonCard<T>(a: set<T>, x: T)
    requires x in a
    ensures |a| == 1 <==> a == {x}
  {
    if |a| == 1 {
      assert |a - {x}| == 0;
    }
  }

  lemma ListSameLinks(v: View, pages': seq<PageInfo>)
    requires ListOk(v.pages, v.head, v.free, v.reserved) && |pages'| == |v.pages|
    requires forall q | 0 <= q < |pages'| :: pages'[q].pp_link == v.pages[q].pp_link
    ensures ListOk(pages', v.head, v.free, v.reserved)
  {
  }
}
