/** Physical memory seen as two-level page tables, and who names each page.
    A page may be named by an env's directory pointer, by a directory entry below UTOP,
    or by a page-table entry reached through such a directory entry. */
module VmStore {
  import opened Mmu

  datatype Ref =
    | Pgdir(e: nat)
    | Pde(e: nat, x: nat)
    | Pte(e: nat, x: nat, t: nat)

  predicate ValidRef(r: Ref) {
    match r
    case Pgdir(e) => e < NENV
    case Pde(e, x) => e < NENV && x < NUPDE
    case Pte(e, x, t) => e < NENV && x < NUPDE && t < NPTENTRIES
  }

  ghost function AllRefs(): (s: set<Ref>)
    ensures forall r: Ref :: ValidRef(r) ==> r in s
  {
    (set e: nat | e < NENV :: Pgdir(e))
    + (set e: nat, x: nat | e < NENV && x < NUPDE :: Pde(e, x))
    + (set e: nat, x: nat, t: nat | e < NENV && x < NUPDE && t < NPTENTRIES :: Pte(e, x, t))
  }

  /** `mem[p]` holds the 1024 words of page p; `pgdir[e]` is the directory page of env slot e. */
  datatype Store = Store(mem: seq<seq<nat>>, pgdir: seq<int>) {
    ghost const Shape: bool :=
      && |pgdir| == NENV
      && (forall p :: 0 <= p < |mem| ==> |mem[p]| == NPTENTRIES)
      && (forall e :: 0 <= e < NENV ==> NULL <= pgdir[e] < |mem|)

    function PdeAt(e: nat, x: nat): nat
      requires Shape && e < NENV && x < NPTENTRIES
    {
      if pgdir[e] == NULL then 0 else mem[pgdir[e]][x]
    }

    function PteAt(e: nat, x: nat, t: nat): nat
      requires Shape && e < NENV && x < NPTENTRIES && t < NPTENTRIES
    {
      var w := PdeAt(e, x);
      if w == 0 || w / PGSIZE >= |mem| then 0 else mem[w / PGSIZE][t]
    }

    function Target(r: Ref): int
      requires Shape && ValidRef(r)
    {
      match r
      case Pgdir(e) => pgdir[e]
      case Pde(e, x) => PageOf(PdeAt(e, x))
      case Pte(e, x, t) => PageOf(PteAt(e, x, t))
    }

    // Who names page p.
    ghost function Refs(p: int): set<Ref>
      requires Shape
    {
      set r | r in AllRefs() && ValidRef(r) && Target(r) == p
    }

    ghost predicate IsTable(p: int)
      requires Shape
    {
      exists r :: ValidRef(r) && !r.Pte? && Target(r) == p
    }

    // Directories and page tables lie in memory, and each is named exactly once.
    ghost predicate Exclusive()
      requires Shape
    {
      && (forall r | ValidRef(r) && !r.Pte? :: Target(r) < |mem|)
      && (forall r1, r2 | ValidRef(r1) && ValidRef(r2) && !r1.Pte? && Target(r1) == Target(r2) != NULL :: r1 == r2)
    }
  }

  // Physical memory after storing word w at index i of page p.
  function Poke(mem: seq<seq<nat>>, p: nat, i: nat, w: nat): (m: seq<seq<nat>>)
    requires p < |mem| && i < |mem[p]|
    ensures |m| == |mem| && |m[p]| == |mem[p]| && m[p][i] == w
    ensures forall j | 0 <= j < |mem[p]| && j != i :: m[p][j] == mem[p][j]
    ensures forall q | 0 <= q < |mem| && q != p :: m[q] == mem[q]
  {
    var row: seq<nat> := mem[p];
    var row': seq<nat> := row[..i] + [w] + row[i + 1..];
    mem[p := row']
  }

  // The page an entry names; an all-zero entry names none.
  function PageOf(w: nat): int { if w == 0 then NULL else w / PGSIZE }

  ghost predicate SameExcept(s: Store, s': Store, r0: Ref)
    requires s.Shape && s'.Shape
  {
    forall r | ValidRef(r) && r != r0 :: s'.Target(r) == s.Target(r)
  }

  function Delta(b: bool): int { if b then 1 else 0 }

  /** Redirecting one reference moves exactly one unit of reference count. */
  lemma RefsRetarget(s: Store, s': Store, r0: Ref, p: int)
    requires s.Shape && s'.Shape && ValidRef(r0) && SameExcept(s, s', r0)
    ensures s'.Refs(p) == if s'.Target(r0) == p then s.Refs(p) + {r0} else s.Refs(p) - {r0}
    ensures |s'.Refs(p)| == |s.Refs(p)| - Delta(s.Target(r0) == p) + Delta(s'.Target(r0) == p)
  {
    var a, b := s.Refs(p), s'.Refs(p);
    assert r0 in a <==> s.Target(r0) == p;
    assert b == if s'.Target(r0) == p then a + {r0} else a - {r0};
    CardOne(a, r0);
  }

  lemma CardOne(a: set<Ref>, r: Ref)
    ensures |a + {r}| == |a| + Delta(r !in a)
    ensures |a - {r}| == |a| - Delta(r in a)
  {
    if r in a {
      assert a + {r} == a;
      assert |(a - {r}) + {r}| == |a - {r}| + 1;
      assert (a - {r}) + {r} == a;
    } else {
      assert a - {r} == a;
    }
  }

  lemma RefsSame(s: Store, s': Store, p: int)
    requires s.Shape && s'.Shape
    requires forall r | ValidRef(r) :: s'.Target(r) == s.Target(r)
    ensures s'.Refs(p) == s.Refs(p) && s'.IsTable(p) == s.IsTable(p)
  {
    if s.IsTable(p) {
      var r :| ValidRef(r) && !r.Pte? && s.Target(r) == p;
      assert s'.Target(r) == p;
    }
  }

  /** Rewriting a page that is no table changes no entry of any address space. */
  lemma WriteDataPage(s: Store, s': Store, p: nat, words: seq<nat>)
    requires s.Shape && s.Exclusive() && p < |s.mem| && |words| == NPTENTRIES
    requires !s.IsTable(p)
    requires s' == s.(mem := s.mem[p := words])
    ensures s'.Shape
    ensures forall e: nat, x: nat | e < NENV && x < NUPDE :: s'.PdeAt(e, x) == s.PdeAt(e, x)
    ensures forall e: nat, x: nat, t: nat | e < NENV && x < NUPDE && t < NPTENTRIES ::
            s'.PteAt(e, x, t) == s.PteAt(e, x, t)
    ensures forall r | ValidRef(r) :: s'.Target(r) == s.Target(r)
  {
    forall e: nat, x: nat | e < NENV && x < NUPDE
      ensures s'.PdeAt(e, x) == s.PdeAt(e, x)
    {
      assert s.Target(Pgdir(e)) != p;
    }
    forall e: nat, x: nat, t: nat | e < NENV && x < NUPDE && t < NPTENTRIES
      ensures s'.PteAt(e, x, t) == s.PteAt(e, x, t)
    {
      assert s.Target(Pde(e, x)) != p;
    }
  }

  /** Storing a word in one page-table entry changes that entry of that address space alone. */
  lemma WritePte(s: Store, s': Store, e: nat, x: nat, t: nat, w: nat)
    requires s.Shape && s.Exclusive() && e < NENV && x < NUPDE && t < NPTENTRIES
    requires s.PdeAt(e, x) != 0
    requires var p := s.PdeAt(e, x) / PGSIZE; p < |s.mem| && s' == s.(mem := Poke(s.mem, p, t, w))
    ensures s'.Shape
    ensures forall e': nat, x': nat | e' < NENV && x' < NUPDE :: s'.PdeAt(e', x') == s.PdeAt(e', x')
    ensures forall e': nat, x': nat, t': nat | e' < NENV && x' < NUPDE && t' < NPTENTRIES ::
              s'.PteAt(e', x', t') == if e' == e && x' == x && t' == t then w else s.PteAt(e', x', t')
    ensures SameExcept(s, s', Pte(e, x, t)) && s'.Target(Pte(e, x, t)) == PageOf(w)
  {
    var p := s.PdeAt(e, x) / PGSIZE;
    assert s.Target(Pde(e, x)) == p;
    forall e': nat, x': nat | e' < NENV && x' < NUPDE
      ensures s'.PdeAt(e', x') == s.PdeAt(e', x')
    {
      assert s.Target(Pgdir(e')) != p;
    }
    forall e': nat, x': nat, t': nat | e' < NENV && x' < NUPDE && t' < NPTENTRIES
      ensures s'.PteAt(e', x', t') == if e' == e && x' == x && t' == t then w else s.PteAt(e', x', t')
    {
      if s.PdeAt(e', x') != 0 && s.Target(Pde(e', x')) == p {
        assert Pde(e', x') == Pde(e, x);
      }
    }
  }

  ghost predicate ZeroPage(s: Store, p: nat)
    requires s.Shape && p < |s.mem|
  {
    forall t :: 0 <= t < NPTENTRIES ==> s.mem[p][t] == 0
  }

  /** Hanging a cleared table under an empty directory slot, or detaching a table whose entries are
      all clear, changes that directory entry alone. */
  lemma WritePde(s: Store, s': Store, e: nat, x: nat, w: nat)
    requires s.Shape && s.Exclusive() && e < NENV && x < NUPDE && s.pgdir[e] != NULL
    requires var d := s.pgdir[e]; s' == s.(mem := Poke(s.mem, d, x, w))
    requires forall t: nat | t < NPTENTRIES :: s.PteAt(e, x, t) == 0
    requires w == 0 || (w / PGSIZE < |s.mem| && !s.IsTable(w / PGSIZE) && ZeroPage(s, w / PGSIZE))
    ensures s'.Shape
    ensures forall e': nat, x': nat | e' < NENV && x' < NUPDE ::
              s'.PdeAt(e', x') == if e' == e && x' == x then w else s.PdeAt(e', x')
    ensures forall e': nat, x': nat, t': nat | e' < NENV && x' < NUPDE && t' < NPTENTRIES ::
              s'.PteAt(e', x', t') == s.PteAt(e', x', t')
    ensures SameExcept(s, s', Pde(e, x)) && s'.Target(Pde(e, x)) == PageOf(w)
  {
    var d := s.pgdir[e];
    assert s.Target(Pgdir(e)) == d;
    forall e': nat, x': nat | e' < NENV && x' < NUPDE
      ensures s'.PdeAt(e', x') == if e' == e && x' == x then w else s.PdeAt(e', x')
    {
      if s.Target(Pgdir(e')) == d {
        assert Pgdir(e') == Pgdir(e);
      }
    }
    forall e': nat, x': nat, t': nat | e' < NENV && x' < NUPDE && t' < NPTENTRIES
      ensures s'.PteAt(e', x', t') == s.PteAt(e', x', t')
    {
      assert s.Target(Pde(e', x')) != d;
      if w != 0 {
        assert s.Target(Pgdir(e)) != w / PGSIZE;
      }
    }
  }

  /** Installing a directory whose user half is clear, or dropping one, changes that pointer alone. */
  lemma WritePgdir(s: Store, s': Store, e: nat, d: int)
    requires s.Shape && e < NENV && NULL <= d < |s.mem|
    requires s' == s.(pgdir := s.pgdir[e := d])
    requires forall x: nat | x < NUPDE :: s.PdeAt(e, x) == 0 && (d == NULL || s.mem[d][x] == 0)
    ensures s'.Shape
    ensures forall e': nat, x': nat | e' < NENV && x' < NUPDE :: s'.PdeAt(e', x') == s.PdeAt(e', x')
    ensures forall e': nat, x': nat, t': nat | e' < NENV && x' < NUPDE && t' < NPTENTRIES ::
              s'.PteAt(e', x', t') == s.PteAt(e', x', t')
    ensures SameExcept(s, s', Pgdir(e)) && s'.Target(Pgdir(e)) == d
  {
  }

  lemma ExclusiveSame(s: Store, s': Store)
    requires s.Shape && s'.Shape && s.Exclusive() && |s'.mem| == |s.mem|
    requires forall r | ValidRef(r) :: s'.Target(r) == s.Target(r)
    ensures s'.Exclusive()
  {
    forall r1, r2 | ValidRef(r1) && ValidRef(r2) && !r1.Pte? && s'.Target(r1) == s'.Target(r2) != NULL
      ensures r1 == r2
    {
      assert s.Target(r1) == s.Target(r2);
    }
  }

  /** Redirecting a table reference to a page nobody names, or to none, keeps tables exclusive. */
  lemma ExclusiveRetarget(s: Store, s': Store, r0: Ref)
    requires s.Shape && s'.Shape && s.Exclusive() && |s'.mem| == |s.mem|
    requires ValidRef(r0) && SameExcept(s, s', r0)
    requires var q := s'.Target(r0);
             q == NULL || (0 <= q < |s.mem| && (if r0.Pte? then !s.IsTable(q) else s.Refs(q) == {}))
    ensures s'.Exclusive()
  {
    assert forall r | ValidRef(r) :: r in s.Refs(s.Target(r));
    forall r1, r2 | ValidRef(r1) && ValidRef(r2) && !r1.Pte? && s'.Target(r1) == s'.Target(r2) != NULL
      ensures r1 == r2
    {
    }
  }
}
