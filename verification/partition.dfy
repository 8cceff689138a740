/** kern/pmap.c, check_page_free_list: the loop that moves low pages to the front of the free list through two
    pointers to the link to be filled in next. */
module Partition {
  import opened Mmu
  import opened VmView

  // The page type of the loop: PDX(page2pa(pp)) >= pdx_limit.
  predicate High(p: nat, limit: nat) { PDX(p * PGSIZE) >= limit }

  /** A page is high exactly if its address is not below `limit` times four megabytes. */
  lemma HighIff(p: nat, limit: nat)
    requires p * PGSIZE < 0x1_0000_0000
    ensures High(p, limit) <==> p * PGSIZE >= limit * 0x40_0000
  {
    assert p * PGSIZE / PTSIZE < 1024;
  }

  /** The pages of one type, in the order of the list. */
  function Part(s: seq<nat>, limit: nat, high: bool): seq<nat> {
    if s == [] then []
    else
      var n := |s| - 1;
      Part(s[..n], limit, high) + (if High(s[n], limit) == high then [s[n]] else [])
  }

  // Where a pointer of tp[] points: at its local variable, or at the pp_link of a page.
  datatype Cell = Local | Link(p: nat)

  // One of the two lists under construction: `first` is its local variable, `t` the cell that ends it.
  ghost predicate Chain(pages: seq<PageInfo>, s: seq<nat>, first: int, t: Cell) {
    && (forall i | 0 <= i < |s| :: s[i] < |pages|)
    && (forall i, j | 0 <= i < j < |s| :: s[i] != s[j])
    && t == (if s == [] then Local else Link(s[|s| - 1]))
    && (s != [] ==> first == s[0])
    && forall i | 0 <= i < |s| - 1 :: pages[s[i]].pp_link == s[i + 1]
  }

  // *t = q
  method SetCell(pages: array<PageInfo>, t: Cell, first: int, q: int) returns (first': int)
    requires t.Link? ==> t.p < pages.Length
    modifies pages
    ensures pages[..] == Put(old(pages[..]), t, q)
    ensures first' == if t.Local? then q else first
  {
    first' := first;
    match t {
      case Local => first' := q;
      case Link(p) => pages[p] := pages[p].(pp_link := q);
    }
  }

  lemma {:induction false} PartIn(s: seq<nat>, limit: nat, high: bool)
    ensures forall x :: x in Part(s, limit, high) <==> x in s && High(x, limit) == high
  {
    hide High;
    if s != [] {
      PartIn(s[..|s| - 1], limit, high);
      assert s == s[..|s| - 1] + [s[|s| - 1]];
    }
  }

  /** Nothing is lost or duplicated. */
  lemma {:induction false} PartAll(s: seq<nat>, limit: nat)
    ensures multiset(Part(s, limit, false)) + multiset(Part(s, limit, true)) == multiset(s)
  {
    hide Part;
    if s == [] {
      PartNil(limit);
    } else {
      var n := |s| - 1;
      PartAll(s[..n], limit);
      PartStep(s[..n], s[n], limit);
      assert s[..n] + [s[n]] == s;
    }
  }

  lemma PartNil(limit: nat)
    ensures Part([], limit, false) == [] && Part([], limit, true) == []
  {
  }

  lemma PartStep(s: seq<nat>, x: nat, limit: nat)
    requires multiset(Part(s, limit, false)) + multiset(Part(s, limit, true)) == multiset(s)
    ensures multiset(Part(s + [x], limit, false)) + multiset(Part(s + [x], limit, true)) == multiset(s + [x])
  {
    var lo, hi, high := Part(s, limit, false), Part(s, limit, true), High(x, limit);
    assert (s + [x])[..|s|] == s;
    assert Part(s + [x], limit, high) == Part(s, limit, high) + [x];
    assert Part(s + [x], limit, !high) == Part(s, limit, !high);
    hide Part;
    hide High;
    OneMore(s, x);
    OneMore(lo, x);
    OneMore(hi, x);
    Gather(multiset(lo), multiset(hi), x);
  }

  lemma OneMore(s: seq<nat>, x: nat)
    ensures multiset(s + [x]) == multiset(s) + multiset{x}
  {
  }

  lemma Gather(a: multiset<nat>, b: multiset<nat>, x: nat)
    ensures (a + multiset{x}) + b == (a + b) + multiset{x} == a + (b + multiset{x})
  {
  }

  predicate Fresh(free: seq<nat>, n: nat) {
    (forall i | 0 <= i < |free| :: free[i] < n) && forall i, j | 0 <= i < j < |free| :: free[i] != free[j]
  }

  // *t = q, on values.
  function Put(pages: seq<PageInfo>, t: Cell, q: int): (r: seq<PageInfo>)
    requires t.Link? ==> t.p < |pages|
    ensures |r| == |pages|
  {
    if t.Link? then pages[t.p := pages[t.p].(pp_link := q)] else pages
  }

  // Appending a page to a chain whose last link has been set to it.
  lemma ChainGrows(pages: seq<PageInfo>, s: seq<nat>, first: int, t: Cell, p: nat)
    requires Chain(pages, s, first, t) && p < |pages| && p !in s
    ensures Chain(Put(pages, t, p), s + [p], if t.Local? then p else first, Link(p)) && |Put(pages, t, p)| == |pages|
  {
  }

  // Setting the last link of one chain leaves the other.
  lemma ChainKept(pages: seq<PageInfo>, s: seq<nat>, first: int, t: Cell, u: Cell, q: int)
    requires Chain(pages, s, first, t) && (u.Link? ==> u.p < |pages| && u.p !in s)
    ensures Chain(Put(pages, u, q), s, first, t)
  {
  }

  // The last page of a chain is on it.
  lemma ChainEnd(pages: seq<PageInfo>, s: seq<nat>, first: int, t: Cell)
    requires Chain(pages, s, first, t)
    ensures t.Link? ==> t.p in s && t.p < |pages|
  {
  }

  // Setting a chain's own last link.
  lemma ChainClosed(pages: seq<PageInfo>, s: seq<nat>, first: int, t: Cell, q: int)
    requires Chain(pages, s, first, t)
    ensures t.Link? ==> t.p < |pages|
    ensures t.Local? <==> s == []
    ensures s != [] ==> t.p in s && t.p == s[|s| - 1] && Put(pages, t, q)[t.p].pp_link == q
    ensures Chain(Put(pages, t, q), s, first, t) && (t.Local? ==> forall x: int :: Chain(Put(pages, t, q), s, x, t))
  {
  }

  lemma PutOther(pages: seq<PageInfo>, u: Cell, q: int, p: nat)
    requires (u.Link? ==> u.p < |pages|) && p < |pages| && u != Link(p)
    ensures Put(pages, u, q)[p] == pages[p]
  {
  }

  // The state of the loop after k pages of the list.
  ghost predicate Building(pages: seq<PageInfo>, free: seq<nat>, k: nat, limit: nat, pp1: int, tp0: Cell, pp2: int,
                           tp1: Cell) {
    && k <= |free| && Fresh(free, |pages|)
    && Chain(pages, Part(free[..k], limit, false), pp1, tp0) && Chain(pages, Part(free[..k], limit, true), pp2, tp1)
    && forall j | k <= j < |free| :: pages[free[j]].pp_link == Next(free, j)
  }

  // What is on one chain is not on the other, and not among the pages still to come.
  lemma Apart(free: seq<nat>, k: nat, limit: nat, n: nat)
    requires Fresh(free, n) && k <= |free|
    ensures var lo, hi := Part(free[..k], limit, false), Part(free[..k], limit, true);
            && (forall x | x in lo :: x !in hi && x < n && x in free)
            && (forall x | x in hi :: x !in lo && x < n && x in free)
            && forall j | k <= j < |free| :: free[j] !in lo && free[j] !in hi
  {
    PartIn(free[..k], limit, false);
    PartIn(free[..k], limit, true);
    hide High;
    hide Part;
    forall j | k <= j < |free|
      ensures free[j] !in free[..k]
    {
    }
  }

  lemma RestKept(pages: seq<PageInfo>, free: seq<nat>, k: nat, u: Cell, q: int)
    requires Fresh(free, |pages|) && forall j | k <= j < |free| :: pages[free[j]].pp_link == Next(free, j)
    requires u.Link? ==> u.p < |pages| && forall j | k <= j < |free| :: free[j] != u.p
    ensures forall j | k <= j < |free| :: Put(pages, u, q)[free[j]].pp_link == Next(free, j)
  {
  }

  // Neither pointer can hit the other chain or the rest of the list.
  lemma TurnFacts(pages: seq<PageInfo>, free: seq<nat>, k: nat, limit: nat, pp1: int, tp0: Cell, pp2: int, tp1: Cell)
    requires Building(pages, free, k, limit, pp1, tp0, pp2, tp1)
    ensures var lo, hi := Part(free[..k], limit, false), Part(free[..k], limit, true);
            && (tp0.Link? ==>
                  tp0.p < |pages| && tp0.p in free && tp0.p !in hi && forall j | k <= j < |free| :: free[j] != tp0.p)
            && (tp1.Link? ==>
                  tp1.p < |pages| && tp1.p in free && tp1.p !in lo && forall j | k <= j < |free| :: free[j] != tp1.p)
            && (k < |free| ==> free[k] !in lo && free[k] !in hi && free[k] < |pages|)
  {
    var lo, hi := Part(free[..k], limit, false), Part(free[..k], limit, true);
    Apart(free, k, limit, |pages|);
    ChainEnd(pages, lo, pp1, tp0);
    ChainEnd(pages, hi, pp2, tp1);
    hide Chain;
    hide Part;
  }

  // One turn of the loop: the page goes to one chain, whose pointer moves to its link; the other chain stays.
  lemma TurnHigh(pages: seq<PageInfo>, free: seq<nat>, k: nat, limit: nat, pp1: int, tp0: Cell, pp2: int, tp1: Cell)
    requires Building(pages, free, k, limit, pp1, tp0, pp2, tp1) && k < |free| && High(free[k], limit)
    ensures tp1.Link? ==> tp1.p < |pages| && tp1.p in free
    ensures var pages' := Put(pages, tp1, free[k]);
            && Building(pages', free, k + 1, limit, pp1, tp0, if tp1.Local? then free[k] else pp2, Link(free[k]))
            && free[k] < |pages'| && pages'[free[k]].pp_link == Next(free, k)
  {
    hide Chain;
    hide Part;
    hide Put;
    TurnFacts(pages, free, k, limit, pp1, tp0, pp2, tp1);
    TakeLast(free, k, limit, false);
    TakeLast(free, k, limit, true);
    ChainGrows(pages, Part(free[..k], limit, true), pp2, tp1, free[k]);
    ChainKept(pages, Part(free[..k], limit, false), pp1, tp0, tp1, free[k]);
    RestKept(pages, free, k, tp1, free[k]);
    hide Fresh;
    hide High;
  }

  lemma TurnLow(pages: seq<PageInfo>, free: seq<nat>, k: nat, limit: nat, pp1: int, tp0: Cell, pp2: int, tp1: Cell)
    requires Building(pages, free, k, limit, pp1, tp0, pp2, tp1) && k < |free| && !High(free[k], limit)
    ensures tp0.Link? ==> tp0.p < |pages| && tp0.p in free
    ensures var pages' := Put(pages, tp0, free[k]);
            && Building(pages', free, k + 1, limit, if tp0.Local? then free[k] else pp1, Link(free[k]), pp2, tp1)
            && free[k] < |pages'| && pages'[free[k]].pp_link == Next(free, k)
  {
    hide Chain;
    hide Part;
    hide Put;
    TurnFacts(pages, free, k, limit, pp1, tp0, pp2, tp1);
    TakeLast(free, k, limit, false);
    TakeLast(free, k, limit, true);
    ChainGrows(pages, Part(free[..k], limit, false), pp1, tp0, free[k]);
    ChainKept(pages, Part(free[..k], limit, true), pp2, tp1, tp0, free[k]);
    RestKept(pages, free, k, tp0, free[k]);
    hide Fresh;
    hide High;
  }

  // The two chains, joined.
  lemma Joined(pages: seq<PageInfo>, lo: seq<nat>, hi: seq<nat>, first: int, t: Cell, first2: int, t2: Cell)
    requires Chain(pages, lo, first, t) && Chain(pages, hi, first2, t2) && forall x | x in lo :: x !in hi
    requires hi == [] ==> first2 == NULL
    requires hi != [] ==> pages[hi[|hi| - 1]].pp_link == NULL
    requires lo == [] ==> first == first2
    requires lo != [] ==> pages[lo[|lo| - 1]].pp_link == first2
    ensures Fresh(lo + hi, |pages|)
    ensures first == (if lo + hi == [] then NULL else (lo + hi)[0])
    ensures forall i | 0 <= i < |lo + hi| :: pages[(lo + hi)[i]].pp_link == Next(lo + hi, i)
  {
    var s := lo + hi;
    forall i, j | 0 <= i < j < |s|
      ensures s[i] != s[j]
    {
      if i < |lo| <= j {
        assert s[i] in lo && s[j] == hi[j - |lo|];
      } else if |lo| <= i {
        assert s[i] == hi[i - |lo|] && s[j] == hi[j - |lo|];
      }
    }
    forall i | 0 <= i < |s|
      ensures pages[s[i]].pp_link == Next(s, i)
    {
      if |lo| <= i {
        assert s[i] == hi[i - |lo|];
      }
    }
  }

  lemma TakeLast(free: seq<nat>, k: nat, limit: nat, high: bool)
    requires k < |free|
    ensures High(free[k], limit) == high ==>
            Part(free[..k + 1], limit, high) == Part(free[..k], limit, high) + [free[k]]
    ensures High(free[k], limit) != high ==> Part(free[..k + 1], limit, high) == Part(free[..k], limit, high)
  {
    assert free[..k + 1][..k] == free[..k];
  }

  // The list from `head` is s.
  ghost predicate Linked(pages: seq<PageInfo>, head: int, s: seq<nat>) {
    && Fresh(s, |pages|) && head == (if s == [] then NULL else s[0])
    && (forall i | 0 <= i < |s| :: pages[s[i]].pp_link == Next(s, i))
  }

  // *tp[1] = 0 ends the second chain.
  lemma CloseHigh(pages: seq<PageInfo>, lo: seq<nat>, hi: seq<nat>, pp1: int, tp0: Cell, pp2: int, tp1: Cell)
    requires Chain(pages, lo, pp1, tp0) && Chain(pages, hi, pp2, tp1) && forall x | x in lo :: x !in hi
    ensures (tp0.Link? ==> tp0.p < |pages| && tp0.p in lo) && (tp1.Link? ==> tp1.p < |pages| && tp1.p in hi)
    ensures var mid, second := Put(pages, tp1, NULL), if tp1.Local? then NULL else pp2;
            && Chain(mid, lo, pp1, tp0) && Chain(mid, hi, second, tp1)
            && (hi == [] ==> second == NULL) && (hi != [] ==> mid[hi[|hi| - 1]].pp_link == NULL)
  {
    ChainEnd(pages, lo, pp1, tp0);
    ChainClosed(pages, hi, pp2, tp1, NULL);
    ChainKept(pages, lo, pp1, tp0, tp1, NULL);
    hide Put;
  }

  // *tp[0] = pp2 hangs it behind the first.
  lemma CloseLow(mid: seq<PageInfo>, lo: seq<nat>, hi: seq<nat>, pp1: int, tp0: Cell, second: int, tp1: Cell)
    requires Chain(mid, lo, pp1, tp0) && Chain(mid, hi, second, tp1) && forall x | x in lo :: x !in hi
    requires (hi == [] ==> second == NULL) && (hi != [] ==> mid[hi[|hi| - 1]].pp_link == NULL)
    ensures tp0.Link? ==> tp0.p < |mid|
    ensures Linked(Put(mid, tp0, second), if tp0.Local? then second else pp1, lo + hi)
  {
    var done := Put(mid, tp0, second);
    ChainClosed(mid, lo, pp1, tp0, second);
    ChainKept(mid, hi, second, tp1, tp0, second);
    assert hi != [] ==> done[hi[|hi| - 1]].pp_link == NULL by {
      if hi != [] {
        assert hi[|hi| - 1] in hi;
        PutOther(mid, tp0, second, hi[|hi| - 1]);
      }
    }
    hide Put;
    Joined(done, lo, hi, if tp0.Local? then second else pp1, tp0, second, tp1);
  }

  // The two assignments after the loop.
  lemma Finish(pages: seq<PageInfo>, free: seq<nat>, limit: nat, pp1: int, tp0: Cell, pp2: int, tp1: Cell)
    requires Building(pages, free, |free|, limit, pp1, tp0, pp2, tp1)
    ensures (tp0.Link? ==> tp0.p < |pages| && tp0.p in free) && (tp1.Link? ==> tp1.p < |pages| && tp1.p in free)
    ensures var second := if tp1.Local? then NULL else pp2;
            Linked(Put(Put(pages, tp1, NULL), tp0, second), if tp0.Local? then second else pp1,
                   Part(free, limit, false) + Part(free, limit, true))
  {
    hide Chain;
    hide Part;
    hide Put;
    hide Linked;
    assert free[..|free|] == free;
    var lo, hi := Part(free, limit, false), Part(free, limit, true);
    Apart(free, |free|, limit, |pages|);
    assert Part(free[..|free|], limit, false) == lo && Part(free[..|free|], limit, true) == hi;
    hide Fresh;
    CloseHigh(pages, lo, hi, pp1, tp0, pp2, tp1);
    CloseLow(Put(pages, tp1, NULL), lo, hi, pp1, tp0, if tp1.Local? then NULL else pp2, tp1);
  }

  lemma SamePages(free: seq<nat>, limit: nat)
    ensures forall x :: x in Part(free, limit, false) + Part(free, limit, true) <==> x in free
  {
    hide Part;
    PartIn(free, limit, false);
    PartIn(free, limit, true);
  }

  lemma ListFresh(pages: seq<PageInfo>, head: int, free: seq<nat>, reserved: set<nat>, limit: nat)
    requires ListOk(pages, head, free, reserved)
    ensures Fresh(free, |pages|) && Building(pages, free, 0, limit, NULL, Local, NULL, Local)
    ensures head == (if free == [] then NULL else free[0])
  {
  }

  lemma ListDone(pages: seq<PageInfo>, pages': seq<PageInfo>, head: int, head': int, free: seq<nat>, s: seq<nat>,
                 reserved: set<nat>)
    requires ListOk(pages, head, free, reserved) && Linked(pages', head', s) && Untouched(pages, pages', free)
    requires forall x :: x in s <==> x in free
    ensures ListOk(pages', head', s, reserved)
  {
    forall i | 0 <= i < |s|
      ensures Managed(|pages|, reserved, s[i])
    {
      assert s[i] in free;
    }
  }

  // Reference counts are as they were, and so is everything about pages off the list.
  ghost predicate Untouched(was: seq<PageInfo>, now: seq<PageInfo>, free: seq<nat>) {
    |now| == |was| && forall p: nat | p < |was| :: now[p].pp_ref == was[p].pp_ref && (p !in free ==> now[p] == was[p])
  }

  lemma PutUntouched(was: seq<PageInfo>, now: seq<PageInfo>, free: seq<nat>, t: Cell, q: int)
    requires Untouched(was, now, free) && (t.Link? ==> t.p < |now| && t.p in free)
    ensures Untouched(was, Put(now, t, q), free)
  {
  }

  // The body of the loop.
  method LoopBody(pages: array<PageInfo>, pp: nat, limit: nat, pp1: int, tp0: Cell, pp2: int, tp1: Cell,
                  ghost was: seq<PageInfo>, ghost free: seq<nat>, ghost k: nat)
    returns (next: int, pp1': int, tp0': Cell, pp2': int, tp1': Cell)
    requires Building(pages[..], free, k, limit, pp1, tp0, pp2, tp1) && Untouched(was, pages[..], free)
    requires k < |free| && pp == free[k]
    modifies pages
    ensures Building(pages[..], free, k + 1, limit, pp1', tp0', pp2', tp1') && Untouched(was, pages[..], free)
    ensures next == Next(free, k)
  {
    hide Building;
    hide Put;
    hide Untouched;
    pp1', tp0', pp2', tp1' := pp1, tp0, pp2, tp1;
    if PDX(pp * PGSIZE) >= limit {
      TurnHigh(pages[..], free, k, limit, pp1, tp0, pp2, tp1);
      PutUntouched(was, pages[..], free, tp1, pp);
      pp2' := SetCell(pages, tp1, pp2, pp);
      tp1' := Link(pp);
    } else {
      TurnLow(pages[..], free, k, limit, pp1, tp0, pp2, tp1);
      PutUntouched(was, pages[..], free, tp0, pp);
      pp1' := SetCell(pages, tp0, pp1, pp);
      tp0' := Link(pp);
    }
    next := pages[..][pp].pp_link;
  }

  // The assignments after it.
  method LoopEnd(pages: array<PageInfo>, limit: nat, pp1: int, tp0: Cell, pp2: int, tp1: Cell,
                 ghost was: seq<PageInfo>, ghost free: seq<nat>) returns (head: int)
    requires Building(pages[..], free, |free|, limit, pp1, tp0, pp2, tp1) && Untouched(was, pages[..], free)
    modifies pages
    ensures Linked(pages[..], head, Part(free, limit, false) + Part(free, limit, true)) &&
            Untouched(was, pages[..], free)
  {
    Finish(pages[..], free, limit, pp1, tp0, pp2, tp1);
    hide Building;
    hide Put;
    hide Part;
    hide Untouched;
    hide Linked;
    PutUntouched(was, pages[..], free, tp1, NULL);
    var second := SetCell(pages, tp1, pp2, NULL);
    PutUntouched(was, pages[..], free, tp0, second);
    head := SetCell(pages, tp0, pp1, second);
  }

  /** The loop, in place: the list becomes its low pages followed by its high pages, each in their old order; reference
      counts and all pages off the list are untouched. */
  method PartitionList(pages: array<PageInfo>, head: int, limit: nat, ghost free: seq<nat>, ghost reserved: set<nat>)
      returns (head': int)
    requires ListOk(pages[..], head, free, reserved)
    modifies pages
    ensures ListOk(pages[..], head', Part(free, limit, false) + Part(free, limit, true), reserved)
    ensures Untouched(old(pages[..]), pages[..], free)
  {
    ListFresh(pages[..], head, free, reserved, limit);
    ghost var was := pages[..];
    assert Untouched(was, pages[..], free);
    hide ListOk;
    hide Building;
    hide Part;
    hide Fresh;
    hide Untouched;
    hide Linked;
    var pp1, pp2 := NULL, NULL;
    var tp0, tp1 := Local, Local;
    var pp := head;
    ghost var k := 0;
    while pp != NULL
      invariant 0 <= k <= |free| && pp == (if k < |free| then free[k] else NULL)
      invariant Building(pages[..], free, k, limit, pp1, tp0, pp2, tp1) && Untouched(was, pages[..], free)
      decreases |free| - k
    {
      pp, pp1, tp0, pp2, tp1 := LoopBody(pages, pp, limit, pp1, tp0, pp2, tp1, was, free, k);
      k := k + 1;
    }
    head' := LoopEnd(pages, limit, pp1, tp0, pp2, tp1, was, free);
    SamePages(free, limit);
    ListDone(was, pages[..], head, head', free, Part(free, limit, false) + Part(free, limit, true), reserved);
  }
}
