/** kern/kdebug.c: stab_binsearch, a binary search in an array where only the entries of one type are sorted. */
module StabSearch {

  datatype Stab = Stab(n_type: int, n_value: int)

  predicate Is(stabs: seq<Stab>, ty: int, i: int) { 0 <= i < |stabs| && stabs[i].n_type == ty }

  // The inner loop: the last entry of the type at or below m, or l - 1.
  function Probe(stabs: seq<Stab>, ty: int, l: int, m: int): (p: int)
    requires 0 <= l && m < |stabs| && l - 1 <= m
    ensures l - 1 <= p <= m && (p >= l ==> Is(stabs, ty, p)) && forall i | p < i <= m :: !Is(stabs, ty, i)
    decreases m - l
  {
    if m >= l && stabs[m].n_type != ty then Probe(stabs, ty, l, m - 1) else m
  }

  /** The variables of the main loop. */
  datatype Vars = Vars(l: int, r: int, addr: int, left: int, right: int, any: bool)

  predicate In(stabs: seq<Stab>, v: Vars) { 0 <= v.l && v.r < |stabs| }

  // One turn of the main loop.
  function Turn(stabs: seq<Stab>, ty: int, v: Vars): (w: Vars)
    requires In(stabs, v) && v.l <= v.r
    ensures In(stabs, w)
  {
    var true_m := (v.l + v.r) / 2;
    var m := Probe(stabs, ty, v.l, true_m);
    if m < v.l then v.(l := true_m + 1)
    else if stabs[m].n_value < v.addr then v.(any := true, left := m, l := true_m + 1)
    else if stabs[m].n_value > v.addr then v.(any := true, right := m - 1, r := m - 1)
    else v.(any := true, left := m, l := m, addr := v.addr + 1)
  }

  // An exact match may leave the range as it is; it cannot do so twice running, because addr has moved on.
  function Measure(stabs: seq<Stab>, ty: int, v: Vars): (n: nat)
    requires In(stabs, v)
  {
    if v.l > v.r then 0
    else
      var m := Probe(stabs, ty, v.l, (v.l + v.r) / 2);
      2 * (v.r - v.l + 1) + (if m >= v.l && stabs[m].n_value == v.addr then 1 else 0)
  }

  lemma TurnDecreases(stabs: seq<Stab>, ty: int, v: Vars)
    requires In(stabs, v) && v.l <= v.r
    ensures Measure(stabs, ty, Turn(stabs, ty, v)) < Measure(stabs, ty, v)
  {
  }

  function Loop(stabs: seq<Stab>, ty: int, v: Vars): (w: Vars)
    requires In(stabs, v)
    ensures In(stabs, w) && w.l > w.r
    decreases Measure(stabs, ty, v)
  {
    if v.l > v.r then v
    else
      TurnDecreases(stabs, ty, v);
      Loop(stabs, ty, Turn(stabs, ty, v))
  }

  // What follows the loop.
  function Settle(stabs: seq<Stab>, ty: int, v: Vars): (int, int)
    requires v.any ==> v.right < |stabs| && 0 <= v.left
  {
    if !v.any then (v.left, v.left - 1)
    else if v.right <= v.left then (v.right, v.right)
    else (Probe(stabs, ty, v.left + 1, v.right), v.right)
  }

  function Start(left: int, right: int, addr: int): Vars { Vars(left, right, addr, left, right, false) }

  // The region pointers stay in the range.
  lemma {:induction false} LoopIn(stabs: seq<Stab>, ty: int, v: Vars)
    requires In(stabs, v) && v.right == v.r && 0 <= v.left
    ensures var w := Loop(stabs, ty, v); w.right == w.r && 0 <= w.left
    decreases Measure(stabs, ty, v)
  {
    if v.l <= v.r {
      TurnDecreases(stabs, ty, v);
      LoopIn(stabs, ty, Turn(stabs, ty, v));
    }
  }

  /** The result as a function. */
  function Search(stabs: seq<Stab>, ty: int, left: int, right: int, addr: int): (int, int)
    requires 0 <= left && right < |stabs|
  {
    LoopIn(stabs, ty, Start(left, right, addr));
    Settle(stabs, ty, Loop(stabs, ty, Start(left, right, addr)))
  }

  lemma LoopTurn(stabs: seq<Stab>, ty: int, v: Vars)
    requires In(stabs, v) && v.l <= v.r
    ensures Measure(stabs, ty, Turn(stabs, ty, v)) < Measure(stabs, ty, v)
    ensures Loop(stabs, ty, v) == Loop(stabs, ty, Turn(stabs, ty, v))
  {
    TurnDecreases(stabs, ty, v);
  }

  // The loops that walk down to an entry of the type.
  method WalkDown(stabs: seq<Stab>, ty: int, l: int, from: int) returns (m: int)
    requires 0 <= l && from < |stabs| && l - 1 <= from
    ensures m == Probe(stabs, ty, l, from)
  {
    m := from;
    while m >= l && stabs[m].n_type != ty
      invariant l - 1 <= m <= from && Probe(stabs, ty, l, m) == Probe(stabs, ty, l, from)
    {
      m := m - 1;
    }
  }

  /** stab_binsearch. It ends on every input. */
  method StabBinsearch(stabs: seq<Stab>, left0: int, right0: int, ty: int, addr0: int) returns (left: int, right: int)
    requires 0 <= left0 && right0 < |stabs|
    ensures (left, right) == Search(stabs, ty, left0, right0, addr0)
  {
    hide Loop;
    hide Measure;
    left, right := left0, right0;
    var l, r, addr, any := left, right, addr0, false;
    ghost var goal := Loop(stabs, ty, Start(left0, right0, addr0));
    while l <= r
      invariant 0 <= l && r < |stabs| && r == right && 0 <= left
      invariant Loop(stabs, ty, Vars(l, r, addr, left, right, any)) == goal
      decreases Measure(stabs, ty, Vars(l, r, addr, left, right, any))
    {
      LoopTurn(stabs, ty, Vars(l, r, addr, left, right, any));
      var true_m := (l + r) / 2;
      var m := WalkDown(stabs, ty, l, true_m);
      if m < l {
        l := true_m + 1;
        continue;
      }
      any := true;
      if stabs[m].n_value < addr {
        left := m;
        l := true_m + 1;
      } else if stabs[m].n_value > addr {
        right := m - 1;
        r := m - 1;
      } else {
        left := m;
        l := m;
        addr := addr + 1;
      }
    }
    LoopEnds(stabs, ty, Vars(l, r, addr, left, right, any));
    if !any {
      right := left - 1;
    } else if right <= left {
      left := right;
    } else {
      left := WalkDown(stabs, ty, left + 1, right);
    }
  }

  lemma LoopEnds(stabs: seq<Stab>, ty: int, v: Vars)
    requires In(stabs, v) && v.l > v.r
    ensures Loop(stabs, ty, v) == v
  {
  }

  // --- what it finds ---

  predicate Sorted(stabs: seq<Stab>, ty: int, lo: int, hi: int) {
    forall i, j | lo <= i <= j <= hi && Is(stabs, ty, i) && Is(stabs, ty, j) :: stabs[i].n_value <= stabs[j].n_value
  }

  // Not both an entry at addr and one at addr + 1.
  predicate Gap(stabs: seq<Stab>, ty: int, lo: int, hi: int, addr: int) {
    forall i, j | lo <= i <= hi && lo <= j <= hi && Is(stabs, ty, i) && Is(stabs, ty, j) && stabs[i].n_value == addr ::
      stabs[j].n_value != addr + 1
  }

  /** The last entry of the type in lo..hi that is not above addr. */
  predicate IsLast(stabs: seq<Stab>, ty: int, lo: int, hi: int, addr: int, t: int) {
    && lo <= t <= hi && Is(stabs, ty, t) && stabs[t].n_value <= addr
    && forall i | t < i <= hi && Is(stabs, ty, i) :: stabs[i].n_value > addr
  }

  /** The entry before the next one of the type, or hi. */
  predicate IsEnd(stabs: seq<Stab>, ty: int, hi: int, t: int, e: int) {
    t <= e <= hi && (e == hi || Is(stabs, ty, e + 1)) && forall i | t < i <= e :: !Is(stabs, ty, i)
  }

  // Some entry of the type in lo..hi has value x.
  ghost predicate Occurs(stabs: seq<Stab>, ty: int, lo: int, hi: int, x: int) {
    exists i :: lo <= i <= hi && Is(stabs, ty, i) && stabs[i].n_value == x
  }

  // left has been set, to an entry that has been found below addr and has not been cut off.
  predicate LeftSet(stabs: seq<Stab>, ty: int, lo: int, v: Vars) {
    lo <= v.left <= v.r && Is(stabs, ty, v.left) && stabs[v.left].n_value < v.addr && v.any
  }

  // Between the turns, for a target t: it has not been cut off, everything of the type below l has been passed, what
  // was cut off on the right starts with an entry of the type, and every value that addr has run through has been
  // met.
  ghost predicate Tracks(stabs: seq<Stab>, ty: int, lo: int, hi: int, addr: int, t: int, v: Vars) {
    && In(stabs, v) && lo <= v.l && v.right == v.r <= hi && lo <= v.left
    && v.addr >= addr && (forall x | addr <= x < v.addr :: Occurs(stabs, ty, lo, hi, x))
    && t <= v.r && (v.r == hi || Is(stabs, ty, v.r + 1))
    && (forall i | lo <= i < v.l && Is(stabs, ty, i) :: i <= v.left && LeftSet(stabs, ty, lo, v))
  }

  // Where the probe lies: not past the target if it is not above addr, and not above left's value to the left of left.
  lemma ProbeFacts(stabs: seq<Stab>, ty: int, lo: int, hi: int, addr: int, t: int, v: Vars, m: int)
    requires 0 <= lo && hi < |stabs| && Sorted(stabs, ty, lo, hi)
    requires IsLast(stabs, ty, lo, hi, addr, t) && Tracks(stabs, ty, lo, hi, addr, t, v) && v.l <= m <= v.r &&
             Is(stabs, ty, m)
    ensures stabs[m].n_value > v.addr ==> t < m && (LeftSet(stabs, ty, lo, v) ==> v.left < m)
    ensures stabs[m].n_value == v.addr ==> Occurs(stabs, ty, lo, hi, v.addr)
  {
  }

  // Everything of the type that a turn passes lies at or before its new left.
  lemma TurnPasses(stabs: seq<Stab>, ty: int, lo: int, hi: int, addr: int, t: int, v: Vars)
    requires 0 <= lo && hi < |stabs| && Sorted(stabs, ty, lo, hi)
    requires IsLast(stabs, ty, lo, hi, addr, t) && Tracks(stabs, ty, lo, hi, addr, t, v) && v.l <= v.r
    ensures var w := Turn(stabs, ty, v);
            forall i | lo <= i < w.l && Is(stabs, ty, i) :: i <= w.left && LeftSet(stabs, ty, lo, w)
  {
    var m, w := Probe(stabs, ty, v.l, (v.l + v.r) / 2), Turn(stabs, ty, v);
    if m >= v.l {
      ProbeFacts(stabs, ty, lo, hi, addr, t, v, m);
    }
    hide Occurs;
    hide Sorted;
    hide IsLast;
    forall i | lo <= i < w.l && Is(stabs, ty, i)
      ensures i <= w.left && LeftSet(stabs, ty, lo, w)
    {
      assert i < v.l ==> i <= v.left && LeftSet(stabs, ty, lo, v);
    }
  }

  lemma TurnTracks(stabs: seq<Stab>, ty: int, lo: int, hi: int, addr: int, t: int, v: Vars)
    requires 0 <= lo && hi < |stabs| && Sorted(stabs, ty, lo, hi)
    requires IsLast(stabs, ty, lo, hi, addr, t) && Tracks(stabs, ty, lo, hi, addr, t, v) && v.l <= v.r
    ensures Tracks(stabs, ty, lo, hi, addr, t, Turn(stabs, ty, v))
  {
    var m := Probe(stabs, ty, v.l, (v.l + v.r) / 2);
    TurnPasses(stabs, ty, lo, hi, addr, t, v);
    if m >= v.l {
      ProbeFacts(stabs, ty, lo, hi, addr, t, v, m);
    }
    hide Occurs;
    hide Sorted;
    hide IsLast;
    hide LeftSet;
  }

  lemma {:induction false} LoopTracks(stabs: seq<Stab>, ty: int, lo: int, hi: int, addr: int, t: int, v: Vars)
    requires 0 <= lo && hi < |stabs| && Sorted(stabs, ty, lo, hi)
    requires IsLast(stabs, ty, lo, hi, addr, t) && Tracks(stabs, ty, lo, hi, addr, t, v)
    ensures Tracks(stabs, ty, lo, hi, addr, t, Loop(stabs, ty, v))
    decreases Measure(stabs, ty, v)
  {
    if v.l <= v.r {
      TurnTracks(stabs, ty, lo, hi, addr, t, v);
      TurnDecreases(stabs, ty, v);
      hide Tracks;
      LoopTracks(stabs, ty, lo, hi, addr, t, Turn(stabs, ty, v));
    }
  }

  /** For every sorted region with an entry not above addr, t being the last of these: the search ends on an entry at
      or after t, with the region up to the next one, and every value from addr up to that of the entry occurs. So it
      ends on t unless addr and addr + 1 both occur. */
  lemma SearchSound(stabs: seq<Stab>, ty: int, lo: int, hi: int, addr: int, t: int)
    requires 0 <= lo && hi < |stabs| && Sorted(stabs, ty, lo, hi) && IsLast(stabs, ty, lo, hi, addr, t)
    ensures var (left, right) := Search(stabs, ty, lo, hi, addr);
            && t <= left && Is(stabs, ty, left) && IsEnd(stabs, ty, hi, left, right)
            && (forall x | addr <= x <= stabs[left].n_value :: Occurs(stabs, ty, lo, hi, x))
            && (stabs[left].n_value <= addr ==> left == t)
  {
    var v := Start(lo, hi, addr);
    LoopTracks(stabs, ty, lo, hi, addr, t, v);
    LoopIn(stabs, ty, v);
    var w := Loop(stabs, ty, v);
    assert t <= w.r < w.l && LeftSet(stabs, ty, lo, w) && t <= w.left;
    assert forall i | w.left < i <= w.r :: !Is(stabs, ty, i);
  }

  /** With the entries of the type sorted, and not both addr and addr + 1 among them, the search ends where a scan
      from the right would: on the last entry not above addr, with the region up to the next one. */
  lemma SearchExact(stabs: seq<Stab>, ty: int, lo: int, hi: int, addr: int, t: int, e: int)
    requires 0 <= lo && hi < |stabs| && Sorted(stabs, ty, lo, hi) && Gap(stabs, ty, lo, hi, addr)
    requires IsLast(stabs, ty, lo, hi, addr, t) && IsEnd(stabs, ty, hi, t, e)
    ensures Search(stabs, ty, lo, hi, addr) == (t, e)
  {
    SearchSound(stabs, ty, lo, hi, addr, t);
    var (left, right) := Search(stabs, ty, lo, hi, addr);
    hide Search;
    assert stabs[left].n_value > addr ==> Occurs(stabs, ty, lo, hi, addr) && Occurs(stabs, ty, lo, hi, addr + 1);
  }

  /** Two adjacent values are enough to get the neighbour instead. */
  lemma AdjacentValues()
    ensures var s := [Stab(1, 10), Stab(1, 11)];
            Sorted(s, 1, 0, 1) && IsLast(s, 1, 0, 1, 10, 0) && IsEnd(s, 1, 1, 0, 0) && Search(s, 1, 0, 1, 10) == (1, 1)
  {
    var s := [Stab(1, 10), Stab(1, 11)];
    LoopIn(s, 1, Start(0, 1, 10));
    hide Loop;
    hide Measure;
    ProbeHere(s, 1, 0, 0);
    ProbeHere(s, 1, 1, 1);
    hide Probe;
    assert Turn(s, 1, Start(0, 1, 10)) == Vars(0, 1, 11, 0, 1, true);
    assert Turn(s, 1, Vars(0, 1, 11, 0, 1, true)) == Vars(1, 1, 11, 0, 1, true);
    assert Turn(s, 1, Vars(1, 1, 11, 0, 1, true)) == Vars(1, 1, 12, 1, 1, true);
    assert Turn(s, 1, Vars(1, 1, 12, 1, 1, true)) == Vars(2, 1, 12, 1, 1, true);
    hide Turn;
    LoopTurn(s, 1, Start(0, 1, 10));
    LoopTurn(s, 1, Vars(0, 1, 11, 0, 1, true));
    LoopTurn(s, 1, Vars(1, 1, 11, 0, 1, true));
    LoopTurn(s, 1, Vars(1, 1, 12, 1, 1, true));
    LoopEnds(s, 1, Vars(2, 1, 12, 1, 1, true));
  }

  lemma ProbeHere(stabs: seq<Stab>, ty: int, l: int, m: int)
    requires 0 <= l <= m < |stabs| && Is(stabs, ty, m)
    ensures Probe(stabs, ty, l, m) == m
  {
  }

  /** On every input, sorted or not, there is no further entry of the type in the region that is returned. */
  lemma NothingBetween(stabs: seq<Stab>, ty: int, lo: int, hi: int, addr: int)
    requires 0 <= lo && hi < |stabs|
    ensures var (left, right) := Search(stabs, ty, lo, hi, addr);
            forall i | left < i <= right :: !Is(stabs, ty, i)
  {
    LoopIn(stabs, ty, Start(lo, hi, addr));
  }

  // --- the cases in which no entry contains the address ---

  // No entry of the type is at or below addr: everything found lies on the right.
  ghost predicate AllAbove(stabs: seq<Stab>, ty: int, lo: int, hi: int, addr: int, v: Vars) {
    && In(stabs, v) && v.addr == addr && v.left == lo && lo <= v.l && v.right == v.r <= hi
    && (v.any <==> v.r < hi) && (v.r == hi || (Is(stabs, ty, v.r + 1) && lo <= v.r + 1))
    && forall i | lo <= i < v.l :: !Is(stabs, ty, i)
  }

  lemma {:induction false} LoopAllAbove(stabs: seq<Stab>, ty: int, lo: int, hi: int, addr: int, v: Vars)
    requires 0 <= lo && hi < |stabs| && forall i | lo <= i <= hi && Is(stabs, ty, i) :: stabs[i].n_value > addr
    requires AllAbove(stabs, ty, lo, hi, addr, v)
    ensures AllAbove(stabs, ty, lo, hi, addr, Loop(stabs, ty, v))
    decreases Measure(stabs, ty, v)
  {
    if v.l <= v.r {
      TurnDecreases(stabs, ty, v);
      LoopAllAbove(stabs, ty, lo, hi, addr, Turn(stabs, ty, v));
    }
  }

  /** If no entry is at or below addr, left > right, the documented sign of failure, is returned exactly when there is
      no entry of the type at all; otherwise right is just before the first one, and left is not above right. */
  lemma NotContained(stabs: seq<Stab>, ty: int, lo: int, hi: int, addr: int)
    requires 0 <= lo <= hi < |stabs| && forall i | lo <= i <= hi && Is(stabs, ty, i) :: stabs[i].n_value > addr
    ensures var (left, right) := Search(stabs, ty, lo, hi, addr);
            && (left > right <==> forall i | lo <= i <= hi :: !Is(stabs, ty, i))
            && (left <= right ==> Is(stabs, ty, right + 1) && forall i | lo <= i <= right :: !Is(stabs, ty, i))
  {
    var v := Start(lo, hi, addr);
    LoopAllAbove(stabs, ty, lo, hi, addr, v);
    LoopIn(stabs, ty, v);
  }
}
