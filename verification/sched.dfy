/** kern/sched.c: the two scans of sched_yield, round robin and with priorities. */
module Sched {
  import opened Mmu
  import opened EnvId

  const MIN_PRIORITY: int := 0x100

  // --- the order of the scan ---

  // Where the scan starts. For slot NENV-1 this is NENV: the index is not reduced.
  function StartOf(cur: int): int { if cur == NULL then 0 else cur + 1 }

  // The slot of the k-th iteration.
  function Visit(start: int, k: nat): int { if k == 0 then start else (start + k) % NENV }

  // How far slot j lies behind slot i, going round.
  function Ahead(i: int, j: int): int { (j - i) % NENV }

  // How many cells the loop can look at, and when it looks at cell j: from inside the array the slots in circular
  // order; from NENV the cell after the array, then 1, 2, ..., NENV-1, and slot 0 last.
  function Cells(start: int): int { if start < NENV then NENV else NENV + 1 }

  function Rank(start: int, j: int): int {
    if start < NENV then Ahead(start, j) else if j == NENV then 0 else if j == 0 then NENV else j
  }

  // Which cells of envs[] the loop would take. The cell at NENV is whatever follows the array.
  predicate Scan(hit: seq<bool>, start: int) { |hit| == NENV + 1 && 0 <= start <= NENV }

  // The loop ends after its k-th iteration.
  predicate Stops(hit: seq<bool>, start: int, k: nat)
    requires Scan(hit, start)
  {
    hit[Visit(start, k)] || Visit(start, k + 1) == start
  }

  /** r is NULL when nothing can be taken, and otherwise the first cell in the order of the scan. */
  predicate First(hit: seq<bool>, start: int, r: int) {
    if r == NULL then forall j | 0 <= j < Cells(start) && j < |hit| :: !hit[j]
    else 0 <= r < Cells(start) && r < |hit| && hit[r] && forall j | 0 <= j < Cells(start) && j < |hit| && hit[j] ::
        Rank(start, r) <= Rank(start, j)
  }

  lemma ModFacts(x: int)
    ensures 0 <= x < NENV ==> x % NENV == x
    ensures NENV <= x < 2 * NENV ==> x % NENV == x - NENV
    ensures 0 - NENV <= x < 0 ==> x % NENV == x + NENV
  {
  }

  // The k-th iteration looks at the cell of rank k.
  lemma VisitRank(start: int, j: int)
    requires 0 <= start <= NENV && 0 <= j < Cells(start)
    ensures 0 <= Rank(start, j) < Cells(start) && Visit(start, Rank(start, j)) == j
  {
    ModFacts(j - start);
    ModFacts(start + Rank(start, j));
  }

  lemma RankVisit(start: int, k: nat)
    requires 0 <= start <= NENV && k < Cells(start)
    ensures 0 <= Visit(start, k) < Cells(start) && Rank(start, Visit(start, k)) == k
  {
    ModFacts(start + k);
    ModFacts(Visit(start, k) - start);
  }

  lemma FirstUnique(hit: seq<bool>, start: int, r: int, q: int)
    requires Scan(hit, start) && First(hit, start, r) && First(hit, start, q)
    ensures r == q
  {
    if r != NULL && q != NULL {
      VisitRank(start, r);
      VisitRank(start, q);
    }
  }

  // Starting from NENV the scan looks at 1, 2, ..., NENV-1, 0 and round again: it never meets its start.
  lemma NeverBack(k: nat)
    ensures Visit(NENV, k + 1) == (k + 1) % NENV && Visit(NENV, k + 1) < NENV
  {
    var m := k + 1;
    assert (NENV + m) % NENV == m % NENV;
  }

  /** The loop ends if and only if it starts inside the array or there is something to find. */
  lemma ScanEndsIff(hit: seq<bool>, start: int)
    requires Scan(hit, start)
    ensures (exists k: nat :: Stops(hit, start, k)) <==> start < NENV || exists j :: 0 <= j <= NENV && hit[j]
  {
    if start < NENV {
      RankVisit(start, NENV - 1);
      ModFacts(start + NENV);
      assert Stops(hit, start, NENV - 1);
    } else {
      if j :| 0 <= j <= NENV && hit[j] {
        VisitRank(start, j);
        assert Stops(hit, start, Rank(start, j));
      }
      if k: nat :| Stops(hit, start, k) {
        NeverBack(k);
        assert k > 0 ==> 0 <= Visit(start, k) < NENV;
        assert hit[Visit(start, k)];
      }
    }
  }

  // What the round-robin loop takes; `beyond` is how the cell after the array reads.
  function Runnables(status: seq<EnvStatus>, beyond: bool): seq<bool>
    requires |status| == NENV
  {
    seq(NENV + 1, i => if 0 <= i < NENV then status[i].ENV_RUNNABLE? else beyond)
  }

  /** The do-while loop of round robin finds the first RUNNABLE slot in the order of the scan. */
  method RoundRobinScan(status: seq<EnvStatus>, beyond: bool, start: int) returns (next: int)
    requires |status| == NENV && 0 <= start <= NENV
    requires var hit := Runnables(status, beyond); start < NENV || exists j :: 0 <= j <= NENV && hit[j]
    ensures First(Runnables(status, beyond), start, next)
  {
    ghost var hit := Runnables(status, beyond);
    next := NULL;
    var i, k: nat := start, 0;
    while true
      invariant k < Cells(start) && i == Visit(start, k) && 0 <= i <= NENV && next == NULL
      invariant forall m: nat | m < k :: 0 <= Visit(start, m) <= NENV && !hit[Visit(start, m)]
      decreases NENV - k
    {
      if (i < NENV && status[i].ENV_RUNNABLE?) || (i == NENV && beyond) {
        next := i;
      }
      LastRound(hit, start, k);
      i := (i + 1) % NENV;
      VisitNext(start, k);
      k := k + 1;
      if !(i != start && next == NULL) {
        break;
      }
    }
    FoundFirst(hit, start, k - 1);
  }

  lemma VisitNext(start: int, k: nat)
    requires 0 <= start <= NENV && 0 <= Visit(start, k) <= NENV
    ensures (Visit(start, k) + 1) % NENV == Visit(start, k + 1)
  {
  }

  // If nothing has been found up to iteration k, either the loop ends there or there is another iteration to make.
  lemma LastRound(hit: seq<bool>, start: int, k: nat)
    requires Scan(hit, start) && (start < NENV || exists j :: 0 <= j <= NENV && hit[j]) && k < Cells(start)
    requires forall m: nat | m < k :: 0 <= Visit(start, m) <= NENV && !hit[Visit(start, m)]
    ensures 0 <= Visit(start, k) <= NENV
    ensures start < NENV ==> (Visit(start, k + 1) == start <==> k == NENV - 1)
    ensures start == NENV ==> Visit(start, k + 1) != start && (k == NENV ==> hit[Visit(start, k)])
  {
    if start < NENV {
      ModFacts(start + k + 1);
    } else {
      NeverBack(k);
      if k == NENV {
        var j :| 0 <= j <= NENV && hit[j];
        VisitRank(start, j);
      }
    }
  }

  lemma FoundFirst(hit: seq<bool>, start: int, k: nat)
    requires Scan(hit, start) && k < Cells(start)
    requires forall m: nat | m < k :: 0 <= Visit(start, m) <= NENV && !hit[Visit(start, m)]
    ensures 0 <= Visit(start, k) < Cells(start)
    ensures hit[Visit(start, k)] ==> First(hit, start, Visit(start, k))
    ensures !hit[Visit(start, k)] && k == Cells(start) - 1 ==> First(hit, start, NULL)
  {
    RankVisit(start, k);
    forall j | 0 <= j < Cells(start)
      ensures hit[j] ==> Rank(start, j) >= k
      ensures !hit[Visit(start, k)] && k == Cells(start) - 1 ==> !hit[j]
    {
      VisitRank(start, j);
    }
  }

  // --- round robin: bounded waiting ---

  /** One call of sched_yield on the only CPU: the statuses it finds and the slot of the current environment. The cell
      after the array does not read as RUNNABLE. */
  datatype Call = Call(status: seq<EnvStatus>, cur: int)

  // A call made while e is RUNNABLE, and what it picks.
  predicate AsksFor(call: Call, pick: int, e: int) {
    && |call.status| == NENV && 0 <= call.cur < NENV && 0 <= e < NENV && call.status[e].ENV_RUNNABLE?
    && First(Runnables(call.status, false), StartOf(call.cur), pick)
  }

  predicate Unpicked(picks: seq<int>, e: int, k: nat) { forall i | 0 <= i < k && i < |picks| :: picks[i] != e }

  // e waits: another environment is current at first, and up to and including the call that first picks e each call
  // is as above and finds current what the call before picked. All else may change between calls, and what follows is
  // free.
  predicate Waiting(calls: seq<Call>, picks: seq<int>, e: int) {
    && |picks| == |calls| && (calls != [] ==> calls[0].cur != e)
    && forall k: nat | k < |calls| && Unpicked(picks, e, k) ::
         AsksFor(calls[k], picks[k], e) && (k > 0 ==> calls[k].cur == picks[k - 1])
  }

  // A scan from NENV comes to slot 0 last, so that any other RUNNABLE slot goes before it.
  predicate PassesZero(call: Call) {
    |call.status| == NENV && call.cur == NENV - 1 && exists j :: 1 <= j < NENV && call.status[j].ENV_RUNNABLE?
  }

  // A call that does not pick e brings the scan closer to it, unless e is slot 0 and is passed over.
  lemma Closer(call: Call, e: int, next: int)
    requires AsksFor(call, next, e) && call.cur != e && !(e == 0 && PassesZero(call))
    ensures 0 <= next < NENV && 1 <= Ahead(call.cur, e) < NENV
    ensures next != e ==> Ahead(next, e) < Ahead(call.cur, e)
  {
    var hit, cur := Runnables(call.status, false), call.cur;
    assert hit[e];
    ModFacts(e - cur);
    ModFacts(e - (cur + 1));
    ModFacts(next - (cur + 1));
    ModFacts(e - next);
  }

  lemma {:induction false} Approach(calls: seq<Call>, picks: seq<int>, e: int, k: nat)
    requires Waiting(calls, picks, e) && k < |calls| && Unpicked(picks, e, k)
    requires e == 0 ==> forall i | 0 <= i <= k :: !PassesZero(calls[i])
    ensures AsksFor(calls[k], picks[k], e) && calls[k].cur != e
    ensures 1 <= Ahead(calls[k].cur, e) <= Ahead(calls[0].cur, e) - k < NENV
  {
    assert k > 0 ==> Unpicked(picks, e, k - 1) && picks[k - 1] != e;
    if k > 0 {
      Approach(calls, picks, e, k - 1);
      Closer(calls[k - 1], e, picks[k - 1]);
    }
    Closer(calls[k], e, picks[k]);
  }

  /** An environment that stays RUNNABLE until it is picked is picked within as many calls as it is slots away, so
      within NENV-1 calls, in every run of that many calls. The one exception is slot 0, when one of these calls is made
      with slot NENV-1 current and another slot is RUNNABLE. */
  lemma BoundedWaiting(calls: seq<Call>, picks: seq<int>, e: int)
    requires Waiting(calls, picks, e) && calls != [] && |calls| >= Ahead(calls[0].cur, e)
    ensures 1 <= Ahead(calls[0].cur, e) <= NENV - 1
    ensures exists k :: 0 <= k < Ahead(calls[0].cur, e) && (picks[k] == e || (e == 0 && PassesZero(calls[k])))
  {
    assert AsksFor(calls[0], picks[0], e);
    ModFacts(e - calls[0].cur);
    var k := Ahead(calls[0].cur, e) - 1;
    if Unpicked(picks, e, k) && (e == 0 ==> forall i | 0 <= i <= k :: !PassesZero(calls[i])) {
      Approach(calls, picks, e, k);
      Closer(calls[k], e, picks[k]);
      ModFacts(e - picks[k]);
      assert picks[k] == e;
    }
  }

  /** Such runs exist for every slot and every other current one, with anything after the pick. */
  lemma WaitingPossible(cur: int, e: int, rest: seq<Call>, picks: seq<int>)
    requires 0 <= cur < NENV && 0 <= e < NENV && cur != e && |picks| == |rest|
    ensures var alone := seq(NENV, i => if i == e then ENV_RUNNABLE else ENV_NOT_RUNNABLE);
            Waiting([Call(alone, cur)] + rest, [e] + picks, e)
  {
    var alone := seq(NENV, i => if i == e then ENV_RUNNABLE else ENV_NOT_RUNNABLE);
    assert AsksFor(Call(alone, cur), e, e);
    forall k: nat | 0 < k
      ensures !Unpicked([e] + picks, e, k)
    {
      assert ([e] + picks)[0] == e;
    }
  }

  /** A call picks slot 0 exactly when no other slot that the scan comes to first is RUNNABLE: none above the current
      one or, if that is NENV-1, none at all. */
  lemma PicksZeroIff(call: Call, next: int)
    requires AsksFor(call, next, 0)
    ensures next == 0 <==> forall j | (if call.cur == NENV - 1 then 1 else call.cur + 1) <= j < NENV ::
                             !call.status[j].ENV_RUNNABLE?
  {
    var hit, start := Runnables(call.status, false), StartOf(call.cur);
    assert hit[0] && hit[next];
    VisitRank(start, 0);
    VisitRank(start, next);
    forall j | 0 <= j < NENV
      ensures Rank(start, j) < Rank(start, 0) <==> (if start == NENV then 1 else start) <= j
      ensures hit[j] == call.status[j].ENV_RUNNABLE?
    {
      ModFacts(j - start);
      ModFacts(0 - start);
    }
    assert next != 0 ==> Rank(start, next) < Rank(start, 0);
  }

  // --- a fixed set of environments that always want to run ---

  // The current one is RUNNING, the others are RUNNABLE, and nobody else is.
  predicate Steady(busy: set<int>, calls: seq<Call>, picks: seq<int>) {
    && |picks| == |calls| && (forall j | j in busy :: 0 <= j < NENV)
    && forall k: nat | k < |calls| :: SteadyCall(busy, calls, picks, k)
  }

  predicate SteadyCall(busy: set<int>, calls: seq<Call>, picks: seq<int>, k: nat)
    requires k < |calls| == |picks|
  {
    var call := calls[k];
    && |call.status| == NENV && call.cur in busy && 0 <= call.cur < NENV && (k > 0 ==> call.cur == picks[k - 1])
    && (forall j | 0 <= j < NENV :: call.status[j].ENV_RUNNABLE? <==> j in busy && j != call.cur)
    && First(Runnables(call.status, false), StartOf(call.cur), picks[k])
  }

  // The set keeps slot 0 out: slot NENV-1 is in it, and yet another one.
  predicate Crowds(busy: set<int>) { NENV - 1 in busy && exists j :: 1 <= j < NENV - 1 && j in busy }

  lemma {:induction false} NeverZero(busy: set<int>, calls: seq<Call>, picks: seq<int>, k: nat)
    requires Steady(busy, calls, picks) && 0 in busy && Crowds(busy) && k < |calls| && calls[0].cur != 0
    ensures calls[k].cur != 0 && picks[k] != 0
  {
    assert SteadyCall(busy, calls, picks, k);
    if k > 0 {
      NeverZero(busy, calls, picks, k - 1);
    }
    var j :| 1 <= j < NENV - 1 && j in busy;
    PicksZeroIff(calls[k], picks[k]);
  }

  lemma {:induction false} SteadyWaits(busy: set<int>, calls: seq<Call>, picks: seq<int>, e: int)
    requires Steady(busy, calls, picks) && e in busy && calls != [] && calls[0].cur != e
    ensures Waiting(calls, picks, e)
  {
    forall k: nat | k < |calls| && Unpicked(picks, e, k)
      ensures AsksFor(calls[k], picks[k], e) && (k > 0 ==> calls[k].cur == picks[k - 1])
    {
      assert SteadyCall(busy, calls, picks, k);
      assert k > 0 ==> picks[k - 1] != e;
    }
  }

  /** With a fixed set of environments that always want to run, slot 0 gets its turn, and then within NENV-1 calls, if
      and only if slot NENV-1 is not in the set together with a slot between the two. Otherwise it starves for ever. */
  lemma ZeroServedIff(busy: set<int>, calls: seq<Call>, picks: seq<int>)
    requires Steady(busy, calls, picks) && 0 in busy && |calls| >= NENV - 1 && calls[0].cur != 0
    ensures !Crowds(busy) <==> exists k :: 0 <= k < |calls| && picks[k] == 0
    ensures !Crowds(busy) ==> exists k :: 0 <= k < NENV - 1 && picks[k] == 0
  {
    if Crowds(busy) {
      forall k | 0 <= k < |calls|
        ensures picks[k] != 0
      {
        NeverZero(busy, calls, picks, k);
      }
    } else {
      SteadyWaits(busy, calls, picks, 0);
      assert SteadyCall(busy, calls, picks, 0);
      ModFacts(0 - calls[0].cur);
      BoundedWaiting(calls, picks, 0);
      var k :| 0 <= k < Ahead(calls[0].cur, 0) && (picks[k] == 0 || PassesZero(calls[k]));
      assert SteadyCall(busy, calls, picks, k);
      assert !PassesZero(calls[k]);
    }
  }

  /** All other slots get their turn, whatever the set. */
  lemma OthersServed(busy: set<int>, calls: seq<Call>, picks: seq<int>, e: int)
    requires Steady(busy, calls, picks) && e in busy && e != 0 && |calls| >= NENV - 1 && calls[0].cur != e
    ensures exists k :: 0 <= k < NENV - 1 && picks[k] == e
  {
    SteadyWaits(busy, calls, picks, e);
    assert SteadyCall(busy, calls, picks, 0);
    ModFacts(e - calls[0].cur);
    BoundedWaiting(calls, picks, e);
  }

  /** A run of any length in which slot 0 wants to run and slots NENV-1 and 1 take turns. */
  lemma StarvingRun(n: nat) returns (calls: seq<Call>, picks: seq<int>)
    ensures |calls| == n && Steady({0, 1, NENV - 1}, calls, picks) && forall k | 0 <= k < n :: picks[k] != 0
  {
    var busy: set<int> := {0, 1, NENV - 1};
    calls := seq(n, k requires 0 <= k < n => Turn(if k % 2 == 0 then NENV - 1 else 1));
    picks := seq(n, k requires 0 <= k < n => if k % 2 == 0 then 1 else NENV - 1);
    forall k: nat | k < n
      ensures SteadyCall(busy, calls, picks, k)
    {
      var call := calls[k];
      var hit := Runnables(call.status, false);
      assert forall j | 0 <= j < NENV :: hit[j] <==> j in busy && j != call.cur;
      ModFacts(0 - StartOf(call.cur));
      ModFacts(picks[k] - StartOf(call.cur));
    }
  }

  function Turn(cur: int): Call {
    Call(seq(NENV, j => if j == cur then ENV_RUNNING else if j == 0 || j == 1 || j == NENV - 1 then ENV_RUNNABLE
                        else ENV_NOT_RUNNABLE), cur)
  }

  // --- priorities ---

  function Eligible(status: seq<EnvStatus>, prio: seq<int>, beyond: bool): seq<bool>
    requires |status| == NENV == |prio|
  {
    seq(NENV + 1, i => if 0 <= i < NENV then status[i].ENV_RUNNABLE? && prio[i] < MIN_PRIORITY else beyond)
  }

  /** The scan of the priority variant: `min_priority` drops at the first hit, and that hit ends the loop, so it is
      the first eligible slot that is taken and not the one with the best priority. */
  method PriorityScan(status: seq<EnvStatus>, prio: array<int>, beyond: bool, start: int) returns (next: int)
    requires |status| == NENV == prio.Length && 0 <= start <= NENV
    requires var hit := Eligible(status, prio[..], beyond); start < NENV || exists j :: 0 <= j <= NENV && hit[j]
    ensures First(Eligible(status, prio[..], beyond), start, next)
  {
    ghost var hit := Eligible(status, prio[..], beyond);
    var min_priority := MIN_PRIORITY;
    next := NULL;
    var i, k: nat := start, 0;
    while true
      invariant k < Cells(start) && i == Visit(start, k) && 0 <= i <= NENV
      invariant next == NULL && min_priority == MIN_PRIORITY
      invariant forall m: nat | m < k :: 0 <= Visit(start, m) <= NENV && !hit[Visit(start, m)]
      decreases NENV - k
    {
      if i < NENV && status[i].ENV_RUNNABLE? && prio[i] < min_priority {
        min_priority := prio[i];
        next := i;
      } else if i == NENV && beyond {
        next := i;
      }
      LastRound(hit, start, k);
      i := (i + 1) % NENV;
      VisitNext(start, k);
      k := k + 1;
      if !(i != start && next == NULL) {
        break;
      }
    }
    FoundFirst(hit, start, k - 1);
  }

  // Every tenth switch puts the RUNNABLE environments back to 0.
  function Boosted(status: seq<EnvStatus>, prio: seq<int>, switches: nat): (b: seq<int>)
    requires |status| == NENV == |prio|
    ensures |b| == NENV
  {
    if switches % 10 == 0
    then seq(NENV, i requires 0 <= i < NENV => if status[i].ENV_RUNNABLE? then 0 else prio[i])
    else prio
  }

  // The environment that loses the CPU gets a worse priority, up to MIN_PRIORITY - 1.
  function Bumped(prio: seq<int>, cur: int, next: int): (b: seq<int>)
    requires |prio| == NENV && (cur == NULL || 0 <= cur < NENV)
    ensures |b| == NENV
  {
    if cur != NULL && next != NULL && prio[cur] < MIN_PRIORITY - 1 then prio[cur := prio[cur] + 1] else prio
  }

  /** The scheduler's state: env_status, env_priority and the counters of struct SchedStats. */
  class Scheduler {
    var status: seq<EnvStatus>
    var prio: array<int>
    var yieldCount: nat
    var switches: nat
    var boosts: nat

    ghost predicate Valid()
      reads this
    {
      |status| == NENV && prio.Length == NENV
    }

    constructor ()
      ensures Valid() && fresh(prio) && yieldCount == switches == boosts == 0
      ensures prio[..] == seq(NENV, i => 0) && status == seq(NENV, i => ENV_FREE)
    {
      status := seq(NENV, i => ENV_FREE);
      prio := new int[NENV](i => 0);
      yieldCount, switches, boosts := 0, 0, 0;
      new;
      assert prio[..] == seq(NENV, i => 0);
    }

    method Boost()
      requires Valid()
      modifies prio, this`boosts
      ensures Valid() && prio[..] == Boosted(status, old(prio[..]), switches)
      ensures boosts == old(boosts) + (if switches % 10 == 0 then 1 else 0)
    {
      if switches % 10 == 0 {
        boosts := boosts + 1;
        var i := 0;
        while i < NENV
          invariant 0 <= i <= NENV && boosts == old(boosts) + 1
          invariant forall j | 0 <= j < i :: prio[j] == if status[j].ENV_RUNNABLE? then 0 else old(prio[j])
          invariant forall j | i <= j < NENV :: prio[j] == old(prio[j])
        {
          if status[i].ENV_RUNNABLE? {
            prio[i] := 0;
          }
          i := i + 1;
        }
      }
      assert prio[..] == Boosted(status, old(prio[..]), switches);
    }

    /** sched_yield with priorities, up to env_run. */
    method Yield(cur: int, beyond: bool) returns (next: int)
      requires Valid() && (cur == NULL || 0 <= cur < NENV)
      requires var hit := Eligible(status, Boosted(status, prio[..], switches), beyond);
               cur < NENV - 1 || exists j :: 0 <= j <= NENV && hit[j]
      modifies this`yieldCount, this`switches, this`boosts, prio
      ensures Valid() && yieldCount == old(yieldCount) + 1 &&
              switches == old(switches) + (if next == NULL then 0 else 1)
      ensures var b := Boosted(status, old(prio[..]), old(switches));
              First(Eligible(status, b, beyond), StartOf(cur), next) && prio[..] == Bumped(b, cur, next)
    {
      yieldCount := yieldCount + 1;
      Boost();
      next := PriorityScan(status, prio, beyond, StartOf(cur));
      ghost var b := prio[..];
      if cur != NULL && next != NULL {
        if prio[cur] < MIN_PRIORITY - 1 {
          prio[cur] := prio[cur] + 1;
        }
      }
      assert prio[..] == Bumped(b, cur, next);
      if next != NULL {
        switches := switches + 1;
      }
    }

    /** sys_env_set_priority by the environment in slot cur; e is the slot envid2env finds, or NULL. */
    method SetPriority(cur: int, e: int, priority: int) returns (r: int)
      requires Valid() && 0 <= cur < NENV && (e == NULL || 0 <= e < NENV)
      modifies prio
      ensures Valid() &&
              r == (if e == cur && priority < old(prio[cur]) then -E_INVAL else if e == NULL then -E_BAD_ENV else 0)
      ensures prio[..] == if r == 0 then old(prio[..])[e := priority] else old(prio[..])
    {
      if e == cur && priority < prio[cur] {
        return -E_INVAL;
      }
      if e == NULL {
        return -E_BAD_ENV;
      }
      prio[e] := priority;
      return 0;
    }
  }

  // --- runs of the priority variant ---

  /** Everything that can happen: a yield, a priority set, an environment created (priority 0), any other status
      change. */
  datatype Event = Yield(cur: int) | SetPrio(e: int, p: int) | Create(e: int) | SetStatus(e: int, st: EnvStatus)

  datatype State = State(status: seq<EnvStatus>, prio: seq<int>, switches: nat)

  predicate Ok(s: State) { |s.status| == NENV == |s.prio| }

  // Priorities are set below MIN_PRIORITY.
  predicate May(ev: Event) {
    match ev
    case Yield(cur) => cur == NULL || 0 <= cur < NENV
    case SetPrio(e, p) => 0 <= e < NENV && p < MIN_PRIORITY
    case Create(e) => 0 <= e < NENV
    case SetStatus(e, _) => 0 <= e < NENV
  }

  // What the scan chooses: any slot that First allows, and there is only one. A scan from NENV that finds nothing does
  // not end. The cell after the array does not read as RUNNABLE.
  ghost predicate Step(s: State, ev: Event, next: int, t: State)
    requires Ok(s) && May(ev)
  {
    match ev
    case Yield(cur) =>
      var b := Boosted(s.status, s.prio, s.switches);
      First(Eligible(s.status, b, false), StartOf(cur), next) && (cur == NENV - 1 ==> next != NULL) &&
      t == State(s.status, Bumped(b, cur, next), if next == NULL then s.switches else s.switches + 1)
    case SetPrio(e, p) => t == s.(prio := s.prio[e := p])
    case Create(e) => t == s.(prio := s.prio[e := 0], status := s.status[e := ENV_RUNNABLE])
    case SetStatus(e, st) => t == s.(status := s.status[e := st])
  }

  ghost predicate Run(states: seq<State>, evs: seq<Event>, nexts: seq<int>) {
    && |states| == |evs| + 1 && |nexts| == |evs| && (forall k | 0 <= k < |states| :: Ok(states[k]))
    && (forall k | 0 <= k < |evs| :: May(evs[k]) && Step(states[k], evs[k], nexts[k], states[k + 1]))
  }

  predicate Below(prio: seq<int>) { forall i | 0 <= i < |prio| :: prio[i] < MIN_PRIORITY }

  lemma {:induction false} StaysBelow(states: seq<State>, evs: seq<Event>, nexts: seq<int>, k: nat)
    requires Run(states, evs, nexts) && Below(states[0].prio) && k < |states|
    ensures Below(states[k].prio)
  {
    if k > 0 {
      StaysBelow(states, evs, nexts, k - 1);
      assert Step(states[k - 1], evs[k - 1], nexts[k - 1], states[k - 1 + 1]);
    }
  }

  /** The priorities make no difference to the choice exactly when the first RUNNABLE slot is below MIN_PRIORITY. */
  lemma SameAsRoundRobinIff(status: seq<EnvStatus>, prio: seq<int>, start: int, r: int, next: int)
    requires |status| == NENV == |prio| && 0 <= start <= NENV
    requires First(Runnables(status, false), start, r) && First(Eligible(status, prio, false), start, next)
    ensures next == r <==> r == NULL || prio[r] < MIN_PRIORITY
  {
    var all, some := Runnables(status, false), Eligible(status, prio, false);
    assert forall j | 0 <= j <= NENV :: some[j] == (j < NENV && all[j] && prio[j] < MIN_PRIORITY);
    if r != NULL && prio[r] < MIN_PRIORITY {
      assert some[r];
      FirstUnique(some, start, r, next);
    }
  }

  // j is RUNNABLE and no RUNNABLE slot has a better priority.
  predicate Best(status: seq<EnvStatus>, prio: seq<int>, j: int)
    requires |status| == NENV == |prio|
  {
    && 0 <= j < NENV && status[j].ENV_RUNNABLE?
    && forall i | 0 <= i < NENV && status[i].ENV_RUNNABLE? :: prio[j] <= prio[i]
  }

  function Bests(status: seq<EnvStatus>, prio: seq<int>): seq<bool>
    requires |status| == NENV == |prio|
  {
    seq(NENV + 1, i => Best(status, prio, i))
  }

  /** The scan against the cyclic search for the best priority, which would find j: it takes a slot of the best
      priority, and then takes j itself, if and only if every RUNNABLE slot it comes to before j is at MIN_PRIORITY or
      worse, and j is not. */
  lemma BestIff(status: seq<EnvStatus>, prio: seq<int>, start: int, j: int, next: int)
    requires |status| == NENV == |prio| && 0 <= start <= NENV
    requires First(Bests(status, prio), start, j) && First(Eligible(status, prio, false), start, next)
    ensures Best(status, prio, next) <==>
            && j != NULL && prio[j] < MIN_PRIORITY
            && forall i | 0 <= i < NENV && status[i].ENV_RUNNABLE? && Rank(start, i) < Rank(start, j) ::
                 prio[i] >= MIN_PRIORITY
    ensures Best(status, prio, next) ==> next == j
  {
    var best, some := Bests(status, prio), Eligible(status, prio, false);
    if Best(status, prio, next) {
      assert best[next] && some[j];
      VisitRank(start, next);
      VisitRank(start, j);
    } else if j != NULL && prio[j] < MIN_PRIORITY {
      assert best[j] && some[j] && some[next] && next != j;
      VisitRank(start, next);
      VisitRank(start, j);
    }
  }

  /** With all priorities below MIN_PRIORITY that is so if and only if the slot round robin would choose is one of the
      best. */
  lemma BelowBestIff(status: seq<EnvStatus>, prio: seq<int>, start: int, r: int, next: int)
    requires |status| == NENV == |prio| && 0 <= start <= NENV && Below(prio)
    requires First(Runnables(status, false), start, r) && First(Eligible(status, prio, false), start, next)
    ensures Best(status, prio, next) <==> Best(status, prio, r)
  {
    SameAsRoundRobinIff(status, prio, start, r, next);
  }

  /** An input on which a better RUNNABLE slot is passed over: slot 1 with priority 5 is taken, and slot 2 has 0. */
  lemma WorseTaken() returns (status: seq<EnvStatus>, prio: seq<int>)
    ensures |status| == NENV == |prio| && Below(prio) && status[1].ENV_RUNNABLE? && status[2].ENV_RUNNABLE?
    ensures prio[1] == 5 && prio[2] == 0
    ensures First(Eligible(status, prio, false), StartOf(0), 1) && !Best(status, prio, 1) && Best(status, prio, 2)
  {
    status := seq(NENV, i => if i == 1 || i == 2 then ENV_RUNNABLE else ENV_NOT_RUNNABLE);
    prio := seq(NENV, i => if i == 1 then 5 else 0);
    var hit := Eligible(status, prio, false);
    assert forall j | 0 <= j < NENV :: hit[j] <==> j == 1 || j == 2;
    assert status[2].ENV_RUNNABLE? && prio[2] < prio[1];
  }

  /** In every run whose priorities start and are set below MIN_PRIORITY, each yield chooses what round robin would. */
  lemma PriorityIsRoundRobin(states: seq<State>, evs: seq<Event>, nexts: seq<int>, k: nat, r: int)
    requires Run(states, evs, nexts) && Below(states[0].prio) && k < |evs| && evs[k].Yield?
    requires First(Runnables(states[k].status, false), StartOf(evs[k].cur), r)
    ensures nexts[k] == r
    ensures r == NULL <==> forall j | 0 <= j < NENV :: !states[k].status[j].ENV_RUNNABLE?
    ensures var b := Boosted(states[k].status, states[k].prio, states[k].switches);
            Best(states[k].status, b, nexts[k]) <==> Best(states[k].status, b, r)
    ensures states[k].switches % 10 == 0 && nexts[k] != NULL ==>
              Best(states[k].status, Boosted(states[k].status, states[k].prio, states[k].switches), nexts[k])
  {
    StaysBelow(states, evs, nexts, k);
    var s := states[k];
    assert May(evs[k]) && Step(s, evs[k], nexts[k], states[k + 1]);
    var b := Boosted(s.status, s.prio, s.switches);
    assert Below(b);
    SameAsRoundRobinIff(s.status, b, StartOf(evs[k].cur), r, nexts[k]);
    var all := Runnables(s.status, false);
    assert forall j | 0 <= j < NENV :: all[j] == s.status[j].ENV_RUNNABLE?;
  }

  // The environment in slot e loses the CPU to somebody.
  predicate Loses(ev: Event, next: int, e: int) { ev.Yield? && ev.cur == e && next != NULL }

  function Losses(evs: seq<Event>, nexts: seq<int>, e: int, n: nat): nat
    requires n <= |evs| == |nexts|
  {
    if n == 0 then 0 else Losses(evs, nexts, e, n - 1) + (if Loses(evs[n - 1], nexts[n - 1], e) then 1 else 0)
  }

  function Switches(evs: seq<Event>, nexts: seq<int>, n: nat): nat
    requires n <= |evs| == |nexts|
  {
    if n == 0 then 0
    else Switches(evs, nexts, n - 1) + (if evs[n - 1].Yield? && nexts[n - 1] != NULL then 1 else 0)
  }

  // A priority p made worse k times, which stops at MIN_PRIORITY - 1.
  function Worsened(p: int, k: nat): int {
    if p >= MIN_PRIORITY - 1 then p else if p + k <= MIN_PRIORITY - 1 then p + k else MIN_PRIORITY - 1
  }

  // Nothing but losing the CPU changes e's priority: nobody sets it, its slot is not given out, and no boost finds it
  // RUNNABLE.
  ghost predicate OnlyLosses(states: seq<State>, evs: seq<Event>, e: int, n: nat)
    requires n <= |evs| < |states| && 0 <= e < NENV
  {
    forall k | 0 <= k < n && Ok(states[k]) ::
      && !(evs[k].SetPrio? && evs[k].e == e) && !(evs[k].Create? && evs[k].e == e)
      && !(evs[k].Yield? && states[k].switches % 10 == 0 && states[k].status[e].ENV_RUNNABLE?)
  }

  /** Between two boosts a priority gets worse by one for every time its environment loses the CPU, down to
      MIN_PRIORITY - 1, and by nothing else. */
  lemma {:induction false} PriorityCounts(states: seq<State>, evs: seq<Event>, nexts: seq<int>, e: int, n: nat)
    requires Run(states, evs, nexts) && n <= |evs| && 0 <= e < NENV && OnlyLosses(states, evs, e, n)
    ensures states[n].prio[e] == Worsened(states[0].prio[e], Losses(evs, nexts, e, n))
  {
    if n > 0 {
      PriorityCounts(states, evs, nexts, e, n - 1);
      assert May(evs[n - 1]) && Step(states[n - 1], evs[n - 1], nexts[n - 1], states[n - 1 + 1]);
    }
  }

  /** An environment starts with priority 0, the best; and what is asked for with set_priority is what it gets. */
  lemma StartsBest(states: seq<State>, evs: seq<Event>, nexts: seq<int>, k: nat)
    requires Run(states, evs, nexts) && k < |evs|
    ensures evs[k].Create? ==> states[k + 1].prio[evs[k].e] == 0 && states[k + 1].status[evs[k].e].ENV_RUNNABLE?
    ensures evs[k].SetPrio? ==> states[k + 1].prio[evs[k].e] == evs[k].p
    ensures evs[k].Create? || evs[k].SetPrio? ==>
              forall i | 0 <= i < NENV && i != evs[k].e :: states[k + 1].prio[i] == states[k].prio[i]
  {
    assert May(evs[k]) && Step(states[k], evs[k], nexts[k], states[k + 1]);
  }

  /** The counter that the boosts go by counts exactly the yields that switch to an environment. */
  lemma {:induction false} SwitchesCounted(states: seq<State>, evs: seq<Event>, nexts: seq<int>, n: nat)
    requires Run(states, evs, nexts) && n <= |evs|
    ensures states[n].switches == states[0].switches + Switches(evs, nexts, n)
  {
    if n > 0 {
      SwitchesCounted(states, evs, nexts, n - 1);
      assert May(evs[n - 1]) && Step(states[n - 1], evs[n - 1], nexts[n - 1], states[n - 1 + 1]);
    }
  }

  lemma {:induction false} PassesEvery(states: seq<State>, evs: seq<Event>, nexts: seq<int>, n: nat, m: nat)
      returns (k: nat)
    requires Run(states, evs, nexts) && n < |states| && states[0].switches <= m < states[n].switches
    ensures k < n && evs[k].Yield? && states[k].switches == m
  {
    assert May(evs[n - 1]) && Step(states[n - 1], evs[n - 1], nexts[n - 1], states[n - 1 + 1]);
    if states[n - 1].switches == m {
      k := n - 1;
    } else {
      k := PassesEvery(states, evs, nexts, n - 1, m);
    }
  }

  /** While ten switches happen, some yield puts every RUNNABLE environment back to priority 0; the one that loses the
      CPU, should it be RUNNABLE itself, is at 1 afterwards. */
  lemma BoostedEveryTen(states: seq<State>, evs: seq<Event>, nexts: seq<int>) returns (k: nat)
    requires Run(states, evs, nexts) && states[|evs|].switches >= states[0].switches + 10
    ensures k < |evs| && evs[k].Yield?
    ensures forall e | 0 <= e < NENV && states[k].status[e].ENV_RUNNABLE? ::
              states[k + 1].prio[e] == if e == evs[k].cur && nexts[k] != NULL then 1 else 0
  {
    var a := states[0].switches;
    var m := (a + 9) / 10 * 10;
    k := PassesEvery(states, evs, nexts, |evs|, m);
    assert m % 10 == 0;
    assert May(evs[k]) && Step(states[k], evs[k], nexts[k], states[k + 1]);
  }
}
