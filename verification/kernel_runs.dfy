/** Whole runs of system calls: what every call does to the pages, which calls lose one, and which break the
    accounting. */
module KernelRuns {
  import opened Mmu
  import opened VmStore
  import opened VmView
  import opened VmSteps
  import opened VmTeardown
  import opened EnvId
  import opened PermBits
  import opened KernelVm
  import opened KernelIpc
  import opened KernelCalls

  /** The reference-count law, spelled out. */
  ghost predicate Accounting(v: View)
    requires v.s.Shape
  {
    && |v.pages| == |v.s.mem|
    && (forall p | Managed(|v.pages|, v.reserved, p) :: v.pages[p].pp_ref == |v.s.Refs(p)|)
    && (forall p: nat | p in v.free ::
          Managed(|v.pages|, v.reserved, p) && v.pages[p].pp_ref == 0 && v.s.Refs(p) == {})
    && (forall i, j | 0 <= i < j < |v.free| :: v.free[i] != v.free[j])
    && (forall r1, r2 | ValidRef(r1) && ValidRef(r2) && !r1.Pte? && v.s.Target(r1) == v.s.Target(r2) != NULL ::
          r1 == r2)
  }

  lemma OkAccounts(v: View)
    requires v.Ok() && v.held == NULL
    ensures Accounting(v)
  {
    forall p | Managed(|v.pages|, v.reserved, p)
      ensures v.pages[p].pp_ref == |v.s.Refs(p)|
    {
      assert CountOk(v.pages[p], v.s, p, NULL);
    }
    forall p: nat | p in v.free
      ensures v.pages[p].pp_ref == 0 && v.s.Refs(p) == {}
    {
      FreeIsUnnamed(v, p);
    }
  }

  lemma ShapedNow(k: Kernel)
    requires k.Valid()
    ensures k.V().s.Shape && |k.envs| == NENV && k.Now().Shaped() && DstOk(k.envs) && k.V().held == NULL
  {
    hide View.Ok;
    hide EnvsOk;
    EnvFacts(k.envs, k.env_free_list, k.efree);
    DstFacts(k.envs, k.env_free_list, k.efree);
    Sizes(k.V());
  }

  // A lost page was free before, so it is a new one.
  lemma FreeNotLost(v: View)
    requires v.s.Shape && v.free != []
    ensures v.free[0] !in v.Lost()
  {
    assert v.Kept(v.free[0]);
  }

  lemma AllocLoses(m: Snapshot, cur: nat, envid: int, va: nat, perm: nat)
    requires Live(m, cur) && DstOk(m.envs)
    ensures LostBy(m, cur, PageAllocCall(envid, va, perm)) ==
            if m.AllocResult(cur, envid, va, perm) == -E_NO_MEM && m.v.free != [] then {m.v.free[0]} else {}
  {
    if va < UTOP {
      UserAddress(va);
    }
  }

  lemma SendLoses(m: Snapshot, v': View, cur: nat, envid: int, value: int, srcva: nat, perm: nat, junk: nat)
    requires Live(m, cur) && DstOk(m.envs) && m.v.s.Shape && v'.s.Shape && Sent(m, v', cur, envid, srcva, perm, junk)
    ensures v'.Lost() == m.v.Lost() + LostBy(m, cur, SendCall(envid, value, srcva, perm, junk))
  {
    hide FlatOf;
    hide AllocFree;
    if Carries(m, cur, envid, srcva, perm, junk) {
      var dst := Envid2Env(m.envs, cur, envid, false);
      UserAddress(srcva);
      UserAddress(m.envs[dst].ipc.dstva);
    }
  }

  /** The step from m to m': the call does its work, and loses a page exactly if Loses says so. */
  ghost predicate Follows(m: Snapshot, cur: nat, call: Call, m': Snapshot)
    requires m.Shaped() && DstOk(m.envs)
  {
    && m'.Shaped() && DstOk(m'.envs) && m'.v.held == NULL && Made(m, cur, call, m')
    && m'.v.Lost() == m.v.Lost() + LostBy(m, cur, call) && (m'.v.Lost() == m.v.Lost() <==> !Loses(m, cur, call))
    && WordsSafe(m, cur, call, m')
  }

  // Allocating and mapping.
  method MapStep(k: Kernel, cur: nat, call: Call)
    requires k.Valid() && k.Caller(cur) && k.Now().Shaped() && DstOk(k.envs)
    requires call.PageAllocCall? || call.PageMapCall?
    modifies k
    ensures Breaks(old(k.Now()), cur, call) <==> !k.V().Ok()
    ensures k.V().Ok() ==> k.Valid() && Follows(old(k.Now()), cur, call, k.Now())
  {
    hide View.Ok;
    hide EnvsOk;
    hide FlatOf;
    hide AllocFree;
    hide InsertFree;
    hide Snapshot.MapKeeps;
    hide Snapshot.MapResult;
    hide Snapshot.AllocResult;
    hide WordsSafe;
    ghost var m := k.Now();
    if m.v.free != [] {
      FreeNotLost(m.v);
    }
    var r;
    match call {
      case PageAllocCall(envid, va, perm) =>
        AllocLoses(m, cur, envid, va, perm);
        r := k.SysPageAlloc(cur, envid, va, perm);
      case PageMapCall(srcid, srcva, dstid, dstva, perm) =>
        r := k.SysPageMap(cur, srcid, srcva, dstid, dstva, perm);
    }
    if k.V().Ok() {
      ShapedNow(k);
      DataSafe(m, cur, call, k.Now());
    }
  }

  method SendStep(k: Kernel, cur: nat, call: Call)
    requires k.Valid() && k.Caller(cur) && k.Now().Shaped() && DstOk(k.envs) && call.SendCall?
    modifies k
    ensures Breaks(old(k.Now()), cur, call) <==> !k.V().Ok()
    ensures k.V().Ok() ==> k.Valid() && Follows(old(k.Now()), cur, call, k.Now())
  {
    hide View.Ok;
    hide EnvsOk;
    hide FlatOf;
    hide Sent;
    hide SendKeeps;
    hide SendResult;
    hide WordsSafe;
    ghost var m := k.Now();
    if m.v.free != [] {
      FreeNotLost(m.v);
    }
    var r := SysIpcTrySend(k, cur, call.envid, call.value, call.srcva, call.perm, call.junk);
    if k.V().Ok() {
      ShapedNow(k);
      SentSafe(m, cur, call, k.Now());
      SendLoses(m, k.V(), cur, call.envid, call.value, call.srcva, call.perm, call.junk);
    }
  }

  // The calls that neither lose a page nor break the law. First those about pages,
  method PageStep(k: Kernel, cur: nat, call: Call)
    requires k.Valid() && k.Caller(cur) && k.Now().Shaped() && DstOk(k.envs) && (call.PageUnmapCall? || call.StoreCall?)
    modifies k
    ensures k.Valid() && Follows(old(k.Now()), cur, call, k.Now())
  {
    hide View.Ok;
    hide EnvsOk;
    hide FlatOf;
    hide WordsSafe;
    ghost var m := k.Now();
    if call.PageUnmapCall? {
      var r := k.SysPageUnmap(cur, call.envid, call.va);
      ShapedNow(k);
      DataSafe(m, cur, call, k.Now());
    } else if call.va < UTOP && call.i < NPTENTRIES {
      var fault := k.UserStore(cur, call.va, call.i, call.w);
      ShapedNow(k);
      if fault {
        DataSafe(m, cur, call, k.Now());
      } else {
        StoreSafe(m, cur, call, k.Now());
      }
    } else {
      DataSafe(m, cur, call, m);
    }
  }

  // then those about environments.
  method EnvStep(k: Kernel, cur: nat, call: Call)
    requires k.Valid() && k.Caller(cur) && k.Now().Shaped() && DstOk(k.envs)
    requires call.ExoforkCall? || call.SetStatusCall? || call.DestroyCall? || call.RecvCall?
    modifies k
    ensures k.Valid() && Follows(old(k.Now()), cur, call, k.Now())
  {
    hide View.Ok;
    hide EnvsOk;
    hide FlatOf;
    hide WordsSafe;
    hide TornDown;
    ghost var m := k.Now();
    var r;
    match call {
      case ExoforkCall =>
        r := k.SysExofork(cur);
      case SetStatusCall(envid, status) =>
        r := k.SysEnvSetStatus(cur, envid, status);
      case DestroyCall(envid) =>
        r := k.SysEnvDestroy(cur, envid);
      case RecvCall(dstva) =>
        r := SysIpcRecv(k, cur, dstva);
    }
    ShapedNow(k);
    if call.DestroyCall? && m.Named(cur, call.envid) >= 0 {
      TornSafe(m, cur, call, k.Now(), m.Named(cur, call.envid));
    } else {
      DataSafe(m, cur, call, k.Now());
    }
  }

  /** Any call by anybody: it breaks the law exactly if Breaks says so, and otherwise Follows. Nobody gets the right to
      write a page by it that nobody could write, unless it is a fresh one, and it touches no stranger's address space.
      */
  method Step(k: Kernel, cur: nat, call: Call)
    requires k.Valid() && k.Now().Shaped() && DstOk(k.envs)
    modifies k
    ensures Breaks(old(k.Now()), cur, call) <==> !k.V().Ok()
    ensures k.V().Ok() ==>
              && k.Valid() && Follows(old(k.Now()), cur, call, k.Now()) && NoNewRights(old(k.Now()), k.Now())
              && (Live(old(k.Now()), cur) ==> Isolated(old(k.Now()), cur, call, k.Now()))
  {
    hide View.Ok;
    hide EnvsOk;
    hide Made;
    hide NoNewRights;
    hide Isolated;
    hide WordsSafe;
    ghost var m := k.Now();
    if cur >= NENV || k.envs[cur].env_status == ENV_FREE {
      StrangerFollows(m, cur, call);
      return;
    }
    if call.PageAllocCall? || call.PageMapCall? {
      MapStep(k, cur, call);
    } else if call.SendCall? {
      SendStep(k, cur, call);
    } else if call.PageUnmapCall? || call.StoreCall? {
      PageStep(k, cur, call);
    } else {
      EnvStep(k, cur, call);
    }
    if k.V().Ok() {
      RightsKept(m, cur, call, k.Now());
      CallIsolated(m, cur, call, k.Now());
    }
  }

  // A call by nobody.
  lemma StrangerFollows(m: Snapshot, cur: nat, call: Call)
    requires m.Shaped() && DstOk(m.envs) && m.v.Ok() && m.v.held == NULL && !Live(m, cur)
    ensures !Breaks(m, cur, call) && Follows(m, cur, call, m) && NoNewRights(m, m)
  {
    DataSafe(m, cur, call, m);
    LessGrants(m, m);
  }

  // --- whole runs ---

  // The calls of a run and the moments before, between and after them: none breaks the law, and each does its work.
  ghost predicate Chain(trace: seq<Snapshot>, calls: seq<(nat, Call)>, n: nat) {
    && |trace| == n + 1 && n <= |calls|
    && (forall i | 0 <= i <= n ::
          trace[i].Shaped() && DstOk(trace[i].envs) && trace[i].v.Ok() && trace[i].v.held == NULL)
    && (forall i | 0 <= i < n ::
          !Breaks(trace[i], calls[i].0, calls[i].1) && Follows(trace[i], calls[i].0, calls[i].1, trace[i + 1]))
  }

  /** The pages lost in a run: those that were first on the free list at the calls that lose one. */
  ghost function LostIn(trace: seq<Snapshot>, calls: seq<(nat, Call)>, n: nat): set<nat>
    requires Chain(trace, calls, n)
  {
    set i | 0 <= i < n && Loses(trace[i], calls[i].0, calls[i].1) :: trace[i].v.free[0]
  }

  lemma {:induction false} LostAdds(trace: seq<Snapshot>, calls: seq<(nat, Call)>, n: nat)
    requires Chain(trace, calls, n)
    ensures trace[n].v.Lost() == trace[0].v.Lost() + LostIn(trace, calls, n)
  {
    hide View.Ok;
    hide Made;
    hide Breaks;
    hide Loses;
    if n > 0 {
      assert forall i | 0 <= i < n :: trace[..n][i] == trace[i];
      LostAdds(trace[..n], calls, n - 1);
      var before, last := LostIn(trace[..n], calls, n - 1), LostBy(trace[n - 1], calls[n - 1].0, calls[n - 1].1);
      assert trace[n].v.Lost() == trace[n - 1].v.Lost() + last;
      assert LostIn(trace, calls, n) == before + last;
    }
  }

  // Somebody could write page p at the start, or it was first on the free list at one of the calls.
  ghost predicate Origin(trace: seq<Snapshot>, n: nat, p: nat)
    requires n < |trace| && trace[0].Shaped()
  {
    || (exists sl :: CanWrite(FlatOf(trace[0].v.s), p, sl))
    || (exists i :: 0 <= i < n && trace[i].v.free != [] && trace[i].v.free[0] == p)
  }

  /** Over whole runs: whoever can write a page at the end, somebody could write it at the start, or it was handed out
      fresh in between. */
  lemma {:induction false} RightsOverRun(trace: seq<Snapshot>, calls: seq<(nat, Call)>, n: nat, m: nat)
    requires Chain(trace, calls, n) && m <= n
    ensures forall p, sl | CanWrite(FlatOf(trace[m].v.s), p, sl) :: Origin(trace, m, p)
  {
    hide View.Ok;
    hide FlatOf;
    hide Breaks;
    hide Made;
    hide Loses;
    hide WordsSafe;
    hide CanWrite;
    if m > 0 {
      RightsOverRun(trace, calls, n, m - 1);
      var i := m - 1;
      assert Follows(trace[i], calls[i].0, calls[i].1, trace[i + 1]);
      RightsKept(trace[i], calls[i].0, calls[i].1, trace[m]);
      forall p, sl | CanWrite(FlatOf(trace[m].v.s), p, sl)
        ensures Origin(trace, m, p)
      {
        assert Grantable(trace[i], p);
        if o :| CanWrite(FlatOf(trace[i].v.s), p, o) {
          assert Origin(trace, i, p);
        }
      }
    }
  }

  /** ... and an address space changes only by calls of its env, of the env's parent, or of one that sends to it. */
  lemma {:induction false} IsolatedOverRun(trace: seq<Snapshot>, calls: seq<(nat, Call)>, n: nat, m: nat, e: nat)
    requires Chain(trace, calls, n) && m <= n && e < NENV
    requires forall i | 0 <= i < m && Live(trace[i], calls[i].0) :: !MayTouch(trace[i], calls[i].0, calls[i].1, e)
    ensures SameSpace(trace[0], trace[m], e)
  {
    hide View.Ok;
    hide FlatOf;
    hide Breaks;
    hide Loses;
    hide WordsSafe;
    hide MayTouch;
    if m > 0 {
      var i := m - 1;
      IsolatedOverRun(trace, calls, n, i, e);
      assert Follows(trace[i], calls[i].0, calls[i].1, trace[i + 1]);
      if Live(trace[i], calls[i].0) {
        hide Made;
        CallIsolated(trace[i], calls[i].0, calls[i].1, trace[m]);
      }
    }
  }

  /** A page that nobody can write keeps its words as long as it stays mapped somewhere, whatever calls are made. */
  lemma {:induction false} ReadOnlyStays(trace: seq<Snapshot>, calls: seq<(nat, Call)>, n: nat, m: nat, p: nat,
                                         sl: Slot)
    requires Chain(trace, calls, n) && m <= n
    requires forall o :: !CanWrite(FlatOf(trace[0].v.s), p, o)
    requires forall i | 0 <= i <= m :: sl in FlatOf(trace[i].v.s) && FlatOf(trace[i].v.s)[sl].page == p
    ensures p < |trace[0].v.s.mem| && p < |trace[m].v.s.mem| && trace[m].v.s.mem[p] == trace[0].v.s.mem[p]
  {
    hide FlatOf;
    hide Breaks;
    hide Made;
    hide Loses;
    hide View.Ok;
    if m == 0 {
      MappedPage(trace[0].v, sl);
    } else {
      var i := m - 1;
      ReadOnlyStays(trace, calls, n, i, p, sl);
      RightsOverRun(trace, calls, n, i);
      forall j | 0 <= j < i
        ensures trace[j].v.free == [] || trace[j].v.free[0] != p
      {
        MappedPage(trace[j].v, sl);
      }
      assert !Origin(trace, i, p);
      assert Follows(trace[i], calls[i].0, calls[i].1, trace[i + 1]);
      assert Stays(trace[i], trace[m], sl);
    }
  }

  lemma MappedPage(v: View, sl: Slot)
    requires v.Ok() && sl in FlatOf(v.s)
    ensures FlatOf(v.s)[sl].page < |v.s.mem| && FlatOf(v.s)[sl].page !in v.free
  {
    MappedIsData(v, Pte(sl.e, sl.vpn / 1024, sl.vpn % 1024));
  }

  lemma ChainStep(trace: seq<Snapshot>, calls: seq<(nat, Call)>, n: nat, m: Snapshot)
    requires Chain(trace, calls, n) && n < |calls| && m.Shaped() && DstOk(m.envs) && m.v.Ok() && m.v.held == NULL
    requires !Breaks(trace[n], calls[n].0, calls[n].1) && Follows(trace[n], calls[n].0, calls[n].1, m)
    ensures Chain(trace + [m], calls, n + 1)
  {
    hide View.Ok;
    hide Follows;
    hide Breaks;
    assert forall i | 0 <= i <= n :: (trace + [m])[i] == trace[i];
  }

  /** Every sequence of calls by any envs, up to the first one that breaks the law: after every call counts equal
      references, free pages are unreferenced and the free list has no duplicate, and the pages lost are exactly those
      that were first on the free list at the calls that lose one. A run that stops early has made a call that Breaks
      singles out, and the law does not hold after it. */
  method Run(k: Kernel, calls: seq<(nat, Call)>) returns (n: nat, ghost trace: seq<Snapshot>)
    requires k.Valid()
    modifies k
    ensures Chain(trace, calls, n) && trace[0] == old(k.Now())
    ensures forall i | 0 <= i <= n :: Accounting(trace[i].v)
    ensures trace[n].v.Lost() == trace[0].v.Lost() + LostIn(trace, calls, n)
    ensures n == |calls| ==> k.Valid() && trace[n] == k.Now()
    ensures n < |calls| ==> Breaks(trace[n], calls[n].0, calls[n].1) && !k.V().Ok()
  {
    hide View.Ok;
    hide EnvsOk;
    hide Follows;
    hide Breaks;
    hide Loses;
    n := 0;
    ShapedNow(k);
    trace := [k.Now()];
    while n < |calls|
      invariant k.Valid() && Chain(trace, calls, n) && trace[0] == old(k.Now()) && trace[n] == k.Now()
    {
      var breaks := Decide(k, calls[n].0, calls[n].1);
      Step(k, calls[n].0, calls[n].1);
      if breaks {
        break;
      }
      ShapedNow(k);
      ChainStep(trace, calls, n, k.Now());
      trace := trace + [k.Now()];
      n := n + 1;
    }
    LostAdds(trace, calls, n);
    forall i | 0 <= i <= n
      ensures Accounting(trace[i].v)
    {
      OkAccounts(trace[i].v);
    }
  }

  method Decide(k: Kernel, cur: nat, call: Call) returns (b: bool)
    requires k.Valid() && k.Now().Shaped() && DstOk(k.envs)
    ensures b == Breaks(k.Now(), cur, call)
  {
    if cur >= NENV || k.envs[cur].env_status == ENV_FREE {
      return false;
    }
    match call {
      case PageMapCall(srcid, srcva, dstid, dstva, perm) =>
        b := MapBreaks(k, cur, srcid, srcva, dstid, dstva, perm);
      case SendCall(envid, value, srcva, perm, junk) =>
        b := SendBreaks(k, cur, envid, srcva, perm, junk);
      case _ =>
        b := false;
    }
  }

  // The page env_page_map would share, or NULL for an error.
  method MapSource(k: Kernel, src: nat, srcva: nat, perm: nat) returns (page: int)
    requires k.Valid() && k.Now().Shaped() && k.UserVa(src, srcva)
    ensures page == if k.Now().EnvMapError(src, srcva, perm) == 0 then k.V().s.Target(RefOf(src, srcva)) else NULL
    ensures page != NULL ==> 0 <= page < |k.pages|
  {
    hide View.Ok;
    hide EnvsOk;
    hide FlatOf;
    var pte;
    page, pte := k.PageLookup(src, srcva);
    if page != NULL && Writable(perm) && !Writable(k.mem[pte.page][pte.idx]) {
      return NULL;
    }
  }

  /** Decides, from the tables and counts before it, whether a map call will break the law. */
  method MapBreaks(k: Kernel, cur: nat, srcid: int, srcva: nat, dstid: int, dstva: nat, perm: nat) returns (b: bool)
    requires k.Valid() && k.Caller(cur) && k.Now().Shaped()
    ensures b <==>
            k.Now().MapResult(cur, srcid, srcva, dstid, dstva, perm) == 0 &&
            !k.Now().MapKeeps(cur, srcid, srcva, dstid, dstva, perm)
  {
    hide View.Ok;
    hide EnvsOk;
    hide FlatOf;
    hide Within;
    if !PageVa(srcva) || !PageVa(dstva) {
      return false;
    }
    var src, dst := Envid2Env(k.envs, cur, srcid, true), Envid2Env(k.envs, cur, dstid, true);
    if src == NULL || dst == NULL {
      return false;
    }
    LiveAddress(k, src, srcva);
    LiveAddress(k, dst, dstva);
    var page := MapSource(k, src, srcva, WithUP(perm));
    if page == NULL {
      return false;
    }
    ListHead(k.V());
    var cell := k.PgdirWalk(dst, dstva, false);
    if k.page_free_list == NULL && cell.NullPte? {
      return false;
    }
    var there, _ := k.PageLookup(dst, dstva);
    return (k.pages[page].pp_ref >= 0xffff && there != page) || !Within(perm / PGSIZE, page);
  }

  lemma OnePage(v: View)
    requires v.Ok() && v.free != []
    ensures 0 <= v.head < |v.pages| && (v.pages[v.head].pp_link == NULL <==> |v.free| == 1)
  {
    assert v.pages[v.free[0]].pp_link == Next(v.free, 0);
  }

  // The test that page_alloc and page_insert will come to.
  method RoomFor(k: Kernel, e: nat, va: nat) returns (room: bool)
    requires k.Valid() && k.Now().Shaped() && k.UserVa(e, va)
    ensures room == !k.Now().NoRoom(e, va)
  {
    hide View.Ok;
    hide EnvsOk;
    hide FlatOf;
    UserAddress(va);
    ListHead(k.V());
    if k.page_free_list == NULL {
      return false;
    }
    OnePage(k.V());
    var cell := k.PgdirWalk(e, va, false);
    return !(k.pages[k.page_free_list].pp_link == NULL && cell.NullPte?);
  }

  /** ... and whether a message will. */
  method SendBreaks(k: Kernel, cur: nat, envid: int, srcva: nat, perm: nat, junk: nat) returns (b: bool)
    requires k.Valid() && k.Caller(cur) && k.Now().Shaped() && DstOk(k.envs)
    ensures b <==> !SendKeeps(k.Now(), cur, envid, srcva, perm, junk)
  {
    hide View.Ok;
    hide EnvsOk;
    hide FlatOf;
    var r := CheckSend(k, cur, envid, srcva, perm, junk);
    if r != 0 || srcva >= UTOP {
      return false;
    }
    var dst := Envid2Env(k.envs, cur, envid, false);
    var dstva := k.envs[dst].ipc.dstva;
    if dstva == 0 || !GoodPerm(WithUP(perm)) || SamePlace(cur, srcva, dst, dstva) {
      return false;
    }
    LiveAddress(k, cur, srcva);
    LiveAddress(k, dst, dstva);
    UPKeepsWrite(perm);
    var room := RoomFor(k, dst, dstva);
    var page, _ := k.PageLookup(cur, srcva);
    if !room || page == NULL {
      return false;
    }
    var there, _ := k.PageLookup(dst, dstva);
    return k.pages[page].pp_ref >= 0xffff && there != page;
  }
}
