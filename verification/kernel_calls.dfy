/** The calls an env can make, what each does to the machine, and what none can do: make a page writable for anybody
    that nobody could write, touch the address space of an unrelated env, or change the words of a page. */
module KernelCalls {
  import opened Mmu
  import opened VmStore
  import opened VmView
  import opened VmSteps
  import opened VmTeardown
  import opened EnvId
  import opened PermBits
  import opened KernelVm
  import opened KernelIpc

  /** What one env asks of the kernel, or does to its own memory. */
  datatype Call =
    | PageAllocCall(envid: int, va: nat, perm: nat)
    | PageMapCall(srcid: int, srcva: nat, dstid: int, dstva: nat, perm: nat)
    | PageUnmapCall(envid: int, va: nat)
    | ExoforkCall
    | SetStatusCall(envid: int, status: EnvStatus)
    | DestroyCall(envid: int)
    | RecvCall(dstva: nat)
    | SendCall(envid: int, value: int, srcva: nat, perm: nat, junk: nat)
    | StoreCall(va: nat, i: nat, w: nat)

  // A call counts only if its maker is allocated.
  ghost predicate Live(m: Snapshot, cur: nat) { m.Shaped() && cur < NENV && m.envs[cur].env_status != ENV_FREE }

  // A call that succeeds and breaks the law: a page with a full count is mapped once more, by sys_page_map or with a
  // message, or sys_page_map gets a perm that names another page.
  ghost predicate Breaks(m: Snapshot, cur: nat, call: Call)
    requires m.Shaped() && DstOk(m.envs)
  {
    && Live(m, cur)
    && match call
       case PageMapCall(srcid, srcva, dstid, dstva, perm) =>
         m.MapResult(cur, srcid, srcva, dstid, dstva, perm) == 0 &&
         !m.MapKeeps(cur, srcid, srcva, dstid, dstva, perm)
       case SendCall(envid, _, srcva, perm, junk) => !SendKeeps(m, cur, envid, srcva, perm, junk)
       case _ => false
  }

  // One page is free, and address va of e has no table.
  ghost predicate LastPage(m: Snapshot, e: nat, va: nat)
    requires m.Shaped()
  {
    |m.v.free| == 1 && va < UTOP && ValidRef(RefOf(e, va)) && m.v.s.PdeAt(e, PDX(va)) == 0
  }

  // A call that loses a page: an allocation, or a message with a page, whose arguments are good, that finds one page
  // and needs two.
  ghost predicate Loses(m: Snapshot, cur: nat, call: Call)
    requires m.Shaped() && DstOk(m.envs)
  {
    && Live(m, cur)
    && match call
       case PageAllocCall(envid, va, perm) =>
         PageVa(va) && m.Named(cur, envid) >= 0 && GoodPerm(WithUP(perm)) && LastPage(m, m.Named(cur, envid), va)
       case SendCall(envid, _, srcva, perm, junk) =>
         && Carries(m, cur, envid, srcva, perm, junk) && GoodPerm(WithUP(perm))
         && var dst := Envid2Env(m.envs, cur, envid, false); LastPage(m, dst, m.envs[dst].ipc.dstva)
       case _ => false
  }

  ghost function LostBy(m: Snapshot, cur: nat, call: Call): set<nat>
    requires m.Shaped() && DstOk(m.envs)
  {
    if Loses(m, cur, call) then {m.v.free[0]} else {}
  }

  // The first free page becomes the directory of a fresh env.
  ghost predicate Forked(m: Snapshot, cur: nat, m': Snapshot)
    requires m.Shaped() && m'.Shaped() && cur < NENV
  {
    && m.v.free != [] && FlatOf(m'.v.s) == FlatOf(m.v.s) && m'.v.free == m.v.free[1..]
    && exists e: nat ::
         && e < NENV && m.envs[e].env_status == ENV_FREE && m'.envs == m.envs[e := m'.envs[e]]
         && m'.envs[e].env_status == ENV_NOT_RUNNABLE && m'.envs[e].env_pgdir == m.v.free[0]
         && m'.envs[e].env_parent_id == m.envs[cur].env_id && !m'.envs[e].ipc.recving
  }

  /** What a call that does not break the law does to the flat map, the free list and the env table. */
  ghost predicate Made(m: Snapshot, cur: nat, call: Call, m': Snapshot)
    requires m.Shaped() && m'.Shaped() && DstOk(m.envs)
  {
    if !Live(m, cur) then m' == m
    else match call
      case PageAllocCall(envid, va, perm) =>
        var r := m.AllocResult(cur, envid, va, perm);
        && m'.envs == m.envs
        && if r == 0 && m.v.free != [] then
             var at := m.At(cur, envid, va);
             && FlatOf(m'.v.s) == FlatOf(m.v.s)[SlotOfRef(at) := Entry(m.v.free[0], WithUP(perm))]
             && m'.v.free == AllocFree(m.v, at)
           else FlatOf(m'.v.s) == FlatOf(m.v.s) && m'.v.free == if r == -E_NO_MEM then [] else m.v.free
      case PageMapCall(srcid, srcva, dstid, dstva, perm) =>
        if m.MapResult(cur, srcid, srcva, dstid, dstva, perm) != 0 then m' == m
        else
          var p, at := m.v.s.Target(m.At(cur, srcid, srcva)), m.At(cur, dstid, dstva);
          && m'.envs == m.envs && p >= 0 && m'.v.free == InsertFree(m.v, at, p)
          && FlatOf(m'.v.s) == FlatOf(m.v.s)[SlotOfRef(at) := Entry(p, WithUP(perm) % PGSIZE)]
      case PageUnmapCall(envid, va) =>
        if !PageVa(va) || m.Named(cur, envid) == NULL then m' == m
        else
          var at := m.At(cur, envid, va);
          && m'.envs == m.envs && FlatOf(m'.v.s) == FlatOf(m.v.s) - {SlotOfRef(at)}
          && m'.v.free == Freed(m.v, at) + m.v.free
      case ExoforkCall => m' == m || Forked(m, cur, m')
      case SetStatusCall(envid, status) =>
        var e := m.Named(cur, envid);
        m' == if e == NULL || (status != ENV_RUNNABLE && status != ENV_NOT_RUNNABLE) then m
              else m.(envs := m.envs[e := m.envs[e].(env_status := status)])
      case DestroyCall(envid) =>
        var e := m.Named(cur, envid);
        if e == NULL then m' == m
        else TornDown(m.v, m'.v, e) && forall i | 0 <= i < NENV && i != e :: m'.envs[i] == m.envs[i]
      case RecvCall(dstva) => m'.v == m.v && m'.envs == m.envs[cur := m'.envs[cur]] && m'.envs[cur].ipc.recving
      case SendCall(envid, value, srcva, perm, junk) =>
        && Sent(m, m'.v, cur, envid, srcva, perm, junk)
        && if SendResult(m, cur, envid, srcva, perm, junk) != 0 then m'.envs == m.envs
           else
             var dst := Envid2Env(m.envs, cur, envid, false);
             dst >= 0 && m'.envs == m.envs[dst := Delivered(m.envs[dst], m.envs[cur].env_id, value, srcva, perm)]
      case StoreCall(_, _, _) => m'.envs == m.envs && FlatOf(m'.v.s) == FlatOf(m.v.s) && m'.v.free == m.v.free
  }

  // --- nobody gets more rights ---

  predicate CanWrite(f: Flat, p: nat, sl: Slot) { sl in f && Writable(f[sl].perm) && f[sl].page == p }

  // Page p may be written at some address of some env, or is the first free page.
  ghost predicate Grantable(m: Snapshot, p: nat)
    requires m.Shaped()
  {
    (exists sl :: CanWrite(FlatOf(m.v.s), p, sl)) || (m.v.free != [] && p == m.v.free[0])
  }

  // Whoever can write a page afterwards, somebody could write it before, or it is a fresh one.
  ghost predicate NoNewRights(m: Snapshot, m': Snapshot)
    requires m.Shaped() && m'.Shaped()
  {
    forall p, sl | CanWrite(FlatOf(m'.v.s), p, sl) :: Grantable(m, p)
  }

  lemma LowWritable(perm: nat)
    ensures Writable(perm % PGSIZE) == Writable(perm)
  {
    assert perm == 4 * (1024 * (perm / PGSIZE)) + perm % PGSIZE;
    assert perm % 4 == perm % PGSIZE % 4;
    BitsFromMod4(perm);
    BitsFromMod4(perm % PGSIZE);
  }

  // What env_page_map lets pass.
  lemma MapGrants(m: Snapshot, src: nat, srcva: nat, perm: nat)
    requires m.Shaped() && ValidRef(RefOf(src, srcva)) && m.EnvMapError(src, srcva, perm) == 0 && Writable(perm)
    ensures m.v.s.Target(RefOf(src, srcva)) >= 0 && Grantable(m, m.v.s.Target(RefOf(src, srcva)))
  {
    var r := RefOf(src, srcva);
    WordOfFlat(m.v.s, r);
    EntryBits(FlatOf(m.v.s)[SlotOfRef(r)].page, FlatOf(m.v.s)[SlotOfRef(r)].perm);
    assert CanWrite(FlatOf(m.v.s), m.v.s.Target(r), SlotOfRef(r));
  }

  // One entry changes.
  lemma SetGrants(m: Snapshot, m': Snapshot, sl: Slot, en: Entry)
    requires m.Shaped() && m'.Shaped() && FlatOf(m'.v.s) == FlatOf(m.v.s)[sl := en]
    requires Writable(en.perm) ==> Grantable(m, en.page)
    ensures NoNewRights(m, m')
  {
    hide FlatOf;
    forall p, o | CanWrite(FlatOf(m'.v.s), p, o)
      ensures Grantable(m, p)
    {
      assert o != sl ==> CanWrite(FlatOf(m.v.s), p, o);
    }
  }

  lemma LessGrants(m: Snapshot, m': Snapshot)
    requires m.Shaped() && m'.Shaped()
    requires forall sl | sl in FlatOf(m'.v.s) :: sl in FlatOf(m.v.s) && FlatOf(m'.v.s)[sl] == FlatOf(m.v.s)[sl]
    ensures NoNewRights(m, m')
  {
    hide FlatOf;
    forall p, o | CanWrite(FlatOf(m'.v.s), p, o)
      ensures Grantable(m, p)
    {
      assert CanWrite(FlatOf(m.v.s), p, o);
    }
  }

  lemma TransferGrants(m: Snapshot, m': Snapshot, cur: nat, srcva: nat, dst: nat, dstva: nat, perm: nat)
    requires m.Shaped() && m'.Shaped() && ValidRef(RefOf(cur, srcva)) && ValidRef(RefOf(dst, dstva))
    requires Transferred(m, m'.v, cur, srcva, dst, dstva, perm)
    ensures NoNewRights(m, m')
  {
    hide FlatOf;
    hide AllocFree;
    hide WordsKept;
    var p := Arrives(m, cur, srcva, dst, dstva, perm);
    if p == NULL {
      LessGrants(m, m');
    } else {
      if p != m.v.free[0] && Writable(perm) {
        MapGrants(m, cur, srcva, perm);
      }
      SetGrants(m, m', SlotOfRef(RefOf(dst, dstva)), Entry(p, perm));
    }
  }

  /** No call makes a page writable for anybody that nobody could write before, unless it is fresh from the free list:
      not by mapping a read-only page again, to oneself or a child, and not by sending it. */
  lemma RightsKept(m: Snapshot, cur: nat, call: Call, m': Snapshot)
    requires m.Shaped() && m'.Shaped() && DstOk(m.envs) && Made(m, cur, call, m')
    ensures NoNewRights(m, m')
  {
    hide FlatOf;
    hide AllocFree;
    hide InsertFree;
    hide NoNewRights;
    hide Transferred;
    if !Live(m, cur) {
      LessGrants(m, m');
      return;
    }
    match call {
      case PageAllocCall(envid, va, perm) =>
        if m.AllocResult(cur, envid, va, perm) == 0 && m.v.free != [] {
          SetGrants(m, m', SlotOfRef(m.At(cur, envid, va)), Entry(m.v.free[0], WithUP(perm)));
        } else {
          LessGrants(m, m');
        }
      case PageMapCall(srcid, srcva, dstid, dstva, perm) =>
        if m.MapResult(cur, srcid, srcva, dstid, dstva, perm) == 0 {
          UserAddress(srcva);
          LowWritable(WithUP(perm));
          var p := m.v.s.Target(m.At(cur, srcid, srcva));
          if Writable(WithUP(perm)) {
            MapGrants(m, m.Named(cur, srcid), srcva, WithUP(perm));
          }
          SetGrants(m, m', SlotOfRef(m.At(cur, dstid, dstva)), Entry(p, WithUP(perm) % PGSIZE));
        } else {
          LessGrants(m, m');
        }
      case SendCall(envid, _, srcva, perm, junk) =>
        if Carries(m, cur, envid, srcva, perm, junk) {
          var dst := Envid2Env(m.envs, cur, envid, false);
          UserAddress(srcva);
          UserAddress(m.envs[dst].ipc.dstva);
          TransferGrants(m, m', cur, srcva, dst, m.envs[dst].ipc.dstva, WithUP(perm));
        } else {
          LessGrants(m, m');
        }
      case _ => LessGrants(m, m');
    }
  }

  // --- nobody meddles with strangers ---

  // Whose address space and table entry a call of cur's may change: its own, its children's, and that of an env it
  // sends to while that is receiving.
  ghost predicate MayTouch(m: Snapshot, cur: nat, call: Call, e: nat)
    requires m.Shaped() && cur < NENV && e < NENV
  {
    || e == cur || (m.envs[e].env_status != ENV_FREE && m.envs[e].env_parent_id == m.envs[cur].env_id)
    || (call.SendCall? && m.envs[e].ipc.recving && m.envs[e].env_id == call.envid)
  }

  ghost predicate SameSpace(m: Snapshot, m': Snapshot, e: nat)
    requires m.Shaped() && m'.Shaped() && e < NENV
  {
    && (forall sl: Slot | sl.e == e :: sl in FlatOf(m'.v.s) <==> sl in FlatOf(m.v.s))
    && (forall sl: Slot | sl.e == e && sl in FlatOf(m.v.s) :: FlatOf(m'.v.s)[sl] == FlatOf(m.v.s)[sl])
  }

  // Everybody else's.
  ghost predicate Isolated(m: Snapshot, cur: nat, call: Call, m': Snapshot)
    requires m.Shaped() && m'.Shaped() && cur < NENV
  {
    forall e: nat | e < NENV && !MayTouch(m, cur, call, e) ::
      SameSpace(m, m', e) && (m'.envs[e] == m.envs[e] || (call.ExoforkCall? && m.envs[e].env_status == ENV_FREE))
  }

  lemma NamedIsOwn(m: Snapshot, cur: nat, envid: int, call: Call)
    requires m.Shaped() && cur < NENV && m.Named(cur, envid) >= 0
    ensures m.Named(cur, envid) < NENV && MayTouch(m, cur, call, m.Named(cur, envid))
  {
  }

  /** A call changes no address space, and no entry of the env table, but the caller's, its children's, and that of the
      receiver of a message. */
  lemma CallIsolated(m: Snapshot, cur: nat, call: Call, m': Snapshot)
    requires m.Shaped() && m'.Shaped() && DstOk(m.envs) && Live(m, cur) && Made(m, cur, call, m')
    ensures Isolated(m, cur, call, m')
  {
    hide FlatOf;
    hide AllocFree;
    hide InsertFree;
    hide WordsKept;
    hide View.Ok;
    match call {
      case PageAllocCall(envid, va, perm) =>
        if m.Named(cur, envid) >= 0 {
          NamedIsOwn(m, cur, envid, call);
        }
      case PageMapCall(_, _, dstid, _, _) =>
        if m.Named(cur, dstid) >= 0 {
          NamedIsOwn(m, cur, dstid, call);
        }
      case PageUnmapCall(envid, va) =>
        if m.Named(cur, envid) >= 0 {
          NamedIsOwn(m, cur, envid, call);
        }
      case SetStatusCall(envid, _) =>
        if m.Named(cur, envid) >= 0 {
          NamedIsOwn(m, cur, envid, call);
        }
      case DestroyCall(envid) =>
        if m.Named(cur, envid) >= 0 {
          NamedIsOwn(m, cur, envid, call);
        }
      case SendCall(envid, value, srcva, perm, junk) =>
        SendIsolated(m, cur, call, m');
      case _ =>
    }
  }

  lemma SendIsolated(m: Snapshot, cur: nat, call: Call, m': Snapshot)
    requires m.Shaped() && m'.Shaped() && DstOk(m.envs) && Live(m, cur) && call.SendCall? && Made(m, cur, call, m')
    ensures Isolated(m, cur, call, m')
  {
    hide FlatOf;
    hide AllocFree;
    hide WordsKept;
    var dst := Envid2Env(m.envs, cur, call.envid, false);
    if dst >= 0 {
      assert m.envs[dst].ipc.recving ==> MayTouch(m, cur, call, dst);
      if Carries(m, cur, call.envid, call.srcva, call.perm, call.junk) {
        UserAddress(call.srcva);
        UserAddress(m.envs[dst].ipc.dstva);
      }
    }
  }

  // --- nobody changes words but by a store ---

  /** A page that stays mapped at some address keeps its words, unless the call is a store of the caller's to an address
      where it may write that page; then one word changes. */
  ghost predicate WordsSafe(m: Snapshot, cur: nat, call: Call, m': Snapshot)
    requires m.Shaped() && m'.Shaped()
  {
    forall sl | Stays(m, m', sl) :: WordSafe(m.v, cur, call, m'.v, FlatOf(m.v.s)[sl].page)
  }

  ghost predicate Stays(m: Snapshot, m': Snapshot, sl: Slot)
    requires m.Shaped() && m'.Shaped()
  {
    sl in FlatOf(m.v.s) && sl in FlatOf(m'.v.s) && FlatOf(m'.v.s)[sl].page == FlatOf(m.v.s)[sl].page
  }

  ghost predicate WordSafe(v: View, cur: nat, call: Call, v': View, p: nat)
    requires v.s.Shape
  {
    && p < |v.s.mem| && p < |v'.s.mem|
    && (v'.s.mem[p] == v.s.mem[p] ||
        (call.StoreCall? && CanWrite(FlatOf(v.s), p, SlotOf(cur, call.va)) && call.i < |v.s.mem[p]| &&
         v'.s.mem[p] == v.s.mem[p][call.i := call.w]))
  }

  lemma AllSafe(m: Snapshot, cur: nat, call: Call, m': Snapshot)
    requires m.Shaped() && m'.Shaped() && AllWords(m.v, m'.v)
    ensures WordsSafe(m, cur, call, m')
  {
    hide FlatOf;
  }

  lemma DataSafe(m: Snapshot, cur: nat, call: Call, m': Snapshot)
    requires m.Shaped() && m'.Shaped() && m.v.Ok() && |m'.v.s.mem| == |m.v.s.mem| && DataKept(m.v, m'.v)
    ensures WordsSafe(m, cur, call, m')
  {
    hide FlatOf;
    hide View.Ok;
    DataWords(m.v, m'.v, Slot(0, 0));
    AllSafe(m, cur, call, m');
  }

  lemma TornSafe(m: Snapshot, cur: nat, call: Call, m': Snapshot, e: nat)
    requires m.Shaped() && m'.Shaped() && m.v.Ok() && m'.v.Ok() && TornDown(m.v, m'.v, e)
    ensures WordsSafe(m, cur, call, m')
  {
    forall sl | Stays(m, m', sl)
      ensures WordSafe(m.v, cur, call, m'.v, FlatOf(m.v.s)[sl].page)
    {
      MappedIsData(m.v, Pte(sl.e, sl.vpn / 1024, sl.vpn % 1024));
      MappedIsData(m'.v, Pte(sl.e, sl.vpn / 1024, sl.vpn % 1024));
    }
  }

  lemma StoreSafe(m: Snapshot, cur: nat, call: Call, m': Snapshot)
    requires m.Shaped() && m'.Shaped() && m.v.Ok() && call.StoreCall? && SlotOf(cur, call.va) in FlatOf(m.v.s)
    requires var en := FlatOf(m.v.s)[SlotOf(cur, call.va)];
             && Writable(en.perm) && en.page < |m.v.s.mem| && call.i < |m.v.s.mem[en.page]|
             && m'.v.s.mem == Poke(m.v.s.mem, en.page, call.i, call.w)
    ensures WordsSafe(m, cur, call, m')
  {
    forall sl | Stays(m, m', sl)
      ensures WordSafe(m.v, cur, call, m'.v, FlatOf(m.v.s)[sl].page)
    {
      MappedIsData(m.v, Pte(sl.e, sl.vpn / 1024, sl.vpn % 1024));
      var p := FlatOf(m.v.s)[SlotOf(cur, call.va)].page;
      assert m'.v.s.mem[p] == m.v.s.mem[p][call.i := call.w];
    }
  }

  lemma SentSafe(m: Snapshot, cur: nat, call: Call, m': Snapshot)
    requires m.Shaped() && m'.Shaped() && m.v.Ok() && DstOk(m.envs) && cur < NENV && call.SendCall?
    requires Sent(m, m'.v, cur, call.envid, call.srcva, call.perm, call.junk)
    ensures WordsSafe(m, cur, call, m')
  {
    hide AllocFree;
    hide View.Ok;
    if !Carries(m, cur, call.envid, call.srcva, call.perm, call.junk) {
      DataSafe(m, cur, call, m');
    } else {
      var dst := Envid2Env(m.envs, cur, call.envid, false);
      UserAddress(call.srcva);
      UserAddress(m.envs[dst].ipc.dstva);
      TransferSafe(m, cur, call, m', dst, m.envs[dst].ipc.dstva, WithUP(call.perm));
    }
  }

  lemma TransferSafe(m: Snapshot, cur: nat, call: Call, m': Snapshot, dst: nat, dstva: nat, perm: nat)
    requires m.Shaped() && m'.Shaped() && m.v.Ok() && call.SendCall?
    requires ValidRef(RefOf(cur, call.srcva)) && ValidRef(RefOf(dst, dstva))
    requires Transferred(m, m'.v, cur, call.srcva, dst, dstva, perm)
    ensures WordsSafe(m, cur, call, m')
  {
    hide FlatOf;
    hide AllocFree;
    var p, a, b := Arrives(m, cur, call.srcva, dst, dstva, perm), RefOf(cur, call.srcva), RefOf(dst, dstva);
    if p == NULL {
      AllSafe(m, cur, call, m');
    } else {
      forall sl | Stays(m, m', sl)
        ensures WordSafe(m.v, cur, call, m'.v, FlatOf(m.v.s)[sl].page)
      {
        if sl == SlotOfRef(b) {
          SlotsDiffer(a, b);
          WordOfFlat(m.v.s, a);
          WordOfFlat(m.v.s, b);
          MappedIsData(m.v, b);
        }
      }
    }
  }
}
