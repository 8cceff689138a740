/** sys_ipc_try_send and sys_ipc_recv of kern/syscall.c on the kernel object, with the transfer of a page. */
module KernelIpc {
  import opened Mmu
  import opened VmStore
  import opened VmView
  import opened VmSteps
  import opened EnvId
  import opened PermBits
  import opened KernelVm

  // --- what the flat map says of single references ---

  lemma SlotBack(r: Ref)
    requires ValidRef(r) && r.Pte?
    ensures ValidSlot(SlotOfRef(r)) && SlotOfRef(r).vpn / 1024 == r.x && SlotOfRef(r).vpn % 1024 == r.t
  {
  }

  // An entry is the word the flat map gives, or 0.
  lemma WordOfFlat(s: Store, r: Ref)
    requires s.Shape && ValidRef(r) && r.Pte?
    ensures var f, sl := FlatOf(s), SlotOfRef(r);
            && (sl in f <==> s.PteAt(r.e, r.x, r.t) != 0)
            && (sl in f ==>
                  f[sl].perm < PGSIZE && s.PteAt(r.e, r.x, r.t) == MkEntry(f[sl].page, f[sl].perm) &&
                  s.Target(r) == f[sl].page)
            && (sl !in f ==> s.Target(r) == NULL)
  {
    SlotBack(r);
  }

  // The references to a mapped page are exactly the entries that map it.
  lemma RefIffMapped(v: View, r0: Ref, r: Ref)
    requires v.Ok() && ValidRef(r0) && r0.Pte? && v.s.Target(r0) >= 0
    ensures var f, q := FlatOf(v.s), v.s.Target(r0);
            r in v.s.Refs(q) <==> ValidRef(r) && r.Pte? && SlotOfRef(r) in f && f[SlotOfRef(r)].page == q
  {
    if ValidRef(r) && r.Pte? {
      WordOfFlat(v.s, r);
    }
  }

  lemma SlotsDiffer(a: Ref, b: Ref)
    requires ValidRef(a) && ValidRef(b) && a.Pte? && b.Pte?
    ensures SlotOfRef(a) == SlotOfRef(b) <==> a == b
  {
    SlotBack(a);
    SlotBack(b);
  }

  // Entry b gets page f: any other entry stays.
  lemma EntrySame(s: Store, s': Store, a: Ref, b: Ref, en: Entry)
    requires s.Shape && s'.Shape && ValidRef(a) && ValidRef(b) && a.Pte? && b.Pte? && a != b
    requires FlatOf(s') == FlatOf(s)[SlotOfRef(b) := en]
    ensures s'.Target(a) == s.Target(a) && s'.PteAt(a.e, a.x, a.t) == s.PteAt(a.e, a.x, a.t)
  {
    hide FlatOf;
    WordOfFlat(s, a);
    WordOfFlat(s', a);
    SlotsDiffer(a, b);
  }

  // A page that is mapped at a, and is not the one b gets, has lost at most the reference b.
  lemma RefsAfterMap(v: View, v': View, a: Ref, b: Ref, en: Entry)
    requires v.Ok() && v'.Ok() && ValidRef(a) && ValidRef(b) && a.Pte? && b.Pte? && a != b && v.s.Target(a) >= 0
    requires FlatOf(v'.s) == FlatOf(v.s)[SlotOfRef(b) := en] && v.s.Target(a) != en.page
    ensures v'.s.Target(a) == v.s.Target(a) && v'.s.Refs(v.s.Target(a)) == v.s.Refs(v.s.Target(a)) - {b}
  {
    hide View.Ok;
    hide FlatOf;
    Sizes(v);
    Sizes(v');
    EntrySame(v.s, v'.s, a, b, en);
    var q := v.s.Target(a);
    forall r
      ensures r in v'.s.Refs(q) <==> r in v.s.Refs(q) && r != b
    {
      RefIffMapped(v, a, r);
      RefIffMapped(v', a, r);
      if ValidRef(r) && r.Pte? {
        SlotsDiffer(r, b);
      }
    }
  }

  lemma FreshRef(v: View, v': View, b: Ref, f: nat, perm: nat)
    requires v.Ok() && v'.Ok() && ValidRef(b) && b.Pte? && f in v.free
    requires FlatOf(v'.s) == FlatOf(v.s)[SlotOfRef(b) := Entry(f, perm)]
    ensures v'.s.Target(b) == f && v'.s.Refs(f) == {b} && v'.s.PdeAt(b.e, b.x) != 0
    ensures perm < PGSIZE && v'.s.PteAt(b.e, b.x, b.t) == MkEntry(f, perm)
  {
    FreeIsUnnamed(v, f);
    hide View.Ok;
    hide FlatOf;
    Sizes(v);
    Sizes(v');
    WordOfFlat(v'.s, b);
    forall r
      ensures r in v'.s.Refs(f) <==> r == b
    {
      RefIffMapped(v', b, r);
      if ValidRef(r) && r.Pte? {
        SlotsDiffer(r, b);
        WordOfFlat(v.s, r);
        assert r !in v.s.Refs(f);
      }
    }
  }

  // After the fresh page has taken its place, the sender's page has room for a reference exactly if it had before.
  lemma FitsAfter(m: Snapshot, m': Snapshot, a: Ref, b: Ref, f: nat)
    requires m.Shaped() && m'.Shaped() && m.v.Ok() && m'.v.Ok() && m.v.held == NULL && m'.v.held == NULL
    requires ValidRef(a) && ValidRef(b) && a.Pte? && m.v.s.Target(a) >= 0 && m'.v.s.Target(b) == f
    requires m'.v.reserved == m.v.reserved && |m'.v.pages| == |m.v.pages| && f != m.v.s.Target(a)
    requires m'.v.s.Refs(m.v.s.Target(a)) == m.v.s.Refs(m.v.s.Target(a)) - {b}
    ensures var q := m.v.s.Target(a);
            && q < |m.v.pages|
            && (m'.v.pages[q].pp_ref < 0xffff <==> m.v.pages[q].pp_ref < 0xffff || m.v.s.Target(b) == q)
  {
    var q := m.v.s.Target(a);
    MappedIsData(m.v, a);
    assert CountOk(m.v.pages[q], m.v.s, q, NULL) && CountOk(m'.v.pages[q], m'.v.s, q, NULL);
    CardOne(m.v.s.Refs(q), b);
  }

  // --- the page transfer ---

  // The sender's address is the receiver's.
  predicate SamePlace(cur: nat, srcva: nat, dst: nat, dstva: nat) { RefOf(cur, srcva) == RefOf(dst, dstva) }

  /** env_page_alloc at dstva and then env_page_map over it. */
  ghost function TransferResult(m: Snapshot, cur: nat, srcva: nat, dst: nat, dstva: nat, perm: nat): (r: int)
    requires m.Shaped() && ValidRef(RefOf(cur, srcva)) && ValidRef(RefOf(dst, dstva))
    ensures r <= 0
  {
    if !GoodPerm(perm) then -E_INVAL
    else if m.NoRoom(dst, dstva) then -E_NO_MEM
    else if SamePlace(cur, srcva, dst, dstva) then 0
    else m.EnvMapError(cur, srcva, perm)
  }

  // The page at dstva afterwards, or NULL if it is the one before: the sender's or, if that cannot be mapped, the fresh
  // page all the same.
  ghost function Arrives(m: Snapshot, cur: nat, srcva: nat, dst: nat, dstva: nat, perm: nat): int
    requires m.Shaped() && ValidRef(RefOf(cur, srcva)) && ValidRef(RefOf(dst, dstva))
  {
    if !GoodPerm(perm) || m.NoRoom(dst, dstva) then NULL
    else if SamePlace(cur, srcva, dst, dstva) || m.EnvMapError(cur, srcva, perm) != 0 then m.v.free[0]
    else m.v.s.Target(RefOf(cur, srcva))
  }

  // Every mapped page, but for the one at slot b, has the words it had.
  ghost predicate WordsKept(v: View, v': View, b: Slot)
    requires v.s.Shape
  {
    forall sl | sl in FlatOf(v.s) && sl != b ::
        var p := FlatOf(v.s)[sl].page; p < |v.s.mem| && p < |v'.s.mem| && v'.s.mem[p] == v.s.mem[p]
  }

  /** What the transfer leaves behind if it keeps the invariant: at dstva the page that arrives, the fresh page back on
      the free list unless it is that one, and everything else as it was. A page is lost exactly if there was one for
      the transfer, but none for its table. */
  ghost predicate Transferred(m: Snapshot, v': View, cur: nat, srcva: nat, dst: nat, dstva: nat, perm: nat)
    requires m.Shaped() && ValidRef(RefOf(cur, srcva)) && ValidRef(RefOf(dst, dstva))
  {
    var p, b := Arrives(m, cur, srcva, dst, dstva, perm), RefOf(dst, dstva);
    && v'.s.Shape && v'.held == NULL && WordsKept(m.v, v', SlotOfRef(b))
    && if p == NULL then
         && FlatOf(v'.s) == FlatOf(m.v.s) && v'.free == (if GoodPerm(perm) then [] else m.v.free) && AllWords(m.v, v')
         && v'.Lost() == m.v.Lost() + if GoodPerm(perm) && m.v.free != [] then {m.v.free[0]} else {}
       else
         && p >= 0 && m.v.free != [] && FlatOf(v'.s) == FlatOf(m.v.s)[SlotOfRef(b) := Entry(p, perm)]
         && v'.free == (if p == m.v.free[0] then [] else [m.v.free[0]]) + AllocFree(m.v, b)
         && v'.Lost() == m.v.Lost()
         && (p == m.v.free[0] ==> p < |v'.s.mem| && ZeroPage(v'.s, p))
  }

  // Every mapped page has.
  ghost predicate AllWords(v: View, v': View)
    requires v.s.Shape
  {
    forall sl | sl in FlatOf(v.s) ::
        var p := FlatOf(v.s)[sl].page; p < |v.s.mem| && p < |v'.s.mem| && v'.s.mem[p] == v.s.mem[p]
  }

  lemma DataWords(v: View, v': View, b: Slot)
    requires v.Ok() && |v'.s.mem| == |v.s.mem| && DataKept(v, v')
    ensures AllWords(v, v') && WordsKept(v, v', b)
  {
    forall sl | sl in FlatOf(v.s)
      ensures var p := FlatOf(v.s)[sl].page; p < |v.s.mem| && v'.s.mem[p] == v.s.mem[p]
    {
      MappedIsData(v, Pte(sl.e, sl.vpn / 1024, sl.vpn % 1024));
    }
  }

  lemma WordsTwice(v: View, v1: View, v2: View, b: Slot, en: Entry)
    requires v.s.Shape && v1.s.Shape && WordsKept(v, v1, b) && WordsKept(v1, v2, b)
    requires FlatOf(v1.s) == FlatOf(v.s)[b := en]
    ensures WordsKept(v, v2, b)
  {
    hide FlatOf;
    forall sl | sl in FlatOf(v.s) && sl != b
      ensures var p := FlatOf(v.s)[sl].page; p < |v.s.mem| && p < |v2.s.mem| && v2.s.mem[p] == v.s.mem[p]
    {
      assert FlatOf(v1.s)[sl] == FlatOf(v.s)[sl];
    }
  }

  // env_page_alloc has put the fresh page f at b.
  ghost predicate Placed(m: Snapshot, m1: Snapshot, b: Ref, perm: nat)
    requires m.Shaped() && m1.Shaped() && ValidRef(b) && b.Pte?
  {
    && m.v.Ok() && m1.v.Ok() && m.v.held == NULL && m1.v.held == NULL && m1.v.reserved == m.v.reserved
    && |m1.v.pages| == |m.v.pages| && |m1.v.s.mem| == |m.v.s.mem| && DataKept(m.v, m1.v)
    && GoodPerm(perm) && m.v.free != [] && m.v.free[0] < |m1.v.s.mem| && ZeroPage(m1.v.s, m.v.free[0])
    && FlatOf(m1.v.s) == FlatOf(m.v.s)[SlotOfRef(b) := Entry(m.v.free[0], perm)]
    && m1.v.free == AllocFree(m.v, b) && m1.v.Lost() == m.v.Lost()
  }

  // What env_page_map finds then.
  lemma MapAfter(m: Snapshot, m1: Snapshot, cur: nat, srcva: nat, dst: nat, dstva: nat, perm: nat)
    requires m.Shaped() && m1.Shaped() && ValidRef(RefOf(cur, srcva)) && ValidRef(RefOf(dst, dstva))
    requires Placed(m, m1, RefOf(dst, dstva), perm)
    ensures m1.v.s.PdeAt(dst, PDX(dstva)) != 0 && m1.v.s.Target(RefOf(dst, dstva)) == m.v.free[0]
    ensures m1.v.s.Refs(m.v.free[0]) == {RefOf(dst, dstva)}
    ensures SamePlace(cur, srcva, dst, dstva) ==> m1.EnvMapError(cur, srcva, perm) == 0
    ensures !SamePlace(cur, srcva, dst, dstva) ==>
              && m1.v.s.Target(RefOf(cur, srcva)) == m.v.s.Target(RefOf(cur, srcva))
              && m1.EnvMapError(cur, srcva, perm) == m.EnvMapError(cur, srcva, perm)
  {
    var a, b, f := RefOf(cur, srcva), RefOf(dst, dstva), m.v.free[0];
    hide View.Ok;
    hide FlatOf;
    FreshRef(m.v, m1.v, b, f, perm);
    if a == b {
      EntryBits(f, perm);
    } else {
      EntrySame(m.v.s, m1.v.s, a, b, Entry(f, perm));
    }
  }

  lemma FitsThen(m: Snapshot, m1: Snapshot, cur: nat, srcva: nat, dst: nat, dstva: nat, perm: nat)
    requires m.Shaped() && m1.Shaped() && ValidRef(RefOf(cur, srcva)) && ValidRef(RefOf(dst, dstva))
    requires Placed(m, m1, RefOf(dst, dstva), perm) && m.v.s.Target(RefOf(cur, srcva)) >= 0
    requires !SamePlace(cur, srcva, dst, dstva)
    ensures var q := m.v.s.Target(RefOf(cur, srcva));
            q != m.v.free[0] && (m1.Fits(q, dst, dstva) <==> m.Fits(q, dst, dstva))
  {
    var a, b, f := RefOf(cur, srcva), RefOf(dst, dstva), m.v.free[0];
    MappedIsData(m.v, a);
    hide View.Ok;
    hide FlatOf;
    FreshRef(m.v, m1.v, b, f, perm);
    RefsAfterMap(m.v, m1.v, a, b, Entry(f, perm));
    FitsAfter(m, m1, a, b, f);
  }

  // The fresh page goes back when p takes its place.
  lemma SecondFree(m: Snapshot, m1: Snapshot, b: Ref, p: nat, perm: nat)
    requires m.Shaped() && m1.Shaped() && ValidRef(b) && b.Pte? && Placed(m, m1, b, perm)
    requires m1.v.s.PdeAt(b.e, b.x) != 0 && m1.v.s.Target(b) == m.v.free[0] && m1.v.s.Refs(m.v.free[0]) == {b}
    ensures InsertFree(m1.v, b, p) == (if p == m.v.free[0] then [] else [m.v.free[0]]) + AllocFree(m.v, b)
  {
    hide View.Ok;
    hide FlatOf;
    hide AllocFree;
    assert m1.v.(held := p).s == m1.v.s;
  }

  lemma TransferWords(m: Snapshot, m1: Snapshot, v2: View, b: Ref, p: nat, perm: nat)
    requires m.Shaped() && m1.Shaped() && ValidRef(b) && b.Pte? && Placed(m, m1, b, perm)
    requires |v2.s.mem| == |m1.v.s.mem| && DataKept(m1.v, v2) && m1.v.s.Target(b) == m.v.free[0]
    ensures WordsKept(m.v, v2, SlotOfRef(b))
    ensures v2.s.mem[m.v.free[0]] == m1.v.s.mem[m.v.free[0]]
  {
    hide View.Ok;
    hide FlatOf;
    hide AllocFree;
    DataWords(m.v, m1.v, SlotOfRef(b));
    DataWords(m1.v, v2, SlotOfRef(b));
    WordsTwice(m.v, m1.v, v2, SlotOfRef(b), Entry(m.v.free[0], perm));
    MappedIsData(m1.v, b);
  }

  // env_page_map has put p there.
  lemma TransferDone(m: Snapshot, m1: Snapshot, v2: View, cur: nat, srcva: nat, dst: nat, dstva: nat, perm: nat, p: nat)
    requires m.Shaped() && m1.Shaped() && ValidRef(RefOf(cur, srcva)) && ValidRef(RefOf(dst, dstva))
    requires Placed(m, m1, RefOf(dst, dstva), perm) && !m.NoRoom(dst, dstva)
    requires p == Arrives(m, cur, srcva, dst, dstva, perm) && p == m1.v.s.Target(RefOf(cur, srcva))
    requires p < |m1.v.pages| && Inserted(m1.v, v2, RefOf(dst, dstva), p, perm)
    requires m1.v.Lost() - {p} == m1.v.Lost()
    requires SamePlace(cur, srcva, dst, dstva) <==> p == m.v.free[0]
    ensures Transferred(m, v2, cur, srcva, dst, dstva, perm)
  {
    var b := RefOf(dst, dstva);
    hide View.Ok;
    hide FlatOf;
    hide AllocFree;
    hide Inserted;
    hide InsertFree;
    hide WordsKept;
    MapAfter(m, m1, cur, srcva, dst, dstva, perm);
    Sizes(m1.v);
    InsertedFacts(m1.v, v2, b, p, perm);
    SecondFree(m, m1, b, p, perm);
    TransferWords(m, m1, v2, b, p, perm);
  }

  lemma PlacedOnly(m: Snapshot, m1: Snapshot, cur: nat, srcva: nat, dst: nat, dstva: nat, perm: nat)
    requires m.Shaped() && m1.Shaped() && ValidRef(RefOf(cur, srcva)) && ValidRef(RefOf(dst, dstva))
    requires Placed(m, m1, RefOf(dst, dstva), perm) && !m.NoRoom(dst, dstva)
    requires !SamePlace(cur, srcva, dst, dstva) && m.EnvMapError(cur, srcva, perm) != 0
    ensures Transferred(m, m1.v, cur, srcva, dst, dstva, perm)
  {
    hide View.Ok;
    hide FlatOf;
    DataWords(m.v, m1.v, SlotOfRef(RefOf(dst, dstva)));
  }

  /** The page transfer of sys_ipc_try_send. */
  method Transfer(k: Kernel, cur: nat, srcva: nat, dst: nat, dstva: nat, perm: nat) returns (r: int)
    requires k.V().Ok() && k.held == NULL && k.UserVa(cur, srcva) && k.UserVa(dst, dstva) && k.Now().Shaped()
    modifies k`pages, k`page_free_list, k`mem, k`free, k`held
    ensures r == TransferResult(old(k.Now()), cur, srcva, dst, dstva, perm) && k.held == NULL
    ensures k.V().Ok() <==>
            r != 0 || SamePlace(cur, srcva, dst, dstva) ||
            old(k.Now()).Fits(old(k.V().s.Target(RefOf(cur, srcva))), dst, dstva)
    ensures k.V().Ok() ==> Transferred(old(k.Now()), k.V(), cur, srcva, dst, dstva, perm)
  {
    hide View.Ok;
    hide FlatOf;
    hide Inserted;
    hide AllocFree;
    ghost var m := k.Now();
    Sizes(m.v);
    UserAddress(srcva);
    UserAddress(dstva);
    r := k.EnvPageAlloc(dst, dstva, perm);
    if r < 0 {
      DataWords(m.v, k.V(), SlotOfRef(RefOf(dst, dstva)));
      return;
    }
    ghost var m1 := k.Now();
    Sizes(m1.v);
    assert Placed(m, m1, RefOf(dst, dstva), perm);
    MapAfter(m, m1, cur, srcva, dst, dstva, perm);
    LowPerm(perm, 0);
    r := k.EnvPageMap(cur, srcva, dst, dstva, perm);
    if r < 0 {
      PlacedOnly(m, m1, cur, srcva, dst, dstva, perm);
      return;
    }
    if !SamePlace(cur, srcva, dst, dstva) {
      FitsThen(m, m1, cur, srcva, dst, dstva, perm);
    }
    if k.V().Ok() {
      TransferDone(m, m1, k.V(), cur, srcva, dst, dstva, perm, m1.v.s.Target(RefOf(cur, srcva)));
    }
  }

  // --- sys_ipc_try_send ---

  predicate DstOk(envs: seq<Env>) { |envs| == NENV && forall e: nat | e < NENV :: PageVa(envs[e].ipc.dstva) }

  // sys_ipc_try_send looks at the sender's entry through the pointer that page_lookup stores. Where nothing is mapped
  // page_lookup stores none, and the word it looks at is whatever the uninitialised pointer leads to.
  ghost function SeenWord(m: Snapshot, cur: nat, srcva: nat, junk: nat): nat
    requires m.Shaped() && ValidRef(RefOf(cur, srcva))
  {
    if m.v.s.Target(RefOf(cur, srcva)) == NULL then junk else m.v.s.PteAt(cur, PDX(srcva), PTX(srcva))
  }

  // The result before any page is touched: an error, or 0.
  ghost function SendError(m: Snapshot, cur: nat, envid: int, srcva: nat, perm: nat, junk: nat): int
    requires m.Shaped() && cur < NENV
  {
    var dst := Envid2Env(m.envs, cur, envid, false);
    if dst == NULL then -E_BAD_ENV
    else if !m.envs[dst].ipc.recving then -E_IPC_NOT_RECV
    else if srcva >= UTOP then 0
    else if srcva % PGSIZE != 0 then -E_INVAL
    else
      UserAddress(srcva);
      var w := SeenWord(m, cur, srcva, junk);
      if (w != 0 && !Present(w)) || (Writable(perm) && !Writable(w)) then -E_INVAL else 0
  }

  // The call gets as far as the transfer of a page. A receiver that asked for address 0 gets none.
  ghost predicate Carries(m: Snapshot, cur: nat, envid: int, srcva: nat, perm: nat, junk: nat)
    requires m.Shaped() && cur < NENV
  {
    && SendError(m, cur, envid, srcva, perm, junk) == 0 && srcva < UTOP
    && m.envs[Envid2Env(m.envs, cur, envid, false)].ipc.dstva != 0
  }

  ghost function SendResult(m: Snapshot, cur: nat, envid: int, srcva: nat, perm: nat, junk: nat): int
    requires m.Shaped() && cur < NENV && DstOk(m.envs)
  {
    if !Carries(m, cur, envid, srcva, perm, junk) then SendError(m, cur, envid, srcva, perm, junk)
    else
      var dst := Envid2Env(m.envs, cur, envid, false);
      UserAddress(srcva);
      UserAddress(m.envs[dst].ipc.dstva);
      TransferResult(m, cur, srcva, dst, m.envs[dst].ipc.dstva, WithUP(perm))
  }

  /** A send that carries a page and succeeds keeps the invariant exactly if the count of the sender's page is not full,
      or the page is there already. */
  ghost predicate SendKeeps(m: Snapshot, cur: nat, envid: int, srcva: nat, perm: nat, junk: nat)
    requires m.Shaped() && cur < NENV && DstOk(m.envs)
  {
    Carries(m, cur, envid, srcva, perm, junk) && SendResult(m, cur, envid, srcva, perm, junk) == 0 ==>
      var dst := Envid2Env(m.envs, cur, envid, false);
      var dstva := m.envs[dst].ipc.dstva;
      UserAddress(srcva);
      UserAddress(dstva);
      SamePlace(cur, srcva, dst, dstva) || m.Fits(m.v.s.Target(RefOf(cur, srcva)), dst, dstva)
  }

  // What the call does to the pages of a machine whose invariant it keeps.
  ghost predicate Sent(m: Snapshot, v': View, cur: nat, envid: int, srcva: nat, perm: nat, junk: nat)
    requires m.Shaped() && cur < NENV && DstOk(m.envs)
  {
    if !Carries(m, cur, envid, srcva, perm, junk) then v' == m.v
    else
      var dst := Envid2Env(m.envs, cur, envid, false);
      UserAddress(srcva);
      UserAddress(m.envs[dst].ipc.dstva);
      Transferred(m, v', cur, srcva, dst, m.envs[dst].ipc.dstva, WithUP(perm))
  }

  // The receiver's fields after a send that succeeds. env_ipc_perm is left alone if the sender offers a page and the
  // receiver asked for address 0.
  function Delivered(env: Env, from: int, value: int, srcva: nat, perm: nat): Env {
    var p := if srcva >= UTOP then 0 else if env.ipc.dstva != 0 then WithUP(perm) else env.ipc.perm;
    env.(env_status := ENV_RUNNABLE, ipc := Ipc(false, env.ipc.dstva, value, from, p))
  }

  lemma DstFacts(envs: seq<Env>, head: int, efree: seq<nat>)
    requires EnvsOk(envs, head, efree)
    ensures DstOk(envs)
  {
    forall e: nat | e < NENV
      ensures PageVa(envs[e].ipc.dstva)
    {
      assert EnvOk(envs[e], e, e in efree);
    }
  }

  // A live env has a directory, so its addresses can be used.
  lemma LiveAddress(k: Kernel, e: nat, va: nat)
    requires EnvsOk(k.envs, k.env_free_list, k.efree) && e < NENV && k.envs[e].env_status != ENV_FREE && va < UTOP
    ensures k.UserVa(e, va)
  {
    EnvFacts(k.envs, k.env_free_list, k.efree);
    UserAddress(va);
    assert EnvOk(k.envs[e], e, e in k.efree);
  }

  // The checks before the transfer.
  method CheckSend(k: Kernel, cur: nat, envid: int, srcva: nat, perm: nat, junk: nat) returns (r: int)
    requires k.Valid() && k.Caller(cur) && k.Now().Shaped()
    ensures r == SendError(k.Now(), cur, envid, srcva, perm, junk)
  {
    hide View.Ok;
    hide FlatOf;
    hide EnvsOk;
    var dst := Envid2Env(k.envs, cur, envid, false);
    if dst == NULL {
      return -E_BAD_ENV;
    }
    if !k.envs[dst].ipc.recving {
      return -E_IPC_NOT_RECV;
    }
    if srcva >= UTOP {
      return 0;
    }
    if srcva % PGSIZE != 0 {
      return -E_INVAL;
    }
    LiveAddress(k, cur, srcva);
    var page, pte := k.PageLookup(cur, srcva);
    var w := if page == NULL then junk else k.mem[pte.page][pte.idx];
    if (w != 0 && !Present(w)) || (Writable(perm) && !Writable(w)) {
      return -E_INVAL;
    }
    return 0;
  }

  /** sys_ipc_try_send: the exact result, the receiver's fields, and what becomes of the pages. */
  method SysIpcTrySend(k: Kernel, cur: nat, envid: int, value: int, srcva: nat, perm: nat, junk: nat) returns (r: int)
    requires k.Valid() && k.Caller(cur) && k.Now().Shaped() && DstOk(k.envs)
    modifies k`pages, k`page_free_list, k`mem, k`free, k`held, k`envs
    ensures k.held == NULL && r == SendResult(old(k.Now()), cur, envid, srcva, perm, junk)
    ensures k.V().Ok() <==> SendKeeps(old(k.Now()), cur, envid, srcva, perm, junk)
    ensures k.V().Ok() ==> k.Valid() && Sent(old(k.Now()), k.V(), cur, envid, srcva, perm, junk)
    ensures r != 0 ==> k.envs == old(k.envs)
    ensures r == 0 ==>
              var dst := old(Envid2Env(k.envs, cur, envid, false));
              && 0 <= dst < NENV
              && k.envs == old(k.envs)[dst := Delivered(old(k.envs)[dst], old(k.envs)[cur].env_id, value, srcva, perm)]
              && k.envs[dst].ipc.value == value && k.envs[dst].ipc.from == old(k.envs)[cur].env_id
              && !k.envs[dst].ipc.recving && k.envs[dst].env_status == ENV_RUNNABLE && old(k.envs)[dst].ipc.recving
  {
    hide View.Ok;
    hide FlatOf;
    hide EnvsOk;
    hide Transferred;
    hide TransferResult;
    r := CheckSend(k, cur, envid, srcva, perm, junk);
    if r < 0 {
      return;
    }
    var dst := Envid2Env(k.envs, cur, envid, false);
    if srcva < UTOP && k.envs[dst].ipc.dstva != 0 {
      LiveAddress(k, cur, srcva);
      LiveAddress(k, dst, k.envs[dst].ipc.dstva);
      r := Transfer(k, cur, srcva, dst, k.envs[dst].ipc.dstva, WithUP(perm));
      if r < 0 {
        return;
      }
    }
    ghost var v := k.V();
    ghost var env := Delivered(k.envs[dst], k.envs[cur].env_id, value, srcva, perm);
    StatusKeeps(k.envs, k.env_free_list, k.efree, dst, ENV_RUNNABLE, env.ipc);
    var got := if srcva >= UTOP then 0 else if k.envs[dst].ipc.dstva != 0 then WithUP(perm) else k.envs[dst].ipc.perm;
    k.envs := k.envs[dst := k.envs[dst].(env_status := ENV_RUNNABLE,
        ipc := Ipc(false, k.envs[dst].ipc.dstva, value, k.envs[cur].env_id, got))];
    assert Pgdirs(k.envs) == v.s.pgdir;
    assert k.V() == v;
  }

  /** A refused send that has replaced the receiver's page all the same: it is one from an address where nothing is
      mapped, and only then. */
  lemma RefusedSendReplaces(m: Snapshot, cur: nat, envid: int, srcva: nat, perm: nat, junk: nat)
    requires m.Shaped() && cur < NENV && DstOk(m.envs) && Carries(m, cur, envid, srcva, perm, junk)
    requires ValidRef(RefOf(cur, srcva))
    requires var dst := Envid2Env(m.envs, cur, envid, false); ValidRef(RefOf(dst, m.envs[dst].ipc.dstva))
    ensures var dst := Envid2Env(m.envs, cur, envid, false);
            var dstva := m.envs[dst].ipc.dstva;
            SendResult(m, cur, envid, srcva, perm, junk) != 0 &&
              Arrives(m, cur, srcva, dst, dstva, WithUP(perm)) != NULL <==>
            && GoodPerm(WithUP(perm)) && !m.NoRoom(dst, dstva) && !SamePlace(cur, srcva, dst, dstva)
            && m.v.s.Target(RefOf(cur, srcva)) == NULL
  {
    assert Writable(WithUP(perm)) == Writable(perm) by { UPKeepsWrite(perm); }
  }

  lemma UPKeepsWrite(perm: nat)
    ensures Writable(WithUP(perm)) == Writable(perm)
  {
    BitsFromMod4(perm);
    BitsFromMod4(WithP(perm));
    BitsFromMod4(WithUP(perm));
  }

  /** sys_ipc_recv up to its sys_yield: the flag is set before the argument is looked at. */
  method SysIpcRecv(k: Kernel, cur: nat, dstva: nat) returns (r: int)
    requires k.Valid() && k.Caller(cur)
    modifies k`envs
    ensures k.Valid() && k.V() == old(k.V()) && r == if PageVa(dstva) then 0 else -E_INVAL
    ensures var env := old(k.envs)[cur];
            k.envs == old(k.envs)[cur :=
              if r == 0 then env.(env_status := ENV_NOT_RUNNABLE, ipc := env.ipc.(recving := true, dstva := dstva))
              else env.(ipc := env.ipc.(recving := true))]
  {
    hide View.Ok;
    hide EnvsOk;
    ghost var v := k.V();
    var env := k.envs[cur];
    DstFacts(k.envs, k.env_free_list, k.efree);
    StatusKeeps(k.envs, k.env_free_list, k.efree, cur, env.env_status, env.ipc.(recving := true));
    k.envs := k.envs[cur := env.(ipc := env.ipc.(recving := true))];
    assert Pgdirs(k.envs) == v.s.pgdir;
    if dstva >= UTOP || dstva % PGSIZE != 0 {
      return -E_INVAL;
    }
    StatusKeeps(k.envs, k.env_free_list, k.efree, cur, ENV_NOT_RUNNABLE, k.envs[cur].ipc.(dstva := dstva));
    k.envs := k.envs[cur := k.envs[cur].(env_status := ENV_NOT_RUNNABLE, ipc := k.envs[cur].ipc.(dstva := dstva))];
    assert Pgdirs(k.envs) == v.s.pgdir;
    return 0;
  }

  // A send that carries a page has mapped the sender's page, with the flags the receiver is told.
  lemma SentMapped(m: Snapshot, v': View, cur: nat, envid: int, srcva: nat, perm: nat, junk: nat)
    requires m.Shaped() && cur < NENV && DstOk(m.envs) && Carries(m, cur, envid, srcva, perm, junk)
    requires Sent(m, v', cur, envid, srcva, perm, junk) && SendResult(m, cur, envid, srcva, perm, junk) == 0
    ensures var dst := Envid2Env(m.envs, cur, envid, false);
            && v'.s.Shape && dst >= 0 && ValidRef(RefOf(cur, srcva))
            && var sl, q := SlotOf(dst, m.envs[dst].ipc.dstva), m.v.s.Target(RefOf(cur, srcva));
            && sl in FlatOf(v'.s) && FlatOf(v'.s)[sl].perm == Or(perm, 5)
            && (SlotOf(cur, srcva) != sl ==> FlatOf(v'.s)[sl].page == q)
  {
    hide FlatOf;
    hide AllocFree;
    hide WordsKept;
    var dst := Envid2Env(m.envs, cur, envid, false);
    UserAddress(srcva);
    UserAddress(m.envs[dst].ipc.dstva);
    WithUPIsOr(perm);
  }

  /** The two calls together: e asks for a page at dstva, and f sends to it. If the send succeeds, e is RUNNABLE again
      and its fields hold the value, the sender's id and the flags of the mapping; the page at dstva is the sender's;
      and without a page the flags are 0 and no mapping has changed. */
  method Exchange(k: Kernel, e: nat, f: nat, dstva: nat, value: int, srcva: nat, perm: nat, junk: nat) returns (r: int)
    requires k.Valid() && k.Caller(e) && k.Caller(f) && e != f && k.Now().Shaped() && PageVa(dstva)
    modifies k`pages, k`page_free_list, k`mem, k`free, k`held, k`envs
    ensures |k.envs| == NENV && k.envs[e].env_id == old(k.envs)[e].env_id
    ensures r == 0 ==>
              && k.envs[e].env_status == ENV_RUNNABLE && !k.envs[e].ipc.recving && k.envs[e].ipc.dstva == dstva
              && k.envs[e].ipc.value == value && k.envs[e].ipc.from == old(k.envs)[f].env_id
              && k.envs[e].ipc.perm ==
                   if srcva >= UTOP then 0 else if dstva != 0 then Or(perm, 5) else old(k.envs)[e].ipc.perm
    ensures r == 0 && k.V().Ok() ==> k.V().s.Shape
    ensures r == 0 && k.V().Ok() && (srcva >= UTOP || dstva == 0) ==> FlatOf(k.V().s) == FlatOf(old(k.V().s))
    ensures r == 0 && k.V().Ok() && srcva < UTOP && dstva != 0 ==>
              && ValidRef(RefOf(f, srcva)) && SlotOf(e, dstva) in FlatOf(k.V().s)
              && FlatOf(k.V().s)[SlotOf(e, dstva)].perm == k.envs[e].ipc.perm
              && FlatOf(k.V().s)[SlotOf(e, dstva)].page == old(k.V().s.Target(RefOf(f, srcva)))
  {
    hide View.Ok;
    hide FlatOf;
    hide EnvsOk;
    hide Sent;
    hide SendResult;
    hide SendKeeps;
    var a := SysIpcRecv(k, e, dstva);
    EnvFacts(k.envs, k.env_free_list, k.efree);
    DstFacts(k.envs, k.env_free_list, k.efree);
    Sizes(k.V());
    Addressed(k.envs, k.env_free_list, k.efree, e, f);
    ghost var m := k.Now();
    r := SysIpcTrySend(k, f, k.envs[e].env_id, value, srcva, perm, junk);
    if r == 0 && k.V().Ok() {
      Sizes(k.V());
      ExchangeMapped(m, k.V(), e, f, srcva, perm, junk);
    }
    WithUPIsOr(perm);
  }

  // An allocated env is found by its id.
  lemma Addressed(envs: seq<Env>, head: int, efree: seq<nat>, e: nat, f: nat)
    requires EnvsOk(envs, head, efree) && e < NENV && f < NENV && envs[e].env_status != ENV_FREE
    ensures Envid2Env(envs, f, envs[e].env_id, false) == e
  {
    EnvFacts(envs, head, efree);
    assert EnvOk(envs[e], e, e in efree);
    hide EnvsOk;
    EnvIdsExact(envs, head, efree, f, envs[e].env_id);
  }

  lemma ExchangeMapped(m: Snapshot, v': View, e: nat, f: nat, srcva: nat, perm: nat, junk: nat)
    requires m.Shaped() && e < NENV && f < NENV && e != f && DstOk(m.envs) && v'.s.Shape
    requires Envid2Env(m.envs, f, m.envs[e].env_id, false) == e
    requires Sent(m, v', f, m.envs[e].env_id, srcva, perm, junk)
    requires SendResult(m, f, m.envs[e].env_id, srcva, perm, junk) == 0
    ensures srcva >= UTOP || m.envs[e].ipc.dstva == 0 ==> FlatOf(v'.s) == FlatOf(m.v.s)
    ensures srcva < UTOP && m.envs[e].ipc.dstva != 0 ==>
              var sl := SlotOf(e, m.envs[e].ipc.dstva);
              && ValidRef(RefOf(f, srcva)) && sl in FlatOf(v'.s) && FlatOf(v'.s)[sl].perm == Or(perm, 5)
              && FlatOf(v'.s)[sl].page == m.v.s.Target(RefOf(f, srcva))
  {
    hide FlatOf;
    if Carries(m, f, m.envs[e].env_id, srcva, perm, junk) {
      SentMapped(m, v', f, m.envs[e].env_id, srcva, perm, junk);
    }
  }
}
