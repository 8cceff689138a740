/** kern/pmap.c, kern/env.c and the mapping system calls of kern/syscall.c, as methods on one kernel object. */
module KernelVm {
  import opened Mmu
  import opened VmStore
  import opened VmView
  import opened VmSteps
  import opened VmTeardown
  import opened EnvId
  import opened PermBits

  // env_ipc_recving and the other env_ipc_ fields.
  datatype Ipc = Ipc(recving: bool, dstva: nat, value: int, from: int, perm: nat)

  // The fields of struct Env that memory management, env allocation and IPC use.
  datatype Env = Env(env_id: int, env_parent_id: int, env_status: EnvStatus, env_link: int, env_pgdir: int, ipc: Ipc)

  // An Env of the cleared array.
  function BlankEnv(link: int): Env { Env(0, 0, ENV_FREE, link, NULL, Ipc(false, 0, 0, 0, 0)) }

  // A pte_t *: a word of a page-table page, or NULL.
  datatype PtePtr = NullPte | PteCell(page: nat, idx: nat)

  function Pgdirs(envs: seq<Env>): (s: seq<int>)
    ensures |s| == |envs| && forall i | 0 <= i < |envs| :: s[i] == envs[i].env_pgdir
  {
    seq(|envs|, i requires 0 <= i < |envs| => envs[i].env_pgdir)
  }

  function SlotOf(e: nat, va: nat): Slot { Slot(e, PGNUM(va)) }

  // The reference that page number PGNUM(va) of env e stands for.
  function RefOf(e: nat, va: nat): Ref { Pte(e, PDX(va), PTX(va)) }

  lemma UserAddress(va: nat)
    requires va < UTOP
    ensures PDX(va) < NUPDE && PTX(va) < NPTENTRIES && PGNUM(va) < NUPN
    ensures PGNUM(va) / 1024 == PDX(va) && PGNUM(va) % 1024 == PTX(va)
    ensures forall e: nat | e < NENV :: ValidRef(RefOf(e, va)) && SlotOfRef(RefOf(e, va)) == SlotOf(e, va)
  {
    AddressSplit(va);
  }

  lemma DirPresent(v: View, e: nat, x: nat)
    requires v.Ok() && e < NENV && x < NUPDE && v.s.pgdir[e] != NULL
    ensures v.s.Shape && 0 <= v.s.pgdir[e] < |v.s.mem|
    ensures v.s.PdeAt(e, x) == v.s.mem[v.s.pgdir[e]][x]
    ensures v.s.PdeAt(e, x) != 0 ==> v.s.PdeAt(e, x) / PGSIZE < |v.s.mem|
  {
    assert v.s.Target(Pgdir(e)) == v.s.pgdir[e];
    assert v.s.Target(Pde(e, x)) < |v.s.mem|;
  }

  // The `& PTE_P` tests of env_free and the nonzero tests of pmap.c agree on every user entry.
  lemma PresentIffNonzero(v: View, e: nat, x: nat, t: nat)
    requires v.Ok() && e < NENV && x < NUPDE && t < NPTENTRIES
    ensures v.s.Shape && (Present(v.s.PdeAt(e, x)) <==> v.s.PdeAt(e, x) != 0)
    ensures Present(v.s.PteAt(e, x, t)) <==> v.s.PteAt(e, x, t) != 0
    ensures v.s.PteAt(e, x, t) != 0 <==> v.s.Target(Pte(e, x, t)) != NULL
  {
    var w := v.s.PdeAt(e, x);
    if w != 0 {
      assert w == MkEntry(w / PGSIZE, 7);
      EntryBits(w / PGSIZE, 7);
    }
  }

  // The list part of EnvsOk.
  ghost predicate EnvListOk(envs: seq<Env>, head: int, efree: seq<nat>) {
    && |envs| == NENV
    && (forall i | 0 <= i < |efree| :: efree[i] < NENV)
    && (forall i, j | 0 <= i < j < |efree| :: efree[i] != efree[j])
    && head == (if efree == [] then NULL else efree[0])
    && (forall i | 0 <= i < |efree| :: envs[efree[i]].env_link == Next(efree, i))
  }

  // The env table: env_free_list threads exactly the free slots, a slot has a directory exactly while it is
  // allocated, its id encodes it, and its env_ipc_dstva is 0 or what sys_ipc_recv has checked.
  ghost predicate EnvsOk(envs: seq<Env>, head: int, efree: seq<nat>) {
    EnvListOk(envs, head, efree) && forall e: nat | e < NENV :: EnvOk(envs[e], e, e in efree)
  }

  ghost predicate EnvOk(env: Env, e: nat, isFree: bool) {
    && (isFree <==> env.env_status == ENV_FREE)
    && (isFree <==> env.env_pgdir == NULL)
    && IdOk(env.env_id, e) && (!isFree ==> env.env_id > 0) && PageVa(env.ipc.dstva)
  }

  lemma EnvFacts(envs: seq<Env>, head: int, efree: seq<nat>)
    requires EnvsOk(envs, head, efree)
    ensures |envs| == NENV && (head == NULL <==> efree == [])
    ensures efree != [] ==> head == efree[0] < NENV && EnvOk(envs[head], head, true) && efree == [efree[0]] + efree[1..]
    ensures forall e: nat | e < NENV :: EnvOk(envs[e], e, e in efree)
  {
    if efree != [] {
      assert EnvOk(envs[efree[0]], efree[0], efree[0] in efree);
    }
  }

  lemma EnvListPop(envs: seq<Env>, head: int, efree: seq<nat>, env: Env)
    requires EnvListOk(envs, head, efree) && efree != []
    ensures envs[efree[0]].env_link == Next(efree, 0)
    ensures EnvListOk(envs[efree[0] := env], Next(efree, 0), efree[1..])
    ensures forall q :: q in efree <==> q == efree[0] || q in efree[1..]
    ensures efree[0] !in efree[1..]
  {
    var e, envs', efree' := efree[0], envs[efree[0] := env], efree[1..];
    assert efree == [e] + efree';
    forall i | 0 <= i < |efree'|
      ensures efree'[i] < NENV && efree'[i] != e && envs'[efree'[i]].env_link == Next(efree', i)
    {
      assert efree'[i] == efree[i + 1];
    }
    forall i, j | 0 <= i < j < |efree'|
      ensures efree'[i] != efree'[j]
    {
      assert efree'[i] == efree[i + 1] && efree'[j] == efree[j + 1];
    }
  }

  lemma EnvPop(envs: seq<Env>, head: int, efree: seq<nat>, env: Env)
    requires EnvsOk(envs, head, efree) && efree != [] && EnvOk(env, efree[0], false)
    ensures envs[efree[0]].env_link == Next(efree, 0)
    ensures EnvsOk(envs[efree[0] := env], Next(efree, 0), efree[1..]) && efree[0] !in efree[1..]
  {
    hide EnvOk;
    EnvListPop(envs, head, efree, env);
    forall q: nat | q < NENV
      ensures EnvOk(envs[efree[0] := env][q], q, q in efree[1..])
    {
      assert EnvOk(envs[q], q, q in efree);
    }
  }

  lemma EnvListPush(envs: seq<Env>, head: int, efree: seq<nat>, e: nat, env: Env)
    requires EnvListOk(envs, head, efree) && e < NENV && e !in efree && env.env_link == head
    ensures EnvListOk(envs[e := env], e, [e] + efree)
  {
    var envs', efree' := envs[e := env], [e] + efree;
    forall i | 0 <= i < |efree'|
      ensures efree'[i] < NENV && envs'[efree'[i]].env_link == Next(efree', i)
      ensures i > 0 ==> efree'[i] == efree[i - 1] != e
    {
      if i > 0 {
        assert efree[i - 1] in efree;
      }
    }
    forall i, j | 0 <= i < j < |efree'|
      ensures efree'[i] != efree'[j]
    {
      assert efree'[j] == efree[j - 1];
    }
  }

  lemma EnvPush(envs: seq<Env>, head: int, efree: seq<nat>, e: nat, env: Env)
    requires EnvsOk(envs, head, efree) && e < NENV && e !in efree && EnvOk(env, e, true) && env.env_link == head
    ensures EnvsOk(envs[e := env], e, [e] + efree)
  {
    hide EnvOk;
    EnvListPush(envs, head, efree, e, env);
    hide EnvListOk;
    forall q: nat | q < NENV
      ensures EnvOk(envs[e := env][q], q, q in [e] + efree)
    {
      assert q in [e] + efree <==> q == e || q in efree;
      assert EnvOk(envs[q], q, q in efree);
    }
  }

  lemma ThreadedInOrder(envs: seq<Env>, efree: seq<nat>)
    requires |envs| == |efree| == NENV && forall i | 0 <= i < NENV :: efree[i] == i
    requires forall e | 0 <= e < NENV :: envs[e] == BlankEnv(if e + 1 < NENV then e + 1 else NULL)
    ensures EnvsOk(envs, 0, efree)
  {
    forall e: nat | e < NENV
      ensures EnvOk(envs[e], e, e in efree)
    {
      assert efree[e] == e;
    }
  }

  /** envid2env: the slot an id names, or NULL for -E_BAD_ENV. */
  function Envid2Env(envs: seq<Env>, cur: nat, envid: int, checkperm: bool): int
    requires |envs| == NENV && cur < NENV
  {
    if envid == 0 then cur
    else
      var e := ENVX(envid);
      if envs[e].env_status == ENV_FREE || envs[e].env_id != envid then NULL
      else if checkperm && e != cur && envs[e].env_parent_id != envs[cur].env_id then NULL
      else e
  }

  /** Ids of allocated envs are positive, encode their slot and are pairwise distinct. envid2env accepts a nonzero id
      exactly when an allocated env carries it and, with the permission test, this is the caller or its child. */
  lemma EnvIdsExact(envs: seq<Env>, head: int, efree: seq<nat>, cur: nat, envid: int)
    requires EnvsOk(envs, head, efree) && cur < NENV && envid != 0
    ensures forall e: nat | e < NENV && envs[e].env_status != ENV_FREE ::
            envs[e].env_id > 0 && ENVX(envs[e].env_id) == e
    ensures forall e: nat, f: nat | e < f < NENV && envs[e].env_status != ENV_FREE && envs[f].env_status != ENV_FREE ::
              envs[e].env_id != envs[f].env_id
    ensures Envid2Env(envs, cur, envid, false) != NULL <==>
            exists e: nat :: e < NENV && envs[e].env_status != ENV_FREE && envs[e].env_id == envid
    ensures Envid2Env(envs, cur, envid, true) != NULL <==>
            exists e: nat ::
              && e < NENV && envs[e].env_status != ENV_FREE && envs[e].env_id == envid
              && (e == cur || envs[e].env_parent_id == envs[cur].env_id)
    ensures Envid2Env(envs, cur, envid, true) != NULL ==>
              Envid2Env(envs, cur, envid, true) == Envid2Env(envs, cur, envid, false)
    ensures var e := Envid2Env(envs, cur, envid, false);
            e != NULL ==> 0 <= e < NENV && envs[e].env_status != ENV_FREE && envs[e].env_id == envid
  {
    forall e: nat | e < NENV && envs[e].env_status != ENV_FREE
      ensures envs[e].env_id > 0 && ENVX(envs[e].env_id) == e
    {
      assert EnvOk(envs[e], e, e in efree);
      IdLowBits(envs[e].env_id, e);
    }
  }

  lemma IdLowBits(id: int, slot: nat)
    requires slot < NENV && IdOk(id, slot) && id > 0
    ensures ENVX(id) == slot
  {
    ModSum(id / GENSTEP * 4, slot);
  }

  /** A mapped user page is never a table, so user stores cannot reach page tables. */
  lemma MappedIsData(v: View, r: Ref)
    requires v.Ok() && ValidRef(r) && r.Pte? && v.s.Target(r) != NULL
    ensures var p := v.s.Target(r); Managed(|v.pages|, v.reserved, p) && p !in v.free && !v.s.IsTable(p)
  {
  }

  lemma AllocatedFacts(v: View, p: nat)
    requires v.Ok() && v.held == NULL && Managed(|v.pages|, v.reserved, p) && p !in v.free && v.s.Refs(p) == {}
    ensures v.pages[p].pp_ref == 0 && !v.s.IsTable(p)
  {
    assert CountOk(v.pages[p], v.s, p, NULL);
    NotTable(v.s, p);
  }

  // page_alloc touches no page that anybody uses.
  lemma AllocKeepsData(v: View, v': View, p: nat)
    requires v.s.Shape && v'.s.Shape && v.free == [p] + v'.free && |v'.s.mem| == |v.s.mem|
    requires forall r | ValidRef(r) :: v'.s.Target(r) == v.s.Target(r)
    requires forall q: nat | q < |v.s.mem| && q != p :: v'.s.mem[q] == v.s.mem[q]
    ensures forall q: nat | q < |v.s.mem| && q !in v.free && !v.s.IsTable(q) ::
              v'.s.mem[q] == v.s.mem[q] && q !in v'.free && !v'.s.IsTable(q)
  {
    forall q: nat | q < |v.s.mem| && q !in v.free && !v.s.IsTable(q)
      ensures v'.s.mem[q] == v.s.mem[q] && q !in v'.free && !v'.s.IsTable(q)
    {
      SameNames(v.s, v'.s, q);
    }
  }

  lemma InsertedFacts(v: View, v': View, r0: Ref, pp: nat, flags: nat)
    requires v.Ok() && ValidRef(r0) && r0.Pte? && pp < |v.pages| && Inserted(v, v', r0, pp, flags)
    ensures v'.Ok() && v'.held == v.held && v'.s.Shape && |v'.s.mem| == |v.pages| && DataKept(v, v')
    ensures FlatOf(v'.s) == FlatOf(v.s)[SlotOfRef(r0) := Entry(pp, flags)]
    ensures v'.free == InsertFree(v, r0, pp) && v'.Lost() == v.Lost() - {pp}
  {
  }

  lemma MappedFlags(v: View, e: nat, va: nat)
    requires v.Ok() && e < NENV && va < UTOP && ValidRef(RefOf(e, va)) && v.s.Target(RefOf(e, va)) != NULL
    ensures SlotOf(e, va) in FlatOf(v.s)
    ensures Writable(FlatOf(v.s)[SlotOf(e, va)].perm) <==> Writable(v.s.PteAt(e, PDX(va), PTX(va)))
  {
    UserAddress(va);
    var w := v.s.PteAt(e, PDX(va), PTX(va));
    assert w == MkEntry(w / PGSIZE, w % PGSIZE);
    EntryBits(w / PGSIZE, w % PGSIZE);
  }

  // A perm within the low twelve bits is stored as it is.
  lemma LowPerm(perm: nat, page: nat)
    requires perm < PGSIZE && Present(perm)
    ensures Within(perm / PGSIZE, page) && WithP(perm % PGSIZE) == perm
  {
  }

  lemma UPKeepsHigh(perm: nat)
    ensures WithUP(perm) / PGSIZE == perm / PGSIZE
    ensures Present(WithUP(perm) % PGSIZE) && WithP(WithUP(perm) % PGSIZE) == WithUP(perm) % PGSIZE
  {
  }

  lemma StatusKeeps(envs: seq<Env>, head: int, efree: seq<nat>, e: nat, st: EnvStatus, ipc: Ipc)
    requires EnvsOk(envs, head, efree) && e < NENV && envs[e].env_status != ENV_FREE && st != ENV_FREE
    requires PageVa(ipc.dstva)
    ensures EnvsOk(envs[e := envs[e].(env_status := st, ipc := ipc)], head, efree)
  {
    forall q: nat | q < NENV
      ensures EnvOk(envs[e := envs[e].(env_status := st, ipc := ipc)][q], q, q in efree)
    {
      assert EnvOk(envs[q], q, q in efree);
    }
  }

  /** The kernel at one moment: pages and page tables, and the env table. */
  datatype Snapshot = Snapshot(v: View, envs: seq<Env>) {
    ghost predicate Shaped() { v.s.Shape && |envs| == NENV }

    // The error env_page_map reports before it touches anything, or 0.
    ghost function EnvMapError(src: nat, srcva: nat, perm: nat): int
      requires Shaped() && ValidRef(RefOf(src, srcva))
    {
      if v.s.Target(RefOf(src, srcva)) == NULL then -E_INVAL
      else if Writable(perm) && !Writable(v.s.PteAt(src, PDX(srcva), PTX(srcva))) then -E_INVAL
      else 0
    }

    // The result of env_page_map: that error, no memory for a table, or 0.
    ghost function EnvMapResult(src: nat, srcva: nat, dst: nat, dstva: nat, perm: nat): int
      requires Shaped() && ValidRef(RefOf(src, srcva)) && ValidRef(RefOf(dst, dstva))
    {
      if EnvMapError(src, srcva, perm) != 0 then EnvMapError(src, srcva, perm)
      else if v.free == [] && v.s.PdeAt(dst, PDX(dstva)) == 0 then -E_NO_MEM
      else 0
    }

    // The 16-bit count of page p can take one more reference, or gets none because the entry names p already.
    ghost predicate Fits(p: int, dst: nat, dstva: nat)
      requires Shaped() && ValidRef(RefOf(dst, dstva))
    {
      0 <= p < |v.pages| && (v.pages[p].pp_ref < 0xffff || v.s.Target(RefOf(dst, dstva)) == p)
    }

    // The env a system call names, or NULL.
    ghost function Named(cur: nat, envid: int): int
      requires Shaped() && cur < NENV
    {
      Envid2Env(envs, cur, envid, true)
    }

    // The entry that address va of the env a system call names stands for.
    ghost function At(cur: nat, envid: int, va: nat): (r: Ref)
      requires Shaped() && cur < NENV && Named(cur, envid) >= 0 && va < UTOP
      ensures ValidRef(r) && r.Pte?
    {
      UserAddress(va);
      RefOf(Named(cur, envid), va)
    }

    ghost function MapResult(cur: nat, srcid: int, srcva: nat, dstid: int, dstva: nat, perm: nat): int
      requires Shaped() && cur < NENV
    {
      if !PageVa(srcva) || !PageVa(dstva) then -E_INVAL
      else if Named(cur, srcid) == NULL || Named(cur, dstid) == NULL then -E_BAD_ENV
      else
        UserAddress(srcva);
        UserAddress(dstva);
        EnvMapResult(Named(cur, srcid), srcva, Named(cur, dstid), dstva, WithUP(perm))
    }

    // A map call that succeeds keeps the invariant exactly when the bits of perm above the low twelve, which nobody
    // checks, are set in the number of the page, and its count is not full.
    ghost predicate MapKeeps(cur: nat, srcid: int, srcva: nat, dstid: int, dstva: nat, perm: nat)
      requires Shaped() && cur < NENV && MapResult(cur, srcid, srcva, dstid, dstva, perm) == 0
    {
      UserAddress(dstva);
      var p := v.s.Target(At(cur, srcid, srcva));
      p >= 0 && Within(perm / PGSIZE, p) && Fits(p, Named(cur, dstid), dstva)
    }

    // No page for the caller, or none left for the table that va needs.
    ghost predicate NoRoom(e: nat, va: nat)
      requires Shaped() && ValidRef(RefOf(e, va))
    {
      v.free == [] || (|v.free| == 1 && v.s.PdeAt(e, PDX(va)) == 0)
    }

    ghost function AllocResult(cur: nat, envid: int, va: nat, perm: nat): int
      requires Shaped() && cur < NENV
    {
      if !PageVa(va) then -E_INVAL
      else if Named(cur, envid) == NULL then -E_BAD_ENV
      else
        UserAddress(va);
        if !GoodPerm(WithUP(perm)) then -E_INVAL
        else if NoRoom(Named(cur, envid), va) then -E_NO_MEM
        else 0
    }
  }

  // The free list after env_page_alloc: the first page is taken, then page_insert has its turn.
  ghost function AllocFree(v: View, r0: Ref): seq<nat>
    requires v.s.Shape && ValidRef(r0) && r0.Pte? && v.free != []
  {
    Freed(v, r0) + WalkFree(v.(free := v.free[1..]), r0.e, r0.x)
  }

  lemma AllocFreeList(v: View, v1: View, r0: Ref, p: nat)
    requires v.s.Shape && v1.s.Shape && ValidRef(r0) && r0.Pte? && v.held == NULL && v.s.Refs(p) == {}
    requires v.free == [p] + v1.free && (forall r | ValidRef(r) :: v1.s.Target(r) == v.s.Target(r))
    requires forall q :: v1.s.Refs(q) == v.s.Refs(q)
    ensures InsertFree(v1, r0, p) == AllocFree(v, r0)
  {
    assert v.free[1..] == v1.free;
    assert v1.s.Target(Pde(r0.e, r0.x)) == v.s.Target(Pde(r0.e, r0.x));
    assert r0 in v.s.Refs(v.s.Target(r0));
  }

  lemma ListHead(v: View)
    requires v.Ok()
    ensures v.s.Shape && |v.s.mem| == |v.pages| && (v.head == NULL <==> v.free == [])
    ensures v.free != [] ==> v.head == v.free[0] && Managed(|v.pages|, v.reserved, v.head)
  {
  }

  // A page that is mapped somewhere is not lost.
  lemma MappedNotLost(v: View, r: Ref)
    requires v.s.Shape && ValidRef(r) && v.s.Target(r) >= 0
    ensures v.Lost() - {v.s.Target(r)} == v.Lost()
  {
    assert r in v.s.Refs(v.s.Target(r));
  }

  // The directory d of an env: kern_pgdir's words and, at UVPT, itself, read-only.
  ghost predicate CopyOfKernDir(words: seq<nat>, kern: seq<nat>, d: nat) {
    && |words| == |kern| == NPTENTRIES && words[UVPT_PDX] == MkEntry(d, 5)
    && forall x | 0 <= x < NPTENTRIES && x != UVPT_PDX :: words[x] == kern[x]
  }

  // page_init's choice: page 0, the AP start-up page, the I/O hole and the kernel image stay out of the list.
  predicate InitiallyFree(i: nat, kernelEnd: nat) {
    i != 0 && i != 7 && !(160 <= i < 256) && !(256 <= i < kernelEnd)
  }

  // The real-mode interrupt table, MPENTRY_PADDR, IOPHYSMEM to EXTPHYSMEM, and the kernel from there to its end.
  predicate BootUses(pa: nat, kernelEnd: nat) {
    pa == 0 || pa == 0x7000 || 0xa_0000 <= pa < 0x10_0000 || 0x10_0000 <= pa < kernelEnd * PGSIZE
  }

  /** A page is free at first exactly if none of these addresses is in it. */
  lemma InitiallyFreeIff(i: nat, kernelEnd: nat)
    ensures InitiallyFree(i, kernelEnd) <==> forall pa: nat | BootUses(pa, kernelEnd) :: PGNUM(pa) != i
  {
    if !InitiallyFree(i, kernelEnd) {
      assert BootUses(i * PGSIZE, kernelEnd) && PGNUM(i * PGSIZE) == i;
    }
  }

  lemma FreshOk(v: View)
    requires |v.s.pgdir| == NENV && (forall e | 0 <= e < NENV :: v.s.pgdir[e] == NULL)
    requires |v.s.mem| == |v.pages| && (forall p | 0 <= p < |v.s.mem| :: |v.s.mem[p]| == NPTENTRIES)
    requires ListOk(v.pages, v.head, v.free, v.reserved) && v.held == NULL
    requires forall p | 0 <= p < |v.pages| :: v.pages[p].pp_ref == 0
    requires v.kpd in v.reserved && v.kpd < |v.pages| && forall x | 0 <= x < NUPDE :: v.s.mem[v.kpd][x] == 0
    ensures v.Ok() && FlatOf(v.s) == map[]
    ensures (forall p: nat | p < |v.pages| && p !in v.reserved :: p in v.free) ==> v.Lost() == {}
  {
    assert forall r | ValidRef(r) :: v.s.Target(r) == NULL;
    forall p | Managed(|v.pages|, v.reserved, p)
      ensures CountOk(v.pages[p], v.s, p, NULL)
    {
      assert v.s.Refs(p) == {};
    }
  }

  class Kernel {
    const kern_pgdir: nat
    ghost const reserved: set<nat>
    var pages: seq<PageInfo>
    var page_free_list: int
    var mem: seq<seq<nat>>
    var envs: seq<Env>
    var env_free_list: int
    ghost var free: seq<nat>     // the page free list, front to back
    ghost var efree: seq<nat>    // the env free list, front to back
    ghost var held: int          // the page whose count page_insert has already taken

    ghost function V(): View
      reads this
    {
      View(pages, page_free_list, free, Store(mem, Pgdirs(envs)), reserved, kern_pgdir, held)
    }

    ghost predicate Valid()
      reads this
    {
      V().Ok() && held == NULL && EnvsOk(envs, env_free_list, efree)
    }

    ghost function Now(): Snapshot
      reads this
    {
      Snapshot(V(), envs)
    }

    // va is a user address of an env that has a directory.
    ghost predicate UserVa(e: int, va: nat)
      reads this
    {
      0 <= e < NENV && e < |envs| && envs[e].env_pgdir != NULL && va < UTOP && ValidRef(RefOf(e, va))
    }

    /** The zeroed `pages` and `envs` arrays before mem_init. `kept` are the pages page_init will leave out. */
    constructor (npages: nat, kpd: nat, ram: seq<seq<nat>>, ghost kept: set<nat>)
      ensures |pages| == npages && (forall p | 0 <= p < npages :: pages[p] == PageInfo(NULL, 0)) && mem == ram
      ensures |envs| == NENV && forall e | 0 <= e < NENV :: envs[e] == BlankEnv(NULL)
      ensures page_free_list == NULL && free == [] && held == NULL && kern_pgdir == kpd && reserved == kept
    {
      kern_pgdir := kpd;
      reserved := kept;
      pages := seq(npages, i => PageInfo(NULL, 0));
      page_free_list := NULL;
      mem := ram;
      envs := seq(NENV, i => BlankEnv(NULL));
      free := [];
      held := NULL;
      env_free_list := NULL;
      efree := [];
    }

    /** page_init and env_init on memory whose kern_pgdir is clear below UTOP give an empty valid machine. */
    method MemInit(kernelEnd: nat)
      requires |mem| == |pages| && (forall p | 0 <= p < |mem| :: |mem[p]| == NPTENTRIES)
      requires free == [] && page_free_list == NULL && held == NULL
      requires forall p | 0 <= p < |pages| :: pages[p] == PageInfo(NULL, 0)
      requires forall i: nat :: i in reserved <==> i < |pages| && !InitiallyFree(i, kernelEnd)
      requires |envs| == NENV && forall e | 0 <= e < NENV :: envs[e] == BlankEnv(NULL)
      requires 256 <= kern_pgdir < kernelEnd && kern_pgdir < |pages|
      requires forall x | 0 <= x < NUPDE :: mem[kern_pgdir][x] == 0
      modifies this`pages, this`page_free_list, this`free, this`envs, this`env_free_list, this`efree
      ensures Valid() && FlatOf(V().s) == map[] && V().s.Shape && V().Lost() == {}
      ensures forall p: nat :: p in free <==> p < |pages| && InitiallyFree(p, kernelEnd)
    {
      hide ListOk;
      hide EnvsOk;
      hide FlatOf;
      hide View.Ok;
      PageInit(kernelEnd);
      EnvInit();
      assert !InitiallyFree(kern_pgdir, kernelEnd);
      FreshOk(V());
    }

    /** The free list is exactly the pages outside the reserved ranges, once each. */
    method PageInit(kernelEnd: nat)
      requires free == [] && page_free_list == NULL
      requires forall p | 0 <= p < |pages| :: pages[p] == PageInfo(NULL, 0)
      requires forall i: nat :: i in reserved <==> i < |pages| && !InitiallyFree(i, kernelEnd)
      modifies this`pages, this`page_free_list, this`free
      ensures |pages| == |old(pages)| && ListOk(pages, page_free_list, free, reserved)
      ensures forall p | 0 <= p < |pages| :: pages[p].pp_ref == 0
      ensures forall p: nat :: p in free <==> p < |pages| && InitiallyFree(p, kernelEnd)
    {
      var i := 0;
      while i < |pages|
        invariant 0 <= i <= |pages| == |old(pages)| && ListOk(pages, page_free_list, free, reserved)
        invariant forall p | 0 <= p < |pages| :: pages[p].pp_ref == 0
        invariant forall p: nat :: p in free <==> p < i && InitiallyFree(p, kernelEnd)
      {
        if InitiallyFree(i, kernelEnd) {
          assert Managed(|pages|, reserved, i);
          PushKeeps(View(pages, page_free_list, free, Store([], []), reserved, 0, NULL), i);
          free := [i] + free;
          pages := pages[i := PageInfo(page_free_list, 0)];
          page_free_list := i;
        }
        i := i + 1;
      }
    }

    /** Every slot is free and the list threads the slots in order, so that slot 0 is allocated first. */
    method EnvInit()
      requires |envs| == NENV && forall e | 0 <= e < NENV :: envs[e] == BlankEnv(NULL)
      modifies this`envs, this`env_free_list, this`efree
      ensures EnvsOk(envs, env_free_list, efree) && |efree| == NENV && forall i | 0 <= i < NENV :: efree[i] == i
      ensures |envs| == NENV && forall e | 0 <= e < NENV :: envs[e].env_pgdir == NULL
    {
      var i := 0;
      while i < NENV
        invariant 0 <= i <= NENV == |envs|
        invariant forall e | 0 <= e < NENV :: envs[e] == BlankEnv(if e < i then e + 1 else NULL)
      {
        envs := envs[i := envs[i].(env_id := 0, env_status := ENV_FREE, env_link := i + 1)];
        i := i + 1;
      }
      envs := envs[NENV - 1 := envs[NENV - 1].(env_link := NULL)];
      env_free_list := 0;
      efree := seq(NENV, i => i);
      ThreadedInOrder(envs, efree);
    }

    method PageAlloc(zero: bool) returns (p: int)
      requires V().Ok() && held == NULL
      modifies this`pages, this`page_free_list, this`mem, this`free
      ensures V().Ok()
      ensures p == NULL <==> old(free) == []
      ensures p == NULL ==> V() == old(V())
      ensures p != NULL ==>
                Managed(|pages|, reserved, p) && old(free) == [p as nat] + free && p !in free && V().s.Refs(p) == {}
      ensures p != NULL && zero ==> ZeroPage(V().s, p)
      ensures p != NULL ==> V().Lost() == old(V().Lost()) + {p as nat} && p as nat !in old(V().Lost())
      ensures FlatOf(V().s) == FlatOf(old(V().s))
      ensures forall r | ValidRef(r) :: V().s.Target(r) == old(V().s).Target(r)
      ensures forall q :: V().s.Refs(q) == old(V().s).Refs(q)
      ensures |pages| == |old(pages)| && |mem| == |old(mem)|
      ensures forall q: nat | q < |mem| && q != p :: mem[q] == old(mem[q])
    {
      hide View.Ok;
      hide FlatOf;
      ghost var v0 := V();
      ListHead(v0);
      if page_free_list == NULL {
        return NULL;
      }
      p := page_free_list;
      FreeIsUnnamed(v0, p);
      page_free_list := pages[p].pp_link;
      pages := pages[p := pages[p].(pp_link := NULL)];
      free := free[1..];
      ghost var v1 := V();
      PopKeeps(v0, v1);
      assert v0.free == [p as nat] + free;
      if zero {
        var zeros := seq(NPTENTRIES, i => 0 as nat);
        mem := mem[p := zeros];
        DataPageKeeps(v1, V(), p, zeros);
      }
      LostAlloc(v0, V(), p);
    }

    method PageFree(p: nat)
      requires p < |pages| && pages[p].pp_ref == 0 && pages[p].pp_link == NULL
      modifies this`pages, this`page_free_list, this`free
      ensures pages == old(pages)[p := PageInfo(old(page_free_list), 0)]
      ensures page_free_list == p && free == [p] + old(free)
    {
      pages := pages[p := pages[p].(pp_link := page_free_list)];
      page_free_list := p;
      free := [p] + free;
    }

    method PageDecref(p: nat)
      requires p < |pages| && pages[p].pp_ref < REFMOD && pages[p].pp_link == NULL
      modifies this`pages, this`page_free_list, this`free
      ensures V() == Decref(old(V()), p)
    {
      pages := pages[p := pages[p].(pp_ref := Dec16(pages[p].pp_ref))];
      if pages[p].pp_ref == 0 {
        PageFree(p);
      }
    }

    method PgdirWalk(e: nat, va: nat, create: bool) returns (pte: PtePtr)
      requires V().Ok() && (create ==> held == NULL) && UserVa(e, va)
      modifies (if create then {this} else {})`pages, (if create then {this} else {})`page_free_list
      modifies (if create then {this} else {})`mem, (if create then {this} else {})`free
      ensures Walked(old(V()), V()) && V().s.Shape
      ensures var w := V().s.PdeAt(e, PDX(va));
              pte == (if w == 0 then NullPte else PteCell(w / PGSIZE, PTX(va))) && (w == 0 || w / PGSIZE < |mem|)
      ensures !create || old(V().s.PdeAt(e, PDX(va))) != 0 ==> V() == old(V())
      ensures create && old(V().s.PdeAt(e, PDX(va))) == 0 ==>
                if old(free) == [] then pte.NullPte? && V() == old(V())
                else pte.PteCell? && pte.page == old(free)[0] && free == old(free)[1..]
    {
      hide View.Ok;
      hide Walked;
      var pdx := PDX(va);
      ghost var v0 := V();
      DirPresent(v0, e, pdx);
      WalkNothing(v0);
      if mem[envs[e].env_pgdir][pdx] == 0 && create {
        var page := PageAlloc(true);
        if page != NULL {
          ghost var v1 := V();
          DirPresent(v1, e, pdx);
          pages := pages[page := pages[page].(pp_ref := Inc16(pages[page].pp_ref))];
          mem := Poke(mem, envs[e].env_pgdir, pdx, MkEntry(page, 7));
          WalkCreate(v0, v1, V(), e, pdx, page);
        }
      }
      DirPresent(V(), e, pdx);
      var w := mem[envs[e].env_pgdir][pdx];
      if w != 0 {
        return PteCell(w / PGSIZE, PTX(va));
      }
      return NullPte;
    }

    method PageLookup(e: nat, va: nat) returns (page: int, pte: PtePtr)
      requires V().Ok() && UserVa(e, va)
      ensures page == V().s.Target(RefOf(e, va))
      ensures page != NULL <==> SlotOf(e, va) in FlatOf(V().s)
      ensures page != NULL ==>
                Managed(|pages|, reserved, page) && page !in free && page == FlatOf(V().s)[SlotOf(e, va)].page &&
                pte == PteCell(V().s.PdeAt(e, PDX(va)) / PGSIZE, PTX(va)) && pte.page < |mem| &&
                mem[pte.page][pte.idx] == V().s.PteAt(e, PDX(va), PTX(va)) && Present(mem[pte.page][pte.idx])
    {
      UserAddress(va);
      var cell := PgdirWalk(e, va, false);
      assert cell.PteCell? ==> V().s.Target(Pde(e, PDX(va))) == cell.page;
      if cell.NullPte? || mem[cell.page][cell.idx] == 0 {
        return NULL, NullPte;
      }
      assert V().s.Target(RefOf(e, va)) == mem[cell.page][cell.idx] / PGSIZE;
      return mem[cell.page][cell.idx] / PGSIZE, cell;
    }

    method PageRemove(e: nat, va: nat)
      requires V().Ok() && UserVa(e, va)
      modifies this`pages, this`page_free_list, this`mem, this`free
      ensures Removed(old(V()), V(), RefOf(e, va))
    {
      hide View.Ok;
      hide FlatOf;
      hide Removed;
      UserAddress(va);
      ghost var v0 := V();
      Sizes(v0);
      var page, pte := PageLookup(e, va);
      if page == NULL {
        NothingToRemove(v0, RefOf(e, va));
        return;
      }
      ghost var s' := v0.s.(mem := Poke(mem, pte.page, pte.idx, 0));
      ClearEntry(v0, s', e, PDX(va), PTX(va));
      PageDecref(page);
      mem := Poke(mem, pte.page, pte.idx, 0);
    }

    /** Map page pp at va, with any perm: the invariant is kept if and only if the bits of perm above the low twelve are
        set in the page number, and the 16-bit count of pp can take one more reference. It may transiently wrap when the
        same page is re-inserted. */
    method PageInsert(e: nat, pp: nat, va: nat, perm: nat) returns (r: int)
      requires V().Ok() && held == NULL && UserVa(e, va)
      requires Managed(|pages|, reserved, pp) && pp !in free && !V().s.IsTable(pp)
      modifies this`pages, this`page_free_list, this`mem, this`free, this`held
      ensures r == if old(V().s.PdeAt(e, PDX(va))) == 0 && old(free) == [] then -E_NO_MEM else 0
      ensures r != 0 ==> V() == old(V())
      ensures r == 0 ==> (V().Ok() <==> Within(perm / PGSIZE, pp) && old(Now()).Fits(pp, e, va))
      ensures r == 0 && V().Ok() ==> Inserted(old(V()), V(), RefOf(e, va), pp, WithP(perm % PGSIZE))
      ensures held == NULL
    {
      hide View.Ok;
      hide Walked;
      hide Removed;
      hide Inserted;
      ghost var v0 := V();
      Sizes(v0);
      var pte := PgdirWalk(e, va, true);
      if pte.NullPte? {
        return -E_NO_MEM;
      }
      ghost var v1 := V();
      WalkedFacts(v0, v1, pp);
      HoldKeeps(v1, pp);
      pages := pages[pp := pages[pp].(pp_ref := Inc16(pages[pp].pp_ref))];
      held := pp;
      assert V() == Hold(v1, pp);
      PageRemove(e, va);
      ghost var v3 := V();
      RemovedFacts(Hold(v1, pp), v3, RefOf(e, va));
      mem := Poke(mem, pte.page, pte.idx, EntryWord(pp, perm));
      held := NULL;
      EntryWordSplit(pp, perm);
      SamePageIff(pp, perm);
      if Within(perm / PGSIZE, pp) && old(Now()).Fits(pp, e, va) {
        InsertChain(v0, v1, v3, V().s, e, PDX(va), PTX(va), pp, WithP(perm % PGSIZE));
        InsertedFacts(v0, V(), RefOf(e, va), pp, WithP(perm % PGSIZE));
      } else {
        StrayChain(v0, v1, v3, V().s, e, PDX(va), PTX(va), pp, EntryWord(pp, perm));
      }
      return 0;
    }

    /** One round of env_free's outer loop: the table under directory slot pdeno is emptied and given back. */
    method FreeTable(e: nat, pdeno: nat, ghost v0: View, ghost gone: set<Ref>) returns (ghost gone': set<Ref>)
      requires v0.Ok() && v0.held == NULL && V().Ok() && Shed(v0, V(), gone) && (forall r | r in gone :: r.e == e)
      requires e < NENV && |envs| == NENV && envs[e].env_pgdir != NULL && pdeno < NUPDE
      modifies this`pages, this`page_free_list, this`mem, this`free
      ensures V().Ok() && Shed(v0, V(), gone') && (forall r | r in gone' :: r.e == e)
      ensures V().s.PdeAt(e, pdeno) == 0
      ensures forall x: nat | x < NUPDE && x != pdeno :: V().s.PdeAt(e, x) == old(V().s).PdeAt(e, x)
    {
      hide View.Ok;
      hide Shed;
      hide Removed;
      hide FlatOf;
      gone' := gone;
      Sizes(v0);
      DirPresent(V(), e, pdeno);
      var pde := mem[envs[e].env_pgdir][pdeno];
      PresentIffNonzero(V(), e, pdeno, 0);
      if !Present(pde) {
        return;
      }
      var pt := pde / PGSIZE;
      var pteno := 0;
      while pteno < NPTENTRIES
        invariant 0 <= pteno <= NPTENTRIES
        invariant V().Ok() && Shed(v0, V(), gone') && (forall r | r in gone' :: r.e == e)
        invariant V().s.Shape && forall x: nat | x < NUPDE :: V().s.PdeAt(e, x) == old(V().s).PdeAt(e, x)
        invariant forall t: nat | t < pteno :: V().s.Target(Pte(e, pdeno, t)) == NULL
      {
        ghost var v := V();
        PresentIffNonzero(v, e, pdeno, pteno);
        DirPresent(v, e, pdeno);
        if Present(mem[pt][pteno]) {
          UserPageAddress(e, pdeno, pteno);
          PageRemove(e, PGADDR(pdeno, pteno, 0));
          RemoveStep(v0, v, V(), gone', Pte(e, pdeno, pteno));
          Sizes(V());
          gone' := gone' + {Pte(e, pdeno, pteno)};
        }
        pteno := pteno + 1;
      }
      ghost var v := V();
      DirPresent(v, e, pdeno);
      assert v.s.Target(Pde(e, pdeno)) == pt;
      TableFacts(v, Pde(e, pdeno));
      mem := Poke(mem, envs[e].env_pgdir, pdeno, 0);
      PageDecref(pt);
      DetachStep(v0, v, V(), gone', e, pdeno, pt);
      gone' := gone' + {Pde(e, pdeno)};
    }

    method EnvFree(e: nat)
      requires Valid() && e < NENV && envs[e].env_status != ENV_FREE
      modifies this`pages, this`page_free_list, this`mem, this`free, this`envs, this`env_free_list, this`efree
      ensures Valid() && TornDown(old(V()), V(), e)
      ensures envs ==
              old(envs)[e := old(envs[e]).(env_status := ENV_FREE, env_pgdir := NULL, env_link := old(env_free_list))]
      ensures env_free_list == e && efree == [e] + old(efree)
    {
      hide View.Ok;
      hide Shed;
      hide FlatOf;
      hide TornDown;
      hide EnvsOk;
      ghost var v0 := V();
      EnvFacts(envs, env_free_list, efree);
      ghost var gone: set<Ref> := {};
      ShedNothing(v0);
      Sizes(v0);
      var pdeno := 0;
      while pdeno < NUPDE
        invariant 0 <= pdeno <= NUPDE && envs == old(envs) && env_free_list == old(env_free_list) && efree == old(efree)
        invariant V().Ok() && held == NULL && Shed(v0, V(), gone) && (forall r | r in gone :: r.e == e)
        invariant V().s.Shape && forall x: nat | x < pdeno :: V().s.PdeAt(e, x) == 0
      {
        ghost var v := V();
        gone := FreeTable(e, pdeno, v0, gone);
        Sizes(V());
        pdeno := pdeno + 1;
      }
      ghost var v := V();
      var pa := envs[e].env_pgdir;
      DirPresent(v, e, 0);
      assert v.s.Target(Pgdir(e)) == pa;
      TableFacts(v, Pgdir(e));
      envs := envs[e := envs[e].(env_pgdir := NULL)];
      assert Pgdirs(envs) == v.s.pgdir[e := NULL];
      PageDecref(pa);
      DropDirStep(v0, v, V(), gone, e, pa);
      ghost var done := V();
      TornDownFacts(v0, done, e);
      envs := envs[e := envs[e].(env_status := ENV_FREE, env_link := env_free_list)];
      assert Pgdirs(envs) == done.s.pgdir;
      EnvPush(old(envs), env_free_list, efree, e, envs[e]);
      assert envs == old(envs)[e := envs[e]];
      env_free_list := e;
      efree := [e] + efree;
    }

    method EnvSetupVm(e: nat) returns (r: int)
      requires V().Ok() && held == NULL && e < NENV && |envs| == NENV && envs[e].env_pgdir == NULL
      modifies this`pages, this`page_free_list, this`mem, this`free, this`envs
      ensures V().Ok() && FlatOf(V().s) == FlatOf(old(V().s))
      ensures V().s.Shape && old(V().s.Shape) && |mem| == |old(mem)| && DataKept(old(V()), V())
      ensures r == if old(free) == [] then -E_NO_MEM else 0
      ensures r != 0 ==> V() == old(V()) && envs == old(envs)
      ensures V().Lost() == old(V().Lost())
      ensures r == 0 ==>
                && free == old(free)[1..] && old(free)[0] < |mem| && kern_pgdir < |old(mem)|
                && envs == old(envs)[e := old(envs[e]).(env_pgdir := old(free)[0])]
                && CopyOfKernDir(mem[old(free)[0]], old(mem)[kern_pgdir], old(free)[0])
    {
      hide View.Ok;
      hide FlatOf;
      Sizes(V());
      var p := PageAlloc(true);
      Sizes(V());
      if p == NULL {
        return -E_NO_MEM;
      }
      ghost var v := V();
      AllocKeepsData(old(V()), v, p);
      KernDir(v);
      Sizes(v);
      envs := envs[e := envs[e].(env_pgdir := p)];
      mem := mem[p := mem[kern_pgdir]];
      assert mem[p] == old(mem)[kern_pgdir];
      pages := pages[p := pages[p].(pp_ref := Inc16(pages[p].pp_ref))];
      mem := Poke(mem, p, UVPT_PDX, MkEntry(p, 5));
      assert Pgdirs(envs) == v.s.pgdir[e := p];
      assert mem == v.s.mem[p := mem[p]];
      SetupDir(v, V(), e, p, mem[p]);
      Sizes(V());
      assert v.Lost() - {p as nat} == old(V().Lost());
      return 0;
    }

    method EnvAlloc(parent: int) returns (r: int, e: int)
      requires Valid()
      modifies this`pages, this`page_free_list, this`mem, this`free, this`envs, this`env_free_list, this`efree
      ensures Valid() && FlatOf(V().s) == FlatOf(old(V().s))
      ensures V().s.Shape && old(V().s.Shape) && |mem| == |old(mem)| && DataKept(old(V()), V())
      ensures r == if old(efree) == [] then -E_NO_FREE_ENV else if old(free) == [] then -E_NO_MEM else 0
      ensures r != 0 ==> V() == old(V()) && envs == old(envs) && efree == old(efree)
      ensures r == 0 ==>
                0 <= e < NENV && old(efree) == [e as nat] + efree && e !in efree && free == old(free)[1..] &&
                envs == old(envs)[e := Env(NextId(old(envs)[e].env_id, e), parent, ENV_RUNNABLE,
                                           old(envs)[e].env_link, old(free)[0],
                                           old(envs)[e].ipc.(recving := false))]
      ensures V().Lost() == old(V().Lost())
    {
      hide View.Ok;
      hide FlatOf;
      hide EnvsOk;
      Sizes(V());
      EnvFacts(envs, env_free_list, efree);
      if env_free_list == NULL {
        return -E_NO_FREE_ENV, NULL;
      }
      e := env_free_list;
      r := EnvSetupVm(e);
      if r < 0 {
        return;
      }
      NextIdOk(envs[e].env_id, e);
      ghost var v := V();
      envs := envs[e := envs[e].(env_id := NextId(envs[e].env_id, e), env_parent_id := parent,
          env_status := ENV_RUNNABLE, ipc := envs[e].ipc.(recving := false))];
      assert Pgdirs(envs) == v.s.pgdir;
      EnvPop(old(envs), env_free_list, efree, envs[e]);
      env_free_list := envs[e].env_link;
      efree := efree[1..];
      assert old(envs)[e := envs[e]] == envs;
    }

    ghost predicate Caller(cur: nat)
      reads this
    {
      |envs| == NENV && cur < NENV && envs[cur].env_status != ENV_FREE
    }

    /** env_page_alloc: check_perm, page_alloc, page_insert. When the page is there but the table for va is not, the
        page ends up lost; it is in no other case. */
    method EnvPageAlloc(e: nat, va: nat, perm: nat) returns (r: int)
      requires V().Ok() && held == NULL && UserVa(e, va) && V().s.Shape && |envs| == NENV
      modifies this`pages, this`page_free_list, this`mem, this`free, this`held
      ensures V().Ok() && held == NULL && V().s.Shape && |mem| == |old(mem)| && DataKept(old(V()), V())
      ensures r == if !GoodPerm(perm) then -E_INVAL else if old(Now()).NoRoom(e, va) then -E_NO_MEM else 0
      ensures r == -E_INVAL ==> V() == old(V())
      ensures r == -E_NO_MEM ==> free == []
      ensures V().Lost() == old(V().Lost()) + if r == -E_NO_MEM && old(free) != [] then {old(free)[0]} else {}
      ensures r != 0 ==> FlatOf(V().s) == FlatOf(old(V().s))
      ensures r == 0 ==>
                && old(free) != [] && old(free)[0] < |mem| && ZeroPage(V().s, old(free)[0])
                && FlatOf(V().s) == FlatOf(old(V().s))[SlotOf(e, va) := Entry(old(free)[0], perm)]
                && free == AllocFree(old(V()), RefOf(e, va))
    {
      hide View.Ok;
      hide FlatOf;
      hide Inserted;
      hide InsertFree;
      hide AllocFree;
      if !GoodPerm(perm) {
        return -E_INVAL;
      }
      var p := PageAlloc(true);
      if p == NULL {
        return -E_NO_MEM;
      }
      ghost var v := V();
      Sizes(v);
      UserAddress(va);
      assert ValidRef(Pde(e, PDX(va)));
      assert v.s.PdeAt(e, PDX(va)) == 0 <==> old(V().s.PdeAt(e, PDX(va))) == 0;
      AllocatedFacts(v, p);
      AllocKeepsData(old(V()), v, p);
      AllocFreeList(old(V()), v, RefOf(e, va), p);
      LowPerm(perm, p);
      r := PageInsert(e, p, va, perm);
      if r == 0 {
        InsertedFacts(v, V(), RefOf(e, va), p, perm);
        assert v.Lost() - {p as nat} == old(V().Lost());
      }
    }

    /** On success the first free page is mapped at va and reads as zeros; on failure no translation changes. */
    method SysPageAlloc(cur: nat, envid: int, va: nat, perm: nat) returns (r: int)
      requires Valid() && Caller(cur) && V().s.Shape
      modifies this`pages, this`page_free_list, this`mem, this`free, this`held
      ensures Valid() && V().s.Shape && |mem| == |old(mem)| && DataKept(old(V()), V())
      ensures r == old(Now()).AllocResult(cur, envid, va, perm)
      ensures r != 0 && r != -E_NO_MEM ==> V() == old(V())
      ensures r == -E_NO_MEM ==> free == []
      ensures V().Lost() == old(V().Lost()) + if r == -E_NO_MEM && old(free) != [] then {old(free)[0]} else {}
      ensures r != 0 ==> FlatOf(V().s) == FlatOf(old(V().s))
      ensures r == 0 ==>
                && old(free) != [] && old(free)[0] < |mem| && ZeroPage(V().s, old(free)[0])
                && var at := old(Now()).At(cur, envid, va);
                && FlatOf(V().s) == FlatOf(old(V().s))[SlotOfRef(at) := Entry(old(free)[0], WithUP(perm))]
                && free == AllocFree(old(V()), at)
    {
      hide View.Ok;
      hide FlatOf;
      hide EnvsOk;
      hide AllocFree;
      EnvFacts(envs, env_free_list, efree);
      if va >= UTOP || va % PGSIZE != 0 {
        return -E_INVAL;
      }
      var e := Envid2Env(envs, cur, envid, true);
      if e == NULL {
        return -E_BAD_ENV;
      }
      UserAddress(va);
      r := EnvPageAlloc(e, va, WithUP(perm));
    }

    /** env_page_map: the source's page at dstva, if it is there and not made writable; the invariant is kept exactly if
        the unchecked bits of perm are set in the number of the page and its count is not full. */
    method EnvPageMap(src: nat, srcva: nat, dst: nat, dstva: nat, perm: nat) returns (r: int)
      requires V().Ok() && held == NULL && UserVa(src, srcva) && UserVa(dst, dstva) && V().s.Shape && |envs| == NENV
      modifies this`pages, this`page_free_list, this`mem, this`free, this`held
      ensures held == NULL && r == old(Now()).EnvMapResult(src, srcva, dst, dstva, perm)
      ensures r != 0 ==> V() == old(V())
      ensures r == 0 ==>
                var p := old(V()).s.Target(RefOf(src, srcva));
                && p >= 0 && old(V()).Lost() - {p} == old(V()).Lost() && p < |old(pages)|
                && (V().Ok() <==> Within(perm / PGSIZE, p) && old(Now()).Fits(p, dst, dstva))
                && (V().Ok() ==> Inserted(old(V()), V(), RefOf(dst, dstva), p, WithP(perm % PGSIZE)))
    {
      hide View.Ok;
      hide FlatOf;
      hide Inserted;
      UserAddress(srcva);
      UserAddress(dstva);
      ghost var v := V();
      Sizes(v);
      var page, pte := PageLookup(src, srcva);
      if page == NULL {
        return -E_INVAL;
      }
      if Writable(perm) && !Writable(mem[pte.page][pte.idx]) {
        return -E_INVAL;
      }
      MappedIsData(v, RefOf(src, srcva));
      MappedNotLost(v, RefOf(src, srcva));
      r := PageInsert(dst, page, dstva, perm);
    }

    /** On success dstva maps the source page; nothing else in any address space changes, and no page contents, unless
        the call breaks the invariant, and MapKeeps says exactly when it does not. */
    method SysPageMap(cur: nat, srcid: int, srcva: nat, dstid: int, dstva: nat, perm: nat) returns (r: int)
      requires Valid() && Caller(cur) && V().s.Shape
      modifies this`pages, this`page_free_list, this`mem, this`free, this`held
      ensures r == old(Now()).MapResult(cur, srcid, srcva, dstid, dstva, perm)
      ensures r != 0 ==> Valid() && V() == old(V())
      ensures r == 0 ==> (V().Ok() <==> old(Now()).MapKeeps(cur, srcid, srcva, dstid, dstva, perm))
      ensures r == 0 && V().Ok() ==>
                && Valid() && V().s.Shape && |mem| == |old(mem)| && DataKept(old(V()), V())
                && var p, at := old(V()).s.Target(old(Now()).At(cur, srcid, srcva)), old(Now()).At(cur, dstid, dstva);
                && p >= 0 && FlatOf(V().s) == FlatOf(old(V().s))[SlotOfRef(at) := Entry(p, WithUP(perm) % PGSIZE)]
                && free == InsertFree(old(V()), at, p) && V().Lost() == old(V()).Lost()
    {
      hide View.Ok;
      hide FlatOf;
      hide Inserted;
      hide EnvsOk;
      EnvFacts(envs, env_free_list, efree);
      Sizes(V());
      if srcva >= UTOP || srcva % PGSIZE != 0 {
        return -E_INVAL;
      }
      if dstva >= UTOP || dstva % PGSIZE != 0 {
        return -E_INVAL;
      }
      var src := Envid2Env(envs, cur, srcid, true);
      if src == NULL {
        return -E_BAD_ENV;
      }
      var dst := Envid2Env(envs, cur, dstid, true);
      if dst == NULL {
        return -E_BAD_ENV;
      }
      UserAddress(srcva);
      UserAddress(dstva);
      UPKeepsHigh(perm);
      ghost var v := V();
      r := EnvPageMap(src, srcva, dst, dstva, WithUP(perm));
      if r == 0 && V().Ok() {
        InsertedFacts(v, V(), RefOf(dst, dstva), v.s.Target(RefOf(src, srcva)), WithUP(perm) % PGSIZE);
      }
    }

    method SysPageUnmap(cur: nat, envid: int, va: nat) returns (r: int)
      requires Valid() && Caller(cur) && V().s.Shape
      modifies this`pages, this`page_free_list, this`mem, this`free
      ensures Valid() && V().s.Shape && |mem| == |old(mem)| && DataKept(old(V()), V())
      ensures r == if !PageVa(va) then -E_INVAL
                   else if Envid2Env(envs, cur, envid, true) == NULL then -E_BAD_ENV else 0
      ensures r != 0 ==> V() == old(V())
      ensures r == 0 ==>
                var at := old(Now()).At(cur, envid, va);
                && FlatOf(V().s) == FlatOf(old(V().s)) - {SlotOfRef(at)}
                && free == Freed(old(V()), at) + old(free) && V().Lost() == old(V()).Lost()
    {
      hide View.Ok;
      hide FlatOf;
      hide EnvsOk;
      EnvFacts(envs, env_free_list, efree);
      if va >= UTOP || va % PGSIZE != 0 {
        return -E_INVAL;
      }
      var e := Envid2Env(envs, cur, envid, true);
      if e == NULL {
        return -E_BAD_ENV;
      }
      UserAddress(va);
      PageRemove(e, va);
      Sizes(V());
      return 0;
    }

    method SysExofork(cur: nat) returns (r: int)
      requires Valid() && Caller(cur)
      modifies this`pages, this`page_free_list, this`mem, this`free, this`envs, this`env_free_list, this`efree
      ensures Valid() && FlatOf(V().s) == FlatOf(old(V().s))
      ensures V().s.Shape && old(V().s.Shape) && |mem| == |old(mem)| && DataKept(old(V()), V())
      ensures r > 0 ==>
                && old(efree) != [] && old(free) != [] && free == old(free)[1..] && efree == old(efree)[1..]
                && var e := old(efree)[0];
                && e < NENV && old(envs[e].env_status) == ENV_FREE && ENVX(r) == e && old(env_free_list) == e
                && var env := Env(r, old(envs[cur].env_id), ENV_NOT_RUNNABLE, old(envs[e].env_link), old(free)[0],
                                  old(envs[e].ipc).(recving := false));
                envs == old(envs)[e := env]
      ensures V().Lost() == old(V().Lost())
      ensures r <= 0 ==>
                && r == (if old(efree) == [] then -E_NO_FREE_ENV else -E_NO_MEM)
                && (old(efree) == [] || old(free) == [])
                && V() == old(V()) && envs == old(envs) && efree == old(efree)
    {
      hide View.Ok;
      hide FlatOf;
      hide EnvsOk;
      EnvFacts(envs, env_free_list, efree);
      var e;
      r, e := EnvAlloc(envs[cur].env_id);
      if r < 0 {
        return;
      }
      ghost var v := V();
      envs := envs[e := envs[e].(env_status := ENV_NOT_RUNNABLE)];
      assert Pgdirs(envs) == v.s.pgdir;
      NextIdOk(old(envs)[e].env_id, e);
      StatusKeeps(old(envs)[e := envs[e].(env_status := ENV_RUNNABLE)], env_free_list, efree, e, ENV_NOT_RUNNABLE,
          envs[e].ipc);
      r := envs[e].env_id;
    }

    /** sys_env_set_status: only the target's status changes. */
    method SysEnvSetStatus(cur: nat, envid: int, status: EnvStatus) returns (r: int)
      requires Valid() && Caller(cur)
      modifies this`envs
      ensures Valid() && V() == old(V())
      ensures var e := old(Envid2Env(envs, cur, envid, true));
              && r == (if status != ENV_RUNNABLE && status != ENV_NOT_RUNNABLE then -E_INVAL
                       else if e == NULL then -E_BAD_ENV else 0)
              && envs == if r == 0 then old(envs)[e := old(envs[e]).(env_status := status)] else old(envs)
    {
      hide View.Ok;
      hide EnvsOk;
      if status != ENV_RUNNABLE && status != ENV_NOT_RUNNABLE {
        return -E_INVAL;
      }
      var e := Envid2Env(envs, cur, envid, true);
      if e == NULL {
        return -E_BAD_ENV;
      }
      EnvFacts(envs, env_free_list, efree);
      StatusKeeps(envs, env_free_list, efree, e, status, envs[e].ipc);
      ghost var dirs := Pgdirs(envs);
      envs := envs[e := envs[e].(env_status := status)];
      assert Pgdirs(envs) == dirs;
      return 0;
    }

    /** sys_env_destroy on an env that no other CPU is running. */
    method SysEnvDestroy(cur: nat, envid: int) returns (r: int)
      requires Valid() && Caller(cur)
      modifies this`pages, this`page_free_list, this`mem, this`free, this`envs, this`env_free_list, this`efree
      ensures Valid()
      ensures var e := old(Envid2Env(envs, cur, envid, true));
              if e == NULL then r == -E_BAD_ENV && V() == old(V()) && envs == old(envs)
              else
                && r == 0 && 0 <= e < NENV && old(V().s.Shape) && TornDown(old(V()), V(), e) && |envs| == NENV
                && V().s.Shape && V().Lost() == old(V().Lost())
                && envs[e].env_status == ENV_FREE && forall i | 0 <= i < NENV && i != e :: envs[i] == old(envs[i])
    {
      hide View.Ok;
      hide FlatOf;
      hide TornDown;
      hide EnvsOk;
      EnvFacts(envs, env_free_list, efree);
      Sizes(V());
      var e := Envid2Env(envs, cur, envid, true);
      if e == NULL {
        return -E_BAD_ENV;
      }
      ghost var v := V();
      EnvFree(e);
      TornDownLost(v, V(), e);
      TornDownFacts(v, V(), e);
      return 0;
    }

    /** A user-mode store: it reaches one word of the page the flat map gives, if that entry is writable. */
    method UserStore(cur: nat, va: nat, i: nat, w: nat) returns (fault: bool)
      requires Valid() && Caller(cur) && va < UTOP && i < NPTENTRIES
      modifies this`mem
      ensures Valid() && FlatOf(V().s) == FlatOf(old(V().s)) && V().s.Shape && V().Lost() == old(V().Lost())
      ensures fault <==> !(SlotOf(cur, va) in FlatOf(V().s) && Writable(FlatOf(V().s)[SlotOf(cur, va)].perm))
      ensures !fault ==>
                var p := FlatOf(V().s)[SlotOf(cur, va)].page;
                p < |old(mem)| && |old(mem[p])| == NPTENTRIES && mem == Poke(old(mem), p, i, w)
      ensures fault ==> mem == old(mem)
    {
      hide View.Ok;
      hide FlatOf;
      hide EnvsOk;
      EnvFacts(envs, env_free_list, efree);
      UserAddress(va);
      ghost var v := V();
      Sizes(v);
      var page, pte := PageLookup(cur, va);
      if page == NULL {
        return true;
      }
      MappedFlags(v, cur, va);
      if !Writable(mem[pte.page][pte.idx]) {
        return true;
      }
      MappedIsData(v, RefOf(cur, va));
      mem := Poke(mem, page, i, w);
      assert mem == v.s.mem[page := mem[page]];
      DataPageKeeps(v, V(), page, mem[page]);
      LostSame(v, V());
      return false;
    }
  }
}
