/** The recursive directory slot: uvpt and uvpd read the very words that pgdir_walk writes. */
module SelfMap {
  import opened Mmu
  import opened VmStore
  import opened VmView

  const UVPD: nat := UVPT + PGNUM(UVPT) * 4

  datatype PhysAddr = Fault | At(pa: nat)

  /** The MMU's two-level walk of va from the directory page cr3 (32-bit paging, 4-KByte pages). */
  function Translate(s: Store, cr3: nat, va: nat): PhysAddr
    requires s.Shape && cr3 < |s.mem|
  {
    var pde := s.mem[cr3][PDX(va)];
    if !Present(pde) || pde / PGSIZE >= |s.mem| then Fault
    else
      var pte := s.mem[pde / PGSIZE][PTX(va)];
      if !Present(pte) then Fault else At(pte / PGSIZE * PGSIZE + PGOFF(va))
  }

  lemma UvptIndices(pn: nat)
    requires pn < NUPN
    ensures var va := UVPT + 4 * pn; PDX(va) == UVPT_PDX && PTX(va) == pn / 1024 && PGOFF(va) == 4 * (pn % 1024)
  {
    var va := UVPT + 4 * pn;
    assert va == (UVPT_PDX * 1024 + pn / 1024) * 4096 + 4 * (pn % 1024);
    assert va / PGSIZE == UVPT_PDX * 1024 + pn / 1024;
    assert va / PTSIZE == va / PGSIZE / 1024;
  }

  lemma UvpdIndices(x: nat)
    requires x < NPTENTRIES
    ensures var va := UVPD + 4 * x; PDX(va) == UVPT_PDX && PTX(va) == UVPT_PDX && PGOFF(va) == 4 * x
  {
    var va := UVPD + 4 * x;
    assert va / PGSIZE == UVPT_PDX * 1024 + UVPT_PDX;
    assert va / PTSIZE == UVPT_PDX;
  }

  lemma SelfEntry(v: View, e: nat)
    requires v.Ok() && e < NENV && v.s.pgdir[e] != NULL
    ensures var d := v.s.pgdir[e];
            0 <= d < |v.s.mem| && Present(v.s.mem[d][UVPT_PDX]) && v.s.mem[d][UVPT_PDX] / PGSIZE == d
  {
    EntryBits(v.s.pgdir[e], 5);
  }

  /** uvpt[pn] is the entry pgdir_walk returns for pn << 12, whenever its table is present. */
  lemma UvptReachesEntry(v: View, e: nat, pn: nat)
    requires v.Ok() && e < NENV && v.s.pgdir[e] != NULL && pn < NUPN && v.s.PdeAt(e, pn / 1024) != 0
    ensures 0 <= v.s.pgdir[e] < |v.s.mem|
    ensures Translate(v.s, v.s.pgdir[e], UVPT + 4 * pn) ==
            At(v.s.PdeAt(e, pn / 1024) / PGSIZE * PGSIZE + 4 * (pn % 1024))
  {
    UvptIndices(pn);
    SelfEntry(v, e);
    var w := v.s.PdeAt(e, pn / 1024);
    assert w == MkEntry(w / PGSIZE, 7);
    EntryBits(w / PGSIZE, 7);
  }

  /** uvpd[x] is directory entry x itself, and uvpt faults exactly where the table is missing. */
  lemma UvpdReachesDirectory(v: View, e: nat, x: nat)
    requires v.Ok() && e < NENV && v.s.pgdir[e] != NULL && x < NPTENTRIES
    ensures 0 <= v.s.pgdir[e] < |v.s.mem|
    ensures Translate(v.s, v.s.pgdir[e], UVPD + 4 * x) == At(v.s.pgdir[e] * PGSIZE + 4 * x)
    ensures x < NUPDE && v.s.PdeAt(e, x) == 0 ==> Translate(v.s, v.s.pgdir[e], UVPT + 4096 * x) == Fault
  {
    UvpdIndices(x);
    SelfEntry(v, e);
    if x < NUPDE {
      UvptIndices(1024 * x);
    }
  }

  // --- what user code may do ---

  // The MMU lets user code load from va: both entries are present and for users.
  predicate UserLoads(s: Store, cr3: nat, va: nat)
    requires s.Shape && cr3 < |s.mem|
  {
    var pde := s.mem[cr3][PDX(va)];
    && Present(pde) && ForUser(pde) && pde / PGSIZE < |s.mem|
    && var pte := s.mem[pde / PGSIZE][PTX(va)]; Present(pte) && ForUser(pte)
  }

  // ... and store to it: both are also writable.
  predicate UserStores(s: Store, cr3: nat, va: nat)
    requires s.Shape && cr3 < |s.mem|
  {
    && UserLoads(s, cr3, va) && Writable(s.mem[cr3][PDX(va)])
    && Writable(s.mem[s.mem[cr3][PDX(va)] / PGSIZE][PTX(va)])
  }

  lemma FlagBits(page: nat, flags: nat)
    requires flags < PGSIZE
    ensures Present(MkEntry(page, flags)) == Present(flags) && Writable(MkEntry(page, flags)) == Writable(flags)
    ensures ForUser(MkEntry(page, flags)) == ForUser(flags)
  {
    EntryBits(page, flags);
    UserFromMod8(MkEntry(page, flags));
    UserFromMod8(flags);
    LowThree(page, flags);
  }

  lemma LowThree(page: nat, flags: nat)
    requires flags < PGSIZE
    ensures MkEntry(page, flags) % 8 == flags % 8
  {
    assert MkEntry(page, flags) == 8 * (512 * page) + flags;
    EightMore(512 * page, flags);
  }

  lemma EightMore(n: nat, f: nat)
    ensures (8 * n + f) % 8 == f % 8
  {
  }

  lemma UserFromMod8(w: nat)
    ensures ForUser(w) <==> w % 8 >= 4
  {
    assert w == 8 * (w / 8) + w % 8 && w / 4 == 2 * (w / 8) + w % 8 / 4;
  }

  /** Directory entries restrict nothing: below UTOP user code may load and store exactly what the flat map's flags
      allow, at the address the flat map gives. */
  lemma FlatIsEffective(v: View, e: nat, va: nat)
    requires v.Ok() && e < NENV && v.s.pgdir[e] != NULL && va < UTOP
    ensures 0 <= v.s.pgdir[e] < |v.s.mem|
    ensures var f, sl, d := FlatOf(v.s), Slot(e, PGNUM(va)), v.s.pgdir[e];
            && (UserLoads(v.s, d, va) <==> sl in f && ForUser(f[sl].perm))
            && (UserStores(v.s, d, va) <==> sl in f && ForUser(f[sl].perm) && Writable(f[sl].perm))
            && (sl in f ==> Translate(v.s, d, va) == At(f[sl].page * PGSIZE + PGOFF(va)))
            && (sl !in f ==> Translate(v.s, d, va) == Fault)
  {
    AddressSplit(va);
    WalkWords(v, e, PDX(va), PTX(va));
    hide View.Ok;
    hide Present;
    hide Writable;
    hide ForUser;
    assert WordAt(v.s, Slot(e, PGNUM(va))) == v.s.PteAt(e, PDX(va), PTX(va));
  }

  lemma FlagConstants()
    ensures Present(7) && Writable(7) && ForUser(7) && !Present(0)
  {
  }

  // The two words the walk sees.
  lemma WalkWords(v: View, e: nat, x: nat, t: nat)
    requires v.Ok() && e < NENV && v.s.pgdir[e] != NULL && x < NUPDE && t < NPTENTRIES
    ensures v.s.Shape && 0 <= v.s.pgdir[e] < |v.s.mem|
    ensures var pde, pte := v.s.PdeAt(e, x), v.s.PteAt(e, x, t);
            && v.s.mem[v.s.pgdir[e]][x] == pde
            && (Present(pde) <==> pde != 0) && (pde != 0 ==> pde / PGSIZE < |v.s.mem| && ForUser(pde) && Writable(pde))
            && (pde != 0 ==> v.s.mem[pde / PGSIZE][t] == pte) && (Present(pte) <==> pte != 0)
            && Writable(pte % PGSIZE) == Writable(pte) && ForUser(pte % PGSIZE) == ForUser(pte)
  {
    hide Present;
    hide Writable;
    hide ForUser;
    FlagConstants();
    assert v.s.Target(Pgdir(e)) == v.s.pgdir[e];
    var pde, pte := v.s.PdeAt(e, x), v.s.PteAt(e, x, t);
    if pde != 0 {
      assert v.s.Target(Pde(e, x)) == pde / PGSIZE;
      assert pde == MkEntry(pde / PGSIZE, 7);
      FlagBits(pde / PGSIZE, 7);
    }
    assert pte == MkEntry(pte / PGSIZE, pte % PGSIZE);
    FlagBits(pte / PGSIZE, pte % PGSIZE);
  }

  /** The page tables are out of reach of user stores: through the self-map user code can load every entry of a table
      that is there, and can store to none. */
  lemma UvptReadOnly(v: View, e: nat, va: nat)
    requires v.Ok() && e < NENV && v.s.pgdir[e] != NULL && UVPT <= va < UVPT + PTSIZE
    ensures 0 <= v.s.pgdir[e] < |v.s.mem| && !UserStores(v.s, v.s.pgdir[e], va)
    ensures PTX(va) < NUPDE ==> (UserLoads(v.s, v.s.pgdir[e], va) <==> v.s.PdeAt(e, PTX(va)) != 0)
  {
    SelfEntry(v, e);
    assert PDX(va) == UVPT_PDX;
    FlagBits(v.s.pgdir[e], 5);
    if PTX(va) < NUPDE {
      var w := v.s.PdeAt(e, PTX(va));
      if w != 0 {
        assert w == MkEntry(w / PGSIZE, 7);
        FlagBits(w / PGSIZE, 7);
      }
    }
  }
}
