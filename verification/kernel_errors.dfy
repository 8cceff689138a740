/** The errors of the mapping calls and of sends, as their comments list them: in terms of addresses, ids and the flat
    map alone, each if and only if its reason is there. Where code and comment differ the code is followed. */
module KernelErrors {
  import opened Mmu
  import opened VmStore
  import opened VmView
  import opened VmSteps
  import opened EnvId
  import opened PermBits
  import opened KernelVm
  import opened KernelIpc

  // envid names e for the caller: 0 is the caller itself, and otherwise it is an allocated env's id, and that env is
  // the caller or, where permission is asked for, its child.
  predicate Names(m: Snapshot, cur: nat, envid: int, e: nat, checked: bool)
    requires |m.envs| == NENV && cur < NENV
  {
    && e < NENV
    && if envid == 0 then e == cur
       else
         && m.envs[e].env_status != ENV_FREE && m.envs[e].env_id == envid
         && (checked ==> e == cur || m.envs[e].env_parent_id == m.envs[cur].env_id)
  }

  ghost predicate Named(m: Snapshot, cur: nat, envid: int, checked: bool)
    requires |m.envs| == NENV && cur < NENV
  {
    exists e: nat :: Names(m, cur, envid, e, checked)
  }

  // The env table is as EnvsOk says, for some free list.
  ghost predicate Table(m: Snapshot) { exists head, efree :: EnvsOk(m.envs, head, efree) }

  /** envid2env finds e if and only if envid names it, and there is no other. */
  lemma NamesExact(m: Snapshot, cur: nat, envid: int, e: nat, checked: bool)
    requires Table(m) && |m.envs| == NENV && cur < NENV && e < NENV
    ensures Envid2Env(m.envs, cur, envid, checked) == e <==> Names(m, cur, envid, e, checked)
    ensures Envid2Env(m.envs, cur, envid, checked) == NULL <==> !Named(m, cur, envid, checked)
  {
    var head, efree :| EnvsOk(m.envs, head, efree);
    hide EnvsOk;
    if envid != 0 {
      EnvIdsExact(m.envs, head, efree, cur, envid);
    }
    var f := Envid2Env(m.envs, cur, envid, checked);
    if f >= 0 {
      assert Names(m, cur, envid, f, checked);
    }
  }

  // A page-aligned user address.
  predicate Aligned(va: nat) { va < 0xeec0_0000 && va % 4096 == 0 }

  // The page number of va in address space e is mapped, and there perhaps writable.
  ghost predicate Mapped(m: Snapshot, e: nat, va: nat)
    requires m.Shaped()
  {
    Slot(e, va / 4096) in FlatOf(m.v.s)
  }

  ghost predicate MappedW(m: Snapshot, e: nat, va: nat)
    requires m.Shaped()
  {
    Mapped(m, e, va) && FlatOf(m.v.s)[Slot(e, va / 4096)].perm / 2 % 2 == 1
  }

  // Address va of e has no page table yet.
  ghost predicate Tableless(m: Snapshot, e: nat, va: nat)
    requires m.Shaped()
  {
    e < NENV && va < UTOP && PDX(va) < NUPDE && m.v.s.PdeAt(e, PDX(va)) == 0
  }

  lemma AddressFacts(m: Snapshot, e: nat, va: nat)
    requires m.Shaped() && e < NENV && va < UTOP
    ensures ValidRef(RefOf(e, va)) && PDX(va) < NUPDE
    ensures m.v.s.Target(RefOf(e, va)) == NULL <==> !Mapped(m, e, va)
    ensures Mapped(m, e, va) ==> (Writable(m.v.s.PteAt(e, PDX(va), PTX(va))) <==> MappedW(m, e, va))
    ensures Mapped(m, e, va) && m.v.Ok() ==> Present(m.v.s.PteAt(e, PDX(va), PTX(va)))
  {
    UserAddress(va);
    WordOfFlat(m.v.s, RefOf(e, va));
    if Mapped(m, e, va) {
      var en := FlatOf(m.v.s)[Slot(e, va / 4096)];
      EntryBits(en.page, en.perm);
    }
  }

  // --- sys_page_alloc ---

  /** -E_INVAL for a bad address, or a perm that has more than PTE_U, PTE_P, PTE_W and PTE_AVAIL; -E_BAD_ENV for an id
      that names nobody; -E_NO_MEM if a page is missing for the caller or for the table; and nothing else fails. The
      address is looked at before the id, the id before perm. */
  lemma AllocErrors(m: Snapshot, cur: nat, envid: int, va: nat, perm: nat)
    requires m.Shaped() && Table(m) && cur < NENV
    ensures var r := m.AllocResult(cur, envid, va, perm);
            && (r == -E_BAD_ENV <==> Aligned(va) && !Named(m, cur, envid, true))
            && (r == -E_INVAL <==> !Aligned(va) || (Named(m, cur, envid, true) && !Within(perm, 0xe07)))
            && (r == -E_NO_MEM <==>
                  && Aligned(va) && Within(perm, 0xe07)
                  && exists e: nat ::
                       Names(m, cur, envid, e, true) &&
                       (m.v.free == [] || (|m.v.free| == 1 && Tableless(m, e, va))))
            && (r == 0 || r == -E_BAD_ENV || r == -E_INVAL || r == -E_NO_MEM)
  {
    NamesExact(m, cur, envid, cur, true);
    PermTest(perm);
    var e := m.Named(cur, envid);
    if va < UTOP && e >= 0 {
      NamesExact(m, cur, envid, e, true);
      AddressFacts(m, e, va);
      forall f: nat | Names(m, cur, envid, f, true)
        ensures f == e
      {
        NamesExact(m, cur, envid, f, true);
      }
    }
  }

  // check_perm's test of what is left after PTE_U and PTE_P have been added.
  lemma PermTest(perm: nat)
    ensures GoodPerm(WithUP(perm)) <==> Within(perm, 0xe07)
  {
    hide Within;
    SyscallBitsIff(perm);
    UPKeepsSyscall(perm);
  }

  lemma UPKeepsSyscall(perm: nat)
    ensures SyscallBits(WithUP(perm)) <==> SyscallBits(perm)
  {
    var p := WithP(perm);
    assert p / 8 == perm / 8;
    if !ForUser(p) {
      SetUser(p);
      assert p == 8 * (p / 8) + p % 8;
      assert p % 8 < 4 by {
        assert p / 4 == 2 * (p / 8) + p % 8 / 4;
      }
      assert (p + 4) / 8 == p / 8;
    }
  }

  // --- sys_page_map ---

  /** -E_INVAL for a bad address, a source that is not mapped, or PTE_W for a source that is not writable; -E_BAD_ENV
      for an id that names nobody; -E_NO_MEM if there is no page for a table. Inappropriate bits of perm, which the
      comment lists as well, are no error. */
  lemma MapErrors(m: Snapshot, cur: nat, srcid: int, srcva: nat, dstid: int, dstva: nat, perm: nat)
    requires m.Shaped() && Table(m) && cur < NENV
    ensures var r := m.MapResult(cur, srcid, srcva, dstid, dstva, perm);
            var good := Aligned(srcva) && Aligned(dstva);
            var both := Named(m, cur, srcid, true) && Named(m, cur, dstid, true);
            && (r == -E_BAD_ENV <==> good && !both)
            && (r == -E_INVAL <==>
                  || !good
                  || (both && exists s: nat ::
                        Names(m, cur, srcid, s, true) &&
                        (!Mapped(m, s, srcva) || (perm / 2 % 2 == 1 && !MappedW(m, s, srcva)))))
            && (r == -E_NO_MEM ==>
                  && good && m.v.free == []
                  && exists d: nat :: Names(m, cur, dstid, d, true) && Tableless(m, d, dstva))
            && (r == 0 ==> good && both)
            && (r == 0 ==> exists s: nat ::
                  Names(m, cur, srcid, s, true) && Mapped(m, s, srcva) && (perm / 2 % 2 == 1 ==> MappedW(m, s, srcva)))
            && (r == 0 && m.v.free == [] ==>
                  exists d: nat :: Names(m, cur, dstid, d, true) && !Tableless(m, d, dstva))
            && (r == 0 || r == -E_BAD_ENV || r == -E_INVAL || r == -E_NO_MEM)
  {
    NamesExact(m, cur, srcid, cur, true);
    NamesExact(m, cur, dstid, cur, true);
    UPKeepsWrite(perm);
    var s, d := m.Named(cur, srcid), m.Named(cur, dstid);
    if s >= 0 && d >= 0 && srcva < UTOP && dstva < UTOP {
      NamesExact(m, cur, srcid, s, true);
      NamesExact(m, cur, dstid, d, true);
      AddressFacts(m, s, srcva);
      AddressFacts(m, d, dstva);
      forall f: nat | Names(m, cur, srcid, f, true)
        ensures f == s
      {
        NamesExact(m, cur, srcid, f, true);
      }
    }
  }

  // --- sys_ipc_try_send ---

  /** Before a page is touched: -E_BAD_ENV for an id that names nobody, no permission being asked for; -E_IPC_NOT_RECV
      for a target that is not receiving; and, below UTOP, -E_INVAL for an address that is not aligned or PTE_W for a
      source that is mapped and not writable. A source that is not mapped may pass. */
  lemma SendErrors(m: Snapshot, cur: nat, envid: int, srcva: nat, perm: nat, junk: nat)
    requires m.Shaped() && m.v.Ok() && Table(m) && cur < NENV && (srcva < UTOP ==> ValidRef(RefOf(cur, srcva)))
    ensures var r := SendError(m, cur, envid, srcva, perm, junk);
            && (r == -E_BAD_ENV <==> !Named(m, cur, envid, false))
            && (r == -E_IPC_NOT_RECV <==> exists e: nat ::
                  Names(m, cur, envid, e, false) && !m.envs[e].ipc.recving)
            && (srcva < UTOP && Mapped(m, cur, srcva) ==>
                  (r == -E_INVAL <==>
                     && (exists e: nat :: Names(m, cur, envid, e, false) && m.envs[e].ipc.recving)
                     && (srcva % 4096 != 0 || (perm / 2 % 2 == 1 && !MappedW(m, cur, srcva)))))
            && (srcva >= UTOP ==> r != -E_INVAL)
            && (r == 0 || r == -E_BAD_ENV || r == -E_INVAL || r == -E_IPC_NOT_RECV)
  {
    hide View.Ok;
    NamesExact(m, cur, envid, cur, false);
    if srcva < UTOP {
      AddressFacts(m, cur, srcva);
    }
    var e := Envid2Env(m.envs, cur, envid, false);
    if e >= 0 {
      NamesExact(m, cur, envid, e, false);
      forall f: nat | Names(m, cur, envid, f, false)
        ensures f == e
      {
        NamesExact(m, cur, envid, f, false);
      }
    }
  }
}
