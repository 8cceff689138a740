/** Address arithmetic and layout constants: inc/mmu.h, inc/memlayout.h, inc/env.h, inc/error.h.
    Addresses and page-table words are unsigned 32-bit values, kept as `nat`. */
module Mmu {
  const PGSIZE: nat := 4096
  const PTSIZE: nat := 0x40_0000
  const NPTENTRIES: nat := 1024
  const NENV: nat := 1024
  const UVPT: nat := 0xef40_0000
  const UTOP: nat := 0xeec0_0000
  const UXSTACKTOP: nat := UTOP
  const PFTEMP: nat := 0x7f_f000

  // Directory slots below UTOP (PDX(UTOP)) and user page numbers below UTOP.
  const NUPDE: nat := 955
  const NUPN: nat := 977920
  const UVPT_PDX: nat := 957

  const PTE_P: nat := 1

  // Error codes, returned negated.
  const E_BAD_ENV: int := 2
  const E_INVAL: int := 3
  const E_NO_MEM: int := 4
  const E_NO_FREE_ENV: int := 5
  const E_IPC_NOT_RECV: int := 7

  // A null page or env pointer.
  const NULL: int := -1

  function PGNUM(la: nat): nat { la / PGSIZE }
  function PDX(la: nat): nat { la / PTSIZE % 1024 }
  function PTX(la: nat): nat { la / PGSIZE % 1024 }
  function PGOFF(la: nat): nat { la % PGSIZE }
  function PGADDR(d: nat, t: nat, o: nat): nat { d * PTSIZE + t * PGSIZE + o }

  // perm | PTE_P
  function WithP(perm: nat): (w: nat)
    ensures Present(w) && (perm < PGSIZE ==> w < PGSIZE)
  {
    if perm % 2 == 1 then perm else perm + 1
  }

  // perm | PTE_U | PTE_P
  function WithUP(perm: nat): (w: nat)
    ensures Present(w) && ForUser(w) && (perm < PGSIZE ==> w < PGSIZE)
  {
    var p := WithP(perm);
    if ForUser(p) then p else
      SetUser(p);
      p + 4
  }

  lemma SetUser(p: nat)
    requires !ForUser(p)
    ensures ForUser(p + 4) && Present(p + 4) == Present(p) && (p < PGSIZE ==> p + 4 < PGSIZE)
  {
    assert p == 8 * (p / 8) + p % 8 && p / 4 == 2 * (p / 8) + p % 8 / 4;
    assert (p + 4) / 4 == p / 4 + 1;
  }

  // !(perm & ~PTE_SYSCALL): only PTE_P, PTE_W, PTE_U and the PTE_AVAIL bits.
  predicate SyscallBits(perm: nat) { perm < PGSIZE && perm / 8 % 64 == 0 }

  predicate Present(w: nat) { w % 2 == 1 }
  predicate Writable(w: nat) { w / 2 % 2 == 1 }
  predicate ForUser(w: nat) { w / 4 % 2 == 1 }

  // check_perm without an entry
  predicate GoodPerm(perm: nat) { SyscallBits(perm) && Present(perm) && ForUser(perm) }

  // A page-aligned address below UTOP.
  predicate PageVa(va: nat) { va < UTOP && va % PGSIZE == 0 }

  // page2pa(pp) | flags, for flags in the low twelve bits
  function MkEntry(page: nat, flags: nat): (w: nat)
    requires flags < PGSIZE
    ensures w / PGSIZE == page && w % PGSIZE == flags
  {
    page * PGSIZE + flags
  }

  lemma EntryBits(page: nat, flags: nat)
    requires flags < PGSIZE
    ensures Present(MkEntry(page, flags)) == Present(flags)
    ensures Writable(MkEntry(page, flags)) == Writable(flags)
  {
    assert (page * 1024 * 4 + flags) % 4 == flags % 4;
    BitsFromMod4(MkEntry(page, flags));
    BitsFromMod4(flags);
  }

  lemma BitsFromMod4(w: nat)
    ensures Present(w) == (w % 4 == 1 || w % 4 == 3)
    ensures Writable(w) == (w % 4 >= 2)
  {
  }

  /** PGADDR inverts PDX, PTX and PGOFF on 32-bit addresses, and the page number is the two indices. */
  lemma AddressSplit(la: nat)
    requires la < 0x1_0000_0000
    ensures PGADDR(PDX(la), PTX(la), PGOFF(la)) == la
    ensures PGNUM(la) == PDX(la) * 1024 + PTX(la)
    ensures PGNUM(la) / 1024 == PDX(la) && PGNUM(la) % 1024 == PTX(la)
    ensures la < UTOP <==> PDX(la) < NUPDE
  {
    assert la / PTSIZE == la / PGSIZE / 1024;
    assert la / PTSIZE < 1024;
  }
}
