/** The word page_insert stores, page2pa(pp) | perm | PTE_P, for a perm argument that nobody has checked. */
module PermBits {
  import opened Mmu

  // C's bitwise or.
  function Or(a: nat, b: nat): nat
    decreases a + b
  {
    if a == 0 && b == 0 then 0 else 2 * Or(a / 2, b / 2) + (if a % 2 == 1 || b % 2 == 1 then 1 else 0)
  }

  // Every bit of b is set in a.
  predicate Within(b: nat, a: nat) { b == 0 || (b % 2 <= a % 2 && Within(b / 2, a / 2)) }

  function EntryWord(page: nat, perm: nat): nat { Or(Or(page * PGSIZE, perm), PTE_P) }

  lemma {:induction false} OrSameIff(a: nat, b: nat)
    ensures Or(a, b) == a <==> Within(b, a)
    decreases a + b
  {
    if b > 0 {
      OrSameIff(a / 2, b / 2);
      assert Or(a, b) / 2 == Or(a / 2, b / 2);
    } else {
      OrZero(a);
    }
  }

  lemma {:induction false} OrZero(a: nat)
    ensures Or(a, 0) == a
  {
    if a > 0 {
      OrZero(a / 2);
    }
  }

  lemma OrOne(a: nat)
    ensures Or(a, 1) == WithP(a)
  {
    OrZero(a / 2);
  }

  lemma OrEven(a: nat, b: nat)
    ensures Or(2 * a, b) == 2 * Or(a, b / 2) + b % 2
  {
  }

  lemma OrEight(a: nat, b: nat)
    ensures Or(8 * a, b) == 8 * Or(a, b / 8) + b % 8
  {
    hide Or;
    OrEven(4 * a, b);
    OrEven(2 * a, b / 2);
    OrEven(a, b / 2 / 2);
    assert b / 2 / 2 / 2 == b / 8;
  }

  lemma FourDigits(b: nat)
    ensures b / 8 / 8 / 8 / 8 == b / PGSIZE
    ensures b % 8 + 8 * (b / 8 % 8) + 64 * (b / 8 / 8 % 8) + 512 * (b / 8 / 8 / 8 % 8) == b % PGSIZE
  {
    var b1 := b / 8;
    var b2 := b1 / 8;
    var b3 := b2 / 8;
    assert b == 8 * b1 + b % 8 && b1 == 8 * b2 + b1 % 8 && b2 == 8 * b3 + b2 % 8 && b3 == 8 * (b3 / 8) + b3 % 8;
    assert b == PGSIZE * (b3 / 8) + (b % 8 + 8 * (b1 % 8) + 64 * (b2 % 8) + 512 * (b3 % 8));
  }

  // Shifting the page number twelve places up leaves the low twelve bits to perm.
  lemma OrShifted(page: nat, b: nat)
    ensures Or(page * PGSIZE, b) == PGSIZE * Or(page, b / PGSIZE) + b % PGSIZE
  {
    hide Or;
    OrEight(512 * page, b);
    OrEight(64 * page, b / 8);
    OrEight(8 * page, b / 8 / 8);
    OrEight(page, b / 8 / 8 / 8);
    FourDigits(b);
  }

  /** The entry names the page whose number is that of pp with the bits of perm above the low twelve or-ed in; its
      flags are the low twelve with PTE_P. */
  lemma EntryWordSplit(page: nat, perm: nat)
    ensures EntryWord(page, perm) == MkEntry(Or(page, perm / PGSIZE), WithP(perm % PGSIZE))
  {
    hide Or;
    OrShifted(page, perm);
    OrOne(Or(page * PGSIZE, perm));
    var q, f := Or(page, perm / PGSIZE), perm % PGSIZE;
    assert PGSIZE * q + f == 2 * (2048 * q) + f;
  }

  /** So it names pp itself if and only if those bits are already set in its number. */
  lemma SamePageIff(page: nat, perm: nat)
    ensures EntryWord(page, perm) / PGSIZE == page <==> Within(perm / PGSIZE, page)
    ensures Within(perm / PGSIZE, page) ==> EntryWord(page, perm) == MkEntry(page, WithP(perm % PGSIZE))
  {
    EntryWordSplit(page, perm);
    OrSameIff(page, perm / PGSIZE);
  }

  // One stray bit, and the next page is mapped.
  lemma StrayBit()
    ensures !Within(0x1007 / PGSIZE, 0x300) && EntryWord(0x300, 0x1007) / PGSIZE == 0x301
  {
    EntryWordSplit(0x300, 0x1007);
    OrEven(0x180, 1);
    OrZero(0x180);
  }

  // The lowest bit, and the rest.
  lemma WithinStep(b: nat, a: nat)
    ensures Within(b, a) <==> b % 2 <= a % 2 && Within(b / 2, a / 2)
  {
    if b == 0 {
      assert Within(b / 2, a / 2);
    }
  }

  // PTE_SYSCALL is PTE_AVAIL, PTE_P, PTE_W and PTE_U.
  lemma SyscallBitsIff(perm: nat)
    ensures SyscallBits(perm) <==> Within(perm, 0xe07)
  {
    hide Within;
    var p1, p2 := perm / 2, perm / 2 / 2;
    var p3 := p2 / 2;
    WithinStep(perm, 0xe07);
    WithinStep(p1, 0x703);
    WithinStep(p2, 0x381);
    WithinSix(p3);
    assert p3 == perm / 8;
  }

  // Three places that must be clear.
  lemma WithinEight(p: nat, a: nat)
    ensures Within(p, 8 * a) <==> p % 8 == 0 && Within(p / 8, a)
  {
    hide Within;
    WithinStep(p, 8 * a);
    WithinStep(p / 2, 4 * a);
    WithinStep(p / 2 / 2, 2 * a);
    assert p / 2 / 2 / 2 == p / 8;
    assert p % 8 == p % 2 + 2 * (p / 2 % 2) + 4 * (p / 2 / 2 % 2);
  }

  // Six places that must be clear, and the three bits above them.
  lemma WithinSix(p: nat)
    ensures Within(p, 0x1c0) <==> p % 64 == 0 && p < 512
  {
    hide Within;
    WithinEight(p, 0x38);
    WithinEight(p / 8, 7);
    WithinThree(p / 8 / 8);
    assert p % 64 == p % 8 + 8 * (p / 8 % 8) && p / 8 / 8 == p / 64;
  }

  lemma WithinThree(p: nat)
    ensures Within(p, 7) <==> p < 8
  {
    hide Within;
    WithinStep(p, 7);
    WithinStep(p / 2, 3);
    WithinStep(p / 2 / 2, 1);
    WithinZero(p / 2 / 2 / 2);
  }

  lemma WithinZero(p: nat)
    ensures Within(p, 0) <==> p == 0
  {
    if p > 0 && Within(p, 0) {
      WithinZero(p / 2);
    }
  }

  // perm | PTE_U | PTE_P
  lemma WithUPIsOr(perm: nat)
    ensures WithUP(perm) == Or(perm, 5)
  {
    hide Or;
    OrUnfold(perm, 5);
    OrUnfold(perm / 2, 2);
    OrUnfold(perm / 2 / 2, 1);
    OrZero(perm / 2 / 2 / 2);
    var p := WithP(perm);
    assert perm / 4 == perm / 2 / 2 && p / 4 == perm / 4;
  }

  lemma OrUnfold(a: nat, b: nat)
    ensures Or(a, b) == 2 * Or(a / 2, b / 2) + (if a % 2 == 1 || b % 2 == 1 then 1 else 0)
  {
  }
}
