/** The guard of lib/fork.c's pgfault, at the bit level. */
module PgfaultGuard {
  // C's logical negation.
  function Not(x: bv32): bv32 { if x == 0 then 1 else 0 }

  /** (err & FEC_WR) & !(pte & PTE_COW) is zero for every error code and every entry: no fault is turned away, not
      even a write to a page that is not copy-on-write. */
  lemma GuardNeverFires(err: bv32, pte: bv32)
    ensures (err & 2) & Not(pte & 0x800) == 0
  {
    assert (err & 2) & 1 == 0;
  }
}
