/** Environment identifiers (inc/env.h, env_alloc and envid2env in kern/env.c). */
module EnvId {
  import opened Mmu

  const GENSTEP: int := 4096          // 1 << ENVGENSHIFT
  const NGEN: nat := 0x7_ffff         // generations before the 32-bit sign bit is reached

  datatype EnvStatus = ENV_FREE | ENV_DYING | ENV_RUNNABLE | ENV_RUNNING | ENV_NOT_RUNNABLE

  // ENVX(envid): the low ten bits, also of a negative id.
  function ENVX(envid: int): nat { envid % NENV }

  // Conversion of an in-range sum to a 32-bit signed integer.
  function Int32(x: int): int { if x >= 0x8000_0000 then x - 0x1_0000_0000 else x }

  /** The id env_alloc stores in a slot whose previous id is `id`. */
  function NextId(id: int, slot: nat): int
  {
    var sum := Int32(id + GENSTEP);
    var generation := sum - sum % NENV;
    (if generation <= 0 then GENSTEP else generation) + slot
  }

  // What a slot's env_id can be: 0 before the first allocation, else generation | slot.
  predicate IdOk(id: int, slot: nat) {
    id == 0 || (0 < id < 0x8000_0000 && id >= GENSTEP && id % GENSTEP == slot)
  }

  lemma NextIdOk(id: int, slot: nat)
    requires slot < NENV && IdOk(id, slot)
    ensures IdOk(NextId(id, slot), slot) && NextId(id, slot) > 0 && ENVX(NextId(id, slot)) == slot
    ensures NextId(id, slot) == (if id / GENSTEP == NGEN then GENSTEP else id / GENSTEP * GENSTEP + GENSTEP) + slot
  {
    var g := id / GENSTEP;
    assert id == 0 || id == g * GENSTEP + slot;
    assert 0 <= g <= NGEN;
    if g == NGEN {
      assert Int32(id + GENSTEP) < 0;
    } else {
      assert Int32(id + GENSTEP) == (g * 4 + 4) * NENV + (if id == 0 then 0 else slot);
    }
    ModSum(if g == NGEN then 4 else g * 4 + 4, slot);
  }

  lemma ModSum(a: int, slot: nat)
    requires slot < NENV
    ensures (a * NENV + slot) % NENV == slot
    ensures a % 4 == 0 ==> (a * NENV + slot) % GENSTEP == slot
  {
    if a % 4 == 0 {
      assert a * NENV == a / 4 * GENSTEP;
    }
  }

  /** The id a slot holds after k allocations, counted from boot. */
  ghost function IdAfter(slot: nat, k: nat): int
  {
    if k == 0 then 0 else NextId(IdAfter(slot, k - 1), slot)
  }

  lemma NextIdOfGeneration(g: nat, slot: nat)
    requires slot < NENV && 0 < g <= NGEN
    ensures NextId(g * GENSTEP + slot, slot) == (if g == NGEN then 1 else g + 1) * GENSTEP + slot
  {
    var id := g * GENSTEP + slot;
    assert id % GENSTEP == slot && id / GENSTEP == g;
    NextIdOk(id, slot);
  }

  lemma FirstId(slot: nat)
    requires slot < NENV
    ensures IdAfter(slot, 1) == GENSTEP + slot
  {
    NextIdOk(0, slot);
    assert IdAfter(slot, 1) == NextId(IdAfter(slot, 0), slot);
  }

  // The generation number of a slot's k-th allocation: a counter from 1 to NGEN and round again.
  ghost function Generation(k: nat): (g: nat)
    requires k > 0
    ensures 0 < g <= NGEN
  {
    if k == 1 || Generation(k - 1) == NGEN then 1 else Generation(k - 1) + 1
  }

  lemma {:induction false} IdAfterFormula(slot: nat, k: nat)
    requires slot < NENV && k > 0
    ensures IdAfter(slot, k) == Generation(k) * GENSTEP + slot
  {
    if k == 1 {
      FirstId(slot);
    } else {
      IdAfterFormula(slot, k - 1);
      NextIdOfGeneration(Generation(k - 1), slot);
    }
  }

  lemma {:induction false} GenerationFormula(k: nat)
    requires k > 0
    ensures Generation(k) == (k - 1) % NGEN + 1
  {
    if k > 1 {
      GenerationFormula(k - 1);
      ModStep(k - 2);
    }
  }

  lemma ModStep(n: nat)
    ensures (n + 1) % NGEN == if n % NGEN == NGEN - 1 then 0 else n % NGEN + 1
  {
  }

  lemma SameResidue(a: nat, b: nat)
    requires a <= b
    ensures a % NGEN == b % NGEN <==> (b - a) % NGEN == 0
  {
    var x, y := a / NGEN, b / NGEN;
    assert a == x * NGEN + a % NGEN && b == y * NGEN + b % NGEN;
    assert b - a == (y - x) * NGEN + (b % NGEN - a % NGEN);
  }

  lemma SameGeneration(j: nat, k: nat)
    requires 0 < j <= k
    ensures Generation(j) == Generation(k) <==> (k - j) % NGEN == 0
  {
    hide Generation;
    GenerationFormula(j);
    GenerationFormula(k);
    SameResidue(j - 1, k - 1);
  }

  /** A slot hands out the same id again exactly every 2^19 - 1 allocations. */
  lemma IdReissued(slot: nat, j: nat, k: nat)
    requires slot < NENV && 0 < j <= k
    ensures IdAfter(slot, j) == IdAfter(slot, k) <==> (k - j) % NGEN == 0
  {
    SameGeneration(j, k);
    IdAfterFormula(slot, j);
    IdAfterFormula(slot, k);
  }
}
