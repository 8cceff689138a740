/** User page faults: kern/trap.c pushes a UTrapframe on the exception stack, lib/pfentry.S calls the handler and
    unwinds the frame. Memory is bytes; frames are not word aligned, because the first one ends one byte below
    UXSTACKTOP. */
module Upcall {
  import opened Mmu

  const WORD: int := 0x1_0000_0000
  const EXSTK: int := UXSTACKTOP - PGSIZE
  const EXSTK_TOP: int := UXSTACKTOP - 1
  // sizeof(struct UTrapframe)
  const FRAME: int := 52

  type Mem = map<int, int>

  predicate IsWord(w: int) { 0 <= w < WORD }
  function Wrap(w: int): int { w % WORD }

  function Get(m: Mem, a: int): int { if a in m then m[a] else 0 }

  function Load(m: Mem, a: int): int {
    Get(m, a) + 0x100 * Get(m, a + 1) + 0x1_0000 * Get(m, a + 2) + 0x100_0000 * Get(m, a + 3)
  }

  function Store(m: Mem, a: int, w: int): Mem {
    m[a := w % 0x100][a + 1 := w / 0x100 % 0x100]
     [a + 2 := w / 0x100 / 0x100 % 0x100][a + 3 := w / 0x100 / 0x100 / 0x100 % 0x100]
  }

  lemma LoadStored(m: Mem, a: int, w: int)
    requires IsWord(w)
    ensures Load(Store(m, a, w), a) == w
  {
    var w1 := w / 0x100;
    var w2 := w1 / 0x100;
    var w3 := w2 / 0x100;
    assert w == w % 0x100 + 0x100 * w1 && w1 == w1 % 0x100 + 0x100 * w2 && w2 == w2 % 0x100 + 0x100 * w3 &&
           w3 % 0x100 == w3;
    var n := Store(m, a, w);
    assert Get(n, a) == w % 0x100 && Get(n, a + 1) == w1 % 0x100 && Get(n, a + 2) == w2 % 0x100 && Get(n, a + 3) == w3;
  }

  lemma LoadOther(m: Mem, a: int, w: int, b: int)
    requires b + 4 <= a || a + 4 <= b
    ensures Load(Store(m, a, w), b) == Load(m, b)
  {
  }

  lemma GetOther(m: Mem, a: int, w: int, b: int)
    requires b < a || a + 4 <= b
    ensures Get(Store(m, a, w), b) == Get(m, b)
  {
  }

  datatype Regs = Regs(edi: int, esi: int, ebp: int, ebx: int, edx: int, ecx: int, eax: int, esp: int, eip: int,
                       eflags: int) {
    predicate Ok() {
      && IsWord(edi) && IsWord(esi) && IsWord(ebp) && IsWord(ebx) && IsWord(edx) && IsWord(ecx) && IsWord(eax)
      && IsWord(esp) && IsWord(eip) && IsWord(eflags)
    }
  }

  // --- the kernel's side ---

  predicate OnExStack(esp: int) { EXSTK <= esp <= EXSTK_TOP }

  // Where the frame goes: below a blank word when the fault happened on the exception stack itself.
  function FrameAt(esp: int): int { if OnExStack(esp) then esp - 4 - FRAME else EXSTK_TOP - FRAME }

  // struct UTrapframe, word by word; reg_oesp is not used.
  function Words(r: Regs, va: int, err: int): (ws: seq<int>)
    ensures |ws| == 13
  {
    [va, err, r.edi, r.esi, r.ebp, 0, r.ebx, r.edx, r.ecx, r.eax, r.eip, r.eflags, r.esp]
  }

  function StoreAll(m: Mem, a: int, ws: seq<int>): Mem {
    if ws == [] then m else Store(StoreAll(m, a, ws[..|ws| - 1]), a + 4 * (|ws| - 1), ws[|ws| - 1])
  }

  lemma {:induction false} LoadAll(m: Mem, a: int, ws: seq<int>, i: nat)
    requires i < |ws| && IsWord(ws[i])
    ensures Load(StoreAll(m, a, ws), a + 4 * i) == ws[i]
  {
    hide Load;
    hide Store;
    var n := |ws| - 1;
    if i == n {
      LoadStored(StoreAll(m, a, ws[..n]), a + 4 * n, ws[n]);
    } else {
      LoadAll(m, a, ws[..n], i);
      LoadOther(StoreAll(m, a, ws[..n]), a + 4 * n, ws[n], a + 4 * i);
    }
  }

  lemma {:induction false} GetAll(m: Mem, a: int, ws: seq<int>, b: int)
    requires b < a || a + 4 * |ws| <= b
    ensures Get(StoreAll(m, a, ws), b) == Get(m, b)
  {
    hide Get;
    hide Store;
    if ws != [] {
      var n := |ws| - 1;
      GetAll(m, a, ws[..n], b);
      GetOther(StoreAll(m, a, ws[..n]), a + 4 * n, ws[n], b);
    }
  }

  datatype Pushed = Pushed(m: Mem, f: int) | Overflow

  /** page_fault_handler: the frame is written first and the overflow test comes after. */
  function Push(m: Mem, r: Regs, va: int, err: int): Pushed {
    var m1 := if OnExStack(r.esp) then Store(m, r.esp - 4, 0) else m;
    var f := FrameAt(r.esp);
    if EXSTK <= f <= EXSTK_TOP then Pushed(StoreAll(m1, f, Words(r, va, err)), f) else Overflow
  }

  /** It panics exactly if the frame leaves the exception stack, which takes a fault with less than a blank word and a
      frame below the stack pointer. */
  lemma PanicIff(m: Mem, r: Regs, va: int, err: int)
    ensures Push(m, r, va, err).Overflow? <==> EXSTK <= r.esp < UXSTACKTOP && r.esp - 4 - FRAME < EXSTK
    ensures Push(m, r, va, err).Pushed? ==>
              var f := Push(m, r, va, err).f;
              && EXSTK <= f && f + FRAME <= UXSTACKTOP - 1
              && (EXSTK <= r.esp < UXSTACKTOP ==> f + FRAME + 4 == r.esp)
  {
  }

  /** The handler's own steps on the saved registers, up to the return to user mode. */
  method PageFaultHandler(m0: Mem, tf0: Regs, va: int, err: int, upcall: int) returns (m: Mem, tf: Regs, panicked: bool)
    ensures panicked <==> Push(m0, tf0, va, err).Overflow?
    ensures !panicked ==>
            Push(m0, tf0, va, err) == Pushed(m, tf.esp) && tf == tf0.(esp := FrameAt(tf0.esp), eip := upcall)
    ensures !panicked && tf0.Ok() ==> Holds(m, tf.esp, tf0)
    ensures !panicked && tf0.Ok() && IsWord(va) && IsWord(err) ==> Tells(m, tf.esp, va, err)
  {
    hide Holds;
    hide Tells;
    hide Store;
    hide StoreAll;
    hide Words;
    m, tf, panicked := m0, tf0, false;
    var tmp := tf0.esp;
    if tmp < EXSTK || tmp > EXSTK_TOP {
      tmp := EXSTK_TOP - FRAME;
    } else {
      tmp := tmp - 4;
      m := Store(m, tmp, 0);
      tmp := tmp - FRAME;
    }
    m := StoreAll(m, tmp, Words(tf0, va, err));
    if tmp < EXSTK || tmp > EXSTK_TOP {
      panicked := true;
      return;
    }
    tf := tf.(esp := tmp, eip := upcall);
    ghost var m1 := if OnExStack(tf0.esp) then Store(m0, tf0.esp - 4, 0) else m0;
    if tf0.Ok() {
      FrameHolds(m1, tmp, tf0, va, err);
    }
  }

  // A frame holding the trap-time state r.
  predicate Holds(m: Mem, f: int, r: Regs) {
    && Load(m, f + 8) == r.edi && Load(m, f + 12) == r.esi && Load(m, f + 16) == r.ebp
    && Load(m, f + 24) == r.ebx && Load(m, f + 28) == r.edx && Load(m, f + 32) == r.ecx && Load(m, f + 36) == r.eax
    && Load(m, f + 40) == r.eip && Load(m, f + 44) == r.eflags && Load(m, f + 48) == r.esp
  }

  // utf_fault_va and utf_err, the two words at the bottom of the frame, which the handler reads.
  predicate Tells(m: Mem, f: int, va: int, err: int) { Load(m, f) == va && Load(m, f + 4) == err }

  // --- the assembly's side ---

  /** _pgfault_upcall after the handler has returned and its argument has been popped, from a frame at f. */
  function UnwindMem(m: Mem, f: int): Mem {
    var ebx := Wrap(Load(m, f + 48) - 4);
    Store(Store(m, ebx, Load(m, f + 40)), f + 48, ebx)
  }

  function UnwindRegs(m: Mem, f: int): Regs {
    var m2 := UnwindMem(m, f);
    var esp := Load(m2, f + 48);
    Regs(Load(m2, f + 8), Load(m2, f + 12), Load(m2, f + 16), Load(m2, f + 24), Load(m2, f + 28), Load(m2, f + 32),
         Load(m2, f + 36), Wrap(esp + 4), Load(m2, esp), Load(m2, f + 44))
  }

  // popal: edi, esi, ebp, one word skipped, ebx, edx, ecx, eax
  method Popal(m: Mem, r0: Regs) returns (r: Regs)
    requires 0 <= r0.esp < WORD - 32
    ensures var p := r0.esp;
            r == r0.(edi := Load(m, p), esi := Load(m, p + 4), ebp := Load(m, p + 8), ebx := Load(m, p + 16),
                     edx := Load(m, p + 20), ecx := Load(m, p + 24), eax := Load(m, p + 28), esp := p + 32)
  {
    assert forall k | 0 <= k < WORD :: Wrap(k) == k;
    hide Wrap;
    hide Load;
    r := r0.(edi := Load(m, r0.esp), esp := Wrap(r0.esp + 4));
    r := r.(esi := Load(m, r.esp), esp := Wrap(r.esp + 4));
    r := r.(ebp := Load(m, r.esp), esp := Wrap(r.esp + 4));
    r := r.(esp := Wrap(r.esp + 4));
    r := r.(ebx := Load(m, r.esp), esp := Wrap(r.esp + 4));
    r := r.(edx := Load(m, r.esp), esp := Wrap(r.esp + 4));
    r := r.(ecx := Load(m, r.esp), esp := Wrap(r.esp + 4));
    r := r.(eax := Load(m, r.esp), esp := Wrap(r.esp + 4));
  }

  /** pfentry.S from the handler's return on, instruction by instruction. Arithmetic leaves unknown flags, which popfl
      overwrites; nothing after it touches them. */
  method Unwind(m0: Mem, r0: Regs, flags: int) returns (m: Mem, r: Regs)
    requires 0 <= r0.esp < WORD - FRAME
    ensures m == UnwindMem(m0, r0.esp) && r == UnwindRegs(m0, r0.esp)
  {
    hide Load;
    hide Store;
    m, r := m0, r0;
    r := r.(eax := Load(m, r.esp + 40));
    r := r.(ebx := Load(m, r.esp + 48));
    r := r.(ebx := Wrap(r.ebx - 4), eflags := flags);
    m := Store(m, r.ebx, r.eax);
    m := Store(m, r.esp + 48, r.ebx);
    r := r.(eax := Load(m, r.esp), esp := Wrap(r.esp + 4));
    r := r.(eax := Load(m, r.esp), esp := Wrap(r.esp + 4));
    r := Popal(m, r);
    r := r.(esp := Wrap(r.esp + 4), eflags := flags);
    r := r.(eflags := Load(m, r.esp), esp := Wrap(r.esp + 4));
    r := r.(esp := Load(m, r.esp));
    r := r.(eip := Load(m, r.esp), esp := Wrap(r.esp + 4));
  }

  // --- one frame ---

  lemma FrameHolds(m: Mem, f: int, r: Regs, va: int, err: int)
    requires r.Ok()
    ensures Holds(StoreAll(m, f, Words(r, va, err)), f, r)
    ensures IsWord(va) && IsWord(err) ==> Tells(StoreAll(m, f, Words(r, va, err)), f, va, err)
  {
    hide Load;
    hide StoreAll;
    var ws := Words(r, va, err);
    forall i: nat | i < 13 && IsWord(ws[i])
      ensures Load(StoreAll(m, f, ws), f + 4 * i) == ws[i]
    {
      LoadAll(m, f, ws, i);
    }
    var n := StoreAll(m, f, ws);
    assert Load(n, f + 4 * 2) == ws[2] && Load(n, f + 4 * 3) == ws[3] && Load(n, f + 4 * 4) == ws[4];
    assert Load(n, f + 4 * 6) == ws[6] && Load(n, f + 4 * 7) == ws[7] && Load(n, f + 4 * 8) == ws[8];
    assert Load(n, f + 4 * 9) == ws[9] && Load(n, f + 4 * 10) == ws[10] && Load(n, f + 4 * 11) == ws[11];
    assert Load(n, f + 4 * 12) == ws[12];
    if IsWord(va) && IsWord(err) {
      assert Load(n, f + 4 * 0) == ws[0] && Load(n, f + 4 * 1) == ws[1];
    }
  }

  // The word the assembly pushes on the trap-time stack does not lie in the frame it is still reading.
  predicate Clear(f: int, esp: int) { Wrap(esp - 4) + 4 <= f || f + FRAME <= Wrap(esp - 4) }

  /** With a trap-time stack pointer just above the exception stack, and only there, it does. */
  lemma ClearIff(esp: int)
    requires IsWord(esp)
    ensures Clear(FrameAt(esp), esp) <==> !(UXSTACKTOP <= esp <= UXSTACKTOP + 2)
  {
    assert esp >= 4 ==> Wrap(esp - 4) == esp - 4;
    assert esp < 4 ==> Wrap(esp - 4) == esp - 4 + WORD;
  }

  lemma LoadSame(m: Mem, n: Mem, a: int)
    requires forall b | a <= b < a + 4 :: Get(n, b) == Get(m, b)
    ensures Load(n, a) == Load(m, a)
  {
  }

  // Storing outside a frame's registers leaves them.
  lemma HoldsKept(m: Mem, n: Mem, f: int, r: Regs)
    requires Holds(m, f, r) && forall b | f <= b < f + FRAME :: Get(n, b) == Get(m, b)
    ensures Holds(n, f, r)
  {
    hide Get;
    forall a | f <= a <= f + 48
      ensures Load(n, a) == Load(m, a)
    {
      LoadSame(m, n, a);
    }
  }

  lemma TellsKept(m: Mem, n: Mem, f: int, va: int, err: int)
    requires Tells(m, f, va, err) && forall b | f <= b < f + 8 :: Get(n, b) == Get(m, b)
    ensures Tells(n, f, va, err)
  {
    LoadSame(m, n, f);
    LoadSame(m, n, f + 4);
  }

  /** Unwinding restores all of the trap-time state; the return address is left in the word below the trap-time stack
      pointer, and nothing else changes but the frame's own last word. */
  lemma UnwindExact(m: Mem, f: int, r: Regs)
    requires Holds(m, f, r) && r.Ok() && Clear(f, r.esp)
    ensures UnwindRegs(m, f) == r
    ensures var w := Wrap(r.esp - 4);
            && Load(UnwindMem(m, f), w) == r.eip
            && forall b | !(f + 48 <= b < f + FRAME) && !(w <= b < w + 4) :: Get(UnwindMem(m, f), b) == Get(m, b)
  {
    hide Load;
    hide Store;
    hide Get;
    var w := Wrap(r.esp - 4);
    var m1 := Store(m, w, r.eip);
    var m2 := Store(m1, f + 48, w);
    forall b | !(f + 48 <= b < f + FRAME) && !(w <= b < w + 4)
      ensures Get(m2, b) == Get(m, b)
    {
      GetOther(m, w, r.eip, b);
      GetOther(m1, f + 48, w, b);
    }
    forall a | f <= a <= f + 44
      ensures Load(m2, a) == Load(m, a)
    {
      LoadOther(m, w, r.eip, a);
      LoadOther(m1, f + 48, w, a);
    }
    LoadStored(m, w, r.eip);
    LoadOther(m1, f + 48, w, w);
    LoadStored(m1, f + 48, w);
    assert Wrap(w + 4) == r.esp;
  }

  // The bytes of the return address that the frame's esp field overwrites happen to be right.
  predicate Lucky(r: Regs) {
    || (r.esp == UXSTACKTOP && r.eip % 0x100_0000 == 0xee_bfff)
    || (r.esp == UXSTACKTOP + 1 && r.eip % 0x1_0000 == 0xeebf)
    || (r.esp == UXSTACKTOP + 2 && r.eip % 0x100 == 0xee)
  }

  // Three divisions by 0x100, and the low parts.
  lemma Bytes(e: int)
    requires IsWord(e)
    ensures e / 0x100 / 0x100 == e / 0x1_0000 && e / 0x100 / 0x100 / 0x100 == e / 0x100_0000 < 0x100
    ensures e % 0x100 + 0x100 * (e / 0x100 % 0x100) == e % 0x1_0000
    ensures e % 0x1_0000 + 0x1_0000 * (e / 0x1_0000 % 0x100) == e % 0x100_0000
    ensures e == e % 0x100_0000 + 0x100_0000 * (e / 0x100_0000)
  {
  }

  // What ret reads when the word w lies over the last d bytes of the esp field.
  lemma OverlapEip(m: Mem, f: int, e: int, d: nat)
    requires IsWord(e) && d <= 2 && f == EXSTK_TOP - FRAME
    ensures var w := UXSTACKTOP + d - 4;
            var n := Store(Store(m, w, e), f + 48, w);
            Load(n, w) == e <==>
              if d == 0 then e % 0x100_0000 == 0xee_bfff
              else if d == 1 then e % 0x1_0000 == 0xeebf
              else e % 0x100 == 0xee
  {
    var w := UXSTACKTOP + d - 4;
    var m1 := Store(m, w, e);
    var n := Store(m1, f + 48, w);
    Bytes(e);
    assert w == f + 49 + d;
    assert w / 0x100 % 0x100 == 0xff && w / 0x100 / 0x100 % 0x100 == 0xbf && w / 0x100 / 0x100 / 0x100 % 0x100 == 0xee;
    if d == 0 {
      assert Get(n, w) == 0xff && Get(n, w + 1) == 0xbf && Get(n, w + 2) == 0xee;
      assert Get(n, w + 3) == Get(m1, w + 3) == e / 0x100_0000;
    } else if d == 1 {
      assert Get(n, w) == 0xbf && Get(n, w + 1) == 0xee;
      assert Get(n, w + 2) == Get(m1, w + 2) == e / 0x1_0000 % 0x100;
      assert Get(n, w + 3) == Get(m1, w + 3) == e / 0x100_0000;
    } else {
      assert Get(n, w) == 0xee;
      assert Get(n, w + 1) == Get(m1, w + 1) == e / 0x100 % 0x100;
      assert Get(n, w + 2) == Get(m1, w + 2) == e / 0x1_0000 % 0x100;
      assert Get(n, w + 3) == Get(m1, w + 3) == e / 0x100_0000;
    }
  }

  // All but the program counter survives the overlap.
  lemma OverlapRest(m: Mem, r: Regs)
    requires r.Ok() && UXSTACKTOP <= r.esp <= UXSTACKTOP + 2 && Holds(m, FrameAt(r.esp), r)
    ensures var u := UnwindRegs(m, FrameAt(r.esp));
            u == r.(eip := u.eip) && u.eip == Load(UnwindMem(m, FrameAt(r.esp)), r.esp - 4)
  {
    hide Load;
    hide Store;
    var f, w := FrameAt(r.esp), r.esp - 4;
    assert Wrap(r.esp - 4) == w && Wrap(w + 4) == r.esp;
    var m1 := Store(m, w, r.eip);
    var m2 := Store(m1, f + 48, w);
    forall a | f <= a <= f + 44
      ensures Load(m2, a) == Load(m, a)
    {
      LoadOther(m, w, r.eip, a);
      LoadOther(m1, f + 48, w, a);
    }
    LoadStored(m1, f + 48, w);
  }

  /** Which frames unwind exactly, for every trap-time stack pointer: all but those pushed with the stack pointer at
      UXSTACKTOP, UXSTACKTOP+1 or UXSTACKTOP+2. These count as non-recursive; the return address is then stored over the
      frame's esp field and overwritten with it, and comes back only if the overwritten bytes happen to be the same. */
  lemma UnwindIff(m: Mem, r: Regs)
    requires r.Ok() && Holds(m, FrameAt(r.esp), r)
    ensures UnwindRegs(m, FrameAt(r.esp)) == r <==> Clear(FrameAt(r.esp), r.esp) || Lucky(r)
  {
    hide Load;
    hide Store;
    ClearIff(r.esp);
    if Clear(FrameAt(r.esp), r.esp) {
      UnwindExact(m, FrameAt(r.esp), r);
    } else {
      OverlapRest(m, r);
      OverlapEip(m, FrameAt(r.esp), r.eip, r.esp - UXSTACKTOP);
      assert Wrap(r.esp - 4) == r.esp - 4;
    }
  }
}
