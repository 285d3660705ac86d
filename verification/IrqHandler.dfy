/**
 The handler of Examples/demoIntteruption.s: taken anywhere, it gives everything back, and is
 over before another request can be heard.
 */
module IrqHandler {
  import opened Memory
  import opened Arm
  import opened ArmLaws
  import opened ArmSteps
  import opened Encoding

  const HANDLER: seq<Instr> := [
    PushInstr([0, 1, 2]),                      //  0 irq_handler
    Data(AL, MOV, false, 0, 0, Imm(0xFF)),     //  4
    ReadStatus(AL, 1, false),                  //  8
    ReadStatus(AL, 2, true),                   // 12
    Data(AL, MOV, false, 0, 0, Imm(0xEE)),     // 16
    Data(AL, MOV, false, 0, 0, Imm(0xBB)),     // 20
    PopInstr([0, 1, 2]),                       // 24
    Data(AL, SUB, true, PC, LR, Imm(4))        // 28
  ]

  const VECTOR := 0x1018

  const HANDLER_WORDS: seq<word> := [
    0xE82D0007, 0xE3A000FF, 0xE10F1000, 0xE14F2000, 0xE3A000EE, 0xE3A000BB, 0xE9BD0007, 0xE25EF004
  ]

  lemma HandlerAssembles()
    ensures Assembled(HANDLER, HANDLER_WORDS)
  {
    hide Assemble;
    BlockWord(HANDLER[0], HANDLER_WORDS[0]);
    DataWord(AL, MOV, false, 0, 0, Imm(0xFF), HANDLER_WORDS[1]);
    MrsWord(AL, 1, false, HANDLER_WORDS[2]);
    MrsWord(AL, 2, true, HANDLER_WORDS[3]);
    DataWord(AL, MOV, false, 0, 0, Imm(0xEE), HANDLER_WORDS[4]);
    DataWord(AL, MOV, false, 0, 0, Imm(0xBB), HANDLER_WORDS[5]);
    BlockWord(HANDLER[6], HANDLER_WORDS[6]);
    DataWord(AL, SUB, true, PC, LR, Imm(4), HANDLER_WORDS[7]);
  }

  /** The handler is loaded, and the interrupt vector branches to it. */
  ghost predicate Installed(text: Text, h: nat)
    ensures Installed(text, h) ==> h % 4 == 0 && h + 40 < 0x1_0000_0000 && h + 32 <= |text.mem| && VECTOR + 4 <= |text.mem|
  {
    LoadedAt(text, h, HANDLER) && Has(text, VECTOR, Branch(AL, false, (h - VECTOR - 8) / 4))
  }

  /** With its words in place, and a branch in the vector that reaches it, the handler is installed. */
  lemma HandlerLoads(text: Text, h: nat)
    requires InPlace(text, h, HANDLER_WORDS) && InMemory(text.mem, VECTOR) && Encodable(Branch(AL, false, (h - VECTOR - 8) / 4))
    requires ReadWord(text.mem, text.e, VECTOR) == Assemble(Branch(AL, false, (h - VECTOR - 8) / 4))
    ensures Installed(text, h)
  {
    hide InPlace, Assembled, LoadedAt, Assemble, Decode, ReadWord;
    HandlerAssembles();
    WordsLoad(text, h, HANDLER_WORDS, HANDLER);
    LoadedRange(text, h);
    DecodeAssembled(Branch(AL, false, (h - VECTOR - 8) / 4));
  }

  lemma LoadedRange(text: Text, h: nat)
    requires LoadedAt(text, h, HANDLER)
    ensures h % 4 == 0 && h + 40 < 0x1_0000_0000 && h + 32 <= |text.mem|
  {
  }

  lemma HandlerHere(text: Text, h: nat, k: nat)
    requires Installed(text, h) && k < |HANDLER|
    ensures Has(text, h + 4 * k, HANDLER[k])
  {
    hide Has, LoadedAt;
    Placed(text, h, HANDLER, k);
  }

  /** The bytes from low up to high are off the handler and its vector. */
  predicate Guarded(h: nat, low: int, high: int) {
    (high <= h || h + 32 <= low) && (high <= VECTOR || VECTOR + 4 <= low)
  }

  /** The handler stays installed while the bytes written are off it. */
  lemma InstalledKept(text: Text, other: Text, h: nat, low: int, high: int)
    requires Installed(text, h) && Guarded(h, low, high) && other.e == text.e && |other.mem| == |text.mem|
    requires forall x :: 0 <= x < |text.mem| && !(low <= x < high) ==> other.mem[x] == text.mem[x]
    ensures Installed(other, h)
  {
    hide LoadedAt, Decode, ReadWord;
    LoadedRange(text, h);
    LoadedKept(text, other, h, HANDLER);
    ReadSame(text.mem, other.mem, text.e, VECTOR);
  }

  /** A core that may be interrupted, in the byte order of the handler, with room for three registers on its stack. */
  ghost predicate Interruptible(s: Core) {
    && |s.storage| == 31 && !s.cpsr.i && s.cpsr.mode != IRQ && s.cpsr.e == EE_BIT
    && 12 <= Register(s, SP) && Register(s, SP) + 4 <= |s.mem| < 0x1_0000_0000
  }

  /** The core the handler starts from, its program counter apart. */
  function Taken(s: Core, pc: word): (t: Core)
    requires |s.storage| == 31 && pc + 4 < 0x1_0000_0000
    ensures |t.storage| == 31
  {
    s.(storage := s.storage[23 := pc + 4][22 := Register(s, SP)], spsr := s.spsr[IRQ := s.cpsr],
       cpsr := s.cpsr.(mode := IRQ, t := false, i := true, e := EE_BIT))
  }

  lemma InterruptTakes(s: Core, pc: nat)
    requires Interruptible(s) && pc % 4 == 0 && pc + 4 < 0x1_0000_0000
    ensures Interrupt(At(s, pc)) == At(Taken(s, pc), VECTOR)
  {
    PcReads(s, pc);
    PlainReads(s, pc);
    InRange(pc);
    InRange(pc + 4);
    Slots(s.cpsr.mode);
    hide ReadRegister, Wrap, Register;
    assert s.storage[PC := pc][23 := pc + 4][22 := Register(s, SP)][PC := VECTOR]
        == s.storage[23 := pc + 4][22 := Register(s, SP)][PC := VECTOR];
  }

  /** What the handler has made of r0 to r2 before it restores them. */
  function Busy(s: Core): (t: Core)
    requires |s.storage| == 31
    ensures |t.storage| == 31
  {
    var t := Put(Put(Put(s, 0, 0xFF), 1, StatusWord(s.cpsr)), 2, StatusWord(if IRQ in s.spsr then s.spsr[IRQ] else s.cpsr));
    Put(Put(t, 0, 0xEE), 0, 0xBB)
  }

  /** The next k instructions run in the handler's mode with interrupts masked. */
  ghost predicate Hidden(t: Core, k: nat)
    requires |t.storage| == 31
    decreases k
  {
    k == 0 || (t.cpsr.i && t.cpsr.mode == IRQ && Hidden(Step(t), k - 1))
  }

  lemma PushInstalled(h: nat, e: Core)
    requires Installed(TextOf(e), h) && CanPush(e, [0, 1, 2]) && Guarded(h, Register(e, SP) - 8, Register(e, SP) + 4)
    ensures Installed(TextOf(Pushed(e, [0, 1, 2])), h)
  {
    hide Installed, Pushed;
    PushedKeeps(e, [0, 1, 2]);
    InstalledKept(TextOf(e), TextOf(Pushed(e, [0, 1, 2])), h, Register(e, SP) - 8, Register(e, SP) + 4);
  }

  lemma VectorHere(text: Text, h: nat)
    requires Installed(text, h)
    ensures Has(text, VECTOR, Branch(AL, false, (h - VECTOR - 8) / 4))
  {
  }

  lemma PrologueRuns(h: nat, e: Core, k: nat)
    requires Installed(TextOf(e), h) && CanPush(e, [0, 1, 2]) && e.cpsr.i && e.cpsr.mode == IRQ
    ensures Run(At(e, VECTOR), 2) == At(Pushed(e, [0, 1, 2]), h + 4)
    ensures Hidden(At(Pushed(e, [0, 1, 2]), h + 4), k) ==> Hidden(At(e, VECTOR), k + 2)
  {
    hide Step, Has, Installed, Put, Register, Pushed;
    VectorHere(TextOf(e), h);
    HandlerHere(TextOf(e), h, 0);
    BranchStep(e, VECTOR, AL, false, (h - VECTOR - 8) / 4);
    PushStep(e, h, [0, 1, 2]);
  }

  lemma FirstWorkRuns(h: nat, s: Core, k: nat)
    requires Installed(TextOf(s), h) && |s.storage| == 31 && s.cpsr.i && s.cpsr.mode == IRQ
    ensures var u := Put(Put(s, 0, 0xFF), 1, StatusWord(s.cpsr));
            Run(At(s, h + 4), 2) == At(u, h + 12) && (Hidden(At(u, h + 12), k) ==> Hidden(At(s, h + 4), k + 2))
  {
    hide Step, Has, Installed, Slot, StatusWord, IsStatus, Register;
    HandlerHere(TextOf(s), h, 1);
    HandlerHere(TextOf(s), h, 2);
    var s1 := Put(s, 0, 0xFF);
    DataStep(s, h + 4, AL, MOV, 0, 0, Imm(0xFF));
    StatusStep(s1, h + 8, 1, false);
    hide Put, At;
    ShortRuns(At(s, h + 4));
    HiddenTwo(At(s, h + 4), At(s1, h + 8), k);
  }

  lemma HiddenTwo(s: Core, s1: Core, k: nat)
    requires |s.storage| == |s1.storage| == 31 && s1 == Step(s)
    requires s.cpsr.i && s.cpsr.mode == IRQ && s1.cpsr.i && s1.cpsr.mode == IRQ
    ensures Hidden(Step(s1), k) ==> Hidden(s, k + 2)
  {
    hide Step;
    assert Hidden(s, k + 2) == Hidden(s1, k + 1);
  }

  lemma LastWorkRuns(h: nat, s: Core, k: nat)
    requires Installed(TextOf(s), h) && |s.storage| == 31 && s.cpsr.i && s.cpsr.mode == IRQ
    ensures var u := Put(Put(Put(s, 2, StatusWord(if IRQ in s.spsr then s.spsr[IRQ] else s.cpsr)), 0, 0xEE), 0, 0xBB);
            Run(At(s, h + 12), 3) == At(u, h + 24) && (Hidden(At(u, h + 24), k) ==> Hidden(At(s, h + 12), k + 3))
  {
    hide Step, Has, Installed, Slot, StatusWord, IsStatus, Register;
    HandlerHere(TextOf(s), h, 3);
    HandlerHere(TextOf(s), h, 4);
    HandlerHere(TextOf(s), h, 5);
    var s1 := Put(s, 2, StatusWord(if IRQ in s.spsr then s.spsr[IRQ] else s.cpsr));
    var s2 := Put(s1, 0, 0xEE);
    StatusStep(s, h + 12, 2, true);
    DataStep(s1, h + 16, AL, MOV, 0, 0, Imm(0xEE));
    DataStep(s2, h + 20, AL, MOV, 0, 0, Imm(0xBB));
    hide Put, At;
    ShortRuns(At(s, h + 12));
    HiddenTwo(At(s1, h + 16), At(s2, h + 20), k);
    assert Hidden(At(s, h + 12), k + 3) == Hidden(At(s1, h + 16), k + 2);
  }

  lemma WorkRuns(h: nat, s: Core, k: nat)
    requires Installed(TextOf(s), h) && |s.storage| == 31 && s.cpsr.i && s.cpsr.mode == IRQ
    ensures Run(At(s, h + 4), 5) == At(Busy(s), h + 24)
    ensures Hidden(At(Busy(s), h + 24), k) ==> Hidden(At(s, h + 4), k + 5)
  {
    hide Run, Step, Hidden, Installed, StatusWord, Put, At;
    var u := Put(Put(s, 0, 0xFF), 1, StatusWord(s.cpsr));
    FirstWorkRuns(h, s, k + 3);
    LastWorkRuns(h, u, k);
    RunPlus(At(s, h + 4), 2, 3);
  }

  lemma PoppedThree(e: Core, q: Core)
    requires HasPushed(e, [0, 1, 2], q) && q.cpsr.mode == IRQ
    ensures var u := Popped(q, [0, 1, 2]);
            && u.mem == q.mem && u.cpsr == q.cpsr && u.spsr == q.spsr
            && (forall k :: 0 <= k < 3 ==> u.storage[k] == e.storage[k])
            && (forall k :: 3 <= k < 31 && k != 22 ==> u.storage[k] == q.storage[k])
  {
    hide Popped, Pushed, LoadMany, ReadWord;
    PopRestores(e, [0, 1, 2], q);
    PoppedRegister(e, [0, 1, 2], q, 0);
    PoppedRegister(e, [0, 1, 2], q, 1);
    PoppedRegister(e, [0, 1, 2], q, 2);
  }

  /** q is about to pop what the handler, entered with e, has pushed. */
  ghost predicate Worked(e: Core, q: Core)
    ensures Worked(e, q) ==> |q.storage| == 31 && IRQ in q.spsr && Register(q, SP) + 16 < 0x1_0000_0000 && Register(q, LR) >= 4
  {
    && HasPushed(e, [0, 1, 2], q) && q.cpsr == e.cpsr && q.spsr == e.spsr && q.cpsr.i && q.cpsr.mode == IRQ
    && IRQ in q.spsr && Register(q, LR) >= 4
  }

  /** The popped core, with the status word it was interrupted with. */
  function Resumed(q: Core): (t: Core)
    requires |q.storage| == 31 && IRQ in q.spsr && Register(q, SP) + 16 < 0x1_0000_0000
    ensures |t.storage| == 31
  {
    Popped(q, [0, 1, 2]).(cpsr := q.spsr[IRQ])
  }

  /** t is q after the epilogue, which ran hidden. */
  ghost predicate Back(h: nat, q: Core, t: Core) {
    && |q.storage| == 31 && IRQ in q.spsr && Register(q, SP) + 16 < 0x1_0000_0000 && Register(q, LR) >= 4 && h + 24 < 0x1_0000_0000
    && t == At(Resumed(q), Register(q, LR) - 4) && Hidden(At(q, h + 24), 2)
  }

  lemma EpilogueRuns(h: nat, e: Core, q: Core)
    requires Installed(TextOf(q), h) && Worked(e, q)
    ensures Back(h, q, Run(At(q, h + 24), 2))
  {
    hide Step, Has, Installed, Popped, Pushed;
    var t := Popped(q, [0, 1, 2]);
    PoppedThree(e, q);
    HandlerHere(TextOf(q), h, 6);
    HandlerHere(TextOf(q), h, 7);
    PopStep(q, h + 24, [0, 1, 2]);
    ExceptionReturnStep(t, h + 28);
    ShortRuns(At(q, h + 24));
  }

  /**
   t differs from s only where an interrupted program may not look: in the banked registers
   and the saved status of the interrupt mode, and in the free stack from low up to the word
   at its stack pointer.
   */
  ghost predicate Unseen(low: int, s: Core, t: Core) {
    && |s.storage| == |t.storage| == 31 && t.cpsr == s.cpsr && |t.mem| == |s.mem|
    && (forall k :: 0 <= k < 31 && k != 22 && k != 23 ==> t.storage[k] == s.storage[k])
    && (forall m: Mode :: m != IRQ && m in s.spsr ==> m in t.spsr && t.spsr[m] == s.spsr[m])
    && (forall x :: 0 <= x < |s.mem| && !(low <= x < Register(s, SP) + 4) ==> t.mem[x] == s.mem[x])
  }

  lemma TakenRegisters(s: Core, pc: nat)
    requires Interruptible(s) && pc + 4 < 0x1_0000_0000
    ensures var e := Taken(s, pc);
            && CanPush(e, [0, 1, 2]) && Register(e, SP) == Register(s, SP) && Register(e, LR) == pc + 4
  {
  }

  lemma BusyKeeps(s: Core)
    requires |s.storage| == 31
    ensures var t := Busy(s);
            && t.mem == s.mem && t.cpsr == s.cpsr && t.spsr == s.spsr
            && forall k :: 3 <= k < 31 ==> t.storage[k] == s.storage[k]
  {
    Slots(s.cpsr.mode);
    hide StatusWord, Slot;
  }

  lemma BusyHasPushed(s: Core, pc: nat)
    requires Interruptible(s) && pc + 4 < 0x1_0000_0000
    ensures CanPush(Taken(s, pc), [0, 1, 2])
    ensures var e := Taken(s, pc); var q := Busy(Pushed(e, [0, 1, 2]));
            && HasPushed(e, [0, 1, 2], q) && Register(q, LR) == pc + 4 && q.spsr == e.spsr && q.cpsr == e.cpsr
            && (forall k :: 3 <= k < 31 && k != 22 ==> q.storage[k] == e.storage[k])
            && (forall x :: 0 <= x < |s.mem| && !(Register(s, SP) - 8 <= x < Register(s, SP) + 4) ==> q.mem[x] == s.mem[x])
  {
    var e := Taken(s, pc);
    TakenRegisters(s, pc);
    PushedKeeps(e, [0, 1, 2]);
    BusyKeeps(Pushed(e, [0, 1, 2]));
    hide Pushed, Busy;
  }

  /** The popped core, with the status word back, is the interrupted one. */
  lemma GivenBack(s: Core, pc: nat, q: Core)
    requires Interruptible(s) && pc + 4 < 0x1_0000_0000 && Worked(Taken(s, pc), q)
    requires forall k :: 3 <= k < 31 && k != 22 ==> q.storage[k] == Taken(s, pc).storage[k]
    requires forall x :: 0 <= x < |s.mem| && !(Register(s, SP) - 8 <= x < Register(s, SP) + 4) ==> q.mem[x] == s.mem[x]
    ensures Unseen(Register(s, SP) - 8, At(s, pc), At(Resumed(q), pc))
  {
    hide Popped, Pushed, Slot;
    PoppedThree(Taken(s, pc), q);
    Slots(s.cpsr.mode);
    Registers(s, pc, SP);
  }

  /** Entered with e, the handler makes q of it before it pops. */
  ghost predicate Works(h: nat, e: Core, q: Core)
    ensures Works(h, e, q) ==> |e.storage| == 31 && Worked(e, q)
  {
    CanPush(e, [0, 1, 2]) && Guarded(h, Register(e, SP) - 8, Register(e, SP) + 4) && q == Busy(Pushed(e, [0, 1, 2])) && Worked(e, q)
  }

  /** Nine hidden instructions from the vector the interrupted program has its core back. */
  ghost predicate Over(e: Core, q: Core) {
    && |e.storage| == 31 && Worked(e, q)
    && Run(At(e, VECTOR), 9) == At(Resumed(q), Register(q, LR) - 4) && Hidden(At(e, VECTOR), 9)
  }

  /** The whole handler, from the vector to its return. */
  lemma HandlerRuns(h: nat, e: Core, q: Core)
    requires Installed(TextOf(e), h) && Works(h, e, q)
    ensures Over(e, q)
  {
    hide Run, Step, Pushed, Busy, Resumed, HasPushed, Hidden, Installed, At, Register;
    var p := Pushed(e, [0, 1, 2]);
    PushInstalled(h, e);
    PushedKeeps(e, [0, 1, 2]);
    BusyKeeps(p);
    PrologueRuns(h, e, 7);
    WorkRuns(h, p, 2);
    EpilogueRuns(h, e, q);
    RunPlus(At(e, VECTOR), 2, 7);
    RunPlus(At(p, h + 4), 5, 2);
  }

  /**
   An interrupt taken anywhere, in any mode but its own, with three words of free stack off
   the handler, is over after nine instructions of the handler's, none of which can be
   interrupted, and then the interrupted program goes on where it was with the same registers,
   flags and memory, but for these three words.
   */
  lemma HandlerReturns(h: nat, s: Core, pc: nat)
    requires Installed(TextOf(s), h) && Interruptible(s) && pc % 4 == 0 && pc + 4 < 0x1_0000_0000
    requires Guarded(h, Register(s, SP) - 8, Register(s, SP) + 4)
    ensures Hidden(Interrupt(At(s, pc)), 9)
    ensures Unseen(Register(s, SP) - 8, At(s, pc), Run(Interrupt(At(s, pc)), 9))
  {
    TakenRegisters(s, pc);
    hide Run, Step, Pushed, Busy, Resumed, HasPushed, Hidden, Interrupt, Installed, Unseen, At, Register;
    var e := Taken(s, pc);
    InterruptTakes(s, pc);
    BusyHasPushed(s, pc);
    var q := Busy(Pushed(e, [0, 1, 2]));
    HandlerRuns(h, e, q);
    GivenBack(s, pc, q);
  }
}
