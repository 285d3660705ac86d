/** pgcd of Examples/pgcd.s under interrupts: requests at any of its instructions do not change what it computes. */
module PgcdInterrupted {
  import opened Memory
  import opened Arm
  import opened ArmSteps
  import opened IrqHandler
  import opened Interrupts
  import opened Pgcd

  /** A boundary, wherever the program counter is. */
  ghost predicate Poised(h: nat, low: int, s: Core)
    ensures Poised(h, low, s) ==> |s.storage| == 31 && s.cpsr.mode != IRQ
  {
    && Interruptible(s) && s.cpsr.mode != IRQ && Installed(TextOf(s), h)
    && low + 8 <= Register(s, SP) && Guarded(h, low, Register(s, SP) + 4)
  }

  lemma PoisedAt(h: nat, low: int, s: Core, pc: word)
    requires Poised(h, low, s) && pc % 4 == 0 && pc + 8 < 0x1_0000_0000
    ensures Boundary(h, low, At(s, pc))
  {
    hide Installed;
    Registers(s, pc, SP);
  }

  /** Instruction k is quiet if it is one on registers, or a transfer that is tame. */
  lemma QuietAt(h: nat, low: int, s: Core, base: nat, k: nat)
    requires Poised(h, low, s) && Loaded(TextOf(s), base) && k < 10 && Off(low, Register(s, SP) + 4, base, 40)
    requires PGCD[k].Transfer? ==> TameTransfer(low, s, PGCD[k])
    ensures Quiet(h, low, At(s, base + 4 * k))
  {
    hide Decode, ReadWord, Installed, Moved, Wrap, Front;
    var pc, ins := base + 4 * k, PGCD[k];
    Here(TextOf(s), base, 10, k);
    HasNext(TextOf(s), pc, ins);
    PoisedAt(h, low, s, pc);
    Registers(s, pc, SP);
    if ins.Transfer? {
      TransferFrom(s, pc, ins);
    }
  }

  lemma TransferFrom(s: Core, pc: word, ins: Instr)
    requires |s.storage| == 31 && ins.Transfer? && ins.rn < PC && (ins.operand.Reg? ==> ins.operand.r < PC)
    ensures Moved(At(s, pc), ins) == Moved(s, ins) && Address(At(s, pc), ins) == Address(s, ins)
  {
    Registers(s, pc, ins.rn);
    if ins.operand.Reg? {
      Registers(s, pc, ins.operand.r);
    }
    hide Wrap, Register, Pow2;
  }

  lemma QuietOne(h: nat, low: int, s: Core, t: Core)
    requires |s.storage| == 31 && Quiet(h, low, s) && Step(s) == t && Boundary(h, low, t)
    ensures QuietFor(h, low, s, 1)
  {
    hide Step, Boundary;
    QuietNone(h, low, t);
    QuietBoundary(h, low, s);
  }

  lemma QuietNone(h: nat, low: int, t: Core)
    requires Boundary(h, low, t)
    ensures QuietFor(h, low, t, 0)
  {
  }

  lemma QuietBoundary(h: nat, low: int, s: Core)
    requires Quiet(h, low, s)
    ensures Boundary(h, low, s)
  {
  }

  lemma QuietTwo(h: nat, low: int, s: Core, t: Core, u: Core)
    requires |s.storage| == |t.storage| == 31 && Step(s) == t && Step(t) == u
    requires Quiet(h, low, s) && Quiet(h, low, t) && Boundary(h, low, u)
    ensures QuietFor(h, low, s, 2)
  {
    hide Step, Boundary, Quiet;
    QuietOne(h, low, t, u);
    QuietBoundary(h, low, s);
  }

  lemma QuietThree(h: nat, low: int, s: Core, t: Core, u: Core, v: Core)
    requires |s.storage| == |t.storage| == |u.storage| == 31 && Step(s) == t && Step(t) == u && Step(u) == v
    requires Quiet(h, low, s) && Quiet(h, low, t) && Quiet(h, low, u) && Boundary(h, low, v)
    ensures QuietFor(h, low, s, 3)
  {
    hide Step, Boundary, Quiet;
    QuietTwo(h, low, t, u, v);
    QuietBoundary(h, low, s);
  }

  /** s may enter pgcd: its frame, and the handler's words below it, have room, off the code and the handler. */
  ghost predicate Enters(h: nat, low: int, base: nat, s: Core) {
    && Poised(h, low, s) && Loaded(TextOf(s), base) && Off(low, Register(s, SP) + 4, base, 40)
    && low + 12 <= Register(s, SP) && 16 <= Register(s, SP)
  }

  /** What the code at base is, when u has the text of s. */
  ghost predicate Keeps(s: Core, u: Core) {
    && |s.storage| == |u.storage| == 31 && u.mem == s.mem
    && u.cpsr == s.cpsr.(n := u.cpsr.n, z := u.cpsr.z, c := u.cpsr.c, v := u.cpsr.v)
    && Register(u, SP) == Register(s, SP)
  }

  lemma KeepsPoised(h: nat, low: int, s: Core, u: Core)
    requires Poised(h, low, s) && Keeps(s, u)
    ensures Poised(h, low, u) && Register(u, SP) == Register(s, SP) && TextOf(u) == TextOf(s)
  {
    hide Installed;
  }

  lemma PutPoised(h: nat, low: int, s: Core, r: nat, v: word)
    requires Poised(h, low, s) && r < PC && r != SP
    ensures Poised(h, low, Put(s, r, v)) && Register(Put(s, r, v), SP) == Register(s, SP) && TextOf(Put(s, r, v)) == TextOf(s)
  {
    hide Installed;
    OwnRegisters(s, r, v);
    KeepsPoised(h, low, s, Put(s, r, v));
  }

  /** The prologue's store leaves a poised core. */
  lemma EnteredPoised(h: nat, low: int, base: nat, s: Core)
    requires Enters(h, low, base, s)
    ensures Poised(h, low, Entered(s)) && Loaded(TextOf(Entered(s)), base) && Register(Entered(s), SP) == Register(s, SP) - 4
  {
    hide Installed, Front, ReadWord, WriteWord, Entered;
    EnteredText(s, base, 10);
    EnteredKeeps(s);
    EnteredFlags(s);
    InRange(Register(s, SP) - 4);
    InstalledKept(TextOf(s), TextOf(Entered(s)), h, low, Register(s, SP) + 4);
  }

  lemma EntersFacts(h: nat, low: int, base: nat, s: Core)
    requires Enters(h, low, base, s)
    ensures |s.storage| == 31 && Poised(h, low, s) && Loaded(TextOf(s), base) && InMemory(s.mem, Register(s, SP))
    ensures Register(s, SP) + 4 <= base || base + 40 <= Register(s, SP)
    ensures Off(low, Register(s, SP) + 4, base, 40) && Off(low, Register(s, SP), base, 40)
    ensures TameTransfer(low, s, PGCD[0])
  {
    hide Installed, Front;
    InRange(Register(s, SP) - 4);
  }

  /** The prologue is quiet. */
  lemma EntryQuiet(h: nat, low: int, base: nat, s: Core)
    requires Enters(h, low, base, s)
    ensures QuietFor(h, low, At(s, base), 3)
  {
    hide Step, At, Has, Front, Enters, Poised, Quiet, QuietFor, Boundary, Off, TameTransfer, Register, Entered, SubFlags, Wrap;
    EntersFacts(h, low, base, s);
    EnteredPoised(h, low, base, s);
    FrontOf(TextOf(s), base, 10, 3);
    EntrySteps(base, s);
    var v := Entered(s);
    var s1 := Transferred(s, PGCD[0]);
    StoredPoised(h, low, s, v, s1);
    QuietAt(h, low, s, base, 0);
    QuietAt(h, low, s1, base, 1);
    QuietAt(h, low, v, base, 2);
    var to := base + if Register(s, 0) == Register(s, 1) then 12 else 20;
    PoisedAt(h, low, v, to);
    QuietThree(h, low, At(s, base), At(s1, base + 4), At(v, base + 8), At(v, to));
  }

  /** After the store alone. */
  lemma StoredPoised(h: nat, low: int, s: Core, v: Core, s1: Core)
    requires |s.storage| == 31 && InMemory(s.mem, Register(s, SP)) && v == Entered(s) && Poised(h, low, v)
    requires s.cpsr.mode != IRQ && s1 == Transferred(s, PGCD[0])
    ensures Poised(h, low, s1) && TextOf(s1) == TextOf(v) && Register(s1, SP) == Register(v, SP)
  {
    hide Installed, WriteWord;
    assert Keeps(v, s1);
    KeepsPoised(h, low, v, s1);
  }

  lemma EqualQuiet(h: nat, low: int, base: nat, s: Core)
    requires Poised(h, low, s) && Loaded(TextOf(s), base) && Off(low, Register(s, SP) + 4, base, 40)
    ensures QuietFor(h, low, At(s, base + 12), 2)
  {
    hide Step, At, Has, Front, Poised, Quiet, QuietFor, Boundary, Off, Register, Put, TameTransfer;
    var u := Put(s, 2, Register(s, 0));
    PutPoised(h, low, s, 2, Register(s, 0));
    FrontOf(TextOf(s), base, 10, 5);
    EqualSteps(base, s);
    QuietAt(h, low, s, base, 3);
    QuietAt(h, low, u, base, 4);
    PoisedAt(h, low, u, base + 32);
    QuietTwo(h, low, At(s, base + 12), At(u, base + 16), At(u, base + 32));
  }

  lemma ElseQuiet(h: nat, low: int, base: nat, s: Core)
    requires Poised(h, low, s) && Loaded(TextOf(s), base) && Off(low, Register(s, SP) + 4, base, 40)
    requires exists p :: s.cpsr == SubFlags(p, Register(s, 0), Register(s, 1))
    ensures QuietFor(h, low, At(s, base + 20), 3)
  {
    hide Step, At, Has, Front, Poised, Quiet, QuietFor, Boundary, Off, Register, Put, SubFlags, TameTransfer;
    var a: int, b: int := Register(s, 0), Register(s, 1);
    var s1, u := if a > b then Put(s, 0, a - b) else s, Narrowed(s);
    var w := Put(u, LR, base + 32);
    PutPoised(h, low, s, 0, if a > b then a - b else 0);
    PutPoised(h, low, s, 1, if a > b then 0 else b - a);
    PutPoised(h, low, u, LR, base + 32);
    FrontOf(TextOf(s), base, 10, 7);
    FrontOf(TextOf(s), base, 10, 8);
    SubtractionSteps(base, s);
    CallStep(base, u);
    QuietAt(h, low, s, base, 5);
    QuietAt(h, low, s1, base, 6);
    QuietAt(h, low, u, base, 7);
    PoisedAt(h, low, w, base);
    QuietThree(h, low, At(s, base + 20), At(s1, base + 24), At(u, base + 28), At(w, base));
  }

  /** u may execute the epilogue. */
  ghost predicate Leaves(h: nat, low: int, base: nat, u: Core) {
    && Poised(h, low, u) && Loaded(TextOf(u), base) && Off(low, Register(u, SP) + 8, base, 40)
    && Register(u, SP) + 8 <= |u.mem| < 0x1_0000_0000 && Guarded(h, low, Register(u, SP) + 8)
    && var back := ReadWord(u.mem, u.cpsr.e, Register(u, SP) + 4); back % 4 == 0 && back + 8 < 0x1_0000_0000
  }

  /** The epilogue of a frame is quiet. */
  lemma LeaveQuiet(h: nat, low: int, base: nat, s: Core)
    requires Leaves(h, low, base, s)
    ensures QuietFor(h, low, At(s, base + 32), 2)
  {
    hide Step, At, Has, Front, Poised, Quiet, QuietFor, Boundary, Register, Left, TameTransfer, Wrap, Leaves, Off, Slot,
      Decode, ReadWord, WriteWord, SubFlags, Frames, Within, Put, Guarded, Installed;
    LeavesFacts(h, low, base, s);
    var u := Left(s);
    LeaveSteps(base, s);
    QuietAt(h, low, s, base, 8);
    QuietAt(h, low, u, base, 9);
    PoisedAt(h, low, u, Register(u, LR));
    QuietTwo(h, low, At(s, base + 32), At(u, base + 36), At(u, Register(u, LR)));
  }

  lemma LeavesFacts(h: nat, low: int, base: nat, s: Core)
    requires Leaves(h, low, base, s)
    ensures Poised(h, low, s) && Loaded(TextOf(s), base) && Off(low, Register(s, SP) + 4, base, 40)
    ensures InMemory(s.mem, Wrap(Register(s, SP) + 4)) && Poised(h, low, Left(s)) && TextOf(Left(s)) == TextOf(s)
    ensures Off(low, Register(Left(s), SP) + 4, base, 40) && TameTransfer(low, s, PGCD[8])
    ensures var back := Register(Left(s), LR); back % 4 == 0 && back + 8 < 0x1_0000_0000
  {
    hide Installed, Front, ReadWord;
    LeftPoised(h, low, s);
    LeftLink(s);
  }

  lemma LeftLink(s: Core)
    requires |s.storage| == 31 && s.cpsr.mode != IRQ && InMemory(s.mem, Register(s, SP) + 4) && |s.mem| < 0x1_0000_0000
    ensures Wrap(Register(s, SP) + 4) == Register(s, SP) + 4
    ensures Register(Left(s), LR) == ReadWord(s.mem, s.cpsr.e, Register(s, SP) + 4)
  {
    hide ReadWord;
    InRange(Register(s, SP) + 4);
  }

  lemma LeftPoised(h: nat, low: int, s: Core)
    requires Poised(h, low, s) && Register(s, SP) + 8 <= |s.mem| < 0x1_0000_0000 && Guarded(h, low, Register(s, SP) + 8)
    ensures Wrap(Register(s, SP) + 4) == Register(s, SP) + 4 && Poised(h, low, Left(s)) && Register(Left(s), SP) == Register(s, SP) + 4
    ensures TameTransfer(low, s, PGCD[8])
  {
    hide Installed, ReadWord;
    InRange(Register(s, SP) + 4);
  }

  // ----- the whole call

  /** s may call pgcd: the frames, and the handler's words below them, have room, off the code and the handler. */
  ghost predicate Calm(h: nat, low: int, base: nat, s: Core) {
    && Poised(h, low, s) && Room(s, base) && Off(low, Register(s, SP) + 4, base, 40)
    && low + 12 <= Deepest(s) && 16 <= Deepest(s) && Register(s, LR) % 4 == 0 && Register(s, LR) + 8 < 0x1_0000_0000
  }

  lemma CalmFacts(h: nat, low: int, base: nat, s: Core)
    requires Calm(h, low, base, s)
    ensures Enters(h, low, base, s) && Room(s, base)
    ensures Off(low, Register(s, SP) + 4, base, 40) && Off(low, Register(s, SP), base, 40)
  {
    hide Poised, Front, Frames;
  }

  /** A poised core that calls itself is calm again. */
  lemma CalledCalm(h: nat, low: int, base: nat, back: word, s: Core)
    requires Calm(h, low, base, s) && Register(s, 0) != Register(s, 1) && back == base + 32
    ensures Calm(h, low, base, Called(s, back)) && Room(s, base)
  {
    hide Installed, Front, Frames, Called, IsGcd;
    CalmFacts(h, low, base, s);
    EnteredPoised(h, low, base, s);
    CallIsSmaller(s, base, back);
    CalledRegisters(s, back);
    InRange(Register(s, SP) - 4);
    CalledPoised(h, low, s, back);
  }

  lemma CalledPoised(h: nat, low: int, s: Core, back: word)
    requires |s.storage| == 31 && InMemory(s.mem, Register(s, SP)) && Poised(h, low, Entered(s))
    ensures Poised(h, low, Called(s, back))
  {
    hide Installed, Entered;
    assert Keeps(Entered(s), Called(s, back));
    KeepsPoised(h, low, Entered(s), Called(s, back));
  }

  /** A core kept but for the frames is poised at the epilogue. */
  lemma KeptPoised(h: nat, low: int, base: nat, v: Core, u: Core, deep: int)
    requires Poised(h, low, v) && Loaded(TextOf(v), base) && Kept(v, u, deep, Register(v, SP) + 4) && low <= deep
    requires Off(low, Register(v, SP) + 4, base, 40)
    ensures Poised(h, low, u) && Loaded(TextOf(u), base) && Register(u, SP) == Register(v, SP)
  {
    hide Installed, Front;
    FrontKept(TextOf(v), TextOf(u), base, 10);
    InstalledKept(TextOf(v), TextOf(u), h, low, Register(v, SP) + 4);
  }

  lemma EqualCallQuiet(h: nat, low: int, base: nat, s: Core)
    requires Calm(h, low, base, s) && Register(s, 0) == Register(s, 1)
    ensures QuietFor(h, low, At(s, base), 7)
  {
    hide Run, At, Front, Entered, Poised, Room, Calm, Enters, QuietFor, Quiet, Off, Register, Step, Boundary, Within, Wrap,
      Frames, Decode, ReadWord, WriteWord, Slot, SubFlags;
    CalmFacts(h, low, base, s);
    EntersFacts(h, low, base, s);
    FrontOf(TextOf(s), base, 10, 3);
    EntryRuns(base, s);
    EntryQuiet(h, low, base, s);
    EqualRestQuiet(h, low, base, s, Entered(s));
    QuietPlus(h, low, At(s, base), 3, 4);
  }

  /** The call of equal arguments after the prologue. */
  lemma EqualRestQuiet(h: nat, low: int, base: nat, s: Core, v: Core)
    requires Calm(h, low, base, s) && Register(s, 0) == Register(s, 1)
    requires InMemory(s.mem, Register(s, SP)) && v == Entered(s)
    ensures QuietFor(h, low, At(v, base + 12), 4)
  {
    hide Run, At, Front, Entered, Poised, Room, Calm, Enters, QuietFor, Quiet, Off, Put, Register, Leaves, Step, Boundary,
      Within, Wrap, Frames, Decode, ReadWord, WriteWord, Slot, SubFlags;
    CalmFacts(h, low, base, s);
    EntersFacts(h, low, base, s);
    EnteredPoised(h, low, base, s);
    EnteredRegisters(s, 0);
    EnteredOff(h, low, base, s);
    FrontOf(TextOf(v), base, 10, 5);
    EqualRuns(base, v);
    EqualQuiet(h, low, base, v);
    CalmLeaves(h, low, base, s);
    LeaveQuiet(h, low, base, Put(v, 2, Register(s, 0)));
    QuietPlus(h, low, At(v, base + 12), 2, 2);
  }

  lemma EnteredOff(h: nat, low: int, base: nat, s: Core)
    requires Enters(h, low, base, s) && InMemory(s.mem, Register(s, SP))
    ensures Off(low, Register(Entered(s), SP) + 4, base, 40)
  {
    hide Installed, Front, Entered;
    EnteredPoised(h, low, base, s);
  }

  /** The epilogue finds the frame of s. */
  lemma CalmLeaves(h: nat, low: int, base: nat, s: Core)
    requires Calm(h, low, base, s) && Register(s, 0) == Register(s, 1)
    ensures InMemory(s.mem, Register(s, SP)) && Leaves(h, low, base, Put(Entered(s), 2, Register(s, 0)))
  {
    hide Installed, Front, ReadWord, WriteWord, Entered, Room, Off;
    CalmFacts(h, low, base, s);
    EntersFacts(h, low, base, s);
    EnteredPoised(h, low, base, s);
    EnteredFrame(s, base);
    PutPoised(h, low, Entered(s), 2, Register(s, 0));
  }

  lemma PutKept(v: Core, x: word, sp: int)
    requires |v.storage| == 31
    ensures Kept(v, Put(v, 2, x), sp, sp)
  {
  }

  /** After the recursive call the epilogue is quiet too. */
  lemma ReturnQuiet(h: nat, low: int, base: nat, s: Core, u: Core)
    requires Calm(h, low, base, s) && Register(s, 0) != Register(s, 1)
    requires Returned(Called(s, base + 32), u)
    ensures |u.storage| == 31 && u == At(u, base + 32) && QuietFor(h, low, u, 2)
  {
    hide Installed, Front, Frames, Called, IsGcd, ReadWord, Left, Poised;
    var back := base + 32;
    var w := Called(s, back);
    CalmFacts(h, low, base, s);
    CalledCalm(h, low, base, back, s);
    CalledRegisters(s, back);
    CalledFrame(s, back);
    InRange(Register(s, SP) - 4);
    CallIsSmaller(s, base, back);
    AtIsHere(u);
    KeptPoised(h, low, base, w, u, Deepest(w));
    FrameHolds(s, w, u, Deepest(s));
    PoisedGuarded(h, low, s);
    LeaveQuiet(h, low, base, u);
  }

  lemma PoisedGuarded(h: nat, low: int, s: Core)
    requires Poised(h, low, s)
    ensures Guarded(h, low, Register(s, SP) + 4)
  {
  }

  /** Every instruction of the call is quiet. */
  lemma {:induction false} PgcdQuiet(h: nat, low: int, base: nat, s: Core)
    requires Calm(h, low, base, s)
    ensures Room(s, base) && QuietFor(h, low, At(s, base), Steps(s))
    decreases Register(s, 0) + Register(s, 1)
  {
    hide Run, At, Front, Called, Poised, Calm, Enters, QuietFor, Quiet, Off, Wrap, Register, Guarded, Returned, IsGcd, Deepest;
    CalmFacts(h, low, base, s);
    if Register(s, 0) == Register(s, 1) {
      EqualCallQuiet(h, low, base, s);
    } else {
      var back := base + 32;
      var w := Called(s, back);
      CalledCalm(h, low, base, back, s);
      CallIsSmaller(s, base, back);
      PgcdQuiet(h, low, base, w);
      PgcdRuns(base, w);
      CallQuiet(h, low, base, s, Steps(w));
    }
  }

  lemma CallQuiet(h: nat, low: int, base: nat, s: Core, n: nat)
    requires Calm(h, low, base, s) && Register(s, 0) != Register(s, 1)
    requires Returned(Called(s, base + 32), Run(At(Called(s, base + 32), base), n))
    requires QuietFor(h, low, At(Called(s, base + 32), base), n)
    ensures QuietFor(h, low, At(s, base), n + 8)
  {
    hide Run, At, Called, Calm, QuietFor, Register, Returned, Step, Boundary, Within, Wrap, Frames, Decode, ReadWord,
      WriteWord, Slot, SubFlags, Room, Poised, IsGcd, Deepest;
    CallEntry(h, low, base, s);
    CalmFacts(h, low, base, s);
    EntersFacts(h, low, base, s);
    var w := Called(s, base + 32);
    var u := Run(At(w, base), n);
    ReturnQuiet(h, low, base, s, u);
    QuietPlus(h, low, At(w, base), n, 2);
    QuietPlus(h, low, At(s, base), 6, n + 2);
  }

  /** The six instructions up to the recursive call. */
  lemma CallEntry(h: nat, low: int, base: nat, s: Core)
    requires Calm(h, low, base, s) && Register(s, 0) != Register(s, 1)
    ensures QuietFor(h, low, At(s, base), 6) && Run(At(s, base), 6) == At(Called(s, base + 32), base)
  {
    hide Run, At, Front, Entered, Called, Poised, Calm, Enters, QuietFor, Quiet, Off, Wrap, Register, SubFlags, Room,
      Narrowed, Step, Boundary, Within, Frames, Decode, ReadWord, WriteWord, Slot;
    CalmFacts(h, low, base, s);
    EntersFacts(h, low, base, s);
    EnteredPoised(h, low, base, s);
    FrontOf(TextOf(s), base, 10, 3);
    FrontOf(TextOf(s), base, 10, 8);
    EntryRuns(base, s);
    EnteredRegisters(s, 0);
    EnteredRegisters(s, 1);
    EnteredFlags(s);
    CallRuns(base, s);
    EntryQuiet(h, low, base, s);
    ElseQuiet(h, low, base, Entered(s));
    QuietPlus(h, low, At(s, base), 3, 3);
  }

  lemma {:induction false} QuietLess(h: nat, low: int, s: Core, m: nat, n: nat)
    requires QuietFor(h, low, s, n) && m <= n
    ensures QuietFor(h, low, s, m)
    decreases m
  {
    hide Step, Quiet, Boundary;
    if m > 0 {
      QuietLess(h, low, Step(s), m - 1, n - 1);
    }
  }

  /**
   Whatever requests come while pgcd runs, it passes through the states of its uninterrupted
   run; and when it has executed all its instructions and has the processor, it is back with
   the greatest common divisor in r2 and the caller's stack pointer.
   */
  lemma PgcdIsUndisturbed(h: nat, low: int, base: nat, s: Core, schedule: seq<bool>)
    requires Calm(h, low, base, s) && |s.storage| == 31 && Solvable(Register(s, 0), Register(s, 1))
    requires base < 0x1_0000_0000 && |Seen(low, At(s, base), schedule)| <= Steps(s)
    ensures Follows(low, At(s, base), At(s, base), schedule)
    ensures |Seen(low, At(s, base), schedule)| == Steps(s) ==>
              var u := After(At(s, base), schedule);
              || u.cpsr.mode == IRQ
              || (IsGcd(Register(u, 2), Register(s, 0), Register(s, 1)) && Register(u, PC) == Register(s, LR)
                  && Register(u, SP) == Register(s, SP))
  {
    var n := |Seen(low, At(s, base), schedule)|;
    CalmStarts(h, low, base, s);
    hide Run, At, Calm, Poised, QuietFor, Boundary, Unseen, Seen, After, Register, IsGcd, Room, Alone;
    PgcdQuiet(h, low, base, s);
    QuietLess(h, low, At(s, base), n, Steps(s));
    Transparent(h, low, At(s, base), At(s, base), schedule);
    PgcdRuns(base, s);
    if n == Steps(s) && After(At(s, base), schedule).cpsr.mode != IRQ {
      BackUnseen(low, s, Run(At(s, base), n), After(At(s, base), schedule));
    }
  }

  lemma CalmStarts(h: nat, low: int, base: nat, s: Core)
    requires Calm(h, low, base, s)
    ensures base < 0x1_0000_0000 && Boundary(h, low, At(s, base)) && Unseen(low, At(s, base), At(s, base)) && s.cpsr.mode != IRQ
  {
    hide Front, Frames, Installed;
    PoisedAt(h, low, s, base);
  }

  lemma BackUnseen(low: int, s: Core, t: Core, u: Core)
    requires Returned(s, t) && s.cpsr.mode != IRQ && Unseen(low, t, u)
    ensures |u.storage| == 31 && IsGcd(Register(u, 2), Register(s, 0), Register(s, 1))
    ensures Register(u, PC) == Register(s, LR) && Register(u, SP) == Register(s, SP)
  {
    hide IsGcd, Frames;
  }
}
