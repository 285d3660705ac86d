/** main of Examples/demoIntteruption.s: its loops under interrupts. */
module IrqDemo {
  import opened Memory
  import opened Arm
  import opened ArmSteps
  import opened Encoding
  import opened IrqHandler
  import opened Interrupts

  const LOOPS: seq<Instr> := [
    Data(AL, CMP, true, 0, 0, Imm(5)),     //  0 loop1
    Branch(EQ, false, 1),                  //  4
    Data(AL, ADD, false, 0, 0, Imm(1)),    //  8
    Branch(AL, false, -5)                  // 12
  ]                                        // 16 end_loop1

  const FOREVER: seq<Instr> := [
    Data(AL, ADD, false, 0, 0, Imm(1)),    // 20 loop
    Branch(AL, false, -3)                  // 24
  ]

  const LOOPS_WORDS: seq<word> := [0xE3500005, 0x0A000001, 0xE2800001, 0xEAFFFFFB]
  const FOREVER_WORDS: seq<word> := [0xE2800001, 0xEAFFFFFD]

  lemma LoopsAssemble()
    ensures Assembled(LOOPS, LOOPS_WORDS) && Assembled(FOREVER, FOREVER_WORDS)
  {
    hide Assemble;
    DataWord(AL, CMP, true, 0, 0, Imm(5), LOOPS_WORDS[0]);
    BranchWord(EQ, false, 1, LOOPS_WORDS[1]);
    DataWord(AL, ADD, false, 0, 0, Imm(1), LOOPS_WORDS[2]);
    BranchWord(AL, false, -5, LOOPS_WORDS[3]);
    BranchWord(AL, false, -3, FOREVER_WORDS[1]);
  }

  /** Both loops are loaded; what lies between them is not part of either. */
  ghost predicate Looping(text: Text, base: nat)
    ensures Looping(text, base) ==> base % 4 == 0 && base + 36 < 0x1_0000_0000 && base + 28 <= |text.mem|
  {
    LoadedAt(text, base, LOOPS) && LoadedAt(text, base + 20, FOREVER)
  }

  lemma LoopsLoad(text: Text, base: nat)
    requires InPlace(text, base, LOOPS_WORDS) && InPlace(text, base + 20, FOREVER_WORDS)
    ensures Looping(text, base)
  {
    hide InPlace, Assembled, Decode, ReadWord;
    LoopsAssemble();
    WordsLoad(text, base, LOOPS_WORDS, LOOPS);
    WordsLoad(text, base + 20, FOREVER_WORDS, FOREVER);
  }

  /** At an instruction of the loops or at end_loop1, with the loops off the free stack. */
  ghost predicate NearLoops(h: nat, low: int, base: nat, s: Core)
    ensures NearLoops(h, low, base, s) ==> |s.storage| == 31 && base % 4 == 0 && base + 36 < 0x1_0000_0000 && Register(s, PC) + 8 < 0x1_0000_0000
  {
    && Boundary(h, low, s) && Looping(TextOf(s), base) && Off(low, Register(s, SP) + 4, base, 28)
    && base <= Register(s, PC) <= base + 24
  }

  ghost predicate InLoops(h: nat, low: int, base: nat, s: Core)
    ensures InLoops(h, low, base, s) ==> NearLoops(h, low, base, s)
  {
    NearLoops(h, low, base, s) && Register(s, PC) != base + 16
  }

  /** The loops change only r0, the flags and the program counter. */
  lemma NearMoved(h: nat, low: int, base: nat, s: Core, t: Core, to: word)
    requires NearLoops(h, low, base, s) && base <= to <= base + 24 && to % 4 == 0
    requires t.mem == s.mem && t.spsr == s.spsr && t.cpsr == s.cpsr.(n := t.cpsr.n, z := t.cpsr.z, c := t.cpsr.c, v := t.cpsr.v)
    requires |t.storage| == 31 && forall k :: 1 <= k < 31 && k != PC ==> t.storage[k] == s.storage[k]
    ensures NearLoops(h, low, base, At(t, to)) && Register(At(t, to), 0) == t.storage[0]
  {
    hide Looping, Installed;
  }

  /** A loop instruction on registers. */
  lemma QuietHas(h: nat, low: int, base: nat, s: Core, pc: nat, ins: Instr)
    requires InLoops(h, low, base, s) && Register(s, PC) == pc && Has(TextOf(s), pc, ins)
    requires ins == Data(AL, ADD, false, 0, 0, Imm(1)) || ins == Data(AL, CMP, true, 0, 0, Imm(5))
          || (ins.Branch? && 0 <= pc + 8 + 4 * ins.offset < 0x1_0000_0000)
    ensures Quiet(h, low, s)
  {
    hide Decode, ReadWord, Looping, Installed;
  }

  lemma AddsStay(h: nat, low: int, base: nat, s: Core, pc: nat)
    requires Has(TextOf(s), pc, Data(AL, ADD, false, 0, 0, Imm(1)))
    requires InLoops(h, low, base, s) && Register(s, PC) == pc && pc + 4 <= base + 24
    ensures |s.storage| == 31 && Quiet(h, low, s) && NearLoops(h, low, base, Step(s))
    ensures Register(Step(s), PC) == pc + 4
  {
    QuietHas(h, low, base, s, pc, Data(AL, ADD, false, 0, 0, Imm(1)));
    AtIsHere(s);
    hide Step, Has, Wrap, Boundary, Looping, Quiet;
    var v := Wrap(Register(s, 0) as int + 1);
    DataStep(s, pc, AL, ADD, 0, 0, Imm(1));
    NearMoved(h, low, base, s, Put(s, 0, v), pc + 4);
    Registers(Put(s, 0, v), pc + 4, 0);
  }

  lemma CompareStays(h: nat, low: int, base: nat, s: Core, pc: nat)
    requires Has(TextOf(s), pc, Data(AL, CMP, true, 0, 0, Imm(5)))
    requires InLoops(h, low, base, s) && Register(s, PC) == pc && pc + 4 <= base + 24
    ensures |s.storage| == 31 && Quiet(h, low, s) && NearLoops(h, low, base, Step(s))
  {
    QuietHas(h, low, base, s, pc, Data(AL, CMP, true, 0, 0, Imm(5)));
    AtIsHere(s);
    hide Step, Has, Wrap, Boundary, Looping, Quiet, SubFlags;
    DataStep(s, pc, AL, CMP, 0, 0, Imm(5));
    NearMoved(h, low, base, s, s.(cpsr := SubFlags(s.cpsr, Register(s, 0), 5)), pc + 4);
  }

  lemma BranchStays(h: nat, low: int, base: nat, s: Core, pc: nat, cond: Cond, offset: int)
    requires Has(TextOf(s), pc, Branch(cond, false, offset)) && InLoops(h, low, base, s) && Register(s, PC) == pc && pc % 4 == 0
    requires base <= pc + 8 + 4 * offset <= base + 24 && (cond == AL || pc + 4 <= base + 24)
    ensures |s.storage| == 31 && Quiet(h, low, s) && NearLoops(h, low, base, Step(s))
    ensures cond == AL ==> Register(Step(s), PC) == pc + 8 + 4 * offset
  {
    hide Step, Has, NearLoops, InLoops, Register, At, Quiet, Looping;
    LoopsAt(h, low, base, s);
    QuietHas(h, low, base, s, pc, Branch(cond, false, offset));
    AtIsHere(s);
    var to := pc + 8 + 4 * offset;
    BranchStep(s, pc, cond, false, offset);
    Registers(s, to, 0);
    NearMoved(h, low, base, s, s, to);
    if !Holds(cond, s.cpsr) {
      NearMoved(h, low, base, s, s, pc + 4);
    }
  }

  lemma Here(text: Text, base: nat, k: nat)
    requires Looping(text, base) && k < 4
    ensures Has(text, base + 4 * k, LOOPS[k])
  {
    hide Has, LoadedAt;
    Placed(text, base, LOOPS, k);
  }

  lemma SecondHere(text: Text, base: nat, k: nat)
    requires Looping(text, base) && k < 2
    ensures Has(text, base + 20 + 4 * k, FOREVER[k])
  {
    hide Has, LoadedAt;
    Placed(text, base + 20, FOREVER, k);
  }

  lemma LoopsAt(h: nat, low: int, base: nat, s: Core)
    requires InLoops(h, low, base, s)
    ensures NearLoops(h, low, base, s) && Looping(TextOf(s), base)
    ensures var pc := Register(s, PC); base <= pc <= base + 24 && pc != base + 16 && pc % 4 == 0
  {
    hide Looping, Installed;
  }

  /** An instruction of the loops stays near the loops; one of the second loop stays in it. */
  lemma LoopsStep(h: nat, low: int, base: nat, s: Core)
    requires InLoops(h, low, base, s)
    ensures |s.storage| == 31 && Quiet(h, low, s) && NearLoops(h, low, base, Step(s))
    ensures Register(s, PC) >= base + 20 ==> Register(Step(s), PC) >= base + 20
  {
    hide Quiet, Has, Looping, Step, Register, NearLoops, InLoops;
    LoopsAt(h, low, base, s);
    var pc := Register(s, PC);
    if pc < base + 20 {
      Here(TextOf(s), base, (pc - base) / 4);
      if pc == base {
        CompareStays(h, low, base, s, pc);
      } else if pc == base + 4 {
        BranchStays(h, low, base, s, pc, EQ, 1);
      } else if pc == base + 8 {
        AddsStay(h, low, base, s, pc);
      } else {
        BranchStays(h, low, base, s, pc, AL, -5);
      }
    } else {
      SecondHere(TextOf(s), base, (pc - base - 20) / 4);
      if pc == base + 20 {
        AddsStay(h, low, base, s, pc);
      } else {
        BranchStays(h, low, base, s, pc, AL, -3);
      }
    }
  }

  /** The next n instructions of the uninterrupted run are in the loops. */
  ghost predicate LoopsFor(h: nat, low: int, base: nat, s: Core, n: nat)
    requires |s.storage| == 31
    decreases n
  {
    n == 0 || (InLoops(h, low, base, s) && LoopsFor(h, low, base, Step(s), n - 1))
  }

  lemma {:induction false} LoopsQuiet(h: nat, low: int, base: nat, s: Core, n: nat)
    requires NearLoops(h, low, base, s) && LoopsFor(h, low, base, s, n)
    ensures QuietFor(h, low, s, n)
    decreases n
  {
    hide Step, NearLoops, InLoops, Quiet, Boundary, Register;
    NearBoundary(h, low, base, s);
    if n > 0 {
      LoopsStep(h, low, base, s);
      LoopsQuiet(h, low, base, Step(s), n - 1);
    }
  }

  lemma NearBoundary(h: nat, low: int, base: nat, s: Core)
    requires NearLoops(h, low, base, s)
    ensures Boundary(h, low, s)
  {
  }

  lemma UnseenItself(low: int, s: Core)
    requires |s.storage| == 31
    ensures Unseen(low, s, s)
  {
  }

  /** While main is in its loops, even between a comparison and its branch, interrupts are invisible to it. */
  lemma MainIsUndisturbed(h: nat, low: int, base: nat, s: Core, schedule: seq<bool>)
    requires NearLoops(h, low, base, s) && LoopsFor(h, low, base, s, |Seen(low, s, schedule)|)
    ensures Follows(low, s, s, schedule)
  {
    hide NearLoops, Follows, Seen, LoopsFor, Boundary, QuietFor, Unseen;
    NearBoundary(h, low, base, s);
    LoopsQuiet(h, low, base, s, |Seen(low, s, schedule)|);
    UnseenItself(low, s);
    Transparent(h, low, s, s, schedule);
  }

  /** The second loop is never left. */
  lemma {:induction false} SecondLoopStays(h: nat, low: int, base: nat, s: Core, n: nat)
    requires NearLoops(h, low, base, s) && Register(s, PC) >= base + 20
    ensures LoopsFor(h, low, base, s, n)
    decreases n
  {
    hide Step, NearLoops, Register, Quiet;
    if n > 0 {
      LoopsStep(h, low, base, s);
      SecondLoopStays(h, low, base, Step(s), n - 1);
    }
  }

  /** As long as the first loop is not left, main is in its loops. */
  lemma {:induction false} FirstLoopStays(h: nat, low: int, base: nat, s: Core, n: nat)
    requires NearLoops(h, low, base, s) && Within(base, base + 16, s, n)
    ensures LoopsFor(h, low, base, s, n)
    decreases n
  {
    hide Step, NearLoops, Quiet, Register;
    if n > 0 {
      LoopsStep(h, low, base, s);
      FirstLoopStays(h, low, base, Step(s), n - 1);
    }
  }

  /** s with the flags of a comparison. */
  function Compared(s: Core, r: word): (t: Core)
    ensures t.storage == s.storage && t.mem == s.mem
  {
    s.(cpsr := SubFlags(s.cpsr, r, 5))
  }

  lemma CountsUp(h: nat, low: int, base: nat, s: Core, r: word)
    requires NearLoops(h, low, base, s) && Register(s, 0) == r < 5 && base % 4 == 0
    ensures var s1 := Compared(s, r);
            && Register(s1, 0) == r && NearLoops(h, low, base, At(Put(s1, 0, r + 1), base))
            && Register(At(Put(s1, 0, r + 1), base), 0) == r + 1 && Register(At(Put(s1, 0, r + 1), base), PC) == base
  {
    hide Boundary, Looping;
    var s1 := Compared(s, r);
    NearMoved(h, low, base, s, Put(s1, 0, r + 1), base);
    Registers(Put(s1, 0, r + 1), base, 0);
  }

  /** One round of the first loop counts r0 up. */
  lemma FirstLoopRound(h: nat, low: int, base: nat, s: Core)
    requires NearLoops(h, low, base, s) && Register(s, 0) < 5
    ensures var u := Run(At(s, base), 4);
            NearLoops(h, low, base, u) && u == At(u, base) && Register(u, 0) == Register(s, 0) + 1
    ensures Within(base, base + 16, At(s, base), 4)
  {
    hide Step, Has, Looping, Within, Wrap, SubFlags, Register, At, Put, NearLoops, Run;
    NearText(h, low, base, s);
    var r := Register(s, 0);
    CountsUp(h, low, base, s, r);
    var s1 := Compared(s, r);
    var s2 := Put(s1, 0, r + 1);
    Here(TextOf(s), base, 0);
    Here(TextOf(s), base, 1);
    Here(TextOf(s), base, 2);
    Here(TextOf(s), base, 3);
    DataStep(s, base, AL, CMP, 0, 0, Imm(5));
    CompareMeans(s.cpsr, r, 5);
    BranchStep(s1, base + 4, EQ, false, 1);
    InRange(r + 1);
    DataStep(s1, base + 8, AL, ADD, 0, 0, Imm(1));
    BranchStep(s2, base + 12, AL, false, -5);
    ShortRuns(At(s, base));
    FourWithin(base, s, s1, s2);
    AtIsHere(At(s2, base));
  }

  lemma NearText(h: nat, low: int, base: nat, s: Core)
    requires NearLoops(h, low, base, s)
    ensures Looping(TextOf(s), base)
  {
  }

  lemma FourWithin(base: nat, s: Core, s1: Core, s2: Core)
    requires |s.storage| == |s1.storage| == |s2.storage| == 31 && base + 16 < 0x1_0000_0000
    requires Step(At(s, base)) == At(s1, base + 4) && Step(At(s1, base + 4)) == At(s1, base + 8)
    requires Step(At(s1, base + 8)) == At(s2, base + 12)
    ensures Within(base, base + 16, At(s, base), 4)
  {
    hide Step, At, Register;
    WithinAt(base, base + 16, s, base, 3);
    WithinAt(base, base + 16, s1, base + 4, 2);
    WithinAt(base, base + 16, s1, base + 8, 1);
    WithinAt(base, base + 16, s2, base + 12, 0);
  }

  lemma FirstLoopExit(h: nat, low: int, base: nat, s: Core)
    requires NearLoops(h, low, base, s) && Register(s, 0) == 5
    ensures var u := Run(At(s, base), 2); Register(u, PC) == base + 16 && Register(u, 0) == 5
    ensures Within(base, base + 16, At(s, base), 2)
  {
    hide Step, Has, Looping, Wrap, SubFlags, At, NearLoops;
    NearText(h, low, base, s);
    var s1 := s.(cpsr := SubFlags(s.cpsr, 5, 5));
    assert Register(s1, 0) == 5;
    Registers(s1, base + 16, 0);
    hide Register;
    Here(TextOf(s), base, 0);
    Here(TextOf(s), base, 1);
    DataStep(s, base, AL, CMP, 0, 0, Imm(5));
    CompareMeans(s.cpsr, 5, 5);
    BranchStep(s1, base + 4, EQ, false, 1);
    ShortRuns(At(s, base));
    WithinAt(base, base + 16, s, base, 1);
    WithinAt(base, base + 16, s1, base + 4, 0);
  }

  /** The first loop counts r0 up to 5 and ends at end_loop1. */
  lemma {:induction false} FirstLoopEnds(h: nat, low: int, base: nat, s: Core)
    requires NearLoops(h, low, base, s) && Register(s, 0) <= 5
    ensures var n := 4 * (5 - Register(s, 0)) + 2;
            LeavesFor(base, base + 16, At(s, base), base + 16, n) && Register(Run(At(s, base), n), 0) == 5
    decreases 5 - Register(s, 0)
  {
    hide Step, Within, NearLoops, Register, At, Run;
    var r: int := Register(s, 0);
    if r == 5 {
      FirstLoopExit(h, low, base, s);
    } else {
      var u := Run(At(s, base), 4);
      var n := 4 * (5 - (r + 1)) + 2;
      FirstLoopRound(h, low, base, s);
      FirstLoopEnds(h, low, base, u);
      RunPlus(At(s, base), 4, n);
      WithinPlus(base, base + 16, At(s, base), 4, n);
    }
  }

  /** The first instruction of the second loop counts r0 up, the second goes back. */
  lemma SecondLoopRound(h: nat, low: int, base: nat, s: Core)
    requires NearLoops(h, low, base, s) && Register(s, PC) == base + 20
    ensures Register(Run(s, 1), 0) == Wrap(Register(s, 0) + 1)
    ensures var u := Run(s, 2);
            NearLoops(h, low, base, u) && Register(u, PC) == base + 20 && Register(u, 0) == Wrap(Register(s, 0) + 1)
  {
    hide Step, Has, Looping, Within, Wrap, Register, At, Put, NearLoops, Run;
    NearText(h, low, base, s);
    SecondHere(TextOf(s), base, 0);
    SecondHere(TextOf(s), base, 1);
    var r: int := Register(s, 0);
    var s1 := Put(s, 0, Wrap(r + 1));
    AtIsHere(s);
    DataStep(s, base + 20, AL, ADD, 0, 0, Imm(1));
    BranchStep(s1, base + 24, AL, false, -3);
    ShortRuns(s);
    SecondCounts(h, low, base, s);
    Registers(s1, base + 24, 0);
    Registers(s1, base + 20, 0);
    PutRegisters(s, 0, Wrap(r + 1), 0);
  }

  lemma SecondCounts(h: nat, low: int, base: nat, s: Core)
    requires NearLoops(h, low, base, s)
    ensures NearLoops(h, low, base, At(Put(s, 0, Wrap(Register(s, 0) + 1)), base + 20))
  {
    hide Boundary, Looping, Wrap;
    NearMoved(h, low, base, s, Put(s, 0, Wrap(Register(s, 0) + 1)), base + 20);
  }

  /** n instructions of the second loop have counted r0 up by half as much. */
  lemma {:induction false} SecondLoopCounts(h: nat, low: int, base: nat, s: Core, n: nat)
    requires NearLoops(h, low, base, s) && Register(s, PC) == base + 20
    ensures |s.storage| == 31 && Register(Run(s, n), 0) == Wrap(Register(s, 0) + (n + 1) / 2)
    decreases n
  {
    hide NearLoops, Register, Run, Wrap;
    var r: int := Register(s, 0);
    SecondLoopRound(h, low, base, s);
    if n == 0 {
      RunNothing(s);
      InRange(r);
    } else if n > 1 {
      var u := Run(s, 2);
      SecondLoopCounts(h, low, base, u, n - 2);
      RunPlus(s, 2, n - 2);
      WrapTwice(r + 1, (n - 1) / 2);
    }
  }

  lemma RunNothing(s: Core)
    requires |s.storage| == 31
    ensures Run(s, 0) == s
  {
  }

  lemma WrapTwice(x: int, y: int)
    ensures Wrap(Wrap(x) + y) == Wrap(x + y)
  {
  }
}
