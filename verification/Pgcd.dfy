/** Examples/pgcd.s: the greatest common divisor by recursive subtraction, with its own stack. */
module Pgcd {
  import opened Memory
  import opened Arm
  import opened ArmSteps
  import opened Encoding

  // ----- the function computed

  function Times(k: nat, d: nat): nat {
    k * d
  }

  ghost predicate Divides(d: nat, a: nat) {
    exists k :: Times(k, d) == a
  }

  /** g is the greatest common divisor of a and b: the common divisor that all of them divide. */
  ghost predicate IsGcd(g: nat, a: nat, b: nat) {
    && Divides(g, a) && Divides(g, b)
    && forall d: nat :: Divides(d, a) && Divides(d, b) ==> Divides(d, g)
  }

  /** It is the greatest in size too; of 0 and 0, which every number divides, it is 0. */
  lemma GcdIsGreatest(g: nat, a: nat, b: nat)
    requires IsGcd(g, a, b)
    ensures a > 0 || b > 0 ==> g > 0 && forall d: nat :: Divides(d, a) && Divides(d, b) ==> d <= g
    ensures a == b == 0 ==> g == 0
  {
    if a > 0 || b > 0 {
      var k :| Times(k, g) == if a > 0 then a else b;
      assert g > 0;
      forall d: nat | Divides(d, a) && Divides(d, b)
        ensures d <= g
      {
        DivisorBelow(d, g);
      }
    } else {
      assert Times(0, g + 1) == 0;
      if g > 0 {
        DivisorBelow(g + 1, g);
      }
    }
  }

  lemma DivisorBelow(d: nat, g: nat)
    requires g > 0 && Divides(d, g)
    ensures d <= g
  {
    var k: nat :| Times(k, d) == g;
    assert k > 0;
    TimesOrder(1, k, d);
  }

  /** Subtracting keeps the common divisors. */
  lemma SameDivisors(d: nat, a: nat, b: nat)
    requires a > b && Divides(d, b)
    ensures Divides(d, a) <==> Divides(d, a - b)
  {
    var q: nat :| Times(q, d) == b;
    if Divides(d, a) {
      var p: nat :| Times(p, d) == a;
      TimesOrder(p, q, d);
      assert (p - q) * d == p * d - q * d;
      assert Times(p - q, d) == a - b;
    }
    if Divides(d, a - b) {
      var p: nat :| Times(p, d) == a - b;
      assert (p + q) * d == p * d + q * d;
      assert Times(p + q, d) == a;
    }
  }

  lemma TimesOrder(p: nat, q: nat, d: nat)
    ensures p <= q ==> Times(p, d) <= Times(q, d)
  {
    if p <= q {
      assert (q - p) * d >= 0;
      assert q * d == p * d + (q - p) * d;
    }
  }

  lemma GcdStep(g: nat, a: nat, b: nat)
    requires a > b
    ensures IsGcd(g, a - b, b) <==> IsGcd(g, a, b)
  {
    forall d: nat | Divides(d, b)
      ensures Divides(d, a) <==> Divides(d, a - b)
    {
      SameDivisors(d, a, b);
    }
  }

  lemma GcdSwap(g: nat, a: nat, b: nat)
    ensures IsGcd(g, a, b) <==> IsGcd(g, b, a)
  {
  }

  lemma GcdSame(a: nat)
    ensures IsGcd(a, a, a)
  {
    assert Times(1, a) == a;
  }

  // ----- the program

  const PGCD: seq<Instr> := [
    Transfer(AL, false, false, false, false, LR, SP, Imm(4), 0), //  0 pgcd
    Data(AL, CMP, true, 0, 0, Reg(1)),                           //  4
    Branch(NE, false, 1),                                        //  8
    Data(AL, MOV, false, 2, 0, Reg(0)),                          // 12
    Branch(AL, false, 2),                                        // 16
    Data(HI, SUB, false, 0, 0, Reg(1)),                          // 20 else
    Data(LS, SUB, false, 1, 1, Reg(0)),                          // 24
    Branch(AL, true, -9),                                        // 28
    Transfer(AL, true, true, true, true, LR, SP, Imm(4), 0),     // 32 endif
    Data(AL, MOV, false, PC, 0, Reg(LR))                         // 36
  ]

  const PGCD_WORDS: seq<word> := [
    0xE40DE004, 0xE1500001, 0x1A000001, 0xE1A02000, 0xEA000002,
    0x80400001, 0x90411000, 0xEBFFFFF7, 0xE5BDE004, 0xE1A0F00E
  ]

  lemma PgcdAssembles()
    ensures Assembled(PGCD, PGCD_WORDS)
  {
    hide Assemble;
    TransferWord(PGCD[0], PGCD_WORDS[0]);
    DataWord(AL, CMP, true, 0, 0, Reg(1), PGCD_WORDS[1]);
    BranchWord(NE, false, 1, PGCD_WORDS[2]);
    DataWord(AL, MOV, false, 2, 0, Reg(0), PGCD_WORDS[3]);
    BranchWord(AL, false, 2, PGCD_WORDS[4]);
    DataWord(HI, SUB, false, 0, 0, Reg(1), PGCD_WORDS[5]);
    DataWord(LS, SUB, false, 1, 1, Reg(0), PGCD_WORDS[6]);
    BranchWord(AL, true, -9, PGCD_WORDS[7]);
    TransferWord(PGCD[8], PGCD_WORDS[8]);
    DataWord(AL, MOV, false, PC, 0, Reg(LR), PGCD_WORDS[9]);
  }

  lemma PgcdLoads(text: Text, base: nat)
    requires InPlace(text, base, PGCD_WORDS)
    ensures Loaded(text, base)
  {
    PgcdAssembles();
    assert PGCD[..10] == PGCD;
    hide InPlace, LoadedAt, Assembled;
    WordsLoad(text, base, PGCD_WORDS, PGCD);
  }

  /** The first n instructions are in place. */
  ghost predicate Front(text: Text, base: nat, n: nat)
    requires n <= |PGCD|
    ensures Front(text, base, n) ==> base + 4 * n + 8 < 0x1_0000_0000 && base + 4 * n <= |text.mem| && base % 4 == 0
  {
    LoadedAt(text, base, PGCD[..n])
  }

  ghost predicate Loaded(text: Text, base: nat)
    ensures Loaded(text, base) ==> base + 48 < 0x1_0000_0000 && base + 40 <= |text.mem|
  {
    Front(text, base, 10)
  }

  lemma Here(text: Text, base: nat, n: nat, k: nat)
    requires k < n <= |PGCD| && Front(text, base, n)
    ensures Has(text, base + 4 * k, PGCD[k])
  {
    hide Has, LoadedAt;
    Placed(text, base, PGCD[..n], k);
  }

  lemma FrontOf(text: Text, base: nat, n: nat, m: nat)
    requires m <= n <= |PGCD| && Front(text, base, n)
    ensures Front(text, base, m)
  {
    hide Decode, ReadWord;
    assert forall k :: 0 <= k < m ==> PGCD[..m][k] == PGCD[..n][k];
  }

  lemma FrontKept(text: Text, other: Text, base: nat, n: nat)
    requires n <= |PGCD| && Front(text, base, n) && other.e == text.e && |other.mem| == |text.mem|
    requires forall x :: base <= x < base + 4 * n ==> other.mem[x] == text.mem[x]
    ensures Front(other, base, n)
  {
    hide LoadedAt;
    LoadedKept(text, other, base, PGCD[..n]);
  }

  /** After the prologue and the comparison. */
  function Entered(s: Core): (t: Core)
    requires |s.storage| == 31 && InMemory(s.mem, Register(s, SP))
    ensures |t.storage| == 31 && t.cpsr.e == s.cpsr.e && |t.mem| == |s.mem|
  {
    var sp := Register(s, SP);
    Put(s, SP, Wrap(sp - 4)).(mem := WriteWord(s.mem, s.cpsr.e, sp, Register(s, LR)),
                              cpsr := SubFlags(s.cpsr, Register(s, 0), Register(s, 1)))
  }

  /** The prologue leaves instructions alone that it does not write on. */
  lemma EnteredText(s: Core, base: nat, n: nat)
    requires |s.storage| == 31 && InMemory(s.mem, Register(s, SP)) && n <= |PGCD| && Front(TextOf(s), base, n)
    requires Register(s, SP) + 4 <= base || base + 4 * n <= Register(s, SP)
    ensures Front(TextOf(Entered(s)), base, n)
  {
    hide LoadedAt, WriteWord, Wrap, Put, Register;
    LoadedStored(TextOf(s), base, PGCD[..n], Register(s, SP), Register(s, LR));
  }

  lemma EntrySteps(base: nat, s: Core)
    requires |s.storage| == 31 && InMemory(s.mem, Register(s, SP)) && Front(TextOf(s), base, 3)
    requires Register(s, SP) + 4 <= base || base + 12 <= Register(s, SP)
    ensures InMemory(s.mem, Address(s, PGCD[0]))
    ensures var s1, v := Transferred(s, PGCD[0]), Entered(s);
            && Step(At(s, base)) == At(s1, base + 4) && Step(At(s1, base + 4)) == At(v, base + 8)
            && Step(At(v, base + 8)) == At(v, base + if Register(s, 0) == Register(s, 1) then 12 else 20)
  {
    hide Slot, Step, Wrap, WriteWord, SubFlags, Put, At, Has, Front, Register;
    var sp: int, a, b := Register(s, SP), Register(s, 0), Register(s, 1);
    EnteredText(s, base, 3);
    Here(TextOf(s), base, 3, 0);
    TransferStep(s, base, PGCD[0]);
    var s1 := Transferred(s, PGCD[0]);
    PutRegisters(s, SP, Wrap(sp - 4), LR);
    PutRegisters(s, SP, Wrap(sp - 4), 0);
    PutRegisters(s, SP, Wrap(sp - 4), 1);
    assert Register(s1, 0) == a && Register(s1, 1) == b by { SameStorage(s1, Put(s, SP, Wrap(sp - 4))); }
    Here(TextOf(s1), base, 3, 1);
    DataStep(s1, base + 4, AL, CMP, 0, 0, Reg(1));
    var s2 := s1.(cpsr := SubFlags(s.cpsr, a, b));
    assert s2 == Entered(s);
    Here(TextOf(s2), base, 3, 2);
    BranchStep(s2, base + 8, NE, false, 1);
    CompareMeans(s.cpsr, a, b);
  }

  lemma EntryRuns(base: nat, s: Core)
    requires |s.storage| == 31 && InMemory(s.mem, Register(s, SP)) && Front(TextOf(s), base, 3)
    requires Register(s, SP) + 4 <= base || base + 12 <= Register(s, SP)
    ensures Run(At(s, base), 3) == At(Entered(s), base + if Register(s, 0) == Register(s, 1) then 12 else 20)
    ensures Within(base, base + 40, At(s, base), 3)
  {
    hide Step, At, Front, Register, Within, Run, Entered, Transferred, Address, InMemory;
    EntrySteps(base, s);
    ShortRuns(At(s, base));
    WithinThree(base, s, base, Transferred(s, PGCD[0]), Entered(s));
  }

  lemma WithinTwo(base: nat, s: Core, pc: word, s1: Core)
    requires |s.storage| == |s1.storage| == 31 && base <= pc && pc + 4 < base + 40 && pc + 4 < 0x1_0000_0000
    requires Step(At(s, pc)) == At(s1, pc + 4)
    ensures Within(base, base + 40, At(s, pc), 2)
  {
    hide Step, At, Register;
    WithinAt(base, base + 40, s, pc, 1);
    WithinAt(base, base + 40, s1, pc + 4, 0);
  }

  lemma WithinThree(base: nat, s: Core, pc: word, s1: Core, s2: Core)
    requires |s.storage| == |s1.storage| == |s2.storage| == 31
    requires base <= pc && pc + 8 < base + 40 && pc + 8 < 0x1_0000_0000
    requires Step(At(s, pc)) == At(s1, pc + 4) && Step(At(s1, pc + 4)) == At(s2, pc + 8)
    ensures Within(base, base + 40, At(s, pc), 3)
  {
    hide Step, At, Register, Within;
    WithinAt(base, base + 40, s, pc, 2);
    WithinTwo(base, s1, pc + 4, s2);
  }

  lemma EnteredRegisters(s: Core, r: nat)
    requires |s.storage| == 31 && InMemory(s.mem, Register(s, SP)) && r < PC
    ensures Register(Entered(s), r) == if r == SP then Wrap(Register(s, SP) - 4) else Register(s, r)
  {
    var sp: int := Register(s, SP);
    PutRegisters(s, SP, Wrap(sp - 4), r);
    SameStorage(Put(s, SP, Wrap(sp - 4)), Entered(s));
  }

  lemma EqualSteps(base: nat, s: Core)
    requires Front(TextOf(s), base, 5) && |s.storage| == 31 && base + 40 < 0x1_0000_0000
    ensures var u := Put(s, 2, Register(s, 0));
            Step(At(s, base + 12)) == At(u, base + 16) && Step(At(u, base + 16)) == At(u, base + 32)
  {
    hide Slot, Step, Wrap, Put, At, Has, Front, Register;
    Here(TextOf(s), base, 5, 3);
    Here(TextOf(s), base, 5, 4);
    DataStep(s, base + 12, AL, MOV, 2, 0, Reg(0));
    BranchStep(Put(s, 2, Register(s, 0)), base + 16, AL, false, 2);
  }

  lemma EqualRuns(base: nat, s: Core)
    requires Front(TextOf(s), base, 5) && |s.storage| == 31 && base + 40 < 0x1_0000_0000
    ensures Run(At(s, base + 12), 2) == At(Put(s, 2, Register(s, 0)), base + 32)
    ensures Within(base, base + 40, At(s, base + 12), 2)
  {
    hide Step, Put, At, Front, Register, Within, Run;
    EqualSteps(base, s);
    ShortRuns(At(s, base + 12));
    WithinTwo(base, s, base + 12, Put(s, 2, Register(s, 0)));
  }

  /** The arguments of the recursive call. */
  function Narrowed(s: Core): (t: Core)
    requires |s.storage| == 31
    ensures |t.storage| == 31 && t.mem == s.mem && t.cpsr == s.cpsr
  {
    var a, b := Register(s, 0), Register(s, 1);
    if a > b then Put(s, 0, a - b) else Put(s, 1, b - a)
  }

  /** The two conditional subtractions: exactly one is done. */
  lemma SubtractionSteps(base: nat, s: Core)
    requires Front(TextOf(s), base, 7) && |s.storage| == 31
    requires exists p :: s.cpsr == SubFlags(p, Register(s, 0), Register(s, 1))
    ensures var a: int, b: int := Register(s, 0), Register(s, 1);
            var s1 := if a > b then Put(s, 0, a - b) else s;
            Step(At(s, base + 20)) == At(s1, base + 24) && Step(At(s1, base + 24)) == At(Narrowed(s), base + 28)
  {
    hide Slot, Step, Wrap, SubFlags, Sub, Put, At, Has, Front, Register, Holds;
    var a: int, b: int := Register(s, 0), Register(s, 1);
    var p :| s.cpsr == SubFlags(p, a, b);
    CompareMeans(p, a, b);
    SubInRange(a, b);
    SubInRange(b, a);
    Here(TextOf(s), base, 7, 5);
    Here(TextOf(s), base, 7, 6);
    DataStep(s, base + 20, HI, SUB, 0, 0, Reg(1));
    var s1 := if a > b then Put(s, 0, a - b) else s;
    DataStep(s1, base + 24, LS, SUB, 1, 1, Reg(0));
  }

  lemma SubtractionsRun(base: nat, s: Core)
    requires Front(TextOf(s), base, 7) && |s.storage| == 31
    requires exists p :: s.cpsr == SubFlags(p, Register(s, 0), Register(s, 1))
    ensures Run(At(s, base + 20), 2) == At(Narrowed(s), base + 28) && Within(base, base + 40, At(s, base + 20), 2)
  {
    hide Step, Put, At, Front, Register, Within, Run, Narrowed, SubFlags;
    var a: int, b: int := Register(s, 0), Register(s, 1);
    SubtractionSteps(base, s);
    ShortRuns(At(s, base + 20));
    WithinTwo(base, s, base + 20, if a > b then Put(s, 0, a - b) else s);
  }

  lemma CallStep(base: nat, u: Core)
    requires Front(TextOf(u), base, 8) && |u.storage| == 31
    ensures Step(At(u, base + 28)) == At(Put(u, LR, base + 32), base)
  {
    hide Step, Has, At, Put, Front;
    Here(TextOf(u), base, 8, 7);
    BranchStep(u, base + 28, AL, true, -9);
  }

  lemma ElseRuns(base: nat, s: Core)
    requires Front(TextOf(s), base, 8) && |s.storage| == 31
    requires exists p :: s.cpsr == SubFlags(p, Register(s, 0), Register(s, 1))
    ensures Run(At(s, base + 20), 3) == At(Put(Narrowed(s), LR, base + 32), base)
    ensures Within(base, base + 40, At(s, base + 20), 3)
  {
    hide Step, SubFlags, Put, At, Front, Register, Within, Run, Narrowed;
    FrontOf(TextOf(s), base, 8, 7);
    SubtractionsRun(base, s);
    CallStep(base, Narrowed(s));
    ShortRuns(At(Narrowed(s), base + 28));
    RunPlus(At(s, base + 20), 2, 1);
    WithinAt(base, base + 40, Narrowed(s), base + 28, 0);
    WithinNone(base, base + 40, Step(At(Narrowed(s), base + 28)));
    WithinPlus(base, base + 40, At(s, base + 20), 2, 1);
  }

  /** The frame is dropped and the link register restored from it. */
  function Left(s: Core): (t: Core)
    requires |s.storage| == 31 && InMemory(s.mem, Wrap(Register(s, SP) + 4))
    ensures |t.storage| == 31 && t.mem == s.mem && t.cpsr == s.cpsr
  {
    var sp := Wrap(Register(s, SP) + 4);
    Put(Put(s, SP, sp), LR, ReadWord(s.mem, s.cpsr.e, sp))
  }

  lemma LeaveStep(base: nat, s: Core)
    requires Front(TextOf(s), base, 9) && |s.storage| == 31 && InMemory(s.mem, Wrap(Register(s, SP) + 4))
    ensures Step(At(s, base + 32)) == At(Left(s), base + 36)
  {
    hide Slot, Step, Wrap, Put, At, Has, Front, Register, ReadWord;
    Here(TextOf(s), base, 9, 8);
    TransferStep(s, base + 32, PGCD[8]);
  }

  lemma LeaveSteps(base: nat, s: Core)
    requires Loaded(TextOf(s), base) && |s.storage| == 31 && InMemory(s.mem, Wrap(Register(s, SP) + 4))
    ensures Step(At(s, base + 32)) == At(Left(s), base + 36) && Step(At(Left(s), base + 36)) == At(Left(s), Register(Left(s), LR))
  {
    hide Slot, Step, Wrap, Put, At, Has, Front, Register, ReadWord;
    FrontOf(TextOf(s), base, 10, 9);
    Here(TextOf(s), base, 10, 9);
    LeaveStep(base, s);
    ReturnStep(Left(s), base + 36, LR);
  }

  lemma LeaveRuns(base: nat, s: Core)
    requires Loaded(TextOf(s), base) && |s.storage| == 31 && InMemory(s.mem, Wrap(Register(s, SP) + 4))
    ensures Run(At(s, base + 32), 2) == At(Left(s), Register(Left(s), LR))
    ensures Within(base, base + 40, At(s, base + 32), 2)
  {
    hide Step, At, Front, Register, Within, Run, Left, Wrap;
    LeaveSteps(base, s);
    ShortRuns(At(s, base + 32));
    WithinTwo(base, s, base + 32, Left(s));
  }

  // ----- the whole call

  /** The arguments from which the subtractions come to an end. */
  predicate Solvable(a: nat, b: nat) {
    a == b || (a > 0 && b > 0)
  }

  /** How many frames the call uses. */
  function Frames(a: nat, b: nat): (f: nat)
    requires Solvable(a, b)
    ensures f >= 1 && (a > 0 ==> f <= if a > b then a else b)
    decreases a + b
  {
    if a == b then 1
    else if a > b then 1 + Frames(a - b, b)
    else 1 + Frames(a, b - a)
  }

  /**
   t differs from s only in r0 to r2, the program counter, the flags and the memory from
   low up to high.
   */
  ghost predicate Kept(s: Core, t: Core, low: int, high: int) {
    && |s.storage| == |t.storage| == 31 && |t.mem| == |s.mem| && t.spsr == s.spsr
    && t.cpsr == s.cpsr.(n := t.cpsr.n, z := t.cpsr.z, c := t.cpsr.c, v := t.cpsr.v)
    && (forall k :: 3 <= k < 31 && k != PC ==> t.storage[k] == s.storage[k])
    && (forall x :: 0 <= x < |s.mem| && !(low <= x < high) ==> t.mem[x] == s.mem[x])
  }

  /** Storage a call may not change. */
  lemma EnteredKeeps(s: Core)
    requires |s.storage| == 31 && InMemory(s.mem, Register(s, SP))
    ensures var sp: int, u := Register(s, SP), Entered(s);
            && Register(u, SP) == Wrap(sp - 4) && ReadWord(u.mem, s.cpsr.e, sp) == Register(s, LR)
            && (forall k :: 0 <= k < 31 && k != Slot(s.cpsr.mode, SP) ==> u.storage[k] == s.storage[k])
            && (forall x :: 0 <= x < |s.mem| && !(sp <= x < sp + 4) ==> u.mem[x] == s.mem[x])
  {
    var sp := Register(s, SP);
    ReadWritten(s.mem, s.cpsr.e, sp, Register(s, LR));
    hide Slot, ReadWord, WriteWord;
  }

  /** v is inside a frame that a call from s opened: the old link register is on the stack. */
  ghost predicate Framed(s: Core, v: Core) {
    && |s.storage| == |v.storage| == 31 && |v.mem| == |s.mem|
    && Register(s, SP) + 4 <= |s.mem| < 0x1_0000_0000
    && v.spsr == s.spsr && v.cpsr == s.cpsr.(n := v.cpsr.n, z := v.cpsr.z, c := v.cpsr.c, v := v.cpsr.v)
    && Wrap(Register(v, SP) + 4) == Register(s, SP)
    && ReadWord(v.mem, s.cpsr.e, Register(s, SP)) == Register(s, LR)
    && (forall k :: 3 <= k < 31 && k != PC && k != Slot(s.cpsr.mode, SP) && k != Slot(s.cpsr.mode, LR) ==>
         v.storage[k] == s.storage[k])
    && (forall x :: 0 <= x < |s.mem| && !(Register(s, SP) <= x < Register(s, SP) + 4) ==> v.mem[x] == s.mem[x])
  }

  /** Leaving puts the stack and link registers back to what they were on entry. */
  lemma LeftKeeps(s: Core, v: Core, u: Core, low: int)
    requires Framed(s, v) && Kept(v, u, low, Register(s, SP)) && low <= Register(s, SP)
    ensures InMemory(u.mem, Wrap(Register(u, SP) + 4))
    ensures Kept(s, Left(u), low, Register(s, SP) + 4) && Register(Left(u), LR) == Register(s, LR)
    ensures Register(Left(u), 2) == Register(u, 2)
  {
    hide Slot, ReadWord;
    Slots(s.cpsr.mode);
    FrameHolds(s, v, u, low);
  }

  /** The link register is still on the stack. */
  lemma FrameHolds(s: Core, v: Core, u: Core, low: int)
    requires Framed(s, v) && Kept(v, u, low, Register(s, SP)) && low <= Register(s, SP)
    ensures Wrap(Register(u, SP) + 4) == Register(s, SP) && ReadWord(u.mem, u.cpsr.e, Register(s, SP)) == Register(s, LR)
  {
    hide ReadWord, Wrap;
    Slots(s.cpsr.mode);
    ReadSame(v.mem, u.mem, s.cpsr.e, Register(s, SP));
    hide Slot;
  }

  /** The lowest frame. */
  function Deepest(s: Core): int
    requires |s.storage| == 31 && Solvable(Register(s, 0), Register(s, 1))
  {
    Register(s, SP) - 4 * (Frames(Register(s, 0), Register(s, 1)) - 1)
  }

  /** What a call from s returns: the divisor in r2, and everything else as it was. */
  ghost predicate Returned(s: Core, t: Core) {
    && |s.storage| == |t.storage| == 31 && Solvable(Register(s, 0), Register(s, 1))
    && IsGcd(Register(t, 2), Register(s, 0), Register(s, 1))
    && Register(t, PC) == Register(s, LR)
    && Kept(s, t, Deepest(s), Register(s, SP) + 4)
  }

  /** The frames have room in the memory, off the code. */
  ghost predicate Fits(s: Core, base: nat)
    requires |s.storage| == 31
  {
    && Solvable(Register(s, 0), Register(s, 1)) && 0 <= Deepest(s)
    && (Register(s, SP) + 4 <= base || base + 40 <= Deepest(s))
  }

  /** The code is in place, and every frame has room. */
  ghost predicate Room(s: Core, base: nat) {
    && |s.storage| == 31 && Loaded(TextOf(s), base) && Fits(s, base)
    && Register(s, SP) + 4 <= |s.mem| < 0x1_0000_0000
  }

  lemma LeaveReturns(base: nat, s: Core, v: Core, u: Core, low: int)
    requires Framed(s, v) && Kept(v, u, low, Register(s, SP)) && low <= Register(s, SP) && Loaded(TextOf(u), base)
    ensures var t := Run(At(u, base + 32), 2);
            Kept(s, t, low, Register(s, SP) + 4) && Register(t, PC) == Register(s, LR) && Register(t, 2) == Register(u, 2)
    ensures Within(base, base + 40, At(u, base + 32), 2)
  {
    hide Slot, ReadWord, Run, Front, Left, Within, Wrap;
    LeftKeeps(s, v, u, low);
    LeaveRuns(base, u);
    Registers(Left(u), Register(s, LR), 2);
  }

  lemma EnteredFrame(s: Core, base: nat)
    requires Room(s, base)
    ensures Framed(s, Entered(s)) && Loaded(TextOf(Entered(s)), base)
  {
    hide Slot, ReadWord, WriteWord, Front;
    EnteredKeeps(s);
    EnteredText(s, base, 10);
  }

  lemma EqualReturns(base: nat, s: Core)
    requires Room(s, base) && Register(s, 0) == Register(s, 1)
    ensures Returned(s, Run(At(s, base), 7)) && Within(base, base + 40, At(s, base), 7)
  {
    hide ReadWord, Run, Front, IsGcd, Entered, Framed, At, Within;
    var a, v := Register(s, 0), Entered(s);
    var u := Put(v, 2, a);
    FrontOf(TextOf(s), base, 10, 3);
    EntryRuns(base, s);
    EnteredRegisters(s, 0);
    EnteredFrame(s, base);
    FrontOf(TextOf(v), base, 10, 5);
    EqualRuns(base, v);
    RunPlus(At(s, base), 3, 4);
    RunPlus(At(v, base + 12), 2, 2);
    WithinPlus(base, base + 40, At(s, base), 3, 4);
    WithinPlus(base, base + 40, At(v, base + 12), 2, 2);
    PutRegisters(v, 2, a, 2);
    GcdSame(a);
    LeaveReturns(base, s, v, u, Register(s, SP));
  }

  /** The core at the recursive call. */
  function Called(s: Core, back: word): (t: Core)
    requires |s.storage| == 31 && InMemory(s.mem, Register(s, SP))
    ensures |t.storage| == 31 && t.cpsr.e == s.cpsr.e && t.mem == Entered(s).mem
  {
    Put(Narrowed(Entered(s)), LR, back)
  }

  lemma CalledRegisters(s: Core, back: word)
    requires |s.storage| == 31 && InMemory(s.mem, Register(s, SP))
    ensures var a: int, b: int, w := Register(s, 0), Register(s, 1), Called(s, back);
            && Register(w, 0) == (if a > b then a - b else a) && Register(w, 1) == (if a > b then b else b - a)
            && Register(w, LR) == back && Register(w, SP) == Wrap(Register(s, SP) - 4)
            && w.cpsr == SubFlags(s.cpsr, a, b)
  {
    hide Slot, WriteWord, Entered, Register;
    EnteredFlags(s);
    EnteredRegisters(s, 0);
    EnteredRegisters(s, 1);
    EnteredRegisters(s, SP);
    var v := Entered(s);
    var a: int, b: int := Register(v, 0), Register(v, 1);
    var r, x := if a > b then 0 else 1, if a > b then a - b else b - a;
    PutRegisters(v, r, x, 0);
    PutRegisters(v, r, x, 1);
    PutRegisters(v, r, x, SP);
    PutRegisters(Narrowed(v), LR, back, 0);
    PutRegisters(Narrowed(v), LR, back, 1);
    PutRegisters(Narrowed(v), LR, back, SP);
    PutRegisters(Narrowed(v), LR, back, LR);
  }

  lemma CalledFrame(s: Core, back: word)
    requires |s.storage| == 31 && Register(s, SP) + 4 <= |s.mem| < 0x1_0000_0000
    ensures Framed(s, Called(s, back))
  {
    hide ReadWord, WriteWord;
    Slots(s.cpsr.mode);
    EnteredKeeps(s);
    CalledRegisters(s, back);
    hide Slot;
  }

  /** The recursive call finds smaller arguments, and room for one frame less. */
  lemma CallIsSmaller(s: Core, base: nat, back: word)
    requires Room(s, base) && Register(s, 0) != Register(s, 1)
    ensures var a, b, w := Register(s, 0), Register(s, 1), Called(s, back);
            && Room(w, base) && Frames(Register(w, 0), Register(w, 1)) == Frames(a, b) - 1 && Deepest(w) == Deepest(s)
            && Register(w, 0) + Register(w, 1) < a + b
            && forall g :: IsGcd(g, Register(w, 0), Register(w, 1)) ==> IsGcd(g, a, b)
  {
    hide Slot, ReadWord, IsGcd, Called, Register, Front, Entered;
    var a, b := Register(s, 0), Register(s, 1);
    CalledRegisters(s, back);
    EnteredText(s, base, 10);
    InRange(Register(s, SP) - 4);
    GcdNarrows(a, b);
  }

  lemma GcdNarrows(a: nat, b: nat)
    ensures a > b ==> forall g :: IsGcd(g, a - b, b) ==> IsGcd(g, a, b)
    ensures a < b ==> forall g :: IsGcd(g, a, b - a) ==> IsGcd(g, a, b)
  {
    hide IsGcd;
    forall g: nat
      ensures a > b ==> IsGcd(g, a - b, b) ==> IsGcd(g, a, b)
      ensures a < b ==> IsGcd(g, a, b - a) ==> IsGcd(g, a, b)
    {
      if a > b {
        GcdStep(g, a, b);
      } else if a < b {
        GcdSwap(g, a, b - a);
        GcdStep(g, b, a);
        GcdSwap(g, a, b);
      }
    }
  }

  /** From unequal arguments pgcd calls itself, if no word is stored on the way to the call. */
  lemma CallRuns(base: nat, s: Core)
    requires |s.storage| == 31 && InMemory(s.mem, Register(s, SP)) && Front(TextOf(s), base, 8)
    requires Register(s, SP) + 4 <= base || base + 32 <= Register(s, SP)
    requires Register(s, 0) != Register(s, 1)
    ensures Run(At(s, base), 6) == At(Called(s, base + 32), base)
    ensures Within(base, base + 40, At(s, base), 6) && Front(TextOf(Called(s, base + 32)), base, 8)
  {
    hide Within, Front, Run, At;
    FrontOf(TextOf(s), base, 8, 3);
    EnteredText(s, base, 8);
    EntryRuns(base, s);
    EnteredRegisters(s, 0);
    EnteredRegisters(s, 1);
    ElseRuns(base, Entered(s));
    RunPlus(At(s, base), 3, 3);
    WithinPlus(base, base + 40, At(s, base), 3, 3);
  }

  /** The code is where it was when a call has returned. */
  lemma ReturnedText(base: nat, w: Core, u: Core)
    requires Room(w, base) && Returned(w, u)
    ensures Loaded(TextOf(u), base)
  {
    hide Front, Frames, IsGcd, Register;
    FrontKept(TextOf(w), TextOf(u), base, 10);
  }

  /** A recursive call that returned lets its caller return. */
  lemma CallReturns(base: nat, s: Core, u: Core)
    requires Room(s, base) && Register(s, 0) != Register(s, 1)
    requires Returned(Called(s, base + 32), u)
    ensures u == At(u, base + 32) && Returned(s, Run(At(u, base + 32), 2))
    ensures Within(base, base + 40, At(u, base + 32), 2)
  {
    hide Slot, ReadWord, Run, Front, IsGcd, Called, Frames, Register, Within;
    var back := base + 32;
    CallIsSmaller(s, base, back);
    CalledRegisters(s, back);
    CalledFrame(s, back);
    AtIsHere(u);
    ReturnedText(base, Called(s, back), u);
    InRange(Register(s, SP) - 4);
    LeaveReturns(base, s, Called(s, back), u, Deepest(s));
  }

  /** The call returns eight instructions after the recursive one. */
  lemma CallContinues(base: nat, back: word, s: Core, n: nat)
    requires back == base + 32 && Room(s, base) && Register(s, 0) != Register(s, 1)
    requires Returned(Called(s, back), Run(At(Called(s, back), base), n))
    requires Within(base, base + 40, At(Called(s, back), base), n)
    ensures Returned(s, Run(At(s, base), n + 8)) && Within(base, base + 40, At(s, base), n + 8)
  {
    hide Slot, Run, Called, Frames, Register, At, Returned, Front, Kept, Within;
    var w := Called(s, back);
    var u := Run(At(w, base), n);
    FrontOf(TextOf(s), base, 10, 8);
    CallRuns(base, s);
    CallReturns(base, s, u);
    RunPlus(At(s, base), 6, n + 2);
    RunPlus(At(w, base), n, 2);
    WithinPlus(base, base + 40, At(s, base), 6, n + 2);
    WithinPlus(base, base + 40, At(w, base), n, 2);
  }

  /** How many instructions the call executes. */
  function Steps(s: Core): nat
    requires |s.storage| == 31 && Solvable(Register(s, 0), Register(s, 1))
  {
    8 * Frames(Register(s, 0), Register(s, 1)) - 1
  }

  /**
   For all arguments that are equal or both not zero, with room for the frames off the code,
   pgcd comes back with their greatest common divisor in r2 and the stack pointer, the link
   register and all memory but its frames restored. It uses Frames(a, b) frames, at most the
   larger argument.
   */
  lemma {:induction false} PgcdRuns(base: nat, s: Core)
    requires Room(s, base)
    ensures Returned(s, Run(At(s, base), Steps(s))) && Within(base, base + 40, At(s, base), Steps(s))
    decreases Register(s, 0) + Register(s, 1)
  {
    hide Slot, Run, Called, At, Returned, IsGcd, Front, Register, Put, Within, Deepest;
    if Register(s, 0) == Register(s, 1) {
      EqualReturns(base, s);
    } else {
      var back := base + 32;
      CallIsSmaller(s, base, back);
      PgcdRuns(base, Called(s, back));
      CallContinues(base, back, s, Steps(Called(s, back)));
    }
  }

  // ----- the calls from which it does not return

  /** The arguments k calls further down. */
  function Down(a: nat, b: nat, k: nat): (p: (nat, nat))
    decreases k
  {
    if k == 0 then (a, b)
    else
      var (x, y) := Down(a, b, k - 1);
      if x > y then (x - y, y) else (x, y - x)
  }

  /** There are more than k calls. */
  ghost predicate Deep(a: nat, b: nat, k: nat) {
    forall j :: 0 <= j < k ==> Down(a, b, j).0 != Down(a, b, j).1
  }

  /** The arguments further down need that many frames less. */
  lemma {:induction false} DownFrames(a: nat, b: nat, k: nat)
    requires Solvable(a, b) && k < Frames(a, b)
    ensures var (x, y) := Down(a, b, k); Solvable(x, y) && Frames(x, y) == Frames(a, b) - k
    decreases k
  {
    if k > 0 {
      DownFrames(a, b, k - 1);
    }
  }

  lemma {:induction false} DownStuck(a: nat, b: nat, k: nat)
    requires !Solvable(a, b)
    ensures Down(a, b, k) == (a, b)
    decreases k
  {
    if k > 0 {
      DownStuck(a, b, k - 1);
    }
  }

  /** There are as many calls as frames, or no end of them. */
  lemma DeepIff(a: nat, b: nat, k: nat)
    ensures Deep(a, b, k) <==> (Solvable(a, b) ==> k < Frames(a, b))
  {
    hide Frames, Down;
    forall j | 0 <= j < k && (Solvable(a, b) ==> k < Frames(a, b))
      ensures Down(a, b, j).0 != Down(a, b, j).1
    {
      if Solvable(a, b) {
        DownEqual(a, b, j);
      } else {
        DownStuck(a, b, j);
      }
    }
    if Solvable(a, b) && Frames(a, b) <= k {
      DownEqual(a, b, Frames(a, b) - 1);
    }
  }

  lemma DownEqual(a: nat, b: nat, k: nat)
    requires Solvable(a, b) && k < Frames(a, b)
    ensures Down(a, b, k).0 == Down(a, b, k).1 <==> k == Frames(a, b) - 1
  {
    hide Frames, Down;
    DownFrames(a, b, k);
    FramesOne(Down(a, b, k).0, Down(a, b, k).1);
  }

  lemma FramesOne(a: nat, b: nat)
    requires Solvable(a, b)
    ensures Frames(a, b) == 1 <==> a == b
  {
  }

  /**
   After k rounds u is at the entry, with the arguments k calls further down and k return
   addresses on the stack; the first n instructions are as they were.
   */
  ghost predicate Descended(base: nat, n: nat, s: Core, k: nat, u: Core)
    requires n <= |PGCD|
  {
    && |s.storage| == |u.storage| == 31 && |u.mem| == |s.mem| && u.cpsr.e == s.cpsr.e
    && Register(u, PC) == base && (Register(u, 0), Register(u, 1)) == Down(Register(s, 0), Register(s, 1), k)
    && Register(u, SP) == Wrap(Register(s, SP) - 4 * k) && (k > 0 ==> Register(u, LR) == base + 32)
    && Front(TextOf(u), base, n)
    && (forall j :: 1 <= j < k && 4 * j <= Register(s, SP) ==>
          InMemory(u.mem, Register(s, SP) - 4 * j) && ReadWord(u.mem, u.cpsr.e, Register(s, SP) - 4 * j) == base + 32)
  }

  lemma DescendedNot(base: nat, n: nat, s: Core)
    requires |s.storage| == 31 && 8 <= n <= |PGCD| && Front(TextOf(s), base, n)
    ensures Descended(base, n, s, 0, At(s, base))
  {
    hide Front;
    InRange(Register(s, SP));
    Registers(s, base, 0);
    Registers(s, base, 1);
    Registers(s, base, SP);
  }

  /** One round more. */
  lemma DescendedNext(base: nat, n: nat, back: word, s: Core, k: nat, u: Core)
    requires 8 <= n <= |PGCD| && Descended(base, n, s, k, u) && back == base + 32 && InMemory(s.mem, Register(s, SP)) && |s.mem| < 0x1_0000_0000
    requires 4 * k <= Register(s, SP) && Down(Register(s, 0), Register(s, 1), k).0 != Down(Register(s, 0), Register(s, 1), k).1
    requires Front(TextOf(Called(u, back)), base, n)
    ensures Descended(base, n, s, k + 1, At(Called(u, back), base))
  {
    hide Front, ReadWord, WriteWord, Slot, Register, Called, Down;
    assert (Register(u, 0), Register(u, 1)) == Down(Register(s, 0), Register(s, 1), k);
    var sp, low, w := Register(s, SP), Register(s, SP) - 4 * k, Called(u, back);
    InRange(low);
    CalledRegisters(u, back);
    DownNext(Register(s, 0), Register(s, 1), k);
    EnteredKeeps(u);
    Registers(w, base, 0);
    Registers(w, base, 1);
    Registers(w, base, SP);
    Registers(w, base, LR);
    assert Wrap(low - 4) == Wrap(sp - 4 * (k + 1));
    forall j | 1 <= j < k + 1 && 4 * j <= sp
      ensures ReadWord(w.mem, w.cpsr.e, sp - 4 * j) == back
    {
      if j < k {
        ReadSame(u.mem, w.mem, u.cpsr.e, sp - 4 * j);
      }
    }
  }

  lemma DownNext(a: nat, b: nat, k: nat)
    ensures var (x, y) := Down(a, b, k); Down(a, b, k + 1) == if x > y then (x - y, y) else (x, y - x)
  {
  }

  /** That many calls are made, as long as none of them stores on the instructions up to the call. */
  lemma {:induction false} Descends(base: nat, n: nat, s: Core, k: nat)
    requires |s.storage| == 31 && InMemory(s.mem, Register(s, SP)) && |s.mem| < 0x1_0000_0000
    requires 8 <= n <= |PGCD| && Front(TextOf(s), base, n) && Deep(Register(s, 0), Register(s, 1), k)
    requires k > 0 ==> 4 * (k - 1) <= Register(s, SP)
    requires k > 0 ==> Register(s, SP) + 4 <= base || base + 4 * n <= Register(s, SP) - 4 * (k - 1)
    ensures Descended(base, n, s, k, Run(At(s, base), 6 * k)) && Within(base, base + 40, At(s, base), 6 * k)
    decreases k
  {
    hide Run, At, Front, Within, Register, Called, Down, Descended;
    if k == 0 {
      DescendedNot(base, n, s);
      RunNone(base, s);
    } else {
      var back, u := base + 32, Run(At(s, base), 6 * (k - 1));
      Descends(base, n, s, k - 1);
      DescendedIs(base, n, s, k - 1, u);
      FrontOf(TextOf(u), base, n, 8);
      CallRuns(base, u);
      CalledText(base, n, u, back);
      DescendedNext(base, n, back, s, k - 1, u);
      RunPlus(At(s, base), 6 * (k - 1), 6);
      WithinPlus(base, base + 40, At(s, base), 6 * (k - 1), 6);
    }
  }

  lemma CalledText(base: nat, n: nat, s: Core, back: word)
    requires |s.storage| == 31 && InMemory(s.mem, Register(s, SP)) && n <= |PGCD| && Front(TextOf(s), base, n)
    requires Register(s, SP) + 4 <= base || base + 4 * n <= Register(s, SP)
    ensures Front(TextOf(Called(s, back)), base, n)
  {
    hide Front, Entered;
    EnteredText(s, base, n);
  }

  lemma RunNone(base: nat, s: Core)
    requires |s.storage| == 31 && base < 0x1_0000_0000
    ensures Run(At(s, base), 0) == At(s, base) && Within(base, base + 40, At(s, base), 0)
  {
  }

  lemma DescendedIs(base: nat, n: nat, s: Core, k: nat, u: Core)
    requires 8 <= n <= |PGCD| && Descended(base, n, s, k, u) && 4 * k <= Register(s, SP) && InMemory(s.mem, Register(s, SP))
    ensures u == At(u, base) && |u.mem| == |s.mem| && Register(u, SP) == Register(s, SP) - 4 * k && Front(TextOf(u), base, n)
    ensures (Register(u, 0), Register(u, 1)) == Down(Register(s, 0), Register(s, 1), k)
  {
    hide Front, Down, ReadWord;
    AtIsHere(u);
    InRange(Register(s, SP) - 4 * k);
  }

  /** A stack below the code is used up in the end; the stack pointer wraps around, and the next store is outside the memory. */
  lemma DescentAborts(base: nat, s: Core)
    requires |s.storage| == 31 && InMemory(s.mem, Register(s, SP)) && |s.mem| < 0x1_0000_0000
    requires Front(TextOf(s), base, 8) && Register(s, SP) + 4 <= base
    requires Deep(Register(s, 0), Register(s, 1), Register(s, SP) / 4 + 1) && !(base <= ABORT_VECTOR < base + 40)
    ensures LeavesFor(base, base + 40, At(s, base), ABORT_VECTOR, 6 * (Register(s, SP) / 4 + 1) + 1)
  {
    hide Run, Front, Within, Register, At, Deep, Down;
    var sp: int := Register(s, SP);
    var k := sp / 4 + 1;
    Descends(base, 8, s, k);
    assert Wrap(sp - 4 * k) == 0x1_0000_0000 + sp - 4 * k;
    var u := Run(At(s, base), 6 * k);
    DescentFaults(base, u);
    RunPlus(At(s, base), 6 * k, 1);
    WithinPlus(base, base + 40, At(s, base), 6 * k, 1);
  }

  lemma DescentFaults(base: nat, u: Core)
    requires |u.storage| == 31 && Front(TextOf(u), base, 8) && Register(u, PC) == base && !InMemory(u.mem, Register(u, SP))
    ensures Register(Run(u, 1), PC) == ABORT_VECTOR && Within(base, base + 40, u, 1)
  {
    hide Front, Step, Has, At, Register;
    AtIsHere(u);
    Here(TextOf(u), base, 8, 0);
    FaultStep(u, base, PGCD[0]);
    ShortRuns(u);
    WithinAt(base, base + 40, u, base, 0);
  }

  /**
   A stack above the code runs down into it: when the word of the recursive call is overwritten
   with a return address, and so are the two behind it, none of the three is executed, and
   control runs off the end.
   */
  lemma DescentFallsOut(base: nat, s: Core, k: nat)
    requires |s.storage| == 31 && InMemory(s.mem, Register(s, SP)) && |s.mem| < 0x1_0000_0000
    requires Loaded(TextOf(s), base) && base + 32 < 0x1000_0000 && 3 <= k && Register(s, SP) == base + 28 + 4 * k
    requires Deep(Register(s, 0), Register(s, 1), k + 1)
    ensures LeavesFor(base, base + 40, At(s, base), base + 40, 6 * k + 8)
  {
    hide Run, Front, Within, Register, At, Down, Descended;
    FrontOf(TextOf(s), base, 10, 8);
    var u := Run(At(s, base), 6 * k);
    Descends(base, 8, s, k);
    DescendedIs(base, 8, s, k, u);
    DescendedWords(base, s, k, u);
    LastRound(base, u);
    RunPlus(At(s, base), 6 * k, 8);
    WithinPlus(base, base + 40, At(s, base), 6 * k, 8);
  }

  lemma DescendedWords(base: nat, s: Core, k: nat, u: Core)
    requires Descended(base, 8, s, k, u) && 3 <= k && Register(s, SP) == base + 28 + 4 * k
    ensures Register(u, LR) == base + 32 && InMemory(u.mem, base + 36)
    ensures ReadWord(u.mem, u.cpsr.e, base + 32) == ReadWord(u.mem, u.cpsr.e, base + 36) == base + 32
  {
    hide Front, Down, ReadWord;
    assert Register(s, SP) - 4 * (k - 1) == base + 32 && Register(s, SP) - 4 * (k - 2) == base + 36;
  }

  /** The round that overwrites the recursive call. */
  lemma LastRound(base: nat, u: Core)
    requires |u.storage| == 31 && base + 32 < 0x1000_0000 && u == At(u, base) && Front(TextOf(u), base, 8)
    requires Register(u, SP) == base + 28 && Register(u, LR) == base + 32 && InMemory(u.mem, base + 36)
    requires ReadWord(u.mem, u.cpsr.e, base + 32) == ReadWord(u.mem, u.cpsr.e, base + 36) == base + 32
    requires Register(u, 0) != Register(u, 1)
    ensures Register(Run(u, 8), PC) == base + 40 && Within(base, base + 40, u, 8)
  {
    hide Run, Front, Within, Register, At, Entered, ReadWord, Step, Narrowed, SubFlags;
    var v := Entered(u);
    FrontOf(TextOf(u), base, 8, 3);
    FrontOf(TextOf(u), base, 8, 7);
    EntryRuns(base, u);
    EnteredText(u, base, 7);
    EnteredRegisters(u, 0);
    EnteredRegisters(u, 1);
    EnteredFlags(u);
    SubtractionsRun(base, v);
    OverwrittenWords(base, u);
    WordsSkipped(base, Narrowed(v));
    RunPlus(u, 3, 5);
    RunPlus(At(v, base + 20), 2, 3);
    WithinPlus(base, base + 40, u, 3, 5);
    WithinPlus(base, base + 40, At(v, base + 20), 2, 3);
  }

  lemma EnteredFlags(s: Core)
    requires |s.storage| == 31 && InMemory(s.mem, Register(s, SP))
    ensures Entered(s).cpsr == SubFlags(s.cpsr, Register(s, 0), Register(s, 1))
    ensures Register(s, 0) != Register(s, 1) ==> !Entered(s).cpsr.z
  {
    hide Register, WriteWord;
    CompareMeans(s.cpsr, Register(s, 0), Register(s, 1));
  }

  lemma OverwrittenWords(base: nat, u: Core)
    requires |u.storage| == 31 && Register(u, SP) == base + 28 && Register(u, LR) == base + 32 && InMemory(u.mem, base + 36)
    requires ReadWord(u.mem, u.cpsr.e, base + 32) == ReadWord(u.mem, u.cpsr.e, base + 36) == base + 32
    ensures var v := Entered(u);
            && |v.mem| == |u.mem| && v.cpsr.e == u.cpsr.e && ReadWord(v.mem, v.cpsr.e, base + 28) == base + 32
            && ReadWord(v.mem, v.cpsr.e, base + 32) == ReadWord(v.mem, v.cpsr.e, base + 36) == base + 32
  {
    hide ReadWord, WriteWord, Register;
    EnteredKeeps(u);
    ReadSame(u.mem, Entered(u).mem, u.cpsr.e, base + 32);
    ReadSame(u.mem, Entered(u).mem, u.cpsr.e, base + 36);
  }

  lemma WordsSkipped(base: nat, s: Core)
    requires |s.storage| == 31 && base % 4 == 0 && base + 32 < 0x1000_0000 && InMemory(s.mem, base + 36) && !s.cpsr.z
    requires ReadWord(s.mem, s.cpsr.e, base + 28) == base + 32
    requires ReadWord(s.mem, s.cpsr.e, base + 32) == ReadWord(s.mem, s.cpsr.e, base + 36) == base + 32
    ensures Register(Run(At(s, base + 28), 3), PC) == base + 40 && Within(base, base + 40, At(s, base + 28), 3)
  {
    hide Step, At, ReadWord, Register, Run, Within;
    SkipStep(s, base + 28);
    SkipStep(s, base + 32);
    SkipStep(s, base + 36);
    ShortRuns(At(s, base + 28));
    WithinThree(base, s, base + 28, s, s);
    Registers(s, base + 40, 0);
  }

  /** w is an and without flags, to a register other than the program counter. */
  predicate IsAnd(w: nat) {
    w < 0x10_0000 && w / 0x1000 % 16 < PC && w / 0x10 % 2 == 0
  }

  lemma AndDecoded(w: nat)
    requires IsAnd(w)
    ensures Decode(w).And? && Decode(w).cond == EQ
  {
    var upper := w / 0x1000;
    assert upper / 16 / 16 / 2 == 0 && upper / 16 / 16 == 0;
    assert w % 0x1000 / 0x10 % 2 == 0;
  }

  /** The word at pc executes as an and. */
  lemma AndRuns(s: Core, pc: word, w: word)
    requires |s.storage| == 31 && s.cpsr.z && IsAnd(w)
    requires pc % 4 == 0 && pc + 8 < 0x1_0000_0000 && InMemory(s.mem, pc) && ReadWord(s.mem, s.cpsr.e, pc) == w
    ensures exists t: Core :: |t.storage| == 31 && t.mem == s.mem && t.cpsr == s.cpsr && Step(At(s, pc)) == At(t, pc + 4)
  {
    hide Step, ReadWord, Decode, AndValue, At, Put, IsAnd;
    AndDecoded(w);
    AndStep(s, pc, Decode(w));
  }

  /**
   A call of equal arguments whose frame is instruction 7 + d: the frames have overwritten that
   one and those behind it with an and, and control runs off the end.
   */
  lemma EqualFallsOut(base: nat, s: Core, k: nat, d: nat)
    requires |s.storage| == 31 && InMemory(s.mem, Register(s, SP)) && |s.mem| < 0x1_0000_0000 && Loaded(TextOf(s), base)
    requires IsAnd(base + 32) && d < 3 && base + 40 <= Register(s, SP) == base + 28 + 4 * (k + d)
    requires Deep(Register(s, 0), Register(s, 1), k)
    requires Down(Register(s, 0), Register(s, 1), k).0 == Down(Register(s, 0), Register(s, 1), k).1
    ensures LeavesFor(base, base + 40, At(s, base), base + 40, 6 * k + 7)
  {
    hide Run, Front, Within, Register, At, Down, Deep, Descended, IsAnd;
    var n := 8 + d;
    var u := Run(At(s, base), 6 * k);
    FrontOf(TextOf(s), base, 10, n);
    Descends(base, n, s, k);
    DescendedIs(base, n, s, k, u);
    EqualWords(base, s, k, d, u);
    LastEqual(base, u, d);
    RunPlus(At(s, base), 6 * k, 7);
    WithinPlus(base, base + 40, At(s, base), 6 * k, 7);
  }

  lemma EqualWords(base: nat, s: Core, k: nat, d: nat, u: Core)
    requires d < 3 && Descended(base, 8 + d, s, k, u) && base + 40 <= Register(s, SP) == base + 28 + 4 * (k + d)
    requires InMemory(s.mem, Register(s, SP))
    ensures Register(u, LR) == base + 32 && InMemory(u.mem, base + 36)
    ensures d < 1 ==> ReadWord(u.mem, u.cpsr.e, base + 32) == base + 32
    ensures d < 2 ==> ReadWord(u.mem, u.cpsr.e, base + 36) == base + 32
  {
    hide Front, Down, ReadWord;
    if d < 2 {
      assert Register(s, SP) - 4 * (k + d - 2) == base + 36;
    }
    if d < 1 {
      assert Register(s, SP) - 4 * (k - 1) == base + 32;
    }
  }

  /** The round of equal arguments that stores on instruction 7 + d. */
  lemma LastEqual(base: nat, u: Core, d: nat)
    requires d < 3 && |u.storage| == 31 && IsAnd(base + 32) && u == At(u, base) && Front(TextOf(u), base, 8 + d)
    requires Register(u, SP) == base + 28 + 4 * d && Register(u, LR) == base + 32 && InMemory(u.mem, base + 36)
    requires |u.mem| < 0x1_0000_0000 && Register(u, 0) == Register(u, 1)
    requires d < 1 ==> ReadWord(u.mem, u.cpsr.e, base + 32) == base + 32
    requires d < 2 ==> ReadWord(u.mem, u.cpsr.e, base + 36) == base + 32
    ensures Register(Run(u, 7), PC) == base + 40 && Within(base, base + 40, u, 7)
  {
    hide Run, Front, Within, Register, At, Entered, ReadWord, Step, SubFlags, Put, IsAnd;
    var v := Entered(u);
    var x := Put(v, 2, Register(v, 0));
    FrontOf(TextOf(u), base, 8 + d, 3);
    EntryRuns(base, u);
    FrontOf(TextOf(u), base, 8 + d, 7 + d);
    EnteredText(u, base, 7 + d);
    FrontOf(TextOf(v), base, 7 + d, 5);
    EqualRuns(base, v);
    EqualTail(base, u, d, v, x);
    RunPlus(u, 3, 4);
    RunPlus(At(v, base + 12), 2, 2);
    WithinPlus(base, base + 40, u, 3, 4);
    WithinPlus(base, base + 40, At(v, base + 12), 2, 2);
  }

  /** Its last two instructions: the load of the epilogue, if it is left, and the word that was stored. */
  lemma EqualTail(base: nat, u: Core, d: nat, v: Core, x: Core)
    requires d < 3 && |u.storage| == 31 && IsAnd(base + 32) && |u.mem| < 0x1_0000_0000 && InMemory(u.mem, base + 36)
    requires Register(u, SP) == base + 28 + 4 * d && Register(u, LR) == base + 32 && Register(u, 0) == Register(u, 1)
    requires d < 1 ==> ReadWord(u.mem, u.cpsr.e, base + 32) == base + 32
    requires d < 2 ==> ReadWord(u.mem, u.cpsr.e, base + 36) == base + 32
    requires v == Entered(u) && x == Put(v, 2, Register(v, 0)) && Front(TextOf(v), base, 7 + d)
    ensures Register(Run(At(x, base + 32), 2), PC) == base + 40 && Within(base, base + 40, At(x, base + 32), 2)
  {
    hide Run, Front, Within, Register, At, Entered, ReadWord, Step, SubFlags, Put, IsAnd, Left;
    EqualTailWords(base, u, d, v);
    if d == 2 {
      TailStack(base, u, v, x);
      LeaveStep(base, x);
      AndLast(base, x, Left(x));
    } else {
      AndTwice(base, x);
    }
  }

  lemma AndTwice(base: nat, x: Core)
    requires |x.storage| == 31 && base % 4 == 0 && IsAnd(base + 32) && x.cpsr.z && InMemory(x.mem, base + 36)
    requires ReadWord(x.mem, x.cpsr.e, base + 32) == ReadWord(x.mem, x.cpsr.e, base + 36) == base + 32
    ensures Register(Run(At(x, base + 32), 2), PC) == base + 40 && Within(base, base + 40, At(x, base + 32), 2)
  {
    hide Run, Within, Register, At, ReadWord, Step;
    AndRuns(x, base + 32, base + 32);
    var y: Core :| |y.storage| == 31 && y.mem == x.mem && y.cpsr == x.cpsr && Step(At(x, base + 32)) == At(y, base + 36);
    AndLast(base, x, y);
  }

  lemma AndLast(base: nat, x: Core, y: Core)
    requires |x.storage| == |y.storage| == 31 && base % 4 == 0 && IsAnd(base + 32) && y.cpsr.z && InMemory(y.mem, base + 36)
    requires ReadWord(y.mem, y.cpsr.e, base + 36) == base + 32 && Step(At(x, base + 32)) == At(y, base + 36)
    ensures Register(Run(At(x, base + 32), 2), PC) == base + 40 && Within(base, base + 40, At(x, base + 32), 2)
  {
    hide Run, Within, Register, At, ReadWord, Step;
    AndRuns(y, base + 36, base + 32);
    var z: Core :| |z.storage| == 31 && Step(At(y, base + 36)) == At(z, base + 40);
    ShortRuns(At(x, base + 32));
    WithinTwo(base, x, base + 32, y);
    Registers(z, base + 40, 0);
  }

  lemma TailStack(base: nat, u: Core, v: Core, x: Core)
    requires |u.storage| == 31 && Register(u, SP) == base + 36 && InMemory(u.mem, base + 36) && |u.mem| < 0x1_0000_0000
    requires v == Entered(u) && x == Put(v, 2, Register(v, 0))
    ensures InMemory(x.mem, Wrap(Register(x, SP) + 4))
  {
    hide WriteWord, Register, Put;
    InRange(base + 32);
    InRange(base + 36);
    EnteredRegisters(u, SP);
    PutRegisters(v, 2, Register(v, 0), SP);
  }

  lemma EqualTailWords(base: nat, u: Core, d: nat, v: Core)
    requires d < 3 && |u.storage| == 31 && InMemory(u.mem, base + 36)
    requires Register(u, SP) == base + 28 + 4 * d && Register(u, LR) == base + 32 && Register(u, 0) == Register(u, 1)
    requires d < 1 ==> ReadWord(u.mem, u.cpsr.e, base + 32) == base + 32
    requires d < 2 ==> ReadWord(u.mem, u.cpsr.e, base + 36) == base + 32
    requires v == Entered(u)
    ensures |v.mem| == |u.mem| && v.cpsr.e == u.cpsr.e && v.cpsr.z
    ensures d < 2 ==> ReadWord(v.mem, v.cpsr.e, base + 32) == base + 32
    ensures ReadWord(v.mem, v.cpsr.e, base + 36) == base + 32
  {
    hide ReadWord, WriteWord, Register;
    EnteredKeeps(u);
    CompareMeans(u.cpsr, Register(u, 0), Register(u, 1));
    if d < 1 {
      ReadSame(u.mem, v.mem, u.cpsr.e, base + 32);
    }
    if d < 2 {
      ReadSame(u.mem, v.mem, u.cpsr.e, base + 36);
    }
  }

  /** n instructions after its entry pgcd is left for the caller's return address. */
  ghost predicate GetsBack(base: nat, s: Core, n: nat)
    requires |s.storage| == 31 && base < 0x1_0000_0000
  {
    LeavesFor(base, base + 40, At(s, base), Register(s, LR), n)
  }

  ghost predicate Returns(base: nat, s: Core)
    requires |s.storage| == 31 && base < 0x1_0000_0000
  {
    exists n: nat :: GetsBack(base, s, n)
  }

  lemma LeftOtherwise(base: nat, s: Core, to: int, k: nat)
    requires |s.storage| == 31 && base < 0x1_0000_0000 && LeavesFor(base, base + 40, At(s, base), to, k) && to != Register(s, LR)
    ensures !Returns(base, s)
  {
    hide LeavesFor, At, Register;
    forall n: nat
      ensures !GetsBack(base, s, n)
    {
      if GetsBack(base, s, n) {
        LeavesOnce(base, base + 40, At(s, base), Register(s, LR), n, to, k);
      }
    }
  }

  /**
   The stack is below the code; or it is above, in words of the same alignment, the code is
   below 2^28, and the lowest frame is not one of the last three instructions, or leaves an
   and there.
   */
  ghost predicate Apart(s: Core, base: nat)
    requires |s.storage| == 31
  {
    var sp := Register(s, SP);
    || sp + 4 <= base
    || (base + 40 <= sp && (sp - base) % 4 == 0 && base + 32 < 0x1000_0000 && Register(s, LR) != base + 40
        && (Solvable(Register(s, 0), Register(s, 1)) && base + 28 <= Deepest(s) < base + 40 ==> IsAnd(base + 32)))
  }

  /**
   pgcd gets back to its caller if and only if its arguments are equal or both not zero and
   its frames have room off the code. Otherwise it uses up a stack below the code and faults,
   or it overwrites itself from above and runs off its end.
   */
  lemma PgcdReturnsIff(base: nat, s: Core)
    requires |s.storage| == 31 && Loaded(TextOf(s), base) && Register(s, SP) + 4 <= |s.mem| < 0x1_0000_0000 && Apart(s, base)
    requires !(base <= ABORT_VECTOR < base + 40) && !(base <= Register(s, LR) < base + 40) && Register(s, LR) != ABORT_VECTOR
    ensures Returns(base, s) <==> Fits(s, base)
  {
    hide Run, Front, Within, At, Register, Frames, Deep;
    var a, b, sp := Register(s, 0), Register(s, 1), Register(s, SP);
    if Fits(s, base) {
      PgcdRuns(base, s);
      assert GetsBack(base, s, Steps(s));
    } else if sp + 4 <= base {
      DeepIff(a, b, sp / 4 + 1);
      FrontOf(TextOf(s), base, 10, 8);
      DescentAborts(base, s);
      LeftOtherwise(base, s, ABORT_VECTOR, 6 * (sp / 4 + 1) + 1);
    } else if Solvable(a, b) && base + 28 <= Deepest(s) {
      var k := Frames(a, b) - 1;
      var d := (Deepest(s) - base - 28) / 4;
      DeepIff(a, b, k);
      DownEqual(a, b, k);
      EqualFallsOut(base, s, k, d);
      LeftOtherwise(base, s, base + 40, 6 * k + 7);
    } else {
      var k := (sp - base - 28) / 4;
      DeepIff(a, b, k + 1);
      DescentFallsOut(base, s, k);
      LeftOtherwise(base, s, base + 40, 6 * k + 8);
    }
  }

  // ----- main

  const MAIN: seq<Instr> := [
    LiteralInstr(0, 72),    //  0 main
    LoadInstr(0, 0),        //  4
    LiteralInstr(1, 68),    //  8
    LoadInstr(1, 1),        // 12
    PushInstr([0, 1]),      // 16
    Branch(AL, true, 3),    // 20
    PopInstr([0, 1]),       // 24
    LiteralInstr(3, 52),    // 28
    StoreInstr(2, 3)        // 32
  ]                         // 36 swi
                            // 40 pgcd: and, at 80, the addresses of A, B and res

  const MAIN_WORDS: seq<word> := [
    0xE59F0048, 0xE5900000, 0xE59F1044, 0xE5911000, 0xE82D0003, 0xEB000003, 0xE9BD0003, 0xE59F3034, 0xE5832000
  ]

  lemma MainAssembles()
    ensures Assembled(MAIN, MAIN_WORDS)
  {
    hide Assemble;
    TransferWord(MAIN[0], MAIN_WORDS[0]);
    TransferWord(MAIN[1], MAIN_WORDS[1]);
    TransferWord(MAIN[2], MAIN_WORDS[2]);
    TransferWord(MAIN[3], MAIN_WORDS[3]);
    BlockWord(MAIN[4], MAIN_WORDS[4]);
    BranchWord(AL, true, 3, MAIN_WORDS[5]);
    BlockWord(MAIN[6], MAIN_WORDS[6]);
    TransferWord(MAIN[7], MAIN_WORDS[7]);
    TransferWord(MAIN[8], MAIN_WORDS[8]);
  }

  lemma MainLoads(text: Text, base: nat)
    requires InPlace(text, base, MAIN_WORDS) && InPlace(text, base + 40, PGCD_WORDS) && base + 92 < 0x1_0000_0000
    ensures Linked(text, base)
  {
    hide InPlace, LoadedAt, Loaded, Assembled;
    MainAssembles();
    WordsLoad(text, base, MAIN_WORDS, MAIN);
    PgcdLoads(text, base + 40);
  }

  ghost predicate Linked(text: Text, base: nat)
    ensures Linked(text, base) ==> base + 92 < 0x1_0000_0000 && base + 80 <= |text.mem|
  {
    Loaded(text, base + 40) && LoadedAt(text, base, MAIN) && base + 92 < 0x1_0000_0000
  }

  lemma MainHere(text: Text, base: nat, k: nat)
    requires Linked(text, base) && k < |MAIN|
    ensures Has(text, base + 4 * k, MAIN[k])
  {
    hide Has, LoadedAt, Front;
    Placed(text, base, MAIN, k);
  }

  lemma LinkedKept(text: Text, other: Text, base: nat)
    requires Linked(text, base) && other.e == text.e && |other.mem| == |text.mem|
    requires forall x :: base <= x < base + 80 ==> other.mem[x] == text.mem[x]
    ensures Linked(other, base)
  {
    hide LoadedAt;
    LoadedKept(text, other, base, MAIN);
    FrontKept(text, other, base + 40, 10);
  }

  /** The word that the literal at offset k points to. */
  function Pointed(s: Core, base: nat, k: nat): nat
    requires InMemory(s.mem, base + k)
  {
    ReadWord(s.mem, s.cpsr.e, base + k)
  }

  /** The addresses behind the code, and the words of A, B and res that they point to. */
  ghost predicate Prepared(s: Core, base: nat) {
    && |s.storage| == 31 && base + 92 <= |s.mem| < 0x1_0000_0000
    && InMemory(s.mem, Pointed(s, base, 80)) && InMemory(s.mem, Pointed(s, base, 84)) && InMemory(s.mem, Pointed(s, base, 88))
  }

  function A(s: Core, base: nat): word
    requires InMemory(s.mem, base + 80) && InMemory(s.mem, Pointed(s, base, 80))
  {
    ReadWord(s.mem, s.cpsr.e, Pointed(s, base, 80))
  }

  function B(s: Core, base: nat): word
    requires InMemory(s.mem, base + 84) && InMemory(s.mem, Pointed(s, base, 84))
  {
    ReadWord(s.mem, s.cpsr.e, Pointed(s, base, 84))
  }

  /** r0 and r1 hold the arguments. */
  ghost function Arguments(s: Core, base: nat): (t: Core)
    requires Prepared(s, base)
    ensures |t.storage| == 31
  {
    Put(Put(s, 0, A(s, base)), 1, B(s, base))
  }

  lemma LoadsRun(base: nat, s: Core)
    requires Linked(TextOf(s), base) && Prepared(s, base)
    ensures Run(At(s, base), 4) == At(Arguments(s, base), base + 16)
  {
    hide Step, Run, Wrap, At, Has, Register, ReadWord, Linked;
    var pa, pb, a, b := Pointed(s, base, 80), Pointed(s, base, 84), A(s, base), B(s, base);
    MainHere(TextOf(s), base, 0);
    MainHere(TextOf(s), base, 1);
    MainHere(TextOf(s), base, 2);
    MainHere(TextOf(s), base, 3);
    LiteralStep(s, base, 0, 72);
    PutRegisters(s, 0, pa, 0);
    PutTwice(s, 0, pa, a);
    LoadStep(Put(s, 0, pa), base + 4, 0, 0);
    var s1 := Put(s, 0, a);
    LiteralStep(s1, base + 8, 1, 68);
    PutRegisters(s1, 1, pb, 1);
    PutTwice(s1, 1, pb, b);
    LoadStep(Put(s1, 1, pb), base + 12, 1, 1);
    ShortRuns(At(s, base));
  }

  /** The arguments can be computed with: the stack has room for the push and the frames, off the code and its addresses. */
  ghost predicate Computable(s: Core, base: nat) {
    && Prepared(s, base) && Solvable(A(s, base), B(s, base))
    && var sp, need := Register(s, SP), 4 + 4 * Frames(A(s, base), B(s, base));
       need <= sp && sp + 4 <= |s.mem| && (sp + 4 <= base || base + 92 <= sp - need)
  }

  /** The core at the call of pgcd. */
  ghost function Calling(s: Core, back: word): (t: Core)
    requires CanPush(s, [0, 1])
    ensures |t.storage| == 31 && t.mem == Pushed(s, [0, 1]).mem && t.cpsr == Pushed(s, [0, 1]).cpsr
  {
    Put(Pushed(s, [0, 1]), LR, back)
  }

  lemma PushedLinked(s: Core, base: nat)
    requires Linked(TextOf(s), base) && CanPush(s, [0, 1]) && (Register(s, SP) + 4 <= base || base + 80 <= Register(s, SP) - 4)
    ensures |Pushed(s, [0, 1]).mem| == |s.mem| && Linked(TextOf(Pushed(s, [0, 1])), base)
  {
    hide Linked, Pushed;
    PushedKeeps(s, [0, 1]);
    LinkedKept(TextOf(s), TextOf(Pushed(s, [0, 1])), base);
  }

  lemma CallingRuns(base: nat, s: Core)
    requires Linked(TextOf(s), base) && CanPush(s, [0, 1]) && (Register(s, SP) + 4 <= base || base + 80 <= Register(s, SP) - 4)
    ensures Run(At(s, base + 16), 2) == At(Calling(s, base + 24), base + 40) && Linked(TextOf(Calling(s, base + 24)), base)
  {
    hide Step, Run, Wrap, At, Has, Register, Linked, Pushed, Put, Slot;
    PushedLinked(s, base);
    MainHere(TextOf(s), base, 4);
    MainHere(TextOf(Pushed(s, [0, 1])), base, 5);
    PushStep(s, base + 16, [0, 1]);
    BranchStep(Pushed(s, [0, 1]), base + 20, AL, true, 3);
    ShortRuns(At(s, base + 16));
  }

  lemma CallingRegisters(s: Core, back: word, q: nat)
    requires CanPush(s, [0, 1]) && q < PC
    ensures |Calling(s, back).mem| == |s.mem|
    ensures Register(Calling(s, back), q) ==
              if q == LR then back else if q == SP then Register(s, SP) - 8 else Register(s, q)
  {
    var sp := Register(s, SP);
    PushedKeeps(s, [0, 1]);
    SameStorage(Put(s, SP, sp - 8), Pushed(s, [0, 1]));
    PutRegisters(s, SP, sp - 8, q);
    PutRegisters(Pushed(s, [0, 1]), LR, back, q);
  }

  /** Back from pgcd: pop the arguments and store the result. */
  ghost function Stored(v: Core, pr: word): (t: Core)
    requires |v.storage| == 31 && Register(v, SP) + 12 <= |v.mem| < 0x1_0000_0000 && InMemory(v.mem, pr)
    ensures |t.storage| == 31
  {
    var u := Put(Popped(v, [0, 1]), 3, pr);
    u.(mem := WriteWord(v.mem, v.cpsr.e, pr, Register(v, 2)))
  }

  lemma PoppedTwo(s: Core, v: Core)
    requires HasPushed(s, [0, 1], v)
    ensures var t := Popped(v, [0, 1]);
            && t.mem == v.mem && t.cpsr == v.cpsr && t.spsr == v.spsr && Register(t, SP) == Register(s, SP)
            && Register(t, 0) == Register(s, 0) && Register(t, 1) == Register(s, 1) && Register(t, 2) == Register(v, 2)
            && (forall k :: 2 <= k < 31 && k != Slot(v.cpsr.mode, SP) ==> t.storage[k] == v.storage[k])
  {
    hide Slot, Popped, LoadMany, ReadWord, Pushed;
    PopRestores(s, [0, 1], v);
    PoppedRegister(s, [0, 1], v, 0);
    PoppedRegister(s, [0, 1], v, 1);
    Slots(v.cpsr.mode);
  }

  lemma StoringRuns(base: nat, s: Core, v: Core)
    requires Linked(TextOf(v), base) && HasPushed(s, [0, 1], v) && base + 92 <= |v.mem|
    requires InMemory(v.mem, Pointed(v, base, 88))
    ensures Run(At(v, base + 24), 3) == At(Stored(v, Pointed(v, base, 88)), base + 36)
  {
    hide Step, Run, Wrap, At, Has, Register, Linked, Popped, Put, Slot, ReadWord, WriteWord, Pushed;
    var pr, t := Pointed(v, base, 88), Popped(v, [0, 1]);
    PoppedTwo(s, v);
    PutRegisters(t, 3, pr, 3);
    PutRegisters(t, 3, pr, 2);
    MainHere(TextOf(v), base, 6);
    MainHere(TextOf(v), base, 7);
    MainHere(TextOf(v), base, 8);
    PopStep(v, base + 24, [0, 1]);
    LiteralStep(t, base + 28, 3, 52);
    StoreStep(Put(t, 3, pr), base + 32, 2, 3);
    ShortRuns(At(v, base + 24));
  }

  /** The bytes pgcd and the push may have written. */
  predicate OnStack(s: Core, f: nat, x: nat)
    requires |s.storage| == 31
  {
    Register(s, SP) - 4 - 4 * f <= x < Register(s, SP) + 4
  }

  lemma ArgumentsRegisters(s: Core, base: nat)
    requires Prepared(s, base)
    ensures var t := Arguments(s, base);
            && Register(t, 0) == A(s, base) && Register(t, 1) == B(s, base) && Register(t, SP) == Register(s, SP)
            && t.mem == s.mem && t.cpsr == s.cpsr && t.spsr == s.spsr
            && (forall k :: 2 <= k < 31 ==> t.storage[k] == s.storage[k])
  {
    var a, b := A(s, base), B(s, base);
    Slots(s.cpsr.mode);
    PutRegisters(s, 0, a, 0);
    PutRegisters(s, 0, a, SP);
    PutRegisters(Put(s, 0, a), 1, b, 0);
    PutRegisters(Put(s, 0, a), 1, b, 1);
    PutRegisters(Put(s, 0, a), 1, b, SP);
    hide Slot, ReadWord, Register;
  }

  /** What pgcd is called with. */
  lemma CallingWith(base: nat, s: Core)
    requires Linked(TextOf(s), base) && Prepared(s, base) && 8 <= Register(s, SP) && Register(s, SP) + 4 <= |s.mem|
    requires Register(s, SP) + 4 <= base || base + 80 <= Register(s, SP) - 4
    ensures CanPush(Arguments(s, base), [0, 1])
    ensures var w := Calling(Arguments(s, base), base + 24);
            && |w.storage| == 31 && |w.mem| == |s.mem| && Loaded(TextOf(w), base + 40)
            && Register(w, 0) == A(s, base) && Register(w, 1) == B(s, base)
            && Register(w, LR) == base + 24 && Register(w, SP) == Register(s, SP) - 8
            && Run(At(s, base), 6) == At(w, base + 40)
  {
    hide Step, Run, At, Arguments, Calling, Register, A, B, Front, Pushed;
    var s1 := Arguments(s, base);
    ArgumentsRegisters(s, base);
    CallingRegisters(s1, base + 24, 0);
    CallingRegisters(s1, base + 24, 1);
    CallingRegisters(s1, base + 24, SP);
    CallingRegisters(s1, base + 24, LR);
    LoadsRun(base, s);
    CallingRuns(base, s1);
    RunPlus(At(s, base), 4, 2);
  }

  /** pgcd can be called. */
  lemma CallingIsReady(s: Core, base: nat)
    requires Linked(TextOf(s), base) && Computable(s, base)
    ensures CanPush(Arguments(s, base), [0, 1])
    ensures var w := Calling(Arguments(s, base), base + 24);
            && Room(w, base + 40) && Register(w, 0) == A(s, base) && Register(w, 1) == B(s, base)
            && Register(w, LR) == base + 24 && Register(w, SP) == Register(s, SP) - 8
            && Run(At(s, base), 6) == At(w, base + 40)
  {
    hide Arguments, Calling, Register, A, B, Frames, Linked, Front, Run, At, Pointed;
    CallingWith(base, s);
  }

  lemma CallingKeeps(s: Core, back: word)
    requires CanPush(s, [0, 1])
    ensures var w := Calling(s, back);
            && HasPushed(s, [0, 1], w) && w.spsr == s.spsr && w.cpsr == s.cpsr
            && (forall k :: 0 <= k < 31 && k != Slot(s.cpsr.mode, SP) && k != Slot(s.cpsr.mode, LR) ==> w.storage[k] == s.storage[k])
            && (forall x :: 0 <= x < |s.mem| && !(Register(s, SP) - 4 <= x < Register(s, SP) + 4) ==> w.mem[x] == s.mem[x])
  {
    hide Pushed, Register;
    PushedKeeps(s, [0, 1]);
    CallingRegisters(s, back, SP);
  }

  /** What a call of pgcd leaves of the caller. */
  lemma CalledBack(s: Core, base: nat, v: Core)
    requires Linked(TextOf(s), base) && Computable(s, base) && CanPush(Arguments(s, base), [0, 1])
    requires Returned(Calling(Arguments(s, base), base + 24), v)
    ensures HasPushed(Arguments(s, base), [0, 1], v)
    ensures forall k :: 3 <= k < 31 && k != PC && k != Slot(s.cpsr.mode, SP) && k != Slot(s.cpsr.mode, LR) ==>
              v.storage[k] == s.storage[k]
    ensures v.spsr == s.spsr && v.cpsr == s.cpsr.(n := v.cpsr.n, z := v.cpsr.z, c := v.cpsr.c, v := v.cpsr.v)
    ensures |v.mem| == |s.mem| && IsGcd(Register(v, 2), A(s, base), B(s, base)) && Register(v, PC) == base + 24
    ensures forall x :: 0 <= x < |s.mem| && !OnStack(s, Frames(A(s, base), B(s, base)), x) ==> v.mem[x] == s.mem[x]
  {
    hide ReadWord, Pushed, Frames, IsGcd, Arguments, A, B, Linked, Front, Calling, Register, Pointed;
    var s1 := Arguments(s, base);
    ArgumentsRegisters(s, base);
    CallingKeeps(s1, base + 24);
    CallingIsReady(s, base);
    Slots(s.cpsr.mode);
    PushedBack(s1, Calling(s1, base + 24), v);
  }

  lemma PushedBack(s: Core, w: Core, v: Core)
    requires HasPushed(s, [0, 1], w) && Returned(w, v)
    ensures HasPushed(s, [0, 1], v)
  {
    hide Pushed, IsGcd, Frames;
    Slots(s.cpsr.mode);
    hide Slot;
  }

  /**
   What main has done when it reaches its swi: r0 and r1 hold the arguments, r2 and res
   their divisor, and nothing else has changed but r3, the link register, the flags and the
   stack below the stack pointer.
   */
  ghost predicate Computed(s: Core, t: Core, base: nat)
    requires Computable(s, base)
  {
    && |t.storage| == 31 && |t.mem| == |s.mem| && t.spsr == s.spsr
    && t.cpsr == s.cpsr.(n := t.cpsr.n, z := t.cpsr.z, c := t.cpsr.c, v := t.cpsr.v)
    && Register(t, 0) == A(s, base) && Register(t, 1) == B(s, base)
    && IsGcd(Register(t, 2), A(s, base), B(s, base))
    && ReadWord(t.mem, t.cpsr.e, Pointed(s, base, 88)) == Register(t, 2)
    && Register(t, SP) == Register(s, SP) && Register(t, PC) == base + 36
    && (forall k :: 4 <= k < 31 && k != PC && k != Slot(s.cpsr.mode, LR) ==> t.storage[k] == s.storage[k])
    && var pr, f := Pointed(s, base, 88), Frames(A(s, base), B(s, base));
       forall x :: 0 <= x < |s.mem| && !(pr <= x < pr + 4) && !OnStack(s, f, x) ==> t.mem[x] == s.mem[x]
  }

  lemma StoredKeeps(s: Core, v: Core, pr: word)
    requires HasPushed(s, [0, 1], v) && InMemory(v.mem, pr)
    ensures var t := Stored(v, pr);
            && Register(t, 0) == Register(s, 0) && Register(t, 1) == Register(s, 1) && Register(t, 2) == Register(v, 2)
            && Register(t, SP) == Register(s, SP) && t.cpsr == v.cpsr && t.spsr == v.spsr && |t.mem| == |v.mem|
            && ReadWord(t.mem, t.cpsr.e, pr) == Register(v, 2)
            && (forall k :: 4 <= k < 31 && k != Slot(v.cpsr.mode, SP) ==> t.storage[k] == v.storage[k])
            && (forall x :: 0 <= x < |v.mem| && !(pr <= x < pr + 4) ==> t.mem[x] == v.mem[x])
  {
    hide Slot, ReadWord, WriteWord, Pushed, Popped;
    PoppedTwo(s, v);
    Slots(v.cpsr.mode);
    ReadWritten(v.mem, v.cpsr.e, pr, Register(v, 2));
  }

  lemma LiteralKept(s: Core, base: nat, v: Core)
    requires Linked(TextOf(s), base) && Computable(s, base) && CanPush(Arguments(s, base), [0, 1])
    requires Returned(Calling(Arguments(s, base), base + 24), v)
    ensures HasPushed(Arguments(s, base), [0, 1], v) && |v.mem| == |s.mem| && v == At(v, base + 24)
    ensures Pointed(v, base, 88) == Pointed(s, base, 88)
  {
    hide Slot, ReadWord, Pushed, Calling, Arguments, IsGcd, A, B, HasPushed, Register, Frames;
    CalledBack(s, base, v);
    AtIsHere(v);
    ReadSame(s.mem, v.mem, s.cpsr.e, base + 88);
  }

  lemma StoredComputes(s: Core, base: nat, v: Core)
    requires Linked(TextOf(s), base) && Computable(s, base) && CanPush(Arguments(s, base), [0, 1])
    requires Returned(Calling(Arguments(s, base), base + 24), v) && HasPushed(Arguments(s, base), [0, 1], v)
    ensures |v.mem| == |s.mem| && Computed(s, At(Stored(v, Pointed(s, base, 88)), base + 36), base)
  {
    hide Slot, ReadWord, Pushed, Popped, Returned, Calling, Arguments, IsGcd, A, B, Frames, OnStack, Stored;
    CalledBack(s, base, v);
    ArgumentsRegisters(s, base);
    StoredKeeps(Arguments(s, base), v, Pointed(s, base, 88));
    Slots(s.cpsr.mode);
  }

  /** The code is in place when pgcd is back. */
  lemma BackLinked(s: Core, base: nat, v: Core)
    requires Linked(TextOf(s), base) && Computable(s, base) && CanPush(Arguments(s, base), [0, 1])
    requires Returned(Calling(Arguments(s, base), base + 24), v)
    ensures |v.mem| == |s.mem| && Linked(TextOf(v), base)
  {
    hide Slot, Pushed, Calling, Arguments, IsGcd, A, B, Linked, Register, Frames, Returned, HasPushed;
    CalledBack(s, base, v);
    LinkedKept(TextOf(s), TextOf(v), base);
  }

  /**
   For all A and B that are equal or both not zero, with room for the stack off the code, main
   computes their greatest common divisor into res.
   */
  lemma MainRuns(base: nat, s: Core)
    requires Linked(TextOf(s), base) && Computable(s, base)
    ensures Computed(s, Run(At(s, base), 8 * Frames(A(s, base), B(s, base)) + 8), base)
  {
    hide Step, Run, At, Linked, Register, A, B, Arguments, Calling, Pointed, Frames, Computed, Returned, Stored, HasPushed;
    var s1, f := Arguments(s, base), Frames(A(s, base), B(s, base));
    CallingIsReady(s, base);
    var w := Calling(s1, base + 24);
    PgcdRuns(base + 40, w);
    var v := Run(At(w, base + 40), 8 * f - 1);
    LiteralKept(s, base, v);
    BackLinked(s, base, v);
    StoredComputes(s, base, v);
    StoringRuns(base, s1, v);
    RunPlus(At(s, base), 6, 8 * f + 2);
    RunPlus(At(w, base + 40), 8 * f - 1, 3);
  }

  /** As Apart for pgcd, called from main with two words pushed. */
  ghost predicate MainApart(s: Core, base: nat)
    requires Prepared(s, base)
  {
    var sp, a, b := Register(s, SP), A(s, base), B(s, base);
    && 8 <= sp && sp + 4 <= |s.mem|
    && (|| sp + 4 <= base
        || (base + 88 <= sp && (sp - base) % 4 == 0 && base + 72 < 0x1000_0000
            && (Solvable(a, b) && base + 68 <= sp - 4 - 4 * Frames(a, b) < base + 80 ==> IsAnd(base + 72))))
  }

  /** There is an end to the calls, and the push and the frames have room off the code. */
  ghost predicate MainFits(s: Core, base: nat)
    requires Prepared(s, base)
  {
    var sp, a, b := Register(s, SP), A(s, base), B(s, base);
    && Solvable(a, b) && 4 + 4 * Frames(a, b) <= sp && (sp + 4 <= base || base + 80 <= sp - 4 - 4 * Frames(a, b))
  }

  /** After six instructions main calls pgcd, and gets the control back if and only if that holds. */
  lemma MainReturnsIff(base: nat, s: Core)
    requires Linked(TextOf(s), base) && Prepared(s, base) && MainApart(s, base) && !(base <= ABORT_VECTOR < base + 80)
    ensures CanPush(Arguments(s, base), [0, 1])
    ensures var w := Calling(Arguments(s, base), base + 24);
            && Run(At(s, base), 6) == At(w, base + 40) && Register(w, LR) == base + 24
            && (Returns(base + 40, w) <==> MainFits(s, base))
  {
    hide Run, At, Linked, Register, A, B, Arguments, Calling, Pointed, Frames, Returns, Front;
    CallingWith(base, s);
    PgcdReturnsIff(base + 40, Calling(Arguments(s, base), base + 24));
  }

  lemma {:induction false} FramesFromOne(n: nat)
    requires n > 0
    ensures Solvable(1, n) && Frames(1, n) == n
    decreases n
  {
    if n > 1 {
      FramesFromOne(n - 1);
    }
  }

  /**
   In the layout of the examples (text from 0x20, 0x20000 bytes of memory, the supervisor's
   stack from 0x10300) main gets the control back if and only if A and B are equal or both not
   zero, and need 16547 frames at most. With A = 1, as many are needed as B says.
   */
  lemma LayoutLimits(s: Core)
    requires Linked(TextOf(s), 0x20) && Prepared(s, 0x20) && |s.mem| == 0x20000 && Register(s, SP) == 0x10300
    ensures CanPush(Arguments(s, 0x20), [0, 1])
    ensures var a, b := A(s, 0x20), B(s, 0x20);
            && (Returns(0x48, Calling(Arguments(s, 0x20), 0x38)) <==> Solvable(a, b) && Frames(a, b) <= 16547)
            && (a == 1 && b > 0 ==> Solvable(a, b) && Frames(a, b) == b)
  {
    hide Run, At, Linked, Register, A, B, Arguments, Calling, Pointed, Frames, Returns;
    var a, b := A(s, 0x20), B(s, 0x20);
    if a == 1 && b > 0 {
      FramesFromOne(b);
    }
    MainReturnsIff(0x20, s);
  }
}
