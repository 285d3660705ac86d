/** Examples/example1.s: a loop whose end is decided by the flags that a subs in a procedure sets. */
module Countdown {
  import opened Memory
  import opened Arm
  import opened ArmSteps
  import opened Encoding

  const COUNT: seq<Instr> := [
    Data(AL, SUB, true, 0, 0, Imm(1)),     //  0 decr
    Data(AL, MOV, false, PC, 0, Reg(LR)),  //  4
    Data(AL, MOV, false, 0, 0, Imm(5)),    //  8 main
    Branch(AL, true, -5),                  // 12 loop
    Branch(NE, false, -3)                  // 16
  ]                                        // 20 end

  const COUNT_WORDS: seq<word> := [0xE2500001, 0xE1A0F00E, 0xE3A00005, 0xEBFFFFFB, 0x1AFFFFFD]

  lemma CountAssembles()
    ensures Assembled(COUNT, COUNT_WORDS)
  {
    hide Assemble;
    DataWord(AL, SUB, true, 0, 0, Imm(1), COUNT_WORDS[0]);
    DataWord(AL, MOV, false, PC, 0, Reg(LR), COUNT_WORDS[1]);
    DataWord(AL, MOV, false, 0, 0, Imm(5), COUNT_WORDS[2]);
    BranchWord(AL, true, -5, COUNT_WORDS[3]);
    BranchWord(NE, false, -3, COUNT_WORDS[4]);
  }

  lemma CountLoads(text: Text, base: nat)
    requires InPlace(text, base, COUNT_WORDS)
    ensures Loaded(text, base)
  {
    hide InPlace, LoadedAt, Assembled;
    CountAssembles();
    WordsLoad(text, base, COUNT_WORDS, COUNT);
  }

  ghost predicate Loaded(text: Text, base: nat)
    ensures Loaded(text, base) ==> base % 4 == 0 && base + 28 < 0x1_0000_0000
  {
    LoadedAt(text, base, COUNT)
  }

  lemma Here(text: Text, base: nat, k: nat)
    requires Loaded(text, base) && k < |COUNT|
    ensures Has(text, base + 4 * k, COUNT[k])
  {
    hide Has, LoadedAt;
    Placed(text, base, COUNT, k);
  }

  /** s with r0 at r, the link register as the call leaves it, and the flags q. */
  function Counted(s: Core, r: word, back: word, q: Psr): (t: Core)
    requires |s.storage| == 31
    ensures |t.storage| == 31 && t.mem == s.mem && t.cpsr == q
  {
    Put(Put(s, LR, back).(cpsr := q), 0, r)
  }

  /** q differs from p in flags at most, and says whether r is zero. */
  predicate Tells(p: Psr, q: Psr, r: word) {
    q == p.(n := q.n, z := q.z, c := q.c, v := q.v) && (q.z <==> r == 0)
  }

  /** One round of the loop: r0 goes down by one, modulo 2^32, and the loop goes on exactly if it is not zero then. */
  lemma Round(base: nat, s: Core) returns (q: Psr)
    requires Loaded(TextOf(s), base) && |s.storage| == 31
    ensures var r := Wrap(Register(s, 0) - 1);
            && Tells(s.cpsr, q, r)
            && Run(At(s, base + 12), 4) == At(Counted(s, r, base + 16, q), if r == 0 then base + 20 else base + 12)
    ensures Within(base, base + 20, At(s, base + 12), 4)
  {
    hide Step, Has, Loaded, Register, At, Put, Run, Within, Wrap;
    var r := Wrap(Register(s, 0) - 1);
    var s1 := Put(s, LR, base + 16);
    q := Decrement(base, s, s1);
    var s2 := Counted(s, r, base + 16, q);
    Back(base, s, r, q);
    Here(TextOf(s), base, 3);
    Here(TextOf(s), base, 4);
    BranchStep(s, base + 12, AL, true, -5);
    BranchStep(s2, base + 16, NE, false, -3);
    ShortRuns(At(s, base + 12));
    WithinAt(base, base + 20, s, base + 12, 3);
    WithinAt(base, base + 20, s1, base, 2);
    WithinAt(base, base + 20, s2, base + 4, 1);
    WithinAt(base, base + 20, s2, base + 16, 0);
    WithinNone(base, base + 20, Step(At(s2, base + 16)));
  }

  lemma Decrement(base: nat, s: Core, s1: Core) returns (q: Psr)
    requires Loaded(TextOf(s), base) && |s.storage| == 31 && s1 == Put(s, LR, base + 16)
    ensures var r := Wrap(Register(s, 0) - 1);
            Tells(s.cpsr, q, r) && Step(At(s1, base)) == At(Counted(s, r, base + 16, q), base + 4)
  {
    hide Step, Has, Loaded, Register, At, Put, Wrap;
    Here(TextOf(s), base, 0);
    PutRegisters(s, LR, base + 16, 0);
    FlagsStep(s1, base, AL, SUB, 0, 0, Imm(1));
    q := Step(At(s1, base)).cpsr;
  }

  lemma Back(base: nat, s: Core, r: word, q: Psr)
    requires Loaded(TextOf(s), base) && |s.storage| == 31 && Tells(s.cpsr, q, r)
    ensures var t := Counted(s, r, base + 16, q); Step(At(t, base + 4)) == At(t, base + 16)
  {
    CountedLink(s, r, base + 16, q);
    hide Step, Has, Loaded, Register, At, Put;
    Here(TextOf(s), base, 1);
    ReturnStep(Counted(s, r, base + 16, q), base + 4, LR);
  }

  lemma CountedLink(s: Core, r: word, back: word, q: Psr)
    requires |s.storage| == 31 && Tells(s.cpsr, q, r)
    ensures var t := Counted(s, r, back, q); Register(t, LR) == back && Register(t, 0) == r
  {
    Slots(s.cpsr.mode);
  }

  /** The rounds of the loop from r0: as many as its value says, or 2^32 if it is zero. */
  function Rounds(r: word): nat {
    if r == 0 then 0x1_0000_0000 else r
  }

  /** t is s after the loop: r0 is zero, and nothing else has changed but the link register and the flags. */
  ghost predicate Over(base: nat, s: Core, t: Core) {
    && |s.storage| == |t.storage| == 31 && t.mem == s.mem && t.spsr == s.spsr && Tells(s.cpsr, t.cpsr, 0)
    && Register(t, 0) == 0 && Register(t, LR) == base + 16 && Register(t, PC) == base + 20
    && forall k :: 1 <= k < 31 && k != PC && k != Slot(s.cpsr.mode, LR) ==> t.storage[k] == s.storage[k]
  }

  lemma OverNow(base: nat, s: Core, q: Psr)
    requires |s.storage| == 31 && base + 20 < 0x1_0000_0000 && Tells(s.cpsr, q, 0)
    ensures Over(base, s, At(Counted(s, 0, base + 16, q), base + 20))
  {
    CountedLink(s, 0, base + 16, q);
    Registers(Counted(s, 0, base + 16, q), base + 20, 0);
    Registers(Counted(s, 0, base + 16, q), base + 20, LR);
    hide Register;
    Slots(s.cpsr.mode);
  }

  /** What a round does before the rest of the loop is in the account of the loop. */
  lemma OverLater(base: nat, s: Core, r: word, q: Psr, t: Core)
    requires |s.storage| == 31 && base + 16 < 0x1_0000_0000 && Tells(s.cpsr, q, r)
    requires Over(base, Counted(s, r, base + 16, q), t)
    ensures Over(base, s, t)
  {
    Slots(s.cpsr.mode);
    hide Slot;
  }

  /**
   The loop ends after 4 instructions for each of its rounds, and not before, with r0 at zero:
   the flags that subs sets in the procedure decide the branch after the return.
   */
  lemma {:induction false} LoopEnds(base: nat, s: Core)
    requires Loaded(TextOf(s), base) && |s.storage| == 31
    ensures LeavesFor(base, base + 20, At(s, base + 12), base + 20, 4 * Rounds(Register(s, 0)))
    ensures Over(base, s, Run(At(s, base + 12), 4 * Rounds(Register(s, 0))))
    decreases Rounds(Register(s, 0))
  {
    hide Run, At, Within, Loaded, Register, Counted, Over, Tells;
    var q := Round(base, s);
    var r: word := Wrap(Register(s, 0) - 1);
    RoundsDown(Register(s, 0));
    CountedKeeps(s, r, base + 16, q);
    var u := Counted(s, r, base + 16, q);
    if r == 0 {
      OverNow(base, s, q);
      OverAt(base, s, At(u, base + 20));
    } else {
      LoopEnds(base, u);
      var n := 4 * Rounds(r);
      OverLater(base, s, r, q, Run(At(u, base + 12), n));
      RunPlus(At(s, base + 12), 4, n);
      WithinPlus(base, base + 20, At(s, base + 12), 4, n);
    }
  }

  lemma OverAt(base: nat, s: Core, t: Core)
    requires Over(base, s, t)
    ensures |t.storage| == 31 && Register(t, PC) == base + 20
  {
  }

  lemma RoundsDown(r: word)
    ensures var next := Wrap(r - 1); if next == 0 then Rounds(r) == 1 else Rounds(r) == 1 + Rounds(next)
  {
  }

  lemma CountedKeeps(s: Core, r: word, back: word, q: Psr)
    requires |s.storage| == 31 && Tells(s.cpsr, q, r)
    ensures var t := Counted(s, r, back, q); TextOf(t) == TextOf(s) && Register(t, 0) == r
  {
    CountedLink(s, r, back, q);
  }

  /** main loads 5 and counts it down: 21 instructions, and control is at the end. */
  lemma MainCounts(base: nat, s: Core)
    requires Loaded(TextOf(s), base) && |s.storage| == 31
    ensures LeavesFor(base, base + 20, At(s, base + 8), base + 20, 21)
    ensures Over(base, Put(s, 0, 5), Run(At(s, base + 8), 21))
  {
    hide Step, Run, At, Has, Within, Loaded, Register, Put, Over, Decode, ReadWord, Slot, LeavesFor, Tells;
    var s1 := Put(s, 0, 5);
    PutRegisters(s, 0, 5, 0);
    Here(TextOf(s), base, 2);
    DataStep(s, base + 8, AL, MOV, 0, 0, Imm(5));
    LoopEnds(base, s1);
    FirstOf(base, s, s1);
  }

  lemma FirstOf(base: nat, s: Core, s1: Core)
    requires |s.storage| == |s1.storage| == 31 && base + 28 < 0x1_0000_0000 && Step(At(s, base + 8)) == At(s1, base + 12)
    requires LeavesFor(base, base + 20, At(s1, base + 12), base + 20, 20)
    ensures LeavesFor(base, base + 20, At(s, base + 8), base + 20, 21) && Run(At(s, base + 8), 21) == Run(At(s1, base + 12), 20)
  {
    hide Step, Run, At, Within, Register;
    ShortRuns(At(s, base + 8));
    RunPlus(At(s, base + 8), 1, 20);
    WithinAt(base, base + 20, s, base + 8, 20);
  }
}
