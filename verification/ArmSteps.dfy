/**
 Steps seen apart from the program counter: each instruction turns a core at one address
 into a core at the next, and what it does to the rest does not depend on the address.
 */
module ArmSteps {
  import opened Memory
  import opened Arm
  import opened ArmLaws

  /** The core s with its program counter at pc. */
  function At(s: Core, pc: word): (t: Core)
    requires |s.storage| == 31
    ensures |t.storage| == 31 && t.cpsr == s.cpsr && t.mem == s.mem && t.spsr == s.spsr
    ensures t.storage == s.storage[PC := pc]
  {
    s.(storage := s.storage[PC := pc])
  }

  /** The core s with register r of its mode, not the program counter, set to v. */
  function Put(s: Core, r: nat, v: word): (t: Core)
    requires |s.storage| == 31 && r < PC
    ensures |t.storage| == 31 && t.cpsr == s.cpsr && t.mem == s.mem && t.spsr == s.spsr
  {
    WriteRegister(s, r, v)
  }

  lemma AtIsHere(s: Core)
    requires |s.storage| == 31
    ensures At(s, Register(s, PC)) == s && Register(s, PC) == s.storage[PC]
  {
  }

  lemma Registers(s: Core, pc: word, r: nat)
    requires |s.storage| == 31 && r < PC
    ensures Register(At(s, pc), r) == Register(s, r) && Register(At(s, pc), PC) == pc
  {
    SlotsDiffer(s.cpsr.mode, r, PC);
    Slots(s.cpsr.mode);
  }

  /** A register reads as last written; the others keep their values. */
  lemma PutRegisters(s: Core, r: nat, v: word, q: nat)
    requires |s.storage| == 31 && r < PC && q < PC
    ensures Register(Put(s, r, v), q) == if q == r then v else Register(s, q)
  {
    if q != r {
      SlotsDiffer(s.cpsr.mode, r, q);
    }
  }

  lemma PutTwice(s: Core, r: nat, v: word, w: word)
    requires |s.storage| == 31 && r < PC
    ensures Put(Put(s, r, v), r, w) == Put(s, r, w)
  {
  }

  lemma SameStorage(s: Core, t: Core)
    requires |s.storage| == 31 && t.storage == s.storage && t.cpsr.mode == s.cpsr.mode
    ensures forall q :: 0 <= q < 16 ==> Register(t, q) == Register(s, q)
  {
  }

  lemma PutAt(s: Core, r: nat, v: word, pc: word)
    requires |s.storage| == 31 && r < PC
    ensures WriteRegister(At(s, pc), r, v) == At(Put(s, r, v), pc)
  {
    SlotsDiffer(s.cpsr.mode, r, PC);
    Slots(s.cpsr.mode);
    hide Slot;
    assert s.storage[PC := pc][Slot(s.cpsr.mode, r) := v] == s.storage[Slot(s.cpsr.mode, r) := v][PC := pc];
  }

  lemma MoveAt(s: Core, pc: word, to: word)
    requires |s.storage| == 31
    ensures WriteRegister(At(s, pc), PC, to) == At(s, to)
  {
    Slots(s.cpsr.mode);
    hide Slot;
    assert s.storage[PC := pc][PC := to] == s.storage[PC := to];
  }

  /** There is an instruction at pc, and reading ahead of it does not wrap around. */
  ghost predicate Has(text: Text, pc: nat, ins: Instr) {
    && pc % 4 == 0 && pc + 8 < 0x1_0000_0000 && InMemory(text.mem, pc)
    && Decode(ReadWord(text.mem, text.e, pc)) == ins && !ins.Other?
  }

  lemma Placed(text: Text, base: nat, program: seq<Instr>, k: nat)
    requires LoadedAt(text, base, program) && k < |program| && !program[k].Other?
    ensures Has(text, base + 4 * k, program[k]) && base + 4 * k + 8 < 0x1_0000_0000
  {
    hide Decode, ReadWord;
  }

  /** A store leaves a program alone that it does not overlap. */
  lemma LoadedStored(text: Text, base: nat, program: seq<Instr>, a: nat, v: word)
    requires LoadedAt(text, base, program) && InMemory(text.mem, a)
    requires a + 4 <= base || base + 4 * |program| <= a
    ensures LoadedAt(Text(WriteWord(text.mem, text.e, a, v), text.e), base, program)
  {
    hide Decode, ReadWord, WriteWord;
    ReadWritten(text.mem, text.e, a, v);
    LoadedKept(text, Text(WriteWord(text.mem, text.e, a, v), text.e), base, program);
  }

  /** A word below 2^28 is an instruction for equal operands only: after unequal ones it is passed over. */
  lemma SkipStep(s: Core, pc: word)
    requires |s.storage| == 31 && pc % 4 == 0 && pc + 8 < 0x1_0000_0000 && InMemory(s.mem, pc)
    requires ReadWord(s.mem, s.cpsr.e, pc) < 0x1000_0000 && !s.cpsr.z
    ensures Step(At(s, pc)) == At(s, pc + 4)
  {
    hide Exec, Slot, WriteRegister, ReadRegister, Wrap, Decode, ReadWord, PrefetchAbort;
    MoveAt(s, pc, pc + 4);
    PcReads(s, pc);
    InRange(pc);
    InRange(pc + 4);
  }

  lemma InRange(x: int)
    requires 0 <= x < 0x1_0000_0000
    ensures Wrap(x) == x
  {
  }

  lemma SubInRange(a: word, b: word)
    ensures a >= b ==> Sub(a, b) == a - b
  {
  }

  lemma PcReads(s: Core, pc: nat)
    requires |s.storage| == 31 && pc % 4 == 0 && pc + 4 < 0x1_0000_0000
    ensures ReadRegister(At(s, pc), PC) == pc + 4
  {
    Registers(s, pc, 0);
  }

  lemma PlainReads(s: Core, pc: word)
    requires |s.storage| == 31
    ensures forall r :: 0 <= r < PC ==> ReadRegister(At(s, pc), r) == Register(s, r)
  {
    forall r | 0 <= r < PC
      ensures ReadRegister(At(s, pc), r) == Register(s, r)
    {
      Registers(s, pc, r);
    }
  }

  /** Fetching moves the program counter on; then the instruction executes. */
  lemma Fetch(s: Core, pc: word, ins: Instr)
    requires |s.storage| == 31 && Has(TextOf(s), pc, ins)
    ensures WellFormed(ins) && !ins.Other?
    ensures Step(At(s, pc)) == if Holds(ins.cond, s.cpsr) then Exec(At(s, pc + 4), ins) else At(s, pc + 4)
    ensures ReadRegister(At(s, pc + 4), PC) == pc + 8
    ensures forall r :: 0 <= r < PC ==> ReadRegister(At(s, pc + 4), r) == Register(s, r)
  {
    hide Exec, Slot, WellFormed, WriteRegister, ReadRegister, Holds, Wrap, Decode, ReadWord, PrefetchAbort;
    MoveAt(s, pc, pc + 4);
    PcReads(s, pc);
    PcReads(s, pc + 4);
    PlainReads(s, pc + 4);
    InRange(pc);
    InRange(pc + 4);
    hide At;
  }

  /** The next k instructions are at addresses from lo up to hi. */
  ghost predicate Within(lo: int, hi: int, t: Core, k: nat)
    requires |t.storage| == 31
    decreases k
  {
    k == 0 || (lo <= Register(t, PC) < hi && Within(lo, hi, Step(t), k - 1))
  }

  lemma WithinAt(lo: int, hi: int, s: Core, pc: word, k: nat)
    requires |s.storage| == 31 && lo <= pc < hi
    ensures Within(lo, hi, At(s, pc), k + 1) <==> Within(lo, hi, Step(At(s, pc)), k)
  {
    hide Step;
    Registers(s, pc, 0);
  }

  lemma WithinNone(lo: int, hi: int, t: Core)
    requires |t.storage| == 31
    ensures Within(lo, hi, t, 0)
  {
  }

  lemma {:induction false} WithinPlus(lo: int, hi: int, t: Core, m: nat, n: nat)
    requires |t.storage| == 31
    ensures Within(lo, hi, t, m + n) <==> Within(lo, hi, t, m) && Within(lo, hi, Run(t, m), n)
    decreases m
  {
    hide Step, Register;
    if m > 0 {
      WithinPlus(lo, hi, Step(t), m - 1, n);
    }
  }

  lemma {:induction false} WithinRun(lo: int, hi: int, t: Core, k: nat, j: nat)
    requires |t.storage| == 31 && Within(lo, hi, t, k) && j < k
    ensures lo <= Register(Run(t, j), PC) < hi
    decreases j
  {
    hide Step, Register;
    if j > 0 {
      WithinRun(lo, hi, Step(t), k - 1, j - 1);
    }
  }

  /** The code from lo up to hi, entered at t, is left after n instructions for the address to. */
  ghost predicate LeavesFor(lo: int, hi: int, t: Core, to: int, n: nat)
    requires |t.storage| == 31
  {
    Within(lo, hi, t, n) && Register(Run(t, n), PC) == to && !(lo <= to < hi)
  }

  /** It is left only once. */
  lemma LeavesOnce(lo: int, hi: int, t: Core, a: int, m: nat, b: int, n: nat)
    requires |t.storage| == 31
    requires LeavesFor(lo, hi, t, a, m) && LeavesFor(lo, hi, t, b, n)
    ensures a == b && m == n
  {
    hide Within, Run, Register;
    if m < n {
      WithinRun(lo, hi, t, n, m);
    } else if n < m {
      WithinRun(lo, hi, t, m, n);
    }
  }

  /** An operand that is not the program counter. */
  function Plain(s: Core, op2: Operand): word
    requires |s.storage| == 31 && (op2.Reg? ==> op2.r < PC)
  {
    match op2 case Imm(value) => value case Reg(r) => Register(s, r)
  }

  lemma DataStep(s: Core, pc: word, cond: Cond, op: Opcode, rd: nat, rn: nat, op2: Operand)
    requires |s.storage| == 31 && Has(TextOf(s), pc, Data(cond, op, op == CMP, rd, rn, op2))
    requires rd < PC && rn < PC && (op2.Reg? ==> op2.r < PC)
    ensures Step(At(s, pc)) ==
              if !Holds(cond, s.cpsr) then At(s, pc + 4)
              else match op
                case CMP => At(s.(cpsr := SubFlags(s.cpsr, Register(s, rn), Plain(s, op2))), pc + 4)
                case MOV => At(Put(s, rd, Plain(s, op2)), pc + 4)
                case ADD => At(Put(s, rd, Wrap(Register(s, rn) + Plain(s, op2))), pc + 4)
                case SUB => At(Put(s, rd, Sub(Register(s, rn), Plain(s, op2))), pc + 4)
  {
    hide Step, WellFormed, Slot, WriteRegister, Register, ReadRegister, At, Put, Holds, SubFlags, Has;
    Fetch(s, pc, Data(cond, op, op == CMP, rd, rn, op2));
    var a: int, b: int := Register(s, rn), Plain(s, op2);
    match op
    case CMP =>
    case MOV => PutAt(s, rd, b, pc + 4);
    case ADD => PutAt(s, rd, Wrap(a + b), pc + 4);
    case SUB => PutAt(s, rd, Sub(a, b), pc + 4);
  }

  /** mov, add and sub that set flags: the result, and the flags that go with it. */
  lemma FlagsStep(s: Core, pc: word, cond: Cond, op: Opcode, rd: nat, rn: nat, op2: Operand)
    requires |s.storage| == 31 && Has(TextOf(s), pc, Data(cond, op, true, rd, rn, op2)) && op != CMP
    requires rd < PC && rn < PC && (op2.Reg? ==> op2.r < PC)
    ensures !Holds(cond, s.cpsr) ==> Step(At(s, pc)) == At(s, pc + 4)
    ensures Holds(cond, s.cpsr) ==>
              var t := Step(At(s, pc));
              var a, b, res := Register(s, rn), Plain(s, op2), Register(t, rd);
              && t == At(Put(s.(cpsr := t.cpsr), rd, res), pc + 4)
              && IsResult(op, a, b, res) && AreFlags(op, s.cpsr, t.cpsr, a, b)
  {
    hide Step, WellFormed, Slot, WriteRegister, Register, ReadRegister, Holds, Has, ExecData, IsResult, AreFlags, At, Put;
    Fetch(s, pc, Data(cond, op, true, rd, rn, op2));
    if Holds(cond, s.cpsr) {
      FlagsAt(s, pc + 4, op, rd, if op == MOV then 0 else Register(s, rn), Plain(s, op2));
      MovIgnores(op, s.cpsr, Step(At(s, pc)).cpsr, Register(s, rn), Plain(s, op2), Register(Step(At(s, pc)), rd));
    }
  }

  lemma MovIgnores(op: Opcode, p: Psr, q: Psr, a: word, b: word, res: word)
    ensures op == MOV ==> (IsResult(op, 0, b, res) <==> IsResult(op, a, b, res)) && (AreFlags(op, p, q, 0, b) <==> AreFlags(op, p, q, a, b))
  {
  }

  lemma FlagsAt(s: Core, pc: word, op: Opcode, rd: nat, a: word, b: word)
    requires |s.storage| == 31 && rd < PC && op != CMP
    ensures var t := ExecData(At(s, pc), op, true, rd, a, b);
            && t == At(Put(s.(cpsr := t.cpsr), rd, Register(t, rd)), pc)
            && IsResult(op, a, b, Register(t, rd)) && AreFlags(op, s.cpsr, t.cpsr, a, b)
  {
    DataMeans(At(s, pc), op, true, rd, a, b);
    FlagsKeepMode(op, s.cpsr, ExecData(At(s, pc), op, true, rd, a, b).cpsr, a, b);
    SlotsDiffer(s.cpsr.mode, rd, PC);
    Slots(s.cpsr.mode);
    hide ExecData, Slot, IsResult, AreFlags;
    var t, k := ExecData(At(s, pc), op, true, rd, a, b), Slot(s.cpsr.mode, rd);
    assert s.storage[PC := pc][k := t.storage[k]] == s.storage[k := t.storage[k]][PC := pc];
  }

  lemma FlagsKeepMode(op: Opcode, p: Psr, q: Psr, a: word, b: word)
    requires AreFlags(op, p, q, a, b)
    ensures q == p.(n := q.n, z := q.z, c := q.c, v := q.v)
  {
  }

  /** The same written to the program counter: control goes to the result, with the saved status in a mode that has one. */
  lemma StatusReturnStep(s: Core, pc: word, op: Opcode, rn: nat, op2: Operand)
    requires |s.storage| == 31 && Has(TextOf(s), pc, Data(AL, op, true, PC, rn, op2)) && op != CMP
    requires rn < PC && (op2.Reg? ==> op2.r < PC)
    ensures var t, m := Step(At(s, pc)), s.cpsr.mode;
            && IsResult(op, Register(s, rn), Plain(s, op2), Register(t, PC))
            && t == At(s, Register(t, PC)).(cpsr := if m in s.spsr && m !in {USR, SYS} then s.spsr[m] else s.cpsr)
  {
    hide Step, WellFormed, Slot, ReadRegister, Has, Plain, ExecData, IsResult;
    var ins := Data(AL, op, true, PC, rn, op2);
    Fetch(s, pc, ins);
    var a: word, b: word := if op == MOV then 0 else Register(s, rn), Plain(s, op2);
    PlainReads(s, pc + 4);
    PlainIs(s, pc, op2);
    DataMeans(At(s, pc + 4), op, true, PC, a, b);
    var t := Step(At(s, pc));
    Slots(t.cpsr.mode);
    MovIgnores(op, s.cpsr, t.cpsr, Register(s, rn), b, t.storage[PC]);
  }

  lemma PlainIs(s: Core, pc: word, op2: Operand)
    requires |s.storage| == 31 && (op2.Reg? ==> op2.r < PC) && pc + 4 < 0x1_0000_0000
    ensures Value(At(s, pc + 4), op2) == Plain(s, op2)
  {
    PlainReads(s, pc + 4);
    hide ReadRegister, Register;
  }

  // ----- exceptions

  /** t has entered an exception from s: the mode, its link register and saved status, the stack pointer, and the vector. */
  ghost predicate HasEntered(s: Core, t: Core, mode: Mode, link: word, vector: nat) {
    && |s.storage| == |t.storage| == 31 && t.mem == s.mem
    && t.cpsr == s.cpsr.(mode := mode, i := true, t := false, e := true) && t.spsr == s.spsr[mode := s.cpsr]
    && Register(t, LR) == link && Register(t, SP) == Register(s, SP) && Register(t, PC) == 0x1000 + vector
    && forall k :: 0 <= k < 31 && k != PC && k != Slot(mode, SP) && k != Slot(mode, LR) ==> t.storage[k] == s.storage[k]
  }

  lemma EnterMeans(s: Core, mode: Mode, link: word, vector: nat)
    requires |s.storage| == 31 && vector < 0x20
    ensures HasEntered(s, Enter(s, mode, link, vector), mode, link, vector)
  {
    Slots(mode);
    PlainReads(s, Register(s, PC));
    AtIsHere(s);
  }

  /**
   Exceptions of the instruction at pc, which has been fetched: an undefined one links to the
   next instruction, a failed access to the one after that, a failed fetch four behind itself.
   An interrupt between two instructions, the next one at pc, links four behind that, unless
   it is masked.
   */
  lemma Exceptions(s: Core, pc: word)
    requires |s.storage| == 31 && pc % 4 == 0 && pc + 8 < 0x1_0000_0000
    ensures HasEntered(At(s, pc + 4), Undefined(At(s, pc + 4)), UND, pc + 4, 0x04)
    ensures HasEntered(At(s, pc + 4), DataAbort(At(s, pc + 4)), ABT, pc + 8, 0x10)
    ensures HasEntered(At(s, pc + 4), PrefetchAbort(At(s, pc + 4)), ABT, pc + 4, 0x0C)
    ensures if s.cpsr.i then Interrupt(At(s, pc)) == At(s, pc) else HasEntered(At(s, pc), Interrupt(At(s, pc)), IRQ, pc + 4, 0x18)
  {
    PcReads(s, pc);
    PcReads(s, pc + 4);
    InRange(pc);
    InRange(pc + 4);
    InRange(pc + 8);
    hide Enter, HasEntered, Wrap, ReadRegister;
    EnterMeans(At(s, pc + 4), UND, pc + 4, 0x04);
    EnterMeans(At(s, pc + 4), ABT, pc + 8, 0x10);
    EnterMeans(At(s, pc + 4), ABT, pc + 4, 0x0C);
    EnterMeans(At(s, pc), IRQ, pc + 4, 0x18);
  }

  /** An undefined instruction, and a post-indexed transfer with the write-back bit. */
  lemma UndefinedStep(s: Core, pc: word, ins: Instr)
    requires |s.storage| == 31 && Has(TextOf(s), pc, ins) && Holds(ins.cond, s.cpsr)
    requires ins.Undef? || (ins.Transfer? && !ins.pre && ins.writeBack)
    ensures HasEntered(At(s, pc + 4), Step(At(s, pc)), UND, pc + 4, 0x04)
  {
    HasRoom(TextOf(s), pc, ins);
    Exceptions(s, pc);
    hide Step, Has, HasEntered, Undefined, Holds, At, ReadRegister, Wrap, Pow2;
    Fetch(s, pc, ins);
  }

  /** A fetch outside the memory. */
  lemma PrefetchStep(s: Core, pc: word)
    requires |s.storage| == 31 && pc % 4 == 0 && pc + 8 < 0x1_0000_0000 && !InMemory(s.mem, pc)
    ensures HasEntered(At(s, pc + 4), Step(At(s, pc)), ABT, pc + 4, 0x0C)
  {
    Exceptions(s, pc);
    hide HasEntered, PrefetchAbort, Exec, Decode, ReadWord, Wrap, ReadRegister, WriteRegister;
    PcReads(s, pc);
    InRange(pc);
    InRange(pc + 4);
    MoveAt(s, pc, pc + 4);
  }

  lemma HasRoom(text: Text, pc: nat, ins: Instr)
    requires Has(text, pc, ins)
    ensures pc % 4 == 0 && pc + 8 < 0x1_0000_0000
  {
  }

  /** and on a shifted register. */
  lemma AndStep(s: Core, pc: word, ins: Instr)
    requires |s.storage| == 31 && Has(TextOf(s), pc, ins) && ins.And? && Holds(ins.cond, s.cpsr)
    ensures WellFormed(ins) && Step(At(s, pc)) == At(Put(s, ins.rd, AndValue(At(s, pc + 4), ins)), pc + 4)
  {
    hide Step, Slot, WriteRegister, Register, ReadRegister, At, Put, Holds, Decode, ReadWord, AndValue;
    Fetch(s, pc, ins);
    PutAt(s, ins.rd, AndValue(At(s, pc + 4), ins), pc + 4);
  }

  /** mov pc, rm */
  lemma ReturnStep(s: Core, pc: word, r: nat)
    requires |s.storage| == 31 && r < PC && Has(TextOf(s), pc, Data(AL, MOV, false, PC, 0, Reg(r)))
    ensures Step(At(s, pc)) == At(s, Register(s, r))
  {
    Fetch(s, pc, Data(AL, MOV, false, PC, 0, Reg(r)));
    MoveAt(s, pc + 4, Register(s, r));
  }

  /** mrs rd, cpsr and mrs rd, spsr: the register gets the status word, every bit at its place. */
  lemma StatusStep(s: Core, pc: word, rd: nat, saved: bool)
    requires |s.storage| == 31 && rd < PC && Has(TextOf(s), pc, ReadStatus(AL, rd, saved))
    ensures var p := if saved && s.cpsr.mode in s.spsr then s.spsr[s.cpsr.mode] else s.cpsr;
            Step(At(s, pc)) == At(Put(s, rd, StatusWord(p)), pc + 4) && IsStatus(StatusWord(p), p)
  {
    hide Step, Has, Slot, WriteRegister, Register, ReadRegister, At, Put, StatusWord, IsStatus;
    var p := if saved && s.cpsr.mode in s.spsr then s.spsr[s.cpsr.mode] else s.cpsr;
    Fetch(s, pc, ReadStatus(AL, rd, saved));
    PutAt(s, rd, StatusWord(p), pc + 4);
    StatusBits(p);
  }

  /** subs pc, lr, #4: back from an exception, with the status word saved there. */
  lemma ExceptionReturnStep(s: Core, pc: word)
    requires |s.storage| == 31 && Has(TextOf(s), pc, Data(AL, SUB, true, PC, LR, Imm(4)))
    requires HasSpsr(s.cpsr.mode) && s.cpsr.mode in s.spsr && Register(s, LR) >= 4
    ensures Step(At(s, pc)) == At(s.(cpsr := s.spsr[s.cpsr.mode]), Register(s, LR) - 4)
  {
    hide Step, Has, Slot, WriteRegister, Register, ReadRegister, Sub;
    Fetch(s, pc, Data(AL, SUB, true, PC, LR, Imm(4)));
    SubInRange(Register(s, LR), 4);
    MoveAt(s.(cpsr := s.spsr[s.cpsr.mode]), pc + 4, Register(s, LR) - 4);
  }

  lemma BranchStep(s: Core, pc: word, cond: Cond, link: bool, offset: int)
    requires |s.storage| == 31 && Has(TextOf(s), pc, Branch(cond, link, offset)) && 0 <= pc + 8 + 4 * offset < 0x1_0000_0000
    ensures Step(At(s, pc)) ==
              if !Holds(cond, s.cpsr) then At(s, pc + 4)
              else At(if link then Put(s, LR, pc + 4) else s, pc + 8 + 4 * offset)
  {
    hide Step, WellFormed, Slot, WriteRegister, Register, ReadRegister, At, Put, Holds, Wrap, Has;
    Fetch(s, pc, Branch(cond, link, offset));
    PutAt(s, LR, pc + 4, pc + 4);
    MoveAt(if link then Put(s, LR, pc + 4) else s, pc + 4, pc + 8 + 4 * offset);
    InRange(pc + 4);
    InRange(pc + 8 + 4 * offset);
  }

  // ----- transfers

  /** The base register after a transfer, if it is written back. */
  function Moved(s: Core, ins: Instr): word
    requires |s.storage| == 31 && ins.Transfer? && ins.rn < PC && (ins.operand.Reg? ==> ins.operand.r < PC)
  {
    var base := Register(s, ins.rn);
    var offset := match ins.operand case Imm(k) => k case Reg(r) => Wrap(Register(s, r) * Pow2(ins.shift));
    if ins.up then Wrap(base + offset) else Wrap(base - offset)
  }

  function Address(s: Core, ins: Instr): word
    requires |s.storage| == 31 && ins.Transfer? && ins.rn < PC && (ins.operand.Reg? ==> ins.operand.r < PC)
  {
    if ins.pre then Moved(s, ins) else Register(s, ins.rn)
  }

  /** The offset of a transfer from a register is that register shifted left. */
  lemma OffsetIsShifted(s: Core, ins: Instr)
    requires |s.storage| == 31 && ins.Transfer? && ins.rn < PC && ins.shift < 32 && ins.operand.Reg? && ins.operand.r < PC
    ensures var offset := Shifted(s.cpsr.c, Register(s, ins.operand.r), 0, ins.shift);
            Moved(s, ins) == if ins.up then Wrap(Register(s, ins.rn) + offset) else Wrap(Register(s, ins.rn) - offset)
  {
    ShiftFacts(s.cpsr.c, Register(s, ins.operand.r), ins.shift);
    hide Shifted, Pow2, Register, Wrap;
  }

  /** What a transfer does, the program counter apart. */
  function Transferred(s: Core, ins: Instr): (t: Core)
    requires |s.storage| == 31 && ins.Transfer? && ins.rn < PC && ins.rd < PC && (ins.operand.Reg? ==> ins.operand.r < PC)
    requires InMemory(s.mem, Address(s, ins))
    ensures |t.storage| == 31
  {
    var t := if ins.pre && !ins.writeBack then s else Put(s, ins.rn, Moved(s, ins));
    if ins.load then Put(t, ins.rd, ReadWord(s.mem, s.cpsr.e, Address(s, ins)))
    else t.(mem := WriteWord(s.mem, s.cpsr.e, Address(s, ins), Register(t, ins.rd)))
  }

  /** A transfer does not depend on the program counter. */
  lemma TransferAt(s: Core, ins: Instr, pc: word)
    requires |s.storage| == 31 && ins.Transfer? && WellFormed(ins)
    requires ins.rn < PC && ins.rd < PC && (ins.operand.Reg? ==> ins.operand.r < PC) && (ins.pre || !ins.writeBack)
    requires InMemory(s.mem, Address(s, ins))
    ensures ExecTransfer(At(s, pc), ins) == At(Transferred(s, ins), pc)
  {
    hide Slot, WriteRegister, Register, ReadRegister, Wrap, ReadWord, WriteWord, Pow2, DataAbort, Undefined;
    PlainReads(s, pc);
    PutAt(s, ins.rn, Moved(s, ins), pc);
    var t := if ins.pre && !ins.writeBack then s else Put(s, ins.rn, Moved(s, ins));
    PlainReads(t, pc);
    if ins.load {
      PutAt(t, ins.rd, ReadWord(s.mem, s.cpsr.e, Address(s, ins)), pc);
    }
  }

  lemma TransferStep(s: Core, pc: word, ins: Instr)
    requires |s.storage| == 31 && Has(TextOf(s), pc, ins) && ins.Transfer? && ins.cond == AL
    requires ins.rn < PC && ins.rd < PC && (ins.operand.Reg? ==> ins.operand.r < PC) && (ins.pre || !ins.writeBack)
    requires InMemory(s.mem, Address(s, ins))
    ensures Step(At(s, pc)) == At(Transferred(s, ins), pc + 4)
  {
    Fetch(s, pc, ins);
    hide Step, WellFormed, Register, ReadRegister, ExecTransfer, Transferred, At;
    TransferAt(s, ins, pc + 4);
  }

  const ABORT_VECTOR := 0x1010

  /** A transfer that does not fit the memory writes its base register back and aborts. */
  lemma FaultStep(s: Core, pc: word, ins: Instr)
    requires |s.storage| == 31 && Has(TextOf(s), pc, ins) && ins.Transfer? && ins.cond == AL
    requires ins.rn < PC && ins.rd < PC && (ins.operand.Reg? ==> ins.operand.r < PC) && (ins.pre || !ins.writeBack)
    requires !InMemory(s.mem, Address(s, ins))
    ensures Step(At(s, pc)) == DataAbort(At(if ins.pre && !ins.writeBack then s else Put(s, ins.rn, Moved(s, ins)), pc + 4))
    ensures Register(Step(At(s, pc)), PC) == ABORT_VECTOR
  {
    hide Step, Has, WellFormed, Register, ReadRegister, ReadWord, WriteWord, Pow2, Wrap, At, Slot;
    Fetch(s, pc, ins);
    PutAt(s, ins.rn, Moved(s, ins), pc + 4);
    EntersAt(At(if ins.pre && !ins.writeBack then s else Put(s, ins.rn, Moved(s, ins)), pc + 4));
  }

  lemma EntersAt(s: Core)
    requires |s.storage| == 31
    ensures Register(DataAbort(s), PC) == ABORT_VECTOR
  {
  }

  /** The abort links to the instruction after the next one. */
  lemma FaultEntry(s: Core, pc: word, ins: Instr)
    requires |s.storage| == 31 && Has(TextOf(s), pc, ins) && ins.Transfer? && ins.cond == AL
    requires ins.rn < PC && ins.rd < PC && (ins.operand.Reg? ==> ins.operand.r < PC) && (ins.pre || !ins.writeBack)
    requires !InMemory(s.mem, Address(s, ins)) && pc + 8 < 0x1_0000_0000
    ensures HasEntered(At(if ins.pre && !ins.writeBack then s else Put(s, ins.rn, Moved(s, ins)), pc + 4), Step(At(s, pc)), ABT, pc + 8, 0x10)
  {
    hide HasEntered, DataAbort, Step, Has, At, Put, Moved, Address, Register;
    HasRoom(TextOf(s), pc, ins);
    Exceptions(if ins.pre && !ins.writeBack then s else Put(s, ins.rn, Moved(s, ins)), pc);
    FaultStep(s, pc, ins);
  }

  function LoadInstr(rd: nat, rn: nat): Instr {
    Transfer(AL, true, true, true, false, rd, rn, Imm(0), 0)
  }

  function StoreInstr(rd: nat, rn: nat): Instr {
    Transfer(AL, false, true, true, false, rd, rn, Imm(0), 0)
  }

  function LiteralInstr(rd: nat, k: word): Instr {
    Transfer(AL, true, true, true, false, rd, PC, Imm(k), 0)
  }

  /** ldr rd, [pc, #k]: a word of the literal pool. */
  lemma LiteralStep(s: Core, pc: word, rd: nat, k: word)
    requires |s.storage| == 31 && rd < PC && Has(TextOf(s), pc, LiteralInstr(rd, k))
    requires pc + 8 + k < 0x1_0000_0000 && InMemory(s.mem, pc + 8 + k)
    ensures Step(At(s, pc)) == At(Put(s, rd, ReadWord(s.mem, s.cpsr.e, pc + 8 + k)), pc + 4)
  {
    hide Step, Has, Slot, WriteRegister, Register, ReadRegister, Wrap, ReadWord, Pow2, At;
    Fetch(s, pc, LiteralInstr(rd, k));
    PutAt(s, rd, ReadWord(s.mem, s.cpsr.e, pc + 8 + k), pc + 4);
    InRange(pc + 8 + k);
  }

  /** ldr rd, [rn] */
  lemma LoadStep(s: Core, pc: word, rd: nat, rn: nat)
    requires |s.storage| == 31 && rd < PC && rn < PC && Has(TextOf(s), pc, LoadInstr(rd, rn))
    requires InMemory(s.mem, Register(s, rn))
    ensures Step(At(s, pc)) == At(Put(s, rd, ReadWord(s.mem, s.cpsr.e, Register(s, rn))), pc + 4)
  {
    hide Step, Has, At, Put, ReadWord, Register, Wrap;
    InRange(Register(s, rn));
    TransferStep(s, pc, LoadInstr(rd, rn));
  }

  /** str rd, [rn] */
  lemma StoreStep(s: Core, pc: word, rd: nat, rn: nat)
    requires |s.storage| == 31 && rd < PC && rn < PC && Has(TextOf(s), pc, StoreInstr(rd, rn))
    requires InMemory(s.mem, Register(s, rn))
    ensures Step(At(s, pc)) ==
              At(s.(mem := WriteWord(s.mem, s.cpsr.e, Register(s, rn), Register(s, rd))), pc + 4)
  {
    hide Step, Has, At, Put, WriteWord, Register, Wrap;
    InRange(Register(s, rn));
    TransferStep(s, pc, StoreInstr(rd, rn));
  }

  // ----- block transfers

  ghost predicate Listed(list: seq<nat>) {
    && (forall i :: 0 <= i < |list| ==> list[i] < PC)
    && (forall i, j :: 0 <= i < j < |list| ==> list[i] < list[j])
  }

  /** A store of several registers touches nothing but its words. */
  lemma {:induction false} StoreKeeps(s: Core, list: seq<nat>, a: nat)
    requires |s.storage| == 31 && Listed(list) && a + 4 * |list| <= |s.mem| < 0x1_0000_0000
    ensures var t := StoreMany(s, list, a);
            && t == s.(mem := t.mem) && |t.mem| == |s.mem|
            && (forall x :: 0 <= x < |s.mem| && !(a <= x < a + 4 * |list|) ==> t.mem[x] == s.mem[x])
    decreases |list|
  {
    if list != [] {
      var v := ReadRegister(s, list[0]);
      ReadWritten(s.mem, s.cpsr.e, a, v);
      InRange(a + 4);
      StoreKeeps(s.(mem := WriteWord(s.mem, s.cpsr.e, a, v)), list[1..], a + 4);
      hide ReadWord, WriteWord, Slot, ReadRegister;
    }
  }

  /** The registers stored lie in ascending words. */
  lemma {:induction false} StoredWord(s: Core, list: seq<nat>, a: nat, i: nat)
    requires |s.storage| == 31 && Listed(list) && a + 4 * |list| <= |s.mem| < 0x1_0000_0000 && i < |list|
    ensures |StoreMany(s, list, a).mem| == |s.mem|
    ensures ReadWord(StoreMany(s, list, a).mem, s.cpsr.e, a + 4 * i) == Register(s, list[i])
    decreases |list|
  {
    hide ReadWord, WriteWord, Slot, Wrap;
    StoreKeeps(s, list, a);
    var e, v := s.cpsr.e, ReadRegister(s, list[0]);
    var u := s.(mem := WriteWord(s.mem, e, a, v));
    ReadWritten(s.mem, e, a, v);
    InRange(a + 4);
    assert StoreMany(s, list, a) == StoreMany(u, list[1..], a + 4);
    hide StoreMany;
    if i == 0 {
      StoreKeeps(u, list[1..], a + 4);
      ReadSame(u.mem, StoreMany(u, list[1..], a + 4).mem, e, a);
    } else {
      StoredWord(u, list[1..], a + 4, i - 1);
      assert a + 4 + 4 * (i - 1) == a + 4 * i;
    }
  }

  /** A load of several registers changes no other register. */
  lemma {:induction false} LoadKeepsRegister(s: Core, list: seq<nat>, a: nat, q: nat)
    requires |s.storage| == 31 && Listed(list) && a + 4 * |list| <= |s.mem| < 0x1_0000_0000
    requires q < PC && q !in list
    ensures var t := LoadMany(s, list, a);
            t.mem == s.mem && t.cpsr == s.cpsr && t.spsr == s.spsr && Register(t, q) == Register(s, q)
    decreases |list|
  {
    if list != [] {
      var v := ReadWord(s.mem, s.cpsr.e, a);
      InRange(a + 4);
      PutRegisters(s, list[0], v, q);
      LoadKeepsRegister(Put(s, list[0], v), list[1..], a + 4, q);
      hide ReadWord, Slot, Register, Wrap;
    }
  }

  /** The registers loaded come from ascending words. */
  lemma {:induction false} LoadedRegister(s: Core, list: seq<nat>, a: nat, i: nat)
    requires |s.storage| == 31 && Listed(list) && a + 4 * |list| <= |s.mem| < 0x1_0000_0000 && i < |list|
    ensures Register(LoadMany(s, list, a), list[i]) == ReadWord(s.mem, s.cpsr.e, a + 4 * i)
    ensures LoadMany(s, list, a).cpsr == s.cpsr
    decreases |list|
  {
    hide ReadWord, Slot, Register;
    var v := ReadWord(s.mem, s.cpsr.e, a);
    var u := Put(s, list[0], v);
    InRange(a + 4);
    assert LoadMany(s, list, a) == LoadMany(u, list[1..], a + 4);
    hide Wrap, LoadMany, Put;
    PutRegisters(s, list[0], v, list[0]);
    if i == 0 {
      LoadKeepsRegister(u, list[1..], a + 4, list[0]);
    } else {
      LoadedRegister(u, list[1..], a + 4, i - 1);
      assert a + 4 + 4 * (i - 1) == a + 4 * i;
    }
  }

  /** Storage that is not one of the registers loaded keeps its value. */
  lemma {:induction false} LoadKeeps(s: Core, list: seq<nat>, a: nat, k: nat)
    requires |s.storage| == 31 && Listed(list) && a + 4 * |list| <= |s.mem| < 0x1_0000_0000 && k < 31
    requires forall i :: 0 <= i < |list| ==> Slot(s.cpsr.mode, list[i]) != k
    ensures LoadMany(s, list, a).storage[k] == s.storage[k]
    decreases |list|
  {
    if list != [] {
      InRange(a + 4);
      LoadKeeps(Put(s, list[0], ReadWord(s.mem, s.cpsr.e, a)), list[1..], a + 4, k);
    }
  }

  lemma {:induction false} StoreManyAt(s: Core, list: seq<nat>, a: nat, pc: word)
    requires |s.storage| == 31 && Listed(list) && a + 4 * |list| <= |s.mem| < 0x1_0000_0000
    ensures StoreMany(At(s, pc), list, a) == At(StoreMany(s, list, a), pc)
    decreases |list|
  {
    if list != [] {
      PlainReads(s, pc);
      InRange(a + 4);
      hide WriteWord, Slot, Register;
      var u := s.(mem := WriteWord(s.mem, s.cpsr.e, a, ReadRegister(s, list[0])));
      StoreManyAt(u, list[1..], a + 4, pc);
    }
  }

  lemma {:induction false} LoadManyAt(s: Core, list: seq<nat>, a: nat, pc: word)
    requires |s.storage| == 31 && Listed(list) && a + 4 * |list| <= |s.mem| < 0x1_0000_0000
    ensures LoadMany(At(s, pc), list, a) == At(LoadMany(s, list, a), pc)
    decreases |list|
  {
    if list != [] {
      var v := ReadWord(s.mem, s.cpsr.e, a);
      PutAt(s, list[0], v, pc);
      InRange(a + 4);
      hide ReadWord, Slot, Register;
      LoadManyAt(Put(s, list[0], v), list[1..], a + 4, pc);
    }
  }

  function PushInstr(list: seq<nat>): Instr {
    Block(AL, false, false, false, true, SP, list)
  }

  function PopInstr(list: seq<nat>): Instr {
    Block(AL, true, true, true, true, SP, list)
  }

  /** stmda sp!, {list}: a push on a stack that grows down and points at its first free word. */
  function Pushed(s: Core, list: seq<nat>): (t: Core)
    requires |s.storage| == 31 && Listed(list) && 0 < |list| && 4 * |list| <= Register(s, SP)
    ensures |t.storage| == 31 && |t.mem| == |s.mem|
  {
    var low := Register(s, SP) - 4 * |list|;
    StoreMany(Put(s, SP, low), list, low + 4)
  }

  /** ldmib sp!, {list}: the pop that undoes it. */
  function Popped(s: Core, list: seq<nat>): (t: Core)
    requires |s.storage| == 31 && Listed(list) && Register(s, SP) + 4 + 4 * |list| < 0x1_0000_0000
    ensures |t.storage| == 31
  {
    var sp := Register(s, SP);
    LoadMany(Put(s, SP, sp + 4 * |list|), list, sp + 4)
  }

  lemma PushAt(s: Core, list: seq<nat>, pc: word)
    requires |s.storage| == 31 && WellFormed(PushInstr(list)) && Listed(list)
    requires var sp := Register(s, SP); 0 < 4 * |list| <= sp && sp + 4 <= |s.mem| < 0x1_0000_0000
    ensures ExecBlock(At(s, pc), PushInstr(list)) == At(Pushed(s, list), pc)
  {
    var low := Register(s, SP) - 4 * |list|;
    PlainReads(s, pc);
    PutAt(s, SP, low, pc);
    InRange(low);
    InRange(low + 4);
    StoreManyAt(Put(s, SP, low), list, low + 4, pc);
    hide Slot, WriteRegister, Register, ReadRegister, Wrap, StoreMany, At, Put;
  }

  lemma PopAt(s: Core, list: seq<nat>, pc: word)
    requires |s.storage| == 31 && WellFormed(PopInstr(list)) && Listed(list)
    requires Register(s, SP) + 4 + 4 * |list| <= |s.mem| < 0x1_0000_0000
    ensures ExecBlock(At(s, pc), PopInstr(list)) == At(Popped(s, list), pc)
  {
    var sp := Register(s, SP);
    PlainReads(s, pc);
    PutAt(s, SP, sp + 4 * |list|, pc);
    InRange(sp + 4 * |list|);
    InRange(sp + 4);
    LoadManyAt(Put(s, SP, sp + 4 * |list|), list, sp + 4, pc);
    hide Slot, WriteRegister, Register, ReadRegister, Wrap, LoadMany, At, Put;
  }

  lemma PushStep(s: Core, pc: word, list: seq<nat>)
    requires |s.storage| == 31 && Has(TextOf(s), pc, PushInstr(list)) && Listed(list)
    requires var sp := Register(s, SP); 0 < 4 * |list| <= sp && sp + 4 <= |s.mem| < 0x1_0000_0000
    ensures Step(At(s, pc)) == At(Pushed(s, list), pc + 4)
  {
    hide Step, Slot, Register, ReadRegister, Wrap, StoreMany, ExecBlock, Pushed, At, Decode, ReadWord;
    Fetch(s, pc, PushInstr(list));
    PushAt(s, list, pc + 4);
  }

  lemma PopStep(s: Core, pc: word, list: seq<nat>)
    requires |s.storage| == 31 && Has(TextOf(s), pc, PopInstr(list)) && Listed(list)
    requires Register(s, SP) + 4 + 4 * |list| <= |s.mem| < 0x1_0000_0000
    ensures Step(At(s, pc)) == At(Popped(s, list), pc + 4)
  {
    hide Step, Slot, Register, ReadRegister, Wrap, LoadMany, ExecBlock, Popped, At, Decode, ReadWord;
    Fetch(s, pc, PopInstr(list));
    PopAt(s, list, pc + 4);
  }

  /** There is room for a push, and the stack pointer is not pushed itself. */
  ghost predicate CanPush(s: Core, list: seq<nat>) {
    && |s.storage| == 31 && Listed(list) && SP !in list
    && 0 < 4 * |list| <= Register(s, SP) && Register(s, SP) + 4 <= |s.mem| < 0x1_0000_0000
  }

  /** A push moves the stack pointer and writes its words, and does nothing else. */
  lemma PushedKeeps(s: Core, list: seq<nat>)
    requires CanPush(s, list)
    ensures var sp, t := Register(s, SP), Pushed(s, list);
            && t == Put(s, SP, sp - 4 * |list|).(mem := t.mem) && |t.mem| == |s.mem|
            && Register(t, SP) == sp - 4 * |list|
            && (forall x :: 0 <= x < |s.mem| && !(sp + 4 - 4 * |list| <= x < sp + 4) ==> t.mem[x] == s.mem[x])
  {
    var low := Register(s, SP) - 4 * |list|;
    StoreKeeps(Put(s, SP, low), list, low + 4);
  }

  /** v has the stack that the push of list from s left. */
  ghost predicate HasPushed(s: Core, list: seq<nat>, v: Core) {
    && CanPush(s, list) && |v.storage| == 31 && |v.mem| == |s.mem|
    && v.cpsr.mode == s.cpsr.mode && v.cpsr.e == s.cpsr.e
    && Register(v, SP) == Register(s, SP) - 4 * |list|
    && |Pushed(s, list).mem| == |s.mem|
    && forall x :: Register(v, SP) + 4 <= x < Register(s, SP) + 4 ==> v.mem[x] == Pushed(s, list).mem[x]
  }

  lemma PushedWord(s: Core, list: seq<nat>, v: Core, i: nat)
    requires HasPushed(s, list, v) && i < |list|
    ensures ReadWord(v.mem, v.cpsr.e, Register(v, SP) + 4 + 4 * i) == Register(s, list[i])
  {
    hide ReadWord, Slot, Register, StoreMany, Put;
    var low := Register(v, SP);
    StoredWord(Put(s, SP, low), list, low + 4, i);
    PutRegisters(s, SP, low, list[i]);
    ReadSame(Pushed(s, list).mem, v.mem, v.cpsr.e, low + 4 + 4 * i);
  }

  lemma PoppedRegister(s: Core, list: seq<nat>, v: Core, i: nat)
    requires HasPushed(s, list, v) && i < |list|
    ensures Register(Popped(v, list), list[i]) == Register(s, list[i])
  {
    hide ReadWord, LoadMany, Slot;
    PushedWord(s, list, v, i);
    LoadedRegister(Put(v, SP, Register(s, SP)), list, Register(v, SP) + 4, i);
  }

  lemma PoppedStack(s: Core, list: seq<nat>, v: Core)
    requires HasPushed(s, list, v)
    ensures var t := Popped(v, list);
            t.mem == v.mem && t.cpsr == v.cpsr && t.spsr == v.spsr && Register(t, SP) == Register(s, SP)
  {
    var u := Put(v, SP, Register(s, SP));
    PutRegisters(v, SP, Register(s, SP), SP);
    hide ReadWord, LoadMany, Slot, Register;
    LoadKeepsRegister(u, list, Register(v, SP) + 4, SP);
  }

  ghost predicate Among(m: Mode, list: seq<nat>, k: nat)
    requires Listed(list)
  {
    exists i :: 0 <= i < |list| && Slot(m, list[i]) == k
  }

  /** The pop gives the registers pushed their values back, and changes no others. */
  lemma PopRestores(s: Core, list: seq<nat>, v: Core)
    requires HasPushed(s, list, v)
    ensures var t := Popped(v, list);
            && t.mem == v.mem && t.cpsr == v.cpsr && t.spsr == v.spsr
            && Register(t, SP) == Register(s, SP)
            && (forall i :: 0 <= i < |list| ==> Register(t, list[i]) == Register(s, list[i]))
            && (forall k :: 0 <= k < 31 && k != Slot(v.cpsr.mode, SP) && !Among(v.cpsr.mode, list, k) ==>
                 t.storage[k] == v.storage[k])
  {
    hide ReadWord, Register, LoadMany, Slot;
    PoppedStack(s, list, v);
    forall i | 0 <= i < |list|
      ensures Register(Popped(v, list), list[i]) == Register(s, list[i])
    {
      PoppedRegister(s, list, v, i);
    }
    forall k | 0 <= k < 31 && k != Slot(v.cpsr.mode, SP) && !Among(v.cpsr.mode, list, k)
      ensures Popped(v, list).storage[k] == v.storage[k]
    {
      LoadKeeps(Put(v, SP, Register(s, SP)), list, Register(v, SP) + 4, k);
    }
  }
}
