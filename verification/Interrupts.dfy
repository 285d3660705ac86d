/**
 Programs under interrupts: a program that keeps off its free stack passes through the states
 of its uninterrupted run, memory included, whatever requests come between its instructions.
 */
module Interrupts {
  import opened Bytes
  import opened Memory
  import opened Arm
  import opened ArmSteps
  import opened IrqHandler

  // ----- runs under a schedule of requests

  /** One tick of the simulator: perhaps an interrupt request, then an instruction. */
  function Requested(s: Core, irq: bool): (t: Core)
    requires |s.storage| == 31
    ensures |t.storage| == 31
  {
    if irq then Interrupt(s) else s
  }

  function After(s: Core, schedule: seq<bool>): (t: Core)
    requires |s.storage| == 31
    ensures |t.storage| == 31
    decreases |schedule|
  {
    if schedule == [] then s else After(Step(Requested(s, schedule[0])), schedule[1..])
  }

  /** The memory with the free stack, from low up to the word at the stack pointer, blanked out. */
  function Live(low: int, s: Core): (m: seq<byte>)
    requires |s.storage| == 31
  {
    seq(|s.mem|, x requires 0 <= x < |s.mem| => if low <= x < Register(s, SP) + 4 then 0 else s.mem[x])
  }

  /** What a program can see: all registers but those banked for interrupts, the status word, and the memory but its free stack. */
  datatype View = View(registers: seq<word>, status: Psr, memory: seq<byte>)

  function ViewOf(low: int, s: Core): View
    requires |s.storage| == 31
  {
    View(s.storage[..22] + s.storage[24..], s.cpsr, Live(low, s))
  }

  /** The states the program is in when its instructions execute, under a schedule of requests. */
  function Seen(low: int, s: Core, schedule: seq<bool>): (views: seq<View>)
    requires |s.storage| == 31
    ensures |views| <= |schedule|
    decreases |schedule|
  {
    if schedule == [] then []
    else
      var t := Requested(s, schedule[0]);
      (if t.cpsr.mode != IRQ then [ViewOf(low, t)] else []) + Seen(low, Step(t), schedule[1..])
  }

  /** The states of the first n instructions of an uninterrupted run. */
  function Alone(low: int, s: Core, n: nat): (views: seq<View>)
    requires |s.storage| == 31
    ensures |views| == n
    decreases n
  {
    if n == 0 then [] else [ViewOf(low, s)] + Alone(low, Step(s), n - 1)
  }

  // ----- what the program may do

  /** The n bytes at a are off those from low up to high. */
  predicate Off(low: int, high: int, a: int, n: int) {
    a + n <= low || high <= a
  }

  /** The program is between two instructions, and may be interrupted. */
  ghost predicate Boundary(h: nat, low: int, s: Core)
    ensures Boundary(h, low, s) ==> |s.storage| == 31 && Interruptible(s)
  {
    && Interruptible(s) && s.cpsr.mode != IRQ && Register(s, PC) % 4 == 0 && Register(s, PC) + 8 < 0x1_0000_0000
    && Installed(TextOf(s), h) && low + 8 <= Register(s, SP) && Guarded(h, low, Register(s, SP) + 4)
  }

  /** A load or store reads no free stack, and words it takes off the free stack it has stored. */
  ghost predicate TameTransfer(low: int, s: Core, ins: Instr)
    requires |s.storage| == 31
  {
    && ins.Transfer? && ins.cond == AL && ins.rd < PC && ins.rn < PC && (ins.operand.Reg? ==> ins.operand.r < PC)
    && (ins.pre || !ins.writeBack) && InMemory(s.mem, Address(s, ins))
    && var a, sp := Address(s, ins), Register(s, SP);
       && (ins.load ==> ins.rd != SP && Off(low, sp + 4, a, 4))
       && (ins.rn == SP && (!ins.pre || ins.writeBack) ==>
             sp <= Moved(s, ins) || (!ins.load && a <= Moved(s, ins) + 4 && sp <= a))
  }

  /** Instruction ins at pc keeps off the free stack: it reads nothing there and brings no stale word into use. */
  ghost predicate Tame(low: int, s: Core, pc: nat, ins: Instr)
    requires |s.storage| == 31
  {
    match ins
    case Data(cond, op, setFlags, rd, rn, op2) =>
      || (setFlags == (op == CMP) && rd < PC && rd != SP && rn < PC && (op2.Reg? ==> op2.r < PC))
      || (op2.Reg? && op2.r < PC && ins == Data(AL, MOV, false, PC, 0, op2))
    case Transfer(_, _, _, _, _, rd, rn, op2, _) =>
      || TameTransfer(low, s, ins)
      || (rd < SP && op2.Imm? && ins == LiteralInstr(rd, op2.value) && pc + 8 + op2.value < 0x1_0000_0000
          && InMemory(s.mem, pc + 8 + op2.value) && Off(low, Register(s, SP) + 4, pc + 8 + op2.value, 4))
    case Block(_, _, _, _, _, _, list) =>
      || (ins == PushInstr(list) && CanPush(s, list))
      || (ins == PopInstr(list) && Listed(list) && SP !in list && Register(s, SP) + 4 + 4 * |list| <= |s.mem| < 0x1_0000_0000)
    case Branch(_, _, offset) => 0 <= pc + 8 + 4 * offset < 0x1_0000_0000
    case _ => false
  }

  ghost predicate Quiet(h: nat, low: int, s: Core) {
    && Boundary(h, low, s)
    && var pc := Register(s, PC);
       && InMemory(s.mem, pc) && Off(low, Register(s, SP) + 4, pc, 4)
       && Tame(low, s, pc, Decode(ReadWord(s.mem, s.cpsr.e, pc)))
  }

  /** The next n instructions of the uninterrupted run are such ones. */
  ghost predicate QuietFor(h: nat, low: int, s: Core, n: nat)
    decreases n
  {
    Boundary(h, low, s) && (n > 0 ==> Quiet(h, low, s) && QuietFor(h, low, Step(s), n - 1))
  }

  lemma {:induction false} QuietPlus(h: nat, low: int, s: Core, m: nat, n: nat)
    requires |s.storage| == 31 && QuietFor(h, low, s, m) && QuietFor(h, low, Run(s, m), n)
    ensures QuietFor(h, low, s, m + n)
    decreases m
  {
    hide Step, Quiet, Boundary;
    if m > 0 {
      QuietPlus(h, low, Step(s), m - 1, n);
    }
  }

  /** A program's registers are not those banked for interrupts. */
  lemma OwnRegisters(s: Core, r: nat, v: word)
    requires |s.storage| == 31 && s.cpsr.mode != IRQ && r < PC
    ensures var k := Slot(s.cpsr.mode, r);
            && k != 22 && k != 23 && k != PC && Register(s, r) == s.storage[k] && Put(s, r, v) == s.(storage := s.storage[k := v])
            && (r != SP ==> k != Slot(s.cpsr.mode, SP))
  {
    SlotsDiffer(s.cpsr.mode, r, PC);
    if r != SP {
      SlotsDiffer(s.cpsr.mode, r, SP);
    }
  }

  lemma UnseenPut(low: int, s: Core, t: Core, r: nat, v: word, pc: word)
    requires Unseen(low, s, t) && s.cpsr.mode != IRQ && r < PC && r != SP
    ensures Unseen(low, At(Put(s, r, v), pc), At(Put(t, r, v), pc))
  {
    OwnRegisters(s, r, v);
    OwnRegisters(t, r, v);
  }

  lemma UnseenAt(low: int, s: Core, t: Core, pc: word)
    requires Unseen(low, s, t) && s.cpsr.mode != IRQ
    ensures Unseen(low, At(s, pc), At(t, pc))
  {
  }

  lemma UnseenFlags(low: int, s: Core, t: Core, p: Psr, pc: word)
    requires Unseen(low, s, t) && s.cpsr.mode != IRQ && p.mode == s.cpsr.mode
    ensures Unseen(low, At(s.(cpsr := p), pc), At(t.(cpsr := p), pc))
  {
  }

  lemma SameRegister(low: int, s: Core, t: Core, r: nat)
    requires Unseen(low, s, t) && s.cpsr.mode != IRQ && r <= PC
    ensures |t.storage| == 31 && t.cpsr == s.cpsr && |t.mem| == |s.mem| && Register(t, r) == Register(s, r)
  {
  }

  /** What is read off the free stack is the same. */
  lemma SameWord(low: int, s: Core, t: Core, a: nat)
    requires Unseen(low, s, t) && InMemory(s.mem, a) && Off(low, Register(s, SP) + 4, a, 4)
    ensures InMemory(t.mem, a) && ReadWord(t.mem, t.cpsr.e, a) == ReadWord(s.mem, s.cpsr.e, a)
  {
    hide ReadWord;
    ReadSame(s.mem, t.mem, s.cpsr.e, a);
  }

  lemma SameOperands(low: int, s: Core, t: Core, rn: nat, op2: Operand)
    requires Unseen(low, s, t) && s.cpsr.mode != IRQ && rn < PC && (op2.Reg? ==> op2.r < PC)
    ensures |t.storage| == 31 && t.cpsr == s.cpsr
    ensures Register(t, rn) == Register(s, rn) && Plain(t, op2) == Plain(s, op2)
  {
  }

  lemma HasNext(text: Text, pc: nat, ins: Instr)
    requires Has(text, pc, ins)
    ensures pc + 8 < 0x1_0000_0000
  {
  }

  lemma QuietData(low: int, s: Core, t: Core, pc: word, cond: Cond, op: Opcode, rd: nat, rn: nat, op2: Operand)
    requires |s.storage| == |t.storage| == 31 && s.cpsr.mode != IRQ && Unseen(low, s, t)
    requires Has(TextOf(s), pc, Data(cond, op, op == CMP, rd, rn, op2)) && Has(TextOf(t), pc, Data(cond, op, op == CMP, rd, rn, op2))
    requires rd < PC && rd != SP && rn < PC && (op2.Reg? ==> op2.r < PC)
    ensures Unseen(low, Step(At(s, pc)), Step(At(t, pc)))
  {
    hide Step, Has, ReadRegister, Holds, Wrap, Sub, Register, Plain, Unseen, At, Put;
    SameOperands(low, s, t, rn, op2);
    DataStep(s, pc, cond, op, rd, rn, op2);
    DataStep(t, pc, cond, op, rd, rn, op2);
    HasNext(TextOf(s), pc, Data(cond, op, op == CMP, rd, rn, op2));
    var next: word, a: int, b: int := pc + 4, Register(s, rn), Plain(s, op2);
    UnseenAt(low, s, t, next);
    match op
    case CMP => UnseenFlags(low, s, t, SubFlags(s.cpsr, a, b), next);
    case MOV => UnseenPut(low, s, t, rd, b, next);
    case ADD => UnseenPut(low, s, t, rd, Wrap(a + b), next);
    case SUB => UnseenPut(low, s, t, rd, Sub(a, b), next);
  }

  lemma QuietReturn(low: int, s: Core, t: Core, pc: word, r: nat)
    requires |s.storage| == |t.storage| == 31 && s.cpsr.mode != IRQ && Unseen(low, s, t) && r < PC
    requires Has(TextOf(s), pc, Data(AL, MOV, false, PC, 0, Reg(r))) && Has(TextOf(t), pc, Data(AL, MOV, false, PC, 0, Reg(r)))
    ensures Unseen(low, Step(At(s, pc)), Step(At(t, pc)))
  {
    hide Step, Has, Register, Unseen, At;
    ReturnStep(s, pc, r);
    ReturnStep(t, pc, r);
    SameRegister(low, s, t, r);
    UnseenAt(low, s, t, Register(s, r));
  }

  lemma QuietBranch(low: int, s: Core, t: Core, pc: word, cond: Cond, link: bool, offset: int)
    requires |s.storage| == |t.storage| == 31 && s.cpsr.mode != IRQ && Unseen(low, s, t)
    requires Has(TextOf(s), pc, Branch(cond, link, offset)) && Has(TextOf(t), pc, Branch(cond, link, offset))
    requires 0 <= pc + 8 + 4 * offset < 0x1_0000_0000
    ensures Unseen(low, Step(At(s, pc)), Step(At(t, pc)))
  {
    HasNext(TextOf(s), pc, Branch(cond, link, offset));
    var next: word, to: word := pc + 4, pc + 8 + 4 * offset;
    hide Step, Has, Register, Holds, Unseen, At, Put;
    BranchStep(s, pc, cond, link, offset);
    BranchStep(t, pc, cond, link, offset);
    UnseenAt(low, s, t, next);
    UnseenAt(low, s, t, to);
    UnseenPut(low, s, t, LR, next, to);
  }

  lemma QuietLiteral(low: int, s: Core, t: Core, pc: word, rd: nat, k: word)
    requires |s.storage| == |t.storage| == 31 && s.cpsr.mode != IRQ && Unseen(low, s, t) && rd < SP
    requires Has(TextOf(s), pc, LiteralInstr(rd, k)) && Has(TextOf(t), pc, LiteralInstr(rd, k))
    requires pc + 8 + k < 0x1_0000_0000 && InMemory(s.mem, pc + 8 + k) && Off(low, Register(s, SP) + 4, pc + 8 + k, 4)
    ensures Unseen(low, Step(At(s, pc)), Step(At(t, pc)))
  {
    hide Step, Has, Register, Unseen, At, Put, ReadWord, Slot;
    HasNext(TextOf(s), pc, LiteralInstr(rd, k));
    SameWord(low, s, t, pc + 8 + k);
    LiteralStep(s, pc, rd, k);
    LiteralStep(t, pc, rd, k);
    UnseenPut(low, s, t, rd, ReadWord(s.mem, s.cpsr.e, pc + 8 + k), pc + 4);
  }

  /** Writing the same word leaves the same bytes. */
  lemma SameWritten(m: seq<byte>, m': seq<byte>, e: bool, a: nat, v: word)
    requires InMemory(m, a) && |m'| == |m|
    ensures var w, w' := WriteWord(m, e, a, v), WriteWord(m', e, a, v);
            forall x :: 0 <= x < |m| ==> if a <= x < a + 4 then w'[x] == w[x] else w[x] == m[x] && w'[x] == m'[x]
  {
  }

  lemma SameTransfer(low: int, s: Core, t: Core, ins: Instr)
    requires Unseen(low, s, t) && s.cpsr.mode != IRQ && |s.storage| == |t.storage| == 31
    requires ins.Transfer? && ins.rn < PC && (ins.operand.Reg? ==> ins.operand.r < PC)
    ensures Moved(t, ins) == Moved(s, ins) && Address(t, ins) == Address(s, ins) && |t.mem| == |s.mem|
  {
    hide Wrap, Pow2, Register;
    SameRegister(low, s, t, ins.rn);
    if ins.operand.Reg? {
      SameRegister(low, s, t, ins.operand.r);
    }
  }

  lemma UnseenStored(low: int, s: Core, t: Core, ins: Instr)
    requires |s.storage| == |t.storage| == 31 && s.cpsr.mode != IRQ && Unseen(low, s, t) && TameTransfer(low, s, ins) && !ins.load
    requires Moved(t, ins) == Moved(s, ins) && Address(t, ins) == Address(s, ins) && |t.mem| == |s.mem|
    ensures Unseen(low, Transferred(s, ins), Transferred(t, ins))
  {
    hide WriteWord, Moved, Address;
    var v, a := Moved(s, ins), Address(s, ins);
    OwnRegisters(s, ins.rn, v);
    OwnRegisters(t, ins.rn, v);
    var s1 := if ins.pre && !ins.writeBack then s else Put(s, ins.rn, v);
    var t1 := if ins.pre && !ins.writeBack then t else Put(t, ins.rn, v);
    assert Register(t1, ins.rd) == Register(s1, ins.rd);
    SameWritten(s.mem, t.mem, s.cpsr.e, a, Register(s1, ins.rd));
  }

  lemma UnseenLoaded(low: int, s: Core, t: Core, ins: Instr)
    requires |s.storage| == |t.storage| == 31 && s.cpsr.mode != IRQ && Unseen(low, s, t) && TameTransfer(low, s, ins) && ins.load
    requires Moved(t, ins) == Moved(s, ins) && Address(t, ins) == Address(s, ins) && |t.mem| == |s.mem|
    ensures Unseen(low, Transferred(s, ins), Transferred(t, ins))
  {
    hide ReadWord, Moved, Address;
    var v, a := Moved(s, ins), Address(s, ins);
    SameWord(low, s, t, a);
    OwnRegisters(s, ins.rn, v);
    OwnRegisters(t, ins.rn, v);
    var s1 := if ins.pre && !ins.writeBack then s else Put(s, ins.rn, v);
    var t1 := if ins.pre && !ins.writeBack then t else Put(t, ins.rn, v);
    OwnRegisters(s1, ins.rd, ReadWord(s.mem, s.cpsr.e, a));
    OwnRegisters(t1, ins.rd, ReadWord(s.mem, s.cpsr.e, a));
  }

  lemma QuietTransfer(low: int, s: Core, t: Core, pc: word, ins: Instr)
    requires |s.storage| == |t.storage| == 31 && s.cpsr.mode != IRQ && Unseen(low, s, t)
    requires Has(TextOf(s), pc, ins) && Has(TextOf(t), pc, ins) && TameTransfer(low, s, ins)
    ensures Unseen(low, Step(At(s, pc)), Step(At(t, pc)))
  {
    hide Step, Has, Register, Unseen, At, Moved, Transferred, Address, Slot, Decode, ReadWord, WriteWord, Wrap, StoreMany,
      LoadMany, Put, Pow2;
    HasNext(TextOf(s), pc, ins);
    SameTransfer(low, s, t, ins);
    TransferStep(s, pc, ins);
    TransferStep(t, pc, ins);
    if ins.load {
      UnseenLoaded(low, s, t, ins);
    } else {
      UnseenStored(low, s, t, ins);
    }
    TransferredMode(s, ins);
    UnseenAt(low, Transferred(s, ins), Transferred(t, ins), pc + 4);
  }

  lemma TransferredMode(s: Core, ins: Instr)
    requires |s.storage| == 31 && ins.Transfer? && ins.rn < PC && ins.rd < PC && (ins.operand.Reg? ==> ins.operand.r < PC)
    requires InMemory(s.mem, Address(s, ins))
    ensures Transferred(s, ins).cpsr == s.cpsr
  {
  }

  lemma StoreFirst(s: Core, list: seq<nat>, a: nat)
    requires |s.storage| == 31 && Listed(list) && list != [] && a + 4 * |list| <= |s.mem| < 0x1_0000_0000
    ensures StoreMany(s, list, a) == StoreMany(s.(mem := WriteWord(s.mem, s.cpsr.e, a, ReadRegister(s, list[0]))), list[1..], a + 4)
  {
    hide WriteWord, ReadRegister;
    InRange(a + 4);
  }

  /** Registers do not depend on the memory. */
  lemma SameRest(s: Core, t: Core, list: seq<nat>, s1: Core, t1: Core)
    requires |s.storage| == |t.storage| == 31 && Listed(list) && list != []
    requires forall i :: 0 <= i < |list| ==> ReadRegister(t, list[i]) == ReadRegister(s, list[i])
    requires s1 == s.(mem := s1.mem) && t1 == t.(mem := t1.mem)
    ensures forall i :: 0 <= i < |list| - 1 ==> ReadRegister(t1, list[1..][i]) == ReadRegister(s1, list[1..][i])
  {
    forall i | 0 <= i < |list| - 1
      ensures ReadRegister(t1, list[1..][i]) == ReadRegister(s1, list[1..][i])
    {
      assert ReadRegister(t, list[i + 1]) == ReadRegister(s, list[i + 1]);
    }
  }

  /** Storing the same registers leaves the same bytes. */
  lemma {:induction false} SameStored(s: Core, t: Core, list: seq<nat>, a: nat)
    requires |s.storage| == |t.storage| == 31 && Listed(list) && a + 4 * |list| <= |s.mem| == |t.mem| < 0x1_0000_0000
    requires t.cpsr.e == s.cpsr.e && forall i :: 0 <= i < |list| ==> ReadRegister(t, list[i]) == ReadRegister(s, list[i])
    ensures forall x :: a <= x < a + 4 * |list| ==> StoreMany(t, list, a).mem[x] == StoreMany(s, list, a).mem[x]
    decreases |list|
  {
    hide WriteWord, Slot, Register, StoreMany, ReadRegister;
    if list != [] {
      var v, rest := ReadRegister(s, list[0]), list[1..];
      var s1 := s.(mem := WriteWord(s.mem, s.cpsr.e, a, v));
      var t1 := t.(mem := WriteWord(t.mem, t.cpsr.e, a, v));
      StoreFirst(s, list, a);
      StoreFirst(t, list, a);
      SameRest(s, t, list, s1, t1);
      SameWritten(s.mem, t.mem, s.cpsr.e, a, v);
      SameStored(s1, t1, rest, a + 4);
      StoreKeeps(s1, rest, a + 4);
      StoreKeeps(t1, rest, a + 4);
    }
  }

  lemma SameRead(low: int, s: Core, t: Core, list: seq<nat>, sp: word)
    requires |s.storage| == |t.storage| == 31 && s.cpsr.mode != IRQ && Unseen(low, s, t) && Listed(list)
    ensures forall i :: 0 <= i < |list| ==> ReadRegister(Put(t, SP, sp), list[i]) == ReadRegister(Put(s, SP, sp), list[i])
  {
  }

  lemma UnseenPushed(low: int, s: Core, t: Core, list: seq<nat>)
    requires s.cpsr.mode != IRQ && Unseen(low, s, t) && CanPush(s, list) && CanPush(t, list)
    ensures Unseen(low, Pushed(s, list), Pushed(t, list))
  {
    hide StoreMany, ReadRegister;
    var sp := Register(s, SP);
    var below := sp - 4 * |list|;
    SameRead(low, s, t, list, below);
    SameStored(Put(s, SP, below), Put(t, SP, below), list, below + 4);
    PushedKeeps(s, list);
    PushedKeeps(t, list);
    OwnRegisters(s, SP, below);
    OwnRegisters(t, SP, below);
  }

  lemma QuietPush(low: int, s: Core, t: Core, pc: word, list: seq<nat>)
    requires |s.storage| == |t.storage| == 31 && s.cpsr.mode != IRQ && Unseen(low, s, t)
    requires Has(TextOf(s), pc, PushInstr(list)) && Has(TextOf(t), pc, PushInstr(list)) && CanPush(s, list)
    ensures Unseen(low, Step(At(s, pc)), Step(At(t, pc)))
  {
    hide Step, Has, Register, Unseen, At, Pushed, Slot, Decode, ReadWord, WriteWord, Wrap, StoreMany, LoadMany, Put, Pow2;
    HasNext(TextOf(s), pc, PushInstr(list));
    SameRegister(low, s, t, SP);
    PushStep(s, pc, list);
    PushStep(t, pc, list);
    UnseenPushed(low, s, t, list);
    PushedKeeps(s, list);
    UnseenAt(low, Pushed(s, list), Pushed(t, list), pc + 4);
  }

  /** A pop loads the same words into the same registers. */
  lemma SamePopped(low: int, s: Core, t: Core, list: seq<nat>, k: nat)
    requires |s.storage| == |t.storage| == 31 && s.cpsr.mode != IRQ && Unseen(low, s, t)
    requires Listed(list) && SP !in list && Register(s, SP) + 4 + 4 * |list| <= |s.mem| < 0x1_0000_0000
    requires k < 31 && k != 22 && k != 23 && Register(t, SP) == Register(s, SP)
    ensures Popped(t, list).storage[k] == Popped(s, list).storage[k]
  {
    hide LoadMany, ReadWord;
    var sp := Register(s, SP);
    var s1, t1 := Put(s, SP, sp + 4 * |list|), Put(t, SP, sp + 4 * |list|);
    OwnRegisters(s, SP, sp + 4 * |list|);
    OwnRegisters(t, SP, sp + 4 * |list|);
    if exists i :: 0 <= i < |list| && Slot(s.cpsr.mode, list[i]) == k {
      var i :| 0 <= i < |list| && Slot(s.cpsr.mode, list[i]) == k;
      SameWord(low, s, t, sp + 4 + 4 * i);
      LoadedRegister(s1, list, sp + 4, i);
      LoadedRegister(t1, list, sp + 4, i);
      OwnRegisters(LoadMany(s1, list, sp + 4), list[i], 0);
      OwnRegisters(LoadMany(t1, list, sp + 4), list[i], 0);
    } else {
      LoadKeeps(s1, list, sp + 4, k);
      LoadKeeps(t1, list, sp + 4, k);
    }
  }

  lemma UnseenPopped(low: int, s: Core, t: Core, list: seq<nat>)
    requires |s.storage| == |t.storage| == 31 && s.cpsr.mode != IRQ && Unseen(low, s, t)
    requires Listed(list) && SP !in list && Register(s, SP) + 4 + 4 * |list| <= |s.mem| < 0x1_0000_0000
    ensures Register(t, SP) == Register(s, SP) && Unseen(low, Popped(s, list), Popped(t, list)) && Popped(s, list).cpsr == s.cpsr
  {
    hide LoadMany;
    var sp := Register(s, SP);
    var s1, t1 := Put(s, SP, sp + 4 * |list|), Put(t, SP, sp + 4 * |list|);
    OwnRegisters(s, SP, sp + 4 * |list|);
    OwnRegisters(t, SP, sp + 4 * |list|);
    LoadedSame(s1, list, sp + 4);
    LoadedSame(t1, list, sp + 4);
    LoadKeepsRegister(s1, list, sp + 4, SP);
    forall k | 0 <= k < 31 && k != 22 && k != 23
      ensures Popped(t, list).storage[k] == Popped(s, list).storage[k]
    {
      SamePopped(low, s, t, list, k);
    }
  }

  lemma LoadedSame(s: Core, list: seq<nat>, a: nat)
    requires |s.storage| == 31 && Listed(list) && SP !in list && a + 4 * |list| <= |s.mem| < 0x1_0000_0000
    ensures var t := LoadMany(s, list, a); t.mem == s.mem && t.cpsr == s.cpsr && t.spsr == s.spsr
  {
    LoadKeepsRegister(s, list, a, SP);
  }

  lemma QuietPop(low: int, s: Core, t: Core, pc: word, list: seq<nat>)
    requires |s.storage| == |t.storage| == 31 && s.cpsr.mode != IRQ && Unseen(low, s, t)
    requires Has(TextOf(s), pc, PopInstr(list)) && Has(TextOf(t), pc, PopInstr(list))
    requires Listed(list) && SP !in list && Register(s, SP) + 4 + 4 * |list| <= |s.mem| < 0x1_0000_0000
    ensures Unseen(low, Step(At(s, pc)), Step(At(t, pc)))
  {
    hide Step, Has, Register, Unseen, At, Popped, Slot, Decode, ReadWord, WriteWord, Wrap, StoreMany, LoadMany, Put, Pow2;
    HasNext(TextOf(s), pc, PopInstr(list));
    SameRegister(low, s, t, SP);
    UnseenPopped(low, s, t, list);
    PopStep(s, pc, list);
    PopStep(t, pc, list);
    UnseenAt(low, Popped(s, list), Popped(t, list), pc + 4);
  }

  /** Both cores have the same instruction next. */
  lemma SameInstruction(h: nat, low: int, s: Core, t: Core)
    requires Quiet(h, low, s) && Unseen(low, s, t)
    ensures |s.storage| == |t.storage| == 31 && s.cpsr.mode != IRQ && |s.mem| == |t.mem|
    ensures s == At(s, Register(s, PC)) && t == At(t, Register(s, PC))
    ensures var ins := Decode(ReadWord(s.mem, s.cpsr.e, Register(s, PC)));
            && Has(TextOf(s), Register(s, PC), ins) && Has(TextOf(t), Register(s, PC), ins)
            && Tame(low, s, Register(s, PC), ins)
  {
    hide ReadWord, Decode, Installed;
    SameWord(low, s, t, Register(s, PC));
    AtIsHere(s);
    AtIsHere(t);
    SameRegister(low, s, t, PC);
  }

  /** A quiet instruction does the same to two cores that a program cannot tell apart. */
  lemma QuietStep(h: nat, low: int, s: Core, t: Core)
    requires Quiet(h, low, s) && Unseen(low, s, t)
    ensures |s.storage| == |t.storage| == 31 && Unseen(low, Step(s), Step(t))
  {
    SameInstruction(h, low, s, t);
    hide Step, Quiet, Unseen, At, Register, Decode, ReadWord, Has, TameTransfer, Off, CanPush, Listed, InMemory;
    var pc := Register(s, PC);
    var ins := Decode(ReadWord(s.mem, s.cpsr.e, pc));
    match ins {
      case Data(cond, op, _, rd, rn, op2) =>
        if rd == PC {
          QuietReturn(low, s, t, pc, op2.r);
        } else {
          QuietData(low, s, t, pc, cond, op, rd, rn, op2);
        }
      case Branch(cond, link, offset) => QuietBranch(low, s, t, pc, cond, link, offset);
      case Transfer(_, _, _, _, _, rd, _, op2, _) =>
        if TameTransfer(low, s, ins) {
          QuietTransfer(low, s, t, pc, ins);
        } else {
          QuietLiteral(low, s, t, pc, rd, op2.value);
        }
      case Block(_, load, _, _, _, _, list) =>
        if load {
          QuietPop(low, s, t, pc, list);
        } else {
          QuietPush(low, s, t, pc, list);
        }
      case _ =>
    }
  }

  // ----- whole runs

  /** Instructions that run hidden are not seen, nor interrupted. */
  lemma {:induction false} HiddenIsNotSeen(low: int, t: Core, schedule: seq<bool>, k: nat)
    requires |t.storage| == 31 && Hidden(t, k)
    ensures |schedule| < k ==> Seen(low, t, schedule) == [] && After(t, schedule).cpsr.mode == IRQ
    ensures k <= |schedule| ==>
              && Seen(low, t, schedule) == Seen(low, Run(t, k), schedule[k..])
              && After(t, schedule) == After(Run(t, k), schedule[k..])
    decreases k
  {
    hide Step, ViewOf;
    if k == 0 {
      assert schedule[0..] == schedule;
    } else if schedule != [] {
      HiddenIsNotSeen(low, Step(t), schedule[1..], k - 1);
      if k <= |schedule| {
        assert schedule[1..][k - 1..] == schedule[k..];
      }
    }
  }

  function Requests(schedule: seq<bool>): nat {
    if schedule == [] then 0 else (if schedule[0] then 1 else 0) + Requests(schedule[1..])
  }

  lemma {:induction false} RequestsDrop(schedule: seq<bool>, k: nat)
    requires k <= |schedule|
    ensures Requests(schedule[k..]) <= Requests(schedule)
    decreases k
  {
    if k == 0 {
      assert schedule[0..] == schedule;
    } else {
      RequestsDrop(schedule[1..], k - 1);
      assert schedule[1..][k - 1..] == schedule[k..];
    }
  }

  /** t behaves under the schedule as s does alone, and no request costs it more than nine instructions. */
  ghost predicate Follows(low: int, s: Core, t: Core, schedule: seq<bool>)
    requires |s.storage| == |t.storage| == 31
  {
    var n, u := |Seen(low, t, schedule)|, After(t, schedule);
    && Seen(low, t, schedule) == Alone(low, s, n) && (u.cpsr.mode == IRQ || Unseen(low, Run(s, n), u))
    && |schedule| <= n + 9 * Requests(schedule)
  }

  lemma FollowsNow(low: int, s: Core, t: Core)
    requires Unseen(low, s, t)
    ensures Follows(low, s, t, [])
  {
  }

  lemma UnseenTwice(low: int, s: Core, t: Core, u: Core)
    requires Unseen(low, s, t) && s.cpsr.mode != IRQ && low + 8 <= Register(s, SP) && Unseen(Register(t, SP) - 8, t, u)
    ensures Unseen(low, s, u)
  {
  }

  /** The view of the other core is the same. */
  lemma SameView(low: int, s: Core, t: Core)
    requires Unseen(low, s, t) && s.cpsr.mode != IRQ
    ensures |s.storage| == |t.storage| == 31 && ViewOf(low, t) == ViewOf(low, s)
  {
    SameRegister(low, s, t, SP);
    assert t.storage[..22] == s.storage[..22] && t.storage[24..] == s.storage[24..];
    hide Register;
    assert Live(low, t) == Live(low, s);
  }

  /** The other core can be interrupted too. */
  lemma SameBoundary(h: nat, low: int, s: Core, t: Core)
    requires Boundary(h, low, s) && Unseen(low, s, t)
    ensures |t.storage| == 31 && t.cpsr == s.cpsr && Interruptible(t) && Installed(TextOf(t), h)
    ensures t == At(t, Register(s, PC)) && Register(t, SP) == Register(s, SP)
  {
    SameRegister(low, s, t, SP);
    SameRegister(low, s, t, PC);
    AtIsHere(t);
    hide Installed;
    InstalledKept(TextOf(s), TextOf(t), h, low, Register(s, SP) + 4);
  }

  lemma InterruptReturns(h: nat, low: int, s: Core, t: Core)
    requires Boundary(h, low, s) && Unseen(low, s, t)
    ensures |t.storage| == 31 && !t.cpsr.i && Hidden(Interrupt(t), 9) && Unseen(low, s, Run(Interrupt(t), 9))
  {
    SameBoundary(h, low, s, t);
    var pc := Register(s, PC);
    hide Hidden, Step, Interrupt, Run, Installed, At, Register, Unseen;
    HandlerReturns(h, t, pc);
    UnseenTwice(low, s, t, Run(Interrupt(t), 9));
  }

  /** A request that is taken changes nothing about the schedule: the next one is ignored. */
  lemma EnteredFirst(low: int, t: Core, schedule: seq<bool>)
    requires |t.storage| == 31 && schedule != [] && schedule[0] && !t.cpsr.i
    ensures Seen(low, t, schedule) == Seen(low, Interrupt(t), schedule)
    ensures After(t, schedule) == After(Interrupt(t), schedule)
  {
    var e := Interrupt(t);
    assert e.cpsr.i && Interrupt(e) == e;
    hide Interrupt, Step, ViewOf;
  }

  lemma FollowsInterrupted(low: int, s: Core, t: Core, schedule: seq<bool>)
    requires |s.storage| == |t.storage| == 31 && schedule != [] && schedule[0] && !t.cpsr.i
    requires Hidden(Interrupt(t), 9)
    requires 9 <= |schedule| ==> Follows(low, s, Run(Interrupt(t), 9), schedule[9..])
    ensures Follows(low, s, t, schedule)
  {
    hide Interrupt, Step, Hidden, Run, ViewOf, Unseen, Seen, After;
    EnteredFirst(low, t, schedule);
    HiddenIsNotSeen(low, Interrupt(t), schedule, 9);
    if 9 <= |schedule| {
      RequestsDrop(schedule[1..], 8);
      assert schedule[1..][8..] == schedule[9..];
    }
  }

  /** What is seen from an interrupt on is what is seen after its handler. */
  lemma SeenInterrupted(low: int, t: Core, schedule: seq<bool>)
    requires |t.storage| == 31 && schedule != [] && schedule[0] && !t.cpsr.i
    requires Hidden(Interrupt(t), 9)
    ensures 9 <= |schedule| ==> Seen(low, t, schedule) == Seen(low, Run(Interrupt(t), 9), schedule[9..])
  {
    hide Interrupt, Step, Hidden, Run, ViewOf, Seen, After;
    EnteredFirst(low, t, schedule);
    HiddenIsNotSeen(low, Interrupt(t), schedule, 9);
  }

  lemma SeenStep(low: int, t: Core, schedule: seq<bool>)
    requires |t.storage| == 31 && schedule != [] && !schedule[0] && t.cpsr.mode != IRQ
    ensures |Seen(low, t, schedule)| == 1 + |Seen(low, Step(t), schedule[1..])|
  {
    hide Step, ViewOf;
  }

  lemma FollowsStep(low: int, s: Core, t: Core, schedule: seq<bool>)
    requires |s.storage| == |t.storage| == 31 && schedule != [] && !schedule[0]
    requires ViewOf(low, t) == ViewOf(low, s) && t.cpsr.mode != IRQ
    requires Follows(low, Step(s), Step(t), schedule[1..])
    ensures Follows(low, s, t, schedule)
  {
    hide Step, Unseen, ViewOf;
    var views := Seen(low, Step(t), schedule[1..]);
    assert Seen(low, t, schedule) == [ViewOf(low, t)] + views;
    assert Alone(low, s, 1 + |views|) == [ViewOf(low, s)] + Alone(low, Step(s), |views|);
  }

  /**
   Under every schedule of interrupt requests a program that keeps off its free stack passes
   through exactly the states of its uninterrupted run, registers and memory, held up for nine
   instructions at most by a request.
   */
  lemma {:induction false} Transparent(h: nat, low: int, s: Core, t: Core, schedule: seq<bool>)
    requires Boundary(h, low, s) && Unseen(low, s, t) && |s.storage| == |t.storage| == 31
    requires QuietFor(h, low, s, |Seen(low, t, schedule)|)
    ensures Follows(low, s, t, schedule)
    decreases |schedule|
  {
    SameBoundary(h, low, s, t);
    hide Hidden, Step, Interrupt, Run, Boundary, Follows, Unseen, Quiet, Register, Seen, ViewOf, At, Installed, Interruptible;
    if schedule == [] {
      FollowsNow(low, s, t);
    } else if schedule[0] {
      InterruptReturns(h, low, s, t);
      SeenInterrupted(low, t, schedule);
      if 9 <= |schedule| {
        Transparent(h, low, s, Run(Interrupt(t), 9), schedule[9..]);
      }
      FollowsInterrupted(low, s, t, schedule);
    } else {
      OwnMode(h, low, s);
      SeenStep(low, t, schedule);
      QuietStep(h, low, s, t);
      SameView(low, s, t);
      Transparent(h, low, Step(s), Step(t), schedule[1..]);
      FollowsStep(low, s, t, schedule);
    }
  }

  lemma OwnMode(h: nat, low: int, s: Core)
    requires Boundary(h, low, s)
    ensures s.cpsr.mode != IRQ
  {
  }
}
