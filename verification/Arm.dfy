/**
 The processor as the simulator executes it: banked registers, status words, memory, and
 steps that fetch a word from the memory, decode and execute it, for the instructions the
 example programs use, and for one that they come to execute when their stack has overwritten
 them. Operands are unrotated immediates or registers, shifted for that one and for addressing.
 */
module Arm {
  import opened Bytes
  import opened Memory

  const SP := 13
  const LR := 14
  const PC := 15

  datatype Mode = USR | FIQ | IRQ | SVC | ABT | UND | SYS

  /** cpsr or spsr: condition flags, byte order, interrupt masks, state and mode. */
  datatype Psr = Psr(n: bool, z: bool, c: bool, v: bool, e: bool, i: bool, f: bool, t: bool, mode: Mode)

  /** registers_storage, the saved status words, the status word, and the memory. */
  datatype Core = Core(storage: seq<word>, spsr: map<Mode, Psr>, cpsr: Psr, mem: seq<byte>)

  /** Which register storage a mode's register is. */
  function Slot(m: Mode, r: nat): (k: nat)
    requires r < 16
    ensures k < 31
  {
    match m
    case SVC => if r == SP then 16 else if r == LR then 17 else r
    case ABT => if r == SP then 18 else if r == LR then 19 else r
    case UND => if r == SP then 20 else if r == LR then 21 else r
    case IRQ => if r == SP then 22 else if r == LR then 23 else r
    case FIQ => if 8 <= r < 15 then r + 16 else r
    case _ => r
  }

  /** Two registers of one mode are never the same storage. */
  lemma SlotsDiffer(m: Mode, r: nat, q: nat)
    requires r < 16 && q < 16 && r != q
    ensures Slot(m, r) != Slot(m, q)
  {
  }

  /** All a program needs to know of where its registers are. */
  lemma Slots(m: Mode)
    ensures Slot(m, PC) == PC && (forall r :: 0 <= r < 8 ==> Slot(m, r) == r)
    ensures 8 <= Slot(m, SP) && 8 <= Slot(m, LR)
    ensures Slot(m, SP) != PC && Slot(m, LR) != PC && Slot(m, SP) != Slot(m, LR)
  {
  }

  function Register(s: Core, r: nat): word
    requires r < 16 && |s.storage| == 31
  {
    s.storage[Slot(s.cpsr.mode, r)]
  }

  /** arm_read_register: the program counter reads as the address after the next instruction. */
  function ReadRegister(s: Core, r: nat): word
    requires r < 16 && |s.storage| == 31
  {
    var value := Register(s, r);
    if r == PC then
      var ahead := Wrap(value + 4);
      if ahead / 2 % 2 == 1 then ahead - 2 else ahead
    else value
  }

  /** arm_write_register */
  function WriteRegister(s: Core, r: nat, value: word): (t: Core)
    requires r < 16 && |s.storage| == 31
    ensures |t.storage| == 31 && t.cpsr == s.cpsr && t.mem == s.mem && t.spsr == s.spsr
  {
    s.(storage := s.storage[Slot(s.cpsr.mode, r) := value])
  }

  // ----- conditions and flags

  datatype Cond = EQ | NE | CS | CC | MI | PL | VS | VC | HI | LS | GE | LT | GT | LE | AL

  /** instruction_check_condition */
  predicate Holds(cond: Cond, p: Psr) {
    match cond
    case EQ => p.z
    case NE => !p.z
    case CS => p.c
    case CC => !p.c
    case MI => p.n
    case PL => !p.n
    case VS => p.v
    case VC => !p.v
    case HI => p.c && !p.z
    case LS => !p.c || p.z
    case GE => p.n == p.v
    case LT => p.n != p.v
    case GT => !p.z && p.n == p.v
    case LE => p.z || p.n != p.v
    case AL => true
  }

  function Bit31(w: word): bool {
    w >= 0x8000_0000
  }

  function Sub(a: word, b: word): word {
    Wrap(a - b)
  }

  /** update_nzcv as cmp and subs call it. */
  function SubFlags(p: Psr, a: word, b: word): (q: Psr)
    ensures q == p.(n := q.n, z := q.z, c := q.c, v := q.v)
  {
    var res := Sub(a, b);
    p.(n := Bit31(res), z := res == 0, c := a >= b,
       v := Bit31(a) != Bit31(b) && Bit31(a) != Bit31(res))
  }

  /** A word as a signed number. */
  function Signed(w: word): int {
    if Bit31(w) then w - 0x1_0000_0000 else w
  }

  /** After a comparison the conditions order its operands, unsigned and signed. */
  lemma CompareMeans(p: Psr, a: word, b: word)
    ensures var q := SubFlags(p, a, b);
            && (Holds(EQ, q) <==> a == b) && (Holds(NE, q) <==> a != b)
            && (Holds(CS, q) <==> a >= b) && (Holds(CC, q) <==> a < b)
            && (Holds(HI, q) <==> a > b) && (Holds(LS, q) <==> a <= b)
            && (Holds(GE, q) <==> Signed(a) >= Signed(b)) && (Holds(LT, q) <==> Signed(a) < Signed(b))
            && (Holds(GT, q) <==> Signed(a) > Signed(b)) && (Holds(LE, q) <==> Signed(a) <= Signed(b))
            && (Holds(MI, q) <==> Signed(Sub(a, b)) < 0) && (Holds(PL, q) <==> Signed(Sub(a, b)) >= 0)
            && (Holds(VC, q) <==> Signed(Sub(a, b)) == Signed(a) - Signed(b))
            && (Holds(VS, q) <==> Signed(Sub(a, b)) != Signed(a) - Signed(b))
  {
  }

  // ----- exceptions

  predicate HasSpsr(m: Mode) {
    m != USR && m != SYS
  }

  /** CP15_reg1_EEbit, as it is with BIG_ENDIAN_SIMULATOR defined. */
  const EE_BIT := true

  /**
   The handlers of arm_exception.c: enter the mode with interrupts masked, in ARM state and
   the byte order of exceptions, with the stack pointer of the interrupted mode, and go to
   the vector.
   */
  function Enter(s: Core, mode: Mode, link: word, vector: nat): (t: Core)
    requires |s.storage| == 31 && vector < 0x20
    ensures |t.storage| == 31 && t.mem == s.mem
  {
    var sp := ReadRegister(s, SP);
    var t := s.(cpsr := s.cpsr.(mode := mode, t := false, i := true, e := EE_BIT));
    var u := WriteRegister(WriteRegister(t, LR, link), SP, sp);
    WriteRegister(u.(spsr := u.spsr[mode := s.cpsr]), PC, 0x1000 + vector)
  }

  /** handle_irq: ignored while masked; the link register is two instructions ahead. */
  function Interrupt(s: Core): (t: Core)
    requires |s.storage| == 31
    ensures |t.storage| == 31
  {
    if s.cpsr.i then s
    else Enter(s, IRQ, Wrap(Wrap(ReadRegister(s, PC) - 4) + 4), 0x18)
  }

  function DataAbort(s: Core): (t: Core)
    requires |s.storage| == 31
    ensures |t.storage| == 31 && t.mem == s.mem
  {
    Enter(s, ABT, Wrap(Wrap(ReadRegister(s, PC) - 8) + 8), 0x10)
  }

  function PrefetchAbort(s: Core): (t: Core)
    requires |s.storage| == 31
    ensures |t.storage| == 31 && t.mem == s.mem
  {
    Enter(s, ABT, Wrap(Wrap(ReadRegister(s, PC) - 8) + 4), 0x0C)
  }

  function Undefined(s: Core): (t: Core)
    requires |s.storage| == 31
    ensures |t.storage| == 31 && t.mem == s.mem
  {
    Enter(s, UND, Wrap(ReadRegister(s, PC) - 4), 0x04)
  }

  /** A mode gets its stack pointer. */
  function Stacked(s: Core, mode: Mode, sp: word): (t: Core)
    requires |s.storage| == 31
    ensures |t.storage| == 31
  {
    WriteRegister(s.(cpsr := s.cpsr.(mode := mode)), SP, sp)
  }

  /** handle_reset: interrupts enabled, a stack for every mode in turn, and the supervisor mode at the reset vector. */
  function Reset(s: Core): (t: Core)
    requires |s.storage| == 31
    ensures |t.storage| == 31
  {
    var s0 := s.(cpsr := s.cpsr.(f := false, i := false, e := EE_BIT));
    var s1 := Stacked(Stacked(Stacked(s0, USR, 0x10000), FIQ, 0x10100), IRQ, 0x10200);
    var s2 := Stacked(Stacked(s1, SVC, 0x10300), ABT, 0x10400);
    var s3 := Stacked(Stacked(s2, UND, 0x10500), SYS, 0x10600);
    WriteRegister(s3.(cpsr := s3.cpsr.(mode := SVC)), PC, 0x1000)
  }

  /** What the stack pointers are after a reset: the user mode shares that of the system mode, which comes last. */
  function StackAfterReset(m: Mode): word {
    match m
    case FIQ => 0x10100 case IRQ => 0x10200 case SVC => 0x10300 case ABT => 0x10400 case UND => 0x10500
    case _ => 0x10600
  }

  lemma ResetStacks(s: Core, m: Mode)
    requires |s.storage| == 31
    ensures var t := Reset(s);
            && t.cpsr == s.cpsr.(f := false, i := false, e := EE_BIT, mode := SVC) && t.mem == s.mem && t.storage[PC] == 0x1000
            && t.storage[Slot(m, SP)] == StackAfterReset(m)
            && forall k :: 0 <= k < 31 && k !in {13, 15, 16, 18, 20, 22, 29} ==> t.storage[k] == s.storage[k]
  {
  }

  // ----- instructions

  datatype Operand = Imm(value: word) | Reg(r: nat)

  datatype Opcode = MOV | ADD | SUB | CMP

  datatype Instr =
    | Data(cond: Cond, op: Opcode, setFlags: bool, rd: nat, rn: nat, operand: Operand)
    | Transfer(cond: Cond, load: bool, pre: bool, up: bool, writeBack: bool, rd: nat, rn: nat, operand: Operand, shift: nat)
    | Block(cond: Cond, load: bool, before: bool, up: bool, writeBack: bool, rn: nat, list: seq<nat>)
    | Branch(cond: Cond, link: bool, offset: int)
    | And(cond: Cond, rd: nat, rn: nat, rm: nat, code: nat, amount: nat)
    | ReadStatus(cond: Cond, rd: nat, saved: bool)
    | Undef(cond: Cond)
    | Other(cond: Cond)

  /** Registers exist, the list of a block transfer ascends and leaves the program counter out. */
  predicate WellFormed(ins: Instr) {
    match ins
    case Data(_, _, _, rd, rn, op2) => rd < 16 && rn < 16 && (op2.Reg? ==> op2.r < 16)
    case Transfer(_, _, _, _, _, rd, rn, op2, shift) => rd < 15 && rn < 16 && (op2.Reg? ==> op2.r < 16) && shift < 32
    case Block(_, _, _, _, _, rn, list) =>
      rn < 15 && |list| <= 15 && (forall i :: 0 <= i < |list| ==> list[i] < 15)
      && (forall i, j :: 0 <= i < j < |list| ==> list[i] < list[j])
    case Branch(_, _, _) => true
    case And(_, rd, rn, rm, code, amount) => rd < 15 && rn < 16 && rm < 16 && code < 4 && amount < 32
    case ReadStatus(_, rd, _) => rd < 15
    case Undef(_) => true
    case Other(_) => true
  }

  function Value(s: Core, op2: Operand): word
    requires |s.storage| == 31 && (op2.Reg? ==> op2.r < 16)
  {
    match op2 case Imm(value) => value case Reg(r) => ReadRegister(s, r)
  }

  /** cpsr := spsr, as a flag-setting write of the program counter does it. */
  function RestoreStatus(s: Core): (t: Core)
    ensures t.storage == s.storage && t.mem == s.mem && t.spsr == s.spsr
  {
    if HasSpsr(s.cpsr.mode) && s.cpsr.mode in s.spsr then s.(cpsr := s.spsr[s.cpsr.mode]) else s
  }

  function AddFlags(p: Psr, a: word, b: word): (q: Psr)
    ensures q == p.(n := q.n, z := q.z, c := q.c, v := q.v)
  {
    var res := Wrap(a + b);
    p.(n := Bit31(res), z := res == 0, c := a + b > 0xFFFF_FFFF,
       v := Bit31(a) == Bit31(b) && Bit31(a) != Bit31(res))
  }

  /** mov, add, sub and cmp of arm_data_processing.c */
  function ExecData(s: Core, op: Opcode, setFlags: bool, rd: nat, a: word, b: word): (t: Core)
    requires |s.storage| == 31 && rd < 16
    ensures |t.storage| == 31
  {
    if op == CMP then s.(cpsr := SubFlags(s.cpsr, a, b))
    else
      var res := match op case MOV => b case ADD => Wrap(a + b) case _ => Sub(a, b);
      var t :=
        if !setFlags then s
        else if rd == PC then RestoreStatus(s)
        else match op
          case MOV => s.(cpsr := s.cpsr.(n := Bit31(res), z := res == 0))
          case ADD => s.(cpsr := AddFlags(s.cpsr, a, b))
          case _ => s.(cpsr := SubFlags(s.cpsr, a, b));
      WriteRegister(t, rd, res)
  }

  function Pow2(k: nat): (p: nat)
    ensures p > 0
  {
    if k == 0 then 1 else 2 * Pow2(k - 1)
  }

  /** The bits that both have. */
  function BitAnd(a: nat, b: nat): (r: nat)
    ensures r <= a
  {
    if a == 0 then 0 else (if a % 2 == 1 && b % 2 == 1 then 1 else 0) + 2 * BitAnd(a / 2, b / 2)
  }

  /** get_shifted by an amount in the instruction: lsl, lsr, asr, and ror, which by 0 is rrx; the others do nothing by 0. */
  function Shifted(carry: bool, x: word, code: nat, amount: nat): word
    requires amount < 32
  {
    if amount == 0 then (if code == 3 then Bit(carry, 0x8000_0000) + x / 2 else x)
    else match code
      case 0 => Wrap(x * Pow2(amount))
      case 1 => Wrap(x / Pow2(amount))
      case 2 => Wrap(x / Pow2(amount) - (if Bit31(x) then Pow2(32 - amount) else 0))
      case _ => Wrap(x / Pow2(amount) + x % Pow2(amount) * Pow2(32 - amount))
  }

  /** What and computes. */
  function AndValue(s: Core, ins: Instr): word
    requires |s.storage| == 31 && ins.And? && WellFormed(ins)
  {
    BitAnd(ReadRegister(s, ins.rn), Shifted(s.cpsr.c, ReadRegister(s, ins.rm), ins.code, ins.amount))
  }

  /** ldr and str: the base register is written back before the transfer. */
  function ExecTransfer(s: Core, ins: Instr): (t: Core)
    requires |s.storage| == 31 && ins.Transfer? && WellFormed(ins)
    ensures |t.storage| == 31
  {
    var base := ReadRegister(s, ins.rn);
    var offset := match ins.operand case Imm(k) => k case Reg(_) => Wrap(Value(s, ins.operand) * Pow2(ins.shift));
    var moved := if ins.up then Wrap(base + offset) else Wrap(base - offset);
    if !ins.pre && ins.writeBack then Undefined(s)
    else
      var address := if ins.pre then moved else base;
      var t := if ins.pre && !ins.writeBack then s else WriteRegister(s, ins.rn, moved);
      if !InMemory(t.mem, address) then DataAbort(t)
      else if ins.load then WriteRegister(t, ins.rd, ReadWord(t.mem, t.cpsr.e, address))
      else t.(mem := WriteWord(t.mem, t.cpsr.e, address, ReadRegister(t, ins.rd)))
  }

  /** The loop of ldm1: registers from ascending addresses, up to an access that fails. */
  function LoadMany(s: Core, list: seq<nat>, address: word): (t: Core)
    requires |s.storage| == 31 && forall i :: 0 <= i < |list| ==> list[i] < 15
    ensures |t.storage| == 31
    decreases |list|
  {
    if list == [] then s
    else if !InMemory(s.mem, address) then DataAbort(s)
    else
      var t := WriteRegister(s, list[0], ReadWord(s.mem, s.cpsr.e, address));
      LoadMany(t, list[1..], Wrap(address + 4))
  }

  /** The loop of stm1. */
  function StoreMany(s: Core, list: seq<nat>, address: word): (t: Core)
    requires |s.storage| == 31 && forall i :: 0 <= i < |list| ==> list[i] < 15
    ensures |t.storage| == 31 && |t.mem| == |s.mem|
    decreases |list|
  {
    if list == [] then s
    else if !InMemory(s.mem, address) then DataAbort(s)
    else
      var t := s.(mem := WriteWord(s.mem, s.cpsr.e, address, ReadRegister(s, list[0])));
      StoreMany(t, list[1..], Wrap(address + 4))
  }

  /** ldm and stm: the base register is written back before the transfers. */
  function ExecBlock(s: Core, ins: Instr): (t: Core)
    requires |s.storage| == 31 && ins.Block? && WellFormed(ins)
    ensures |t.storage| == 31
  {
    var base, size := ReadRegister(s, ins.rn), 4 * |ins.list|;
    var start :=
      if ins.up then (if ins.before then Wrap(base + 4) else base)
      else if ins.before then Wrap(base - size) else Wrap(base - size + 4);
    var moved := if ins.up then Wrap(base + size) else Wrap(base - size);
    var t := if ins.writeBack then WriteRegister(s, ins.rn, moved) else s;
    if ins.load then LoadMany(t, ins.list, start) else StoreMany(t, ins.list, start)
  }

  function ModeNumber(m: Mode): nat {
    match m case USR => 0x10 case FIQ => 0x11 case IRQ => 0x12 case SVC => 0x13 case ABT => 0x17
    case UND => 0x1B case SYS => 0x1F
  }

  function Bit(b: bool, weight: nat): nat {
    if b then weight else 0
  }

  /** A status word as mrs delivers it. */
  function StatusWord(p: Psr): word {
    Bit(p.n, 0x8000_0000) + Bit(p.z, 0x4000_0000) + Bit(p.c, 0x2000_0000) + Bit(p.v, 0x1000_0000)
    + Bit(p.e, 0x200) + Bit(p.i, 0x80) + Bit(p.f, 0x40) + Bit(p.t, 0x20) + ModeNumber(p.mode)
  }

  /** The handlers of the instructions modelled. */
  function Exec(s: Core, ins: Instr): (t: Core)
    requires |s.storage| == 31 && WellFormed(ins) && !ins.Other?
    ensures |t.storage| == 31
  {
    match ins
    case Data(_, op, setFlags, rd, rn, op2) =>
      ExecData(s, op, setFlags, rd, if op == MOV then 0 else ReadRegister(s, rn), Value(s, op2))
    case Transfer(_, _, _, _, _, _, _, _, _) => ExecTransfer(s, ins)
    case Block(_, _, _, _, _, _, _) => ExecBlock(s, ins)
    case Branch(_, link, offset) =>
      var pc := ReadRegister(s, PC);
      var t := if link then WriteRegister(s, LR, Wrap(pc - 4)) else s;
      WriteRegister(t, PC, Wrap(pc + 4 * offset))
    case And(_, rd, _, _, _, _) => WriteRegister(s, rd, AndValue(s, ins))
    case ReadStatus(_, rd, saved) =>
      var p := if saved && s.cpsr.mode in s.spsr then s.spsr[s.cpsr.mode] else s.cpsr;
      WriteRegister(s, rd, StatusWord(p))
    case Undef(_) => Undefined(s)
  }

  // ----- encodings

  /** The fields of an instruction word: bits 31-28, 27-25, 24-21, 20, 19-16, 15-12 and 11-0. */
  datatype Fields = Fields(cond: nat, class_: nat, op: nat, s: nat, rn: nat, rd: nat, low: nat)

  predicate AreFields(f: Fields) {
    f.cond < 16 && f.class_ < 8 && f.op < 16 && f.s < 2 && f.rn < 16 && f.rd < 16 && f.low < 0x1000
  }

  function Split(w: word): (f: Fields)
    ensures AreFields(f)
  {
    var upper := w / 0x1000;
    var top := upper / 16 / 16 / 2;
    Fields(top / 16 / 8, top / 16 % 8, top % 16, upper / 16 / 16 % 2, upper / 16 % 16, upper % 16, w % 0x1000)
  }

  /** The condition field, 15 apart. */
  function CondOf(k: nat): Cond {
    match k
    case 0 => EQ
    case 1 => NE
    case 2 => CS
    case 3 => CC
    case 4 => MI
    case 5 => PL
    case 6 => VS
    case 7 => VC
    case 8 => HI
    case 9 => LS
    case 10 => GE
    case 11 => LT
    case 12 => GT
    case 13 => LE
    case _ => AL
  }

  /** Bit 24, 23, 22 or 21, which together are the opcode field. */
  predicate Bit24(f: Fields) { f.op / 8 % 2 == 1 }
  predicate Bit23(f: Fields) { f.op / 4 % 2 == 1 }
  predicate Bit22(f: Fields) { f.op / 2 % 2 == 1 }
  predicate Bit21(f: Fields) { f.op % 2 == 1 }

  /** The registers from k on whose bits are set, in ascending order. */
  function RegisterList(bits: nat, k: nat): (list: seq<nat>)
    requires k <= 15
    ensures |list| <= 15 - k && (forall i :: 0 <= i < |list| ==> k <= list[i] < 15)
    ensures forall i, j :: 0 <= i < j < |list| ==> list[i] < list[j]
    decreases 15 - k
  {
    if k == 15 then [] else (if bits % 2 == 1 then [k] else []) + RegisterList(bits / 2, k + 1)
  }

  /** The patterns of msr and mrs among those of data processing. */
  predicate IsMsr(f: Fields) {
    (f.op == 9 || f.op == 11) && f.s == 0 && f.rd == 15 && (f.class_ == 1 || f.low / 0x10 == 0)
  }

  predicate IsMrs(f: Fields) {
    (f.op == 8 || f.op == 10) && f.s == 0 && f.rn == 15 && f.low == 0
  }

  function DecodeData(cond: Cond, f: Fields, op2: Operand): (ins: Instr)
    requires AreFields(f) && (op2.Reg? ==> op2.r < 16)
    ensures WellFormed(ins) && ins.cond == cond
  {
    match f.op
    case 2 => Data(cond, SUB, f.s == 1, f.rd, f.rn, op2)
    case 4 => Data(cond, ADD, f.s == 1, f.rd, f.rn, op2)
    case 10 => Data(cond, CMP, f.s == 1, f.rd, f.rn, op2)
    case 13 => Data(cond, MOV, f.s == 1, f.rd, f.rn, op2)
    case _ => Other(cond)
  }

  /** ldr and str, and for bytes and the program counter what they refuse. */
  function DecodeTransfer(cond: Cond, f: Fields, op2: Operand, shift: nat): (ins: Instr)
    requires AreFields(f) && shift < 32 && (op2.Reg? ==> op2.r < 16)
    ensures WellFormed(ins) && ins.cond == cond
  {
    if !Bit22(f) && f.rd < 15 then Transfer(cond, f.s == 1, Bit24(f), Bit23(f), Bit21(f), f.rd, f.rn, op2, shift)
    else if !Bit24(f) && Bit21(f) then Undef(cond)
    else Other(cond)
  }

  function DecodeBlock(cond: Cond, f: Fields): (ins: Instr)
    requires AreFields(f)
    ensures WellFormed(ins) && ins.cond == cond
  {
    if Bit22(f) || f.rd >= 8 || f.rn == 15 then Other(cond)
    else Block(cond, f.s == 1, Bit24(f), Bit23(f), Bit21(f), f.rn, RegisterList(f.rd * 0x1000 + f.low, 0))
  }

  /** Bits 23 to 0 as a signed number. */
  function BranchOffset(f: Fields): int {
    var offset := (((f.op % 8 * 2 + f.s) * 16 + f.rn) * 16 + f.rd) * 0x1000 + f.low;
    if f.op % 8 < 4 then offset else offset - 0x100_0000
  }

  /** instruction_get_handler, and what the handlers make of the other fields. */
  function DecodeFields(cond: Cond, f: Fields): (ins: Instr)
    requires AreFields(f)
    ensures WellFormed(ins) && ins.cond == cond
  {
    match f.class_
    case 0 =>
      if (f.low / 0x80 % 2 == 1 && f.low / 0x10 % 2 == 1) || IsMsr(f) then Other(cond)
      else if IsMrs(f) then (if f.rd == 15 then Other(cond) else ReadStatus(cond, f.rd, Bit22(f)))
      else if f.op == 0 && f.s == 0 && f.rd < 15 && f.low / 0x10 % 2 == 0 then
        And(cond, f.rd, f.rn, f.low % 16, f.low / 0x20 % 4, f.low / 0x80)
      else if f.low / 0x10 != 0 then Other(cond)
      else DecodeData(cond, f, Reg(f.low % 16))
    case 1 =>
      if IsMsr(f) || f.low / 0x100 != 0 then Other(cond) else DecodeData(cond, f, Imm(f.low % 0x100))
    case 2 => DecodeTransfer(cond, f, Imm(f.low), 0)
    case 3 =>
      if f.low / 0x20 % 4 != 0 then Other(cond) else DecodeTransfer(cond, f, Reg(f.low % 16), f.low / 0x80)
    case 4 => DecodeBlock(cond, f)
    case 5 => Branch(cond, Bit24(f), BranchOffset(f))
    case 6 => Undef(cond)
    case _ => if Bit24(f) then Other(cond) else Undef(cond)
  }

  /** The instruction a word encodes; Other for those that are not modelled. */
  function Decode(w: word): (ins: Instr)
    ensures WellFormed(ins) && (w < 0x1000_0000 ==> ins.cond == EQ)
  {
    var f := Split(w);
    if f.cond == 15 then Undef(AL) else DecodeFields(CondOf(f.cond), f)
  }

  // ----- programs

  /** What fetches see of a core: its memory and its byte order. */
  datatype Text = Text(mem: seq<byte>, e: bool)

  function TextOf(s: Core): Text {
    Text(s.mem, s.cpsr.e)
  }

  /** The instructions of a program lie one after the other from base on. */
  ghost predicate LoadedAt(text: Text, base: nat, program: seq<Instr>) {
    && base % 4 == 0 && base + 4 * |program| <= |text.mem| && base + 4 * |program| + 8 < 0x1_0000_0000
    && forall k :: 0 <= k < |program| ==> Decode(ReadWord(text.mem, text.e, base + 4 * k)) == program[k]
  }

  /** A program stays where it is while no byte of it changes. */
  lemma LoadedKept(text: Text, other: Text, base: nat, program: seq<Instr>)
    requires LoadedAt(text, base, program) && other.e == text.e && |other.mem| == |text.mem|
    requires forall x :: base <= x < base + 4 * |program| ==> other.mem[x] == text.mem[x]
    ensures LoadedAt(other, base, program)
  {
    hide Decode;
    forall k | 0 <= k < |program|
      ensures Decode(ReadWord(other.mem, other.e, base + 4 * k)) == program[k]
    {
      ReadSame(text.mem, other.mem, text.e, base + 4 * k);
    }
  }

  /**
   arm_step: fetch the word at the program counter, and execute it if its condition holds. At
   an instruction that is not modelled, with a condition that holds, the core stands still.
   */
  function Step(s: Core): (t: Core)
    requires |s.storage| == 31
    ensures |t.storage| == 31
  {
    var address := Wrap(ReadRegister(s, PC) - 4);
    var fetched := WriteRegister(s, PC, Wrap(address + 4));
    if !InMemory(s.mem, address) then PrefetchAbort(fetched)
    else
      var ins := Decode(ReadWord(s.mem, s.cpsr.e, address));
      if !Holds(ins.cond, fetched.cpsr) then fetched
      else if ins.Other? then s
      else Exec(fetched, ins)
  }

  function Run(s: Core, n: nat): (t: Core)
    requires |s.storage| == 31
    ensures |t.storage| == 31
    decreases n
  {
    if n == 0 then s else Run(Step(s), n - 1)
  }

  lemma {:induction false} RunPlus(s: Core, m: nat, n: nat)
    requires |s.storage| == 31
    ensures Run(s, m + n) == Run(Run(s, m), n)
    decreases m
  {
    hide Step;
    if m > 0 {
      RunPlus(Step(s), m - 1, n);
    }
  }

  /** A run of a few steps. */
  lemma ShortRuns(s: Core)
    requires |s.storage| == 31
    ensures Run(s, 1) == Step(s)
    ensures Run(s, 2) == Step(Step(s))
    ensures Run(s, 3) == Step(Step(Step(s)))
    ensures Run(s, 4) == Step(Step(Step(Step(s))))
  {
    hide Step;
    RunPlus(s, 1, 1);
    RunPlus(s, 2, 1);
    RunPlus(s, 3, 1);
  }
}
