/** The simulator itself: registers and memory in arrays, changed in place by each instruction. */
module Simulator {
  import opened Bytes
  import opened Memory
  import opened Arm
  import Interrupts

  /** The first n bytes of a word written. */
  function Written(mem: seq<byte>, be: bool, a: nat, v: word, n: nat): (m: seq<byte>)
    requires InMemory(mem, a) && n <= 4
    ensures |m| == |mem|
  {
    if n == 0 then mem else Written(mem, be, a, v, n - 1)[Place(be, a, n - 1) := ByteOf(v, n - 1)]
  }

  lemma WrittenAll(mem: seq<byte>, be: bool, a: nat, v: word)
    requires InMemory(mem, a)
    ensures Written(mem, be, a, v, 4) == WriteWord(mem, be, a, v)
  {
    var m1 := mem[Place(be, a, 0) := ByteOf(v, 0)];
    assert Written(mem, be, a, v, 0) == mem && Written(mem, be, a, v, 1) == m1;
    assert Written(mem, be, a, v, 2) == m1[Place(be, a, 1) := ByteOf(v, 1)];
  }

  /** What an instruction reports to arm_step. */
  datatype Outcome = NoException | UndefinedInstruction | PrefetchAborted | DataAborted

  function Raised(s: Core, outcome: Outcome): (t: Core)
    requires |s.storage| == 31
    ensures |t.storage| == 31
  {
    match outcome
    case NoException => s
    case UndefinedInstruction => Undefined(s)
    case PrefetchAborted => PrefetchAbort(s)
    case DataAborted => DataAbort(s)
  }

  class ArmCore {
    const registers: array<word>
    const memory: array<byte>
    var spsr: map<Mode, Psr>
    var cpsr: Psr

    ghost predicate Valid()
      reads this
    {
      registers.Length == 31 && memory.Length <= 0x1_0000_0000
    }

    function Value(): (s: Core)
      reads this, registers, memory
    {
      Core(registers[..], spsr, cpsr, memory[..])
    }

    /** arm_create, which raises a reset. */
    constructor (mem: array<byte>)
      requires mem.Length <= 0x1_0000_0000
      ensures Valid() && memory == mem && fresh(registers) && exists s: Core :: |s.storage| == 31 && Value() == Arm.Reset(s)
    {
      registers := new word[31];
      memory := mem;
      new;
      ghost var s := Value();
      Reset();
      assert |s.storage| == 31 && Value() == Arm.Reset(s);
    }

    /** memory_read_word */
    method Load(a: word) returns (ok: bool, v: word)
      requires Valid()
      ensures ok == InMemory(memory[..], a) == (a + 4 <= memory.Length)
      ensures ok ==> v == ReadWord(memory[..], cpsr.e, a) && IsWordAt(memory[..], cpsr.e, a, v)
    {
      if a + 3 >= memory.Length {
        return false, 0;
      }
      var bytes: seq<byte> := [];
      var i := 0;
      while i < 4
        invariant 0 <= i <= 4 && |bytes| == i
        invariant forall k :: 0 <= k < i ==> bytes[k] == memory[Place(cpsr.e, a, k)]
      {
        bytes := bytes + [memory[if cpsr.e then a + 4 - i - 1 else a + i]];
        i := i + 1;
      }
      return true, Compose(bytes[0], bytes[1], bytes[2], bytes[3]);
    }

    /** memory_write_word */
    method Store(a: word, v: word) returns (ok: bool)
      requires Valid()
      modifies memory
      ensures Valid() && ok == InMemory(old(memory[..]), a) == (a + 4 <= memory.Length)
      ensures ok ==> IsWordAt(memory[..], cpsr.e, a, v)
      ensures memory[..] == if ok then WriteWord(old(memory[..]), cpsr.e, a, v) else old(memory[..])
    {
      if a + 3 >= memory.Length {
        return false;
      }
      var i := 0;
      while i < 4
        invariant 0 <= i <= 4
        invariant memory[..] == Written(old(memory[..]), cpsr.e, a, v, i)
      {
        memory[if cpsr.e then a + 4 - i - 1 else a + i] := ByteOf(v, i);
        i := i + 1;
      }
      WrittenAll(old(memory[..]), cpsr.e, a, v);
      return true;
    }

    method Read(r: nat) returns (v: word)
      requires Valid() && r < 16
      ensures v == ReadRegister(Value(), r)
    {
      v := registers[Slot(cpsr.mode, r)];
      if r == PC {
        v := Wrap(v + 4);
        if v / 2 % 2 == 1 {
          v := v - 2;
        }
      }
    }

    method Write(r: nat, v: word)
      requires Valid() && r < 16
      modifies registers
      ensures Valid() && Value() == WriteRegister(old(Value()), r, v)
    {
      registers[Slot(cpsr.mode, r)] := v;
    }

    /** An exception handler of arm_exception.c. */
    method Take(mode: Mode, link: word, vector: nat)
      requires Valid() && vector < 0x20
      modifies this, registers
      ensures Valid() && Value() == Enter(old(Value()), mode, link, vector)
    {
      hide Slot, ReadRegister, WriteRegister;
      var copy := cpsr;
      var sp := Read(SP);
      cpsr := cpsr.(mode := mode, t := false, i := true, e := EE_BIT);
      Write(LR, link);
      Write(SP, sp);
      spsr := spsr[cpsr.mode := copy];
      Write(PC, 0x1000 + vector);
    }

    method GiveStack(mode: Mode, sp: word)
      requires Valid()
      modifies this, registers
      ensures Valid() && Value() == Stacked(old(Value()), mode, sp)
    {
      cpsr := cpsr.(mode := mode);
      Write(SP, sp);
    }

    /** handle_reset */
    method Reset()
      requires Valid()
      modifies this, registers
      ensures Valid() && Value() == Arm.Reset(old(Value()))
    {
      hide Stacked, WriteRegister;
      cpsr := cpsr.(f := false, i := false, e := EE_BIT);
      GiveStack(USR, 0x10000);
      GiveStack(FIQ, 0x10100);
      GiveStack(IRQ, 0x10200);
      GiveStack(SVC, 0x10300);
      GiveStack(ABT, 0x10400);
      GiveStack(UND, 0x10500);
      GiveStack(SYS, 0x10600);
      cpsr := cpsr.(mode := SVC);
      Write(PC, 0x1000);
    }

    /** Words put into the memory one after the other, as a debugger loads a program. */
    method LoadWords(base: nat, words: seq<word>)
      requires Valid() && base + 4 * |words| <= memory.Length
      modifies memory
      ensures Valid() && Value() == old(Value()).(mem := memory[..])
      ensures forall k :: 0 <= k < |words| ==> ReadWord(memory[..], cpsr.e, base + 4 * k) == words[k]
      ensures forall x :: 0 <= x < memory.Length && !(base <= x < base + 4 * |words|) ==> memory[..][x] == old(memory[..])[x]
    {
      hide ReadWord, WriteWord;
      var i := 0;
      while i < |words|
        invariant 0 <= i <= |words| && Value() == old(Value()).(mem := memory[..])
        invariant forall k :: 0 <= k < i ==> ReadWord(memory[..], cpsr.e, base + 4 * k) == words[k]
        invariant forall x :: 0 <= x < memory.Length && !(base <= x < base + 4 * i) ==> memory[..][x] == old(memory[..])[x]
      {
        ghost var mem := memory[..];
        var ok := Store(base + 4 * i, words[i]);
        ReadWritten(mem, cpsr.e, base + 4 * i, words[i]);
        forall k | 0 <= k < i
          ensures ReadWord(memory[..], cpsr.e, base + 4 * k) == words[k]
        {
          ReadApart(mem, cpsr.e, base + 4 * i, words[i], base + 4 * k);
        }
        i := i + 1;
      }
    }

    /** arm_exception, for the exceptions instructions and interrupts raise. */
    method Raise(outcome: Outcome)
      requires Valid()
      modifies this, registers
      ensures Valid() && Value() == Raised(old(Value()), outcome)
    {
      var pc: int := Read(PC);
      match outcome
      case NoException =>
      case UndefinedInstruction => Take(UND, Wrap(pc - 4), 0x04);
      case PrefetchAborted => Take(ABT, Wrap(Wrap(pc - 8) + 4), 0x0C);
      case DataAborted => Take(ABT, Wrap(Wrap(pc - 8) + 8), 0x10);
    }

    /** handle_irq */
    method Irq()
      requires Valid()
      modifies this, registers
      ensures Valid() && Value() == Interrupt(old(Value()))
    {
      if cpsr.i {
        return;
      }
      var pc: int := Read(PC);
      Take(IRQ, Wrap(Wrap(pc - 4) + 4), 0x18);
    }

    method Operand2(op2: Operand) returns (v: word)
      requires Valid() && (op2.Reg? ==> op2.r < 16)
      ensures v == Arm.Value(Value(), op2)
    {
      match op2
      case Imm(value) => v := value;
      case Reg(r) => v := Read(r);
    }

    method DataProcessing(op: Opcode, setFlags: bool, rd: nat, a: word, b: word)
      requires Valid() && rd < 16
      modifies this, registers
      ensures Valid() && Value() == ExecData(old(Value()), op, setFlags, rd, a, b)
    {
      hide Slot, WriteRegister, SubFlags, AddFlags, Sub, Wrap;
      if op == CMP {
        cpsr := SubFlags(cpsr, a, b);
        return;
      }
      var res := match op case MOV => b case ADD => Wrap(a + b) case _ => Sub(a, b);
      if setFlags && rd == PC {
        if HasSpsr(cpsr.mode) && cpsr.mode in spsr {
          cpsr := spsr[cpsr.mode];
        }
      } else if setFlags {
        cpsr :=
          if op == MOV then cpsr.(n := Bit31(res), z := res == 0)
          else if op == ADD then AddFlags(cpsr, a, b)
          else SubFlags(cpsr, a, b);
      }
      Write(rd, res);
    }

    /** arm_load_store */
    method LoadStore(ins: Instr) returns (outcome: Outcome)
      requires Valid() && ins.Transfer? && WellFormed(ins)
      modifies registers, memory
      ensures Valid() && Raised(Value(), outcome) == ExecTransfer(old(Value()), ins)
    {
      hide Slot, WriteRegister, ReadRegister, ReadWord, WriteWord, Pow2, Enter, Wrap;
      var base: int := Read(ins.rn);
      var offset := Operand2(ins.operand);
      if ins.operand.Reg? {
        offset := Wrap(offset * Pow2(ins.shift));
      }
      var moved := if ins.up then Wrap(base + offset) else Wrap(base - offset);
      if !ins.pre && ins.writeBack {
        return UndefinedInstruction;
      }
      if !ins.pre || ins.writeBack {
        Write(ins.rn, moved);
      }
      var address := if ins.pre then moved else base;
      if ins.load {
        var ok, v := Load(address);
        if !ok {
          return DataAborted;
        }
        Write(ins.rd, v);
      } else {
        var v := Read(ins.rd);
        var ok := Store(address, v);
        if !ok {
          return DataAborted;
        }
      }
      return NoException;
    }

    /** ldm1 */
    method LoadMultiple(list: seq<nat>, start: word) returns (outcome: Outcome)
      requires Valid() && forall i :: 0 <= i < |list| ==> list[i] < 15
      modifies registers
      ensures Valid() && Raised(Value(), outcome) == LoadMany(old(Value()), list, start)
    {
      hide Slot, WriteRegister, ReadRegister, ReadWord, Enter, Wrap;
      var address: int, i := start, 0;
      outcome := NoException;
      assert list[0..] == list;
      while i < |list| && outcome == NoException
        invariant 0 <= i <= |list| && 0 <= address < 0x1_0000_0000 && (outcome == NoException || outcome == DataAborted)
        invariant LoadMany(old(Value()), list, start) ==
                  if outcome == NoException then LoadMany(Value(), list[i..], address) else DataAbort(Value())
        decreases |list| - i, outcome == NoException
      {
        var ok, v := Load(address);
        if ok {
          assert list[i..][1..] == list[i + 1..];
          Write(list[i], v);
          address := Wrap(address + 4);
          i := i + 1;
        } else {
          outcome := DataAborted;
        }
      }
    }

    /** stm1 */
    method StoreMultiple(list: seq<nat>, start: word) returns (outcome: Outcome)
      requires Valid() && forall i :: 0 <= i < |list| ==> list[i] < 15
      modifies memory
      ensures Valid() && Raised(Value(), outcome) == StoreMany(old(Value()), list, start)
    {
      hide Slot, WriteRegister, ReadRegister, WriteWord, Enter, Wrap;
      var address: int, i := start, 0;
      outcome := NoException;
      assert list[0..] == list;
      while i < |list| && outcome == NoException
        invariant 0 <= i <= |list| && 0 <= address < 0x1_0000_0000 && (outcome == NoException || outcome == DataAborted)
        invariant StoreMany(old(Value()), list, start) ==
                  if outcome == NoException then StoreMany(Value(), list[i..], address) else DataAbort(Value())
        decreases |list| - i, outcome == NoException
      {
        var v := Read(list[i]);
        var ok := Store(address, v);
        if ok {
          assert list[i..][1..] == list[i + 1..];
          address := Wrap(address + 4);
          i := i + 1;
        } else {
          outcome := DataAborted;
        }
      }
    }

    /** arm_load_store_multiple */
    method LoadStoreMultiple(ins: Instr) returns (outcome: Outcome)
      requires Valid() && ins.Block? && WellFormed(ins)
      modifies registers, memory
      ensures Valid() && Raised(Value(), outcome) == ExecBlock(old(Value()), ins)
    {
      hide Slot, WriteRegister, ReadRegister, LoadMany, StoreMany, Raised, Wrap;
      var base: int := Read(ins.rn);
      var size := 4 * |ins.list|;
      var start :=
        if ins.up then (if ins.before then Wrap(base + 4) else base)
        else if ins.before then Wrap(base - size) else Wrap(base - size + 4);
      if ins.writeBack {
        Write(ins.rn, if ins.up then Wrap(base + size) else Wrap(base - size));
      }
      if ins.load {
        outcome := LoadMultiple(ins.list, start);
      } else {
        outcome := StoreMultiple(ins.list, start);
      }
    }

    /** and, on a shifted register */
    method Conjunction(ins: Instr) returns (v: word)
      requires Valid() && ins.And? && WellFormed(ins)
      ensures v == AndValue(Value(), ins)
    {
      var a := Read(ins.rn);
      var x := Read(ins.rm);
      return BitAnd(a, Shifted(cpsr.c, x, ins.code, ins.amount));
    }

    /** The handler of an instruction whose condition holds. */
    method Execute(ins: Instr) returns (outcome: Outcome)
      requires Valid() && WellFormed(ins) && !ins.Other?
      modifies this, registers, memory
      ensures Valid() && Raised(Value(), outcome) == Exec(old(Value()), ins)
    {
      hide Slot, WriteRegister, ReadRegister, ExecData, ExecTransfer, ExecBlock, StatusWord, Wrap, Enter;
      outcome := NoException;
      match ins
      case Data(_, op, setFlags, rd, rn, op2) =>
        var a: word := 0;
        if op != MOV {
          a := Read(rn);
        }
        var b := Operand2(op2);
        DataProcessing(op, setFlags, rd, a, b);
      case Transfer(_, _, _, _, _, _, _, _, _) =>
        outcome := LoadStore(ins);
      case Block(_, _, _, _, _, _, _) =>
        outcome := LoadStoreMultiple(ins);
      case Branch(_, link, offset) =>
        var pc: int := Read(PC);
        if link {
          Write(LR, Wrap(pc - 4));
        }
        Write(PC, Wrap(pc + 4 * offset));
      case And(_, rd, _, _, _, _) =>
        var v := Conjunction(ins);
        Write(rd, v);
      case ReadStatus(_, rd, saved) =>
        Write(rd, StatusWord(if saved && cpsr.mode in spsr then spsr[cpsr.mode] else cpsr));
      case Undef(_) =>
        outcome := UndefinedInstruction;
    }

    /** arm_step; at an instruction that is not modelled, with a condition that holds, nothing is done. */
    method StepOnce()
      requires Valid()
      modifies this, registers, memory
      ensures Valid() && Value() == Step(old(Value()))
    {
      hide Slot, WriteRegister, ReadRegister, Exec, Undefined, DataAbort, PrefetchAbort, Wrap, Decode, ReadWord, InMemory;
      var pc: int := Read(PC);
      var address: int := Wrap(pc - 4);
      var ok, w := Load(address);
      var ins := Decode(w);
      if ok && ins.Other? && Holds(ins.cond, cpsr) {
        return;
      }
      Write(PC, Wrap(address + 4));
      var outcome := NoException;
      if !ok {
        outcome := PrefetchAborted;
      } else if Holds(ins.cond, cpsr) {
        outcome := Execute(ins);
      }
      Raise(outcome);
    }

    /** Any number of steps. */
    method RunFor(n: nat)
      requires Valid()
      modifies this, registers, memory
      ensures Valid() && Value() == Run(old(Value()), n)
    {
      hide Step;
      var i := 0;
      while i < n
        invariant 0 <= i <= n && Valid() && Run(old(Value()), n) == Run(Value(), n - i)
      {
        StepOnce();
        i := i + 1;
      }
    }

    /** Steps with interrupt requests between them, as the request listener delivers them. */
    method RunUnder(schedule: seq<bool>)
      requires Valid()
      modifies this, registers, memory
      ensures Valid() && Value() == Interrupts.After(old(Value()), schedule)
    {
      hide Step, Interrupt;
      var i := 0;
      assert schedule[0..] == schedule;
      while i < |schedule|
        invariant 0 <= i <= |schedule| && Valid()
        invariant Interrupts.After(old(Value()), schedule) == Interrupts.After(Value(), schedule[i..])
      {
        assert schedule[i..][1..] == schedule[i + 1..];
        if schedule[i] {
          Irq();
        }
        StepOnce();
        i := i + 1;
      }
    }
  }
}
