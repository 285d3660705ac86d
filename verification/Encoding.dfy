/** The assembler's side: the words of the instructions modelled, and that decoding gives them back. */
module Encoding {
  import opened Memory
  import opened Arm

  function Join(f: Fields): (w: word)
    requires AreFields(f)
  {
    (((((f.cond * 8 + f.class_) * 16 + f.op) * 2 + f.s) * 16 + f.rn) * 16 + f.rd) * 0x1000 + f.low
  }

  lemma SplitJoined(f: Fields)
    requires AreFields(f)
    ensures Split(Join(f)) == f
  {
    var top := (f.cond * 8 + f.class_) * 16 + f.op;
    var upper := ((top * 2 + f.s) * 16 + f.rn) * 16 + f.rd;
    assert Join(f) == upper * 0x1000 + f.low;
    assert upper / 16 / 16 / 2 == top;
  }

  function CondNumber(c: Cond): nat {
    match c
    case EQ => 0 case NE => 1 case CS => 2 case CC => 3 case MI => 4 case PL => 5 case VS => 6 case VC => 7
    case HI => 8 case LS => 9 case GE => 10 case LT => 11 case GT => 12 case LE => 13 case AL => 14
  }

  function OpNumber(op: Opcode): nat {
    match op case MOV => 13 case ADD => 4 case SUB => 2 case CMP => 10
  }

  /** The bits of the registers of a list, divided by that of register k. */
  function ListBits(list: seq<nat>, k: nat): nat
    requires k <= 15
    decreases 15 - k
  {
    if k == 15 then 0 else (if k in list then 1 else 0) + 2 * ListBits(list, k + 1)
  }

  predicate Encodable(ins: Instr) {
    && WellFormed(ins)
    && match ins
       case Data(_, op, setFlags, _, _, op2) => (op == CMP ==> setFlags) && (op2.Imm? ==> op2.value < 0x100)
       case Transfer(_, _, _, _, _, _, _, op2, shift) => op2.Imm? ==> op2.value < 0x1000 && shift == 0
       case Block(_, _, _, _, _, _, _) => true
       case Branch(_, _, offset) => -0x80_0000 <= offset < 0x80_0000
       case And(_, _, _, _, _, _) => true
       case ReadStatus(_, _, _) => true
       case _ => false
  }

  /** The opcode field of the four bits 24 to 21. */
  function OpBits(b24: bool, b23: bool, b22: bool, b21: bool): nat {
    Bit(b24, 8) + Bit(b23, 4) + Bit(b22, 2) + Bit(b21, 1)
  }

  /** The assembler's side: the fields of an instruction. */
  function Encode(ins: Instr): (f: Fields)
    requires Encodable(ins)
  {
    var cond := CondNumber(ins.cond);
    match ins
    case Data(_, op, setFlags, rd, rn, op2) =>
      Fields(cond, if op2.Imm? then 1 else 0, OpNumber(op), Bit(setFlags, 1), rn, rd, if op2.Imm? then op2.value else op2.r)
    case Transfer(_, load, pre, up, writeBack, rd, rn, op2, shift) =>
      Fields(cond, if op2.Imm? then 2 else 3, OpBits(pre, up, false, writeBack), Bit(load, 1), rn, rd,
             if op2.Imm? then op2.value else shift * 0x80 + op2.r)
    case Block(_, load, before, up, writeBack, rn, list) =>
      var bits := ListBits(list, 0);
      Fields(cond, 4, OpBits(before, up, false, writeBack), Bit(load, 1), rn, bits / 0x1000, bits % 0x1000)
    case Branch(_, link, offset) =>
      var k := if offset < 0 then offset + 0x100_0000 else offset;
      Fields(cond, 5, Bit(link, 8) + k / 0x1000 / 16 / 16 / 2, k / 0x1000 / 16 / 16 % 2, k / 0x1000 / 16 % 16, k / 0x1000 % 16, k % 0x1000)
    case And(_, rd, rn, rm, code, amount) => Fields(cond, 0, 0, 0, rn, rd, amount * 0x80 + code * 0x20 + rm)
    case ReadStatus(_, rd, saved) => Fields(cond, 0, OpBits(true, false, saved, false), 0, 15, rd, 0)
  }

  lemma {:induction false} ListBitsBound(list: seq<nat>, k: nat)
    requires k <= 15
    ensures ListBits(list, k) < Pow2(15 - k)
    decreases 15 - k
  {
    if k < 15 {
      ListBitsBound(list, k + 1);
    }
  }

  /** Registers from k on, in ascending order. */
  ghost predicate Ascending(list: seq<nat>, k: nat) {
    && (forall i :: 0 <= i < |list| ==> k <= list[i] < 15)
    && forall i, j :: 0 <= i < j < |list| ==> list[i] < list[j]
  }

  /** The list comes back from its bits. */
  lemma {:induction false} ListDecoded(list: seq<nat>, k: nat)
    requires k <= 15 && Ascending(list, k)
    ensures RegisterList(ListBits(list, k), k) == list
    decreases 15 - k
  {
    hide ListBits, RegisterList, Ascending;
    if k == 15 {
      if list != [] {
        NoneLeft(list);
      }
      NoRegisters(ListBits(list, 15));
    } else if k in list {
      FirstIn(list, k);
      ListDecoded(list[1..], k + 1);
      DecodedIn(list, k);
    } else {
      FirstOut(list, k);
      ListDecoded(list, k + 1);
      DecodedOut(list, k);
    }
  }

  lemma DecodedIn(list: seq<nat>, k: nat)
    requires k < 15 && list != [] && list == [k] + list[1..]
    requires ListBits(list, k) == 1 + 2 * ListBits(list[1..], k + 1) && RegisterList(ListBits(list[1..], k + 1), k + 1) == list[1..]
    ensures RegisterList(ListBits(list, k), k) == list
  {
    hide ListBits, RegisterList;
    FirstRegister(1, ListBits(list[1..], k + 1), k);
  }

  lemma DecodedOut(list: seq<nat>, k: nat)
    requires k < 15 && ListBits(list, k) == 2 * ListBits(list, k + 1) && RegisterList(ListBits(list, k + 1), k + 1) == list
    ensures RegisterList(ListBits(list, k), k) == list
  {
    hide ListBits, RegisterList;
    FirstRegister(0, ListBits(list, k + 1), k);
    assert [] + list == list;
  }

  lemma NoneLeft(list: seq<nat>)
    requires list != []
    ensures !Ascending(list, 15)
  {
    var first := list[0];
    assert !(15 <= first < 15);
  }

  lemma NoRegisters(bits: nat)
    ensures RegisterList(bits, 15) == []
  {
  }

  lemma FirstRegister(b: nat, bits: nat, k: nat)
    requires b < 2 && k < 15
    ensures RegisterList(b + 2 * bits, k) == (if b == 1 then [k] else []) + RegisterList(bits, k + 1)
  {
    assert (b + 2 * bits) % 2 == b && (b + 2 * bits) / 2 == bits;
  }

  lemma FirstIn(list: seq<nat>, k: nat)
    requires k < 15 && Ascending(list, k) && k in list
    ensures list == [k] + list[1..] && Ascending(list[1..], k + 1) && ListBits(list, k) == 1 + 2 * ListBits(list[1..], k + 1)
  {
    hide ListBits;
    var i :| 0 <= i < |list| && list[i] == k;
    assert list[0] == k;
    forall j | 0 <= j < |list| - 1
      ensures k + 1 <= list[1..][j] < 15
    {
      assert list[0] < list[j + 1];
    }
    FirstApart(list, k + 1);
    BitsOf(list, k);
  }

  lemma BitsOf(list: seq<nat>, k: nat)
    requires k < 15
    ensures ListBits(list, k) == (if k in list then 1 else 0) + 2 * ListBits(list, k + 1)
  {
  }

  lemma FirstOut(list: seq<nat>, k: nat)
    requires k < 15 && Ascending(list, k) && k !in list
    ensures Ascending(list, k + 1) && ListBits(list, k) == 2 * ListBits(list, k + 1)
  {
  }

  lemma {:induction false} FirstApart(list: seq<nat>, k: nat)
    requires k <= 15 && list != [] && list[0] < k
    ensures ListBits(list, k) == ListBits(list[1..], k)
    decreases 15 - k
  {
    if k < 15 {
      FirstApart(list, k + 1);
      assert list == [list[0]] + list[1..];
    }
  }

  lemma Fifteen()
    ensures Pow2(15) == 0x8000
  {
    assert Pow2(3) == 8;
    assert Pow2(6) == 64;
    assert Pow2(9) == 512;
    assert Pow2(12) == 4096;
  }

  lemma EncodedFields(ins: Instr)
    requires Encodable(ins)
    ensures AreFields(Encode(ins)) && Encode(ins).cond < 15 && CondOf(Encode(ins).cond) == ins.cond
  {
    if ins.Block? {
      ListBitsBound(ins.list, 0);
      Fifteen();
    }
  }

  lemma FieldsDecode(ins: Instr)
    requires Encodable(ins)
    ensures AreFields(Encode(ins)) && DecodeFields(ins.cond, Encode(ins)) == ins
  {
    EncodedFields(ins);
    match ins
    case Data(_, _, _, _, _, _) => DataDecodes(ins);
    case Transfer(_, _, _, _, _, _, _, _, _) => TransferDecodes(ins);
    case Block(_, _, _, _, _, _, _) => BlockDecodes(ins);
    case Branch(_, _, _) => BranchDecodes(ins);
    case And(_, _, _, _, _, _) => AndDecodes(ins);
    case ReadStatus(_, _, _) => StatusDecodes(ins);
  }

  lemma DataDecodes(ins: Instr)
    requires Encodable(ins) && ins.Data? && AreFields(Encode(ins))
    ensures DecodeFields(ins.cond, Encode(ins)) == ins
  {
  }

  lemma TransferDecodes(ins: Instr)
    requires Encodable(ins) && ins.Transfer? && AreFields(Encode(ins))
    ensures DecodeFields(ins.cond, Encode(ins)) == ins
  {
    OpBitsDecode(ins.pre, ins.up, false, ins.writeBack);
    hide OpBits;
    if ins.operand.Reg? {
      ShiftDecodes(ins.shift, ins.operand.r);
    }
  }

  lemma ShiftDecodes(shift: nat, r: nat)
    requires shift < 32 && r < 16
    ensures var low := shift * 0x80 + r; low < 0x1000 && low / 0x20 % 4 == 0 && low % 16 == r && low / 0x80 == shift
  {
  }

  lemma BlockDecodes(ins: Instr)
    requires Encodable(ins) && ins.Block? && AreFields(Encode(ins))
    ensures DecodeFields(ins.cond, Encode(ins)) == ins
  {
    hide RegisterList, ListBits;
    var bits := ListBits(ins.list, 0);
    ListDecoded(ins.list, 0);
    ListBitsBound(ins.list, 0);
    Fifteen();
    assert bits / 0x1000 * 0x1000 + bits % 0x1000 == bits && bits / 0x1000 < 8;
    OpBitsDecode(ins.before, ins.up, false, ins.writeBack);
    hide OpBits, Pow2;
  }

  lemma OpBitsDecode(b24: bool, b23: bool, b22: bool, b21: bool)
    ensures var op := OpBits(b24, b23, b22, b21);
            (op / 8 % 2 == 1 <==> b24) && (op / 4 % 2 == 1 <==> b23) && (op / 2 % 2 == 1 <==> b22) && (op % 2 == 1 <==> b21)
  {
  }

  lemma BranchDecodes(ins: Instr)
    requires Encodable(ins) && ins.Branch? && AreFields(Encode(ins))
    ensures DecodeFields(ins.cond, Encode(ins)) == ins
  {
    var k := if ins.offset < 0 then ins.offset + 0x100_0000 else ins.offset;
    BranchDigits(k, ins.link);
    hide Pow2;
  }

  lemma BranchDigits(k: nat, link: bool)
    requires k < 0x100_0000
    ensures var op := Bit(link, 8) + k / 0x1000 / 16 / 16 / 2;
            && op % 8 == k / 0x1000 / 16 / 16 / 2 && (op / 8 % 2 == 1 <==> link)
            && ((k / 0x1000 / 16 / 16 / 2 * 2 + k / 0x1000 / 16 / 16 % 2) * 16 + k / 0x1000 / 16 % 16) * 16 + k / 0x1000 % 16 == k / 0x1000
            && k / 0x1000 * 0x1000 + k % 0x1000 == k
  {
  }

  lemma AndDecodes(ins: Instr)
    requires Encodable(ins) && ins.And? && AreFields(Encode(ins))
    ensures DecodeFields(ins.cond, Encode(ins)) == ins
  {
    hide Pow2, ListBits;
    AndDigits(ins.amount, ins.code, ins.rm);
  }

  lemma AndDigits(amount: nat, code: nat, rm: nat)
    requires amount < 32 && code < 4 && rm < 16
    ensures var low := amount * 0x80 + code * 0x20 + rm;
            && low < 0x1000 && low / 0x80 == amount && low / 0x20 % 4 == code && low % 16 == rm && low / 0x10 % 2 == 0
  {
    var low := amount * 0x80 + code * 0x20 + rm;
    assert low / 0x20 == amount * 4 + code;
    assert low / 0x10 == (amount * 4 + code) * 2;
  }

  lemma StatusDecodes(ins: Instr)
    requires Encodable(ins) && ins.ReadStatus? && AreFields(Encode(ins))
    ensures DecodeFields(ins.cond, Encode(ins)) == ins
  {
  }

  /** The word of an instruction. */
  function Assemble(ins: Instr): word
    requires Encodable(ins)
  {
    EncodedFields(ins);
    Join(Encode(ins))
  }

  /** Decoding undoes encoding. */
  lemma DecodeAssembled(ins: Instr)
    requires Encodable(ins)
    ensures Decode(Assemble(ins)) == ins
  {
    hide DecodeFields, Encode, Join, Split;
    EncodedFields(ins);
    SplitJoined(Encode(ins));
    FieldsDecode(ins);
  }

  // ----- the words of single instructions, as sums

  lemma JoinSums(f: Fields)
    requires AreFields(f)
    ensures Join(f) == f.cond * 0x1000_0000 + f.class_ * 0x200_0000 + f.op * 0x20_0000 + f.s * 0x10_0000 + f.rn * 0x1_0000
                       + f.rd * 0x1000 + f.low
  {
  }

  lemma DataWord(cond: Cond, op: Opcode, setFlags: bool, rd: nat, rn: nat, op2: Operand, w: word)
    requires var ins := Data(cond, op, setFlags, rd, rn, op2); Encodable(ins)
    requires w == CondNumber(cond) * 0x1000_0000 + (if op2.Imm? then 0x200_0000 + op2.value else op2.r) + OpNumber(op) * 0x20_0000
                  + Bit(setFlags, 0x10_0000) + rn * 0x1_0000 + rd * 0x1000
    ensures Assemble(Data(cond, op, setFlags, rd, rn, op2)) == w
  {
  }

  /** and with a shifted register. */
  lemma AndWord(ins: Instr, w: word)
    requires ins.And? && Encodable(ins)
    requires w == CondNumber(ins.cond) * 0x1000_0000 + ins.rn * 0x1_0000 + ins.rd * 0x1000 + ins.amount * 0x80 + ins.code * 0x20 + ins.rm
    ensures Assemble(ins) == w && Decode(w) == ins
  {
    hide DecodeFields;
    DecodeAssembled(ins);
  }

  lemma TransferWord(ins: Instr, w: word)
    requires ins.Transfer? && Encodable(ins)
    requires w == CondNumber(ins.cond) * 0x1000_0000
                  + (if ins.operand.Imm? then 0x400_0000 + ins.operand.value else 0x600_0000 + ins.shift * 0x80 + ins.operand.r)
                  + Bit(ins.pre, 0x100_0000) + Bit(ins.up, 0x80_0000) + Bit(ins.writeBack, 0x20_0000) + Bit(ins.load, 0x10_0000)
                  + ins.rn * 0x1_0000 + ins.rd * 0x1000
    ensures Assemble(ins) == w
  {
  }

  lemma {:induction false} FirstRegisters(list: seq<nat>, k: nat)
    requires |list| <= 15 && k <= 15 && forall i :: 0 <= i < |list| ==> list[i] == i
    ensures ListBits(list, k) == if k < |list| then Pow2(|list| - k) - 1 else 0
    decreases 15 - k
  {
    if k < 15 {
      FirstRegisters(list, k + 1);
      assert k < |list| ==> list[k] == k;
      assert k in list <==> k < |list|;
    }
  }

  /** Block transfers of the registers from r0 on. */
  lemma BlockWord(ins: Instr, w: word)
    requires ins.Block? && Encodable(ins) && forall i :: 0 <= i < |ins.list| ==> ins.list[i] == i
    requires w == CondNumber(ins.cond) * 0x1000_0000 + 0x800_0000 + Bit(ins.before, 0x100_0000) + Bit(ins.up, 0x80_0000)
                  + Bit(ins.writeBack, 0x20_0000) + Bit(ins.load, 0x10_0000) + ins.rn * 0x1_0000 + Pow2(|ins.list|) - 1
    ensures Assemble(ins) == w
  {
    hide Join, OpBits, Encode, CondNumber, ListBits;
    var bits := ListBits(ins.list, 0);
    FirstRegisters(ins.list, 0);
    EncodedFields(ins);
    BlockFields(ins);
    JoinSums(Encode(ins));
    OpBitsSum(ins.before, ins.up, false, ins.writeBack);
    assert Pow2(0) == 1;
    assert bits / 0x1000 * 0x1000 + bits % 0x1000 == bits;
  }

  lemma BlockFields(ins: Instr)
    requires ins.Block? && Encodable(ins)
    ensures var bits := ListBits(ins.list, 0);
            Encode(ins) == Fields(CondNumber(ins.cond), 4, OpBits(ins.before, ins.up, false, ins.writeBack), Bit(ins.load, 1),
                                  ins.rn, bits / 0x1000, bits % 0x1000)
  {
  }

  lemma OpBitsSum(b24: bool, b23: bool, b22: bool, b21: bool)
    ensures OpBits(b24, b23, b22, b21) * 0x20_0000 ==
            Bit(b24, 0x100_0000) + Bit(b23, 0x80_0000) + Bit(b22, 0x40_0000) + Bit(b21, 0x20_0000)
  {
  }

  lemma BranchWord(cond: Cond, link: bool, offset: int, w: word)
    requires Encodable(Branch(cond, link, offset))
    requires w == CondNumber(cond) * 0x1000_0000 + 0xA00_0000 + Bit(link, 0x100_0000) + if offset < 0 then offset + 0x100_0000 else offset
    ensures Assemble(Branch(cond, link, offset)) == w
  {
  }

  lemma MrsWord(cond: Cond, rd: nat, saved: bool, w: word)
    requires rd < 15 && w == CondNumber(cond) * 0x1000_0000 + 0x10F_0000 + Bit(saved, 0x40_0000) + rd * 0x1000
    ensures Encodable(ReadStatus(cond, rd, saved)) && Assemble(ReadStatus(cond, rd, saved)) == w
  {
  }

  // ----- programs

  /** The words of a program lie one after the other from base on. */
  ghost predicate InPlace(text: Text, base: nat, words: seq<word>) {
    && base % 4 == 0 && base + 4 * |words| <= |text.mem| && base + 4 * |words| + 8 < 0x1_0000_0000
    && forall k :: 0 <= k < |words| ==> ReadWord(text.mem, text.e, base + 4 * k) == words[k]
  }

  /** Each word is that of its instruction. */
  ghost predicate Assembled(program: seq<Instr>, words: seq<word>) {
    |words| == |program| && forall k :: 0 <= k < |program| ==> Encodable(program[k]) && Assemble(program[k]) == words[k]
  }

  /** A program whose words are in place is loaded. */
  lemma WordsLoad(text: Text, base: nat, words: seq<word>, program: seq<Instr>)
    requires InPlace(text, base, words) && Assembled(program, words)
    ensures LoadedAt(text, base, program)
  {
    hide Decode, ReadWord, Assemble, Encodable;
    forall k | 0 <= k < |program|
      ensures Decode(words[k]) == program[k]
    {
      DecodeAssembled(program[k]);
    }
  }
}
