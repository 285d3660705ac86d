/**
 What the functions of the processor mean in terms other than their own: where bits lie, what
 flags say of the operands as numbers, which registers modes share.
 */
module ArmLaws {
  import opened Memory
  import opened Arm

  // ----- status words

  /** Bit k of a word or a number. */
  predicate BitOf(w: nat, k: nat) {
    w / Pow2(k) % 2 == 1
  }

  lemma Powers()
    ensures Pow2(5) == 0x20 && Pow2(6) == 0x40 && Pow2(7) == 0x80 && Pow2(8) == 0x100 && Pow2(9) == 0x200 && Pow2(10) == 0x400
    ensures Pow2(28) == 0x1000_0000 && Pow2(29) == 0x2000_0000 && Pow2(30) == 0x4000_0000 && Pow2(31) == 0x8000_0000
  {
    assert Pow2(4) == 16;
    assert Pow2(8) == 256;
    assert Pow2(12) == 0x1000;
    assert Pow2(16) == 0x1_0000;
    assert Pow2(20) == 0x10_0000;
    assert Pow2(24) == 0x100_0000;
    assert Pow2(28) == 0x1000_0000;
  }

  /** The encodings of the modes, the low five bits of a status word. */
  predicate IsModeNumber(k: nat, m: Mode) {
    match k
    case 0x10 => m == USR
    case 0x11 => m == FIQ
    case 0x12 => m == IRQ
    case 0x13 => m == SVC
    case 0x17 => m == ABT
    case 0x1B => m == UND
    case 0x1F => m == SYS
    case _ => false
  }

  /** w is the status word p: N, Z, C and V in bits 31 to 28, E in bit 9, I, F and T in bits 7 to 5, then the mode, all else 0. */
  predicate IsStatus(w: word, p: Psr) {
    && BitOf(w, 31) == p.n && BitOf(w, 30) == p.z && BitOf(w, 29) == p.c && BitOf(w, 28) == p.v
    && w / 0x400 % 0x4_0000 == 0 && BitOf(w, 9) == p.e && !BitOf(w, 8)
    && BitOf(w, 7) == p.i && BitOf(w, 6) == p.f && BitOf(w, 5) == p.t && IsModeNumber(w % 0x20, p.mode)
  }

  lemma Weigh(b: bool, weight: nat)
    ensures var d := Bit(b, 1); d < 2 && (d == 1 <==> b) && Bit(b, weight) == weight * d
  {
  }

  lemma StatusSum(p: Psr)
    ensures StatusWord(p) == 0x8000_0000 * Bit(p.n, 1) + 0x4000_0000 * Bit(p.z, 1) + 0x2000_0000 * Bit(p.c, 1) + 0x1000_0000 * Bit(p.v, 1)
                             + 0x200 * Bit(p.e, 1) + 0x80 * Bit(p.i, 1) + 0x40 * Bit(p.f, 1) + 0x20 * Bit(p.t, 1) + ModeNumber(p.mode)
  {
    hide Bit, ModeNumber;
    WeighFour(p.n, p.z, p.c, p.v, 0x1000_0000);
    Weigh(p.e, 0x200);
    WeighFour(false, p.i, p.f, p.t, 0x20);
  }

  /** Four digits in a row. */
  lemma WeighFour(b3: bool, b2: bool, b1: bool, b0: bool, unit: nat)
    ensures Bit(b3, 8 * unit) + Bit(b2, 4 * unit) + Bit(b1, 2 * unit) + Bit(b0, unit)
            == 8 * unit * Bit(b3, 1) + 4 * unit * Bit(b2, 1) + 2 * unit * Bit(b1, 1) + unit * Bit(b0, 1)
    ensures !b3 ==> Bit(b3, 1) == Bit(b3, 8 * unit) == 0
  {
  }

  lemma StatusBits(p: Psr)
    ensures IsStatus(StatusWord(p), p)
  {
    hide BitOf, ModeNumber, IsModeNumber, StatusWord;
    var w := StatusWord(p);
    StatusSum(p);
    ModesNumbered(p.mode);
    WordDigits(w, Bit(p.n, 1), Bit(p.z, 1), Bit(p.c, 1), Bit(p.v, 1), Bit(p.e, 1), Bit(p.i, 1), Bit(p.f, 1), Bit(p.t, 1), ModeNumber(p.mode));
    BitPlaces(w);
  }

  lemma BitPlaces(w: nat)
    ensures BitOf(w, 31) == (w / 0x8000_0000 % 2 == 1) && BitOf(w, 30) == (w / 0x4000_0000 % 2 == 1)
    ensures BitOf(w, 29) == (w / 0x2000_0000 % 2 == 1) && BitOf(w, 28) == (w / 0x1000_0000 % 2 == 1)
    ensures BitOf(w, 9) == (w / 0x200 % 2 == 1) && BitOf(w, 8) == (w / 0x100 % 2 == 1) && BitOf(w, 7) == (w / 0x80 % 2 == 1)
    ensures BitOf(w, 6) == (w / 0x40 % 2 == 1) && BitOf(w, 5) == (w / 0x20 % 2 == 1)
  {
    hide Pow2;
    Powers();
  }

  lemma ModesNumbered(m: Mode)
    ensures ModeNumber(m) < 0x20 && IsModeNumber(ModeNumber(m), m)
  {
  }

  /** The digits of a number in base 2, where they are not 0. */
  lemma WordDigits(w: nat, n: nat, z: nat, c: nat, v: nat, e: nat, i: nat, f: nat, t: nat, m: nat)
    requires n < 2 && z < 2 && c < 2 && v < 2 && e < 2 && i < 2 && f < 2 && t < 2 && m < 0x20
    requires w == 0x8000_0000 * n + 0x4000_0000 * z + 0x2000_0000 * c + 0x1000_0000 * v + 0x200 * e + 0x80 * i + 0x40 * f + 0x20 * t + m
    ensures w % 0x20 == m && w / 0x20 % 2 == t && w / 0x40 % 2 == f && w / 0x80 % 2 == i && w / 0x100 % 2 == 0 && w / 0x200 % 2 == e
    ensures w / 0x400 % 0x4_0000 == 0
    ensures w / 0x1000_0000 % 2 == v && w / 0x2000_0000 % 2 == c && w / 0x4000_0000 % 2 == z && w / 0x8000_0000 % 2 == n
  {
    LowDigits(w, 8 * n + 4 * z + 2 * c + v, e, i, f, t, m);
    HighDigits(w, n, z, c, v, 0x200 * e + 0x80 * i + 0x40 * f + 0x20 * t + m);
  }

  lemma LowDigits(w: nat, y: nat, e: nat, i: nat, f: nat, t: nat, m: nat)
    requires e < 2 && i < 2 && f < 2 && t < 2 && m < 0x20
    requires w == 0x1000_0000 * y + 0x200 * e + 0x80 * i + 0x40 * f + 0x20 * t + m
    ensures w % 0x20 == m && w / 0x20 % 2 == t && w / 0x40 % 2 == f && w / 0x80 % 2 == i && w / 0x100 % 2 == 0 && w / 0x200 % 2 == e
    ensures w / 0x400 % 0x4_0000 == 0
  {
    Quotient(w, 0x20, 0x80_0000 * y + 16 * e + 4 * i + 2 * f + t, m);
    Digit(w / 0x20, 0x40_0000 * y + 8 * e + 2 * i + f, t);
    Quotient(w, 0x40, 0x40_0000 * y + 8 * e + 2 * i + f, 0x20 * t + m);
    Digit(w / 0x40, 0x20_0000 * y + 4 * e + i, f);
    Quotient(w, 0x80, 0x20_0000 * y + 4 * e + i, 0x40 * f + 0x20 * t + m);
    Digit(w / 0x80, 0x10_0000 * y + 2 * e, i);
    Quotient(w, 0x100, 0x10_0000 * y + 2 * e, 0x80 * i + 0x40 * f + 0x20 * t + m);
    Digit(w / 0x100, 0x8_0000 * y + e, 0);
    Quotient(w, 0x200, 0x8_0000 * y + e, 0x80 * i + 0x40 * f + 0x20 * t + m);
    Digit(w / 0x200, 0x4_0000 * y, e);
    Quotient(w, 0x400, 0x4_0000 * y, 0x200 * e + 0x80 * i + 0x40 * f + 0x20 * t + m);
  }

  lemma HighDigits(w: nat, n: nat, z: nat, c: nat, v: nat, low: nat)
    requires n < 2 && z < 2 && c < 2 && v < 2 && low < 0x400
    requires w == 0x8000_0000 * n + 0x4000_0000 * z + 0x2000_0000 * c + 0x1000_0000 * v + low
    ensures w / 0x1000_0000 % 2 == v && w / 0x2000_0000 % 2 == c && w / 0x4000_0000 % 2 == z && w / 0x8000_0000 % 2 == n
  {
    Quotient(w, 0x1000_0000, 8 * n + 4 * z + 2 * c + v, low);
    Digit(w / 0x1000_0000, 4 * n + 2 * z + c, v);
    Quotient(w, 0x2000_0000, 4 * n + 2 * z + c, 0x1000_0000 * v + low);
    Digit(w / 0x2000_0000, 2 * n + z, c);
    Quotient(w, 0x4000_0000, 2 * n + z, 0x2000_0000 * c + 0x1000_0000 * v + low);
    Digit(w / 0x4000_0000, n, z);
    Quotient(w, 0x8000_0000, n, 0x4000_0000 * z + 0x2000_0000 * c + 0x1000_0000 * v + low);
  }

  lemma Digit(x: nat, h: nat, d: nat)
    requires d < 2 && x == 2 * h + d
    ensures x % 2 == d
  {
  }

  lemma Quotient(w: int, d: nat, q: int, r: nat)
    requires r < d && w == d * q + r
    ensures w / d == q && w % d == r
  {
    var x, y := w / d, w % d;
    assert w == d * x + y && y < d;
    assert d * x - d * q == d * (x - q);
    SmallMultiple(d, x - q);
  }

  lemma SmallMultiple(d: nat, k: int)
    requires d * k < d && -(d * k) < d
    ensures k == 0
  {
    assert d * -k == -(d * k);
    if k > 0 {
      AtLeastOnce(d, k);
    } else if k < 0 {
      AtLeastOnce(d, -k);
    }
  }

  lemma {:induction false} AtLeastOnce(d: nat, k: nat)
    requires k > 0
    ensures d * k >= d
    decreases k
  {
    if k > 1 {
      AtLeastOnce(d, k - 1);
      assert d * k == d * (k - 1) + d;
    }
  }

  /** A status word determines what it is the word of. */
  lemma StatusIsUnique(w: word, p: Psr, q: Psr)
    requires IsStatus(w, p) && IsStatus(w, q)
    ensures p == q
  {
    hide BitOf;
  }

  // ----- registers

  /** Modes other than the user and system modes have registers of their own. */
  predicate Banked(m: Mode, r: nat) {
    match m
    case USR => false
    case SYS => false
    case FIQ => 8 <= r <= LR
    case _ => r == SP || r == LR
  }

  /** Two modes share a register exactly if neither has one of its own; different registers never share storage. */
  lemma Banks(m: Mode, n: Mode, r: nat, q: nat)
    requires r < 16 && q < 16
    ensures Slot(m, r) == Slot(n, q) <==> r == q && (m == n || (!Banked(m, r) && !Banked(n, r)))
  {
  }

  /** The program counter reads four ahead of the next instruction, with bit 1 cleared. */
  lemma ReadsAhead(s: Core)
    requires |s.storage| == 31
    ensures var ahead, v := Wrap(Register(s, PC) + 4), ReadRegister(s, PC);
            v / 4 == ahead / 4 && v % 2 == ahead % 2 && v / 2 % 2 == 0
    ensures forall r :: 0 <= r < PC ==> ReadRegister(s, r) == Register(s, r)
  {
    SecondBit(Wrap(Register(s, PC) + 4));
    hide Wrap, Register;
  }

  lemma SecondBit(ahead: nat)
    ensures var v := if ahead / 2 % 2 == 1 then ahead - 2 else ahead;
            v / 4 == ahead / 4 && v % 2 == ahead % 2 && v / 2 % 2 == 0
  {
    var q, r := ahead / 4, ahead % 4;
    assert ahead == 4 * q + r;
    FourDigits(q, r);
    FourDigits(q, r % 2);
    hide BitOf;
  }

  lemma FourDigits(q: nat, r: nat)
    requires r < 4
    ensures var x := 4 * q + r; x / 4 == q && x / 2 == 2 * q + r / 2 && x % 2 == r % 2 && x / 2 % 2 == r / 2
  {
    Quotient(4 * q + r, 4, q, r);
    Quotient(4 * q + r, 2, 2 * q + r / 2, r % 2);
    Quotient(2 * q + r / 2, 2, q, r / 2);
  }

  // ----- conditions and flags

  /** Codes come in pairs, of which the odd one holds when the even one does not, but for the last. */
  lemma ConditionTable(k: nat, p: Psr)
    requires k < 15
    ensures Holds(CondOf(k), p) <==>
            var base := match k / 2 case 0 => p.z case 1 => p.c case 2 => p.n case 3 => p.v
                                    case 4 => p.c && !p.z case 5 => p.n == p.v case 6 => !p.z && p.n == p.v case _ => true;
            if k % 2 == 1 then !base else base
  {
  }

  /** The number from -2^31 to 2^31 - 1 that a word is, modulo 2^32. */
  lemma SignedMeans(w: word)
    ensures -0x8000_0000 <= Signed(w) < 0x8000_0000 && (Signed(w) == w || Signed(w) == w - 0x1_0000_0000)
  {
  }

  /** q is p with the N and Z of a result. */
  predicate SignAndZero(p: Psr, q: Psr, res: word) {
    q == p.(n := q.n, z := q.z, c := q.c, v := q.v) && (q.n <==> Signed(res) < 0) && (q.z <==> res == 0)
  }

  /** A difference: C is no borrow, V that it does not fit. */
  predicate DifferenceFlags(p: Psr, q: Psr, a: word, b: word) {
    var res := Wrap(a - b);
    SignAndZero(p, q, res) && (q.c <==> a >= b) && (q.v <==> Signed(res) != Signed(a) - Signed(b))
  }

  /** A sum: C is the carry, V that it does not fit. */
  predicate SumFlags(p: Psr, q: Psr, a: word, b: word) {
    var res := Wrap(a + b);
    SignAndZero(p, q, res) && (q.c <==> a + b >= 0x1_0000_0000) && (q.v <==> Signed(res) != Signed(a) + Signed(b))
  }

  lemma FlagsMean(p: Psr, a: word, b: word)
    ensures DifferenceFlags(p, SubFlags(p, a, b), a, b) && SumFlags(p, AddFlags(p, a, b), a, b)
  {
    hide SubFlags, AddFlags, DifferenceFlags, SumFlags;
    DifferenceMeans(p, a, b);
    SumMeans(p, a, b);
  }

  lemma DifferenceMeans(p: Psr, a: word, b: word)
    ensures DifferenceFlags(p, SubFlags(p, a, b), a, b)
  {
    assert Wrap(a - b) == if a >= b then a - b else a - b + 0x1_0000_0000;
    hide Wrap;
  }

  lemma SumMeans(p: Psr, a: word, b: word)
    ensures SumFlags(p, AddFlags(p, a, b), a, b)
  {
    assert Wrap(a + b) == if a + b >= 0x1_0000_0000 then a + b - 0x1_0000_0000 else a + b;
    hide Wrap;
  }

  /** What the operation computes, and the flags that it sets if it sets any. */
  predicate IsResult(op: Opcode, a: word, b: word, res: word) {
    match op case MOV => res == b case ADD => res == Wrap(a + b) case _ => res == Wrap(a - b)
  }

  predicate AreFlags(op: Opcode, p: Psr, q: Psr, a: word, b: word) {
    match op
    case MOV => SignAndZero(p, q, b) && q.c == p.c && q.v == p.v
    case ADD => SumFlags(p, q, a, b)
    case _ => DifferenceFlags(p, q, a, b)
  }

  /** With flags written to the program counter, the saved status comes back in a mode that has one. */
  lemma RestoreMeans(s: Core)
    ensures RestoreStatus(s).cpsr == if s.cpsr.mode in s.spsr && s.cpsr.mode !in {USR, SYS} then s.spsr[s.cpsr.mode] else s.cpsr
  {
  }

  /**
   Data processing: cmp only sets the flags of the difference; mov, add and sub write their
   result, and set flags if they are told to.
   */
  lemma DataMeans(s: Core, op: Opcode, setFlags: bool, rd: nat, a: word, b: word)
    requires |s.storage| == 31 && rd < 16
    ensures var t := ExecData(s, op, setFlags, rd, a, b);
            if op == CMP then t == s.(cpsr := t.cpsr) && DifferenceFlags(s.cpsr, t.cpsr, a, b)
            else
              && t.mem == s.mem && t.spsr == s.spsr
              && (if !setFlags then t.cpsr == s.cpsr
                  else if rd != PC then AreFlags(op, s.cpsr, t.cpsr, a, b)
                  else t.cpsr == if s.cpsr.mode in s.spsr && s.cpsr.mode !in {USR, SYS} then s.spsr[s.cpsr.mode] else s.cpsr)
              && var k := if rd == PC then PC else Slot(s.cpsr.mode, rd);
                 IsResult(op, a, b, t.storage[k]) && t.storage == s.storage[k := t.storage[k]]
  {
    hide SubFlags, AddFlags, Slot, RestoreStatus, DifferenceFlags, SumFlags;
    FlagsMean(s.cpsr, a, b);
    RestoreMeans(s);
    Slots(s.cpsr.mode);
    Slots(RestoreStatus(s).cpsr.mode);
    MovedFlags(s.cpsr, b);
  }

  lemma MovedFlags(p: Psr, b: word)
    ensures AreFlags(MOV, p, p.(n := Bit31(b), z := b == 0), 0, b)
  {
  }

  // ----- and, and shifted operands

  /** Bit by bit. */
  lemma {:induction false} AndBits(a: nat, b: nat, k: nat)
    ensures BitOf(BitAnd(a, b), k) <==> BitOf(a, k) && BitOf(b, k)
    decreases k
  {
    if k == 0 {
      LowestBit(a, b);
    } else {
      HigherBit(a, k);
      HigherBit(b, k);
      HigherBit(BitAnd(a, b), k);
      LowestBit(a, b);
      AndBits(a / 2, b / 2, k - 1);
    }
  }

  /** The value of and: the bits that rn and the shifted rm both have. */
  lemma AndMeans(s: Core, ins: Instr)
    requires |s.storage| == 31 && ins.And? && WellFormed(ins)
    ensures var a, b := ReadRegister(s, ins.rn), Shifted(s.cpsr.c, ReadRegister(s, ins.rm), ins.code, ins.amount);
            forall k: nat :: BitOf(AndValue(s, ins), k) <==> BitOf(a, k) && BitOf(b, k)
  {
    hide ReadRegister, Shifted, BitOf, BitAnd;
    var a, b := ReadRegister(s, ins.rn), Shifted(s.cpsr.c, ReadRegister(s, ins.rm), ins.code, ins.amount);
    forall k: nat
      ensures BitOf(BitAnd(a, b), k) <==> BitOf(a, k) && BitOf(b, k)
    {
      AndBits(a, b, k);
    }
  }

  lemma LowestBit(a: nat, b: nat)
    ensures BitAnd(a, b) / 2 == BitAnd(a / 2, b / 2) && (BitAnd(a, b) % 2 == 1 <==> a % 2 == 1 && b % 2 == 1)
    ensures forall x: nat :: BitOf(x, 0) <==> x % 2 == 1
  {
    assert Pow2(0) == 1;
  }

  lemma HigherBit(x: nat, k: nat)
    requires k > 0
    ensures BitOf(x, k) <==> BitOf(x / 2, k - 1)
  {
    DivideTwice(x, 2, Pow2(k - 1));
  }

  lemma DivideTwice(x: nat, d: nat, e: nat)
    requires d > 0 && e > 0
    ensures d * e > 0 && x / (d * e) == x / d / e
  {
    var q, r := x / d, x % d;
    var y, z := q / e, q % e;
    AtLeastOnce(d, e);
    assert q == e * y + z;
    assert x == d * (e * y + z) + r;
    assert d * (e * y + z) == d * e * y + d * z;
    assert d * z + r < d * e by {
      AtMost(d, z, e - 1);
      assert d * (e - 1) == d * e - d;
    }
    assert d * z >= 0;
    Quotient(x, d * e, y, d * z + r);
  }

  lemma {:induction false} AtMost(d: nat, i: nat, j: nat)
    requires i <= j
    ensures d * i <= d * j
    decreases j
  {
    if i < j {
      AtMost(d, i, j - 1);
      assert d * j == d * (j - 1) + d;
    }
  }

  /**
   Shifts by one place more: lsl doubles modulo 2^32, lsr halves, ror moves the lowest bit to
   the top. By no place at all they do nothing, but for ror, which is then rrx: half of the
   word, with the carry on top.
   */
  lemma ShiftsByOne(carry: bool, x: word, amount: nat)
    requires amount < 31
    ensures Shifted(carry, x, 0, 0) == Shifted(carry, x, 1, 0) == Shifted(carry, x, 2, 0) == x
    ensures Shifted(carry, x, 3, 0) == x / 2 + if carry then 0x8000_0000 else 0
    ensures Shifted(carry, x, 0, amount + 1) == 2 * Shifted(carry, x, 0, amount) % 0x1_0000_0000
    ensures Shifted(carry, x, 1, amount + 1) == Shifted(carry, x, 1, amount) / 2
    ensures var y: word := if amount == 0 then x else Shifted(carry, x, 3, amount);
            Shifted(carry, x, 3, amount + 1) == y / 2 + if y % 2 == 1 then 0x8000_0000 else 0
  {
    LslByOne(carry, x, amount);
    LsrByOne(carry, x, amount);
    RorByOne(carry, x, amount);
    hide Pow2;
  }

  /** The shifts as functions of the amount, none included. */
  lemma ShiftFacts(carry: bool, x: word, amount: nat)
    requires amount < 32
    ensures Shifted(carry, x, 0, amount) == Wrap(x * Pow2(amount))
    ensures Shifted(carry, x, 1, amount) == x / Pow2(amount)
  {
    hide Pow2, Wrap;
    if amount == 0 {
      NoShift(x);
    } else {
      QuotientBelow(x, Pow2(amount));
      InItsWord(x / Pow2(amount));
    }
  }

  lemma NoShift(x: word)
    ensures Wrap(x * Pow2(0)) == x && x / Pow2(0) == x
  {
    assert Pow2(0) == 1;
  }

  lemma QuotientBelow(x: nat, d: nat)
    requires d > 0
    ensures x / d <= x
  {
    AtLeastOnce(x / d + 1, d);
    assert (x / d + 1) * d == x / d * d + d;
    assert x == d * (x / d) + x % d;
    AtMost(x / d, 1, d);
  }

  lemma {:induction false} PowersMultiply(j: nat, k: nat)
    ensures Pow2(j + k) == Pow2(j) * Pow2(k)
    decreases j
  {
    if j > 0 {
      PowersMultiply(j - 1, k);
      assert 2 * (Pow2(j - 1) * Pow2(k)) == 2 * Pow2(j - 1) * Pow2(k);
    }
  }

  lemma NextPower(k: nat)
    ensures Pow2(k + 1) == 2 * Pow2(k)
  {
  }

  lemma LslByOne(carry: bool, x: word, amount: nat)
    requires amount < 31
    ensures Shifted(carry, x, 0, amount + 1) == 2 * Shifted(carry, x, 0, amount) % 0x1_0000_0000
  {
    ShiftFacts(carry, x, amount);
    ShiftFacts(carry, x, amount + 1);
    NextPower(amount);
    hide Pow2, Shifted;
    var y := x * Pow2(amount);
    assert x * Pow2(amount + 1) == 2 * y;
    DoubleWraps(y);
  }

  lemma DoubleWraps(y: int)
    ensures Wrap(2 * y) == 2 * Wrap(y) % 0x1_0000_0000
  {
  }

  lemma LsrByOne(carry: bool, x: word, amount: nat)
    requires amount < 31
    ensures Shifted(carry, x, 1, amount + 1) == Shifted(carry, x, 1, amount) / 2
  {
    ShiftFacts(carry, x, amount);
    ShiftFacts(carry, x, amount + 1);
    NextPower(amount);
    hide Pow2, Shifted;
    DivideTwice(x, Pow2(amount), 2);
  }

  lemma Below(d: nat, i: nat, j: nat)
    requires d * i < d * j
    ensures i < j
  {
    if j <= i {
      AtMost(d, j, i);
    }
  }

  /** Half of the power that goes with 2^amount. */
  lemma HalfPower(amount: nat)
    requires 0 < amount < 32
    ensures Pow2(32 - amount) == 2 * Pow2(31 - amount) && Pow2(amount) * Pow2(31 - amount) == 0x8000_0000
    ensures Pow2(31 - amount) <= 0x4000_0000
  {
    NextPower(31 - amount);
    PowersMultiply(amount, 31 - amount);
    PowersMultiply(1, 31 - amount);
    PowersMultiply(amount - 1, 31 - amount);
    Powers();
    NextPower(amount - 1);
    hide Pow2;
    AtLeastOnce(Pow2(31 - amount), Pow2(amount - 1));
    assert Pow2(31 - amount) * Pow2(amount - 1) == Pow2(amount - 1) * Pow2(31 - amount);
  }

  /** asr divides the signed number by 2^amount, rounding down. */
  lemma AsrDivides(carry: bool, x: word, amount: nat)
    requires amount < 32
    ensures Signed(Shifted(carry, x, 2, amount)) == Signed(x) / Pow2(amount)
  {
    if amount == 0 {
      assert Pow2(0) == 1;
    } else {
      hide Shifted, Signed, Wrap, Pow2;
      SignedParts(x);
      AsrIs(carry, x, amount);
      if Bit31(x) {
        AsrNegative(x, amount);
      } else {
        AsrPositive(x, amount);
      }
    }
  }

  lemma AsrIs(carry: bool, x: word, amount: nat)
    requires 0 < amount < 32
    ensures Shifted(carry, x, 2, amount) == Wrap(x / Pow2(amount) - if Bit31(x) then 2 * Pow2(31 - amount) else 0)
  {
    HalfPower(amount);
    hide Pow2, Wrap;
  }

  lemma AsrNegative(x: word, amount: nat)
    requires 0 < amount < 32 && x >= 0x8000_0000
    ensures Signed(Wrap(x / Pow2(amount) - 2 * Pow2(31 - amount))) == (x - 0x1_0000_0000) / Pow2(amount)
  {
    HalfPower(amount);
    hide Pow2, Wrap, Signed;
    NegativeQuotient(x, Pow2(amount), Pow2(31 - amount));
    FromNegative(x / Pow2(amount) - 2 * Pow2(31 - amount));
  }

  lemma AsrPositive(x: word, amount: nat)
    requires 0 < amount < 32 && x < 0x8000_0000
    ensures Signed(Wrap(x / Pow2(amount))) == x / Pow2(amount)
  {
    hide Pow2, Wrap, Signed;
    QuotientBelow(x, Pow2(amount));
    InItsWord(x / Pow2(amount));
    SignedParts(x / Pow2(amount));
  }

  lemma SignedParts(x: word)
    ensures Signed(x) == (if Bit31(x) then x - 0x1_0000_0000 else x) && (Bit31(x) <==> x >= 0x8000_0000)
  {
  }

  lemma NegativeQuotient(x: word, p: nat, h: nat)
    requires x >= 0x8000_0000 && p > 0 && p * h == 0x8000_0000 && h <= 0x4000_0000
    ensures (x - 0x1_0000_0000) / p == x / p - 2 * h && -0x8000_0000 <= x / p - 2 * h < 0
  {
    var y, r := x / p, x % p;
    assert x == p * y + r;
    QuotientRange(x, p, h, y, r);
    assert p * (y - 2 * h) == p * y - p * (2 * h);
    assert p * (2 * h) == 2 * (p * h);
    Quotient(x - 0x1_0000_0000, p, y - 2 * h, r);
  }

  lemma QuotientRange(x: word, p: nat, h: nat, y: nat, r: nat)
    requires x >= 0x8000_0000 && p * h == 0x8000_0000 && x == p * y + r && r < p
    ensures h <= y < 2 * h
  {
    assert p * (y + 1) == p * y + p;
    assert p * (2 * h) == 2 * (p * h);
    Below(p, y, 2 * h);
    Below(p, h, y + 1);
  }

  lemma FromNegative(k: int)
    requires -0x8000_0000 <= k < 0
    ensures Signed(Wrap(k)) == k
  {
  }

  lemma RorByOne(carry: bool, x: word, amount: nat)
    requires amount < 31
    ensures var y: word := if amount == 0 then x else Shifted(carry, x, 3, amount);
            Shifted(carry, x, 3, amount + 1) == y / 2 + if y % 2 == 1 then 0x8000_0000 else 0
  {
    Powers();
    NextPower(0);
    assert Pow2(0) == 1;
    if amount == 0 {
      hide Pow2;
      InItsWord(x / 2 + x % 2 * 0x8000_0000);
    } else {
      var p, h := Pow2(amount), Pow2(31 - amount);
      HalfPower(amount);
      NextPower(amount);
      hide Pow2;
      RotateOnce(x, p, h);
    }
  }

  lemma InItsWord(y: int)
    requires 0 <= y < 0x1_0000_0000
    ensures Wrap(y) == y
  {
  }

  lemma RotateOnce(x: word, p: nat, h: nat)
    requires p > 0 && p * h == 0x8000_0000
    ensures var y := Wrap(x / p + x % p * (2 * h));
            Wrap(x / (2 * p) + x % (2 * p) * h) == y / 2 + if y % 2 == 1 then 0x8000_0000 else 0
  {
    var z, d, r := RotateParts(x, p);
    RotateBound(x, p, h, 2 * z + d, r);
    hide Wrap;
    var e := r * h;
    assert r * (2 * h) == 2 * e;
    assert (p * d + r) * h == 0x8000_0000 * d + e by {
      assert (p * d + r) * h == p * d * h + r * h;
      assert p * d * h == p * h * d;
    }
    InItsWord(2 * z + d + 2 * e);
    InItsWord(z + e + 0x8000_0000 * d);
    HalfOf(z + e, d);
  }

  lemma HalfOf(x: nat, d: nat)
    requires d < 2
    ensures (2 * x + d) / 2 == x && (2 * x + d) % 2 == d
  {
  }

  lemma RotateParts(x: nat, p: nat) returns (z: nat, d: nat, r: nat)
    requires p > 0
    ensures d < 2 && r < p && x / p == 2 * z + d && x % p == r && x / (2 * p) == z && x % (2 * p) == p * d + r
  {
    var q := x / p;
    r := x % p;
    z, d := q / 2, q % 2;
    assert x == p * q + r && q == 2 * z + d;
    assert p * (2 * z + d) == 2 * p * z + p * d;
    assert p * d <= p by {
      AtMost(p, d, 1);
    }
    Quotient(x, 2 * p, z, p * d + r);
  }

  lemma RotateBound(x: word, p: nat, h: nat, q: nat, r: nat)
    requires p > 0 && p * h == 0x8000_0000 && x / p == q && x % p == r
    ensures q + 2 * (r * h) < 0x1_0000_0000
  {
    assert x == p * q + r;
    assert p * (2 * h) == 2 * (p * h);
    Below(p, q, 2 * h);
    AtMost(h, r, p - 1);
    assert h * (p - 1) == h * p - h && h * p == p * h && h * r == r * h;
  }
}
