/** Examples/tri_insertion.s: insertion sort of a table of signed words, in place. */
module TriInsertion {
  import opened Bytes
  import opened Memory
  import opened Arm
  import opened ArmSteps
  import opened Encoding

  // ----- the sort

  /** Move x down from j, past the words that are greater. */
  function Insert(t: seq<word>, j: nat, x: word): (r: seq<word>)
    requires j < |t|
    ensures |r| == |t|
    decreases j
  {
    if j == 0 || Signed(t[j - 1]) <= Signed(x) then t[j := x] else Insert(t[j := t[j - 1]], j - 1, x)
  }

  /** Insert the words from i on. */
  function SortFrom(t: seq<word>, i: nat): (r: seq<word>)
    requires i <= |t|
    ensures |r| == |t|
    decreases |t| - i
  {
    if i == |t| then t else SortFrom(Insert(t, i, t[i]), i + 1)
  }

  ghost predicate Ordered(t: seq<word>, n: nat)
    requires n <= |t|
  {
    forall a, b :: 0 <= a < b < n ==> Signed(t[a]) <= Signed(t[b])
  }

  /** With a hole at j in an ordered prefix, and what follows the hole greater than x, x finds its place. */
  lemma {:induction false} InsertOrders(t: seq<word>, j: nat, x: word, n: nat)
    requires j < n <= |t|
    requires forall a, b :: 0 <= a < b < n && a != j && b != j ==> Signed(t[a]) <= Signed(t[b])
    requires forall b :: j < b < n ==> Signed(x) < Signed(t[b])
    ensures Ordered(Insert(t, j, x), n)
    decreases j
  {
    hide Signed;
    if j > 0 && Signed(t[j - 1]) > Signed(x) {
      InsertOrders(t[j := t[j - 1]], j - 1, x, n);
    }
  }

  /** The word in the hole gives way to x, and the others are permuted. */
  lemma {:induction false} InsertPermutes(t: seq<word>, j: nat, x: word)
    requires j < |t|
    ensures multiset(Insert(t, j, x)) == multiset(t[j := x])
    decreases j
  {
    hide Signed;
    if j > 0 && Signed(t[j - 1]) > Signed(x) {
      var u := t[j := t[j - 1]];
      InsertPermutes(u, j - 1, x);
      assert u[j - 1 := x] == t[j := x][j := t[j - 1]][j - 1 := x];
    }
  }

  lemma {:induction false} SortSorts(t: seq<word>, i: nat)
    requires 1 <= i <= |t| && Ordered(t, i)
    ensures Ordered(SortFrom(t, i), |t|) && multiset(SortFrom(t, i)) == multiset(t)
    decreases |t| - i
  {
    if i < |t| {
      hide Signed;
      InsertOrders(t, i, t[i], i + 1);
      InsertPermutes(t, i, t[i]);
      assert t[i := t[i]] == t;
      SortSorts(Insert(t, i, t[i]), i + 1);
    }
  }

  // ----- the program

  function IndexedLoad(rd: nat, rm: nat): Instr {
    Transfer(AL, true, true, true, false, rd, 0, Reg(rm), 2)
  }

  function IndexedStore(rd: nat, rm: nat): Instr {
    Transfer(AL, false, true, true, false, rd, 0, Reg(rm), 2)
  }

  const SAVED: seq<nat> := [0, 1, 2, 3, 4, 5]

  const SORT: seq<Instr> := [
    PushInstr(SAVED),                           //  0 tri_insertion
    LiteralInstr(0, 224),                       //  4
    LoadInstr(6, 0),                            //  8
    LiteralInstr(0, 212),                       // 12
    Data(AL, MOV, false, 1, 0, Imm(1)),         // 16
    Data(AL, CMP, true, 0, 1, Reg(6)),          // 20 loop_t
    Branch(EQ, false, 13),                      // 24
    IndexedLoad(3, 1),                          // 28
    Data(AL, MOV, false, 2, 0, Reg(1)),         // 32
    Data(AL, SUB, false, 4, 2, Imm(1)),         // 36 loop_t2
    Data(AL, CMP, true, 0, 2, Imm(0)),          // 40
    Branch(LE, false, 5),                       // 44
    IndexedLoad(5, 4),                          // 48
    Data(AL, CMP, true, 0, 5, Reg(3)),          // 52
    Branch(LE, false, 2),                       // 56
    IndexedStore(5, 2),                         // 60
    Data(AL, MOV, false, 2, 0, Reg(4)),         // 64
    Branch(AL, false, -10),                     // 68
    IndexedStore(3, 2),                         // 72 end_loop_t2
    Data(AL, ADD, false, 1, 1, Imm(1)),         // 76
    Branch(AL, false, -17),                     // 80
    PopInstr(SAVED),                            // 84 end_loop_t
    Data(AL, MOV, false, PC, 0, Reg(LR))        // 88
  ]                                             // 232 ptr_tab, 236 ptr_n

  const SORT_WORDS: seq<word> := [
    0xE82D003F, 0xE59F00E0, 0xE5906000, 0xE59F00D4, 0xE3A01001, 0xE1510006, 0x0A00000D, 0xE7903101,
    0xE1A02001, 0xE2424001, 0xE3520000, 0xDA000005, 0xE7905104, 0xE1550003, 0xDA000002, 0xE7805102,
    0xE1A02004, 0xEAFFFFF6, 0xE7803102, 0xE2811001, 0xEAFFFFEF, 0xE9BD003F, 0xE1A0F00E
  ]

  lemma SortAssembles()
    ensures Assembled(SORT, SORT_WORDS)
  {
    hide Assemble, Encodable;
    PrologueAssembles();
    LoopsAssembles();
    InnerAssembles();
    RestAssembles();
  }

  lemma PrologueAssembles()
    ensures forall k :: 0 <= k < 6 ==> Encodable(SORT[k]) && Assemble(SORT[k]) == SORT_WORDS[k]
  {
    hide Assemble;
    BlockWord(SORT[0], SORT_WORDS[0]);
    TransferWord(SORT[1], SORT_WORDS[1]);
    TransferWord(SORT[2], SORT_WORDS[2]);
    TransferWord(SORT[3], SORT_WORDS[3]);
    DataWord(AL, MOV, false, 1, 0, Imm(1), SORT_WORDS[4]);
    DataWord(AL, CMP, true, 0, 1, Reg(6), SORT_WORDS[5]);
  }

  lemma LoopsAssembles()
    ensures forall k :: 6 <= k < 12 ==> Encodable(SORT[k]) && Assemble(SORT[k]) == SORT_WORDS[k]
  {
    hide Assemble;
    BranchWord(EQ, false, 13, SORT_WORDS[6]);
    TransferWord(SORT[7], SORT_WORDS[7]);
    DataWord(AL, MOV, false, 2, 0, Reg(1), SORT_WORDS[8]);
    DataWord(AL, SUB, false, 4, 2, Imm(1), SORT_WORDS[9]);
    DataWord(AL, CMP, true, 0, 2, Imm(0), SORT_WORDS[10]);
    BranchWord(LE, false, 5, SORT_WORDS[11]);
  }

  lemma InnerAssembles()
    ensures forall k :: 12 <= k < 18 ==> Encodable(SORT[k]) && Assemble(SORT[k]) == SORT_WORDS[k]
  {
    hide Assemble;
    TransferWord(SORT[12], SORT_WORDS[12]);
    DataWord(AL, CMP, true, 0, 5, Reg(3), SORT_WORDS[13]);
    BranchWord(LE, false, 2, SORT_WORDS[14]);
    TransferWord(SORT[15], SORT_WORDS[15]);
    DataWord(AL, MOV, false, 2, 0, Reg(4), SORT_WORDS[16]);
    BranchWord(AL, false, -10, SORT_WORDS[17]);
  }

  lemma RestAssembles()
    ensures forall k :: 18 <= k < 23 ==> Encodable(SORT[k]) && Assemble(SORT[k]) == SORT_WORDS[k]
  {
    hide Assemble;
    TransferWord(SORT[18], SORT_WORDS[18]);
    DataWord(AL, ADD, false, 1, 1, Imm(1), SORT_WORDS[19]);
    BranchWord(AL, false, -17, SORT_WORDS[20]);
    BlockWord(SORT[21], SORT_WORDS[21]);
    DataWord(AL, MOV, false, PC, 0, Reg(LR), SORT_WORDS[22]);
  }

  lemma SortLoads(text: Text, base: nat)
    requires InPlace(text, base, SORT_WORDS)
    ensures Loaded(text, base)
  {
    hide InPlace, Assembled, LoadedAt;
    SortAssembles();
    WordsLoad(text, base, SORT_WORDS, SORT);
  }

  ghost predicate Loaded(text: Text, base: nat)
    ensures Loaded(text, base) ==> base % 4 == 0 && base + 100 < 0x1_0000_0000 && base + 92 <= |text.mem|
  {
    LoadedAt(text, base, SORT)
  }

  /** Instruction k of the program, and what the step lemmas ask about its address. */
  lemma Here(text: Text, base: nat, k: nat)
    requires Loaded(text, base) && k < |SORT|
    ensures Has(text, base + 4 * k, SORT[k])
  {
    hide Has, LoadedAt;
    Placed(text, base, SORT, k);
  }

  // ----- low registers

  /** The registers below r8 are the same storage in every mode. */
  function Set(s: Core, r: nat, v: word): (t: Core)
    requires |s.storage| == 31 && r < 8
    ensures |t.storage| == 31
  {
    s.(storage := s.storage[r := v])
  }

  lemma Low(s: Core, r: nat)
    requires |s.storage| == 31 && r < 8
    ensures Register(s, r) == s.storage[r] && forall v: word :: Put(s, r, v) == Set(s, r, v)
  {
  }

  function LowValue(s: Core, op2: Operand): word
    requires |s.storage| == 31 && (op2.Reg? ==> op2.r < 8)
  {
    match op2 case Imm(value) => value case Reg(r) => s.storage[r]
  }

  lemma LowStep(s: Core, pc: word, op: Opcode, rd: nat, rn: nat, op2: Operand)
    requires |s.storage| == 31 && Has(TextOf(s), pc, Data(AL, op, op == CMP, rd, rn, op2))
    requires rd < 8 && rn < 8 && (op2.Reg? ==> op2.r < 8)
    ensures Step(At(s, pc)) ==
              match op
              case CMP => At(s.(cpsr := SubFlags(s.cpsr, s.storage[rn], LowValue(s, op2))), pc + 4)
              case MOV => At(Set(s, rd, LowValue(s, op2)), pc + 4)
              case ADD => At(Set(s, rd, Wrap(s.storage[rn] + LowValue(s, op2))), pc + 4)
              case SUB => At(Set(s, rd, Sub(s.storage[rn], LowValue(s, op2))), pc + 4)
  {
    hide Step, Has, Sub, Wrap, SubFlags, Put, Set, Register, At;
    Low(s, rd);
    Low(s, rn);
    if op2.Reg? {
      Low(s, op2.r);
    }
    DataStep(s, pc, AL, op, rd, rn, op2);
  }

  /** The address of a word of the table. */
  lemma IndexedAddress(s: Core, load: bool, rd: nat, rm: nat, tab: word, j: nat)
    requires |s.storage| == 31 && rd < 8 && rm < 8 && s.storage[0] == tab && s.storage[rm] == j
    requires tab + 4 * j < 0x1_0000_0000
    ensures Address(s, if load then IndexedLoad(rd, rm) else IndexedStore(rd, rm)) == tab + 4 * j
  {
    Low(s, 0);
    Low(s, rm);
    InRange(4 * j);
    InRange(tab + 4 * j);
    assert Pow2(2) == 4;
    hide Wrap, Register;
  }

  lemma IndexedLoadStep(s: Core, pc: word, rd: nat, rm: nat, tab: word, j: nat)
    requires |s.storage| == 31 && rd < 8 && rm < 8 && s.storage[0] == tab && s.storage[rm] == j
    requires Has(TextOf(s), pc, IndexedLoad(rd, rm)) && InMemory(s.mem, tab + 4 * j) && |s.mem| < 0x1_0000_0000
    ensures Step(At(s, pc)) == At(Set(s, rd, ReadWord(s.mem, s.cpsr.e, tab + 4 * j)), pc + 4)
  {
    IndexedAddress(s, true, rd, rm, tab, j);
    Low(s, rd);
    hide Step, Has, Address, ReadWord, Put, Set;
    TransferStep(s, pc, IndexedLoad(rd, rm));
  }

  lemma IndexedStoreStep(s: Core, pc: word, rd: nat, rm: nat, tab: word, j: nat)
    requires |s.storage| == 31 && rd < 8 && rm < 8 && s.storage[0] == tab && s.storage[rm] == j
    requires Has(TextOf(s), pc, IndexedStore(rd, rm)) && InMemory(s.mem, tab + 4 * j) && |s.mem| < 0x1_0000_0000
    ensures Step(At(s, pc)) ==
              At(s.(mem := WriteWord(s.mem, s.cpsr.e, tab + 4 * j, s.storage[rd])), pc + 4)
  {
    IndexedAddress(s, false, rd, rm, tab, j);
    Low(s, rd);
    hide Step, Has, Address, WriteWord;
    TransferStep(s, pc, IndexedStore(rd, rm));
  }

  // ----- the table

  /** The words of the table at tab. */
  function Table(mem: seq<byte>, e: bool, tab: nat, n: nat): (t: seq<word>)
    requires tab + 4 * n <= |mem|
    ensures |t| == n
  {
    seq(n, i requires 0 <= i < n => ReadWord(mem, e, tab + 4 * i))
  }

  lemma TableStore(mem: seq<byte>, e: bool, tab: nat, n: nat, j: nat, v: word)
    requires tab + 4 * n <= |mem| && j < n
    ensures Table(WriteWord(mem, e, tab + 4 * j, v), e, tab, n) == Table(mem, e, tab, n)[j := v]
    ensures forall x :: 0 <= x < |mem| && !(tab <= x < tab + 4 * n) ==> WriteWord(mem, e, tab + 4 * j, v)[x] == mem[x]
  {
    ReadWritten(mem, e, tab + 4 * j, v);
    hide ReadWord, WriteWord;
    forall i | 0 <= i < n && i != j
      ensures ReadWord(WriteWord(mem, e, tab + 4 * j, v), e, tab + 4 * i) == ReadWord(mem, e, tab + 4 * i)
    {
      ReadApart(mem, e, tab + 4 * j, v, tab + 4 * i);
    }
  }

  /**
   While the loops run, s differs from the core f they started with in r1 to r5, the flags
   and the table at tab, which now holds t.
   */
  ghost predicate Sorting(f: Core, s: Core, tab: nat, t: seq<word>)
    ensures Sorting(f, s, tab, t) ==> |f.storage| == |s.storage| == 31 && tab + 4 * |t| <= |s.mem| < 0x1_0000_0000
    ensures Sorting(f, s, tab, t) ==> s.storage[0] == tab && s.storage[6] == f.storage[6]
  {
    && |f.storage| == |s.storage| == 31 && |s.mem| == |f.mem| < 0x1_0000_0000 && s.spsr == f.spsr
    && s.cpsr == f.cpsr.(n := s.cpsr.n, z := s.cpsr.z, c := s.cpsr.c, v := s.cpsr.v)
    && tab + 4 * |t| <= |s.mem| && Table(s.mem, s.cpsr.e, tab, |t|) == t
    && s.storage[0] == tab
    && (forall k :: 6 <= k < 31 && k != PC ==> s.storage[k] == f.storage[k])
    && (forall x :: 0 <= x < |s.mem| && !(tab <= x < tab + 4 * |t|) ==> s.mem[x] == f.mem[x])
  }

  lemma SortingSet(f: Core, s: Core, tab: nat, t: seq<word>, r: nat, v: word)
    requires Sorting(f, s, tab, t) && 1 <= r < 6
    ensures Sorting(f, Set(s, r, v), tab, t)
  {
    hide Table;
  }

  lemma SortingFlags(f: Core, s: Core, tab: nat, t: seq<word>, a: word, b: word)
    requires Sorting(f, s, tab, t)
    ensures Sorting(f, s.(cpsr := SubFlags(s.cpsr, a, b)), tab, t)
  {
    hide Table;
  }

  lemma SortingStore(f: Core, s: Core, tab: nat, t: seq<word>, j: nat, v: word)
    requires Sorting(f, s, tab, t) && j < |t|
    ensures Sorting(f, s.(mem := WriteWord(s.mem, s.cpsr.e, tab + 4 * j, v)), tab, t[j := v])
  {
    TableStore(s.mem, s.cpsr.e, tab, |t|, j, v);
    hide Table, WriteWord;
  }

  lemma SortingLoad(f: Core, s: Core, tab: nat, t: seq<word>, j: nat)
    requires Sorting(f, s, tab, t) && j < |t|
    ensures InMemory(s.mem, tab + 4 * j) && ReadWord(s.mem, s.cpsr.e, tab + 4 * j) == t[j]
  {
    hide ReadWord;
    assert Table(s.mem, s.cpsr.e, tab, |t|)[j] == ReadWord(s.mem, s.cpsr.e, tab + 4 * j);
  }

  lemma SortingMoved(f: Core, s: Core, tab: nat, t: seq<word>, pc: word)
    requires Sorting(f, s, tab, t)
    ensures Sorting(f, At(s, pc), tab, t)
  {
    hide Table;
  }

  /** The code is in place, and the table is off it. */
  ghost predicate Sited(f: Core, base: nat, tab: nat, n: nat)
    ensures Sited(f, base, tab, n) ==> base % 4 == 0 && base + 100 < 0x1_0000_0000 && base + 92 <= |f.mem|
  {
    Loaded(TextOf(f), base) && (tab + 4 * n <= base || base + 92 <= tab)
  }

  /** So it stays in place while the loops run. */
  lemma SortingText(f: Core, s: Core, base: nat, tab: nat, t: seq<word>)
    requires Sited(f, base, tab, |t|) && Sorting(f, s, tab, t)
    ensures Loaded(TextOf(s), base)
  {
    hide LoadedAt, Table;
    LoadedKept(TextOf(f), TextOf(s), base, SORT);
  }

  // ----- the loops

  /** At loop_t: the words below i are in order, word i is next. */
  ghost predicate Outer(f: Core, u: Core, base: nat, tab: nat, t: seq<word>, i: nat) {
    Sorting(f, u, tab, t) && u.storage[1] == i && u.storage[PC] == base + 20
  }

  /** At loop_t2: x of word i is on its way down, and has come to word j. */
  ghost predicate Inner(f: Core, u: Core, base: nat, tab: nat, t: seq<word>, i: nat, j: nat, x: word) {
    && Sorting(f, u, tab, t) && u.storage[1] == i && u.storage[2] == j && u.storage[3] == x
    && u.storage[PC] == base + 36 && j <= i < |t|
  }

  lemma WithinThree(base: nat, s: Core, pc: word, s1: Core, s2: Core)
    requires base + 100 < 0x1_0000_0000 && |s.storage| == |s1.storage| == |s2.storage| == 31
    requires base <= pc && pc + 8 < base + 92
    requires Step(At(s, pc)) == At(s1, pc + 4) && Step(At(s1, pc + 4)) == At(s2, pc + 8)
    ensures Within(base, base + 92, At(s, pc), 3)
  {
    hide Step, At, Register, Within, LoadedAt;
    WithinAt(base, base + 92, s, pc, 2);
    WithinTwo(base, s1, pc + 4, s2);
  }

  lemma WithinTwo(base: nat, s: Core, pc: word, s1: Core)
    requires base + 100 < 0x1_0000_0000 && |s.storage| == |s1.storage| == 31 && base <= pc && pc + 4 < base + 92
    requires Step(At(s, pc)) == At(s1, pc + 4)
    ensures Within(base, base + 92, At(s, pc), 2)
  {
    hide Step, At, Register, LoadedAt;
    WithinAt(base, base + 92, s, pc, 1);
    WithinAt(base, base + 92, s1, pc + 4, 0);
  }

  /** The comparison of the index with r6, and the branch. */
  lemma OuterTests(base: nat, f: Core, u: Core, tab: nat, t: seq<word>, i: nat, s1: Core)
    requires Sited(f, base, tab, |t|) && Outer(f, u, base, tab, t, i) && s1 == u.(cpsr := SubFlags(u.cpsr, i, f.storage[6]))
    ensures Run(u, 2) == At(s1, base + if i == f.storage[6] then 84 else 28) && Sorting(f, s1, tab, t)
    ensures Within(base, base + 92, u, 2) && Loaded(TextOf(s1), base)
  {
    hide Step, Run, Has, Loaded, SubFlags, Table, Sorting, Within, Holds;
    SortingText(f, u, base, tab, t);
    var n := f.storage[6];
    AtIsHere(u);
    Here(TextOf(u), base, 5);
    Here(TextOf(u), base, 6);
    LowStep(u, base + 20, CMP, 0, 1, Reg(6));
    CompareMeans(u.cpsr, i, n);
    BranchStep(s1, base + 24, EQ, false, 13);
    SortingFlags(f, u, tab, t, i, n);
    ShortRuns(u);
    WithinTwo(base, u, base + 20, s1);
  }

  lemma OuterGoesOn(base: nat, f: Core, u: Core, tab: nat, t: seq<word>, i: nat)
    requires Sited(f, base, tab, |t|) && Outer(f, u, base, tab, t, i) && i < |t| && i != f.storage[6]
    ensures Inner(f, Run(u, 4), base, tab, t, i, i, t[i]) && Within(base, base + 92, u, 4)
  {
    hide Step, Run, Has, Loaded, SubFlags, Table, Sorting, Within, InMemory, Sited;
    var s1 := u.(cpsr := SubFlags(u.cpsr, i, f.storage[6]));
    var s2 := Set(s1, 3, t[i]);
    OuterTests(base, f, u, tab, t, i, s1);
    Here(TextOf(s1), base, 7);
    Here(TextOf(s1), base, 8);
    SortingLoad(f, s1, tab, t, i);
    IndexedLoadStep(s1, base + 28, 3, 1, tab, i);
    LowStep(s2, base + 32, MOV, 2, 0, Reg(1));
    SortingSet(f, s1, tab, t, 3, t[i]);
    SortingSet(f, s2, tab, t, 2, i);
    SortingMoved(f, Set(s2, 2, i), tab, t, base + 36);
    RunPlus(u, 2, 2);
    ShortRuns(At(s1, base + 28));
    WithinTwo(base, s1, base + 28, s2);
    WithinPlus(base, base + 92, u, 2, 2);
  }

  lemma OuterEnds(base: nat, f: Core, u: Core, tab: nat, t: seq<word>, i: nat)
    requires Sited(f, base, tab, |t|) && Outer(f, u, base, tab, t, i) && i == f.storage[6]
    ensures Sorting(f, Run(u, 2), tab, t) && Run(u, 2).storage[PC] == base + 84
    ensures Within(base, base + 92, u, 2)
  {
    hide Run, Loaded, SubFlags, Table, Sorting, Within, Sited;
    var s1 := u.(cpsr := SubFlags(u.cpsr, i, i));
    OuterTests(base, f, u, tab, t, i, s1);
    SortingMoved(f, s1, tab, t, base + 84);
  }

  /** At end_loop_t2: x belongs at j. */
  ghost predicate Found(f: Core, u: Core, base: nat, tab: nat, t: seq<word>, i: nat, j: nat, x: word) {
    && Sorting(f, u, tab, t) && u.storage[1] == i && u.storage[2] == j && u.storage[3] == x
    && u.storage[PC] == base + 72 && j <= i < |t|
  }

  /** Word j - 1, now in r5, is greater than x. */
  ghost predicate Greater(f: Core, u: Core, base: nat, tab: nat, t: seq<word>, i: nat, j: nat, x: word, pc: nat) {
    && Sorting(f, u, tab, t) && u.storage[1] == i && u.storage[2] == j && u.storage[3] == x
    && u.storage[PC] == pc && 0 < j <= i < |t| && u.storage[4] == j - 1
  }

  /** The first three instructions of the inner loop. */
  lemma InnerTests(base: nat, f: Core, u: Core, tab: nat, t: seq<word>, i: nat, j: nat, x: word)
    requires Sited(f, base, tab, |t|) && Inner(f, u, base, tab, t, i, j, x)
    ensures j == 0 ==> Found(f, Run(u, 3), base, tab, t, i, j, x)
    ensures j > 0 ==> Greater(f, Run(u, 3), base, tab, t, i, j, x, base + 48)
    ensures Within(base, base + 92, u, 3)
  {
    hide Within, Step, Run, Has, Loaded, SubFlags, Table, Sorting, Sub;
    SortingText(f, u, base, tab, t);
    var s1 := Set(u, 4, Sub(j, 1));
    var s2 := s1.(cpsr := SubFlags(s1.cpsr, j, 0));
    Here(TextOf(u), base, 9);
    Here(TextOf(u), base, 10);
    Here(TextOf(u), base, 11);
    AtIsHere(u);
    LowStep(u, base + 36, SUB, 4, 2, Imm(1));
    SubInRange(j, 1);
    LowStep(s1, base + 40, CMP, 0, 2, Imm(0));
    CompareMeans(s1.cpsr, j, 0);
    BranchStep(s2, base + 44, LE, false, 5);
    SortingSet(f, u, tab, t, 4, Sub(j, 1));
    SortingFlags(f, s1, tab, t, j, 0);
    SortingMoved(f, s2, tab, t, if j == 0 then base + 72 else base + 48);
    ShortRuns(u);
    WithinThree(base, u, base + 36, s1, s2);
  }

  /** The next three. */
  lemma InnerCompares(base: nat, f: Core, u: Core, tab: nat, t: seq<word>, i: nat, j: nat, x: word)
    requires Sited(f, base, tab, |t|) && Greater(f, u, base, tab, t, i, j, x, base + 48)
    ensures Signed(t[j - 1]) <= Signed(x) ==> Found(f, Run(u, 3), base, tab, t, i, j, x)
    ensures Signed(t[j - 1]) > Signed(x) ==>
              && Greater(f, Run(u, 3), base, tab, t, i, j, x, base + 60)
              && Run(u, 3).storage[5] == t[j - 1]
    ensures Within(base, base + 92, u, 3)
  {
    hide Within, Step, Run, Has, Loaded, InMemory, SubFlags, Table, Sorting, Signed;
    SortingText(f, u, base, tab, t);
    var y := t[j - 1];
    var s1 := Set(u, 5, y);
    var s2 := s1.(cpsr := SubFlags(s1.cpsr, y, x));
    Here(TextOf(u), base, 12);
    Here(TextOf(u), base, 13);
    Here(TextOf(u), base, 14);
    AtIsHere(u);
    SortingLoad(f, u, tab, t, j - 1);
    IndexedLoadStep(u, base + 48, 5, 4, tab, j - 1);
    LowStep(s1, base + 52, CMP, 0, 5, Reg(3));
    CompareMeans(s1.cpsr, y, x);
    BranchStep(s2, base + 56, LE, false, 2);
    SortingSet(f, u, tab, t, 5, y);
    SortingFlags(f, s1, tab, t, y, x);
    SortingMoved(f, s2, tab, t, if Signed(y) <= Signed(x) then base + 72 else base + 60);
    ShortRuns(u);
    WithinThree(base, u, base + 48, s1, s2);
  }

  lemma StoreText(u: Core, base: nat, a: nat, v: word)
    requires Loaded(TextOf(u), base) && InMemory(u.mem, a) && (a + 4 <= base || base + 92 <= a)
    ensures Loaded(TextOf(u.(mem := WriteWord(u.mem, u.cpsr.e, a, v))), base)
  {
    hide LoadedAt, WriteWord;
    LoadedStored(TextOf(u), base, SORT, a, v);
  }

  lemma ShiftSteps(base: nat, u: Core, tab: nat, j: nat)
    requires Loaded(TextOf(u), base) && (tab + 4 * j + 4 <= base || base + 92 <= tab + 4 * j)
    requires |u.storage| == 31 && u.storage[PC] == base + 60 && |u.mem| < 0x1_0000_0000
    requires 0 < j && u.storage[0] == tab && u.storage[2] == j && u.storage[4] == j - 1 && InMemory(u.mem, tab + 4 * j)
    ensures Run(u, 3) ==
              At(Set(u.(mem := WriteWord(u.mem, u.cpsr.e, tab + 4 * j, u.storage[5])), 2, j - 1), base + 36)
    ensures Within(base, base + 92, u, 3)
  {
    hide Within, Step, Run, Has, Loaded, WriteWord, InMemory, At;
    AtIsHere(u);
    var s1 := u.(mem := WriteWord(u.mem, u.cpsr.e, tab + 4 * j, u.storage[5]));
    var s2 := Set(s1, 2, j - 1);
    Here(TextOf(u), base, 15);
    StoreText(u, base, tab + 4 * j, u.storage[5]);
    Here(TextOf(s1), base, 16);
    Here(TextOf(s1), base, 17);
    IndexedStoreStep(u, base + 60, 5, 2, tab, j);
    LowStep(s1, base + 64, MOV, 2, 0, Reg(4));
    BranchStep(s2, base + 68, AL, false, -10);
    ShortRuns(u);
    WithinThree(base, u, base + 60, s1, s2);
  }

  /** The last three: word j - 1 moves up and the loop goes round. */
  lemma InnerShifts(base: nat, f: Core, u: Core, tab: nat, t: seq<word>, i: nat, j: nat, x: word)
    requires Sited(f, base, tab, |t|) && Greater(f, u, base, tab, t, i, j, x, base + 60) && u.storage[5] == t[j - 1]
    ensures Inner(f, Run(u, 3), base, tab, t[j := t[j - 1]], i, j - 1, x)
    ensures Within(base, base + 92, u, 3)
  {
    hide Within, Run, Loaded, Table, Sorting, WriteWord;
    SortingText(f, u, base, tab, t);
    var y, t' := t[j - 1], t[j := t[j - 1]];
    var s1 := u.(mem := WriteWord(u.mem, u.cpsr.e, tab + 4 * j, y));
    ShiftSteps(base, u, tab, j);
    SortingStore(f, u, tab, t, j, y);
    SortingSet(f, s1, tab, t', 2, j - 1);
    SortingMoved(f, Set(s1, 2, j - 1), tab, t', base + 36);
  }

  /** x is put in its place, and the outer loop goes round. */
  lemma FoundPlaces(base: nat, f: Core, u: Core, tab: nat, t: seq<word>, i: nat, j: nat, x: word)
    requires Sited(f, base, tab, |t|) && Found(f, u, base, tab, t, i, j, x)
    ensures Outer(f, Run(u, 3), base, tab, t[j := x], i + 1)
    ensures Within(base, base + 92, u, 3)
  {
    hide Within, Step, Run, Has, Loaded, Table, Sorting, WriteWord, Wrap;
    SortingText(f, u, base, tab, t);
    var s1 := u.(mem := WriteWord(u.mem, u.cpsr.e, tab + 4 * j, x));
    var s2 := Set(s1, 1, i + 1);
    Here(TextOf(u), base, 18);
    AtIsHere(u);
    SortingStore(f, u, tab, t, j, x);
    SortingText(f, s1, base, tab, t[j := x]);
    Here(TextOf(s1), base, 19);
    Here(TextOf(s1), base, 20);
    InRange(i + 1);
    IndexedStoreStep(u, base + 72, 3, 2, tab, j);
    LowStep(s1, base + 76, ADD, 1, 1, Imm(1));
    BranchStep(s2, base + 80, AL, false, -17);
    SortingSet(f, s1, tab, t[j := x], 1, i + 1);
    SortingMoved(f, s2, tab, t[j := x], base + 20);
    ShortRuns(u);
    WithinThree(base, u, base + 72, s1, s2);
  }

  /** How many instructions the inner loop executes, with its epilogue. */
  function InnerSteps(t: seq<word>, j: nat, x: word): nat
    requires j < |t|
    decreases j
  {
    if j == 0 then 6
    else if Signed(t[j - 1]) <= Signed(x) then 9
    else 9 + InnerSteps(t[j := t[j - 1]], j - 1, x)
  }

  lemma {:induction false} InnerRuns(base: nat, f: Core, u: Core, tab: nat, t: seq<word>, i: nat, j: nat, x: word)
    requires Sited(f, base, tab, |t|) && Inner(f, u, base, tab, t, i, j, x)
    ensures Outer(f, Run(u, InnerSteps(t, j, x)), base, tab, Insert(t, j, x), i + 1)
    ensures Within(base, base + 92, u, InnerSteps(t, j, x))
    decreases j
  {
    hide Within, Run, Step, Loaded, Sorting, Signed;
    InnerTests(base, f, u, tab, t, i, j, x);
    var v := Run(u, 3);
    if j == 0 {
      FoundPlaces(base, f, v, tab, t, i, j, x);
      RunPlus(u, 3, 3);
      WithinPlus(base, base + 92, u, 3, 3);
    } else {
      InnerCompares(base, f, v, tab, t, i, j, x);
      var w := Run(v, 3);
      RunPlus(u, 3, 3);
      WithinPlus(base, base + 92, u, 3, 3);
      if Signed(t[j - 1]) <= Signed(x) {
        FoundPlaces(base, f, w, tab, t, i, j, x);
        RunPlus(u, 6, 3);
        WithinPlus(base, base + 92, u, 6, 3);
      } else {
        var t' := t[j := t[j - 1]];
        InnerShifts(base, f, w, tab, t, i, j, x);
        InnerRuns(base, f, Run(w, 3), tab, t', i, j - 1, x);
        RunPlus(u, 6, 3);
        WithinPlus(base, base + 92, u, 6, 3);
        RunPlus(u, 9, InnerSteps(t', j - 1, x));
        WithinPlus(base, base + 92, u, 9, InnerSteps(t', j - 1, x));
      }
    }
  }

  function OuterSteps(t: seq<word>, i: nat): nat
    requires i <= |t|
    decreases |t| - i
  {
    if i == |t| then 2 else 4 + InnerSteps(t, i, t[i]) + OuterSteps(Insert(t, i, t[i]), i + 1)
  }

  /** A whole round of the outer loop. */
  lemma OuterRound(base: nat, f: Core, u: Core, tab: nat, t: seq<word>, i: nat)
    requires Sited(f, base, tab, |t|) && Outer(f, u, base, tab, t, i) && i < |t| && i != f.storage[6]
    ensures Outer(f, Run(u, 4 + InnerSteps(t, i, t[i])), base, tab, Insert(t, i, t[i]), i + 1)
    ensures Within(base, base + 92, u, 4 + InnerSteps(t, i, t[i]))
  {
    hide Run, Step, Loaded, Sorting, Insert, InnerSteps, Within;
    var k := InnerSteps(t, i, t[i]);
    OuterGoesOn(base, f, u, tab, t, i);
    InnerRuns(base, f, Run(u, 4), tab, t, i, i, t[i]);
    RunPlus(u, 4, k);
    WithinPlus(base, base + 92, u, 4, k);
  }

  lemma {:induction false} OuterRuns(base: nat, f: Core, u: Core, tab: nat, t: seq<word>, i: nat)
    requires Sited(f, base, tab, |t|) && Outer(f, u, base, tab, t, i) && i <= |t| == f.storage[6]
    ensures var v := Run(u, OuterSteps(t, i));
            Sorting(f, v, tab, SortFrom(t, i)) && v.storage[PC] == base + 84
    ensures Within(base, base + 92, u, OuterSteps(t, i))
    decreases |t| - i
  {
    hide Run, Step, Loaded, Sorting, Insert, InnerSteps, Within;
    if i == |t| {
      OuterEnds(base, f, u, tab, t, i);
    } else {
      var k, t' := 4 + InnerSteps(t, i, t[i]), Insert(t, i, t[i]);
      OuterRound(base, f, u, tab, t, i);
      OuterRuns(base, f, Run(u, k), tab, t', i + 1);
      RunPlus(u, k, OuterSteps(t', i + 1));
      WithinPlus(base, base + 92, u, k, OuterSteps(t', i + 1));
    }
  }

  // ----- no end

  /** How many instructions the outer loop executes until it has passed the last word of t. */
  function OverrunSteps(t: seq<word>, i: nat): nat
    requires i <= |t|
    decreases |t| - i
  {
    if i == |t| then 3 else 4 + InnerSteps(t, i, t[i]) + OverrunSteps(Insert(t, i, t[i]), i + 1)
  }

  lemma LoadFaults(base: nat, f: Core, u: Core, tab: nat, t: seq<word>)
    requires Sited(f, base, tab, |t|) && Outer(f, u, base, tab, t, |t|) && |t| != f.storage[6] && |u.mem| < tab + 4 * |t| + 4
    ensures Within(base, base + 92, u, 3) && Register(Run(u, 3), PC) == ABORT_VECTOR
  {
    hide Step, Run, Has, Loaded, SubFlags, Table, Sorting, Within, At, Register, Address, Sited, DataAbort;
    var i: word := |t|;
    var s1 := u.(cpsr := SubFlags(u.cpsr, i, f.storage[6]));
    OuterTests(base, f, u, tab, t, i, s1);
    Here(TextOf(s1), base, 7);
    IndexedAddress(s1, true, 3, 1, tab, i);
    FaultStep(s1, base + 28, IndexedLoad(3, 1));
    RunPlus(u, 2, 1);
    ShortRuns(At(s1, base + 28));
    WithinAt(base, base + 92, s1, base + 28, 0);
    WithinNone(base, base + 92, Step(At(s1, base + 28)));
    WithinPlus(base, base + 92, u, 2, 1);
  }

  /** If the index cannot meet r6 before the memory ends, the loops run into its end. */
  lemma {:induction false} OuterOverruns(base: nat, f: Core, u: Core, tab: nat, t: seq<word>, i: nat)
    requires Sited(f, base, tab, |t|) && Outer(f, u, base, tab, t, i) && i <= |t| && |f.mem| < tab + 4 * |t| + 4
    requires f.storage[6] < i || |t| < f.storage[6]
    ensures var k := OverrunSteps(t, i);
            Within(base, base + 92, u, k) && Register(Run(u, k), PC) == ABORT_VECTOR
    decreases |t| - i
  {
    hide Run, Step, Loaded, Insert, InnerSteps, Within, Register, Table;
    if i == |t| {
      LoadFaults(base, f, u, tab, t);
    } else {
      hide Sorting;
      var k, t' := 4 + InnerSteps(t, i, t[i]), Insert(t, i, t[i]);
      OuterRound(base, f, u, tab, t, i);
      OuterOverruns(base, f, Run(u, k), tab, t', i + 1);
      RunPlus(u, k, OverrunSteps(t', i + 1));
      WithinPlus(base, base + 92, u, k, OverrunSteps(t', i + 1));
    }
  }

  // ----- the whole procedure

  function PtrN(s: Core, base: nat): word
    requires base + 240 <= |s.mem|
  {
    ReadWord(s.mem, s.cpsr.e, base + 236)
  }

  function PtrTab(s: Core, base: nat): word
    requires base + 240 <= |s.mem|
  {
    ReadWord(s.mem, s.cpsr.e, base + 232)
  }

  function N(s: Core, base: nat): word
    requires base + 240 <= |s.mem| && InMemory(s.mem, PtrN(s, base))
  {
    ReadWord(s.mem, s.cpsr.e, PtrN(s, base))
  }

  /** The bytes from low up to high are not among the six words pushed. */
  predicate OffStack(s: Core, low: nat, high: nat)
    requires |s.storage| == 31
  {
    high <= Register(s, SP) - 20 || Register(s, SP) + 4 <= low
  }

  /** The code in place, six words of stack off it, and the pointers and the length off them. */
  ghost predicate Loadable(s: Core, base: nat)
    ensures Loadable(s, base) ==> Loaded(TextOf(s), base)
    ensures Loadable(s, base) ==> |s.storage| == 31 && base + 240 <= |s.mem| < 0x1_0000_0000 && CanPush(s, SAVED)
    ensures Loadable(s, base) ==> InMemory(s.mem, PtrN(s, base))
  {
    && Loaded(TextOf(s), base) && CanPush(s, SAVED) && OffStack(s, base, base + 92)
    && base + 240 <= |s.mem| && OffStack(s, base + 232, base + 240)
    && InMemory(s.mem, PtrN(s, base)) && OffStack(s, PtrN(s, base), PtrN(s, base) + 4)
  }

  /** A table of at least one word that fits the memory. */
  ghost predicate Fits(s: Core, base: nat)
    requires base + 240 <= |s.mem| && InMemory(s.mem, PtrN(s, base))
  {
    1 <= N(s, base) && PtrTab(s, base) + 4 * N(s, base) <= |s.mem|
  }

  /** The first n words at PtrTab are off the code. */
  ghost predicate OffCode(s: Core, base: nat, n: nat)
    requires base + 240 <= |s.mem|
  {
    PtrTab(s, base) + 4 * n <= base || base + 92 <= PtrTab(s, base)
  }

  /** Besides, the table is off the code and the stack. */
  ghost predicate Ready(s: Core, base: nat)
    ensures Ready(s, base) ==> Loadable(s, base) && Fits(s, base)
  {
    && Loadable(s, base) && Fits(s, base) && OffCode(s, base, N(s, base))
    && OffStack(s, PtrTab(s, base), PtrTab(s, base) + 4 * N(s, base))
  }

  /** The words at PtrTab before the call. */
  function Given(s: Core, base: nat): (t: seq<word>)
    requires base + 240 <= |s.mem| && InMemory(s.mem, PtrN(s, base)) && PtrTab(s, base) + 4 * N(s, base) <= |s.mem|
    ensures |t| == N(s, base)
  {
    Table(s.mem, s.cpsr.e, PtrTab(s, base), N(s, base))
  }

  /** r6, r0 and r1 as the loops start with them. */
  function Started(p: Core, base: nat): (t: Core)
    requires |p.storage| == 31 && base + 240 <= |p.mem| && InMemory(p.mem, PtrN(p, base))
    ensures |t.storage| == 31 && t.mem == p.mem && t.cpsr == p.cpsr
  {
    Set(Set(Set(p, 6, N(p, base)), 0, PtrTab(p, base)), 1, 1)
  }

  /** A push leaves the words off the stack alone. */
  lemma PushedReads(s: Core, a: nat)
    requires CanPush(s, SAVED) && InMemory(s.mem, a) && OffStack(s, a, a + 4)
    ensures |Pushed(s, SAVED).mem| == |s.mem| && ReadWord(Pushed(s, SAVED).mem, s.cpsr.e, a) == ReadWord(s.mem, s.cpsr.e, a)
    ensures Pushed(s, SAVED).cpsr == s.cpsr && Pushed(s, SAVED).spsr == s.spsr
  {
    PushedKeeps(s, SAVED);
    hide Pushed, ReadWord;
    ReadSame(s.mem, Pushed(s, SAVED).mem, s.cpsr.e, a);
  }

  lemma StartRuns(base: nat, p: Core)
    requires Loaded(TextOf(p), base) && |p.storage| == 31 && base + 240 <= |p.mem| < 0x1_0000_0000
    requires InMemory(p.mem, PtrN(p, base))
    ensures Run(At(p, base + 4), 4) == At(Started(p, base), base + 20)
    ensures Within(base, base + 92, At(p, base + 4), 4)
  {
    hide Step, Run, Has, ReadWord, Register, Put, At, Loaded, Within;
    var pn, n, tab := PtrN(p, base), N(p, base), PtrTab(p, base);
    var s1 := Set(p, 0, pn);
    var s2 := Set(s1, 6, n);
    var s3 := Set(s2, 0, tab);
    Here(TextOf(p), base, 1);
    Here(TextOf(p), base, 2);
    Here(TextOf(p), base, 3);
    Here(TextOf(p), base, 4);
    Low(p, 0);
    Low(s1, 0);
    Low(s1, 6);
    Low(s2, 0);
    LiteralStep(p, base + 4, 0, 224);
    LoadStep(s1, base + 8, 6, 0);
    LiteralStep(s2, base + 12, 0, 212);
    LowStep(s3, base + 16, MOV, 1, 0, Imm(1));
    assert p.storage[0 := pn][6 := n][0 := tab] == p.storage[6 := n][0 := tab];
    ShortRuns(At(p, base + 4));
    WithinAt(base, base + 92, p, base + 4, 3);
    WithinThree(base, s1, base + 8, s2, s3);
  }

  /** The loops start, with r6 the length, on a table taken as having n words. */
  lemma StartsOuter(p: Core, base: nat, n: nat)
    requires |p.storage| == 31 && base + 240 <= |p.mem| < 0x1_0000_0000 && InMemory(p.mem, PtrN(p, base))
    requires PtrTab(p, base) + 4 * n <= |p.mem|
    ensures var tab, f := PtrTab(p, base), Started(p, base);
            Outer(f, At(f, base + 20), base, tab, Table(p.mem, p.cpsr.e, tab, n), 1) && f.storage[6] == N(p, base)
  {
    hide Table, ReadWord;
  }

  /** The push leaves the pointers and the length alone. */
  lemma PushedPointers(s: Core, base: nat)
    requires Loadable(s, base)
    ensures var p := Pushed(s, SAVED);
            && |p.mem| == |s.mem| && PtrN(p, base) == PtrN(s, base) && PtrTab(p, base) == PtrTab(s, base)
            && N(p, base) == N(s, base) && p.cpsr == s.cpsr && p.spsr == s.spsr
  {
    hide ReadWord, Pushed, Register;
    PushedReads(s, base + 232);
    PushedReads(s, base + 236);
    PushedReads(s, PtrN(s, base));
  }

  /** And the table, if that is off the stack. */
  lemma PushedGiven(s: Core, base: nat)
    requires Ready(s, base)
    ensures var p := Pushed(s, SAVED); |p.mem| == |s.mem| && Table(p.mem, s.cpsr.e, PtrTab(s, base), N(s, base)) == Given(s, base)
  {
    hide ReadWord, Pushed, Register;
    PushedPointers(s, base);
    forall i | 0 <= i < N(s, base)
      ensures Table(Pushed(s, SAVED).mem, s.cpsr.e, PtrTab(s, base), N(s, base))[i] == Given(s, base)[i]
    {
      PushedReads(s, PtrTab(s, base) + 4 * i);
    }
  }

  /** The push leaves the code in place. */
  lemma PushedText(s: Core, base: nat)
    requires Loadable(s, base)
    ensures Loaded(TextOf(Pushed(s, SAVED)), base)
  {
    hide LoadedAt, Pushed, PtrN;
    PushedKeeps(s, SAVED);
    LoadedKept(TextOf(s), TextOf(Pushed(s, SAVED)), base, SORT);
  }

  lemma PrologueRuns(base: nat, s: Core)
    requires Loadable(s, base)
    ensures var p := Pushed(s, SAVED);
            && |p.mem| == |s.mem| && p.cpsr == s.cpsr && PtrN(p, base) == PtrN(s, base) && PtrTab(p, base) == PtrTab(s, base)
            && Loaded(TextOf(p), base) && Run(At(s, base), 5) == At(Started(p, base), base + 20)
    ensures Within(base, base + 92, At(s, base), 5)
  {
    hide Step, Run, Has, Register, At, Pushed, Loaded, Started, PtrN, PtrTab, Within;
    PushedPointers(s, base);
    PushedText(s, base);
    Here(TextOf(s), base, 0);
    PushStep(s, base, SAVED);
    StartRuns(base, Pushed(s, SAVED));
    RunPlus(At(s, base), 1, 4);
    ShortRuns(At(s, base));
    WithinAt(base, base + 92, s, base, 4);
  }

  /** The loops start on the table as it is after the push. */
  lemma PrologueSited(base: nat, s: Core, n: nat)
    requires Loadable(s, base) && PtrTab(s, base) + 4 * n <= |s.mem| && OffCode(s, base, n)
    ensures var p := Pushed(s, SAVED);
            && |p.mem| == |s.mem| && p.cpsr == s.cpsr && PtrN(p, base) == PtrN(s, base) && N(p, base) == N(s, base)
            && Run(At(s, base), 5) == At(Started(p, base), base + 20)
            && Started(p, base).storage[6] == N(s, base) && Sited(Started(p, base), base, PtrTab(s, base), n)
            && Outer(Started(p, base), At(Started(p, base), base + 20), base, PtrTab(s, base),
                     Table(p.mem, p.cpsr.e, PtrTab(s, base), n), 1)
    ensures Within(base, base + 92, At(s, base), 5)
  {
    hide Step, Run, Register, At, Pushed, Loaded, PtrN, PtrTab, Outer, Within, Table, Loadable, N;
    PrologueRuns(base, s);
    PushedPointers(s, base);
    StartsOuter(Pushed(s, SAVED), base, n);
  }

  /** v differs from p only in r0 to r6, the program counter, the flags and the n words at tab. */
  ghost predicate Same(p: Core, v: Core, tab: nat, n: nat) {
    && |p.storage| == |v.storage| == 31 && |v.mem| == |p.mem| && v.spsr == p.spsr
    && v.cpsr == p.cpsr.(n := v.cpsr.n, z := v.cpsr.z, c := v.cpsr.c, v := v.cpsr.v)
    && (forall k :: 7 <= k < 31 && k != PC ==> v.storage[k] == p.storage[k])
    && (forall x :: 0 <= x < |p.mem| && !(tab <= x < tab + 4 * n) ==> v.mem[x] == p.mem[x])
  }

  lemma SortingSame(p: Core, base: nat, v: Core, tab: nat, t: seq<word>)
    requires |p.storage| == 31 && base + 240 <= |p.mem| && InMemory(p.mem, PtrN(p, base))
    requires Sorting(Started(p, base), v, tab, t)
    ensures Same(p, v, tab, |t|) && tab + 4 * |t| <= |v.mem| && Table(v.mem, p.cpsr.e, tab, |t|) == t
  {
    hide ReadWord, Table;
  }

  /** The loops leave the stack alone. */
  lemma SameHasPushed(s: Core, base: nat, v: Core)
    requires Ready(s, base) && Same(Pushed(s, SAVED), v, PtrTab(s, base), N(s, base))
    ensures HasPushed(s, SAVED, v) && |v.mem| == |s.mem|
  {
    hide Slot, ReadWord, Pushed, PtrN, PtrTab, N;
    PushedKeeps(s, SAVED);
    Slots(s.cpsr.mode);
    assert Register(v, SP) == Register(Pushed(s, SAVED), SP);
  }

  lemma PoppedSix(s: Core, v: Core)
    requires HasPushed(s, SAVED, v)
    ensures var u := Popped(v, SAVED);
            && u.mem == v.mem && u.cpsr == v.cpsr && u.spsr == v.spsr && Register(u, SP) == Register(s, SP)
            && (forall r :: 0 <= r < 6 ==> u.storage[r] == s.storage[r])
            && (forall k :: 6 <= k < 31 && k != Slot(v.cpsr.mode, SP) ==> u.storage[k] == v.storage[k])
  {
    hide Popped, Pushed, LoadMany, ReadWord;
    PopRestores(s, SAVED, v);
    forall r | 0 <= r < 6
      ensures Popped(v, SAVED).storage[r] == s.storage[r]
    {
      PoppedRegister(s, SAVED, v, r);
    }
  }

  lemma EpilogueRuns(base: nat, v: Core)
    requires Loaded(TextOf(v), base) && |v.storage| == 31 && Register(v, SP) + 28 <= |v.mem| < 0x1_0000_0000
    ensures Run(At(v, base + 84), 2) == At(Popped(v, SAVED), Register(v, LR))
    ensures Within(base, base + 92, At(v, base + 84), 2) && Register(Popped(v, SAVED), LR) == Register(v, LR)
  {
    hide Step, Run, Has, Loaded, Popped, Register, Within, At;
    Here(TextOf(v), base, 21);
    Here(TextOf(v), base, 22);
    PopStep(v, base + 84, SAVED);
    PoppedLink(v);
    ReturnStep(Popped(v, SAVED), base + 88, LR);
    ShortRuns(At(v, base + 84));
    WithinTwo(base, v, base + 84, Popped(v, SAVED));
  }

  lemma PoppedLink(v: Core)
    requires |v.storage| == 31 && Register(v, SP) + 28 <= |v.mem| < 0x1_0000_0000
    ensures var u := Popped(v, SAVED); Register(u, LR) == Register(v, LR) && u.mem == v.mem && u.cpsr == v.cpsr
  {
    hide Register, LoadMany;
    var sp := Register(v, SP);
    PutRegisters(v, SP, sp + 24, LR);
    LoadKeepsRegister(Put(v, SP, sp + 24), SAVED, sp + 4, LR);
  }

  /** What the procedure leaves: the table in order, r6 changed, and everything else as it was. */
  ghost predicate Sorted(s: Core, t: Core, base: nat)
    requires Ready(s, base)
  {
    var tab, n, sp := PtrTab(s, base), N(s, base), Register(s, SP);
    && |t.storage| == 31 && |t.mem| == |s.mem| && t.spsr == s.spsr
    && t.cpsr == s.cpsr.(n := t.cpsr.n, z := t.cpsr.z, c := t.cpsr.c, v := t.cpsr.v)
    && Ordered(Table(t.mem, s.cpsr.e, tab, n), n)
    && multiset(Table(t.mem, s.cpsr.e, tab, n)) == multiset(Given(s, base))
    && (forall k :: 0 <= k < 31 && k != 6 && k != PC ==> t.storage[k] == s.storage[k])
    && Register(t, PC) == Register(s, LR)
    && (forall x :: 0 <= x < |s.mem| && !(tab <= x < tab + 4 * n) && !(sp - 20 <= x < sp + 4) ==> t.mem[x] == s.mem[x])
  }

  lemma EpilogueSorts(s: Core, base: nat, v: Core)
    requires Ready(s, base) && HasPushed(s, SAVED, v) && Same(Pushed(s, SAVED), v, PtrTab(s, base), N(s, base))
    requires |v.mem| == |s.mem|
    requires Table(v.mem, s.cpsr.e, PtrTab(s, base), N(s, base)) == SortFrom(Given(s, base), 1)
    ensures Sorted(s, At(Popped(v, SAVED), Register(s, LR)), base)
  {
    hide Slot, ReadWord, Pushed, Popped, HasPushed, Given, SortFrom, Table;
    SortSorts(Given(s, base), 1);
    PushedKeeps(s, SAVED);
    PoppedSix(s, v);
    Slots(s.cpsr.mode);
  }

  /** How many instructions the call executes, on a table with the words t. */
  function CallSteps(t: seq<word>): nat
    requires 1 <= |t|
  {
    7 + OuterSteps(t, 1)
  }

  /** The table as it is after the push. */
  function Pushing(s: Core, base: nat): (t: seq<word>)
    requires Loadable(s, base) && Fits(s, base)
    ensures |t| == N(s, base)
  {
    Table(Pushed(s, SAVED).mem, s.cpsr.e, PtrTab(s, base), N(s, base))
  }

  /** v is at the epilogue: that table is sorted, and the stack pointer and the link register are as after the push. */
  ghost predicate Looped(s: Core, base: nat, v: Core) {
    && Loadable(s, base) && Fits(s, base) && PtrN(Pushed(s, SAVED), base) == PtrN(s, base)
    && Sorting(Started(Pushed(s, SAVED), base), v, PtrTab(s, base), SortFrom(Pushing(s, base), 1))
    && v.storage[PC] == base + 84 && Register(v, LR) == Register(s, LR) && Register(v, SP) == Register(s, SP) - 24
  }

  lemma LoopsRun(base: nat, s: Core) returns (v: Core)
    requires Loadable(s, base) && Fits(s, base) && OffCode(s, base, N(s, base))
    ensures Looped(s, base, v) && Loaded(TextOf(v), base)
    ensures v == Run(At(s, base), 5 + OuterSteps(Pushing(s, base), 1))
    ensures Within(base, base + 92, At(s, base), 5 + OuterSteps(Pushing(s, base), 1))
  {
    hide Step, Run, Has, Register, At, Pushed, Loaded, Started, PtrN, PtrTab, N, Outer, Sorting, Within, Table, Sited, Loadable;
    var tab, n := PtrTab(s, base), N(s, base);
    PrologueSited(base, s, n);
    var t, f := Pushing(s, base), Started(Pushed(s, SAVED), base);
    var u, k := At(f, base + 20), OuterSteps(t, 1);
    OuterRuns(base, f, u, tab, t, 1);
    v := Run(u, k);
    SortingText(f, v, base, tab, SortFrom(t, 1));
    LoopsStack(s, base, v);
    RunPlus(At(s, base), 5, k);
    WithinPlus(base, base + 92, At(s, base), 5, k);
  }

  /** The loops leave the stack pointer and the link register alone. */
  lemma LoopsStack(s: Core, base: nat, v: Core)
    requires Loadable(s, base) && Fits(s, base) && PtrN(Pushed(s, SAVED), base) == PtrN(s, base)
    requires Sorting(Started(Pushed(s, SAVED), base), v, PtrTab(s, base), SortFrom(Pushing(s, base), 1))
    ensures Register(v, SP) == Register(s, SP) - 24 && Register(v, LR) == Register(s, LR)
  {
    hide Pushed, Table, PtrN, PtrTab, N, Loaded, SortFrom, ReadWord;
    PushedKeeps(s, SAVED);
    PutRegisters(s, SP, Register(s, SP) - 24, LR);
    Slots(s.cpsr.mode);
  }

  lemma LoopedRoom(s: Core, base: nat, v: Core)
    requires Looped(s, base, v)
    ensures |v.storage| == 31 && v == At(v, base + 84) && Register(v, SP) + 28 <= |v.mem| == |s.mem| < 0x1_0000_0000
    ensures Register(v, LR) == Register(s, LR)
  {
    hide Pushed, Table, PtrN, PtrTab, N, Loaded, SortFrom, ReadWord, Pushing;
    AtIsHere(v);
  }

  /** Wherever the table is, off the code, the procedure gets to its epilogue and back. */
  lemma CallRuns(base: nat, s: Core) returns (v: Core)
    requires Loadable(s, base) && Fits(s, base) && OffCode(s, base, N(s, base))
    ensures Looped(s, base, v) && |v.storage| == 31 && Register(v, SP) + 28 <= |v.mem| == |s.mem| < 0x1_0000_0000
    ensures Run(At(s, base), CallSteps(Pushing(s, base))) == At(Popped(v, SAVED), Register(s, LR))
    ensures Within(base, base + 92, At(s, base), CallSteps(Pushing(s, base)))
  {
    hide Run, Register, At, Loaded, Looped, Popped, Within, Loadable, OffCode, Pushing, ReadWord;
    var k := 5 + OuterSteps(Pushing(s, base), 1);
    v := LoopsRun(base, s);
    LoopedRoom(s, base, v);
    EpilogueRuns(base, v);
    RunPlus(At(s, base), k, 2);
    WithinPlus(base, base + 92, At(s, base), k, 2);
  }

  /** A table off the stack is as it was given. */
  lemma PushingGiven(s: Core, base: nat)
    requires Ready(s, base)
    ensures Pushing(s, base) == Given(s, base)
  {
    hide Pushed, Table, PtrTab, N, Loadable, OffStack, OffCode;
    PushedGiven(s, base);
  }

  lemma LoopedSorted(s: Core, base: nat, v: Core)
    requires Ready(s, base) && Looped(s, base, v)
    ensures HasPushed(s, SAVED, v) && Same(Pushed(s, SAVED), v, PtrTab(s, base), N(s, base)) && |v.mem| == |s.mem|
    ensures Table(v.mem, s.cpsr.e, PtrTab(s, base), N(s, base)) == SortFrom(Given(s, base), 1)
  {
    hide Pushed, Table, PtrTab, PtrN, N, Loadable, OffStack, OffCode, Sorting, Started, SortFrom, Given, Pushing, Register,
      HasPushed, Same;
    PushingGiven(s, base);
    PushedKeeps(s, SAVED);
    PushedPointers(s, base);
    SortingSame(Pushed(s, SAVED), base, v, PtrTab(s, base), SortFrom(Given(s, base), 1));
    SameHasPushed(s, base, v);
  }

  /**
   For every table of at least one word, off the code and the stack, the procedure ends with
   its words in ascending signed order, and gives back r0 to r5, the stack pointer, the link
   register and all other memory.
   */
  lemma TriInsertionSorts(base: nat, s: Core)
    requires Ready(s, base)
    ensures Sorted(s, Run(At(s, base), CallSteps(Given(s, base))), base)
    ensures Within(base, base + 92, At(s, base), CallSteps(Given(s, base)))
  {
    hide Run, Register, At, Loadable, Given, Sorted, Looped, HasPushed, Popped, Within, OffCode, OffStack, Pushing, Fits, Same;
    PushingGiven(s, base);
    var v := CallRuns(base, s);
    LoopedSorted(s, base, v);
    EpilogueSorts(s, base, v);
  }

  /** The words between the start of the table and the end of the memory. */
  function WordsLeft(s: Core, base: nat): nat
    requires base + 240 <= |s.mem| && PtrTab(s, base) <= |s.mem|
  {
    (|s.mem| - PtrTab(s, base)) / 4
  }

  function Rest(s: Core, base: nat): (t: seq<word>)
    requires Loadable(s, base) && PtrTab(s, base) <= |s.mem|
    ensures |t| == WordsLeft(s, base)
  {
    Table(Pushed(s, SAVED).mem, s.cpsr.e, PtrTab(s, base), WordsLeft(s, base))
  }

  /** With N zero or too great, the loops run through the memory to its end and fault there. */
  lemma OverrunAborts(base: nat, s: Core)
    requires Loadable(s, base) && PtrTab(s, base) + 4 <= |s.mem| && !Fits(s, base) && OffCode(s, base, WordsLeft(s, base))
    requires !(base <= ABORT_VECTOR < base + 92)
    ensures LeavesFor(base, base + 92, At(s, base), ABORT_VECTOR, 5 + OverrunSteps(Rest(s, base), 1))
  {
    hide Step, Run, Register, At, Pushed, Loadable, Started, PtrN, PtrTab, N, Outer, Sorting, Within, Table, Sited, OffCode;
    var n := WordsLeft(s, base);
    PrologueSited(base, s, n);
    var f, t := Started(Pushed(s, SAVED), base), Rest(s, base);
    OuterOverruns(base, f, At(f, base + 20), PtrTab(s, base), t, 1);
    RunPlus(At(s, base), 5, OverrunSteps(t, 1));
    WithinPlus(base, base + 92, At(s, base), 5, OverrunSteps(t, 1));
  }

  /** n instructions after its entry the procedure is left for the caller's return address. */
  ghost predicate GetsBack(base: nat, s: Core, n: nat)
    requires |s.storage| == 31 && base < 0x1_0000_0000
  {
    LeavesFor(base, base + 92, At(s, base), Register(s, LR), n)
  }

  /**
   With a table that starts in memory, and with what the loops sort off the code (the table,
   or else all memory from its start on), the procedure gets back to its caller if and only if
   N is at least 1 and N words fit the memory; otherwise it faults at the end of the memory.
   */
  lemma TriInsertionReturnsIff(base: nat, s: Core)
    requires Loadable(s, base) && PtrTab(s, base) + 4 <= |s.mem|
    requires OffCode(s, base, if Fits(s, base) then N(s, base) else WordsLeft(s, base))
    requires !(base <= ABORT_VECTOR < base + 92) && !(base <= Register(s, LR) < base + 92) && Register(s, LR) != ABORT_VECTOR
    ensures (exists n: nat :: GetsBack(base, s, n)) <==> Fits(s, base)
  {
    hide Run, Loadable, Within, At, Register, Fits, OffCode, PtrTab, N, Popped, Pushed, Sorting, Started;
    if Fits(s, base) {
      ReturnAddress(base, s);
    } else {
      OverrunAborts(base, s);
      var k := 5 + OverrunSteps(Rest(s, base), 1);
      hide LeavesFor;
      forall n: nat
        ensures !GetsBack(base, s, n)
      {
        if GetsBack(base, s, n) {
          LeavesOnce(base, base + 92, At(s, base), Register(s, LR), n, ABORT_VECTOR, k);
        }
      }
    }
  }

  lemma ReturnAddress(base: nat, s: Core)
    requires Loadable(s, base) && Fits(s, base) && OffCode(s, base, N(s, base)) && !(base <= Register(s, LR) < base + 92)
    ensures GetsBack(base, s, CallSteps(Pushing(s, base)))
  {
    hide Run, Loadable, Within, At, OffCode, Looped, Popped, Pushing, Register, ReadWord;
    var v := CallRuns(base, s);
    Registers(Popped(v, SAVED), Register(s, LR), 0);
  }
}
