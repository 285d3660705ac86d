/** remplir_tab of Examples/tri_insertion.s: fill the table with N, N - 1, ..., 1. */
module RemplirTab {
  import opened Memory
  import opened Arm
  import opened ArmSteps
  import opened Encoding
  import opened TriInsertion

  const FILL: seq<Instr> := [
    LiteralInstr(0, 136),                                          //  92 remplir_tab
    LoadInstr(1, 0),                                               //  96
    LiteralInstr(0, 124),                                          // 100
    Data(AL, CMP, true, 0, 1, Imm(0)),                             // 104 loop_r
    Branch(LE, false, 2),                                          // 108
    Transfer(AL, false, false, true, false, 1, 0, Imm(4), 0),      // 112
    Data(AL, SUB, false, 1, 1, Imm(1)),                            // 116
    Branch(AL, false, -6),                                         // 120
    Data(AL, MOV, false, PC, 0, Reg(LR))                           // 124 end_loop_r
  ]                                                                // 232 ptr_tab, 236 ptr_n

  const FILL_WORDS: seq<word> := [
    0xE59F0088, 0xE5901000, 0xE59F007C, 0xE3510000, 0xDA000002, 0xE4801004, 0xE2411001, 0xEAFFFFFA, 0xE1A0F00E
  ]

  lemma FillAssembles()
    ensures Assembled(FILL, FILL_WORDS)
  {
    hide Assemble;
    TransferWord(FILL[0], FILL_WORDS[0]);
    TransferWord(FILL[1], FILL_WORDS[1]);
    TransferWord(FILL[2], FILL_WORDS[2]);
    DataWord(AL, CMP, true, 0, 1, Imm(0), FILL_WORDS[3]);
    BranchWord(LE, false, 2, FILL_WORDS[4]);
    TransferWord(FILL[5], FILL_WORDS[5]);
    DataWord(AL, SUB, false, 1, 1, Imm(1), FILL_WORDS[6]);
    BranchWord(AL, false, -6, FILL_WORDS[7]);
    DataWord(AL, MOV, false, PC, 0, Reg(LR), FILL_WORDS[8]);
  }

  /** The procedure is 92 bytes after tri_insertion at base. */
  ghost predicate FillLoaded(text: Text, base: nat)
    ensures FillLoaded(text, base) ==> base % 4 == 0 && base + 240 < 0x1_0000_0000 && base + 128 <= |text.mem|
  {
    LoadedAt(text, base + 92, FILL) && base % 4 == 0 && base + 240 < 0x1_0000_0000
  }

  lemma FillLoads(text: Text, base: nat)
    requires InPlace(text, base + 92, FILL_WORDS) && base % 4 == 0 && base + 240 < 0x1_0000_0000
    ensures FillLoaded(text, base)
  {
    hide InPlace, Assembled, LoadedAt;
    FillAssembles();
    WordsLoad(text, base + 92, FILL_WORDS, FILL);
  }

  lemma FillHere(text: Text, base: nat, k: nat)
    requires FillLoaded(text, base) && k < |FILL|
    ensures Has(text, base + 92 + 4 * k, FILL[k])
  {
    hide Has, LoadedAt;
    Placed(text, base + 92, FILL, k);
  }

  /** At loop_r, when k words of the n at tab are filled; s differs from f in r0, r1, the flags and those words. */
  ghost predicate Filling(f: Core, s: Core, tab: nat, n: nat, k: nat)
    ensures Filling(f, s, tab, n, k) ==> |f.storage| == |s.storage| == 31 && tab + 4 * n <= |s.mem| < 0x1_0000_0000 && k <= n
    ensures Filling(f, s, tab, n, k) ==> s.storage[0] == tab + 4 * k && s.storage[1] == n - k
  {
    && |f.storage| == |s.storage| == 31 && |s.mem| == |f.mem| < 0x1_0000_0000 && s.spsr == f.spsr && k <= n
    && s.cpsr == f.cpsr.(n := s.cpsr.n, z := s.cpsr.z, c := s.cpsr.c, v := s.cpsr.v)
    && tab + 4 * n <= |s.mem| && s.storage[0] == tab + 4 * k && s.storage[1] == n - k
    && (forall i :: 0 <= i < k ==> Table(s.mem, s.cpsr.e, tab, n)[i] == n - i)
    && (forall j :: 2 <= j < 31 && j != PC ==> s.storage[j] == f.storage[j])
    && (forall x :: 0 <= x < |s.mem| && !(tab <= x < tab + 4 * n) ==> s.mem[x] == f.mem[x])
  }

  lemma FillingMoved(f: Core, s: Core, tab: nat, n: nat, k: nat, pc: word)
    requires Filling(f, s, tab, n, k)
    ensures Filling(f, At(s, pc), tab, n, k)
  {
    hide Table;
  }

  lemma FillingFlags(f: Core, s: Core, tab: nat, n: nat, k: nat, a: word, b: word)
    requires Filling(f, s, tab, n, k)
    ensures Filling(f, s.(cpsr := SubFlags(s.cpsr, a, b)), tab, n, k)
  {
    hide Table;
  }

  /** The code is in place, and the table is off it. */
  ghost predicate FillSited(f: Core, base: nat, tab: nat, n: nat)
    ensures FillSited(f, base, tab, n) ==> base % 4 == 0 && base + 240 < 0x1_0000_0000
  {
    FillLoaded(TextOf(f), base) && (tab + 4 * n <= base + 92 || base + 128 <= tab)
  }

  lemma FillingText(f: Core, s: Core, base: nat, tab: nat, n: nat, k: nat)
    requires FillSited(f, base, tab, n) && Filling(f, s, tab, n, k)
    ensures FillLoaded(TextOf(s), base)
  {
    hide LoadedAt, Table;
    LoadedKept(TextOf(f), TextOf(s), base + 92, FILL);
  }

  /** The word after the last one filled. */
  function Filled(s: Core, a: word, v: word): (t: Core)
    requires |s.storage| == 31 && InMemory(s.mem, a) && a + 4 < 0x1_0000_0000 && v > 0
    ensures |t.storage| == 31
  {
    Set(Set(s, 0, a + 4), 1, v - 1).(mem := WriteWord(s.mem, s.cpsr.e, a, v))
  }

  lemma FillingNext(f: Core, s: Core, tab: nat, n: nat, k: nat)
    requires Filling(f, s, tab, n, k) && k < n
    ensures Filling(f, Filled(s, tab + 4 * k, n - k), tab, n, k + 1)
  {
    TableStore(s.mem, s.cpsr.e, tab, n, k, n - k);
    hide Table, WriteWord;
  }

  lemma PostStoreStep(s: Core, pc: word, a: word)
    requires |s.storage| == 31 && Has(TextOf(s), pc, FILL[5]) && s.storage[0] == a
    requires InMemory(s.mem, a) && |s.mem| < 0x1_0000_0000
    ensures Step(At(s, pc)) == At(Set(s, 0, a + 4).(mem := WriteWord(s.mem, s.cpsr.e, a, s.storage[1])), pc + 4)
  {
    Low(s, 0);
    Low(s, 1);
    Low(Set(s, 0, a + 4), 1);
    InRange(a + 4);
    hide Step, Has, WriteWord, Register, Wrap;
    TransferStep(s, pc, FILL[5]);
  }

  /** The core behind the store of a turn, v being the flags compared. */
  function StoredTurn(u: Core, a: word, v: word): (t: Core)
    requires |u.storage| == 31 && InMemory(u.mem, a) && a + 4 < 0x1_0000_0000
    ensures |t.storage| == 31
  {
    Set(u.(cpsr := SubFlags(u.cpsr, v, 0)), 0, a + 4).(mem := WriteWord(u.mem, u.cpsr.e, a, v))
  }

  /** The comparison, the branch not taken and the store of one turn. */
  lemma FillStores(base: nat, u: Core, a: word, v: word)
    requires |u.storage| == 31 && u.storage[PC] == base + 104 && u.storage[0] == a && u.storage[1] == v && Signed(v) > 0
    requires FillLoaded(TextOf(u), base) && InMemory(u.mem, a) && |u.mem| < 0x1_0000_0000
    ensures Run(u, 3) == At(StoredTurn(u, a, v), base + 116)
  {
    hide Step, Run, Has, FillLoaded, SubFlags, WriteWord, Sub, At, Signed;
    var s1 := u.(cpsr := SubFlags(u.cpsr, v, 0));
    FillHere(TextOf(u), base, 3);
    FillHere(TextOf(u), base, 4);
    FillHere(TextOf(u), base, 5);
    AtIsHere(u);
    Low(u, 1);
    LowStep(u, base + 104, CMP, 0, 1, Imm(0));
    CompareMeans(u.cpsr, v, 0);
    ZeroSigned();
    BranchStep(s1, base + 108, LE, false, 2);
    PostStoreStep(s1, base + 112, a);
    ShortRuns(u);
  }

  lemma ZeroSigned()
    ensures Signed(0) == 0
  {
  }

  /** The subtraction and the branch back. */
  lemma FillCounts(base: nat, s: Core, v: word)
    requires |s.storage| == 31 && s.storage[1] == v > 0 && FillLoaded(TextOf(s), base)
    ensures Run(At(s, base + 116), 2) == At(Set(s, 1, v - 1), base + 104)
  {
    hide Step, Run, Has, FillLoaded, Sub, At;
    FillHere(TextOf(s), base, 6);
    FillHere(TextOf(s), base, 7);
    SubInRange(v, 1);
    Low(s, 1);
    LowStep(s, base + 116, SUB, 1, 1, Imm(1));
    BranchStep(Set(s, 1, v - 1), base + 120, AL, false, -6);
    ShortRuns(At(s, base + 116));
  }

  /** One turn of the loop. */
  lemma FillTurns(base: nat, f: Core, u: Core, tab: nat, n: nat, k: nat)
    requires FillSited(f, base, tab, n) && Filling(f, u, tab, n, k) && u.storage[PC] == base + 104 && k < n
    ensures Filling(f, Run(u, 5), tab, n, k + 1) && Run(u, 5).storage[PC] == base + 104
  {
    hide Step, Run, Has, FillLoaded, SubFlags, Table, Filling, WriteWord, Sub;
    var a: word, v: word := tab + 4 * k, n - k;
    var s1 := u.(cpsr := SubFlags(u.cpsr, v, 0));
    var s2 := StoredTurn(u, a, v);
    FillingText(f, u, base, tab, n, k);
    FillStores(base, u, a, v);
    FillingFlags(f, u, tab, n, k, v, 0);
    FillingNext(f, s1, tab, n, k);
    FillingText(f, Filled(s1, a, v), base, tab, n, k + 1);
    FillCounts(base, s2, v);
    assert Filled(s1, a, v) == Set(s2, 1, v - 1);
    FillingMoved(f, Filled(s1, a, v), tab, n, k + 1, base + 104);
    RunPlus(u, 3, 2);
  }

  lemma FillEnds(base: nat, f: Core, u: Core, tab: nat, n: nat)
    requires FillSited(f, base, tab, n) && Filling(f, u, tab, n, n) && u.storage[PC] == base + 104
    ensures Filling(f, Run(u, 3), tab, n, n) && Run(u, 3).storage[PC] == Register(u, LR)
  {
    hide Step, Run, Has, FillLoaded, Table, Filling, Register;
    FillingText(f, u, base, tab, n, n);
    var s1 := u.(cpsr := SubFlags(u.cpsr, 0, 0));
    FillHere(TextOf(u), base, 3);
    FillHere(TextOf(u), base, 4);
    FillHere(TextOf(u), base, 8);
    AtIsHere(u);
    LowStep(u, base + 104, CMP, 0, 1, Imm(0));
    CompareMeans(u.cpsr, 0, 0);
    BranchStep(s1, base + 108, LE, false, 2);
    ReturnStep(s1, base + 124, LR);
    SameStorage(u, s1);
    FillingFlags(f, u, tab, n, n, 0, 0);
    FillingMoved(f, s1, tab, n, n, Register(u, LR));
    ShortRuns(u);
  }

  lemma {:induction false} FillLoops(base: nat, f: Core, u: Core, tab: nat, n: nat, k: nat)
    requires FillSited(f, base, tab, n) && Filling(f, u, tab, n, k) && u.storage[PC] == base + 104
    ensures var t := Run(u, 5 * (n - k) + 3);
            Filling(f, t, tab, n, n) && t.storage[PC] == Register(f, LR)
    decreases n - k
  {
    hide Step, Run, LoadedAt, Table;
    if k == n {
      FillEnds(base, f, u, tab, n);
    } else {
      FillTurns(base, f, u, tab, n, k);
      FillLoops(base, f, Run(u, 5), tab, n, k + 1);
      RunPlus(u, 5, 5 * (n - k - 1) + 3);
    }
  }

  /** r0 and r1 as the loop starts with them. */
  function Begun(s: Core, base: nat): (t: Core)
    requires |s.storage| == 31 && base + 240 <= |s.mem| && InMemory(s.mem, PtrN(s, base))
    ensures |t.storage| == 31 && t.mem == s.mem && t.cpsr == s.cpsr
  {
    Set(Set(s, 1, N(s, base)), 0, PtrTab(s, base))
  }

  lemma FillBegins(base: nat, s: Core)
    requires FillLoaded(TextOf(s), base) && |s.storage| == 31 && base + 240 <= |s.mem| < 0x1_0000_0000
    requires InMemory(s.mem, PtrN(s, base))
    ensures Run(At(s, base + 92), 3) == At(Begun(s, base), base + 104)
  {
    hide Step, Run, Has, ReadWord, Register, Put, At, LoadedAt;
    var pn, n, tab := PtrN(s, base), N(s, base), PtrTab(s, base);
    var s1 := Set(s, 0, pn);
    var s2 := Set(s1, 1, n);
    FillHere(TextOf(s), base, 0);
    FillHere(TextOf(s), base, 1);
    FillHere(TextOf(s), base, 2);
    Low(s, 0);
    Low(s1, 0);
    Low(s1, 1);
    Low(s2, 0);
    LiteralStep(s, base + 92, 0, 136);
    LoadStep(s1, base + 96, 1, 0);
    LiteralStep(s2, base + 100, 0, 124);
    assert s.storage[0 := pn][1 := n][0 := tab] == s.storage[1 := n][0 := tab];
    ShortRuns(At(s, base + 92));
  }

  /** t is back from the call with the n words at tab counting down from n; only r0, r1 and the flags have changed too. */
  ghost predicate CountsDown(s: Core, t: Core, tab: nat, n: nat) {
    && |s.storage| == |t.storage| == 31 && |t.mem| == |s.mem| && tab + 4 * n <= |s.mem|
    && (forall i :: 0 <= i < n ==> Table(t.mem, s.cpsr.e, tab, n)[i] == n - i)
    && Register(t, PC) == Register(s, LR) && t.spsr == s.spsr
    && t.cpsr == s.cpsr.(n := t.cpsr.n, z := t.cpsr.z, c := t.cpsr.c, v := t.cpsr.v)
    && (forall j :: 2 <= j < 31 && j != PC ==> t.storage[j] == s.storage[j])
    && (forall x :: 0 <= x < |s.mem| && !(tab <= x < tab + 4 * n) ==> t.mem[x] == s.mem[x])
  }

  lemma FilledCounts(s: Core, base: nat, t: Core, tab: nat, n: nat)
    requires |s.storage| == 31 && base + 240 <= |s.mem| && InMemory(s.mem, PtrN(s, base))
    requires Filling(Begun(s, base), t, tab, n, n) && t.storage[PC] == Register(Begun(s, base), LR)
    ensures CountsDown(s, t, tab, n)
  {
    hide Table, ReadWord;
    Slots(s.cpsr.mode);
  }

  lemma BegunFilling(s: Core, base: nat)
    requires |s.storage| == 31 && base + 240 <= |s.mem| < 0x1_0000_0000
    requires InMemory(s.mem, PtrN(s, base)) && PtrTab(s, base) + 4 * N(s, base) <= |s.mem|
    ensures Filling(Begun(s, base), At(Begun(s, base), base + 104), PtrTab(s, base), N(s, base), 0)
    ensures At(Begun(s, base), base + 104).storage[PC] == base + 104
  {
    hide Table, ReadWord;
  }

  /** For every N, even none, with the table off the code, the procedure returns with the table counting down from N. */
  lemma RemplirTabFills(base: nat, s: Core)
    requires FillLoaded(TextOf(s), base) && |s.storage| == 31 && base + 240 <= |s.mem| < 0x1_0000_0000
    requires InMemory(s.mem, PtrN(s, base)) && PtrTab(s, base) + 4 * N(s, base) <= |s.mem|
    requires PtrTab(s, base) + 4 * N(s, base) <= base + 92 || base + 128 <= PtrTab(s, base)
    ensures CountsDown(s, Run(At(s, base + 92), 5 * N(s, base) + 6), PtrTab(s, base), N(s, base))
  {
    hide Step, Run, LoadedAt, ReadWord, Filling, CountsDown, Begun, At, Register;
    var tab, u := PtrTab(s, base), At(Begun(s, base), base + 104);
    var n: nat := N(s, base);
    FillBegins(base, s);
    BegunFilling(s, base);
    FillLoops(base, Begun(s, base), u, tab, n, 0);
    FilledCounts(s, base, Run(u, 5 * n + 3), tab, n);
    RunPlus(At(s, base + 92), 3, 5 * n + 3);
  }
}
