/** ldm and stm in all four addressing modes, and that each undoes its counterpart, as Examples/exampleLDM_STM.s has them. */
module Blocks {
  import opened Bytes
  import opened Memory
  import opened Arm
  import opened ArmSteps

  /** The lowest address of a transfer of n words: behind or at the base upwards, in front of or at it downwards. */
  function Lowest(base: int, n: nat, up: bool, before: bool): int {
    if up then (if before then base + 4 else base)
    else if before then base - 4 * n else base - 4 * (n - 1)
  }

  function Beyond(base: int, n: nat, up: bool): int {
    if up then base + 4 * n else base - 4 * n
  }

  /** The base register moved, if it is to be written back. */
  function Based(s: Core, ins: Instr): (t: Core)
    requires |s.storage| == 31 && ins.Block? && ins.rn < PC
    requires ins.writeBack ==> 0 <= Beyond(Register(s, ins.rn), |ins.list|, ins.up) < 0x1_0000_0000
    ensures |t.storage| == 31 && t.mem == s.mem && t.cpsr == s.cpsr
  {
    if ins.writeBack then Put(s, ins.rn, Beyond(Register(s, ins.rn), |ins.list|, ins.up)) else s
  }

  /** The words lie in the memory. */
  predicate Reaches(s: Core, ins: Instr)
    requires |s.storage| == 31 && ins.Block? && ins.rn < PC
  {
    var n, base := |ins.list|, Register(s, ins.rn);
    var low := Lowest(base, n, ins.up, ins.before);
    && 0 < n && 0 <= low && low + 4 * n <= |s.mem| < 0x1_0000_0000
    && (ins.writeBack ==> 0 <= Beyond(base, n, ins.up) < 0x1_0000_0000)
  }

  lemma BlockAt(s: Core, ins: Instr, pc: word)
    requires |s.storage| == 31 && ins.Block? && WellFormed(ins) && Listed(ins.list) && Reaches(s, ins)
    ensures var low, v := Lowest(Register(s, ins.rn), |ins.list|, ins.up, ins.before), Based(s, ins);
            && low >= 0
            && ExecBlock(At(s, pc), ins) == At(if ins.load then LoadMany(v, ins.list, low) else StoreMany(v, ins.list, low), pc)
  {
    hide Slot, WriteRegister, Register, ReadRegister, StoreMany, LoadMany, Wrap, At, Put;
    var base, n := Register(s, ins.rn), |ins.list|;
    var low, beyond := Lowest(base, n, ins.up, ins.before), Beyond(base, n, ins.up);
    PlainReads(s, pc);
    InRange(low);
    if ins.writeBack {
      InRange(beyond);
      PutAt(s, ins.rn, beyond, pc);
    }
    if ins.load {
      LoadManyAt(Based(s, ins), ins.list, low, pc);
    } else {
      StoreManyAt(Based(s, ins), ins.list, low, pc);
    }
  }

  /** stm: register i of the list, the base moved before, lies in word i from the lowest address on; no other byte changes. */
  lemma StoreBlock(s: Core, pc: word, ins: Instr)
    requires |s.storage| == 31 && Has(TextOf(s), pc, ins) && ins.Block? && !ins.load && ins.cond == AL && ins.rn < PC
    requires Listed(ins.list) && Reaches(s, ins) && pc + 4 < 0x1_0000_0000
    ensures var t, v, low := Step(At(s, pc)), Based(s, ins), Lowest(Register(s, ins.rn), |ins.list|, ins.up, ins.before);
            && t == At(v.(mem := t.mem), pc + 4) && |t.mem| == |s.mem|
            && (forall i :: 0 <= i < |ins.list| ==> IsWordAt(t.mem, t.cpsr.e, low + 4 * i, Register(v, ins.list[i])))
            && (forall x :: 0 <= x < |s.mem| && !(low <= x < low + 4 * |ins.list|) ==> t.mem[x] == s.mem[x])
  {
    hide Step, Has, Register, StoreMany, At, ExecBlock, Put, IsWordAt, ReadWord, Based, Lowest;
    LowestIs(s, ins);
    Fetch(s, pc, ins);
    BlockAt(s, ins, pc + 4);
    var v, low := Based(s, ins), Lowest(Register(s, ins.rn), |ins.list|, ins.up, ins.before);
    StoreKeeps(v, ins.list, low);
    forall i | 0 <= i < |ins.list|
      ensures IsWordAt(StoreMany(v, ins.list, low).mem, v.cpsr.e, low + 4 * i, Register(v, ins.list[i]))
    {
      StoredWord(v, ins.list, low, i);
      WordsAsBytes(StoreMany(v, ins.list, low).mem, v.cpsr.e, low + 4 * i, Register(v, ins.list[i]));
    }
  }

  lemma LowestIs(s: Core, ins: Instr)
    requires |s.storage| == 31 && ins.Block? && ins.rn < PC && Reaches(s, ins)
    ensures 0 <= Lowest(Register(s, ins.rn), |ins.list|, ins.up, ins.before)
    ensures Lowest(Register(s, ins.rn), |ins.list|, ins.up, ins.before) + 4 * |ins.list| <= |s.mem| < 0x1_0000_0000
  {
  }

  /** ldm: register i of the list comes from word i; the others, but for the base, stay. */
  lemma LoadBlock(s: Core, pc: word, ins: Instr)
    requires |s.storage| == 31 && Has(TextOf(s), pc, ins) && ins.Block? && ins.load && ins.cond == AL && ins.rn < PC
    requires Listed(ins.list) && Reaches(s, ins) && pc + 4 < 0x1_0000_0000
    ensures var t, v, low := Step(At(s, pc)), Based(s, ins), Lowest(Register(s, ins.rn), |ins.list|, ins.up, ins.before);
            && t.mem == s.mem && t.cpsr == s.cpsr && Register(t, PC) == pc + 4
            && (forall i :: 0 <= i < |ins.list| ==> IsWordAt(s.mem, s.cpsr.e, low + 4 * i, Register(t, ins.list[i])))
            && (forall q :: 0 <= q < PC && q !in ins.list ==> Register(t, q) == Register(v, q))
  {
    hide Step, Has, Register, LoadMany, At, ExecBlock, Put, IsWordAt, ReadWord, Based, Lowest;
    LowestIs(s, ins);
    Fetch(s, pc, ins);
    BlockAt(s, ins, pc + 4);
    var v, low := Based(s, ins), Lowest(Register(s, ins.rn), |ins.list|, ins.up, ins.before);
    var u := LoadMany(v, ins.list, low);
    forall q | 0 <= q < PC
      ensures Register(At(u, pc + 4), q) == Register(u, q)
    {
      Registers(u, pc + 4, q);
    }
    Registers(u, pc + 4, 0);
    LoadedSame(v, ins.list, low);
    forall i | 0 <= i < |ins.list|
      ensures IsWordAt(s.mem, s.cpsr.e, low + 4 * i, Register(u, ins.list[i]))
    {
      LoadedRegister(v, ins.list, low, i);
      WordsAsBytes(s.mem, s.cpsr.e, low + 4 * i, Register(u, ins.list[i]));
    }
    forall q | 0 <= q < PC && q !in ins.list
      ensures Register(u, q) == Register(v, q)
    {
      LoadKeepsRegister(v, ins.list, low, q);
    }
  }

  lemma {:induction false} LoadedSame(s: Core, list: seq<nat>, a: nat)
    requires |s.storage| == 31 && Listed(list) && a + 4 * |list| <= |s.mem| < 0x1_0000_0000
    ensures var t := LoadMany(s, list, a); t.mem == s.mem && t.cpsr == s.cpsr && t.spsr == s.spsr
    decreases |list|
  {
    hide ReadWord, Slot;
    if list != [] {
      InRange(a + 4);
      LoadedSame(Put(s, list[0], ReadWord(s.mem, s.cpsr.e, a)), list[1..], a + 4);
    }
  }

  /** A word at a place is one word only. */
  lemma OneWord(mem: seq<byte>, e: bool, a: nat, v: word, w: word)
    requires IsWordAt(mem, e, a, v) && IsWordAt(mem, e, a, w)
    ensures v == w
  {
  }

  /** The core after a store, at its old program counter. */
  function Middle(s: Core, pc: word, store: Instr): (u: Core)
    requires |s.storage| == 31 && store.Block? && store.rn < PC && Reaches(s, store)
    ensures |u.storage| == 31
  {
    Based(s, store).(mem := Step(At(s, pc)).mem)
  }

  /** A store with write-back at pc, and the load that undoes it behind it. */
  ghost predicate AreCounterparts(s: Core, pc: word, store: Instr, load: Instr) {
    && |s.storage| == 31 && store.Block? && load.Block? && store.rn < PC && Has(TextOf(s), pc, store) && Has(TextOf(s), pc + 4, load)
    && store.cond == load.cond == AL && !store.load && load.load && store.writeBack && load.writeBack
    && load.rn == store.rn && load.up == !store.up && load.before == !store.before
    && Listed(store.list) && Listed(load.list) && |load.list| == |store.list|
    && store.rn !in store.list && load.rn !in load.list && Reaches(s, store)
    && var low := Lowest(Register(s, store.rn), |store.list|, store.up, store.before);
       pc + 8 <= low || low + 4 * |store.list| <= pc + 4
  }

  /** The load takes the words from where they have been stored. */
  lemma SamePlace(base: int, n: nat, up: bool, before: bool)
    requires n > 0
    ensures Lowest(Beyond(base, n, up), n, !up, !before) == Lowest(base, n, up, before)
    ensures Beyond(Beyond(base, n, up), n, !up) == base
  {
  }

  /** What the store leaves. */
  lemma MiddleFacts(s: Core, pc: word, store: Instr, load: Instr)
    requires AreCounterparts(s, pc, store, load)
    ensures |s.storage| == 31 && store.Block? && store.rn < PC && Reaches(s, store) && pc + 8 < 0x1_0000_0000
    ensures var u, low := Middle(s, pc, store), Lowest(Register(s, store.rn), |store.list|, store.up, store.before);
            && Step(At(s, pc)) == At(u, pc + 4) && |u.mem| == |s.mem| && u.cpsr == s.cpsr
            && Register(u, store.rn) == Beyond(Register(s, store.rn), |store.list|, store.up)
            && (forall i :: 0 <= i < |store.list| ==> IsWordAt(u.mem, u.cpsr.e, low + 4 * i, Register(s, store.list[i])))
            && (forall x :: 0 <= x < |s.mem| && !(low <= x < low + 4 * |store.list|) ==> u.mem[x] == s.mem[x])
  {
    HasRoom(TextOf(s), pc, store);
    StoreBlock(s, pc, store);
    hide Step, Has, IsWordAt, At, Register;
    var v, beyond := Based(s, store), Beyond(Register(s, store.rn), |store.list|, store.up);
    PutRegisters(s, store.rn, beyond, store.rn);
    forall i | 0 <= i < |store.list|
      ensures Register(v, store.list[i]) == Register(s, store.list[i])
    {
      PutRegisters(s, store.rn, beyond, store.list[i]);
    }
    SameStorage(v, Middle(s, pc, store));
  }

  lemma Counterparts(s: Core, pc: word, store: Instr, load: Instr)
    requires AreCounterparts(s, pc, store, load)
    ensures |s.storage| == 31 && store.Block? && load.Block? && store.rn < PC && load.rn == store.rn && load.load && load.cond == AL
    ensures |load.list| == |store.list| && Listed(store.list) && Listed(load.list) && load.rn !in load.list
    ensures forall i :: 0 <= i < |store.list| ==> store.list[i] < PC && load.list[i] < PC
    ensures Reaches(s, store) && pc + 12 < 0x1_0000_0000
  {
    hide Has, Reaches, Lowest;
    HasRoom(TextOf(s), pc + 4, load);
  }

  lemma ReachesBack(s: Core, u: Core, store: Instr, load: Instr)
    requires |s.storage| == |u.storage| == 31 && store.Block? && load.Block? && load.rn == store.rn < PC && Reaches(s, store)
    requires store.writeBack && load.up == !store.up && load.before == !store.before && |load.list| == |store.list|
    requires |u.mem| == |s.mem| && Register(u, store.rn) == Beyond(Register(s, store.rn), |store.list|, store.up)
    ensures Reaches(u, load)
    ensures Lowest(Register(u, load.rn), |load.list|, load.up, load.before)
            == Lowest(Register(s, store.rn), |store.list|, store.up, store.before)
    ensures load.writeBack ==> Register(Based(u, load), load.rn) == Register(s, store.rn)
  {
    hide Register, Put;
    SamePlace(Register(s, store.rn), |store.list|, store.up, store.before);
    PutRegisters(u, load.rn, Register(s, store.rn), load.rn);
  }

  lemma Inverted(s: Core, pc: word, store: Instr, load: Instr)
    requires AreCounterparts(s, pc, store, load)
    ensures store.Block? && load.Block? && store.writeBack && load.writeBack && load.up == !store.up && load.before == !store.before
    ensures |s.storage| == 31 && store.rn < PC && Has(TextOf(s), pc + 4, load) && pc + 8 <= |s.mem|
    ensures var low := Lowest(Register(s, store.rn), |store.list|, store.up, store.before);
            pc + 8 <= low || low + 4 * |store.list| <= pc + 4
  {
    hide Decode, ReadWord, Reaches, Lowest;
  }

  lemma MiddleLoads(s: Core, pc: word, store: Instr, load: Instr)
    requires AreCounterparts(s, pc, store, load)
    ensures |s.storage| == 31 && store.Block? && load.Block? && store.rn < PC && load.rn < PC && Reaches(s, store) && pc + 8 < 0x1_0000_0000
    ensures var u := Middle(s, pc, store);
            && Has(TextOf(u), pc + 4, load) && Reaches(u, load)
            && Lowest(Register(u, load.rn), |load.list|, load.up, load.before)
               == Lowest(Register(s, store.rn), |store.list|, store.up, store.before)
            && Register(Based(u, load), load.rn) == Register(s, store.rn)
  {
    hide AreCounterparts, Step, Has, IsWordAt, At, Register, Middle, Based, Lowest, Beyond;
    Counterparts(s, pc, store, load);
    Inverted(s, pc, store, load);
    MiddleFacts(s, pc, store, load);
    var u := Middle(s, pc, store);
    ReachesBack(s, u, store, load);
    HasKept(TextOf(s), TextOf(u), pc + 4, load);
  }

  lemma HasKept(text: Text, other: Text, pc: nat, ins: Instr)
    requires Has(text, pc, ins) && other.e == text.e && |other.mem| == |text.mem|
    requires forall x :: pc <= x < pc + 4 ==> 0 <= x < |text.mem| && other.mem[x] == text.mem[x]
    ensures Has(other, pc, ins)
  {
    hide Decode, ReadWord;
    ReadSame(text.mem, other.mem, text.e, pc);
  }

  /** What the load finds in the words stored. */
  lemma LoadsBack(s: Core, pc: word, store: Instr, load: Instr)
    requires AreCounterparts(s, pc, store, load)
    ensures |s.storage| == 31 && store.Block? && load.Block? && store.rn < PC && Reaches(s, store) && pc + 4 < 0x1_0000_0000
    ensures var u, low := Middle(s, pc, store), Lowest(Register(s, store.rn), |store.list|, store.up, store.before);
            var t := Step(At(u, pc + 4));
            && Register(t, PC) == pc + 8 && Register(t, store.rn) == Register(s, store.rn)
            && (forall i :: 0 <= i < |load.list| ==>
                  load.list[i] < PC && IsWordAt(u.mem, u.cpsr.e, low + 4 * i, Register(t, load.list[i])))
  {
    hide AreCounterparts, Step, Has, At, IsWordAt, Register, Based, Reaches, Lowest, Beyond, Listed, Middle;
    Counterparts(s, pc, store, load);
    MiddleLoads(s, pc, store, load);
    LoadBlock(Middle(s, pc, store), pc + 4, load);
  }

  /**
   A store and a load with both bits inverted, on the same base and both with write-back: the
   second list gets the values of the first, in order, and the base is back.
   */
  lemma CounterpartRestores(s: Core, pc: word, store: Instr, load: Instr)
    requires AreCounterparts(s, pc, store, load)
    ensures |s.storage| == 31 && store.Block? && load.Block? && |load.list| == |store.list| && Listed(store.list) && Listed(load.list)
    ensures var t := Run(At(s, pc), 2);
            && (forall i :: 0 <= i < |store.list| ==> Register(t, load.list[i]) == Register(s, store.list[i]))
            && store.rn < PC && Register(t, store.rn) == Register(s, store.rn) && Register(t, PC) == pc + 8
  {
    hide AreCounterparts, Run, Step, Has, At, IsWordAt, Register, Reaches, Lowest, Listed, Middle;
    Counterparts(s, pc, store, load);
    MiddleFacts(s, pc, store, load);
    LoadsBack(s, pc, store, load);
    LowestIs(s, store);
    ShortRuns(At(s, pc));
    var u := Middle(s, pc, store);
    var t, low := Step(At(u, pc + 4)), Lowest(Register(s, store.rn), |store.list|, store.up, store.before);
    forall i | 0 <= i < |store.list|
      ensures Register(t, load.list[i]) == Register(s, store.list[i])
    {
      OneWord(u.mem, u.cpsr.e, low + 4 * i, Register(s, store.list[i]), Register(t, load.list[i]));
    }
  }
}
