/**
 Whole runs from a reset simulator in the layout of the examples: 0x20000 bytes of memory,
 text from 0x20, data from 0x2800, and the stack that a reset gives the supervisor mode.
 */
module Layout {
  import opened Bytes
  import opened Memory
  import opened Arm
  import opened Encoding
  import opened Simulator
  import IrqDemo
  import IrqHandler
  import Interrupts
  import Pgcd
  import Programs
  import TriInsertion

  const MEMORY_SIZE := 0x20000
  const TEXT := 0x20
  const DATA := 0x2800

  /** As a reset leaves it, but for the memory. */
  ghost predicate Fresh(s: Core) {
    && |s.storage| == 31 && |s.mem| == MEMORY_SIZE && s.cpsr.mode == SVC && !s.cpsr.i && s.cpsr.e == EE_BIT
    && Register(s, SP) == 0x10300
  }

  lemma ResetIsFresh(s: Core, t: Core)
    requires |s.storage| == 31 && t == Reset(s) && |t.mem| == MEMORY_SIZE
    ensures Fresh(t)
  {
    ResetStacks(s, SVC);
    hide Reset;
  }

  method Create() returns (core: ArmCore)
    ensures fresh(core) && fresh(core.registers) && fresh(core.memory) && core.Valid() && Fresh(core.Value())
  {
    hide Reset, Fresh;
    var memory := new byte[MEMORY_SIZE];
    core := new ArmCore(memory);
    ghost var s: Core :| |s.storage| == 31 && core.Value() == Reset(s);
    ResetIsFresh(s, core.Value());
  }

  // ----- pgcd

  /** main and pgcd, with the swi between them, then the addresses of A, B and res. */
  const PGCD_IMAGE: seq<word> := Pgcd.MAIN_WORDS + [0xEF123456] + Pgcd.PGCD_WORDS + [DATA, DATA + 4, DATA + 8]

  /** Words in place contain every part of them. */
  lemma PartInPlace(text: Text, base: nat, words: seq<word>, from: nat, part: seq<word>)
    requires InPlace(text, base, words) && from + |part| <= |words| && words[from..from + |part|] == part
    ensures InPlace(text, base + 4 * from, part)
  {
    hide ReadWord;
    forall k | 0 <= k < |part|
      ensures ReadWord(text.mem, text.e, base + 4 * from + 4 * k) == part[k]
    {
      assert words[from + k] == words[from..from + |part|][k];
    }
  }

  /** Words in place stay there while nothing is written on them. */
  lemma StillInPlace(text: Text, other: Text, base: nat, words: seq<word>)
    requires InPlace(text, base, words) && other.e == text.e && |other.mem| == |text.mem|
    requires forall x :: base <= x < base + 4 * |words| ==> other.mem[x] == text.mem[x]
    ensures InPlace(other, base, words)
  {
    hide ReadWord;
    forall k | 0 <= k < |words|
      ensures ReadWord(other.mem, other.e, base + 4 * k) == words[k]
    {
      ReadSame(text.mem, other.mem, text.e, base + 4 * k);
    }
  }

  /** The image of a program and its data put into the memory of a fresh core, which then stands at pc. */
  method LoadImage(core: ArmCore, image: seq<word>, data: seq<word>, pc: word)
    requires core.Valid() && Fresh(core.Value()) && TEXT + 4 * |image| <= DATA && DATA + 4 * |data| <= 0x4800
    modifies core.registers, core.memory
    ensures core.Valid() && Fresh(core.Value()) && core.registers[PC] == pc
    ensures InPlace(TextOf(core.Value()), TEXT, image) && InPlace(TextOf(core.Value()), DATA, data)
    ensures forall x :: 0 <= x < MEMORY_SIZE && !(TEXT <= x < TEXT + 4 * |image|) && !(DATA <= x < DATA + 4 * |data|) ==>
              core.memory[..][x] == old(core.memory[..])[x]
  {
    hide ReadWord, Slot;
    core.LoadWords(TEXT, image);
    ghost var text := TextOf(core.Value());
    core.LoadWords(DATA, data);
    StillInPlace(text, TextOf(core.Value()), TEXT, image);
    core.Write(PC, pc);
    PcApart();
  }

  lemma PcApart()
    ensures Slot(SVC, PC) == PC && Slot(SVC, SP) != PC
  {
  }

  lemma PgcdImage(s: Core, a: word, b: word)
    requires Fresh(s) && InPlace(TextOf(s), TEXT, PGCD_IMAGE) && InPlace(TextOf(s), DATA, [a, b, 0])
    ensures InPlace(TextOf(s), TEXT, Pgcd.MAIN_WORDS) && InPlace(TextOf(s), TEXT + 40, Pgcd.PGCD_WORDS)
    ensures Pgcd.Prepared(s, TEXT) && Pgcd.A(s, TEXT) == a && Pgcd.B(s, TEXT) == b && Pgcd.Pointed(s, TEXT, 88) == DATA + 8
  {
    hide ReadWord;
    assert PGCD_IMAGE[0..9] == Pgcd.MAIN_WORDS && PGCD_IMAGE[10..20] == Pgcd.PGCD_WORDS;
    PartInPlace(TextOf(s), TEXT, PGCD_IMAGE, 0, Pgcd.MAIN_WORDS);
    PartInPlace(TextOf(s), TEXT, PGCD_IMAGE, 10, Pgcd.PGCD_WORDS);
    assert PGCD_IMAGE[20] == DATA && PGCD_IMAGE[21] == DATA + 4 && PGCD_IMAGE[22] == DATA + 8;
    assert [a, b, 0][0] == a && [a, b, 0][1] == b;
    ImageWord(s, TEXT, PGCD_IMAGE, 20);
    ImageWord(s, TEXT, PGCD_IMAGE, 21);
    ImageWord(s, TEXT, PGCD_IMAGE, 22);
    ImageWord(s, DATA, [a, b, 0], 0);
    ImageWord(s, DATA, [a, b, 0], 1);
  }

  lemma ImageWord(s: Core, base: nat, words: seq<word>, k: nat)
    requires InPlace(TextOf(s), base, words) && k < |words|
    ensures InMemory(s.mem, base + 4 * k) && ReadWord(s.mem, s.cpsr.e, base + 4 * k) == words[k]
  {
  }

  /** main of Examples/pgcd.s after a reset: for all A and B that need 16544 frames at most, the divisor is left in res. */
  method RunPgcd(a: word, b: word) returns (core: ArmCore)
    requires Pgcd.Solvable(a, b) && Pgcd.Frames(a, b) <= 16544
    ensures core.Valid() && core.memory.Length == MEMORY_SIZE && core.registers[PC] == TEXT + 36
    ensures Pgcd.IsGcd(ReadWord(core.memory[..], core.cpsr.e, DATA + 8), a, b)
  {
    hide Pgcd.Frames, InPlace, Pgcd.Computed, Pgcd.IsGcd, ReadWord, Pgcd.A, Pgcd.B, Pgcd.Pointed;
    core := Create();
    LoadImage(core, PGCD_IMAGE, [a, b, 0], TEXT);
    ghost var s := core.Value();
    PgcdImage(s, a, b);
    Programs.RunPgcdMain(core, TEXT);
    ComputedGcd(s, core.Value(), a, b);
  }

  lemma ComputedGcd(s: Core, t: Core, a: word, b: word)
    requires Pgcd.Computable(s, TEXT) && Pgcd.Computed(s, t, TEXT) && |s.mem| == MEMORY_SIZE
    requires Pgcd.A(s, TEXT) == a && Pgcd.B(s, TEXT) == b && Pgcd.Pointed(s, TEXT, 88) == DATA + 8
    ensures |t.storage| == 31 && |t.mem| == MEMORY_SIZE && t.storage[PC] == TEXT + 36
    ensures Pgcd.IsGcd(ReadWord(t.mem, t.cpsr.e, DATA + 8), a, b)
  {
    hide Pgcd.Frames, Pgcd.IsGcd, ReadWord, Pgcd.A, Pgcd.B, Pgcd.Pointed;
    Slots(t.cpsr.mode);
  }

  // ----- tri_insertion

  /** The procedure, the 35 words of the others, then the addresses of the table and of N. */
  function SortImage(others: seq<word>): (image: seq<word>)
    requires |others| == 35
    ensures |image| == 60
  {
    TriInsertion.SORT_WORDS + others + [DATA + 4, DATA]
  }

  lemma SortImageReady(s: Core, others: seq<word>, table: seq<word>)
    requires Fresh(s) && |others| == 35 && 1 <= |table| <= 2047
    requires InPlace(TextOf(s), TEXT, SortImage(others)) && InPlace(TextOf(s), DATA, [|table|] + table)
    ensures InPlace(TextOf(s), TEXT, TriInsertion.SORT_WORDS)
    ensures TriInsertion.PtrTab(s, TEXT) == DATA + 4 && TriInsertion.PtrN(s, TEXT) == DATA
    ensures TriInsertion.N(s, TEXT) == |table| && TriInsertion.Given(s, TEXT) == table
  {
    hide ReadWord;
    var image, data := SortImage(others), [|table|] + table;
    assert image[0..23] == TriInsertion.SORT_WORDS && image[58] == DATA + 4 && image[59] == DATA;
    PartInPlace(TextOf(s), TEXT, image, 0, TriInsertion.SORT_WORDS);
    ImageWord(s, TEXT, image, 58);
    ImageWord(s, TEXT, image, 59);
    ImageWord(s, DATA, data, 0);
    forall k | 0 <= k < |table|
      ensures TriInsertion.Given(s, TEXT)[k] == table[k]
    {
      ImageWord(s, DATA, data, k + 1);
    }
  }

  lemma SortIsReady(s: Core, n: nat)
    requires Fresh(s) && TriInsertion.Loaded(TextOf(s), TEXT) && 1 <= n <= 2047
    requires TriInsertion.PtrTab(s, TEXT) == DATA + 4 && TriInsertion.PtrN(s, TEXT) == DATA && TriInsertion.N(s, TEXT) == n
    ensures TriInsertion.Ready(s, TEXT)
  {
    hide TriInsertion.Loaded, ReadWord, TriInsertion.PtrTab, TriInsertion.PtrN;
  }

  /** tri_insertion of Examples/tri_insertion.s after a reset, on every table of at most 2047 words, what the ram has room for. */
  method RunSort(others: seq<word>, table: seq<word>) returns (core: ArmCore)
    requires |others| == 35 && 1 <= |table| <= 2047
    ensures core.Valid() && core.memory.Length == MEMORY_SIZE
    ensures var t := TriInsertion.Table(core.memory[..], core.cpsr.e, DATA + 4, |table|);
            TriInsertion.Ordered(t, |table|) && multiset(t) == multiset(table)
  {
    hide InPlace, ReadWord, TriInsertion.Sorted, TriInsertion.Ready, TriInsertion.Loaded, TriInsertion.PtrTab, TriInsertion.PtrN,
      TriInsertion.N, TriInsertion.Given, TriInsertion.Table, TriInsertion.Ordered;
    core := Create();
    LoadImage(core, SortImage(others), [|table|] + table, TEXT);
    ghost var s := core.Value();
    SortImageReady(s, others, table);
    TriInsertion.SortLoads(TextOf(s), TEXT);
    SortIsReady(s, |table|);
    Programs.CallTriInsertion(core, TEXT);
    SortedTable(s, core.Value(), table);
  }

  lemma SortedTable(s: Core, t: Core, table: seq<word>)
    requires TriInsertion.Ready(s, TEXT) && TriInsertion.Sorted(s, t, TEXT) && |s.mem| == MEMORY_SIZE
    requires TriInsertion.PtrTab(s, TEXT) == DATA + 4 && TriInsertion.N(s, TEXT) == |table| && TriInsertion.Given(s, TEXT) == table
    ensures |t.mem| == MEMORY_SIZE && DATA + 4 + 4 * |table| <= MEMORY_SIZE
    ensures var r := TriInsertion.Table(t.mem, t.cpsr.e, DATA + 4, |table|);
            TriInsertion.Ordered(r, |table|) && multiset(r) == multiset(table)
  {
    hide TriInsertion.Loadable, ReadWord, TriInsertion.Given, TriInsertion.Table, TriInsertion.PtrTab, TriInsertion.N, TriInsertion.Ordered;
  }

  // ----- the loops under interrupts

  /** The loops from 0x30, and the handler from 0x80; the four words before, between and behind them do not matter here. */
  function DemoImage(start: seq<word>, call: word, handlers: seq<word>): (image: seq<word>)
    requires |start| == 4 && |handlers| == 13
    ensures |image| == 32
  {
    start + IrqDemo.LOOPS_WORDS + [call] + IrqDemo.FOREVER_WORDS + handlers + IrqHandler.HANDLER_WORDS
  }

  /** b irq_handler, at the vector of interrupts. */
  const TO_HANDLER: word := 0xEAFFFC18

  lemma VectorWord()
    ensures Encodable(Branch(AL, false, (0x80 - IrqHandler.VECTOR - 8) / 4))
    ensures Assemble(Branch(AL, false, (0x80 - IrqHandler.VECTOR - 8) / 4)) == TO_HANDLER
  {
    BranchWord(AL, false, -1000, TO_HANDLER);
  }

  lemma DemoLoads(text: Text, start: seq<word>, call: word, handlers: seq<word>)
    requires |start| == 4 && |handlers| == 13
    requires InPlace(text, TEXT, DemoImage(start, call, handlers)) && InPlace(text, IrqHandler.VECTOR, [TO_HANDLER])
    ensures IrqHandler.Installed(text, 0x80) && IrqDemo.Looping(text, 0x30)
  {
    hide ReadWord, InPlace, Assemble, Encodable, LoadedAt;
    var image := DemoImage(start, call, handlers);
    assert image[4..8] == IrqDemo.LOOPS_WORDS && image[9..11] == IrqDemo.FOREVER_WORDS && image[24..32] == IrqHandler.HANDLER_WORDS;
    PartInPlace(text, TEXT, image, 4, IrqDemo.LOOPS_WORDS);
    PartInPlace(text, TEXT, image, 9, IrqDemo.FOREVER_WORDS);
    PartInPlace(text, TEXT, image, 24, IrqHandler.HANDLER_WORDS);
    VectorInPlace(text);
    VectorWord();
    IrqHandler.HandlerLoads(text, 0x80);
    IrqDemo.LoopsLoad(text, 0x30);
  }

  lemma VectorInPlace(text: Text)
    requires InPlace(text, IrqHandler.VECTOR, [TO_HANDLER])
    ensures InMemory(text.mem, IrqHandler.VECTOR) && ReadWord(text.mem, text.e, IrqHandler.VECTOR) == TO_HANDLER
  {
    hide ReadWord;
    assert [TO_HANDLER][0] == TO_HANDLER;
  }

  lemma DemoIsNear(s: Core)
    requires Fresh(s) && s.storage[PC] == 0x44 && IrqHandler.Installed(TextOf(s), 0x80) && IrqDemo.Looping(TextOf(s), 0x30)
    ensures IrqDemo.NearLoops(0x80, 0x10000, 0x30, s) && Register(s, PC) == 0x44
  {
    hide IrqHandler.Installed, IrqDemo.Looping;
  }

  /**
   The second loop of Examples/demoIntteruption.s after a reset, with r0 at 5 and under any
   schedule of requests: when the program has the processor, it has executed n instructions
   of its own, which have counted r0 up as they do undisturbed.
   */
  method RunDemo(start: seq<word>, call: word, handlers: seq<word>, schedule: seq<bool>) returns (core: ArmCore, ghost n: nat)
    requires |start| == 4 && |handlers| == 13
    ensures core.Valid() && n <= |schedule| <= n + 9 * Interrupts.Requests(schedule)
    ensures core.cpsr.mode == IRQ || core.registers[0] == Wrap(5 + (n + 1) / 2)
  {
    hide InPlace, ReadWord, IrqDemo.NearLoops, IrqDemo.LoopsFor, Interrupts.Seen, Run, Slot, IrqHandler.Unseen, Wrap, DemoImage,
      IrqHandler.Installed, IrqDemo.Looping;
    core := Create();
    core.LoadWords(IrqHandler.VECTOR, [TO_HANDLER]);
    ghost var text := TextOf(core.Value());
    assert [TO_HANDLER][0] == TO_HANDLER;
    VectorAlone(text);
    LoadImage(core, DemoImage(start, call, handlers), [], 0x44);
    StillInPlace(text, TextOf(core.Value()), IrqHandler.VECTOR, [TO_HANDLER]);
    FirstAtFive(core.Value());
    core.Write(0, 5);
    ghost var s := core.Value();
    DemoLoads(TextOf(s), start, call, handlers);
    DemoIsNear(s);
    IrqDemo.SecondLoopStays(0x80, 0x10000, 0x30, s, |Interrupts.Seen(0x10000, s, schedule)|);
    n := Programs.RunDemo(core, 0x80, 0x30, 0x10000, schedule);
    IrqDemo.SecondLoopCounts(0x80, 0x10000, 0x30, s, n);
    if core.cpsr.mode != IRQ {
      SeenFirst(Run(s, n), core.Value());
    }
  }

  lemma VectorAlone(text: Text)
    requires |text.mem| == MEMORY_SIZE && ReadWord(text.mem, text.e, IrqHandler.VECTOR) == TO_HANDLER
    ensures InPlace(text, IrqHandler.VECTOR, [TO_HANDLER])
  {
    hide ReadWord;
  }

  /** Setting r0 leaves a fresh core fresh. */
  lemma FirstAtFive(s: Core)
    requires Fresh(s)
    ensures var t := WriteRegister(s, 0, 5); Fresh(t) && Register(t, 0) == 5 && t.storage[PC] == s.storage[PC] && t.mem == s.mem
  {
  }

  lemma SeenFirst(s: Core, t: Core)
    requires IrqHandler.Unseen(0x10000, s, t)
    ensures |t.storage| == 31 && t.storage[0] == s.storage[0] && Register(s, 0) == s.storage[Slot(s.cpsr.mode, 0)] == s.storage[0]
  {
  }
}
