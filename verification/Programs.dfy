/** The example programs run on the simulator, in place, from the words that encode them in its memory. */
module Programs {
  import opened Arm
  import opened ArmSteps
  import opened Encoding
  import opened Simulator
  import Interrupts
  import IrqDemo
  import IrqHandler
  import Pgcd
  import TriInsertion

  /** The core stands at the instruction at base. */
  ghost predicate StandsAt(core: ArmCore, base: nat)
    reads core, core.registers
  {
    core.Valid() && core.registers[PC] == base
  }

  /** pgcd of Examples/pgcd.s, up to its return. */
  method CallPgcd(core: ArmCore, base: nat)
    requires StandsAt(core, base) && InPlace(TextOf(core.Value()), base, Pgcd.PGCD_WORDS) && Pgcd.Fits(core.Value(), base)
    requires Register(core.Value(), SP) + 4 <= core.memory.Length < 0x1_0000_0000
    modifies core, core.registers, core.memory
    ensures core.Valid() && Pgcd.Returned(old(core.Value()), core.Value())
  {
    hide Run, Pgcd.Returned, Pgcd.Loaded, Pgcd.Frames, At, InPlace, Pgcd.Deepest;
    var s := core.Value();
    AtIsHere(s);
    Pgcd.PgcdLoads(TextOf(s), base);
    Pgcd.PgcdRuns(base, s);
    core.RunFor(Pgcd.Steps(s));
  }

  /** main of Examples/pgcd.s, up to its swi. */
  method RunPgcdMain(core: ArmCore, base: nat)
    requires StandsAt(core, base) && base + 92 < 0x1_0000_0000 && Pgcd.Computable(core.Value(), base)
    requires InPlace(TextOf(core.Value()), base, Pgcd.MAIN_WORDS) && InPlace(TextOf(core.Value()), base + 40, Pgcd.PGCD_WORDS)
    modifies core, core.registers, core.memory
    ensures core.Valid() && Pgcd.Computed(old(core.Value()), core.Value(), base)
  {
    hide Run, Pgcd.Computed, Pgcd.Frames, Pgcd.A, Pgcd.B, At, InPlace, Pgcd.Linked;
    var s := core.Value();
    AtIsHere(s);
    Pgcd.MainLoads(TextOf(s), base);
    Pgcd.MainRuns(base, s);
    core.RunFor(8 * Pgcd.Frames(Pgcd.A(s, base), Pgcd.B(s, base)) + 8);
  }

  /** tri_insertion of Examples/tri_insertion.s, up to its return. */
  method CallTriInsertion(core: ArmCore, base: nat)
    requires StandsAt(core, base) && InPlace(TextOf(core.Value()), base, TriInsertion.SORT_WORDS)
    requires TriInsertion.Loaded(TextOf(core.Value()), base) ==> TriInsertion.Ready(core.Value(), base)
    modifies core, core.registers, core.memory
    ensures core.Valid() && TriInsertion.Ready(old(core.Value()), base)
    ensures TriInsertion.Sorted(old(core.Value()), core.Value(), base)
  {
    hide Run, TriInsertion.Sorted, TriInsertion.CallSteps, At, InPlace, TriInsertion.Loaded;
    var s := core.Value();
    TriInsertion.SortLoads(TextOf(s), base);
    AtIsHere(s);
    TriInsertion.TriInsertionSorts(base, s);
    core.RunFor(TriInsertion.CallSteps(TriInsertion.Given(s, base)));
  }

  /**
   The loops of Examples/demoIntteruption.s under a schedule of requests, for as long as main
   would be in them undisturbed: if the program has the processor in the end, it is where n
   of its own instructions would have brought it.
   */
  method RunDemo(core: ArmCore, h: nat, base: nat, ghost low: int, schedule: seq<bool>) returns (ghost n: nat)
    requires core.Valid() && IrqDemo.NearLoops(h, low, base, core.Value())
    requires IrqDemo.LoopsFor(h, low, base, core.Value(), |Interrupts.Seen(low, core.Value(), schedule)|)
    modifies core, core.registers, core.memory
    ensures core.Valid() && n <= |schedule| <= n + 9 * Interrupts.Requests(schedule)
    ensures core.cpsr.mode == IRQ || IrqHandler.Unseen(low, Run(old(core.Value()), n), core.Value())
  {
    hide Run, Interrupts.Seen, Interrupts.Alone, Interrupts.After, IrqDemo.NearLoops, IrqDemo.LoopsFor, IrqHandler.Unseen;
    ghost var s := core.Value();
    IrqDemo.MainIsUndisturbed(h, low, base, s, schedule);
    n := |Interrupts.Seen(low, s, schedule)|;
    core.RunUnder(schedule);
  }
}
