# Verification of the ARM simulator's gdb scanner and example programs

A Dafny model, with proofs, of two parts of the simulator.

**The scanner of the gdb connection.** `scanner.c` is a generated table-driven scanner for
the packets of the GDB Remote Serial Protocol. The model keeps its shape: a buffer scanned
in place with a byte on hold, compressed tables, a match loop that backs up, refills that
move text and grow the array, replay after a refill or at a NUL, a stack of buffers, and
the batching of bad bytes into retransmission requests. Pointers are indices. The
specification is the three rules of `scanner.l` as regular expressions with longest match
and earliest rule. The main theorem is `Scanner.Guts.YyLex`: for every input and every way
read() cuts it, the actions are those of the specification.

- `Bytes`, `Digits`, `Rules`: bytes, hex digits, regular expressions and their meaning, the
  rules.
- `Tokeniser`, `Automaton`, `Tables`: the specification as a function, the automaton that
  computes it, the compressed tables that represent the automaton.
- `Session`: error batching, packet checking and the effects of a session.
- `MatchLoop`, `History`: what the loops of the scanner keep; reads and actions over a run.
- `Lookahead`: what is pending when read() is called.
- `Scanner`, `GdbScanner`: the scanner itself, as classes; whole sessions.
- `BufferStack`: scans inside scans, over any sequence of pushes, pops and scans.

read() is a method that delivers as much as a plan allows. A plan says for every position
of the input how many bytes may come at once, so plans cut the input in every way, and the
theorems hold under all of them. The actions of the rules append to a list of effects, and
`gdb_packet_analysis` does write into the lexeme (`gdb_protocol.c:433`), so the proof shows
that this cannot disturb the scan.

**Programs on the simulated processor.** `Simulator` is the machine with its registers and
memory in arrays, changed in place; every step is proved equal to the function `Arm.Step`,
of which the theorems speak. Code lies in the memory as its words, a step fetches and
decodes them, and a store can overwrite them. `Encoding` is the assembler's side.
`ArmLaws` says what the functions of `Arm` mean in other terms than theirs: bits at their
places, flags by the operands as numbers. `ArmSteps` gives the effect of single
instructions and exceptions, `Blocks` that of ldm and stm in all their modes. `Countdown`,
`Pgcd`, `TriInsertion` and `RemplirTab` prove programs in `Examples/` over all their inputs,
`IrqHandler` their interrupt handler, and `Interrupts`, `IrqDemo` and `PgcdInterrupted` that
programs do not notice it under any schedule of requests. `Programs` brings the theorems
back to the arrays, and `Layout` runs the programs from a reset, where the examples are
linked. `Arm` follows the simulator's code where that differs from the architecture: an
interrupt hands the interrupted stack pointer to its mode (`arm_exception.c:199-208`), so the
handler's stack is the free space at the interrupted one, and an access needs no alignment
(`memory.c:61-89`), and lsr and asr by 0 shift by nothing (`arm_data_processing.c:53-86`).
Exceptions are entered in the byte order of the build, which defines
BIG_ENDIAN_SIMULATOR (`Makefile.am:6`).

The rows on the machine cite the instructions of the programs and the tables of `memo.txt`.
The code that gives them their meaning is in the simulator's C files, which the model
follows line by line:

- memory: `memory_read_bytes` and `memory_write_bytes` (`memory.c:61-89`);
- registers, modes, creation and fetch: `arm_core.c:44-166`;
- conditions, decoding and `arm_step`: `arm_instruction.c:38-161`;
- mov, add, sub, cmp, and and their flags: `arm_data_processing.c:37-174`, `199-219`, `245-265`, `366-376`, `413-430`, `552-606`;
- ldr, str, ldm and stm: `arm_load_store.c:35-52`, `177-219`, `323-395`, `441-488`;
- b, bl and mrs: `arm_branch_other.c:35-50`, `71-95`;
- exceptions and reset: `arm_exception.c:30-95`, `104-123`, `145-213`;
- packets: `gdb_send_buffer` and `gdb_packet_analysis` (`gdb_protocol.c:52-67`, `413-433`).

What holds under a condition, with both halves proved:

- read() is called only with nothing or a proper prefix of a packet pending, or over a NUL.
  Some way to cut the input brings a read() over a NUL if and only if the input has a NUL
  outside the body of a packet, where a body begins behind a `$` and ends at the next `#`
  (`GdbScanner.ScanConnection` for all plans, `GdbScanner.ScanBytewise` for one that does).
- pgcd gets back to its caller if and only if its arguments are equal or both not zero and
  its frames have room in the memory off the code (`Pgcd.PgcdReturnsIff`). If they have not,
  and with one zero they never have, a stack below the code is used up and a store faults;
  a stack above it runs down into the code, overwrites the recursive call, and control runs
  off the end. In the layout that the repository uses (`Examples/linker_script:3`,
  `arm_exception.c:72-74`, `arm_simulator.c:202`), all A and B that need no more than
  16547 frames end well, and no others (`Pgcd.LayoutLimits`): A = 1 and B = 16548 do not.
  (With 16545 to 16547 the frames lie on the addresses behind the code; up to 16544 the
  result gets into res, `Layout.RunPgcd`.)
- tri_insertion gets back to its caller if and only if N is at least 1 and N words fit the
  memory. Otherwise its loops run to the end of the memory and fault, if there is no code of
  theirs in the way (`TriInsertion.TriInsertionReturnsIff`).

## Model

| member | source | states |
|---|---|---|
| Tables.NextState | scanner.c:758-764 | The compressed walk with its default chain ends for every live state and class, with every index in range, and reaches the same state as the plain transition function `Delta` |
| Tables.TableRow | scanner.c:417-436 | Any row entered with any class leads along at most one default step (a template included) to the entry `RowDelta` says; base plus class stays inside the next and check tables |
| Tables.LookUpClass | scanner.c:376-405 | The class table gives every byte the class that `ByteClass` says; NUL alone has class 0 |
| Tables.LookUpAction | scanner.c:369-374 | The accept table gives every state the action that `Accept` says |
| Tables.LookUpStop | scanner.c:767 | The match loop stops in exactly the states without outgoing transitions |
| Rules.PacketRule | scanner.l:67-70 | The regular expression of rule 3 matches exactly the texts of the shape `$` body `#` hex hex with a body free of `$` and `#`; the expression is interpreted by the general meaning of `Regex` |
| Rules.InAnyBody | scanner.l:67 | The starred class of rule 3 matches a text if and only if it has no `$` and no `#` |
| Digits.Characters | scanner.l:61-67 | The named bytes are the characters of the protocol |
| Digits.DigitsAreHex | scanner.l:59 | The hex digits are the characters at the positions 0 to 15 of `0123456789abcdef` and `0123456789ABCDEF`, and each has one value |
| Automaton.RunShape | scanner.c:369-436 | After any text from the start state the automaton is in the state that the shape of the text says |
| Automaton.AcceptDecides | scanner.c:749-772 | A text that ends in an accepting state without way out is the next token, with that state's rule, whatever follows it |
| Automaton.JamDecides | scanner.c:771-776 | When the automaton jams after a text that could have become a packet, the next token is its `$` alone, whatever follows |
| Automaton.EndDecides | scanner.c:939-947 | When the input ends in an unfinished packet, the next token is its `$` alone |
| Automaton.LiveText | scanner.l:67 | The texts that the automaton holds without deciding are the empty one and exactly the proper prefixes of packets |
| Automaton.LivePrefix | scanner.c:753-757 | An unfinished packet has passed through one accepting state only, after its `$`: that is the only place to back up to |
| Automaton.AcceptIsEarliestRule | scanner.c:369-374 | The action of every accepting state is the earliest rule that matches the text read, and states without action are reached by texts that no rule matches |
| Tokeniser.NextTokenIsBest | scanner.l:60-72 | The next token is the longest match of any rule, and the earliest rule for that length (the Extended Description of lex in POSIX.1), default rule included |
| Tokeniser.TokenisationIsUnique | scanner.l:60-72 | A sequence of tokens is a longest-match, earliest-rule tokenisation of a text if and only if it is the one `Tokenise` computes |
| Tokeniser.TextsOfTokenise | scanner.c:738-746 | The lexemes put together are the whole input, each byte once |
| Tokeniser.ResyncAtDollar | scanner.c:749-776 | Every `$` is a resynchronisation point: the tokens of g + d are those of g, then those of d, for all g and all d that start with `$` |
| Tokeniser.PacketAfterGarbage | scanner.c:805-813 | A packet is delivered intact after any bytes, a truncated packet included, and what follows it is read afresh |
| Tokeniser.FramingRoundTrip | scanner.l:61-70 | Scanning framed acks, naks and packets, any number in any order, gives back exactly those messages, one token each |
| Tokeniser.WorkIsLinear | scanner.c:749-776 | The transitions needed on the bytes of an input, backing up included, are at most twice its length less the bytes before the first `$` |
| Tokeniser.WorkAtLeast | scanner.c:749-776 | And they are no fewer than its bytes |
| Session.BatchCount | scanner.l:40-54 | k error bytes between two flushing tokens, with newlines in any places, cause exactly ceil(k / 1023) retransmission requests, whose chunks put together are those bytes in order |
| Session.BatchFill | scanner.l:51-54 | At every moment the bytes reported and the bytes pending are the error bytes so far, in full chunks of 1023 |
| Session.FlushingTokenSplits | scanner.l:61-70 | An ack, nak or packet reports all errors before it and only then has its own effect; what follows starts from an empty error buffer |
| Session.DoneIsPrefix | scanner.l:40-54 | What a session did earlier only stands in front of what it does next |
| Session.EffectsAccounted | scanner.l:61-73 | Every effect of a session is accounted for: the echoes are the texts of the default rule, the chunks reported are the error bytes, each once, and all others are the answers to the acks, naks and packets, each kind in the order of the input |
| Session.NewlineEchoes | scanner.c:823-826 | A newline is echoed at once; it reports no pending bytes and does not join them |
| Session.NewlineExample | scanner.c:823-826 | The input newline alone is echoed, and nothing else happens |
| Session.SumLaws | scanner.c:811 | The sum that checksums are made of: 0 for no byte, a byte for itself, additive over texts |
| Session.DigitValues | scanner.l:59 | The value read for a digit of either case is its position, and the digit sent for a value is the lower-case one there |
| Session.PacketIsJudged | scanner.l:67-70 | A session of one packet: ack and dispatch if and only if its two digits, by their positions, denote the sum of its body modulo 256, else one retransmission request |
| Session.PacketExamples | scanner.l:67-70 | `$OK#9a` and `$OK#9A` are accepted and OK dispatched; `$OK#a9` is refused |
| Session.SentFrameIsAccepted | scanner.l:67-70 | A frame the simulator itself sends is one packet, whose checksum is accepted and whose body is dispatched |
| Session.FramedSession | scanner.l:61-70 | Framed acks, naks and packets, any number in any order, have exactly the effects that each message is meant to have, in their order, and no others |
| Session.FramedRequests | scanner.l:40-70 | Such a session asks for a retransmission exactly once for every packet whose two digits are wrong, never for stray bytes, and not at all if all digits are right |
| Session.ParserData.HandleError | scanner.c:485-493 | Pending error bytes cause one retransmission request, none cause none; the buffer is empty afterwards |
| Session.ParserData.AddCharacterToError | scanner.c:495-499 | The byte is appended, after a report when 1023 are pending; the length stays in 0..1023 |
| Session.ParserData.PacketAnalysis | scanner.c:805-813 | On a packet in the scanner's own buffer: ack and dispatch of the body if the sum of the body modulo 256 is what the two digits denote by their positions, else a retransmission request; no byte changes but the hash |
| Session.ParserData.BodyChecksum | scanner.c:811 | The loop sums the body modulo 256 |
| Session.ParserData.ReadHex | scanner.c:811 | The conversion reads exactly the two checksum digits, since the scanner has put a NUL behind the packet |
| MatchLoop.MatchRound | scanner.c:752-767 | One transition keeps the invariant of the match loop: the state is that of the text read, the accepting state and position noted are right, and a NUL leads to the end-of-buffer state |
| MatchLoop.MatchedDecides | scanner.c:752-776 | When the match loop ends otherwise than at an end-of-buffer byte, the text in the buffer is one that need not wait for more |
| MatchLoop.NulDecides | scanner.c:879-895 | Nor does text need to wait in which a real NUL jams the automaton |
| MatchLoop.MatchedSettles | scanner.c:769-776 | However the match loop ends, the action found is that of the next token with its length, or the end-of-buffer action behind waiting text |
| MatchLoop.ReplayRound | scanner.c:1109-1124 | One step of the replay, NUL read as class 1, keeps state and back-up position what the match loop would have them |
| MatchLoop.NulOutcome | scanner.c:879-895 | Behind waiting text a real NUL is either consumed or settles the next token |
| MatchLoop.WaitingSettles | scanner.c:939-947 | When the input has ended, backing up from the replayed state gives the next token, never a position left by the end-of-buffer state |
| History.Conservation | scanner.c:738-746 | At every moment of a run the bytes delivered by read() are those acted on followed by the backlog |
| History.NoReadAfterEnd | scanner.c:1005-1009 | Once read() has returned 0 it is not called again |
| History.EveryCutHasPlan | scanner.c:635-647 | For every way to cut an input into pieces there is a plan under which a read() at the start of each piece delivers up to the whole of it, and no more |
| History.ProgressStep | scanner.c:736-957 | A round of the scanner moves the token acted on from the text to come to the tokens done, with its effect and its cost |
| Lookahead.PendingIsResidue | scanner.c:966-1077 | What is pending at a read() is the longest suffix of the bytes delivered that still waits, however they were cut |
| Lookahead.ResidueIsLongest | scanner.c:749-767 | That suffix is longer than any other that waits |
| Lookahead.ReadOverNulIff | scanner.c:879-895 | A read() is made over a NUL if and only if the bytes delivered end in a NUL outside the body of a packet |
| Lookahead.NoLookAhead | scanner.c:1005-1077 | Whenever read() is called all that was delivered has been acted on but for a proper prefix of a packet, or for exactly a NUL when that is the last byte delivered and outside a body |
| Lookahead.ReadOverNulNeeds | scanner.c:966-1077 | Whatever the plan of the input, a read() over a NUL means that the input has a lone one |
| Lookahead.LoneNulIsReadOver | scanner.c:966-1077 | And under the plan that delivers byte by byte a lone NUL means a read() over it |
| Lookahead.LastReadIsOver | scanner.c:966-1077 | If the input ends in a lone NUL, every plan brings a read() over it |
| Lookahead.LoneNulExamples | scanner.l:67 | The input NUL has a lone NUL; so has `$#` NUL, though `$#` may become a packet; `$` NUL `#00` has none |
| Scanner.Input.ReadInto | scanner.c:635-647 | read(): as many of the next bytes as the plan of the input, the input and the room allow, at least one; 0 only at the end |
| Scanner.Guts.Match | scanner.c:749-767 | The match loop in place on the buffer ends with the state, scan position and back-up note that `Matched` specifies, and counts its transitions on text |
| Scanner.Guts.MatchStep | scanner.c:752-765 | One transition: the accepting state and its position are noted before they are left |
| Scanner.Guts.FindAction | scanner.c:769-778 | The action is taken, after backing up if the state has none; the lexeme ends in a NUL and the byte there goes on hold |
| Scanner.Guts.GetPreviousState | scanner.c:1101-1127 | Replay of the pending text gives the state, and the back-up note, that the match loop would have reached on it |
| Scanner.Guts.TryNulTrans | scanner.c:1134-1156 | The state after a real NUL as class 1, 0 if it jams; an accepting state is noted first |
| Scanner.Guts.MoveToFront | scanner.c:1000-1003 | The forward overlapping copy preserves the pending text |
| Scanner.Guts.EnsureRoom | scanner.c:1013-1054 | The growth loop ends with room for at least one byte and at most 8192, the text kept and the array two bytes longer than its size; the buffer that is not ours is never reached |
| Scanner.Guts.ReadMore | scanner.c:1012-1061 | The text moved and the bytes read lie at the front of the buffer; they are exactly the next of the input |
| Scanner.Guts.FinishRefill | scanner.c:1063-1096 | End of file, last match or continued scan as the read said; both end-of-buffer bytes in place; the extension by 50% is unreachable |
| Scanner.Guts.GetNextBuffer | scanner.c:966-1097 | With waiting text alone in the buffer: the text is kept, the input still to come is the same, the end is reported if and only if nothing is left, and the "end of buffer missed" error is unreachable |
| Scanner.Guts.Restart | scanner.c:1238-1250 | The current buffer, created if there is none, is empty and loaded and fills from the input; if the scanner owns its array, all of the unread input is what will be scanned |
| Scanner.Guts.Reload | scanner.c:1248-1249 | A current buffer, whoever owns its array, is flushed and loaded anew |
| Scanner.Guts.FlushBuffer | scanner.c:1380-1402 | The buffer is empty with both end-of-buffer bytes in place |
| Scanner.Guts.NulTransition | scanner.c:879-895 | After the replay in front of a real NUL, control goes on with the right state behind it or finds the next token |
| Scanner.Guts.EndOfBuffer | scanner.c:830-950 | The end-of-buffer action, at a real NUL or the real end: control goes to the label, with the state and positions, from which the same next token will be found, or to the end-of-file action exactly when nothing is left |
| Scanner.Guts.NextAction | scanner.c:736-778 | However many refills and NULs come between, the action finally taken is that of the next token of buffer and input together |
| Scanner.Guts.PerformInPlace | scanner.c:782-827 | The rule's action changes the session as `Perform` says; though it may write into the lexeme, what is still to be scanned is untouched |
| Scanner.Guts.ScanOne | scanner.c:736-957 | Invariant of the loop: at a token start the buffer with its held byte put back, followed by the unread input, is exactly what is left of the input |
| Scanner.Guts.YyLex | scanner.c:699-957 | For every input, NULs included, and every chunking by read(): the actions performed are those of the tokenisation of the whole input, the session's effects follow, the history is orderly under the plan of the input, and on NUL-free input the transitions of the match loop are `Work`; the replays of pending text after refills are not counted |
| Scanner.Guts.CreateBuffer | scanner.c:1303-1325 | A fresh empty buffer of the size asked for, with room for two end-of-buffer bytes |
| Scanner.Guts.EnsureBufferStack | scanner.c:1461-1503 | Afterwards there is room above the top; what was on the stack stays |
| Scanner.Guts.Push | scanner.c:1410-1435 | The buffer below is told its scan position and count and gets its held byte back; the new one is loaded; the stack keeps its order and capacity; a null buffer changes nothing |
| Scanner.Guts.Pop | scanner.c:1441-1456 | The buffer below is loaded with its position, count and byte on hold; an empty stack stays empty |
| Scanner.Guts.SwitchToBuffer | scanner.c:1256-1286 | The new buffer replaces the current one, which is left with its scan position, count and contents, the held byte put back; or nothing changes if it is current. The buffers below stay |
| Scanner.Guts.ScanBuffer | scanner.c:1511-1540 | Refused exactly without two end-of-buffer bytes at the end; otherwise all but those is what will be scanned |
| Scanner.Guts.ScanBytes | scanner.c:1561-1589 | A copy of the bytes is what will be scanned, without any read() |
| GdbScanner.ScanConnection | scanner.c:1942-1962 | A whole session under any plan: the effects are those of the tokens of all that the connection delivers, nothing remains unread, and a read() over a NUL means a lone one. On NUL-free input the match loop makes one to two transitions a byte, on the whole; the bytes that yy_get_previous_state replays after refills are not counted in that |
| GdbScanner.ScanBytewise | scanner.c:966-1077 | Under the plan that cuts after every byte: read() is called over a NUL if and only if the input has a lone one |
| GdbScanner.ScanNul | scanner.c:966-1077 | The input NUL, under any plan: read() is called over it |
| GdbScanner.ScanString | scanner.c:1561-1589 | Scanning a string in memory performs the same actions and has the same effects as streaming it in any chunks |
| BufferStack.PushLayer | scanner.c:1410-1435 | A push adds a layer (buffer, contents, position, count, unread input) on top; every layer below is kept and at rest |
| BufferStack.PopLayer | scanner.c:1441-1456 | A pop takes the top layer off and leaves the one below current, at its place |
| BufferStack.ScanLayer | scanner.c:699-957 | A whole scan of the top buffer uses it up and leaves every layer below as it was |
| BufferStack.ScanWithin | scanner.c:1410-1456 | A push, a whole scan of the pushed buffer and a pop: its tokens are those of the pushed buffer alone, and all layers are back at their places |
| BufferStack.Play | scanner.c:699-1503 | Any sequence of pushes, pops and scans does to the buffers what it does to a sequence of layers: every scan uses up the top buffer and acts on exactly its text, the effects on the session are those of the scans in their order, and the index of the top stays below the capacity |
| BufferStack.LayersBelowStay | scanner.c:1410-1456 | As long as neither a pop nor a scan reaches below what was pushed, the layers that were there first stay, and the height is theirs and the surplus of pushes |
| BufferStack.BalancedRestores | scanner.c:1410-1456 | If besides every push has its pop, every layer is back at its place, scans in between or not |
| Memory.ReadWritten | Examples/pgcd.s:50-62 | A word written is the word read back in either byte order, and no other byte changes |
| Memory.WordsAsBytes | Examples/pgcd.s:50-62 | A word read or written is that of its four bytes by their positions: most significant byte first in big-endian order, last in little-endian order; no other byte changes |
| Memory.AccessFits | memo.txt:108 | An access of a word is allowed exactly when four bytes of memory lie from its address on |
| Arm.CompareMeans | memo.txt:147-167 | After a comparison all conditions mean what the table says of its operands: order unsigned (cs, cc, hi, ls) and signed (ge, lt, gt, le), equality, the sign of the difference, and whether it fits 32 bits |
| Arm.ResetStacks | Examples/demoIntteruption.s:70-71 | After a reset the core is in the supervisor mode at 0x1000 with interrupts enabled, and each mode has its own stack pointer, but for the user mode: it shares storage with the system mode, whose value is written last |
| ArmLaws.Banks | Examples/demoIntteruption.s:52-64 | Modes share a register exactly if neither has one of its own; different registers never share storage |
| ArmLaws.ReadsAhead | memo.txt:110-112 | The program counter reads as four more than stored, bit 1 cleared; other registers read as stored |
| ArmLaws.ConditionTable | memo.txt:147-167 | The condition codes 0 to 14 by number: eight conditions on the flags, each followed by its negation |
| ArmLaws.SignedMeans | memo.txt:155-163 | The signed number of a word is the one from -2^31 to 2^31 - 1 that is congruent to it |
| ArmLaws.DataMeans | memo.txt:169-189 | cmp, mov, add and sub, with and without flags: the result modulo 2^32 in the register; N and Z of the result; for sub and cmp C that there is no borrow and V that the signed difference does not fit; for add C the carry and V that the signed sum does not fit; for mov C and V as before; with flags and to the program counter, the saved status in a mode that has one |
| ArmLaws.StatusBits | Examples/demoIntteruption.s:56-57 | The word that mrs reads has N, Z, C, V, E, I, F and T in bits 31, 30, 29, 28, 9, 7, 6 and 5, the number of the mode in bits 4 to 0, and 0 elsewhere |
| ArmLaws.StatusIsUnique | Examples/demoIntteruption.s:56-57 | So it determines the status |
| ArmLaws.AndMeans | memo.txt:169-189 | Bit by bit, and gives the bits that both operands have |
| ArmLaws.ShiftsByOne | memo.txt:192-210 | One place more of lsl doubles modulo 2^32, of lsr halves, of ror moves the lowest bit to the top; rrx brings in the carry; by no place the others do nothing |
| ArmLaws.AsrDivides | memo.txt:192-210 | asr divides the signed number by the power of 2, rounding down |
| Encoding.DecodeAssembled | memo.txt:140-167 | Round trip: the simulator's decoder gives back every instruction modelled from the word that encodes it |
| Encoding.SplitJoined | memo.txt:140-145 | The fields of a word are those it was put together from |
| Encoding.AndWord | memo.txt:140-145 | The word of and with a shifted register, field by field |
| Encoding.ListDecoded | Examples/tri_insertion.s:34 | The register list of a block transfer comes back in ascending order from its bits |
| Encoding.WordsLoad | memo.txt:110-112 | A program whose words lie in memory is the one fetched and decoded there |
| ArmSteps.Fetch | memo.txt:110-112 | A step fetches the word at the program counter from memory, decodes it, moves the program counter on and executes if the condition holds; the program counter then reads eight ahead and the others as they are |
| ArmSteps.SkipStep | memo.txt:147-167 | A word below 2^28, such as a return address stored over an instruction, is conditional on equality, and is passed over when Z is clear |
| ArmSteps.AndStep | memo.txt:169-189 | and with a shifted register: the new core |
| ArmSteps.DataStep | memo.txt:169-189 | mov, add, sub and cmp: the new core, the same at every address |
| ArmSteps.BranchStep | Examples/pgcd.s:53-59 | b and bl: the target, and the link register the next instruction |
| ArmSteps.StatusStep | Examples/demoIntteruption.s:56-57 | mrs: the register gets the status word, or the saved one, with every bit at its place |
| ArmSteps.FlagsStep | Examples/example1.s:4 | mov, add and sub with flags: the result and the flags that `ArmLaws.DataMeans` describes, and nothing else changes |
| ArmSteps.StatusReturnStep | Examples/demoIntteruption.s:64 | The same to the program counter: control goes to the result, and the saved status comes back in a mode that has one |
| ArmSteps.Exceptions | Examples/demoIntteruption.s:70-77 | The whole core after an undefined instruction, a data abort, a failed fetch and an interrupt: mode, masks, byte order, saved status, stack pointer, vector, and the link register 4, 8, 4 and 4 behind the instruction concerned |
| ArmSteps.UndefinedStep | Examples/demoIntteruption.s:72 | An undefined instruction, and a post-indexed transfer with the write-back bit, raise that exception |
| ArmSteps.PrefetchStep | Examples/demoIntteruption.s:74 | A fetch outside the memory raises that exception |
| ArmSteps.ExceptionReturnStep | Examples/demoIntteruption.s:64 | subs pc, lr, #4: back to the link register less four, with the saved status word |
| ArmSteps.TransferStep | memo.txt:213-226 | ldr and str: the base register written back first, the word moved, nothing else changed |
| ArmSteps.FaultStep | memo.txt:213-226 | ldr and str outside the memory: the whole new core, in the abort mode at its vector, with the saved status, the link register and the stack pointer of the interrupted mode |
| ArmSteps.FaultEntry | Examples/demoIntteruption.s:75 | The whole core then, the link register eight behind the transfer |
| ArmSteps.OffsetIsShifted | memo.txt:213-226 | The offset of a transfer by a register is that register shifted left |
| ArmSteps.StoredWord | Examples/demoIntteruption.s:53 | stm: register i of the list lies in word i |
| ArmSteps.LoadedRegister | Examples/demoIntteruption.s:62 | ldm: register i of the list comes from word i |
| ArmSteps.PushStep | Examples/tri_insertion.s:34 | stmda sp!: the push, as one step |
| ArmSteps.PopRestores | Examples/tri_insertion.s:68 | ldmib sp! undoes stmda sp!: if the words pushed are still there the registers pushed and the stack pointer get their values back, and no other storage changes |
| Blocks.StoreBlock | Examples/exampleLDM_STM.s:13-32 | stm in all four addressing modes: register i of the list lies in word i from the lowest address, which lies at or behind the base, or its number of words in front of it; the base moves by that number; no other byte changes |
| Blocks.LoadBlock | Examples/exampleLDM_STM.s:14-33 | ldm in all four: register i comes from word i, and the others stay |
| Blocks.CounterpartRestores | Examples/exampleLDM_STM.s:12-33 | Each stm and the ldm with both mode bits inverted: the second list of registers gets the values of the first, and the base is back |
| Countdown.CountLoads | Examples/example1.s:3-11 | The five words of the program in memory are its instructions |
| Countdown.LoopEnds | Examples/example1.s:3-12 | For every r0: the loop ends after four instructions a round, r0 rounds or 2^32 if it is zero, and not before, by the flags that subs sets in the procedure; r0 is zero then, and only the link register and the flags have changed besides |
| Countdown.MainCounts | Examples/example1.s:7-12 | main reaches its end after 21 instructions |
| Pgcd.GcdStep | Examples/pgcd.s:57-58 | A subtraction keeps the greatest common divisor, defined by divisibility |
| Pgcd.GcdIsGreatest | Examples/pgcd.s:2-18 | The common divisor that every common divisor divides is the greatest in size; of 0 and 0 it is 0 |
| Pgcd.ElseRuns | Examples/pgcd.s:56-59 | The two conditional subtractions and the call: the greater argument loses the smaller one, exactly once |
| Pgcd.LeaveReturns | Examples/pgcd.s:60-63 | The epilogue gives stack pointer and link register back to the caller |
| Pgcd.PgcdRuns | Examples/pgcd.s:48-63 | For all arguments that are equal or both not zero, with room for the frames off the code: pgcd returns after 8 instructions a frame less one with the greatest common divisor in r2, stack pointer and link register restored, and memory changed only in its frames |
| Pgcd.Frames | Examples/pgcd.s:50-59 | The frames used are at most the larger argument |
| Pgcd.PgcdLoads | Examples/pgcd.s:48-63 | The ten words of pgcd in memory are its ten instructions |
| Pgcd.DeepIff | Examples/pgcd.s:53-59 | There are more than k recursive calls if and only if there is no end of them (just one argument is zero) or more than k frames are needed |
| Pgcd.Descends | Examples/pgcd.s:48-59 | As long as no frame comes to lie on the first instructions: after 6k instructions pgcd is at its entry for the k-th recursive call with the arguments of that call, 4k bytes further down the stack, the return addresses stored, and has not left its code |
| Pgcd.DescentAborts | Examples/pgcd.s:48-59 | With a stack below the code and more frames than it holds, pgcd leaves its code by a data abort after exactly 6 (sp / 4 + 1) + 1 instructions |
| Pgcd.DescentFallsOut | Examples/pgcd.s:48-63 | With a stack above the code and more frames than lie off it, a frame overwrites the recursive call, and control runs off the end of the code after exactly 6k + 8 instructions |
| Pgcd.EqualFallsOut | Examples/pgcd.s:48-63 | If the last frame is the one that lies on one of the last three instructions, the words it finds there are executed as and, and control runs off the end |
| Pgcd.PgcdReturnsIff | Examples/pgcd.s:48-63 | pgcd gets back to its caller if and only if its arguments are equal or both not zero and its frames have room off the code |
| Pgcd.MainRuns | Examples/pgcd.s:32-44 | For all A and B that are equal or both not zero, with the stack used off the code: main reaches its swi with r0 and r1 holding them, r2 and res their greatest common divisor, and nothing else changed but r3, the link register, the flags and free stack |
| Pgcd.MainReturnsIff | Examples/pgcd.s:32-44 | main calls pgcd after six instructions and gets the control back if and only if A and B are equal or both not zero and the push and the frames have room off the code |
| Pgcd.MainLoads | Examples/pgcd.s:32-63 | The twenty words of main and pgcd in memory are their instructions |
| Pgcd.LayoutLimits | Examples/pgcd.s:32-63 | In the repository's own layout (text from 0x20, stack from 0x10300), for all A and B: main gets the control back if and only if A and B are equal or both not zero and need at most 16547 frames; A = 1 needs as many as B says |
| PgcdInterrupted.PgcdQuiet | Examples/pgcd.s:48-63 | Every instruction of a call of pgcd, recursive calls included, may be interrupted without notice |
| PgcdInterrupted.PgcdIsUndisturbed | Examples/pgcd.s:48-63 | Under every schedule of interrupt requests a call of pgcd passes through exactly the states of its uninterrupted run, and when all its instructions are done and it has the processor, the greatest common divisor is in r2 and it is back at its caller |
| TriInsertion.SortSorts | Examples/tri_insertion.s:5-16 | Insertion as the loops do it sorts every table in signed order, and permutes it |
| TriInsertion.InsertOrders | Examples/tri_insertion.s:48-61 | A word moved down past greater ones finds its place in an ordered prefix |
| TriInsertion.InnerTests | Examples/tri_insertion.s:49-51 | The guard j > 0, a signed comparison, is right on every index of a table that fits the memory |
| TriInsertion.InnerCompares | Examples/tri_insertion.s:52-54 | The guard T[w] > x is decided in signed order by the flags |
| TriInsertion.InnerShifts | Examples/tri_insertion.s:56-58 | Word j - 1 moves up, and only word j of the memory changes |
| TriInsertion.InnerRuns | Examples/tri_insertion.s:48-65 | The inner loop and the store after it turn the table into `Insert` of it |
| TriInsertion.OuterRuns | Examples/tri_insertion.s:41-66 | The outer loop turns the table into `SortFrom` of it |
| TriInsertion.TableStore | Examples/tri_insertion.s:56-61 | A store at index j changes word j of the table and no byte outside it |
| TriInsertion.SortLoads | Examples/tri_insertion.s:32-69 | The 23 words of the procedure in memory are its instructions |
| TriInsertion.TriInsertionSorts | Examples/tri_insertion.s:32-69 | For every N from 1 on, with table, stack and code off one another: the procedure returns with the table a permutation of what was given, in ascending signed order; r0 to r5, the stack pointer, the link register and all memory outside the table and 24 bytes of stack are as they were |
| TriInsertion.OuterOverruns | Examples/tri_insertion.s:41-66 | If the index cannot meet N before the memory ends, the outer loop goes on to the end of the memory and faults there, without having left the code |
| TriInsertion.OverrunAborts | Examples/tri_insertion.s:32-69 | With N zero, or with more words than fit the memory, and no code in the way, the procedure leaves its code by a data abort |
| TriInsertion.TriInsertionReturnsIff | Examples/tri_insertion.s:32-69 | With what the loops sort off the code, the procedure gets back to its caller if and only if N is at least 1 and N words fit the memory; the table may cover the saved registers |
| RemplirTab.RemplirTabFills | Examples/tri_insertion.s:77-93 | For every N, none included, with the table off the code, the procedure returns with the table N, N - 1, ..., 1 and only r0, r1 and the flags changed beside it |
| RemplirTab.FillTurns | Examples/tri_insertion.s:82-90 | One turn of the loop fills one word |
| IrqHandler.InterruptTakes | Examples/demoIntteruption.s:76-77 | An interrupt enters its mode masked, in the byte order of exceptions (big-endian in the build), with the interrupted stack pointer, the link register four ahead of the next instruction, and the status word saved |
| IrqHandler.HandlerReturns | Examples/demoIntteruption.s:52-64 | Taken anywhere in any mode but its own, an interrupt is over after nine instructions, none of which can be interrupted, and gives back all registers, the flags, the saved status of other modes and all memory but three words of free stack, which must be off the handler |
| IrqHandler.HandlerLoads | Examples/demoIntteruption.s:52-78 | The eight words of the handler, and a branch to it in the vector, install it |
| Interrupts.QuietStep | Examples/demoIntteruption.s:13-25 | An instruction on registers, a load or store off the free stack, a push, a pop, a branch or a return does the same to two cores that a program cannot tell apart |
| Interrupts.HiddenIsNotSeen | Examples/demoIntteruption.s:52-64 | Requests during the handler are ignored, and none of its states is seen |
| Interrupts.Transparent | Examples/demoIntteruption.s:7-25 | For every schedule of requests at instruction boundaries and every program whose memory, code included, is off the free stack: the states it passes through, memory included, are exactly those of its uninterrupted run, and no request holds it up for more than nine instructions |
| IrqDemo.MainIsUndisturbed | Examples/demoIntteruption.s:13-25 | That holds for main as long as it is in its two loops, between the comparison and its branch included |
| IrqDemo.FirstLoopStays | Examples/demoIntteruption.s:13-17 | As long as the first loop is not left main is in its loops |
| IrqDemo.FirstLoopEnds | Examples/demoIntteruption.s:13-19 | From r0 at most 5 the first loop counts r0 up to 5 and is left at end_loop1, at the swi, after 4 (5 - r0) + 2 instructions and not before |
| IrqDemo.SecondLoopStays | Examples/demoIntteruption.s:23-25 | The second loop is never left |
| IrqDemo.SecondLoopCounts | Examples/demoIntteruption.s:23-25 | n instructions of the second loop have counted r0 up by (n + 1) / 2 |
| Simulator.ArmCore.Load | memo.txt:108 | The word of the four bytes at the address, by their positions, in the current byte order; refused exactly when they do not fit the memory |
| Simulator.ArmCore.Store | memo.txt:108 | The four bytes become those of the word, by their positions, in the current byte order, and no other changes; refused as a load is |
| Simulator.ArmCore.Take | Examples/demoIntteruption.s:70-78 | Entering an exception, field by field in the order of the source and in the byte order of the build, is `Enter` |
| Simulator.ArmCore.Irq | Examples/demoIntteruption.s:76-77 | The handler does what `Interrupt` says |
| Simulator.ArmCore.DataProcessing | memo.txt:169-189 | The instruction in place does what `ExecData` says, whose result and flags `ArmLaws.DataMeans` gives |
| Simulator.ArmCore.LoadStore | memo.txt:213-226 | The instruction in place, with the exception it reports, does what `ExecTransfer` says |
| Simulator.ArmCore.LoadMultiple | Examples/tri_insertion.s:68 | The loop over the registers, up to an access that fails, does what `LoadMany` says |
| Simulator.ArmCore.StoreMultiple | Examples/tri_insertion.s:34 | The loop over the registers, up to an access that fails, does what `StoreMany` says |
| Simulator.ArmCore.StepOnce | memo.txt:140-167 | A step on the arrays (fetch, decode, condition, handler, and exceptions raised afterwards, a failing fetch included) is `Step`, of which the theorems on the programs speak |
| Simulator.ArmCore.RunUnder | Examples/demoIntteruption.s:52-77 | Steps with interrupt requests between them are `After`, of which the interrupt theorems speak |
| Simulator.ArmCore.RunFor | memo.txt:140-167 | Any number of steps on the arrays is `Run` of them |
| Programs.CallPgcd | Examples/pgcd.s:48-63 | On the arrays themselves, from the words of pgcd in memory: a call leaves the greatest common divisor in r2 and gives everything else back |
| Programs.RunPgcdMain | Examples/pgcd.s:32-44 | On the arrays themselves, from the words of the program: main leaves the divisor of A and B in res |
| Programs.CallTriInsertion | Examples/tri_insertion.s:32-69 | On the arrays themselves, from the words of the procedure: the call sorts the table in place and gives everything else back |
| Programs.RunDemo | Examples/demoIntteruption.s:13-25 | On the arrays themselves, under any schedule of requests: outside the handler, the loops of main are where n of their own instructions bring them undisturbed, and a request has cost nine at most |
| Layout.RunPgcd | Examples/pgcd.s:22-63 | From a reset, in the repository's layout, for all A and B that need at most 16544 frames: the simulator, given the words of the program, reaches the swi with the greatest common divisor in res |
| Layout.RunSort | Examples/tri_insertion.s:32-69 | From a reset, for every table that the ram has room for: the simulator sorts it in place |
| Layout.RunDemo | Examples/demoIntteruption.s:23-25 | From a reset, at the second loop with the handler installed, under every schedule of requests: if the program has the processor in the end, n instructions of the loop have been executed and r0 has gone from 5 to 5 + (n + 1) / 2, and a request has cost nine instructions at most |

## Left out

- Session.ParserData.PacketAnalysis: the handlers of the commands behind a dispatched body, and the sending of answers, are effects here; their bodies are left out.
- Scanner.Input.ReadInto: interrupted and failing reads are left out; so are malloc failure and all other exits through a fatal error, but for the two that are proved unreachable.
- Scanner.Guts.EnsureRoom: sizes are mathematical integers, so the branch for a size that wrapped around is left out.
- Scanner.Guts.Pop: it clears the stack entry; that yy_delete_buffer frees the memory is left out, as is yylex_destroy.
- Scanner.Guts.YyLex: one connection is scanned; switching yyin between buffers, yyless, input, line numbers, start conditions and debug output are left out.
- Scanner.Guts.Push: a buffer that is on the stack already is excluded; the code accepts it, and then saves and loads one buffer in two places.
- Scanner.Guts.Restart: the file to read from is not changed; a buffer the scanner does not own is emptied and fills, but no scan of it is modelled.
- BufferStack.ScanWithin: all buffers that fill do so from one input, so a pushed buffer fills only if none below it does; each buffer's own file is left out.
- BufferStack.ScanLayer: as for `BufferStack.ScanWithin`, a buffer that fills is scanned only if none below it does.
- BufferStack.Play: each buffer is pushed at most once, since a pop deletes it, and one of them at most fills from the input.
- GdbScanner.ScanConnection: the count of work is of match-loop transitions; the replays of GetPreviousState, which byte-by-byte delivery makes quadratic in the length of a packet, are not bounded.
- ArmSteps.DataStep: the other opcodes are left out, and shifts and rotations except for and without flags; so is the carry out of a shifter.
- ArmSteps.TransferStep: byte, halfword and doubleword transfers and loads of the program counter are left out.
- ArmSteps.Fetch: at an instruction that is not modelled and whose condition holds (msr, swi, multiplications, coprocessors and the forms above) the core stands still.
- Pgcd.PgcdReturnsIff: for a stack above the code its words are aligned as the code is, the code is below 2^28, and, if the last frame comes to lie on one of the last three instructions, the return address stored there is the word of an and without flags, as it is in the repository's layout; otherwise what the overwritten words do is not followed.
- Pgcd.MainReturnsIff: as Pgcd.PgcdReturnsIff.
- TriInsertion.TriInsertionReturnsIff: a table, or an overrun of it, that comes across the code is left out.
- Simulator.ArmCore.LoadMultiple: the assertion on the end address, which stops the simulator after some failed accesses, is left out.
- IrqDemo.MainIsUndisturbed: msr, swi and the handler of swi are left out, so main is followed in each of its loops, up to the swi between them and from behind it, not through it.
- Interrupts.Transparent: programs that set flags with sub, read the status word, change their stack pointer by other means than loads, stores, pushes and pops with write-back, have changed their byte order, or run in the interrupt mode are left out; the handler's theorem, `IrqHandler.HandlerReturns`, speaks of all programs.
- The other handlers of the examples reload registers from other slots than they stored to, and `Examples/insertion_sort.c` does not terminate; nothing is claimed of them.
- Fast interrupts and sockets, threads and locks.
