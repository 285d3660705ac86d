/** The stack of buffers as a sequence of layers: pushes, pops, and whole scans of the top buffer. */
module BufferStack {
  import opened Bytes
  import opened Tokeniser
  import opened Session
  import opened History
  import opened Scanner

  /** What a scan needs to go on: the buffer's contents, position and count, whether it fills, and the unread input. */
  datatype Place = Place(contents: seq<byte>, pos: nat, count: nat, fills: bool, unread: seq<byte>)

  /** A buffer on the stack, and where its scan stands. */
  datatype Layer = Layer(buffer: BufferState, place: Place)

  function Popped(ls: seq<Layer>): seq<Layer> {
    if ls == [] then [] else ls[..|ls| - 1]
  }

  /** The layer of a buffer that is not being scanned. */
  ghost function Resting(scanner: Guts, b: BufferState): Layer
    reads b, b.chBuf, scanner.yyin
  {
    Layer(b, Place(b.chBuf[..], b.bufPos, b.nChars, b.fillBuffer, if b.fillBuffer then scanner.yyin.rest else []))
  }

  /** The layer of the current buffer, with the byte on hold put back. */
  ghost function Scanning(scanner: Guts): Layer
    requires scanner.HasCurrent() && scanner.cBufP < scanner.Cur().chBuf.Length
    reads scanner, scanner.Cur(), scanner.Cur().chBuf, scanner.yyin
  {
    Layer(scanner.Cur(), Place(scanner.Restored(), scanner.cBufP, scanner.nChars, scanner.Cur().fillBuffer, scanner.Unread()))
  }

  /** A stack with the buffers of ls and nothing above them. */
  ghost predicate Carries(stack: seq<BufferState?>, top: nat, ls: seq<Layer>) {
    && (stack == [] ==> top == 0) && (stack != [] ==> top < |stack|)
    && (if ls == [] then top == 0 && (stack == [] || stack[0] == null) else |ls| == top + 1 <= |stack|)
    && (forall i :: 0 <= i < |ls| ==> stack[i] == ls[i].buffer)
    && (forall i :: top < i < |stack| ==> stack[i] == null)
  }

  /** No buffer and no array twice. */
  ghost predicate Distinct(ls: seq<Layer>)
    reads (set i | 0 <= i < |ls| :: ls[i].buffer)`chBuf
  {
    forall i, j :: 0 <= i < j < |ls| ==> ls[i].buffer != ls[j].buffer && ls[i].buffer.chBuf != ls[j].buffer.chBuf
  }

  ghost predicate Holds(scanner: Guts, ls: seq<Layer>)
    reads scanner`stack, scanner`top, (set i | 0 <= i < |ls| :: ls[i].buffer)`chBuf
  {
    Carries(scanner.stack, scanner.top, ls) && Distinct(ls)
  }

  ghost predicate IsResting(scanner: Guts, l: Layer)
    reads l.buffer, l.buffer.chBuf, scanner.yyin
  {
    scanner.Saved(l.buffer) && l == Resting(scanner, l.buffer)
  }

  ghost predicate IsScanning(scanner: Guts, l: Layer)
    reads scanner, if scanner.HasCurrent() then {scanner.Cur(), scanner.Cur().chBuf} else {}, scanner.extra, scanner.yyin
  {
    scanner.HasCurrent() && scanner.AtRest() && scanner.cBufP <= scanner.nChars && l == Scanning(scanner)
  }

  /** The stack is in order, and ls are its layers from the bottom up: every buffer below the top remembers its place. */
  ghost predicate IsStack(scanner: Guts, ls: seq<Layer>)
    reads scanner, set i | 0 <= i < |ls| :: ls[i].buffer, set i | 0 <= i < |ls| :: ls[i].buffer.chBuf,
          if scanner.HasCurrent() then {scanner.Cur(), scanner.Cur().chBuf} else {}, scanner.extra, scanner.yyin
  {
    && scanner.extra.Valid() && Holds(scanner, ls)
    && (forall i :: 0 <= i < |ls| - 1 ==> IsResting(scanner, ls[i]))
    && (ls != [] ==> IsScanning(scanner, ls[|ls| - 1]))
  }

  lemma OkHolds(scanner: Guts, ls: seq<Layer>)
    requires scanner.StackOk() && ls != [] && |ls| == scanner.top + 1 <= |scanner.stack|
    requires forall i :: 0 <= i < |ls| ==> scanner.stack[i] == ls[i].buffer
    ensures Holds(scanner, ls)
  {
  }

  /** Neither b nor its array is among the layers. */
  ghost predicate Apart(b: BufferState, ls: seq<Layer>)
    reads b`chBuf, (set i | 0 <= i < |ls| :: ls[i].buffer)`chBuf
  {
    forall i :: 0 <= i < |ls| ==> ls[i].buffer != b && ls[i].buffer.chBuf != b.chBuf
  }

  lemma ApartOff(scanner: Guts, b: BufferState, ls: seq<Layer>)
    requires Holds(scanner, ls) && Apart(b, ls)
    ensures scanner.OffStack(b)
  {
  }

  /** The current buffer is the top one, and apart from those below. */
  lemma TopIsApart(scanner: Guts, ls: seq<Layer>)
    requires Holds(scanner, ls) && ls != []
    ensures scanner.HasCurrent() && scanner.Cur() == ls[|ls| - 1].buffer
    ensures forall i :: 0 <= i < |ls| - 1 ==> ls[i].buffer != scanner.Cur() && ls[i].buffer.chBuf != scanner.Cur().chBuf
  {
  }

  /** What loading a resting buffer makes of it. */
  lemma LoadedScanning(scanner: Guts, l: Layer)
    requires IsResting(scanner, l) && scanner.HasCurrent() && scanner.Cur() == l.buffer && scanner.AtRest()
    requires scanner.cBufP == l.buffer.bufPos && scanner.nChars == l.buffer.nChars
    requires scanner.holdChar == l.buffer.chBuf[scanner.cBufP]
    ensures IsScanning(scanner, l)
  {
    assert scanner.Restored() == l.buffer.chBuf[..];
  }

  /** What the order of the stack means. */
  lemma StackFacts(scanner: Guts, ls: seq<Layer>)
    requires IsStack(scanner, ls)
    ensures Holds(scanner, ls) && scanner.StackOk() && scanner.extra.Valid() && (scanner.HasCurrent() <==> ls != [])
    ensures scanner.HasCurrent() ==> scanner.AtRest() && scanner.cBufP <= scanner.nChars && ls[|ls| - 1] == Scanning(scanner)
    ensures forall i :: 0 <= i < |ls| - 1 ==> IsResting(scanner, ls[i])
    ensures if ls == [] then scanner.top == 0 else |ls| == scanner.top + 1 <= |scanner.stack|
    ensures forall i :: 0 <= i < |ls| ==> scanner.stack[i] == ls[i].buffer
  {
  }

  lemma PushedIsStack(scanner: Guts, ls: seq<Layer>, l: Layer)
    requires scanner.extra.Valid() && Holds(scanner, ls + [l]) && IsScanning(scanner, l)
    requires forall i :: 0 <= i < |ls| ==> IsResting(scanner, ls[i])
    ensures IsStack(scanner, ls + [l])
  {
  }

  /** A push adds a layer, and changes none. */
  method PushLayer(scanner: Guts, b: BufferState, ghost ls: seq<Layer>)
    requires IsStack(scanner, ls) && Apart(b, ls) && scanner.Saved(b)
    modifies scanner`stack, scanner`top, scanner`nChars, scanner`textPtr, scanner`cBufP, scanner`holdChar,
             (if scanner.HasCurrent() then {scanner.Cur()} else {})`bufPos,
             (if scanner.HasCurrent() then {scanner.Cur()} else {})`nChars,
             if scanner.HasCurrent() then {scanner.Cur().chBuf} else {}
    ensures IsStack(scanner, ls + [old(Resting(scanner, b))])
    ensures scanner.HasCurrent() && scanner.Cur() == b
    ensures scanner.cBufP == b.bufPos && scanner.nChars == b.nChars && scanner.holdChar == b.chBuf[scanner.cBufP]
    ensures old(scanner.HasCurrent()) ==> old(scanner.Cur()).chBuf == old(scanner.Cur().chBuf)
  {
    hide IsStack, Holds, Apart, Guts.StackOk, Guts.OffStack, Guts.Saved, Guts.AtRest, Guts.Restored, IsScanning;
    ghost var l := Resting(scanner, b);
    StackFacts(scanner, ls);
    ApartOff(scanner, b, ls);
    if ls != [] {
      TopIsApart(scanner, ls);
    }
    scanner.Push(b);
    LoadedScanning(scanner, l);
    OkHolds(scanner, ls + [l]);
    PushedIsStack(scanner, ls, l);
  }

  lemma EmptyIsStack(scanner: Guts)
    requires scanner.extra.Valid() && scanner.StackOk() && !scanner.HasCurrent()
    ensures IsStack(scanner, [])
  {
  }

  /** A pop takes the top layer off, and changes none. */
  method PopLayer(scanner: Guts, ghost ls: seq<Layer>)
    requires IsStack(scanner, ls)
    modifies scanner`stack, scanner`top, scanner`nChars, scanner`textPtr, scanner`cBufP, scanner`holdChar
    ensures IsStack(scanner, Popped(ls)) && (scanner.HasCurrent() ==> scanner.Startable())
  {
    hide IsStack, Holds, Guts.StackOk, Guts.Saved, Guts.AtRest, Guts.Restored, IsScanning;
    ghost var below := Popped(ls);
    StackFacts(scanner, ls);
    scanner.Pop();
    if |ls| >= 2 {
      LoadedScanning(scanner, ls[|ls| - 2]);
      OkHolds(scanner, below);
      assert below == Popped(below) + [ls[|ls| - 2]];
      PushedIsStack(scanner, Popped(below), ls[|ls| - 2]);
    } else {
      EmptyIsStack(scanner);
    }
  }

  // ----- scans of the top buffer

  /** A buffer that fills from the input has no other one below it that does. */
  predicate OneFills(fills: bool, below: seq<Layer>) {
    fills ==> forall i :: 0 <= i < |below| ==> !below[i].place.fills
  }

  /** What a scan of the text makes of the session. */
  ghost function Acted(st: Batch, text: seq<byte>): Batch {
    TokensAreTokens(text);
    Flush(PerformAll(st, Tokenise(text)))
  }

  /** Nothing of the layer is left to scan. */
  predicate UsedUp(l: Layer) {
    l.place.pos == l.place.count && l.place.unread == []
  }

  lemma CanStart(scanner: Guts)
    requires scanner.HasCurrent() && scanner.Startable()
    ensures scanner.AtRest() && scanner.cBufP <= scanner.nChars && scanner.extra.Valid()
  {
  }

  lemma ScannedTop(scanner: Guts, rem: seq<byte>, st: Batch, work: nat)
    requires scanner.Scanned(rem, st, work)
    ensures scanner.HasCurrent() && scanner.extra.Valid() && scanner.cBufP < scanner.Cur().chBuf.Length
    ensures IsScanning(scanner, Scanning(scanner))
    ensures scanner.cBufP == scanner.nChars && scanner.Unread() == [] && Actions(scanner.trace) == Tokenise(rem)
    ensures scanner.Startable() && scanner.extra.State() == Acted(st, rem)
  {
    hide Tokenise, PerformAll, Actions, Orderly, Flush, IsToken, Work;
  }

  lemma StackRests(scanner: Guts, ls: seq<Layer>)
    requires IsStack(scanner, ls) && ls != []
    ensures Carries(scanner.stack, scanner.top, ls) && Distinct(Popped(ls))
    ensures scanner.HasCurrent() && scanner.Cur() == ls[|ls| - 1].buffer && Apart(scanner.Cur(), Popped(ls))
    ensures forall i :: 0 <= i < |ls| - 1 ==> IsResting(scanner, Popped(ls)[i])
  {
  }

  lemma TopAgain(scanner: Guts, ls: seq<Layer>, l: Layer)
    requires scanner.extra.Valid() && ls != [] && Carries(scanner.stack, scanner.top, ls) && Distinct(Popped(ls))
    requires l.buffer == ls[|ls| - 1].buffer && Apart(l.buffer, Popped(ls))
    requires forall i :: 0 <= i < |Popped(ls)| ==> IsResting(scanner, Popped(ls)[i])
    requires IsScanning(scanner, l)
    ensures IsStack(scanner, Popped(ls) + [l])
  {
  }

  /** A whole scan of the current buffer, which stays the current one. */
  method ScanTop(scanner: Guts, ghost text: seq<byte>) returns (ghost l: Layer)
    requires scanner.HasCurrent() && scanner.Startable() && text == scanner.Remaining()
    modifies scanner, scanner.yyin, scanner.extra`len, scanner.extra`effects, scanner.extra.buffer,
             scanner.Cur(), scanner.Cur().chBuf
    ensures scanner.stack == old(scanner.stack) && scanner.top == old(scanner.top) && scanner.HasCurrent()
    ensures scanner.Cur().chBuf == old(scanner.Cur().chBuf) || fresh(scanner.Cur().chBuf)
    ensures old(!scanner.Cur().fillBuffer) ==> scanner.yyin.rest == old(scanner.yyin.rest)
    ensures scanner.extra.Valid() && IsScanning(scanner, l) && scanner.Startable()
    ensures l.buffer == scanner.Cur() && UsedUp(l) && l.place.fills == old(scanner.Cur().fillBuffer)
    ensures Actions(scanner.trace) == Tokenise(text) && scanner.extra.State() == Acted(old(scanner.extra.State()), text)
  {
    CanStart(scanner);
    hide IsScanning, Guts.AtRest, Guts.Restored, Guts.Startable, Guts.Remaining, Guts.Scanned;
    hide Tokenise, Actions, Acted;
    ghost var state, work := scanner.extra.State(), scanner.work;
    scanner.YyLex();
    ScannedTop(scanner, text, state, work);
    l := Scanning(scanner);
  }

  /** It leaves buffers at rest that are apart from it. */
  method ScanAbove(scanner: Guts, ghost below: seq<Layer>, ghost text: seq<byte>) returns (ghost l: Layer)
    requires scanner.HasCurrent() && scanner.Startable() && Apart(scanner.Cur(), below) && OneFills(scanner.Cur().fillBuffer, below)
    requires Distinct(below) && (forall i :: 0 <= i < |below| ==> IsResting(scanner, below[i])) && text == scanner.Remaining()
    modifies scanner, scanner.yyin, scanner.extra`len, scanner.extra`effects, scanner.extra.buffer,
             scanner.Cur(), scanner.Cur().chBuf
    ensures scanner.stack == old(scanner.stack) && scanner.top == old(scanner.top) && scanner.HasCurrent()
    ensures scanner.Cur().chBuf == old(scanner.Cur().chBuf) || fresh(scanner.Cur().chBuf)
    ensures old(!scanner.Cur().fillBuffer) ==> scanner.yyin.rest == old(scanner.yyin.rest)
    ensures scanner.extra.Valid() && IsScanning(scanner, l) && scanner.Startable()
    ensures l.buffer == scanner.Cur() && UsedUp(l) && l.place.fills == old(scanner.Cur().fillBuffer)
    ensures Actions(scanner.trace) == Tokenise(text) && scanner.extra.State() == Acted(old(scanner.extra.State()), text)
    ensures Distinct(below) && Apart(scanner.Cur(), below) && forall i :: 0 <= i < |below| ==> IsResting(scanner, below[i])
  {
    hide IsScanning, Guts.AtRest, Guts.Restored, Guts.Startable, Guts.Remaining;
    hide Tokenise, Actions, Acted, UsedUp;
    l := ScanTop(scanner, text);
  }

  /** A whole scan of the top buffer uses up its layer, and changes none below. */
  method ScanLayer(scanner: Guts, ghost ls: seq<Layer>, ghost text: seq<byte>) returns (ghost l: Layer)
    requires IsStack(scanner, ls) && ls != [] && scanner.HasCurrent() && scanner.Startable()
    requires OneFills(scanner.Cur().fillBuffer, Popped(ls)) && text == scanner.Remaining()
    modifies scanner, scanner.yyin, scanner.extra`len, scanner.extra`effects, scanner.extra.buffer,
             scanner.Cur(), scanner.Cur().chBuf
    ensures scanner.HasCurrent() && scanner.Cur() == old(scanner.Cur()) && scanner.Startable()
    ensures scanner.Cur().chBuf == old(scanner.Cur().chBuf) || fresh(scanner.Cur().chBuf)
    ensures old(!scanner.Cur().fillBuffer) ==> scanner.yyin.rest == old(scanner.yyin.rest)
    ensures IsStack(scanner, Popped(ls) + [l]) && l.buffer == ls[|ls| - 1].buffer
    ensures UsedUp(l) && l.place.fills == old(scanner.Cur().fillBuffer)
    ensures scanner.extra.Valid()
    ensures Actions(scanner.trace) == Tokenise(text) && scanner.extra.State() == Acted(old(scanner.extra.State()), text)
  {
    StackRests(scanner, ls);
    hide IsScanning, IsResting, IsStack, Holds, Distinct, Carries, Apart, OneFills;
    hide Guts.AtRest, Guts.Restored, Guts.Startable, Guts.Remaining, Tokenise, Actions, Acted, UsedUp;
    l := ScanAbove(scanner, Popped(ls), text);
    TopAgain(scanner, ls, l);
  }

  lemma PushedStarts(scanner: Guts, ls: seq<Layer>, l: Layer)
    requires IsStack(scanner, ls + [l]) && scanner.HasCurrent() && scanner.Cur() == l.buffer
    requires scanner.cBufP == l.buffer.bufPos && scanner.nChars == l.buffer.nChars
    requires scanner.holdChar == l.buffer.chBuf[scanner.cBufP]
    ensures scanner.Startable() && l == Scanning(scanner)
    ensures scanner.Remaining() == l.place.contents[l.place.pos..l.place.count] + l.place.unread
  {
  }

  /**
   A push, a whole scan of the pushed buffer and a pop: the tokens are those of the pushed
   buffer alone, and the scan that was going on stands where it stood.
   */
  method ScanWithin(scanner: Guts, b: BufferState, ghost ls: seq<Layer>)
    requires IsStack(scanner, ls) && Apart(b, ls) && scanner.Saved(b) && OneFills(b.fillBuffer, ls)
    modifies scanner, scanner.yyin, scanner.extra`len, scanner.extra`effects, scanner.extra.buffer, b, b.chBuf,
             if scanner.HasCurrent() then {scanner.Cur(), scanner.Cur().chBuf} else {}
    ensures IsStack(scanner, ls)
    ensures Actions(scanner.trace) ==
            Tokenise(old(b.chBuf[b.bufPos..b.nChars] + if b.fillBuffer then scanner.yyin.rest else []))
  {
    hide IsStack, Guts.Saved, Guts.AtRest, Guts.Restored, Guts.Startable, Guts.Remaining, Tokenise, Actions;
    ghost var l := Resting(scanner, b);
    PushLayer(scanner, b, ls);
    PushedStarts(scanner, ls, l);
    ghost var l' := ScanLayer(scanner, ls + [l], scanner.Remaining());
    PopLayer(scanner, ls + [l']);
  }

  // ----- any sequence of operations

  datatype Op = PushOp(buffer: BufferState) | PopOp | ScanOp

  /** The bytes a scan of the layer has before it. */
  function TextLeft(l: Layer): seq<byte> {
    if l.place.pos <= l.place.count <= |l.place.contents|
    then l.place.contents[l.place.pos..l.place.count] + l.place.unread else []
  }

  /** The layers after ops: the i-th pushes the layer made[i], if it is a push, or leaves it on top, if it is a scan. */
  ghost function Played(ls: seq<Layer>, ops: seq<Op>, made: seq<Layer>): seq<Layer>
    requires |made| == |ops|
    decreases |ops|
  {
    if ops == [] then ls
    else
      var n := |ops| - 1;
      var before := Played(ls, ops[..n], made[..n]);
      match ops[n]
      case PushOp(_) => before + [made[n]]
      case PopOp => Popped(before)
      case ScanOp => Popped(before) + [made[n]]
  }

  /** The session after ops, the i-th of which scans the text texts[i], if it is a scan. */
  ghost function Performed(st: Batch, ops: seq<Op>, texts: seq<seq<byte>>): Batch
    requires |texts| == |ops|
    decreases |ops|
  {
    if ops == [] then st
    else
      var n := |ops| - 1;
      var before := Performed(st, ops[..n], texts[..n]);
      if ops[n].ScanOp? then Acted(before, texts[n]) else before
  }

  /** How many layers there are after ops. */
  function Height(h: nat, ops: seq<Op>): nat {
    if ops == [] then h
    else
      var before := Height(h, ops[..|ops| - 1]);
      match ops[|ops| - 1]
      case PushOp(_) => before + 1
      case PopOp => if before == 0 then 0 else before - 1
      case ScanOp => before
  }

  /** How many more pushes than pops there are. */
  function Depth(ops: seq<Op>): int {
    if ops == [] then 0
    else
      Depth(ops[..|ops| - 1]) +
      match ops[|ops| - 1]
      case PushOp(_) => 1
      case PopOp => -1
      case ScanOp => 0
  }

  /** No pop and no scan reaches below the layers pushed by ops. */
  ghost predicate StaysAbove(ops: seq<Op>) {
    && (forall k :: 0 <= k <= |ops| ==> Depth(ops[..k]) >= 0)
    && (forall k :: 0 <= k < |ops| && ops[k].ScanOp? ==> Depth(ops[..k]) > 0)
  }

  /** Whatever is pushed, scanned and popped above a layer, that layer stays as it was. */
  lemma {:induction false} LayersBelowStay(ls: seq<Layer>, ops: seq<Op>, made: seq<Layer>)
    requires |made| == |ops| && StaysAbove(ops)
    ensures ls <= Played(ls, ops, made) && |Played(ls, ops, made)| == |ls| + Depth(ops)
    decreases |ops|
  {
    if ops != [] {
      var n := |ops| - 1;
      assert ops[..n + 1] == ops;
      forall k | 0 <= k <= n
        ensures ops[..n][..k] == ops[..k]
      {
      }
      LayersBelowStay(ls, ops[..n], made[..n]);
      assert Depth(ops[..n + 1]) >= 0;
    }
  }

  /** If every push has its pop, the stack is as it was. */
  lemma BalancedRestores(ls: seq<Layer>, ops: seq<Op>, made: seq<Layer>)
    requires |made| == |ops| && StaysAbove(ops) && Depth(ops) == 0
    ensures Played(ls, ops, made) == ls
  {
    LayersBelowStay(ls, ops, made);
  }

  /** The layers that have to do with a sequence of operations. */
  function Involved(ls: seq<Layer>, ops: seq<Op>, pushed: seq<Layer>): (all: seq<Layer>)
    requires |pushed| == |ops|
  {
    if ops == [] then ls
    else
      var n := |ops| - 1;
      Involved(ls, ops[..n], pushed[..n]) + if ops[n].PushOp? then [pushed[n]] else []
  }

  /** No buffer among the layers twice, and their arrays are the given ones. */
  ghost predicate Separate(all: seq<Layer>, arrays: seq<array<byte>>)
    requires |arrays| == |all|
    reads (set i | 0 <= i < |all| :: all[i].buffer)`chBuf
  {
    && (forall i :: 0 <= i < |all| ==> all[i].buffer.chBuf == arrays[i])
    && (forall i, j :: 0 <= i < j < |all| ==> all[i].buffer != all[j].buffer && arrays[i] != arrays[j])
  }

  /** One of the layers at most fills from the input. */
  predicate OneInput(all: seq<Layer>) {
    forall i, j :: 0 <= i < j < |all| ==> !(all[i].place.fills && all[j].place.fills)
  }

  /** The layer is that of one of the buffers. */
  predicate From(l: Layer, some: seq<Layer>) {
    exists j :: 0 <= j < |some| && some[j].buffer == l.buffer && some[j].place.fills == l.place.fills
  }

  /** The layers of cur are among the first k of all, and the others are at rest. */
  ghost predicate Among(scanner: Guts, cur: seq<Layer>, all: seq<Layer>, k: nat)
    requires k <= |all|
    reads set i | 0 <= i < |all| :: all[i].buffer, set i | 0 <= i < |all| :: all[i].buffer.chBuf, scanner.yyin
  {
    && (forall x :: 0 <= x < |cur| ==> From(cur[x], all[..k]))
    && (forall i :: k <= i < |all| ==> IsResting(scanner, all[i]))
  }

  lemma AmongStart(scanner: Guts, ls: seq<Layer>, all: seq<Layer>)
    requires ls <= all && forall i :: |ls| <= i < |all| ==> IsResting(scanner, all[i])
    ensures Among(scanner, ls, all, |ls|)
  {
    forall x | 0 <= x < |ls|
      ensures From(ls[x], all[..|ls|])
    {
      assert all[..|ls|][x] == ls[x];
    }
  }

  lemma NextIsApart(cur: seq<Layer>, all: seq<Layer>, arrays: seq<array<byte>>, k: nat)
    requires |arrays| == |all| && Separate(all, arrays) && k < |all| && forall x :: 0 <= x < |cur| ==> From(cur[x], all[..k])
    ensures Apart(all[k].buffer, cur)
  {
  }

  lemma NextRests(scanner: Guts, cur: seq<Layer>, all: seq<Layer>, k: nat)
    requires k < |all| && Among(scanner, cur, all, k)
    ensures scanner.Saved(all[k].buffer) && all[k] == Resting(scanner, all[k].buffer)
  {
  }

  /** The buffer at the top is one of the first k, and none of the others. */
  lemma TopIsInvolved(scanner: Guts, cur: seq<Layer>, all: seq<Layer>, arrays: seq<array<byte>>, k: nat)
    requires Holds(scanner, cur) && scanner.HasCurrent() && |arrays| == |all| && Separate(all, arrays)
    requires k <= |all| && forall x :: 0 <= x < |cur| ==> From(cur[x], all[..k])
    ensures cur != [] && cur[|cur| - 1].buffer == scanner.Cur()
    ensures exists i :: 0 <= i < k && all[i].buffer == scanner.Cur() && arrays[i] == scanner.Cur().chBuf
    ensures forall i :: k <= i < |all| ==> all[i].buffer != scanner.Cur() && arrays[i] != scanner.Cur().chBuf
  {
    var top := cur[|cur| - 1];
    var i :| 0 <= i < k && all[..k][i].buffer == top.buffer;
    assert all[i].buffer == scanner.Cur();
  }

  lemma CurrentIsInvolved(scanner: Guts, cur: seq<Layer>, all: seq<Layer>, arrays: seq<array<byte>>, k: nat)
    requires IsStack(scanner, cur) && scanner.HasCurrent() && |arrays| == |all| && Separate(all, arrays)
    requires k <= |all| && Among(scanner, cur, all, k)
    ensures exists i :: 0 <= i < |all| && all[i].buffer == scanner.Cur() && arrays[i] == scanner.Cur().chBuf
  {
    TopIsInvolved(scanner, cur, all, arrays, k);
  }

  /** Of a stack of involved layers and those still to come at most one fills. */
  lemma TopFills(scanner: Guts, cur: seq<Layer>, all: seq<Layer>, arrays: seq<array<byte>>, k: nat)
    requires Distinct(cur) && cur != [] && |arrays| == |all| && Separate(all, arrays) && OneInput(all)
    requires k <= |all| && forall x :: 0 <= x < |cur| ==> From(cur[x], all[..k])
    ensures OneFills(cur[|cur| - 1].place.fills, Popped(cur))
    ensures cur[|cur| - 1].place.fills ==> forall i :: k <= i < |all| ==> !all[i].place.fills
  {
    var top := cur[|cur| - 1];
    var i :| 0 <= i < k && all[..k][i].buffer == top.buffer && all[..k][i].place.fills == top.place.fills;
    assert all[i].buffer == top.buffer && all[i].place.fills == top.place.fills;
    forall x | 0 <= x < |cur| - 1 && top.place.fills
      ensures !cur[x].place.fills
    {
      var j :| 0 <= j < k && all[..k][j].buffer == cur[x].buffer && all[..k][j].place.fills == cur[x].place.fills;
      assert all[j].buffer == cur[x].buffer && all[j].place.fills == cur[x].place.fills;
      assert i != j;
    }
  }

  lemma AmongPushed(scanner: Guts, cur: seq<Layer>, all: seq<Layer>, k: nat)
    requires k < |all| && forall x :: 0 <= x < |cur| ==> From(cur[x], all[..k])
    requires forall i :: k < i < |all| ==> IsResting(scanner, all[i])
    ensures Among(scanner, cur + [all[k]], all, k + 1)
  {
    hide IsResting;
    forall x | 0 <= x <= |cur|
      ensures From((cur + [all[k]])[x], all[..k + 1])
    {
      if x < |cur| {
        var j :| 0 <= j < k && all[..k][j].buffer == cur[x].buffer && all[..k][j].place.fills == cur[x].place.fills;
        assert all[..k + 1][j] == all[..k][j];
      } else {
        assert all[..k + 1][k] == all[k];
      }
    }
  }

  /** In the middle of a sequence of operations: cur are the layers, all those involved, and the first k of them have been on the stack. */
  ghost predicate Playing(scanner: Guts, cur: seq<Layer>, all: seq<Layer>, arrays: seq<array<byte>>, k: nat)
    reads scanner, set i | 0 <= i < |cur| :: cur[i].buffer, set i | 0 <= i < |cur| :: cur[i].buffer.chBuf,
          set i | 0 <= i < |all| :: all[i].buffer, set i | 0 <= i < |all| :: all[i].buffer.chBuf,
          if scanner.HasCurrent() then {scanner.Cur(), scanner.Cur().chBuf} else {}, scanner.extra, scanner.yyin
  {
    && IsStack(scanner, cur) && (scanner.HasCurrent() ==> scanner.Startable())
    && k <= |all| == |arrays| && Separate(all, arrays) && OneInput(all) && Among(scanner, cur, all, k)
  }

  /** What is needed to see that an operation may be done. */
  lemma PlayingFacts(scanner: Guts, cur: seq<Layer>, all: seq<Layer>, arrays: seq<array<byte>>, k: nat)
    requires Playing(scanner, cur, all, arrays, k)
    ensures k <= |all| == |arrays| && scanner.extra.Valid() && (scanner.HasCurrent() <==> cur != [])
    ensures scanner.HasCurrent() ==>
              && scanner.Startable() && scanner.Cur().chBuf != scanner.extra.buffer
              && exists i :: 0 <= i < |all| && all[i].buffer == scanner.Cur() && arrays[i] == scanner.Cur().chBuf
  {
    if scanner.HasCurrent() {
      CurrentIsInvolved(scanner, cur, all, arrays, k);
    }
  }

  /** A push, when of all layers the first k have been on the stack and layer k comes next. */
  method PlayPush(scanner: Guts, b: BufferState, ghost cur: seq<Layer>, ghost all: seq<Layer>, ghost arrays: seq<array<byte>>, ghost k: nat)
    requires Playing(scanner, cur, all, arrays, k) && k < |all| && all[k].buffer == b
    modifies scanner`stack, scanner`top, scanner`nChars, scanner`textPtr, scanner`cBufP, scanner`holdChar,
             (if scanner.HasCurrent() then {scanner.Cur()} else {})`bufPos,
             (if scanner.HasCurrent() then {scanner.Cur()} else {})`nChars,
             if scanner.HasCurrent() then {scanner.Cur().chBuf} else {}
    ensures Playing(scanner, cur + [all[k]], all, arrays, k + 1)
    ensures scanner.extra.Valid() && scanner.extra.State() == old(scanner.extra.State())
  {
    hide Playing, IsStack, Apart, Holds, Separate, OneInput, Among, From, IsResting, IsScanning, Scanning, Resting,
      Guts.Saved, Guts.AtRest, Guts.Restored, Guts.Unread, Guts.Startable, ParserData.Valid;
    PushOpens(scanner, cur, all, arrays, k);
    PushLayer(scanner, b, cur);
    forall i | k < i < |all|
      ensures IsResting(scanner, all[i])
    {
      assert old(IsResting(scanner, all[i])) && unchanged(all[i].buffer) && unchanged(all[i].buffer.chBuf);
    }
    assert forall i :: 0 <= i < |all| ==> all[i].buffer.chBuf == old(all[i].buffer.chBuf);
    PushCloses(scanner, cur, all, arrays, k);
  }

  lemma PushOpens(scanner: Guts, cur: seq<Layer>, all: seq<Layer>, arrays: seq<array<byte>>, k: nat)
    requires Playing(scanner, cur, all, arrays, k) && k < |all|
    ensures IsStack(scanner, cur) && Apart(all[k].buffer, cur) && scanner.Saved(all[k].buffer)
    ensures all[k] == Resting(scanner, all[k].buffer)
    ensures |arrays| == |all| && Separate(all, arrays) && OneInput(all) && forall x :: 0 <= x < |cur| ==> From(cur[x], all[..k])
    ensures forall i :: k <= i < |all| ==>
              && IsResting(scanner, all[i])
              && (scanner.HasCurrent() ==> all[i].buffer != scanner.Cur() && all[i].buffer.chBuf != scanner.Cur().chBuf)
    ensures scanner.extra.Valid() && (scanner.HasCurrent() ==> scanner.Cur().chBuf != scanner.extra.buffer)
  {
    hide IsStack, From, OneInput, IsResting, Guts.Startable, Guts.Saved, Resting;
    PlayingFacts(scanner, cur, all, arrays, k);
    NextIsApart(cur, all, arrays, k);
    NextRests(scanner, cur, all, k);
    if scanner.HasCurrent() {
      StackFacts(scanner, cur);
      TopIsInvolved(scanner, cur, all, arrays, k);
    }
  }

  lemma PushCloses(scanner: Guts, cur: seq<Layer>, all: seq<Layer>, arrays: seq<array<byte>>, k: nat)
    requires k < |all| == |arrays| && IsStack(scanner, cur + [all[k]]) && scanner.HasCurrent() && scanner.Cur() == all[k].buffer
    requires scanner.cBufP == all[k].buffer.bufPos && scanner.nChars == all[k].buffer.nChars
    requires scanner.holdChar == all[k].buffer.chBuf[scanner.cBufP]
    requires Separate(all, arrays) && OneInput(all) && forall x :: 0 <= x < |cur| ==> From(cur[x], all[..k])
    requires forall i :: k < i < |all| ==> IsResting(scanner, all[i])
    ensures Playing(scanner, cur + [all[k]], all, arrays, k + 1)
  {
    hide IsStack, From, OneInput, IsResting, Separate, Guts.Startable;
    AmongPushed(scanner, cur, all, k);
    PushedStarts(scanner, cur, all[k]);
  }

  /** A pop, likewise. */
  method PlayPop(scanner: Guts, ghost cur: seq<Layer>, ghost all: seq<Layer>, ghost arrays: seq<array<byte>>, ghost k: nat)
    requires Playing(scanner, cur, all, arrays, k)
    modifies scanner`stack, scanner`top, scanner`nChars, scanner`textPtr, scanner`cBufP, scanner`holdChar
    ensures Playing(scanner, Popped(cur), all, arrays, k)
    ensures scanner.extra.Valid() && scanner.extra.State() == old(scanner.extra.State())
  {
    PlayingFacts(scanner, cur, all, arrays, k);
    hide OneInput, Holds, Guts.Saved, Guts.AtRest, Guts.Restored, IsScanning, IsStack, From, Guts.Startable;
    PopLayer(scanner, cur);
  }

  lemma ScanningText(scanner: Guts, cur: seq<Layer>)
    requires IsStack(scanner, cur) && cur != [] && scanner.HasCurrent()
    ensures TextLeft(cur[|cur| - 1]) == scanner.Remaining() && cur[|cur| - 1].place.fills == scanner.Cur().fillBuffer
  {
  }

  lemma AmongScanned(scanner: Guts, cur: seq<Layer>, l: Layer, all: seq<Layer>, k: nat)
    requires cur != [] && k <= |all| && forall x :: 0 <= x < |cur| ==> From(cur[x], all[..k])
    requires l.buffer == cur[|cur| - 1].buffer && l.place.fills == cur[|cur| - 1].place.fills
    requires forall i :: k <= i < |all| ==> IsResting(scanner, all[i])
    ensures Among(scanner, Popped(cur) + [l], all, k)
  {
    hide IsResting;
    assert From(cur[|cur| - 1], all[..k]);
  }

  /** A scan of the top, likewise; the buffer may have got a larger array. */
  method PlayScan(scanner: Guts, ghost text: seq<byte>, ghost cur: seq<Layer>, ghost all: seq<Layer>,
                  ghost arrays: seq<array<byte>>, ghost k: nat)
    returns (ghost l: Layer, ghost arrays': seq<array<byte>>)
    requires Playing(scanner, cur, all, arrays, k) && scanner.HasCurrent() && cur != [] && text == TextLeft(cur[|cur| - 1])
    modifies scanner, scanner.yyin, scanner.extra`len, scanner.extra`effects, scanner.extra.buffer,
             scanner.Cur(), scanner.Cur().chBuf
    ensures Playing(scanner, Popped(cur) + [l], all, arrays', k) && l.buffer == cur[|cur| - 1].buffer && UsedUp(l)
    ensures |arrays'| == |arrays| && forall i :: 0 <= i < |arrays| ==> arrays'[i] == arrays[i] || fresh(arrays'[i])
    ensures scanner.extra.Valid() && scanner.extra.State() == Acted(old(scanner.extra.State()), text)
  {
    hide Playing, IsStack, OneInput, From, IsResting, RestsBy, OneFills, Guts.Startable, Guts.Remaining, ParserData.Valid,
      ParserData.State;
    hide Tokenise, Actions, Acted, UsedUp, TextLeft;
    ghost var j := ScanOpens(scanner, cur, all, arrays, k);
    ghost var unread := scanner.yyin.rest;
    l := ScanLayer(scanner, cur, text);
    arrays' := arrays[j := scanner.Cur().chBuf];
    forall i | k <= i < |all|
      ensures IsResting(scanner, all[i])
    {
      assert old(RestsBy(scanner.extra.buffer, all[i], scanner.yyin.rest)) && unchanged(all[i].buffer) && unchanged(all[i].buffer.chBuf);
      RestsStill(scanner, all[i], unread);
    }
    ScanCloses(scanner, cur, l, all, arrays', k);
  }

  /** IsResting, when the input still holds unread. */
  ghost predicate RestsBy(errors: array<byte>, l: Layer, unread: seq<byte>)
    reads l.buffer, l.buffer.chBuf
  {
    var b := l.buffer;
    && b.chBuf.Length == b.bufSize + 2 && b.chBuf != errors
    && b.bufPos <= b.nChars <= b.bufSize && b.chBuf[b.nChars] == b.chBuf[b.nChars + 1] == NUL
    && (b.fillBuffer ==> b.isOurs && b.bufSize > 0)
    && (b.status == EofPending && b.fillBuffer ==> unread == [])
    && l.place == Place(b.chBuf[..], b.bufPos, b.nChars, b.fillBuffer, if b.fillBuffer then unread else [])
  }

  lemma RestsStill(scanner: Guts, l: Layer, unread: seq<byte>)
    requires RestsBy(scanner.extra.buffer, l, unread) && (l.place.fills ==> scanner.yyin.rest == unread)
    ensures IsResting(scanner, l)
  {
  }

  /** What a scan of the top needs, and leaves alone. */
  lemma ScanOpens(scanner: Guts, cur: seq<Layer>, all: seq<Layer>, arrays: seq<array<byte>>, k: nat) returns (j: nat)
    requires Playing(scanner, cur, all, arrays, k) && scanner.HasCurrent() && cur != []
    ensures IsStack(scanner, cur) && scanner.Startable() && OneFills(scanner.Cur().fillBuffer, Popped(cur))
    ensures k <= |all| == |arrays| && Separate(all, arrays) && OneInput(all) && forall x :: 0 <= x < |cur| ==> From(cur[x], all[..k])
    ensures forall i :: k <= i < |all| ==>
              && RestsBy(scanner.extra.buffer, all[i], scanner.yyin.rest) && (scanner.Cur().fillBuffer ==> !all[i].place.fills)
              && all[i].buffer != scanner.Cur() && all[i].buffer.chBuf != scanner.Cur().chBuf
              && all[i].buffer.chBuf != scanner.extra.buffer
    ensures j < k && all[j].buffer == scanner.Cur() && arrays[j] == scanner.Cur().chBuf
    ensures cur[|cur| - 1].buffer == scanner.Cur() && cur[|cur| - 1].place.fills == scanner.Cur().fillBuffer
    ensures TextLeft(cur[|cur| - 1]) == scanner.Remaining() && scanner.extra.Valid()
  {
    hide From, OneInput, Guts.Startable, OneFills, Guts.AtRest;
    ScanningText(scanner, cur);
    HoldsDistinct(scanner, cur);
    hide IsStack, TextLeft, Guts.Remaining;
    StackFacts(scanner, cur);
    TopIsInvolved(scanner, cur, all, arrays, k);
    TopFills(scanner, cur, all, arrays, k);
    j :| 0 <= j < k && all[j].buffer == scanner.Cur() && arrays[j] == scanner.Cur().chBuf;
  }

  lemma ScanCloses(scanner: Guts, cur: seq<Layer>, l: Layer, all: seq<Layer>, arrays: seq<array<byte>>, k: nat)
    requires cur != [] && k <= |all| == |arrays| && IsStack(scanner, Popped(cur) + [l]) && scanner.Startable()
    requires l.buffer == cur[|cur| - 1].buffer && l.place.fills == cur[|cur| - 1].place.fills
    requires Separate(all, arrays) && OneInput(all) && forall x :: 0 <= x < |cur| ==> From(cur[x], all[..k])
    requires forall i :: k <= i < |all| ==> IsResting(scanner, all[i])
    ensures Playing(scanner, Popped(cur) + [l], all, arrays, k)
  {
    hide IsStack, From, OneInput, IsResting, Separate, Guts.Startable;
    AmongScanned(scanner, cur, l, all, k);
  }

  lemma HoldsDistinct(scanner: Guts, ls: seq<Layer>)
    requires Holds(scanner, ls)
    ensures Distinct(ls)
  {
  }

  lemma {:induction false} InvolvedPrefix(ls: seq<Layer>, ops: seq<Op>, pushed: seq<Layer>, i: nat)
    requires |pushed| == |ops| && i < |ops|
    ensures var all, k := Involved(ls, ops, pushed), |Involved(ls, ops[..i], pushed[..i])|;
            && Involved(ls, ops[..i + 1], pushed[..i + 1]) <= all && |ls| <= k <= |all|
            && if ops[i].PushOp? then k < |all| && all[k] == pushed[i] && |Involved(ls, ops[..i + 1], pushed[..i + 1])| == k + 1
               else |Involved(ls, ops[..i + 1], pushed[..i + 1])| == k
    decreases |ops|
  {
    var n := |ops| - 1;
    assert ops[..i + 1][..i] == ops[..i] && pushed[..i + 1][..i] == pushed[..i];
    if i == n {
      assert ops[..n + 1] == ops && pushed[..n + 1] == pushed;
      InvolvedLength(ls, ops[..n], pushed[..n]);
    } else {
      assert ops[..n][..i] == ops[..i] && pushed[..n][..i] == pushed[..i];
      assert ops[..n][..i + 1] == ops[..i + 1] && pushed[..n][..i + 1] == pushed[..i + 1];
      InvolvedPrefix(ls, ops[..n], pushed[..n], i);
    }
  }

  lemma {:induction false} InvolvedLength(ls: seq<Layer>, ops: seq<Op>, pushed: seq<Layer>)
    requires |pushed| == |ops|
    ensures |ls| <= |Involved(ls, ops, pushed)|
    decreases |ops|
  {
    if ops != [] {
      InvolvedLength(ls, ops[..|ops| - 1], pushed[..|ops| - 1]);
    }
  }

  /** How the layers and their number go on with operation i. */
  lemma PlayedNext(ls: seq<Layer>, ops: seq<Op>, made: seq<Layer>, i: nat, l: Layer)
    requires |made| == i < |ops|
    ensures Played(ls, ops[..i + 1], made + [l]) == Next(ops[i], Played(ls, ops[..i], made), l)
    ensures var before := Height(|ls|, ops[..i]);
            Height(|ls|, ops[..i + 1]) ==
              match ops[i] case PushOp(_) => before + 1 case PopOp => (if before == 0 then 0 else before - 1) case ScanOp => before
  {
    assert ops[..i + 1][..i] == ops[..i] && (made + [l])[..i] == made;
  }

  lemma PerformedNext(st: Batch, ops: seq<Op>, texts: seq<seq<byte>>, i: nat, text: seq<byte>)
    requires |texts| == i < |ops|
    ensures var before := Performed(st, ops[..i], texts);
            Performed(st, ops[..i + 1], texts + [text]) == if ops[i].ScanOp? then Acted(before, text) else before
  {
    hide Acted;
    assert ops[..i + 1][..i] == ops[..i] && (texts + [text])[..i] == texts;
  }

  /** What operation i has done: pushed its layer, or used up the top layer, just the text of that. */
  ghost predicate Did(ls: seq<Layer>, ops: seq<Op>, pushed: seq<Layer>, made: seq<Layer>, texts: seq<seq<byte>>, i: nat)
    requires i < |made| == |texts| <= |ops| == |pushed|
  {
    match ops[i]
    case PushOp(_) => made[i] == pushed[i]
    case PopOp => true
    case ScanOp =>
      var before := Played(ls, ops[..i], made[..i]);
      && before != [] && made[i].buffer == before[|before| - 1].buffer && UsedUp(made[i])
      && texts[i] == TextLeft(before[|before| - 1])
  }

  ghost predicate DidAll(ls: seq<Layer>, ops: seq<Op>, pushed: seq<Layer>, made: seq<Layer>, texts: seq<seq<byte>>)
    requires |made| == |texts| <= |ops| == |pushed|
  {
    forall i :: 0 <= i < |made| ==> Did(ls, ops, pushed, made, texts, i)
  }

  lemma DidNext(ls: seq<Layer>, ops: seq<Op>, pushed: seq<Layer>, made: seq<Layer>, texts: seq<seq<byte>>, l: Layer, text: seq<byte>)
    requires |made| == |texts| < |ops| == |pushed| && DidAll(ls, ops, pushed, made, texts)
    requires var before := Played(ls, ops[..|made|], made);
             match ops[|made|]
             case PushOp(_) => l == pushed[|made|]
             case PopOp => true
             case ScanOp =>
               before != [] && l.buffer == before[|before| - 1].buffer && UsedUp(l) && text == TextLeft(before[|before| - 1])
    ensures DidAll(ls, ops, pushed, made + [l], texts + [text])
  {
    hide Played, TextLeft, UsedUp;
    assert (made + [l])[..|made|] == made;
    forall i | 0 <= i < |made|
      ensures Did(ls, ops, pushed, made + [l], texts + [text], i)
    {
      assert Did(ls, ops, pushed, made, texts, i);
      assert (made + [l])[..i] == made[..i];
    }
  }

  /** What one operation makes of the layers. */
  function Next(op: Op, cur: seq<Layer>, l: Layer): seq<Layer> {
    match op
    case PushOp(_) => cur + [l]
    case PopOp => Popped(cur)
    case ScanOp => Popped(cur) + [l]
  }

  /** One operation. */
  method PlayOne(scanner: Guts, op: Op, ghost given: Layer, ghost text: seq<byte>, ghost cur: seq<Layer>, ghost all: seq<Layer>,
                 ghost arrays: seq<array<byte>>, ghost k: nat)
    returns (ghost l: Layer, ghost arrays': seq<array<byte>>)
    requires Playing(scanner, cur, all, arrays, k) && scanner.extra.Valid()
    requires match op case PushOp(b) => k < |all| && all[k] == given && given.buffer == b case PopOp => true
                      case ScanOp => scanner.HasCurrent() && cur != [] && text == TextLeft(cur[|cur| - 1])
    modifies scanner, scanner.yyin, scanner.extra`len, scanner.extra`effects, scanner.extra.buffer,
             if scanner.HasCurrent() then {scanner.Cur(), scanner.Cur().chBuf} else {}
    ensures |arrays'| == |arrays| && forall i :: 0 <= i < |arrays| ==> arrays'[i] == arrays[i] || fresh(arrays'[i])
    ensures Playing(scanner, Next(op, cur, l), all, arrays', if op.PushOp? then k + 1 else k)
    ensures op.PushOp? ==> l == given
    ensures op.ScanOp? ==> cur != [] && l.buffer == cur[|cur| - 1].buffer && UsedUp(l)
    ensures scanner.extra.Valid()
    ensures scanner.extra.State() == if op.ScanOp? then Acted(old(scanner.extra.State()), text) else old(scanner.extra.State())
  {
    hide Playing, ParserData.Valid, ParserData.State, Acted, UsedUp, TextLeft;
    l, arrays' := given, arrays;
    match op {
      case PushOp(b) =>
        PlayPush(scanner, b, cur, all, arrays, k);
      case PopOp =>
        PlayPop(scanner, cur, all, arrays, k);
      case ScanOp =>
        l, arrays' := PlayScan(scanner, text, cur, all, arrays, k);
    }
  }

  /**
   Any sequence of pushes, pops and scans, of buffers that are at rest and pushed once each,
   does to the layers what it does to a sequence; every scan acts on the text of the top
   buffer alone, and the session is that of the scans one after the other.
   */
  method Play(scanner: Guts, ops: seq<Op>, ghost ls: seq<Layer>, ghost pushed: seq<Layer>, ghost arrays: seq<array<byte>>)
    returns (ghost made: seq<Layer>, ghost texts: seq<seq<byte>>)
    requires IsStack(scanner, ls) && |pushed| == |ops| && (scanner.HasCurrent() ==> scanner.Startable())
    requires forall i :: 0 <= i < |ops| && ops[i].PushOp? ==> pushed[i].buffer == ops[i].buffer
    requires forall i :: 0 <= i < |ops| && ops[i].ScanOp? ==> Height(|ls|, ops[..i]) > 0
    requires var all := Involved(ls, ops, pushed);
             && |arrays| == |all| && Separate(all, arrays) && OneInput(all)
             && forall i :: |ls| <= i < |all| ==> IsResting(scanner, all[i])
    modifies scanner, scanner.yyin, scanner.extra`len, scanner.extra`effects, scanner.extra.buffer,
             set i | 0 <= i < |Involved(ls, ops, pushed)| :: Involved(ls, ops, pushed)[i].buffer,
             set i | 0 <= i < |arrays| :: arrays[i]
    ensures |made| == |texts| == |ops| && DidAll(ls, ops, pushed, made, texts)
    ensures IsStack(scanner, Played(ls, ops, made))
    ensures scanner.extra.Valid() && scanner.extra.State() == Performed(old(scanner.extra.State()), ops, texts)
    ensures scanner.stack != [] ==> scanner.top < |scanner.stack|
  {
    hide IsStack, Separate, OneInput, IsResting, Guts.Startable, ParserData.Valid, ParserData.State, Involved, Playing,
      Height, Account;
    PlayStarts(scanner, ops, ls, pushed, arrays);
    ghost var all, cur, k: nat := Involved(ls, ops, pushed), ls, |ls|;
    ghost var st, held := scanner.extra.State(), arrays;
    made, texts := [], [];
    var i := 0;
    while i < |ops|
      invariant i == |made| <= |ops| && Playing(scanner, cur, all, held, k) && |held| == |arrays|
      invariant scanner.extra.Valid() && Account(ls, ops, pushed, made, texts, cur, k, st, scanner.extra.State())
      invariant forall j :: 0 <= j < |held| ==> held[j] == arrays[j] || fresh(held[j])
    {
      OpFits(ls, ops, pushed, made, texts, cur, k, st, scanner.extra.State());
      PlayingFacts(scanner, cur, all, held, k);
      ghost var text, now, were := if ops[i].ScanOp? then TextLeft(cur[|cur| - 1]) else [], scanner.extra.State(), held;
      ghost var l;
      l, held := PlayOne(scanner, ops[i], pushed[i], text, cur, all, held, k);
      forall j | 0 <= j < |held|
        ensures held[j] == arrays[j] || fresh(held[j])
      {
        assert held[j] == were[j] || fresh(held[j]);
      }
      AccountNext(ls, ops, pushed, made, texts, cur, k, st, now, l, text);
      made, texts, cur := made + [l], texts + [text], Next(ops[i], cur, l);
      k := if ops[i].PushOp? then k + 1 else k;
      i := i + 1;
    }
    AccountEnds(ls, ops, pushed, made, texts, cur, k, st, scanner.extra.State());
    PlayingEnds(scanner, cur, all, held, k);
  }

  /** What the operations so far have made of the layers and of the session. */
  ghost predicate Account(ls: seq<Layer>, ops: seq<Op>, pushed: seq<Layer>, made: seq<Layer>, texts: seq<seq<byte>>,
                          cur: seq<Layer>, k: nat, st: Batch, now: Batch)
  {
    && |made| == |texts| <= |ops| == |pushed| && DidAll(ls, ops, pushed, made, texts)
    && cur == Played(ls, ops[..|made|], made) && |cur| == Height(|ls|, ops[..|made|])
    && k == |Involved(ls, ops[..|made|], pushed[..|made|])|
    && now == Performed(st, ops[..|made|], texts)
  }

  /** The next operation can be done. */
  lemma OpFits(ls: seq<Layer>, ops: seq<Op>, pushed: seq<Layer>, made: seq<Layer>, texts: seq<seq<byte>>,
               cur: seq<Layer>, k: nat, st: Batch, now: Batch)
    requires Account(ls, ops, pushed, made, texts, cur, k, st, now) && |made| < |ops|
    requires forall i :: 0 <= i < |ops| && ops[i].ScanOp? ==> Height(|ls|, ops[..i]) > 0
    ensures ops[|made|].PushOp? ==> k < |Involved(ls, ops, pushed)| && Involved(ls, ops, pushed)[k] == pushed[|made|]
    ensures ops[|made|].ScanOp? ==> cur != []
  {
    hide DidAll, Played, Height, Performed, Involved;
    InvolvedPrefix(ls, ops, pushed, |made|);
  }

  lemma AccountNext(ls: seq<Layer>, ops: seq<Op>, pushed: seq<Layer>, made: seq<Layer>, texts: seq<seq<byte>>,
                    cur: seq<Layer>, k: nat, st: Batch, now: Batch, l: Layer, text: seq<byte>)
    requires Account(ls, ops, pushed, made, texts, cur, k, st, now) && |made| < |ops|
    requires match ops[|made|]
             case PushOp(_) => l == pushed[|made|]
             case PopOp => true
             case ScanOp => cur != [] && l.buffer == cur[|cur| - 1].buffer && UsedUp(l) && text == TextLeft(cur[|cur| - 1])
    ensures Account(ls, ops, pushed, made + [l], texts + [text], Next(ops[|made|], cur, l),
                    if ops[|made|].PushOp? then k + 1 else k, st, if ops[|made|].ScanOp? then Acted(now, text) else now)
  {
    hide DidAll, Played, Height, Performed, Involved, TextLeft, UsedUp, Acted;
    var i := |made|;
    InvolvedPrefix(ls, ops, pushed, i);
    PlayedNext(ls, ops, made, i, l);
    PerformedNext(st, ops, texts, i, text);
    DidNext(ls, ops, pushed, made, texts, l, text);
  }

  lemma AccountEnds(ls: seq<Layer>, ops: seq<Op>, pushed: seq<Layer>, made: seq<Layer>, texts: seq<seq<byte>>,
                    cur: seq<Layer>, k: nat, st: Batch, now: Batch)
    requires Account(ls, ops, pushed, made, texts, cur, k, st, now) && |made| == |ops|
    ensures |texts| == |ops| == |pushed| && DidAll(ls, ops, pushed, made, texts)
    ensures cur == Played(ls, ops, made) && now == Performed(st, ops, texts)
  {
    assert ops[..|ops|] == ops && pushed[..|ops|] == pushed;
  }

  /** The start of the loop. */
  lemma PlayStarts(scanner: Guts, ops: seq<Op>, ls: seq<Layer>, pushed: seq<Layer>, arrays: seq<array<byte>>)
    requires IsStack(scanner, ls) && |pushed| == |ops| && (scanner.HasCurrent() ==> scanner.Startable())
    requires var all := Involved(ls, ops, pushed);
             && |arrays| == |all| && Separate(all, arrays) && OneInput(all)
             && forall i :: |ls| <= i < |all| ==> IsResting(scanner, all[i])
    ensures Playing(scanner, ls, Involved(ls, ops, pushed), arrays, |ls|) && scanner.extra.Valid()
    ensures Account(ls, ops, pushed, [], [], ls, |ls|, scanner.extra.State(), scanner.extra.State())
  {
    hide IsResting, IsStack, Separate, OneInput, Guts.Startable;
    StackFacts(scanner, ls);
    InvolvedStarts(ls, ops, pushed);
    AmongStart(scanner, ls, Involved(ls, ops, pushed));
  }

  lemma {:induction false} InvolvedStarts(ls: seq<Layer>, ops: seq<Op>, pushed: seq<Layer>)
    requires |pushed| == |ops|
    ensures ls <= Involved(ls, ops, pushed)
    decreases |ops|
  {
    if ops != [] {
      InvolvedStarts(ls, ops[..|ops| - 1], pushed[..|ops| - 1]);
    }
  }

  lemma PlayingEnds(scanner: Guts, cur: seq<Layer>, all: seq<Layer>, arrays: seq<array<byte>>, k: nat)
    requires Playing(scanner, cur, all, arrays, k)
    ensures IsStack(scanner, cur) && (scanner.stack != [] ==> scanner.top < |scanner.stack|)
  {
  }
}
