/**
 The generated scanner of scanner.c: the buffer it scans in place, the match loop with
 its back-up, the end-of-buffer handling, and the buffer stack. Pointers into yy_ch_buf
 are indices here.
 */
module Scanner {
  import opened Bytes
  import opened Rules
  import opened Tables
  import opened Tokeniser
  import opened Automaton
  import opened Session
  import opened MatchLoop
  import opened History

  const YY_BUF_SIZE := 16384
  const YY_READ_BUF_SIZE := 8192

  /** The action number of the end-of-file rule, YY_STATE_EOF(INITIAL). */
  const EOF_ACTION := END_OF_BUFFER + 1

  datatype Status = New | Normal | EofPending

  /** Where control goes after the end-of-buffer action: a label of yylex. */
  datatype Label = MatchLabel | FindActionLabel | EofLabel

  datatype EobAct = ContinueScan | EndOfFile | LastMatch

  /**
   A file descriptor: rest is what read() has not yet delivered, at how much it has. The plan
   says how the input is cut: a read() at position p delivers up to Cut(plan, p) bytes.
   */
  class Input {
    const plan: seq<nat>
    var rest: seq<byte>
    var at: nat

    constructor (content: seq<byte>, cuts: seq<nat>)
      ensures rest == content && at == 0 && plan == cuts
    {
      rest, at, plan := content, 0, cuts;
    }

    /** read(): as much as the plan, the input and the room allow, 0 only at the end. */
    method ReadInto(buf: array<byte>, pos: nat, max: nat) returns (n: nat)
      requires 0 < max && pos + max <= buf.Length
      modifies this, buf
      ensures n == Min(Min(max, |old(rest)|), Cut(plan, old(at)))
      ensures rest == old(rest)[n..] && at == old(at) + n
      ensures buf[..pos] == old(buf[..pos]) && buf[pos..pos + n] == old(rest)[..n] && buf[pos + n..] == old(buf[pos + n..])
    {
      n := Min(Min(max, |rest|), Cut(plan, at));
      forall i | 0 <= i < n {
        buf[pos + i] := rest[i];
      }
      rest, at := rest[n..], at + n;
    }
  }

  /** struct yy_buffer_state */
  class BufferState {
    var chBuf: array<byte>
    var bufPos: nat
    var bufSize: nat
    var nChars: nat
    var isOurs: bool
    var fillBuffer: bool
    var status: Status

    constructor (base: array<byte>, size: nat)
      ensures chBuf == base && bufSize == size && bufPos == nChars == 0 && status == New && !isOurs && !fillBuffer
    {
      chBuf := base;
      bufSize := size;
      bufPos, nChars := 0, 0;
      isOurs, fillBuffer := false, false;
      status := New;
    }
  }

  /** struct yyguts_t */
  class Guts {
    const extra: ParserData
    const yyin: Input
    var stack: seq<BufferState?>
    var top: nat
    var holdChar: byte
    var nChars: nat
    var leng: nat
    var cBufP: nat
    var init: bool
    var lastState: nat
    var lastCpos: nat
    var textPtr: nat
    ghost var first: seq<byte>
    ghost var trace: seq<Event>
    ghost var ended: bool
    /** The bytes of text read by the match loop; replays of pending text are not counted. */
    ghost var work: nat

    /** yylex_init_extra followed by yyset_in: no buffer yet. */
    constructor (data: ParserData, input: Input)
      ensures extra == data && yyin == input && stack == [] && top == 0 && !init
      ensures trace == [] && work == 0
    {
      extra, yyin := data, input;
      stack, top := [], 0;
      init := false;
      holdChar, nChars, leng, cBufP, textPtr, lastState, lastCpos := NUL, 0, 0, 0, 0, 0, 0;
      first, trace, ended, work := [], [], false, 0;
    }

    predicate HasCurrent()
      reads this`stack, this`top
    {
      top < |stack| && stack[top] != null
    }

    function Cur(): BufferState
      reads this`stack, this`top
      requires HasCurrent()
    {
      stack[top]
    }

    /** The two arrays differ, and yy_ch_buf has room for two end-of-buffer bytes. */
    ghost predicate Shape()
      reads this`stack, this`top, if HasCurrent() then {Cur()} else {}, extra
    {
      && HasCurrent() && extra.Valid()
      && Cur().chBuf.Length == Cur().bufSize + 2 && Cur().chBuf != extra.buffer
      && (Cur().fillBuffer ==> Cur().isOurs && Cur().bufSize > 0)
    }

    ghost function Unread(): seq<byte>
      reads this`stack, this`top, Cur(), yyin
      requires HasCurrent()
    {
      if Cur().fillBuffer then yyin.rest else []
    }

    /** Both end-of-buffer bytes are in place behind the text. */
    ghost predicate Bounded()
      reads this`stack, this`top, this`nChars, if HasCurrent() then {Cur(), Cur().chBuf} else {}, extra, yyin
    {
      && Shape() && nChars <= Cur().bufSize
      && Cur().chBuf[nChars] == NUL && Cur().chBuf[nChars + 1] == NUL
      && (Cur().status == New ==> Cur().nChars == nChars)
      && (Cur().status == EofPending ==> Unread() == [])
    }

    /**
     The match loop, entered at yy_match with text buf[bp..cp0] already scanned. Every
     ending is one of the four cases; the bytes of text read are counted in work.
     */
    method Match(bp: nat, cp0: nat, s0: nat) returns (cp: nat, s: nat)
      requires Bounded() && bp <= cp0 <= nChars
      requires Resumable(Cur().chBuf[bp..cp0], s0, bp, lastState, lastCpos)
      modifies this`lastState, this`lastCpos, this`work
      ensures IsState(s) && work == old(work) + Min(cp, nChars) - cp0
      ensures s == JAM_STATE && lastState == EOB_STATE ==> cp0 + 2 <= cp
      ensures Matched(Cur().chBuf[..], nChars, bp, cp, s, lastState, lastCpos)
    {
      var b := Cur();
      ghost var buf := b.chBuf[..];
      assert buf[bp..cp0] == b.chBuf[bp..cp0];
      WaitingState(buf[bp..cp0]);
      assert IsState(s0) && s0 != EOB_STATE && Matching(buf, nChars, bp, cp0, s0, lastState, lastCpos);
      hide Matching, Matched, Waiting, Resumable, Accept, Stops, Delta, Bounded, ByteClass;
      cp, s := cp0, s0;
      var stop := false;
      while !stop
        invariant IsState(s) && cp0 <= cp <= nChars + 2 && (!stop ==> cp <= nChars + 1)
        invariant if stop then s == JAM_STATE && lastState == EOB_STATE ==> cp0 + 2 <= cp
                  else s == EOB_STATE ==> cp0 < cp
        invariant work == old(work) + Min(cp, nChars) - cp0
        invariant if stop then Matched(buf, nChars, bp, cp, s, lastState, lastCpos)
                  else Matching(buf, nChars, bp, cp, s, lastState, lastCpos)
        decreases nChars + 2 - cp
      {
        MatchRound(buf, nChars, bp, cp, s, lastState, lastCpos);
        s, stop := MatchStep(cp, s);
        cp := cp + 1;
      }
    }

    /** One transition of the match loop, noting an accepting state before it leaves it. */
    method MatchStep(cp: nat, s: nat) returns (t: nat, stop: bool)
      requires HasCurrent() && cp < Cur().chBuf.Length && IsState(s)
      modifies this`lastState, this`lastCpos, this`work
      ensures t == Delta(s, ByteClass(Cur().chBuf[cp])) && stop == Stops(t)
      ensures (lastState, lastCpos) == if Accept(s) != 0 then (s, cp) else old((lastState, lastCpos))
      ensures work == old(work) + (if cp < nChars then 1 else 0)
    {
      var c := LookUpClass(Cur().chBuf[cp]);
      var act := LookUpAction(s);
      if act != 0 {
        lastState := s;
        lastCpos := cp;
      }
      t := NextState(s, c);
      if cp < nChars {
        work := work + 1;
      }
      stop := LookUpStop(t);
    }

    /**
     yy_find_action and YY_DO_BEFORE_ACTION: take the action of the state reached, backing
     up if it has none, and cut the lexeme off with a NUL, the byte there going on hold.
     */
    method FindAction(bp: nat, cp0: nat, s0: nat) returns (act: nat, cp: nat)
      requires Shape() && IsState(s0)
      requires Accept(s0) == 0 ==> IsState(lastState) && Accept(lastState) != 0
      requires bp <= (if Accept(s0) == 0 then lastCpos else cp0) < Cur().chBuf.Length
      modifies this`textPtr, this`leng, this`holdChar, this`cBufP, Cur().chBuf
      ensures act == Accept(if Accept(s0) == 0 then lastState else s0)
      ensures cp == if Accept(s0) == 0 then lastCpos else cp0
      ensures textPtr == bp && leng == cp - bp && cBufP == cp
      ensures holdChar == old(Cur().chBuf[cp]) && Cur().chBuf[..] == old(Cur().chBuf[..])[cp := NUL]
    {
      cp := cp0;
      act := LookUpAction(s0);
      if act == 0 {
        cp := lastCpos;
        act := LookUpAction(lastState);
      }
      textPtr := bp;
      leng := cp - bp;
      holdChar := Cur().chBuf[cp];
      Cur().chBuf[cp] := NUL;
      cBufP := cp;
    }

    /** yy_get_previous_state: replay the pending text, a NUL in it counting as class 1. */
    method GetPreviousState() returns (s: nat)
      requires Shape() && textPtr <= cBufP <= Cur().chBuf.Length
      requires Waiting(Cur().chBuf[textPtr..cBufP])
      modifies this`lastState, this`lastCpos
      ensures IsState(s)
      ensures Resumable(Cur().chBuf[textPtr..cBufP], s, textPtr, lastState, lastCpos)
    {
      ghost var p := Cur().chBuf[textPtr..cBufP];
      assert p[..0] == [];
      assert Resumable(p[..0], START_STATE, textPtr, lastState, lastCpos);
      hide Resumable, Waiting, Run, Delta, Accept, ByteClass;
      s := START_STATE;
      var cp := textPtr;
      while cp < cBufP
        invariant textPtr <= cp <= cBufP && IsState(s)
        invariant Resumable(p[..cp - textPtr], s, textPtr, lastState, lastCpos)
      {
        ReplayRound(p, cp - textPtr, s, textPtr, lastState, lastCpos);
        s := ReplayStep(cp, s);
        cp := cp + 1;
      }
      assert p[..|p|] == p;
    }

    method ReplayStep(cp: nat, s: nat) returns (t: nat)
      requires HasCurrent() && cp < Cur().chBuf.Length && IsState(s)
      modifies this`lastState, this`lastCpos
      ensures t == Delta(s, TextClass(Cur().chBuf[cp]))
      ensures (lastState, lastCpos) == if Accept(s) != 0 then (s, cp) else old((lastState, lastCpos))
    {
      var c := 1;
      if Cur().chBuf[cp] != NUL {
        c := LookUpClass(Cur().chBuf[cp]);
      }
      var act := LookUpAction(s);
      if act != 0 {
        lastState := s;
        lastCpos := cp;
      }
      t := NextState(s, c);
    }

    /** yy_try_NUL_trans: the state after a real NUL, 0 if that jams. */
    method TryNulTrans(s0: nat) returns (s: nat)
      requires IsState(s0)
      modifies this`lastState, this`lastCpos
      ensures s == if Delta(s0, 1) == JAM_STATE then 0 else Delta(s0, 1)
      ensures (lastState, lastCpos) == if Accept(s0) != 0 then (s0, cBufP) else old((lastState, lastCpos))
    {
      var act := LookUpAction(s0);
      if act != 0 {
        lastState := s0;
        lastCpos := cBufP;
      }
      s := NextState(s0, 1);
      if s == JAM_STATE {
        s := 0;
      }
    }

    /** The overlapping copy that moves the pending text to the front of the buffer. */
    method MoveToFront(move: nat)
      requires Shape() && textPtr + move <= Cur().chBuf.Length
      modifies Cur().chBuf
      ensures Cur().chBuf[..move] == old(Cur().chBuf[textPtr..textPtr + move])
    {
      var b := Cur();
      var i := 0;
      while i < move
        invariant 0 <= i <= move
        invariant forall k :: 0 <= k < i ==> b.chBuf[k] == old(b.chBuf[textPtr + k])
        invariant forall k :: i <= k < b.chBuf.Length ==> b.chBuf[k] == old(b.chBuf[k])
      {
        b.chBuf[i] := b.chBuf[textPtr + i];
        i := i + 1;
      }
    }

    /** Double the buffer until something can be read behind the moved text. */
    method EnsureRoom(move: nat) returns (numToRead: nat)
      requires Shape() && Cur().fillBuffer && move <= Cur().chBuf.Length
      modifies Cur()
      ensures Shape() && Cur().fillBuffer && Cur().status == old(Cur().status) && Cur().nChars == old(Cur().nChars)
      ensures 0 < numToRead <= YY_READ_BUF_SIZE && move + numToRead < Cur().bufSize
      ensures Cur().bufSize == old(Cur().bufSize) || Cur().bufSize >= 2 * old(Cur().bufSize)
      ensures Cur().chBuf == old(Cur().chBuf) || fresh(Cur().chBuf)
      ensures Cur().chBuf[..move] == old(Cur().chBuf[..move])
    {
      var b := Cur();
      var room: int := b.bufSize - move - 1;
      while room <= 0
        invariant Shape() && b.fillBuffer && b.status == old(b.status) && b.nChars == old(b.nChars)
        invariant room == b.bufSize - move - 1 && move <= b.chBuf.Length
        invariant b.bufSize == old(b.bufSize) || b.bufSize >= 2 * old(b.bufSize)
        invariant b.chBuf == old(b.chBuf) || fresh(b.chBuf)
        invariant b.chBuf[..move] == old(b.chBuf[..move])
        decreases -room
      {
        if !b.isOurs {
          assert false;
        }
        b.bufSize := b.bufSize * 2;
        var bigger := new byte[b.bufSize + 2];
        forall i | 0 <= i < b.chBuf.Length {
          bigger[i] := b.chBuf[i];
        }
        b.chBuf := bigger;
        room := b.bufSize - move - 1;
      }
      numToRead := Min(room, YY_READ_BUF_SIZE);
    }

    /** yy_load_buffer_state */
    method LoadBufferState()
      requires HasCurrent() && Cur().bufPos < Cur().chBuf.Length
      modifies this`nChars, this`textPtr, this`cBufP, this`holdChar
      ensures nChars == Cur().nChars && textPtr == cBufP == Cur().bufPos
      ensures holdChar == Cur().chBuf[cBufP]
    {
      nChars := Cur().nChars;
      textPtr := Cur().bufPos;
      cBufP := Cur().bufPos;
      holdChar := Cur().chBuf[cBufP];
    }

    /** yy_init_buffer */
    method InitBuffer(b: BufferState)
      requires b.chBuf.Length >= 2
      modifies this`nChars, this`textPtr, this`cBufP, this`holdChar, b`nChars, b`bufPos, b`status, b`fillBuffer, b.chBuf
      ensures b.nChars == b.bufPos == 0 && b.status == New && b.fillBuffer && b.chBuf[0] == b.chBuf[1] == NUL
      ensures !(HasCurrent() && Cur() == b) ==> unchanged(this)
    {
      FlushBuffer(b);
      b.fillBuffer := true;
    }

    /** What yyrestart does with a current buffer: yy_init_buffer, which flushes, then a reload. */
    method Reload()
      requires HasCurrent() && Cur().chBuf.Length >= 2
      modifies this`nChars, this`textPtr, this`cBufP, this`holdChar, Cur()`nChars, Cur()`bufPos,
               Cur()`status, Cur()`fillBuffer, Cur().chBuf
      ensures old(Shape()) && Cur().isOurs && Cur().bufSize > 0 ==> Shape()
      ensures Cur().fillBuffer && Cur().status == New && Cur().nChars == Cur().bufPos == 0
      ensures nChars == textPtr == cBufP == 0 && holdChar == NUL
      ensures Cur().chBuf[0] == Cur().chBuf[1] == NUL
    {
      InitBuffer(Cur());
      LoadBufferState();
    }

    /** yy_flush_buffer */
    method FlushBuffer(b: BufferState)
      requires b.chBuf.Length >= 2
      modifies this`nChars, this`textPtr, this`cBufP, this`holdChar, b`nChars, b`bufPos, b`status, b.chBuf
      ensures b.nChars == b.bufPos == 0 && b.status == New && b.chBuf[0] == b.chBuf[1] == NUL
      ensures HasCurrent() && Cur() == b ==> nChars == textPtr == cBufP == 0 && holdChar == NUL
      ensures !(HasCurrent() && Cur() == b) ==> unchanged(this)
    {
      b.nChars := 0;
      b.chBuf[0] := NUL;
      b.chBuf[1] := NUL;
      b.bufPos := 0;
      b.status := New;
      if HasCurrent() && Cur() == b {
        LoadBufferState();
      }
    }

    /** Nothing will be read any more. */
    predicate AtEnd()
      reads this`stack, this`top, if HasCurrent() then {Cur()} else {}
      requires HasCurrent()
    {
      !Cur().fillBuffer || Cur().status == EofPending
    }

    /** A read() of this run has returned nothing, unless the end was pending before. */
    ghost predicate Told()
      reads this`trace, this`ended
    {
      ended || SawEof(trace)
    }

    /** The history so far leaves backlog, and the end of the input, if known, is remembered. */
    ghost predicate Recorded(backlog: seq<byte>)
      reads this`stack, this`top, this`first, this`trace, this`ended, if HasCurrent() then {Cur()} else {}
    {
      && HasCurrent() && Orderly(yyin.plan, first, trace, backlog)
      && (EndKnown(trace) ==> AtEnd())
      && (Cur().fillBuffer && AtEnd() ==> Told())
    }

    /** More input cannot change what is done about the held text. */
    ghost predicate Decided(held: seq<byte>)
      reads this`stack, this`top, if HasCurrent() then {Cur()} else {}
    {
      HasCurrent() && (Waiting(held) ==> AtEnd())
    }

    /** Read behind the pending text p, which already lies at the front of the buffer. */
    method ReadMore(move: nat, ghost p: seq<byte>)
      requires Shape() && Cur().fillBuffer && move <= Cur().chBuf.Length && Cur().chBuf[..move] == p
      requires Waiting(p) && Recorded(p) && Cur().status != EofPending
      modifies this`nChars, this`trace, Cur(), Cur().chBuf, yyin
      ensures Shape() && Cur().fillBuffer && Cur().status == old(Cur().status)
      ensures Cur().chBuf == old(Cur().chBuf) || fresh(Cur().chBuf)
      ensures Cur().nChars == nChars <= |old(yyin.rest)| && move + nChars < Cur().bufSize
      ensures yyin.rest == old(yyin.rest)[nChars..] && (nChars == 0 <==> old(yyin.rest) == [])
      ensures Cur().chBuf[..move + nChars] == p + old(yyin.rest)[..nChars]
      ensures Orderly(yyin.plan, first, trace, p + old(yyin.rest)[..nChars]) && Actions(trace) == old(Actions(trace))
      ensures EndKnown(trace) ==> nChars == 0
      ensures nChars == 0 ==> SawEof(trace)
    {
      hide Waiting, Orderly, SawEof, EndKnown, Actions;
      var b := Cur();
      ghost var rest, at := yyin.rest, yyin.at;
      var numToRead := EnsureRoom(move);
      nChars := yyin.ReadInto(b.chBuf, move, numToRead);
      b.nChars := nChars;
      assert b.chBuf[..move + nChars] == b.chBuf[..move] + b.chBuf[move..move + nChars];
      RecordRead(at, p, rest[..nChars]);
    }

    /** The read goes into the history. */
    ghost method RecordRead(at: nat, p: seq<byte>, chunk: seq<byte>)
      requires Orderly(yyin.plan, first, trace, p) && Waiting(p) && !EndKnown(trace) && |chunk| <= Cut(yyin.plan, at)
      modifies this`trace
      ensures Orderly(yyin.plan, first, trace, p + chunk) && Actions(trace) == old(Actions(trace))
      ensures EndKnown(trace) ==> chunk == []
      ensures chunk == [] ==> SawEof(trace)
    {
      EventAppend(trace, ReadCall(at, p, chunk));
      trace := trace + [ReadCall(at, p, chunk)];
    }

    /** Put both end-of-buffer bytes behind the text, which starts at the front of the buffer. */
    method Seal(move: nat)
      requires Shape() && nChars + move <= Cur().bufSize
      modifies this`nChars, this`textPtr, Cur().chBuf
      ensures nChars == old(nChars) + move && textPtr == 0
      ensures Cur().chBuf[..nChars] == old(Cur().chBuf[..nChars + move])
      ensures Cur().chBuf[nChars] == Cur().chBuf[nChars + 1] == NUL
    {
      nChars := nChars + move;
      Cur().chBuf[nChars] := NUL;
      Cur().chBuf[nChars + 1] := NUL;
      textPtr := 0;
    }

    /** What yy_get_next_buffer does once the text, pending and newly read, is at the front of the buffer. */
    method FinishRefill(move: nat, ghost text: seq<byte>) returns (r: EobAct)
      requires Shape() && Cur().fillBuffer && Cur().status != New
      requires nChars + move <= Cur().bufSize && Cur().chBuf[..move + nChars] == text
      requires (nChars == 0 || Cur().status == EofPending ==> Unread() == [])
      requires Orderly(yyin.plan, first, trace, text) && (EndKnown(trace) ==> nChars == 0) && (nChars == 0 ==> Told())
      requires Cur().status == EofPending ==> nChars == 0
      modifies this`nChars, this`textPtr, this`cBufP, this`holdChar, Cur(), Cur().chBuf
      ensures Bounded() && Cur().fillBuffer && Cur().chBuf == old(Cur().chBuf)
      ensures textPtr == 0 && nChars == |text| && Cur().chBuf[..nChars] == text
      ensures r == if old(nChars) > 0 then ContinueScan else if move == 0 then EndOfFile else LastMatch
      ensures r == EndOfFile ==> cBufP == 0 && holdChar == NUL && Told()
      ensures r != EndOfFile ==> Cur().status != New && Recorded(text)
      ensures r == LastMatch ==> AtEnd()
    {
      var b := Cur();
      if nChars == 0 {
        if move == 0 {
          r := EndOfFile;
          Reload();
        } else {
          r := LastMatch;
          b.status := EofPending;
        }
      } else {
        r := ContinueScan;
      }
      if nChars + move > b.bufSize {
        assert false;
      }
      Seal(move);
    }

    /** Try to read more behind the pending text p, which lies at the front of the buffer. */
    method Refill(move: nat, ghost p: seq<byte>) returns (r: EobAct)
      requires Shape() && Cur().fillBuffer && Cur().status != New
      requires Cur().status == EofPending ==> Unread() == []
      requires move <= Cur().bufSize && Cur().chBuf[..move] == p && Waiting(p) && Recorded(p)
      modifies this`nChars, this`textPtr, this`cBufP, this`holdChar, this`trace, Cur(), Cur().chBuf, yyin
      ensures Bounded() && Cur().fillBuffer && textPtr == 0 && move <= nChars
      ensures Cur().chBuf == old(Cur().chBuf) || fresh(Cur().chBuf)
      ensures Cur().chBuf[..move] == p && Cur().chBuf[..nChars] + yyin.rest == p + old(yyin.rest)
      ensures r == ContinueScan ==> |yyin.rest| < |old(yyin.rest)|
      ensures r != ContinueScan ==> yyin.rest == [] && nChars == move
      ensures r == EndOfFile <==> p == [] && old(yyin.rest) == []
      ensures r == EndOfFile ==> cBufP == 0 && holdChar == NUL && Told()
      ensures r == LastMatch ==> AtEnd()
      ensures Orderly(yyin.plan, first, trace, Cur().chBuf[..nChars]) && Actions(trace) == old(Actions(trace))
      ensures r != EndOfFile ==> Cur().status != New && Recorded(Cur().chBuf[..nChars])
    {
      hide Waiting, Orderly, SawEof, EndKnown, Actions;
      var b := Cur();
      ghost var unread := yyin.rest;
      if b.status == EofPending {
        b.nChars := 0;
        nChars := 0;
        assert p + unread[..0] == p && b.chBuf[..move] == p;
      } else {
        ReadMore(move, p);
      }
      ghost var text := p + unread[..nChars];
      assert text + unread[nChars..] == p + unread;
      r := FinishRefill(move, text);
      assert Cur().chBuf[..move] == Cur().chBuf[..nChars][..move] == text[..move] == p;
    }

    /** The buffer and the unread input hold rem from the lexeme's start on, nothing being on hold. */
    ghost predicate Spread(rem: seq<byte>)
      reads this`stack, this`top, this`nChars, this`textPtr, this`first, this`trace, this`ended,
            if HasCurrent() then {Cur(), Cur().chBuf} else {}, extra, yyin
    {
      && Bounded() && textPtr <= nChars
      && Cur().chBuf[textPtr..nChars] + Unread() == rem && Recorded(Cur().chBuf[textPtr..nChars])
    }

    /** Besides, the buffer is in use. */
    ghost predicate Loaded(rem: seq<byte>)
      reads this`stack, this`top, this`nChars, this`textPtr, this`first, this`trace, this`ended,
            if HasCurrent() then {Cur(), Cur().chBuf} else {}, extra, yyin
    {
      Spread(rem) && Cur().status != New
    }

    lemma LoadedShape(rem: seq<byte>)
      requires Loaded(rem)
      ensures Shape() && textPtr <= nChars && nChars + 1 < Cur().chBuf.Length
      ensures rem == [] ==> textPtr == nChars
    {
    }

    /** yy_get_next_buffer, called with nothing but waiting text left of rem in the buffer. */
    method GetNextBuffer(ghost rem: seq<byte>) returns (r: EobAct)
      requires Loaded(rem) && cBufP == nChars + 1 && holdChar == NUL
      requires Waiting(Cur().chBuf[textPtr..nChars])
      modifies this`nChars, this`textPtr, this`cBufP, this`holdChar, this`trace, Cur(), Cur().chBuf, yyin
      ensures Cur().chBuf == old(Cur().chBuf) || fresh(Cur().chBuf)
      ensures Cur().fillBuffer == old(Cur().fillBuffer) && (!Cur().fillBuffer ==> yyin.rest == old(yyin.rest))
      ensures Actions(trace) == old(Actions(trace))
      ensures r == EndOfFile <==> rem == []
      ensures r == EndOfFile ==> Bounded() && textPtr == nChars && Unread() == [] && Orderly(yyin.plan, first, trace, []) && holdChar == NUL
      ensures r == EndOfFile && Cur().fillBuffer ==> Told()
      ensures r != EndOfFile ==>
                var amount := old(nChars - textPtr);
                && Loaded(rem) && textPtr + amount <= nChars && Waiting(Cur().chBuf[textPtr..textPtr + amount])
                && (r == LastMatch ==> textPtr + amount == nChars && Unread() == [] && AtEnd())
      ensures r == ContinueScan ==> |Unread()| < |old(Unread())|
    {
      hide Waiting, Orderly, SawEof, EndKnown, Actions;
      var b := Cur();
      if cBufP > nChars + 1 {
        assert false;
      }
      if !b.fillBuffer {
        return if cBufP - textPtr == 1 then EndOfFile else LastMatch;
      }
      var move := cBufP - textPtr - 1;
      ghost var p := b.chBuf[textPtr..nChars];
      MoveToFront(move);
      r := Refill(move, p);
      assert textPtr == 0 && Cur().chBuf[..nChars] == Cur().chBuf[textPtr..nChars];
    }

    /** The buffer's contents with the byte on hold put back. */
    ghost function Restored(): seq<byte>
      reads this`stack, this`top, this`cBufP, this`holdChar, Cur(), Cur().chBuf
      requires HasCurrent() && cBufP < Cur().chBuf.Length
    {
      Cur().chBuf[..][cBufP := holdChar]
    }

    /** Bounded, but for one byte on hold at the scan position. */
    ghost predicate AtRest()
      reads this`stack, this`top, this`nChars, this`cBufP, this`holdChar,
            if HasCurrent() then {Cur(), Cur().chBuf} else {}, extra, yyin
    {
      && Shape() && cBufP <= nChars + 1 && nChars <= Cur().bufSize
      && Restored()[nChars] == NUL && Restored()[nChars + 1] == NUL
      && (Cur().status == New ==> Cur().nChars == nChars)
      && (Cur().status == EofPending ==> Unread() == [])
    }

    /** From the lexeme's start on, the buffer and the unread input hold exactly rem. */
    ghost predicate Holds(rem: seq<byte>)
      reads this`stack, this`top, this`nChars, this`cBufP, this`holdChar, this`textPtr, this`first, this`trace, this`ended,
            if HasCurrent() then {Cur(), Cur().chBuf} else {}, extra, yyin
    {
      && AtRest() && textPtr <= nChars
      && Restored()[textPtr..nChars] + Unread() == rem
      && Recorded(Restored()[textPtr..nChars])
    }

    /**
     Action act is current for the input of g, whose lexeme is yytext, NUL-terminated: it is
     the action of the next token, or the end-of-buffer action. Since work was w0, only the
     bytes up to there have been scanned.
     */
    ghost predicate Current(g: Goal, act: nat, w0: nat)
      reads this`stack, this`top, this`nChars, this`cBufP, this`holdChar, this`textPtr,
            this`first, this`trace, this`ended, this`leng, this`work,
            if HasCurrent() then {Cur(), Cur().chBuf} else {}, extra, yyin
    {
      && Holds(g.rem) && cBufP < Cur().chBuf.Length && Cur().chBuf[cBufP] == NUL
      && textPtr <= cBufP && leng == cBufP - textPtr
      && Settled(Restored(), nChars, textPtr, act, cBufP, g, work - w0)
      && (act != END_OF_BUFFER ==> Decided(Restored()[textPtr..nChars]))
    }

    /** yy_find_action in a position that settles something makes that action current. */
    method TakeAction(bp: nat, cp0: nat, s0: nat, ghost g: Goal, ghost w0: nat) returns (act: nat)
      requires Bounded() && IsState(s0) && (Accept(s0) == 0 ==> IsState(lastState) && Accept(lastState) != 0)
      requires var found := Found(s0, cp0, lastState, lastCpos);
               Settled(Cur().chBuf[..], nChars, bp, found.0, found.1, g, work - w0)
      requires bp <= nChars && (Found(s0, cp0, lastState, lastCpos).0 != END_OF_BUFFER ==> Decided(Cur().chBuf[bp..nChars]))
      requires Cur().chBuf[bp..nChars] + Unread() == g.rem && Recorded(Cur().chBuf[bp..nChars])
      modifies this`textPtr, this`leng, this`holdChar, this`cBufP, Cur().chBuf
      ensures Current(g, act, w0) && nChars == old(nChars) && Unread() == old(Unread())
      ensures (act, cBufP) == old(Found(s0, cp0, lastState, lastCpos)) && act <= END_OF_BUFFER && cBufP <= nChars + 1
    {
      hide Waiting, Orderly, SawEof, EndKnown;
      ghost var buf := Cur().chBuf[..];
      assert buf[bp..nChars] == Cur().chBuf[bp..nChars];
      var cp;
      act, cp := FindAction(bp, cp0, s0);
      assert Restored() == buf;
    }

    /** The match loop and what it settles. */
    method MatchInput(bp: nat, cp0: nat, s0: nat, ghost g: Goal, ghost w0: nat) returns (cp: nat, s: nat)
      requires Bounded() && bp <= cp0 <= nChars
      requires Resumable(Cur().chBuf[bp..cp0], s0, bp, lastState, lastCpos)
      requires Cur().chBuf[bp..nChars] <= g.rem && IsGoal(g) && (NUL !in g.rem ==> work - w0 == cp0 - bp)
      modifies this`lastState, this`lastCpos, this`work
      ensures IsState(s) && (Accept(s) == 0 ==> IsState(lastState) && Accept(lastState) != 0)
      ensures var found := Found(s, cp, lastState, lastCpos);
              && Settled(Cur().chBuf[..], nChars, bp, found.0, found.1, g, work - w0)
              && (found.0 == END_OF_BUFFER ==> cp0 < found.1)
              && (found.0 != END_OF_BUFFER ==> Decided(Cur().chBuf[bp..nChars]))
    {
      hide Run, Live, Orderly, NextToken, Cost, Waiting;
      cp, s := Match(bp, cp0, s0);
      ghost var buf := Cur().chBuf[..];
      assert buf[bp..nChars] == Cur().chBuf[bp..nChars];
      MatchedSettles(buf, nChars, bp, cp, s, lastState, lastCpos, g, work - w0);
    }

    /** yy_match followed by yy_find_action. */
    method MatchAndFind(bp: nat, cp0: nat, s0: nat, ghost g: Goal, ghost w0: nat) returns (act: nat)
      requires Bounded() && bp <= cp0 <= nChars
      requires Resumable(Cur().chBuf[bp..cp0], s0, bp, lastState, lastCpos)
      requires Cur().chBuf[bp..nChars] + Unread() == g.rem && Recorded(Cur().chBuf[bp..nChars])
      requires IsGoal(g) && (NUL !in g.rem ==> work - w0 == cp0 - bp)
      modifies this`textPtr, this`leng, this`holdChar, this`cBufP, this`lastState, this`lastCpos, this`work, Cur().chBuf
      ensures Current(g, act, w0) && nChars == old(nChars) && Unread() == old(Unread())
      ensures act <= END_OF_BUFFER && (act == END_OF_BUFFER ==> cp0 < cBufP) && cBufP <= nChars + 1
    {
      hide IsGoal, Waiting, Orderly, SawEof, EndKnown, Run;
      var cp, s := MatchInput(bp, cp0, s0, g, w0);
      act := TakeAction(bp, cp, s, g, w0);
    }

    /** Control may resume at yy_match, the text up to cp being scanned already. */
    ghost predicate Resumes(g: Goal, cp: nat, s: nat, w0: nat)
      reads this`stack, this`top, this`nChars, this`textPtr, this`first, this`trace, this`ended, this`lastState, this`lastCpos, this`work,
            if HasCurrent() then {Cur(), Cur().chBuf} else {}, extra, yyin
    {
      && Loaded(g.rem) && textPtr <= cp <= nChars
      && Resumable(Cur().chBuf[textPtr..cp], s, textPtr, lastState, lastCpos)
      && (NUL !in g.rem ==> work - w0 == cp - textPtr)
    }

    /** Control may resume at yy_find_action, which will find the next token. */
    ghost predicate Finds(g: Goal, cp: nat, s: nat, w0: nat)
      reads this`stack, this`top, this`nChars, this`textPtr, this`first, this`trace, this`ended, this`lastState, this`lastCpos, this`work,
            if HasCurrent() then {Cur(), Cur().chBuf} else {}, extra, yyin
    {
      && Loaded(g.rem) && IsState(s) && (Accept(s) == 0 ==> IsState(lastState) && Accept(lastState) != 0)
      && Decided(Cur().chBuf[textPtr..nChars])
      && var found := Found(s, cp, lastState, lastCpos);
         && Settled(Cur().chBuf[..], nChars, textPtr, found.0, found.1, g, work - w0)
         && found.0 != END_OF_BUFFER
    }

    /** Go back to the scan position by replaying the pending text. */
    method Replay(ghost g: Goal, ghost w0: nat) returns (s: nat)
      requires Loaded(g.rem) && textPtr <= cBufP <= nChars && Waiting(Cur().chBuf[textPtr..cBufP])
      requires NUL !in g.rem ==> work - w0 == cBufP - textPtr
      modifies this`lastState, this`lastCpos
      ensures IsState(s) && Resumes(g, cBufP, s, w0)
    {
      s := GetPreviousState();
    }

    /** yy_try_NUL_trans behind waiting text: the NUL is consumed, or it settles the next token. */
    method TryNul(s0: nat, ghost g: Goal, ghost read: int) returns (t: nat)
      requires Bounded() && textPtr <= cBufP < nChars && Cur().chBuf[cBufP] == NUL && IsState(s0)
      requires Resumable(Cur().chBuf[textPtr..cBufP], s0, textPtr, lastState, lastCpos)
      requires Cur().chBuf[textPtr..nChars] <= g.rem && IsGoal(g)
      modifies this`lastState, this`lastCpos
      ensures NUL in g.rem
      ensures t != 0 ==> Resumable(Cur().chBuf[textPtr..cBufP + 1], t, textPtr, lastState, lastCpos)
      ensures t == 0 ==>
                && (Accept(s0) == 0 ==> IsState(lastState) && Accept(lastState) != 0)
                && var found := Found(s0, cBufP, lastState, lastCpos);
                   && found.0 != END_OF_BUFFER
                   && Settled(Cur().chBuf[..], nChars, textPtr, found.0, found.1, g, read)
                   && !Waiting(Cur().chBuf[textPtr..nChars])
    {
      ghost var buf := Cur().chBuf[..];
      assert buf[textPtr..cBufP] == Cur().chBuf[textPtr..cBufP] && buf[textPtr..nChars] == Cur().chBuf[textPtr..nChars];
      assert buf[textPtr..cBufP + 1] == Cur().chBuf[textPtr..cBufP + 1];
      NulOutcome(buf, nChars, textPtr, cBufP, s0, lastState, lastCpos, g, read);
      t := TryNulTrans(s0);
    }

    /** The transition on a real NUL at the scan position, from the replayed state s0. */
    method NulTransition(s0: nat, ghost g: Goal, ghost w0: nat) returns (next: Label, s: nat)
      requires IsState(s0) && Resumes(g, cBufP, s0, w0) && IsGoal(g)
      requires cBufP < nChars && Cur().chBuf[cBufP] == NUL
      modifies this`cBufP, this`lastState, this`lastCpos
      ensures next == MatchLabel ==> Resumes(g, cBufP, s, w0) && cBufP == old(cBufP) + 1
      ensures next == FindActionLabel ==> Finds(g, cBufP, s, w0)
      ensures next != EofLabel
    {
      hide IsGoal, Settled, Waiting, Orderly, SawEof, EndKnown, Actions, Run, Resumable, Found, Accept;
      assert Cur().chBuf[textPtr..nChars] <= g.rem;
      var t := TryNul(s0, g, work - w0);
      if t != 0 {
        cBufP := cBufP + 1;
        next, s := MatchLabel, t;
      } else {
        next, s := FindActionLabel, s0;
      }
    }

    /** After a refill: go on scanning behind the waiting text of the given length. */
    method Rescan(amount: nat, ghost g: Goal, ghost w0: nat) returns (s: nat)
      requires Loaded(g.rem) && textPtr + amount <= nChars && Waiting(Cur().chBuf[textPtr..textPtr + amount])
      requires NUL !in g.rem ==> work - w0 == amount
      modifies this`cBufP, this`lastState, this`lastCpos
      ensures IsState(s) && Resumes(g, cBufP, s, w0)
    {
      hide Loaded, Resumes, Waiting;
      LoadedShape(g.rem);
      cBufP := textPtr + amount;
      s := Replay(g, w0);
    }

    lemma LastFinds(g: Goal, s: nat, w0: nat)
      requires HasCurrent() && IsState(s) && Resumes(g, nChars, s, w0) && IsGoal(g)
      requires textPtr < nChars && Unread() == [] && AtEnd()
      ensures Finds(g, nChars, s, w0)
    {
      hide Orderly, SawEof, EndKnown, Waiting, Accept, Delta, Actions, Run, Recorded, IsGoal, Settled;
      var buf := Cur().chBuf[..];
      assert buf[textPtr..nChars] == Cur().chBuf[textPtr..nChars] == g.rem;
      WaitingSettles(buf, nChars, textPtr, nChars, s, lastState, lastCpos, g, work - w0);
    }

    /** At the end of the input, the text still waiting settles the next token. */
    method LastWaiting(ghost g: Goal, ghost w0: nat) returns (s: nat)
      requires Loaded(g.rem) && IsGoal(g) && g.rem != [] && textPtr <= nChars && Waiting(Cur().chBuf[textPtr..nChars])
      requires Unread() == [] && AtEnd() && (NUL !in g.rem ==> work - w0 == nChars - textPtr)
      modifies this`cBufP, this`lastState, this`lastCpos
      ensures Finds(g, cBufP, s, w0)
    {
      hide Orderly, SawEof, EndKnown, Waiting, Recorded, Resumable, Finds, Settled, IsGoal;
      cBufP := nChars;
      s := Replay(g, w0);
      LastFinds(g, s, w0);
    }

    /** Nothing is left: the scan position stays where the next scan would begin. */
    ghost predicate Exhausted()
      reads this`stack, this`top, this`nChars, this`cBufP, this`holdChar, this`first, this`trace, this`ended,
            if HasCurrent() then {Cur(), Cur().chBuf} else {}, extra, yyin
    {
      && AtRest() && cBufP == nChars && Unread() == [] && Orderly(yyin.plan, first, trace, [])
      && (Cur().fillBuffer ==> Told())
    }

    lemma NothingLeft()
      requires HasCurrent() && Bounded() && holdChar == NUL && cBufP == nChars
      requires Unread() == [] && Orderly(yyin.plan, first, trace, []) && (Cur().fillBuffer ==> Told())
      ensures Exhausted()
    {
    }

    /** The end-of-buffer action at the real end of the text: read more, or conclude. */
    method EndOfText(amount: nat, ghost g: Goal, ghost w0: nat) returns (next: Label, s: nat)
      requires Loaded(g.rem) && IsGoal(g) && cBufP == textPtr + amount + 1 == nChars + 1 && holdChar == NUL
      requires Waiting(Cur().chBuf[textPtr..nChars])
      requires NUL !in g.rem ==> work - w0 == amount
      modifies this`nChars, this`textPtr, this`cBufP, this`holdChar, this`lastState, this`lastCpos, this`trace,
               Cur(), Cur().chBuf, yyin
      ensures Cur().chBuf == old(Cur().chBuf) || fresh(Cur().chBuf)
      ensures Cur().fillBuffer == old(Cur().fillBuffer) && (!Cur().fillBuffer ==> yyin.rest == old(yyin.rest))
      ensures Actions(trace) == old(Actions(trace))
      ensures next == MatchLabel ==> Resumes(g, cBufP, s, w0) && |Unread()| < |old(Unread())|
      ensures next == FindActionLabel ==> Finds(g, cBufP, s, w0)
      ensures next == EofLabel ==> g.rem == [] && Exhausted() && work == w0
    {
      hide Recorded, Decided, IsGoal, Settled, Waiting, Resumable, Orderly, SawEof, EndKnown, Actions, Resumes, Finds;
      hide Loaded, Exhausted, Bounded, Told, AtEnd;
      LoadedShape(g.rem);
      var r := GetNextBuffer(g.rem);
      match r
      case EndOfFile =>
        cBufP := textPtr;
        NothingLeft();
        next, s := EofLabel, START_STATE;
      case ContinueScan =>
        s := Rescan(amount, g, w0);
        next := MatchLabel;
      case LastMatch =>
        s := LastWaiting(g, w0);
        next := FindActionLabel;
    }

    /** Nothing is on hold, and the end-of-buffer action is about the byte in front of the scan position. */
    ghost predicate Undone(g: Goal, w0: nat)
      reads this`stack, this`top, this`nChars, this`textPtr, this`first, this`trace, this`ended, this`cBufP, this`holdChar, this`work,
            if HasCurrent() then {Cur(), Cur().chBuf} else {}, extra, yyin
    {
      && Loaded(g.rem) && textPtr < cBufP <= nChars + 1
      && Cur().chBuf[cBufP - 1] == NUL && Waiting(Cur().chBuf[textPtr..cBufP - 1])
      && (NUL !in g.rem ==> work - w0 == cBufP - 1 - textPtr)
      && (cBufP == nChars + 1 ==> holdChar == NUL)
    }

    /** Undo YY_DO_BEFORE_ACTION, and take a new buffer into use. */
    method UndoBeforeAction(ghost g: Goal, ghost w0: nat)
      requires Current(g, END_OF_BUFFER, w0)
      modifies this`nChars, Cur()`status, Cur().chBuf
      ensures Undone(g, w0) && nChars == old(nChars)
    {
      hide Orderly, SawEof, EndKnown, Waiting, Current, Settled, Recorded, Restored, Spread;
      EobFacts(g, w0);
      PutBackText(g.rem);
      ghost var text := Cur().chBuf[textPtr..cBufP - 1];
      TakeIntoUse(g.rem);
      assert Cur().chBuf[textPtr..cBufP - 1] == text;
    }

    /** The byte on hold goes back into text that starts at the lexeme. */
    method PutBackText(ghost rem: seq<byte>)
      requires Holds(rem) && textPtr < cBufP <= nChars + 1
      modifies Cur().chBuf
      ensures Spread(rem) && Cur().chBuf[cBufP - 1] == old(Restored()[cBufP - 1])
      ensures Cur().chBuf[textPtr..cBufP - 1] == old(Restored()[textPtr..cBufP - 1])
    {
      hide Orderly, SawEof, EndKnown, Waiting, Actions;
      ghost var buf := Restored();
      PutBack();
      assert Cur().chBuf[textPtr..nChars] == buf[textPtr..nChars];
      assert Cur().chBuf[textPtr..cBufP - 1] == buf[textPtr..cBufP - 1];
    }

    /** The first end-of-buffer action in a new buffer. */
    method TakeIntoUse(ghost rem: seq<byte>)
      requires Spread(rem)
      modifies this`nChars, Cur()`status
      ensures Loaded(rem) && nChars == old(nChars)
    {
      hide Orderly, Waiting, Actions;
      var b := Cur();
      if b.status == New {
        nChars := b.nChars;
        b.status := Normal;
      }
    }

    /** The byte on hold goes back into the buffer. */
    method PutBack()
      requires HasCurrent() && cBufP < Cur().chBuf.Length
      modifies Cur().chBuf
      ensures Cur().chBuf[..] == old(Restored())
    {
      Cur().chBuf[cBufP] := holdChar;
    }

    lemma EobFacts(g: Goal, w0: nat)
      requires Current(g, END_OF_BUFFER, w0)
      ensures HasCurrent() && Holds(g.rem) && textPtr < cBufP <= nChars + 1 < Cur().chBuf.Length
      ensures Restored()[cBufP - 1] == NUL && Waiting(Restored()[textPtr..cBufP - 1])
      ensures NUL !in g.rem ==> work - w0 == cBufP - 1 - textPtr
      ensures cBufP == nChars + 1 ==> holdChar == NUL
    {
    }

    /** The end-of-buffer action, up to the label at which scanning continues. */
    method EndOfBuffer(ghost g: Goal, ghost w0: nat) returns (next: Label, s: nat)
      requires Current(g, END_OF_BUFFER, w0) && IsGoal(g)
      modifies this`nChars, this`textPtr, this`cBufP, this`holdChar, this`lastState, this`lastCpos, this`trace,
               Cur(), Cur().chBuf, yyin
      ensures Cur().chBuf == old(Cur().chBuf) || fresh(Cur().chBuf)
      ensures Cur().fillBuffer == old(Cur().fillBuffer) && (!Cur().fillBuffer ==> yyin.rest == old(yyin.rest))
      ensures Actions(trace) == old(Actions(trace))
      ensures next == MatchLabel ==>
                && Resumes(g, cBufP, s, w0)
                && (|| |Unread()| < |old(Unread())|
                    || (Unread() == old(Unread()) && nChars == old(nChars) && cBufP == old(cBufP)))
      ensures next == FindActionLabel ==> Finds(g, cBufP, s, w0)
      ensures next == EofLabel ==> g.rem == [] && Exhausted() && work == w0
    {
      hide IsGoal, Orderly, SawEof, EndKnown, Actions, Resumes, Finds, Exhausted, Waiting, Current;
      var amount := cBufP - textPtr - 1;
      UndoBeforeAction(g, w0);
      if cBufP <= nChars {
        next, s := RealNul(amount, g, w0);
      } else {
        next, s := EndOfText(amount, g, w0);
      }
    }

    /** The end-of-buffer action on a byte that was really a NUL. */
    method RealNul(amount: nat, ghost g: Goal, ghost w0: nat) returns (next: Label, s: nat)
      requires Loaded(g.rem) && IsGoal(g) && cBufP == textPtr + amount + 1 <= nChars
      requires Cur().chBuf[cBufP - 1] == NUL && Waiting(Cur().chBuf[textPtr..cBufP - 1])
      requires NUL !in g.rem ==> work - w0 == amount
      modifies this`cBufP, this`lastState, this`lastCpos
      ensures next == MatchLabel ==> Resumes(g, cBufP, s, w0) && cBufP == old(cBufP)
      ensures next == FindActionLabel ==> Finds(g, cBufP, s, w0)
      ensures next != EofLabel
    {
      hide IsGoal, Orderly, SawEof, EndKnown, Resumes, Finds, Waiting, Loaded;
      LoadedShape(g.rem);
      cBufP := textPtr + amount;
      s := Replay(g, w0);
      next, s := NulTransition(s, g, w0);
    }

    /** At a token start: the buffer from the scan position on and the unread input hold rem. */
    ghost predicate AtStart(rem: seq<byte>)
      reads this`stack, this`top, this`nChars, this`cBufP, this`holdChar, this`first, this`trace, this`ended,
            if HasCurrent() then {Cur(), Cur().chBuf} else {}, extra, yyin
    {
      && AtRest() && cBufP <= nChars
      && Restored()[cBufP..nChars] + Unread() == rem
      && Recorded(Restored()[cBufP..nChars])
    }

    /** The start of a token: the held byte goes back, and the match loop runs from the start state. */
    method FirstMatch(ghost g: Goal) returns (act: nat)
      requires AtStart(g.rem) && IsGoal(g)
      modifies this`textPtr, this`leng, this`cBufP, this`holdChar, this`lastState, this`lastCpos, this`work, Cur().chBuf
      ensures Current(g, act, old(work)) && act <= END_OF_BUFFER && cBufP <= nChars + 1
    {
      hide IsGoal, Orderly, SawEof, EndKnown;
      var cp := cBufP;
      ghost var buf := Restored();
      PutBack();
      assert Cur().chBuf[cp..nChars] == buf[cp..nChars];
      assert Cur().chBuf[cp..cp] == [];
      act := MatchAndFind(cp, cp, START_STATE, g, work);
    }

    /** The end-of-buffer action, and the action that is current after it. */
    method ActionAfterEob(ghost g: Goal, ghost w0: nat) returns (act: nat)
      requires Current(g, END_OF_BUFFER, w0) && IsGoal(g)
      modifies this`nChars, this`textPtr, this`leng, this`cBufP, this`holdChar, this`lastState, this`lastCpos,
               this`trace, this`work, Cur(), Cur().chBuf, yyin
      ensures Cur().chBuf == old(Cur().chBuf) || fresh(Cur().chBuf)
      ensures Cur().fillBuffer == old(Cur().fillBuffer) && (!Cur().fillBuffer ==> yyin.rest == old(yyin.rest))
      ensures Actions(trace) == old(Actions(trace))
      ensures act == EOF_ACTION ==> g.rem == [] && Exhausted() && work == w0
      ensures act != EOF_ACTION ==> Current(g, act, w0)
      ensures act == END_OF_BUFFER ==>
                || |Unread()| < |old(Unread())|
                || (Unread() == old(Unread()) && nChars == old(nChars) && cBufP > old(cBufP))
      ensures act != EOF_ACTION ==> cBufP <= nChars + 1
    {
      hide IsGoal, Orderly, SawEof, EndKnown, Actions, Exhausted, Waiting, Run, Current;
      var next, s := EndOfBuffer(g, w0);
      match next
      case MatchLabel =>
        act := MatchAndFind(textPtr, cBufP, s, g, w0);
      case FindActionLabel =>
        act := TakeAction(textPtr, cBufP, s, g, w0);
      case EofLabel =>
        act := EOF_ACTION;
    }

    /** The lexeme and what follows it, as the buffer holds them. */
    lemma LexemeAndRest(g: Goal, act: nat, w0: nat)
      requires Current(g, act, w0) && act != END_OF_BUFFER
      ensures AtRest() && cBufP <= nChars
      ensures var rest := Restored()[cBufP..nChars];
              && Recorded(g.next.text + rest) && g.rem == g.next.text + (rest + Unread())
              && g.rem != [] && (NUL !in g.rem ==> work - w0 == g.cost) && Decided(g.next.text + rest)
    {
      hide Recorded;
      var buf := Restored();
      assert buf[textPtr..nChars] == g.next.text + buf[cBufP..nChars];
    }

    /** One round of the loop of yylex, from a token start to its action. */
    method NextAction(ghost g: Goal) returns (act: nat)
      requires AtStart(g.rem) && IsGoal(g)
      modifies this`nChars, this`textPtr, this`leng, this`cBufP, this`holdChar, this`lastState, this`lastCpos,
               this`trace, this`work, Cur(), Cur().chBuf, yyin
      ensures Cur().chBuf == old(Cur().chBuf) || fresh(Cur().chBuf)
      ensures Cur().fillBuffer == old(Cur().fillBuffer) && (!Cur().fillBuffer ==> yyin.rest == old(yyin.rest))
      ensures Actions(trace) == old(Actions(trace))
      ensures act != END_OF_BUFFER
      ensures act == EOF_ACTION ==> g.rem == [] && Exhausted() && work == old(work)
      ensures act != EOF_ACTION ==> g.rem != [] && Current(g, act, old(work))
    {
      hide IsGoal, Orderly, SawEof, EndKnown, Actions, Exhausted, Waiting, Run, Current, Settled;
      ghost var w0 := work;
      act := FirstMatch(g);
      while act == END_OF_BUFFER
        invariant HasCurrent()
        invariant act != EOF_ACTION ==> Current(g, act, w0) && cBufP <= nChars + 1
        invariant act == EOF_ACTION ==> g.rem == [] && Exhausted() && work == w0
        invariant Cur().chBuf == old(Cur().chBuf) || fresh(Cur().chBuf)
        invariant Cur().fillBuffer == old(Cur().fillBuffer) && (!Cur().fillBuffer ==> yyin.rest == old(yyin.rest))
        invariant Actions(trace) == old(Actions(trace))
        decreases act == END_OF_BUFFER, |Unread()|, nChars + 1 - cBufP
      {
        act := ActionAfterEob(g, w0);
      }
      if act != EOF_ACTION {
        LexemeAndRest(g, act, w0);
      }
    }

    /** The action of the rule found, on the lexeme in the buffer. */
    method PerformAction(act: nat, ghost g: Goal, ghost w0: nat)
      requires Current(g, act, w0) && act != END_OF_BUFFER && IsToken(g.next)
      modifies extra`len, extra`effects, extra.buffer, Cur().chBuf
      ensures extra.Valid() && extra.State() == Perform(old(extra.State()), g.next)
      ensures forall k :: cBufP <= k < Cur().chBuf.Length ==> Cur().chBuf[k] == old(Cur().chBuf[k])
    {
      hide Recorded, Waiting, ChecksumOk;
      ghost var t := g.next;
      var text := Cur().chBuf;
      assert Restored()[textPtr..cBufP] == text[textPtr..textPtr + leng];
      if act <= PACKET {
        extra.HandleError();
        if act == NAK {
          extra.TransmitPacket();
        } else if act == PACKET {
          extra.PacketAnalysis(text, textPtr, leng);
        }
      } else if act == ERROR {
        extra.AddCharacterToError(text[textPtr]);
      } else {
        extra.EchoText(text, textPtr, leng);
      }
    }

    /** The action of the rule found leaves what is still to be scanned alone. */
    method PerformInPlace(act: nat, ghost g: Goal, ghost w0: nat, ghost rest: seq<byte>)
      requires Current(g, act, w0) && act != END_OF_BUFFER && IsToken(g.next)
      requires cBufP <= nChars && rest == Restored()[cBufP..nChars]
      modifies extra`len, extra`effects, extra.buffer, Cur().chBuf
      ensures AtRest() && Restored()[cBufP..nChars] == rest
      ensures extra.State() == Perform(old(extra.State()), g.next)
    {
      hide Waiting, Perform, Flush, Run, Settled, Recorded;
      ghost var buf := Cur().chBuf[..];
      PerformAction(act, g, w0);
      assert Cur().chBuf[cBufP..] == buf[cBufP..];
      assert Restored()[cBufP..] == buf[cBufP := holdChar][cBufP..];
      assert Restored()[cBufP..nChars] == Restored()[cBufP..][..nChars - cBufP];
      assert buf[cBufP := holdChar][cBufP..nChars] == buf[cBufP := holdChar][cBufP..][..nChars - cBufP];
    }

    /** The lexeme goes into the history, and off the front of the backlog. */
    ghost method RecordAction(t: Token, rest: seq<byte>)
      requires AtRest() && cBufP <= nChars && Restored()[cBufP..nChars] == rest && Recorded(t.text + rest)
      requires IsToken(t) && Decided(t.text + rest)
      modifies this`trace
      ensures AtStart(rest + Unread()) && Actions(trace) == old(Actions(trace)) + [t]
    {
      EventAppend(trace, Action(t, t.text + rest));
      trace := trace + [Action(t, t.text + rest)];
    }

    /** A rule's action, after which the next token starts at the scan position. */
    method RunRule(act: nat, ghost g: Goal, ghost w0: nat)
      requires Current(g, act, w0) && act != END_OF_BUFFER && IsToken(g.next)
      modifies this`trace, extra`len, extra`effects, extra.buffer, Cur().chBuf
      ensures g.rem != [] && |g.next.text| <= |g.rem|
      ensures AtStart(g.rem[|g.next.text|..]) && Actions(trace) == old(Actions(trace)) + [g.next]
      ensures extra.State() == Perform(old(extra.State()), g.next)
      ensures NUL !in g.rem ==> work - w0 == g.cost
    {
      hide Waiting, Perform, Flush, Run, Current, Recorded, Actions;
      LexemeAndRest(g, act, w0);
      ghost var rest := Restored()[cBufP..nChars];
      PerformInPlace(act, g, w0, rest);
      RecordAction(g.next, rest);
    }

    // ----- starting a scan

    /** What is left of the current buffer and the input; all of the input if there is no buffer yet. */
    ghost function Remaining(): seq<byte>
      reads this`stack, this`top, this`nChars, this`cBufP, this`holdChar,
            if HasCurrent() then {Cur(), Cur().chBuf} else {}, extra, yyin
      requires HasCurrent() ==> AtRest() && cBufP <= nChars
    {
      if HasCurrent() then Restored()[cBufP..nChars] + Unread() else yyin.rest
    }

    /** yylex may be called: a buffer is loaded, or this is the first call and there is none. */
    ghost predicate Startable()
      reads this`stack, this`top, this`nChars, this`cBufP, this`holdChar, this`init,
            if HasCurrent() then {Cur(), Cur().chBuf} else {}, extra, yyin
    {
      if HasCurrent() then
        && AtRest() && cBufP <= nChars
        && (!init ==> cBufP == Cur().bufPos && nChars == Cur().nChars && holdChar == Cur().chBuf[cBufP])
      else
        !init && extra.Valid() && (stack == [] || top < |stack|)
    }

    /** yy_create_buffer */
    method CreateBuffer(size: nat) returns (b: BufferState)
      modifies this`nChars, this`textPtr, this`cBufP, this`holdChar
      ensures unchanged(this) && fresh(b) && fresh(b.chBuf) && b.chBuf.Length == b.bufSize + 2 && b.bufSize == size
      ensures b.isOurs && b.fillBuffer && b.status == New && b.nChars == b.bufPos == 0
      ensures b.chBuf[0] == b.chBuf[1] == NUL
    {
      var base := new byte[size + 2];
      b := new BufferState(base, size);
      b.isOurs := true;
      InitBuffer(b);
    }

    /** yyensure_buffer_stack: room for one more push. */
    method EnsureBufferStack()
      requires stack == [] || top < |stack|
      modifies this`stack, this`top
      ensures old(stack) == [] ==> stack == [null] && top == 0
      ensures old(stack) != [] ==> top == old(top) && top + 1 < |stack| && old(stack) <= stack
      ensures forall i :: |old(stack)| <= i < |stack| ==> stack[i] == null
      ensures old(HasCurrent()) ==> HasCurrent() && (old(AtRest()) ==> AtRest() && Restored() == old(Restored()))
    {
      if stack == [] {
        stack, top := [null], 0;
        return;
      }
      if top >= |stack| - 1 {
        stack := stack + [null, null, null, null, null, null, null, null];
      }
    }

    /** An empty buffer becomes the current one, when there is none. */
    method CreateCurrent()
      requires !HasCurrent() && (stack == [] || top < |stack|)
      modifies this`stack, this`top, this`nChars, this`textPtr, this`cBufP, this`holdChar
      ensures HasCurrent() && fresh(Cur()) && fresh(Cur().chBuf) && (old(stack) != [] ==> top == old(top))
      ensures Cur().chBuf.Length == Cur().bufSize + 2 && Cur().bufSize == YY_BUF_SIZE && Cur().isOurs && Cur().fillBuffer
      ensures Cur().status == New && Cur().nChars == Cur().bufPos == 0 && Cur().chBuf[0] == Cur().chBuf[1] == NUL
      ensures forall i :: 0 <= i < |stack| && i != top ==> stack[i] == if i < |old(stack)| then old(stack)[i] else null
    {
      EnsureBufferStack();
      var b := CreateBuffer(YY_BUF_SIZE);
      stack := stack[top := b];
    }

    /**
     yyrestart: the current buffer, made if there is none, is empty and fills from the input;
     one that the scanner owns can then be scanned.
     */
    method Restart()
      requires extra.Valid()
      requires if HasCurrent() then Cur().chBuf.Length == Cur().bufSize + 2 && Cur().chBuf != extra.buffer else stack == [] || top < |stack|
      modifies this`stack, this`top, this`nChars, this`textPtr, this`cBufP, this`holdChar,
               if HasCurrent() then {Cur(), Cur().chBuf} else {}
      ensures HasCurrent() && Cur().fillBuffer && Cur().status == New && Cur().nChars == Cur().bufPos == 0
      ensures cBufP == nChars == 0 && holdChar == NUL
      ensures Cur().chBuf.Length >= 2 && Cur().chBuf[0] == Cur().chBuf[1] == NUL
      ensures Cur().isOurs && Cur().bufSize > 0 ==> AtRest() && Remaining() == yyin.rest
      ensures if old(HasCurrent()) then stack == old(stack) && top == old(top) else fresh(Cur()) && fresh(Cur().chBuf)
    {
      if !HasCurrent() {
        CreateCurrent();
      }
      Reload();
    }

    /** The initialisation that the first call of yylex does. */
    method FirstCall()
      requires Startable() && !init
      modifies this`stack, this`top, this`nChars, this`textPtr, this`cBufP, this`holdChar, this`init
      ensures init && HasCurrent() && AtRest() && cBufP <= nChars && extra.Valid()
      ensures old(HasCurrent()) ==>
                && stack == old(stack) && top == old(top)
                && Restored() == old(Restored()) && cBufP == old(cBufP) && nChars == old(nChars)
      ensures !old(HasCurrent()) ==> fresh(Cur()) && fresh(Cur().chBuf) && Cur().fillBuffer && nChars == cBufP && !AtEnd()
    {
      init := true;
      if !HasCurrent() {
        CreateCurrent();
      }
      LoadBufferState();
    }

    /** The start of a run, with an empty history. */
    method Initialise(ghost rem0: seq<byte>)
      requires Startable() && rem0 == Remaining()
      modifies this`stack, this`top, this`nChars, this`textPtr, this`cBufP, this`holdChar, this`init, this`first, this`trace, this`ended
      ensures init && AtStart(rem0) && trace == [] && Actions(trace) == []
      ensures old(HasCurrent()) ==> stack == old(stack) && top == old(top) && first == old(Restored()[cBufP..nChars])
      ensures !old(HasCurrent()) ==> fresh(Cur()) && fresh(Cur().chBuf) && Cur().fillBuffer && first == [] && !ended
    {
      hide Actions;
      if !init {
        FirstCall();
      }
      first, trace, ended := Restored()[cBufP..nChars], [], AtEnd();
      NoActions();
    }

    lemma NoActions()
      ensures Actions([]) == []
    {
    }

    /** At the end of the input yylex could be called again, with nothing left to scan. */
    lemma ExhaustedIsStartable()
      requires Exhausted() && init
      ensures Startable() && Remaining() == [] && Unread() == [] && Orderly(yyin.plan, first, trace, [])
      ensures Cur().fillBuffer ==> Told()
    {
    }

    /** The end-of-file action has been performed: all of rem0 has been acted on. */
    ghost predicate Finished(rem0: seq<byte>, st0: Batch, w0: nat)
      reads this, if HasCurrent() then {Cur(), Cur().chBuf} else {}, extra, extra.buffer, yyin
    {
      && Exhausted() && extra.Valid() && Actions(trace) == Tokenise(rem0)
      && (forall t :: t in Tokenise(rem0) ==> IsToken(t))
      && extra.State() == Flush(PerformAll(st0, Tokenise(rem0)))
      && (NUL !in rem0 ==> work - w0 == Work(rem0))
    }

    /** The end-of-file action. */
    method FinishScan(ghost rem0: seq<byte>, ghost st0: Batch, ghost w0: nat)
      requires Exhausted() && Progress(rem0, [], Actions(trace), st0, extra.State(), work - w0)
      modifies extra`len, extra`effects, extra.buffer
      ensures Finished(rem0, st0, w0) && extra.Valid()
    {
      hide Progress, Flush, PerformAll, Actions, Work, Cost, Orderly, Tokenise;
      ProgressEnd(rem0, Actions(trace), st0, extra.State(), work - w0);
      extra.HandleError();
    }

    /** The action of a rule brings the run forward by the next token. */
    method AdvanceScan(act: nat, ghost g: Goal, ghost rem0: seq<byte>, ghost st0: Batch, ghost w0: nat, ghost w1: nat)
      requires Current(g, act, w1) && act != END_OF_BUFFER && IsGoal(g) && g.rem != [] && extra.Valid()
      requires Progress(rem0, g.rem, Actions(trace), st0, extra.State(), w1 - w0)
      modifies this`trace, extra`len, extra`effects, extra.buffer, Cur().chBuf
      ensures |g.next.text| <= |g.rem| && AtStart(g.rem[|g.next.text|..])
      ensures Progress(rem0, g.rem[|g.next.text|..], Actions(trace), st0, extra.State(), work - w0)
    {
      hide Current, Progress, PerformAll, Perform, Actions, Work, Cost, Orderly, SawEof, EndKnown;
      TokenIsToken(g.rem);
      ghost var st, before := extra.State(), Actions(trace);
      RunRule(act, g, w1);
      ProgressStep(rem0, g.rem, before, st0, st, w1 - w0, work - w1);
    }

    /** One round of the loop of yylex: a token and its action, or the end of the input. */
    method ScanOne(ghost rem0: seq<byte>, ghost rem: seq<byte>, ghost st0: Batch, ghost w0: nat)
      returns (done: bool, ghost rest: seq<byte>)
      requires AtStart(rem) && Progress(rem0, rem, Actions(trace), st0, extra.State(), work - w0)
      modifies this`nChars, this`textPtr, this`leng, this`cBufP, this`holdChar, this`lastState, this`lastCpos,
               this`trace, this`work, yyin, extra`len, extra`effects, extra.buffer, Cur(), Cur().chBuf
      ensures Cur().chBuf == old(Cur().chBuf) || fresh(Cur().chBuf)
      ensures Cur().fillBuffer == old(Cur().fillBuffer) && (!Cur().fillBuffer ==> yyin.rest == old(yyin.rest))
      ensures extra.Valid() && (!done ==> |rest| < |rem| && AtStart(rest))
      ensures !done ==> Progress(rem0, rest, Actions(trace), st0, extra.State(), work - w0)
      ensures done ==> Finished(rem0, st0, w0)
    {
      hide IsGoal, Current, Progress, Actions, Orderly, SawEof, EndKnown, Finished, Exhausted, Recorded;
      ghost var g, w1 := GoalFor(rem), work;
      var act := NextAction(g);
      if act == EOF_ACTION {
        FinishScan(rem0, st0, w0);
        done, rest := true, [];
      } else {
        AdvanceScan(act, g, rem0, st0, w0, w1);
        done, rest := false, rem[|g.next.text|..];
      }
    }

    /** The loop of yylex. */
    method ScanAll(ghost rem0: seq<byte>)
      requires AtStart(rem0) && Actions(trace) == []
      modifies this`nChars, this`textPtr, this`leng, this`cBufP, this`holdChar, this`lastState, this`lastCpos,
               this`trace, this`work, yyin, extra`len, extra`effects, extra.buffer, Cur(), Cur().chBuf
      ensures Finished(rem0, old(extra.State()), old(work))
      ensures Cur().fillBuffer == old(Cur().fillBuffer) && (!Cur().fillBuffer ==> yyin.rest == old(yyin.rest))
      ensures Cur().chBuf == old(Cur().chBuf) || fresh(Cur().chBuf)
    {
      assert extra.Valid();
      hide AtRest, Progress, Flush, PerformAll, Actions, Work, Orderly, SawEof, EndKnown, Finished;
      ghost var rem, st0, w0 := rem0, extra.State(), work;
      var done := false;
      ProgressStart(rem0, st0);
      while !done
        invariant HasCurrent() && extra.Valid()
        invariant Cur().chBuf == old(Cur().chBuf) || fresh(Cur().chBuf)
        invariant Cur().fillBuffer == old(Cur().fillBuffer) && (!Cur().fillBuffer ==> yyin.rest == old(yyin.rest))
        invariant !done ==> AtStart(rem) && Progress(rem0, rem, Actions(trace), st0, extra.State(), work - w0)
        invariant done ==> Finished(rem0, st0, w0)
        decreases !done, |rem|
      {
        done, rem := ScanOne(rem0, rem, st0, w0);
      }
    }

    /**
     A scan of rem0 that began with the session in state st0 is over: the tokens acted on are
     those of rem0, and so are the effects; first is the text that was in the buffer, and trace
     the orderly history of the run; nothing is left.
     */
    ghost predicate Scanned(rem0: seq<byte>, st0: Batch, w0: nat)
      reads this, if HasCurrent() then {Cur(), Cur().chBuf} else {}, extra, extra.buffer, yyin
    {
      && Startable() && HasCurrent() && Remaining() == [] && extra.Valid()
      && Actions(trace) == Tokenise(rem0) && (forall t :: t in Tokenise(rem0) ==> IsToken(t))
      && extra.State() == Flush(PerformAll(st0, Tokenise(rem0)))
      && Orderly(yyin.plan, first, trace, [])
      && (NUL !in rem0 ==> work - w0 == Work(rem0))
    }

    lemma FinishedIsScanned(rem0: seq<byte>, st0: Batch, w0: nat)
      requires Finished(rem0, st0, w0) && init
      ensures Scanned(rem0, st0, w0) && Unread() == [] && (Cur().fillBuffer ==> Told())
    {
      hide Tokenise, PerformAll, Actions, Work, Flush, IsToken, AtRest, Orderly, SawEof;
      ExhaustedIsStartable();
    }

    /** All of the scan but its start. */
    method ScanFrom(ghost rem0: seq<byte>)
      requires AtStart(rem0) && Actions(trace) == [] && init
      modifies this`nChars, this`textPtr, this`leng, this`cBufP, this`holdChar, this`lastState, this`lastCpos,
               this`trace, this`work, yyin, extra`len, extra`effects, extra.buffer, Cur(), Cur().chBuf
      ensures Scanned(rem0, old(extra.State()), old(work))
      ensures Cur().fillBuffer == old(Cur().fillBuffer) && (!Cur().fillBuffer ==> yyin.rest == old(yyin.rest))
      ensures Cur().fillBuffer ==> SawEof(trace) || ended
      ensures Cur().fillBuffer ==> yyin.rest == []
      ensures Cur().chBuf == old(Cur().chBuf) || fresh(Cur().chBuf)
    {
      hide Orderly, SawEof, Finished, Scanned, Actions, Tokenise;
      ghost var st0, w0 := extra.State(), work;
      ScanAll(rem0);
      FinishedIsScanned(rem0, st0, w0);
    }

    /** yylex: scan until the input ends, whatever read() delivers at a time. */
    method YyLex()
      requires Startable()
      modifies this, yyin, extra`len, extra`effects, extra.buffer, if HasCurrent() then {Cur(), Cur().chBuf} else {}
      ensures Scanned(old(Remaining()), old(extra.State()), old(work))
      ensures old(HasCurrent()) ==> stack == old(stack) && top == old(top) && first == old(Restored()[cBufP..nChars])
      ensures !old(HasCurrent()) ==> first == [] && SawEof(trace) && yyin.rest == []
      ensures old(HasCurrent()) ==> Cur().fillBuffer == old(Cur().fillBuffer)
      ensures old(HasCurrent() && !Cur().fillBuffer) ==> yyin.rest == old(yyin.rest)
      ensures fresh(Cur().chBuf) || (old(HasCurrent()) && Cur().chBuf == old(Cur().chBuf))
    {
      ghost var rem0 := Remaining();
      hide AtRest, Orderly, Startable, Remaining, Restored, SawEof, Scanned, Actions, AtStart;
      Initialise(rem0);
      ScanFrom(rem0);
    }

    // ----- the buffer stack

    /** A buffer that can be loaded: it remembers a scan position in front of bounded text. */
    ghost predicate Saved(b: BufferState)
      reads b, b.chBuf, yyin
    {
      && b.chBuf.Length == b.bufSize + 2 && b.chBuf != extra.buffer
      && b.bufPos <= b.nChars <= b.bufSize && b.chBuf[b.nChars] == b.chBuf[b.nChars + 1] == NUL
      && (b.fillBuffer ==> b.isOurs && b.bufSize > 0)
      && (b.status == EofPending && b.fillBuffer ==> yyin.rest == [])
    }

    /** The stack is full up to its top, empty above it, and no buffer is on it twice. */
    ghost predicate StackOk()
      reads this`stack, this`top, (set i | 0 <= i < |stack| && stack[i] != null :: stack[i])`chBuf
    {
      && (stack == [] ==> top == 0) && (stack != [] ==> top < |stack|)
      && (forall i :: 0 <= i < |stack| && (i < top || (i == top && top > 0)) ==> stack[i] != null)
      && (forall i :: top < i < |stack| ==> stack[i] == null)
      && (forall i, j :: 0 <= i < j < |stack| && stack[i] != null && stack[j] != null ==>
            stack[i] != stack[j] && stack[i].chBuf != stack[j].chBuf)
    }

    /** b is not on the stack, nor is its array. */
    ghost predicate OffStack(b: BufferState)
      reads this`stack, b`chBuf, (set i | 0 <= i < |stack| && stack[i] != null :: stack[i])`chBuf
    {
      forall i :: 0 <= i < |stack| && stack[i] != null ==> stack[i] != b && stack[i].chBuf != b.chBuf
    }

    /** The current buffer is told the scan position, and gets back the byte on hold. */
    method SaveCurrent()
      requires HasCurrent() && AtRest() && cBufP <= nChars
      modifies Cur()`bufPos, Cur()`nChars, Cur().chBuf
      ensures Cur().bufPos == cBufP && Cur().nChars == nChars && Cur().chBuf[..] == old(Restored())
      ensures Saved(Cur())
    {
      PutBack();
      Cur().bufPos := cBufP;
      Cur().nChars := nChars;
    }

    lemma SavedFits(b: BufferState)
      requires Saved(b) && OffStack(b)
      ensures b.bufPos < b.chBuf.Length && (HasCurrent() ==> b != Cur() && b.chBuf != Cur().chBuf)
      ensures forall i :: 0 <= i < |stack| && stack[i] != null ==> stack[i] != b && stack[i].chBuf != b.chBuf
    {
    }

    lemma SavedLoads(b: BufferState)
      requires HasCurrent() && Cur() == b && Saved(b) && extra.Valid()
      requires cBufP == b.bufPos && nChars == b.nChars && holdChar == b.chBuf[cBufP]
      ensures AtRest()
    {
    }

    /** yypush_buffer_state, which ignores a null buffer. */
    method Push(b: BufferState?)
      requires StackOk() && extra.Valid() && (b != null ==> OffStack(b) && Saved(b))
      requires HasCurrent() ==> AtRest() && cBufP <= nChars
      modifies this`stack, this`top, this`nChars, this`textPtr, this`cBufP, this`holdChar,
               (if HasCurrent() then {Cur()} else {})`bufPos, (if HasCurrent() then {Cur()} else {})`nChars,
               if HasCurrent() then {Cur().chBuf} else {}
      ensures b == null ==> unchanged(this) && (HasCurrent() ==> unchanged(Cur()) && unchanged(Cur().chBuf))
      ensures b != null ==>
                && StackOk() && HasCurrent() && Cur() == b && AtRest()
                && cBufP == b.bufPos && nChars == b.nChars && holdChar == b.chBuf[cBufP]
                && top == (if old(HasCurrent()) then old(top) + 1 else old(top))
                && forall i :: 0 <= i < top ==> stack[i] == old(stack)[i]
      ensures b != null && old(HasCurrent()) ==>
                var was := old(Cur());
                && Saved(was) && was.chBuf == old(Cur().chBuf)
                && was.bufPos == old(cBufP) && was.nChars == old(nChars) && was.chBuf[..] == old(Restored())
                && was.fillBuffer == old(Cur().fillBuffer)
    {
      hide AtRest, Saved, Restored, Shape, OffStack;
      if b == null {
        return;
      }
      SavedFits(b);
      EnsureBufferStack();
      if HasCurrent() {
        SaveCurrent();
        top := top + 1;
      }
      stack := stack[top := b];
      LoadBufferState();
      SavedLoads(b);
    }

    /** yypop_buffer_state */
    method Pop()
      requires StackOk() && extra.Valid() && (top > 0 ==> Saved(stack[top - 1]))
      modifies this`stack, this`top, this`nChars, this`textPtr, this`cBufP, this`holdChar
      ensures StackOk() && |stack| == |old(stack)|
      ensures old(top) > 0 ==>
                && top == old(top) - 1 && HasCurrent() && Cur() == old(stack[top - 1]) && AtRest()
                && textPtr == cBufP == Cur().bufPos && nChars == Cur().nChars && holdChar == Cur().chBuf[cBufP]
      ensures old(top) == 0 ==> top == 0 && !HasCurrent()
      ensures forall i :: 0 <= i < top ==> stack[i] == old(stack)[i]
    {
      if !HasCurrent() {
        return;
      }
      stack := stack[top := null];
      if top > 0 {
        top := top - 1;
      }
      if HasCurrent() {
        LoadBufferState();
      }
    }

    /** yy_switch_to_buffer: like a push, but the new buffer takes the place of the current one. */
    method SwitchToBuffer(b: BufferState)
      requires StackOk() && extra.Valid() && ((HasCurrent() && Cur() == b) || (OffStack(b) && Saved(b)))
      requires HasCurrent() ==> AtRest() && cBufP <= nChars
      modifies this`stack, this`top, this`nChars, this`textPtr, this`cBufP, this`holdChar,
               if HasCurrent() then {Cur(), Cur().chBuf} else {}
      ensures StackOk() && HasCurrent() && Cur() == b && AtRest() && top == old(top)
      ensures old(HasCurrent() && Cur() == b) ==> Restored() == old(Restored()) && cBufP == old(cBufP) && nChars == old(nChars)
      ensures !old(HasCurrent() && Cur() == b) ==> cBufP == b.bufPos && nChars == b.nChars && holdChar == b.chBuf[cBufP]
      ensures old(HasCurrent() && Cur() != b) ==>
                var was := old(Cur());
                && Saved(was) && was.chBuf == old(Cur().chBuf)
                && was.bufPos == old(cBufP) && was.nChars == old(nChars) && was.chBuf[..] == old(Restored())
                && was.fillBuffer == old(Cur().fillBuffer)
      ensures forall i :: 0 <= i < top ==> stack[i] == old(stack)[i]
    {
      EnsureBufferStack();
      if HasCurrent() && Cur() == b {
        return;
      }
      if HasCurrent() {
        SaveCurrent();
      }
      stack := stack[top := b];
      LoadBufferState();
    }

    /** yy_scan_buffer: scan base in place, if its last two bytes are end-of-buffer bytes. */
    method ScanBuffer(base: array<byte>) returns (b: BufferState?)
      requires StackOk() && extra.Valid() && base != extra.buffer
      requires forall i :: 0 <= i < |stack| && stack[i] != null ==> stack[i].chBuf != base
      requires HasCurrent() ==> AtRest() && cBufP <= nChars
      modifies this`stack, this`top, this`nChars, this`textPtr, this`cBufP, this`holdChar,
               if HasCurrent() then {Cur(), Cur().chBuf} else {}
      ensures b == null <==> base.Length < 2 || base[base.Length - 2] != NUL || base[base.Length - 1] != NUL
      ensures b == null ==> unchanged(this)
      ensures b != null ==> fresh(b) && StackOk() && HasCurrent() && Cur() == b && AtRest() && Startable()
      ensures b != null ==> !b.fillBuffer && b.chBuf == base
      ensures b != null ==> Restored()[cBufP..nChars] == Remaining() == base[..base.Length - 2]
    {
      if base.Length < 2 || base[base.Length - 2] != NUL || base[base.Length - 1] != NUL {
        return null;
      }
      b := new BufferState(base, base.Length - 2);
      b.nChars := b.bufSize;
      SwitchToBuffer(b);
      assert Restored() == base[..];
    }

    /** A copy of the given bytes with two end-of-buffer bytes behind it. */
    method CopyBytes(bytes: seq<byte>) returns (buf: array<byte>)
      ensures fresh(buf) && buf[..] == bytes + [NUL, NUL]
    {
      buf := new byte[|bytes| + 2];
      var i := 0;
      while i < |bytes|
        invariant 0 <= i <= |bytes|
        invariant buf[..i] == bytes[..i]
        modifies buf
      {
        buf[i] := bytes[i];
        i := i + 1;
      }
      buf[|bytes|] := NUL;
      buf[|bytes| + 1] := NUL;
    }

    /** yy_scan_bytes: scan a copy of the given bytes. */
    method ScanBytes(bytes: seq<byte>) returns (b: BufferState)
      requires StackOk() && extra.Valid()
      requires HasCurrent() ==> AtRest() && cBufP <= nChars
      modifies this`stack, this`top, this`nChars, this`textPtr, this`cBufP, this`holdChar,
               if HasCurrent() then {Cur(), Cur().chBuf} else {}
      ensures fresh(b) && fresh(b.chBuf) && StackOk() && HasCurrent() && Cur() == b && Startable()
      ensures !b.fillBuffer && Restored()[cBufP..nChars] == Remaining() == bytes
    {
      hide StackOk;
      var buf := CopyBytes(bytes);
      assert buf[..|bytes|] == bytes;
      b := ScanBuffer(buf);
      b.isOurs := true;
    }
  }
}
