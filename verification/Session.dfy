/**
 What the rule actions do: the bounded error buffer that batches retransmission
 requests, the analysis of a received packet, and the framing of an answer.
 */
module Session {
  import opened Bytes
  import opened Digits
  import opened Rules
  import opened Tokeniser

  datatype Cause = BadBytes(bytes: seq<byte>) | BadChecksum

  /** What the scanner makes happen outside, in order. */
  datatype Effect =
    | Retransmit(cause: Cause)
    | ResendLast
    | SendAck
    | Dispatch(command: seq<byte>)
    | Echo(text: seq<byte>)

  const MAX_ERROR_SIZE := 1024

  // ----- checksums

  function HexValue(b: byte): (v: nat)
    requires IsHex(b)
    ensures v < 16
  {
    if b <= 57 then b - 48 else if b <= 70 then b - 55 else b - 87
  }

  function HexDigit(v: nat): (b: byte)
    requires v < 16
    ensures IsHex(b) && HexValue(b) == v
  {
    if v < 10 then 48 + v else 87 + v
  }

  function Sum(s: seq<byte>): nat {
    if s == [] then 0 else Sum(s[..|s| - 1]) + s[|s| - 1]
  }

  lemma SumAppend(s: seq<byte>, b: byte)
    ensures Sum(s + [b]) == Sum(s) + b
    ensures Sum(s + [b]) % 256 == (Sum(s) % 256 + b) % 256
  {
    assert (s + [b])[..|s|] == s;
  }

  /** The sum of the bytes: nothing for none, a byte for itself, and additive. */
  lemma {:induction false} SumLaws(s: seq<byte>, t: seq<byte>)
    ensures Sum([]) == 0 && (forall b: byte :: Sum([b]) == b) && Sum(s + t) == Sum(s) + Sum(t)
    decreases |t|
  {
    forall b: byte
      ensures Sum([b]) == b
    {
      assert [b][..0] == [];
    }
    if t == [] {
      assert s + t == s;
    } else {
      assert (s + t)[..|s + t| - 1] == s + t[..|t| - 1];
      SumLaws(s, t[..|t| - 1]);
    }
  }

  /** The values of digits are their positions, and the digit sent for a value is the lower-case one. */
  lemma DigitValues(b: byte, v: nat)
    requires v < 16
    ensures IsDigit(b, v) <==> IsHex(b) && HexValue(b) == v
    ensures HexDigit(v) == LOWER_DIGITS[v] as int
  {
    DigitCodes(v);
    DigitIs(b, v);
    hide IsDigit;
  }

  function Body(p: seq<byte>): seq<byte>
    requires IsPacket(p)
  {
    p[1..|p| - 3]
  }

  function GivenChecksum(p: seq<byte>): nat
    requires IsPacket(p)
  {
    16 * HexValue(p[|p| - 2]) + HexValue(p[|p| - 1])
  }

  predicate ChecksumOk(p: seq<byte>)
    requires IsPacket(p)
  {
    Sum(Body(p)) % 256 == GivenChecksum(p)
  }

  function Analysis(p: seq<byte>): seq<Effect>
    requires IsPacket(p)
  {
    if ChecksumOk(p) then [SendAck, Dispatch(Body(p))] else [Retransmit(BadChecksum)]
  }

  // ----- the specification of a session

  /** Error bytes not yet reported, and everything done so far. */
  datatype Batch = Batch(pending: seq<byte>, done: seq<Effect>)

  function Flush(st: Batch): Batch {
    if st.pending == [] then st else Batch([], st.done + [Retransmit(BadBytes(st.pending))])
  }

  function AddError(st: Batch, c: byte): Batch {
    var st' := if |st.pending| > MAX_ERROR_SIZE - 2 then Flush(st) else st;
    st'.(pending := st'.pending + [c])
  }

  predicate IsToken(t: Token) {
    1 <= t.rule <= NUM_RULES && if t.rule == PACKET then IsPacket(t.text) else |t.text| == 1
  }

  /** What the action of a rule other than the error and echo rules does after flushing. */
  function Answer(t: Token): seq<Effect>
    requires IsToken(t) && t.rule <= PACKET
  {
    if t.rule == ACK then [] else if t.rule == NAK then [ResendLast] else Analysis(t.text)
  }

  function Perform(st: Batch, t: Token): Batch
    requires IsToken(t)
  {
    if t.rule <= PACKET then
      Batch([], Flush(st).done + Answer(t))
    else if t.rule == ERROR then
      AddError(st, t.text[0])
    else
      st.(done := st.done + [Echo(t.text)])
  }

  function PerformAll(st: Batch, ts: seq<Token>): Batch
    requires forall t :: t in ts ==> IsToken(t)
  {
    if ts == [] then st
    else
      assert forall t :: t in ts[..|ts| - 1] ==> t in ts;
      Perform(PerformAll(st, ts[..|ts| - 1]), ts[|ts| - 1])
  }

  lemma TokenIsToken(s: seq<byte>)
    requires s != []
    ensures IsToken(NextToken(s))
  {
    if PacketAt(s) {
      FoundPacket(s);
    }
  }

  lemma PerformAllAppend(st: Batch, ts: seq<Token>, t: Token)
    requires (forall u :: u in ts ==> IsToken(u)) && IsToken(t)
    ensures (forall u :: u in ts + [t] ==> IsToken(u)) && PerformAll(st, ts + [t]) == Perform(PerformAll(st, ts), t)
  {
    assert (ts + [t])[..|ts|] == ts;
  }

  lemma {:induction false} TokensAreTokens(s: seq<byte>)
    ensures forall t :: t in Tokenise(s) ==> IsToken(t)
    decreases |s|
  {
    if s != [] {
      TokenIsToken(s);
      TokensAreTokens(s[|NextToken(s).text|..]);
    }
  }

  /** All that a run of tokens makes happen, up to and including the end-of-file action. */
  function Effects(ts: seq<Token>): seq<Effect>
    requires forall t :: t in ts ==> IsToken(t)
  {
    Flush(PerformAll(Batch([], []), ts)).done
  }

  function SessionEffects(s: seq<byte>): seq<Effect> {
    TokensAreTokens(s);
    Effects(Tokenise(s))
  }

  // ----- laws of a session

  /** The reported chunks, in order. */
  function Chunks(es: seq<Effect>): seq<seq<byte>> {
    if es == [] then []
    else
      var e := es[|es| - 1];
      var cs := Chunks(es[..|es| - 1]);
      if e.Retransmit? && e.cause.BadBytes? then cs + [e.cause.bytes] else cs
  }

  function Concat(cs: seq<seq<byte>>): seq<byte> {
    if cs == [] then [] else Concat(cs[..|cs| - 1]) + cs[|cs| - 1]
  }

  /** The first byte of every token of the error rule. */
  function ErrorBytes(ts: seq<Token>): seq<byte>
    requires forall t :: t in ts ==> IsToken(t)
  {
    if ts == [] then []
    else
      var t := ts[|ts| - 1];
      assert IsToken(t) && forall u :: u in ts[..|ts| - 1] ==> u in ts;
      var bs := ErrorBytes(ts[..|ts| - 1]);
      if t.rule == ERROR then bs + [t.text[0]] else bs
  }

  lemma ChunksAppend(es: seq<Effect>, e: Effect)
    ensures Chunks(es + [e]) ==
              if e.Retransmit? && e.cause.BadBytes? then Chunks(es) + [e.cause.bytes] else Chunks(es)
  {
    assert (es + [e])[..|es|] == es;
  }

  lemma ConcatAppend(cs: seq<seq<byte>>, c: seq<byte>)
    ensures Concat(cs + [c]) == Concat(cs) + c
  {
    assert (cs + [c])[..|cs|] == cs;
  }

  /** Reporting moves the pending bytes, if any, into one more chunk and loses none. */
  lemma FlushLaw(st: Batch)
    ensures Flush(st).pending == []
    ensures Chunks(Flush(st).done) == if st.pending == [] then Chunks(st.done) else Chunks(st.done) + [st.pending]
    ensures Concat(Chunks(Flush(st).done)) == Concat(Chunks(st.done)) + st.pending
  {
    if st.pending != [] {
      ChunksAppend(st.done, Retransmit(BadBytes(st.pending)));
      ConcatAppend(Chunks(st.done), st.pending);
    }
  }

  /** After the k error bytes bs, full chunks have been reported and the rest pends. */
  ghost predicate Filled(st: Batch, bs: seq<byte>) {
    && Concat(Chunks(st.done)) + st.pending == bs
    && |Chunks(st.done)| == (if bs == [] then 0 else (|bs| - 1) / (MAX_ERROR_SIZE - 1))
    && |st.pending| == (if bs == [] then 0 else (|bs| - 1) % (MAX_ERROR_SIZE - 1) + 1)
  }

  lemma ChunkStep(k: int)
    requires k > 0
    ensures (k - 1) % 1023 == 1022 ==> k / 1023 == (k - 1) / 1023 + 1 && k % 1023 == 0
    ensures (k - 1) % 1023 != 1022 ==> k / 1023 == (k - 1) / 1023 && k % 1023 == (k - 1) % 1023 + 1
  {
  }

  lemma FilledAdd(st: Batch, bs: seq<byte>, c: byte)
    requires Filled(st, bs)
    ensures Filled(AddError(st, c), bs + [c])
  {
    FlushLaw(st);
    if bs != [] {
      ChunkStep(|bs|);
    }
  }

  lemma FilledStep(st: Batch, bs: seq<byte>, t: Token)
    requires IsToken(t) && t.rule > PACKET && Filled(st, bs)
    ensures Filled(Perform(st, t), if t.rule == ERROR then bs + [t.text[0]] else bs)
  {
    if t.rule == ERROR {
      FilledAdd(st, bs, t.text[0]);
    } else {
      ChunksAppend(st.done, Echo(t.text));
    }
  }

  /** Between two flushing tokens, with newlines in any places, error bytes fill chunks of 1023. */
  lemma {:induction false} BatchFill(ts: seq<Token>)
    requires forall t :: t in ts ==> IsToken(t) && t.rule > PACKET
    ensures Filled(PerformAll(Batch([], []), ts), ErrorBytes(ts))
  {
    if ts != [] {
      var us, t := ts[..|ts| - 1], ts[|ts| - 1];
      assert forall u :: u in us ==> u in ts;
      BatchFill(us);
      FilledStep(PerformAll(Batch([], []), us), ErrorBytes(us), t);
    }
  }

  /**
   k error bytes between two flushing tokens cause exactly ceil(k / 1023) requests, whose
   chunks are those bytes in order.
   */
  lemma BatchCount(ts: seq<Token>)
    requires forall t :: t in ts ==> IsToken(t) && t.rule > PACKET
    ensures var cs := Chunks(Flush(PerformAll(Batch([], []), ts)).done);
            && Concat(cs) == ErrorBytes(ts)
            && |cs| == (|ErrorBytes(ts)| + MAX_ERROR_SIZE - 2) / (MAX_ERROR_SIZE - 1)
  {
    BatchFill(ts);
    FlushLaw(PerformAll(Batch([], []), ts));
  }

  lemma {:induction false} PerformAllConcat(st: Batch, ts: seq<Token>, us: seq<Token>)
    requires forall t :: t in ts + us ==> IsToken(t)
    ensures (forall t :: t in ts ==> IsToken(t)) && (forall u :: u in us ==> IsToken(u))
    ensures PerformAll(st, ts + us) == PerformAll(PerformAll(st, ts), us)
    decreases |us|
  {
    assert forall t :: t in ts ==> t in ts + us;
    assert forall u :: u in us ==> u in ts + us;
    if us == [] {
      assert ts + us == ts;
    } else {
      assert (ts + us)[..|ts + us| - 1] == ts + us[..|us| - 1];
      PerformAllConcat(st, ts, us[..|us| - 1]);
    }
  }

  lemma PerformPrefix(done: seq<Effect>, st: Batch, t: Token)
    requires IsToken(t)
    ensures var u := Perform(st, t);
            Perform(Batch(st.pending, done + st.done), t) == Batch(u.pending, done + u.done)
  {
    hide Answer, IsToken;
  }

  /** What was done before only stands in front of what is done next. */
  lemma {:induction false} DoneIsPrefix(done: seq<Effect>, ts: seq<Token>)
    requires forall t :: t in ts ==> IsToken(t)
    ensures var st := PerformAll(Batch([], []), ts);
            PerformAll(Batch([], done), ts) == Batch(st.pending, done + st.done)
  {
    hide Perform, IsToken;
    if ts != [] {
      var us, t := ts[..|ts| - 1], ts[|ts| - 1];
      assert forall u :: u in us ==> u in ts;
      DoneIsPrefix(done, us);
      PerformPrefix(done, PerformAll(Batch([], []), us), t);
    } else {
      assert done + [] == done;
    }
  }

  /**
   An ack, nak or packet splits a session: the errors before it are all reported before
   its own effect, and what comes after starts from an empty error buffer.
   */
  lemma FlushingTokenSplits(ts: seq<Token>, t: Token, us: seq<Token>)
    requires forall x :: x in ts + [t] + us ==> IsToken(x)
    requires t.rule <= PACKET
    ensures (forall x :: x in ts ==> IsToken(x)) && IsToken(t) && (forall x :: x in us ==> IsToken(x))
    ensures Effects(ts + [t] + us) == Effects(ts) + Answer(t) + Effects(us)
  {
    assert t in ts + [t] + us;
    assert forall x :: x in ts + [t] ==> x in ts + [t] + us;
    PerformAllConcat(Batch([], []), ts + [t], us);
    assert (ts + [t])[..|ts|] == ts;
    assert forall x :: x in ts ==> x in ts + [t];
    DoneIsPrefix(Effects(ts) + Answer(t), us);
  }

  // ----- answers

  /** Two lower-case hex digits. */
  function Hex2(v: nat): seq<byte>
    requires v < 256
  {
    [HexDigit(v / 16), HexDigit(v % 16)]
  }

  /** The frame gdb_send_buffer puts around a body. */
  function SendFrame(body: seq<byte>): seq<byte> {
    [DOLLAR] + body + [HASH] + Hex2(Sum(body) % 256)
  }

  lemma OneToken(t: Token)
    requires IsToken(t) && t.rule <= PACKET
    ensures Effects([t]) == Answer(t)
  {
    assert [t][..0] == [];
    assert PerformAll(Batch([], []), [t]) == Perform(PerformAll(Batch([], []), [t][..0]), t);
  }

  /** A frame the simulator sends is itself one packet, with a checksum that is accepted. */
  lemma SentFrameIsAccepted(body: seq<byte>)
    requires DOLLAR !in body && HASH !in body
    ensures IsPacket(SendFrame(body)) && Body(SendFrame(body)) == body
    ensures SessionEffects(SendFrame(body)) == [SendAck, Dispatch(body)]
  {
    var p := SendFrame(body);
    var c := Sum(body) % 256;
    assert p == [DOLLAR] + body + [HASH, HexDigit(c / 16), HexDigit(c % 16)];
    PacketFrame(Packet(body, HexDigit(c / 16), HexDigit(c % 16)));
    assert Body(p) == body;
    PacketPrefix(p, p);
    assert p[..|p|] == p;
    assert NextToken(p) == Token(PACKET, p) && p[|p|..] == [];
    assert Tokenise(p) == [Token(PACKET, p)];
    OneToken(Token(PACKET, p));
  }

  /** What a packet should make the simulator do, h and l being the values of its two digits. */
  function Verdict(body: seq<byte>, h: nat, l: nat): seq<Effect> {
    if Sum(body) % 256 == 16 * h + l then [SendAck, Dispatch(body)] else [Retransmit(BadChecksum)]
  }

  lemma AnalysisMeans(p: seq<byte>, h: nat, l: nat)
    requires IsPacket(p) && IsDigit(p[|p| - 2], h) && IsDigit(p[|p| - 1], l)
    ensures Analysis(p) == Verdict(p[1..|p| - 3], h, l)
  {
    assert h < 16 && l < 16;
    hide IsDigit;
    DigitValues(p[|p| - 2], h);
    DigitValues(p[|p| - 1], l);
  }

  /** The effects are those the values of the digits hi and lo ask for. */
  ghost predicate Judged(body: seq<byte>, hi: byte, lo: byte, es: seq<Effect>) {
    forall h, l :: IsDigit(hi, h) && IsDigit(lo, l) ==> es == Verdict(body, h, l)
  }

  lemma PacketJudged(p: seq<byte>)
    requires IsPacket(p)
    ensures Judged(p[1..|p| - 3], p[|p| - 2], p[|p| - 1], Analysis(p))
  {
    hide IsDigit, Verdict, Analysis;
    var hi, lo := p[|p| - 2], p[|p| - 1];
    forall h, l | IsDigit(hi, h) && IsDigit(lo, l)
      ensures Analysis(p) == Verdict(p[1..|p| - 3], h, l)
    {
      AnalysisMeans(p, h, l);
    }
  }

  /** A packet is accepted exactly when its digits, by their positions, denote the sum of its body modulo 256. */
  lemma PacketIsJudged(body: seq<byte>, hi: byte, lo: byte, h: nat, l: nat)
    requires DOLLAR !in body && HASH !in body && IsDigit(hi, h) && IsDigit(lo, l)
    ensures SessionEffects([DOLLAR] + body + [HASH, hi, lo]) == Verdict(body, h, l)
  {
    DigitsAreHex(hi);
    DigitsAreHex(lo);
    var p := [DOLLAR] + body + [HASH, hi, lo];
    PacketFrame(Packet(body, hi, lo));
    PacketPrefix(p, p);
    assert p[..|p|] == p && p[|p|..] == [];
    assert NextToken(p) == Token(PACKET, p);
    assert Tokenise(p) == [Token(PACKET, p)];
    OneToken(Token(PACKET, p));
    assert p[1..|p| - 3] == body;
    AnalysisMeans(p, h, l);
  }

  /** The packet OK, whose bytes add up to 0x9a, with good digits of both cases and with wrong ones. */
  lemma PacketExamples()
    ensures SessionEffects(['$' as int, 'O' as int, 'K' as int, '#' as int, '9' as int, 'a' as int])
            == [SendAck, Dispatch(['O' as int, 'K' as int])]
    ensures SessionEffects(['$' as int, 'O' as int, 'K' as int, '#' as int, '9' as int, 'A' as int])
            == [SendAck, Dispatch(['O' as int, 'K' as int])]
    ensures SessionEffects(['$' as int, 'O' as int, 'K' as int, '#' as int, 'a' as int, '9' as int]) == [Retransmit(BadChecksum)]
  {
    hide SessionEffects, IsDigit;
    OkSums();
    DigitIs('9' as int, 9);
    DigitIs('a' as int, 10);
    DigitIs('A' as int, 10);
    var ok := ['O' as int, 'K' as int];
    PacketIsJudged(ok, '9' as int, 'a' as int, 9, 10);
    PacketIsJudged(ok, '9' as int, 'A' as int, 9, 10);
    PacketIsJudged(ok, 'a' as int, '9' as int, 10, 9);
    assert [DOLLAR] + ok + [HASH, '9' as int, 'a' as int] == ['$' as int, 'O' as int, 'K' as int, '#' as int, '9' as int, 'a' as int];
    assert [DOLLAR] + ok + [HASH, '9' as int, 'A' as int] == ['$' as int, 'O' as int, 'K' as int, '#' as int, '9' as int, 'A' as int];
    assert [DOLLAR] + ok + [HASH, 'a' as int, '9' as int] == ['$' as int, 'O' as int, 'K' as int, '#' as int, 'a' as int, '9' as int];
  }

  lemma OkSums()
    ensures Sum(['O' as int, 'K' as int]) == 0x9a
  {
    hide Sum;
    SumLaws(['O' as int], ['K' as int]);
    assert ['O' as int] + ['K' as int] == ['O' as int, 'K' as int];
  }

  /** A newline alone is echoed. */
  lemma NewlineExample()
    ensures SessionEffects(['\n' as int]) == [Echo(['\n' as int])]
  {
    var ts := [Token(DEFAULT, [NEWLINE])];
    assert [NEWLINE][1..] == [] && [NEWLINE][..1] == [NEWLINE] && Tokenise([NEWLINE]) == ts;
    assert ts[..0] == [] && PerformAll(Batch([], []), ts) == Perform(PerformAll(Batch([], []), ts[..0]), ts[0]);
  }

  // ----- everything that a session does

  /** The texts echoed, in order. */
  function Echoes(es: seq<Effect>): seq<seq<byte>> {
    if es == [] then [] else Echoes(es[..|es| - 1]) + if es[|es| - 1].Echo? then [es[|es| - 1].text] else []
  }

  /** What is neither an echo nor a request for bytes that were no packet. */
  function Answers(es: seq<Effect>): seq<Effect> {
    if es == [] then []
    else
      var e := es[|es| - 1];
      Answers(es[..|es| - 1]) + if e.Echo? || (e.Retransmit? && e.cause.BadBytes?) then [] else [e]
  }

  /** The texts of the tokens of the default rule. */
  function DefaultTexts(ts: seq<Token>): seq<seq<byte>> {
    if ts == [] then [] else DefaultTexts(ts[..|ts| - 1]) + if ts[|ts| - 1].rule == DEFAULT then [ts[|ts| - 1].text] else []
  }

  /** The answers to the acks, naks and packets. */
  function TokenAnswers(ts: seq<Token>): seq<Effect>
    requires forall t :: t in ts ==> IsToken(t)
  {
    if ts == [] then []
    else
      var t := ts[|ts| - 1];
      assert IsToken(t) && forall u :: u in ts[..|ts| - 1] ==> u in ts;
      TokenAnswers(ts[..|ts| - 1]) + if t.rule <= PACKET then Answer(t) else []
  }

  lemma ProjectionsAppend(es: seq<Effect>, e: Effect)
    ensures Echoes(es + [e]) == Echoes(es) + if e.Echo? then [e.text] else []
    ensures Answers(es + [e]) == Answers(es) + if e.Echo? || (e.Retransmit? && e.cause.BadBytes?) then [] else [e]
  {
    assert (es + [e])[..|es|] == es;
  }

  /** Flushing and answering echo nothing; an answer reports no bytes. */
  lemma AnswerProjects(es: seq<Effect>, t: Token)
    requires IsToken(t) && t.rule <= PACKET
    ensures var fs := es + Answer(t);
            Echoes(fs) == Echoes(es) && Answers(fs) == Answers(es) + Answer(t) && Chunks(fs) == Chunks(es)
  {
    hide ChecksumOk;
    var a := Answer(t);
    if |a| == 0 {
      assert es + a == es;
    } else if |a| == 1 {
      ProjectionsAppend(es, a[0]);
      ChunksAppend(es, a[0]);
      assert a == [a[0]];
    } else {
      ProjectionsAppend(es, a[0]);
      ChunksAppend(es, a[0]);
      ProjectionsAppend(es + [a[0]], a[1]);
      ChunksAppend(es + [a[0]], a[1]);
      assert es + a == es + [a[0]] + [a[1]];
    }
  }

  lemma FlushProjects(st: Batch)
    ensures Echoes(Flush(st).done) == Echoes(st.done) && Answers(Flush(st).done) == Answers(st.done)
  {
    if st.pending != [] {
      ProjectionsAppend(st.done, Retransmit(BadBytes(st.pending)));
    }
  }

  /** What is done so far, and the bytes that pend, are what the tokens so far ask for. */
  ghost predicate Accounted(st: Batch, ts: seq<Token>)
    requires forall t :: t in ts ==> IsToken(t)
  {
    && Echoes(st.done) == DefaultTexts(ts) && Answers(st.done) == TokenAnswers(ts)
    && Concat(Chunks(st.done)) + st.pending == ErrorBytes(ts)
  }

  /** The three projections of the tokens, one token more. */
  lemma TokensAppend(ts: seq<Token>, t: Token)
    requires (forall u :: u in ts ==> IsToken(u)) && IsToken(t)
    ensures forall u :: u in ts + [t] ==> IsToken(u)
    ensures DefaultTexts(ts + [t]) == DefaultTexts(ts) + if t.rule == DEFAULT then [t.text] else []
    ensures TokenAnswers(ts + [t]) == TokenAnswers(ts) + if t.rule <= PACKET then Answer(t) else []
    ensures ErrorBytes(ts + [t]) == if t.rule == ERROR then ErrorBytes(ts) + [t.text[0]] else ErrorBytes(ts)
  {
    hide Answer, IsPacket;
    assert (ts + [t])[..|ts|] == ts;
  }

  /** What one action does to the projections. */
  lemma PerformProjects(st: Batch, t: Token)
    requires IsToken(t)
    ensures var u := Perform(st, t);
            && Echoes(u.done) == Echoes(st.done) + (if t.rule == DEFAULT then [t.text] else [])
            && Answers(u.done) == Answers(st.done) + (if t.rule <= PACKET then Answer(t) else [])
            && Concat(Chunks(u.done)) + u.pending == Concat(Chunks(st.done)) + st.pending + (if t.rule == ERROR then [t.text[0]] else [])
  {
    hide Answer, Chunks, Echoes, Answers, IsToken;
    FlushLaw(st);
    FlushProjects(st);
    if t.rule <= PACKET {
      AnswerProjects(Flush(st).done, t);
    } else if t.rule != ERROR {
      RuleIsDefault(t);
      ProjectionsAppend(st.done, Echo(t.text));
      ChunksAppend(st.done, Echo(t.text));
    }
  }

  lemma AccountedStep(st: Batch, ts: seq<Token>, t: Token)
    requires (forall u :: u in ts ==> IsToken(u)) && IsToken(t) && Accounted(st, ts)
    ensures (forall u :: u in ts + [t] ==> IsToken(u)) && Accounted(Perform(st, t), ts + [t])
  {
    hide Perform, Answer, Chunks, Echoes, Answers, IsToken, DefaultTexts, TokenAnswers, ErrorBytes, Concat;
    TokensAppend(ts, t);
    PerformProjects(st, t);
  }

  lemma RuleIsDefault(t: Token)
    requires IsToken(t) && t.rule > PACKET && t.rule != ERROR
    ensures t.rule == DEFAULT
  {
  }

  lemma {:induction false} AllAccounted(ts: seq<Token>)
    requires forall t :: t in ts ==> IsToken(t)
    ensures Accounted(PerformAll(Batch([], []), ts), ts)
  {
    if ts != [] {
      var us, t := ts[..|ts| - 1], ts[|ts| - 1];
      assert (forall u :: u in us ==> u in ts) && us + [t] == ts;
      AllAccounted(us);
      AccountedStep(PerformAll(Batch([], []), us), us, t);
      PerformAllAppend(Batch([], []), us, t);
    }
  }

  /**
   Every effect of a session is one of these: the echoes are the texts of the default rule,
   the chunks reported are the error bytes, each once, and the rest are the answers to the
   acks, naks and packets; all in the order of the input.
   */
  lemma EffectsAccounted(ts: seq<Token>)
    requires forall t :: t in ts ==> IsToken(t)
    ensures Echoes(Effects(ts)) == DefaultTexts(ts)
    ensures Concat(Chunks(Effects(ts))) == ErrorBytes(ts)
    ensures Answers(Effects(ts)) == TokenAnswers(ts)
  {
    var st := PerformAll(Batch([], []), ts);
    AllAccounted(ts);
    FlushLaw(st);
    FlushProjects(st);
  }

  /** A newline is echoed at once; it reports no pending bytes and does not join them. */
  lemma NewlineEchoes(st: Batch, t: Token)
    requires IsToken(t) && t.rule == DEFAULT
    ensures Perform(st, t).pending == st.pending && Perform(st, t).done == st.done + [Echo(t.text)]
  {
  }

  // ----- sessions of framed messages

  /** The two digits of a packet are those of its body's checksum. */
  predicate ChecksumGood(m: Message)
    requires m.Packet? && ValidMessage(m)
  {
    Sum(m.body) % 256 == 16 * HexValue(m.hi) + HexValue(m.lo)
  }

  /** What one message should make the simulator do. */
  function MessageEffects(m: Message): seq<Effect>
    requires ValidMessage(m)
  {
    match m
    case Ack => []
    case Nak => [ResendLast]
    case Packet(body, _, _) => if ChecksumGood(m) then [SendAck, Dispatch(body)] else [Retransmit(BadChecksum)]
  }

  function MessagesEffects(ms: seq<Message>): seq<Effect>
    requires forall m :: m in ms ==> ValidMessage(m)
  {
    if ms == [] then [] else MessageEffects(ms[0]) + MessagesEffects(ms[1..])
  }

  lemma FrameAnswer(m: Message)
    requires ValidMessage(m)
    ensures IsToken(FrameToken(m)) && FrameToken(m).rule <= PACKET && Answer(FrameToken(m)) == MessageEffects(m)
  {
    if m.Packet? {
      PacketFrame(m);
      assert Body(Frame(m)) == m.body;
    }
  }

  /** What a flushing token does first. */
  lemma FlushingTokenFirst(t: Token, us: seq<Token>)
    requires IsToken(t) && t.rule <= PACKET && forall u :: u in us ==> IsToken(u)
    ensures forall x :: x in [t] + us ==> IsToken(x)
    ensures Effects([t] + us) == Answer(t) + Effects(us)
  {
    hide Answer;
    assert [] + [t] + us == [t] + us && Effects([]) == [];
    FlushingTokenSplits([], t, us);
  }

  lemma {:induction false} FramedTokens(ms: seq<Message>)
    requires forall m :: m in ms ==> ValidMessage(m)
    ensures forall t :: t in FrameTokens(ms) ==> IsToken(t)
    ensures Effects(FrameTokens(ms)) == MessagesEffects(ms)
  {
    hide IsToken, Answer, MessageEffects, FrameToken, ValidMessage;
    if ms == [] {
    } else {
      hide Effects;
      FrameAnswer(ms[0]);
      FramedTokens(ms[1..]);
      FlushingTokenFirst(FrameToken(ms[0]), FrameTokens(ms[1..]));
    }
  }

  /** Framed messages, any number in any order, have exactly the effects meant, in their order. */
  lemma FramedSession(ms: seq<Message>)
    requires forall m :: m in ms ==> ValidMessage(m)
    ensures SessionEffects(FrameAll(ms)) == MessagesEffects(ms)
  {
    FramingRoundTrip(ms);
    FramedTokens(ms);
  }

  /** The causes of the retransmission requests among effects. */
  function Requests(es: seq<Effect>): seq<Cause> {
    if es == [] then [] else (if es[0].Retransmit? then [es[0].cause] else []) + Requests(es[1..])
  }

  lemma {:induction false} RequestsConcat(es: seq<Effect>, fs: seq<Effect>)
    ensures Requests(es + fs) == Requests(es) + Requests(fs)
  {
    if es == [] {
      assert es + fs == fs;
    } else {
      var first := if es[0].Retransmit? then [es[0].cause] else [];
      assert (es + fs)[1..] == es[1..] + fs;
      RequestsConcat(es[1..], fs);
      assert Requests(es + fs) == first + Requests(es[1..] + fs);
      assert Requests(es) == first + Requests(es[1..]);
    }
  }

  /** One bad checksum for every packet whose digits are wrong. */
  function BadChecksums(ms: seq<Message>): seq<Cause>
    requires forall m :: m in ms ==> ValidMessage(m)
  {
    if ms == [] then []
    else (if ms[0].Packet? && !ChecksumGood(ms[0]) then [BadChecksum] else []) + BadChecksums(ms[1..])
  }

  /**
   A session of framed messages requests a retransmission exactly once for every packet whose
   digits are wrong, and never for bytes outside packets.
   */
  lemma {:induction false} FramedRequests(ms: seq<Message>)
    requires forall m :: m in ms ==> ValidMessage(m)
    ensures Requests(SessionEffects(FrameAll(ms))) == BadChecksums(ms)
    ensures (forall m :: m in ms && m.Packet? ==> ChecksumGood(m)) ==> Requests(SessionEffects(FrameAll(ms))) == []
  {
    FramedSession(ms);
    if ms != [] {
      FramedRequests(ms[1..]);
      FramedSession(ms[1..]);
      RequestsConcat(MessageEffects(ms[0]), MessagesEffects(ms[1..]));
    }
  }

  // ----- the actions themselves

  class ParserData {
    const buffer: array<byte>
    var len: nat
    var effects: seq<Effect>

    ghost predicate Valid()
      reads this
    {
      buffer.Length == MAX_ERROR_SIZE && len <= MAX_ERROR_SIZE - 1
    }

    ghost function State(): Batch
      reads this, buffer
      requires Valid()
    {
      Batch(buffer[..len], effects)
    }

    constructor ()
      ensures Valid() && State() == Batch([], []) && fresh(buffer)
    {
      buffer := new byte[MAX_ERROR_SIZE];
      len := 0;
      effects := [];
    }

    method HandleError()
      requires Valid()
      modifies this`len, this`effects, buffer
      ensures Valid() && len == 0 && State() == Flush(old(State()))
    {
      if len != 0 {
        buffer[len] := NUL;
        effects := effects + [Retransmit(BadBytes(buffer[..len]))];
        len := 0;
      }
    }

    method AddCharacterToError(c: byte)
      requires Valid()
      modifies this`len, this`effects, buffer
      ensures Valid() && State() == AddError(old(State()), c)
    {
      if len > MAX_ERROR_SIZE - 2 {
        HandleError();
      }
      buffer[len] := c;
      len := len + 1;
    }

    /** gdb_transmit_packet: the last answer goes out again. */
    method TransmitPacket()
      modifies this`effects
      ensures effects == old(effects) + [ResendLast]
    {
      effects := effects + [ResendLast];
    }

    /** ECHO of the lexeme text[at..at + length]. */
    method EchoText(text: array<byte>, at: nat, length: nat)
      requires at + length <= text.Length
      modifies this`effects
      ensures effects == old(effects) + [Echo(text[at..at + length])]
    {
      effects := effects + [Echo(text[at..at + length])];
    }

    /**
     gdb_packet_analysis on the packet of the given length at text[at..]. The checksum is
     read up to the NUL that the scanner has put behind the packet, and the hash of an
     accepted packet is overwritten in place.
     */
    method PacketAnalysis(text: array<byte>, at: nat, length: nat)
      requires at + length < text.Length && IsPacket(text[at..at + length]) && text[at + length] == NUL
      requires Valid() && text != buffer
      modifies this`effects, text
      ensures effects == old(effects) + Analysis(old(text[at..at + length]))
      ensures |old(effects)| <= |effects|
      ensures var p, es := old(text[at..at + length]), effects[|old(effects)|..];
              Judged(p[1..length - 3], p[length - 2], p[length - 1], es)
      ensures forall k :: 0 <= k < text.Length && k != at + length - 3 ==> text[k] == old(text[k])
    {
      hide Judged, IsDigit, Verdict;
      ghost var p := text[at..at + length];
      assert forall k :: 0 <= k < length ==> p[k] == text[at + k];
      PacketJudged(p);
      var check := BodyChecksum(text, at, length, p);
      var i := length - 3;
      var given := ReadHex(text, at + i + 1, p);
      assert text[at + 1..at + i] == Body(p);
      if check == given {
        text[at + i] := NUL;
        assert text[at + 1..at + i] == Body(p);
        effects := effects + [SendAck, Dispatch(text[at + 1..at + i])];
      } else {
        effects := effects + [Retransmit(BadChecksum)];
      }
    }

    method BodyChecksum(text: array<byte>, at: nat, length: nat, ghost p: seq<byte>) returns (check: nat)
      requires at + length < text.Length && IsPacket(p) && text[at..at + length] == p
      ensures check == Sum(Body(p)) % 256
    {
      check := 0;
      var i := 1;
      while i < length - 3
        invariant 1 <= i <= length - 3
        invariant check == Sum(p[1..i]) % 256
      {
        assert p[i] == text[at + i] && p[1..i + 1] == p[1..i] + [p[i]];
        SumAppend(p[1..i], p[i]);
        check := (check + text[at + i]) % 256;
        i := i + 1;
      }
    }

    /** The "%x" conversion: hex digits are read until something else, here the NUL behind the packet p. */
    method ReadHex(text: array<byte>, start: nat, ghost p: seq<byte>) returns (given: nat)
      requires IsPacket(p) && start + 2 < text.Length
      requires text[start] == p[|p| - 2] && text[start + 1] == p[|p| - 1] && text[start + 2] == NUL
      ensures given == GivenChecksum(p)
    {
      given := 0;
      var k := start;
      while IsHex(text[k])
        invariant start <= k <= start + 2
        invariant given == (if k == start then 0
                            else if k == start + 1 then HexValue(p[|p| - 2])
                            else GivenChecksum(p))
        decreases start + 2 - k
      {
        given := 16 * given + HexValue(text[k]);
        k := k + 1;
      }
    }
  }
}
