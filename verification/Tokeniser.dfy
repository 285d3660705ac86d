/**
 A direct tokeniser for the gdb stream and its laws: it is the only tokenisation the
 rules allow, every dollar is a resynchronisation point, framed messages come back
 as they were sent, and one pass over the bytes does at most two steps a byte.
 */
module Tokeniser {
  import opened Bytes
  import opened Rules

  /** The first position from i on that holds a dollar or a hash, or the end of s. */
  function BodyEnd(s: seq<byte>, i: nat): (j: nat)
    requires i <= |s|
    ensures i <= j <= |s|
    ensures forall k :: i <= k < j ==> s[k] != DOLLAR && s[k] != HASH
    ensures j < |s| ==> s[j] == DOLLAR || s[j] == HASH
    decreases |s| - i
  {
    if i == |s| || s[i] == DOLLAR || s[i] == HASH then i else BodyEnd(s, i + 1)
  }

  /** A packet lies at the front of s when its body ends in a hash and two hex digits. */
  predicate PacketAt(s: seq<byte>) {
    && s != [] && s[0] == DOLLAR
    && var j := BodyEnd(s, 1);
       j + 2 < |s| && s[j] == HASH && IsHex(s[j + 1]) && IsHex(s[j + 2])
  }

  function SingleRule(b: byte): nat {
    if b == PLUS then ACK else if b == MINUS then NAK else if b == NEWLINE then DEFAULT else ERROR
  }

  function NextToken(s: seq<byte>): (t: Token)
    requires s != []
    ensures 1 <= t.rule <= NUM_RULES
    ensures t.text != [] && t.text <= s
    ensures t.rule == PACKET <==> PacketAt(s)
    ensures t.rule != PACKET ==> t == Token(SingleRule(s[0]), s[..1])
  {
    if PacketAt(s) then Token(PACKET, s[..BodyEnd(s, 1) + 3])
    else Token(SingleRule(s[0]), s[..1])
  }

  function Tokenise(s: seq<byte>): seq<Token>
    decreases |s|
  {
    if s == [] then []
    else var t := NextToken(s); [t] + Tokenise(s[|t.text|..])
  }

  // ----- the rules allow no other tokenisation

  /** A packet that is a prefix of s is the one PacketAt finds. */
  lemma PacketPrefix(s: seq<byte>, w: seq<byte>)
    requires w <= s && IsPacket(w)
    ensures PacketAt(s) && |w| == BodyEnd(s, 1) + 3
  {
    var j := BodyEnd(s, 1);
    assert forall k :: 0 <= k < |w| ==> w[k] == s[k];
    assert s[|w| - 3] == w[|w| - 3] == HASH;
    assert s[|w| - 2] == w[|w| - 2] && s[|w| - 1] == w[|w| - 1];
  }

  lemma FoundPacket(s: seq<byte>)
    requires PacketAt(s)
    ensures IsPacket(s[..BodyEnd(s, 1) + 3])
  {
  }

  /** Any match that is not a packet is one byte long, and its rule is at least SingleRule. */
  lemma ShortMatch(r: nat, w: seq<byte>)
    requires Matches(r, w) && r != PACKET
    ensures |w| == 1 && SingleRule(w[0]) <= r
  {
  }

  /** NextToken takes the longest match, and the earliest rule for it. */
  lemma NextTokenIsBest(s: seq<byte>)
    requires s != []
    ensures IsBestMatch(s, NextToken(s))
  {
    var t := NextToken(s);
    if PacketAt(s) {
      FoundPacket(s);
      PacketRule(t.text);
    } else {
      assert In(Pattern(t.rule), t.text);
    }
    forall r: nat, w: seq<byte> | Matches(r, w) && w <= s
      ensures |w| < |t.text| || (|w| == |t.text| && t.rule <= r)
    {
      if r == PACKET {
        PacketRule(w);
        PacketPrefix(s, w);
      } else {
        ShortMatch(r, w);
        assert w[0] == s[0];
      }
    }
  }

  lemma BestMatchIsUnique(s: seq<byte>, t: Token, u: Token)
    requires IsBestMatch(s, t) && IsBestMatch(s, u)
    ensures t == u
  {
    assert |t.text| == |u.text|;
  }

  /** Longest match and earliest rule determine the whole tokenisation, and Tokenise computes it. */
  lemma {:induction false} TokenisationIsUnique(s: seq<byte>, ts: seq<Token>)
    ensures IsTokenisation(s, ts) <==> ts == Tokenise(s)
    decreases |s|
  {
    if s != [] {
      var t := NextToken(s);
      NextTokenIsBest(s);
      if ts != [] {
        if IsBestMatch(s, ts[0]) {
          BestMatchIsUnique(s, t, ts[0]);
        }
        TokenisationIsUnique(s[|t.text|..], ts[1..]);
      }
    } else if ts != [] && IsBestMatch(s, ts[0]) {
      assert false;
    }
  }

  function Texts(ts: seq<Token>): seq<byte> {
    if ts == [] then [] else ts[0].text + Texts(ts[1..])
  }

  /** The lexemes are the input, each byte once and in order. */
  lemma {:induction false} TextsOfTokenise(s: seq<byte>)
    ensures Texts(Tokenise(s)) == s
    decreases |s|
  {
    if s != [] {
      var t := NextToken(s);
      TextsOfTokenise(s[|t.text|..]);
      assert s == t.text + s[|t.text|..];
    }
  }

  // ----- resynchronisation

  lemma {:induction false} BodyEndAppend(g: seq<byte>, s: seq<byte>, i: nat)
    requires i <= |g|
    ensures BodyEnd(g, i) < |g| ==> BodyEnd(g + s, i) == BodyEnd(g, i)
    ensures BodyEnd(g, i) == |g| ==> BodyEnd(g + s, i) == BodyEnd(g + s, |g|)
    decreases |g| - i
  {
    if i < |g| && g[i] != DOLLAR && g[i] != HASH {
      BodyEndAppend(g, s, i + 1);
    }
  }

  /** Text that starts with a dollar cannot change the token in front of it. */
  lemma NextTokenBeforeDollar(g: seq<byte>, s: seq<byte>)
    requires g != [] && s != [] && s[0] == DOLLAR
    ensures NextToken(g + s) == NextToken(g)
  {
    var w := g + s;
    if g[0] == DOLLAR {
      BodyEndAppend(g, s, 1);
      var j := BodyEnd(g, 1);
      assert w[|g|] == DOLLAR;
      if j < |g| && PacketAt(g) {
        assert w[..j + 3] == g[..j + 3];
      }
    }
    assert w[..1] == g[..1];
  }

  lemma TokeniseFront(s: seq<byte>)
    ensures s == [] ==> Tokenise(s) == []
    ensures s != [] ==> Tokenise(s) == [NextToken(s)] + Tokenise(s[|NextToken(s).text|..])
  {
  }

  lemma FrontBeforeDollar(g: seq<byte>, d: seq<byte>)
    requires g != [] && d != [] && d[0] == DOLLAR
    ensures var t := NextToken(g); Tokenise(g + d) == [t] + Tokenise(g[|t.text|..] + d)
  {
    var t := NextToken(g);
    NextTokenBeforeDollar(g, d);
    assert (g + d)[|t.text|..] == g[|t.text|..] + d;
  }

  /** Every dollar resynchronises: whatever g was, what follows is read as if it came first. */
  lemma {:induction false} ResyncAtDollar(g: seq<byte>, d: seq<byte>)
    requires d != [] && d[0] == DOLLAR
    ensures Tokenise(g + d) == Tokenise(g) + Tokenise(d)
    decreases |g|
  {
    hide NextToken, Tokenise;
    TokeniseFront(g);
    if g == [] {
      assert g + d == d;
    } else {
      var t := NextToken(g);
      var g' := g[|t.text|..];
      FrontBeforeDollar(g, d);
      ResyncAtDollar(g', d);
      assert Tokenise(g) + Tokenise(d) == [t] + (Tokenise(g') + Tokenise(d));
    }
  }

  /** A packet is delivered intact after any garbage, a truncated packet included. */
  lemma PacketAfterGarbage(g: seq<byte>, p: seq<byte>, s: seq<byte>)
    requires IsPacket(p)
    ensures Tokenise(g + p + s) == Tokenise(g) + [Token(PACKET, p)] + Tokenise(s)
  {
    assert g + p + s == g + (p + s);
    ResyncAtDollar(g, p + s);
    PacketPrefix(p + s, p);
    assert (p + s)[..|p|] == p && (p + s)[|p|..] == s;
  }

  // ----- framing

  datatype Message = Ack | Nak | Packet(body: seq<byte>, hi: byte, lo: byte)

  predicate ValidMessage(m: Message) {
    m.Packet? ==> DOLLAR !in m.body && HASH !in m.body && IsHex(m.hi) && IsHex(m.lo)
  }

  function Frame(m: Message): seq<byte> {
    match m
    case Ack => [PLUS]
    case Nak => [MINUS]
    case Packet(body, hi, lo) => [DOLLAR] + body + [HASH, hi, lo]
  }

  function FrameToken(m: Message): Token {
    Token(match m case Ack => ACK case Nak => NAK case Packet(_, _, _) => PACKET, Frame(m))
  }

  function FrameAll(ms: seq<Message>): seq<byte> {
    if ms == [] then [] else Frame(ms[0]) + FrameAll(ms[1..])
  }

  function FrameTokens(ms: seq<Message>): seq<Token> {
    if ms == [] then [] else [FrameToken(ms[0])] + FrameTokens(ms[1..])
  }

  lemma PacketFrame(m: Message)
    requires m.Packet? && ValidMessage(m)
    ensures IsPacket(Frame(m))
  {
    var w := Frame(m);
    forall i | 1 <= i < |w| - 3 ensures w[i] != DOLLAR && w[i] != HASH {
      assert w[i] == m.body[i - 1];
    }
  }

  lemma NextTokenOfFrame(m: Message, s: seq<byte>)
    requires ValidMessage(m)
    ensures NextToken(Frame(m) + s) == FrameToken(m)
  {
    var w := Frame(m) + s;
    assert w[..|Frame(m)|] == Frame(m);
    if m.Packet? {
      PacketFrame(m);
      PacketPrefix(w, Frame(m));
    }
  }

  /** Round trip: scanning framed messages gives those messages back, one token each. */
  lemma {:induction false} FramingRoundTrip(ms: seq<Message>)
    requires forall m :: m in ms ==> ValidMessage(m)
    ensures Tokenise(FrameAll(ms)) == FrameTokens(ms)
  {
    if ms != [] {
      NextTokenOfFrame(ms[0], FrameAll(ms[1..]));
      FramingRoundTrip(ms[1..]);
      var f := Frame(ms[0]);
      assert FrameAll(ms)[|f|..] == FrameAll(ms[1..]);
    }
  }

  // ----- work

  /** Transitions the match loop makes on bytes of s before it decides the first token. */
  function Cost(s: seq<byte>): (n: nat)
    requires s != []
    ensures n <= |s|
  {
    if s[0] != DOLLAR then 1
    else
      var j := BodyEnd(s, 1);
      if j == |s| then j
      else if s[j] == DOLLAR || j + 1 == |s| then j + 1
      else if !IsHex(s[j + 1]) || j + 2 == |s| then j + 2
      else j + 3
  }

  function Work(s: seq<byte>): nat
    decreases |s|
  {
    if s == [] then 0 else Cost(s) + Work(s[|NextToken(s).text|..])
  }

  lemma WorkFront(s: seq<byte>)
    requires s != []
    ensures Work(s) == Cost(s) + Work(s[|NextToken(s).text|..])
  {
  }

  /** The bytes in front of the first dollar: each of them will cost one transition only. */
  function DollarFree(s: seq<byte>): (n: nat)
    ensures n <= |s| && (n < |s| ==> s[n] == DOLLAR)
    ensures forall k :: 0 <= k < n ==> s[k] != DOLLAR
  {
    if s == [] || s[0] == DOLLAR then 0 else 1 + DollarFree(s[1..])
  }

  /** An attempt that ends in a lone dollar reads at most up to the next dollar. */
  lemma FailedAttempt(s: seq<byte>)
    requires s != [] && s[0] == DOLLAR && !PacketAt(s)
    ensures Cost(s) <= DollarFree(s[1..]) + 2
  {
    var k, j := DollarFree(s[1..]), BodyEnd(s, 1);
    assert k < |s| - 1 ==> s[k + 1] == DOLLAR;
  }

  lemma {:induction false} WorkIsLinear(s: seq<byte>)
    ensures Work(s) <= 2 * |s| - DollarFree(s)
    decreases |s|
  {
    hide PacketAt;
    if s != [] {
      var n := |NextToken(s).text|;
      WorkIsLinear(s[n..]);
      if s[0] == DOLLAR {
        if PacketAt(s) {
          PacketCost(s);
        } else {
          FailedAttempt(s);
        }
      }
    }
  }

  /** Every byte costs a transition at least. */
  lemma {:induction false} WorkAtLeast(s: seq<byte>)
    ensures |s| <= Work(s)
    decreases |s|
  {
    hide PacketAt;
    if s != [] {
      WorkAtLeast(s[|NextToken(s).text|..]);
      if PacketAt(s) {
        PacketCost(s);
      }
    }
  }

  lemma PacketCost(s: seq<byte>)
    requires PacketAt(s)
    ensures Cost(s) == |NextToken(s).text|
  {
  }
}
