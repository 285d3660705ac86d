/**
 The token rules of scanner.l as regular expressions, and what the lex specification
 asks of a scanner for them: take the longest match, and of the rules matching that
 much text the one listed first.
 */
module Rules {
  import opened Bytes

  datatype Regex =
    | OneOf(members: set<byte>)
    | NoneOf(excluded: set<byte>)
    | Cat(first: Regex, second: Regex)
    | Star(body: Regex)

  /** w is in the language of r. */
  ghost predicate In(r: Regex, w: seq<byte>)
    decreases r, |w|
  {
    match r
    case OneOf(cs) => |w| == 1 && w[0] in cs
    case NoneOf(cs) => |w| == 1 && w[0] !in cs
    case Cat(a, b) => exists i :: 0 <= i <= |w| && In(a, w[..i]) && In(b, w[i..])
    case Star(a) => w == [] || exists i :: 0 < i <= |w| && In(a, w[..i]) && In(r, w[i..])
  }

  const ACK := 1
  const NAK := 2
  const PACKET := 3
  const ERROR := 4
  const DEFAULT := 5
  const NUM_RULES := 5

  const ANY_BODY := Star(NoneOf({DOLLAR, HASH}))
  const HEX := OneOf(HEX_DIGITS)
  const PACKET_TAIL := Cat(OneOf({HASH}), Cat(HEX, HEX))
  const PACKET_REST := Cat(ANY_BODY, PACKET_TAIL)

  /** The pattern of each rule; the last is the default rule the generator adds. */
  function Pattern(rule: nat): Regex
    requires 1 <= rule <= NUM_RULES
  {
    match rule
    case 1 => OneOf({PLUS})
    case 2 => OneOf({MINUS})
    case 3 => Cat(OneOf({DOLLAR}), PACKET_REST)
    case 4 => NoneOf({NEWLINE})
    case 5 => NoneOf({})
  }

  datatype Token = Token(rule: nat, text: seq<byte>)

  ghost predicate Matches(rule: nat, w: seq<byte>) {
    1 <= rule <= NUM_RULES && w != [] && In(Pattern(rule), w)
  }

  /** t is the token a scanner must take from the front of s. */
  ghost predicate IsBestMatch(s: seq<byte>, t: Token) {
    && Matches(t.rule, t.text) && t.text <= s
    && forall r: nat, w: seq<byte> :: Matches(r, w) && w <= s ==>
         |w| < |t.text| || (|w| == |t.text| && t.rule <= r)
  }

  /** ts cuts the whole of s into best matches, front to back. */
  ghost predicate IsTokenisation(s: seq<byte>, ts: seq<Token>)
    decreases |ts|
  {
    if ts == [] then s == []
    else IsBestMatch(s, ts[0]) && IsTokenisation(s[|ts[0].text|..], ts[1..])
  }

  /** The shape of a packet: dollar, a body without dollar or hash, hash, two hex digits. */
  predicate IsPacket(w: seq<byte>) {
    && |w| >= 4 && w[0] == DOLLAR && w[|w| - 3] == HASH && IsHex(w[|w| - 2]) && IsHex(w[|w| - 1])
    && forall i :: 1 <= i < |w| - 3 ==> w[i] != DOLLAR && w[i] != HASH
  }

  lemma {:induction false} InAnyBody(w: seq<byte>)
    ensures In(ANY_BODY, w) <==> DOLLAR !in w && HASH !in w
    decreases |w|
  {
    var cs := {DOLLAR, HASH};
    if In(ANY_BODY, w) && w != [] {
      var i :| 0 < i <= |w| && In(NoneOf(cs), w[..i]) && In(ANY_BODY, w[i..]);
      InAnyBody(w[i..]);
      assert w == w[..i] + w[i..];
    }
    if w != [] && DOLLAR !in w && HASH !in w {
      InAnyBody(w[1..]);
      assert In(NoneOf(cs), w[..1]);
    }
  }

  lemma InHexPair(w: seq<byte>)
    ensures In(Cat(HEX, HEX), w) <==> |w| == 2 && IsHex(w[0]) && IsHex(w[1])
  {
    if In(Cat(HEX, HEX), w) {
      var i :| 0 <= i <= |w| && In(HEX, w[..i]) && In(HEX, w[i..]);
      HexDigits(w[0]);
      HexDigits(w[1]);
    }
    if |w| == 2 && IsHex(w[0]) && IsHex(w[1]) {
      HexDigits(w[0]);
      HexDigits(w[1]);
      assert In(HEX, w[..1]) && In(HEX, w[1..]);
    }
  }

  lemma InChecksum(w: seq<byte>)
    ensures In(PACKET_TAIL, w) <==> |w| == 3 && w[0] == HASH && IsHex(w[1]) && IsHex(w[2])
  {
    if In(PACKET_TAIL, w) {
      var i :| 0 <= i <= |w| && In(OneOf({HASH}), w[..i]) && In(Cat(HEX, HEX), w[i..]);
      InHexPair(w[i..]);
    }
    if |w| == 3 && w[0] == HASH && IsHex(w[1]) && IsHex(w[2]) {
      InHexPair(w[1..]);
      assert In(OneOf({HASH}), w[..1]) && In(Cat(HEX, HEX), w[1..]);
    }
  }

  lemma InPacketRest(u: seq<byte>)
    ensures In(PACKET_REST, u) <==>
              |u| >= 3 && In(ANY_BODY, u[..|u| - 3]) && In(PACKET_TAIL, u[|u| - 3..])
  {
    if In(PACKET_REST, u) {
      var j :| 0 <= j <= |u| && In(ANY_BODY, u[..j]) && In(PACKET_TAIL, u[j..]);
      InChecksum(u[j..]);
    }
  }

  /** The regular expression of rule 3 describes exactly the packets. */
  lemma PacketRule(w: seq<byte>)
    ensures Matches(PACKET, w) <==> IsPacket(w)
  {
    hide In;
    if w != [] {
      var u := w[1..];
      InPacketCat(w);
      InPacketRest(u);
      if |u| >= 3 {
        InAnyBody(u[..|u| - 3]);
        InChecksum(u[|u| - 3..]);
        assert forall k :: 1 <= k < |w| - 3 ==> w[k] == u[..|u| - 3][k - 1];
      }
    }
  }

  lemma InPacketCat(w: seq<byte>)
    requires w != []
    ensures In(Pattern(PACKET), w) <==> w[0] == DOLLAR && In(PACKET_REST, w[1..])
  {
    assert w[..1] == [w[0]];
    assert In(OneOf({DOLLAR}), w[..1]) <==> w[0] == DOLLAR;
    if In(Pattern(PACKET), w) {
      var i :| 0 <= i <= |w| && In(OneOf({DOLLAR}), w[..i]) && In(PACKET_REST, w[i..]);
      assert i == 1;
    }
  }
}
