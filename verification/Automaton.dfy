/**
 What the automaton of scanner.c does on text, byte for byte, and when a state it has
 reached settles the next token whatever text may follow.
 */
module Automaton {
  import opened Bytes
  import opened Rules
  import opened Tables
  import opened Tokeniser

  /** The class of a byte that is known to be text: a real NUL counts as class 1. */
  function TextClass(b: byte): (c: nat)
    ensures 1 <= c < 8
  {
    if b == NUL then 1 else ByteClass(b)
  }

  /** The state reached from the start on text w. */
  function Run(w: seq<byte>): (s: nat)
    ensures IsState(s)
  {
    if w == [] then START_STATE else Delta(Run(w[..|w| - 1]), TextClass(w[|w| - 1]))
  }

  /** The match loop wants more text after w. */
  predicate Live(w: seq<byte>) {
    Run(w) in {1, 6, 9, 10, 11}
  }

  lemma RunStep(w: seq<byte>, b: byte)
    ensures Run(w + [b]) == Delta(Run(w), TextClass(b))
  {
    assert (w + [b])[..|w|] == w;
  }

  /** Run in closed form. */
  function Shape(w: seq<byte>): nat
    requires w != []
  {
    if |w| == 1 then
      if w[0] == DOLLAR then 6 else if w[0] == NEWLINE then 5
      else if w[0] == PLUS then 7 else if w[0] == MINUS then 8 else 4
    else if w[0] != DOLLAR then JAM_STATE
    else
      var j := BodyEnd(w, 1);
      if j == |w| then 9
      else if w[j] == DOLLAR then JAM_STATE
      else if j + 1 == |w| then 10
      else if !IsHex(w[j + 1]) then JAM_STATE
      else if j + 2 == |w| then 11
      else if !IsHex(w[j + 2]) then JAM_STATE
      else if j + 3 == |w| then 12
      else JAM_STATE
  }

  lemma BodyEndPrefix(w: seq<byte>, s: seq<byte>)
    requires 1 <= |w| && w <= s
    ensures BodyEnd(w, 1) < |w| ==> BodyEnd(s, 1) == BodyEnd(w, 1)
    ensures BodyEnd(w, 1) == |w| ==> |w| <= BodyEnd(s, 1)
  {
    assert s == w + s[|w|..];
    BodyEndAppend(w, s[|w|..], 1);
  }

  lemma {:induction false} RunShape(w: seq<byte>)
    requires w != []
    ensures Run(w) == Shape(w)
    decreases |w|
  {
    var v := w[..|w| - 1];
    if v != [] {
      RunShape(v);
      BodyEndPrefix(v, w);
    }
  }

  /** Live text is empty or a proper prefix of some packet. */
  lemma LiveText(w: seq<byte>)
    ensures Live(w) <==> w == [] || exists p :: IsPacket(p) && w < p
  {
    if w != [] {
      RunShape(w);
      if Live(w) {
        var j := BodyEnd(w, 1);
        var p := if j == |w| then w + [HASH, 48, 48] else if j + 1 == |w| then w + [48, 48] else w + [48];
        assert IsPacket(p) && w < p;
      }
      if p :| IsPacket(p) && w < p {
        PacketPrefix(p, p);
        BodyEndPrefix(w, p);
      }
    }
  }

  /** Text that ends in an accepting stop state is the next token. */
  lemma AcceptDecides(w: seq<byte>, s: seq<byte>)
    requires w != [] && w <= s && Stops(Run(w)) && Run(w) != JAM_STATE
    ensures NextToken(s) == Token(Accept(Run(w)), w) && Cost(s) == |w|
  {
    RunShape(w);
    assert s[..|w|] == w;
    BodyEndPrefix(w, s);
  }

  /** A jam after more than one byte leaves a lone dollar as the next token. */
  lemma JamDecides(w: seq<byte>, s: seq<byte>)
    requires |w| >= 2 && w <= s && Run(w) == JAM_STATE && Live(w[..|w| - 1])
    ensures s[0] == DOLLAR && NextToken(s) == Token(ERROR, s[..1]) && Cost(s) == |w|
  {
    var v := w[..|w| - 1];
    RunShape(w);
    RunShape(v);
    BodyEndPrefix(v, w);
    BodyEndPrefix(w, s);
  }

  /** So does the end of the input after live text. */
  lemma EndDecides(w: seq<byte>)
    requires w != [] && Live(w)
    ensures w[0] == DOLLAR && NextToken(w) == Token(ERROR, w[..1]) && Cost(w) == |w|
  {
    RunShape(w);
  }

  /** Live text of two bytes or more has passed state 6, and no other accepting state, after one byte. */
  lemma LivePrefix(w: seq<byte>, k: nat)
    requires 1 <= k <= |w| && Live(w)
    ensures Live(w[..k]) && Accept(Run(w[..k])) == (if k == 1 then ERROR else 0)
    ensures k == 1 ==> Run(w[..k]) == 6
  {
    RunShape(w);
    RunShape(w[..k]);
    BodyEndPrefix(w[..k], w);
  }

  /** The states' actions are the rules: the earliest rule matching a text, and none if none does. */
  lemma AcceptIsEarliestRule(w: seq<byte>)
    requires w != []
    ensures Accept(Run(w)) == 0 <==> forall r: nat :: !Matches(r, w)
    ensures Accept(Run(w)) != 0 ==> Matches(Accept(Run(w)), w) && forall r: nat :: Matches(r, w) ==> Accept(Run(w)) <= r
  {
    RunShape(w);
    PacketRule(w);
    if IsPacket(w) {
      PacketPrefix(w, w);
    }
    assert Run(w) == 12 <==> IsPacket(w);
    if |w| == 1 {
      assert In(Pattern(Accept(Run(w))), w);
    }
    assert Accept(Run(w)) != 0 ==> Matches(Accept(Run(w)), w);
    forall r: nat | Matches(r, w) && r != PACKET
      ensures |w| == 1 && SingleRule(w[0]) <= r
    {
      ShortMatch(r, w);
    }
  }
}
