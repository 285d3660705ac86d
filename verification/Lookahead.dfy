/**
 What is pending when the scanner calls read(): it depends on the bytes delivered alone, not
 on how they were cut, and a NUL can be pending in exactly one way.
 */
module Lookahead {
  import opened Bytes
  import opened Rules
  import opened Tokeniser
  import opened Automaton
  import opened Session
  import opened MatchLoop
  import opened History

  /** The longest suffix that the scanner may have to wait with. */
  ghost function Residue(d: seq<byte>): (p: seq<byte>)
    ensures Waiting(p) && |p| <= |d| && p == d[|d| - |p|..]
    decreases |d|
  {
    if Waiting(d) then d else Residue(d[1..])
  }

  /** No longer suffix waits. */
  lemma {:induction false} ResidueIsLongest(d: seq<byte>, i: nat)
    requires i <= |d| && Waiting(d[i..])
    ensures |d| - i <= |Residue(d)|
    decreases |d|
  {
    hide Waiting;
    if i > 0 && !Waiting(d) {
      assert d[1..][i - 1..] == d[i..];
      ResidueIsLongest(d[1..], i - 1);
    }
  }

  lemma {:induction false} ResidueSkips(d: seq<byte>, k: nat)
    requires k <= |d| && forall i :: 0 <= i < k ==> !Waiting(d[i..])
    ensures Residue(d) == Residue(d[k..])
    decreases k
  {
    hide Waiting;
    if k > 0 {
      assert d[0..] == d;
      forall i | 0 <= i < k - 1
        ensures !Waiting(d[1..][i..])
      {
        assert d[1..][i..] == d[i + 1..];
      }
      ResidueSkips(d[1..], k - 1);
      assert d[1..][k - 1..] == d[k..];
    }
  }

  /** Text that waits is a single NUL or begins with its only dollar. */
  lemma WaitingText(w: seq<byte>)
    requires Waiting(w) && w != [] && w != [NUL]
    ensures w[0] == DOLLAR && forall i :: 1 <= i < |w| ==> w[i] != DOLLAR
  {
    LiveText(w);
    var p :| IsPacket(p) && w < p;
  }

  lemma WaitingFront(w: seq<byte>, c: seq<byte>)
    requires w != [] && Waiting(w + c)
    ensures Waiting(w)
  {
    if Live(w + c) {
      LivePrefix(w + c, |w|);
      assert (w + c)[..|w|] == w;
    }
  }

  lemma TokenTail(t: Token, rest: seq<byte>, c: seq<byte>, i: nat)
    requires IsToken(t) && !Waiting(t.text + rest) && i < |t.text|
    ensures !Waiting((t.text + rest + c)[i..])
  {
    var w := (t.text + rest + c)[i..];
    hide Waiting;
    if i == 0 {
      assert w == (t.text + rest) + c;
      if Waiting(w) {
        WaitingFront(t.text + rest, c);
      }
    } else if Waiting(w) {
      assert w[0] == t.text[i] != DOLLAR;
      if w != [NUL] {
        WaitingText(w);
      }
    }
  }

  /** A token acted on when the text held need not wait leaves no trace in what will be pending. */
  lemma DecidedToken(t: Token, rest: seq<byte>, c: seq<byte>)
    requires IsToken(t) && !Waiting(t.text + rest)
    ensures Residue(t.text + rest + c) == Residue(rest + c)
  {
    hide Waiting, Residue, IsToken;
    var d := t.text + rest + c;
    forall i | 0 <= i < |t.text|
      ensures !Waiting(d[i..])
    {
      TokenTail(t, rest, c, i);
    }
    ResidueSkips(d, |t.text|);
    assert d[|t.text|..] == rest + c;
  }

  /** While the end is not known, what may be pending depends on the bytes delivered alone. */
  lemma {:induction false} RunResidue(plan: seq<nat>, first: seq<byte>, tr: seq<Event>, backlog: seq<byte>, c: seq<byte>)
    requires Orderly(plan, first, tr, backlog) && !EndKnown(tr)
    ensures Residue(first + Delivered(tr) + c) == Residue(backlog + c)
    decreases |tr|
  {
    hide Residue, Waiting, IsToken;
    if tr == [] {
      assert first + Delivered(tr) == first;
    } else {
      var before := tr[..|tr| - 1];
      match tr[|tr| - 1]
      case ReadCall(_, pending, chunk) =>
        RunResidue(plan, first, before, pending, chunk + c);
        assert first + Delivered(tr) + c == first + Delivered(before) + (chunk + c);
        assert backlog + c == pending + (chunk + c);
      case Action(t, held) =>
        RunResidue(plan, first, before, held, c);
        DecidedToken(t, backlog, c);
    }
  }

  /** At every read() the longest waiting suffix of what has been delivered is pending, however it was cut. */
  lemma PendingIsResidue(plan: seq<nat>, first: seq<byte>, tr: seq<Event>, backlog: seq<byte>, i: nat)
    requires Orderly(plan, first, tr, backlog) && i < |tr| && tr[i].ReadCall?
    ensures tr[i].pending == Residue(first + Delivered(tr[..i]))
  {
    var b := EarlierIsOrderly(plan, first, tr, backlog, i);
    RunResidue(plan, first, tr[..i], b, []);
    assert first + Delivered(tr[..i]) + [] == first + Delivered(tr[..i]) && b + [] == b;
  }

  // ----- the NUL that waits

  /** d ends inside the body of a packet: its last dollar or hash is a dollar. */
  predicate InBody(d: seq<byte>)
    decreases |d|
  {
    d != [] && (d[|d| - 1] == DOLLAR || (d[|d| - 1] != HASH && InBody(d[..|d| - 1])))
  }

  /** Byte k is a NUL outside the body of a packet. */
  predicate LoneNul(s: seq<byte>, k: nat) {
    k < |s| && s[k] == NUL && !InBody(s[..k])
  }

  lemma {:induction false} InBodyFrom(d: seq<byte>) returns (j: nat)
    requires InBody(d)
    ensures j < |d| && d[j] == DOLLAR && forall i :: j < i < |d| ==> d[i] != DOLLAR && d[i] != HASH
    decreases |d|
  {
    if d[|d| - 1] == DOLLAR {
      j := |d| - 1;
    } else {
      j := InBodyFrom(d[..|d| - 1]);
    }
  }

  lemma {:induction false} FromInBody(d: seq<byte>, j: nat)
    requires j < |d| && d[j] == DOLLAR && forall i :: j < i < |d| ==> d[i] != DOLLAR && d[i] != HASH
    ensures InBody(d)
    decreases |d|
  {
    if j < |d| - 1 {
      FromInBody(d[..|d| - 1], j);
    }
  }

  /** A NUL in the body of a packet waits with the packet. */
  lemma BodyNulWaits(d: seq<byte>)
    requires InBody(d)
    ensures |Residue(d + [NUL])| > 1
  {
    var j := InBodyFrom(d);
    var w := (d + [NUL])[j..];
    var p := w + [HASH, 48, 48];
    assert IsPacket(p) && w < p;
    LiveText(w);
    ResidueIsLongest(d + [NUL], j);
  }

  lemma WaitingBody(w: seq<byte>)
    requires |w| > 1 && Waiting(w) && w[|w| - 1] == NUL
    ensures w[0] == DOLLAR && forall i :: 0 < i < |w| - 1 ==> w[i] != DOLLAR && w[i] != HASH
  {
    LiveText(w);
    var p :| IsPacket(p) && w < p;
    assert p[|w| - 1] == NUL;
  }

  /** After a NUL, that NUL alone is pending if and only if it is outside the bodies of packets. */
  lemma NulPends(d: seq<byte>)
    ensures Residue(d + [NUL]) == [NUL] <==> !InBody(d)
  {
    var s, p := d + [NUL], Residue(d + [NUL]);
    if InBody(d) {
      BodyNulWaits(d);
    } else {
      assert s[|d|..] == [NUL];
      ResidueIsLongest(s, |d|);
      if |p| > 1 {
        WaitingBody(p);
        FromInBody(d, |s| - |p|);
      }
    }
  }

  ghost predicate ReadsOverNul(tr: seq<Event>, i: nat) {
    i < |tr| && tr[i].ReadCall? && tr[i].pending == [NUL]
  }

  /** A read() is made over a NUL if and only if what has been delivered ends in a lone one. */
  lemma ReadOverNulIff(plan: seq<nat>, first: seq<byte>, tr: seq<Event>, backlog: seq<byte>, i: nat)
    requires Orderly(plan, first, tr, backlog) && i < |tr| && tr[i].ReadCall?
    ensures var d := first + Delivered(tr[..i]); ReadsOverNul(tr, i) <==> d != [] && LoneNul(d, |d| - 1)
  {
    hide Residue;
    var d := first + Delivered(tr[..i]);
    PendingIsResidue(plan, first, tr, backlog, i);
    if d != [] && d[|d| - 1] == NUL {
      assert d == d[..|d| - 1] + [NUL];
      NulPends(d[..|d| - 1]);
    }
  }

  // ----- every cut of the input

  lemma {:induction false} SawEofIsKnown(tr: seq<Event>)
    requires SawEof(tr)
    ensures EndKnown(tr)
    decreases |tr|
  {
    hide Waiting;
    if SawEof(tr[..|tr| - 1]) {
      SawEofIsKnown(tr[..|tr| - 1]);
    }
  }

  /** Under the empty plan, which delivers one byte at a time, there is a read() behind every prefix of the input. */
  lemma {:induction false} ReadBehind(tr: seq<Event>, backlog: seq<byte>, m: nat) returns (i: nat)
    requires Orderly([], [], tr, backlog)
    requires m < |Delivered(tr)| || (m == |Delivered(tr)| && SawEof(tr))
    ensures i < |tr| && tr[i].ReadCall? && Delivered(tr[..i]) <= Delivered(tr) && |Delivered(tr[..i])| == m
    decreases |tr|
  {
    hide Waiting, IsToken;
    var n := |tr| - 1;
    var earlier := match tr[n] case ReadCall(_, pending, _) => pending case Action(_, held) => held;
    if tr[n].ReadCall? && m == |Delivered(tr[..n])| {
      i := n;
    } else {
      if SawEof(tr[..n]) {
        SawEofIsKnown(tr[..n]);
      }
      i := ReadBehind(tr[..n], earlier, m);
      assert tr[..n][..i] == tr[..i];
    }
  }

  /** Whatever the plan, a read() over a NUL means that the input has a lone one. */
  lemma {:induction false} ReadOverNulNeeds(plan: seq<nat>, tr: seq<Event>, backlog: seq<byte>, i: nat)
    requires Orderly(plan, [], tr, backlog) && ReadsOverNul(tr, i)
    ensures exists k: nat :: LoneNul(Delivered(tr), k)
  {
    ReadOverNulIff(plan, [], tr, backlog, i);
    DeliveredGrows(tr, i);
    var d := Delivered(tr[..i]);
    assert [] + d == d && Delivered(tr)[..|d|] == d && d[..|d| - 1] == Delivered(tr)[..|d| - 1];
    assert LoneNul(Delivered(tr), |d| - 1);
  }

  /** And under the empty plan a lone NUL means a read() over it. */
  lemma LoneNulIsReadOver(tr: seq<Event>, k: nat) returns (i: nat)
    requires Orderly([], [], tr, []) && SawEof(tr) && LoneNul(Delivered(tr), k)
    ensures ReadsOverNul(tr, i)
  {
    i := ReadBehind(tr, [], k + 1);
    var d := Delivered(tr[..i]);
    assert Delivered(tr)[..|d|] == d && [] + d == d && Delivered(tr)[..k] == d[..k];
    ReadOverNulIff([], [], tr, [], i);
  }

  /** The read() that reports the end of the input is made behind all of it. */
  lemma {:induction false} ReadAtEnd(plan: seq<nat>, tr: seq<Event>, backlog: seq<byte>) returns (i: nat)
    requires Orderly(plan, [], tr, backlog) && SawEof(tr)
    ensures i < |tr| && tr[i].ReadCall? && Delivered(tr[..i]) == Delivered(tr)
    decreases |tr|
  {
    hide Waiting, IsToken;
    var n := |tr| - 1;
    if tr[n].ReadCall? && tr[n].chunk == [] {
      i := n;
    } else {
      SawEofIsKnown(tr[..n]);
      i := ReadAtEnd(plan, tr[..n], tr[n].held);
      assert tr[..n][..i] == tr[..i];
    }
  }

  /** If the input ends in a lone NUL, every plan calls read() over it. */
  lemma LastReadIsOver(plan: seq<nat>, tr: seq<Event>) returns (i: nat)
    requires Orderly(plan, [], tr, []) && SawEof(tr)
    requires var d := Delivered(tr); d != [] && LoneNul(d, |d| - 1)
    ensures ReadsOverNul(tr, i)
  {
    i := ReadAtEnd(plan, tr, []);
    assert [] + Delivered(tr) == Delivered(tr);
    ReadOverNulIff(plan, [], tr, [], i);
  }

  lemma {:induction false} DeliveredGrows(tr: seq<Event>, i: nat)
    requires i <= |tr|
    ensures Delivered(tr[..i]) <= Delivered(tr)
    decreases |tr|
  {
    if i == |tr| {
      assert tr[..i] == tr;
    } else {
      DeliveredGrows(tr[..|tr| - 1], i);
      assert tr[..|tr| - 1][..i] == tr[..i];
    }
  }

  /**
   No look-ahead: when read() is called, everything delivered has been acted on but for a
   proper prefix of a packet, or nothing; or else for a NUL alone, which is then the last byte
   delivered and outside the bodies of packets.
   */
  lemma NoLookAhead(plan: seq<nat>, first: seq<byte>, tr: seq<Event>, backlog: seq<byte>, i: nat)
    requires Orderly(plan, first, tr, backlog) && i < |tr| && tr[i].ReadCall?
    ensures var d := first + Delivered(tr[..i]);
            && d == Texts(Actions(tr[..i])) + tr[i].pending
            && if d != [] && LoneNul(d, |d| - 1) then tr[i].pending == [NUL]
               else tr[i].pending == [] || exists p :: IsPacket(p) && tr[i].pending < p
  {
    var b := EarlierIsOrderly(plan, first, tr, backlog, i);
    Conservation(plan, first, tr[..i], b);
    ReadOverNulIff(plan, first, tr, backlog, i);
    LiveText(b);
  }

  /** The simplest such input, and one in which the NUL comes after text that still could have been a packet. */
  lemma LoneNulExamples()
    ensures LoneNul([NUL], 0)
    ensures Live([DOLLAR, HASH]) && LoneNul([DOLLAR, HASH, NUL], 2)
    ensures forall k: nat :: !LoneNul([DOLLAR, NUL, HASH, 48, 48], k)
  {
    var s: seq<byte> := [DOLLAR, HASH, NUL];
    assert s[..2] == [DOLLAR, HASH] && !InBody(s[..2]);
    var p: seq<byte> := [DOLLAR, HASH, 48, 48];
    assert IsPacket(p) && [DOLLAR, HASH] < p;
    LiveText([DOLLAR, HASH]);
    var t: seq<byte> := [DOLLAR, NUL, HASH, 48, 48];
    assert t[..1] == [DOLLAR] && InBody(t[..1]);
  }
}
