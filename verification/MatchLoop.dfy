/**
 The match loop of yylex on the contents of a buffer: the text that may wait in it, how
 the loop can end, and what each ending settles about the input being scanned.
 */
module MatchLoop {
  import opened Bytes
  import opened Rules
  import opened Tables
  import opened Tokeniser
  import opened Automaton

  // ----- text waiting in the buffer

  /** Text the scanner may hold while it waits for more: live text, or a single NUL byte. */
  ghost predicate Waiting(p: seq<byte>) {
    Live(p) || p == [NUL]
  }

  /** p is waiting text, s the state it leads to, and a back-up would return to its first byte. */
  ghost predicate Resumable(p: seq<byte>, s: nat, bp: nat, lastState: nat, lastCpos: nat) {
    Waiting(p) && s == Run(p) && (|p| >= 2 ==> lastState == 6 && lastCpos == bp + 1)
  }

  lemma WaitingState(p: seq<byte>)
    requires Waiting(p)
    ensures p == [NUL] ==> Run(p) == 4
    ensures p != [NUL] ==> Run(p) in {1, 6, 9, 10, 11} && (|p| == 1 <==> Run(p) == 6)
    ensures Accept(Run(p)) == if |p| == 1 then ERROR else 0
  {
    if p == [NUL] {
      RunShape(p);
    } else if p != [] {
      LivePrefix(p, |p|);
      assert p[..|p|] == p;
    }
  }

  /** A real NUL either keeps the text waiting or jams. */
  lemma NulStep(p: seq<byte>, s: nat)
    requires Waiting(p) && s == Run(p)
    ensures IsState(s) && (Delta(s, 1) == JAM_STATE ==> p != [])
    ensures Delta(s, 1) != JAM_STATE ==> Waiting(p + [NUL]) && Run(p + [NUL]) == Delta(s, 1)
    ensures Accept(s) != 0 ==> |p| == 1 && (Delta(s, 1) != JAM_STATE ==> s == 6)
  {
    WaitingState(p);
    RunStep(p, NUL);
  }

  lemma WaitingPrefix(p: seq<byte>, k: nat)
    requires Waiting(p) && k <= |p|
    ensures Waiting(p[..k])
  {
    if k > 0 && Live(p) {
      LivePrefix(p, k);
    }
    assert p[..|p|] == p;
  }

  /** One round of the replay loop over p, which starts at bp. */
  lemma ReplayRound(p: seq<byte>, k: nat, s: nat, bp: nat, lastState: nat, lastCpos: nat)
    requires Waiting(p) && k < |p| && Resumable(p[..k], s, bp, lastState, lastCpos)
    ensures var (ls, lc) := if Accept(s) != 0 then (s, bp + k) else (lastState, lastCpos);
            Resumable(p[..k + 1], Delta(s, TextClass(p[k])), bp, ls, lc)
  {
    WaitingPrefix(p, k + 1);
    WaitingState(p[..k]);
    assert p[..k + 1] == p[..k] + [p[k]];
    RunStep(p[..k], p[k]);
    if k == 1 {
      WaitingState(p[..2]);
      WaitingPrefix(p, 1);
      assert p[..2][..1] == p[..1];
    }
  }

  // ----- how the match loop can end, for buffer contents buf with n characters of text

  ghost predicate Accepted(buf: seq<byte>, n: nat, bp: nat, cp: nat, s: nat) {
    bp < cp <= n <= |buf| && buf[cp - 1] != NUL && s == Run(buf[bp..cp]) && Stops(s) && s != JAM_STATE
  }

  ghost predicate Jammed(buf: seq<byte>, n: nat, bp: nat, cp: nat, s: nat, lastState: nat, lastCpos: nat) {
    && bp + 1 < cp <= n <= |buf| && s == Run(buf[bp..cp]) == JAM_STATE && Live(buf[bp..cp - 1])
    && lastState == 6 && lastCpos == bp + 1
  }

  ghost predicate NulJammed(buf: seq<byte>, n: nat, bp: nat, s: nat, lastState: nat, lastCpos: nat) {
    && bp + 1 < n <= |buf| && buf[bp] == NUL && s == JAM_STATE
    && lastState == 4 && lastCpos == bp + 1
  }

  ghost predicate HitNul(buf: seq<byte>, n: nat, bp: nat, cp: nat, s: nat, lastState: nat, lastCpos: nat) {
    && bp + 2 <= cp <= n + 2 <= |buf| && buf[cp - 2] == NUL && Waiting(buf[bp..cp - 2]) && s == JAM_STATE
    && lastState == EOB_STATE && lastCpos == cp - 1
  }

  /** The match loop goes on at buf[cp] in state s. */
  ghost predicate Matching(buf: seq<byte>, n: nat, bp: nat, cp: nat, s: nat, lastState: nat, lastCpos: nat) {
    && bp <= cp <= n + 1 < |buf|
    && if s == EOB_STATE then bp < cp && buf[cp - 1] == NUL && Waiting(buf[bp..cp - 1])
       else cp <= n && Resumable(buf[bp..cp], s, bp, lastState, lastCpos)
  }

  /** The match loop has stopped in front of buf[cp] in state s. */
  ghost predicate Matched(buf: seq<byte>, n: nat, bp: nat, cp: nat, s: nat, lastState: nat, lastCpos: nat) {
    || Accepted(buf, n, bp, cp, s)
    || Jammed(buf, n, bp, cp, s, lastState, lastCpos)
    || NulJammed(buf, n, bp, s, lastState, lastCpos)
    || HitNul(buf, n, bp, cp, s, lastState, lastCpos)
  }

  /** One round of the match loop. */
  lemma MatchRound(buf: seq<byte>, n: nat, bp: nat, cp: nat, s: nat, lastState: nat, lastCpos: nat)
    requires Matching(buf, n, bp, cp, s, lastState, lastCpos) && buf[n] == buf[n + 1] == NUL && IsState(s)
    ensures var t := Delta(s, ByteClass(buf[cp]));
            var (ls, lc) := if Accept(s) != 0 then (s, cp) else (lastState, lastCpos);
            if Stops(t) then Matched(buf, n, bp, cp + 1, t, ls, lc) && (t == JAM_STATE && ls == EOB_STATE ==> s == EOB_STATE)
            else Matching(buf, n, bp, cp + 1, t, ls, lc) && cp <= n
  {
    var p, c := buf[bp..cp], buf[cp];
    if s != EOB_STATE {
      WaitingState(p);
      if c != NUL {
        var q := buf[bp..cp + 1];
        assert q == p + [c] && buf[bp..cp + 1 - 1] == p;
        RunStep(p, c);
        assert Live(q) || Stops(Run(q));
      }
    } else {
      assert buf[bp..cp + 1 - 2] == buf[bp..cp - 1];
    }
  }

  // ----- what an ending of the match loop means for the input

  /** The rule and end position that yy_find_action settles on. */
  ghost function Found(s: nat, cp: nat, lastState: nat, lastCpos: nat): (nat, nat)
    requires IsState(s) && (Accept(s) == 0 ==> IsState(lastState))
  {
    if Accept(s) == 0 then (Accept(lastState), lastCpos) else (Accept(s), cp)
  }

  /** An input still to be scanned, with its next token and what the match loop should spend on it. */
  datatype Goal = Goal(rem: seq<byte>, next: Token, cost: nat)

  ghost predicate IsGoal(g: Goal) {
    g.rem != [] ==> g.next == NextToken(g.rem) && g.cost == Cost(g.rem)
  }

  ghost function GoalFor(rem: seq<byte>): (g: Goal)
    ensures IsGoal(g) && g.rem == rem
    ensures rem != [] ==> g.next == NextToken(rem) && g.cost == Cost(rem)
  {
    if rem == [] then Goal(rem, Token(0, []), 0) else Goal(rem, NextToken(rem), Cost(rem))
  }

  /**
   What the ending of the match loop settles: either it has found the next token of the
   input, or the byte before the position found is an end-of-buffer byte behind waiting
   text. Unless there are NULs, read counts the bytes of text scanned.
   */
  ghost predicate Settled(buf: seq<byte>, n: nat, bp: nat, act: nat, e: nat, g: Goal, read: int) {
    && bp < e <= n + 1 && e < |buf|
    && if act == END_OF_BUFFER then
         buf[e - 1] == NUL && Waiting(buf[bp..e - 1]) && (NUL !in g.rem ==> read == e - 1 - bp)
       else
         e <= n && g.next == Token(act, buf[bp..e]) && g.rem != [] && (NUL !in g.rem ==> read == g.cost)
  }

  /** Unless it has run into an end-of-buffer byte, the match loop ends on text that need not wait. */
  lemma MatchedDecides(buf: seq<byte>, n: nat, bp: nat, cp: nat, s: nat, ls: nat, lc: nat)
    requires Matched(buf, n, bp, cp, s, ls, lc) && bp <= n <= |buf|
    ensures HitNul(buf, n, bp, cp, s, ls, lc) || !Waiting(buf[bp..n])
  {
    var p := buf[bp..n];
    if bp < cp <= n {
      assert p[..cp - bp] == buf[bp..cp];
    }
    if Live(p) {
      if bp < cp <= n {
        LivePrefix(p, cp - bp);
      }
      LiveText(p);
    }
  }

  lemma MatchedSettles(buf: seq<byte>, n: nat, bp: nat, cp: nat, s: nat, ls: nat, lc: nat, g: Goal, read: int)
    requires NUL !in g.rem ==> read == Min(cp, n) - bp
    requires Matched(buf, n, bp, cp, s, ls, lc) && IsState(s) && bp <= n && n + 2 <= |buf|
    requires buf[bp..n] <= g.rem && IsGoal(g)
    ensures Accept(s) == 0 ==> IsState(ls) && Accept(ls) != 0
    ensures Settled(buf, n, bp, Found(s, cp, ls, lc).0, Found(s, cp, ls, lc).1, g, read)
    ensures Found(s, cp, ls, lc).0 != END_OF_BUFFER ==> !Waiting(buf[bp..n])
  {
    hide Run, Live, Cost, NextToken, Waiting;
    MatchedDecides(buf, n, bp, cp, s, ls, lc);
    assert buf[bp..n] <= g.rem;
    if Accepted(buf, n, bp, cp, s) {
      assert buf[bp..cp] == buf[bp..n][..cp - bp] == g.rem[..cp - bp];
      AcceptDecides(buf[bp..cp], g.rem);
    } else if Jammed(buf, n, bp, cp, s, ls, lc) {
      JamSettles(buf, n, bp, cp, g);
    } else if NulJammed(buf, n, bp, s, ls, lc) {
      NulSettles(buf, n, bp, g);
    } else if cp - 2 < n {
      assert g.rem[cp - 2 - bp] == buf[bp..n][cp - 2 - bp] == NUL;
    }
  }

  lemma JamSettles(buf: seq<byte>, n: nat, bp: nat, cp: nat, g: Goal)
    requires bp + 1 < cp <= n <= |buf| && Run(buf[bp..cp]) == JAM_STATE && Live(buf[bp..cp - 1])
    requires buf[bp..n] <= g.rem && IsGoal(g)
    ensures g.next == Token(ERROR, buf[bp..bp + 1]) && g.cost == cp - bp
  {
    hide Run, Live, Cost, NextToken;
    var w := buf[bp..cp];
    assert w == buf[bp..n][..cp - bp] == g.rem[..cp - bp];
    assert w[..|w| - 1] == buf[bp..cp - 1];
    JamDecides(w, g.rem);
    assert g.rem[..1] == w[..1] == buf[bp..bp + 1];
  }

  lemma NulSettles(buf: seq<byte>, n: nat, bp: nat, g: Goal)
    requires bp < n <= |buf| && buf[bp] == NUL && buf[bp..n] <= g.rem && IsGoal(g)
    ensures NUL in g.rem && g.next == Token(ERROR, buf[bp..bp + 1])
  {
    assert g.rem[0] == buf[bp..n][0] == NUL;
    assert g.rem[..1] == buf[bp..bp + 1];
  }

  /** Waiting text that nothing can extend, or that a NUL jams, settles the next token too. */
  lemma WaitingSettles(buf: seq<byte>, n: nat, bp: nat, cp: nat, s: nat, ls: nat, lc: nat, g: Goal, read: int)
    requires bp < cp <= n && n + 2 <= |buf| && Resumable(buf[bp..cp], s, bp, ls, lc)
    requires || g.rem == buf[bp..cp]
             || (buf[bp..cp] + [NUL] <= g.rem && Delta(s, 1) == JAM_STATE)
    requires IsGoal(g) && (NUL !in g.rem ==> read == cp - bp)
    ensures Accept(s) == 0 ==> IsState(ls) && Accept(ls) != 0
    ensures Found(s, cp, ls, lc) == (ERROR, bp + 1)
    ensures Settled(buf, n, bp, Found(s, cp, ls, lc).0, Found(s, cp, ls, lc).1, g, read)
  {
    var p, rem := buf[bp..cp], g.rem;
    WaitingState(p);
    assert rem[..1] == p[..1] == buf[bp..bp + 1];
    if p == [NUL] {
      assert rem[0] == NUL;
    } else if rem == p {
      EndDecides(p);
    } else {
      RunStep(p, NUL);
      assert (p + [NUL])[..|p|] == p;
      JamDecides(p + [NUL], rem);
    }
  }

  /** Text in which a NUL jams need not wait. */
  lemma NulDecides(w: seq<byte>, p: seq<byte>, s: nat)
    requires p + [NUL] <= w && Waiting(p) && s == Run(p) && Delta(s, 1) == JAM_STATE
    ensures !Waiting(w)
  {
    NulStep(p, s);
    RunStep(p, NUL);
    assert w[..|p| + 1] == p + [NUL];
    if Live(w) {
      LivePrefix(w, |p| + 1);
    }
  }

  /** A real NUL behind waiting text: it is consumed, or it settles the next token. */
  lemma NulOutcome(buf: seq<byte>, n: nat, bp: nat, cp: nat, s: nat, ls: nat, lc: nat, g: Goal, read: int)
    requires bp <= cp < n && n + 2 <= |buf| && buf[cp] == NUL && Resumable(buf[bp..cp], s, bp, ls, lc)
    requires buf[bp..n] <= g.rem && IsGoal(g)
    ensures var (ls', lc') := if Accept(s) != 0 then (s, cp) else (ls, lc);
            if Delta(s, 1) != JAM_STATE then Resumable(buf[bp..cp + 1], Delta(s, 1), bp, ls', lc')
            else
              && (Accept(s) == 0 ==> IsState(ls') && Accept(ls') != 0)
              && Found(s, cp, ls', lc').0 != END_OF_BUFFER
              && Settled(buf, n, bp, Found(s, cp, ls', lc').0, Found(s, cp, ls', lc').1, g, read)
              && !Waiting(buf[bp..n])
    ensures NUL in g.rem
  {
    var p := buf[bp..cp];
    assert p + [NUL] == buf[bp..cp + 1] == buf[bp..n][..cp + 1 - bp];
    assert g.rem[cp - bp] == buf[bp..n][cp - bp] == NUL;
    NulStep(p, s);
    if Delta(s, 1) == JAM_STATE {
      NulDecides(buf[bp..n], p, s);
      WaitingState(p);
      WaitingSettles(buf, n, bp, cp, s, ls, lc, g, read);
    }
  }

  function Min(a: int, b: int): int {
    if a < b then a else b
  }
}
