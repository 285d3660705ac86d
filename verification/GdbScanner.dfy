/** Whole scans: gdb_scanner and scanning a string, with the order of reads and actions. */
module GdbScanner {
  import opened Bytes
  import opened Tokeniser
  import opened Session
  import opened History
  import opened Lookahead
  import opened Scanner

  /**
   gdb_scanner on a connection, whatever its plan. The session's effects are those of the
   input, all of which is delivered; a read() over a NUL means that the input has a lone one.
   The bound on work is for the transitions of the match loop alone: what GetPreviousState
   replays after every refill is not in it, and grows with the pending text and the number of
   read() calls.
   */
  method ScanConnection(connection: Input) returns (data: ParserData, scanner: Guts)
    modifies connection
    ensures fresh(data) && fresh(scanner) && data.Valid() && data.effects == SessionEffects(old(connection.rest))
    ensures connection.rest == []
    ensures Actions(scanner.trace) == Tokenise(old(connection.rest)) && Delivered(scanner.trace) == old(connection.rest)
    ensures Orderly(connection.plan, [], scanner.trace, []) && SawEof(scanner.trace)
    ensures NUL !in old(connection.rest) ==> |old(connection.rest)| <= scanner.work <= 2 * |old(connection.rest)|
    ensures forall i: nat :: ReadsOverNul(scanner.trace, i) ==> exists k: nat :: LoneNul(old(connection.rest), k)
  {
    ghost var content := connection.rest;
    SessionFacts(content);
    hide Tokenise, PerformAll, Actions, Work, Flush, Orderly, SawEof, IsToken, SessionEffects, LoneNul,
      Guts.AtRest, Guts.Restored, Guts.StackOk;
    data := new ParserData();
    scanner := new Guts(data, connection);
    scanner.YyLex();
    HistoryFacts(connection.plan, scanner.trace, content);
  }

  lemma SessionFacts(s: seq<byte>)
    ensures forall t :: t in Tokenise(s) ==> IsToken(t)
    ensures Flush(PerformAll(Batch([], []), Tokenise(s))).done == SessionEffects(s)
    ensures |s| <= Work(s) <= 2 * |s|
  {
    WorkAtLeast(s);
    TokensAreTokens(s);
    WorkIsLinear(s);
  }

  /** What a whole run over s has been delivered, and over which NULs it can have called read(). */
  lemma HistoryFacts(plan: seq<nat>, tr: seq<Event>, s: seq<byte>)
    requires Orderly(plan, [], tr, []) && Actions(tr) == Tokenise(s)
    ensures Delivered(tr) == s
    ensures forall i: nat :: ReadsOverNul(tr, i) ==> exists k: nat :: LoneNul(s, k)
  {
    hide Orderly, Actions, Tokenise, LoneNul, ReadsOverNul;
    Conservation(plan, [], tr, []);
    TextsOfTokenise(s);
    assert [] + Delivered(tr) == Delivered(tr) && Texts(Tokenise(s)) + [] == s;
    forall i: nat | ReadsOverNul(tr, i)
      ensures exists k: nat :: LoneNul(s, k)
    {
      ReadOverNulNeeds(plan, tr, [], i);
    }
  }

  /**
   Under the plan that cuts after every byte, read() is called over a NUL if and only if the
   input has a lone one: with the scans under all plans, the exact condition for some plan to
   bring that about.
   */
  method ScanBytewise(content: seq<byte>) returns (scanner: Guts)
    ensures fresh(scanner) && Actions(scanner.trace) == Tokenise(content) && Delivered(scanner.trace) == content
    ensures (exists i: nat :: ReadsOverNul(scanner.trace, i)) <==> (exists k: nat :: LoneNul(content, k))
  {
    hide Tokenise, Actions, Orderly, SawEof, LoneNul, ReadsOverNul, SessionEffects;
    var connection := new Input(content, []);
    var data;
    data, scanner := ScanConnection(connection);
    forall k: nat | LoneNul(content, k)
      ensures exists i: nat :: ReadsOverNul(scanner.trace, i)
    {
      var i := LoneNulIsReadOver(scanner.trace, k);
    }
  }

  /** A NUL delivered as one chunk, under any plan, is pending at the read() that reports the end. */
  method ScanNul(plan: seq<nat>) returns (scanner: Guts)
    ensures fresh(scanner) && exists i: nat :: ReadsOverNul(scanner.trace, i)
  {
    hide Tokenise, Actions, Orderly, SawEof, LoneNul, ReadsOverNul, SessionEffects;
    var connection := new Input([NUL], plan);
    var data;
    data, scanner := ScanConnection(connection);
    LoneNulExamples();
    var i := LastReadIsOver(plan, scanner.trace);
  }

  /** Scanning a string in memory, without any read(), does what streaming it does. */
  method ScanString(bytes: seq<byte>) returns (data: ParserData, scanner: Guts)
    ensures fresh(data) && fresh(scanner) && data.Valid() && data.effects == SessionEffects(bytes)
    ensures Actions(scanner.trace) == Tokenise(bytes) && Orderly(scanner.yyin.plan, bytes, scanner.trace, [])
    ensures NUL !in bytes ==> |bytes| <= scanner.work <= 2 * |bytes|
  {
    SessionFacts(bytes);
    hide Tokenise, PerformAll, Actions, Work, Flush, Orderly, SawEof, IsToken, SessionEffects;
    hide Guts.AtRest, Guts.Restored, Guts.Startable, Guts.Remaining;
    data := new ParserData();
    var nothing := new Input([], []);
    scanner := new Guts(data, nothing);
    var b := scanner.ScanBytes(bytes);
    hide Guts.StackOk;
    scanner.YyLex();
  }
}
