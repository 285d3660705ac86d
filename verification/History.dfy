/**
 The history of a scan: every read() and every rule action in order, the discipline they
 keep, and how far a run has come with its input.
 */
module History {
  import opened Bytes
  import opened Rules
  import opened Tokeniser
  import opened Session
  import opened MatchLoop

  /**
   One read() at a position of the input, over the text pending in the buffer, or one rule
   action, when held was in the buffer from its lexeme on; in the order in which they happen.
   */
  datatype Event = ReadCall(at: nat, pending: seq<byte>, chunk: seq<byte>) | Action(token: Token, held: seq<byte>)

  /** The most that a read() at a position of the input delivers: a plan cuts the input in any way. */
  function Cut(plan: seq<nat>, at: nat): (n: nat)
    ensures n > 0
  {
    if at < |plan| then 1 + plan[at] else 1
  }

  /** The plan that cuts an input into pieces of the given lengths. */
  function PlanFor(lengths: seq<nat>): (plan: seq<nat>)
    requires forall i :: 0 <= i < |lengths| ==> lengths[i] > 0
  {
    if lengths == [] then [] else [lengths[0] - 1] + seq(lengths[0] - 1, i => 0) + PlanFor(lengths[1..])
  }

  /** Where piece i begins. */
  function Start(lengths: seq<nat>, i: nat): nat
    requires i <= |lengths|
  {
    if i == 0 then 0 else lengths[0] + Start(lengths[1..], i - 1)
  }

  /** However an input is cut into pieces, there is a plan under which a read() at the start of each delivers up to the whole of it. */
  lemma {:induction false} EveryCutHasPlan(lengths: seq<nat>, i: nat)
    requires (forall j :: 0 <= j < |lengths| ==> lengths[j] > 0) && i < |lengths|
    ensures Cut(PlanFor(lengths), Start(lengths, i)) == lengths[i]
    decreases |lengths|
  {
    if i > 0 {
      EveryCutHasPlan(lengths[1..], i - 1);
      CutLater(PlanFor(lengths[1..]), [lengths[0] - 1] + seq(lengths[0] - 1, i => 0), Start(lengths[1..], i - 1));
    }
  }

  lemma CutLater(plan: seq<nat>, before: seq<nat>, at: nat)
    ensures Cut(before + plan, |before| + at) == Cut(plan, at)
  {
  }

  /** A read() has reported the end of the input. */
  ghost predicate SawEof(tr: seq<Event>) {
    tr != [] && ((tr[|tr| - 1].ReadCall? && tr[|tr| - 1].chunk == []) || SawEof(tr[..|tr| - 1]))
  }

  /** Besides, an action has been taken that more input could have changed. */
  ghost predicate EndKnown(tr: seq<Event>) {
    && tr != []
    && match tr[|tr| - 1] {
         case ReadCall(_, _, chunk) => chunk == [] || EndKnown(tr[..|tr| - 1])
         case Action(_, held) => Waiting(held) || EndKnown(tr[..|tr| - 1])
       }
  }

  /**
   tr accounts for every byte: from the text first in the buffer, each read() adds a chunk,
   of a size within the plan, and each action takes its lexeme off the front, which leaves
   backlog. A read() is made only over waiting text, and never again once the end is known.
   */
  ghost predicate Orderly(plan: seq<nat>, first: seq<byte>, tr: seq<Event>, backlog: seq<byte>)
    decreases |tr|
  {
    if tr == [] then backlog == first
    else
      var before := tr[..|tr| - 1];
      match tr[|tr| - 1]
      case ReadCall(at, pending, chunk) =>
        && backlog == pending + chunk && Waiting(pending) && |chunk| <= Cut(plan, at)
        && !EndKnown(before) && Orderly(plan, first, before, pending)
      case Action(t, held) =>
        held == t.text + backlog && IsToken(t) && Orderly(plan, first, before, held)
  }

  ghost function Actions(tr: seq<Event>): seq<Token> {
    if tr == [] then []
    else
      var ts := Actions(tr[..|tr| - 1]);
      match tr[|tr| - 1] case ReadCall(_, _, _) => ts case Action(t, _) => ts + [t]
  }

  lemma EventAppend(tr: seq<Event>, e: Event)
    ensures (tr + [e])[..|tr|] == tr
    ensures Actions(tr + [e]) == if e.ReadCall? then Actions(tr) else Actions(tr) + [e.token]
    ensures SawEof(tr + [e]) <==> SawEof(tr) || (e.ReadCall? && e.chunk == [])
    ensures EndKnown(tr + [e]) <==> EndKnown(tr) || if e.ReadCall? then e.chunk == [] else Waiting(e.held)
  {
    assert (tr + [e])[..|tr|] == tr;
  }

  // ----- how far a run has come

  /** Of the input rem0, the tokens done have been acted on, spending so many transitions; rem is left. */
  ghost predicate Progress(rem0: seq<byte>, rem: seq<byte>, done: seq<Token>, st0: Batch, st: Batch, spent: int) {
    && Tokenise(rem0) == done + Tokenise(rem)
    && (forall t :: t in done ==> IsToken(t)) && st == PerformAll(st0, done)
    && (NUL !in rem0 ==> NUL !in rem && spent + Work(rem) == Work(rem0))
  }

  lemma ProgressStart(rem0: seq<byte>, st0: Batch)
    ensures Progress(rem0, rem0, [], st0, st0, 0)
  {
  }

  lemma ProgressStep(rem0: seq<byte>, rem: seq<byte>, done: seq<Token>, st0: Batch, st: Batch, spent: int, cost: int)
    requires Progress(rem0, rem, done, st0, st, spent) && rem != []
    requires NUL !in rem ==> cost == Cost(rem)
    ensures IsToken(NextToken(rem))
    ensures var t := NextToken(rem);
            Progress(rem0, rem[|t.text|..], done + [t], st0, Perform(st, t), spent + cost)
  {
    hide NextToken, PerformAll, Work;
    var t := NextToken(rem);
    TokenIsToken(rem);
    assert done + ([t] + Tokenise(rem[|t.text|..])) == done + [t] + Tokenise(rem[|t.text|..]);
    PerformAllAppend(st0, done, t);
    WorkFront(rem);
  }

  lemma ProgressEnd(rem0: seq<byte>, done: seq<Token>, st0: Batch, st: Batch, spent: int)
    requires Progress(rem0, [], done, st0, st, spent)
    ensures done == Tokenise(rem0) && (forall t :: t in Tokenise(rem0) ==> IsToken(t))
    ensures st == PerformAll(st0, Tokenise(rem0)) && (NUL !in rem0 ==> spent == Work(rem0))
  {
    assert done + Tokenise([]) == done;
  }

  // ----- reads and actions

  function Delivered(tr: seq<Event>): seq<byte> {
    if tr == [] then []
    else
      var d := Delivered(tr[..|tr| - 1]);
      match tr[|tr| - 1] case ReadCall(_, _, chunk) => d + chunk case Action(_, _) => d
  }

  lemma {:induction false} TextsAppend(ts: seq<Token>, t: Token)
    ensures Texts(ts + [t]) == Texts(ts) + t.text
  {
    if ts == [] {
      assert [t][1..] == [];
    } else {
      assert (ts + [t])[1..] == ts[1..] + [t];
      TextsAppend(ts[1..], t);
    }
  }

  /** At every moment of a run the bytes delivered are those acted on followed by the backlog. */
  lemma {:induction false} Conservation(plan: seq<nat>, first: seq<byte>, tr: seq<Event>, backlog: seq<byte>)
    requires Orderly(plan, first, tr, backlog)
    ensures first + Delivered(tr) == Texts(Actions(tr)) + backlog
    decreases |tr|
  {
    if tr != [] {
      var before := tr[..|tr| - 1];
      match tr[|tr| - 1]
      case ReadCall(_, pending, chunk) =>
        Conservation(plan, first, before, pending);
        assert first + (Delivered(before) + chunk) == (first + Delivered(before)) + chunk;
      case Action(t, held) =>
        Conservation(plan, first, before, held);
        TextsAppend(Actions(before), t);
    }
  }

  /** What a run had done before its i-th event is itself orderly, over some backlog. */
  lemma {:induction false} EarlierIsOrderly(plan: seq<nat>, first: seq<byte>, tr: seq<Event>, backlog: seq<byte>, i: nat)
    returns (b: seq<byte>)
    requires Orderly(plan, first, tr, backlog) && i < |tr|
    ensures Orderly(plan, first, tr[..i], b)
    ensures tr[i].ReadCall? ==> b == tr[i].pending && Waiting(b) && !EndKnown(tr[..i]) && |tr[i].chunk| <= Cut(plan, tr[i].at)
    decreases |tr|
  {
    var n := |tr| - 1;
    var earlier := match tr[n] case ReadCall(_, pending, _) => pending case Action(_, held) => held;
    if i == n {
      b := earlier;
    } else {
      b := EarlierIsOrderly(plan, first, tr[..n], earlier, i);
      assert tr[..n][..i] == tr[..i];
    }
  }

  lemma {:induction false} EndKnownThen(tr: seq<Event>, i: nat)
    requires i < |tr| && tr[i].ReadCall? && tr[i].chunk == []
    ensures EndKnown(tr)
    decreases |tr|
  {
    if i < |tr| - 1 {
      EndKnownThen(tr[..|tr| - 1], i);
    }
  }

  /** Once read() has returned nothing it is not called again. */
  lemma NoReadAfterEnd(plan: seq<nat>, first: seq<byte>, tr: seq<Event>, backlog: seq<byte>, i: nat, j: nat)
    requires Orderly(plan, first, tr, backlog) && i < j < |tr|
    requires tr[i].ReadCall? && tr[j].ReadCall?
    ensures tr[i].chunk != []
  {
    var b := EarlierIsOrderly(plan, first, tr, backlog, j);
    if tr[i].chunk == [] {
      EndKnownThen(tr[..j], i);
    }
  }
}
