/**
 The lexer generator's compressed automaton: the seven constant tables of scanner.c
 and the transition step that is written out three times there (in the match loop,
 in yy_get_previous_state and in yy_try_NUL_trans).
 */
module Tables {
  import opened Bytes

  const START_STATE := 1
  const EOB_STATE := 3
  const JAM_STATE := 13
  const JAM_BASE := 14
  const END_OF_BUFFER := 6

  const YY_ACCEPT: seq<nat> := [0, 0, 0, 6, 4, 5, 4, 1, 2, 0, 0, 0, 3, 0]

  // yy_ec, sixteen entries to a row.
  const EC_0: seq<nat> := [0, 1, 1, 1, 1, 1, 1, 1, 1, 1, 2, 1, 1, 1, 1, 1]
  const EC_1: seq<nat> := [1, 1, 1, 1, 1, 1, 1, 1, 1, 1, 1, 1, 1, 1, 1, 1]
  const EC_2: seq<nat> := [1, 1, 1, 3, 4, 1, 1, 1, 1, 1, 1, 5, 1, 6, 1, 1]
  const EC_3: seq<nat> := [7, 7, 7, 7, 7, 7, 7, 7, 7, 7, 1, 1, 1, 1, 1, 1]
  const EC_4: seq<nat> := [1, 7, 7, 7, 7, 7, 7, 1, 1, 1, 1, 1, 1, 1, 1, 1]
  const YY_EC: seq<seq<nat>> :=
    [EC_0, EC_1, EC_2, EC_3, EC_4, EC_1, EC_4, EC_1,
     EC_1, EC_1, EC_1, EC_1, EC_1, EC_1, EC_1, EC_1]

  const YY_META: seq<nat> := [0, 1, 1, 1, 2, 1, 1, 1]

  const YY_BASE: seq<nat> := [0, 0, 0, 13, 14, 14, 9, 14, 14, 8, 3, 2, 14, 14, 7]

  const YY_DEF: seq<nat> := [0, 13, 1, 13, 13, 13, 14, 13, 13, 14, 13, 13, 13, 0, 13]

  const YY_NXT: seq<nat> :=
    [0, 4, 5, 4, 6, 7, 8, 4, 9, 12, 11, 10, 10, 13, 3, 13, 13, 13, 13, 13, 13, 13]

  const YY_CHK: seq<nat> :=
    [0, 1, 1, 1, 1, 1, 1, 1, 14, 11, 10, 9, 6, 3, 13, 13, 13, 13, 13, 13, 13, 13]

  /** The equivalence class of a byte; class 0 is the end-of-buffer byte. */
  function ByteClass(b: byte): nat {
    if b == NUL then 0
    else if b == NEWLINE then 2
    else if b == HASH then 3
    else if b == DOLLAR then 4
    else if b == PLUS then 5
    else if b == MINUS then 6
    else if IsHex(b) then 7
    else 1
  }

  lemma EcEntry(hi: nat, lo: nat)
    requires hi < 16 && lo < 16
    ensures YY_EC[hi][lo] == ByteClass(16 * hi + lo)
  {
    if hi == 0 {
    } else if hi == 2 {
    } else if hi == 3 {
    } else if hi == 4 || hi == 6 {
    } else {
      assert YY_EC[hi] == EC_1;
    }
  }

  /** States are numbered 1 to 13; row 14 of the tables is only a template. */
  predicate IsState(s: int) {
    1 <= s <= 13
  }

  /** The uncompressed automaton, class by class. */
  function Delta(s: nat, c: nat): (t: nat)
    requires IsState(s) && c < 8
    ensures IsState(t) && t != START_STATE
  {
    if c == 0 then
      if s == EOB_STATE then JAM_STATE else EOB_STATE
    else
      match s
      case 1 | 2 => (match c case 2 => 5 case 4 => 6 case 5 => 7 case 6 => 8 case _ => 4)
      case 6 | 9 => (match c case 3 => 10 case 4 => JAM_STATE case _ => 9)
      case 10 => if c == 7 then 11 else JAM_STATE
      case 11 => if c == 7 then 12 else JAM_STATE
      case _ => JAM_STATE
  }

  /** The action of a state, 0 for none; the end-of-buffer state has action 6. */
  function Accept(s: nat): nat
    requires IsState(s)
  {
    if s == EOB_STATE then END_OF_BUFFER
    else if s == 4 || s == 6 then 4
    else if s == 5 then 5
    else if s == 7 then 1
    else if s == 8 then 2
    else if s == 12 then 3
    else 0
  }

  /** The match loop stops in the states whose row is empty. */
  predicate Stops(s: nat)
    requires IsState(s)
  {
    s == 4 || s == 5 || s == 7 || s == 8 || s == 12 || s == JAM_STATE
  }

  /** The table lookup yy_ec[b]. */
  method LookUpClass(b: byte) returns (c: nat)
    ensures c == ByteClass(b)
  {
    EcEntry(b / 16, b % 16);
    c := YY_EC[b / 16][b % 16];
  }

  /** The table lookup yy_accept[s]. */
  method LookUpAction(s: nat) returns (act: nat)
    requires IsState(s)
    ensures act == Accept(s)
  {
    act := YY_ACCEPT[s];
  }

  /** The test that ends the match loop. */
  method LookUpStop(s: nat) returns (stop: bool)
    requires IsState(s)
    ensures stop == Stops(s)
  {
    stop := YY_BASE[s] == JAM_BASE;
  }

  /** Delta for every row of the tables, the template row included. */
  function RowDelta(row: nat, c: nat): nat
    requires 1 <= row <= 14 && c < 8
  {
    if row == 14 then (if c == 0 then EOB_STATE else if c == 1 then 9 else JAM_STATE)
    else Delta(row, c)
  }

  /** The class under which the next row of a default chain is consulted. */
  function ChainClass(row: nat, c: nat): nat
    requires 1 <= row <= 14 && c < 8
  {
    if YY_DEF[row] >= 14 then YY_META[c] else c
  }

  /** How many default links may still be followed from a row. */
  function ChainLength(row: nat): nat {
    if row == JAM_STATE then 0
    else if row == 14 || row == 1 then 1
    else 2
  }

  /** A table entry that yy_chk confirms is right; otherwise the default row gives the same answer. */
  lemma TableRow(row: nat, c: nat)
    requires 1 <= row <= 14 && c < 8
    ensures YY_BASE[row] + c < |YY_CHK| == |YY_NXT|
    ensures YY_CHK[YY_BASE[row] + c] == row ==> YY_NXT[YY_BASE[row] + c] == RowDelta(row, c)
    ensures YY_CHK[YY_BASE[row] + c] != row ==>
              && 1 <= YY_DEF[row] <= 14 && ChainLength(YY_DEF[row]) < ChainLength(row)
              && ChainClass(row, c) < 8
              && RowDelta(YY_DEF[row], ChainClass(row, c)) == RowDelta(row, c)
  {
    if row == 1 {
    } else if row == 2 {
    } else if row == 3 {
    } else if row == 6 {
    } else if row == 9 {
    } else if row == 10 {
    } else if row == 11 {
    } else if row == 13 {
    } else if row == 14 {
    } else {
      assert YY_BASE[row] == JAM_BASE && YY_DEF[row] == JAM_STATE;
    }
  }

  /**
   One transition through the compressed tables: follow yy_def until yy_chk confirms
   the row, translating the class by yy_meta when the chain enters a template row.
   */
  method NextState(s: nat, c: nat) returns (t: nat)
    requires IsState(s) && c < 8
    ensures t == Delta(s, c)
  {
    var row: nat, cls: nat := s, c;
    TableRow(row, cls);
    while YY_CHK[YY_BASE[row] + cls] != row
      invariant 1 <= row <= 14 && 0 <= cls < 8
      invariant YY_BASE[row] + cls < |YY_CHK|
      invariant RowDelta(row, cls) == Delta(s, c)
      decreases ChainLength(row)
    {
      TableRow(row, cls);
      row := YY_DEF[row];
      if row >= 14 {
        cls := YY_META[cls];
      }
      TableRow(row, cls);
    }
    TableRow(row, cls);
    t := YY_NXT[YY_BASE[row] + cls];
  }
}
