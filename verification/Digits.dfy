/** The bytes of the protocol as characters, and the hex digits by their positions. */
module Digits {
  import opened Bytes

  /** The bytes that have a name are the characters of the protocol. */
  lemma Characters()
    ensures NUL == 0 && NEWLINE == '\n' as int && HASH == '#' as int && DOLLAR == '$' as int
    ensures PLUS == '+' as int && MINUS == '-' as int
  {
  }

  const LOWER_DIGITS := "0123456789abcdef"
  const UPPER_DIGITS := "0123456789ABCDEF"

  /** b is a hex digit of value v: the character at that position among the digits. */
  predicate IsDigit(b: byte, v: nat)
    ensures IsDigit(b, v) ==> v < 16
  {
    v < 16 && (b == LOWER_DIGITS[v] as int || b == UPPER_DIGITS[v] as int)
  }

  lemma DigitCodes(v: nat)
    requires v < 16
    ensures LOWER_DIGITS[v] as int == if v < 10 then 48 + v else 87 + v
    ensures UPPER_DIGITS[v] as int == if v < 10 then 48 + v else 55 + v
  {
  }

  /** A digit is a character at a position from 0 to 15, and at one only. */
  lemma DigitIs(b: byte, v: nat)
    requires v < 16
    ensures IsDigit(b, v) <==> if v < 10 then b == 48 + v else b == 87 + v || b == 55 + v
  {
    DigitCodes(v);
  }

  lemma DigitsAreHex(b: byte)
    ensures IsHex(b) <==> exists v :: IsDigit(b, v)
    ensures forall v, w :: IsDigit(b, v) && IsDigit(b, w) ==> v == w
  {
    forall v: nat | v < 16
      ensures IsDigit(b, v) <==> if v < 10 then b == 48 + v else b == 87 + v || b == 55 + v
    {
      DigitIs(b, v);
    }
    hide IsDigit;
    if IsHex(b) {
      assert IsDigit(b, if b <= 57 then b - 48 else if b <= 70 then b - 55 else b - 87);
    }
  }
}
