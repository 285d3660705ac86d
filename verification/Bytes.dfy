/** The bytes of the gdb remote protocol stream. */
module Bytes {
  type byte = b: int | 0 <= b < 256

  const NUL: byte := 0
  const NEWLINE: byte := 10
  const HASH: byte := 35
  const DOLLAR: byte := 36
  const PLUS: byte := 43
  const MINUS: byte := 45

  const HEX_DIGITS: set<byte> :=
    {48, 49, 50, 51, 52, 53, 54, 55, 56, 57, 65, 66, 67, 68, 69, 70, 97, 98, 99, 100, 101, 102}

  predicate IsHex(b: byte) {
    48 <= b <= 57 || 65 <= b <= 70 || 97 <= b <= 102
  }

  lemma HexDigits(b: byte)
    ensures b in HEX_DIGITS <==> IsHex(b)
  {
  }
}
