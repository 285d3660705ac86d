/** The simulator's memory: bytes, read and written as words of either byte order. */
module Memory {
  import opened Bytes

  type word = w: int | 0 <= w < 0x1_0000_0000

  /** Arithmetic on 32-bit registers. */
  function Wrap(x: int): word {
    x % 0x1_0000_0000
  }

  /** Byte i of a word, counting from the least significant one. */
  function ByteOf(v: word, i: nat): byte
    requires i < 4
  {
    if i == 0 then v % 0x100
    else if i == 1 then v / 0x100 % 0x100
    else if i == 2 then v / 0x100 / 0x100 % 0x100
    else v / 0x100 / 0x100 / 0x100
  }

  function Compose(b0: byte, b1: byte, b2: byte, b3: byte): word {
    b0 + 0x100 * b1 + 0x1_0000 * b2 + 0x100_0000 * b3
  }

  lemma ComposeBytes(v: word)
    ensures Compose(ByteOf(v, 0), ByteOf(v, 1), ByteOf(v, 2), ByteOf(v, 3)) == v
  {
  }

  /** The last byte of a word access must be inside the memory; addresses need not be aligned. */
  predicate InMemory(mem: seq<byte>, a: nat) {
    a + 3 < |mem|
  }

  /** Where byte i of the word at a is kept. */
  function Place(be: bool, a: nat, i: nat): nat
    requires i < 4
  {
    if be then a + 3 - i else a + i
  }

  function ReadWord(mem: seq<byte>, be: bool, a: nat): word
    requires InMemory(mem, a)
  {
    Compose(mem[Place(be, a, 0)], mem[Place(be, a, 1)], mem[Place(be, a, 2)], mem[Place(be, a, 3)])
  }

  function WriteWord(mem: seq<byte>, be: bool, a: nat, v: word): (m: seq<byte>)
    requires InMemory(mem, a)
    ensures |m| == |mem|
  {
    mem[Place(be, a, 0) := ByteOf(v, 0)][Place(be, a, 1) := ByteOf(v, 1)]
       [Place(be, a, 2) := ByteOf(v, 2)][Place(be, a, 3) := ByteOf(v, 3)]
  }

  /** An access needs four bytes of memory. */
  lemma AccessFits(mem: seq<byte>, a: nat)
    ensures InMemory(mem, a) <==> a + 4 <= |mem|
  {
  }

  /** w is the word of the four bytes at a: the first is the most significant one in big-endian order, the last in the other. */
  predicate IsWordAt(mem: seq<byte>, be: bool, a: nat, w: word) {
    && a + 4 <= |mem|
    && var b0: int, b1: int, b2: int, b3: int := mem[a], mem[a + 1], mem[a + 2], mem[a + 3];
       w == if be then 0x100_0000 * b0 + 0x1_0000 * b1 + 0x100 * b2 + b3
            else 0x100_0000 * b3 + 0x1_0000 * b2 + 0x100 * b1 + b0
  }

  /** Reading and writing words, by the positions of their bytes. */
  lemma WordsAsBytes(mem: seq<byte>, be: bool, a: nat, w: word)
    requires InMemory(mem, a)
    ensures ReadWord(mem, be, a) == w <==> IsWordAt(mem, be, a, w)
    ensures IsWordAt(WriteWord(mem, be, a, w), be, a, w)
    ensures forall x :: 0 <= x < |mem| && !(a <= x < a + 4) ==> WriteWord(mem, be, a, w)[x] == mem[x]
  {
    ComposeBytes(w);
  }

  /** The remainder modulo 2^32. */
  lemma WrapMeans(x: int)
    ensures exists k :: x == 0x1_0000_0000 * k + Wrap(x)
  {
    assert x == 0x1_0000_0000 * (x / 0x1_0000_0000) + Wrap(x);
  }

  /** A word written is the word read back, and no other byte changes. */
  lemma ReadWritten(mem: seq<byte>, be: bool, a: nat, v: word)
    requires InMemory(mem, a)
    ensures ReadWord(WriteWord(mem, be, a, v), be, a) == v
    ensures forall x :: 0 <= x < |mem| && !(a <= x < a + 4) ==> WriteWord(mem, be, a, v)[x] == mem[x]
  {
    ComposeBytes(v);
  }

  /** A write leaves every word alone that does not overlap it. */
  lemma ReadApart(mem: seq<byte>, be: bool, a: nat, v: word, b: nat)
    requires InMemory(mem, a) && InMemory(mem, b) && (a + 4 <= b || b + 4 <= a)
    ensures ReadWord(WriteWord(mem, be, a, v), be, b) == ReadWord(mem, be, b)
  {
  }

  /** Words are equal where their bytes are. */
  lemma ReadSame(mem: seq<byte>, other: seq<byte>, be: bool, a: nat)
    requires InMemory(mem, a) && |other| == |mem|
    requires forall x :: a <= x < a + 4 ==> other[x] == mem[x]
    ensures ReadWord(other, be, a) == ReadWord(mem, be, a)
  {
  }
}
