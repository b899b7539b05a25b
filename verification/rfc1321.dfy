/**
 The MD5 digest of RFC 1321, as the standard states it: padding (sections 3.1 and
 3.2), the four-register state (3.3), the 64 listed operations on each block (3.4)
 and the output order (3.5). The sine table of section 3.4 is a parameter.
 */
module Rfc1321 {

  type Byte = bv8

  /** A 32-bit word. */
  datatype Word = Word(bits: bv32)

  datatype Registers = Registers(a: Word, b: Word, c: Word, d: Word)

  const INITIAL := Registers(Word(0x67452301), Word(0xefcdab89), Word(0x98badcfe), Word(0x10325476))

  // ----- words -----

  /** Four bytes as a word, low-order byte first. */
  function WordAt(bytes: seq<Byte>, at: nat): Word
    requires at + 4 <= |bytes|
  {
    Word((bytes[at] as bv32) | ((bytes[at + 1] as bv32) << 8) | ((bytes[at + 2] as bv32) << 16)
         | ((bytes[at + 3] as bv32) << 24))
  }

  /** A word as four bytes, low-order byte first. */
  function WordBytes(w: Word): (r: seq<Byte>)
    ensures |r| == 4
  {
    [(w.bits & 0xFF) as Byte, ((w.bits >> 8) & 0xFF) as Byte, ((w.bits >> 16) & 0xFF) as Byte,
     ((w.bits >> 24) & 0xFF) as Byte]
  }

  /** Reading a word and writing it out undo each other. */
  lemma WordBytesInvert(w: Word, bytes: seq<Byte>, at: nat)
    requires at + 4 <= |bytes|
    ensures WordAt(WordBytes(w), 0) == w && WordBytes(WordAt(bytes, at)) == bytes[at..at + 4]
  {
    BitsRestored(w.bits);
    BytesRestored(bytes[at], bytes[at + 1], bytes[at + 2], bytes[at + 3]);
  }

  lemma BitsRestored(x: bv32)
    ensures (((x & 0xFF) as bv8) as bv32) | ((((x >> 8) & 0xFF) as bv8) as bv32 << 8)
            | ((((x >> 16) & 0xFF) as bv8) as bv32 << 16) | ((((x >> 24) & 0xFF) as bv8) as bv32 << 24) == x
  {
  }

  lemma BytesRestored(a: bv8, b: bv8, c: bv8, d: bv8)
    ensures var x := (a as bv32) | ((b as bv32) << 8) | ((c as bv32) << 16) | ((d as bv32) << 24);
            (x & 0xFF) as bv8 == a && ((x >> 8) & 0xFF) as bv8 == b && ((x >> 16) & 0xFF) as bv8 == c
            && ((x >> 24) & 0xFF) as bv8 == d
  {
  }

  /** The initial registers hold the bytes that section 3.3 lists, low-order byte first. */
  lemma InitialBytes()
    ensures WordBytes(INITIAL.a) == [0x01, 0x23, 0x45, 0x67] && WordBytes(INITIAL.b) == [0x89, 0xab, 0xcd, 0xef]
    ensures WordBytes(INITIAL.c) == [0xfe, 0xdc, 0xba, 0x98] && WordBytes(INITIAL.d) == [0x76, 0x54, 0x32, 0x10]
  {
  }

  /** A number below 256 as a byte, counted up from zero. */
  function ByteOf(n: nat): Byte
    requires n < 256
  {
    if n == 0 then 0 else ByteOf(n - 1) + 1
  }

  /** The low-order bytes of a number, low-order byte first. */
  function LowBytes(n: nat, count: nat): (r: seq<Byte>)
    ensures |r| == count
  {
    if count == 0 then [] else [ByteOf(n % 256)] + LowBytes(n / 256, count - 1)
  }

  /** The j-th byte holds the j-th digit to base 256, lowest first. */
  lemma {:induction false} LowBytesAt(n: nat, count: nat, j: nat)
    requires j < count
    ensures LowBytes(n, count)[j] as int == n / Power(256, j) % 256
  {
    if j == 0 {
      ByteValue(n % 256);
    } else {
      LowBytesAt(n / 256, count - 1, j - 1);
      DividedTwice(n, 256, Power(256, j - 1));
    }
  }

  function Power(b: nat, e: nat): (p: nat)
    requires b > 0
    ensures p > 0
  {
    if e == 0 then 1 else b * Power(b, e - 1)
  }

  lemma DividedTwice(n: nat, a: nat, b: nat)
    requires a > 0 && b > 0
    ensures n / a / b == n / (a * b)
  {
    var q := n / a / b;
    var r := n / a % b;
    assert n == a * (n / a) + n % a && n / a == b * q + r;
    assert n == (a * b) * q + (a * r + n % a) by {
      assert a * (b * q + r) == (a * b) * q + a * r;
    }
    assert a * r + n % a < a * b by {
      assert a * r <= a * (b - 1);
    }
    Quotient(n, a * b, q, a * r + n % a);
  }

  lemma Quotient(n: nat, m: nat, q: nat, r: nat)
    requires m > 0 && n == m * q + r && r < m
    ensures n / m == q
  {
    if n / m < q {
      Multiples(m, n / m + 1, q);
      assert false;
    } else if n / m > q {
      Multiples(m, q + 1, n / m);
      assert false;
    }
  }

  lemma Multiples(m: nat, a: nat, b: nat)
    requires a <= b
    ensures m * a <= m * b
  {
  }

  lemma {:induction false} ByteValue(n: nat)
    requires n < 256
    ensures ByteOf(n) as int == n
  {
    if n > 0 {
      ByteValue(n - 1);
    }
  }

  /** The circular shift `x <<< s`. */
  function Rotated(x: Word, s: nat): Word
    requires s < 32
  {
    Word(x.bits.RotateLeft(s))
  }

  /** Addition modulo 2^32: that of the numbers, without the carry out of the highest bit. */
  function Add(x: Word, y: Word): (r: Word)
    ensures r.bits as bv33 == ((x.bits as bv33) + (y.bits as bv33)) & 0xFFFF_FFFF
  {
    Word(x.bits + y.bits)
  }

  function Sum(w: Word, x: Word, y: Word, z: Word): (r: Word)
    ensures r.bits as bv34
         == ((w.bits as bv34) + (x.bits as bv34) + (y.bits as bv34) + (z.bits as bv34)) & 0xFFFF_FFFF
  {
    Word(w.bits + x.bits + y.bits + z.bits)
  }

  // ----- sections 3.1 and 3.2 -----

  function Zeros(n: nat): (r: seq<Byte>)
    ensures |r| == n && forall j | 0 <= j < n :: r[j] == 0
  {
    seq(n, _ => 0)
  }

  /** The number of zero bytes that brings the length to 56 modulo 64. */
  function Fill(n: nat): (k: nat)
    ensures k < 64 && (n + 1 + k) % 64 == 56 && (n + k + 9) % 64 == 0
  {
    (119 - n % 64) % 64
  }

  /** One set bit, zeros, and the length in bits modulo 2^64. */
  function Padded(message: seq<Byte>): (r: seq<Byte>)
    ensures |r| == |message| + Fill(|message|) + 9 && |r| % 64 == 0
  {
    message + [0x80] + Zeros(Fill(|message|)) + LowBytes(8 * |message|, 8)
  }

  // ----- section 3.4 -----

  function F(x: Word, y: Word, z: Word): Word { Word((x.bits & y.bits) | (!x.bits & z.bits)) }
  function G(x: Word, y: Word, z: Word): Word { Word((x.bits & z.bits) | (y.bits & !z.bits)) }
  function H(x: Word, y: Word, z: Word): Word { Word(x.bits ^ y.bits ^ z.bits) }
  function I(x: Word, y: Word, z: Word): Word { Word(y.bits ^ (x.bits | !z.bits)) }

  function Auxiliary(round: nat, x: Word, y: Word, z: Word): Word
    requires round < 4
  {
    match round
    case 0 => F(x, y, z)
    case 1 => G(x, y, z)
    case 2 => H(x, y, z)
    case 3 => I(x, y, z)
  }

  /** The word each operation of a round reads, as listed. */
  const ORDER: seq<seq<nat>> := [
    [0, 1, 2, 3, 4, 5, 6, 7, 8, 9, 10, 11, 12, 13, 14, 15],
    [1, 6, 11, 0, 5, 10, 15, 4, 9, 14, 3, 8, 13, 2, 7, 12],
    [5, 8, 11, 14, 1, 4, 7, 10, 13, 0, 3, 6, 9, 12, 15, 2],
    [0, 7, 14, 5, 12, 3, 10, 1, 8, 15, 6, 13, 4, 11, 2, 9]]

  /** The rotations of a round, which repeat every four operations. */
  const ROTATIONS: seq<seq<nat>> := [[7, 12, 17, 22], [5, 9, 14, 20], [4, 11, 16, 23], [6, 10, 15, 21]]

  function WordIndex(i: nat): (k: nat)
    requires i < 64
    ensures k < 16
  {
    ORDER[i / 16][i % 16]
  }

  function Rotation(i: nat): (s: nat)
    requires i < 64
    ensures s < 32
  {
    ROTATIONS[i / 16][i % 4]
  }

  /** The operation `[abcd k s i]`: the new value of the register named first. */
  function Operation(i: nat, a: Word, b: Word, c: Word, d: Word, block: seq<Byte>, table: seq<Word>): Word
    requires i < 64 && |block| == 64 && |table| == 64
  {
    var sum := Sum(a, Auxiliary(i / 16, b, c, d), WordAt(block, 4 * WordIndex(i)), table[i]);
    Add(b, Rotated(sum, Rotation(i)))
  }

  /** The i-th listed operation; the lists name the registers ABCD, DABC, CDAB, BCDA in turn. */
  function Apply(i: nat, r: Registers, block: seq<Byte>, table: seq<Word>): Registers
    requires i < 64 && |block| == 64 && |table| == 64
  {
    match i % 4
    case 0 => r.(a := Operation(i, r.a, r.b, r.c, r.d, block, table))
    case 1 => r.(d := Operation(i, r.d, r.a, r.b, r.c, block, table))
    case 2 => r.(c := Operation(i, r.c, r.d, r.a, r.b, block, table))
    case 3 => r.(b := Operation(i, r.b, r.c, r.d, r.a, block, table))
  }

  function Operations(n: nat, r: Registers, block: seq<Byte>, table: seq<Word>): Registers
    requires n <= 64 && |block| == 64 && |table| == 64
  {
    if n == 0 then r else Apply(n - 1, Operations(n - 1, r, block, table), block, table)
  }

  function Compress(r: Registers, block: seq<Byte>, table: seq<Word>): Registers
    requires |block| == 64 && |table| == 64
  {
    var s := Operations(64, r, block, table);
    Registers(Add(r.a, s.a), Add(r.b, s.b), Add(r.c, s.c), Add(r.d, s.d))
  }

  /** The registers after the first `n` blocks. */
  function Blocks(n: nat, bytes: seq<Byte>, table: seq<Word>): Registers
    requires 64 * n <= |bytes| && |table| == 64
  {
    if n == 0 then INITIAL
    else Compress(Blocks(n - 1, bytes, table), bytes[64 * (n - 1)..64 * n], table)
  }

  // ----- section 3.5 -----

  function Output(r: Registers): (digest: seq<Byte>)
    ensures |digest| == 16
  {
    WordBytes(r.a) + WordBytes(r.b) + WordBytes(r.c) + WordBytes(r.d)
  }

  /** The digest begins with the low-order byte of A and ends with the high-order byte of D. */
  lemma OutputReads(r: Registers)
    ensures WordAt(Output(r), 0) == r.a && WordAt(Output(r), 4) == r.b
    ensures WordAt(Output(r), 8) == r.c && WordAt(Output(r), 12) == r.d
  {
    hide WordAt, WordBytes;
    PartReads(r.a, Output(r), 0);
    PartReads(r.b, Output(r), 4);
    PartReads(r.c, Output(r), 8);
    PartReads(r.d, Output(r), 12);
  }

  lemma PartReads(w: Word, bytes: seq<Byte>, at: nat)
    requires at + 4 <= |bytes| && bytes[at..at + 4] == WordBytes(w)
    ensures WordAt(bytes, at) == w
  {
    hide WordBytes;
    WordBytesInvert(w, bytes, at);
    assert forall j | 0 <= j < 4 :: bytes[at + j] == WordBytes(w)[j];
  }

  function Digest(message: seq<Byte>, table: seq<Word>): (digest: seq<Byte>)
    requires |table| == 64
    ensures |digest| == 16
  {
    Output(Blocks(|Padded(message)| / 64, Padded(message), table))
  }
}
