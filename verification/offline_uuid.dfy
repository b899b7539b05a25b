/**
 The name-based UUID of an offline player. One loop with four rotating variables
 computes the digest of RFC 1321, and two octets carry the version and variant
 of sections 4.1, 4.2 and 5.3 of RFC 9562.
 */
module OfflineUuid {
  import opened Rfc1321

  /** The bytes of `OfflinePlayer:`. */
  const PREFIX: seq<Byte> := [79, 102, 102, 108, 105, 110, 101, 80, 108, 97, 121, 101, 114, 58]

  lemma PrefixSpells()
    ensures |PREFIX| == |"OfflinePlayer:"| && forall j | 0 <= j < 14 :: PREFIX[j] as int == "OfflinePlayer:"[j] as int
  {
    forall j | 0 <= j < 14 ensures PREFIX[j] as int == "OfflinePlayer:"[j] as int {
      PrefixLetter(j);
    }
  }

  lemma PrefixLetter(j: nat)
    requires j < 14
    ensures PREFIX[j] as int == "OfflinePlayer:"[j] as int
  {
  }

  const SHIFTS: seq<nat> := [7, 12, 17, 22, 5, 9, 14, 20, 4, 11, 16, 23, 6, 10, 15, 21]

  function WithVersion(digest: seq<Byte>): (r: seq<Byte>)
    requires |digest| == 16
    ensures |r| == 16
  {
    digest[6 := (digest[6] & 15) | 48][8 := (digest[8] & 63) | 128]
  }

  // ----- padding -----

  function BufferSize(n: nat): nat {
    (n + 9 + 63) / 64 * 64
  }

  /**
   The buffer length the code computes is the standard's padded length: the least
   multiple of 64 with room for the message, the end mark and the length.
   */
  lemma BufferLength(n: nat)
    ensures BufferSize(n) == n + Fill(n) + 9
    ensures forall m: nat :: m % 64 == 0 && m >= n + 9 ==> m >= n + Fill(n) + 9
  {
    hide Fill;
  }

  /** Different messages never pad to the same bytes. */
  lemma PaddingInjective(x: seq<Byte>, y: seq<Byte>)
    requires Padded(x) == Padded(y)
    ensures x == y
  {
    if |x| < |y| {
      LongerDiffers(x, y);
    } else if |y| < |x| {
      LongerDiffers(y, x);
    }
    assert x == Padded(x)[..|x|] && y == Padded(y)[..|y|];
  }

  /** Where the longer message has its end mark, the shorter one has a zero. */
  lemma LongerDiffers(x: seq<Byte>, y: seq<Byte>)
    requires |x| < |y| && |Padded(x)| == |Padded(y)|
    ensures Padded(x)[|y|] == 0 && Padded(y)[|y|] == 0x80
  {
  }

  // ----- one block -----

  /** The loop's four variables before step `i`, when the standard's registers hold `r`. */
  function Turned(i: nat, r: Registers): Registers {
    match i % 4
    case 0 => r
    case 1 => Registers(r.d, r.a, r.b, r.c)
    case 2 => Registers(r.c, r.d, r.a, r.b)
    case 3 => Registers(r.b, r.c, r.d, r.a)
  }

  lemma TurnedWhole(i: nat, r: Registers)
    requires i % 4 == 0
    ensures Turned(i, r) == r
  {
  }

  /** The function and word index the loop selects for step `i` of a round. */
  function Mix(round: nat, b: Word, c: Word, d: Word): Word
    requires round < 4
  {
    match round
    case 0 => Word((b.bits & c.bits) | (!b.bits & d.bits))
    case 1 => Word((d.bits & b.bits) | (!d.bits & c.bits))
    case 2 => Word(b.bits ^ c.bits ^ d.bits)
    case 3 => Word(c.bits ^ (b.bits | !d.bits))
  }

  function Select(round: nat, i: nat): nat
    requires round < 4
  {
    match round
    case 0 => i
    case 1 => (5 * i + 1) % 16
    case 2 => (3 * i + 5) % 16
    case 3 => (7 * i) % 16
  }

  /** The second round's function, with the operands in the code's order. */
  lemma GReordered(x: Word, y: Word, z: Word)
    ensures Word((z.bits & x.bits) | (!z.bits & y.bits)) == G(x, y, z)
  {
  }

  lemma MixIsAuxiliary(round: nat, b: Word, c: Word, d: Word)
    requires round < 4
    ensures Mix(round, b, c, d) == Auxiliary(round, b, c, d)
  {
    match round {
      case 0 =>
      case 1 =>
        GReordered(b, c, d);
        hide G;
      case 2 =>
      case 3 =>
    }
  }

  lemma RowListed(round: nat, step: nat)
    requires round < 4 && step < 16
    ensures Select(round, 16 * round + step) == ORDER[round][step]
  {
    match step {
      case 0 => case 1 => case 2 => case 3 => case 4 => case 5 => case 6 => case 7 => case 8 => case 9 => case 10 =>
      case 11 => case 12 => case 13 => case 14 => case _ =>
    }
  }

  /** The computed word indices and the table of shifts are the listed ones. */
  lemma SelectIsWordIndex(i: nat)
    requires i < 64
    ensures Select(i / 16, i) == WordIndex(i) && SHIFTS[i / 16 * 4 + i % 4] == Rotation(i)
  {
    RowListed(i / 16, i % 16);
    assert i == 16 * (i / 16) + i % 16;
    hide Select;
  }

  /** The new value the loop computes from its four variables. */
  function NewValue(i: nat, v: Registers, block: seq<Byte>, table: seq<Word>): Word
    requires i < 64 && |block| == 64 && |table| == 64
  {
    SelectIsWordIndex(i);
    var f := Mix(i / 16, v.b, v.c, v.d);
    var g := Select(i / 16, i);
    var sum := Sum(v.a, f, table[i], WordAt(block, g * 4));
    Add(v.b, Rotated(sum, SHIFTS[i / 16 * 4 + i % 4]))
  }

  /** The code adds the constant before the word, the standard after it. */
  lemma SumReordered(a: Word, f: Word, k: Word, x: Word)
    ensures Sum(a, f, k, x) == Sum(a, f, x, k)
  {
  }

  lemma NewValueIsOperation(i: nat, v: Registers, block: seq<Byte>, table: seq<Word>)
    requires i < 64 && |block| == 64 && |table| == 64
    ensures NewValue(i, v, block, table) == Operation(i, v.a, v.b, v.c, v.d, block, table)
  {
    hide Add, Sum, Mix, Auxiliary, Select, WordIndex, WordAt, Rotation, Rotated;
    SelectIsWordIndex(i);
    MixIsAuxiliary(i / 16, v.b, v.c, v.d);
    SumReordered(v.a, Mix(i / 16, v.b, v.c, v.d), table[i], WordAt(block, Select(i / 16, i) * 4));
  }

  /** Turning the variables once is applying the standard's next operation. */
  lemma TurnIsApply(i: nat, r: Registers, block: seq<Byte>, table: seq<Word>)
    requires i < 64 && |block| == 64 && |table| == 64
    ensures var v := Turned(i, r);
            Registers(v.d, NewValue(i, v, block, table), v.b, v.c) == Turned(i + 1, Apply(i, r, block, table))
  {
    hide NewValue, Operation;
    NewValueIsOperation(i, Turned(i, r), block, table);
  }

  // ----- the version and the variant -----

  /** Version 3, the standard variant, and every other bit of the digest kept. */
  lemma VersionAndVariant(digest: seq<Byte>)
    requires |digest| == 16
    ensures var uuid := WithVersion(digest);
            && uuid[6] >> 4 == 3 && uuid[6] & 15 == digest[6] & 15
            && uuid[8] >> 6 == 2 && uuid[8] & 63 == digest[8] & 63
            && forall j | 0 <= j < 16 && j != 6 && j != 8 :: uuid[j] == digest[j]
  {
    var x, y := digest[6], digest[8];
    assert ((x & 15) | 48) >> 4 == 3 && ((x & 15) | 48) & 15 == x & 15;
    assert ((y & 63) | 128) >> 6 == 2 && ((y & 63) | 128) & 63 == y & 63;
  }

  // ----- the procedure -----

  /** Fills the buffer in place: message, end mark, zeros, length. */
  method Pad(input: seq<Byte>) returns (bytes: array<Byte>)
    ensures fresh(bytes) && bytes[..] == Padded(input)
  {
    hide LowBytes, Fill, BufferSize;
    bytes := new Byte[BufferSize(|input|)](_ => 0);
    BufferLength(|input|);
    forall j | 0 <= j < |input| {
      bytes[j] := input[j];
    }
    bytes[|input|] := 128;
    var len := bytes.Length;
    var bits := LowBytes(|input| * 8, 8);
    forall j | len - 8 <= j < len {
      bytes[j] := bits[j - (len - 8)];
    }
    assert |input| + 1 + Fill(|input|) == len - 8;
    assert bytes[..|input|] == input;
    assert bytes[|input| + 1..len - 8] == Zeros(Fill(|input|));
    assert bytes[len - 8..] == LowBytes(8 * |input|, 8);
    assert bytes[..] == bytes[..|input|] + [bytes[|input|]] + bytes[|input| + 1..len - 8] + bytes[len - 8..];
  }

  method CompressChunk(state: Registers, chunk: seq<Byte>, table: seq<Word>) returns (r: Registers)
    requires |chunk| == 64 && |table| == 64
    ensures r == Compress(state, chunk, table)
  {
    hide Add, Sum, Turned, Apply, Mix, Select, WordAt, WordIndex, Rotation, Rotated;
    assert Turned(0, state) == state by {
      TurnedWhole(0, state);
    }
    var a, b, c, d := state.a, state.b, state.c, state.d;
    for i := 0 to 64
      invariant Registers(a, b, c, d) == Turned(i, Operations(i, state, chunk, table))
    {
      TurnIsApply(i, Operations(i, state, chunk, table), chunk, table);
      SelectIsWordIndex(i);
      assert Operations(i + 1, state, chunk, table) == Apply(i, Operations(i, state, chunk, table), chunk, table);
      var f := Mix(i / 16, b, c, d);
      var g := Select(i / 16, i);
      var sum := Sum(a, f, table[i], WordAt(chunk, g * 4));
      a, b, c, d := d, Add(b, Rotated(sum, SHIFTS[i / 16 * 4 + i % 4])), b, c;
    }
    TurnedWhole(64, Operations(64, state, chunk, table));
    r := Registers(Add(state.a, a), Add(state.b, b), Add(state.c, c), Add(state.d, d));
  }

  /** The four variables as sixteen bytes, written four at a time. */
  method WriteOut(state: Registers) returns (out: array<Byte>)
    ensures fresh(out) && out[..] == Output(state)
  {
    hide WordBytes;
    out := new Byte[16];
    var words := [state.a, state.b, state.c, state.d];
    for i := 0 to 4
      invariant forall j | 0 <= j < 4 * i :: out[j] == WordBytes(words[j / 4])[j % 4]
    {
      var four := WordBytes(words[i]);
      forall j | 4 * i <= j < 4 * i + 4 {
        out[j] := four[j - 4 * i];
      }
    }
    forall j | 0 <= j < 16 ensures out[j] == Output(state)[j] {
      assert out[j] == WordBytes(words[j / 4])[j % 4];
    }
  }

  /** The UUID of a player name, given as its UTF-8 bytes. */
  method OfflineUuid(name: seq<Byte>, table: seq<Word>) returns (uuid: seq<Byte>)
    requires |table| == 64
    ensures uuid == WithVersion(Digest(PREFIX + name, table))
  {
    hide Padded, Compress, Output;
    var input := PREFIX + name;
    var bytes := Pad(input);
    var state := INITIAL;
    var chunks := bytes.Length / 64;
    for n := 0 to chunks
      invariant bytes[..] == Padded(input)
      invariant state == Blocks(n, Padded(input), table)
    {
      assert bytes[64 * n..64 * n + 64] == Padded(input)[64 * (n + 1 - 1)..64 * (n + 1)];
      state := CompressChunk(state, bytes[64 * n..64 * n + 64], table);
    }
    var out := WriteOut(state);
    out[6] := (out[6] & 15) | 48;
    out[8] := (out[8] & 63) | 128;
    uuid := out[..];
  }
}
