/**
 * The bit string of a byte buffer, read most-significant-bit first, as the
 * ST 2110-40 ancillary payload is packed (RFC 8331 section 2.1): bit 0 of the
 * string is the top bit of byte 0, bit 8 the top bit of byte 1, and so on.
 */
module Bits {
  import opened Arith

  /** One octet of a received buffer. */
  type byte = x: int | 0 <= x < 256

  /** Bit k of byte b, counting from the most significant (k = 0) down (true for 1). */
  predicate ByteBit(b: byte, k: nat)
    requires k < 8
  {
    b / Pow2(7 - k) % 2 == 1
  }

  /** The eight bits of one byte, MSB-first. */
  function ByteBits(b: byte): (s: seq<bool>)
    ensures |s| == 8
  {
    [ByteBit(b, 0), ByteBit(b, 1), ByteBit(b, 2), ByteBit(b, 3),
     ByteBit(b, 4), ByteBit(b, 5), ByteBit(b, 6), ByteBit(b, 7)]
  }

  /** The buffer's bits in transmission order: eight per byte, MSB-first within each byte. */
  function BitString(buf: seq<byte>): (s: seq<bool>)
    ensures |s| == 8 * |buf|
  {
    if buf == [] then [] else ByteBits(buf[0]) + BitString(buf[1..])
  }

  /** Bit 8i + k of the string is bit k of byte i. */
  lemma {:induction false} BitOfByte(buf: seq<byte>, i: nat, k: nat)
    requires i < |buf| && k < 8
    ensures BitString(buf)[8 * i + k] == ByteBit(buf[i], k)
    decreases i
  {
    if i > 0 {
      BitOfByte(buf[1..], i - 1, k);
      assert 8 * i + k == 8 + (8 * (i - 1) + k);
    }
  }

  /** The weight of a set bit that has m - 1 bits after it in an m-bit field. */
  function Weight(bit: bool, m: nat): nat
    requires m >= 1
  {
    if bit then Pow2(m - 1) else 0
  }

  /** The n bits starting at position pos, read MSB-first, as an unsigned number. */
  function BitsAt(bits: seq<bool>, pos: nat, n: nat): nat
    requires pos + n <= |bits|
    decreases n
  {
    if n == 0 then 0 else Weight(bits[pos], n) + BitsAt(bits, pos + 1, n - 1)
  }

  /** An n-bit field never exceeds n bits. */
  lemma {:induction false} BitsAtBound(bits: seq<bool>, pos: nat, n: nat)
    requires pos + n <= |bits|
    ensures BitsAt(bits, pos, n) < Pow2(n)
    decreases n
  {
    if n > 0 {
      BitsAtBound(bits, pos + 1, n - 1);
    }
  }

  /** Reading a + b bits is reading a bits, then b more, and joining them MSB-first. */
  lemma {:induction false} BitsAtConcat(bits: seq<bool>, pos: nat, a: nat, b: nat)
    requires pos + a + b <= |bits|
    ensures BitsAt(bits, pos, a + b) == BitsAt(bits, pos, a) * Pow2(b) + BitsAt(bits, pos + a, b)
    decreases a
  {
    if a > 0 {
      BitsAtConcat(bits, pos + 1, a - 1, b);
      WeightShift(bits[pos], a, b);
      JoinFields(Weight(bits[pos], a), BitsAt(bits, pos + 1, a - 1), BitsAt(bits, pos + a, b), Pow2(b));
    }
  }

  /** Moving a bit b places further from the end of its field multiplies its weight by 2^b. */
  lemma WeightShift(bit: bool, a: nat, b: nat)
    requires a >= 1
    ensures Weight(bit, a + b) == Weight(bit, a) * Pow2(b)
  {
    Pow2Add(a - 1, b);
  }

  lemma JoinFields(w: int, rest: int, tail: int, low: int)
    ensures w * low + (rest * low + tail) == (w + rest) * low + tail
  {
  }

  /** The bits of byte i from bit k to its end are the low 8 - k bits of that byte. */
  lemma {:induction false} ByteSuffix(buf: seq<byte>, i: nat, k: nat)
    requires i < |buf| && k <= 8
    ensures BitsAt(BitString(buf), 8 * i + k, 8 - k) == buf[i] % Pow2(8 - k)
    decreases 8 - k
  {
    if k < 8 {
      var s, pos := BitString(buf), 8 * i + k;
      ByteSuffix(buf, i, k + 1);
      assert BitsAt(s, pos + 1, 7 - k) == buf[i] % Pow2(7 - k);
      BitOfByte(buf, i, k);
      SuffixStep(buf[i], Pow2(7 - k), s[pos]);
    }
  }

  /** Reducing b modulo 2p adds the bit of weight p to b mod p. */
  lemma SuffixStep(b: nat, p: nat, bit: bool)
    requires p > 0 && bit == (b / p % 2 == 1)
    ensures (if bit then p else 0) + b % p == b % (2 * p)
  {
    ModDouble(b, p);
  }

  /** A field inside a wider window is that window's value with the bits before and after it cut off. */
  lemma FieldOfWindow(bits: seq<bool>, p: nat, m: nat, k: nat, n: nat)
    requires k + n <= m && p + m <= |bits|
    ensures BitsAt(bits, p + k, n) == BitsAt(bits, p, m) % Pow2(m - k) / Pow2(m - k - n)
  {
    DropPrefix(bits, p, k, m - k);
    DropSuffix(bits, p + k, n, m - k - n);
  }

  /** Keeping the low b bits of an (a + b)-bit field leaves its last b bits. */
  lemma DropPrefix(bits: seq<bool>, p: nat, a: nat, b: nat)
    requires p + a + b <= |bits|
    ensures BitsAt(bits, p, a + b) % Pow2(b) == BitsAt(bits, p + a, b)
  {
    BitsAtConcat(bits, p, a, b);
    BitsAtBound(bits, p + a, b);
    DivModUnique(BitsAt(bits, p, a + b), Pow2(b), BitsAt(bits, p, a), BitsAt(bits, p + a, b));
  }

  /** Dropping the low b bits of an (a + b)-bit field leaves its first a bits. */
  lemma DropSuffix(bits: seq<bool>, p: nat, a: nat, b: nat)
    requires p + a + b <= |bits|
    ensures BitsAt(bits, p, a + b) / Pow2(b) == BitsAt(bits, p, a)
  {
    BitsAtConcat(bits, p, a, b);
    BitsAtBound(bits, p + a, b);
    DivModUnique(BitsAt(bits, p, a + b), Pow2(b), BitsAt(bits, p, a), BitsAt(bits, p + a, b));
  }

  /** A byte-aligned 8-bit read is the byte itself. */
  lemma AlignedByte(buf: seq<byte>, i: nat)
    requires i < |buf|
    ensures BitsAt(BitString(buf), 8 * i, 8) == buf[i]
  {
    ByteSuffix(buf, i, 0);
    Pow2Eight();
    DivModUnique(buf[i], 256, 0, buf[i]);
  }

  /** The 8-bit field at the offset of byte j. */
  function ByteField(bits: seq<bool>, j: nat): nat
    requires 8 * j + 8 <= |bits|
  {
    BitsAt(bits, 8 * j, 8)
  }

  /** The bits hold the buffer: each byte is the 8-bit field at its own offset. */
  ghost predicate Encodes(bits: seq<bool>, buf: seq<byte>)
  {
    |bits| == 8 * |buf| && forall j {:trigger ByteField(bits, j)} :: 0 <= j < |buf| ==> ByteField(bits, j) == buf[j]
  }

  /** The buffer's bit string holds the buffer. */
  lemma EncodesBitString(buf: seq<byte>)
    ensures Encodes(BitString(buf), buf)
  {
    forall j | 0 <= j < |buf|
      ensures ByteField(BitString(buf), j) == buf[j]
    {
      AlignedByte(buf, j);
    }
  }

  /** Byte j of an encoded buffer, read at its bit position p. */
  lemma ByteOf(bits: seq<bool>, buf: seq<byte>, j: nat, p: nat)
    requires Encodes(bits, buf) && j < |buf| && p == 8 * j
    ensures p + 8 <= |bits| && BitsAt(bits, p, 8) == buf[j]
  {
    assert ByteField(bits, j) == buf[j];
  }

  /** n bits read inside byte i, starting at bit k, are bits k..k+n-1 of that byte, MSB-first. */
  lemma SubByte(bits: seq<bool>, buf: seq<byte>, i: nat, k: nat, n: nat)
    requires Encodes(bits, buf) && i < |buf| && k + n <= 8
    ensures BitsAt(bits, 8 * i + k, n) == buf[i] / Pow2(8 - k - n) % Pow2(n)
  {
    ByteOf(bits, buf, i, 8 * i);
    SubField(bits, 8 * i, buf[i], k, n);
  }

  /** A field inside an 8-bit field of value b is b shifted right and masked. */
  lemma SubField(bits: seq<bool>, p: nat, b: nat, k: nat, n: nat)
    requires p + 8 <= |bits| && k + n <= 8 && BitsAt(bits, p, 8) == b
    ensures BitsAt(bits, p + k, n) == b / Pow2(8 - k - n) % Pow2(n)
  {
    FieldOfWindow(bits, p, 8, k, n);
    Pow2Add(n, 8 - k - n);
    DivOfMod(b, Pow2(n), Pow2(8 - k - n));
  }

  /** A byte-aligned 16-bit read is two consecutive bytes, the first in the high half. */
  lemma AlignedWord16(bits: seq<bool>, buf: seq<byte>, i: nat)
    requires Encodes(bits, buf) && i + 1 < |buf|
    ensures BitsAt(bits, 8 * i, 16) == buf[i] as int * 256 + buf[i + 1]
  {
    ByteOf(bits, buf, i, 8 * i);
    ByteOf(bits, buf, i + 1, 8 * i + 8);
    TwoBytes(bits, 8 * i, buf[i], buf[i + 1]);
  }

  /** Two 8-bit fields side by side read as one 16-bit field. */
  lemma TwoBytes(bits: seq<bool>, p: nat, hi: nat, lo: nat)
    requires p + 16 <= |bits| && BitsAt(bits, p, 8) == hi && BitsAt(bits, p + 8, 8) == lo
    ensures BitsAt(bits, p, 16) == hi * 256 + lo
  {
    Pow2Eight();
    BitsAtConcat(bits, p, 8, 8);
  }

  /** Any field within three bytes starting at byte i is cut out of their big-endian value. */
  lemma Window3Field(bits: seq<bool>, buf: seq<byte>, i: nat, k: nat, n: nat)
    requires Encodes(bits, buf) && i + 3 <= |buf| && k + n <= 24
    ensures BitsAt(bits, 8 * i + k, n)
         == (buf[i] as int * 65536 + buf[i + 1] as int * 256 + buf[i + 2]) % Pow2(24 - k) / Pow2(24 - k - n)
  {
    Window3Value(bits, buf, i);
    FieldOfWindow(bits, 8 * i, 24, k, n);
  }

  /** Three aligned bytes read as one 24-bit field. */
  lemma Window3Value(bits: seq<bool>, buf: seq<byte>, i: nat)
    requires Encodes(bits, buf) && i + 3 <= |buf|
    ensures BitsAt(bits, 8 * i, 24) == buf[i] as int * 65536 + buf[i + 1] as int * 256 + buf[i + 2]
  {
    ByteOf(bits, buf, i, 8 * i);
    ByteOf(bits, buf, i + 1, 8 * i + 8);
    ByteOf(bits, buf, i + 2, 8 * i + 16);
    ThreeBytes(bits, 8 * i, buf[i], buf[i + 1], buf[i + 2]);
  }

  /** Three 8-bit fields side by side read as one 24-bit field. */
  lemma ThreeBytes(bits: seq<bool>, p: nat, b0: nat, b1: nat, b2: nat)
    requires p + 24 <= |bits|
    requires BitsAt(bits, p, 8) == b0 && BitsAt(bits, p + 8, 8) == b1 && BitsAt(bits, p + 16, 8) == b2
    ensures BitsAt(bits, p, 24) == b0 * 65536 + b1 * 256 + b2
  {
    TwoBytes(bits, p, b0, b1);
    Pow2Eight();
    BitsAtConcat(bits, p, 16, 8);
  }

  /** The whole buffer as one big-endian unsigned number. */
  function BigEndian(buf: seq<byte>): nat
  {
    if |buf| == 0 then 0 else BigEndian(buf[..|buf| - 1]) * 256 + buf[|buf| - 1]
  }

  /** The low L bytes of x, most significant first. */
  function ToBytes(x: nat, L: nat): (r: seq<byte>)
    ensures |r| == L
  {
    if L == 0 then [] else ToBytes(x / 256, L - 1) + [x % 256]
  }

  /** The bit string of the whole buffer, read as one number, is its big-endian value. */
  lemma {:induction false} WholeBuffer(buf: seq<byte>)
    ensures BitsAt(BitString(buf), 0, 8 * |buf|) == BigEndian(buf)
  {
    var L := |buf|;
    if L > 0 {
      var pre, last := buf[..L - 1], buf[L - 1];
      WholeBuffer(pre);
      assert buf == pre + [last];
      BitStringAppend(pre, [last]);
      AlignedByte([last], 0);
      AppendByte(BitString(pre), BitString([last]), BigEndian(pre), last);
    }
  }

  /** Eight more bits after a field shift it up a byte and fill the low byte. */
  lemma AppendByte(s1: seq<bool>, s2: seq<bool>, v1: nat, v2: nat)
    requires |s2| == 8 && BitsAt(s1, 0, |s1|) == v1 && BitsAt(s2, 0, 8) == v2
    ensures BitsAt(s1 + s2, 0, |s1| + 8) == v1 * 256 + v2
  {
    BitsAtConcat(s1 + s2, 0, |s1|, 8);
    BitsAtPrefix(s1, s2, 0, |s1|);
    BitsAtSuffix(s1, s2, 0, 8);
    Pow2Eight();
  }

  /** Appending bits after a field does not change it. */
  lemma {:induction false} BitsAtPrefix(s1: seq<bool>, s2: seq<bool>, pos: nat, n: nat)
    requires pos + n <= |s1|
    ensures BitsAt(s1 + s2, pos, n) == BitsAt(s1, pos, n)
    decreases n
  {
    if n > 0 {
      BitsAtPrefix(s1, s2, pos + 1, n - 1);
      assert (s1 + s2)[pos] == s1[pos];
    }
  }

  /** Prepending bits before a field only moves it. */
  lemma {:induction false} BitsAtSuffix(s1: seq<bool>, s2: seq<bool>, pos: nat, n: nat)
    requires pos + n <= |s2|
    ensures BitsAt(s1 + s2, |s1| + pos, n) == BitsAt(s2, pos, n)
    decreases n
  {
    if n > 0 {
      BitsAtSuffix(s1, s2, pos + 1, n - 1);
      assert (s1 + s2)[|s1| + pos] == s2[pos];
    }
  }

  /** The bit string of two buffers joined is their bit strings joined. */
  lemma {:induction false} BitStringAppend(a: seq<byte>, b: seq<byte>)
    ensures BitString(a + b) == BitString(a) + BitString(b)
  {
    if a != [] {
      BitStringAppend(a[1..], b);
      assert (a + b)[1..] == a[1..] + b;
    } else {
      assert a + b == b;
    }
  }

  /** Splitting the big-endian value back into bytes gives the buffer. */
  lemma {:induction false} BytesOfBigEndian(buf: seq<byte>)
    ensures ToBytes(BigEndian(buf), |buf|) == buf
  {
    var L := |buf|;
    if L > 0 {
      var pre := buf[..L - 1];
      BytesOfBigEndian(pre);
      DivModUnique(BigEndian(buf), 256, BigEndian(pre), buf[L - 1]);
      assert buf == pre + [buf[L - 1]];
    }
  }
}
