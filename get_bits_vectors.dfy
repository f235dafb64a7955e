/**
 * The get_bits test vectors of the ST 2110-40 decoder. Each method runs the reads of one
 * scenario on a fresh BitReader and states the values returned and where the cursor ends.
 */
module GetBitsVectors {
  import opened Arith
  import opened Bits
  import opened BitCursor

  /** The powers of two a read inside a three-byte window uses. */
  lemma WindowPowers()
    ensures Pow2(0) == 0x1 &&
            Pow2(1) == 0x2 &&
            Pow2(2) == 0x4 &&
            Pow2(3) == 0x8 &&
            Pow2(4) == 0x10 &&
            Pow2(5) == 0x20 &&
            Pow2(6) == 0x40 &&
            Pow2(7) == 0x80 &&
            Pow2(8) == 0x100 &&
            Pow2(9) == 0x200 &&
            Pow2(10) == 0x400 &&
            Pow2(11) == 0x800 &&
            Pow2(12) == 0x1000 &&
            Pow2(13) == 0x2000 &&
            Pow2(14) == 0x4000 &&
            Pow2(15) == 0x8000 &&
            Pow2(16) == 0x10000 &&
            Pow2(17) == 0x20000 &&
            Pow2(18) == 0x40000 &&
            Pow2(19) == 0x80000 &&
            Pow2(20) == 0x100000 &&
            Pow2(21) == 0x200000 &&
            Pow2(22) == 0x400000 &&
            Pow2(23) == 0x800000 &&
            Pow2(24) == 0x1000000
  {
    assert Pow2(8) == 0x100;
    assert Pow2(16) == 0x10000;
  }

  /** Bytes i, i + 1 and i + 2 as one big-endian number. */
  function Window(buf: seq<byte>, i: nat): nat
    requires i + 3 <= |buf|
  {
    buf[i] as int * 65536 + buf[i + 1] as int * 256 + buf[i + 2]
  }

  /**
   * One get_bits call of width n that the test expects to return `expected`. The cursor
   * stands k bits into byte i of `bytes`, and the n bits lie in bytes i to i + 2; the
   * expected value is those three bytes cut to bits [k, k + n). The call returns it and
   * moves the cursor on by n.
   */
  method GetBitsExpecting(reader: BitReader, bytes: seq<byte>, n: nat, expected: nat, i: nat, k: nat)
    returns (r: Result<nat>)
    requires reader.Valid() && reader.buf == bytes && reader.Position() == 8 * i + k
    requires 1 <= n <= MaxWidth && i + 3 <= |bytes| && k + n <= 24
    requires expected == Window(bytes, i) % Pow2(24 - k) / Pow2(24 - k - n)
    modifies reader
    ensures reader.Valid() && reader.Position() == old(reader.Position()) + n
    ensures r == Ok(expected)
  {
    EncodesBitString(reader.buf);
    Window3Field(BitString(reader.buf), reader.buf, i, k, n);
    r := reader.GetBits(n);
  }

  /** The bytes of the test vector "8-bit aligned words". */
  const EightBitAlignedBuffer: seq<byte> := [0x00, 0xFF, 0xAA]

  /** The three-byte windows of EightBitAlignedBuffer that its reads fall in. */
  lemma EightBitAlignedWindows()
    ensures |EightBitAlignedBuffer| == 3
    ensures Window(EightBitAlignedBuffer, 0) == 0x00FFAA
  {
  }

  /** Test vector "8-bit aligned words": widths 8, 8, 8 from a fresh cursor. */
  method EightBitAligned() returns (results: seq<Result<nat>>, byteIndex: nat, bitOffset: nat)
    ensures results == [Ok(0x0), Ok(0xFF), Ok(0xAA)]
    ensures byteIndex == 3 && bitOffset == 0
  {
    var buf := EightBitAlignedBuffer;
    EightBitAlignedWindows();
    WindowPowers();
    var reader := new BitReader(buf);
    var r0 := GetBitsExpecting(reader, buf, 8, 0x0, 0, 0);
    var r1 := GetBitsExpecting(reader, buf, 8, 0xFF, 0, 8);
    var r2 := GetBitsExpecting(reader, buf, 8, 0xAA, 0, 16);
    results := [r0, r1, r2];
    byteIndex, bitOffset := reader.byteIndex, reader.bitOffset;
  }

  /** The bytes of the test vector "16-bit aligned words". */
  const SixteenBitAlignedBuffer: seq<byte> := [0x00, 0x00, 0xFF, 0xFF, 0xAA, 0xAA]

  /** The three-byte windows of SixteenBitAlignedBuffer that its reads fall in. */
  lemma SixteenBitAlignedWindows()
    ensures |SixteenBitAlignedBuffer| == 6
    ensures Window(SixteenBitAlignedBuffer, 0) == 0x0000FF
    ensures Window(SixteenBitAlignedBuffer, 2) == 0xFFFFAA
    ensures Window(SixteenBitAlignedBuffer, 3) == 0xFFAAAA
  {
  }

  /** Test vector "16-bit aligned words": widths 16, 16, 16 from a fresh cursor. */
  method SixteenBitAligned() returns (results: seq<Result<nat>>, byteIndex: nat, bitOffset: nat)
    ensures results == [Ok(0x0), Ok(0xFFFF), Ok(0xAAAA)]
    ensures byteIndex == 6 && bitOffset == 0
  {
    var buf := SixteenBitAlignedBuffer;
    SixteenBitAlignedWindows();
    WindowPowers();
    var reader := new BitReader(buf);
    var r0 := GetBitsExpecting(reader, buf, 16, 0x0, 0, 0);
    var r1 := GetBitsExpecting(reader, buf, 16, 0xFFFF, 2, 0);
    var r2 := GetBitsExpecting(reader, buf, 16, 0xAAAA, 3, 8);
    results := [r0, r1, r2];
    byteIndex, bitOffset := reader.byteIndex, reader.bitOffset;
  }

  /** The bytes of the test vector "multiple words in a byte". */
  const MultipleWordsInAByteBuffer: seq<byte> := [0xF3, 0x1C, 0xAA]

  /** The three-byte windows of MultipleWordsInAByteBuffer that its reads fall in. */
  lemma MultipleWordsInAByteWindows()
    ensures |MultipleWordsInAByteBuffer| == 3
    ensures Window(MultipleWordsInAByteBuffer, 0) == 0xF31CAA
  {
  }

  /** Test vector "multiple words in a byte": widths 4, 2, 2, 3, 3, 2, 1, 1, 1, 1, 1, 1, 1, 1 from a fresh cursor. */
  method MultipleWordsInAByte() returns (results: seq<Result<nat>>, byteIndex: nat, bitOffset: nat)
    ensures results == [Ok(0xF), Ok(0x0), Ok(0x3), Ok(0x0), Ok(0x7), Ok(0x0), Ok(0x1), Ok(0x0), Ok(0x1), Ok(0x0), Ok(0x1), Ok(0x0), Ok(0x1), Ok(0x0)]
    ensures byteIndex == 3 && bitOffset == 0
  {
    var buf := MultipleWordsInAByteBuffer;
    MultipleWordsInAByteWindows();
    WindowPowers();
    var reader := new BitReader(buf);
    var r0 := GetBitsExpecting(reader, buf, 4, 0xF, 0, 0);
    var r1 := GetBitsExpecting(reader, buf, 2, 0x0, 0, 4);
    var r2 := GetBitsExpecting(reader, buf, 2, 0x3, 0, 6);
    var r3 := GetBitsExpecting(reader, buf, 3, 0x0, 0, 8);
    var r4 := GetBitsExpecting(reader, buf, 3, 0x7, 0, 11);
    var r5 := GetBitsExpecting(reader, buf, 2, 0x0, 0, 14);
    var r6 := GetBitsExpecting(reader, buf, 1, 0x1, 0, 16);
    var r7 := GetBitsExpecting(reader, buf, 1, 0x0, 0, 17);
    var r8 := GetBitsExpecting(reader, buf, 1, 0x1, 0, 18);
    var r9 := GetBitsExpecting(reader, buf, 1, 0x0, 0, 19);
    var r10 := GetBitsExpecting(reader, buf, 1, 0x1, 0, 20);
    var r11 := GetBitsExpecting(reader, buf, 1, 0x0, 0, 21);
    var r12 := GetBitsExpecting(reader, buf, 1, 0x1, 0, 22);
    var r13 := GetBitsExpecting(reader, buf, 1, 0x0, 0, 23);
    results := [r0, r1, r2, r3, r4, r5, r6, r7, r8, r9, r10, r11, r12, r13];
    byteIndex, bitOffset := reader.byteIndex, reader.bitOffset;
  }

  /** The bytes of the test vector "multiple words in multiple bytes". */
  const MultipleWordsInMultipleBytesBuffer: seq<byte> := [0xF0, 0x0F, 0xFF, 0x3F, 0xFF, 0xC0]

  /** The three-byte windows of MultipleWordsInMultipleBytesBuffer that its reads fall in. */
  lemma MultipleWordsInMultipleBytesWindows()
    ensures |MultipleWordsInMultipleBytesBuffer| == 6
    ensures Window(MultipleWordsInMultipleBytesBuffer, 0) == 0xF00FFF
    ensures Window(MultipleWordsInMultipleBytesBuffer, 1) == 0x0FFF3F
    ensures Window(MultipleWordsInMultipleBytesBuffer, 3) == 0x3FFFC0
  {
  }

  /** Test vector "multiple words in multiple bytes": widths 4, 8, 12, 2, 16, 6 from a fresh cursor. */
  method MultipleWordsInMultipleBytes() returns (results: seq<Result<nat>>, byteIndex: nat, bitOffset: nat)
    ensures results == [Ok(0xF), Ok(0x0), Ok(0xFFF), Ok(0x0), Ok(0xFFFF), Ok(0x0)]
    ensures byteIndex == 6 && bitOffset == 0
  {
    var buf := MultipleWordsInMultipleBytesBuffer;
    MultipleWordsInMultipleBytesWindows();
    WindowPowers();
    var reader := new BitReader(buf);
    var r0 := GetBitsExpecting(reader, buf, 4, 0xF, 0, 0);
    var r1 := GetBitsExpecting(reader, buf, 8, 0x0, 0, 4);
    var r2 := GetBitsExpecting(reader, buf, 12, 0xFFF, 1, 4);
    var r3 := GetBitsExpecting(reader, buf, 2, 0x0, 3, 0);
    var r4 := GetBitsExpecting(reader, buf, 16, 0xFFFF, 3, 2);
    var r5 := GetBitsExpecting(reader, buf, 6, 0x0, 3, 18);
    results := [r0, r1, r2, r3, r4, r5];
    byteIndex, bitOffset := reader.byteIndex, reader.bitOffset;
  }

  /** The bytes of the test vector "10-bit words even-aligned". */
  const TenBitWordsEvenAlignedBuffer: seq<byte> := [0xFF, 0xC0, 0x0F, 0xFC, 0x00, 0xFF, 0xC0, 0x0F, 0xFC, 0x00]

  /** The three-byte windows of TenBitWordsEvenAlignedBuffer that its reads fall in. */
  lemma TenBitWordsEvenAlignedWindows()
    ensures |TenBitWordsEvenAlignedBuffer| == 10
    ensures Window(TenBitWordsEvenAlignedBuffer, 0) == 0xFFC00F
    ensures Window(TenBitWordsEvenAlignedBuffer, 1) == 0xC00FFC
    ensures Window(TenBitWordsEvenAlignedBuffer, 2) == 0x0FFC00
    ensures Window(TenBitWordsEvenAlignedBuffer, 3) == 0xFC00FF
    ensures Window(TenBitWordsEvenAlignedBuffer, 5) == 0xFFC00F
    ensures Window(TenBitWordsEvenAlignedBuffer, 6) == 0xC00FFC
    ensures Window(TenBitWordsEvenAlignedBuffer, 7) == 0x0FFC00
  {
  }

  /** Test vector "10-bit words even-aligned": widths 10, 10, 10, 10, 10, 10, 10, 10 from a fresh cursor. */
  method TenBitWordsEvenAligned() returns (results: seq<Result<nat>>, byteIndex: nat, bitOffset: nat)
    ensures results == [Ok(0x3FF), Ok(0x0), Ok(0x3FF), Ok(0x0), Ok(0x3FF), Ok(0x0), Ok(0x3FF), Ok(0x0)]
    ensures byteIndex == 10 && bitOffset == 0
  {
    var buf := TenBitWordsEvenAlignedBuffer;
    TenBitWordsEvenAlignedWindows();
    WindowPowers();
    var reader := new BitReader(buf);
    var r0 := GetBitsExpecting(reader, buf, 10, 0x3FF, 0, 0);
    var r1 := GetBitsExpecting(reader, buf, 10, 0x0, 1, 2);
    var r2 := GetBitsExpecting(reader, buf, 10, 0x3FF, 2, 4);
    var r3 := GetBitsExpecting(reader, buf, 10, 0x0, 3, 6);
    var r4 := GetBitsExpecting(reader, buf, 10, 0x3FF, 5, 0);
    var r5 := GetBitsExpecting(reader, buf, 10, 0x0, 6, 2);
    var r6 := GetBitsExpecting(reader, buf, 10, 0x3FF, 7, 4);
    var r7 := GetBitsExpecting(reader, buf, 10, 0x0, 7, 14);
    results := [r0, r1, r2, r3, r4, r5, r6, r7];
    byteIndex, bitOffset := reader.byteIndex, reader.bitOffset;
  }

  /** The bytes of the test vector "10-bit words odd-aligned". */
  const TenBitWordsOddAlignedBuffer: seq<byte> := [0x7F, 0xE0, 0x07, 0xFE, 0x00, 0x7F, 0xE0, 0x07, 0xFE, 0x00]

  /** The three-byte windows of TenBitWordsOddAlignedBuffer that its reads fall in. */
  lemma TenBitWordsOddAlignedWindows()
    ensures |TenBitWordsOddAlignedBuffer| == 10
    ensures Window(TenBitWordsOddAlignedBuffer, 0) == 0x7FE007
    ensures Window(TenBitWordsOddAlignedBuffer, 1) == 0xE007FE
    ensures Window(TenBitWordsOddAlignedBuffer, 2) == 0x07FE00
    ensures Window(TenBitWordsOddAlignedBuffer, 3) == 0xFE007F
    ensures Window(TenBitWordsOddAlignedBuffer, 5) == 0x7FE007
    ensures Window(TenBitWordsOddAlignedBuffer, 6) == 0xE007FE
    ensures Window(TenBitWordsOddAlignedBuffer, 7) == 0x07FE00
  {
  }

  /** Test vector "10-bit words odd-aligned": widths 1, 10, 10, 10, 10, 10, 10, 10, 9 from a fresh cursor. */
  method TenBitWordsOddAligned() returns (results: seq<Result<nat>>, byteIndex: nat, bitOffset: nat)
    ensures results == [Ok(0x0), Ok(0x3FF), Ok(0x0), Ok(0x3FF), Ok(0x0), Ok(0x3FF), Ok(0x0), Ok(0x3FF), Ok(0x0)]
    ensures byteIndex == 10 && bitOffset == 0
  {
    var buf := TenBitWordsOddAlignedBuffer;
    TenBitWordsOddAlignedWindows();
    WindowPowers();
    var reader := new BitReader(buf);
    var r0 := GetBitsExpecting(reader, buf, 1, 0x0, 0, 0);
    var r1 := GetBitsExpecting(reader, buf, 10, 0x3FF, 0, 1);
    var r2 := GetBitsExpecting(reader, buf, 10, 0x0, 1, 3);
    var r3 := GetBitsExpecting(reader, buf, 10, 0x3FF, 2, 5);
    var r4 := GetBitsExpecting(reader, buf, 10, 0x0, 3, 7);
    var r5 := GetBitsExpecting(reader, buf, 10, 0x3FF, 5, 1);
    var r6 := GetBitsExpecting(reader, buf, 10, 0x0, 6, 3);
    var r7 := GetBitsExpecting(reader, buf, 10, 0x3FF, 7, 5);
    var r8 := GetBitsExpecting(reader, buf, 9, 0x0, 7, 15);
    results := [r0, r1, r2, r3, r4, r5, r6, r7, r8];
    byteIndex, bitOffset := reader.byteIndex, reader.bitOffset;
  }
}
