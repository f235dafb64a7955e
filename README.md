# ST 2110-40 bit extraction and SDP line writing, modelled in Dafny

This project models two parts of the EBU LIST analyser.

**The `get_bits<N>` extractor.** It reads SMPTE ST 2110-40 ancillary-data payloads. Those payloads are streams of 10-bit words packed most-significant-bit first, with no padding (RFC 8331 section 2.1).
- Each call returns the next N bits (1 <= N <= 16) of a byte buffer, right-justified.
- Each call moves a cursor on by exactly N bits. The cursor is a byte index plus a bit offset inside that byte.

**The `sdp_writer`.** It builds the Session Description Protocol text (RFC 4566) that advertises a captured stream.
- The constructor writes the session header.
- Each `add_media` call appends an `m=` line, a `c=` line and two fixed clock attributes (RFC 7273).
- A media kind it cannot serialise is rejected.

Files:

- `arith.dfy` (`Arith`): powers of two and the facts about division and remainder that the bit proofs use.
- `bits.dfy` (`Bits`): the specification side of the extractor.
  - `BitString` is the buffer's bits in transmission order.
  - `BitsAt` is an n-bit field of that string read as an unsigned number.
  - The lemmas say what a field is in terms of the bytes: a whole byte, two bytes big-endian, a slice of one byte, or a slice of three consecutive bytes.
  - The whole buffer read as one field is its big-endian value.
- `bit_reader.dfy` (`BitCursor`): the extractor itself.
  - `BitReader` is the cursor. `BitReader.GetBits` is `get_bits<N>`.
  - `GatherBits` is the model's own gathering loop. It collects the unread bits of each byte into an accumulator, then drops the overhang and masks to N bits.
  - `BitReader.GetBitsRun` makes one `GetBits` call per width, as the tests do, and stops at the first failure.
  - `ReadAll` is a run of extractions. Its lemmas say when a run succeeds and what each value is. They also show that re-packing the values reproduces the buffer.
- `get_bits_vectors.dfy` (`GetBitsVectors`): the six test scenarios of the extractor.
  - Each scenario runs its reads on a fresh `BitReader` over the scenario's bytes, through `GetBitsExpecting`.
  - Each call names the width and the value the test expects, followed by the byte and bit offset of the window the field is cut from.
  - Each states every value returned and where the cursor ends.
- `sdp_writer.dfy` (`Sdp`): `SdpWriter`, with `lines` as the writer's line vector.
  - Each method is specified by the lines it appends.
  - The writer carries ghost state: the settings it was built with, and `media`, the media added so far.
  - Its invariant `Valid()` says that `lines == Document(settings, media)`. `Document(settings, ms)` is the header followed by one block per element of `ms`.
  - The constructor establishes `Valid()` with no media. `AddMedia` preserves it, and a passing call appends `m` to `media`. `DocumentAppend` is the step that proof uses.
  - The lemmas give the layout of that text and count its media lines.

## Model

| member | source | states |
|---|---|---|
| BitCursor.BitReader.constructor | cpp/libs/st2110/unit_tests/ebu/list/st2110/d40/test_anc_getbits.cpp:15-17 | a fresh cursor sits on bit 0 of byte 0 of the buffer and is valid |
| BitCursor.BitReader.GetBits | cpp/libs/st2110/unit_tests/ebu/list/st2110/d40/test_anc_getbits.cpp:11-148 | the result is the n bits after the cursor, MSB-first, as an unsigned number below 2^n. The absolute bit position moves on by exactly n. A width outside 1..16 or a read past the end fails and leaves the cursor where it was |
| BitCursor.GatherBits | cpp/libs/st2110/unit_tests/ebu/list/st2110/d40/test_anc_getbits.cpp:88-94 | gathering whole remaining bytes from (byte p0, bit off0), then shifting off the overhang and masking, yields exactly the n-bit field at 8*p0 + off0, below 2^n |
| Bits.BitsAtBound | cpp/libs/st2110/unit_tests/ebu/list/st2110/d40/test_anc_getbits.cpp:88-94 | an n-bit field is below 2^n |
| Bits.AlignedByte | cpp/libs/st2110/unit_tests/ebu/list/st2110/d40/test_anc_getbits.cpp:15-24 | an 8-bit read at a byte boundary returns that raw byte |
| Bits.AlignedWord16 | cpp/libs/st2110/unit_tests/ebu/list/st2110/d40/test_anc_getbits.cpp:31-42 | a 16-bit read at a byte boundary returns the two bytes big-endian, the first byte in the high half |
| Bits.SubByte | cpp/libs/st2110/unit_tests/ebu/list/st2110/d40/test_anc_getbits.cpp:49-72 | n bits starting k bits into a byte (k + n <= 8) are that byte shifted right by 8 - k - n and masked to n bits |
| Bits.Window3Field | cpp/libs/st2110/unit_tests/ebu/list/st2110/d40/test_anc_getbits.cpp:80-94 | a read that starts k bits into byte i and crosses byte boundaries (k + n <= 24) is the three bytes from i taken as one 24-bit number, cut to the bits [k, k + n) |
| Bits.WholeBuffer | cpp/libs/st2110/unit_tests/ebu/list/st2110/d40/test_anc_getbits.cpp:88-94 | the whole bit string read as one field is the buffer's big-endian value |
| Bits.BytesOfBigEndian | cpp/libs/st2110/unit_tests/ebu/list/st2110/d40/test_anc_getbits.cpp:88-94 | splitting the big-endian value of a buffer back into as many bytes gives the buffer |
| BitCursor.BitReader.GetBitsRun | cpp/libs/st2110/unit_tests/ebu/list/st2110/d40/test_anc_getbits.cpp:57-72 | successive calls on one cursor give exactly the run of reads `ReadAll` from the cursor's position. After a successful run the absolute position has moved on by the sum of the widths. A failed run stopped at its first failing read: every read before it succeeded, the position has moved on by exactly their widths, and the read from there at the next width is the reported error |
| BitCursor.ReadAllSucceeds | cpp/libs/st2110/unit_tests/ebu/list/st2110/d40/test_anc_getbits.cpp:136-144 | a run of reads succeeds if and only if every width is in 1..16 and the start plus the sum of the widths stays within the bits |
| BitCursor.ReadAllValues | cpp/libs/st2110/unit_tests/ebu/list/st2110/d40/test_anc_getbits.cpp:57-72 | the i-th value of a successful run is the field of width ws[i] that starts at the start plus the sum of the earlier widths. That position plus ws[i] is within the bits |
| BitCursor.ReadAllValueBound | cpp/libs/st2110/unit_tests/ebu/list/st2110/d40/test_anc_getbits.cpp:88-94 | every value of a successful run is below 2 to the power of its width |
| BitCursor.ReadAllPack | cpp/libs/st2110/unit_tests/ebu/list/st2110/d40/test_anc_getbits.cpp:88-94 | the values of a successful run, joined MSB-first with each padded to its width, are the field covering the whole run |
| BitCursor.RoundTrip | cpp/libs/st2110/unit_tests/ebu/list/st2110/d40/test_anc_getbits.cpp:88-94 | when the widths of a successful run add up to 8·L bits, re-packing the values and splitting them into L bytes reproduces the buffer |
| GetBitsVectors.EightBitAligned | cpp/libs/st2110/unit_tests/ebu/list/st2110/d40/test_anc_getbits.cpp:15-24 | three 8-bit reads return 0x00, 0xFF, 0xAA and leave the cursor at byte 3, bit 0 |
| GetBitsVectors.SixteenBitAligned | cpp/libs/st2110/unit_tests/ebu/list/st2110/d40/test_anc_getbits.cpp:31-42 | three 16-bit reads return 0x0000, 0xFFFF, 0xAAAA and leave the cursor at byte 6, bit 0 |
| GetBitsVectors.MultipleWordsInAByte | cpp/libs/st2110/unit_tests/ebu/list/st2110/d40/test_anc_getbits.cpp:49-72 | the widths 4,2,2, 3,3,2 and eight 1-bit reads return 1111, 00, 11, 000, 111, 00, 1,0,1,0,1,0,1,0. The cursor ends at byte 3, bit 0, so no byte is skipped |
| GetBitsVectors.MultipleWordsInMultipleBytes | cpp/libs/st2110/unit_tests/ebu/list/st2110/d40/test_anc_getbits.cpp:80-94 | the widths 4, 8, 12, 2, 16, 6 return 0xF, 0, 0xFFF, 0, 0xFFFF, 0, with the 12-bit and 16-bit reads crossing bytes. The cursor ends at byte 6, bit 0 |
| GetBitsVectors.TenBitWordsEvenAligned | cpp/libs/st2110/unit_tests/ebu/list/st2110/d40/test_anc_getbits.cpp:102-119 | eight 10-bit words from bit 0 alternate 0x3FF and 0x000. The cursor ends at byte 10, bit 0 |
| GetBitsVectors.TenBitWordsOddAligned | cpp/libs/st2110/unit_tests/ebu/list/st2110/d40/test_anc_getbits.cpp:126-144 | after one 1-bit read, the same alternating 10-bit words decode at odd alignment. The final 9-bit read ends exactly at byte 10, bit 0 |
| Sdp.SdpWriter.constructor | cpp/libs/rtp/lib/src/ebu/list/sdp/sdp_writer.cpp:9-21 | the writer keeps the settings' path. Its lines are exactly the six header lines v=0, o=- 1 1 IN IP4 0.0.0.0, s=<name>, i=<info> plus the fixed suffix, t=0 0, a=recvonly. No media has been added, and the writer is valid |
| Sdp.SdpWriter.GetSdp | cpp/libs/rtp/lib/src/ebu/list/sdp/sdp_writer.cpp:23-26 | returns the accumulated lines and changes nothing |
| Sdp.SdpWriter.WriteMediaLine | cpp/libs/rtp/lib/src/ebu/list/sdp/sdp_writer.cpp:40-56 | a kind other than video, audio or ancillary fails with UnsupportedMediaKind and appends nothing. Otherwise exactly one line is appended: "m=" + kind + " " + port + " RTP/AVP " + payload type |
| Sdp.SdpWriter.WriteConnectionLine | cpp/libs/rtp/lib/src/ebu/list/sdp/sdp_writer.cpp:58-62 | appends exactly "c=IN IP4 " + address + "/32" |
| Sdp.SdpWriter.WriteMediaClockLines | cpp/libs/rtp/lib/src/ebu/list/sdp/sdp_writer.cpp:64-69 | appends exactly the two fixed clock lines, mediaclk then ts-refclk, whatever the media |
| Sdp.SdpWriter.AddMedia | cpp/libs/rtp/lib/src/ebu/list/sdp/sdp_writer.cpp:71-78 | succeeds if and only if the kind is supported. On success it appends exactly the m=, c=, mediaclk and ts-refclk lines, in that order, after the unchanged earlier lines. On failure it reports UnsupportedMediaKind and the lines are unchanged. It keeps the writer valid, adding m to `media` exactly when it passes |
| Sdp.KindNamesDistinct | cpp/libs/rtp/lib/src/ebu/list/sdp/sdp_writer.cpp:50-51 | the kind strings of two supported kinds are equal if and only if the kinds are equal |
| Sdp.DecimalRoundTrip | cpp/libs/rtp/lib/src/ebu/list/sdp/sdp_writer.cpp:52-55 | the decimal text written for a port or payload type reads back as that number |
| Sdp.DocumentAppend | cpp/libs/rtp/lib/src/ebu/list/sdp/sdp_writer.cpp:71-78 | the document with one more media is the document before it followed by that media's four-line block. `AddMedia` uses this to keep `lines == Document(settings, media)` |
| Sdp.DocumentLayout | cpp/libs/rtp/lib/src/ebu/list/sdp/sdp_writer.cpp:9-78 | the document of n media has 6 + 4n lines. The k-th media's block (m=, c=, mediaclk, ts-refclk) occupies lines 6 + 4k to 9 + 4k |
| Sdp.OneMediaLinePerMedia | cpp/libs/rtp/lib/src/ebu/list/sdp/sdp_writer.cpp:9-78 | the document holds exactly one m= line per media, and its header holds none |
| Sdp.WriterLayout | cpp/libs/rtp/lib/src/ebu/list/sdp/sdp_writer.cpp:9-78 | a valid writer (built by the constructor, then given its media by successful `AddMedia` calls) holds 6 + 4n lines for n media. The k-th media added has its block at lines 6 + 4k to 9 + 4k |
| Sdp.WriterMediaLines | cpp/libs/rtp/lib/src/ebu/list/sdp/sdp_writer.cpp:9-78 | a valid writer's lines hold exactly one m= line per media added |

## Left out

- `sdp_writer::write` (sdp_writer.cpp:28-38): it creates a directory, writes a file and logs, which is I/O. The model keeps the path it would write to and nothing more.
- `ebu/list/st2110/d40/packet.h`, where `get_bits<N>` is implemented, is not part of this model. Only the values returned and the cursor positions reached are fixed, by test_anc_getbits.cpp:11-148. `GatherBits` is the model's own algorithm for producing them, not a copy of the original loop.
- BitCursor.BitReader.GetBits: the raw pointer `p` and the 16-bit `bit_counter` passed by address become two natural-number fields. A wrap-around of a 16-bit counter is not modelled, because its declared use is not visible.
- BitCursor.BitReader.GetBits: what `get_bits` does for N outside 1..16, or for a read past the end of the buffer, is not visible; the tests do neither. Reporting `InvalidWidth` and `BufferUnderrun`, with the cursor left where it was, is this model's choice. The original may have no such checks.
- `fmt::format` and `ebu_list::to_string` for the port and payload type are modelled by `Decimal`, plain unsigned decimal text. The port is taken as the number it denotes, without byte-order conversion.
- `ipv4::to_string` is a foreign call. The destination address is carried as the text it would produce.
- The `std::invalid_argument` raised by `LIST_ENFORCE` becomes the `Fail(UnsupportedMediaKind)` outcome. `add_media` returning the writer itself for chaining is not modelled.
- `media::media_type` enumerators other than video, audio and ancillary data are collapsed into `Unknown`. The writer treats them all alike.
- The Catch2 harness and the buffer helpers `oview`, `make_static_sbuffer` and `to_byte_array` are replaced by plain byte sequences.
- `apps/listwebserver/enums/comparison.js` is a frozen constant map with no behaviour to model.
- The meaning of the decoded ancillary words, and packet capture and transport, are outside the bit-level core.
