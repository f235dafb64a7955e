/**
 * The ST 2110-40 bit extractor: `get_bits<N>` reads the next N bits (1 <= N <= 16)
 * of a byte buffer MSB-first, returns them right-justified and advances a cursor
 * made of a byte index and a bit offset inside that byte by exactly N bits.
 */
module BitCursor {
  import opened Arith
  import opened Bits

  /** The widest field one call may extract. */
  const MaxWidth: nat := 16

  datatype Error =
    | InvalidWidth    // N outside 1..MaxWidth
    | BufferUnderrun  // fewer than N bits left after the cursor

  datatype Result<T> = Ok(value: T) | Err(error: Error)

  /** What one extraction of n bits from absolute bit position pos of a bit string yields. */
  function Read(bits: seq<bool>, pos: nat, n: nat): Result<nat>
  {
    if n < 1 || n > MaxWidth then Err(InvalidWidth)
    else if pos + n > |bits| then Err(BufferUnderrun)
    else Ok(BitsAt(bits, pos, n))
  }

  /** Total number of bits a run of reads of these widths consumes. */
  function Sum(ws: seq<nat>): nat
  {
    if ws == [] then 0 else ws[0] + Sum(ws[1..])
  }

  /** Every width is one a single extraction accepts. */
  predicate ValidWidths(ws: seq<nat>)
  {
    forall i :: 0 <= i < |ws| ==> 1 <= ws[i] <= MaxWidth
  }

  /** A run of extractions, one per width, from position pos; the first failure stops the run. */
  function ReadAll(bits: seq<bool>, pos: nat, ws: seq<nat>): Result<seq<nat>>
    decreases |ws|
  {
    if ws == [] then Ok([])
    else match Read(bits, pos, ws[0])
      case Err(e) => Err(e)
      case Ok(v) =>
        match ReadAll(bits, pos + ws[0], ws[1..])
        case Err(e) => Err(e)
        case Ok(vs) => Ok([v] + vs)
  }

  /** A run's outcome with the values vs, read before it, put in front. */
  function Prepend(vs: seq<nat>, r: Result<seq<nat>>): Result<seq<nat>>
  {
    match r
    case Ok(t) => Ok(vs + t)
    case Err(e) => Err(e)
  }

  /** A run whose first read fails fails with that read's error. */
  lemma RunStops(bits: seq<bool>, pos: nat, ws: seq<nat>)
    requires ws != [] && Read(bits, pos, ws[0]).Err?
    ensures ReadAll(bits, pos, ws) == Err(Read(bits, pos, ws[0]).error)
  {
  }

  /** A run whose first read succeeds is that value in front of the run of the rest. */
  lemma RunGoesOn(bits: seq<bool>, pos: nat, ws: seq<nat>, vs: seq<nat>)
    requires ws != [] && Read(bits, pos, ws[0]).Ok?
    ensures Prepend(vs, ReadAll(bits, pos, ws))
         == Prepend(vs + [Read(bits, pos, ws[0]).value], ReadAll(bits, pos + ws[0], ws[1..]))
  {
    var v := Read(bits, pos, ws[0]).value;
    match ReadAll(bits, pos + ws[0], ws[1..])
    case Ok(t) =>
      assert vs + ([v] + t) == (vs + [v]) + t;
    case Err(e) =>
  }

  /**
   * One step of a run from the state "the values vs are read and the reads of ws from i on
   * are still to come at pos": the next read x either ends the whole run with its error or
   * joins vs.
   */
  lemma RunStep(bits: seq<bool>, start: nat, ws: seq<nat>, i: nat, vs: seq<nat>, pos: nat, x: Result<nat>)
    requires i < |ws| && x == Read(bits, pos, ws[i])
    requires ReadAll(bits, start, ws) == Prepend(vs, ReadAll(bits, pos, ws[i..]))
    ensures x.Err? ==> ReadAll(bits, start, ws) == Err(x.error)
    ensures x.Ok? ==> ReadAll(bits, start, ws) == Prepend(vs + [x.value], ReadAll(bits, pos + ws[i], ws[i + 1..]))
  {
    if x.Err? {
      RunStops(bits, pos, ws[i..]);
    } else {
      RunGoesOn(bits, pos, ws[i..], vs);
      assert ws[i..][1..] == ws[i + 1..];
    }
  }

  /** Every width read: the run is the values read. */
  lemma RunEnd(bits: seq<bool>, pos: nat, ws: seq<nat>, i: nat, vs: seq<nat>)
    requires i == |ws|
    ensures Prepend(vs, ReadAll(bits, pos, ws[i..])) == Ok(vs)
    ensures ws[..i] == ws
  {
    assert ws[i..] == [];
    assert vs + [] == vs;
  }

  /** Nothing read yet: the run is the whole run. */
  lemma RunStart(bits: seq<bool>, start: nat, ws: seq<nat>)
    ensures ReadAll(bits, start, ws) == Prepend([], ReadAll(bits, start, ws[0..]))
    ensures Sum(ws[..0]) == 0
  {
    assert ws[0..] == ws && ws[..0] == [];
    match ReadAll(bits, start, ws)
    case Ok(t) => assert [] + t == t;
    case Err(e) =>
  }

  /** A run that succeeds, followed by one more read that succeeds, is a longer run that succeeds. */
  lemma {:induction false} ReadAllSnoc(bits: seq<bool>, pos: nat, us: seq<nat>, w: nat)
    requires ReadAll(bits, pos, us).Ok? && Read(bits, pos + Sum(us), w).Ok?
    ensures ReadAll(bits, pos, us + [w]) == Ok(ReadAll(bits, pos, us).value + [Read(bits, pos + Sum(us), w).value])
    decreases |us|
  {
    var v := Read(bits, pos + Sum(us), w).value;
    if us == [] {
      assert Sum(us) == 0 && ReadAll(bits, pos, us) == Ok([]);
      assert us + [w] == [w] && [w][1..] == [];
      assert ReadAll(bits, pos + w, []) == Ok([]);
      assert ReadAll(bits, pos, [w]) == Ok([v] + []);
      assert [] + [v] == [v] + [];
    } else {
      var t := ReadAll(bits, pos + us[0], us[1..]).value;
      ReadAllSnoc(bits, pos + us[0], us[1..], w);
      assert (us + [w])[0] == us[0] && (us + [w])[1..] == us[1..] + [w];
      assert [Read(bits, pos, us[0]).value] + (t + [v]) == ([Read(bits, pos, us[0]).value] + t) + [v];
    }
  }

  /**
   * One get_bits call of a run, from the state "the first i reads gave vs and the cursor is
   * at pos, past their widths": a failure is the first one and ends the whole run with its
   * error; a success extends the reads by one.
   */
  lemma RunAdvance(bits: seq<bool>, start: nat, ws: seq<nat>, i: nat, vs: seq<nat>, pos: nat, x: Result<nat>)
    requires i < |ws| && x == Read(bits, pos, ws[i]) && pos == start + Sum(ws[..i])
    requires ReadAll(bits, start, ws[..i]) == Ok(vs)
    requires ReadAll(bits, start, ws) == Prepend(vs, ReadAll(bits, pos, ws[i..]))
    ensures x.Err? ==> ReadAll(bits, start, ws) == Err(x.error)
    ensures x.Err? ==> exists j :: 0 <= j < |ws| && ReadAll(bits, start, ws[..j]).Ok?
                                   && pos == start + Sum(ws[..j]) && Read(bits, pos, ws[j]) == Err(x.error)
    ensures x.Ok? ==> ReadAll(bits, start, ws[..i + 1]) == Ok(vs + [x.value])
    ensures x.Ok? ==> pos + ws[i] == start + Sum(ws[..i + 1])
    ensures x.Ok? ==> ReadAll(bits, start, ws) == Prepend(vs + [x.value], ReadAll(bits, pos + ws[i], ws[i + 1..]))
  {
    RunStep(bits, start, ws, i, vs, pos, x);
    if x.Err? {
      RunFails(bits, start, ws, i, pos, x.error);
    } else {
      ReadAllSnoc(bits, start, ws[..i], ws[i]);
      assert ws[..i] + [ws[i]] == ws[..i + 1];
      SumSnoc(ws, i);
    }
  }

  /**
   * A read that fails after i successful ones, from where they left off: the run has stopped
   * at its first failure, with the cursor past exactly the widths read before it.
   */
  lemma RunFails(bits: seq<bool>, start: nat, ws: seq<nat>, i: nat, pos: nat, e: Error)
    requires i < |ws| && ReadAll(bits, start, ws[..i]).Ok?
    requires pos == start + Sum(ws[..i]) && Read(bits, pos, ws[i]) == Err(e)
    ensures exists j :: 0 <= j < |ws| && ReadAll(bits, start, ws[..j]).Ok?
                        && pos == start + Sum(ws[..j]) && Read(bits, pos, ws[j]) == Err(e)
  {
  }

  /** The widths of a prefix one longer add up to one more width. */
  lemma {:induction false} SumSnoc(ws: seq<nat>, i: nat)
    requires i < |ws|
    ensures Sum(ws[..i + 1]) == Sum(ws[..i]) + ws[i]
    decreases i
  {
    if i > 0 {
      SumSnoc(ws[1..], i - 1);
      assert ws[..i + 1][1..] == ws[1..][..i];
      assert ws[..i][1..] == ws[1..][..i - 1];
      assert ws[1..][i - 1] == ws[i];
    } else {
      assert ws[..1] == [ws[0]];
    }
  }

  /** The values joined MSB-first, each padded to its own width. */
  function Pack(vs: seq<nat>, ws: seq<nat>): nat
    requires |vs| == |ws|
  {
    if vs == [] then 0 else vs[0] * Pow2(Sum(ws[1..])) + Pack(vs[1..], ws[1..])
  }

  /** A run of reads succeeds exactly when every width is valid and the bit string holds all the bits. */
  lemma {:induction false} ReadAllSucceeds(bits: seq<bool>, pos: nat, ws: seq<nat>)
    requires pos <= |bits|
    ensures ReadAll(bits, pos, ws).Ok? <==> ValidWidths(ws) && pos + Sum(ws) <= |bits|
    decreases |ws|
  {
    if ws != [] {
      var w := ws[0];
      assert Sum(ws) == w + Sum(ws[1..]);
      if Read(bits, pos, w).Ok? {
        ReadAllSucceeds(bits, pos + w, ws[1..]);
        assert ReadAll(bits, pos, ws).Ok? == ReadAll(bits, pos + w, ws[1..]).Ok?;
      } else {
        assert !ReadAll(bits, pos, ws).Ok?;
      }
      assert ValidWidths(ws) <==> 1 <= ws[0] <= MaxWidth && ValidWidths(ws[1..]) by {
        if ValidWidths(ws[1..]) && 1 <= ws[0] <= MaxWidth {
          forall i | 0 <= i < |ws| ensures 1 <= ws[i] <= MaxWidth {
            if i > 0 { assert ws[i] == ws[1..][i - 1]; }
          }
        }
      }
    }
  }

  /** A successful run is a successful first read followed by a successful run of the rest. */
  lemma ReadAllStep(bits: seq<bool>, pos: nat, ws: seq<nat>)
    requires ws != [] && ReadAll(bits, pos, ws).Ok?
    ensures pos + ws[0] <= |bits| && ReadAll(bits, pos + ws[0], ws[1..]).Ok?
    ensures ReadAll(bits, pos, ws).value == [BitsAt(bits, pos, ws[0])] + ReadAll(bits, pos + ws[0], ws[1..]).value
  {
  }

  /** The widths before position i are the first one and those before i - 1 in the rest. */
  lemma SumPrefix(ws: seq<nat>, i: nat)
    requires i < |ws|
    ensures i == 0 ==> Sum(ws[..i]) == 0
    ensures i > 0 ==> Sum(ws[..i]) == ws[0] + Sum(ws[1..][..i - 1])
  {
    if i > 0 {
      assert ws[..i][1..] == ws[1..][..i - 1];
    } else {
      assert ws[..i] == [];
    }
  }

  /** The i-th value of a successful run is the field of width ws[i] that starts right after the earlier ones. */
  lemma {:induction false} ReadAllValues(bits: seq<bool>, pos: nat, ws: seq<nat>, i: nat)
    requires ReadAll(bits, pos, ws).Ok?
    requires i < |ws|
    ensures |ReadAll(bits, pos, ws).value| == |ws|
    ensures pos + Sum(ws[..i]) + ws[i] <= |bits|
    ensures ReadAll(bits, pos, ws).value[i] == BitsAt(bits, pos + Sum(ws[..i]), ws[i])
    decreases |ws|
  {
    var w := ws[0];
    ReadAllStep(bits, pos, ws);
    SumPrefix(ws, i);
    if i == 0 {
      if |ws| > 1 {
        ReadAllValues(bits, pos + w, ws[1..], 0);
      }
    } else {
      ReadAllValues(bits, pos + w, ws[1..], i - 1);
      assert ws[1..][i - 1] == ws[i];
    }
  }

  /** Every value of a successful run fits in its own width. */
  lemma ReadAllValueBound(bits: seq<bool>, pos: nat, ws: seq<nat>, i: nat)
    requires ReadAll(bits, pos, ws).Ok?
    requires i < |ws|
    ensures |ReadAll(bits, pos, ws).value| == |ws|
    ensures ReadAll(bits, pos, ws).value[i] < Pow2(ws[i])
  {
    ReadAllValues(bits, pos, ws, i);
    BitsAtBound(bits, pos + Sum(ws[..i]), ws[i]);
  }

  /** Joining the values of a successful run gives back the bits it covered. */
  lemma {:induction false} ReadAllPack(bits: seq<bool>, pos: nat, ws: seq<nat>)
    requires pos <= |bits|
    requires ReadAll(bits, pos, ws).Ok?
    ensures |ReadAll(bits, pos, ws).value| == |ws| && pos + Sum(ws) <= |bits|
    ensures Pack(ReadAll(bits, pos, ws).value, ws) == BitsAt(bits, pos, Sum(ws))
    decreases |ws|
  {
    if ws != [] {
      var w := ws[0];
      ReadAllStep(bits, pos, ws);
      ReadAllPack(bits, pos + w, ws[1..]);
      assert Sum(ws) == w + Sum(ws[1..]);
      BitsAtConcat(bits, pos, w, Sum(ws[1..]));
    }
  }

  /**
   * Round trip: when the widths add up to the whole buffer, re-packing the values read
   * with the same layout reproduces every byte.
   */
  lemma RoundTrip(buf: seq<byte>, ws: seq<nat>)
    requires ReadAll(BitString(buf), 0, ws).Ok?
    requires Sum(ws) == 8 * |buf|
    ensures |ReadAll(BitString(buf), 0, ws).value| == |ws|
    ensures ToBytes(Pack(ReadAll(BitString(buf), 0, ws).value, ws), |buf|) == buf
  {
    ReadAllPack(BitString(buf), 0, ws);
    WholeBuffer(buf);
    BytesOfBigEndian(buf);
  }

  /** Appending the unread bits of byte p to the bits gathered so far extends the field. */
  lemma GatherByte(bits: seq<bool>, buf: seq<byte>, start: nat, gathered: nat, p: nat, off: nat, acc: nat)
    requires Encodes(bits, buf)
    requires p < |buf| && off < 8 && 8 * p + off == start + gathered
    requires acc == BitsAt(bits, start, gathered)
    ensures start + gathered + (8 - off) <= |bits|
    ensures acc * Pow2(8 - off) + buf[p] % Pow2(8 - off) == BitsAt(bits, start, gathered + (8 - off))
  {
    ByteTail(bits, buf, p, off, start + gathered);
    Extend(bits, start, gathered, 8 - off, buf[p] % Pow2(8 - off));
  }

  /** The bits of byte p from bit off on are the byte's low 8 - off bits. */
  lemma ByteTail(bits: seq<bool>, buf: seq<byte>, p: nat, off: nat, q: nat)
    requires Encodes(bits, buf) && p < |buf| && off < 8 && q == 8 * p + off
    ensures q + (8 - off) <= |bits|
    ensures BitsAt(bits, q, 8 - off) == buf[p] % Pow2(8 - off)
  {
    ByteOf(bits, buf, p, 8 * p);
    DropPrefix(bits, 8 * p, off, 8 - off);
  }

  /** A field followed by an m-bit field of value v reads as the first shifted up by m, plus v. */
  lemma Extend(bits: seq<bool>, start: nat, a: nat, m: nat, v: nat)
    requires start + a + m <= |bits| && BitsAt(bits, start + a, m) == v
    ensures BitsAt(bits, start, a) * Pow2(m) + v == BitsAt(bits, start, a + m)
  {
    BitsAtConcat(bits, start, a, m);
  }

  /** Shifting off the bits gathered past an n-bit field, then masking to n bits, leaves the field. */
  lemma DropExcess(bits: seq<bool>, start: nat, n: nat, excess: nat)
    requires start + n + excess <= |bits|
    ensures BitsAt(bits, start, n + excess) / Pow2(excess) % Pow2(n) == BitsAt(bits, start, n)
  {
    var field := BitsAt(bits, start, n);
    DropSuffix(bits, start, n, excess);
    BitsAtBound(bits, start, n);
    DivModUnique(field, Pow2(n), 0, field);
  }

  /**
   * The extraction loop of get_bits: gathers the unread bits of each byte from the cursor
   * (byte p0, bit off0) on into an accumulator until at least n bits are in, then drops
   * the bits gathered past the field.
   */
  method GatherBits(buf: seq<byte>, p0: nat, off0: nat, n: nat) returns (v: nat)
    requires off0 < 8 && 8 * p0 + off0 + n <= 8 * |buf|
    ensures v == BitsAt(BitString(buf), 8 * p0 + off0, n)
    ensures v < Pow2(n)
  {
    ghost var bits, start := BitString(buf), 8 * p0 + off0;
    EncodesBitString(buf);
    var acc, gathered := 0, 0;
    var p, off := p0, off0;
    while gathered < n
      invariant off < 8 && (gathered > 0 ==> off == 0)
      invariant 8 * p + off == start + gathered <= |bits|
      invariant gathered <= n + 7
      invariant acc == BitsAt(bits, start, gathered)
    {
      var take := 8 - off;
      GatherByte(bits, buf, start, gathered, p, off, acc);
      acc := acc * Pow2(take) + buf[p] % Pow2(take);
      gathered := gathered + take;
      p, off := p + 1, 0;
    }
    DropExcess(bits, start, n, gathered - n);
    v := acc / Pow2(gathered - n) % Pow2(n);
  }

  /** The extraction cursor over one packet's payload. */
  class BitReader {
    const buf: seq<byte>
    var byteIndex: nat
    var bitOffset: nat

    ghost predicate Valid()
      reads this
    {
      bitOffset < 8 && 8 * byteIndex + bitOffset <= 8 * |buf|
    }

    /** The absolute bit position of the cursor. */
    function Position(): nat
      reads this
    {
      8 * byteIndex + bitOffset
    }

    /** A fresh cursor sits on bit 0 of byte 0. */
    constructor (data: seq<byte>)
      ensures Valid()
      ensures buf == data && byteIndex == 0 && bitOffset == 0
    {
      buf := data;
      byteIndex, bitOffset := 0, 0;
    }

    /**
     * get_bits<N>: rejects a width outside 1..MaxWidth and a read past the end of the
     * buffer, otherwise extracts the next n bits and moves the cursor on by n bits.
     * A failing call leaves the cursor where it was.
     */
    method GetBits(n: nat) returns (r: Result<nat>)
      requires Valid()
      modifies this
      ensures Valid()
      ensures r == Read(BitString(buf), old(Position()), n)
      ensures r.Ok? ==> r.value < Pow2(n)
      ensures Position() == if r.Ok? then old(Position()) + n else old(Position())
    {
      if n < 1 || n > MaxWidth {
        return Err(InvalidWidth);
      }
      var total := 8 * byteIndex + bitOffset + n;
      if total > 8 * |buf| {
        return Err(BufferUnderrun);
      }
      var v := GatherBits(buf, byteIndex, bitOffset, n);
      byteIndex, bitOffset := total / 8, total % 8;
      r := Ok(v);
    }

    /**
     * Successive get_bits calls, one per width, stopping at the first failure: the outcome
     * is the run of reads from where the cursor stood. After a successful run the cursor
     * has moved on by the sum of the widths; after a failed one it stands just before the
     * first read that failed, past the widths read before it, all of which succeeded.
     */
    method GetBitsRun(ws: seq<nat>) returns (r: Result<seq<nat>>)
      requires Valid()
      modifies this
      ensures Valid()
      ensures r == ReadAll(BitString(buf), old(Position()), ws)
      ensures r.Ok? ==> Position() == old(Position()) + Sum(ws)
      ensures r.Err? ==> exists j :: 0 <= j < |ws| && ReadAll(BitString(buf), old(Position()), ws[..j]).Ok?
                                     && Position() == old(Position()) + Sum(ws[..j])
                                     && Read(BitString(buf), Position(), ws[j]) == Err(r.error)
    {
      ghost var bits, start := BitString(buf), Position();
      RunStart(bits, start, ws);
      var vs: seq<nat> := [];
      var i := 0;
      while i < |ws|
        invariant i <= |ws| && Valid()
        invariant Position() == start + Sum(ws[..i])
        invariant ReadAll(bits, start, ws[..i]) == Ok(vs)
        invariant ReadAll(bits, start, ws) == Prepend(vs, ReadAll(bits, Position(), ws[i..]))
      {
        ghost var pos := Position();
        var x := GetBits(ws[i]);
        RunAdvance(bits, start, ws, i, vs, pos, x);
        if x.Err? {
          return Err(x.error);
        }
        vs := vs + [x.value];
        i := i + 1;
      }
      RunEnd(bits, Position(), ws, i, vs);
      r := Ok(vs);
    }
  }
}
