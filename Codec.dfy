/** The binary tick codec: `_probe_price_format`, `_read_n_tick_records` and `_decode_ticks`.
    LZMA itself is a parameter: an `Inflater` says, for each compressed payload, which bytes
    the decoder produces before it stops and why it stopped. */
module Codec {
  import opened Common
  import opened BigEndian

  const RECORD_SIZE: int := 20

  /** Why the LZMA decoder stopped: at the end-of-stream marker, because the input ran out
      before that marker, or on data it cannot decode. */
  datatype Ending = Clean | Truncated | Damaged

  /** What the LZMA decoder makes of a compressed payload. */
  datatype Inflated = Inflated(data: seq<byte>, ending: Ending) {
    const clean: bool := ending == Clean
  }

  /** The exception a streaming read raises when the decoder stops short of the bytes asked
      for: EOFError when the input ran out, LZMAError on data it cannot decode. */
  function StreamError(z: Inflated): Error {
    if z.ending == Truncated then StreamEnded else Lzma
  }

  type Inflater = seq<byte> -> Inflated

  /** `lzma.decompress(compressed)`: all of the output, or an LZMA error. */
  function Decompress(inflate: Inflater, compressed: seq<byte>): (r: Result<seq<byte>>)
    ensures r.Ok? <==> inflate(compressed).clean
    ensures r.Ok? ==> r.value == inflate(compressed).data
    ensures r.Err? ==> r.error == Lzma
  {
    var z := inflate(compressed);
    if z.clean then Ok(z.data) else Err(Lzma)
  }

  /** `lzma.open(io.BytesIO(compressed), "rb").read(size)`: a size of -1 reads to the end,
      a non-negative one returns at most `size` bytes, short only at a clean end of stream;
      a size below -1 is refused. A stream that stops early raises as `StreamError` says. */
  function StreamRead(inflate: Inflater, compressed: seq<byte>, size: int): (r: Result<seq<byte>>)
    ensures var z := inflate(compressed);
      && (0 <= size && (size <= |z.data| || z.clean) ==>
            r.Ok? && r.value == z.data[..if size <= |z.data| then size else |z.data|])
      && (0 < size && |z.data| < size && !z.clean ==> r == Err(StreamError(z)))
      && (size == -1 && z.clean ==> r == Ok(z.data))
      && (size == -1 && !z.clean ==> r == Err(StreamError(z)))
      && (size < -1 ==> r == Err(BadReadSize))
      && (r.Err? ==> r.error in {StreamEnded, Lzma, BadReadSize})
  {
    var z := inflate(compressed);
    if size < -1 then Err(BadReadSize)
    else if size == 0 then Ok([])
    else if size == -1 || |z.data| < size then
      (if z.clean then Ok(z.data) else Err(StreamError(z)))
    else Ok(z.data[..size])
  }

  /** `_read_n_tick_records`: the first `min(20 n, len)` decompressed bytes. */
  function ReadNTickRecords(inflate: Inflater, compressed: seq<byte>, n: int): (r: Result<seq<byte>>)
    ensures var z := inflate(compressed);
      && (0 <= n && z.clean ==>
            r == Ok(z.data[..if RECORD_SIZE * n <= |z.data| then RECORD_SIZE * n else |z.data|]))
      && (0 <= n && RECORD_SIZE * n <= |z.data| ==> r == Ok(z.data[..RECORD_SIZE * n]))
      && (0 < n && |z.data| < RECORD_SIZE * n && !z.clean ==> r == Err(StreamError(z)))
      && (n < 0 ==> r == Err(BadReadSize))
  {
    StreamRead(inflate, compressed, RECORD_SIZE * n)
  }

  /** The probe's rule on the first record, whose ask and bid fields sit at offsets 4 and 8:
      integer prices misread as floats come out non-finite or absurdly small. */
  predicate LooksLikeInts(rec: seq<byte>)
    requires |rec| >= RECORD_SIZE
  {
    || !IsFinite32At(rec, 4) || !IsFinite32At(rec, 8)
    || (Tiny32At(rec, 4) && Tiny32At(rec, 8))
  }

  /** `_probe_price_format`: "int" or "float" from the first 20 decompressed bytes; an error
      when fewer are available. */
  function ProbePriceFormat(inflate: Inflater, compressed: seq<byte>): (r: Result<string>)
    ensures var z := inflate(compressed);
      && (r.Ok? <==> |z.data| >= RECORD_SIZE)
      && (r.Err? ==> r.error == if z.clean then TooShortToProbe else StreamError(z))
      && (r.Ok? ==> r.value == (if LooksLikeInts(z.data[..RECORD_SIZE]) then "int" else "float"))
  {
    var first :- StreamRead(inflate, compressed, RECORD_SIZE);
    if |first| < RECORD_SIZE then Err(TooShortToProbe)
    else if !IsFinite32At(first, 4) || !IsFinite32At(first, 8) then Ok("int")
    else if Tiny32At(first, 4) && Tiny32At(first, 8) then Ok("int")
    else Ok("float")
  }

  /** `price_divisor or 1.0`: a zero divisor falls back to 1. */
  function EffectiveDivisor(priceDivisor: real): (d: real)
    ensures d != 0.0
    ensures priceDivisor != 0.0 ==> d == priceDivisor
  {
    if priceDivisor == 0.0 then 1.0 else priceDivisor
  }

  /** One 20-byte record at `off`: `>i f f f f` (float layout) or `>i i i f f` (int layout,
      prices divided by `div`). Fields: ms offset, ask, bid, ask volume, bid volume. */
  function DecodeRecord(hourStart: int, raw: seq<byte>, off: int, intLayout: bool, div: real): Tick
    requires 0 <= off && off + RECORD_SIZE <= |raw| && div != 0.0
  {
    var ts := hourStart + Int32At(raw, off);
    var ask := if intLayout then Int32At(raw, off + 4) as real / div else Float32At(raw, off + 4);
    var bid := if intLayout then Int32At(raw, off + 8) as real / div else Float32At(raw, off + 8);
    Tick(ts, bid, ask, Float32At(raw, off + 16), Float32At(raw, off + 12))
  }

  function DecodeAll(hourStart: int, raw: seq<byte>, intLayout: bool, div: real): (ticks: seq<Tick>)
    requires |raw| % RECORD_SIZE == 0 && div != 0.0
    ensures |ticks| == |raw| / RECORD_SIZE
  {
    seq(|raw| / RECORD_SIZE, i requires 0 <= i < |raw| / RECORD_SIZE =>
      DecodeRecord(hourStart, raw, RECORD_SIZE * i, intLayout, div))
  }

  /** `_decode_ticks`: decompress, insist on whole records, decode every record in order in
      the chosen layout; any other format name is refused. */
  function Decode(hourStart: int, compressed: seq<byte>, inflate: Inflater, priceFormat: string,
                  priceDivisor: real): (r: Result<seq<Tick>>)
    ensures var z := inflate(compressed);
      && (r.Ok? <==> z.clean && |z.data| % RECORD_SIZE == 0 && (priceFormat == "float" || priceFormat == "int"))
      && (!z.clean ==> r == Err(Lzma))
      && (z.clean && |z.data| % RECORD_SIZE != 0 ==> r == Err(BadPayloadLength(|z.data|)))
      && (r.Ok? ==>
            && |r.value| == |z.data| / RECORD_SIZE
            && forall i :: 0 <= i < |r.value| ==>
                 r.value[i].ts == hourStart + Int32At(z.data, RECORD_SIZE * i))
  {
    var raw :- Decompress(inflate, compressed);
    if |raw| % RECORD_SIZE != 0 then Err(BadPayloadLength(|raw|))
    else if priceFormat == "float" then Ok(DecodeAll(hourStart, raw, false, 1.0))
    else if priceFormat == "int" then Ok(DecodeAll(hourStart, raw, true, EffectiveDivisor(priceDivisor)))
    else Err(BadPriceFormat)
  }

  /** `_decode_ticks` with its loops appending to `ticks`. */
  method DecodeTicks(hourStart: int, compressed: seq<byte>, inflate: Inflater, priceFormat: string,
                     priceDivisor: real) returns (r: Result<seq<Tick>>)
    ensures r == Decode(hourStart, compressed, inflate, priceFormat, priceDivisor)
  {
    var z := inflate(compressed);
    if !z.clean {
      return Err(Lzma);
    }
    var raw := z.data;
    if |raw| % RECORD_SIZE != 0 {
      return Err(BadPayloadLength(|raw|));
    }
    var intLayout: bool;
    var div: real;
    if priceFormat == "float" {
      intLayout, div := false, 1.0;
    } else if priceFormat == "int" {
      intLayout, div := true, EffectiveDivisor(priceDivisor);
    } else {
      return Err(BadPriceFormat);
    }
    var ticks: seq<Tick> := [];
    var i := 0;
    while i < |raw|
      invariant 0 <= i <= |raw| && i % RECORD_SIZE == 0
      invariant |ticks| == i / RECORD_SIZE
      invariant forall k :: 0 <= k < |ticks| ==> ticks[k] == DecodeRecord(hourStart, raw, RECORD_SIZE * k, intLayout, div)
      decreases |raw| - i
    {
      ticks := ticks + [DecodeRecord(hourStart, raw, i, intLayout, div)];
      i := i + RECORD_SIZE;
    }
    r := Ok(ticks);
    assert ticks == DecodeAll(hourStart, raw, intLayout, div);
  }

  // ---------------------------------------------------------------------------
  // Records as an encoder writes them, and the decoder reading them back

  /** One record's fields: the millisecond offset and four raw 4-byte fields. For the int
      layout, `ask` and `bid` hold `struct.pack(">i", price)`. */
  datatype Row = Row(ms: int, ask: seq<byte>, bid: seq<byte>, askVol: seq<byte>, bidVol: seq<byte>)

  predicate WellFormedRow(row: Row) {
    -TWO_31 <= row.ms < TWO_31 && |row.ask| == 4 && |row.bid| == 4 && |row.askVol| == 4 && |row.bidVol| == 4
  }

  function EncodeRow(row: Row): (b: seq<byte>)
    requires WellFormedRow(row)
    ensures |b| == RECORD_SIZE
  {
    EncodeInt32(row.ms) + row.ask + row.bid + row.askVol + row.bidVol
  }

  function EncodeRows(rows: seq<Row>): (b: seq<byte>)
    requires forall i :: 0 <= i < |rows| ==> WellFormedRow(rows[i])
    ensures |b| == RECORD_SIZE * |rows|
  {
    if rows == [] then [] else EncodeRow(rows[0]) + EncodeRows(rows[1..])
  }

  lemma {:induction false} WholeRecords(n: nat)
    ensures (RECORD_SIZE * n) % RECORD_SIZE == 0 && (RECORD_SIZE * n) / RECORD_SIZE == n
  {
    if n > 0 {
      WholeRecords(n - 1);
      assert RECORD_SIZE * n == RECORD_SIZE * (n - 1) + RECORD_SIZE;
    }
  }

  /** The tick a decoder should produce for a row. */
  function RowTick(hourStart: int, row: Row, intLayout: bool, div: real): Tick
    requires WellFormedRow(row) && div != 0.0
  {
    var ask := if intLayout then Int32At(row.ask, 0) as real / div else Float32At(row.ask, 0);
    var bid := if intLayout then Int32At(row.bid, 0) as real / div else Float32At(row.bid, 0);
    Tick(hourStart + row.ms, bid, ask, Float32At(row.bidVol, 0), Float32At(row.askVol, 0))
  }

  lemma {:induction false} EncodeRowsAt(rows: seq<Row>, i: int)
    requires forall k :: 0 <= k < |rows| ==> WellFormedRow(rows[k])
    requires 0 <= i < |rows|
    ensures EncodeRows(rows)[RECORD_SIZE * i..RECORD_SIZE * i + RECORD_SIZE] == EncodeRow(rows[i])
  {
    if i > 0 {
      EncodeRowsAt(rows[1..], i - 1);
      var head := EncodeRow(rows[0]);
      var tail := EncodeRows(rows[1..]);
      assert EncodeRows(rows) == head + tail;
      assert (head + tail)[RECORD_SIZE * i..RECORD_SIZE * i + RECORD_SIZE]
          == tail[RECORD_SIZE * (i - 1)..RECORD_SIZE * (i - 1) + RECORD_SIZE];
    } else {
      assert EncodeRows(rows) == EncodeRow(rows[0]) + EncodeRows(rows[1..]);
    }
  }

  lemma SliceFields(raw: seq<byte>, off: int, f: int)
    requires 0 <= off && off + RECORD_SIZE <= |raw| && 0 <= f <= 16 && f % 4 == 0
    ensures Int32At(raw, off + f) == Int32At(raw[off..off + RECORD_SIZE], f)
    ensures Float32At(raw, off + f) == Float32At(raw[off..off + RECORD_SIZE], f)
  {
    var rec := raw[off..off + RECORD_SIZE];
    assert rec[f] == raw[off + f] && rec[f + 1] == raw[off + f + 1];
    assert rec[f + 2] == raw[off + f + 2] && rec[f + 3] == raw[off + f + 3];
  }

  lemma FieldOfRow(row: Row, f: int, field: seq<byte>)
    requires WellFormedRow(row) && 0 <= f <= 16 && f % 4 == 0
    requires field == EncodeRow(row)[f..f + 4]
    ensures Int32At(EncodeRow(row), f) == Int32At(field, 0)
    ensures Float32At(EncodeRow(row), f) == Float32At(field, 0)
  {
  }

  /** Decoding one encoded record gives back its offset and fields. */
  lemma RecordRoundTrip(hourStart: int, row: Row, intLayout: bool, div: real)
    requires WellFormedRow(row) && div != 0.0
    ensures DecodeRecord(hourStart, EncodeRow(row), 0, intLayout, div) == RowTick(hourStart, row, intLayout, div)
  {
    var e := EncodeRow(row);
    Int32RoundTrip(row.ms);
    var ms := EncodeInt32(row.ms);
    assert e[0..4] == ms;
    assert e[4..8] == row.ask;
    assert e[8..12] == row.bid;
    assert e[12..16] == row.askVol;
    assert e[16..20] == row.bidVol;
    FieldOfRow(row, 0, ms);
    FieldOfRow(row, 4, row.ask);
    FieldOfRow(row, 8, row.bid);
    FieldOfRow(row, 12, row.askVol);
    FieldOfRow(row, 16, row.bidVol);
  }

  /** The format name for a layout, and the divisor `_decode_ticks` applies in it. */
  function FormatName(intLayout: bool): string {
    if intLayout then "int" else "float"
  }

  function LayoutDivisor(intLayout: bool, priceDivisor: real): (d: real)
    ensures d != 0.0
  {
    if intLayout then EffectiveDivisor(priceDivisor) else 1.0
  }

  lemma DecodeWholeRecords(hourStart: int, compressed: seq<byte>, inflate: Inflater, intLayout: bool,
                           priceDivisor: real)
    requires inflate(compressed).clean && |inflate(compressed).data| % RECORD_SIZE == 0
    ensures Decode(hourStart, compressed, inflate, FormatName(intLayout), priceDivisor)
         == Ok(DecodeAll(hourStart, inflate(compressed).data, intLayout, LayoutDivisor(intLayout, priceDivisor)))
  {
    assert "int" != "float";
  }

  /** `_decode_ticks` inverts the encoder: a payload that decompresses to encoded rows decodes
      to one tick per row, in order, with timestamp `hour_start + ms`, the float fields as
      written, and in the int layout `price = raw_int / divisor` (divisor 0 acting as 1). */
  lemma DecodeInvertsEncode(hourStart: int, compressed: seq<byte>, inflate: Inflater, rows: seq<Row>,
                            intLayout: bool, priceDivisor: real)
    requires forall i :: 0 <= i < |rows| ==> WellFormedRow(rows[i])
    requires inflate(compressed) == Inflated(EncodeRows(rows), Clean)
    ensures var r := Decode(hourStart, compressed, inflate, FormatName(intLayout), priceDivisor);
      && r.Ok? && |r.value| == |rows|
      && forall i :: 0 <= i < |rows| ==>
           r.value[i] == RowTick(hourStart, rows[i], intLayout, LayoutDivisor(intLayout, priceDivisor))
  {
    var div := LayoutDivisor(intLayout, priceDivisor);
    var raw := EncodeRows(rows);
    WholeRecords(|rows|);
    DecodeWholeRecords(hourStart, compressed, inflate, intLayout, priceDivisor);
    var ticks := DecodeAll(hourStart, raw, intLayout, div);
    assert |ticks| == |rows|;
    forall i | 0 <= i < |rows|
      ensures ticks[i] == RowTick(hourStart, rows[i], intLayout, div)
    {
      assert ticks[i] == DecodeRecord(hourStart, raw, RECORD_SIZE * i, intLayout, div);
      DecodeAllAt(hourStart, rows, i, intLayout, div);
    }
  }

  lemma DecodeAllAt(hourStart: int, rows: seq<Row>, i: int, intLayout: bool, div: real)
    requires forall k :: 0 <= k < |rows| ==> WellFormedRow(rows[k])
    requires 0 <= i < |rows| && div != 0.0
    ensures DecodeRecord(hourStart, EncodeRows(rows), RECORD_SIZE * i, intLayout, div)
         == RowTick(hourStart, rows[i], intLayout, div)
  {
    var raw := EncodeRows(rows);
    var off := RECORD_SIZE * i;
    EncodeRowsAt(rows, i);
    var rec := raw[off..off + RECORD_SIZE];
    SliceFields(raw, off, 0);
    SliceFields(raw, off, 4);
    SliceFields(raw, off, 8);
    SliceFields(raw, off, 12);
    SliceFields(raw, off, 16);
    assert DecodeRecord(hourStart, raw, off, intLayout, div) == DecodeRecord(hourStart, rec, 0, intLayout, div);
    RecordRoundTrip(hourStart, rows[i], intLayout, div);
  }

  /** In the int layout, an integer price written with `struct.pack(">i", p)` decodes to
      exactly `p / divisor`. */
  lemma IntPriceExact(hourStart: int, row: Row, askPrice: int, bidPrice: int, div: real)
    requires WellFormedRow(row) && div != 0.0
    requires -TWO_31 <= askPrice < TWO_31 && -TWO_31 <= bidPrice < TWO_31
    requires row.ask == EncodeInt32(askPrice) && row.bid == EncodeInt32(bidPrice)
    ensures RowTick(hourStart, row, true, div).ask == askPrice as real / div
    ensures RowTick(hourStart, row, true, div).bid == bidPrice as real / div
  {
    Int32RoundTrip(askPrice);
    Int32RoundTrip(bidPrice);
  }

  /** The probe picks "int" for a first record whose integer prices are non-negative and
      below 2^23 (such as 100000 and 99999). */
  lemma ProbeDetectsSmallIntPrices(inflate: Inflater, compressed: seq<byte>)
    requires |inflate(compressed).data| >= RECORD_SIZE
    requires 0 <= Int32At(inflate(compressed).data, 4) < TWO_23
    requires 0 <= Int32At(inflate(compressed).data, 8) < TWO_23
    ensures ProbePriceFormat(inflate, compressed) == Ok("int")
  {
    var raw := inflate(compressed).data;
    var first := raw[..RECORD_SIZE];
    SliceFields(raw, 0, 4);
    SliceFields(raw, 0, 8);
    SmallIntReadAsFloatIsTiny(first, 4);
    SmallIntReadAsFloatIsTiny(first, 8);
  }
}
