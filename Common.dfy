/** Vocabulary shared by every part of the exporter: bytes, instants, ticks,
    the errors the exporter raises, and the Option/Result wrappers used to model them. */
module Common {

  /** One octet of a downloaded or decompressed payload. */
  type byte = x: int | 0 <= x < 256

  /** Instants are integer milliseconds since 1970-01-01T00:00:00Z. */
  const HOUR_MS: int := 3_600_000
  const DAY_MS: int := 86_400_000

  /** One decoded quote, as built from a 20-byte record plus the hour it belongs to. */
  datatype Tick = Tick(ts: int, bid: real, ask: real, bidVol: real, askVol: real)

  /** The exceptions the exporter raises, one constructor per distinct cause. */
  datatype Error =
    | EmptySymbol               // ValueError("Empty symbol")
    | TooShortToProbe           // ValueError("bi5 too short to probe")
    | BadPayloadLength(len: nat) // ValueError: decompressed length not a multiple of 20
    | BadPriceFormat            // ValueError("price_format must be 'float' or 'int'")
    | BadPriceSide              // ValueError("price_side must be one of: bid, ask, mid")
    | Lzma                      // lzma.LZMAError: the decompressor rejected the stream
    | StreamEnded               // EOFError: a streaming read ran into the end of a truncated stream
    | BadReadSize               // ValueError: a streaming read asked for a length below -1
    | NoData                    // RuntimeError("No data produced ...")
    | TruncatedRecord           // struct.error: a record cut short by the end of the buffer
    | NoProbeRows               // IndexError: the probe report has no first row

  datatype Option<+T> = None | Some(value: T)

  datatype Result<+T> = Ok(value: T) | Err(error: Error) {
    predicate IsFailure() {
      Err?
    }

    function PropagateFailure<U>(): Result<U>
      requires Err?
    {
      Err(error)
    }

    function Extract(): T
      requires Ok?
    {
      value
    }
  }
}
