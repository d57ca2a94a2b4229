# tradedesk-dukascopy export, modelled in Dafny

This project models the core of `tradedesk_dukascopy/export.py`, the exporter that
turns Dukascopy's hourly `.bi5` tick files into OHLCV candles and writes them as one
CSV per instrument. The model covers the whole pipeline:

- normalising the symbol, then enumerating the hours of the requested days;
- building each hour's datafeed URL and its cache path, where the month is zero-based;
- downloading with a cache and bounded retries;
- detecting whether prices are stored as float32 or as int32 (the price layout);
- decoding the 20-byte big-endian tick records;
- resampling the ticks into bars;
- running the per-hour loop of `export_range`, with its counters, probe mode and
  self-healing re-download;
- the final concatenate / sort / clip / de-duplicate merge.

Modules, one per concern:

| module | file | models |
|---|---|---|
| `Common` | Common.dfy | time constants, `Tick`, the exceptions raised, `Option`/`Result` |
| `Symbol` | Symbol.dfy | `_symbol_normalise` |
| `Hours` | Hours.dfy | `_iter_hours` (a method with its loop, and the spec function `HourStarts`) |
| `Paths` | Paths.dfy | `_dukascopy_tick_url` and the cache path; the proleptic Gregorian calendar; `f"{n}"` and `f"{n:02d}"` |
| `BigEndian` | BigEndian.dfy | `struct` big-endian `i` and `f` fields, as exact integers and reals |
| `Download` | Download.dfy | `_download_bi5` (a method with its retry loop) over a `World` value |
| `Codec` | Codec.dfy | `_probe_price_format`, `_read_n_tick_records`, `_decode_ticks` (a method with its record loop) |
| `Sorting` | Sorting.dfy | a stable sort by an integer key, and key-wise selection `WithKey` |
| `Candles` | Candles.dfy | `_ticks_to_candles`: price side, bucketing, OHLCV per bucket |
| `Merge` | Merge.dfy | `pd.concat(...).sort_index()`, the `.loc` clip and `duplicated(keep="last")` |
| `Export` | Export.dfy | `export_range`: the hour loop as methods proved equal to the functions `RunHours` and `ExportSpec` |

The outside world is a value. `Download.World` holds the cache files, the script of
HTTP replies still to come, and the log of URLs requested. Every operation that
touches the network or the disk takes a world and returns the new one. The LZMA
decoder is a parameter: `Codec.Inflater` maps a compressed payload to the bytes it
decodes to and why the decoder stopped. Timestamps are
milliseconds since the Unix epoch. A float32 field is decoded exactly, to a `real`.

## Model

| member | source | states |
|---|---|---|
| Symbol.NormaliseFailsIffBlank | tradedesk_dukascopy/export.py:60-62 | normalising fails, with "Empty symbol", exactly when the input is all whitespace |
| Symbol.NormaliseKeepsAlnumsInOrder | tradedesk_dukascopy/export.py:64-67 | a normalised symbol is the input's alphanumerics, in order, upper-cased, and consists of upper-case letters and digits only |
| Symbol.NormaliseSpelledOut | tradedesk_dukascopy/export.py:60-67 | for any input that is not blank, stripping changes nothing in the result: it equals the upper-cased alphanumerics of the whole input |
| Symbol.NormaliseIdempotent | tradedesk_dukascopy/export.py:50-67 | normalising an already normalised, non-empty symbol gives it back unchanged |
| Symbol.SeparatorsOnlyGiveEmptyName | tradedesk_dukascopy/export.py:60-67 | a symbol made only of separators passes the blank check and becomes the empty name |
| Symbol.NormaliseExampleBlank | tradedesk_dukascopy/export.py:61-62 | a blank symbol raises "Empty symbol" |
| Symbol.TrimLeftEmptyIffAllSpace | tradedesk_dukascopy/export.py:60 | stripping from the left leaves nothing exactly when every character is whitespace |
| Symbol.TrimRightEmptyIffAllSpace | tradedesk_dukascopy/export.py:60 | the same from the right |
| Symbol.KeepAlnumAppend | tradedesk_dukascopy/export.py:65 | keeping alphanumerics distributes over concatenation |
| Symbol.KeepAlnumTrimLeft | tradedesk_dukascopy/export.py:60-65 | stripping leading whitespace does not change the alphanumerics kept |
| Symbol.KeepAlnumTrimRight | tradedesk_dukascopy/export.py:60-65 | stripping trailing whitespace does not change the alphanumerics kept |
| Symbol.KeepAlnumOfAlnums | tradedesk_dukascopy/export.py:65 | a string of alphanumerics is kept whole |
| Hours.CeilHour | tradedesk_dukascopy/export.py:74-76 | the rounded start is hour-aligned, at or after `start`, and less than an hour after it |
| Hours.FloorDay | tradedesk_dukascopy/export.py:280 | the end boundary is a UTC midnight at most one day before the instant and at or before it |
| Hours.HourStartsShape | tradedesk_dukascopy/export.py:77-79 | the enumeration has ceil((end - cur) / 1h) elements, element i is cur + i hours and below the end, and the next hour is at or past the end |
| Hours.IterHoursProperties | tradedesk_dukascopy/export.py:70-79 | the hours yielded: empty iff the rounded start is not before the end; first is the rounded start; all hour-aligned within [start, end); consecutive hours one hour apart; every hour-aligned instant in [start, end) is yielded |
| Hours.HourStartsCover | tradedesk_dukascopy/export.py:74-79 | no hour-aligned instant in [start, end) is skipped |
| Hours.IterHours | tradedesk_dukascopy/export.py:70-79 | the generator's loop yields exactly `HourStarts(CeilHour(start), end)` |
| Hours.IterHoursExamples | tests/test_export_helpers.py:25-43 | an on-boundary start is included; an off-boundary start is rounded up to the next hour |
| Paths.CivilOf | tradedesk_dukascopy/export.py:86-89 | the calendar fields of an instant are a valid month, day of that month and hour |
| Paths.YearOf | tradedesk_dukascopy/export.py:86 | the year found contains the day number, and the day index lies within that year |
| Paths.MonthOf | tradedesk_dukascopy/export.py:87-88 | the month found contains the day index, and the day of the month is within its length |
| Paths.YearOfUnique | tradedesk_dukascopy/export.py:86 | every day number belongs to exactly one year |
| Paths.CivilRoundTrip | tradedesk_dukascopy/export.py:86-89 | an hour-aligned instant is recovered from its year, month, day and hour |
| Paths.DecimalRoundTrip | tradedesk_dukascopy/export.py:90 | reading back `f"{n}"` gives n |
| Paths.IntStringRoundTrip | tradedesk_dukascopy/export.py:90 | the same for negative years |
| Paths.Pad2RoundTrip | tradedesk_dukascopy/export.py:90 | reading back `f"{n:02d}"` gives n |
| Paths.HourKeyFields | tradedesk_dukascopy/export.py:82-90 | the URL components read back as symbol, year, month minus one (00..11), day and hour, each of the last three two digits wide, followed by `h_ticks.bi5` |
| Paths.HourKeyInjective | tradedesk_dukascopy/export.py:82-90 | two different hours never share a URL or a cache file |
| Paths.CacheMirrorsUrl | tradedesk_dukascopy/export.py:288-291 | the cache path is the cache root followed by exactly the components the URL appends to the datafeed root |
| Paths.JuneIsMonthFive | tests/test_export_helpers.py:45-50 | 2025-06-01T00:00Z maps to `EURUSD/2025/05/01/00h_ticks.bi5` |
| Paths.YearStartClosedForm | tradedesk_dukascopy/export.py:86 | day number of 1 January in closed form (365 days a year plus leap days) |
| BigEndian.Int32RoundTrip | tradedesk_dukascopy/export.py:157 | decoding the big-endian encoding of a 32-bit signed integer gives it back |
| BigEndian.Int32BytesRoundTrip | tradedesk_dukascopy/export.py:157 | encoding the value of any four bytes gives the bytes back |
| BigEndian.SmallIntReadAsFloatIsTiny | tradedesk_dukascopy/export.py:159-164 | an int32 in [0, 2^23) read as a float32 is finite and below 1e-6 in magnitude |
| Download.Classify | tradedesk_dukascopy/export.py:113-133 | 404 is final with no data; any other 4xx/5xx or a transport exception is retried; a body under 64 bytes is no data; a body is a payload exactly when it has at least 64 bytes and the status is neither 404 nor 4xx/5xx, and then it is the body received |
| Download.DownloadBi5 | tradedesk_dukascopy/export.py:92-140 | the download with its retry loop returns exactly what `Fetch` specifies |
| Download.AttemptsOutcome | tradedesk_dukascopy/export.py:111-140 | the retry loop makes k attempts for the URL, at most the retries; every attempt but the last was transient; the last decides the result; the cache changes only when a payload is returned, and then to that payload |
| Download.CacheHitMakesNoRequest | tradedesk_dukascopy/export.py:106-107 | a non-empty cache file is returned as is, with no request |
| Download.FetchOutcome | tradedesk_dukascopy/export.py:92-140 | without a cache hit: between 1 and `retries` requests (none when `retries` is not positive), all for the URL; a returned payload is the last reply's body, at least 64 bytes, and it becomes the cache file; otherwise the cache is unchanged |
| Download.NotFoundIsFinal | tradedesk_dukascopy/export.py:114-115 | a 404 answers None after one request, with no retry and nothing cached |
| Download.TinyBodyIsNoData | tradedesk_dukascopy/export.py:119-125 | a successful body under 64 bytes answers None after one request, with nothing cached |
| Download.PayloadIsCached | tradedesk_dukascopy/export.py:127-133 | a payload is returned and cached, and the next download of the hour is served from the cache without a request |
| Download.AllTransientGiveNone | tradedesk_dukascopy/export.py:135-140 | when every attempt fails transiently, the result is None after exactly `retries` requests, with the cache unchanged |
| Codec.Decompress | tradedesk_dukascopy/export.py:187 | decompression succeeds exactly on a clean stream, with all its bytes; otherwise it raises an LZMA error |
| Codec.StreamRead | tradedesk_dukascopy/export.py:151-152 | a streaming read of n >= 0 bytes gives the first n bytes, or all of them on a clean stream that is shorter; a stream that stops short of n bytes raises EOFError when its input was truncated and an LZMA error when it was undecodable; a size of -1 reads to the end under the same rule; a size below -1 raises ValueError |
| Codec.ReadNTickRecords | tradedesk_dukascopy/export.py:168-172 | reading n records gives the first 20n decompressed bytes, or everything on a clean shorter stream; a stream that stops short raises EOFError (truncated) or an LZMA error (undecodable); a negative n raises ValueError |
| Codec.ProbePriceFormat | tradedesk_dukascopy/export.py:142-166 | detection succeeds exactly when a full 20-byte record is decoded (otherwise "too short" on a clean stream, EOFError on a truncated one, an LZMA error on an undecodable one); it answers "int" exactly when ask or bid is non-finite, or both are below 1e-6, as float32 |
| Codec.ProbeDetectsSmallIntPrices | tradedesk_dukascopy/export.py:159-166 | a first record whose ask and bid are int32 values in [0, 2^23) is detected as the int layout |
| Codec.EffectiveDivisor | tradedesk_dukascopy/export.py:202 | `price_divisor or 1.0` is never zero and is the divisor itself when that is non-zero |
| Codec.Decode | tradedesk_dukascopy/export.py:174-210 | decoding succeeds iff the stream is clean, its length is a multiple of 20 and the layout is "float" or "int"; it gives one tick per record, stamped with the hour start plus the record's milliseconds; it raises LZMA, bad-length or bad-layout errors otherwise |
| Codec.DecodeTicks | tradedesk_dukascopy/export.py:187-210 | the record loop produces exactly `Decode`'s result |
| Codec.DecodeInvertsEncode | tradedesk_dukascopy/export.py:193-208 | decoding the encoding of well-formed rows gives one tick per row: the row's fields, with int prices divided by the divisor |
| Codec.DecodeWholeRecords | tradedesk_dukascopy/export.py:187-208 | on a clean stream of whole records, decoding is the record-wise decoder applied to the whole buffer |
| Codec.RecordRoundTrip | tradedesk_dukascopy/export.py:196-207 | one record decodes to the row it encodes |
| Codec.IntPriceExact | tradedesk_dukascopy/export.py:205-207 | in the int layout, ask and bid are the stored integers divided by the divisor |
| Codec.EncodeRowsAt | tradedesk_dukascopy/export.py:195-196 | record i of an encoding sits at bytes [20i, 20i+20) |
| Sorting.SortBy | tradedesk_dukascopy/export.py:388 | the result is sorted by the key and is a permutation of the input |
| Sorting.Insert | tradedesk_dukascopy/export.py:388 | inserting into a sorted sequence keeps it sorted and adds exactly that element |
| Sorting.SortByStable | tradedesk_dukascopy/export.py:226-241 | for every key, the elements with that key keep their input order |
| Sorting.InsertStable | tradedesk_dukascopy/export.py:226-241 | insertion puts an element before the elements with its key already present |
| Sorting.SortBySorted | tradedesk_dukascopy/export.py:226-241 | an already sorted input is returned unchanged |
| Sorting.WithKeyAppend | tradedesk_dukascopy/export.py:226-241 | selecting by key distributes over concatenation |
| Candles.SidePoint | tradedesk_dukascopy/export.py:228-239 | "bid" and "ask" take that side's price and volume; "mid" halves the sums of both prices and of both volumes; any other side raises |
| Candles.SidePoints | tradedesk_dukascopy/export.py:223-239 | the side is checked only when there are ticks; one point per tick, in order |
| Candles.TicksToCandles | tradedesk_dukascopy/export.py:213-247 | no ticks gives no bars; otherwise an unknown side raises and is the only failure |
| Candles.TicksToCandlesMeetsSpec | tradedesk_dukascopy/export.py:226-247 | bars start at the midnight of the earliest tick and are strictly increasing in time; each bar is the OHLCV of the points in its bucket; every point's bucket has a bar |
| Candles.ResampleMeetsSpec | tradedesk_dukascopy/export.py:241-245 | on time-ordered points the resampler returns exactly the non-empty buckets, in order, each with its OHLCV |
| Candles.ResampleOrdered | tradedesk_dukascopy/export.py:241-245 | bars are strictly increasing in time, and the first is the first point's bucket |
| Candles.ResampleBarIsBucket | tradedesk_dukascopy/export.py:241-242 | every bar is the OHLCV of all points of its bucket |
| Candles.ResampleCovers | tradedesk_dukascopy/export.py:241-245 | every point's bucket has a bar, so no non-empty bucket is dropped |
| Candles.BarBounds | tradedesk_dukascopy/export.py:241 | low <= open, close <= high; every price of the bucket lies in [low, high]; low and high are attained |
| Candles.CandlesAreWellFormed | tradedesk_dukascopy/export.py:241-247 | every bar has low <= open, close <= high |
| Candles.ExtremesOfRun | tradedesk_dukascopy/export.py:241 | the max and min of a bucket bound all its prices and are attained |
| Candles.RunLengthMaximal | tradedesk_dukascopy/export.py:241 | the run of a bucket is the longest prefix of points in that bucket |
| Candles.BucketBounds | tradedesk_dukascopy/export.py:241 | a point lies within its bucket, which is a whole number of widths from the origin |
| Candles.TimeOrderIsBucketOrder | tradedesk_dukascopy/export.py:241 | time order is bucket order |
| Candles.FirstSortedIsEarliest | tradedesk_dukascopy/export.py:226 | after the time sort, the first point is the earliest tick |
| Candles.OneTickBar | tradedesk_dukascopy/export.py:213-247 | an hour with one tick resamples to one bar, in that tick's bucket counted from its day's midnight, with the tick's bid as open, high, low and close and its bid volume as volume |
| Candles.MidSideExample | tests/test_export_helpers.py:130-147 | two mid ticks in one minute give one bar: open 101, high 102, low 101, close 102, volume 10 |
| Merge.Clip | tradedesk_dukascopy/export.py:390 | every bar kept is from the input and lies within [start, end + 1 day) |
| Merge.ClipByKey | tradedesk_dukascopy/export.py:390 | clipping keeps every bar of an in-range timestamp and none of any other |
| Merge.DedupKeepLast | tradedesk_dukascopy/export.py:392 | de-duplication only drops bars |
| Merge.DedupKeepsLast | tradedesk_dukascopy/export.py:392 | each surviving bar is the last bar with its timestamp |
| Merge.DedupKeepsEveryTimestamp | tradedesk_dukascopy/export.py:392 | every timestamp keeps a bar |
| Merge.DedupStrictlySorted | tradedesk_dukascopy/export.py:388-392 | de-duplicating a time-sorted sequence makes it strictly increasing |
| Merge.MergeStrictlySorted | tradedesk_dukascopy/export.py:388-392 | the merged bars are strictly increasing in time |
| Merge.MergeWithinRange | tradedesk_dukascopy/export.py:388-390 | every merged bar comes from some frame and lies within the requested days |
| Merge.MergeKeepsEveryTimestamp | tradedesk_dukascopy/export.py:388-392 | every in-range timestamp that any frame produced has a bar in the output |
| Merge.MergeKeepsLast | tradedesk_dukascopy/export.py:388-392 | each merged bar is the last one, in frame order, among the bars with its timestamp |
| Merge.SameStartKeepsLater | tradedesk_dukascopy/export.py:388-392 | two frames of one bar each with the same in-range start merge to the later frame's bar alone |
| Merge.WideBarsCollide | tradedesk_dukascopy/export.py:377-392 | each hour is resampled on its own, so with a bar width that does not divide an hour (two hours here) two hours' bars share a start and the merge keeps only the later hour's bar: the earlier hour's ticks vanish from the export |
| Export.ForgetCache | tradedesk_dukascopy/export.py:354-359 | deleting a suspect cache file removes that path and changes nothing else |
| Export.ProbeRowCount | tradedesk_dukascopy/export.py:322-332 | the number of offsets `range(0, min(len, 20*n), 20)` visits |
| Export.ProbeRead | tradedesk_dukascopy/export.py:314 | the probe read fails exactly on a stream that stops before 20n bytes, with EOFError if its input was truncated and an LZMA error if it was undecodable; otherwise it is the first min(20n, length) bytes |
| Export.RowCountOfRead | tradedesk_dukascopy/export.py:314-332 | after a read of at least one record, the loop visits between 1 and n records, and reads past the buffer exactly when the length is not a whole number of records |
| Export.ProbeReportShape | tradedesk_dukascopy/export.py:312-347 | the probe reports "too short" iff the stream is clean and has under 20 bytes; raises the streaming read's error (EOFError when truncated, an LZMA error when undecodable) iff the stream stops before the bytes the read asked for; raises on a cut-short record iff the clean read is not whole records; otherwise it reports between 1 and max(1, probe_ticks) rows, each stamped from its record |
| Export.ProbeRowsStamped | tradedesk_dukascopy/export.py:320-335 | probe row i carries the hour start plus record i's milliseconds |
| Export.ProbeTicksNotPositive | tradedesk_dukascopy/export.py:314-337 | with probe_ticks <= 0, the code as written raises on `rows[0]` in the int layout and prints no rows in the float layout; the corrected probe shows one row |
| Export.ProbeReportsAgree | tradedesk_dukascopy/export.py:314-337 | for every positive probe_ticks the corrected probe and the probe as written give the same report, so they differ only when probe_ticks <= 0 |
| Export.ProbeAsWrittenErrors | tradedesk_dukascopy/export.py:314-337 | the probe as written raises only EOFError or an LZMA error from its read, a record cut short by the end of the read, or the IndexError on the missing first row, and the last only for probe_ticks <= 0 in the int layout |
| Export.DecodePayload | tradedesk_dukascopy/export.py:349-375 | the decode stage, with its self-healing re-download, gives exactly `DecodeHour` |
| Export.SelfHealRedownloads | tradedesk_dukascopy/export.py:349-375 | a corrupt LZMA stream leads to a new request for the same URL, and a re-download that finds nothing leaves no cache file; any other decode error is a skipped, counted hour with the world untouched; success gives the ticks |
| Export.ProcessPayload | tradedesk_dukascopy/export.py:307-381 | handling one downloaded payload gives exactly `PayloadStep` |
| Export.ProcessHour | tradedesk_dukascopy/export.py:284-381 | one iteration of the hour loop gives exactly `HourStep` |
| Export.FrameStepKeepsCounts | tradedesk_dukascopy/export.py:365-381 | classifying a decoded hour settles the pending payload: it failed, produced a non-empty frame, or neither; the counters still add up |
| Export.PayloadStepKeepsCounts | tradedesk_dukascopy/export.py:307-381 | after a payload nothing is counted again, the counters add up, a detected layout stays, frames are only appended, and a probe run stops |
| Export.HourStepKeepsCounts | tradedesk_dukascopy/export.py:284-381 | one hour is counted once, as missing or downloaded; total = missing + downloaded and decode-failed + non-empty <= downloaded hold; the layout is known exactly when something was downloaded; in probe mode the loop goes on only past a missing hour |
| Export.FetchedKeepsCounts | tradedesk_dukascopy/export.py:296-381 | the same for a given download result |
| Export.SettledAdvances | tradedesk_dukascopy/export.py:303-307 | a settled payload after an hour counted as downloaded is one hour's advance |
| Export.HourStepStops | tradedesk_dukascopy/export.py:284-381 | outside probe mode an hour ends the run only by "too short to probe", the layout probe's EOFError or LZMA error, or a bad price side; in probe mode only by the report, "not enough bytes", or the probe's own failures |
| Export.RunHoursKeepsCounts | tradedesk_dukascopy/export.py:284-384 | over the loop the counters add up; the total grows by one per hour processed; a finished loop processed every hour; the layout once detected stays; frames only grow; a probe run downloads at most once and keeps no frames |
| Export.RunHoursStops | tradedesk_dukascopy/export.py:284-384 | a loop that stops early does so only for the reasons of `HourStepStops` |
| Export.RunHoursNext | tradedesk_dukascopy/export.py:284-305 | the loop goes on from the next hour after an hour that does not stop it |
| Export.RunHoursStop | tradedesk_dukascopy/export.py:312-347 | an hour that stops the run ends the loop with that hour's outcome |
| Export.HourLoop | tradedesk_dukascopy/export.py:284-384 | the loop over the hours gives exactly `RunHours` |
| Export.ExportRange | tradedesk_dukascopy/export.py:250-392 | the whole export gives exactly `ExportSpec` |
| Export.ExportOutcome | tradedesk_dukascopy/export.py:250-392 | the counters add up; at most one count per hour; "Empty symbol" iff the symbol is blank; writing or "no data" only after every hour was processed, with at least one or with no non-empty frames; the possible exceptions outside and inside probe mode; a probe run never writes, downloads at most once and keeps no frames |
| Export.ExportWritten | tradedesk_dukascopy/export.py:385-392 | written bars are strictly increasing, all come from the kept frames within the requested days, cover every in-range timestamp of the frames, and are the last bar of their timestamp |
| Export.ConcludeMerges | tradedesk_dukascopy/export.py:385-392 | the same for the end of any loop that did not write by itself |
| Export.MergeFramesMerges | tradedesk_dukascopy/export.py:388-392 | the merge of any frames meets the four merge properties |

## Left out

- LZMA decompression is not modelled: the decoder is the `Codec.Inflater` parameter. It yields the decoded bytes and why the decoder stopped: at the end-of-stream marker, because the input was truncated, or on undecodable data.
- Floating point: float32 fields are decoded to exact reals. NaN and infinities decode to 0.0, and only the finiteness test sees them. Prices and volumes are then combined in exact arithmetic, not in float64.
- Merge.Clip: timestamps are whole milliseconds. Python's datetimes carry microseconds, so the `.loc` clip's upper bound, `end_utc_inclusive` + 1 day - 1 µs, becomes "strictly before `end_utc_inclusive` + 1 day".
- Candles.TicksToCandles: the resample rule is given as a bar width in milliseconds. Parsing pandas rule strings (`"5min"`, `"1H"`) is not modelled. Bins start at the midnight of the earliest tick, which is pandas' default origin for these widths.
- Sorting.SortBy is stable. pandas' `sort_index` is not guaranteed stable, so for duplicate timestamps the model fixes one order: frame order. The "keep last" bar is therefore the bar from the later hour.
- Symbol.Normalise: `str.isalnum`, `str.upper` and `str.strip` are modelled on ASCII only. Unicode letters and digits outside ASCII are not handled.
- Download: timeouts are not modelled, and the transient-error classification covers only what the code distinguishes.
- Download.DownloadBi5: cache reads and writes never fail in the model. In the source, the cache-hit check and read (export.py:106-107) sit outside the retry `try`, so an `OSError` there escapes `_download_bi5`. A failed cache write (export.py:127-131) is inside the `try`, so it is caught and the attempt is retried. The model's single store cannot show that retry. Two consequences follow:
  - the probe loop's "skip this hour on download error" branch (export.py:297-301) is not modelled;
  - `Export.Counted`'s identity total = missing + downloaded holds only because cache reads never fail. In the source, that skipped hour is counted in the total but as neither missing nor downloaded.
- Export.ProcessPayload, like the function `PayloadStep` it is proved equal to, shows the probe through the corrected `ProbeReport` (see Findings). For probe_ticks <= 0 in the int layout it reports one row, where the source raises IndexError at export.py:337. `Export.ProbeReportsAgree` proves the two identical for every positive probe_ticks.
- Export.ProcessHour inherits the corrected probe from `PayloadStep`; it differs from the source only for probe_ticks <= 0.
- Export.HourLoop inherits the corrected probe through `RunHours`; it differs from the source only for probe_ticks <= 0.
- Export.ExportRange inherits the corrected probe through `ExportSpec`; it differs from the source only for probe_ticks <= 0.
- Export.HourStepStops: the probe-mode error set is that of the corrected probe, so it omits `NoProbeRows`. The source raises that IndexError (export.py:337) when probe_ticks <= 0 in the int layout; `Export.ProbeAsWrittenErrors` states it.
- Export.RunHoursStops: the early-stop reasons omit `NoProbeRows`, for the same reason as `HourStepStops`.
- Export.ExportOutcome: the probe-mode exception set omits `NoProbeRows`, for the same reason as `HourStepStops`. With probe_ticks >= 1, the source's default, the sets agree with the source.
- The failure to delete a suspect cache file (an `OSError`, export.py:358-359) is not modelled. Deletion always succeeds.
- Logging, the `print` output of the probe and the CSV writing (export.py:393-410, including the timestamp strings) are not modelled. The probe's result is the rows it would print, and the export's result is the bars it would write.
- `tradedesk_dukascopy/parallel.py`, `tradedesk_dukascopy/cli.py` and `tradedesk_dukascopy/metadata.py` are not part of this model.
- The model follows the code where the repository's tests describe other behaviour:
  - The tests describe exponential backoff between retries and zero-byte cache markers for empty hours. `_download_bi5` has neither, so neither is modelled.
  - A layout probe that fails (too short, EOFError, LZMA error) is outside the decode `try` block. It ends the whole export with that exception.
  - An empty result after the clip is not an error: the code only raises "No data" when no hour produced bars.
  - When the self-healing re-download finds nothing, the hour is counted neither as missing nor as failed.

## Findings

| source | as written | input that shows it | evidently intended | confidence | as-written member | corrected member |
|---|---|---|---|---|---|---|
| tradedesk_dukascopy/export.py:314-337 | the probe reads `max(1, probe_ticks)` records, but its row loop runs `range(0, min(len(raw20), 20 * probe_ticks), 20)`, with `probe_ticks` itself as the bound | `probe_ticks = 0` (or negative) with an int-layout payload of at least 20 bytes: the loop visits no record and `rows[0]` raises IndexError; in the float layout the header is printed with no rows | the loop shows the records that were read, so at least one row | not executed | Export.ProbeTicksNotPositive (on Export.ProbeReportAsWritten) | Export.ProbeReportShape (on Export.ProbeReport) |
