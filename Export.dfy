/** `export_range`: for every hour of the requested days, fetch the hour's tick file (from
    the cache or the network), detect the price layout once, decode, resample into bars and
    finally merge the hourly frames. In probe mode the first payload is decoded only as far
    as a few records and the run ends there. */
module Export {
  import opened Common
  import Symbol
  import Hours
  import Paths
  import opened Codec
  import opened Candles
  import opened Download
  import opened Merge
  import Sorting
  import BigEndian

  /** The five counters the run logs at its end. */
  datatype Counters = Counters(total: nat, missing404: nat, downloaded: nat, decodeFailed: nat, nonempty: nat)

  /** The keyword arguments of `export_range` other than the symbol and the range; the resample
      rule is already a bar width in milliseconds and the LZMA decoder is a parameter. */
  datatype Config = Config(cacheDir: Option<Paths.Path>, probe: bool, probeTicks: int, side: string,
                           priceDivisor: real, width: int, inflate: Inflater)

  /** What the hour loop carries: the counters, `detected_format`, `all_frames` and the world. */
  datatype Run = Run(counters: Counters, format: Option<string>, frames: seq<seq<Bar>>, world: World)

  /** How a run ends: the merged bars are written, a probe report is printed, the probe finds
      too few bytes, or an exception escapes. */
  datatype Finish =
    | Written(bars: seq<Bar>)
    | Probed(hour: int, format: string, rows: seq<Tick>)
    | ProbeTooShort
    | Raised(error: Error)

  /** After one hour the loop either goes on or the run ends. */
  datatype Step = Next(run: Run) | Stop(finish: Finish, run: Run)

  /** What the decode stage makes of a payload: ticks, nothing (the re-download after a corrupt
      stream found no file), or a failure that is counted and skipped. */
  datatype HourData = Ticks(ticks: seq<Tick>) | Gone | Corrupt

  function Max(a: int, b: int): int { if a >= b then a else b }

  function Min(a: int, b: int): int { if a <= b then a else b }

  function StartRun(w: World): Run {
    Run(Counters(0, 0, 0, 0, 0), None, [], w)
  }

  /** One attempt in probe mode, three otherwise. */
  function Retries(probe: bool): int {
    if probe then 1 else 3
  }

  /** The cache file of an hour, when a cache directory is configured. */
  function CacheFile(cfg: Config, symbol: string, hourStart: int): Option<Paths.Path> {
    if cfg.cacheDir.Some? then Some(Paths.CachePath(cfg.cacheDir.value, symbol, hourStart)) else None
  }

  /** Deleting a suspect cache file, if it exists; nothing else in the world changes. */
  function ForgetCache(cachePath: Option<Paths.Path>, w: World): (w': World)
    ensures cachePath.Some? ==> cachePath.value !in w'.files
    ensures forall p :: p in w.files && (cachePath.None? || p != cachePath.value) ==>
      p in w'.files && w'.files[p] == w.files[p]
    ensures w'.files.Keys <= w.files.Keys
    ensures w'.replies == w.replies && w'.requested == w.requested
  {
    if cachePath.Some? && cachePath.value in w.files then w.(files := w.files - {cachePath.value}) else w
  }

  // ---------------------------------------------------------------------------
  // The probe report

  /** The number of offsets `range(0, min(available, 20 * ticks), 20)` visits. */
  function ProbeRowCount(available: int, ticks: int): (n: nat)
    ensures var bound := Min(available, RECORD_SIZE * ticks);
      && (bound <= 0 ==> n == 0)
      && (bound > 0 ==> RECORD_SIZE * (n - 1) < bound <= RECORD_SIZE * n)
  {
    var bound := Min(available, RECORD_SIZE * ticks);
    if bound <= 0 then 0 else (bound + RECORD_SIZE - 1) / RECORD_SIZE
  }

  /** The probe report, with the record loop running up to `loopTicks` records: the first
      `max(1, probeTicks)` records are read from the stream; fewer than one record ends the
      probe; a record cut short by the end of the stream raises; the integer layout needs at
      least one row to show. */
  function ProbeReportWith(hourStart: int, compressed: seq<byte>, format: string, cfg: Config,
                           loopTicks: int): Finish
  {
    match ReadNTickRecords(cfg.inflate, compressed, Max(1, cfg.probeTicks))
    case Err(e) => Raised(e)
    case Ok(raw) =>
      if |raw| < RECORD_SIZE then ProbeTooShort
      else
        var intLayout := format != "float";
        var div := if intLayout then EffectiveDivisor(cfg.priceDivisor) else 1.0;
        var count := ProbeRowCount(|raw|, loopTicks);
        if RECORD_SIZE * count > |raw| then Raised(TruncatedRecord)
        else if intLayout && count == 0 then Raised(NoProbeRows)
        else Probed(hourStart, format, ProbeRows(hourStart, raw, intLayout, div, count))
  }

  /** The first `count` records of the read, decoded in the given layout. */
  function ProbeRows(hourStart: int, raw: seq<byte>, intLayout: bool, div: real, count: nat): seq<Tick>
    requires RECORD_SIZE * count <= |raw| && div != 0.0
  {
    seq(count, i requires 0 <= i < count => DecodeRecord(hourStart, raw, RECORD_SIZE * i, intLayout, div))
  }

  /** The probe as written: the record loop is bounded by `probe_ticks` itself. */
  function ProbeReportAsWritten(hourStart: int, compressed: seq<byte>, format: string, cfg: Config): Finish {
    ProbeReportWith(hourStart, compressed, format, cfg, cfg.probeTicks)
  }

  /** The probe as evidently intended: the record loop is bounded by the number of records
      read, `max(1, probe_ticks)`. */
  function ProbeReport(hourStart: int, compressed: seq<byte>, format: string, cfg: Config): Finish {
    ProbeReportWith(hourStart, compressed, format, cfg, Max(1, cfg.probeTicks))
  }

  // ---------------------------------------------------------------------------
  // One hour

  /** Decoding a payload; a corrupt LZMA stream deletes the cache file and downloads once more
      with the default three attempts. */
  function DecodeHour(cfg: Config, url: string, cachePath: Option<Paths.Path>, hourStart: int,
                      compressed: seq<byte>, format: string, w: World): (HourData, World)
  {
    match Decode(hourStart, compressed, cfg.inflate, format, cfg.priceDivisor)
    case Ok(ticks) => (Ticks(ticks), w)
    case Err(e) =>
      if e != Lzma then (Corrupt, w)
      else
        var (again, w2) := Fetch(url, cachePath, 3, ForgetCache(cachePath, w));
        if again.None? then (Gone, w2)
        else
          match Decode(hourStart, again.value, cfg.inflate, format, cfg.priceDivisor)
          case Ok(ticks) => (Ticks(ticks), w2)
          case Err(_) => (Corrupt, w2)
  }

  /** The body of the hour loop for the hour's URL and cache file. */
  function HourStep(cfg: Config, symbol: string, hourStart: int, run: Run): Step
    requires cfg.width > 0
  {
    FetchStep(cfg, hourStart, Paths.TickUrl(symbol, hourStart), CacheFile(cfg, symbol, hourStart), run)
  }

  /** Count the hour, fetch it, and go on with the payload. */
  function FetchStep(cfg: Config, hourStart: int, url: string, cachePath: Option<Paths.Path>, run: Run): Step
    requires cfg.width > 0
  {
    Fetched(cfg, hourStart, url, cachePath, run, Fetch(url, cachePath, Retries(cfg.probe), run.world))
  }

  /** The hour is counted as missing when the download found nothing, as downloaded otherwise. */
  function Fetched(cfg: Config, hourStart: int, url: string, cachePath: Option<Paths.Path>, run: Run,
                   fetched: (Option<seq<byte>>, World)): Step
    requires cfg.width > 0
  {
    var c := run.counters.(total := run.counters.total + 1);
    var (comp, w1) := fetched;
    if comp.None? then Next(run.(counters := c.(missing404 := c.missing404 + 1), world := w1))
    else
      PayloadStep(cfg, url, cachePath, hourStart, comp.value,
                  run.(counters := c.(downloaded := c.downloaded + 1), world := w1))
  }

  /** A payload arrived (and is already counted): detect the layout if not yet known, then
      probe, or decode and resample. */
  function PayloadStep(cfg: Config, url: string, cachePath: Option<Paths.Path>, hourStart: int,
                       comp: seq<byte>, run: Run): Step
    requires cfg.width > 0
  {
    var detected := if run.format.Some? then Ok(run.format.value) else ProbePriceFormat(cfg.inflate, comp);
    if detected.Err? then Stop(Raised(detected.error), run)
    else
      var run1 := run.(format := Some(detected.value));
      if cfg.probe then Stop(ProbeReport(hourStart, comp, detected.value, cfg), run1)
      else
        var (data, w2) := DecodeHour(cfg, url, cachePath, hourStart, comp, detected.value, run.world);
        FrameStep(cfg, data, run1.(world := w2))
  }

  /** The decoded hour is counted, skipped, or resampled and its bars kept when there are any. */
  function FrameStep(cfg: Config, data: HourData, run: Run): Step
    requires cfg.width > 0
  {
    var c := run.counters;
    match data
    case Gone => Next(run)
    case Corrupt => Next(run.(counters := c.(decodeFailed := c.decodeFailed + 1)))
    case Ticks(ticks) =>
      match TicksToCandles(ticks, cfg.width, cfg.side)
      case Err(e) => Stop(Raised(e), run)
      case Ok(bars) =>
        if bars == [] then Next(run)
        else Next(run.(counters := c.(nonempty := c.nonempty + 1), frames := run.frames + [bars]))
  }

  /** The hour loop over `hours`, ending early when an hour stops the run. */
  function RunHours(cfg: Config, symbol: string, hours: seq<int>, run: Run): Step
    requires cfg.width > 0
    decreases |hours|
  {
    if hours == [] then Next(run)
    else
      match HourStep(cfg, symbol, hours[0], run)
      case Stop(f, r) => Stop(f, r)
      case Next(r) => RunHours(cfg, symbol, hours[1..], r)
  }

  /** The hours of the run: from the first whole hour at or after `start` up to the midnight
      after `endInclusive`. */
  function ExportHours(start: int, endInclusive: int): seq<int> {
    Hours.HourStarts(Hours.CeilHour(start), Hours.FloorDay(endInclusive + DAY_MS))
  }

  /** The end of the run: a stop is final; after the last hour, no frames is "no data" and
      otherwise the frames are merged. */
  function Conclude(s: Step, start: int, endInclusive: int): (Finish, Run) {
    match s
    case Stop(f, r) => (f, r)
    case Next(r) =>
      if r.frames == [] then (Raised(NoData), r)
      else (Written(MergeFrames(r.frames, start, endInclusive)), r)
  }

  /** The whole export. */
  function ExportSpec(cfg: Config, rawSymbol: string, start: int, endInclusive: int, w: World): (Finish, Run)
    requires cfg.width > 0
  {
    match Symbol.Normalise(rawSymbol)
    case Err(e) => (Raised(e), StartRun(w))
    case Ok(symbol) => Conclude(RunHours(cfg, symbol, ExportHours(start, endInclusive), StartRun(w)), start, endInclusive)
  }

  // ---------------------------------------------------------------------------
  // The loop as the source writes it

  /** One pass of the hour loop, with the download and decode loops of their own modules. */
  method ProcessHour(cfg: Config, symbol: string, hourStart: int, run: Run) returns (step: Step)
    requires cfg.width > 0
    ensures step == HourStep(cfg, symbol, hourStart, run)
  {
    var counters := run.counters.(total := run.counters.total + 1);
    var url := Paths.TickUrl(symbol, hourStart);
    var cachePath := CacheFile(cfg, symbol, hourStart);
    var comp, w := DownloadBi5(url, cachePath, Retries(cfg.probe), run.world);
    if comp.None? {
      return Next(run.(counters := counters.(missing404 := counters.missing404 + 1), world := w));
    }
    counters := counters.(downloaded := counters.downloaded + 1);
    step := ProcessPayload(cfg, url, cachePath, hourStart, comp.value, run.(counters := counters, world := w));
  }

  method ProcessPayload(cfg: Config, url: string, cachePath: Option<Paths.Path>, hourStart: int,
                        comp: seq<byte>, run: Run) returns (step: Step)
    requires cfg.width > 0
    ensures step == PayloadStep(cfg, url, cachePath, hourStart, comp, run)
  {
    var format: string;
    if run.format.Some? {
      format := run.format.value;
    } else {
      var detected := ProbePriceFormat(cfg.inflate, comp);
      if detected.Err? {
        return Stop(Raised(detected.error), run);
      }
      format := detected.value;
    }
    var run1 := run.(format := Some(format));
    if cfg.probe {
      return Stop(ProbeReport(hourStart, comp, format, cfg), run1);
    }
    var data, w := DecodePayload(cfg, url, cachePath, hourStart, comp, format, run.world);
    step := FrameStep(cfg, data, run1.(world := w));
  }

  /** The decode stage with its self-healing second download. */
  method DecodePayload(cfg: Config, url: string, cachePath: Option<Paths.Path>, hourStart: int,
                       comp: seq<byte>, format: string, w: World) returns (data: HourData, w': World)
    ensures (data, w') == DecodeHour(cfg, url, cachePath, hourStart, comp, format, w)
  {
    w' := w;
    var decoded := DecodeTicks(hourStart, comp, cfg.inflate, format, cfg.priceDivisor);
    if decoded.Ok? {
      return Ticks(decoded.value), w';
    }
    if decoded.error != Lzma {
      return Corrupt, w';
    }
    w' := ForgetCache(cachePath, w');
    var again;
    again, w' := DownloadBi5(url, cachePath, 3, w');
    if again.None? {
      return Gone, w';
    }
    var redecoded := DecodeTicks(hourStart, again.value, cfg.inflate, format, cfg.priceDivisor);
    if redecoded.Err? {
      return Corrupt, w';
    }
    data := Ticks(redecoded.value);
  }

  lemma RunHoursNext(cfg: Config, symbol: string, hours: seq<int>, i: nat, run: Run, r: Run)
    requires cfg.width > 0 && i < |hours|
    requires HourStep(cfg, symbol, hours[i], run) == Next(r)
    ensures RunHours(cfg, symbol, hours[i..], run) == RunHours(cfg, symbol, hours[i + 1..], r)
  {
    assert hours[i..][1..] == hours[i + 1..];
  }

  lemma RunHoursStop(cfg: Config, symbol: string, hours: seq<int>, i: nat, run: Run)
    requires cfg.width > 0 && i < |hours|
    requires HourStep(cfg, symbol, hours[i], run).Stop?
    ensures RunHours(cfg, symbol, hours[i..], run) == HourStep(cfg, symbol, hours[i], run)
  {
    assert hours[i..][0] == hours[i];
  }

  /** The `for hour_start in ...` loop. */
  method HourLoop(cfg: Config, symbol: string, hours: seq<int>, start: Run) returns (s: Step)
    requires cfg.width > 0
    ensures s == RunHours(cfg, symbol, hours, start)
  {
    var run := start;
    var i := 0;
    while i < |hours|
      invariant 0 <= i <= |hours|
      invariant RunHours(cfg, symbol, hours, start) == RunHours(cfg, symbol, hours[i..], run)
    {
      var step := ProcessHour(cfg, symbol, hours[i], run);
      if step.Stop? {
        RunHoursStop(cfg, symbol, hours, i, run);
        return step;
      }
      RunHoursNext(cfg, symbol, hours, i, run, step.run);
      run := step.run;
      i := i + 1;
    }
    s := Next(run);
  }

  /** `export_range`. */
  method ExportRange(cfg: Config, rawSymbol: string, start: int, endInclusive: int, w: World)
    returns (finish: Finish, run: Run)
    requires cfg.width > 0
    ensures (finish, run) == ExportSpec(cfg, rawSymbol, start, endInclusive, w)
  {
    run := StartRun(w);
    var normalised := Symbol.Normalise(rawSymbol);
    if normalised.Err? {
      return Raised(normalised.error), run;
    }
    var endExclusive := Hours.FloorDay(endInclusive + DAY_MS);
    var hours := Hours.IterHours(start, endExclusive);
    var s := HourLoop(cfg, normalised.value, hours, run);
    if s.Stop? {
      return s.finish, s.run;
    }
    run := s.run;
    if run.frames == [] {
      return Raised(NoData), run;
    }
    finish := Written(MergeFrames(run.frames, start, endInclusive));
  }

  // ---------------------------------------------------------------------------
  // The probe report

  lemma Int32OfPrefix(raw: seq<byte>, full: seq<byte>, off: int)
    requires 0 <= off && off + 4 <= |raw| <= |full| && raw == full[..|raw|]
    ensures BigEndian.Int32At(raw, off) == BigEndian.Int32At(full, off)
  {
    assert raw[off] == full[off] && raw[off + 1] == full[off + 1];
    assert raw[off + 2] == full[off + 2] && raw[off + 3] == full[off + 3];
  }

  /** The probe's read of `n` records fails exactly when the stream breaks before them, and
      otherwise yields the first `min(20 n, len)` bytes. */
  lemma ProbeRead(compressed: seq<byte>, cfg: Config, n: int)
    requires n >= 1
    ensures var z := cfg.inflate(compressed);
      var read := ReadNTickRecords(cfg.inflate, compressed, n);
      && (read.Err? <==> !z.clean && |z.data| < RECORD_SIZE * n)
      && (read.Err? ==> read.error == StreamError(z))
      && (read.Ok? ==> read.value == z.data[..Min(RECORD_SIZE * n, |z.data|)])
  {
  }

  /** Between one and `n` rows are shown from a read of at least one record, and the last
      one is cut short exactly when the read is not a whole number of records. */
  lemma RowCountOfRead(len: int, n: int)
    requires RECORD_SIZE <= len <= RECORD_SIZE * n
    ensures var count := ProbeRowCount(len, n);
      && 1 <= count <= n
      && (RECORD_SIZE * count > len <==> len % RECORD_SIZE != 0)
  {
  }

  /** The probe shows between one and `max(1, probe_ticks)` records of the hour, stamped from
      the hour's start; it ends with "too short" exactly when the stream holds less than one
      record, fails as a streaming read does (EOFError on a truncated stream, an LZMA error on
      a corrupt one) exactly when the stream breaks before the records it asked for, and fails
      on a cut-short record exactly when the stream ends mid-record. */
  lemma ProbeReportShape(hourStart: int, compressed: seq<byte>, format: string, cfg: Config)
    ensures var r := ProbeReport(hourStart, compressed, format, cfg);
      var z := cfg.inflate(compressed);
      var n := Max(1, cfg.probeTicks);
      && (r == ProbeTooShort <==> z.clean && |z.data| < RECORD_SIZE)
      && (r.Raised? ==> r.error == StreamError(z) || r.error == TruncatedRecord)
      && (r == Raised(StreamError(z)) <==> !z.clean && |z.data| < RECORD_SIZE * n)
      && (r == Raised(TruncatedRecord) <==>
            z.clean && RECORD_SIZE <= |z.data| < RECORD_SIZE * n && |z.data| % RECORD_SIZE != 0)
      && (r.Probed? ==>
            && r.hour == hourStart && r.format == format
            && 1 <= |r.rows| <= n
            && forall i :: 0 <= i < |r.rows| ==> r.rows[i].ts == hourStart + BigEndian.Int32At(z.data, RECORD_SIZE * i))
  {
    var z := cfg.inflate(compressed);
    var n := Max(1, cfg.probeTicks);
    var r := ProbeReport(hourStart, compressed, format, cfg);
    ProbeRead(compressed, cfg, n);
    var read := ReadNTickRecords(cfg.inflate, compressed, n);
    if read.Ok? && |read.value| >= RECORD_SIZE {
      var raw := read.value;
      RowCountOfRead(|raw|, n);
      var count := ProbeRowCount(|raw|, n);
      assert |raw| == RECORD_SIZE * n || (z.clean && |raw| == |z.data|);
      var intLayout := format != "float";
      var div := if intLayout then EffectiveDivisor(cfg.priceDivisor) else 1.0;
      if RECORD_SIZE * count <= |raw| {
        ProbeRowsStamped(hourStart, raw, z.data, intLayout, div, count);
      }
    }
  }

  lemma ProbeRowsStamped(hourStart: int, raw: seq<byte>, data: seq<byte>, intLayout: bool, div: real, count: nat)
    requires RECORD_SIZE * count <= |raw| <= |data| && raw == data[..|raw|] && div != 0.0
    ensures var rows := ProbeRows(hourStart, raw, intLayout, div, count);
      forall i :: 0 <= i < count ==> rows[i].ts == hourStart + BigEndian.Int32At(data, RECORD_SIZE * i)
  {
    var rows := ProbeRows(hourStart, raw, intLayout, div, count);
    forall i | 0 <= i < count ensures rows[i].ts == hourStart + BigEndian.Int32At(data, RECORD_SIZE * i) {
      Int32OfPrefix(raw, data, RECORD_SIZE * i);
    }
  }

  /** As written, a non-positive `probe_ticks` shows no record: the integer layout then fails
      on its first row and the float layout prints an empty table; the corrected probe shows
      the one record it read. */
  lemma ProbeTicksNotPositive(hourStart: int, compressed: seq<byte>, cfg: Config)
    requires cfg.probeTicks <= 0
    requires cfg.inflate(compressed).clean && |cfg.inflate(compressed).data| >= RECORD_SIZE
    ensures ProbeReportAsWritten(hourStart, compressed, "int", cfg) == Raised(NoProbeRows)
    ensures ProbeReportAsWritten(hourStart, compressed, "float", cfg) == Probed(hourStart, "float", [])
    ensures var r := ProbeReport(hourStart, compressed, "int", cfg);
      r.Probed? && |r.rows| == 1
  {
    ProbeReportShape(hourStart, compressed, "int", cfg);
  }

  /** The corrected probe is the probe as written for every positive `probe_ticks`
      (the default is 10): the two differ only when `probe_ticks <= 0`. */
  lemma ProbeReportsAgree(hourStart: int, compressed: seq<byte>, format: string, cfg: Config)
    requires cfg.probeTicks >= 1
    ensures ProbeReport(hourStart, compressed, format, cfg)
         == ProbeReportAsWritten(hourStart, compressed, format, cfg)
  {
  }

  /** The probe as written raises only EOFError or an LZMA error, a record cut short, or the missing
      first row of the integer layout, and that last one only for `probe_ticks <= 0`. */
  lemma ProbeAsWrittenErrors(hourStart: int, compressed: seq<byte>, format: string, cfg: Config)
    ensures var r := ProbeReportAsWritten(hourStart, compressed, format, cfg);
      && (r.Raised? ==> r.error in {StreamEnded, Lzma, TruncatedRecord, NoProbeRows})
      && (r == Raised(NoProbeRows) ==> cfg.probeTicks <= 0 && format != "float")
  {
    if cfg.probeTicks >= 1 {
      ProbeReportShape(hourStart, compressed, format, cfg);
    }
  }

  // ---------------------------------------------------------------------------
  // The decode stage

  /** A corrupt stream never reaches the re-download through the cache: the suspect file is
      deleted first, so at least one request for the hour's URL is made, and when that finds
      nothing the cache no longer holds the file. Other decode errors make no request. */
  lemma SelfHealRedownloads(cfg: Config, url: string, cachePath: Option<Paths.Path>, hourStart: int,
                            compressed: seq<byte>, format: string, w: World)
    ensures var (data, w2) := DecodeHour(cfg, url, cachePath, hourStart, compressed, format, w);
      var d := Decode(hourStart, compressed, cfg.inflate, format, cfg.priceDivisor);
      && (d == Err(Lzma) ==>
            && |w2.requested| > |w.requested| && w2.requested[|w.requested|] == url
            && (data.Gone? && cachePath.Some? ==> cachePath.value !in w2.files))
      && (d.Err? && d != Err(Lzma) ==> data.Corrupt? && w2 == w)
      && (d.Ok? ==> data == Ticks(d.value) && w2 == w)
  {
    var w1 := ForgetCache(cachePath, w);
    FetchOutcome(url, cachePath, 3, w1);
  }

  // ---------------------------------------------------------------------------
  // The counters

  /** The counters add up: every hour is missing or downloaded, every downloaded hour failed
      to decode, produced bars, or neither, every kept frame has bars, and a detected layout
      is one of the two. */
  predicate Counted(run: Run) {
    var c := run.counters;
    && c.total == c.missing404 + c.downloaded
    && c.decodeFailed + c.nonempty <= c.downloaded
    && |run.frames| == c.nonempty
    && (forall i :: 0 <= i < |run.frames| ==> run.frames[i] != [])
    && (run.format.Some? ==> run.format.value == "int" || run.format.value == "float")
  }

  /** Between hours, the layout is known exactly when some payload was downloaded. */
  predicate Consistent(run: Run) {
    Counted(run) && (run.format.Some? <==> run.counters.downloaded > 0)
  }

  /** A payload was just counted as downloaded and is not yet classified. */
  predicate Pending(run: Run) {
    var c := run.counters;
    && c.total == c.missing404 + c.downloaded
    && c.decodeFailed + c.nonempty < c.downloaded
    && |run.frames| == c.nonempty
    && (forall i :: 0 <= i < |run.frames| ==> run.frames[i] != [])
    && (run.format.Some? ==> run.format.value == "int" || run.format.value == "float")
  }

  /** Classifying the decoded hour settles the pending payload: it failed, produced a frame,
      or neither. */
  lemma FrameStepKeepsCounts(cfg: Config, data: HourData, run: Run)
    requires cfg.width > 0 && Pending(run) && run.format.Some?
    ensures var s := FrameStep(cfg, data, run);
      && s.run.counters.total == run.counters.total
      && s.run.counters.downloaded == run.counters.downloaded
      && s.run.format == run.format
      && Counted(s.run)
      && (s.Next? ==> Consistent(s.run))
      && |run.frames| <= |s.run.frames| && s.run.frames[..|run.frames|] == run.frames
  {
    var s := FrameStep(cfg, data, run);
    if s.run.frames != run.frames {
      assert s.run.frames[..|run.frames|] == run.frames;
    }
  }

  /** What classifying one downloaded payload does to the run: nothing is counted again,
      the counters still add up, a detected layout stays, frames are only appended, and a
      probe run stops here with no frames added. */
  predicate Settled(probe: bool, run: Run, s: Step) {
    && s.run.counters.total == run.counters.total
    && s.run.counters.downloaded == run.counters.downloaded
    && Counted(s.run)
    && (s.Next? ==> Consistent(s.run))
    && (run.format.Some? ==> s.run.format == run.format)
    && |run.frames| <= |s.run.frames| && s.run.frames[..|run.frames|] == run.frames
    && (probe ==> s.Stop? && s.run.frames == run.frames)
  }

  /** What one hour does to the run: it is counted once, as missing or downloaded, the
      counters still add up, a detected layout stays, frames are only appended; in probe
      mode the loop goes on only past a missing hour and no frame is ever added. */
  predicate Advanced(probe: bool, run: Run, s: Step) {
    && s.run.counters.total == run.counters.total + 1
    && run.counters.downloaded <= s.run.counters.downloaded <= run.counters.downloaded + 1
    && Counted(s.run)
    && (s.Next? ==> Consistent(s.run))
    && (run.format.Some? ==> s.run.format == run.format)
    && |run.frames| <= |s.run.frames| && s.run.frames[..|run.frames|] == run.frames
    && (probe && s.Next? ==> s.run.counters.downloaded == run.counters.downloaded)
    && (probe && s.Stop? ==> s.run.counters.downloaded == run.counters.downloaded + 1)
    && (probe ==> s.run.frames == run.frames)
  }

  /** After a payload: the layout, once detected, stays; a probe run stops here. */
  lemma PayloadStepKeepsCounts(cfg: Config, url: string, cachePath: Option<Paths.Path>, hourStart: int,
                               comp: seq<byte>, run: Run)
    requires cfg.width > 0 && Pending(run)
    ensures Settled(cfg.probe, run, PayloadStep(cfg, url, cachePath, hourStart, comp, run))
  {
    var detected := if run.format.Some? then Ok(run.format.value) else ProbePriceFormat(cfg.inflate, comp);
    if detected.Ok? && !cfg.probe {
      var run1 := run.(format := Some(detected.value));
      var (data, w2) := DecodeHour(cfg, url, cachePath, hourStart, comp, detected.value, run.world);
      FrameStepKeepsCounts(cfg, data, run1.(world := w2));
    }
  }

  /** One hour counts itself once, keeps the counters consistent, never changes a detected
      layout and only appends to the frames; in probe mode the loop goes on only past a
      missing hour. */
  lemma HourStepKeepsCounts(cfg: Config, symbol: string, hourStart: int, run: Run)
    requires cfg.width > 0 && Consistent(run)
    ensures Advanced(cfg.probe, run, HourStep(cfg, symbol, hourStart, run))
  {
    var url, cachePath := Paths.TickUrl(symbol, hourStart), CacheFile(cfg, symbol, hourStart);
    var fetched := Fetch(url, cachePath, Retries(cfg.probe), run.world);
    FetchedKeepsCounts(cfg, hourStart, url, cachePath, run, fetched);
  }

  lemma FetchedKeepsCounts(cfg: Config, hourStart: int, url: string, cachePath: Option<Paths.Path>, run: Run,
                           fetched: (Option<seq<byte>>, World))
    requires cfg.width > 0 && Consistent(run)
    ensures Advanced(cfg.probe, run, Fetched(cfg, hourStart, url, cachePath, run, fetched))
  {
    var c := run.counters.(total := run.counters.total + 1);
    if fetched.0.Some? {
      var r1 := run.(counters := c.(downloaded := c.downloaded + 1), world := fetched.1);
      var s := PayloadStep(cfg, url, cachePath, hourStart, fetched.0.value, r1);
      assert Fetched(cfg, hourStart, url, cachePath, run, fetched) == s;
      PayloadStepKeepsCounts(cfg, url, cachePath, hourStart, fetched.0.value, r1);
      SettledAdvances(cfg.probe, run, r1, s);
    }
  }

  /** A payload settled after its hour was counted as downloaded is one hour's advance. */
  lemma SettledAdvances(probe: bool, run: Run, r1: Run, s: Step)
    requires Consistent(run)
    requires r1.counters == run.counters.(total := run.counters.total + 1,
                                          downloaded := run.counters.downloaded + 1)
    requires r1.format == run.format && r1.frames == run.frames
    requires Settled(probe, r1, s)
    ensures Advanced(probe, run, s)
  {
  }

  /** How an hour can end the run: outside probe mode only by an exception from the layout
      probe or the price side; in probe mode by the report or the probe's own failures. */
  lemma HourStepStops(cfg: Config, symbol: string, hourStart: int, run: Run)
    requires cfg.width > 0
    ensures var s := HourStep(cfg, symbol, hourStart, run);
      && (s.Stop? && !cfg.probe ==>
            s.finish.Raised? && s.finish.error in {TooShortToProbe, StreamEnded, Lzma, BadPriceSide})
      && (s.Stop? && cfg.probe ==>
            || s.finish.Probed? || s.finish == ProbeTooShort
            || (s.finish.Raised? && s.finish.error in {TooShortToProbe, StreamEnded, Lzma, TruncatedRecord}))
  {
    FetchStepStops(cfg, hourStart, Paths.TickUrl(symbol, hourStart), CacheFile(cfg, symbol, hourStart), run);
  }

  lemma FetchStepStops(cfg: Config, hourStart: int, url: string, cachePath: Option<Paths.Path>, run: Run)
    requires cfg.width > 0
    ensures var s := FetchStep(cfg, hourStart, url, cachePath, run);
      && (s.Stop? && !cfg.probe ==>
            s.finish.Raised? && s.finish.error in {TooShortToProbe, StreamEnded, Lzma, BadPriceSide})
      && (s.Stop? && cfg.probe ==>
            || s.finish.Probed? || s.finish == ProbeTooShort
            || (s.finish.Raised? && s.finish.error in {TooShortToProbe, StreamEnded, Lzma, TruncatedRecord}))
  {
    FetchedStops(cfg, hourStart, url, cachePath, run, Fetch(url, cachePath, Retries(cfg.probe), run.world));
  }

  lemma FetchedStops(cfg: Config, hourStart: int, url: string, cachePath: Option<Paths.Path>, run: Run,
                     fetched: (Option<seq<byte>>, World))
    requires cfg.width > 0
    ensures var s := Fetched(cfg, hourStart, url, cachePath, run, fetched);
      && (s.Stop? && !cfg.probe ==>
            s.finish.Raised? && s.finish.error in {TooShortToProbe, StreamEnded, Lzma, BadPriceSide})
      && (s.Stop? && cfg.probe ==>
            || s.finish.Probed? || s.finish == ProbeTooShort
            || (s.finish.Raised? && s.finish.error in {TooShortToProbe, StreamEnded, Lzma, TruncatedRecord}))
  {
    var (comp, w1) := fetched;
    if comp.Some? && cfg.probe {
      var detected := if run.format.Some? then Ok(run.format.value) else ProbePriceFormat(cfg.inflate, comp.value);
      if detected.Ok? {
        ProbeReportShape(hourStart, comp.value, detected.value, cfg);
      }
    }
  }

  /** The hour loop: the counters stay consistent, every hour is counted until the run stops,
      a stopped run has processed at least one hour, the layout is fixed once detected, frames
      are only appended; in probe mode the run stops at the first payload. */
  lemma {:induction false} RunHoursKeepsCounts(cfg: Config, symbol: string, hours: seq<int>, run: Run)
    requires cfg.width > 0 && Consistent(run)
    ensures var s := RunHours(cfg, symbol, hours, run);
      && Counted(s.run)
      && run.counters.total <= s.run.counters.total <= run.counters.total + |hours|
      && (s.Next? ==> Consistent(s.run) && s.run.counters.total == run.counters.total + |hours|)
      && (s.Stop? ==> s.run.counters.total > run.counters.total)
      && (run.format.Some? ==> s.run.format == run.format)
      && |run.frames| <= |s.run.frames| && s.run.frames[..|run.frames|] == run.frames
      && (cfg.probe && s.Next? ==> s.run.counters.downloaded == run.counters.downloaded)
      && (cfg.probe && s.Stop? ==> s.run.counters.downloaded == run.counters.downloaded + 1)
      && (cfg.probe ==> s.run.frames == run.frames)
    decreases |hours|
  {
    if hours != [] {
      HourStepKeepsCounts(cfg, symbol, hours[0], run);
      var step := HourStep(cfg, symbol, hours[0], run);
      if step.Next? {
        RunHoursKeepsCounts(cfg, symbol, hours[1..], step.run);
        var s := RunHours(cfg, symbol, hours[1..], step.run);
        assert s.run.frames[..|run.frames|] == s.run.frames[..|step.run.frames|][..|run.frames|];
      }
    }
  }

  /** The ways a run can end when it stops inside the hour loop. */
  lemma {:induction false} RunHoursStops(cfg: Config, symbol: string, hours: seq<int>, run: Run)
    requires cfg.width > 0
    ensures var s := RunHours(cfg, symbol, hours, run);
      && (s.Stop? && !cfg.probe ==>
            s.finish.Raised? && s.finish.error in {TooShortToProbe, StreamEnded, Lzma, BadPriceSide})
      && (s.Stop? && cfg.probe ==>
            || s.finish.Probed? || s.finish == ProbeTooShort
            || (s.finish.Raised? && s.finish.error in {TooShortToProbe, StreamEnded, Lzma, TruncatedRecord}))
    decreases |hours|
  {
    if hours != [] {
      HourStepStops(cfg, symbol, hours[0], run);
      var step := HourStep(cfg, symbol, hours[0], run);
      if step.Next? {
        RunHoursStops(cfg, symbol, hours[1..], step.run);
      }
    }
  }

  // ---------------------------------------------------------------------------
  // The whole export

  /** How an export ends: an empty symbol is rejected before anything else; bars are written
      only after every hour was processed and some hour produced bars; "no data" means every
      hour was processed and none produced bars; outside probe mode the only exceptions are
      the empty symbol, the layout probe's, the price side's and "no data"; a probe run never
      writes bars and downloads at most one payload. */
  lemma ExportOutcome(cfg: Config, rawSymbol: string, start: int, endInclusive: int, w: World)
    requires cfg.width > 0
    ensures var (f, r) := ExportSpec(cfg, rawSymbol, start, endInclusive, w);
      var hours := |ExportHours(start, endInclusive)|;
      && Counted(r)
      && r.counters.total <= hours
      && (f == Raised(EmptySymbol) <==> Symbol.Normalise(rawSymbol).Err?)
      && (f.Written? ==> r.counters.total == hours && r.counters.nonempty > 0)
      && (f == Raised(NoData) ==> r.counters.total == hours && r.counters.nonempty == 0)
      && (!cfg.probe ==>
            f.Written? || (f.Raised? && f.error in {EmptySymbol, TooShortToProbe, StreamEnded, Lzma, BadPriceSide, NoData}))
      && (cfg.probe ==>
            && !f.Written? && r.counters.downloaded <= 1 && r.frames == []
            && (f.Raised? ==> f.error in {EmptySymbol, TooShortToProbe, StreamEnded, Lzma, TruncatedRecord, NoData}))
  {
    var sym := Symbol.Normalise(rawSymbol);
    Symbol.NormaliseFailsIffBlank(rawSymbol);
    if sym.Ok? {
      var hours := ExportHours(start, endInclusive);
      var s := RunHours(cfg, sym.value, hours, StartRun(w));
      RunHoursKeepsCounts(cfg, sym.value, hours, StartRun(w));
      RunHoursStops(cfg, sym.value, hours, StartRun(w));
      assert ExportSpec(cfg, rawSymbol, start, endInclusive, w) == Conclude(s, start, endInclusive);
    }
  }

  /** `bars` is the merge of `frames` over the requested days: in strictly increasing time
      order, each from some frame and inside the days, none of the frames' in-range timestamps
      missing, and each the bar of the last frame that produced its timestamp. */
  predicate MergedFrom(bars: seq<Bar>, frames: seq<seq<Bar>>, start: int, endInclusive: int) {
    var all := Concat(frames);
    && Sorting.StrictlySortedBy(bars, StartOf)
    && (forall b :: b in bars ==> b in all && start <= b.start < endInclusive + DAY_MS)
    && (forall b :: b in all && start <= b.start < endInclusive + DAY_MS ==> HasStart(bars, b.start))
    && (forall b :: b in bars ==>
          Sorting.WithKey(all, StartOf, b.start) != [] && b == Last(Sorting.WithKey(all, StartOf, b.start)))
  }

  /** Written bars are the merge of the hourly frames the run kept. */
  lemma ExportWritten(cfg: Config, rawSymbol: string, start: int, endInclusive: int, w: World)
    requires cfg.width > 0
    ensures var res := ExportSpec(cfg, rawSymbol, start, endInclusive, w);
      res.0.Written? ==> MergedFrom(res.0.bars, res.1.frames, start, endInclusive)
  {
    var sym := Symbol.Normalise(rawSymbol);
    if sym.Ok? {
      var s := RunHours(cfg, sym.value, ExportHours(start, endInclusive), StartRun(w));
      RunHoursStops(cfg, sym.value, ExportHours(start, endInclusive), StartRun(w));
      ConcludeMerges(s, start, endInclusive);
      assert ExportSpec(cfg, rawSymbol, start, endInclusive, w) == Conclude(s, start, endInclusive);
    }
  }

  lemma ConcludeMerges(s: Step, start: int, endInclusive: int)
    requires s.Stop? ==> !s.finish.Written?
    ensures var res := Conclude(s, start, endInclusive);
      res.0.Written? ==> MergedFrom(res.0.bars, res.1.frames, start, endInclusive)
  {
    if s.Next? && s.run.frames != [] {
      assert Conclude(s, start, endInclusive) == (Written(MergeFrames(s.run.frames, start, endInclusive)), s.run);
      MergeFramesMerges(s.run.frames, start, endInclusive);
    }
  }

  lemma MergeFramesMerges(frames: seq<seq<Bar>>, start: int, endInclusive: int)
    ensures MergedFrom(MergeFrames(frames, start, endInclusive), frames, start, endInclusive)
  {
    MergeStrictlySorted(frames, start, endInclusive);
    MergeWithinRange(frames, start, endInclusive);
    MergeKeepsEveryTimestamp(frames, start, endInclusive);
    MergeKeepsLast(frames, start, endInclusive);
  }
}
