/** The aggregator: `_ticks_to_candles`. Ticks become (time, price, volume) points for the
    chosen side, are put in time order, and are grouped into fixed-width buckets counted
    from the UTC midnight of the earliest tick; each non-empty bucket gives one OHLCV bar. */
module Candles {
  import opened Common
  import opened Sorting
  import Hours

  /** A price observation on the chosen side. */
  datatype Point = Point(ts: int, price: real, volume: real)

  /** One candle, labelled by the start of its bucket. */
  datatype Bar = Bar(start: int, open: real, high: real, low: real, close: real, volume: real)

  function TsOf(p: Point): int { p.ts }

  function StartOf(b: Bar): int { b.start }

  /** Selects price and volume for `price_side`: "bid", "ask", or "mid", which halves the
      sums of both prices and of both volumes. Any other side is refused. */
  function SidePoint(t: Tick, side: string): (r: Result<Point>)
    ensures r.Ok? <==> side in {"bid", "ask", "mid"}
    ensures r.Err? ==> r.error == BadPriceSide
    ensures r.Ok? ==> r.value.ts == t.ts
    ensures side == "bid" ==> r == Ok(Point(t.ts, t.bid, t.bidVol))
    ensures side == "ask" ==> r == Ok(Point(t.ts, t.ask, t.askVol))
    ensures side == "mid" ==> r == Ok(Point(t.ts, (t.bid + t.ask) / 2.0, (t.bidVol + t.askVol) / 2.0))
  {
    if side == "bid" then Ok(Point(t.ts, t.bid, t.bidVol))
    else if side == "ask" then Ok(Point(t.ts, t.ask, t.askVol))
    else if side == "mid" then Ok(Point(t.ts, (t.bid + t.ask) / 2.0, (t.bidVol + t.askVol) / 2.0))
    else Err(BadPriceSide)
  }

  function SidePoints(ticks: seq<Tick>, side: string): (r: Result<seq<Point>>)
    ensures r.Ok? <==> ticks == [] || side in {"bid", "ask", "mid"}
    ensures r.Err? ==> r.error == BadPriceSide
    ensures r.Ok? ==> |r.value| == |ticks| && forall i :: 0 <= i < |ticks| ==> Ok(r.value[i]) == SidePoint(ticks[i], side)
  {
    if ticks == [] then Ok([])
    else
      var p := SidePoint(ticks[0], side);
      if p.Err? then Err(p.error) else Ok([p.value] + SidePoints(ticks[1..], side).value)
  }

  /** The left edge of the bucket holding `ts`: buckets are `[origin + k w, origin + (k+1) w)`. */
  function BucketStart(origin: int, width: int, ts: int): int {
    if width > 0 then origin + ((ts - origin) / width) * width else ts
  }

  /** The bucket of a point, as a key on points. */
  function BucketOf(origin: int, width: int): Point -> int {
    (p: Point) => BucketStart(origin, width, p.ts)
  }

  lemma BucketBounds(origin: int, width: int, ts: int)
    requires width > 0
    ensures var b := BucketStart(origin, width, ts);
      b <= ts < b + width && b == origin + ((ts - origin) / width) * width
  {
  }

  lemma MulMonotone(a: int, b: int, width: int)
    requires a < b && width > 0
    ensures a * width + width <= b * width
  {
    var d := b - a - 1;
    assert d * width >= 0;
    assert b * width == a * width + width + d * width;
  }

  /** Later instants never fall in earlier buckets. */
  lemma BucketMonotone(origin: int, width: int, t1: int, t2: int)
    requires width > 0 && t1 <= t2
    ensures BucketStart(origin, width, t1) <= BucketStart(origin, width, t2)
  {
    var q1, q2 := (t1 - origin) / width, (t2 - origin) / width;
    BucketBounds(origin, width, t1);
    BucketBounds(origin, width, t2);
    if q2 < q1 {
      MulMonotone(q2, q1, width);
    }
  }

  /** Points in time order are also in bucket order. */
  lemma TimeOrderIsBucketOrder(pts: seq<Point>, origin: int, width: int)
    requires width > 0 && SortedBy(pts, TsOf)
    ensures SortedBy(pts, BucketOf(origin, width))
  {
    forall i, j | 0 <= i < j < |pts|
      ensures BucketOf(origin, width)(pts[i]) <= BucketOf(origin, width)(pts[j])
    {
      assert TsOf(pts[i]) <= TsOf(pts[j]);
      BucketMonotone(origin, width, pts[i].ts, pts[j].ts);
    }
  }

  function MaxPrice(run: seq<Point>): real
    requires run != []
  {
    if |run| == 1 then run[0].price
    else
      var rest := MaxPrice(run[1..]);
      if run[0].price >= rest then run[0].price else rest
  }

  function MinPrice(run: seq<Point>): real
    requires run != []
  {
    if |run| == 1 then run[0].price
    else
      var rest := MinPrice(run[1..]);
      if run[0].price <= rest then run[0].price else rest
  }

  /** The highest and lowest prices bound every price of the run and occur in it. */
  lemma {:induction false} ExtremesOfRun(run: seq<Point>)
    requires run != []
    ensures forall p :: p in run ==> MinPrice(run) <= p.price <= MaxPrice(run)
    ensures exists p :: p in run && p.price == MaxPrice(run)
    ensures exists p :: p in run && p.price == MinPrice(run)
  {
    if |run| > 1 {
      ExtremesOfRun(run[1..]);
      assert forall p :: p in run ==> p == run[0] || p in run[1..];
      var hi :| hi in run[1..] && hi.price == MaxPrice(run[1..]);
      var lo :| lo in run[1..] && lo.price == MinPrice(run[1..]);
      assert hi in run && lo in run;
    } else {
      assert run[0] in run;
    }
  }

  function SumVolume(run: seq<Point>): real {
    if run == [] then 0.0 else run[0].volume + SumVolume(run[1..])
  }

  /** `ohlc()` and `sum()` over the points of one bucket, in time order: open is the first
      price, close the last, high and low the extremes, volume the total. */
  function MakeBar(start: int, run: seq<Point>): Bar
    requires run != []
  {
    Bar(start, run[0].price, MaxPrice(run), MinPrice(run), run[|run| - 1].price, SumVolume(run))
  }

  /** A bar's low and high bound every price of its bucket, its open and close among them,
      and both extremes are prices that occurred. */
  lemma BarBounds(start: int, run: seq<Point>)
    requires run != []
    ensures var b := MakeBar(start, run);
      && b.start == start
      && b.low <= b.open <= b.high && b.low <= b.close <= b.high
      && (forall p :: p in run ==> b.low <= p.price <= b.high)
      && (exists p :: p in run && p.price == b.low)
      && (exists p :: p in run && p.price == b.high)
  {
    ExtremesOfRun(run);
    assert run[0] in run && run[|run| - 1] in run;
  }

  /** How many leading points of `pts` lie in bucket `b`. */
  function RunLength(pts: seq<Point>, bucket: Point -> int, b: int): (n: nat)
    ensures n <= |pts|
  {
    if pts == [] || bucket(pts[0]) != b then 0
    else 1 + RunLength(pts[1..], bucket, b)
  }

  /** The run is the longest prefix of points in bucket `b`. */
  lemma {:induction false} RunLengthMaximal(pts: seq<Point>, bucket: Point -> int, b: int)
    ensures var n := RunLength(pts, bucket, b);
      && (forall i :: 0 <= i < n ==> bucket(pts[i]) == b)
      && (n < |pts| ==> bucket(pts[n]) != b)
  {
    if pts != [] && bucket(pts[0]) == b {
      RunLengthMaximal(pts[1..], bucket, b);
      var n := RunLength(pts, bucket, b);
      forall i | 0 <= i < n ensures bucket(pts[i]) == b {
        if i > 0 {
          assert pts[i] == pts[1..][i - 1];
        }
      }
    }
  }

  /** `resample(...).ohlc()` with `sum()` volumes and empty buckets dropped, over points
      already in time order: one bar per run of points sharing a bucket. */
  function Resample(pts: seq<Point>, bucket: Point -> int): seq<Bar>
    decreases |pts|
  {
    if pts == [] then []
    else
      var b := bucket(pts[0]);
      var n := RunLength(pts, bucket, b);
      [MakeBar(b, pts[..n])] + Resample(pts[n..], bucket)
  }

  /** `_ticks_to_candles`: no ticks give no bars (before the side is looked at); otherwise
      the side's points, in stable time order, resampled in buckets of `width` ms counted
      from the UTC midnight of the earliest tick. */
  function TicksToCandles(ticks: seq<Tick>, width: int, side: string): (r: Result<seq<Bar>>)
    requires width > 0
    ensures r.Ok? <==> ticks == [] || side in {"bid", "ask", "mid"}
    ensures r.Err? ==> r.error == BadPriceSide
    ensures ticks == [] ==> r == Ok([])
  {
    if ticks == [] then Ok([])
    else
      var pts :- SidePoints(ticks, side);
      var sorted := SortBy(pts, TsOf);
      Ok(Resample(sorted, BucketOf(Hours.FloorDay(sorted[0].ts), width)))
  }

  // ---------------------------------------------------------------------------
  // Resampling against its reference: each bar is its bucket's points, no bucket is missed

  /** `bar` is the OHLCV of exactly the points of its bucket, and that bucket is not empty. */
  predicate IsBucketBar(pts: seq<Point>, bucket: Point -> int, bar: Bar) {
    var inBucket := WithKey(pts, bucket, bar.start);
    inBucket != [] && bar == MakeBar(bar.start, inBucket)
  }

  /** What `Resample` promises: bars in strictly increasing time order, each the OHLCV of
      its bucket's points, and a bar for the bucket of every point. */
  predicate ResampleSpec(pts: seq<Point>, bucket: Point -> int, bars: seq<Bar>) {
    && StrictlySortedBy(bars, StartOf)
    && (forall i :: 0 <= i < |bars| ==> IsBucketBar(pts, bucket, bars[i]))
    && (forall p :: p in pts ==> exists i :: 0 <= i < |bars| && bars[i].start == bucket(p))
  }

  lemma ResampleStep(pts: seq<Point>, bucket: Point -> int)
    requires pts != []
    ensures var n := RunLength(pts, bucket, bucket(pts[0]));
      && 0 < n
      && Resample(pts, bucket) == [MakeBar(bucket(pts[0]), pts[..n])] + Resample(pts[n..], bucket)
  {
  }

  /** The points after the first run all lie in later buckets. */
  lemma RestInLaterBuckets(pts: seq<Point>, bucket: Point -> int, n: nat)
    requires SortedBy(pts, bucket) && 0 < n <= |pts|
    requires n == RunLength(pts, bucket, bucket(pts[0]))
    ensures forall j :: n <= j < |pts| ==> bucket(pts[0]) < bucket(pts[j])
  {
    RunLengthMaximal(pts, bucket, bucket(pts[0]));
    forall j | n <= j < |pts|
      ensures bucket(pts[0]) < bucket(pts[j])
    {
      assert bucket(pts[0]) <= bucket(pts[n]) <= bucket(pts[j]);
    }
  }

  /** Bars come out in strictly increasing time order, starting with the first point's bucket. */
  lemma {:induction false} ResampleOrdered(pts: seq<Point>, bucket: Point -> int)
    requires SortedBy(pts, bucket)
    ensures StrictlySortedBy(Resample(pts, bucket), StartOf)
    ensures pts != [] ==>
      && |Resample(pts, bucket)| > 0
      && Resample(pts, bucket)[0].start == bucket(pts[0])
    decreases |pts|
  {
    if pts != [] {
      var b := bucket(pts[0]);
      var n := RunLength(pts, bucket, b);
      var rest := pts[n..];
      ResampleStep(pts, bucket);
      var tail := Resample(rest, bucket);
      assert SortedBy(rest, bucket);
      ResampleOrdered(rest, bucket);
      RestInLaterBuckets(pts, bucket, n);
      var bars := Resample(pts, bucket);
      if tail != [] {
        assert b < tail[0].start;
        forall i | 0 <= i < |tail| ensures b < tail[i].start {
          assert StartOf(tail[0]) <= StartOf(tail[i]);
        }
      }
      forall i, j | 0 <= i < j < |bars| ensures StartOf(bars[i]) < StartOf(bars[j]) {
        assert bars[j] == tail[j - 1];
        if i > 0 {
          assert bars[i] == tail[i - 1];
        }
      }
    }
  }

  /** The first bucket holds exactly the first run of points. */
  lemma FirstBucketIsRun(pts: seq<Point>, bucket: Point -> int)
    requires SortedBy(pts, bucket) && pts != []
    ensures WithKey(pts, bucket, bucket(pts[0])) == pts[..RunLength(pts, bucket, bucket(pts[0]))]
  {
    var b := bucket(pts[0]);
    var n := RunLength(pts, bucket, b);
    assert pts == pts[..n] + pts[n..];
    RunInFirstBucket(pts, bucket);
    RestOutsideFirstBucket(pts, bucket);
    WithKeyAppend(pts[..n], pts[n..], bucket, b);
  }

  lemma RunInFirstBucket(pts: seq<Point>, bucket: Point -> int)
    requires pts != []
    ensures var n := RunLength(pts, bucket, bucket(pts[0]));
      WithKey(pts[..n], bucket, bucket(pts[0])) == pts[..n]
  {
    var b := bucket(pts[0]);
    var n := RunLength(pts, bucket, b);
    RunLengthMaximal(pts, bucket, b);
    assert forall i :: 0 <= i < n ==> pts[..n][i] == pts[i];
    WithKeyAll(pts[..n], bucket, b);
  }

  lemma RestOutsideFirstBucket(pts: seq<Point>, bucket: Point -> int)
    requires SortedBy(pts, bucket) && pts != []
    ensures var n := RunLength(pts, bucket, bucket(pts[0]));
      WithKey(pts[n..], bucket, bucket(pts[0])) == []
  {
    var b := bucket(pts[0]);
    var n := RunLength(pts, bucket, b);
    RunLengthMaximal(pts, bucket, b);
    RestInLaterBuckets(pts, bucket, n);
    assert forall i :: 0 <= i < |pts| - n ==> pts[n..][i] == pts[n + i];
    WithKeyNone(pts[n..], bucket, b);
  }

  /** A later bucket holds none of the first run. */
  lemma LaterBucketSkipsRun(pts: seq<Point>, bucket: Point -> int, c: int)
    requires pts != [] && bucket(pts[0]) < c
    ensures WithKey(pts, bucket, c) == WithKey(pts[RunLength(pts, bucket, bucket(pts[0]))..], bucket, c)
  {
    var n := RunLength(pts, bucket, bucket(pts[0]));
    var run, rest := pts[..n], pts[n..];
    RunLengthMaximal(pts, bucket, bucket(pts[0]));
    assert pts == run + rest;
    WithKeyNone(run, bucket, c);
    WithKeyAppend(run, rest, bucket, c);
  }

  lemma {:induction false} ResampleBarIsBucket(pts: seq<Point>, bucket: Point -> int, i: nat)
    requires SortedBy(pts, bucket) && i < |Resample(pts, bucket)|
    ensures IsBucketBar(pts, bucket, Resample(pts, bucket)[i])
    decreases |pts|
  {
    var b := bucket(pts[0]);
    var n := RunLength(pts, bucket, b);
    var rest := pts[n..];
    ResampleStep(pts, bucket);
    var bars := Resample(pts, bucket);
    if i == 0 {
      FirstBucketIsRun(pts, bucket);
    } else {
      var tail := Resample(rest, bucket);
      var c := bars[i].start;
      assert bars[i] == tail[i - 1];
      assert SortedBy(rest, bucket);
      ResampleBarIsBucket(rest, bucket, i - 1);
      assert b < c by {
        ResampleOrdered(pts, bucket);
        assert StartOf(bars[0]) < StartOf(bars[i]);
      }
      LaterBucketSkipsRun(pts, bucket, c);
    }
  }

  /** No bucket that holds a point is missing from the bars. */
  lemma {:induction false} ResampleCovers(pts: seq<Point>, bucket: Point -> int)
    ensures var bars := Resample(pts, bucket);
      forall j :: 0 <= j < |pts| ==> exists i :: 0 <= i < |bars| && bars[i].start == bucket(pts[j])
    decreases |pts|
  {
    if pts != [] {
      var n := RunLength(pts, bucket, bucket(pts[0]));
      var rest := pts[n..];
      ResampleStep(pts, bucket);
      var bars := Resample(pts, bucket);
      var tail := Resample(rest, bucket);
      ResampleCovers(rest, bucket);
      forall j | 0 <= j < |pts|
        ensures exists i :: 0 <= i < |bars| && bars[i].start == bucket(pts[j])
      {
        if j < n {
          RunLengthMaximal(pts, bucket, bucket(pts[0]));
          assert bars[0].start == bucket(pts[j]);
        } else {
          assert rest[j - n] == pts[j];
          var i :| 0 <= i < |tail| && tail[i].start == bucket(rest[j - n]);
          assert bars[i + 1] == tail[i];
        }
      }
    }
  }

  /** Resampling time-ordered points meets `ResampleSpec` for any monotone bucketing. */
  lemma ResampleMeetsSpec(pts: seq<Point>, bucket: Point -> int)
    requires SortedBy(pts, bucket)
    ensures ResampleSpec(pts, bucket, Resample(pts, bucket))
  {
    var bars := Resample(pts, bucket);
    ResampleOrdered(pts, bucket);
    forall i | 0 <= i < |bars| ensures IsBucketBar(pts, bucket, bars[i]) {
      ResampleBarIsBucket(pts, bucket, i);
    }
    ResampleCovers(pts, bucket);
    forall p | p in pts
      ensures exists i :: 0 <= i < |bars| && bars[i].start == bucket(p)
    {
      var j :| 0 <= j < |pts| && pts[j] == p;
    }
  }

  // ---------------------------------------------------------------------------
  // `_ticks_to_candles` as a whole

  /** The points of the earliest tick's time come first after sorting, so `FloorDay` of the
      first sorted point is the midnight at or before every tick. */
  lemma FirstSortedIsEarliest(ticks: seq<Tick>, side: string)
    requires ticks != [] && side in {"bid", "ask", "mid"}
    ensures var pts := SortBy(SidePoints(ticks, side).value, TsOf);
      && pts != []
      && (forall t :: t in ticks ==> pts[0].ts <= t.ts)
      && (exists t :: t in ticks && t.ts == pts[0].ts)
  {
    var raw := SidePoints(ticks, side).value;
    var pts := SortBy(raw, TsOf);
    SortedHeadIsLeast(raw);
    var k :| 0 <= k < |raw| && raw[k] == pts[0];
    assert SidePoint(ticks[k], side).value.ts == ticks[k].ts;
    assert ticks[k] in ticks;
    forall t | t in ticks ensures pts[0].ts <= t.ts {
      var j :| 0 <= j < |ticks| && ticks[j] == t;
      assert SidePoint(ticks[j], side).value.ts == ticks[j].ts;
      assert raw[j] in raw;
    }
  }

  /** The head of the time-sorted points is one of them and no later than any of them. */
  lemma SortedHeadIsLeast(raw: seq<Point>)
    requires raw != []
    ensures var pts := SortBy(raw, TsOf);
      && pts != []
      && (exists k :: 0 <= k < |raw| && raw[k] == pts[0])
      && (forall p :: p in raw ==> pts[0].ts <= p.ts)
  {
    var pts := SortBy(raw, TsOf);
    assert pts[0] in multiset(raw);
    forall p | p in raw ensures pts[0].ts <= p.ts {
      assert p in multiset(pts);
      var m :| 0 <= m < |pts| && pts[m] == p;
      assert TsOf(pts[0]) <= TsOf(pts[m]);
    }
  }

  /** Over ticks and a known side: bucket `origin` is the UTC midnight at or before the
      earliest tick; the bars are strictly increasing in time, each is the OHLCV of exactly
      the side's points in its bucket (taken in stable time order), and every tick's bucket
      has a bar. */
  lemma TicksToCandlesMeetsSpec(ticks: seq<Tick>, width: int, side: string)
    requires width > 0 && ticks != [] && side in {"bid", "ask", "mid"}
    ensures var r := TicksToCandles(ticks, width, side);
      var pts := SortBy(SidePoints(ticks, side).value, TsOf);
      var origin := Hours.FloorDay(pts[0].ts);
      && r.Ok?
      && origin % DAY_MS == 0
      && (forall t :: t in ticks ==> origin <= t.ts)
      && (exists t :: t in ticks && origin <= t.ts < origin + DAY_MS)
      && ResampleSpec(pts, BucketOf(origin, width), r.value)
  {
    var pts := SortBy(SidePoints(ticks, side).value, TsOf);
    var origin := Hours.FloorDay(pts[0].ts);
    FirstSortedIsEarliest(ticks, side);
    TimeOrderIsBucketOrder(pts, origin, width);
    ResampleMeetsSpec(pts, BucketOf(origin, width));
  }

  /** Every bar of `_ticks_to_candles` has `low <= open, close <= high`. */
  lemma CandlesAreWellFormed(ticks: seq<Tick>, width: int, side: string)
    requires width > 0 && TicksToCandles(ticks, width, side).Ok?
    ensures var bars := TicksToCandles(ticks, width, side).value;
      forall i :: 0 <= i < |bars| ==>
        bars[i].low <= bars[i].open <= bars[i].high && bars[i].low <= bars[i].close <= bars[i].high
  {
    if ticks != [] {
      var pts := SortBy(SidePoints(ticks, side).value, TsOf);
      var bucket := BucketOf(Hours.FloorDay(pts[0].ts), width);
      var bars := TicksToCandles(ticks, width, side).value;
      TicksToCandlesMeetsSpec(ticks, width, side);
      forall i | 0 <= i < |bars|
        ensures bars[i].low <= bars[i].open <= bars[i].high && bars[i].low <= bars[i].close <= bars[i].high
      {
        assert IsBucketBar(pts, bucket, bars[i]);
        BarBounds(bars[i].start, WithKey(pts, bucket, bars[i].start));
      }
    }
  }

  /** With the "mid" side, two ticks one second apart in the first minute of a day give one
      one-minute bar: open 101 and close 102 (the mid prices), volume (2+4)/2 + (6+8)/2. */
  lemma MidSideExample(day: int)
    requires day % DAY_MS == 0
    ensures TicksToCandles(
              [Tick(day + 1000, 100.0, 102.0, 2.0, 4.0), Tick(day + 2000, 101.0, 103.0, 6.0, 8.0)],
              60_000, "mid")
         == Ok([Bar(day, 101.0, 102.0, 101.0, 102.0, 10.0)])
  {
    var ticks := [Tick(day + 1000, 100.0, 102.0, 2.0, 4.0), Tick(day + 2000, 101.0, 103.0, 6.0, 8.0)];
    var p0, p1 := Point(day + 1000, 101.0, 3.0), Point(day + 2000, 102.0, 7.0);
    assert SidePoints(ticks, "mid").value == [p0, p1];
    SortBySorted([p0, p1], TsOf);
    assert Hours.FloorDay(day + 1000) == day;
    var bucket := BucketOf(day, 60_000);
    assert bucket(p0) == day && bucket(p1) == day;
    assert RunLength([p0, p1], bucket, day) == 2;
    assert [p0, p1][2..] == [] && [p0, p1][..2] == [p0, p1] && [p0, p1][1..] == [p1];
    assert Resample([p0, p1], bucket) == [MakeBar(day, [p0, p1])];
    assert [p1][1..] == [];
    assert MaxPrice([p0, p1]) == 102.0 && MinPrice([p0, p1]) == 101.0;
    assert SumVolume([p0, p1]) == 3.0 + SumVolume([p1]) == 10.0;
  }

  /** An hour with a single tick resamples to a single bar: the bucket of that tick, counted
      from its day's midnight, with the tick's bid as all four prices and its bid volume. */
  lemma OneTickBar(t: Tick, width: int)
    requires width > 0
    ensures TicksToCandles([t], width, "bid")
         == Ok([Bar(BucketStart(Hours.FloorDay(t.ts), width, t.ts), t.bid, t.bid, t.bid, t.bid, t.bidVol)])
  {
    var p := Point(t.ts, t.bid, t.bidVol);
    assert SidePoints([t], "bid").value == [p];
    SortBySorted([p], TsOf);
    var bucket := BucketOf(Hours.FloorDay(t.ts), width);
    assert RunLength([p], bucket, bucket(p)) == 1;
    assert [p][1..] == [] && [p][..1] == [p];
    assert SumVolume([p]) == t.bidVol + SumVolume([]);
    assert Resample([p], bucket) == [MakeBar(bucket(p), [p])] + Resample([], bucket);
    assert TicksToCandles([t], width, "bid") == Ok(Resample([p], bucket));
    assert bucket(p) == BucketStart(Hours.FloorDay(t.ts), width, t.ts);
    assert MakeBar(bucket(p), [p]) == Bar(bucket(p), t.bid, t.bid, t.bid, t.bid, t.bidVol);
    assert Resample([], bucket) == [];
    assert Resample([p], bucket) == [Bar(bucket(p), t.bid, t.bid, t.bid, t.bid, t.bidVol)];
  }
}
