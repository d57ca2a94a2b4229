/** Where an hour of ticks lives: `_dukascopy_tick_url` and the cache path that mirrors it. */
module Paths {
  import opened Common

  const BASE_URL: string := "https://datafeed.dukascopy.com/datafeed"
  const FILE_SUFFIX: string := "h_ticks.bi5"

  /** A filesystem path as its sequence of components (`cache_dir / symbol / ...`). */
  type Path = seq<string>

  // ---------------------------------------------------------------------------
  // Proleptic Gregorian calendar, as Python's datetime uses it

  predicate IsLeap(y: int) {
    (y % 4 == 0 && y % 100 != 0) || y % 400 == 0
  }

  function DaysInYear(y: int): int {
    if IsLeap(y) then 366 else 365
  }

  function DaysInMonth(y: int, m: int): int
    requires 1 <= m <= 12
  {
    if m == 2 then (if IsLeap(y) then 29 else 28)
    else if m == 4 || m == 6 || m == 9 || m == 11 then 30
    else 31
  }

  /** Day number (days since 1970-01-01) of 1 January of year `y`. */
  function YearStart(y: int): int
    decreases if y < 1970 then 1970 - y else y - 1970
  {
    if y == 1970 then 0
    else if y > 1970 then YearStart(y - 1) + DaysInYear(y - 1)
    else YearStart(y + 1) - DaysInYear(y)
  }

  lemma YearStartStep(y: int)
    ensures YearStart(y) == YearStart(y - 1) + DaysInYear(y - 1)
  {
  }

  /** Days from 1 January to the first day of month `m` of year `y`. */
  function MonthStart(y: int, m: int): int
    requires 1 <= m <= 12
  {
    if m == 1 then 0 else MonthStart(y, m - 1) + DaysInMonth(y, m - 1)
  }

  /** The year holding day number `YearStart(y) + days`, and the day's index within it. */
  function YearOf(days: int, y: int): (r: (int, int))
    ensures 0 <= r.1 < DaysInYear(r.0)
    ensures YearStart(r.0) + r.1 == YearStart(y) + days
    decreases (if days < 0 then 1 - days else 0), (if days < 0 then 0 else days)
  {
    if days < 0 then
      YearStartStep(y);
      YearOf(days + DaysInYear(y - 1), y - 1)
    else if days >= DaysInYear(y) then
      YearStartStep(y + 1);
      YearOf(days - DaysInYear(y), y + 1)
    else (y, days)
  }

  /** The month holding day index `doy` of year `y` (counting from month `m`), and the
      day of the month. */
  function MonthOf(y: int, doy: int, m: int): (r: (int, int))
    requires 1 <= m <= 12 && 0 <= doy
    requires MonthStart(y, m) + doy < DaysInYear(y)
    ensures 1 <= r.0 <= 12 && 1 <= r.1 <= DaysInMonth(y, r.0)
    ensures MonthStart(y, r.0) + r.1 - 1 == MonthStart(y, m) + doy
    decreases 12 - m
  {
    if doy < DaysInMonth(y, m) then (m, doy + 1)
    else
      assert m < 12 by {
        if m == 12 {
          MonthStartDecember(y);
        }
      }
      MonthOf(y, doy - DaysInMonth(y, m), m + 1)
  }

  lemma MonthStartDecember(y: int)
    ensures MonthStart(y, 12) + DaysInMonth(y, 12) == DaysInYear(y)
  {
    var feb := DaysInMonth(y, 2);
    assert MonthStart(y, 2) == 31;
    assert MonthStart(y, 3) == 31 + feb;
    assert MonthStart(y, 4) == 62 + feb;
    assert MonthStart(y, 5) == 92 + feb;
    assert MonthStart(y, 6) == 123 + feb;
    assert MonthStart(y, 7) == 153 + feb;
    assert MonthStart(y, 8) == 184 + feb;
    assert MonthStart(y, 9) == 215 + feb;
    assert MonthStart(y, 10) == 245 + feb;
    assert MonthStart(y, 11) == 276 + feb;
    assert MonthStart(y, 12) == 306 + feb;
  }

  lemma {:induction false} YearStartGap(y1: int, y2: int)
    requires y1 < y2
    ensures YearStart(y2) >= YearStart(y1) + DaysInYear(y1)
    decreases y2 - y1
  {
    YearStartStep(y2);
    if y1 < y2 - 1 {
      YearStartGap(y1, y2 - 1);
    }
  }

  /** Each day number belongs to exactly one year: `YearOf` finds that one. */
  lemma YearOfUnique(days: int, y0: int, y: int, d: int)
    requires 0 <= d < DaysInYear(y) && YearStart(y) + d == YearStart(y0) + days
    ensures YearOf(days, y0) == (y, d)
  {
    var r := YearOf(days, y0);
    if r.0 < y {
      YearStartGap(r.0, y);
    } else if y < r.0 {
      YearStartGap(y, r.0);
    }
  }

  /** A UTC hour as Python's datetime spells it. */
  datatype Civil = Civil(year: int, month: int, day: int, hour: int)

  /** The calendar fields of an instant (the `.year`, `.month`, `.day`, `.hour` of a UTC datetime). */
  function CivilOf(t: int): (c: Civil)
    ensures 1 <= c.month <= 12 && 1 <= c.day <= DaysInMonth(c.year, c.month) && 0 <= c.hour < 24
  {
    var yd := YearOf(t / DAY_MS, 1970);
    var md := MonthOf(yd.0, yd.1, 1);
    Civil(yd.0, md.0, md.1, (t % DAY_MS) / HOUR_MS)
  }

  /** The instant at which a calendar hour begins. */
  function InstantOf(c: Civil): int
    requires 1 <= c.month <= 12
  {
    (YearStart(c.year) + MonthStart(c.year, c.month) + c.day - 1) * DAY_MS + c.hour * HOUR_MS
  }

  /** The calendar split loses nothing for an hour-aligned instant. */
  lemma CivilRoundTrip(t: int)
    requires t % HOUR_MS == 0
    ensures InstantOf(CivilOf(t)) == t
  {
    var yd := YearOf(t / DAY_MS, 1970);
    var md := MonthOf(yd.0, yd.1, 1);
    assert YearStart(yd.0) + MonthStart(yd.0, md.0) + md.1 - 1 == t / DAY_MS;
    assert t == (t / DAY_MS) * DAY_MS + t % DAY_MS;
    assert (t % DAY_MS) % HOUR_MS == 0;
    assert t % DAY_MS == ((t % DAY_MS) / HOUR_MS) * HOUR_MS;
  }

  // ---------------------------------------------------------------------------
  // Decimal formatting

  function Digit(n: int): (c: char)
    requires 0 <= n < 10
    ensures '0' <= c <= '9'
  {
    ('0' as int + n) as char
  }

  function DigitValue(c: char): int {
    c as int - '0' as int
  }

  /** `f"{n}"` for a non-negative integer. */
  function Decimal(n: nat): (s: string)
    ensures |s| >= 1 && forall i :: 0 <= i < |s| ==> '0' <= s[i] <= '9'
  {
    if n < 10 then [Digit(n)] else Decimal(n / 10) + [Digit(n % 10)]
  }

  /** `f"{n}"` for any integer. */
  function IntString(n: int): string {
    if n < 0 then "-" + Decimal(-n) else Decimal(n)
  }

  /** `f"{n:02d}"` for 0 <= n < 100. */
  function Pad2(n: int): (s: string)
    requires 0 <= n < 100
    ensures |s| == 2 && '0' <= s[0] <= '9' && '0' <= s[1] <= '9'
  {
    [Digit(n / 10), Digit(n % 10)]
  }

  /** Reads back a run of decimal digits. */
  function ParseDecimal(s: string): int {
    if s == [] then 0 else ParseDecimal(s[..|s| - 1]) * 10 + DigitValue(s[|s| - 1])
  }

  function ParseInt(s: string): int {
    if s != [] && s[0] == '-' then -ParseDecimal(s[1..]) else ParseDecimal(s)
  }

  lemma {:induction false} DecimalRoundTrip(n: nat)
    ensures ParseDecimal(Decimal(n)) == n
  {
    if n >= 10 {
      DecimalRoundTrip(n / 10);
      var s := Decimal(n);
      assert s[..|s| - 1] == Decimal(n / 10);
    }
  }

  lemma IntStringRoundTrip(n: int)
    ensures ParseInt(IntString(n)) == n
  {
    DecimalRoundTrip(if n < 0 then -n else n);
    if n < 0 {
      assert IntString(n)[1..] == Decimal(-n);
    } else {
      assert Decimal(n)[0] != '-';
    }
  }

  lemma Pad2RoundTrip(n: int)
    requires 0 <= n < 100
    ensures ParseDecimal(Pad2(n)) == n
  {
    var s := Pad2(n);
    assert DigitValue(s[0]) == n / 10 && DigitValue(s[1]) == n % 10;
    assert s[..1] == [s[0]];
    assert [s[0]][..0] == [];
    assert ParseDecimal([s[0]]) == n / 10;
  }

  // ---------------------------------------------------------------------------
  // URL and cache path

  /** The path components below the datafeed root (and below the cache root) for one hour:
      symbol, year, zero-based month, day, and `HHh_ticks.bi5`. */
  function HourKey(symbol: string, hourStart: int): Path {
    var c := CivilOf(hourStart);
    [symbol, IntString(c.year), Pad2(c.month - 1), Pad2(c.day), Pad2(c.hour) + FILE_SUFFIX]
  }

  function JoinUnder(root: string, parts: Path): string
    decreases |parts|
  {
    if parts == [] then root else JoinUnder(root + "/" + parts[0], parts[1..])
  }

  /** `_dukascopy_tick_url(symbol, hour_start)`. */
  function TickUrl(symbol: string, hourStart: int): string {
    JoinUnder(BASE_URL, HourKey(symbol, hourStart))
  }

  /** The cache file for an hour: `cache_dir / symbol / YYYY / MM / DD / HHh_ticks.bi5`. */
  function CachePath(cacheDir: Path, symbol: string, hourStart: int): Path {
    cacheDir + HourKey(symbol, hourStart)
  }

  /** Reading the hour key back gives the symbol, the year, the month minus one (0..11),
      the day and the hour: the month in the URL and in the cache path is zero-based,
      padded to two digits, as are the day and the hour. */
  lemma HourKeyFields(symbol: string, hourStart: int)
    ensures var k := HourKey(symbol, hourStart); var c := CivilOf(hourStart);
      && |k| == 5 && k[0] == symbol
      && ParseInt(k[1]) == c.year
      && |k[2]| == 2 && ParseDecimal(k[2]) == c.month - 1 && 0 <= ParseDecimal(k[2]) <= 11
      && |k[3]| == 2 && ParseDecimal(k[3]) == c.day
      && |k[4]| == 2 + |FILE_SUFFIX| && k[4][2..] == FILE_SUFFIX
      && ParseDecimal(k[4][..2]) == c.hour
  {
    var c := CivilOf(hourStart);
    IntStringRoundTrip(c.year);
    Pad2RoundTrip(c.month - 1);
    Pad2RoundTrip(c.day);
    Pad2RoundTrip(c.hour);
    var k := HourKey(symbol, hourStart);
    assert k[4][..2] == Pad2(c.hour);
  }

  /** Two different hours never share a URL or a cache file. */
  lemma HourKeyInjective(symbol: string, t1: int, t2: int)
    requires t1 % HOUR_MS == 0 && t2 % HOUR_MS == 0
    requires HourKey(symbol, t1) == HourKey(symbol, t2)
    ensures t1 == t2
  {
    HourKeyFields(symbol, t1);
    HourKeyFields(symbol, t2);
    var c1, c2 := CivilOf(t1), CivilOf(t2);
    var k1, k2 := HourKey(symbol, t1), HourKey(symbol, t2);
    assert k1[4][..2] == k2[4][..2];
    assert c1 == c2;
    CivilRoundTrip(t1);
    CivilRoundTrip(t2);
  }

  /** The URL is the datafeed root followed by exactly the components the cache path appends
      to the cache root ("the cache mirrors the URL path"). */
  lemma CacheMirrorsUrl(cacheDir: Path, symbol: string, hourStart: int)
    ensures var p := CachePath(cacheDir, symbol, hourStart);
      && p[..|cacheDir|] == cacheDir
      && TickUrl(symbol, hourStart) == JoinUnder(BASE_URL, p[|cacheDir|..])
  {
    var p := CachePath(cacheDir, symbol, hourStart);
    assert p[|cacheDir|..] == HourKey(symbol, hourStart);
  }

  /** Leap years in [1, y) (counted with floor division for every y). */
  function LeapsBefore(y: int): int {
    (y - 1) / 4 - (y - 1) / 100 + (y - 1) / 400
  }

  lemma LeapsBeforeStep(y: int)
    ensures LeapsBefore(y + 1) == LeapsBefore(y) + (if IsLeap(y) then 1 else 0)
  {
    assert y / 4 == (y - 1) / 4 + (if y % 4 == 0 then 1 else 0);
    assert y / 100 == (y - 1) / 100 + (if y % 100 == 0 then 1 else 0);
    assert y / 400 == (y - 1) / 400 + (if y % 400 == 0 then 1 else 0);
    assert y % 100 == 0 ==> y % 4 == 0;
    assert y % 400 == 0 ==> y % 100 == 0;
  }

  /** Closed form of the day number of 1 January. */
  lemma {:induction false} YearStartClosedForm(y: int)
    ensures YearStart(y) == 365 * (y - 1970) + LeapsBefore(y) - LeapsBefore(1970)
    decreases if y < 1970 then 1970 - y else y - 1970
  {
    if y > 1970 {
      YearStartClosedForm(y - 1);
      LeapsBeforeStep(y - 1);
    } else if y < 1970 {
      YearStartClosedForm(y + 1);
      LeapsBeforeStep(y);
    }
  }

  /** 1748736000000 ms is 2025-06-01T00:00Z. */
  lemma CivilOfJuneFirst()
    ensures CivilOf(1748736000000) == Civil(2025, 6, 1, 0)
  {
    assert 1748736000000 / DAY_MS == 20240 && 1748736000000 % DAY_MS == 0;
    YearStartClosedForm(2025);
    YearOfUnique(20240, 1970, 2025, 151);
    MonthOfJuneFirst();
  }

  /** Day index 151 of 2025 (not a leap year) is 1 June. */
  lemma MonthOfJuneFirst()
    ensures MonthOf(2025, 151, 1) == (6, 1)
  {
    assert !IsLeap(2025);
    assert MonthOf(2025, 151, 1) == MonthOf(2025, 120, 2);
    assert MonthOf(2025, 120, 2) == MonthOf(2025, 92, 3);
    assert MonthOf(2025, 92, 3) == MonthOf(2025, 61, 4);
    assert MonthOf(2025, 61, 4) == MonthOf(2025, 31, 5);
    assert MonthOf(2025, 31, 5) == MonthOf(2025, 0, 6);
  }

  /** At 2025-06-01T00:00Z, June is written as month "05". */
  lemma JuneIsMonthFive()
    ensures HourKey("EURUSD", 1748736000000) == ["EURUSD", "2025", "05", "01", "00h_ticks.bi5"]
  {
    CivilOfJuneFirst();
    assert HourKey("EURUSD", 1748736000000)
        == ["EURUSD", IntString(2025), Pad2(5), Pad2(1), Pad2(0) + FILE_SUFFIX];
    YearString2025();
    assert Pad2(5) == "05";
    assert Pad2(1) == "01";
    assert Pad2(0) + FILE_SUFFIX == "00h_ticks.bi5";
  }

  lemma YearString2025()
    ensures IntString(2025) == "2025"
  {
    assert Decimal(2) == "2";
    assert Decimal(20) == "20";
    assert Decimal(202) == "202";
  }
}
