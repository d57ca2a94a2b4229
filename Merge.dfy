/** The end of `export_range`: the per-hour frames are concatenated, sorted by time, clipped
    to the requested days and stripped of duplicate timestamps, keeping the last of each. */
module Merge {
  import opened Common
  import opened Sorting
  import opened Candles

  function Concat(frames: seq<seq<Bar>>): seq<Bar> {
    if frames == [] then [] else frames[0] + Concat(frames[1..])
  }

  /** `frames.loc[lo : hiExclusive - 1µs]` on a time-sorted frame: the bars in `[lo, hiExclusive)`. */
  function Clip(s: seq<Bar>, lo: int, hiExclusive: int): (r: seq<Bar>)
    ensures forall b :: b in r ==> b in s && lo <= b.start < hiExclusive
  {
    if s == [] then []
    else (if lo <= s[0].start < hiExclusive then [s[0]] else []) + Clip(s[1..], lo, hiExclusive)
  }

  predicate HasStart(s: seq<Bar>, t: int) {
    exists b :: b in s && b.start == t
  }

  /** `frames[~frames.index.duplicated(keep="last")]`: a bar survives unless a later bar has
      the same timestamp. */
  function DedupKeepLast(s: seq<Bar>): (r: seq<Bar>)
    ensures forall b :: b in r ==> b in s
  {
    if s == [] then []
    else (if HasStart(s[1..], s[0].start) then [] else [s[0]]) + DedupKeepLast(s[1..])
  }

  /** The exported bars. */
  function MergeFrames(frames: seq<seq<Bar>>, start: int, endInclusive: int): seq<Bar> {
    DedupKeepLast(Clip(SortBy(Concat(frames), StartOf), start, endInclusive + DAY_MS))
  }

  function Last(s: seq<Bar>): Bar
    requires s != []
  {
    s[|s| - 1]
  }

  // ---------------------------------------------------------------------------

  lemma {:induction false} ClipSorted(s: seq<Bar>, lo: int, hi: int)
    requires SortedBy(s, StartOf)
    ensures SortedBy(Clip(s, lo, hi), StartOf)
  {
    if s != [] {
      ClipSorted(s[1..], lo, hi);
      var tail := Clip(s[1..], lo, hi);
      forall b | b in tail ensures s[0].start <= b.start {
        var i :| 0 <= i < |s[1..]| && s[1..][i] == b;
        assert StartOf(s[0]) <= StartOf(s[i + 1]);
      }
    }
  }

  /** Clipping keeps every bar of an in-range timestamp and none of any other. */
  lemma {:induction false} ClipByKey(s: seq<Bar>, lo: int, hi: int, t: int)
    ensures WithKey(Clip(s, lo, hi), StartOf, t) == if lo <= t < hi then WithKey(s, StartOf, t) else []
  {
    if s != [] {
      ClipByKey(s[1..], lo, hi, t);
      var head := if lo <= s[0].start < hi then [s[0]] else [];
      WithKeyAppend(head, Clip(s[1..], lo, hi), StartOf, t);
      if head != [] {
        assert head[1..] == [];
      }
    }
  }

  lemma {:induction false} DedupStrictlySorted(s: seq<Bar>)
    requires SortedBy(s, StartOf)
    ensures StrictlySortedBy(DedupKeepLast(s), StartOf)
  {
    if s != [] {
      DedupStrictlySorted(s[1..]);
      if !HasStart(s[1..], s[0].start) {
        SurvivorsAfterHead(s);
        ConsStrictlySorted(s[0], DedupKeepLast(s[1..]));
      }
    }
  }

  /** In a time-sorted sequence whose head's timestamp does not recur, every bar that
      survives in the tail is strictly later than the head. */
  lemma SurvivorsAfterHead(s: seq<Bar>)
    requires s != [] && SortedBy(s, StartOf) && !HasStart(s[1..], s[0].start)
    ensures forall b :: b in DedupKeepLast(s[1..]) ==> s[0].start < b.start
  {
    forall b | b in DedupKeepLast(s[1..]) ensures s[0].start < b.start {
      var i :| 0 <= i < |s[1..]| && s[1..][i] == b;
      assert StartOf(s[0]) <= StartOf(s[i + 1]);
    }
  }

  lemma ConsStrictlySorted(x: Bar, tail: seq<Bar>)
    requires StrictlySortedBy(tail, StartOf)
    requires forall b :: b in tail ==> x.start < b.start
    ensures StrictlySortedBy([x] + tail, StartOf)
  {
    var r := [x] + tail;
    forall i, j | 0 <= i < j < |r| ensures StartOf(r[i]) < StartOf(r[j]) {
      assert r[j] == tail[j - 1];
      assert r[j] in tail;
      if i > 0 {
        assert r[i] == tail[i - 1];
      }
    }
  }

  /** Each surviving bar is the last bar of its timestamp. */
  lemma {:induction false} DedupKeepsLast(s: seq<Bar>)
    ensures forall b :: b in DedupKeepLast(s) ==>
      WithKey(s, StartOf, b.start) != [] && b == Last(WithKey(s, StartOf, b.start))
  {
    if s != [] {
      var rest := s[1..];
      DedupKeepsLast(rest);
      assert s == [s[0]] + rest;
      forall b | b in DedupKeepLast(s)
        ensures WithKey(s, StartOf, b.start) != [] && b == Last(WithKey(s, StartOf, b.start))
      {
        var head := if s[0].start == b.start then [s[0]] else [];
        WithKeyAppend([s[0]], rest, StartOf, b.start);
        assert [s[0]][1..] == [];
        assert WithKey(s, StartOf, b.start) == head + WithKey(rest, StartOf, b.start);
        if b in DedupKeepLast(rest) {
        } else {
          assert b == s[0] && !HasStart(rest, s[0].start);
          WithKeyNone(rest, StartOf, b.start);
        }
      }
    }
  }

  /** Every timestamp of the input keeps a bar. */
  lemma {:induction false} DedupKeepsEveryTimestamp(s: seq<Bar>)
    ensures forall b :: b in s ==> HasStart(DedupKeepLast(s), b.start)
  {
    if s != [] {
      var rest := s[1..];
      DedupKeepsEveryTimestamp(rest);
      forall b | b in s ensures HasStart(DedupKeepLast(s), b.start) {
        if b in rest {
          var c :| c in DedupKeepLast(rest) && c.start == b.start;
          assert c in DedupKeepLast(s);
        } else if HasStart(rest, s[0].start) {
          var c :| c in rest && c.start == s[0].start;
          var d :| d in DedupKeepLast(rest) && d.start == c.start;
          assert d in DedupKeepLast(s);
        } else {
          assert s[0] in DedupKeepLast(s);
        }
      }
    }
  }

  lemma {:induction false} InConcat(frames: seq<seq<Bar>>, i: int, b: Bar)
    requires 0 <= i < |frames| && b in frames[i]
    ensures b in Concat(frames)
  {
    if i > 0 {
      InConcat(frames[1..], i - 1, b);
    }
  }

  /** The merged output is in strictly increasing time order. */
  lemma MergeStrictlySorted(frames: seq<seq<Bar>>, start: int, endInclusive: int)
    ensures StrictlySortedBy(MergeFrames(frames, start, endInclusive), StartOf)
  {
    var sorted := SortBy(Concat(frames), StartOf);
    ClipSorted(sorted, start, endInclusive + DAY_MS);
    DedupStrictlySorted(Clip(sorted, start, endInclusive + DAY_MS));
  }

  /** Every merged bar comes from some frame and lies within the requested days. */
  lemma MergeWithinRange(frames: seq<seq<Bar>>, start: int, endInclusive: int)
    ensures forall b :: b in MergeFrames(frames, start, endInclusive) ==>
      b in Concat(frames) && start <= b.start < endInclusive + DAY_MS
  {
    var all := Concat(frames);
    var sorted := SortBy(all, StartOf);
    var clipped := Clip(sorted, start, endInclusive + DAY_MS);
    forall b | b in DedupKeepLast(clipped) ensures b in all && start <= b.start < endInclusive + DAY_MS {
      assert b in clipped;
      assert b in multiset(sorted);
    }
  }

  /** Every in-range timestamp that any frame produced has a bar in the output. */
  lemma MergeKeepsEveryTimestamp(frames: seq<seq<Bar>>, start: int, endInclusive: int)
    ensures forall b :: b in Concat(frames) && start <= b.start < endInclusive + DAY_MS ==>
      HasStart(MergeFrames(frames, start, endInclusive), b.start)
  {
    forall b | b in Concat(frames) && start <= b.start < endInclusive + DAY_MS
      ensures HasStart(MergeFrames(frames, start, endInclusive), b.start)
    {
      MergeKeepsTimestamp(frames, start, endInclusive, b);
    }
  }

  lemma MergeKeepsTimestamp(frames: seq<seq<Bar>>, start: int, endInclusive: int, b: Bar)
    requires b in Concat(frames) && start <= b.start < endInclusive + DAY_MS
    ensures HasStart(MergeFrames(frames, start, endInclusive), b.start)
  {
    var sorted := SortBy(Concat(frames), StartOf);
    var clipped := Clip(sorted, start, endInclusive + DAY_MS);
    assert b in multiset(sorted);
    ClipKeepsTimestamp(sorted, start, endInclusive + DAY_MS, b);
    var c :| c in clipped && c.start == b.start;
    DedupKeepsEveryTimestamp(clipped);
    assert HasStart(DedupKeepLast(clipped), c.start);
  }

  lemma ClipKeepsTimestamp(s: seq<Bar>, lo: int, hi: int, b: Bar)
    requires b in s && lo <= b.start < hi
    ensures HasStart(Clip(s, lo, hi), b.start)
  {
    var clipped := Clip(s, lo, hi);
    ClipByKey(s, lo, hi, b.start);
    WithKeyMember(s, b);
    var c := WithKey(clipped, StartOf, b.start)[0];
    WithKeyElements(clipped, StartOf, b.start);
    assert c in clipped && c.start == b.start;
  }

  /** For each timestamp the output keeps the bar of the last frame, in hour order, that
      produced it. */
  lemma MergeKeepsLast(frames: seq<seq<Bar>>, start: int, endInclusive: int)
    ensures forall b :: b in MergeFrames(frames, start, endInclusive) ==>
      WithKey(Concat(frames), StartOf, b.start) != [] && b == Last(WithKey(Concat(frames), StartOf, b.start))
  {
    var all := Concat(frames);
    var sorted := SortBy(all, StartOf);
    var hi := endInclusive + DAY_MS;
    var clipped := Clip(sorted, start, hi);
    DedupKeepsLast(clipped);
    forall b | b in DedupKeepLast(clipped)
      ensures WithKey(all, StartOf, b.start) != [] && b == Last(WithKey(all, StartOf, b.start))
    {
      assert b in clipped;
      ClipByKey(sorted, start, hi, b.start);
      SortByStable(all, StartOf, b.start);
    }
  }

  lemma {:induction false} WithKeyMember(s: seq<Bar>, b: Bar)
    requires b in s
    ensures WithKey(s, StartOf, b.start) != []
  {
    if s[0] != b {
      WithKeyMember(s[1..], b);
    }
  }

  lemma {:induction false} WithKeyElements(s: seq<Bar>, key: Bar -> int, k: int)
    ensures forall b :: b in WithKey(s, key, k) ==> b in s && key(b) == k
  {
    if s != [] {
      WithKeyElements(s[1..], key, k);
    }
  }

  /** Two frames of one bar each with the same start merge to the later frame's bar. */
  lemma SameStartKeepsLater(b1: Bar, b2: Bar, start: int, endInclusive: int)
    requires b1.start == b2.start && start <= b1.start < endInclusive + DAY_MS
    ensures MergeFrames([[b1], [b2]], start, endInclusive) == [b2]
  {
    ConcatTwo(b1, b2);
    SortedTwo(b1, b2);
    SortBySorted([b1, b2], StartOf);
    var sorted := SortBy(Concat([[b1], [b2]]), StartOf);
    assert sorted == [b1, b2];
    ClipTwo(b1, b2, start, endInclusive + DAY_MS);
    var clipped := Clip(sorted, start, endInclusive + DAY_MS);
    assert clipped == [b1, b2];
    DedupTwo(b1, b2);
    assert DedupKeepLast(clipped) == [b2];
  }

  lemma SortedTwo(b1: Bar, b2: Bar)
    requires b1.start <= b2.start
    ensures SortedBy([b1, b2], StartOf)
  {
    forall i, j | 0 <= i < j < 2 ensures StartOf([b1, b2][i]) <= StartOf([b1, b2][j]) {
      assert i == 0 && j == 1;
    }
  }

  lemma ConcatTwo(b1: Bar, b2: Bar)
    ensures Concat([[b1], [b2]]) == [b1, b2]
  {
    assert [[b1], [b2]][1..] == [[b2]];
    assert [[b2]][1..] == [];
    assert Concat([[b2]]) == [b2] + Concat([]);
  }

  lemma ClipTwo(b1: Bar, b2: Bar, lo: int, hi: int)
    requires lo <= b1.start < hi && lo <= b2.start < hi
    ensures Clip([b1, b2], lo, hi) == [b1, b2]
  {
    assert [b1, b2][1..] == [b2];
    assert [b2][1..] == [];
    assert Clip([b2], lo, hi) == [b2] + Clip([], lo, hi);
  }

  lemma DedupTwo(b1: Bar, b2: Bar)
    requires b1.start == b2.start
    ensures DedupKeepLast([b1, b2]) == [b2]
  {
    assert [b1, b2][1..] == [b2];
    assert [b2][1..] == [];
    assert b2 in [b2];
    assert HasStart([b2], b1.start);
    assert DedupKeepLast([b2]) == [b2] + DedupKeepLast([]);
  }

  /** An instant in the first two hours of a day lies in that day, and in its first two-hour bucket. */
  lemma EarlyInDay(day: int, offset: int)
    requires day % DAY_MS == 0 && 0 <= offset < 2 * HOUR_MS
    ensures Hours.FloorDay(day + offset) == day
    ensures BucketStart(day, 2 * HOUR_MS, day + offset) == day
  {
    assert (day + offset) % DAY_MS == offset;
    assert (day + offset - day) / (2 * HOUR_MS) == 0;
  }

  /** A bar width that does not divide an hour makes hourly frames collide: with two-hour
      bars, one tick in each of a day's first two hours gives each hour's frame a bar that
      starts at midnight, and the merge keeps only the second one, so the first hour's
      price and volume are lost. */
  lemma WideBarsCollide(day: int)
    requires day % DAY_MS == 0
    ensures var f1 := TicksToCandles([Tick(day + 1000, 1.0, 1.5, 2.0, 2.5)], 2 * HOUR_MS, "bid");
      var f2 := TicksToCandles([Tick(day + HOUR_MS + 1000, 3.0, 3.5, 5.0, 5.5)], 2 * HOUR_MS, "bid");
      && f1 == Ok([Bar(day, 1.0, 1.0, 1.0, 1.0, 2.0)])
      && f2 == Ok([Bar(day, 3.0, 3.0, 3.0, 3.0, 5.0)])
      && MergeFrames([f1.value, f2.value], day, day) == f2.value
  {
    var t1, t2 := Tick(day + 1000, 1.0, 1.5, 2.0, 2.5), Tick(day + HOUR_MS + 1000, 3.0, 3.5, 5.0, 5.5);
    OneTickBar(t1, 2 * HOUR_MS);
    OneTickBar(t2, 2 * HOUR_MS);
    EarlyInDay(day, 1000);
    EarlyInDay(day, HOUR_MS + 1000);
    SameStartKeepsLater(Bar(day, 1.0, 1.0, 1.0, 1.0, 2.0), Bar(day, 3.0, 3.0, 3.0, 3.0, 5.0), day, day);
  }
}
