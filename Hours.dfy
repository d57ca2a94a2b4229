/** The hour enumerator: `_iter_hours`. */
module Hours {
  import opened Common

  predicate OnHour(t: int) {
    t % HOUR_MS == 0
  }

  /** `start` rounded up to the next hour boundary, unchanged when already on one. */
  function CeilHour(start: int): (r: int)
    ensures OnHour(r) && start <= r < start + HOUR_MS
  {
    var floor := start - start % HOUR_MS;
    if floor < start then floor + HOUR_MS else floor
  }

  /** The UTC midnight at or before `t`. */
  function FloorDay(t: int): (r: int)
    ensures r % DAY_MS == 0 && r <= t < r + DAY_MS
  {
    t - t % DAY_MS
  }

  /** The instants `cur`, `cur` + 1h, ... that lie strictly below `endExclusive`. */
  function HourStarts(cur: int, endExclusive: int): seq<int>
    decreases endExclusive - cur
  {
    if cur < endExclusive then [cur] + HourStarts(cur + HOUR_MS, endExclusive) else []
  }

  /** The number of whole-or-partial hours from `cur` up to `endExclusive`. */
  function HourCount(cur: int, endExclusive: int): nat {
    if cur < endExclusive then (endExclusive - cur + HOUR_MS - 1) / HOUR_MS else 0
  }

  /** Every element is `cur` plus a whole number of hours, in order, all below the end,
      and the next hour after the last one is at or past the end. */
  lemma {:induction false} HourStartsShape(cur: int, endExclusive: int)
    ensures var hs := HourStarts(cur, endExclusive);
      && |hs| == HourCount(cur, endExclusive)
      && (forall i :: 0 <= i < |hs| ==> hs[i] == cur + i * HOUR_MS && hs[i] < endExclusive)
      && cur + |hs| * HOUR_MS >= endExclusive
    decreases endExclusive - cur
  {
    if cur < endExclusive {
      var next := cur + HOUR_MS;
      HourStartsShape(next, endExclusive);
      var hs := HourStarts(cur, endExclusive);
      assert hs == [cur] + HourStarts(next, endExclusive);
      if next < endExclusive {
        assert (endExclusive - cur + HOUR_MS - 1) / HOUR_MS == (endExclusive - next + HOUR_MS - 1) / HOUR_MS + 1;
      } else {
        assert 0 < endExclusive - cur <= HOUR_MS;
        assert (endExclusive - cur + HOUR_MS - 1) / HOUR_MS == 1;
      }
      forall i | 0 <= i < |hs|
        ensures hs[i] == cur + i * HOUR_MS && hs[i] < endExclusive
      {
        if i > 0 {
          assert hs[i] == HourStarts(next, endExclusive)[i - 1];
        }
      }
    }
  }

  /** What `_iter_hours` yields: hour-aligned instants, the first being `start` rounded up,
      each one hour after the previous, all below `endExclusive`, none missing before the end,
      and nothing at all when the rounded start is not before the end. */
  lemma IterHoursProperties(start: int, endExclusive: int)
    ensures var hs := HourStarts(CeilHour(start), endExclusive);
      && (hs == [] <==> CeilHour(start) >= endExclusive)
      && (hs != [] ==> hs[0] == CeilHour(start))
      && (forall i :: 0 <= i < |hs| ==> OnHour(hs[i]) && start <= hs[i] < endExclusive)
      && (forall i :: 0 < i < |hs| ==> hs[i] == hs[i - 1] + HOUR_MS)
      && (forall t :: start <= t < endExclusive && OnHour(t) ==> t in hs)
  {
    var c := CeilHour(start);
    HourStartsShape(c, endExclusive);
    var hs := HourStarts(c, endExclusive);
    forall i | 0 <= i < |hs|
      ensures OnHour(hs[i])
    {
      HourMultipleOnHour(c, i);
    }
    HourStartsCover(c, start, endExclusive);
  }

  lemma HourMultipleOnHour(c: int, i: int)
    requires OnHour(c)
    ensures OnHour(c + i * HOUR_MS)
  {
  }

  /** Every hour-aligned instant from `start` up to the end is enumerated from `start`
      rounded up. */
  lemma HourStartsCover(c: int, start: int, endExclusive: int)
    requires c == CeilHour(start)
    ensures forall t :: start <= t < endExclusive && OnHour(t) ==> t in HourStarts(c, endExclusive)
  {
    HourStartsShape(c, endExclusive);
    var hs := HourStarts(c, endExclusive);
    forall t | start <= t < endExclusive && OnHour(t)
      ensures t in hs
    {
      var i := (t - c) / HOUR_MS;
      assert (t - c) % HOUR_MS == 0;
      assert t == c + i * HOUR_MS;
      assert 0 <= i;
      assert hs[i] == t;
    }
  }

  /** `_iter_hours(start, end_exclusive)`, with its loop. */
  method IterHours(start: int, endExclusive: int) returns (hours: seq<int>)
    ensures hours == HourStarts(CeilHour(start), endExclusive)
  {
    var cur := start - start % HOUR_MS;
    if cur < start {
      cur := cur + HOUR_MS;
    }
    hours := [];
    while cur < endExclusive
      invariant HourStarts(CeilHour(start), endExclusive) == hours + HourStarts(cur, endExclusive)
      decreases endExclusive - cur
    {
      hours := hours + [cur];
      cur := cur + HOUR_MS;
    }
  }

  /** The two enumerations the source's tests spell out. */
  lemma IterHoursExamples()
    ensures HourStarts(CeilHour(1735689600000), 1735700400000)
         == [1735689600000, 1735693200000, 1735696800000]
    ensures HourStarts(CeilHour(1735691400000), 1735696800000) == [1735693200000]
  {
  }
}
