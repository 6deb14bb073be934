/** What the trip estimate guarantees on every list of records. */
module TripProperties {
  import opened Options
  import opened Records
  import opened Trip

  // ----- one pair of samples -----

  ghost predicate TimesOk(t: Totals) {
    && 0.0 <= t.idleSeconds <= t.valid <= t.possible
    && t.possible == t.valid + 15.0 * t.gaps as real
    && t.valid <= 15.0 * t.intervals as real
    && 0.0 <= t.idleFuel <= t.fuel
  }

  lemma PositiveProduct(x: real, y: real)
    requires x >= 0.0 && y >= 0.0
    ensures x * y >= 0.0
  {
  }

  lemma ProductMonotone(x: real, y: real, d: real)
    requires x <= y && d >= 0.0
    ensures x * d <= y * d
  {
    PositiveProduct(y - x, d);
    assert (y - x) * d == y * d - x * d;
  }

  lemma SegmentTimes(a: Sample, b: Sample)
    requires a.rate >= 0.0 && b.rate >= 0.0
    ensures TimesOk(Segment(a, b))
  {
    if b.ms > a.ms {
      PositiveProduct((a.rate + b.rate) / 2.0, Seconds(a.ms, b.ms));
    }
  }

  lemma SegmentDistance(a: Sample, b: Sample, low: real, bound: real)
    requires low <= a.speed <= bound && low <= b.speed <= bound
    ensures DistanceOk(Segment(a, b), low, bound)
  {
    NothingIsOk(low, bound);
    if b.ms > a.ms && Seconds(a.ms, b.ms) <= 15.0 {
      var average := (a.speed + b.speed) / 2.0;
      ProductMonotone(average, bound, Seconds(a.ms, b.ms));
      ProductMonotone(low, average, Seconds(a.ms, b.ms));
    }
  }

  // ----- the whole timeline -----

  lemma {:induction false} SumTimes(tl: seq<Record>)
    ensures TimesOk(Sum(tl))
  {
    if |tl| > 0 {
      SumTimes(tl[..|tl| - 1]);
      LastSegmentTimes(tl);
    }
  }

  lemma LastSegmentTimes(tl: seq<Record>)
    requires |tl| > 0
    ensures TimesOk(LastSegment(tl))
  {
    if |tl| > 1 {
      var a, b := Observe(tl[..|tl| - 1]), Observe(tl);
      if a.Some? && b.Some? {
        SegmentTimes(a.value, b.value);
      }
    }
  }

  ghost predicate SpeedsWithin(samples: seq<Sample>, low: real, bound: real) {
    forall s :: s in samples ==> low <= s.speed <= bound
  }

  // A sample observed at the end of the timeline, or one record earlier, is among the samples.
  lemma {:induction false} SpeedsObserved(tl: seq<Record>, low: real, bound: real)
    requires |tl| > 0 && SpeedsWithin(Samples(tl), low, bound)
    ensures SpeedsWithin(Samples(tl[..|tl| - 1]), low, bound)
    ensures Observe(tl).Some? ==> low <= Observe(tl).value.speed <= bound
  {
    var before := Samples(tl[..|tl| - 1]);
    assert forall s :: s in before ==> s in Samples(tl);
    assert Observe(tl).Some? ==> Observe(tl).value in Samples(tl);
  }

  // Kilometres at `speed` km/h for so many seconds.
  function KmAt(speed: real, seconds: real): real {
    speed * seconds / 3600.0
  }

  ghost predicate DistanceOk(t: Totals, low: real, bound: real) {
    KmAt(low, t.valid) <= t.distance <= KmAt(bound, t.valid)
  }

  lemma NothingIsOk(low: real, bound: real)
    ensures DistanceOk(NOTHING, low, bound)
  {
    assert low * 0.0 == 0.0 && bound * 0.0 == 0.0;
  }

  lemma PlusIsOk(x: Totals, y: Totals, low: real, bound: real)
    requires DistanceOk(x, low, bound) && DistanceOk(y, low, bound)
    ensures DistanceOk(Plus(x, y), low, bound)
  {
    assert bound * (x.valid + y.valid) == bound * x.valid + bound * y.valid;
    assert low * (x.valid + y.valid) == low * x.valid + low * y.valid;
  }

  lemma {:induction false} LastSegmentDistance(tl: seq<Record>, low: real, bound: real)
    requires |tl| > 0 && SpeedsWithin(Samples(tl), low, bound)
    ensures DistanceOk(LastSegment(tl), low, bound)
  {
    SpeedsObserved(tl, low, bound);
    NothingIsOk(low, bound);
    if |tl| > 1 && Observe(tl).Some? && Observe(tl[..|tl| - 1]).Some? {
      SpeedsObserved(tl[..|tl| - 1], low, bound);
      SegmentDistance(Observe(tl[..|tl| - 1]).value, Observe(tl).value, low, bound);
    }
  }

  lemma {:induction false} SumDistance(tl: seq<Record>, low: real, bound: real)
    requires SpeedsWithin(Samples(tl), low, bound)
    ensures DistanceOk(Sum(tl), low, bound)
  {
    if |tl| == 0 {
      NothingIsOk(low, bound);
    } else {
      SpeedsObserved(tl, low, bound);
      SumDistance(tl[..|tl| - 1], low, bound);
      LastSegmentDistance(tl, low, bound);
      PlusIsOk(Sum(tl[..|tl| - 1]), LastSegment(tl), low, bound);
    }
  }

  // ----- duration -----

  ghost predicate Ordered(tl: seq<Record>) {
    forall i, j :: 0 <= i < j < |tl| ==> ReceivedMs(tl[i]) <= ReceivedMs(tl[j])
  }

  /** The order in which the database returns records. */
  ghost predicate NewestFirst(rs: seq<Record>) {
    forall i, j :: 0 <= i < j < |rs| ==> ReceivedMs(rs[j]) <= ReceivedMs(rs[i])
  }

  lemma {:induction false} TimelineFrom(rs: seq<Record>, r: Record)
    requires r in Timeline(rs)
    ensures r in rs
  {
    if |rs| > 0 {
      if r in Timeline(rs[1..]) {
        TimelineFrom(rs[1..], r);
      }
    }
  }

  lemma {:induction false} TimelineOrdered(rs: seq<Record>)
    requires NewestFirst(rs)
    ensures Ordered(Timeline(rs))
  {
    if |rs| > 0 {
      TimelineOrdered(rs[1..]);
      forall r | r in Timeline(rs[1..]) ensures ReceivedMs(r) <= ReceivedMs(rs[0]) {
        TimelineFrom(rs[1..], r);
        var k :| 0 <= k < |rs[1..]| && rs[1..][k] == r;
        assert rs[k + 1] == r;
      }
    }
  }

  // The observed span is at least the possible time, and ends by the last record.
  ghost predicate SpanOk(tl: seq<Record>) {
    var s := Samples(tl);
    if |s| == 0 then Sum(tl).possible == 0.0
    else s[0].ms <= s[|s| - 1].ms <= ReceivedMs(tl[|tl| - 1])
         && Sum(tl).possible <= Seconds(s[0].ms, s[|s| - 1].ms)
  }

  lemma SegmentSpan(a: Sample, b: Sample)
    requires a.ms <= b.ms
    ensures Segment(a, b).possible <= Seconds(a.ms, b.ms)
  {
  }

  lemma {:induction false} SamplesWithin(tl: seq<Record>)
    ensures |Samples(tl)| > 0 ==> |tl| > 0
    ensures |tl| > 0 && Observe(tl).Some? ==>
              |Samples(tl)| > 0 && Samples(tl)[|Samples(tl)| - 1] == Observe(tl).value
  {
    if |tl| > 0 {
      SamplesWithin(tl[..|tl| - 1]);
    }
  }

  lemma {:induction false} SumSpan(tl: seq<Record>)
    requires Ordered(tl)
    ensures |Samples(tl)| > 0 ==> |tl| > 0
    ensures SpanOk(tl)
  {
    SamplesWithin(tl);
    if |tl| > 0 {
      var before := tl[..|tl| - 1];
      SumSpan(before);
      SamplesWithin(before);
      if |tl| > 1 {
        assert ReceivedMs(before[|before| - 1]) <= ReceivedMs(tl[|tl| - 1]);
      }
      if |tl| > 1 && Observe(before).Some? && Observe(tl).Some? {
        SegmentSpan(Observe(before).value, Observe(tl).value);
      }
    }
  }

  // ----- the report -----

  lemma DivideBound(x: real, y: real, low: real, bound: real)
    requires y > 0.0 && low * y <= x <= bound * y
    ensures low <= x / y <= bound
  {
    var q := x / y;
    assert q * y == x;
    if q > bound {
      ProductStrict(bound, q, y);
    }
    if q < low {
      ProductStrict(q, low, y);
    }
  }

  lemma ProductStrict(x: real, y: real, d: real)
    requires x < y && d > 0.0
    ensures x * d < y * d
  {
    assert (y - x) * d > 0.0;
    assert (y - x) * d == y * d - x * d;
  }

  /** Possible time is valid time plus 15 s a gap, idle time is part of valid time, and no interval
      counts for more than 15 s. */
  lemma TimeAccounting(rs: seq<Record>, now: int)
    ensures var t := Estimate(rs, now).totals;
            && t.possible == t.valid + 15.0 * t.gaps as real
            && 0.0 <= t.idleSeconds <= t.valid <= t.possible
            && t.valid <= 15.0 * t.intervals as real
  {
    SumTimes(Timeline(rs));
  }

  /** On records in time order the possible time fits into the duration of the trip. */
  lemma PossibleWithinDuration(rs: seq<Record>, now: int)
    requires NewestFirst(rs)
    ensures Estimate(rs, now).totals.possible <= Estimate(rs, now).duration
  {
    var tl := Timeline(rs);
    TimelineOrdered(rs);
    SumSpan(tl);
    SamplesStamped(tl);
  }

  /** Coverage is a percentage, and the `min(100, ...)` never acts. */
  lemma CoverageIsPercentage(rs: seq<Record>, now: int)
    ensures var r := Estimate(rs, now);
            && 0.0 <= r.coverage <= 100.0
            && (r.totals.possible != 0.0 ==> r.coverage == r.totals.valid / r.totals.possible * 100.0)
            && (r.totals.possible == 0.0 ==> r.coverage == 0.0)
  {
    SumTimes(Timeline(rs));
    CoverageOfTotals(Sum(Timeline(rs)));
  }

  lemma CoverageOfTotals(t: Totals)
    requires TimesOk(t)
    ensures 0.0 <= Coverage(t) <= 100.0
    ensures t.possible != 0.0 ==> Coverage(t) == t.valid / t.possible * 100.0
  {
    if t.possible != 0.0 {
      DivideBound(t.valid, t.possible, 0.0, 1.0);
    }
  }

  /** A coverage grade bounds the gaps: 90 % means at most one gap per 135 s of valid time, 70 % at
      most one per 35 s. */
  lemma CoverageCountsGaps(t: Totals)
    requires TimesOk(t) && t.possible != 0.0
    ensures Coverage(t) >= 90.0 <==> 135.0 * t.gaps as real <= t.valid
    ensures Coverage(t) >= 70.0 <==> 35.0 * t.gaps as real <= t.valid
  {
    CoverageOfTotals(t);
    CoverageAtLeast(t, 0.9);
    CoverageAtLeast(t, 0.7);
  }

  lemma CoverageAtLeast(t: Totals, c: real)
    requires t.possible > 0.0
    ensures t.valid / t.possible >= c <==> t.valid >= c * t.possible
  {
    QuotientAtLeast(t.valid / t.possible, t.possible, c);
    assert t.valid / t.possible * t.possible == t.valid;
  }

  lemma QuotientAtLeast(q: real, y: real, c: real)
    requires y > 0.0
    ensures q >= c <==> q * y >= c * y
  {
    if q >= c {
      ProductMonotone(c, q, y);
    } else {
      ProductStrict(q, c, y);
    }
  }

  /** Confidence is HIGH exactly for at least 600 s of trip and 30 intervals with at most one gap
      per 135 s of valid time. */
  lemma HighConfidenceIff(rs: seq<Record>, now: int)
    ensures var r := Estimate(rs, now);
            r.confidence == HIGH <==>
              (r.totals.valid > 0.0 && 135.0 * r.totals.gaps as real <= r.totals.valid
               && r.duration >= 600.0 && r.totals.intervals >= 30)
  {
    var t := Sum(Timeline(rs));
    SumTimes(Timeline(rs));
    if t.possible != 0.0 {
      CoverageCountsGaps(t);
    }
  }

  /** Distance stays within the slowest and the fastest sample times the valid time. */
  lemma DistanceWithinSpeeds(rs: seq<Record>, now: int, low: real)
    requires forall s :: s in Samples(Timeline(rs)) ==> low <= s.speed
    ensures var r := Estimate(rs, now);
            KmAt(low, r.totals.valid) <= r.totals.distance <= KmAt(r.maxSpeed, r.totals.valid)
  {
    SumDistance(Timeline(rs), low, MaxSpeed(Samples(Timeline(rs))));
    ReportFields(rs, now);
  }

  // The report carries the sums over the timeline.
  lemma ReportFields(rs: seq<Record>, now: int)
    ensures var r := Estimate(rs, now);
            && r.totals == Sum(Timeline(rs))
            && r.maxSpeed == MaxSpeed(Samples(Timeline(rs)))
            && r.averageSpeed == AverageSpeed(Sum(Timeline(rs)))
  {
  }

  /** The average speed never exceeds the maximum speed. */
  lemma AverageWithinMaximum(rs: seq<Record>, now: int)
    ensures Estimate(rs, now).averageSpeed <= Estimate(rs, now).maxSpeed
  {
    ReportFields(rs, now);
    AverageOfTimeline(Timeline(rs));
  }

  lemma AverageOfTimeline(tl: seq<Record>)
    ensures AverageSpeed(Sum(tl)) <= MaxSpeed(Samples(tl))
  {
    SumTimes(tl);
    SumDistance(tl, Slowest(Samples(tl)), MaxSpeed(Samples(tl)));
    AverageOfTotals(Sum(tl), Slowest(Samples(tl)), MaxSpeed(Samples(tl)));
  }

  lemma AverageOfTotals(t: Totals, low: real, bound: real)
    requires DistanceOk(t, low, bound) && t.valid >= 0.0 && bound >= 0.0
    ensures AverageSpeed(t) <= bound
  {
    if t.valid != 0.0 {
      Rescale(low, t.valid);
      Rescale(bound, t.valid);
      DivideBound(t.distance, t.valid / 3600.0, low, bound);
    }
  }

  lemma Rescale(x: real, y: real)
    ensures x * (y / 3600.0) == x * y / 3600.0
  {
  }

  ghost function Slowest(samples: seq<Sample>): (r: real)
    ensures forall s :: s in samples ==> r <= s.speed
  {
    if |samples| == 0 then 0.0
    else
      var before, v := Slowest(samples[..|samples| - 1]), samples[|samples| - 1].speed;
      assert samples == samples[..|samples| - 1] + [samples[|samples| - 1]];
      if v < before then v else before
  }

  /** At a constant speed the trapezoid sum is exact. */
  lemma ConstantSpeedExact(rs: seq<Record>, now: int, v: real)
    requires forall s :: s in Samples(Timeline(rs)) ==> s.speed == v
    ensures Estimate(rs, now).totals.distance == KmAt(v, Estimate(rs, now).totals.valid)
  {
    SumDistance(Timeline(rs), v, v);
    ExactBetween(Sum(Timeline(rs)), v);
    ReportFields(rs, now);
  }

  lemma ExactBetween(t: Totals, v: real)
    requires DistanceOk(t, v, v)
    ensures t.distance == KmAt(v, t.valid)
  {
  }

  /** A newer record never takes fuel away, and takes no distance away unless speeds are negative. */
  lemma {:induction false} NewerRecordAdds(r: Record, rs: seq<Record>, now: int)
    ensures var before, after := Estimate(rs, now).totals, Estimate([r] + rs, now).totals;
            && before.fuel <= after.fuel
            && ((forall s :: s in Samples(Timeline([r] + rs)) ==> s.speed >= 0.0) ==>
                  before.distance <= after.distance)
  {
    assert ([r] + rs)[1..] == rs;
    var tl := Timeline(rs);
    if ReceivedMs(r) != 0 {
      var tl' := tl + [r];
      assert tl'[..|tl|] == tl;
      LastSegmentTimes(tl');
      if forall s :: s in Samples(tl') ==> s.speed >= 0.0 {
        var m := MaxSpeed(Samples(tl'));
        LastSegmentDistance(tl', 0.0, m);
      }
    }
  }

  /** When both economies are reported they are each other's inverse. */
  lemma EconomiesInverse(rs: seq<Record>, now: int)
    ensures var r := Estimate(rs, now);
            r.lPer100Km.Some? && r.kmPerL.Some? ==> r.lPer100Km.value * r.kmPerL.value == 100.0
  {
    var t := Sum(Timeline(rs));
    if t.distance >= 0.1 && t.fuel >= 0.01 {
      InverseQuotients(t.fuel, t.distance);
    }
  }

  lemma InverseQuotients(f: real, d: real)
    requires f > 0.0 && d > 0.0
    ensures f / d * 100.0 * (d / f) == 100.0
  {
    var p, q := f / d, d / f;
    assert p * d == f && q * f == d;
    assert p * q * f == p * d;
    assert (p * q - 1.0) * f == 0.0;
    assert p * q == 1.0;
    assert p * 100.0 * q == 100.0 * (p * q);
  }

  /** Idle fuel is part of the fuel, and fuel is never negative. */
  lemma FuelBounds(rs: seq<Record>, now: int)
    ensures 0.0 <= Estimate(rs, now).totals.idleFuel <= Estimate(rs, now).totals.fuel
  {
    SumTimes(Timeline(rs));
  }

  // ----- the trip as a sequence of observations -----

  /** What each record gives, oldest first. */
  function Observations(tl: seq<Record>): (r: seq<Option<Sample>>)
    ensures |r| == |tl|
  {
    if |tl| == 0 then [] else Observations(tl[..|tl| - 1]) + [Observe(tl)]
  }

  function Between(a: Option<Sample>, b: Option<Sample>): Totals {
    if a.Some? && b.Some? then Segment(a.value, b.value) else NOTHING
  }

  /** What each pair of adjacent observations adds. */
  function Steps(o: seq<Option<Sample>>): (r: seq<Totals>)
    ensures |r| == (if |o| == 0 then 0 else |o| - 1)
    ensures forall i {:trigger r[i]} :: 0 <= i < |r| ==> r[i] == Between(o[i], o[i + 1])
  {
    if |o| == 0 then []
    else seq(|o| - 1, i requires 0 <= i < |o| - 1 => Between(o[i], o[i + 1]))
  }

  function TotalOf(steps: seq<Totals>): Totals {
    if |steps| == 0 then NOTHING else Plus(TotalOf(steps[..|steps| - 1]), steps[|steps| - 1])
  }

  function Present(o: seq<Option<Sample>>): seq<Sample> {
    if |o| == 0 then []
    else Present(o[..|o| - 1]) + (if o[|o| - 1].Some? then [o[|o| - 1].value] else [])
  }

  lemma {:induction false} TripIsSteps(tl: seq<Record>)
    ensures Sum(tl) == TotalOf(Steps(Observations(tl))) && Samples(tl) == Present(Observations(tl))
  {
    if |tl| > 0 {
      var before := tl[..|tl| - 1];
      TripIsSteps(before);
      SumNext(tl);
      LastObservation(before);
      StepsExtend(Sum(before), Samples(before), Observations(before), LastObserved(before), Observe(tl));
    }
  }

  lemma {:induction false} StepsExtend(t: Totals, samples: seq<Sample>, o: seq<Option<Sample>>,
                                       last: Option<Sample>, x: Option<Sample>)
    requires t == TotalOf(Steps(o)) && samples == Present(o)
    requires last == if |o| > 0 then o[|o| - 1] else None
    ensures Plus(t, Between(last, x)) == TotalOf(Steps(o + [x]))
    ensures samples + (if x.Some? then [x.value] else []) == Present(o + [x])
  {
    PresentNext(o, x);
    StepsNext(o, x);
    if |o| == 0 {
      BetweenNone(x);
      PlusNothing(t);
    }
  }

  lemma {:induction false} BetweenNone(x: Option<Sample>)
    ensures Between(None, x) == NOTHING
  {
  }

  lemma {:induction false} PlusNothing(t: Totals)
    ensures Plus(t, NOTHING) == t
  {
  }

  lemma {:induction false} SumNext(tl: seq<Record>)
    requires |tl| > 0
    ensures var before := tl[..|tl| - 1];
            Sum(tl) == Plus(Sum(before), Between(LastObserved(before), Observe(tl)))
  {
  }

  lemma {:induction false} LastObservation(tl: seq<Record>)
    ensures LastObserved(tl) == if |tl| > 0 then Observations(tl)[|tl| - 1] else None
  {
  }

  lemma {:induction false} StepsNext(o: seq<Option<Sample>>, x: Option<Sample>)
    ensures |o| == 0 ==> TotalOf(Steps(o + [x])) == NOTHING == TotalOf(Steps(o))
    ensures |o| > 0 ==> TotalOf(Steps(o + [x])) == Plus(TotalOf(Steps(o)), Between(o[|o| - 1], x))
  {
    if |o| > 0 {
      var b := Between(o[|o| - 1], x);
      assert Steps(o + [x]) == Steps(o) + [b];
      TotalNext(Steps(o), b);
    }
  }

  lemma {:induction false} TotalNext(steps: seq<Totals>, t: Totals)
    ensures TotalOf(steps + [t]) == Plus(TotalOf(steps), t)
  {
    assert (steps + [t])[..|steps|] == steps;
  }

  lemma {:induction false} PresentNext(o: seq<Option<Sample>>, x: Option<Sample>)
    ensures Present(o + [x]) == Present(o) + if x.Some? then [x.value] else []
  {
    assert (o + [x])[..|o|] == o;
  }

  lemma {:induction false} EstimateIsSteps(rs: seq<Record>, now: int)
    ensures var o := Observations(Timeline(rs));
            Estimate(rs, now).totals == TotalOf(Steps(o)) && Samples(Timeline(rs)) == Present(o)
  {
    TripIsSteps(Timeline(rs));
    ReportFields(rs, now);
  }

  lemma {:induction false} AmongPresent(o: seq<Option<Sample>>, i: nat)
    requires i < |o| && o[i].Some?
    ensures o[i].value in Present(o)
  {
    if i < |o| - 1 {
      AmongPresent(o[..|o| - 1], i);
    }
  }

  // ----- the amount of fuel -----

  ghost predicate RatesWithin(samples: seq<Sample>, low: real, bound: real) {
    forall s :: s in samples ==> low <= s.rate <= bound
  }

  /** Litres at so many litres per hour, over valid and over idle time. */
  ghost predicate FuelOk(t: Totals, low: real, bound: real) {
    && low * t.valid / 3600.0 <= t.fuel <= bound * t.valid / 3600.0
    && low * t.idleSeconds / 3600.0 <= t.idleFuel <= bound * t.idleSeconds / 3600.0
  }

  lemma {:induction false} NothingBurns(low: real, bound: real)
    ensures FuelOk(NOTHING, low, bound)
  {
    assert low * 0.0 == 0.0 && bound * 0.0 == 0.0;
  }

  lemma {:induction false} PlusBurns(x: Totals, y: Totals, low: real, bound: real)
    requires FuelOk(x, low, bound) && FuelOk(y, low, bound)
    ensures FuelOk(Plus(x, y), low, bound)
  {
    assert bound * (x.valid + y.valid) == bound * x.valid + bound * y.valid;
    assert low * (x.valid + y.valid) == low * x.valid + low * y.valid;
    assert bound * (x.idleSeconds + y.idleSeconds) == bound * x.idleSeconds + bound * y.idleSeconds;
    assert low * (x.idleSeconds + y.idleSeconds) == low * x.idleSeconds + low * y.idleSeconds;
  }

  lemma {:induction false} SegmentFuel(a: Sample, b: Sample, low: real, bound: real)
    requires low <= a.rate <= bound && low <= b.rate <= bound
    ensures FuelOk(Segment(a, b), low, bound)
  {
    NothingBurns(low, bound);
    if b.ms > a.ms && Seconds(a.ms, b.ms) <= 15.0 {
      var average := (a.rate + b.rate) / 2.0;
      ProductMonotone(average, bound, Seconds(a.ms, b.ms));
      ProductMonotone(low, average, Seconds(a.ms, b.ms));
    }
  }

  lemma {:induction false} TotalFuel(steps: seq<Totals>, low: real, bound: real)
    requires forall i :: 0 <= i < |steps| ==> FuelOk(steps[i], low, bound)
    ensures FuelOk(TotalOf(steps), low, bound)
  {
    if |steps| == 0 {
      NothingBurns(low, bound);
    } else {
      var n := |steps| - 1;
      TotalFuel(steps[..n], low, bound);
      PlusBurns(TotalOf(steps[..n]), steps[n], low, bound);
    }
  }

  lemma {:induction false} StepFuel(o: seq<Option<Sample>>, i: nat, low: real, bound: real)
    requires RatesWithin(Present(o), low, bound) && i < |Steps(o)|
    ensures FuelOk(Steps(o)[i], low, bound)
  {
    NothingBurns(low, bound);
    if o[i].Some? && o[i + 1].Some? {
      AmongPresent(o, i);
      AmongPresent(o, i + 1);
      SegmentFuel(o[i].value, o[i + 1].value, low, bound);
    }
  }

  /** Fuel stays within the lowest and the highest rate times the valid time, and idle fuel within the
      same rates times the idle time. */
  lemma {:induction false} FuelWithinRates(rs: seq<Record>, now: int, low: real, bound: real)
    requires RatesWithin(Samples(Timeline(rs)), low, bound)
    ensures FuelOk(Estimate(rs, now).totals, low, bound)
  {
    var o := Observations(Timeline(rs));
    EstimateIsSteps(rs, now);
    forall i | 0 <= i < |Steps(o)| ensures FuelOk(Steps(o)[i], low, bound) {
      StepFuel(o, i, low, bound);
    }
    TotalFuel(Steps(o), low, bound);
  }

  /** At a constant rate both amounts are exact. */
  lemma {:induction false} ConstantRateExact(rs: seq<Record>, now: int, r: real)
    requires RatesWithin(Samples(Timeline(rs)), r, r)
    ensures var t := Estimate(rs, now).totals;
            t.fuel == r * t.valid / 3600.0 && t.idleFuel == r * t.idleSeconds / 3600.0
  {
    FuelWithinRates(rs, now, r, r);
    BurnsExactly(Estimate(rs, now).totals, r);
  }

  lemma {:induction false} BurnsExactly(t: Totals, r: real)
    requires FuelOk(t, r, r)
    ensures t.fuel == r * t.valid / 3600.0 && t.idleFuel == r * t.idleSeconds / 3600.0
  {
  }

  // ----- idling -----

  ghost predicate NoIdling(t: Totals) {
    t.idleSeconds == 0.0 && t.idleFuel == 0.0
  }

  ghost predicate AllIdling(t: Totals) {
    t.idleSeconds == t.valid && t.idleFuel == t.fuel
  }

  lemma {:induction false} SegmentIdling(a: Sample, b: Sample)
    ensures a.speed >= 1.0 && b.speed >= 1.0 ==> NoIdling(Segment(a, b))
    ensures a.speed < 1.0 && b.speed < 1.0 ==> AllIdling(Segment(a, b))
  {
  }

  lemma {:induction false} TotalIdling(steps: seq<Totals>)
    ensures (forall i :: 0 <= i < |steps| ==> NoIdling(steps[i])) ==> NoIdling(TotalOf(steps))
    ensures (forall i :: 0 <= i < |steps| ==> AllIdling(steps[i])) ==> AllIdling(TotalOf(steps))
  {
    if |steps| > 0 {
      TotalIdling(steps[..|steps| - 1]);
    }
  }

  lemma {:induction false} StepIdling(o: seq<Option<Sample>>, i: nat)
    requires i < |Steps(o)|
    ensures (forall s :: s in Present(o) ==> s.speed >= 1.0) ==> NoIdling(Steps(o)[i])
    ensures (forall s :: s in Present(o) ==> s.speed < 1.0) ==> AllIdling(Steps(o)[i])
  {
    if o[i].Some? && o[i + 1].Some? {
      AmongPresent(o, i);
      AmongPresent(o, i + 1);
      SegmentIdling(o[i].value, o[i + 1].value);
    }
  }

  /** A trip at 1 km/h and more has no idle time, and a trip below it is idle time altogether. */
  lemma {:induction false} IdleBelowOne(rs: seq<Record>, now: int)
    ensures var t, samples := Estimate(rs, now).totals, Samples(Timeline(rs));
            && ((forall s :: s in samples ==> s.speed >= 1.0) ==> NoIdling(t))
            && ((forall s :: s in samples ==> s.speed < 1.0) ==> AllIdling(t))
  {
    var o := Observations(Timeline(rs));
    EstimateIsSteps(rs, now);
    forall i | 0 <= i < |Steps(o)|
      ensures (forall s :: s in Present(o) ==> s.speed >= 1.0) ==> NoIdling(Steps(o)[i])
      ensures (forall s :: s in Present(o) ==> s.speed < 1.0) ==> AllIdling(Steps(o)[i])
    {
      StepIdling(o, i);
    }
    TotalIdling(Steps(o));
  }

  predicate Uncounted(t: Totals) {
    t.intervals == 0 && t.gaps == 0
  }

  lemma {:induction false} TotalUncounted(steps: seq<Totals>)
    requires forall i :: 0 <= i < |steps| ==> Uncounted(steps[i])
    ensures Uncounted(TotalOf(steps))
  {
    if |steps| > 0 {
      TotalUncounted(steps[..|steps| - 1]);
    }
  }

  // Time does not advance from the one sample to the other, or one of them is missing.
  predicate Still(a: Option<Sample>, b: Option<Sample>) {
    a.None? || b.None? || b.value.ms <= a.value.ms
  }

  lemma {:induction false} StillAdds(a: Option<Sample>, b: Option<Sample>)
    requires Still(a, b)
    ensures Uncounted(Between(a, b))
  {
  }

  /** Records whose time does not advance, or of which no two adjacent ones give a sample, count for
      nothing. */
  lemma {:induction false} NoAdvance(rs: seq<Record>, now: int)
    requires var o := Observations(Timeline(rs));
             forall i, j :: 0 <= i < |o| && j == i + 1 && j < |o| ==> Still(o[i], o[j])
    ensures var t := Estimate(rs, now).totals;
            t.intervals == 0 && t.gaps == 0 && t.valid == 0.0 && t.possible == 0.0
  {
    var o := Observations(Timeline(rs));
    EstimateIsSteps(rs, now);
    forall i | 0 <= i < |Steps(o)| ensures Uncounted(Steps(o)[i]) {
      var j := i + 1;
      assert Still(o[i], o[j]);
      StillAdds(o[i], o[j]);
    }
    TotalUncounted(Steps(o));
    TimeAccounting(rs, now);
  }

  // ----- a trip without interruption -----

  /** Every record gives a sample, and the next one follows within 15 s. */
  ghost predicate Unbroken(o: seq<Option<Sample>>) {
    && (forall i :: 0 <= i < |o| ==> o[i].Some?)
    && (forall i {:trigger Next(o, i)} :: 0 <= i < |o| - 1 ==> Follows(o[i], Next(o, i)))
  }

  predicate Follows(a: Option<Sample>, b: Option<Sample>) {
    a.Some? && b.Some? && 0 < b.value.ms - a.value.ms <= 15000
  }

  function Next(o: seq<Option<Sample>>, i: int): Option<Sample>
    requires 0 <= i < |o| - 1
  {
    o[i + 1]
  }

  function TimeOf(s: Sample): real {
    s.ms as real / 1000.0
  }

  /** The time of each observation in seconds. */
  function Times(o: seq<Option<Sample>>): (r: seq<real>)
    ensures |r| == |o|
    ensures forall i :: 0 <= i < |o| && o[i].Some? ==> r[i] == TimeOf(o[i].value)
  {
    seq(|o|, i requires 0 <= i < |o| => if o[i].Some? then TimeOf(o[i].value) else 0.0)
  }

  ghost predicate Lasts(t: Totals, seconds: real) {
    t.valid == t.possible == seconds && t.intervals == 1 && t.gaps == 0
  }

  lemma {:induction false} TotalLasts(steps: seq<Totals>, times: seq<real>)
    requires |times| == |steps| + 1
    requires forall i {:trigger steps[i]} :: 0 <= i < |steps| ==>
               Lasts(steps[i], times[i + 1] - times[i])
    ensures var t := TotalOf(steps);
            && t.valid == t.possible == times[|steps|] - times[0]
            && t.intervals == |steps| && t.gaps == 0
  {
    if |steps| > 0 {
      var n := |steps| - 1;
      TotalLasts(steps[..n], times[..n + 1]);
      assert times[..n + 1][n] == times[n] && times[..n + 1][0] == times[0];
      assert Lasts(steps[n], times[n + 1] - times[n]);
      LastsMore(TotalOf(steps[..n]), steps[n], times[n] - times[0], times[n + 1] - times[n]);
    }
  }

  lemma {:induction false} LastsMore(t: Totals, u: Totals, x: real, y: real)
    requires t.valid == t.possible == x && t.gaps == 0 && Lasts(u, y)
    ensures Plus(t, u).valid == Plus(t, u).possible == x + y
    ensures Plus(t, u).gaps == 0 && Plus(t, u).intervals == t.intervals + 1
  {
  }

  lemma {:induction false} SegmentLasts(a: Sample, b: Sample)
    requires 0 < b.ms - a.ms <= 15000
    ensures Lasts(Segment(a, b), TimeOf(b) - TimeOf(a))
  {
  }

  lemma {:induction false} StepsLast(o: seq<Option<Sample>>)
    requires Unbroken(o) && |o| > 0
    ensures var t := TotalOf(Steps(o));
            && t.valid == t.possible == TimeOf(o[|o| - 1].value) - TimeOf(o[0].value)
            && t.intervals == |o| - 1 && t.gaps == 0
  {
    forall i | 0 <= i < |Steps(o)| ensures Lasts(Steps(o)[i], Times(o)[i + 1] - Times(o)[i]) {
      assert Follows(o[i], Next(o, i));
      SegmentLasts(o[i].value, o[i + 1].value);
    }
    TotalLasts(Steps(o), Times(o));
  }

  lemma {:induction false} UnbrokenForward(o: seq<Option<Sample>>)
    requires Unbroken(o) && |o| > 0
    ensures |Present(o)| == |o| && Present(o)[0] == o[0].value && Present(o)[|o| - 1] == o[|o| - 1].value
    ensures |o| > 1 ==> o[0].value.ms < o[|o| - 1].value.ms
  {
    if |o| > 1 {
      var before := o[..|o| - 1];
      assert forall i {:trigger Next(before, i)} :: 0 <= i < |before| - 1 ==> Next(before, i) == Next(o, i);
      UnbrokenForward(before);
      assert before[|before| - 1] == o[|o| - 2] && Next(o, |o| - 2) == o[|o| - 1];
    } else {
      assert o[..0] == [] && Present([]) == [];
    }
  }

  /** A report over exactly this span. */
  ghost predicate Spans(r: Report, first: Sample, last: Sample) {
    match (r.start, r.end)
    case (Some(start), Some(end)) =>
      && start == first.ms && end == last.ms && r.coverage == 100.0
      && r.duration == r.totals.valid == r.totals.possible == TimeOf(last) - TimeOf(first) > 0.0
    case _ => false
  }

  /** Without interruption, possible, valid and whole time are the time from the first record to the last,
      and coverage is full. */
  lemma {:induction false} UnbrokenExact(rs: seq<Record>, now: int)
    requires Unbroken(Observations(Timeline(rs))) && |Timeline(rs)| > 1
    ensures var r, o := Estimate(rs, now), Observations(Timeline(rs));
            && Spans(r, o[0].value, o[|o| - 1].value)
            && r.totals.intervals == |o| - 1 && r.totals.gaps == 0
  {
    var tl := Timeline(rs);
    var o := Observations(tl);
    EstimateIsSteps(rs, now);
    StepsLast(o);
    UnbrokenForward(o);
    SamplesStamped(tl);
    SpanOf(Sum(tl), MarksOf(Samples(tl)), o[0].value, o[|o| - 1].value, LastObserved(tl), now, |rs|);
  }

  lemma {:induction false} SpanOf(t: Totals, m: Marks, first: Sample, last: Sample,
                                  observed: Option<Sample>, now: int, records: nat)
    requires m.start == first.ms != 0 && m.end == last.ms != 0
    requires t.valid == t.possible == TimeOf(last) - TimeOf(first) > 0.0
    ensures Spans(MakeReport(t, m, observed, now, records), first, last)
  {
    assert t.valid / t.possible == 1.0;
  }

  /** `area` is the integral of `line` as far as trapezoids see it. */
  ghost predicate Integrates(area: real -> real, line: real -> real) {
    forall s: real, t: real ::
      (line(s) + line(t)) / 2.0 * (t - s) == area(t) - area(s)
  }

  lemma {:induction false} TrapezoidIsArea(base: real, slope: real, s: real, t: real)
    ensures ((base + slope * s) + (base + slope * t)) / 2.0 * (t - s)
            == (base * t + slope * t * t / 2.0) - (base * s + slope * s * s / 2.0)
  {
    var m := (base + slope * s) + (base + slope * t);
    assert m == 2.0 * base + slope * (s + t);
    assert m * (t - s) == 2.0 * base * (t - s) + slope * (s + t) * (t - s);
    assert slope * (s + t) * (t - s) == slope * ((s + t) * (t - s));
    assert (s + t) * (t - s) == t * t - s * s;
    assert slope * (t * t - s * s) == slope * (t * t) - slope * (s * s);
  }

  ghost predicate SpeedsOn(samples: seq<Sample>, line: real -> real) {
    forall s :: s in samples ==> s.speed == line(TimeOf(s))
  }

  ghost predicate RatesOn(samples: seq<Sample>, line: real -> real) {
    forall s :: s in samples ==> s.rate == line(TimeOf(s))
  }

  lemma {:induction false} SegmentAreas(a: Sample, b: Sample, v: real, w: real, x: real, y: real)
    requires 0 < b.ms - a.ms <= 15000
    requires (v + w) / 2.0 * (TimeOf(b) - TimeOf(a)) == y - x
    ensures a.speed == v && b.speed == w ==> Segment(a, b).distance == (y - x) / 3600.0
    ensures a.rate == v && b.rate == w ==> Segment(a, b).fuel == (y - x) / 3600.0
  {
    assert Seconds(a.ms, b.ms) == TimeOf(b) - TimeOf(a) <= 15.0;
  }

  // What each step adds is a difference of `x`.
  ghost predicate DistanceSteps(steps: seq<Totals>, x: seq<real>) {
    |x| == |steps| + 1 && forall i {:trigger steps[i]} :: 0 <= i < |steps| ==>
      steps[i].distance == (x[i + 1] - x[i]) / 3600.0
  }

  ghost predicate FuelSteps(steps: seq<Totals>, x: seq<real>) {
    |x| == |steps| + 1 && forall i {:trigger steps[i]} :: 0 <= i < |steps| ==>
      steps[i].fuel == (x[i + 1] - x[i]) / 3600.0
  }

  lemma {:induction false} TotalTelescopes(steps: seq<Totals>, x: seq<real>)
    requires |x| == |steps| + 1
    ensures DistanceSteps(steps, x) ==> TotalOf(steps).distance == (x[|steps|] - x[0]) / 3600.0
    ensures FuelSteps(steps, x) ==> TotalOf(steps).fuel == (x[|steps|] - x[0]) / 3600.0
  {
    if |steps| > 0 {
      var n := |steps| - 1;
      TotalTelescopes(steps[..n], x[..n + 1]);
      assert x[..n + 1][n] == x[n] && x[..n + 1][0] == x[0];
    }
  }

  function Areas(o: seq<Option<Sample>>, area: real -> real): (r: seq<real>)
    ensures |r| == |o| && forall i :: 0 <= i < |o| && o[i].Some? ==> r[i] == area(TimeOf(o[i].value))
  {
    seq(|o|, i requires 0 <= i < |o| => if o[i].Some? then area(TimeOf(o[i].value)) else 0.0)
  }

  lemma {:induction false} BothPresent(o: seq<Option<Sample>>, i: nat)
    requires Unbroken(o) && i < |Steps(o)|
    ensures o[i].value in Present(o) && o[i + 1].value in Present(o)
    ensures 0 < o[i + 1].value.ms - o[i].value.ms <= 15000
    ensures Steps(o)[i] == Segment(o[i].value, o[i + 1].value)
  {
    AmongPresent(o, i);
    AmongPresent(o, i + 1);
    assert Follows(o[i], Next(o, i));
  }

  lemma {:induction false} StepAreas(o: seq<Option<Sample>>, i: nat, line: real -> real,
                                     area: real -> real)
    requires Unbroken(o) && i < |Steps(o)| && Integrates(area, line)
    ensures var x, y := area(TimeOf(o[i].value)), area(TimeOf(o[i + 1].value));
            && (SpeedsOn(Present(o), line) ==> Steps(o)[i].distance == (y - x) / 3600.0)
            && (RatesOn(Present(o), line) ==> Steps(o)[i].fuel == (y - x) / 3600.0)
  {
    var a, b := o[i].value, o[i + 1].value;
    BothPresent(o, i);
    SegmentAreas(a, b, line(TimeOf(a)), line(TimeOf(b)), area(TimeOf(a)), area(TimeOf(b)));
  }

  lemma {:induction false} AreaSteps(o: seq<Option<Sample>>, line: real -> real, area: real -> real)
    requires Unbroken(o) && |o| > 0 && Integrates(area, line)
    ensures SpeedsOn(Present(o), line) ==> DistanceSteps(Steps(o), Areas(o, area))
    ensures RatesOn(Present(o), line) ==> FuelSteps(Steps(o), Areas(o, area))
  {
    var x := Areas(o, area);
    forall i | 0 <= i < |Steps(o)|
      ensures SpeedsOn(Present(o), line) ==> Steps(o)[i].distance == (x[i + 1] - x[i]) / 3600.0
      ensures RatesOn(Present(o), line) ==> Steps(o)[i].fuel == (x[i + 1] - x[i]) / 3600.0
    {
      StepAreas(o, i, line, area);
    }
  }

  /** What is integrated exactly by trapezoids gives the exact distance, or the exact fuel. */
  lemma {:induction false} TrapezoidsExact(rs: seq<Record>, now: int, line: real -> real,
                                           area: real -> real)
    requires Unbroken(Observations(Timeline(rs))) && |Timeline(rs)| > 0 && Integrates(area, line)
    ensures var o, t := Observations(Timeline(rs)), Estimate(rs, now).totals;
            var all := area(TimeOf(o[|o| - 1].value)) - area(TimeOf(o[0].value));
            && (SpeedsOn(Samples(Timeline(rs)), line) ==> t.distance == all / 3600.0)
            && (RatesOn(Samples(Timeline(rs)), line) ==> t.fuel == all / 3600.0)
  {
    var o := Observations(Timeline(rs));
    EstimateIsSteps(rs, now);
    AreaSteps(o, line, area);
    TotalTelescopes(Steps(o), Areas(o, area));
  }

  /** Speed or fuel rate that changes evenly with time is integrated exactly. */
  lemma {:induction false} LinearExact(rs: seq<Record>, now: int, base: real, slope: real)
    requires Unbroken(Observations(Timeline(rs))) && |Timeline(rs)| > 0
    ensures var o, t := Observations(Timeline(rs)), Estimate(rs, now).totals;
            var line := (t: real) => base + slope * t;
            var area := (t: real) => base * t + slope * t * t / 2.0;
            var all := area(TimeOf(o[|o| - 1].value)) - area(TimeOf(o[0].value));
            && (SpeedsOn(Samples(Timeline(rs)), line) ==> t.distance == all / 3600.0)
            && (RatesOn(Samples(Timeline(rs)), line) ==> t.fuel == all / 3600.0)
  {
    var line := (t: real) => base + slope * t;
    var area := (t: real) => base * t + slope * t * t / 2.0;
    LineIntegrates(base, slope, line, area);
    TrapezoidsExact(rs, now, line, area);
  }

  lemma {:induction false} LineIntegrates(base: real, slope: real, line: real -> real,
                                          area: real -> real)
    requires forall t: real :: line(t) == base + slope * t
    requires forall t: real :: area(t) == base * t + slope * t * t / 2.0
    ensures Integrates(area, line)
  {
    forall s: real, t: real ensures (line(s) + line(t)) / 2.0 * (t - s) == area(t) - area(s) {
      TrapezoidIsArea(base, slope, s, t);
    }
  }

  // ----- the derived values -----

  /** Each economy times its denominator gives its numerator, and each is reported exactly from 0.1 km and
      0.01 l on; average speed times valid time is the distance. */
  ghost predicate DerivedOk(r: Report, t: Totals) {
    match (r.lPer100Km, r.kmPerL)
    case (l, k) =>
      && (l.Some? <==> t.distance >= 0.1) && (l.Some? ==> l.value * t.distance == 100.0 * t.fuel)
      && (k.Some? <==> t.fuel >= 0.01) && (k.Some? ==> k.value * t.fuel == t.distance)
      && (if t.valid != 0.0 then r.averageSpeed * t.valid == 3600.0 * t.distance
          else r.averageSpeed == 0.0)
  }

  lemma {:induction false} DerivedValues(rs: seq<Record>, now: int)
    ensures DerivedOk(Estimate(rs, now), Estimate(rs, now).totals)
  {
    var tl := Timeline(rs);
    DerivedOf(Sum(tl), MarksOf(Samples(tl)), LastObserved(tl), now, |rs|);
  }

  lemma {:induction false} DerivedOf(t: Totals, m: Marks, last: Option<Sample>, now: int, records: nat)
    ensures DerivedOk(MakeReport(t, m, last, now, records), t)
  {
    if t.distance >= 0.1 {
      QuotientTimes(t.fuel, t.distance, 100.0);
    }
    if t.fuel >= 0.01 {
      QuotientTimes(t.distance, t.fuel, 1.0);
    }
    if t.valid != 0.0 {
      QuotientTimes(t.distance, t.valid / 3600.0, 1.0);
      AverageTimes(t.distance / (t.valid / 3600.0), t.valid);
    }
  }

  lemma {:induction false} QuotientTimes(x: real, y: real, c: real)
    requires y != 0.0
    ensures x / y * c * y == c * x && x / y * y == x
  {
    var q := x / y;
    assert q * y == x;
    assert q * c * y == c * (q * y);
  }

  lemma {:induction false} AverageTimes(q: real, valid: real)
    ensures q * (valid / 3600.0) * 3600.0 == q * valid
  {
    assert q * (valid / 3600.0) == q * valid / 3600.0;
  }

  /** Litres per hour at the end of the trip, and litres per 100 km from 5 km/h on. */
  ghost predicate InstantOk(r: Report, last: Option<Sample>) {
    match last
    case None => r.instantRate.None? && r.instantLPer100Km.None?
    case Some(s) =>
      && r.instantRate == Some(s.rate) && (r.instantLPer100Km.Some? <==> s.speed >= 5.0)
      && (r.instantLPer100Km.Some? ==> r.instantLPer100Km.value * s.speed == 100.0 * s.rate)
  }

  /** The instant values are those of the last record if it gives a sample. */
  lemma {:induction false} InstantValues(rs: seq<Record>, now: int)
    ensures InstantOk(Estimate(rs, now), LastObserved(Timeline(rs)))
  {
    var tl := Timeline(rs);
    InstantOf(Sum(tl), MarksOf(Samples(tl)), LastObserved(tl), now, |rs|);
  }

  lemma {:induction false} InstantOf(t: Totals, m: Marks, last: Option<Sample>, now: int, records: nat)
    ensures InstantOk(MakeReport(t, m, last, now, records), last)
  {
    if last.Some? && last.value.speed >= 5.0 {
      QuotientTimes(last.value.rate, last.value.speed, 100.0);
    }
  }

  lemma {:induction false} MaximaAttained(samples: seq<Sample>)
    ensures MaxSpeed(samples) == 0.0 || exists i :: 0 <= i < |samples| && samples[i].speed == MaxSpeed(samples)
    ensures MaxRpm(samples) == 0.0 || exists i :: 0 <= i < |samples| && samples[i].rpm == MaxRpm(samples)
    ensures MaxCoolant(samples).Some? ==>
              exists i :: 0 <= i < |samples| && samples[i].coolant == MaxCoolant(samples)
  {
    if |samples| > 0 {
      var n := |samples| - 1;
      MaximaAttained(samples[..n]);
      assert forall i :: 0 <= i < n ==> samples[..n][i] == samples[i];
      assert samples[n].speed == MaxSpeed(samples) || MaxSpeed(samples) == MaxSpeed(samples[..n]);
      assert samples[n].rpm == MaxRpm(samples) || MaxRpm(samples) == MaxRpm(samples[..n]);
      assert samples[n].coolant == MaxCoolant(samples) || MaxCoolant(samples) == MaxCoolant(samples[..n]);
    }
  }

  /** The maxima bound every sample and are values of samples, or zero; the trip lasts from the first
      sample to the last, is active for a minute after it, and is an estimate unless the last fuel rate was
      direct. */
  lemma {:induction false} MarksAre(rs: seq<Record>, now: int)
    ensures var r, samples := Estimate(rs, now), Samples(Timeline(rs));
            && (forall s :: s in samples ==> s.speed <= r.maxSpeed && s.rpm <= r.maxRpm)
            && (r.maxSpeed == 0.0 || exists s :: s in samples && s.speed == r.maxSpeed)
            && (r.maxRpm == 0.0 || exists s :: s in samples && s.rpm == r.maxRpm)
            && (r.maxCoolant.Some? ==> exists s :: s in samples && s.coolant == r.maxCoolant)
            && (if |samples| == 0 then r.start.None? && r.end.None? && !r.active && r.source.None?
                else
                  && r.start == Some(samples[0].ms) && r.end == Some(samples[|samples| - 1].ms)
                  && (r.active <==> now - samples[|samples| - 1].ms <= 60000)
                  && r.duration == Max(0.0, TimeOf(samples[|samples| - 1]) - TimeOf(samples[0]))
                  && r.source == Some(samples[|samples| - 1].source))
            && (r.estimated <==> r.source != Some(Direct)) && r.recordsEvaluated == |rs|
  {
    var samples := Samples(Timeline(rs));
    MaximaAttained(samples);
    SamplesStamped(Timeline(rs));
    assert forall i :: 0 <= i < |samples| ==> samples[i] in samples;
  }

  /** Confidence is at least MEDIUM exactly for at least 180 s of trip and 10 intervals with at most one gap
      per 35 s of valid time. */
  lemma {:induction false} MediumConfidenceIff(rs: seq<Record>, now: int)
    ensures var r := Estimate(rs, now);
            r.confidence != LOW <==>
              (r.totals.valid > 0.0 && 35.0 * r.totals.gaps as real <= r.totals.valid
               && r.duration >= 180.0 && r.totals.intervals >= 10)
  {
    var t := Sum(Timeline(rs));
    SumTimes(Timeline(rs));
    if t.possible != 0.0 {
      CoverageCountsGaps(t);
    }
  }
}
