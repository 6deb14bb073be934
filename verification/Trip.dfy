/** `_trip_estimate` of aws-dashboard/backend/car_health_api/lambda_function.py, before rounding.

    The reference is declarative: each record of the timeline is observed through the newest value
    of every field, and distance and fuel are trapezoid sums over adjacent observations. */
module Trip {
  import opened Options
  import opened Records

  const SPEED := "vehicle_speed_kph"
  const RPM := "engine_rpm"
  const COOLANT := "coolant_c"
  const FUEL_RATE := "engine_fuel_rate_l_h"
  const MAF := "maf_g_s"

  const FRESH_MS := 15000

  // ----- the timeline -----

  /** The records with a timestamp, oldest first; `rs` is newest first. */
  function Timeline(rs: seq<Record>): (tl: seq<Record>)
    ensures forall i :: 0 <= i < |tl| ==> ReceivedMs(tl[i]) != 0
  {
    if |rs| == 0 then []
    else if ReceivedMs(rs[0]) == 0 then Timeline(rs[1..])
    else Timeline(rs[1..]) + [rs[0]]
  }

  /** The records with a timestamp, still newest first. */
  function Stamped(rs: seq<Record>): seq<Record> {
    if |rs| == 0 then []
    else if ReceivedMs(rs[0]) == 0 then Stamped(rs[1..])
    else [rs[0]] + Stamped(rs[1..])
  }

  /** The timeline holds every record with a timestamp and no other, in the opposite order. */
  lemma {:induction false} TimelineIs(rs: seq<Record>, r: Record)
    ensures r in Timeline(rs) <==> r in rs && ReceivedMs(r) != 0
    ensures |Timeline(rs)| == |Stamped(rs)|
    ensures forall i :: 0 <= i < |Timeline(rs)| ==>
              Timeline(rs)[i] == Stamped(rs)[|Timeline(rs)| - 1 - i]
  {
    if |rs| > 0 {
      TimelineIs(rs[1..], r);
      assert rs == [rs[0]] + rs[1..];
    }
  }

  datatype Reading = Reading(value: Value, ms: int)

  /** The newest reading of a field at the end of the timeline. */
  function Latest(tl: seq<Record>, name: string): Option<Reading> {
    if |tl| == 0 then None
    else
      var r := tl[|tl| - 1];
      if name in r.data then Some(Reading(r.data[name], ReceivedMs(r)))
      else Latest(tl[..|tl| - 1], name)
  }

  // ----- observing one record -----

  datatype Source = Direct | MafEstimate

  datatype Sample = Sample(ms: int, speed: real, rate: real, rpm: real, coolant: Option<real>,
                           source: Source)

  /** The fuel rate in litres per hour and where it comes from. */
  function FuelRate(direct: Option<real>, maf: Option<real>): (r: Option<(real, Source)>)
    ensures r.Some? ==> r.value.0 >= 0.0
  {
    if direct.Some? && direct.value >= 0.0 then Some((direct.value, Direct))
    else if maf.Some? && maf.value >= 0.0 then
      Some((maf.value * 3600.0 / (14.7 * 745.0), MafEstimate))
    else None
  }

  // A field as a number, with the time of the value.
  datatype View = View(number: Option<real>, ms: int)

  function ViewOf(tl: seq<Record>, name: string): View {
    var reading := Latest(tl, name);
    if reading.None? then View(None, 0) else View(Finite(reading.value.value), reading.value.ms)
  }

  /** A sample needs speed, engine speed and fuel rate, each at most 15 s old, and the engine has to
      run. */
  function Judge(now: int, speed: View, rpm: View, direct: View, maf: View, coolant: View)
    : (r: Option<Sample>)
    ensures r.Some? ==> r.value.ms == now && r.value.rate >= 0.0 && r.value.rpm > 400.0
  {
    var rate := FuelRate(direct.number, maf.number);
    if speed.number.None? || rpm.number.None? || rate.None? then None
    else
      var rateTime := if rate.value.1 == Direct then direct.ms else maf.ms;
      if now - speed.ms <= FRESH_MS && now - rpm.ms <= FRESH_MS && now - rateTime <= FRESH_MS
         && rpm.number.value > 400.0
      then Some(Sample(now, speed.number.value, rate.value.0, rpm.number.value, coolant.number,
                       rate.value.1))
      else None
  }

  /** The last record of the timeline, seen through the newest value of every field. */
  function Observe(tl: seq<Record>): (r: Option<Sample>)
    requires |tl| > 0
    ensures r.Some? ==> r.value.ms == ReceivedMs(tl[|tl| - 1]) && r.value.rate >= 0.0
  {
    Judge(ReceivedMs(tl[|tl| - 1]), ViewOf(tl, SPEED), ViewOf(tl, RPM), ViewOf(tl, FUEL_RATE),
          ViewOf(tl, MAF), ViewOf(tl, COOLANT))
  }

  // ----- when there is a sample -----

  /** Record `i` is the newest one that carries the field. */
  ghost predicate NewestAt(tl: seq<Record>, i: int, name: string) {
    0 <= i < |tl| && name in tl[i].data && forall j :: i < j < |tl| ==> name !in tl[j].data
  }

  /** And it is at most 15 s older than the last record. */
  ghost predicate Fresh(tl: seq<Record>, name: string) {
    exists i :: NewestAt(tl, i, name) && Finite(tl[i].data[name]).Some?
                && ReceivedMs(tl[|tl| - 1]) - ReceivedMs(tl[i]) <= 15000
  }

  ghost predicate Above(tl: seq<Record>, name: string, low: real) {
    exists i :: NewestAt(tl, i, name) && Finite(tl[i].data[name]).Some?
                && Finite(tl[i].data[name]).value > low
  }

  ghost predicate NonNegative(tl: seq<Record>, name: string) {
    exists i :: NewestAt(tl, i, name) && Finite(tl[i].data[name]).Some?
                && Finite(tl[i].data[name]).value >= 0.0
  }

  lemma {:induction false} ViewAt(tl: seq<Record>, name: string)
    ensures ViewOf(tl, name) == View(None, 0) || exists i :: NewestAt(tl, i, name)
    ensures forall i :: NewestAt(tl, i, name) ==>
              ViewOf(tl, name) == View(Finite(tl[i].data[name]), ReceivedMs(tl[i]))
  {
    if |tl| > 0 {
      var n := |tl| - 1;
      if name in tl[n].data {
        assert NewestAt(tl, n, name);
      } else {
        ViewAt(tl[..n], name);
        if i :| NewestAt(tl[..n], i, name) {
          assert NewestAt(tl, i, name);
        }
        assert forall i :: NewestAt(tl, i, name) ==> i < n && NewestAt(tl[..n], i, name);
      }
    }
  }

  lemma ViewMeans(tl: seq<Record>, name: string)
    requires |tl| > 0
    ensures var v := ViewOf(tl, name);
            && (Fresh(tl, name) <==>
                  v.number.Some? && ReceivedMs(tl[|tl| - 1]) - v.ms <= FRESH_MS)
            && (Above(tl, name, 400.0) <==> v.number.Some? && v.number.value > 400.0)
            && (NonNegative(tl, name) <==> v.number.Some? && v.number.value >= 0.0)
  {
    ViewAt(tl, name);
  }

  /** The last record gives a sample exactly when speed and engine speed are fresh, the engine turns
      faster than 400 rpm, and the fuel rate is fresh.  A non-negative direct rate is preferred even when
      it is too old, and then the air flow does not stand in for it. */
  lemma SampleIff(tl: seq<Record>)
    requires |tl| > 0
    ensures Observe(tl).Some? <==>
              Fresh(tl, "vehicle_speed_kph") && Fresh(tl, "engine_rpm") && Above(tl, "engine_rpm", 400.0)
              && (if NonNegative(tl, "engine_fuel_rate_l_h") then Fresh(tl, "engine_fuel_rate_l_h")
                  else NonNegative(tl, "maf_g_s") && Fresh(tl, "maf_g_s"))
  {
    ViewMeans(tl, SPEED);
    ViewMeans(tl, RPM);
    ViewMeans(tl, FUEL_RATE);
    ViewMeans(tl, MAF);
  }

  /** Its values are the newest readings, and the rate is the direct one or the estimate from the air
      flow. */
  lemma SampleValues(tl: seq<Record>)
    requires |tl| > 0 && Observe(tl).Some?
    ensures var s := Observe(tl).value;
            && s.ms == ReceivedMs(tl[|tl| - 1])
            && ViewOf(tl, "vehicle_speed_kph").number == Some(s.speed)
            && ViewOf(tl, "engine_rpm").number == Some(s.rpm) && ViewOf(tl, "coolant_c").number == s.coolant
            && (s.source == Direct <==> NonNegative(tl, "engine_fuel_rate_l_h"))
            && (if s.source == Direct then ViewOf(tl, "engine_fuel_rate_l_h").number == Some(s.rate)
                else ViewOf(tl, "maf_g_s").number.Some?
                     && s.rate * (14.7 * 745.0) == ViewOf(tl, "maf_g_s").number.value * 3600.0)
  {
    ViewMeans(tl, FUEL_RATE);
    ViewMeans(tl, MAF);
  }

  // ----- adding up -----

  datatype Totals = Totals(distance: real, fuel: real, idleSeconds: real, idleFuel: real,
                           valid: real, possible: real, intervals: nat, gaps: nat)

  const NOTHING := Totals(0.0, 0.0, 0.0, 0.0, 0.0, 0.0, 0, 0)

  function Seconds(from: int, to: int): real {
    (to - from) as real / 1000.0
  }

  /** What a pair of adjacent samples adds: a trapezoid when they are at most 15 s apart, a gap when
      they are further apart, nothing when time does not advance. */
  function Segment(a: Sample, b: Sample): Totals {
    if b.ms <= a.ms then NOTHING
    else
      var dt := Seconds(a.ms, b.ms);
      if dt > 15.0 then NOTHING.(possible := 15.0, gaps := 1)
      else
        var km := (a.speed + b.speed) / 2.0 * dt / 3600.0;
        var litres := (a.rate + b.rate) / 2.0 * dt / 3600.0;
        var idle := (a.speed + b.speed) / 2.0 < 1.0;
        Totals(km, litres, if idle then dt else 0.0, if idle then litres else 0.0, dt, dt, 1, 0)
  }

  function Plus(x: Totals, y: Totals): Totals {
    Totals(x.distance + y.distance, x.fuel + y.fuel, x.idleSeconds + y.idleSeconds,
           x.idleFuel + y.idleFuel, x.valid + y.valid, x.possible + y.possible,
           x.intervals + y.intervals, x.gaps + y.gaps)
  }

  // What the last two records of the timeline add.
  function LastSegment(tl: seq<Record>): Totals
    requires |tl| > 0
  {
    if |tl| == 1 then NOTHING
    else
      var a, b := Observe(tl[..|tl| - 1]), Observe(tl);
      if a.Some? && b.Some? then Segment(a.value, b.value) else NOTHING
  }

  function Sum(tl: seq<Record>): Totals {
    if |tl| == 0 then NOTHING else Plus(Sum(tl[..|tl| - 1]), LastSegment(tl))
  }

  /** The samples of the timeline, oldest first. */
  function Samples(tl: seq<Record>): seq<Sample> {
    if |tl| == 0 then []
    else
      var s := Observe(tl);
      Samples(tl[..|tl| - 1]) + (if s.Some? then [s.value] else [])
  }

  lemma {:induction false} SamplesStamped(tl: seq<Record>)
    requires forall i :: 0 <= i < |tl| ==> ReceivedMs(tl[i]) != 0
    ensures forall i :: 0 <= i < |Samples(tl)| ==> Samples(tl)[i].ms != 0
  {
    if |tl| > 0 {
      SamplesStamped(tl[..|tl| - 1]);
    }
  }

  function Max(a: real, b: real): real {
    if b > a then b else a
  }

  function MaxSpeed(samples: seq<Sample>): (r: real)
    ensures r >= 0.0 && forall i :: 0 <= i < |samples| ==> samples[i].speed <= r
  {
    if |samples| == 0 then 0.0
    else Max(MaxSpeed(samples[..|samples| - 1]), samples[|samples| - 1].speed)
  }

  function MaxRpm(samples: seq<Sample>): (r: real)
    ensures r >= 0.0 && forall i :: 0 <= i < |samples| ==> samples[i].rpm <= r
  {
    if |samples| == 0 then 0.0
    else Max(MaxRpm(samples[..|samples| - 1]), samples[|samples| - 1].rpm)
  }

  function MaxCoolant(samples: seq<Sample>): (r: Option<real>)
    ensures forall i :: 0 <= i < |samples| && samples[i].coolant.Some? ==>
              r.Some? && samples[i].coolant.value <= r.value
  {
    if |samples| == 0 then None
    else
      var before, c := MaxCoolant(samples[..|samples| - 1]), samples[|samples| - 1].coolant;
      if c.None? then before
      else if before.None? then c
      else Some(Max(before.value, c.value))
  }

  // ----- the report -----

  datatype Confidence = HIGH | MEDIUM | LOW

  datatype Report = Report(
    source: Option<Source>, estimated: bool, active: bool,
    start: Option<int>, end: Option<int>, duration: real,
    totals: Totals, lPer100Km: Option<real>, kmPerL: Option<real>,
    instantRate: Option<real>, instantLPer100Km: Option<real>,
    averageSpeed: real, maxSpeed: real, maxRpm: real, maxCoolant: Option<real>,
    coverage: real, confidence: Confidence, recordsEvaluated: nat)

  function Coverage(t: Totals): real {
    if t.possible != 0.0 then
      var c := t.valid / t.possible * 100.0;
      if c < 100.0 then c else 100.0
    else 0.0
  }

  function AverageSpeed(t: Totals): real {
    if t.valid != 0.0 then t.distance / (t.valid / 3600.0) else 0.0
  }

  function LitresPer100Km(t: Totals): Option<real> {
    if t.distance >= 0.1 then Some(t.fuel / t.distance * 100.0) else None
  }

  function KmPerLitre(t: Totals): Option<real> {
    if t.fuel >= 0.01 then Some(t.distance / t.fuel) else None
  }

  function Duration(start: int, end: int): real {
    if start != 0 then Max(0.0, Seconds(start, end)) else 0.0
  }

  function Rate(coverage: real, duration: real, intervals: nat): Confidence {
    if coverage >= 90.0 && duration >= 600.0 && intervals >= 30 then HIGH
    else if coverage >= 70.0 && duration >= 180.0 && intervals >= 10 then MEDIUM
    else LOW
  }

  // The values that follow the samples: trip start and end, maxima and fuel source.
  datatype Marks = Marks(start: int, end: int, maxSpeed: real, maxRpm: real,
                         maxCoolant: Option<real>, source: Option<Source>)

  function MarksOf(samples: seq<Sample>): Marks {
    var n := |samples|;
    Marks(if n > 0 then samples[0].ms else 0, if n > 0 then samples[n - 1].ms else 0,
          MaxSpeed(samples), MaxRpm(samples), MaxCoolant(samples),
          if n > 0 then Some(samples[n - 1].source) else None)
  }

  function MakeReport(t: Totals, m: Marks, last: Option<Sample>, now: int, records: nat): Report {
    Report(
      m.source, m.source != Some(Direct), m.end != 0 && now - m.end <= 60000,
      if m.start != 0 then Some(m.start) else None, if m.end != 0 then Some(m.end) else None,
      Duration(m.start, m.end), t, LitresPer100Km(t), KmPerLitre(t),
      if last.Some? then Some(last.value.rate) else None,
      if last.Some? && last.value.speed >= 5.0 then Some(last.value.rate / last.value.speed * 100.0)
      else None,
      AverageSpeed(t), m.maxSpeed, m.maxRpm, m.maxCoolant,
      Coverage(t), Rate(Coverage(t), Duration(m.start, m.end), t.intervals), records)
  }

  function LastObserved(tl: seq<Record>): Option<Sample> {
    if |tl| == 0 then None else Observe(tl)
  }

  function Estimate(rs: seq<Record>, now: int): Report {
    var tl := Timeline(rs);
    MakeReport(Sum(tl), MarksOf(Samples(tl)), LastObserved(tl), now, |rs|)
  }

  // ----- the carried-forward state -----

  function Carried(tl: seq<Record>): Fields {
    if |tl| == 0 then map[] else Carried(tl[..|tl| - 1]) + tl[|tl| - 1].data
  }

  function FieldTimes(tl: seq<Record>): map<string, int> {
    if |tl| == 0 then map[]
    else
      var r := tl[|tl| - 1];
      FieldTimes(tl[..|tl| - 1]) + map n | n in r.data.Keys :: ReceivedMs(r)
  }

  lemma {:induction false} CarriedIsLatest(tl: seq<Record>, name: string)
    ensures name in Carried(tl) <==> Latest(tl, name).Some?
    ensures name in FieldTimes(tl) <==> Latest(tl, name).Some?
    ensures Latest(tl, name).Some? ==>
              Latest(tl, name).value == Reading(Carried(tl)[name], FieldTimes(tl)[name])
  {
    if |tl| > 0 {
      CarriedIsLatest(tl[..|tl| - 1], name);
    }
  }

  /** Carrying fields forward from the oldest record gives what merging from the newest gives. */
  lemma {:induction false} CarriedIsMerged(rs: seq<Record>)
    ensures Carried(Timeline(rs)) == Merged(Stamped(rs))
  {
    if |rs| > 0 {
      CarriedIsMerged(rs[1..]);
      if ReceivedMs(rs[0]) != 0 {
        var older := Timeline(rs[1..]);
        assert (older + [rs[0]])[..|older|] == older;
        MergedNewerFirst(rs[0], Stamped(rs[1..]));
      }
    }
  }

  lemma {:induction false} StampedIdentity(rs: seq<Record>)
    requires forall i :: 0 <= i < |rs| ==> ReceivedMs(rs[i]) != 0
    ensures Stamped(rs) == rs
  {
    if |rs| > 0 {
      StampedIdentity(rs[1..]);
    }
  }

  /** On records that all carry a timestamp, trip state and merged telemetry are the same map. */
  lemma CarriedIsMergedWhenStamped(rs: seq<Record>)
    requires forall i :: 0 <= i < |rs| ==> ReceivedMs(rs[i]) != 0
    ensures Carried(Timeline(rs)) == Merged(rs)
  {
    CarriedIsMerged(rs);
    StampedIdentity(rs);
  }
}
