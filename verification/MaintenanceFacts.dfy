/** When `_predictive_maintenance` gives each condition, in terms of the records:
    aws-dashboard/backend/car_health_api/lambda_function.py. */
module MaintenanceFacts {
  import opened Options
  import opened Records
  import opened Health
  import opened Maintenance
  import opened HealthFacts
  import opened HealthAgreement

  // ----- readings -----

  // The number that record `i` carries for the field.
  function ReadingAt(rs: seq<Record>, i: nat, name: string): Option<real>
    requires i < |rs|
  {
    Number(Lookup(rs[i].data, name))
  }

  /** The records that carry a number for the field. */
  ghost function Readings(rs: seq<Record>, name: string): set<nat> {
    set i: nat | i < |rs| && ReadingAt(rs, i, name).Some?
  }

  /** Those whose number is below `low`, if that is given, or above `high`. */
  ghost function Beyond(rs: seq<Record>, name: string, low: Option<real>, high: real): set<nat> {
    set i: nat | i < |rs| && Strays(ReadingAt(rs, i, name), low, high)
  }

  predicate Strays(x: Option<real>, low: Option<real>, high: real) {
    x.Some? && ((low.Some? && x.value < low.value) || x.value > high)
  }

  // The series of one record.
  function Single(r: Record, name: string): seq<(int, real)> {
    var value := Number(Lookup(r.data, name));
    if value.Some? then [(ReceivedMs(r), value.value)] else []
  }

  // The oldest record comes last in the list and first in the series.
  lemma {:induction false} SeriesOldest(rs: seq<Record>, name: string)
    requires |rs| > 0
    ensures Series(rs, name) == Single(rs[|rs| - 1], name) + Series(rs[..|rs| - 1], name)
  {
    var n := |rs| - 1;
    if n == 0 {
      assert rs[1..] == [] && rs[..0] == [];
    } else {
      SeriesOldest(rs[1..], name);
      assert rs[1..][n - 1] == rs[n] && rs[1..][..n - 1] == rs[..n][1..];
      SeriesFront(rs[..n], name);
      SeriesFront(rs, name);
      Regroup(Single(rs[n], name), Series(rs[..n][1..], name), Single(rs[0], name));
    }
  }

  lemma {:induction false} SeriesFront(rs: seq<Record>, name: string)
    requires |rs| > 0
    ensures Series(rs, name) == Series(rs[1..], name) + Single(rs[0], name)
  {
  }

  lemma {:induction false} Regroup<T>(a: seq<T>, b: seq<T>, c: seq<T>)
    ensures (a + b) + c == a + (b + c)
  {
  }

  lemma {:induction false} CountJoin(x: seq<(int, real)>, y: seq<(int, real)>, low: Option<real>,
                                     high: real)
    ensures CountOutside(x + y, low, high) == CountOutside(x, low, high) + CountOutside(y, low, high)
  {
    if |y| == 0 {
      assert x + y == x;
    } else {
      var n := |y| - 1;
      assert (x + y)[..|x + y| - 1] == x + y[..n];
      CountJoin(x, y[..n], low, high);
    }
  }

  lemma {:induction false} CountSingle(r: Record, name: string, low: Option<real>, high: real)
    ensures CountOutside(Single(r, name), low, high)
            == if Strays(Number(Lookup(r.data, name)), low, high) then 1 else 0
    ensures |Single(r, name)| == if Number(Lookup(r.data, name)).Some? then 1 else 0
  {
    var s := Single(r, name);
    if |s| == 1 {
      assert s[..0] == [];
      assert CountOutside(s[..0], low, high) == 0;
    }
  }

  /** The series has one value for each reading, and as many of them outside as readings are. */
  lemma {:induction false} SeriesCounts(rs: seq<Record>, name: string, low: Option<real>, high: real)
    ensures |Series(rs, name)| == |Readings(rs, name)|
    ensures CountOutside(Series(rs, name), low, high) == |Beyond(rs, name, low, high)|
  {
    if |rs| == 0 {
      assert Readings(rs, name) == {} && Beyond(rs, name, low, high) == {};
    } else {
      var n := |rs| - 1;
      SeriesCounts(rs[..n], name, low, high);
      SeriesOldest(rs, name);
      CountJoin(Single(rs[n], name), Series(rs[..n], name), low, high);
      CountSingle(rs[n], name, low, high);
      ReadingsNext(rs, name);
      BeyondNext(rs, name, low, high);
    }
  }

  lemma {:induction false} ReadingsNext(rs: seq<Record>, name: string)
    requires |rs| > 0
    ensures |Readings(rs, name)|
            == |Readings(rs[..|rs| - 1], name)|
               + (if ReadingAt(rs, |rs| - 1, name).Some? then 1 else 0)
  {
    var n := |rs| - 1;
    assert forall i: nat :: i < n ==> ReadingAt(rs[..n], i, name) == ReadingAt(rs, i, name);
    assert Readings(rs, name)
           == Readings(rs[..n], name) + if ReadingAt(rs, n, name).Some? then {n} else {};
  }

  lemma {:induction false} BeyondNext(rs: seq<Record>, name: string, low: Option<real>, high: real)
    requires |rs| > 0
    ensures |Beyond(rs, name, low, high)|
            == |Beyond(rs[..|rs| - 1], name, low, high)|
               + (if Strays(ReadingAt(rs, |rs| - 1, name), low, high) then 1 else 0)
  {
    var n := |rs| - 1;
    assert forall i: nat :: i < n ==> ReadingAt(rs[..n], i, name) == ReadingAt(rs, i, name);
    assert Beyond(rs, name, low, high)
           == Beyond(rs[..n], name, low, high)
              + if Strays(ReadingAt(rs, n, name), low, high) then {n} else {};
  }

  /** The newest and the oldest reading. */
  ghost predicate Newest(rs: seq<Record>, name: string, x: real) {
    exists i: nat :: i < |rs| && ReadingAt(rs, i, name) == Some(x)
                     && forall j: nat :: j < i ==> ReadingAt(rs, j, name).None?
  }

  ghost predicate Oldest(rs: seq<Record>, name: string, x: real) {
    exists i: nat :: i < |rs| && ReadingAt(rs, i, name) == Some(x)
                     && forall j: nat :: i < j < |rs| ==> ReadingAt(rs, j, name).None?
  }

  lemma {:induction false} SeriesEnds(rs: seq<Record>, name: string)
    requires |Series(rs, name)| > 0
    ensures Oldest(rs, name, Series(rs, name)[0].1)
    ensures Newest(rs, name, Series(rs, name)[|Series(rs, name)| - 1].1)
  {
    OldestFirst(rs, name);
    NewestLast(rs, name);
  }

  lemma {:induction false} OldestFirst(rs: seq<Record>, name: string)
    requires |Series(rs, name)| > 0
    ensures Oldest(rs, name, Series(rs, name)[0].1)
  {
    var n := |rs| - 1;
    SeriesOldest(rs, name);
    if ReadingAt(rs, n, name).Some? {
      assert ReadingAt(rs, n, name) == Some(Series(rs, name)[0].1);
    } else {
      OldestFirst(rs[..n], name);
      OldestLater(rs, name, Series(rs, name)[0].1);
    }
  }

  lemma {:induction false} OldestLater(rs: seq<Record>, name: string, x: real)
    requires |rs| > 0 && ReadingAt(rs, |rs| - 1, name).None? && Oldest(rs[..|rs| - 1], name, x)
    ensures Oldest(rs, name, x)
  {
    var n := |rs| - 1;
    var i: nat :| i < n && ReadingAt(rs[..n], i, name) == Some(x)
                  && forall j: nat :: i < j < n ==> ReadingAt(rs[..n], j, name).None?;
    assert forall j: nat :: j < n ==> ReadingAt(rs[..n], j, name) == ReadingAt(rs, j, name);
    assert ReadingAt(rs, i, name) == Some(x);
  }

  lemma {:induction false} NewestLast(rs: seq<Record>, name: string)
    requires |Series(rs, name)| > 0
    ensures Newest(rs, name, Series(rs, name)[|Series(rs, name)| - 1].1)
  {
    SeriesFront(rs, name);
    var x := Series(rs, name)[|Series(rs, name)| - 1].1;
    if ReadingAt(rs, 0, name).Some? {
      assert ReadingAt(rs, 0, name) == Some(x);
    } else {
      NewestLast(rs[1..], name);
      var i: nat :| i < |rs[1..]| && ReadingAt(rs[1..], i, name) == Some(x)
                    && forall j: nat :: j < i ==> ReadingAt(rs[1..], j, name).None?;
      assert forall j: nat :: 0 < j < |rs| ==> ReadingAt(rs, j, name) == ReadingAt(rs[1..], j - 1, name);
      assert ReadingAt(rs, i + 1, name) == Some(x);
    }
  }

  // The newest reading is this much above the oldest.
  ghost predicate Rises(rs: seq<Record>, name: string, rise: real) {
    exists x, y :: Newest(rs, name, x) && Oldest(rs, name, y) && rise == x - y
  }

  /** At least five readings, and the newest is at least 10 above the oldest. */
  ghost predicate Rose(rs: seq<Record>, name: string) {
    |Readings(rs, name)| >= 5 && exists rise :: Rises(rs, name, rise) && rise >= 10.0
  }

  lemma {:induction false} OneNewest(rs: seq<Record>, name: string, x: real, y: real)
    ensures Newest(rs, name, x) && Newest(rs, name, y) ==> x == y
    ensures Oldest(rs, name, x) && Oldest(rs, name, y) ==> x == y
  {
  }

  // There is one rise only.
  lemma {:induction false} OneRise(rs: seq<Record>, name: string, x: real, y: real, rise: real)
    requires Newest(rs, name, x) && Oldest(rs, name, y)
    ensures Rises(rs, name, rise) <==> rise == x - y
  {
    if Rises(rs, name, rise) {
      var a, b :| Newest(rs, name, a) && Oldest(rs, name, b) && rise == a - b;
      OneNewest(rs, name, x, a);
      OneNewest(rs, name, y, b);
    }
  }

  lemma {:induction false} RoseIs(rs: seq<Record>, name: string)
    ensures var s := Series(rs, name);
            Rose(rs, name) <==> |s| >= 5 && s[|s| - 1].1 - s[0].1 >= 10.0
  {
    var s := Series(rs, name);
    SeriesCounts(rs, name, None, 0.0);
    if |s| >= 5 {
      SeriesEnds(rs, name);
      RoseBy(rs, name, s[|s| - 1].1, s[0].1);
    }
  }

  lemma {:induction false} RoseBy(rs: seq<Record>, name: string, x: real, y: real)
    requires Newest(rs, name, x) && Oldest(rs, name, y) && |Readings(rs, name)| >= 5
    ensures Rose(rs, name) <==> x - y >= 10.0
  {
    forall rise ensures Rises(rs, name, rise) <==> rise == x - y {
      OneRise(rs, name, x, y, rise);
    }
    assert Rises(rs, name, x - y);
  }

  // ----- cooling -----

  lemma {:induction false} CoolingIff(coolant: Option<real>, series: seq<(int, real)>, hot: nat, rose: bool)
    requires hot == CountOutside(series, None, 105.0)
    requires rose <==> |series| >= 5 && series[|series| - 1].1 - series[0].1 >= 10.0
    ensures var c := CoolingCondition(coolant, series);
            var critical := coolant.Some? && coolant.value > 115.0;
            var warm := coolant.Some? && (coolant.value > 105.0 || (coolant.value > 95.0 && rose));
            && (c == INSPECT_NOW <==> critical)
            && (c == SERVICE_SOON <==> !critical && hot >= 3)
            && (c == OBSERVE <==> !critical && hot < 3 && warm)
            && (c == NORMAL <==> !critical && hot < 3 && !warm && coolant.Some?)
            && (c == INSUFFICIENT_DATA <==> hot < 3 && coolant.None?)
  {
  }

  // The condition by the records, for any merged value.
  lemma {:induction false} CoolingBy(rs: seq<Record>, name: string, coolant: Option<real>)
    ensures var c := CoolingCondition(coolant, Series(rs, name));
            var hot := |Beyond(rs, name, None, 105.0)|;
            var critical := coolant.Some? && coolant.value > 115.0;
            var warm := coolant.Some?
                        && (coolant.value > 105.0 || (coolant.value > 95.0 && Rose(rs, name)));
            && (c == INSPECT_NOW <==> critical)
            && (c == SERVICE_SOON <==> !critical && hot >= 3)
            && (c == OBSERVE <==> !critical && hot < 3 && warm)
            && (c == NORMAL <==> !critical && hot < 3 && !warm && coolant.Some?)
            && (c == INSUFFICIENT_DATA <==> hot < 3 && coolant.None?)
  {
    SeriesCounts(rs, name, None, 105.0);
    RoseIs(rs, name);
    CoolingIff(coolant, Series(rs, name), |Beyond(rs, name, None, 105.0)|, Rose(rs, name));
  }

  /** Cooling: critical above 115 degrees, otherwise service after three records above 105, otherwise to be
      observed above 105, or above 95 after a rise of 10. */
  lemma {:induction false} CoolingIs(rs: seq<Record>, now: int)
    requires |rs| > 0
    ensures var c, t := Route(rs, now).1.findings[0].condition, Merged(rs);
            var hot := |Beyond(rs, "coolant_c", None, 105.0)|;
            var critical := Above(t, "coolant_c", 115.0);
            var warm := Above(t, "coolant_c", 105.0)
                        || (Above(t, "coolant_c", 95.0) && Rose(rs, "coolant_c"));
            && (c == INSPECT_NOW <==> critical)
            && (c == SERVICE_SOON <==> !critical && hot >= 3)
            && (c == OBSERVE <==> !critical && hot < 3 && warm)
            && (c == NORMAL <==> !critical && hot < 3 && !warm && HasNumber(t, "coolant_c"))
            && (c == INSUFFICIENT_DATA <==> hot < 3 && !HasNumber(t, "coolant_c"))
  {
    var t := Merged(rs);
    RouteParts(rs, now);
    Compared(t, "coolant_c", 115.0);
    Compared(t, "coolant_c", 105.0);
    Compared(t, "coolant_c", 95.0);
    CoolingBy(rs, "coolant_c", NumberOf(t, "coolant_c"));
  }

  // ----- charging -----

  lemma {:induction false} ChargingIff(voltage: Option<real>, rpm: Option<real>,
                                       series: seq<(int, real)>, odd: nat)
    requires odd == CountOutside(series, Some(12.5), 15.2)
    ensures var c := ChargingCondition(voltage, rpm, series);
            var running := rpm.Some? && rpm.value > 400.0;
            var far := running && voltage.Some? && (voltage.value < 11.8 || voltage.value > 15.5);
            var off := running && voltage.Some? && (voltage.value < 12.5 || voltage.value > 15.2);
            && (c == INSPECT_NOW <==> far)
            && (c == SERVICE_SOON <==> !far && running && odd >= 3)
            && (c == OBSERVE <==> !far && odd < 3 && off)
            && (c == NORMAL <==> !far && !(running && odd >= 3) && !off && voltage.Some?)
            && (c == INSUFFICIENT_DATA <==> !(running && odd >= 3) && voltage.None?)
  {
  }

  /** Charging, with the engine above 400 rpm: to be inspected beyond 11.8 and 15.5 V, otherwise service
      after three records beyond 12.5 and 15.2 V, otherwise to be observed beyond those. */
  lemma {:induction false} ChargingIs(rs: seq<Record>, now: int)
    requires |rs| > 0
    ensures var c, t := Route(rs, now).1.findings[1].condition, Merged(rs);
            var odd := |Beyond(rs, VOLTAGE, Some(12.5), 15.2)|;
            var running := Above(t, "engine_rpm", 400.0);
            var far := running && (Below(t, VOLTAGE, 11.8) || Above(t, VOLTAGE, 15.5));
            var off := running && (Below(t, VOLTAGE, 12.5) || Above(t, VOLTAGE, 15.2));
            && (c == INSPECT_NOW <==> far)
            && (c == SERVICE_SOON <==> !far && running && odd >= 3)
            && (c == OBSERVE <==> !far && odd < 3 && off)
            && (c == NORMAL <==> !far && !(running && odd >= 3) && !off && HasNumber(t, VOLTAGE))
            && (c == INSUFFICIENT_DATA <==> !(running && odd >= 3) && !HasNumber(t, VOLTAGE))
  {
    var t := Merged(rs);
    RouteParts(rs, now);
    Compared(t, "engine_rpm", 400.0);
    Compared(t, VOLTAGE, 11.8);
    Compared(t, VOLTAGE, 12.5);
    Compared(t, VOLTAGE, 15.2);
    Compared(t, VOLTAGE, 15.5);
    SeriesCounts(rs, VOLTAGE, Some(12.5), 15.2);
    ChargingIff(NumberOf(t, VOLTAGE), NumberOf(t, "engine_rpm"), Series(rs, VOLTAGE),
                |Beyond(rs, VOLTAGE, Some(12.5), 15.2)|);
  }

  // ----- fuel and air -----

  lemma {:induction false} FuelAirIff(short: Option<real>, long: Option<real>, samples: nat)
    ensures var c := FuelAirCondition(short, long, samples);
            var far := (long.Some? && Abs(long.value) > 25.0)
                       || (short.Some? && long.Some? && Abs(short.value + long.value) > 25.0);
            var off := (long.Some? && Abs(long.value) > 15.0)
                       || (short.Some? && long.Some? && Abs(short.value + long.value) > 15.0);
            && (c == SERVICE_SOON <==> far) && (c == OBSERVE <==> !far && off)
            && (c == NORMAL <==> !off && samples > 0)
            && (c == INSUFFICIENT_DATA <==> !off && samples == 0)
  {
  }

  // The field, or its sum with another one, is beyond `x` in either direction.
  predicate Off(t: Fields, x: real) {
    || Above(t, LONG_TRIM, x) || Below(t, LONG_TRIM, -x)
    || (HasNumber(t, SHORT_TRIM) && HasNumber(t, LONG_TRIM)
        && Abs(Number(t[SHORT_TRIM]).value + Number(t[LONG_TRIM]).value) > x)
  }

  lemma {:induction false} OffIs(t: Fields, x: real)
    requires x > 0.0
    ensures var short, long := NumberOf(t, SHORT_TRIM), NumberOf(t, LONG_TRIM);
            Off(t, x) <==> (long.Some? && Abs(long.value) > x)
                           || (short.Some? && long.Some? && Abs(short.value + long.value) > x)
  {
  }

  lemma {:induction false} TrimSamples(rs: seq<Record>, now: int)
    requires |rs| > 0
    ensures Route(rs, now).1.findings[2].samples > 0 <==>
            Readings(rs, SHORT_TRIM) != {} || Readings(rs, LONG_TRIM) != {}
  {
    SeriesCounts(rs, SHORT_TRIM, None, 0.0);
    SeriesCounts(rs, LONG_TRIM, None, 0.0);
    TrimSamplesOf(rs, WithCleanDtcs(Merged(rs)), HealthOf(rs[0], Merged(rs), now));
  }

  lemma {:induction false} TrimSamplesOf(rs: seq<Record>, t: Fields, h: HealthReport)
    ensures PredictiveMaintenance(rs, t, h).findings[2].samples
            == Max(|Series(rs, SHORT_TRIM)|, |Series(rs, LONG_TRIM)|)
  {
  }

  /** Fuel and air: service when a trim is beyond 25 percent, otherwise to be observed beyond 15. */
  lemma {:induction false} FuelAirIs(rs: seq<Record>, now: int)
    requires |rs| > 0
    ensures var c, t := Route(rs, now).1.findings[2].condition, Merged(rs);
            var seen := Readings(rs, SHORT_TRIM) != {} || Readings(rs, LONG_TRIM) != {};
            && (c == SERVICE_SOON <==> Off(t, 25.0)) && (c == OBSERVE <==> !Off(t, 25.0) && Off(t, 15.0))
            && (c == NORMAL <==> !Off(t, 15.0) && seen) && (c == INSUFFICIENT_DATA <==> !Off(t, 15.0) && !seen)
  {
    var t := Merged(rs);
    RouteParts(rs, now);
    TrimSamples(rs, now);
    OffIs(t, 25.0);
    OffIs(t, 15.0);
    FuelAirIff(NumberOf(t, SHORT_TRIM), NumberOf(t, LONG_TRIM), Route(rs, now).1.findings[2].samples);
  }

  // ----- diagnostics and data quality -----

  /** Diagnostics: by the number of trouble codes; data quality: by link, age of the records and errors. */
  lemma {:induction false} DiagnosticsAndDataAre(rs: seq<Record>, now: int)
    requires |rs| > 0
    ensures var (h, m) := Route(rs, now);
            var t, c, d := Merged(rs), m.findings[3].condition, m.findings[4].condition;
            var silent := Silent(t);
            var offline := LinkSays(t, "OFFLINE") || (silent && h.age.Some? && h.age.value > 60);
            var stale := LinkSays(t, "STALE") || (silent && h.age.Some? && 15 < h.age.value <= 60);
            && (c == INSPECT_NOW <==> |h.dtcs| >= 3) && (c == SERVICE_SOON <==> 1 <= |h.dtcs| <= 2)
            && (c == NORMAL <==> |h.dtcs| == 0)
            && (d == INSPECT_NOW <==> offline)
            && (d == SERVICE_SOON <==>
                  !offline && (stale || ErrorsAbove(t, 0.10)))
            && (d == OBSERVE <==> !offline && !stale && !ErrorsAbove(t, 0.10) && ErrorsAbove(t, 0.03))
            && (d == NORMAL <==> !offline && !stale && !ErrorsAbove(t, 0.03))
  {
    var (h, m) := Route(rs, now);
    var t := Merged(rs);
    RouteParts(rs, now);
    DataPart(rs, now);
    LinkCompared(t);
    DataIff(h.age, VitalsOf(t).link, Errors(t), Successes(t), |rs|);
  }

  // More than this share of at least 20 requests failed.
  predicate Share(e: Option<real>, s: Option<real>, share: real) {
    var failed, worked := if e.Some? then e.value else 0.0, if s.Some? then s.value else 0.0;
    failed + worked >= 20.0 && failed / (failed + worked) > share
  }

  predicate ErrorsAbove(t: Fields, share: real) {
    Share(NumberOf(t, "obd_error_count"), NumberOf(t, "obd_success_count"), share)
  }

  lemma {:induction false} DataIff(age: Option<nat>, link: Link, e: Option<real>, s: Option<real>, n: nat)
    requires n > 0
    ensures var d := DataCondition(e, s, ReportedLink(age, link), n);
            var silent := link == NoLink;
            var offline := link == OfflineLink || (silent && age.Some? && age.value > 60);
            var stale := link == StaleLink || (silent && age.Some? && 15 < age.value <= 60);
            && (d == INSPECT_NOW <==> offline)
            && (d == SERVICE_SOON <==> !offline && (stale || Share(e, s, 0.10)))
            && (d == OBSERVE <==> !offline && !stale && !Share(e, s, 0.10) && Share(e, s, 0.03))
            && (d == NORMAL <==> !offline && !stale && !Share(e, s, 0.03))
  {
  }

  /** Each finding names its system and the readings it rests on. */
  lemma {:induction false} FindingsAre(rs: seq<Record>, now: int)
    requires |rs| > 0
    ensures var f := Route(rs, now).1.findings;
            && f[0].system == Cooling && f[0].samples == |Readings(rs, "coolant_c")|
            && f[1].system == Charging && f[1].samples == |Readings(rs, VOLTAGE)|
            && f[2].system == FuelAir
            && f[2].samples == Max(|Readings(rs, SHORT_TRIM)|, |Readings(rs, LONG_TRIM)|)
            && f[3].system == Diagnostics && f[3].samples == |rs|
            && f[4].system == DataQuality && f[4].samples == |rs|
  {
    SeriesCounts(rs, "coolant_c", None, 0.0);
    SeriesCounts(rs, VOLTAGE, None, 0.0);
    SeriesCounts(rs, SHORT_TRIM, None, 0.0);
    SeriesCounts(rs, LONG_TRIM, None, 0.0);
    FindingsOf(rs, WithCleanDtcs(Merged(rs)), HealthOf(rs[0], Merged(rs), now));
  }

  lemma {:induction false} FindingsOf(rs: seq<Record>, t: Fields, h: HealthReport)
    requires |rs| > 0
    ensures var f := PredictiveMaintenance(rs, t, h).findings;
            && f[0].system == Cooling && f[0].samples == |Series(rs, "coolant_c")|
            && f[1].system == Charging && f[1].samples == |Series(rs, VOLTAGE)|
            && f[2].system == FuelAir
            && f[2].samples == Max(|Series(rs, SHORT_TRIM)|, |Series(rs, LONG_TRIM)|)
            && f[3].system == Diagnostics && f[3].samples == |rs|
            && f[4].system == DataQuality && f[4].samples == |rs|
  {
  }
}
