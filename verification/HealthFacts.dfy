/** What `_health` makes of the telemetry, field by field:
    aws-dashboard/backend/car_health_api/lambda_function.py. */
module HealthFacts {
  import opened Options
  import opened Records
  import opened Health
  import opened HealthAgreement
  import Maintenance
  import Text
  import Dtc

  /** The field holds a number. */
  predicate HasNumber(telemetry: Fields, key: string) {
    key in telemetry && Number(telemetry[key]).Some?
  }

  predicate Above(telemetry: Fields, key: string, x: real) {
    HasNumber(telemetry, key) && Number(telemetry[key]).value > x
  }

  predicate Below(telemetry: Fields, key: string, x: real) {
    HasNumber(telemetry, key) && Number(telemetry[key]).value < x
  }

  // The two numbers add up to more than 25, or to less than -25.
  predicate SumBeyond(telemetry: Fields, a: string, b: string) {
    HasNumber(telemetry, a) && HasNumber(telemetry, b)
    && !(-25.0 <= Number(telemetry[a]).value + Number(telemetry[b]).value <= 25.0)
  }

  /** The reported link state, in any case. */
  predicate LinkSays(telemetry: Fields, state: string) {
    "vehicle_link_state" in telemetry
    && Text.Upper(ShownAs(telemetry["vehicle_link_state"])) == state
  }

  /** No link state is reported, or an empty one. */
  predicate Silent(telemetry: Fields) {
    "vehicle_link_state" !in telemetry || |ShownAs(telemetry["vehicle_link_state"])| == 0
  }

  lemma Compared(telemetry: Fields, key: string, x: real)
    ensures var n := NumberOf(telemetry, key);
            && (HasNumber(telemetry, key) <==> n.Some?)
            && (Above(telemetry, key, x) <==> n.Some? && n.value > x)
            && (Below(telemetry, key, x) <==> n.Some? && n.value < x)
  {
  }

  lemma SumCompared(telemetry: Fields, a: string, b: string)
    ensures var x, y := NumberOf(telemetry, a), NumberOf(telemetry, b);
            SumBeyond(telemetry, a, b) <==> x.Some? && y.Some? && Abs(x.value + y.value) > 25.0
  {
  }

  lemma LinkCompared(telemetry: Fields)
    ensures LinkSays(telemetry, "OFFLINE") <==> LinkOf(telemetry) == OfflineLink
    ensures LinkSays(telemetry, "STALE") <==> LinkOf(telemetry) == StaleLink
    ensures Silent(telemetry) <==> LinkOf(telemetry) == NoLink
  {
    assert |"OFFLINE"| == 7 && |"STALE"| == 5;
  }

  // The warnings of each report are those of the vitals.
  lemma WarningsOf(latest: Record, telemetry: Fields, now: int)
    ensures var h := HealthOf(latest, telemetry, now);
            && h.warnings == Warnings(AgeSeconds(latest, now), VitalsOf(telemetry), |h.dtcs|)
            && h.age == AgeSeconds(latest, now)
  {
  }

  /** Coolant: critical above 115 degrees, high above 105. */
  lemma CoolantWarnings(latest: Record, telemetry: Fields, now: int)
    ensures var ws := HealthOf(latest, telemetry, now).warnings;
            && (CoolantCritical in ws <==> Above(telemetry, "coolant_c", 115.0))
            && (CoolantHigh in ws <==>
                  Above(telemetry, "coolant_c", 105.0) && !Above(telemetry, "coolant_c", 115.0))
  {
    var v, h := VitalsOf(telemetry), HealthOf(latest, telemetry, now);
    WarningsOf(latest, telemetry, now);
    Compared(telemetry, "coolant_c", 115.0);
    Compared(telemetry, "coolant_c", 105.0);
    CoolantRules(h.age, v, |h.dtcs|);
  }

  lemma CoolantRules(age: Option<nat>, v: Vitals, dtcs: nat)
    ensures var ws := Warnings(age, v, dtcs);
            && (CoolantCritical in ws <==> v.coolant.Some? && v.coolant.value > 115.0)
            && (CoolantHigh in ws <==> v.coolant.Some? && 105.0 < v.coolant.value <= 115.0)
  {
    Raised(age, v, dtcs, CoolantCritical);
    Raised(age, v, dtcs, CoolantHigh);
  }

  /** Fuel level: critical below 10 percent, low below 20; engine load: high above 85. */
  lemma FuelAndLoadWarnings(latest: Record, telemetry: Fields, now: int)
    ensures var ws := HealthOf(latest, telemetry, now).warnings;
            && (FuelCritical in ws <==> Below(telemetry, "fuel_level_pct", 10.0))
            && (FuelLow in ws <==>
                  Below(telemetry, "fuel_level_pct", 20.0) && !Below(telemetry, "fuel_level_pct", 10.0))
            && (LoadHigh in ws <==> Above(telemetry, "engine_load_pct", 85.0))
  {
    var v, h := VitalsOf(telemetry), HealthOf(latest, telemetry, now);
    WarningsOf(latest, telemetry, now);
    Compared(telemetry, "fuel_level_pct", 10.0);
    Compared(telemetry, "fuel_level_pct", 20.0);
    Compared(telemetry, "engine_load_pct", 85.0);
    FuelAndLoadRules(h.age, v, |h.dtcs|);
  }

  lemma FuelAndLoadRules(age: Option<nat>, v: Vitals, dtcs: nat)
    ensures var ws := Warnings(age, v, dtcs);
            && (FuelCritical in ws <==> v.fuelLevel.Some? && v.fuelLevel.value < 10.0)
            && (FuelLow in ws <==> v.fuelLevel.Some? && 10.0 <= v.fuelLevel.value < 20.0)
            && (LoadHigh in ws <==> v.load.Some? && v.load.value > 85.0)
  {
    Raised(age, v, dtcs, FuelCritical);
    Raised(age, v, dtcs, FuelLow);
    Raised(age, v, dtcs, LoadHigh);
  }

  const SHORT_TRIM := "short_fuel_trim_b1_pct"
  const LONG_TRIM := "long_fuel_trim_b1_pct"

  /** Fuel trims: the long-term one beyond 25 percent, or else both together. */
  lemma TrimWarnings(latest: Record, telemetry: Fields, now: int)
    ensures var ws := HealthOf(latest, telemetry, now).warnings;
            && (LongTrim in ws <==>
                  Above(telemetry, LONG_TRIM, 25.0) || Below(telemetry, LONG_TRIM, -25.0))
            && (CombinedTrim in ws <==>
                  SumBeyond(telemetry, SHORT_TRIM, LONG_TRIM)
                  && !Above(telemetry, LONG_TRIM, 25.0) && !Below(telemetry, LONG_TRIM, -25.0))
  {
    var v, h := VitalsOf(telemetry), HealthOf(latest, telemetry, now);
    WarningsOf(latest, telemetry, now);
    Compared(telemetry, LONG_TRIM, 25.0);
    Compared(telemetry, LONG_TRIM, -25.0);
    SumCompared(telemetry, SHORT_TRIM, LONG_TRIM);
    TrimRules(h.age, v, |h.dtcs|);
  }

  lemma TrimRules(age: Option<nat>, v: Vitals, dtcs: nat)
    ensures var ws := Warnings(age, v, dtcs);
            var far := v.longTrim.Some? && (v.longTrim.value > 25.0 || v.longTrim.value < -25.0);
            && (LongTrim in ws <==> far)
            && (CombinedTrim in ws <==>
                  !far && v.shortTrim.Some? && v.longTrim.Some?
                  && Abs(v.shortTrim.value + v.longTrim.value) > 25.0)
  {
    Raised(age, v, dtcs, LongTrim);
    Raised(age, v, dtcs, CombinedTrim);
  }

  const VOLTAGE := "control_module_voltage_v"

  /** Voltage: only while the engine turns faster than 400 rpm, low below 12.5 V and high above 15.2 V. */
  lemma VoltageWarnings(latest: Record, telemetry: Fields, now: int)
    ensures var ws := HealthOf(latest, telemetry, now).warnings;
            && (VoltageLow in ws <==>
                  Above(telemetry, "engine_rpm", 400.0) && Below(telemetry, VOLTAGE, 12.5))
            && (VoltageHigh in ws <==>
                  Above(telemetry, "engine_rpm", 400.0) && Above(telemetry, VOLTAGE, 15.2))
  {
    var v, h := VitalsOf(telemetry), HealthOf(latest, telemetry, now);
    WarningsOf(latest, telemetry, now);
    Compared(telemetry, "engine_rpm", 400.0);
    Compared(telemetry, VOLTAGE, 12.5);
    Compared(telemetry, VOLTAGE, 15.2);
    VoltageRules(h.age, v, |h.dtcs|);
  }

  lemma VoltageRules(age: Option<nat>, v: Vitals, dtcs: nat)
    ensures var ws := Warnings(age, v, dtcs);
            var running := v.rpm.Some? && v.rpm.value > 400.0;
            && (VoltageLow in ws <==> running && v.voltage.Some? && v.voltage.value < 12.5)
            && (VoltageHigh in ws <==> running && v.voltage.Some? && v.voltage.value > 15.2)
  {
    Raised(age, v, dtcs, VoltageLow);
    Raised(age, v, dtcs, VoltageHigh);
  }

  /** The link, trouble codes, and the age of the newest record in full seconds. */
  lemma OtherWarnings(latest: Record, telemetry: Fields, now: int, n: nat)
    ensures var h := HealthOf(latest, telemetry, now);
            var ms := ReceivedMs(latest);
            && (LinkOffline in h.warnings <==> LinkSays(telemetry, "OFFLINE"))
            && (LinkStale in h.warnings <==> LinkSays(telemetry, "STALE"))
            && (DtcsPresent(n) in h.warnings <==> n == |h.dtcs| > 0)
            && (NoTimestamp in h.warnings <==> ms == 0)
            && (NoTelemetry in h.warnings <==> ms != 0 && now - ms >= 61000)
            && (TelemetryStale in h.warnings <==> ms != 0 && 16000 <= now - ms < 61000)
  {
    var v, h := VitalsOf(telemetry), HealthOf(latest, telemetry, now);
    WarningsOf(latest, telemetry, now);
    LinkCompared(telemetry);
    OtherRules(h.age, v, |h.dtcs|, n);
  }

  lemma OtherRules(age: Option<nat>, v: Vitals, dtcs: nat, n: nat)
    ensures var ws := Warnings(age, v, dtcs);
            && (LinkOffline in ws <==> v.link == OfflineLink)
            && (LinkStale in ws <==> v.link == StaleLink)
            && (DtcsPresent(n) in ws <==> n == dtcs > 0)
            && (NoTimestamp in ws <==> age.None?)
            && (NoTelemetry in ws <==> age.Some? && age.value > 60)
            && (TelemetryStale in ws <==> age.Some? && 15 < age.value <= 60)
  {
    LinkRules(age, v, dtcs, n);
    AgeRules(age, v, dtcs);
  }

  lemma LinkRules(age: Option<nat>, v: Vitals, dtcs: nat, n: nat)
    ensures var ws := Warnings(age, v, dtcs);
            && (LinkOffline in ws <==> v.link == OfflineLink)
            && (LinkStale in ws <==> v.link == StaleLink)
            && (DtcsPresent(n) in ws <==> n == dtcs > 0)
  {
    Raised(age, v, dtcs, LinkOffline);
    Raised(age, v, dtcs, LinkStale);
    Raised(age, v, dtcs, DtcsPresent(n));
  }

  lemma AgeRules(age: Option<nat>, v: Vitals, dtcs: nat)
    ensures var ws := Warnings(age, v, dtcs);
            && (NoTimestamp in ws <==> age.None?)
            && (NoTelemetry in ws <==> age.Some? && age.value > 60)
            && (TelemetryStale in ws <==> age.Some? && 15 < age.value <= 60)
  {
    Raised(age, v, dtcs, NoTimestamp);
    Raised(age, v, dtcs, NoTelemetry);
    Raised(age, v, dtcs, TelemetryStale);
  }

  // ----- score, level and status -----

  function If(warned: bool, points: nat): nat {
    if warned then points else 0
  }

  /** What the warnings cost together. */
  function Points(ws: seq<Warning>, dtcs: nat): nat {
    AgePoints(ws) + CoolantPoints(ws) + FuelPoints(ws) + If(LoadHigh in ws, 5) + TrimPoints(ws)
    + VoltagePoints(ws) + DtcPoints(dtcs) + LinkPoints(ws)
  }

  function AgePoints(ws: seq<Warning>): nat {
    If(NoTimestamp in ws, 30) + If(NoTelemetry in ws, 40) + If(TelemetryStale in ws, 15)
  }

  function CoolantPoints(ws: seq<Warning>): nat {
    If(CoolantCritical in ws, 30) + If(CoolantHigh in ws, 15)
  }

  function FuelPoints(ws: seq<Warning>): nat {
    If(FuelCritical in ws, 20) + If(FuelLow in ws, 10)
  }

  function TrimPoints(ws: seq<Warning>): nat {
    If(LongTrim in ws, 10) + If(CombinedTrim in ws, 5)
  }

  function VoltagePoints(ws: seq<Warning>): nat {
    If(VoltageLow in ws, 20) + If(VoltageHigh in ws, 15)
  }

  function DtcPoints(dtcs: nat): nat {
    if dtcs == 0 then 0 else if dtcs < 5 then 10 + 5 * dtcs else 35
  }

  function LinkPoints(ws: seq<Warning>): nat {
    If(LinkOffline in ws, 25) + If(LinkStale in ws, 10)
  }

  lemma CoolantCost(v: Vitals, critical: bool, high: bool)
    requires critical <==> v.coolant.Some? && v.coolant.value > 115.0
    requires high <==> v.coolant.Some? && 105.0 < v.coolant.value <= 115.0
    ensures Maintenance.RulePenalty(CoolantRule(v)) == If(critical, 30) + If(high, 15)
  {
  }

  lemma FuelAndLoadCost(v: Vitals, critical: bool, low: bool, load: bool)
    requires critical <==> v.fuelLevel.Some? && v.fuelLevel.value < 10.0
    requires low <==> v.fuelLevel.Some? && 10.0 <= v.fuelLevel.value < 20.0
    requires load <==> v.load.Some? && v.load.value > 85.0
    ensures Maintenance.RulePenalty(FuelRule(v)) == If(critical, 20) + If(low, 10)
    ensures Maintenance.RulePenalty(LoadRule(v)) == If(load, 5)
  {
  }

  lemma TrimCost(v: Vitals, long: bool, combined: bool)
    requires long <==> v.longTrim.Some? && (v.longTrim.value > 25.0 || v.longTrim.value < -25.0)
    requires combined <==> !long && v.shortTrim.Some? && v.longTrim.Some?
                           && Abs(v.shortTrim.value + v.longTrim.value) > 25.0
    ensures Maintenance.RulePenalty(TrimRule(v)) == If(long, 10) + If(combined, 5)
  {
  }

  lemma VoltageCost(v: Vitals, low: bool, high: bool)
    requires low <==> v.rpm.Some? && v.rpm.value > 400.0 && v.voltage.Some? && v.voltage.value < 12.5
    requires high <==> v.rpm.Some? && v.rpm.value > 400.0 && v.voltage.Some? && v.voltage.value > 15.2
    ensures Maintenance.RulePenalty(VoltageRule(v)) == If(low, 20) + If(high, 15)
  {
  }

  lemma OtherCost(age: Option<nat>, link: Link, dtcs: nat)
    ensures Maintenance.RulePenalty(AgeRule(age))
            == If(age.None?, 30) + If(age.Some? && age.value > 60, 40)
               + If(age.Some? && 15 < age.value <= 60, 15)
    ensures Maintenance.RulePenalty(LinkRule(link))
            == If(link == OfflineLink, 25) + If(link == StaleLink, 10)
    ensures Maintenance.RulePenalty(DtcRule(dtcs))
            == DtcPoints(dtcs)
  {
  }

  lemma PointsOf(age: Option<nat>, v: Vitals, dtcs: nat, ws: seq<Warning>)
    requires ws == Warnings(age, v, dtcs)
    ensures Total(ws) == Points(ws, dtcs)
  {
    VitalCosts(age, v, dtcs, ws);
    OtherCosts(age, v, dtcs, ws);
    SumOf(age, v, dtcs);
  }

  lemma SumOf(age: Option<nat>, v: Vitals, dtcs: nat)
    ensures Total(Warnings(age, v, dtcs))
            == Maintenance.RulePenalty(AgeRule(age)) + Maintenance.RulePenalty(CoolantRule(v))
               + Maintenance.RulePenalty(FuelRule(v)) + Maintenance.RulePenalty(LoadRule(v))
               + Maintenance.RulePenalty(TrimRule(v)) + Maintenance.RulePenalty(VoltageRule(v))
               + Maintenance.RulePenalty(DtcRule(dtcs)) + Maintenance.RulePenalty(LinkRule(v.link))
  {
    Maintenance.TotalOfEight(AgeRule(age), CoolantRule(v), FuelRule(v), LoadRule(v), TrimRule(v),
                             VoltageRule(v), DtcRule(dtcs), LinkRule(v.link));
  }

  lemma VitalCosts(age: Option<nat>, v: Vitals, dtcs: nat, ws: seq<Warning>)
    requires ws == Warnings(age, v, dtcs)
    ensures CoolantPoints(ws) == Maintenance.RulePenalty(CoolantRule(v))
    ensures FuelPoints(ws) == Maintenance.RulePenalty(FuelRule(v))
    ensures If(LoadHigh in ws, 5) == Maintenance.RulePenalty(LoadRule(v))
    ensures TrimPoints(ws) == Maintenance.RulePenalty(TrimRule(v))
    ensures VoltagePoints(ws) == Maintenance.RulePenalty(VoltageRule(v))
  {
    assert CoolantPoints(ws) == Maintenance.RulePenalty(CoolantRule(v)) by {
      CoolantRules(age, v, dtcs);
      CoolantCost(v, CoolantCritical in ws, CoolantHigh in ws);
    }
    assert FuelPoints(ws) == Maintenance.RulePenalty(FuelRule(v))
           && If(LoadHigh in ws, 5) == Maintenance.RulePenalty(LoadRule(v)) by {
      FuelAndLoadRules(age, v, dtcs);
      FuelAndLoadCost(v, FuelCritical in ws, FuelLow in ws, LoadHigh in ws);
    }
    assert TrimPoints(ws) == Maintenance.RulePenalty(TrimRule(v)) by {
      TrimRules(age, v, dtcs);
      TrimCost(v, LongTrim in ws, CombinedTrim in ws);
    }
    assert VoltagePoints(ws) == Maintenance.RulePenalty(VoltageRule(v)) by {
      VoltageRules(age, v, dtcs);
      VoltageCost(v, VoltageLow in ws, VoltageHigh in ws);
    }
  }

  lemma OtherCosts(age: Option<nat>, v: Vitals, dtcs: nat, ws: seq<Warning>)
    requires ws == Warnings(age, v, dtcs)
    ensures AgePoints(ws) == Maintenance.RulePenalty(AgeRule(age))
    ensures LinkPoints(ws) == Maintenance.RulePenalty(LinkRule(v.link))
    ensures DtcPoints(dtcs) == Maintenance.RulePenalty(DtcRule(dtcs))
  {
    OtherRules(age, v, dtcs, dtcs);
    OtherCost(age, v.link, dtcs);
  }

  /** The score is 100 less what the warnings cost, but not below 0; the level follows from it. */
  lemma ScoreIs(latest: Record, telemetry: Fields, now: int)
    ensures var h := HealthOf(latest, telemetry, now);
            var points := Points(h.warnings, |h.dtcs|);
            && h.score == (if points < 100 then 100 - points else 0)
            && (h.level == GOOD <==> points <= 10)
            && (h.level == WARNING <==> 10 < points <= 30)
            && (h.level == DEGRADED <==> 30 < points <= 60)
            && (h.level == CRITICAL <==> 60 < points)
  {
    var h := HealthOf(latest, telemetry, now);
    WarningsOf(latest, telemetry, now);
    PointsOf(h.age, VitalsOf(telemetry), |h.dtcs|, h.warnings);
  }

  /** A reported STALE or OFFLINE decides the status; otherwise the age does. */
  lemma StatusIs(latest: Record, telemetry: Fields, now: int)
    ensures var h := HealthOf(latest, telemetry, now);
            var ms := ReceivedMs(latest);
            var told := LinkSays(telemetry, "OFFLINE") || LinkSays(telemetry, "STALE");
            && (h.status == OFFLINE <==>
                  LinkSays(telemetry, "OFFLINE") || (!told && ms != 0 && now - ms >= 61000))
            && (h.status == STALE <==>
                  LinkSays(telemetry, "STALE") || (!told && ms != 0 && 16000 <= now - ms < 61000))
            && (h.status == UNKNOWN <==> !told && ms == 0)
            && (h.age.Some? <==> ms != 0)
            && (h.age.Some? && now >= ms ==> 1000 * h.age.value <= now - ms < 1000 * h.age.value + 1000)
            && (h.age.Some? && now < ms ==> h.age.value == 0)
  {
    LinkCompared(telemetry);
  }

  // ----- the trouble codes -----

  lemma {:induction false} UniqueIs(codes: seq<string>)
    ensures forall c :: c in Unique(codes) <==> c in codes
    ensures forall i, j :: 0 <= i < j < |Unique(codes)| ==> Unique(codes)[i] != Unique(codes)[j]
  {
    if |codes| > 0 {
      UniqueIs(codes[..|codes| - 1]);
      assert codes == codes[..|codes| - 1] + [codes[|codes| - 1]];
    }
  }

  // The list under the key, as it came, holds a text that stands for the code.
  predicate Lists(telemetry: Fields, key: string, code: string) {
    key in telemetry && telemetry[key].List?
    && Dtc.StandsFor(telemetry[key].items, code)
  }

  lemma ListsIs(telemetry: Fields, key: string, code: string)
    ensures code in CleanedField(telemetry, key) <==> Lists(telemetry, key, code) && Dtc.ValidCode(code)
  {
    if key in telemetry && telemetry[key].List? {
      Dtc.CleanedHas(telemetry[key].items, code);
    }
  }

  /** The report holds every valid code of the three lists once. */
  lemma CodesAre(latest: Record, telemetry: Fields, now: int, code: string)
    ensures var dtcs := HealthOf(latest, telemetry, now).dtcs;
            && (code in dtcs <==>
                  Dtc.ValidCode(code)
                  && (Lists(telemetry, "stored_dtc", code) || Lists(telemetry, "pending_dtc", code)
                      || Lists(telemetry, "permanent_dtc", code)))
            && (forall i, j :: 0 <= i < j < |dtcs| ==> dtcs[i] != dtcs[j])
  {
    ListsIs(telemetry, "stored_dtc", code);
    ListsIs(telemetry, "pending_dtc", code);
    ListsIs(telemetry, "permanent_dtc", code);
    UniqueIs(CleanedField(telemetry, "stored_dtc") + CleanedField(telemetry, "pending_dtc")
             + CleanedField(telemetry, "permanent_dtc"));
  }

  /** Each of the three lists is replaced by its own valid codes. */
  lemma CleanListsAre(telemetry: Fields, code: string)
    ensures Cleans(telemetry, "stored_dtc", code) && Cleans(telemetry, "pending_dtc", code)
            && Cleans(telemetry, "permanent_dtc", code)
  {
    KeysDiffer();
    CleansIs(telemetry, "stored_dtc", code);
    CleansIs(telemetry, "pending_dtc", code);
    CleansIs(telemetry, "permanent_dtc", code);
  }

  ghost predicate Cleans(telemetry: Fields, key: string, code: string) {
    key in WithCleanDtcs(telemetry) && WithCleanDtcs(telemetry)[key].List?
    && (code in WithCleanDtcs(telemetry)[key].items <==>
          Lists(telemetry, key, code) && Dtc.ValidCode(code))
  }

  lemma CleansIs(telemetry: Fields, key: string, code: string)
    requires key in WithCleanDtcs(telemetry)
    requires WithCleanDtcs(telemetry)[key] == List(CleanedField(telemetry, key))
    ensures Cleans(telemetry, key, code)
  {
    ListsIs(telemetry, key, code);
  }
}
