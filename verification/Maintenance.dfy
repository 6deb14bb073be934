/** `_series` and `_predictive_maintenance` of
    aws-dashboard/backend/car_health_api/lambda_function.py, without the texts. */
module Maintenance {
  import opened Options
  import opened Records
  import opened Health

  datatype Condition = INSUFFICIENT_DATA | NORMAL | OBSERVE | SERVICE_SOON | INSPECT_NOW

  function Rank(c: Condition): nat {
    match c
    case INSUFFICIENT_DATA => 0
    case NORMAL => 1
    case OBSERVE => 2
    case SERVICE_SOON => 3
    case INSPECT_NOW => 4
  }

  datatype System = Cooling | Charging | FuelAir | Diagnostics | DataQuality

  datatype Finding = Finding(system: System, condition: Condition, samples: nat)

  /** `_series`: the numeric values of a field with their times, oldest first; `rs` is newest first. */
  function Series(rs: seq<Record>, name: string): seq<(int, real)> {
    if |rs| == 0 then []
    else
      var value := Number(Lookup(rs[0].data, name));
      Series(rs[1..], name) + (if value.Some? then [(ReceivedMs(rs[0]), value.value)] else [])
  }

  method SeriesMethod(records: seq<Record>, name: string) returns (values: seq<(int, real)>)
    ensures values == Series(records, name)
  {
    values := [];
    for i := |records| downto 0
      invariant values == Series(records[i..], name)
    {
      assert records[i..][0] == records[i] && records[i..][1..] == records[i + 1..];
      var value := Number(Lookup(records[i].data, name));
      if value.Some? {
        values := values + [(ReceivedMs(records[i]), value.value)];
      }
    }
    assert records[0..] == records;
  }

  // How many values of a series lie outside [low, high].
  function CountOutside(values: seq<(int, real)>, low: Option<real>, high: real): nat {
    if |values| == 0 then 0
    else
      var v := values[|values| - 1].1;
      CountOutside(values[..|values| - 1], low, high)
      + (if (low.Some? && v < low.value) || v > high then 1 else 0)
  }

  // ----- the five findings -----

  function CoolingCondition(coolant: Option<real>, series: seq<(int, real)>): Condition {
    var hot := CountOutside(series, None, 105.0);
    var rise := if |series| >= 5 then series[|series| - 1].1 - series[0].1 else 0.0;
    if coolant.Some? && coolant.value > 115.0 then INSPECT_NOW
    else if hot >= 3 then SERVICE_SOON
    else if coolant.Some? && (coolant.value > 105.0 || (coolant.value > 95.0 && rise >= 10.0))
    then OBSERVE
    else if coolant.Some? then NORMAL else INSUFFICIENT_DATA
  }

  function ChargingCondition(voltage: Option<real>, rpm: Option<real>, series: seq<(int, real)>)
    : Condition
  {
    var abnormal := CountOutside(series, Some(12.5), 15.2);
    var running := rpm.Some? && rpm.value > 400.0;
    if running && voltage.Some? && (voltage.value < 11.8 || voltage.value > 15.5) then INSPECT_NOW
    else if running && abnormal >= 3 then SERVICE_SOON
    else if running && voltage.Some? && (voltage.value < 12.5 || voltage.value > 15.2) then OBSERVE
    else if voltage.Some? then NORMAL else INSUFFICIENT_DATA
  }

  function FuelAirCondition(short: Option<real>, long: Option<real>, samples: nat): Condition {
    var combined := if short.Some? && long.Some? then Some(short.value + long.value) else None;
    if (long.Some? && Abs(long.value) > 25.0) || (combined.Some? && Abs(combined.value) > 25.0)
    then SERVICE_SOON
    else if (long.Some? && Abs(long.value) > 15.0) || (combined.Some? && Abs(combined.value) > 15.0)
    then OBSERVE
    else if samples > 0 then NORMAL else INSUFFICIENT_DATA
  }

  function DiagnosticsCondition(dtcs: nat): Condition {
    if dtcs >= 3 then INSPECT_NOW else if dtcs > 0 then SERVICE_SOON else NORMAL
  }

  function DataCondition(errors: Option<real>, successes: Option<real>, link: Link, records: nat)
    : Condition
  {
    var e := if errors.Some? then errors.value else 0.0;
    var total := e + (if successes.Some? then successes.value else 0.0);
    var rate := if total != 0.0 then e / total else 0.0;
    if link == OfflineLink then INSPECT_NOW
    else if link == StaleLink || (total >= 20.0 && rate > 0.10) then SERVICE_SOON
    else if total >= 20.0 && rate > 0.03 then OBSERVE
    else if records > 0 then NORMAL else INSUFFICIENT_DATA
  }

  function Max(a: nat, b: nat): nat {
    if b > a then b else a
  }

  function Findings(rs: seq<Record>, telemetry: Fields, health: HealthReport): (r: seq<Finding>)
    ensures |r| == 5
  {
    var v := VitalsOf(telemetry);
    var coolant := Series(rs, "coolant_c");
    var voltage := Series(rs, "control_module_voltage_v");
    var trims := Max(|Series(rs, "short_fuel_trim_b1_pct")|, |Series(rs, "long_fuel_trim_b1_pct")|);
    [Finding(Cooling, CoolingCondition(v.coolant, coolant), |coolant|),
     Finding(Charging, ChargingCondition(v.voltage, v.rpm, voltage), |voltage|),
     Finding(FuelAir, FuelAirCondition(v.shortTrim, v.longTrim, trims), trims),
     Finding(Diagnostics, DiagnosticsCondition(|health.dtcs|), Max(1, |rs|)),
     Finding(DataQuality,
             DataCondition(NumberOf(telemetry, "obd_error_count"),
                           NumberOf(telemetry, "obd_success_count"), health.link, |rs|), |rs|)]
  }

  /** `max(findings, key=rank)`: the first finding of the highest rank. */
  function Worst(findings: seq<Finding>): (r: Condition)
    requires |findings| > 0
    ensures exists i :: 0 <= i < |findings| && findings[i].condition == r
    ensures forall i :: 0 <= i < |findings| ==> Rank(findings[i].condition) <= Rank(r)
  {
    if |findings| == 1 then findings[0].condition
    else
      var before, last := Worst(findings[..|findings| - 1]), findings[|findings| - 1].condition;
      assert forall i :: 0 <= i < |findings| - 1 ==> findings[..|findings| - 1][i] == findings[i];
      if Rank(last) > Rank(before) then last else before
  }

  function Actionable(findings: seq<Finding>): (r: nat)
    ensures r > 0 <==> exists i :: 0 <= i < |findings| && Rank(findings[i].condition) >= 2
  {
    if |findings| == 0 then 0
    else
      var n := |findings| - 1;
      assert forall i :: 0 <= i < n ==> findings[..n][i] == findings[i];
      Actionable(findings[..n]) + (if Rank(findings[n].condition) >= 2 then 1 else 0)
  }

  // The positions of the actionable findings.
  ghost function ActionableAt(findings: seq<Finding>): set<nat> {
    set i: nat | i < |findings| && Rank(findings[i].condition) >= 2
  }

  /** `actionable_systems` is how many of the findings rank OBSERVE or higher. */
  lemma {:induction false} ActionableCounts(findings: seq<Finding>)
    ensures Actionable(findings) == |ActionableAt(findings)|
  {
    if |findings| == 0 {
      assert ActionableAt(findings) == {};
    } else {
      var n := |findings| - 1;
      ActionableCounts(findings[..n]);
      assert ActionableAt(findings)
             == ActionableAt(findings[..n]) + if Rank(findings[n].condition) >= 2 then {n} else {};
    }
  }

  datatype MaintenanceReport = MaintenanceReport(overall: Condition, actionable: nat,
                                                 findings: seq<Finding>)

  function PredictiveMaintenance(rs: seq<Record>, telemetry: Fields, health: HealthReport)
    : MaintenanceReport
  {
    var findings := Findings(rs, telemetry, health);
    MaintenanceReport(Worst(findings), Actionable(findings), findings)
  }

  /** The maintenance route: merge, assess, then look for findings in the same telemetry. */
  function Route(rs: seq<Record>, now: int): (HealthReport, MaintenanceReport)
    requires |rs| > 0
  {
    var telemetry := Merged(rs);
    var health := HealthOf(rs[0], telemetry, now);
    (health, PredictiveMaintenance(rs, WithCleanDtcs(telemetry), health))
  }

  // ----- health alone -----

  lemma TotalZeroIff(ws: seq<Warning>)
    ensures Total(ws) == 0 <==> |ws| == 0
  {
  }

  /** The score is 100 exactly when there is no warning. */
  lemma PerfectScoreIff(latest: Record, telemetry: Fields, now: int)
    ensures var h := HealthOf(latest, telemetry, now);
            h.score == 100 <==> |h.warnings| == 0
  {
    TotalZeroIff(HealthOf(latest, telemetry, now).warnings);
  }

  // One group of rules carries at most one warning.
  function RulePenalty(rule: seq<Warning>): nat {
    if |rule| == 0 then 0 else Penalty(rule[0])
  }

  lemma TotalOfEight(a: seq<Warning>, b: seq<Warning>, c: seq<Warning>,
                     d: seq<Warning>, e: seq<Warning>, f: seq<Warning>,
                     g: seq<Warning>, h: seq<Warning>)
    requires |a| <= 1 && |b| <= 1 && |c| <= 1 && |d| <= 1
    requires |e| <= 1 && |f| <= 1 && |g| <= 1 && |h| <= 1
    ensures Total(a + b + c + d + e + f + g + h)
            == RulePenalty(a) + RulePenalty(b) + RulePenalty(c) + RulePenalty(d)
               + RulePenalty(e) + RulePenalty(f) + RulePenalty(g) + RulePenalty(h)
  {
    JoinRule([], a);
    assert [] + a == a;
    JoinRule(a, b);
    JoinRule(a + b, c);
    JoinRule(a + b + c, d);
    JoinRule(a + b + c + d, e);
    JoinRule(a + b + c + d + e, f);
    JoinRule(a + b + c + d + e + f, g);
    JoinRule(a + b + c + d + e + f + g, h);
  }

  lemma JoinRule(ws: seq<Warning>, rule: seq<Warning>)
    requires |rule| <= 1
    ensures Total(ws + rule) == Total(ws) + RulePenalty(rule)
  {
    if |rule| == 0 {
      assert ws + rule == ws;
    } else {
      assert rule == [rule[0]];
      TotalAppend(ws, rule[0]);
    }
  }

  // What the rules that may not fire cost when they do.
  lemma Costs(age: Option<nat>, v: Vitals, dtcs: nat)
    ensures RulePenalty(AgeRule(age)) == 0 <==> age.Some? && age.value <= 15
    ensures RulePenalty(AgeRule(age)) == 0 || RulePenalty(AgeRule(age)) >= 15
    ensures RulePenalty(CoolantRule(v)) == 0 <==> |CoolantRule(v)| == 0
    ensures RulePenalty(CoolantRule(v)) == 0 || RulePenalty(CoolantRule(v)) >= 15
    ensures RulePenalty(VoltageRule(v)) == 0 <==> |VoltageRule(v)| == 0
    ensures RulePenalty(VoltageRule(v)) == 0 || RulePenalty(VoltageRule(v)) >= 15
    ensures RulePenalty(DtcRule(dtcs)) == 0 <==> dtcs == 0
    ensures RulePenalty(DtcRule(dtcs)) == 0 || RulePenalty(DtcRule(dtcs)) >= 15
    ensures v.link == OfflineLink ==> RulePenalty(LinkRule(v.link)) >= 15
  {
  }

  // The points lost to low fuel, load, fuel trims and a stale link.
  function Minor(v: Vitals): nat {
    RulePenalty(FuelRule(v)) + RulePenalty(LoadRule(v)) + RulePenalty(TrimRule(v))
    + RulePenalty(LinkRule(v.link))
  }

  lemma AtMostTenIff(age: Option<nat>, v: Vitals, dtcs: nat)
    ensures Total(Warnings(age, v, dtcs)) <= 10 <==>
            (age.Some? && age.value <= 15 && dtcs == 0 && |CoolantRule(v)| == 0
             && |VoltageRule(v)| == 0 && v.link != OfflineLink && Minor(v) <= 10)
  {
    Costs(age, v, dtcs);
    TotalOfEight(AgeRule(age), CoolantRule(v), FuelRule(v), LoadRule(v), TrimRule(v),
                 VoltageRule(v), DtcRule(dtcs), LinkRule(v.link));
  }

  /** GOOD means data at most 15 s old, no trouble codes, no hot coolant, no abnormal charging
      voltage, no OFFLINE link, and at most 10 points lost on everything else. */
  lemma GoodIff(latest: Record, telemetry: Fields, now: int)
    ensures var h := HealthOf(latest, telemetry, now);
            var v := VitalsOf(telemetry);
            h.level == GOOD <==>
              (h.age.Some? && h.age.value <= 15 && |h.dtcs| == 0 && |CoolantRule(v)| == 0
               && |VoltageRule(v)| == 0 && v.link != OfflineLink && Minor(v) <= 10)
  {
    AgeOfHealth(latest, telemetry, now);
    AtMostTenIff(AgeSeconds(latest, now), VitalsOf(telemetry), |DtcCodes(telemetry)|);
  }

  lemma AgeOfHealth(latest: Record, telemetry: Fields, now: int)
    ensures var h := HealthOf(latest, telemetry, now);
            && h.age == AgeSeconds(latest, now)
            && h.dtcs == DtcCodes(telemetry)
            && h.warnings == Warnings(h.age, VitalsOf(telemetry), |h.dtcs|)
            && (h.level == GOOD <==> Total(h.warnings) <= 10)
  {
  }
}
