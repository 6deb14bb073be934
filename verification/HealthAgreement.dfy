/** Health warnings and maintenance findings come from separate statements of the same thresholds in
    aws-dashboard/backend/car_health_api/lambda_function.py.  Here they are compared on any list of
    records, as the maintenance route computes them. */
module HealthAgreement {
  import opened Options
  import opened Records
  import opened Health
  import opened Maintenance

  // ----- filtering the code lists leaves the vitals alone -----

  predicate NotDtcKey(name: string) {
    |name| > 0 && name[0] != 'p' && (name[0] != 's' || |name| != 10)
  }

  lemma DtcKeys(name: string)
    requires NotDtcKey(name)
    ensures name != "stored_dtc" && name != "pending_dtc" && name != "permanent_dtc"
  {
    assert "stored_dtc"[0] == 's' && |"stored_dtc"| == 10;
    assert "pending_dtc"[0] == 'p' && "permanent_dtc"[0] == 'p';
  }

  lemma FieldUnchanged(telemetry: Fields, name: string)
    requires NotDtcKey(name)
    ensures name in WithCleanDtcs(telemetry) <==> name in telemetry
    ensures Lookup(WithCleanDtcs(telemetry), name) == Lookup(telemetry, name)
  {
    DtcKeys(name);
    PutThree(telemetry, name, "stored_dtc", "pending_dtc", "permanent_dtc",
             List(CleanedField(telemetry, "stored_dtc")), List(CleanedField(telemetry, "pending_dtc")),
             List(CleanedField(telemetry, "permanent_dtc")));
  }

  lemma PutThree(m: Fields, name: string, a: string, b: string, c: string,
                 x: Value, y: Value, z: Value)
    requires name != a && name != b && name != c
    ensures name in m[a := x][b := y][c := z] <==> name in m
    ensures Lookup(m[a := x][b := y][c := z], name) == Lookup(m, name)
  {
  }

  lemma VitalsUnchanged(telemetry: Fields)
    ensures VitalsOf(WithCleanDtcs(telemetry)) == VitalsOf(telemetry)
  {
    FieldUnchanged(telemetry, "coolant_c");
    FieldUnchanged(telemetry, "fuel_level_pct");
    FieldUnchanged(telemetry, "engine_load_pct");
    FieldUnchanged(telemetry, "short_fuel_trim_b1_pct");
    FieldUnchanged(telemetry, "long_fuel_trim_b1_pct");
    FieldUnchanged(telemetry, "control_module_voltage_v");
    FieldUnchanged(telemetry, "engine_rpm");
    FieldUnchanged(telemetry, "vehicle_link_state");
  }

  // ----- which warnings are raised -----

  lemma InEight(w: Warning, a: seq<Warning>, b: seq<Warning>, c: seq<Warning>,
                d: seq<Warning>, e: seq<Warning>, f: seq<Warning>,
                g: seq<Warning>, h: seq<Warning>)
    ensures w in a + b + c + d + e + f + g + h <==>
            w in a || w in b || w in c || w in d || w in e || w in f || w in g || w in h
  {
  }

  lemma Raised(age: Option<nat>, v: Vitals, dtcs: nat, w: Warning)
    ensures w in Warnings(age, v, dtcs) <==>
            (w in AgeRule(age) || w in CoolantRule(v) || w in FuelRule(v) || w in LoadRule(v)
             || w in TrimRule(v) || w in VoltageRule(v) || w in DtcRule(dtcs)
             || w in LinkRule(v.link))
  {
    InEight(w, AgeRule(age), CoolantRule(v), FuelRule(v), LoadRule(v), TrimRule(v),
            VoltageRule(v), DtcRule(dtcs), LinkRule(v.link));
  }

  lemma TrimRaised(age: Option<nat>, v: Vitals, dtcs: nat, samples: nat)
    ensures (LongTrim in Warnings(age, v, dtcs) || CombinedTrim in Warnings(age, v, dtcs)) <==>
              FuelAirCondition(v.shortTrim, v.longTrim, samples) == SERVICE_SOON
  {
    Raised(age, v, dtcs, LongTrim);
    Raised(age, v, dtcs, CombinedTrim);
  }

  lemma CoolantRaised(age: Option<nat>, v: Vitals, dtcs: nat,
                      series: seq<(int, real)>)
    ensures CoolantCritical in Warnings(age, v, dtcs) <==>
              CoolingCondition(v.coolant, series) == INSPECT_NOW
    ensures CoolantHigh in Warnings(age, v, dtcs) ==> Rank(CoolingCondition(v.coolant, series)) >= 2
  {
    Raised(age, v, dtcs, CoolantCritical);
    Raised(age, v, dtcs, CoolantHigh);
  }

  lemma VoltageRaised(age: Option<nat>, v: Vitals, dtcs: nat,
                      series: seq<(int, real)>)
    ensures Rank(ChargingCondition(v.voltage, v.rpm, series)) >= 2 <==>
              (VoltageLow in Warnings(age, v, dtcs) || VoltageHigh in Warnings(age, v, dtcs)
               || (Running(v) && CountOutside(series, Some(12.5), 15.2) >= 3))
  {
    Raised(age, v, dtcs, VoltageLow);
    Raised(age, v, dtcs, VoltageHigh);
  }

  lemma DtcsRaised(age: Option<nat>, v: Vitals, dtcs: nat)
    ensures DtcsPresent(dtcs) in Warnings(age, v, dtcs) <==> Rank(DiagnosticsCondition(dtcs)) >= 3
  {
    Raised(age, v, dtcs, DtcsPresent(dtcs));
  }

  // With no actionable system the warnings left are about data age, fuel level and engine load.
  lemma QuietRaised(age: Option<nat>, v: Vitals, dtcs: nat, w: Warning,
                    e: Option<real>, s: Option<real>, n: nat)
    requires w in Warnings(age, v, dtcs)
    requires |TrimRule(v)| == 0 && |CoolantRule(v)| == 0 && |VoltageRule(v)| == 0 && dtcs == 0
    requires Rank(DataCondition(e, s, ReportedLink(age, v.link), n)) < 2
    ensures w == NoTimestamp || w == FuelCritical || w == FuelLow || w == LoadHigh
            || (v.link == OtherLink && (w == TelemetryStale || w == NoTelemetry))
  {
    Raised(age, v, dtcs, w);
  }

  // The two reports of the route in terms of the vitals.
  lemma RouteParts(rs: seq<Record>, now: int)
    requires |rs| > 0
    ensures var (h, m) := Route(rs, now);
            var v := VitalsOf(Merged(rs));
            && h.warnings == Warnings(h.age, v, |h.dtcs|)
            && h.link == ReportedLink(h.age, v.link)
            && h.status == StatusOf(h.age, v.link)
            && m.findings[0].condition == CoolingCondition(v.coolant, Series(rs, "coolant_c"))
            && m.findings[1].condition
               == ChargingCondition(v.voltage, v.rpm, Series(rs, "control_module_voltage_v"))
            && m.findings[2].condition
               == FuelAirCondition(v.shortTrim, v.longTrim, m.findings[2].samples)
            && m.findings[3].condition == DiagnosticsCondition(|h.dtcs|)
            && (exists e, s :: m.findings[4].condition == DataCondition(e, s, h.link, |rs|))
  {
    VitalsUnchanged(Merged(rs));
    AgeOfHealth(rs[0], Merged(rs), now);
    FindingsParts(rs, WithCleanDtcs(Merged(rs)), HealthOf(rs[0], Merged(rs), now));
  }

  lemma {:induction false} FindingsParts(rs: seq<Record>, telemetry: Fields, h: HealthReport)
    ensures var f := PredictiveMaintenance(rs, telemetry, h).findings;
            var v := VitalsOf(telemetry);
            && f[0].condition == CoolingCondition(v.coolant, Series(rs, "coolant_c"))
            && f[1].condition
               == ChargingCondition(v.voltage, v.rpm, Series(rs, "control_module_voltage_v"))
            && f[2].condition == FuelAirCondition(v.shortTrim, v.longTrim, f[2].samples)
            && f[3].condition == DiagnosticsCondition(|h.dtcs|)
            && (exists e, s :: f[4].condition == DataCondition(e, s, h.link, |rs|))
  {
    var f := Findings(rs, telemetry, h);
    assert f[4].condition == DataCondition(NumberOf(telemetry, "obd_error_count"),
                                           NumberOf(telemetry, "obd_success_count"), h.link, |rs|);
  }

  // ----- agreement -----

  /** A fuel-trim warning is raised exactly when the fuel and air finding is SERVICE_SOON. */
  lemma TrimAgrees(rs: seq<Record>, now: int)
    requires |rs| > 0
    ensures var (h, m) := Route(rs, now);
            (LongTrim in h.warnings || CombinedTrim in h.warnings) <==>
              m.findings[2].condition == SERVICE_SOON
  {
    var (h, m) := Route(rs, now);
    RouteParts(rs, now);
    TrimRaised(h.age, VitalsOf(Merged(rs)), |h.dtcs|, m.findings[2].samples);
  }

  /** A critical coolant warning is raised exactly when cooling is INSPECT_NOW, and a high coolant
      warning only when cooling is at least OBSERVE. */
  lemma CoolantAgrees(rs: seq<Record>, now: int)
    requires |rs| > 0
    ensures var (h, m) := Route(rs, now);
            && (CoolantCritical in h.warnings <==> m.findings[0].condition == INSPECT_NOW)
            && (CoolantHigh in h.warnings ==> Rank(m.findings[0].condition) >= 2)
  {
    var (h, m) := Route(rs, now);
    RouteParts(rs, now);
    CoolantRaised(h.age, VitalsOf(Merged(rs)), |h.dtcs|, Series(rs, "coolant_c"));
  }

  /** Charging is at least OBSERVE exactly when a voltage warning is raised, or the engine runs and
      three samples were out of range. */
  lemma ChargingAgrees(rs: seq<Record>, now: int)
    requires |rs| > 0
    ensures var (h, m) := Route(rs, now);
            Rank(m.findings[1].condition) >= 2 <==>
              (VoltageLow in h.warnings || VoltageHigh in h.warnings
               || (Running(VitalsOf(Merged(rs)))
                   && CountOutside(Series(rs, "control_module_voltage_v"), Some(12.5), 15.2) >= 3))
  {
    var (h, m) := Route(rs, now);
    RouteParts(rs, now);
    VoltageRaised(h.age, VitalsOf(Merged(rs)), |h.dtcs|, Series(rs, "control_module_voltage_v"));
  }

  /** Trouble codes cost points exactly when diagnostics is at least SERVICE_SOON. */
  lemma DtcAgrees(rs: seq<Record>, now: int)
    requires |rs| > 0
    ensures var (h, m) := Route(rs, now);
            DtcsPresent(|h.dtcs|) in h.warnings <==> Rank(m.findings[3].condition) >= 3
  {
    var (h, m) := Route(rs, now);
    RouteParts(rs, now);
    DtcsRaised(h.age, VitalsOf(Merged(rs)), |h.dtcs|);
  }

  lemma DataOfflineIff(age: Option<nat>, link: Link, e: Option<real>,
                       s: Option<real>, n: nat)
    ensures DataCondition(e, s, ReportedLink(age, link), n) == INSPECT_NOW <==>
              (link == OfflineLink || (link == NoLink && age.Some? && age.value > 60))
  {
  }

  /** Data quality is INSPECT_NOW exactly when the vehicle reports OFFLINE, or reports no link state
      while the newest record is more than 60 s old. */
  lemma DataQualityOfflineIff(rs: seq<Record>, now: int)
    requires |rs| > 0
    ensures var (h, m) := Route(rs, now);
            var link := VitalsOf(Merged(rs)).link;
            m.findings[4].condition == INSPECT_NOW <==>
              (link == OfflineLink || (link == NoLink && h.age.Some? && h.age.value > 60))
  {
    var (h, m) := Route(rs, now);
    RouteParts(rs, now);
    var e, s :| m.findings[4].condition == DataCondition(e, s, h.link, |rs|);
    DataOfflineIff(h.age, VitalsOf(Merged(rs)).link, e, s, |rs|);
  }

  /** Status and data quality disagree about OFFLINE exactly when old records carry a link state that
      is neither OFFLINE nor STALE. */
  lemma {:induction false} OfflineDisagreement(rs: seq<Record>, now: int)
    requires |rs| > 0
    ensures var (h, m) := Route(rs, now);
            (h.status == OFFLINE && m.findings[4].condition != INSPECT_NOW) <==>
              (h.age.Some? && h.age.value > 60 && VitalsOf(Merged(rs)).link == OtherLink)
  {
    RouteParts(rs, now);
    DataQualityOfflineIff(rs, now);
  }

  /** More than one request in ten failed, of at least 20. */
  predicate ManyErrors(errors: Option<real>, successes: Option<real>) {
    var e := if errors.Some? then errors.value else 0.0;
    var total := e + (if successes.Some? then successes.value else 0.0);
    total >= 20.0 && e / total > 0.10
  }

  lemma StaleDiffersIff(age: Option<nat>, link: Link, e: Option<real>,
                        s: Option<real>, n: nat)
    ensures (StatusOf(age, link) == STALE && Rank(DataCondition(e, s, ReportedLink(age, link), n)) < 3)
            <==> (age.Some? && 15 < age.value <= 60 && link == OtherLink && !ManyErrors(e, s))
  {
  }

  lemma OnlineDiffersIff(age: Option<nat>, link: Link, e: Option<real>,
                         s: Option<real>, n: nat)
    ensures ((StatusOf(age, link) == ONLINE || StatusOf(age, link) == UNKNOWN)
             && Rank(DataCondition(e, s, ReportedLink(age, link), n)) >= 3)
            <==> ((age.None? || age.value <= 15) && link != StaleLink && link != OfflineLink
                  && ManyErrors(e, s))
  {
  }

  // The request counters of the telemetry.
  function Errors(telemetry: Fields): Option<real> {
    NumberOf(telemetry, "obd_error_count")
  }

  function Successes(telemetry: Fields): Option<real> {
    NumberOf(telemetry, "obd_success_count")
  }

  lemma CountersUnchanged(telemetry: Fields)
    ensures Errors(WithCleanDtcs(telemetry)) == Errors(telemetry)
    ensures Successes(WithCleanDtcs(telemetry)) == Successes(telemetry)
  {
    assert "obd_error_count"[0] == 'o' && "obd_success_count"[0] == 'o';
    FieldUnchanged(telemetry, "obd_error_count");
    FieldUnchanged(telemetry, "obd_success_count");
  }

  lemma DataPart(rs: seq<Record>, now: int)
    requires |rs| > 0
    ensures var (h, m) := Route(rs, now);
            m.findings[4].condition
            == DataCondition(Errors(Merged(rs)), Successes(Merged(rs)), h.link, |rs|)
  {
    CountersUnchanged(Merged(rs));
    DataFinding(rs, WithCleanDtcs(Merged(rs)), HealthOf(rs[0], Merged(rs), now));
  }

  lemma DataFinding(rs: seq<Record>, telemetry: Fields, h: HealthReport)
    ensures PredictiveMaintenance(rs, telemetry, h).findings[4].condition
            == DataCondition(Errors(telemetry), Successes(telemetry), h.link, |rs|)
  {
  }

  /** Status and data quality disagree about STALE exactly when records of 16 to 60 s carry a link state
      that is neither OFFLINE nor STALE, and the error rate is not high. */
  lemma StaleDisagreement(rs: seq<Record>, now: int)
    requires |rs| > 0
    ensures var (h, m) := Route(rs, now);
            (h.status == STALE && Rank(m.findings[4].condition) < 3) <==>
              (h.age.Some? && 15 < h.age.value <= 60 && VitalsOf(Merged(rs)).link == OtherLink
               && !ManyErrors(Errors(Merged(rs)), Successes(Merged(rs))))
  {
    var (h, m) := Route(rs, now);
    RouteParts(rs, now);
    DataPart(rs, now);
    StaleDiffersIff(h.age, VitalsOf(Merged(rs)).link, Errors(Merged(rs)), Successes(Merged(rs)), |rs|);
  }

  /** And the other way round: data quality asks for service although the status is neither STALE nor
      OFFLINE exactly when the error rate is high on fresh or undated records. */
  lemma ErrorsUnseen(rs: seq<Record>, now: int)
    requires |rs| > 0
    ensures var (h, m) := Route(rs, now);
            var link := VitalsOf(Merged(rs)).link;
            ((h.status == ONLINE || h.status == UNKNOWN) && Rank(m.findings[4].condition) >= 3) <==>
              ((h.age.None? || h.age.value <= 15) && link != StaleLink && link != OfflineLink
               && ManyErrors(Errors(Merged(rs)), Successes(Merged(rs))))
  {
    var (h, m) := Route(rs, now);
    RouteParts(rs, now);
    DataPart(rs, now);
    OnlineDiffersIff(h.age, VitalsOf(Merged(rs)).link, Errors(Merged(rs)), Successes(Merged(rs)), |rs|);
  }

  /** The overall condition is at least OBSERVE exactly when some system is actionable, and it is the
      highest of the five. */
  lemma OverallAgrees(rs: seq<Record>, now: int)
    requires |rs| > 0
    ensures var (h, m) := Route(rs, now);
            && (Rank(m.overall) >= 2 <==> m.actionable > 0)
            && (forall i :: 0 <= i < 5 ==> Rank(m.findings[i].condition) <= Rank(m.overall))
  {
  }

  lemma NoneActionable(findings: seq<Finding>)
    requires |findings| == 5 && Actionable(findings) == 0
    ensures Rank(findings[0].condition) < 2 && Rank(findings[1].condition) < 2
    ensures Rank(findings[2].condition) < 2 && Rank(findings[3].condition) < 2
    ensures Rank(findings[4].condition) < 2
  {
  }

  lemma QuietRules(v: Vitals, dtcs: nat, coolant: seq<(int, real)>,
                   voltage: seq<(int, real)>, samples: nat)
    requires Rank(CoolingCondition(v.coolant, coolant)) < 2
    requires Rank(ChargingCondition(v.voltage, v.rpm, voltage)) < 2
    requires Rank(FuelAirCondition(v.shortTrim, v.longTrim, samples)) < 2
    requires Rank(DiagnosticsCondition(dtcs)) < 2
    ensures |TrimRule(v)| == 0 && |CoolantRule(v)| == 0 && |VoltageRule(v)| == 0 && dtcs == 0
  {
  }

  /** When maintenance finds nothing actionable, the only warnings are a missing timestamp, fuel
      level, engine load, and the age of records that carry some link state of their own. */
  lemma QuietMaintenance(rs: seq<Record>, now: int, w: Warning)
    requires |rs| > 0
    ensures var (h, m) := Route(rs, now);
            m.actionable == 0 && w in h.warnings ==>
              w == NoTimestamp || w == FuelCritical || w == FuelLow || w == LoadHigh
              || (VitalsOf(Merged(rs)).link == OtherLink && (w == TelemetryStale || w == NoTelemetry))
  {
    var (h, m) := Route(rs, now);
    var v := VitalsOf(Merged(rs));
    RouteParts(rs, now);
    if m.actionable == 0 && w in h.warnings {
      NoneActionable(m.findings);
      QuietRules(v, |h.dtcs|, Series(rs, "coolant_c"), Series(rs, "control_module_voltage_v"),
                 m.findings[2].samples);
      var e, s :| m.findings[4].condition == DataCondition(e, s, h.link, |rs|);
      QuietRaised(h.age, v, |h.dtcs|, w, e, s, |rs|);
    }
  }
}
