/** `_health`, `_series` and `_predictive_maintenance` of
    aws-dashboard/backend/car_health_api/lambda_function.py.  The two rule sets state their
    thresholds separately; `HealthAgreement` compares them. */
module Health {
  import opened Options
  import opened Records
  import opened Text
  import Dtc

  // ----- what the rules look at -----

  /** The link state a vehicle reports; `NoLink` is an empty or missing text. */
  datatype Link = NoLink | StaleLink | OfflineLink | OtherLink

  // `str(value)`; numbers and lists have texts that no rule asks for.
  function ShownAs(v: Value): string {
    match v
    case Words(chars, _) => chars
    case Null => "None"
    case Flag(b) => if b then "True" else "False"
    case _ => "#"
  }

  function ParseLink(text: string): Link {
    if |text| == 0 then NoLink
    else if text == "STALE" then StaleLink
    else if text == "OFFLINE" then OfflineLink
    else OtherLink
  }

  function LinkOf(telemetry: Fields): Link {
    if "vehicle_link_state" in telemetry
    then ParseLink(Upper(ShownAs(telemetry["vehicle_link_state"]))) else NoLink
  }

  datatype Vitals = Vitals(coolant: Option<real>, fuelLevel: Option<real>, load: Option<real>,
                           shortTrim: Option<real>, longTrim: Option<real>,
                           voltage: Option<real>, rpm: Option<real>, link: Link)

  function NumberOf(telemetry: Fields, name: string): Option<real> {
    Number(Lookup(telemetry, name))
  }

  function VitalsOf(telemetry: Fields): Vitals {
    Vitals(NumberOf(telemetry, "coolant_c"), NumberOf(telemetry, "fuel_level_pct"),
           NumberOf(telemetry, "engine_load_pct"), NumberOf(telemetry, "short_fuel_trim_b1_pct"),
           NumberOf(telemetry, "long_fuel_trim_b1_pct"),
           NumberOf(telemetry, "control_module_voltage_v"), NumberOf(telemetry, "engine_rpm"),
           LinkOf(telemetry))
  }

  function Abs(x: real): real {
    if x < 0.0 then -x else x
  }

  predicate Running(v: Vitals) {
    v.rpm.Some? && v.rpm.value > 400.0
  }

  // ----- _health -----

  datatype Status = ONLINE | UNKNOWN | STALE | OFFLINE
  datatype Level = GOOD | WARNING | DEGRADED | CRITICAL

  datatype Warning =
    | NoTimestamp | NoTelemetry | TelemetryStale
    | CoolantCritical | CoolantHigh | FuelCritical | FuelLow | LoadHigh
    | LongTrim | CombinedTrim | VoltageLow | VoltageHigh
    | DtcsPresent(count: nat) | LinkOffline | LinkStale

  datatype HealthReport = HealthReport(status: Status, score: int, level: Level, age: Option<nat>,
                                       warnings: seq<Warning>, dtcs: seq<string>, link: Link)

  function AgeSeconds(latest: Record, now: int): Option<nat> {
    var ms := ReceivedMs(latest);
    if ms == 0 then None else Some(if now - ms < 0 then 0 else (now - ms) / 1000)
  }

  function Penalty(w: Warning): (r: int)
    ensures r > 0
  {
    match w
    case NoTimestamp => 30
    case NoTelemetry => 40
    case TelemetryStale => 15
    case CoolantCritical => 30
    case CoolantHigh => 15
    case FuelCritical => 20
    case FuelLow => 10
    case LoadHigh => 5
    case LongTrim => 10
    case CombinedTrim => 5
    case VoltageLow => 20
    case VoltageHigh => 15
    case DtcsPresent(n) => if 10 + n * 5 < 35 then 10 + n * 5 else 35
    case LinkOffline => 25
    case LinkStale => 10
  }

  /** `list(dict.fromkeys(codes))` */
  function Unique(codes: seq<string>): seq<string> {
    if |codes| == 0 then []
    else
      var before, c := Unique(codes[..|codes| - 1]), codes[|codes| - 1];
      if c in before then before else before + [c]
  }

  function CleanedField(telemetry: Fields, key: string): seq<string> {
    Dtc.CleanedValue(Lookup(telemetry, key))
  }

  function DtcCodes(telemetry: Fields): seq<string> {
    Unique(CleanedField(telemetry, "stored_dtc") + CleanedField(telemetry, "pending_dtc")
           + CleanedField(telemetry, "permanent_dtc"))
  }

  /** The telemetry with its three code lists filtered in place. */
  function WithCleanDtcs(telemetry: Fields): Fields {
    telemetry["stored_dtc" := List(CleanedField(telemetry, "stored_dtc"))]
             ["pending_dtc" := List(CleanedField(telemetry, "pending_dtc"))]
             ["permanent_dtc" := List(CleanedField(telemetry, "permanent_dtc"))]
  }

  // The warning, if any, of each group of rules.

  function AgeRule(age: Option<nat>): seq<Warning> {
    if age.None? then [NoTimestamp]
    else if age.value > 60 then [NoTelemetry]
    else if age.value > 15 then [TelemetryStale]
    else []
  }

  function CoolantRule(v: Vitals): seq<Warning> {
    if v.coolant.None? then []
    else if v.coolant.value > 115.0 then [CoolantCritical]
    else if v.coolant.value > 105.0 then [CoolantHigh]
    else []
  }

  function FuelRule(v: Vitals): seq<Warning> {
    if v.fuelLevel.None? then []
    else if v.fuelLevel.value < 10.0 then [FuelCritical]
    else if v.fuelLevel.value < 20.0 then [FuelLow]
    else []
  }

  function LoadRule(v: Vitals): seq<Warning> {
    if v.load.Some? && v.load.value > 85.0 then [LoadHigh] else []
  }

  function TrimRule(v: Vitals): seq<Warning> {
    if v.longTrim.Some? && Abs(v.longTrim.value) > 25.0 then [LongTrim]
    else if v.shortTrim.Some? && v.longTrim.Some?
            && Abs(v.shortTrim.value + v.longTrim.value) > 25.0 then [CombinedTrim]
    else []
  }

  function VoltageRule(v: Vitals): seq<Warning> {
    if v.voltage.None? || !Running(v) then []
    else if v.voltage.value < 12.5 then [VoltageLow]
    else if v.voltage.value > 15.2 then [VoltageHigh]
    else []
  }

  function DtcRule(count: nat): seq<Warning> {
    if count > 0 then [DtcsPresent(count)] else []
  }

  function LinkRule(link: Link): seq<Warning> {
    if link == OfflineLink then [LinkOffline] else if link == StaleLink then [LinkStale] else []
  }

  function Warnings(age: Option<nat>, v: Vitals, dtcs: nat): seq<Warning> {
    AgeRule(age) + CoolantRule(v) + FuelRule(v) + LoadRule(v) + TrimRule(v) + VoltageRule(v)
    + DtcRule(dtcs) + LinkRule(v.link)
  }

  function Total(ws: seq<Warning>): (r: nat) {
    if |ws| == 0 then 0 else Total(ws[..|ws| - 1]) + Penalty(ws[|ws| - 1])
  }

  function Clamp(score: int): int {
    if score < 0 then 0 else if score > 100 then 100 else score
  }

  function LevelOf(score: int): Level {
    if score >= 90 then GOOD else if score >= 70 then WARNING else if score >= 40 then DEGRADED
    else CRITICAL
  }

  function AgeStatus(age: Option<nat>): Status {
    if age.None? then UNKNOWN else if age.value > 60 then OFFLINE
    else if age.value > 15 then STALE else ONLINE
  }

  function StatusOf(age: Option<nat>, link: Link): Status {
    if link == StaleLink then STALE else if link == OfflineLink then OFFLINE else AgeStatus(age)
  }

  // `link_state or status`
  function ReportedLink(age: Option<nat>, link: Link): Link {
    if link != NoLink then link
    else
      match AgeStatus(age)
      case STALE => StaleLink
      case OFFLINE => OfflineLink
      case _ => OtherLink
  }

  function HealthOf(latest: Record, telemetry: Fields, now: int): HealthReport {
    var age := AgeSeconds(latest, now);
    var v := VitalsOf(telemetry);
    var dtcs := DtcCodes(telemetry);
    var warnings := Warnings(age, v, |dtcs|);
    var score := Clamp(100 - Total(warnings));
    HealthReport(StatusOf(age, v.link), score, LevelOf(score), age, warnings, dtcs,
                 ReportedLink(age, v.link))
  }

  lemma TotalAppend(ws: seq<Warning>, w: Warning)
    ensures Total(ws + [w]) == Total(ws) + Penalty(w)
  {
    assert (ws + [w])[..|ws|] == ws;
  }

  // `score -= penalty; warnings.append(w)` for the outcome of one group of rules.
  lemma Charge(score: int, ws: seq<Warning>, rule: seq<Warning>)
    requires score == 100 - Total(ws) && |rule| <= 1
    ensures |rule| == 1 ==> ws + rule == ws + [rule[0]]
                            && score - Penalty(rule[0]) == 100 - Total(ws + [rule[0]])
    ensures |rule| == 0 ==> ws + rule == ws
  {
    if |rule| == 1 {
      assert rule == [rule[0]];
      TotalAppend(ws, rule[0]);
    }
  }

  method HealthMethod(latest: Record, telemetry: Fields, now: int)
    returns (report: HealthReport, telemetry': Fields)
    ensures report == HealthOf(latest, telemetry, now)
    ensures telemetry' == WithCleanDtcs(telemetry)
  {
    var age := AgeSeconds(latest, now);
    var v := VitalsOf(telemetry);
    var score, status, warnings := AgeRules(age);
    score, warnings := FluidRules(v, score, warnings);
    score, warnings := TrimAndVoltageRules(v, score, warnings);
    var dtcs: seq<string>;
    telemetry', dtcs := CleanDtcs(telemetry);
    score, warnings := DtcRules(|dtcs|, score, warnings);
    score, status, warnings := LinkRules(v.link, score, status, warnings);
    score := if score > 100 then 100 else score;
    score := if score < 0 then 0 else score;
    report := HealthReport(status, score, LevelOf(score), age, warnings, dtcs,
                           ReportedLink(age, v.link));
  }

  method AgeRules(age: Option<nat>) returns (score: int, status: Status, warnings: seq<Warning>)
    ensures warnings == AgeRule(age) && score == 100 - Total(warnings) && status == AgeStatus(age)
  {
    score, status, warnings := 100, ONLINE, [];
    Charge(score, warnings, AgeRule(age));
    if age.None? {
      score := score - 30;
      status := UNKNOWN;
      warnings := warnings + [NoTimestamp];
    } else if age.value > 60 {
      score := score - 40;
      status := OFFLINE;
      warnings := warnings + [NoTelemetry];
    } else if age.value > 15 {
      score := score - 15;
      status := STALE;
      warnings := warnings + [TelemetryStale];
    }
    assert [] + AgeRule(age) == AgeRule(age);
  }

  method FluidRules(v: Vitals, score: int, warnings: seq<Warning>)
    returns (score': int, warnings': seq<Warning>)
    requires score == 100 - Total(warnings)
    ensures score' == 100 - Total(warnings')
    ensures warnings' == warnings + CoolantRule(v) + FuelRule(v) + LoadRule(v)
  {
    score', warnings' := score, warnings;
    Charge(score', warnings', CoolantRule(v));
    if v.coolant.Some? {
      if v.coolant.value > 115.0 {
        score' := score' - 30;
        warnings' := warnings' + [CoolantCritical];
      } else if v.coolant.value > 105.0 {
        score' := score' - 15;
        warnings' := warnings' + [CoolantHigh];
      }
    }
    Charge(score', warnings', FuelRule(v));
    if v.fuelLevel.Some? {
      if v.fuelLevel.value < 10.0 {
        score' := score' - 20;
        warnings' := warnings' + [FuelCritical];
      } else if v.fuelLevel.value < 20.0 {
        score' := score' - 10;
        warnings' := warnings' + [FuelLow];
      }
    }
    Charge(score', warnings', LoadRule(v));
    if v.load.Some? && v.load.value > 85.0 {
      score' := score' - 5;
      warnings' := warnings' + [LoadHigh];
    }
  }

  method TrimAndVoltageRules(v: Vitals, score: int, warnings: seq<Warning>)
    returns (score': int, warnings': seq<Warning>)
    requires score == 100 - Total(warnings)
    ensures score' == 100 - Total(warnings')
    ensures warnings' == warnings + TrimRule(v) + VoltageRule(v)
  {
    score', warnings' := score, warnings;
    Charge(score', warnings', TrimRule(v));
    if v.longTrim.Some? && Abs(v.longTrim.value) > 25.0 {
      score' := score' - 10;
      warnings' := warnings' + [LongTrim];
    } else if v.shortTrim.Some? && v.longTrim.Some?
              && Abs(v.shortTrim.value + v.longTrim.value) > 25.0 {
      score' := score' - 5;
      warnings' := warnings' + [CombinedTrim];
    }
    Charge(score', warnings', VoltageRule(v));
    if v.voltage.Some? && v.rpm.Some? && v.rpm.value > 400.0 {
      if v.voltage.value < 12.5 {
        score' := score' - 20;
        warnings' := warnings' + [VoltageLow];
      } else if v.voltage.value > 15.2 {
        score' := score' - 15;
        warnings' := warnings' + [VoltageHigh];
      }
    }
  }

  method DtcRules(dtcs: nat, score: int, warnings: seq<Warning>)
    returns (score': int, warnings': seq<Warning>)
    requires score == 100 - Total(warnings)
    ensures score' == 100 - Total(warnings')
    ensures warnings' == warnings + DtcRule(dtcs)
  {
    score', warnings' := score, warnings;
    Charge(score', warnings', DtcRule(dtcs));
    if dtcs > 0 {
      score' := score' - (if 10 + dtcs * 5 < 35 then 10 + dtcs * 5 else 35);
      warnings' := warnings' + [DtcsPresent(dtcs)];
    }
  }

  method LinkRules(link: Link, score: int, status: Status, warnings: seq<Warning>)
    returns (score': int, status': Status, warnings': seq<Warning>)
    requires score == 100 - Total(warnings)
    ensures score' == 100 - Total(warnings')
    ensures warnings' == warnings + LinkRule(link)
    ensures status' == if link == StaleLink then STALE else if link == OfflineLink then OFFLINE
                       else status
  {
    score', status', warnings' := score, status, warnings;
    Charge(score', warnings', LinkRule(link));
    if link == StaleLink || link == OfflineLink {
      status' := if link == StaleLink then STALE else OFFLINE;
      score' := score' - (if link == OfflineLink then 25 else 10);
      warnings' := warnings' + [if link == OfflineLink then LinkOffline else LinkStale];
    }
  }

  method CleanDtcs(telemetry: Fields) returns (telemetry': Fields, dtcs: seq<string>)
    ensures telemetry' == WithCleanDtcs(telemetry)
    ensures dtcs == DtcCodes(telemetry)
  {
    telemetry' := telemetry;
    var all: seq<string> := [];
    KeysDiffer();
    var cleaned := Dtc.ValidDtcCodes(Lookup(telemetry', "stored_dtc"));
    telemetry' := telemetry'["stored_dtc" := List(cleaned)];
    all := cleaned;
    cleaned := Dtc.ValidDtcCodes(Lookup(telemetry', "pending_dtc"));
    telemetry' := telemetry'["pending_dtc" := List(cleaned)];
    all := all + cleaned;
    cleaned := Dtc.ValidDtcCodes(Lookup(telemetry', "permanent_dtc"));
    telemetry' := telemetry'["permanent_dtc" := List(cleaned)];
    all := all + cleaned;
    dtcs := KeepFirst(all);
  }

  method KeepFirst(codes: seq<string>) returns (r: seq<string>)
    ensures r == Unique(codes)
  {
    r := [];
    for i := 0 to |codes|
      invariant r == Unique(codes[..i])
    {
      assert codes[..i + 1][..i] == codes[..i];
      if codes[i] !in r {
        r := r + [codes[i]];
      }
    }
    assert codes[..|codes|] == codes;
  }

  lemma KeysDiffer()
    ensures "stored_dtc" != "pending_dtc" && "stored_dtc" != "permanent_dtc"
    ensures "pending_dtc" != "permanent_dtc"
  {
    assert |"stored_dtc"| == 10 && |"pending_dtc"| == 11 && |"permanent_dtc"| == 13;
  }
}
