/** Stored telemetry records as the cloud API sees them, and `_merge`:
    aws-dashboard/backend/car_health_api/lambda_function.py. */
module Records {
  import opened Options

  /** A decoded JSON value.  `asFloat` is what `float()` makes of a text. */
  datatype Value =
    | Num(x: real)
    | Flag(b: bool)
    | Words(chars: string, asFloat: Option<real>)
    | List(items: seq<string>)
    | Null

  /** `data` is the result of `_data`; `receivedAt` is None when `int()` rejects the field. */
  datatype Record = Record(receivedAt: Option<int>, dataClass: string, data: map<string, Value>)

  type Fields = map<string, Value>

  /** `_received_ms`: 0 stands for "unknown", and seconds are scaled to milliseconds. */
  function ReceivedMs(r: Record): int {
    var value := if r.receivedAt.Some? then r.receivedAt.value else 0;
    if 0 < value < 100000000000 then value * 1000 else value
  }

  /** The same moment in seconds and in milliseconds is the same time exactly for moments between 1973 and
      5138: below, the milliseconds are taken for seconds, and above, the seconds for milliseconds. */
  lemma SecondsAndMillis(r: Record, s: Record, t: int)
    requires t > 0 && r.receivedAt == Some(t) && s.receivedAt == Some(1000 * t)
    ensures ReceivedMs(r) == ReceivedMs(s) <==> 100000000 <= t < 100000000000
    ensures 100000000 <= t < 100000000000 ==> ReceivedMs(r) == 1000 * t
  {
  }

  /** `_finite` */
  function Finite(v: Value): Option<real> {
    match v
    case Num(x) => Some(x)
    case Flag(b) => Some(if b then 1.0 else 0.0)
    case Words(_, f) => f
    case _ => None
  }

  /** `_number`, and the `isinstance(value, (int, float))` guards: a text is not a number. */
  function Number(v: Value): Option<real> {
    match v
    case Num(x) => Some(x)
    case Flag(b) => Some(if b then 1.0 else 0.0)
    case _ => None
  }

  function Lookup(m: Fields, name: string): Value {
    if name in m then m[name] else Null
  }

  // ----- _merge -----

  /** The fields of `rs`, newest record first: a newer value is never overwritten. */
  function Merged(rs: seq<Record>): Fields {
    if |rs| == 0 then map[] else rs[|rs| - 1].data + Merged(rs[..|rs| - 1])
  }

  function LatestByClass(rs: seq<Record>): map<string, Record> {
    if |rs| == 0 then map[]
    else map[rs[|rs| - 1].dataClass := rs[|rs| - 1]] + LatestByClass(rs[..|rs| - 1])
  }

  method Merge(records: seq<Record>) returns (telemetry: Fields, latest: map<string, Record>)
    ensures telemetry == Merged(records)
    ensures latest == LatestByClass(records)
  {
    telemetry, latest := map[], map[];
    for k := 0 to |records|
      invariant telemetry == Merged(records[..k])
      invariant latest == LatestByClass(records[..k])
    {
      var record := records[k];
      assert records[..k + 1][..k] == records[..k];
      if record.dataClass !in latest {
        latest := latest[record.dataClass := record];
      }
      telemetry := AddMissing(telemetry, record.data);
    }
    assert records[..|records|] == records;
  }

  // The inner loop of `_merge`, over the items of one record in any order.
  method AddMissing(telemetry: Fields, data: Fields) returns (r: Fields)
    ensures r == data + telemetry
  {
    r := telemetry;
    var names := data.Keys;
    while names != {}
      invariant names <= data.Keys
      invariant r.Keys == telemetry.Keys + (data.Keys - names)
      invariant forall n :: n in r ==> r[n] == (data + telemetry)[n]
      decreases |names|
    {
      var name :| name in names;
      names := names - {name};
      if name !in r {
        r := r[name := data[name]];
      }
    }
  }

  /** The record kept for a class is the first one, newest first, that carries it. */
  lemma {:induction false} LatestIsFirst(rs: seq<Record>, name: string)
    ensures name in LatestByClass(rs) <==> exists i :: 0 <= i < |rs| && rs[i].dataClass == name
    ensures forall i :: 0 <= i < |rs| && rs[i].dataClass == name
                        && (forall j :: 0 <= j < i ==> rs[j].dataClass != name)
                        ==> name in LatestByClass(rs) && LatestByClass(rs)[name] == rs[i]
  {
    if |rs| > 0 {
      var n := |rs| - 1;
      LatestIsFirst(rs[..n], name);
      assert forall i :: 0 <= i < n ==> rs[..n][i] == rs[i];
      if rs[n].dataClass == name {
        assert exists i :: 0 <= i < |rs| && rs[i].dataClass == name;
      }
    }
  }

  /** A merged field is the value in the first record, newest first, that carries it. */
  lemma {:induction false} MergedIsNewest(rs: seq<Record>, name: string)
    ensures name in Merged(rs) <==> exists i :: 0 <= i < |rs| && name in rs[i].data
    ensures forall i :: 0 <= i < |rs| && name in rs[i].data
                        && (forall j :: 0 <= j < i ==> name !in rs[j].data)
                        ==> name in Merged(rs) && Merged(rs)[name] == rs[i].data[name]
  {
    if |rs| > 0 {
      var n := |rs| - 1;
      MergedIsNewest(rs[..n], name);
      assert forall i :: 0 <= i < n ==> rs[..n][i] == rs[i];
      if name in rs[n].data {
        assert exists i :: 0 <= i < |rs| && name in rs[i].data;
      }
    }
  }

  /** Merging a newer record in front overwrites what it carries and keeps the rest. */
  lemma {:induction false} MergedNewerFirst(r: Record, rs: seq<Record>)
    ensures Merged([r] + rs) == Merged(rs) + r.data
  {
    if |rs| == 0 {
      assert ([r] + rs)[..0] == [];
    } else {
      var n := |rs| - 1;
      assert ([r] + rs)[..|rs|] == [r] + rs[..n];
      MergedNewerFirst(r, rs[..n]);
    }
  }
}
