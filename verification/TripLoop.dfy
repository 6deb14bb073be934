/** The loop of `_trip_estimate`, with its running totals, proved against the declarative trip. */
module TripLoop {
  import opened Options
  import opened Records
  import opened Trip

  // A carried-forward field: `_finite(state.get(name))` and `field_times.get(name, 0)`.
  function StateView(state: Fields, times: map<string, int>, name: string): View {
    View(if name in state then Finite(state[name]) else None, if name in times then times[name] else 0)
  }

  lemma StateViewIsLatest(tl: seq<Record>, name: string)
    ensures StateView(Carried(tl), FieldTimes(tl), name) == ViewOf(tl, name)
  {
    CarriedIsLatest(tl, name);
  }

  function ObserveState(state: Fields, times: map<string, int>, now: int): Option<Sample> {
    Judge(now, StateView(state, times, SPEED), StateView(state, times, RPM),
          StateView(state, times, FUEL_RATE), StateView(state, times, MAF),
          StateView(state, times, COOLANT))
  }

  lemma StateObserves(tl: seq<Record>)
    requires |tl| > 0
    ensures ObserveState(Carried(tl), FieldTimes(tl), ReceivedMs(tl[|tl| - 1])) == Observe(tl)
  {
    StateViewIsLatest(tl, SPEED);
    StateViewIsLatest(tl, RPM);
    StateViewIsLatest(tl, FUEL_RATE);
    StateViewIsLatest(tl, MAF);
    StateViewIsLatest(tl, COOLANT);
  }

  function Stamps<K>(names: set<K>, ms: int): map<K, int> {
    map n | n in names :: ms
  }

  // The inner loop over the items of one record, in any order.
  method CarryForward<K(==, !new), V>(state: map<K, V>, times: map<K, int>, data: map<K, V>, ms: int)
    returns (state': map<K, V>, times': map<K, int>)
    ensures state' == state + data
    ensures times' == times + Stamps(data.Keys, ms)
  {
    state', times' := state, times;
    var names := data.Keys;
    while names != {}
      invariant names <= data.Keys
      invariant PutExcept(state', state, data, names)
      invariant PutExcept(times', times, Stamps(data.Keys, ms), names)
      decreases |names|
    {
      var name :| name in names;
      PutNext(state', state, data, names, name);
      PutNext(times', times, Stamps(data.Keys, ms), names, name);
      names := names - {name};
      state' := state'[name := data[name]];
      times' := times'[name := ms];
    }
    PutEverything(state', state, data);
    PutEverything(times', times, Stamps(data.Keys, ms));
  }

  // `m` is `base` with all entries of `data` put in except those for `names`.
  ghost predicate PutExcept<K(!new), V>(m: map<K, V>, base: map<K, V>, data: map<K, V>, names: set<K>) {
    && m.Keys == base.Keys + (data.Keys - names)
    && (forall n :: n in m && n in data && n !in names ==> m[n] == data[n])
    && (forall n :: n in m && (n !in data || n in names) ==> m[n] == base[n])
  }

  lemma PutNext<K(!new), V>(m: map<K, V>, base: map<K, V>, data: map<K, V>, names: set<K>, name: K)
    requires name in names && names <= data.Keys && PutExcept(m, base, data, names)
    ensures PutExcept(m[name := data[name]], base, data, names - {name})
  {
  }

  lemma PutEverything<K(!new), V>(m: map<K, V>, base: map<K, V>, data: map<K, V>)
    requires PutExcept(m, base, data, {})
    ensures m == base + data
  {
  }

  lemma Extend(tl: seq<Record>, r: Record)
    ensures (tl + [r])[..|tl|] == tl && (tl + [r])[|tl|] == r
  {
  }

  // The running totals after one more sample, as the loop body computes them.
  method AddSegment(t: Totals, previous: Option<Sample>, current: Sample) returns (r: Totals)
    ensures r == Plus(t, if previous.Some? then Segment(previous.value, current) else NOTHING)
  {
    r := t;
    if previous.Some? && current.ms > previous.value.ms {
      var dt := (current.ms - previous.value.ms) as real / 1000.0;
      r := r.(possible := r.possible + if 15.0 < dt then 15.0 else dt);
      if dt <= 15.0 {
        var averageSpeed := (previous.value.speed + current.speed) / 2.0;
        var averageRate := (previous.value.rate + current.rate) / 2.0;
        r := r.(distance := r.distance + averageSpeed * dt / 3600.0);
        var increment := averageRate * dt / 3600.0;
        r := r.(fuel := r.fuel + increment);
        if averageSpeed < 1.0 {
          r := r.(idleSeconds := r.idleSeconds + dt, idleFuel := r.idleFuel + increment);
        }
        r := r.(valid := r.valid + dt, intervals := r.intervals + 1);
      } else {
        r := r.(gaps := r.gaps + 1);
      }
    }
  }

  method MarkSample(m: Marks, ghost samples: seq<Sample>, s: Sample) returns (r: Marks)
    requires m == MarksOf(samples)
    requires forall i :: 0 <= i < |samples| ==> samples[i].ms != 0
    ensures r == MarksOf(samples + [s])
  {
    assert (samples + [s])[..|samples|] == samples;
    r := m.(maxSpeed := Max(m.maxSpeed, s.speed), maxRpm := Max(m.maxRpm, s.rpm));
    if s.coolant.Some? {
      r := r.(maxCoolant := if r.maxCoolant.None? then s.coolant
                            else Some(Max(r.maxCoolant.value, s.coolant.value)));
    }
    r := r.(source := Some(s.source));
    if r.start == 0 {
      r := r.(start := s.ms);
    }
    r := r.(end := s.ms);
  }

  // One kept record, oldest first: the timeline grows by it and everything follows.
  lemma Grow(tl: seq<Record>, r: Record)
    ensures var s := Observe(tl + [r]);
            && LastObserved(tl + [r]) == s
            && Samples(tl + [r]) == (if s.Some? then Samples(tl) + [s.value] else Samples(tl))
            && Sum(tl + [r]) == Plus(Sum(tl), if s.Some? && LastObserved(tl).Some?
                                              then Segment(LastObserved(tl).value, s.value)
                                              else NOTHING)
  {
    Extend(tl, r);
  }

  lemma PlusNothing(t: Totals)
    ensures Plus(t, NOTHING) == t
  {
  }

  method TripEstimate(records: seq<Record>, now: int) returns (report: Report, ghost carried: Fields)
    ensures report == Estimate(records, now)
    ensures carried == Merged(Stamped(records))
  {
    var state: Fields := map[];
    var times: map<string, int> := map[];
    var previous: Option<Sample> := None;
    var totals := NOTHING;
    var marks := Marks(0, 0, 0.0, 0.0, None, None);
    ghost var tl: seq<Record> := [];
    for i := |records| downto 0
      invariant tl == Timeline(records[i..])
      invariant state == Carried(tl) && times == FieldTimes(tl)
      invariant previous == LastObserved(tl)
      invariant totals == Sum(tl)
      invariant marks == MarksOf(Samples(tl))
    {
      var record := records[i];
      assert records[i..][0] == record && records[i..][1..] == records[i + 1..];
      var ms := ReceivedMs(record);
      if ms != 0 {
        state, times := CarryForward(state, times, record.data, ms);
        Extend(tl, record);
        var current := ObserveState(state, times, ms);
        StateObserves(tl + [record]);
        Grow(tl, record);
        PlusNothing(totals);
        if current.None? {
          previous := None;
        } else {
          SamplesStamped(tl);
          marks := MarkSample(marks, Samples(tl), current.value);
          totals := AddSegment(totals, previous, current.value);
          previous := current;
        }
        tl := tl + [record];
      }
    }
    assert records[0..] == records;
    CarriedIsMerged(records);
    carried := state;
    report := MakeReport(totals, marks, previous, now, |records|);
  }
}
