/** `telemetry_task` of esp-obd2-client/main/app_main.c on the variables it changes in place, with
    `read_one` and the three read functions of esp-obd2-client/main/obd2_source.c.  `ClientRuns` says
    what a pass does and proves what every run guarantees. */
module ClientLoop {
  import opened Options
  import opened PidDiscovery
  import opened ClientRuns

  /** `s_latest` and its valid mask show the last decodes; all other snapshot fields are zero. */
  ghost predicate Shows(latest: map<Field, real>, valid: set<Field>, decoded: map<Field, real>) {
    (forall f: Field :: f in latest && latest[f] == Value(decoded, f)) && valid == decoded.Keys
  }

  /** `s_last_sent`; None stands for NaN. */
  ghost predicate Remembers(lastSent: map<Field, Option<real>>, remembered: map<Field, real>) {
    forall f: Field :: f in lastSent && lastSent[f] == ValueAt(remembered, f)
  }

  class TelemetryTask {
    const supported: set<Field>
    var latest: map<Field, real>
    var valid: set<Field>
    var lastSent: map<Field, Option<real>>
    var sequence: nat
    var slowCount: nat
    var extendedCount: nat
    var diagnosticCount: nat
    // The messages handed to the gateway client so far.
    var sent: seq<Message>

    ghost var state: Client

    ghost predicate CountersOk()
      reads this
    {
      && sequence == state.sequence && sent == state.sent && slowCount == state.slowCount
      && extendedCount == state.extendedCount && diagnosticCount == state.diagnosticCount
    }

    ghost predicate Valid()
      reads this
    {
      && state.supported == supported && CountersOk()
      && Shows(latest, valid, state.decoded) && Remembers(lastSent, state.remembered)
    }

    constructor (supported: set<Field>)
      ensures Valid() && this.supported == supported && state == Boot(supported)
    {
      this.supported := supported;
      latest := map f: Field | GroupOf(f) in [Fast, Slow, Extended, Unread] :: 0.0;
      lastSent := map f: Field | GroupOf(f) in [Fast, Slow, Extended, Unread] :: None;
      valid := {};
      sequence, sent := 0, [];
      slowCount, extendedCount, diagnosticCount := 0, 0, 0;
      state := Boot(supported);
    }

    /** One field is read if it is supported; a failed query leaves value and bit as they are. */
    method ReadOne(f: Field, p: Pass)
      modifies `latest, `valid
      ensures var decoded := f in supported && f in p.decodes;
              && latest == (if decoded then old(latest)[f := p.decodes[f]] else old(latest))
              && valid == if decoded then old(valid) + {f} else old(valid)
    {
      if f in supported && f in p.decodes {
        latest := latest[f := p.decodes[f]];
        valid := valid + {f};
      }
    }

    // One of the three read functions: its fields in some order.
    method ReadGroup(g: Group, p: Pass) returns (ok: bool)
      requires Valid()
      modifies `latest, `valid, `state
      ensures Valid() && state == Read(old(state), g, p)
      ensures ok <==> |state.decoded| != 0
    {
      ReadFields(g, p);
      ReadAll(old(latest), latest, old(valid), valid, state.decoded, supported, g, p.decodes);
      state := Read(state, g, p);
      ok := valid != {};
    }

    method ReadFields(g: Group, p: Pass)
      modifies `latest, `valid
      ensures ReadSoFar(old(latest), latest, old(valid), valid, supported, g, p.decodes, {})
    {
      var todo := set f: Field | GroupOf(f) == g;
      while todo != {}
        invariant forall f :: f in todo ==> GroupOf(f) == g
        invariant ReadSoFar(old(latest), latest, old(valid), valid, supported, g, p.decodes, todo)
        decreases todo
      {
        var f :| f in todo;
        ReadNext(old(latest), latest, old(valid), valid, supported, g, p.decodes, todo, f);
        ReadOne(f, p);
        todo := todo - {f};
      }
    }

    /** A message with the valid fields of its kind; it fails if it cannot be built or printed, or is
        not acknowledged.  The sequence number is used up even if printing fails. */
    method Publish(kind: MessageKind, d: Delivery) returns (ok: bool)
      requires Valid()
      modifies `sequence, `sent, `state
      ensures Valid() && state == ClientRuns.Publish(old(state), kind, d)
      ensures ok <==> d == Acknowledged
    {
      ContentShown(latest, valid, state.decoded, kind);
      state := ClientRuns.Publish(state, kind, d);
      if d == NotBuilt {
        return false;
      }
      sequence := sequence + 1;
      if d == NotPrinted {
        return false;
      }
      sent := sent + [Message(sequence, map f | f in valid && Carries(kind, f) :: latest[f])];
      ok := d == Acknowledged;
    }

    // `changed` for any watched signal of the group.
    method IsDue(g: Group) returns (due: bool)
      requires Valid()
      ensures due <==> !Within(g, state.decoded, state.remembered)
    {
      DueMeans(latest, valid, lastSent, state.decoded, state.remembered, g);
      due := exists f: Field :: Watched(f, g) && Changed(latest, lastSent, f);
    }

    // `s_last_sent` takes the values of the group.
    method RememberSent(g: Group)
      requires Valid()
      modifies `lastSent, `state
      ensures Valid() && state == Remember(old(state), g)
    {
      RememberedShown(latest, valid, lastSent, state.decoded, state.remembered, g);
      lastSent := map f | f in lastSent :: if GroupOf(f) == g then Some(latest[f]) else lastSent[f];
      state := Remember(state, g);
    }

    // Sample, compare with the deadbands, send, and remember what was acknowledged.
    method SampleAndSend(g: Group, kind: MessageKind, p: Pass, d: Delivery)
      requires Valid()
      modifies `latest, `valid, `lastSent, `sequence, `sent, `state
      ensures Valid() && state == ClientRuns.SampleAndSend(old(state), g, kind, p, d)
    {
      var _ := ReadGroup(g, p);
      var due := IsDue(g);
      if due {
        var ok := Publish(kind, d);
        if ok {
          RememberSent(g);
        }
      }
    }

    /** One pass of the loop. */
    method Tick(p: Pass)
      requires Valid()
      modifies this
      ensures Valid() && state == ClientRuns.Tick(old(state), p)
    {
      SampleAndSend(Fast, FastMessage, p, p.fast);
      SlowPart(p);
      ExtendedPart(p);
      DiagnosticPart(p);
    }

    // The slow group every five passes.
    method SlowPart(p: Pass)
      requires Valid()
      modifies this
      ensures Valid() && state == ClientRuns.SlowPart(old(state), p)
    {
      slowCount := slowCount + 1;
      if slowCount >= 5 {
        slowCount := 0;
        state := state.(slowCount := 0);
        SampleAndSend(Slow, SlowMessage, p, p.slow);
      } else {
        state := state.(slowCount := slowCount);
      }
    }

    // The extended group every 30 passes.  What it sends carries the slow signals too, but is not
    // remembered for the comparison.
    method ExtendedPart(p: Pass)
      requires Valid()
      modifies this
      ensures Valid() && state == ClientRuns.ExtendedPart(old(state), p)
    {
      extendedCount := extendedCount + 1;
      if extendedCount >= 30 {
        extendedCount := 0;
        state := state.(extendedCount := 0);
        var read := ReadGroup(Extended, p);
        if read {
          ghost var before := state;
          var _ := Publish(SlowMessage, p.extended);
          state := SendExtended(before, p.extended);
        }
      } else {
        state := state.(extendedCount := extendedCount);
      }
    }

    // Diagnostics and trouble codes every 60 passes.
    method DiagnosticPart(p: Pass)
      requires Valid()
      modifies this
      ensures Valid() && state == ClientRuns.DiagnosticPart(old(state), p)
    {
      diagnosticCount := diagnosticCount + 1;
      if diagnosticCount >= 60 {
        diagnosticCount := 0;
        state := state.(diagnosticCount := 0);
        var _ := Publish(OtherMessage, p.diagnostic);
        var _ := Publish(OtherMessage, p.dtc);
      } else {
        state := state.(diagnosticCount := diagnosticCount);
      }
    }
  }

  // The loop over the fields of a group, with `todo` still to read.
  ghost predicate ReadSoFar(latest: map<Field, real>, latest': map<Field, real>, valid: set<Field>,
                            valid': set<Field>, supported: set<Field>, g: Group,
                            decodes: map<Field, real>, todo: set<Field>)
  {
    forall f: Field ::
      var read := GroupOf(f) == g && f in supported && f in decodes && f !in todo;
      && (f in valid' <==> f in valid || read)
      && (f in latest ==> f in latest' && latest'[f] == if read then decodes[f] else latest[f])
  }

  lemma ReadNext(latest: map<Field, real>, latest': map<Field, real>,
                 valid: set<Field>, valid': set<Field>, supported: set<Field>,
                 g: Group, decodes: map<Field, real>, todo: set<Field>, f: Field)
    requires ReadSoFar(latest, latest', valid, valid', supported, g, decodes, todo)
    requires f in todo && GroupOf(f) == g
    ensures f in supported && f in decodes ==>
              ReadSoFar(latest, latest'[f := decodes[f]], valid, valid' + {f}, supported, g, decodes,
                        todo - {f})
    ensures !(f in supported && f in decodes) ==>
              ReadSoFar(latest, latest', valid, valid', supported, g, decodes, todo - {f})
  {
  }

  lemma ReadAll(latest: map<Field, real>, latest': map<Field, real>,
                valid: set<Field>, valid': set<Field>, decoded: map<Field, real>,
                supported: set<Field>, g: Group, decodes: map<Field, real>)
    requires Shows(latest, valid, decoded)
    requires ReadSoFar(latest, latest', valid, valid', supported, g, decodes, {})
    ensures Shows(latest', valid', decoded + Decodes(supported, g, decodes))
  {
    forall f: Field
      ensures f in valid' <==> f in decoded + Decodes(supported, g, decodes)
      ensures f in latest' && latest'[f] == Value(decoded + Decodes(supported, g, decodes), f)
    {
    }
  }

  lemma ContentShown(latest: map<Field, real>, valid: set<Field>,
                     decoded: map<Field, real>, kind: MessageKind)
    requires Shows(latest, valid, decoded)
    ensures (map f | f in valid && Carries(kind, f) :: latest[f]) == Content(decoded, kind)
  {
  }

  predicate Changed(latest: map<Field, real>, lastSent: map<Field, Option<real>>, f: Field)
    requires f in latest && f in lastSent && Deadband(f).Some?
  {
    lastSent[f].None? || Distance(latest[f], lastSent[f].value) >= Deadband(f).value
  }

  lemma DueMeans(latest: map<Field, real>, valid: set<Field>,
                 lastSent: map<Field, Option<real>>, decoded: map<Field, real>,
                 remembered: map<Field, real>, g: Group)
    requires Shows(latest, valid, decoded) && Remembers(lastSent, remembered)
    ensures (exists f: Field :: Watched(f, g) && Changed(latest, lastSent, f))
            <==> !Within(g, decoded, remembered)
  {
    forall f | Watched(f, g)
      ensures f in remembered && Close(f, Value(decoded, f), remembered[f])
              <==> !Changed(latest, lastSent, f) {
    }
  }

  lemma RememberedShown(latest: map<Field, real>, valid: set<Field>,
                        lastSent: map<Field, Option<real>>,
                        decoded: map<Field, real>, remembered: map<Field, real>,
                        g: Group)
    requires Shows(latest, valid, decoded) && Remembers(lastSent, remembered)
    ensures Remembers(map f | f in lastSent :: if GroupOf(f) == g then Some(latest[f]) else lastSent[f],
                      remembered + Snapshot(decoded, g))
  {
  }

  /** The telemetry loop carries out every run. */
  method Operate(supported: set<Field>, passes: seq<Pass>) returns (task: TelemetryTask)
    ensures fresh(task) && task.Valid() && task.state == Run(supported, passes)
  {
    task := new TelemetryTask(supported);
    for i := 0 to |passes|
      invariant fresh(task) && task.Valid() && task.state == Run(supported, passes[..i])
    {
      assert passes[..i + 1][..i] == passes[..i];
      task.Tick(passes[i]);
    }
    assert passes[..|passes|] == passes;
  }
}
