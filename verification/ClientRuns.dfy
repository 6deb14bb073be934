/** The endless loop of `telemetry_task`, esp-obd2-client/main/app_main.c, in CAN mode, as a function
    of what the vehicle and the gateway do in each pass.  Class `TelemetryTask` of `ClientLoop` carries
    it out in place. */
module ClientRuns {
  import opened Options
  import opened PidDiscovery

  // The three read functions, and the fields each of them reads.
  datatype Group = Fast | Slow | Extended | Unread

  function GroupOf(f: Field): Group {
    match f
    case Rpm => Fast
    case Speed => Fast
    case Load => Fast
    case Throttle => Fast
    case Coolant => Slow
    case Intake => Slow
    case Fuel => Slow
    case Voltage => Slow
    case Runtime => Slow
    case Ambient => Slow
    case Mil => Unread
    case _ => Extended
  }

  datatype MessageKind = FastMessage | SlowMessage | OtherMessage

  predicate Carries(kind: MessageKind, f: Field) {
    match kind
    case FastMessage => GroupOf(f) == Fast
    case SlowMessage => GroupOf(f) == Slow || GroupOf(f) == Extended
    case OtherMessage => false
  }

  /** How far a signal may drift from its last acknowledged value before it is sent again; engine run
      time never triggers a message. */
  function Deadband(f: Field): (r: Option<real>)
    ensures r.Some? ==> r.value > 0.0
  {
    match f
    case Rpm => Some(25.0)
    case Speed => Some(1.0)
    case Load => Some(1.0)
    case Throttle => Some(1.0)
    case Coolant => Some(0.5)
    case Intake => Some(0.5)
    case Fuel => Some(0.5)
    case Voltage => Some(0.1)
    case Ambient => Some(1.0)
    case _ => None
  }

  // A signal that triggers messages of its group.
  predicate Watched(f: Field, g: Group) {
    GroupOf(f) == g && Deadband(f).Some?
  }

  function Distance(x: real, y: real): real {
    if x < y then y - x else x - y
  }

  // Two values of a watched signal that are not far enough apart to be sent again.
  predicate Close(f: Field, x: real, y: real)
    requires Deadband(f).Some?
  {
    Distance(x, y) < Deadband(f).value
  }

  /** The groups are those of the three read functions. */
  lemma GroupsAre(f: Field)
    ensures GroupOf(f) == Fast <==> f in {Rpm, Speed, Load, Throttle}
    ensures GroupOf(f) == Slow <==> f in {Coolant, Intake, Fuel, Voltage, Runtime, Ambient}
    ensures GroupOf(f) == Extended <==>
            f in {FuelSystem, ShortTrim, LongTrim, Map, Maf, ObdStandard, DistMil, DistClear, FuelType,
                  FuelRate}
  {
  }

  // Two values that are not `deadband` apart.
  predicate Quiet(decoded: map<Field, real>, remembered: map<Field, real>, f: Field, deadband: real) {
    f in remembered && -deadband < Value(decoded, f) - remembered[f] < deadband
  }

  lemma QuietIs(decoded: map<Field, real>, remembered: map<Field, real>, f: Field, deadband: real)
    requires Deadband(f) == Some(deadband)
    ensures Quiet(decoded, remembered, f, deadband) <==>
            f in remembered && Close(f, Value(decoded, f), remembered[f])
  {
  }

  /** A fast message is due exactly when engine speed drifts by 25 rpm, or vehicle speed, load or throttle
      by 1, or one of them was never acknowledged. */
  lemma FastQuietIff(decoded: map<Field, real>, remembered: map<Field, real>)
    ensures Within(Fast, decoded, remembered) <==>
            Quiet(decoded, remembered, Rpm, 25.0) && Quiet(decoded, remembered, Speed, 1.0)
            && Quiet(decoded, remembered, Load, 1.0) && Quiet(decoded, remembered, Throttle, 1.0)
  {
    QuietIs(decoded, remembered, Rpm, 25.0);
    QuietIs(decoded, remembered, Speed, 1.0);
    QuietIs(decoded, remembered, Load, 1.0);
    QuietIs(decoded, remembered, Throttle, 1.0);
    assert Watched(Rpm, Fast) && Watched(Speed, Fast) && Watched(Load, Fast) && Watched(Throttle, Fast);
  }

  /** A slow message is due exactly when coolant, intake air or fuel level drifts by 0.5, voltage by 0.1 or
      ambient air by 1, or one of them was never acknowledged. */
  lemma SlowQuietIff(decoded: map<Field, real>, remembered: map<Field, real>)
    ensures Within(Slow, decoded, remembered) <==>
            Quiet(decoded, remembered, Coolant, 0.5) && Quiet(decoded, remembered, Intake, 0.5)
            && Quiet(decoded, remembered, Fuel, 0.5) && Quiet(decoded, remembered, Voltage, 0.1)
            && Quiet(decoded, remembered, Ambient, 1.0)
  {
    QuietIs(decoded, remembered, Coolant, 0.5);
    QuietIs(decoded, remembered, Intake, 0.5);
    QuietIs(decoded, remembered, Fuel, 0.5);
    QuietIs(decoded, remembered, Voltage, 0.1);
    QuietIs(decoded, remembered, Ambient, 1.0);
    assert Watched(Coolant, Slow) && Watched(Intake, Slow) && Watched(Fuel, Slow);
    assert Watched(Voltage, Slow) && Watched(Ambient, Slow);
  }

  // ----- one pass -----

  /** What becomes of a message: no memory to build it, none to print it, no answer, or an answer. */
  datatype Delivery = NotBuilt | NotPrinted | Unacknowledged | Acknowledged

  /** What happens in one pass: the queries that would succeed, with their values, and what becomes of
      each message if it is sent. */
  datatype Pass = Pass(decodes: map<Field, real>, fast: Delivery, slow: Delivery,
                       extended: Delivery, diagnostic: Delivery, dtc: Delivery)

  /** A message handed to the gateway client. */
  datatype Message = Message(sequence: nat, fields: map<Field, real>)

  /** `decoded` is the last successful decode of each field: its keys are the valid mask, and a snapshot
      field without a decode holds zero.  `remembered` is `s_last_sent`, without the NaN entries.
      `acked` and `echoed` are history: the last acknowledged value of each field, and what messages of
      the extended group have had acknowledged since the last slow acknowledgement. */
  datatype Client = Client(
    supported: set<Field>, decoded: map<Field, real>, remembered: map<Field, real>,
    acked: map<Field, real>, echoed: map<Field, real>, sequence: nat, sent: seq<Message>,
    slowCount: nat, extendedCount: nat, diagnosticCount: nat)

  function Boot(supported: set<Field>): Client {
    Client(supported, map[], map[], map[], map[], 0, [], 0, 0, 0)
  }

  function Value(values: map<Field, real>, f: Field): real {
    if f in values then values[f] else 0.0
  }

  function Decodes(supported: set<Field>, g: Group, decodes: map<Field, real>): map<Field, real> {
    map f | f in decodes && f in supported && GroupOf(f) == g :: decodes[f]
  }

  function Read(s: Client, g: Group, p: Pass): Client {
    s.(decoded := s.decoded + Decodes(s.supported, g, p.decodes))
  }

  /** The decoded fields of the kind, with their last values. */
  function Content(decoded: map<Field, real>, kind: MessageKind): map<Field, real> {
    map f | f in decoded && Carries(kind, f) :: decoded[f]
  }

  function Publish(s: Client, kind: MessageKind, d: Delivery): Client {
    var content := Content(s.decoded, kind);
    match d
    case NotBuilt => s
    case NotPrinted => s.(sequence := s.sequence + 1)
    case Unacknowledged =>
      s.(sequence := s.sequence + 1, sent := s.sent + [Message(s.sequence + 1, content)])
    case Acknowledged =>
      s.(sequence := s.sequence + 1, sent := s.sent + [Message(s.sequence + 1, content)],
         acked := s.acked + content)
  }

  /** Nothing of the group is due: every watched signal is close to its remembered value. */
  predicate Within(g: Group, decoded: map<Field, real>, remembered: map<Field, real>) {
    forall f :: Watched(f, g) ==> f in remembered && Close(f, Value(decoded, f), remembered[f])
  }

  function Snapshot(decoded: map<Field, real>, g: Group): map<Field, real> {
    map f: Field | GroupOf(f) == g :: Value(decoded, f)
  }

  // After an acknowledgement the values of the whole group are remembered.
  function Remember(s: Client, g: Group): Client {
    s.(remembered := s.remembered + Snapshot(s.decoded, g),
       echoed := if g == Slow then map[] else s.echoed)
  }

  function SampleAndSend(s: Client, g: Group, kind: MessageKind, p: Pass, d: Delivery): Client {
    var r := Read(s, g, p);
    if Within(g, r.decoded, r.remembered) then r
    else if d == Acknowledged then Remember(Publish(r, kind, d), g)
    else Publish(r, kind, d)
  }

  function FastPart(s: Client, p: Pass): Client {
    SampleAndSend(s, Fast, FastMessage, p, p.fast)
  }

  function SlowPart(s: Client, p: Pass): Client {
    if s.slowCount + 1 >= 5 then SampleAndSend(s.(slowCount := 0), Slow, SlowMessage, p, p.slow)
    else s.(slowCount := s.slowCount + 1)
  }

  // What the extended group sends carries the slow signals too, but is not remembered.
  function SendExtended(s: Client, d: Delivery): Client {
    var q := Publish(s, SlowMessage, d);
    if d == Acknowledged then q.(echoed := q.echoed + Content(s.decoded, SlowMessage)) else q
  }

  function ExtendedPart(s: Client, p: Pass): Client {
    if s.extendedCount + 1 >= 30 then
      var r := Read(s.(extendedCount := 0), Extended, p);
      if |r.decoded| == 0 then r else SendExtended(r, p.extended)
    else s.(extendedCount := s.extendedCount + 1)
  }

  function DiagnosticPart(s: Client, p: Pass): Client {
    if s.diagnosticCount + 1 >= 60 then
      Publish(Publish(s.(diagnosticCount := 0), OtherMessage, p.diagnostic), OtherMessage, p.dtc)
    else s.(diagnosticCount := s.diagnosticCount + 1)
  }

  function Tick(s: Client, p: Pass): Client {
    DiagnosticPart(ExtendedPart(SlowPart(FastPart(s, p), p), p), p)
  }

  function Run(supported: set<Field>, passes: seq<Pass>): Client {
    if |passes| == 0 then Boot(supported)
    else Tick(Run(supported, passes[..|passes| - 1]), passes[|passes| - 1])
  }

  // ----- what is decoded -----

  /** The fast group is read in every pass, the slow one in every fifth, the extended one in every
      thirtieth. */
  predicate ReadIn(g: Group, pass: nat) {
    match g
    case Fast => true
    case Slow => pass % 5 == 0
    case Extended => pass % 30 == 0
    case Unread => false
  }

  /** The value of the last pass in which the group of `f` was read and its query succeeded. */
  function LastDecode(supported: set<Field>, passes: seq<Pass>, f: Field): Option<real> {
    var n := |passes|;
    if n == 0 then None
    else if ReadIn(GroupOf(f), n) && f in supported && f in passes[n - 1].decodes
    then Some(passes[n - 1].decodes[f])
    else LastDecode(supported, passes[..n - 1], f)
  }

  function ValueAt(decoded: map<Field, real>, f: Field): Option<real> {
    if f in decoded then Some(decoded[f]) else None
  }

  ghost predicate CountsAre(s: Client, n: nat) {
    s.slowCount == n % 5 && s.extendedCount == n % 30 && s.diagnosticCount == n % 60
  }

  lemma PublishKeeps(s: Client, kind: MessageKind, d: Delivery)
    ensures var q := Publish(s, kind, d);
            && q.supported == s.supported && q.decoded == s.decoded && q.remembered == s.remembered
            && q.echoed == s.echoed && q.slowCount == s.slowCount
            && q.extendedCount == s.extendedCount && q.diagnosticCount == s.diagnosticCount
  {
  }

  // The decodes and counters after one pass.
  function Decoded(s: Client, p: Pass): map<Field, real> {
    var fast := s.decoded + Decodes(s.supported, Fast, p.decodes);
    var slow := if s.slowCount + 1 >= 5 then fast + Decodes(s.supported, Slow, p.decodes) else fast;
    if s.extendedCount + 1 >= 30 then slow + Decodes(s.supported, Extended, p.decodes) else slow
  }

  // One part of a pass leaves these as they are.
  ghost predicate SameCounts(s: Client, s': Client) {
    && s'.supported == s.supported && s'.slowCount == s.slowCount
    && s'.extendedCount == s.extendedCount && s'.diagnosticCount == s.diagnosticCount
  }

  lemma SampleDecodes(s: Client, g: Group, kind: MessageKind, p: Pass, d: Delivery)
    ensures var s' := SampleAndSend(s, g, kind, p, d);
            SameCounts(s, s') && s'.decoded == s.decoded + Decodes(s.supported, g, p.decodes)
  {
    PublishKeeps(Read(s, g, p), kind, d);
  }

  lemma SlowDecodes(s: Client, p: Pass)
    ensures var s' := SlowPart(s, p);
            && SameCounts(s.(slowCount := s'.slowCount), s')
            && s'.slowCount == (if s.slowCount + 1 >= 5 then 0 else s.slowCount + 1)
            && s'.decoded == if s.slowCount + 1 >= 5
                             then s.decoded + Decodes(s.supported, Slow, p.decodes) else s.decoded
  {
    SampleDecodes(s.(slowCount := 0), Slow, SlowMessage, p, p.slow);
  }

  lemma ExtendedDecodes(s: Client, p: Pass)
    ensures var s' := ExtendedPart(s, p);
            && SameCounts(s.(extendedCount := s'.extendedCount), s')
            && s'.extendedCount == (if s.extendedCount + 1 >= 30 then 0 else s.extendedCount + 1)
            && s'.decoded == if s.extendedCount + 1 >= 30
                             then s.decoded + Decodes(s.supported, Extended, p.decodes) else s.decoded
  {
    PublishKeeps(Read(s.(extendedCount := 0), Extended, p), SlowMessage, p.extended);
  }

  lemma DiagnosticDecodes(s: Client, p: Pass)
    ensures var s' := DiagnosticPart(s, p);
            && SameCounts(s.(diagnosticCount := s'.diagnosticCount), s')
            && s'.diagnosticCount == (if s.diagnosticCount + 1 >= 60 then 0 else s.diagnosticCount + 1)
            && s'.decoded == s.decoded
  {
    PublishKeeps(s.(diagnosticCount := 0), OtherMessage, p.diagnostic);
    PublishKeeps(Publish(s.(diagnosticCount := 0), OtherMessage, p.diagnostic), OtherMessage, p.dtc);
  }

  lemma TickDecodes(s: Client, p: Pass)
    ensures var s' := Tick(s, p);
            && s'.supported == s.supported && s'.decoded == Decoded(s, p)
            && s'.slowCount == (if s.slowCount + 1 >= 5 then 0 else s.slowCount + 1)
            && s'.extendedCount == (if s.extendedCount + 1 >= 30 then 0 else s.extendedCount + 1)
            && s'.diagnosticCount == (if s.diagnosticCount + 1 >= 60 then 0 else s.diagnosticCount + 1)
  {
    var a := FastPart(s, p);
    SampleDecodes(s, Fast, FastMessage, p, p.fast);
    var b := SlowPart(a, p);
    SlowDecodes(a, p);
    var c := ExtendedPart(b, p);
    ExtendedDecodes(b, p);
    DiagnosticDecodes(c, p);
  }

  lemma NextOfFive(n: nat)
    ensures (n + 1) % 5 == if n % 5 + 1 >= 5 then 0 else n % 5 + 1
  {
  }

  lemma NextOfThirty(n: nat)
    ensures (n + 1) % 30 == if n % 30 + 1 >= 30 then 0 else n % 30 + 1
  {
  }

  lemma NextOfSixty(n: nat)
    ensures (n + 1) % 60 == if n % 60 + 1 >= 60 then 0 else n % 60 + 1
  {
  }

  lemma CountNext(n: nat)
    ensures (n + 1) % 5 == if n % 5 + 1 >= 5 then 0 else n % 5 + 1
    ensures (n + 1) % 30 == if n % 30 + 1 >= 30 then 0 else n % 30 + 1
    ensures (n + 1) % 60 == if n % 60 + 1 >= 60 then 0 else n % 60 + 1
  {
    NextOfFive(n);
    NextOfThirty(n);
    NextOfSixty(n);
  }

  // The last decodes when the slow and the extended group are read as told.
  lemma DecodedBy(decoded: map<Field, real>, supported: set<Field>,
                  decodes: map<Field, real>, slow: bool, extended: bool, f: Field)
    ensures var x := decoded + Decodes(supported, Fast, decodes);
            var y := if slow then x + Decodes(supported, Slow, decodes) else x;
            var z := if extended then y + Decodes(supported, Extended, decodes) else y;
            var g := GroupOf(f);
            ValueAt(z, f) == if (g == Fast || (g == Slow && slow) || (g == Extended && extended))
                              && f in supported && f in decodes
                           then Some(decodes[f]) else ValueAt(decoded, f)
  {
  }

  lemma DecodedAt(s: Client, p: Pass, n: nat, f: Field)
    requires CountsAre(s, n)
    ensures ValueAt(Decoded(s, p), f)
            == if ReadIn(GroupOf(f), n + 1) && f in s.supported && f in p.decodes
               then Some(p.decodes[f]) else ValueAt(s.decoded, f)
  {
    CountNext(n);
    DecodedBy(s.decoded, s.supported, p.decodes, s.slowCount + 1 >= 5, s.extendedCount + 1 >= 30, f);
  }

  lemma TickCounts(s: Client, p: Pass, n: nat)
    requires CountsAre(s, n)
    ensures CountsAre(Tick(s, p), n + 1) && Tick(s, p).supported == s.supported
  {
    TickDecodes(s, p);
    CountNext(n);
  }

  lemma {:induction false} RunCounts(supported: set<Field>, passes: seq<Pass>)
    ensures CountsAre(Run(supported, passes), |passes|)
    ensures Run(supported, passes).supported == supported
  {
    if |passes| > 0 {
      var n := |passes| - 1;
      RunCounts(supported, passes[..n]);
      TickCounts(Run(supported, passes[..n]), passes[n], n);
    }
  }

  /** In every run a field is valid exactly when some read of its group decoded it while supported, and
      then the snapshot holds the last value decoded: a failed query changes neither. */
  lemma {:induction false} RunDecodes(supported: set<Field>, passes: seq<Pass>, f: Field)
    ensures ValueAt(Run(supported, passes).decoded, f) == LastDecode(supported, passes, f)
    ensures f in Run(supported, passes).decoded ==> f in supported
  {
    if |passes| > 0 {
      var n := |passes| - 1;
      var s := Run(supported, passes[..n]);
      RunDecodes(supported, passes[..n], f);
      RunCounts(supported, passes[..n]);
      TickDecodes(s, passes[n]);
      DecodedAt(s, passes[n], n, f);
    }
  }

  /** Valid fields stay valid. */
  lemma RunMaskGrows(supported: set<Field>, passes: seq<Pass>, p: Pass)
    ensures Run(supported, passes).decoded.Keys <= Run(supported, passes + [p]).decoded.Keys <= supported
  {
    assert (passes + [p])[..|passes|] == passes;
    TickDecodes(Run(supported, passes), p);
    forall f | f in Run(supported, passes + [p]).decoded ensures f in supported {
      RunDecodes(supported, passes + [p], f);
    }
  }

  // ----- what is sent -----

  /** Sequence numbers grow strictly from message to message. */
  ghost predicate Numbered(sent: seq<Message>, sequence: nat) {
    && (forall i :: 0 <= i < |sent| ==> sent[i].sequence <= sequence)
    && (forall i, j :: 0 <= i < j < |sent| ==> sent[i].sequence < sent[j].sequence)
  }

  lemma PublishNumbers(s: Client, kind: MessageKind, d: Delivery)
    requires Numbered(s.sent, s.sequence)
    ensures Numbered(Publish(s, kind, d).sent, Publish(s, kind, d).sequence)
  {
  }

  lemma TickNumbers(s: Client, p: Pass)
    requires Numbered(s.sent, s.sequence)
    ensures Numbered(Tick(s, p).sent, Tick(s, p).sequence)
  {
    PublishNumbers(Read(s, Fast, p), FastMessage, p.fast);
    var fast := FastPart(s, p);
    PublishNumbers(Read(fast.(slowCount := 0), Slow, p), SlowMessage, p.slow);
    var slow := SlowPart(fast, p);
    PublishNumbers(Read(slow.(extendedCount := 0), Extended, p), SlowMessage, p.extended);
    var extended := ExtendedPart(slow, p);
    var d := extended.(diagnosticCount := 0);
    PublishNumbers(d, OtherMessage, p.diagnostic);
    PublishNumbers(Publish(d, OtherMessage, p.diagnostic), OtherMessage, p.dtc);
  }

  lemma {:induction false} RunNumbers(supported: set<Field>, passes: seq<Pass>)
    ensures Numbered(Run(supported, passes).sent, Run(supported, passes).sequence)
  {
    if |passes| > 0 {
      RunNumbers(supported, passes[..|passes| - 1]);
      TickNumbers(Run(supported, passes[..|passes| - 1]), passes[|passes| - 1]);
    }
  }

  // No message of the pass fails while it is printed.
  predicate Prints(p: Pass) {
    p.fast != NotPrinted && p.slow != NotPrinted && p.extended != NotPrinted
    && p.diagnostic != NotPrinted && p.dtc != NotPrinted
  }

  ghost predicate Consecutive(sent: seq<Message>, sequence: nat) {
    sequence == |sent| && forall k :: 0 <= k < |sent| ==> sent[k].sequence == k + 1
  }

  lemma PublishConsecutive(s: Client, kind: MessageKind, d: Delivery)
    requires Consecutive(s.sent, s.sequence) && d != NotPrinted
    ensures Consecutive(Publish(s, kind, d).sent, Publish(s, kind, d).sequence)
  {
  }

  lemma SampleConsecutive(s: Client, g: Group, kind: MessageKind, p: Pass, d: Delivery)
    requires Consecutive(s.sent, s.sequence) && d != NotPrinted
    ensures var s' := SampleAndSend(s, g, kind, p, d);
            Consecutive(s'.sent, s'.sequence)
  {
    PublishConsecutive(Read(s, g, p), kind, d);
  }

  lemma SlowConsecutive(s: Client, p: Pass)
    requires Consecutive(s.sent, s.sequence) && p.slow != NotPrinted
    ensures Consecutive(SlowPart(s, p).sent, SlowPart(s, p).sequence)
  {
    SampleConsecutive(s.(slowCount := 0), Slow, SlowMessage, p, p.slow);
  }

  lemma ExtendedConsecutive(s: Client, p: Pass)
    requires Consecutive(s.sent, s.sequence) && p.extended != NotPrinted
    ensures Consecutive(ExtendedPart(s, p).sent, ExtendedPart(s, p).sequence)
  {
    PublishConsecutive(Read(s.(extendedCount := 0), Extended, p), SlowMessage, p.extended);
  }

  lemma DiagnosticConsecutive(s: Client, p: Pass)
    requires Consecutive(s.sent, s.sequence) && p.diagnostic != NotPrinted && p.dtc != NotPrinted
    ensures Consecutive(DiagnosticPart(s, p).sent, DiagnosticPart(s, p).sequence)
  {
    var d := s.(diagnosticCount := 0);
    PublishConsecutive(d, OtherMessage, p.diagnostic);
    PublishConsecutive(Publish(d, OtherMessage, p.diagnostic), OtherMessage, p.dtc);
  }

  lemma TickConsecutive(s: Client, p: Pass)
    requires Consecutive(s.sent, s.sequence) && Prints(p)
    ensures Consecutive(Tick(s, p).sent, Tick(s, p).sequence)
  {
    SampleConsecutive(s, Fast, FastMessage, p, p.fast);
    SlowConsecutive(FastPart(s, p), p);
    ExtendedConsecutive(SlowPart(FastPart(s, p), p), p);
    DiagnosticConsecutive(ExtendedPart(SlowPart(FastPart(s, p), p), p), p);
  }

  /** Messages are numbered from 1 without holes as long as none fails while it is printed. */
  lemma {:induction false} RunConsecutive(supported: set<Field>, passes: seq<Pass>)
    requires forall i :: 0 <= i < |passes| ==> Prints(passes[i])
    ensures Consecutive(Run(supported, passes).sent, Run(supported, passes).sequence)
  {
    if |passes| > 0 {
      RunConsecutive(supported, passes[..|passes| - 1]);
      TickConsecutive(Run(supported, passes[..|passes| - 1]), passes[|passes| - 1]);
    }
  }

  // ----- what each message holds -----

  /** The message reaches the gateway client, whatever comes back. */
  predicate Handed(d: Delivery) {
    d == Unacknowledged || d == Acknowledged
  }

  // Some signal of the group is not close to its remembered value once the group has been read.
  predicate Due(s: Client, g: Group, p: Pass) {
    !Within(g, Read(s, g, p).decoded, s.remembered)
  }

  function Fields(sent: seq<Message>): (r: seq<map<Field, real>>)
    ensures |r| == |sent| && forall i :: 0 <= i < |r| ==> r[i] == sent[i].fields
  {
    seq(|sent|, i requires 0 <= i < |sent| => sent[i].fields)
  }

  function If(goes: bool, fields: map<Field, real>): seq<map<Field, real>> {
    if goes then [fields] else []
  }

  function FastOut(s: Client, p: Pass): seq<map<Field, real>> {
    If(Due(s, Fast, p) && Handed(p.fast), Content(Read(s, Fast, p).decoded, FastMessage))
  }

  function SlowOut(s: Client, p: Pass): seq<map<Field, real>> {
    If(s.slowCount + 1 >= 5 && Due(s, Slow, p) && Handed(p.slow),
       Content(Read(s, Slow, p).decoded, SlowMessage))
  }

  function ExtendedOut(s: Client, p: Pass): seq<map<Field, real>> {
    var r := Read(s, Extended, p);
    If(s.extendedCount + 1 >= 30 && |r.decoded| != 0 && Handed(p.extended),
       Content(r.decoded, SlowMessage))
  }

  // Diagnostics and trouble codes carry no signal.
  function DiagnosticOut(due: bool, p: Pass): seq<map<Field, real>> {
    If(due && Handed(p.diagnostic), map[]) + If(due && Handed(p.dtc), map[])
  }

  lemma PublishFields(s: Client, kind: MessageKind, d: Delivery)
    ensures Fields(Publish(s, kind, d).sent)
            == Fields(s.sent) + If(Handed(d), Content(s.decoded, kind))
  {
  }

  lemma SampleFields(s: Client, g: Group, kind: MessageKind, p: Pass, d: Delivery)
    ensures Fields(SampleAndSend(s, g, kind, p, d).sent)
            == Fields(s.sent) + If(Due(s, g, p) && Handed(d), Content(Read(s, g, p).decoded, kind))
  {
    PublishFields(Read(s, g, p), kind, d);
  }

  lemma SlowFields(s: Client, p: Pass)
    ensures Fields(SlowPart(s, p).sent) == Fields(s.sent) + SlowOut(s, p)
  {
    SampleFields(s.(slowCount := 0), Slow, SlowMessage, p, p.slow);
  }

  lemma ExtendedFields(s: Client, p: Pass)
    ensures Fields(ExtendedPart(s, p).sent) == Fields(s.sent) + ExtendedOut(s, p)
  {
    PublishFields(Read(s.(extendedCount := 0), Extended, p), SlowMessage, p.extended);
  }

  lemma DiagnosticFields(s: Client, p: Pass)
    ensures Fields(DiagnosticPart(s, p).sent)
            == Fields(s.sent) + DiagnosticOut(s.diagnosticCount + 1 >= 60, p)
  {
    var d := s.(diagnosticCount := 0);
    assert Content(s.decoded, OtherMessage) == map[];
    PublishFields(d, OtherMessage, p.diagnostic);
    PublishKeeps(d, OtherMessage, p.diagnostic);
    PublishFields(Publish(d, OtherMessage, p.diagnostic), OtherMessage, p.dtc);
  }

  lemma TickFields(s: Client, p: Pass)
    ensures var a := FastPart(s, p);
            var b := SlowPart(a, p);
            Fields(Tick(s, p).sent)
            == Fields(s.sent) + FastOut(s, p) + SlowOut(a, p) + ExtendedOut(b, p)
               + DiagnosticOut(s.diagnosticCount + 1 >= 60, p)
  {
    var a := FastPart(s, p);
    var b := SlowPart(a, p);
    SampleFields(s, Fast, FastMessage, p, p.fast);
    SampleDecodes(s, Fast, FastMessage, p, p.fast);
    SlowFields(a, p);
    SlowDecodes(a, p);
    ExtendedFields(b, p);
    ExtendedDecodes(b, p);
    DiagnosticFields(ExtendedPart(b, p), p);
  }

  // The last decodes, once one more pass has read some groups.
  lemma NextDecode(supported: set<Field>, passes: seq<Pass>, p: Pass, f: Field)
    ensures LastDecode(supported, passes + [p], f)
            == if ReadIn(GroupOf(f), |passes| + 1) && f in supported && f in p.decodes
               then Some(p.decodes[f]) else LastDecode(supported, passes, f)
  {
    assert (passes + [p])[..|passes|] == passes;
  }

  /** What a fast message of the last pass holds: every fast field decoded so far, with its last value. */
  function FastContent(supported: set<Field>, passes: seq<Pass>): map<Field, real> {
    map f: Field | GroupOf(f) == Fast && LastDecode(supported, passes, f).Some?
      :: LastDecode(supported, passes, f).value
  }

  // The last decode that a slow message of pass `p` can know: it goes out before the extended group is
  // read.
  function SlowDecode(supported: set<Field>, passes: seq<Pass>, p: Pass, f: Field): Option<real> {
    match GroupOf(f)
    case Slow => LastDecode(supported, passes + [p], f)
    case Extended => LastDecode(supported, passes, f)
    case _ => None
  }

  function SlowContent(supported: set<Field>, passes: seq<Pass>, p: Pass): map<Field, real> {
    map f: Field | SlowDecode(supported, passes, p, f).Some? :: SlowDecode(supported, passes, p, f).value
  }

  /** What a message of the extended group holds: every slow and extended field decoded so far. */
  function ExtendedContent(supported: set<Field>, passes: seq<Pass>): map<Field, real> {
    map f: Field | Carries(SlowMessage, f) && LastDecode(supported, passes, f).Some?
      :: LastDecode(supported, passes, f).value
  }

  lemma ContentIs(decoded: map<Field, real>, kind: MessageKind, fields: map<Field, real>)
    requires forall f ::
               ValueAt(fields, f) == if Carries(kind, f) then ValueAt(decoded, f) else None
    ensures Content(decoded, kind) == fields
  {
    var content := Content(decoded, kind);
    forall f ensures f in content <==> f in fields
             ensures f in content ==> content[f] == fields[f] {
      assert ValueAt(fields, f) == if Carries(kind, f) then ValueAt(decoded, f) else None;
    }
  }

  lemma FastContentIs(supported: set<Field>, passes: seq<Pass>, p: Pass)
    ensures var s := Run(supported, passes);
            Content(Read(s, Fast, p).decoded, FastMessage) == FastContent(supported, passes + [p])
  {
    var s := Run(supported, passes);
    RunCounts(supported, passes);
    forall f ensures ValueAt(FastContent(supported, passes + [p]), f)
                     == if Carries(FastMessage, f) then ValueAt(Read(s, Fast, p).decoded, f) else None {
      RunDecodes(supported, passes, f);
      NextDecode(supported, passes, p, f);
    }
    ContentIs(Read(s, Fast, p).decoded, FastMessage, FastContent(supported, passes + [p]));
  }
  lemma ReadAt(s: Client, g: Group, p: Pass, f: Field)
    ensures ValueAt(Read(s, g, p).decoded, f)
            == if GroupOf(f) == g && f in s.supported && f in p.decodes then Some(p.decodes[f])
               else ValueAt(s.decoded, f)
  {
  }

  lemma SlowContentIs(supported: set<Field>, passes: seq<Pass>, p: Pass)
    requires (|passes| + 1) % 5 == 0
    ensures var a := FastPart(Run(supported, passes), p);
            Content(Read(a, Slow, p).decoded, SlowMessage) == SlowContent(supported, passes, p)
  {
    var s := Run(supported, passes);
    var a := FastPart(s, p);
    RunCounts(supported, passes);
    SampleDecodes(s, Fast, FastMessage, p, p.fast);
    forall f ensures ValueAt(SlowContent(supported, passes, p), f)
                     == if Carries(SlowMessage, f) then ValueAt(Read(a, Slow, p).decoded, f) else None {
      RunDecodes(supported, passes, f);
      NextDecode(supported, passes, p, f);
      ReadAt(a, Slow, p, f);
      ReadAt(s, Fast, p, f);
    }
    ContentIs(Read(a, Slow, p).decoded, SlowMessage, SlowContent(supported, passes, p));
  }

  lemma ExtendedContentIs(supported: set<Field>, passes: seq<Pass>, decoded: map<Field, real>)
    requires forall f :: ValueAt(decoded, f) == LastDecode(supported, passes, f)
    ensures Content(decoded, SlowMessage) == ExtendedContent(supported, passes)
    ensures |decoded| != 0 <==> exists f :: LastDecode(supported, passes, f).Some?
  {
    forall f ensures ValueAt(ExtendedContent(supported, passes), f)
                     == if Carries(SlowMessage, f) then ValueAt(decoded, f) else None {
      assert ValueAt(decoded, f) == LastDecode(supported, passes, f);
    }
    ContentIs(decoded, SlowMessage, ExtendedContent(supported, passes));
    if |decoded| != 0 {
      assert decoded.Keys != {};
      var f :| f in decoded.Keys;
      assert LastDecode(supported, passes, f) == ValueAt(decoded, f) == Some(decoded[f]);
    }
    if f :| LastDecode(supported, passes, f).Some? {
      assert LastDecode(supported, passes, f) == ValueAt(decoded, f);
      assert f in decoded.Keys;
    }
  }

  // The decodes when the extended group has been read are those at the end of the pass.
  lemma DecodedBeforeExtended(supported: set<Field>, passes: seq<Pass>, p: Pass)
    requires (|passes| + 1) % 30 == 0
    ensures var b := SlowPart(FastPart(Run(supported, passes), p), p);
            forall f :: ValueAt(Read(b, Extended, p).decoded, f)
                        == LastDecode(supported, passes + [p], f)
  {
    var s := Run(supported, passes);
    var a := FastPart(s, p);
    RunCounts(supported, passes);
    SampleDecodes(s, Fast, FastMessage, p, p.fast);
    SlowDecodes(a, p);
    CountNext(|passes|);
    forall f ensures ValueAt(Read(SlowPart(a, p), Extended, p).decoded, f)
                     == LastDecode(supported, passes + [p], f) {
      RunDecodes(supported, passes, f);
      NextDecode(supported, passes, p, f);
      ReadAt(SlowPart(a, p), Extended, p, f);
      ReadAt(a, Slow, p, f);
      ReadAt(s, Fast, p, f);
    }
  }

  /** What one pass sends, exactly: at most a fast message, a slow one, one for the extended group and
      two without signals, in that order.  Each field is held exactly if it was ever decoded by the time
      the message is built, with its last value, whether or not the query of this pass succeeded. */
  lemma RunSendsDecodes(supported: set<Field>, passes: seq<Pass>, p: Pass)
    ensures var s, all := Run(supported, passes), passes + [p];
            var n := |all|;
            Fields(Run(supported, all).sent)
            == Fields(s.sent)
               + If(Due(s, Fast, p) && Handed(p.fast), FastContent(supported, all))
               + If(n % 5 == 0 && Due(s, Slow, p) && Handed(p.slow), SlowContent(supported, passes, p))
               + If(n % 30 == 0 && (exists f :: LastDecode(supported, all, f).Some?)
                    && Handed(p.extended), ExtendedContent(supported, all))
               + DiagnosticOut(n % 60 == 0, p)
  {
    var s, all := Run(supported, passes), passes + [p];
    var a := FastPart(s, p);
    assert all[..|passes|] == passes;
    RunCounts(supported, passes);
    CountNext(|passes|);
    TickFields(s, p);
    FastContentIs(supported, passes, p);
    FastLeavesSlow(s, p);
    SlowDecodes(a, p);
    if (|passes| + 1) % 5 == 0 {
      SlowContentIs(supported, passes, p);
    }
    if (|passes| + 1) % 30 == 0 {
      DecodedBeforeExtended(supported, passes, p);
      ExtendedContentIs(supported, all, Read(SlowPart(a, p), Extended, p).decoded);
    }
  }

  // ----- queries that fail -----

  /** "A PID that times out is omitted", for the fields that were due in this pass. */
  ghost predicate OmitsFailed(fields: map<Field, real>, g: Group, p: Pass) {
    forall f :: GroupOf(f) == g && f !in p.decodes ==> f !in fields
  }

  // Every field of the group that was ever decoded is decoded again in this pass.
  ghost predicate AllDecodedAgain(supported: set<Field>, passes: seq<Pass>, g: Group, p: Pass) {
    forall f :: GroupOf(f) == g && LastDecode(supported, passes, f).Some? ==> f in p.decodes
  }

  /** A message omits the fields whose queries failed exactly when none of them was ever decoded before:
      for a fast message, and for the slow and the extended fields of the messages sent in the passes
      that read them. */
  lemma OmitsFailedIff(supported: set<Field>, passes: seq<Pass>, p: Pass)
    ensures var all := passes + [p];
            var n := |all|;
            && (OmitsFailed(FastContent(supported, all), Fast, p) <==>
                  AllDecodedAgain(supported, passes, Fast, p))
            && (OmitsFailed(SlowContent(supported, passes, p), Slow, p) <==>
                  AllDecodedAgain(supported, passes, Slow, p))
            && (OmitsFailed(ExtendedContent(supported, all), Slow, p) <==>
                  AllDecodedAgain(supported, passes, Slow, p))
            && (OmitsFailed(ExtendedContent(supported, all), Extended, p) <==>
                  AllDecodedAgain(supported, passes, Extended, p))
  {
    forall f ensures f !in p.decodes ==>
                       LastDecode(supported, passes + [p], f) == LastDecode(supported, passes, f) {
      NextDecode(supported, passes, p, f);
    }
    OmitsIff(supported, passes, FastContent(supported, passes + [p]), Fast, p);
    OmitsIff(supported, passes, SlowContent(supported, passes, p), Slow, p);
    OmitsIff(supported, passes, ExtendedContent(supported, passes + [p]), Slow, p);
    OmitsIff(supported, passes, ExtendedContent(supported, passes + [p]), Extended, p);
  }

  lemma OmitsIff(supported: set<Field>, passes: seq<Pass>, fields: map<Field, real>, g: Group, p: Pass)
    requires forall f :: GroupOf(f) == g && f !in p.decodes ==>
               (f in fields <==> LastDecode(supported, passes, f).Some?)
    ensures OmitsFailed(fields, g, p) <==> AllDecodedAgain(supported, passes, g, p)
  {
  }

  // After the first of two passes has decoded 800 rpm and had it acknowledged.
  lemma SecondSends(s: Client, speed: real)
    requires s.supported == {Rpm, Speed} && s.decoded == map[Rpm := 800.0] && s.slowCount < 4
    requires ValueAt(s.remembered, Speed) == Some(0.0) && speed >= 1.0
    ensures Due(s, Fast, Decoding(map[Speed := speed]))
    ensures Read(s, Fast, Decoding(map[Speed := speed])).decoded == map[Rpm := 800.0, Speed := speed]
  {
    var r := Read(s, Fast, Decoding(map[Speed := speed]));
    assert Watched(Speed, Fast);
    assert r.decoded == map[Rpm := 800.0, Speed := speed];
  }

  /** It fails for the engine speed: the query of the second pass fails, and the second message carries
      the 800 rpm of the first. */
  lemma TimedOutStillSent()
    ensures var first, second := Decoding(map[Rpm := 800.0]), Decoding(map[Speed := 50.0]);
            var sent := Run({Rpm, Speed}, [first, second]).sent;
            |sent| == 2 && Rpm !in second.decodes
            && sent[1].fields == map[Rpm := 800.0, Speed := 50.0]
  {
    var first, second := Decoding(map[Rpm := 800.0]), Decoding(map[Speed := 50.0]);
    TwoPasses({Rpm, Speed}, first, second);
    SecondHolds(Tick(Boot({Rpm, Speed}), first), second);
  }

  lemma TwoPasses(supported: set<Field>, p: Pass, q: Pass)
    ensures Run(supported, [p, q]) == Tick(Tick(Boot(supported), p), q)
  {
    assert [p, q][..1] == [p] && [p][..0] == [];
    assert Run(supported, [p]) == Tick(Boot(supported), p);
  }

  lemma SecondHolds(s: Client, second: Pass)
    requires s == Tick(Boot({Rpm, Speed}), Decoding(map[Rpm := 800.0]))
    requires second == Decoding(map[Speed := 50.0])
    ensures var sent := Tick(s, second).sent;
            |sent| == 2 && sent[1].fields == map[Rpm := 800.0, Speed := 50.0]
  {
    FirstPass();
    FirstSends();
    SecondSends(s, 50.0);
    TwoSent(s, second, map[Rpm := 800.0, Speed := 50.0]);
  }

  // A pass in which only the fast group is due.
  lemma FastOnly(s: Client, p: Pass)
    requires s.slowCount < 4 && s.extendedCount < 29 && s.diagnosticCount < 59
    ensures Fields(Tick(s, p).sent) == Fields(s.sent) + FastOut(s, p)
  {
    TickFields(s, p);
    SampleDecodes(s, Fast, FastMessage, p, p.fast);
    SlowDecodes(FastPart(s, p), p);
  }

  lemma FirstDue()
    ensures Due(Boot({Rpm, Speed}), Fast, Decoding(map[Rpm := 800.0]))
  {
    assert Watched(Rpm, Fast);
  }

  lemma FirstSends()
    ensures var s := Tick(Boot({Rpm, Speed}), Decoding(map[Rpm := 800.0]));
            && s.decoded == map[Rpm := 800.0] && |s.sent| == 1 && s.slowCount == 1
            && s.extendedCount == 1 && s.diagnosticCount == 1 && s.supported == {Rpm, Speed}
  {
    var s, p := Boot({Rpm, Speed}), Decoding(map[Rpm := 800.0]);
    TickDecodes(s, p);
    FirstDecodes(s, p);
    OneSent(s, p);
  }

  lemma FirstDecodes(s: Client, p: Pass)
    requires s == Boot({Rpm, Speed}) && p == Decoding(map[Rpm := 800.0])
    ensures Decoded(s, p) == map[Rpm := 800.0]
  {
    assert Decodes(s.supported, Fast, p.decodes) == map[Rpm := 800.0];
  }

  lemma OneSent(s: Client, p: Pass)
    requires s == Boot({Rpm, Speed}) && p == Decoding(map[Rpm := 800.0])
    ensures |Tick(s, p).sent| == 1
  {
    FirstDue();
    FastOnly(s, p);
    assert |Fields(Tick(s, p).sent)| == 1;
  }

  lemma TwoSent(s: Client, p: Pass, fields: map<Field, real>)
    requires |s.sent| == 1 && s.slowCount < 4 && s.extendedCount < 29 && s.diagnosticCount < 59
    requires Due(s, Fast, p) && p.fast == Acknowledged && Read(s, Fast, p).decoded == fields
    requires forall f :: f in fields ==> GroupOf(f) == Fast
    ensures |Tick(s, p).sent| == 2 && Tick(s, p).sent[1].fields == fields
  {
    FastOnly(s, p);
    assert Content(fields, FastMessage) == fields;
    SecondOfTwo(Tick(s, p).sent, s.sent, fields);
  }

  lemma SecondOfTwo(sent: seq<Message>, before: seq<Message>, fields: map<Field, real>)
    requires |before| == 1 && Fields(sent) == Fields(before) + [fields]
    ensures |sent| == 2 && sent[1].fields == fields
  {
    assert |Fields(sent)| == 2 && Fields(sent)[1] == fields;
  }

  // ----- what the gateway has acknowledged -----

  // What is remembered of a signal, against what was acknowledged last.  Before its first decode a
  // signal is remembered as zero, which is never acknowledged.
  ghost predicate AcksOk(decoded: map<Field, real>, remembered: map<Field, real>,
                         acked: map<Field, real>, echoed: map<Field, real>)
  {
    && acked.Keys <= decoded.Keys
    && (forall f :: f in remembered ==> GroupOf(f) == Fast || GroupOf(f) == Slow)
    && (forall f :: f in echoed ==> (GroupOf(f) == Slow || GroupOf(f) == Extended)
                                    && f in acked && acked[f] == echoed[f])
    && (forall f :: f in remembered && f !in echoed ==> remembered[f] == Value(acked, f))
    && (forall f :: f in acked && f !in remembered ==> f in echoed || GroupOf(f) == Extended)
  }

  ghost predicate Acks(s: Client) {
    AcksOk(s.decoded, s.remembered, s.acked, s.echoed)
  }

  lemma ReadKeepsAcks(s: Client, g: Group, p: Pass)
    requires Acks(s)
    ensures Acks(Read(s, g, p))
  {
  }

  lemma AckKeepsAcks(decoded: map<Field, real>, remembered: map<Field, real>,
                     acked: map<Field, real>, echoed: map<Field, real>, g: Group)
    requires AcksOk(decoded, remembered, acked, echoed) && (g == Fast || g == Slow)
    ensures AcksOk(decoded, remembered + Snapshot(decoded, g),
                   acked + Content(decoded, if g == Fast then FastMessage else SlowMessage),
                   if g == Slow then map[] else echoed)
  {
  }

  lemma EchoKeepsAcks(decoded: map<Field, real>, remembered: map<Field, real>,
                      acked: map<Field, real>, echoed: map<Field, real>)
    requires AcksOk(decoded, remembered, acked, echoed)
    ensures AcksOk(decoded, remembered, acked + Content(decoded, SlowMessage),
                   echoed + Content(decoded, SlowMessage))
  {
  }

  lemma OtherKeepsAcks(s: Client, d: Delivery)
    ensures Publish(s, OtherMessage, d).acked == s.acked
  {
  }

  predicate Pairs(g: Group, kind: MessageKind) {
    (g == Fast && kind == FastMessage) || (g == Slow && kind == SlowMessage)
  }

  lemma SampleKeepsAcks(s: Client, g: Group, kind: MessageKind, p: Pass, d: Delivery)
    requires Acks(s) && Pairs(g, kind)
    ensures Acks(SampleAndSend(s, g, kind, p, d))
  {
    var r := Read(s, g, p);
    ReadKeepsAcks(s, g, p);
    AckKeepsAcks(r.decoded, r.remembered, r.acked, r.echoed, g);
  }

  lemma SlowKeepsAcks(s: Client, p: Pass)
    requires Acks(s)
    ensures Acks(SlowPart(s, p))
  {
    SampleKeepsAcks(s.(slowCount := 0), Slow, SlowMessage, p, p.slow);
  }

  lemma SendExtendedKeeps(s: Client, d: Delivery)
    requires Acks(s)
    ensures var q := SendExtended(s, d);
            && Acks(q) && q.decoded == s.decoded && q.remembered == s.remembered
            && SameOn(Fast, s.acked, q.acked)
  {
    PublishKeeps(s, SlowMessage, d);
    EchoKeepsAcks(s.decoded, s.remembered, s.acked, s.echoed);
    ContentLeaves(s.acked, s.decoded, SlowMessage, Fast);
  }

  lemma ExtendedKeepsAcks(s: Client, p: Pass)
    requires Acks(s)
    ensures Acks(ExtendedPart(s, p))
  {
    if s.extendedCount + 1 >= 30 {
      ReadKeepsAcks(s.(extendedCount := 0), Extended, p);
      SendExtendedKeeps(Read(s.(extendedCount := 0), Extended, p), p.extended);
    }
  }

  lemma DiagnosticKeepsAcks(s: Client, p: Pass)
    ensures var s' := DiagnosticPart(s, p);
            && s'.decoded == s.decoded && s'.remembered == s.remembered
            && s'.acked == s.acked && s'.echoed == s.echoed
  {
    var d := s.(diagnosticCount := 0);
    OtherKeepsAcks(d, p.diagnostic);
    PublishKeeps(d, OtherMessage, p.diagnostic);
    OtherKeepsAcks(Publish(d, OtherMessage, p.diagnostic), p.dtc);
    PublishKeeps(Publish(d, OtherMessage, p.diagnostic), OtherMessage, p.dtc);
  }

  lemma TickKeepsAcks(s: Client, p: Pass)
    requires Acks(s)
    ensures Acks(Tick(s, p))
  {
    SampleKeepsAcks(s, Fast, FastMessage, p, p.fast);
    SlowKeepsAcks(FastPart(s, p), p);
    ExtendedKeepsAcks(SlowPart(FastPart(s, p), p), p);
    DiagnosticKeepsAcks(ExtendedPart(SlowPart(FastPart(s, p), p), p), p);
  }

  lemma {:induction false} RunAcks(supported: set<Field>, passes: seq<Pass>)
    ensures Acks(Run(supported, passes))
  {
    if |passes| > 0 {
      RunAcks(supported, passes[..|passes| - 1]);
      TickKeepsAcks(Run(supported, passes[..|passes| - 1]), passes[|passes| - 1]);
    }
  }

  // ----- what a pass leaves alone -----

  ghost predicate SameOn(g: Group, x: map<Field, real>, y: map<Field, real>) {
    forall f :: GroupOf(f) == g ==> (f in x <==> f in y) && Value(x, f) == Value(y, f)
  }

  ghost predicate SameGroup(g: Group, s: Client, s': Client) {
    SameOn(g, s.decoded, s'.decoded) && SameOn(g, s.remembered, s'.remembered)
    && SameOn(g, s.acked, s'.acked)
  }

  // The fast group and the slow group do not touch each other.
  lemma SampleLeaves(s: Client, g: Group, kind: MessageKind, h: Group, p: Pass,
                     d: Delivery)
    requires Pairs(g, kind) && g != h && (h == Fast || h == Slow)
    ensures SameGroup(h, s, SampleAndSend(s, g, kind, p, d))
  {
    var r := Read(s, g, p);
    ContentLeaves(r.acked, r.decoded, kind, h);
    RememberLeaves(r.remembered, r.decoded, g, h);
    ReadLeaves(s, g, h, p);
  }

  lemma ContentLeaves(acked: map<Field, real>, decoded: map<Field, real>,
                      kind: MessageKind, h: Group)
    requires (h == Fast && kind != FastMessage) || (h == Slow && kind != SlowMessage)
    ensures SameOn(h, acked, acked + Content(decoded, kind))
  {
  }

  lemma RememberLeaves(remembered: map<Field, real>, decoded: map<Field, real>,
                       g: Group, h: Group)
    requires g != h
    ensures SameOn(h, remembered, remembered + Snapshot(decoded, g))
  {
  }

  lemma SlowLeavesFast(s: Client, p: Pass)
    ensures SameGroup(Fast, s, SlowPart(s, p))
  {
    SampleLeaves(s.(slowCount := 0), Slow, SlowMessage, Fast, p, p.slow);
  }

  lemma ReadLeaves(s: Client, g: Group, h: Group, p: Pass)
    requires g != h
    ensures SameOn(h, s.decoded, Read(s, g, p).decoded)
  {
  }

  lemma ExtendedLeaves(s: Client, p: Pass)
    requires Acks(s)
    ensures Acks(ExtendedPart(s, p)) && SameGroup(Fast, s, ExtendedPart(s, p))
    ensures SameOn(Slow, s.decoded, ExtendedPart(s, p).decoded)
    ensures ExtendedPart(s, p).remembered == s.remembered
  {
    var t := s.(extendedCount := 0);
    if s.extendedCount + 1 >= 30 {
      ReadKeepsAcks(t, Extended, p);
      ReadLeaves(t, Extended, Fast, p);
      ReadLeaves(t, Extended, Slow, p);
      SendExtendedKeeps(Read(t, Extended, p), p.extended);
    }
  }

  lemma WithinSame(g: Group, x: map<Field, real>, y: map<Field, real>,
                   x': map<Field, real>, y': map<Field, real>)
    requires SameOn(g, x, x') && SameOn(g, y, y')
    ensures Within(g, x, y) <==> Within(g, x', y')
  {
    forall f | Watched(f, g) ensures f in y <==> f in y' {
    }
  }

  // ----- the fast signals -----

  /** Every watched signal of the group is close to the value acknowledged last, or to zero if none of
      its values was ever acknowledged. */
  ghost predicate Current(g: Group, s: Client) {
    forall f :: Watched(f, g) ==> Close(f, Value(s.decoded, f), Value(s.acked, f))
  }

  // A message of the group was due and was not acknowledged.
  predicate Failed(s: Client, g: Group, p: Pass, d: Delivery) {
    Due(s, g, p) && d != Acknowledged
  }

  lemma SampleWithin(s: Client, g: Group, kind: MessageKind, p: Pass, d: Delivery)
    requires Pairs(g, kind)
    ensures var s' := SampleAndSend(s, g, kind, p, d);
            && (Within(g, s'.decoded, s'.remembered) <==> !Failed(s, g, p, d))
            && (Failed(s, g, p, d) ==> s'.remembered == s.remembered && s'.acked == s.acked)
  {
    var r := Read(s, g, p);
    RememberedWithin(r.decoded, r.remembered, g);
  }

  lemma RememberedWithin(decoded: map<Field, real>, remembered: map<Field, real>,
                         g: Group)
    ensures Within(g, decoded, remembered + Snapshot(decoded, g))
  {
  }

  // After `part`, nothing of the fast group changes any more in the pass.
  lemma RestLeavesFast(s: Client, part: Client, p: Pass)
    requires Acks(s) && part == FastPart(s, p)
    ensures Acks(Tick(s, p)) && SameGroup(Fast, part, Tick(s, p))
  {
    SampleKeepsAcks(s, Fast, FastMessage, p, p.fast);
    SlowLeavesFast(part, p);
    SlowKeepsAcks(part, p);
    ExtendedLeaves(SlowPart(part, p), p);
    DiagnosticKeepsAcks(ExtendedPart(SlowPart(part, p), p), p);
  }

  lemma WithinIsCurrent(g: Group, s: Client)
    requires Acks(s) && g == Fast && Within(g, s.decoded, s.remembered)
    ensures Current(g, s)
  {
  }

  // No fast signal is decoded without having been acknowledged.
  ghost predicate AllAcked(decoded: map<Field, real>, acked: map<Field, real>) {
    forall f :: GroupOf(f) == Fast && f in decoded ==> f in acked
  }

  /** One pass, for the fast signals.  Either a message was due and was not acknowledged, and then nothing
      is taken for sent; or every signal is close to the value acknowledged last.  `Within` afterwards
      tells the two apart. */
  lemma TickFast(s: Client, p: Pass)
    requires Acks(s)
    ensures var s' := Tick(s, p);
            var failed := Failed(s, Fast, p, p.fast);
            && (failed <==> !Within(Fast, s'.decoded, s'.remembered))
            && (failed ==> SameOn(Fast, s.remembered, s'.remembered) && SameOn(Fast, s.acked, s'.acked))
            && (!failed ==> Current(Fast, s'))
  {
    var a, s' := FastPart(s, p), Tick(s, p);
    SampleWithin(s, Fast, FastMessage, p, p.fast);
    RestLeavesFast(s, a, p);
    WithinSame(Fast, a.decoded, a.remembered, s'.decoded, s'.remembered);
    if Within(Fast, s'.decoded, s'.remembered) {
      WithinIsCurrent(Fast, s');
    }
  }

  /** The same in every run. */
  lemma FastAfterEveryPass(supported: set<Field>, passes: seq<Pass>, p: Pass)
    ensures var s, s' := Run(supported, passes), Run(supported, passes + [p]);
            var failed := Failed(s, Fast, p, p.fast);
            && (failed <==> !Within(Fast, s'.decoded, s'.remembered))
            && (failed ==> SameOn(Fast, s.remembered, s'.remembered) && SameOn(Fast, s.acked, s'.acked))
            && (!failed ==> Current(Fast, s'))
  {
    assert (passes + [p])[..|passes|] == passes;
    RunAcks(supported, passes);
    TickFast(Run(supported, passes), p);
  }

  lemma FastAcked(s: Client, p: Pass)
    requires Acks(s)
    ensures var a := FastPart(s, p);
            var r := Read(s, Fast, p);
            AllAcked(a.decoded, a.acked) <==>
              ((!Within(Fast, r.decoded, s.remembered) && p.fast == Acknowledged)
               || forall f :: GroupOf(f) == Fast && f in r.decoded ==> f in s.acked)
  {
    PublishKeeps(Read(s, Fast, p), FastMessage, p.fast);
  }

  lemma AllAckedSame(s: Client, s': Client)
    requires SameGroup(Fast, s, s')
    ensures AllAcked(s.decoded, s.acked) <==> AllAcked(s'.decoded, s'.acked)
  {
  }

  /** "The gateway knows every decoded fast signal" holds after a pass exactly when a message is due and
      acknowledged, or every fast signal decoded by then was acknowledged before: a first value close to
      zero is taken for sent, and stays unknown until some other signal drifts. */
  lemma FastKnownIff(s: Client, p: Pass)
    requires Acks(s)
    ensures var s' := Tick(s, p);
            var r := Read(s, Fast, p);
            AllAcked(s'.decoded, s'.acked) <==>
              ((!Within(Fast, r.decoded, s.remembered) && p.fast == Acknowledged)
               || forall f :: GroupOf(f) == Fast && f in r.decoded ==> f in s.acked)
  {
    FastAcked(s, p);
    RestLeavesFast(s, FastPart(s, p), p);
    AllAckedSame(FastPart(s, p), Tick(s, p));
  }

  // ----- the slow signals -----

  // What the extended group had acknowledged is still close.
  ghost predicate EchoesClose(s: Client) {
    forall f :: Watched(f, Slow) && f in s.echoed ==> Close(f, Value(s.decoded, f), s.echoed[f])
  }

  lemma SlowCurrentIff(s: Client)
    requires Acks(s) && Within(Slow, s.decoded, s.remembered)
    ensures Current(Slow, s) <==> EchoesClose(s)
  {
    forall f | Watched(f, Slow)
      ensures Value(s.acked, f) == if f in s.echoed then s.echoed[f] else s.remembered[f] {
    }
  }

  lemma RestLeavesSlow(s: Client, b: Client, p: Pass)
    requires Acks(s) && b == SlowPart(FastPart(s, p), p)
    ensures var s' := Tick(s, p);
            Acks(s') && SameOn(Slow, b.decoded, s'.decoded) && s'.remembered == b.remembered
  {
    SampleKeepsAcks(s, Fast, FastMessage, p, p.fast);
    SlowKeepsAcks(FastPart(s, p), p);
    ExtendedLeaves(b, p);
    DiagnosticKeepsAcks(ExtendedPart(b, p), p);
  }

  lemma FastLeavesSlow(s: Client, p: Pass)
    ensures SameGroup(Slow, s, FastPart(s, p)) && SameCounts(s, FastPart(s, p))
    ensures Due(s, Slow, p) <==> Due(FastPart(s, p), Slow, p)
    ensures Failed(s, Slow, p, p.slow) <==> Failed(FastPart(s, p), Slow, p, p.slow)
  {
    SampleLeaves(s, Fast, FastMessage, Slow, p, p.fast);
    SampleDecodes(s, Fast, FastMessage, p, p.fast);
    var a := FastPart(s, p);
    ReadSame(s, a, p);
    WithinSame(Slow, Read(s, Slow, p).decoded, s.remembered, Read(a, Slow, p).decoded, a.remembered);
  }

  lemma ReadSame(s: Client, a: Client, p: Pass)
    requires SameOn(Slow, s.decoded, a.decoded) && s.supported == a.supported
    ensures SameOn(Slow, Read(s, Slow, p).decoded, Read(a, Slow, p).decoded)
  {
  }

  /** One pass in which the slow group is read.  Either a message was due and was not acknowledged, and
      then nothing is taken for sent; or every signal is close to the value acknowledged last exactly if
      it is close to what the extended group had acknowledged since. */
  lemma TickSlow(s: Client, p: Pass)
    requires Acks(s) && s.slowCount + 1 >= 5
    ensures var s' := Tick(s, p);
            var failed := Failed(s, Slow, p, p.slow);
            && (failed <==> !Within(Slow, s'.decoded, s'.remembered))
            && (failed ==> SameOn(Slow, s.remembered, s'.remembered))
            && (!failed ==> (Current(Slow, s') <==> EchoesClose(s')))
  {
    var a, s' := FastPart(s, p), Tick(s, p);
    var b := SlowPart(a, p);
    FastLeavesSlow(s, p);
    SampleWithin(a.(slowCount := 0), Slow, SlowMessage, p, p.slow);
    RestLeavesSlow(s, b, p);
    WithinSame(Slow, b.decoded, b.remembered, s'.decoded, s'.remembered);
    if Within(Slow, s'.decoded, s'.remembered) {
      SlowCurrentIff(s');
    }
  }

  /** The same in every run. */
  lemma SlowAfterEveryFifthPass(supported: set<Field>, passes: seq<Pass>, p: Pass)
    requires (|passes| + 1) % 5 == 0
    ensures var s, s' := Run(supported, passes), Run(supported, passes + [p]);
            var failed := Failed(s, Slow, p, p.slow);
            && (failed <==> !Within(Slow, s'.decoded, s'.remembered))
            && (failed ==> SameOn(Slow, s.remembered, s'.remembered))
            && (!failed ==> (Current(Slow, s') <==> EchoesClose(s')))
  {
    assert (passes + [p])[..|passes|] == passes;
    RunAcks(supported, passes);
    RunCounts(supported, passes);
    CountNext(|passes|);
    TickSlow(Run(supported, passes), p);
  }

  // A reading that is not due, but far from the acknowledged value.
  function Stray(f: Field, remembered: real, acked: real): (x: real)
    requires Deadband(f).Some? && remembered != acked
    ensures Close(f, x, remembered) && !Close(f, x, acked)
  {
    var d := Deadband(f).value;
    var e := if Distance(remembered, acked) < d then Distance(remembered, acked) / 2.0 else d / 2.0;
    if acked > remembered then remembered - (d - e) else remembered + (d - e)
  }

  // Whatever is read next, if nothing is due then every slow signal is close to what is acknowledged.
  ghost predicate SlowSafe(s: Client) {
    forall readings: map<Field, real> ::
      Within(Slow, readings, s.remembered) ==> Current(Slow, s.(decoded := readings))
  }

  // The extended group had nothing acknowledged but the remembered values.
  ghost predicate EchoesRemembered(s: Client) {
    forall f :: Watched(f, Slow) && f in s.echoed ==> ValueAt(s.remembered, f) == Some(s.echoed[f])
  }

  // Some slow signal was never remembered, so that a message is due whatever is read.
  ghost predicate AlwaysDue(s: Client) {
    exists f :: Watched(f, Slow) && f !in s.remembered
  }

  /** Before the next slow readings: they can go wrong without a message being due exactly when every
      signal is remembered, and the extended group had some other value acknowledged than the one
      remembered. */
  lemma SlowSafeIff(s: Client)
    requires Acks(s)
    ensures SlowSafe(s) <==> AlwaysDue(s) || EchoesRemembered(s)
  {
    if AlwaysDue(s) {
      assert forall readings: map<Field, real> :: !Within(Slow, readings, s.remembered);
    } else if EchoesRemembered(s) {
      forall f | Watched(f, Slow) ensures Value(s.acked, f) == s.remembered[f] {
      }
    } else {
      var f :| Watched(f, Slow) && f in s.echoed && ValueAt(s.remembered, f) != Some(s.echoed[f]);
      var readings := s.remembered[f := Stray(f, s.remembered[f], s.echoed[f])];
      assert Within(Slow, readings, s.remembered);
      assert !Current(Slow, s.(decoded := readings));
    }
  }

  // ----- the run that leaves the gateway with a stale temperature -----

  // A pass that reads this coolant temperature and nothing else.
  function Reading(x: real, slow: Delivery): Pass {
    Pass(map[Coolant := x], Acknowledged, slow, Acknowledged, Acknowledged, Acknowledged)
  }

  // A client that knows coolant only: its last decode, remembered and acknowledged value.
  ghost predicate Coolants(s: Client, decoded: Option<real>, remembered: Option<real>,
                           acked: Option<real>)
  {
    && s.supported == {Coolant} && ValueAt(s.decoded, Coolant) == decoded
    && ValueAt(s.remembered, Coolant) == remembered && ValueAt(s.acked, Coolant) == acked
    && (forall f :: Watched(f, Slow) && f != Coolant ==>
          f !in s.decoded && ValueAt(s.remembered, f) == if remembered.Some? then Some(0.0) else None)
  }

  predicate Drifts(x: real, remembered: Option<real>) {
    remembered.None? || Distance(x, remembered.value) >= 0.5
  }

  lemma CoolantDue(s: Client, x: real, remembered: Option<real>, acked: Option<real>)
    requires Coolants(s, Some(x), remembered, acked)
    ensures Within(Slow, s.decoded, s.remembered) <==> !Drifts(x, remembered)
  {
    assert Watched(Coolant, Slow);
    assert forall f :: Watched(f, Slow) && f != Coolant ==> Value(s.decoded, f) == 0.0;
  }

  lemma CoolantSame(s: Client, s': Client, d: Option<real>, r: Option<real>,
                    a: Option<real>)
    requires Coolants(s, d, r, a) && SameGroup(Slow, s, s') && s'.supported == s.supported
    ensures Coolants(s', d, r, a)
  {
    assert GroupOf(Coolant) == Slow;
  }

  lemma CoolantRead(s: Client, x: real, slow: Delivery, d: Option<real>,
                    r: Option<real>, a: Option<real>)
    requires Coolants(s, d, r, a)
    ensures Coolants(Read(s, Slow, Reading(x, slow)), Some(x), r, a)
  {
  }

  lemma CoolantAcked(s: Client, x: real, r: Option<real>, a: Option<real>)
    requires Coolants(s, Some(x), r, a)
    ensures Coolants(Remember(Publish(s, SlowMessage, Acknowledged), Slow), Some(x), Some(x), Some(x))
    ensures Coolants(SendExtended(s, Acknowledged), Some(x), r, Some(x))
  {
    assert Carries(SlowMessage, Coolant) && GroupOf(Coolant) == Slow;
  }

  lemma CoolantSlow(s: Client, x: real, slow: Delivery, d: Option<real>,
                    r: Option<real>, a: Option<real>)
    requires Coolants(s, d, r, a) && s.slowCount + 1 >= 5
    requires slow == Acknowledged || slow == Unacknowledged
    ensures var sent := Drifts(x, r) && slow == Acknowledged;
            Coolants(SlowPart(s, Reading(x, slow)), Some(x), if sent then Some(x) else r,
                     if sent then Some(x) else a)
  {
    var t := s.(slowCount := 0);
    var q := Read(t, Slow, Reading(x, slow));
    CoolantRead(t, x, slow, d, r, a);
    CoolantDue(q, x, r, a);
    CoolantAcked(q, x, r, a);
    PublishKeeps(q, SlowMessage, slow);
  }

  lemma CoolantFast(s: Client, x: real, slow: Delivery, d: Option<real>,
                    r: Option<real>, a: Option<real>)
    requires Coolants(s, d, r, a)
    ensures Coolants(FastPart(s, Reading(x, slow)), d, r, a)
    ensures FastPart(s, Reading(x, slow)).slowCount == s.slowCount
    ensures FastPart(s, Reading(x, slow)).extendedCount == s.extendedCount
  {
    FastLeavesSlow(s, Reading(x, slow));
    CoolantSame(s, FastPart(s, Reading(x, slow)), d, r, a);
  }

  lemma CoolantExtended(s: Client, x: real, slow: Delivery, d: real,
                        r: Option<real>, a: Option<real>)
    requires Coolants(s, Some(d), r, a) && s.extendedCount + 1 >= 30
    ensures Coolants(ExtendedPart(s, Reading(x, slow)), Some(d), r, Some(d))
  {
    var t := s.(extendedCount := 0);
    var q := Read(t, Extended, Reading(x, slow));
    assert q == t by {
      assert Decodes(t.supported, Extended, map[Coolant := x]) == map[];
    }
    assert Coolant in q.decoded;
    CoolantAcked(t, d, r, a);
  }

  lemma CoolantDiagnostic(s: Client, p: Pass, d: Option<real>, r: Option<real>,
                          a: Option<real>)
    requires Coolants(s, d, r, a)
    ensures Coolants(DiagnosticPart(s, p), d, r, a)
  {
    DiagnosticKeepsAcks(s, p);
    DiagnosticDecodes(s, p);
  }

  // The n-th pass, if it does not read the slow group.
  lemma CoolantIdle(s: Client, x: real, slow: Delivery, d: Option<real>,
                    r: Option<real>, a: Option<real>)
    requires Coolants(s, d, r, a) && s.slowCount + 1 < 5 && s.extendedCount + 1 < 30
    ensures Coolants(Tick(s, Reading(x, slow)), d, r, a)
  {
    var p := Reading(x, slow);
    CoolantFast(s, x, slow, d, r, a);
    var f := FastPart(s, p);
    CoolantDiagnostic(ExtendedPart(SlowPart(f, p), p), p, d, r, a);
  }

  lemma CoolantFifth(s: Client, x: real, slow: Delivery, d: Option<real>,
                     r: Option<real>, a: Option<real>)
    requires Coolants(s, d, r, a) && s.slowCount + 1 >= 5
    requires slow == Acknowledged || slow == Unacknowledged
    ensures var sent := Drifts(x, r) && slow == Acknowledged;
            Coolants(Tick(s, Reading(x, slow)), Some(x), if sent then Some(x) else r,
                     if sent || s.extendedCount + 1 >= 30 then Some(x) else a)
  {
    var p := Reading(x, slow);
    var sent := Drifts(x, r) && slow == Acknowledged;
    var r', a' := if sent then Some(x) else r, if sent then Some(x) else a;
    CoolantFast(s, x, slow, d, r, a);
    var f := FastPart(s, p);
    CoolantSlow(f, x, slow, d, r, a);
    SlowDecodes(f, p);
    var b := SlowPart(f, p);
    if b.extendedCount + 1 >= 30 {
      CoolantExtended(b, x, slow, x, r', a');
      CoolantDiagnostic(ExtendedPart(b, p), p, Some(x), r', Some(x));
    } else {
      CoolantDiagnostic(ExtendedPart(b, p), p, Some(x), r', a');
    }
  }

  /** The passes of the run: 90 degrees throughout, except for one reading of 120 in the pass that also
      sends the extended group, while the slow message of that pass fails. */
  function DriftPass(n: nat): Pass {
    if n == 29 then Reading(120.0, Unacknowledged) else Reading(90.0, Acknowledged)
  }

  function Drift(n: nat): (r: seq<Pass>)
    ensures |r| == n
  {
    if n == 0 then [] else Drift(n - 1) + [DriftPass(n - 1)]
  }

  lemma DriftStep(n: nat)
    requires n > 0
    ensures Run({Coolant}, Drift(n)) == Tick(Run({Coolant}, Drift(n - 1)), DriftPass(n - 1))
    ensures CountsAre(Run({Coolant}, Drift(n - 1)), n - 1)
  {
    assert Drift(n)[..n - 1] == Drift(n - 1);
    RunCounts({Coolant}, Drift(n - 1));
  }

  // Decoded, remembered and acknowledged coolant after `n` passes.
  datatype Temperatures = Temperatures(decoded: Option<real>, remembered: Option<real>,
                                       acked: Option<real>)

  function Drifted(n: nat): Temperatures {
    if n < 5 then Temperatures(None, None, None)
    else if n < 30 then Temperatures(Some(90.0), Some(90.0), Some(90.0))
    else if n < 35 then Temperatures(Some(120.0), Some(90.0), Some(120.0))
    else Temperatures(Some(90.0), Some(90.0), Some(120.0))
  }

  ghost predicate DriftedTo(s: Client, t: Temperatures) {
    Coolants(s, t.decoded, t.remembered, t.acked)
  }

  // What a pass that reads the slow group makes of the three temperatures.
  function Fifth(t: Temperatures, x: real, slow: Delivery, extended: bool): Temperatures {
    var sent := Drifts(x, t.remembered) && slow == Acknowledged;
    Temperatures(Some(x), if sent then Some(x) else t.remembered,
                 if sent || extended then Some(x) else t.acked)
  }

  lemma DriftArithmetic(n: nat)
    requires n < 35
    ensures n % 30 + 1 >= 30 <==> n == 29
    ensures n % 5 + 1 < 5 ==> Drifted(n + 1) == Drifted(n) && n != 29
    ensures n % 5 + 1 >= 5 ==>
              Drifted(n + 1) == Fifth(Drifted(n), if n == 29 then 120.0 else 90.0,
                                      if n == 29 then Unacknowledged else Acknowledged, n == 29)
  {
  }

  lemma DriftNext(s: Client, t: Temperatures, x: real, slow: Delivery)
    requires DriftedTo(s, t) && (slow == Acknowledged || slow == Unacknowledged)
    requires s.slowCount + 1 >= 5 || s.extendedCount + 1 < 30
    ensures DriftedTo(Tick(s, Reading(x, slow)),
                      if s.slowCount + 1 >= 5 then Fifth(t, x, slow, s.extendedCount + 1 >= 30) else t)
  {
    if s.slowCount + 1 >= 5 {
      CoolantFifth(s, x, slow, t.decoded, t.remembered, t.acked);
    } else {
      CoolantIdle(s, x, slow, t.decoded, t.remembered, t.acked);
    }
  }

  lemma {:induction false} DriftState(n: nat)
    requires n <= 35
    ensures DriftedTo(Run({Coolant}, Drift(n)), Drifted(n))
  {
    if n > 0 {
      var k := n - 1;
      DriftState(k);
      DriftStep(n);
      DriftArithmetic(k);
      DriftNext(Run({Coolant}, Drift(k)), Drifted(k), if k == 29 then 120.0 else 90.0,
                if k == 29 then Unacknowledged else Acknowledged);
    }
  }

  /** "After a slow pass with nothing due, the gateway knows the slow signals" fails: the car reads 90,
      nothing is due, no message failed in that pass, and the last acknowledged value is 120. */
  lemma SlowDrifts()
    ensures var s := Run({Coolant}, Drift(35));
            && Within(Slow, s.decoded, s.remembered)
            && ValueAt(s.decoded, Coolant) == Some(90.0) && ValueAt(s.acked, Coolant) == Some(120.0)
            && !Current(Slow, s)
  {
    var s := Run({Coolant}, Drift(35));
    DriftState(35);
    CoolantDue(s, 90.0, Some(90.0), Some(120.0));
    assert Watched(Coolant, Slow) && !Close(Coolant, 90.0, 120.0);
  }

  // ----- the run that never tells the gateway a signal -----

  function Decoding(decodes: map<Field, real>): Pass {
    Pass(decodes, Acknowledged, Acknowledged, Acknowledged, Acknowledged, Acknowledged)
  }

  lemma FirstPass()
    ensures var s := Tick(Boot({Rpm, Speed}), Decoding(map[Rpm := 800.0]));
            && s.supported == {Rpm, Speed}
            && ValueAt(s.decoded, Rpm) == Some(800.0) && Speed !in s.decoded
            && ValueAt(s.remembered, Speed) == Some(0.0) && Within(Fast, s.decoded, s.remembered)
            && AllAcked(s.decoded, s.acked) && Acks(s)
  {
    var s, p := Boot({Rpm, Speed}), Decoding(map[Rpm := 800.0]);
    FirstSends();
    FirstDue();
    FastKnownIff(s, p);
    FirstRemembers(s, p);
    RestLeavesFast(s, FastPart(s, p), p);
    TickFast(s, p);
  }

  lemma FirstRemembers(s: Client, p: Pass)
    requires s == Boot({Rpm, Speed}) && p == Decoding(map[Rpm := 800.0]) && Due(s, Fast, p)
    ensures ValueAt(FastPart(s, p).remembered, Speed) == Some(0.0)
  {
    assert GroupOf(Speed) == Fast;
    PublishKeeps(Read(s, Fast, p), FastMessage, p.fast);
  }

  /** "Every decoded fast signal is known to the gateway" fails: after two passes in which every message
      was acknowledged, the speed is decoded and was never sent. */
  lemma SpeedNeverSent()
    ensures var passes := [Decoding(map[Rpm := 800.0]), Decoding(map[Speed := 0.5])];
            var s := Run({Rpm, Speed}, passes);
            && Within(Fast, s.decoded, s.remembered)
            && Speed in s.decoded && Speed !in s.acked
  {
    var first, second := Decoding(map[Rpm := 800.0]), Decoding(map[Speed := 0.5]);
    TwoPasses({Rpm, Speed}, first, second);
    FirstPass();
    SecondPass(Tick(Boot({Rpm, Speed}), first));
  }

  lemma SecondPass(s: Client)
    requires s.supported == {Rpm, Speed} && Acks(s) && AllAcked(s.decoded, s.acked)
    requires ValueAt(s.decoded, Rpm) == Some(800.0) && Speed !in s.decoded
    requires Within(Fast, s.decoded, s.remembered) && ValueAt(s.remembered, Speed) == Some(0.0)
    ensures var s' := Tick(s, Decoding(map[Speed := 0.5]));
            && Within(Fast, s'.decoded, s'.remembered)
            && Speed in s'.decoded && Speed !in s'.acked
  {
    var p := Decoding(map[Speed := 0.5]);
    var r := Read(s, Fast, p);
    assert GroupOf(Speed) == Fast && Deadband(Speed) == Some(1.0);
    forall f | Watched(f, Fast) ensures f in s.remembered && Close(f, Value(r.decoded, f), s.remembered[f]) {
      assert f != Speed ==> Value(r.decoded, f) == Value(s.decoded, f);
    }
    assert FastPart(s, p) == r;
    assert Speed !in r.acked;
    RestLeavesFast(s, r, p);
    WithinSame(Fast, r.decoded, r.remembered, Tick(s, p).decoded, Tick(s, p).remembered);
  }
}
