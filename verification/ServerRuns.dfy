/** Every interleaving of the connections of gateway/lilygo-micropython/tcp_server.py with each other and
    with the publisher of `MqttRuns`.  A connection gives way while it reads and while it drains an
    acknowledgement. */
module ServerRuns {
  import opened Options
  import opened Topics
  import opened MqttQueue
  import opened TcpServer
  import Q = MqttRuns

  datatype Conn = Reading | Draining(frame: Frame)

  // A frame and the connection it came from.
  datatype Taken = Taken(conn: nat, frame: Frame)

  datatype Server = Server(
    queue: Q.System,             // the publish queue with its history
    queueSteps: seq<Q.Step>,     // what has been done to it
    conns: map<nat, Conn>,       // the open connections
    next: nat,                   // how many there ever were
    acknowledged: seq<Taken>,    // the frames for which an acknowledgement was written
    booked: seq<Taken>,          // the frames counted, registered and offered to the queue
    broken: nat)                 // connections that broke while draining

  const UP := Server(Q.BOOT, [], map[], 0, [], [], 0)

  datatype Action =
    | Open
    | Receive(conn: nat, frame: Frame)   // up to `writer.drain()`
    | Drained(conn: nat)                 // from there up to the next read
    | Broken(conn: nat)                  // `drain` raises
    | Publisher(step: Q.Step)            // any step of the publisher task

  predicate Possible(s: Server, a: Action) {
    match a
    case Open => true
    case Receive(c, _) => c in s.conns && s.conns[c].Reading?
    case Drained(c) => c in s.conns && s.conns[c].Draining?
    case Broken(c) => c in s.conns && s.conns[c].Draining?
    case Publisher(step) => !step.Message? && Q.Enabled(s.queue, step)
  }

  function Booked(s: Server, c: nat, f: Frame): Server {
    var t := s.(booked := s.booked + [Taken(c, f)], conns := s.conns[c := Reading]);
    if Acknowledged(f) && f.json.Object?
    then t.(queue := Q.OfferStep(s.queue, EntryOf(f)),
            queueSteps := s.queueSteps + [Q.Message(f.text.value, f.json.fields)])
    else t
  }

  function Do(s: Server, a: Action): Server
    requires Possible(s, a)
    requires SinceOk(s.queue)
    ensures SinceOk(Do(s, a).queue)
  {
    match a
    case Open => s.(conns := s.conns[s.next := Reading], next := s.next + 1)
    case Receive(c, f) =>
      if Acknowledged(f)
      then s.(conns := s.conns[c := Draining(f)], acknowledged := s.acknowledged + [Taken(c, f)])
      else s.(conns := s.conns - {c})
    case Drained(c) => Booked(s, c, s.conns[c].frame)
    case Broken(c) => s.(conns := s.conns - {c}, broken := s.broken + 1)
    case Publisher(step) =>
      s.(queue := Q.Apply(s.queue, step), queueSteps := s.queueSteps + [step])
  }

  // ----- what the interleavings keep -----

  ghost predicate QueueOk(s: Server) {
    Q.Run(s.queueSteps) == Some(s.queue)
  }

  function Waiting(conns: map<nat, Conn>): set<nat> {
    set c | c in conns && conns[c].Draining?
  }

  ghost predicate Balanced(s: Server) {
    |s.acknowledged| == |s.booked| + |Waiting(s.conns)| + s.broken
  }

  function OfConn(frames: seq<Taken>, c: nat): seq<Frame> {
    if |frames| == 0 then []
    else
      var before, last := OfConn(frames[..|frames| - 1], c), frames[|frames| - 1];
      if last.conn == c then before + [last.frame] else before
  }

  // One connection: its booked frames are its acknowledged ones, except perhaps for the last.
  ghost predicate ConnOk(s: Server, c: nat) {
    var written, booked := OfConn(s.acknowledged, c), OfConn(s.booked, c);
    if c in s.conns then
      c < s.next
      && written == booked + (if s.conns[c].Draining? then [s.conns[c].frame] else [])
    else if c < s.next then booked <= written && |written| <= |booked| + 1
    else written == [] && booked == []
  }

  function Messages(frames: seq<Taken>): seq<Entry> {
    if |frames| == 0 then []
    else
      var f := frames[|frames| - 1].frame;
      Messages(frames[..|frames| - 1])
      + (if Acknowledged(f) && f.json.Object? then [EntryOf(f)] else [])
  }

  function WithoutResponses(offers: seq<Entry>): seq<Entry> {
    if |offers| == 0 then []
    else
      var e := offers[|offers| - 1];
      WithoutResponses(offers[..|offers| - 1]) + (if e.kind == Response then [] else [e])
  }

  ghost predicate OffersOk(s: Server) {
    WithoutResponses(s.queue.offers) == Messages(s.booked)
  }

  ghost predicate ServerOk(s: Server) {
    QueueOk(s) && Balanced(s) && OffersOk(s) && (forall c :: ConnOk(s, c))
    && (forall c :: c in s.conns && s.conns[c].Draining? ==> Acknowledged(s.conns[c].frame))
  }

  predicate SinceOk(q: Q.System) {
    q.phase.Publishing? ==> q.phase.since <= |q.offers|
  }

  /** The state after `actions`, or None when some action was not possible. */
  function Run(actions: seq<Action>): (r: Option<Server>)
    ensures r.Some? ==> SinceOk(r.value.queue)
  {
    if |actions| == 0 then Some(UP)
    else
      var before := Run(actions[..|actions| - 1]);
      var last := actions[|actions| - 1];
      if before.Some? && Possible(before.value, last) then Some(Do(before.value, last)) else None
  }

  lemma OfConnAppend(frames: seq<Taken>, t: Taken, c: nat)
    ensures OfConn(frames + [t], c) == OfConn(frames, c) + if t.conn == c then [t.frame] else []
  {
    assert (frames + [t])[..|frames|] == frames;
  }

  lemma OffersAppend(offers: seq<Entry>, e: Entry)
    ensures WithoutResponses(offers + [e])
            == WithoutResponses(offers) + if e.kind == Response then [] else [e]
  {
    assert (offers + [e])[..|offers|] == offers;
  }

  lemma MessagesAppend(frames: seq<Taken>, t: Taken)
    ensures Messages(frames + [t])
            == Messages(frames)
               + if Acknowledged(t.frame) && t.frame.json.Object? then [EntryOf(t.frame)] else []
  {
    assert (frames + [t])[..|frames|] == frames;
  }

  lemma WaitingPut(conns: map<nat, Conn>, c: nat, conn: Conn)
    ensures conn.Draining? ==> Waiting(conns[c := conn]) == Waiting(conns) + {c}
    ensures conn.Reading? ==> Waiting(conns[c := conn]) == Waiting(conns) - {c}
    ensures Waiting(conns - {c}) == Waiting(conns) - {c}
  {
  }

  lemma {:induction false} ReceiveKeeps(s: Server, c: nat, f: Frame)
    requires ServerOk(s) && Possible(s, Receive(c, f)) && SinceOk(s.queue)
    ensures ServerOk(Do(s, Receive(c, f)))
  {
    var s' := Do(s, Receive(c, f));
    WaitingPut(s.conns, c, Draining(f));
    forall k ensures ConnOk(s', k) {
      assert ConnOk(s, k);
      OfConnAppend(s.acknowledged, Taken(c, f), k);
    }
  }

  lemma {:induction false} BrokenKeeps(s: Server, c: nat)
    requires ServerOk(s) && Possible(s, Broken(c)) && SinceOk(s.queue)
    ensures ServerOk(Do(s, Broken(c)))
  {
    var s' := Do(s, Broken(c));
    WaitingPut(s.conns, c, Reading);
    assert c in Waiting(s.conns);
    forall k ensures ConnOk(s', k) {
      assert ConnOk(s, k);
    }
  }

  lemma {:induction false} OpenKeeps(s: Server)
    requires ServerOk(s) && SinceOk(s.queue)
    ensures ServerOk(Do(s, Open))
  {
    var s' := Do(s, Open);
    assert ConnOk(s, s.next);
    WaitingPut(s.conns, s.next, Reading);
    assert s.next !in s.conns;
    forall k ensures ConnOk(s', k) {
      assert ConnOk(s, k);
    }
  }

  lemma {:induction false} BookedKeepsConns(s: Server, c: nat, f: Frame)
    requires ServerOk(s) && c in s.conns && s.conns[c] == Draining(f)
    ensures Balanced(Booked(s, c, f)) && forall k :: ConnOk(Booked(s, c, f), k)
  {
    var s' := Booked(s, c, f);
    WaitingPut(s.conns, c, Reading);
    assert c in Waiting(s.conns);
    forall k ensures ConnOk(s', k) {
      assert ConnOk(s, k);
      OfConnAppend(s.booked, Taken(c, f), k);
    }
  }

  lemma {:induction false} BookedKeepsQueue(s: Server, c: nat, f: Frame)
    requires ServerOk(s) && Acknowledged(f)
    ensures QueueOk(Booked(s, c, f)) && OffersOk(Booked(s, c, f))
  {
    MessagesAppend(s.booked, Taken(c, f));
    if f.json.Object? {
      OffersAppend(s.queue.offers, EntryOf(f));
      ClientKindIsNotResponse(f.json.fields);
      Q.RunAppend(s.queueSteps, Q.Message(f.text.value, f.json.fields));
    }
  }

  lemma PublisherOffers(q: Q.System, step: Q.Step)
    requires !step.Message? && Q.Enabled(q, step)
    requires SinceOk(q)
    ensures WithoutResponses(Q.Apply(q, step).offers) == WithoutResponses(q.offers)
  {
    if step.PollCommand? {
      OffersAppend(q.offers, ResponseEntry(step.payload));
    }
  }

  lemma {:induction false} PublisherKeeps(s: Server, step: Q.Step)
    requires ServerOk(s) && Possible(s, Publisher(step)) && SinceOk(s.queue)
    ensures ServerOk(Do(s, Publisher(step)))
  {
    PublisherOffers(s.queue, step);
    Q.RunAppend(s.queueSteps, step);
    forall k ensures ConnOk(Do(s, Publisher(step)), k) {
      assert ConnOk(s, k);
    }
  }

  lemma {:induction false} ActionKeeps(s: Server, a: Action)
    requires ServerOk(s) && Possible(s, a) && SinceOk(s.queue)
    ensures ServerOk(Do(s, a))
  {
    match a
    case Open => OpenKeeps(s);
    case Receive(c, f) => ReceiveKeeps(s, c, f);
    case Drained(c) =>
      BookedKeepsConns(s, c, s.conns[c].frame);
      BookedKeepsQueue(s, c, s.conns[c].frame);
    case Broken(c) => BrokenKeeps(s, c);
    case Publisher(step) => PublisherKeeps(s, step);
  }

  lemma {:induction false} RunOk(actions: seq<Action>)
    requires Run(actions).Some?
    ensures ServerOk(Run(actions).value)
  {
    if |actions| > 0 {
      var n := |actions| - 1;
      RunOk(actions[..n]);
      ActionKeeps(Run(actions[..n]).value, actions[n]);
    }
  }

  // ----- what holds in every interleaving -----

  /** Whatever the connections do, the publish queue goes through a run of `MqttRuns`: everything proved
      there holds under any number of clients. */
  lemma {:induction false} QueueRuns(actions: seq<Action>)
    requires Run(actions).Some?
    ensures var s := Run(actions).value;
            Q.Run(s.queueSteps) == Some(s.queue) && Q.Inv(s.queue)
  {
    RunOk(actions);
    Q.RunKeepsInv(Run(actions).value.queueSteps);
  }

  /** The client messages offered to the queue are exactly the JSON objects among the booked frames, in
      the order of booking. */
  lemma {:induction false} OffersAreBooked(actions: seq<Action>)
    requires Run(actions).Some?
    ensures var s := Run(actions).value;
            WithoutResponses(s.queue.offers) == Messages(s.booked)
  {
    RunOk(actions);
  }

  /** Every acknowledgement belongs to a booked frame, to a connection that is draining it, or to one
      that broke on it. */
  lemma {:induction false} AcknowledgementsBalance(actions: seq<Action>)
    requires Run(actions).Some?
    ensures var s := Run(actions).value;
            |s.acknowledged| == |s.booked| + |Waiting(s.conns)| + s.broken
  {
    RunOk(actions);
  }

  /** Each connection has its frames booked in the order in which they were acknowledged, all of them but
      perhaps the last one. */
  lemma {:induction false} ConnectionsKeepOrder(actions: seq<Action>, c: nat)
    requires Run(actions).Some?
    ensures var s := Run(actions).value;
            var written, booked := OfConn(s.acknowledged, c), OfConn(s.booked, c);
            booked <= written && |written| <= |booked| + 1
  {
    RunOk(actions);
    assert ConnOk(Run(actions).value, c);
  }

  // ----- a message that is acknowledged and refused -----

  function FrameOf(text: string, dataClass: string): Frame {
    Frame(false, Some(text), Object(map["data_class" := dataClass]))
  }

  // One client sends `n` events, and each is booked before the next one is read.
  function Filling(event: Frame, n: nat): seq<Action> {
    if n == 0 then [] + [Open] else Filling(event, n - 1) + [Receive(0, event)] + [Drained(0)]
  }

  ghost predicate Filled(s: Server, n: nat) {
    && 0 in s.conns && s.conns[0] == Reading && SinceOk(s.queue)
    && s.queue.phase == Q.Idle && s.queue.sent == [] && |s.queue.gw.queue| == n
    && forall i :: 0 <= i < n ==> s.queue.gw.queue[i].kind == Event
  }

  lemma {:induction false} RunNext(actions: seq<Action>, s: Server, a: Action)
    requires Run(actions) == Some(s) && Possible(s, a)
    ensures SinceOk(s.queue) && Run(actions + [a]) == Some(Do(s, a))
  {
    assert (actions + [a])[..|actions|] == actions;
  }

  // One frame received and booked.
  function Served(s: Server, f: Frame): Server
    requires 0 in s.conns && s.conns[0] == Reading && SinceOk(s.queue) && Acknowledged(f)
  {
    Do(Do(s, Receive(0, f)), Drained(0))
  }

  lemma {:induction false} ServedRun(actions: seq<Action>, s: Server, f: Frame)
    requires Run(actions) == Some(s) && 0 in s.conns && s.conns[0] == Reading && Acknowledged(f)
    ensures SinceOk(s.queue)
    ensures Run(actions + [Receive(0, f)] + [Drained(0)]) == Some(Served(s, f))
  {
    RunNext(actions, s, Receive(0, f));
    RunNext(actions + [Receive(0, f)], Do(s, Receive(0, f)), Drained(0));
  }

  lemma {:induction false} EventServed(s: Server, f: Frame, n: nat)
    requires Filled(s, n) && n < MQTT_QUEUE_CAPACITY
    requires Acknowledged(f) && f.json.Object? && MessageKind(f.json.fields) == Event
    ensures Filled(Served(s, f), n + 1)
  {
    assert EntryOf(f).kind == Event;
  }

  lemma {:induction false} FillingRuns(event: Frame, n: nat)
    requires n <= MQTT_QUEUE_CAPACITY
    requires Acknowledged(event) && event.json.Object? && MessageKind(event.json.fields) == Event
    ensures Run(Filling(event, n)).Some? && Filled(Run(Filling(event, n)).value, n)
  {
    if n == 0 {
      RunNext([], UP, Open);
    } else {
      FillingRuns(event, n - 1);
      var s := Run(Filling(event, n - 1)).value;
      ServedRun(Filling(event, n - 1), s, event);
      EventServed(s, event, n - 1);
    }
  }

  lemma NoPlace(g: Gateway, e: Entry)
    requires |g.queue| >= MQTT_QUEUE_CAPACITY && e.kind == Fast
    requires forall i :: 0 <= i < |g.queue| ==> g.queue[i].kind == Event
    ensures !Enqueue(g, e).1 && Enqueue(g, e).0.queue == g.queue
  {
    AcceptedIff(g, e);
  }

  lemma {:induction false} FastServed(s: Server, f: Frame)
    requires Filled(s, MQTT_QUEUE_CAPACITY)
    requires Acknowledged(f) && f.json.Object? && MessageKind(f.json.fields) == Fast
    ensures var s' := Served(s, f);
            && Taken(0, f) in s'.acknowledged && Taken(0, f) in s'.booked
            && s'.queue.sent == [] && EntryOf(f) !in s'.queue.gw.queue
            && s'.queue.refused == s.queue.refused + 1
  {
    NoPlace(s.queue.gw, EntryOf(f));
    assert EntryOf(f).kind == Fast;
    LastIsIn(s.acknowledged, Taken(0, f));
    LastIsIn(s.booked, Taken(0, f));
  }

  lemma LastIsIn(frames: seq<Taken>, t: Taken)
    ensures t in frames + [t]
  {
    assert (frames + [t])[|frames|] == t;
  }

  /** "An acknowledged message is queued" also fails for valid telemetry: a client sends 20 events and then
      a fast message.  It is acknowledged and booked, and neither sent nor queued. */
  lemma {:induction false} TelemetryRefused()
    ensures var event, fast := FrameOf("P0171", "event"), FrameOf("rpm", "fast");
            var r := Run(Filling(event, 20) + [Receive(0, fast)] + [Drained(0)]);
            && r.Some? && Taken(0, fast) in r.value.acknowledged && Taken(0, fast) in r.value.booked
            && r.value.queue.sent == [] && EntryOf(fast) !in r.value.queue.gw.queue
  {
    var event, fast := FrameOf("P0171", "event"), FrameOf("rpm", "fast");
    Q.DtcIsEvent();
    Q.FastIsTelemetry();
    RefusedAfter(event, fast);
  }

  lemma {:induction false} RefusedAfter(event: Frame, fast: Frame)
    requires Acknowledged(event) && event.json.Object? && MessageKind(event.json.fields) == Event
    requires Acknowledged(fast) && fast.json.Object? && MessageKind(fast.json.fields) == Fast
    ensures var r := Run(Filling(event, 20) + [Receive(0, fast)] + [Drained(0)]);
            && r.Some? && Taken(0, fast) in r.value.acknowledged && Taken(0, fast) in r.value.booked
            && r.value.queue.sent == [] && EntryOf(fast) !in r.value.queue.gw.queue
  {
    FillingRuns(event, 20);
    var s := Run(Filling(event, 20)).value;
    ServedRun(Filling(event, 20), s, fast);
    FastServed(s, fast);
  }
}
