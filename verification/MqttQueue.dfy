/** The bounded publish queue of gateway/lilygo-micropython/mqtt_manager.py.

    `Gateway` is the state of one `MQTTManager`; `Offer`, `OfferImportant` and the publisher
    functions are its atomic actions on the flat list, and class `MQTTManager` carries them out
    in place.  `Lanes` is the reference the list has to meet: a FIFO of events and responses
    in front of a store holding one telemetry entry per topic. */
module MqttQueue {
  import opened Options
  import opened Topics

  const MQTT_QUEUE_CAPACITY := 20

  datatype Entry = Entry(topic: string, payload: string, kind: Kind)

  predicate Important(e: Entry) {
    e.kind == Event || e.kind == Response
  }

  // An entry as the gateway builds it: a response on the response topic, or a client message.
  ghost predicate Addressed(e: Entry) {
    (e.kind == Response && e.topic == MQTT_RESPONSE_TOPIC) || FromClient(e)
  }

  ghost predicate FromClient(e: Entry) {
    exists p: Parsed :: e.topic == Topic(p) && e.kind == MessageKind(p)
  }

  lemma ClientTopicNotResponse(e: Entry)
    requires FromClient(e)
    ensures e.topic != MQTT_RESPONSE_TOPIC
  {
    var p: Parsed :| e.topic == Topic(p) && e.kind == MessageKind(p);
    ResponseTopicReserved(p);
  }

  lemma ClientTopicNamesKind(e: Entry, e': Entry)
    requires FromClient(e) && FromClient(e') && e.topic == e'.topic
    ensures e.kind == e'.kind
  {
    var p: Parsed :| e.topic == Topic(p) && e.kind == MessageKind(p);
    var q: Parsed :| e'.topic == Topic(q) && e'.kind == MessageKind(q);
    TopicInjective(p, q);
  }

  /** Coalescing replaces an entry only by one of its own kind. */
  lemma SameTopicSameKind(e: Entry, e': Entry)
    requires Addressed(e) && Addressed(e') && e.topic == e'.topic
    ensures e.kind == e'.kind
  {
    if FromClient(e) {
      ClientTopicNotResponse(e);
    }
    if FromClient(e') {
      ClientTopicNotResponse(e');
    }
    if FromClient(e) && FromClient(e') {
      ClientTopicNamesKind(e, e');
    }
  }

  // ----- searches over the flat list -----

  predicate Coalescible(e: Entry, topic: string) {
    e.topic == topic && e.kind != Event
  }

  function CoalesceIndex(q: seq<Entry>, topic: string): (r: int)
    ensures -1 <= r < |q|
    ensures r >= 0 ==> Coalescible(q[r], topic)
    ensures forall i :: r < i < |q| ==> !Coalescible(q[i], topic)
  {
    if |q| == 0 then -1
    else if Coalescible(q[|q| - 1], topic) then |q| - 1
    else CoalesceIndex(q[..|q| - 1], topic)
  }

  function LastOfKind(q: seq<Entry>, kind: Kind): (r: int)
    ensures -1 <= r < |q|
    ensures r >= 0 ==> q[r].kind == kind
    ensures forall i :: r < i < |q| ==> q[i].kind != kind
  {
    if |q| == 0 then -1
    else if q[|q| - 1].kind == kind then |q| - 1
    else LastOfKind(q[..|q| - 1], kind)
  }

  function ImportantPrefix(q: seq<Entry>): (r: nat)
    ensures r <= |q|
    ensures forall i :: 0 <= i < r ==> Important(q[i])
    ensures r < |q| ==> !Important(q[r])
  {
    if |q| == 0 || !Important(q[0]) then 0 else 1 + ImportantPrefix(q[1..])
  }

  // Cheapest first; events and responses are never candidates.
  const EVICTION_ORDER := [Diagnostic, Fast, Slow, Telemetry]

  function Rank(kind: Kind): nat {
    match kind
    case Diagnostic => 0
    case Fast => 1
    case Slow => 2
    case Telemetry => 3
    case _ => 4
  }

  /** `v` is the last entry of the cheapest kind present. */
  ghost predicate IsVictim(q: seq<Entry>, v: int) {
    && 0 <= v < |q| && !Important(q[v])
    && (forall i :: 0 <= i < |q| ==> Rank(q[v].kind) <= Rank(q[i].kind))
    && (forall i :: v < i < |q| ==> q[i].kind != q[v].kind)
  }

  function LowestPriorityIndex(q: seq<Entry>): (r: int)
    ensures -1 <= r < |q|
    ensures r >= 0 ==> IsVictim(q, r)
    ensures r < 0 <==> forall i :: 0 <= i < |q| ==> Important(q[i])
  {
    if LastOfKind(q, Diagnostic) >= 0 then LastOfKind(q, Diagnostic)
    else if LastOfKind(q, Fast) >= 0 then LastOfKind(q, Fast)
    else if LastOfKind(q, Slow) >= 0 then LastOfKind(q, Slow)
    else LastOfKind(q, Telemetry)
  }

  /** There is one victim at most, so `LowestPriorityIndex` is the only correct choice. */
  lemma VictimUnique(q: seq<Entry>, v: int, w: int)
    requires IsVictim(q, v) && IsVictim(q, w)
    ensures v == w
  {
    assert Rank(q[v].kind) == Rank(q[w].kind);
    assert q[v].kind == q[w].kind;
  }

  // The list holds an entry of the kind.
  ghost predicate Holds(q: seq<Entry>, kind: Kind) {
    exists i :: 0 <= i < |q| && q[i].kind == kind
  }

  /** The victim is a diagnostic if there is one, else fast, else slow, else other telemetry, and the last
      of its kind. */
  lemma VictimKind(q: seq<Entry>, v: int)
    requires IsVictim(q, v)
    ensures q[v].kind == if Holds(q, Diagnostic) then Diagnostic
                         else if Holds(q, Fast) then Fast
                         else if Holds(q, Slow) then Slow else Telemetry
    ensures forall i :: v < i < |q| ==> q[i].kind != q[v].kind
  {
    assert forall i :: 0 <= i < |q| ==> Rank(q[v].kind) <= Rank(q[i].kind);
    assert q[v].kind == Diagnostic ==> Holds(q, Diagnostic);
    assert q[v].kind == Fast ==> Holds(q, Fast);
    assert q[v].kind == Slow ==> Holds(q, Slow);
  }

  function Without(q: seq<Entry>, i: nat): seq<Entry>
    requires i < |q|
  {
    q[..i] + q[i + 1..]
  }

  // ----- the actions on the flat list -----

  datatype Gateway = Gateway(queue: seq<Entry>, connected: bool, published: nat, failed: nat,
                             dropped: nat, coalesced: nat, priorityEvictions: nat,
                             lastTopic: Option<string>)

  const STARTED := Gateway([], false, 0, 0, 0, 0, 0, None)

  function InsertImportant(q: seq<Entry>, e: Entry): seq<Entry> {
    var at := ImportantPrefix(q);
    q[..at] + [e] + q[at..]
  }

  /** `_enqueue_important` */
  function OfferImportant(g: Gateway, e: Entry): (Gateway, bool) {
    if |g.queue| >= MQTT_QUEUE_CAPACITY then
      var v := LowestPriorityIndex(g.queue);
      if v < 0 then (g.(dropped := g.dropped + 1), false)
      else
        (g.(queue := InsertImportant(Without(g.queue, v), e), dropped := g.dropped + 1,
            priorityEvictions := g.priorityEvictions + 1), true)
    else (g.(queue := InsertImportant(g.queue, e)), true)
  }

  /** `enqueue` of a message whose topic and kind are known. */
  function Offer(g: Gateway, e: Entry): (Gateway, bool) {
    if e.kind == Event then OfferImportant(g, e)
    else
      var at := CoalesceIndex(g.queue, e.topic);
      if at >= 0 then
        (g.(queue := g.queue[at := e], coalesced := g.coalesced + 1), true)
      else if |g.queue| >= MQTT_QUEUE_CAPACITY then (g.(dropped := g.dropped + 1), false)
      else (g.(queue := g.queue + [e]), true)
  }

  function MessageEntry(payload: string, parsed: Parsed): Entry {
    Entry(Topic(parsed), payload, MessageKind(parsed))
  }

  function ResponseEntry(payload: string): Entry {
    Entry(MQTT_RESPONSE_TOPIC, payload, Response)
  }

  /** What the publisher does once a publish has succeeded: `pop(0)` and two status fields. */
  function FinishPublish(g: Gateway, topic: string): Gateway
    requires g.queue != []
  {
    g.(queue := g.queue[1..], published := g.published + 1, lastTopic := Some(topic))
  }

  /** The handler of any exception in the publisher loop. */
  function FailPublish(g: Gateway): Gateway {
    g.(connected := false, failed := g.failed + 1)
  }

  // ----- the two-lane reference -----

  datatype Lanes = Lanes(front: seq<Entry>, back: seq<Entry>)

  function Split(q: seq<Entry>): Lanes {
    Lanes(q[..ImportantPrefix(q)], q[ImportantPrefix(q)..])
  }

  ghost predicate LanesOk(l: Lanes) {
    && |l.front| + |l.back| <= MQTT_QUEUE_CAPACITY
    && (forall i :: 0 <= i < |l.front| ==> Important(l.front[i]))
    && (forall i :: 0 <= i < |l.back| ==> !Important(l.back[i]))
    && (forall i, j :: 0 <= i < j < |l.back| ==> l.back[i].topic != l.back[j].topic)
  }

  ghost predicate AllAddressed(q: seq<Entry>) {
    forall i :: 0 <= i < |q| ==> Addressed(q[i])
  }

  // No entry of the list shares its topic with `e` unless it shares its kind too.
  ghost predicate KindByTopic(q: seq<Entry>, e: Entry) {
    forall i :: 0 <= i < |q| && q[i].topic == e.topic ==> q[i].kind == e.kind
  }

  lemma AddressedKindByTopic(q: seq<Entry>, e: Entry)
    requires AllAddressed(q) && Addressed(e)
    ensures KindByTopic(q, e)
  {
    forall i | 0 <= i < |q| && q[i].topic == e.topic ensures q[i].kind == e.kind {
      SameTopicSameKind(q[i], e);
    }
  }

  /** What offering `e` may do to the two lanes; `ok` is the answer of the gateway. */
  ghost predicate LaneOffer(l: Lanes, e: Entry, l': Lanes, ok: bool) {
    var full := |l.front| + |l.back| == MQTT_QUEUE_CAPACITY;
    if Important(e) then
      if !full then ok && l' == Lanes(l.front + [e], l.back)
      else if l.back == [] then !ok && l' == l
      else ok && exists v :: IsVictim(l.back, v) && l' == Lanes(l.front + [e], Without(l.back, v))
    else if exists i :: 0 <= i < |l.back| && l.back[i].topic == e.topic then
      ok && exists i :: 0 <= i < |l.back| && l.back[i].topic == e.topic
                        && l' == Lanes(l.front, l.back[i := e])
    else if full then !ok && l' == l
    else ok && l' == Lanes(l.front, l.back + [e])
  }

  lemma SplitJoin(front: seq<Entry>, back: seq<Entry>)
    requires forall i :: 0 <= i < |front| ==> Important(front[i])
    requires back == [] || !Important(back[0])
    ensures Split(front + back) == Lanes(front, back)
  {
    var q := front + back;
    var n := ImportantPrefix(q);
    assert forall i :: 0 <= i < |front| ==> q[i] == front[i];
    assert back != [] ==> q[|front|] == back[0];
    assert n == |front|;
    assert q[..|front|] == front && q[|front|..] == back;
  }

  lemma VictimInBack(front: seq<Entry>, back: seq<Entry>, r: int)
    requires forall i :: 0 <= i < |front| ==> Important(front[i])
    requires IsVictim(front + back, r)
    ensures |front| <= r && IsVictim(back, r - |front|)
  {
    var q := front + back;
    assert forall i :: 0 <= i < |front| ==> q[i] == front[i];
    assert forall i :: 0 <= i < |back| ==> q[|front| + i] == back[i];
  }

  lemma NoVictim(front: seq<Entry>, back: seq<Entry>)
    requires forall i :: 0 <= i < |front| ==> Important(front[i])
    requires forall i :: 0 <= i < |back| ==> !Important(back[i])
    ensures LowestPriorityIndex(front + back) < 0 <==> back == []
  {
    var q := front + back;
    assert forall i :: 0 <= i < |front| ==> q[i] == front[i];
    assert back != [] ==> q[|front|] == back[0];
  }

  lemma InsertJoins(front: seq<Entry>, back: seq<Entry>, e: Entry)
    requires forall i :: 0 <= i < |front| ==> Important(front[i])
    requires back == [] || !Important(back[0])
    requires Important(e)
    ensures InsertImportant(front + back, e) == (front + [e]) + back
    ensures Split(InsertImportant(front + back, e)) == Lanes(front + [e], back)
  {
    SplitJoin(front, back);
    SplitJoin(front + [e], back);
  }

  lemma EvictionJoins(front: seq<Entry>, back: seq<Entry>, e: Entry, r: int)
    requires forall i :: 0 <= i < |front| ==> Important(front[i])
    requires forall i :: 0 <= i < |back| ==> !Important(back[i])
    requires Important(e) && |front| <= r < |front| + |back|
    ensures Split(InsertImportant(Without(front + back, r), e))
            == Lanes(front + [e], Without(back, r - |front|))
  {
    var rest := Without(back, r - |front|);
    assert Without(front + back, r) == front + rest;
    assert rest != [] ==> rest[0] == back[0] || rest[0] == back[1];
    InsertJoins(front, rest, e);
  }

  lemma EvictionRefines(l: Lanes, e: Entry, r: int)
    requires LanesOk(l) && Important(e) && |l.front| + |l.back| == MQTT_QUEUE_CAPACITY
    requires IsVictim(l.front + l.back, r)
    ensures LaneOffer(l, e, Split(InsertImportant(Without(l.front + l.back, r), e)), true)
  {
    VictimInBack(l.front, l.back, r);
    EvictionJoins(l.front, l.back, e, r);
  }

  lemma RoomRefines(l: Lanes, e: Entry)
    requires LanesOk(l) && Important(e) && |l.front| + |l.back| < MQTT_QUEUE_CAPACITY
    ensures LaneOffer(l, e, Split(InsertImportant(l.front + l.back, e)), true)
  {
    InsertJoins(l.front, l.back, e);
  }

  lemma RefusalRefines(l: Lanes, e: Entry)
    requires LanesOk(l) && Important(e) && |l.front| + |l.back| == MQTT_QUEUE_CAPACITY
    requires LowestPriorityIndex(l.front + l.back) < 0
    ensures LaneOffer(l, e, l, false)
  {
    NoVictim(l.front, l.back);
  }

  lemma ImportantRefines(g: Gateway, e: Entry)
    requires LanesOk(Split(g.queue)) && Important(e)
    ensures LaneOffer(Split(g.queue), e, Split(OfferImportant(g, e).0.queue), OfferImportant(g, e).1)
  {
    var l := Split(g.queue);
    assert g.queue == l.front + l.back;
    if |g.queue| < MQTT_QUEUE_CAPACITY {
      RoomRefines(l, e);
    } else if LowestPriorityIndex(g.queue) < 0 {
      RefusalRefines(l, e);
    } else {
      EvictionRefines(l, e, LowestPriorityIndex(g.queue));
    }
  }

  lemma CoalescingRefines(q: seq<Entry>, e: Entry, at: int)
    requires LanesOk(Split(q)) && !Important(e) && KindByTopic(q, e)
    requires at == CoalesceIndex(q, e.topic) >= 0
    ensures var l := Split(q);
            var i := at - |l.front|;
            0 <= i < |l.back| && l.back[i].topic == e.topic
            && Split(q[at := e]) == Lanes(l.front, l.back[i := e])
  {
    var l := Split(q);
    var n := |l.front|;
    assert q[at].kind == e.kind;
    assert at >= n && l.back[at - n] == q[at];
    assert q[at := e] == l.front + l.back[at - n := e];
    SplitJoin(l.front, l.back[at - n := e]);
  }

  lemma TelemetryRefines(g: Gateway, e: Entry)
    requires LanesOk(Split(g.queue)) && !Important(e) && KindByTopic(g.queue, e)
    ensures LaneOffer(Split(g.queue), e, Split(Offer(g, e).0.queue), Offer(g, e).1)
  {
    var q := g.queue;
    var l := Split(q);
    var at := CoalesceIndex(q, e.topic);
    if at >= 0 {
      CoalescingRefines(q, e, at);
    } else {
      forall i | 0 <= i < |l.back| ensures l.back[i].topic != e.topic {
        assert l.back[i] == q[|l.front| + i] && !Coalescible(l.back[i], e.topic);
      }
      assert q + [e] == l.front + (l.back + [e]);
      SplitJoin(l.front, l.back + [e]);
    }
  }

  lemma LaneOfferKeepsLanes(l: Lanes, e: Entry, l': Lanes, ok: bool)
    requires LanesOk(l) && LaneOffer(l, e, l', ok)
    ensures LanesOk(l')
  {
  }

  function Enqueue(g: Gateway, e: Entry): (Gateway, bool) {
    if e.kind == Response then OfferImportant(g, e) else Offer(g, e)
  }

  // Every entry queued afterwards was queued before or is the one offered.
  lemma EnqueueMembers(g: Gateway, e: Entry, x: Entry)
    requires x in Enqueue(g, e).0.queue
    ensures x in g.queue || x == e
  {
    var q := g.queue;
    if e.kind == Response || e.kind == Event {
      var v := LowestPriorityIndex(q);
      if |q| < MQTT_QUEUE_CAPACITY {
        InsertMembers(q, e, x);
      } else if v >= 0 {
        InsertMembers(Without(q, v), e, x);
      }
    }
  }

  lemma InsertMembers(q: seq<Entry>, e: Entry, x: Entry)
    requires x in InsertImportant(q, e)
    ensures x in q || x == e
  {
  }

  /** Offering a message to the flat list is offering it to the two-lane queue, and the list
      stays a two-lane queue. */
  lemma EnqueueRefinesLanes(g: Gateway, e: Entry)
    requires LanesOk(Split(g.queue)) && KindByTopic(g.queue, e)
    ensures var (g', ok) := Enqueue(g, e);
            LaneOffer(Split(g.queue), e, Split(g'.queue), ok) && LanesOk(Split(g'.queue))
  {
    if Important(e) {
      ImportantRefines(g, e);
    } else {
      TelemetryRefines(g, e);
    }
    LaneOfferKeepsLanes(Split(g.queue), e, Split(Enqueue(g, e).0.queue), Enqueue(g, e).1);
  }

  /** An event or response is refused exactly when the list is full of events and responses. */
  lemma ImportantRefusedIffFullOfImportant(g: Gateway, e: Entry)
    requires Important(e)
    ensures !Enqueue(g, e).1 <==>
            |g.queue| >= MQTT_QUEUE_CAPACITY && forall i :: 0 <= i < |g.queue| ==> Important(g.queue[i])
    ensures !Enqueue(g, e).1 ==> Enqueue(g, e).0 == g.(dropped := g.dropped + 1)
  {
  }
}
