/** Every interleaving of the publisher task with the TCP handlers, for
    gateway/lilygo-micropython/mqtt_manager.py.

    The publisher reads `queue[0]`, awaits the modem and only then calls `pop(0)`; client messages
    are queued at any time in between.  A `System` is the gateway with the publisher's position
    and a history that the program does not keep. */
module MqttRuns {
  import opened Options
  import opened Text
  import opened Topics
  import opened MqttQueue
  import opened MqttCounters

  // `since` is the number of messages offered before the publish began.
  datatype Phase = Idle | Polling | Publishing(head: Entry, since: nat)

  datatype System = System(
    gw: Gateway, phase: Phase,
    offers: seq<Entry>,     // every message offered to the queue
    accepted: seq<Entry>,   // the events and responses among them that were accepted
    refused: nat,           // how many offers were answered with False
    sent: seq<Entry>,       // what the modem has published
    removed: seq<Entry>,    // what `pop(0)` has removed
    overtaken: nat)         // publishes of telemetry that finished after an event had arrived

  const BOOT := System(STARTED, Idle, [], [], 0, [], [], 0)

  datatype Step =
    | Message(payload: string, parsed: Parsed)   // a TCP handler calls `enqueue`
    | Connect                                    // `_connect` succeeds
    | BeginPublish                               // `queue[0]` is read, the modem is awaited
    | PublishDone                                // `pop(0)` and the counters
    | Fail                                       // any exception of the loop body
    | BeginPoll                                  // the queue was empty: wait for a command
    | PollNothing
    | PollCommand(payload: string)               // a command is answered

  predicate Enabled(s: System, step: Step) {
    match step
    case Message(_, _) => true
    case Fail => true
    case Connect => s.phase == Idle && !s.gw.connected
    case BeginPublish => s.phase == Idle && s.gw.connected && s.gw.queue != []
    case PublishDone => s.phase.Publishing? && s.gw.queue != []
    case BeginPoll => s.phase == Idle && s.gw.connected && s.gw.queue == []
    case PollNothing => s.phase == Polling
    case PollCommand(_) => s.phase == Polling
  }

  function Arrivals(s: System): seq<Entry>
    requires s.phase.Publishing? && s.phase.since <= |s.offers|
  {
    s.offers[s.phase.since..]
  }

  function FirstImportant(q: seq<Entry>): (r: Option<Entry>)
    ensures r.Some? ==> r.value in q && Important(r.value)
    ensures r.None? <==> forall i :: 0 <= i < |q| ==> !Important(q[i])
  {
    if |q| == 0 then None
    else if FirstImportant(q[..|q| - 1]).Some? then FirstImportant(q[..|q| - 1])
    else if Important(q[|q| - 1]) then Some(q[|q| - 1])
    else None
  }

  function OfferStep(s: System, e: Entry): System {
    var (g', ok) := Enqueue(s.gw, e);
    s.(gw := g', offers := s.offers + [e],
       accepted := if ok && Important(e) then s.accepted + [e] else s.accepted,
       refused := if ok then s.refused else s.refused + 1)
  }

  function DoneStep(s: System): System
    requires s.phase.Publishing? && s.gw.queue != [] && s.phase.since <= |s.offers|
  {
    var late := !Important(s.phase.head) && FirstImportant(Arrivals(s)).Some?;
    s.(gw := FinishPublish(s.gw, s.phase.head.topic), phase := Idle,
       sent := s.sent + [s.phase.head], removed := s.removed + [s.gw.queue[0]],
       overtaken := if late then s.overtaken + 1 else s.overtaken)
  }

  function Apply(s: System, step: Step): System
    requires Enabled(s, step)
    requires s.phase.Publishing? ==> s.phase.since <= |s.offers|
  {
    match step
    case Message(payload, parsed) => OfferStep(s, MessageEntry(payload, parsed))
    case Fail => s.(gw := FailPublish(s.gw), phase := Idle)
    case Connect => s.(gw := s.gw.(connected := true))
    case BeginPublish => s.(phase := Publishing(s.gw.queue[0], |s.offers|))
    case PublishDone => DoneStep(s)
    case BeginPoll => s.(phase := Polling)
    case PollNothing => s.(phase := Idle)
    case PollCommand(payload) => OfferStep(s, ResponseEntry(payload)).(phase := Idle)
  }

  /** The state after `steps`, or None when some step was not possible. */
  function Run(steps: seq<Step>): (r: Option<System>)
    ensures r.Some? && r.value.phase.Publishing? ==> r.value.phase.since <= |r.value.offers|
  {
    if |steps| == 0 then Some(BOOT)
    else
      var before := Run(steps[..|steps| - 1]);
      var last := steps[|steps| - 1];
      if before.Some? && Enabled(before.value, last) then Some(Apply(before.value, last)) else None
  }

  // ----- the invariant -----

  function ImportantOnly(q: seq<Entry>): seq<Entry> {
    if |q| == 0 then []
    else ImportantOnly(q[..|q| - 1]) + (if Important(q[|q| - 1]) then [q[|q| - 1]] else [])
  }

  function LastOffer(offers: seq<Entry>, topic: string): Option<Entry> {
    if |offers| == 0 then None
    else if offers[|offers| - 1].topic == topic then Some(offers[|offers| - 1])
    else LastOffer(offers[..|offers| - 1], topic)
  }

  // The newest payload for the topic of `head`: of the arrivals, or else its own.
  function NewestPayload(arrivals: seq<Entry>, head: Entry): string {
    if |arrivals| == 0 then head.payload
    else if arrivals[|arrivals| - 1].topic == head.topic then arrivals[|arrivals| - 1].payload
    else NewestPayload(arrivals[..|arrivals| - 1], head)
  }

  /** What stands at the head of the queue while `head` is being published. */
  ghost predicate FlightOk(l: Lanes, head: Entry, arrivals: seq<Entry>) {
    if Important(head) then l.front != [] && l.front[0] == head
    else if FirstImportant(arrivals).None? then
      l.front == [] && l.back != []
      && l.back[0] == Entry(head.topic, NewestPayload(arrivals, head), head.kind)
    else l.front != [] && l.front[0] == FirstImportant(arrivals).value
  }

  ghost predicate InFlight(s: System) {
    s.phase.Publishing? ==>
      && s.phase.since <= |s.offers|
      && FlightOk(Split(s.gw.queue), s.phase.head, Arrivals(s))
  }

  /** Each queued telemetry entry is the newest offer for its topic. */
  ghost predicate Latest(back: seq<Entry>, offers: seq<Entry>) {
    forall i :: 0 <= i < |back| ==> LastOffer(offers, back[i].topic) == Some(back[i])
  }

  /** What one `pop(0)` removes, against what had been published. */
  ghost predicate Popped(sent: Entry, removed: Entry) {
    removed == sent
    || (!Important(sent) && (Important(removed) ||
                             (removed.topic == sent.topic && removed.kind == sent.kind)))
  }

  ghost predicate PopsOk(sent: seq<Entry>, removed: seq<Entry>) {
    |sent| == |removed| && forall k :: 0 <= k < |sent| ==> Popped(sent[k], removed[k])
  }

  ghost predicate Balanced(s: System) {
    && |s.offers| == |s.gw.queue| + s.gw.published + s.gw.coalesced + s.gw.dropped
    && s.refused + s.gw.priorityEvictions == s.gw.dropped
    && |s.sent| == s.gw.published
  }

  ghost predicate Lossless(s: System) {
    && |ImportantOnly(s.removed)| == |ImportantOnly(s.sent)| + s.overtaken
    && (s.overtaken == 0 ==> ImportantOnly(s.removed) == ImportantOnly(s.sent))
  }

  ghost predicate HistoryOk(s: System) {
    && (forall i :: 0 <= i < |s.gw.queue| ==> s.gw.queue[i] in s.offers)
    && (s.phase.Publishing? ==> s.phase.head in s.offers)
  }

  ghost predicate Inv(s: System) {
    && LanesOk(Split(s.gw.queue))
    && HistoryOk(s)
    && s.accepted == ImportantOnly(s.removed) + Split(s.gw.queue).front
    && Latest(Split(s.gw.queue).back, s.offers)
    && InFlight(s)
    && PopsOk(s.sent, s.removed)
    && Balanced(s)
    && Lossless(s)
  }

  // ----- offering a message -----

  lemma OfferKeepsFlight(l: Lanes, e: Entry, l': Lanes, ok: bool, head: Entry, arrivals: seq<Entry>)
    requires LanesOk(l) && LaneOffer(l, e, l', ok) && FlightOk(l, head, arrivals)
    requires e.topic == head.topic ==> e.kind == head.kind
    ensures FlightOk(l', head, arrivals + [e])
  {
    assert (arrivals + [e])[..|arrivals|] == arrivals;
  }

  lemma OfferKeepsLatest(l: Lanes, e: Entry, l': Lanes, ok: bool, offers: seq<Entry>)
    requires LanesOk(l) && LaneOffer(l, e, l', ok) && Latest(l.back, offers)
    requires KindByTopic(l.back, e)
    ensures Latest(l'.back, offers + [e])
  {
    assert (offers + [e])[..|offers|] == offers;
  }

  lemma OfferBalances(s: System, e: Entry)
    requires Balanced(s)
    ensures Balanced(OfferStep(s, e))
  {
  }

  lemma FrontGrows(l: Lanes, e: Entry, l': Lanes, ok: bool)
    requires LanesOk(l) && LaneOffer(l, e, l', ok)
    ensures l'.front == if ok && Important(e) then l.front + [e] else l.front
  {
  }

  lemma OfferKeepsInFlight(s: System, e: Entry)
    requires LanesOk(Split(s.gw.queue)) && InFlight(s) && KindByTopic(s.gw.queue, e)
    requires s.phase.Publishing? && e.topic == s.phase.head.topic ==> e.kind == s.phase.head.kind
    ensures InFlight(OfferStep(s, e))
  {
    if s.phase.Publishing? {
      var (g', ok) := Enqueue(s.gw, e);
      EnqueueRefinesLanes(s.gw, e);
      OfferKeepsFlight(Split(s.gw.queue), e, Split(g'.queue), ok, s.phase.head, Arrivals(s));
      assert (s.offers + [e])[s.phase.since..] == Arrivals(s) + [e];
    }
  }

  lemma OfferKeepsAccepted(s: System, e: Entry)
    requires LanesOk(Split(s.gw.queue)) && KindByTopic(s.gw.queue, e)
    requires s.accepted == ImportantOnly(s.removed) + Split(s.gw.queue).front
    ensures OfferStep(s, e).accepted
            == ImportantOnly(s.removed) + Split(Enqueue(s.gw, e).0.queue).front
  {
    var (g', ok) := Enqueue(s.gw, e);
    var done, f := ImportantOnly(s.removed), Split(s.gw.queue).front;
    EnqueueRefinesLanes(s.gw, e);
    FrontGrows(Split(s.gw.queue), e, Split(g'.queue), ok);
    assert (done + f) + [e] == done + (f + [e]);
  }

  lemma OfferKeepsNewest(s: System, e: Entry)
    requires LanesOk(Split(s.gw.queue)) && KindByTopic(s.gw.queue, e)
    requires Latest(Split(s.gw.queue).back, s.offers)
    ensures Latest(Split(OfferStep(s, e).gw.queue).back, s.offers + [e])
  {
    var (g', ok) := Enqueue(s.gw, e);
    var l := Split(s.gw.queue);
    EnqueueRefinesLanes(s.gw, e);
    assert forall i :: 0 <= i < |l.back| ==> l.back[i] == s.gw.queue[|l.front| + i];
    OfferKeepsLatest(l, e, Split(g'.queue), ok, s.offers);
  }

  lemma OfferKeepsHistory(s: System, e: Entry)
    requires HistoryOk(s)
    ensures HistoryOk(OfferStep(s, e))
  {
    var q' := Enqueue(s.gw, e).0.queue;
    forall i | 0 <= i < |q'| ensures q'[i] in s.offers + [e] {
      EnqueueMembers(s.gw, e, q'[i]);
    }
  }

  lemma OfferKeepsInv(s: System, e: Entry)
    requires Inv(s) && KindByTopic(s.offers, e)
    ensures Inv(OfferStep(s, e))
  {
    EnqueueRefinesLanes(s.gw, e);
    OfferKeepsAccepted(s, e);
    OfferKeepsNewest(s, e);
    OfferKeepsInFlight(s, e);
    OfferKeepsHistory(s, e);
    OfferBalances(s, e);
  }

  // ----- the publisher's steps -----

  lemma SplitTail(q: seq<Entry>)
    requires q != []
    ensures Important(q[0]) ==> Split(q).front != [] && Split(q).front[0] == q[0]
                                && Split(q[1..]) == Lanes(Split(q).front[1..], Split(q).back)
    ensures !Important(q[0]) ==> Split(q) == Lanes([], q)
  {
    if Important(q[0]) {
      var n := ImportantPrefix(q);
      assert n == 1 + ImportantPrefix(q[1..]);
      assert q[1..][..n - 1] == q[..n][1..];
      assert q[1..][n - 1..] == q[n..];
    }
  }

  // In the telemetry-only list, dropping the head leaves telemetry only.
  lemma SplitTelemetry(q: seq<Entry>)
    requires q == [] || !Important(q[0])
    ensures Split(q) == Lanes([], q)
  {
  }

  lemma PopKeepsLanes(q: seq<Entry>, offers: seq<Entry>)
    requires q != [] && LanesOk(Split(q)) && Latest(Split(q).back, offers)
    ensures LanesOk(Split(q[1..])) && Latest(Split(q[1..]).back, offers)
    ensures Split(q).front == (if Important(q[0]) then [q[0]] else []) + Split(q[1..]).front
  {
    SplitTail(q);
    if Important(q[0]) {
      var l := Split(q);
      assert l.front == [l.front[0]] + l.front[1..];
    } else {
      assert q[1..] != [] ==> q[1..][0] == q[1];
      SplitTelemetry(q[1..]);
    }
  }

  lemma ImportantOnlyAppend(q: seq<Entry>, e: Entry)
    ensures ImportantOnly(q + [e]) == ImportantOnly(q) + (if Important(e) then [e] else [])
  {
    assert (q + [e])[..|q|] == q;
  }

  /** What `pop(0)` removes, whatever was offered while `head` was in flight. */
  lemma HeadInFlight(q: seq<Entry>, head: Entry, arrivals: seq<Entry>)
    requires FlightOk(Split(q), head, arrivals)
    ensures q != []
    ensures Important(head) ==> q[0] == head
    ensures !Important(head) && FirstImportant(arrivals).None? ==>
              q[0] == Entry(head.topic, NewestPayload(arrivals, head), head.kind)
    ensures !Important(head) && FirstImportant(arrivals).Some? ==>
              q[0] == FirstImportant(arrivals).value
  {
    var l := Split(q);
    assert q == l.front + l.back;
  }

  // The gateway after messages that arrive while the publisher waits.
  function EnqueueAll(g: Gateway, arrivals: seq<Entry>): Gateway {
    if |arrivals| == 0 then g
    else Enqueue(EnqueueAll(g, arrivals[..|arrivals| - 1]), arrivals[|arrivals| - 1]).0
  }

  lemma EnqueueMore(g: Gateway, arrivals: seq<Entry>, e: Entry)
    ensures EnqueueAll(g, arrivals + [e]) == Enqueue(EnqueueAll(g, arrivals), e).0
  {
    assert (arrivals + [e])[..|arrivals|] == arrivals;
  }

  // The topics of the entries name their kinds.
  ghost predicate ByTopic(q: seq<Entry>, kinds: map<string, Kind>) {
    forall i :: 0 <= i < |q| ==> q[i].topic in kinds && kinds[q[i].topic] == q[i].kind
  }

  ghost predicate FlightSoFar(g: Gateway, head: Entry, arrivals: seq<Entry>,
                              kinds: map<string, Kind>)
  {
    LanesOk(Split(g.queue)) && ByTopic(g.queue, kinds) && FlightOk(Split(g.queue), head, arrivals)
  }

  lemma FlightBegins(g: Gateway, kinds: map<string, Kind>)
    requires g.queue != [] && LanesOk(Split(g.queue)) && ByTopic(g.queue, kinds)
    ensures FlightSoFar(g, g.queue[0], [], kinds)
  {
    SplitTail(g.queue);
  }

  lemma FlightGoesOn(g: Gateway, head: Entry, arrivals: seq<Entry>, e: Entry,
                     kinds: map<string, Kind>)
    requires FlightSoFar(g, head, arrivals, kinds) && ByTopic([head, e], kinds)
    ensures FlightSoFar(Enqueue(g, e).0, head, arrivals + [e], kinds)
  {
    var (g', ok) := Enqueue(g, e);
    assert ByTopic([head, e], kinds) && [head, e][0] == head && [head, e][1] == e;
    EnqueueRefinesLanes(g, e);
    OfferKeepsFlight(Split(g.queue), e, Split(g'.queue), ok, head, arrivals);
    forall i | 0 <= i < |g'.queue|
      ensures g'.queue[i].topic in kinds && kinds[g'.queue[i].topic] == g'.queue[i].kind {
      EnqueueMembers(g, e, g'.queue[i]);
    }
  }

  lemma {:induction false} FlightLasts(g: Gateway, arrivals: seq<Entry>, kinds: map<string, Kind>)
    requires g.queue != [] && LanesOk(Split(g.queue)) && ByTopic(g.queue, kinds)
    requires ByTopic(arrivals, kinds)
    ensures FlightSoFar(EnqueueAll(g, arrivals), g.queue[0], arrivals, kinds)
  {
    if |arrivals| == 0 {
      FlightBegins(g, kinds);
      assert arrivals == [];
    } else {
      var n := |arrivals| - 1;
      var before, e := arrivals[..n], arrivals[n];
      FlightLasts(g, before, kinds);
      FlightStep(g, before, e, kinds);
      assert before + [e] == arrivals;
    }
  }

  lemma {:induction false} FlightStep(g: Gateway, before: seq<Entry>, e: Entry,
                                      kinds: map<string, Kind>)
    requires g.queue != [] && ByTopic([g.queue[0], e], kinds)
    requires FlightSoFar(EnqueueAll(g, before), g.queue[0], before, kinds)
    ensures FlightSoFar(EnqueueAll(g, before + [e]), g.queue[0], before + [e], kinds)
  {
    FlightGoesOn(EnqueueAll(g, before), g.queue[0], before, e, kinds);
    EnqueueMore(g, before, e);
  }

  ghost function KindsOf(q: seq<Entry>): (r: map<string, Kind>)
    ensures forall e :: e in q ==> e.topic in r
    ensures forall t :: t in r ==> exists e :: e in q && e.topic == t && e.kind == r[t]
  {
    if |q| == 0 then map[]
    else
      var n := |q| - 1;
      assert q == q[..n] + [q[n]];
      KindsOf(q[..n])[q[n].topic := q[n].kind]
  }

  lemma {:induction false} AddressedByTopic(q: seq<Entry>, r: seq<Entry>)
    requires AllAddressed(q) && AllAddressed(r)
    ensures ByTopic(q, KindsOf(q + r)) && ByTopic(r, KindsOf(q + r))
  {
    var kinds := KindsOf(q + r);
    forall e | e in q + r ensures e.topic in kinds && kinds[e.topic] == e.kind {
      var e' :| e' in q + r && e'.topic == e.topic && e'.kind == kinds[e.topic];
      assert Addressed(e) && Addressed(e');
      SameTopicSameKind(e, e');
    }
    assert forall i :: 0 <= i < |q| ==> q[i] in q + r;
    assert forall i :: 0 <= i < |r| ==> r[i] in q + r;
  }

  /** The entry that `pop(0)` removes after `head` was published and `arrivals` were queued. */
  function RemovedFor(head: Entry, arrivals: seq<Entry>): Entry {
    if Important(head) then head
    else if FirstImportant(arrivals).Some? then FirstImportant(arrivals).value
    else Entry(head.topic, NewestPayload(arrivals, head), head.kind)
  }

  /** What stands at the head of the list after any messages have been queued behind a publish: never
      nothing, and the published entry itself if that is an event or response; otherwise the first event
      that came in, or else the newest payload for the topic. */
  lemma {:induction false} HeadAfterArrivals(g: Gateway, arrivals: seq<Entry>,
                                             kinds: map<string, Kind>)
    requires g.queue != [] && LanesOk(Split(g.queue))
    requires ByTopic(g.queue, kinds) && ByTopic(arrivals, kinds)
    ensures var head, q := g.queue[0], EnqueueAll(g, arrivals).queue;
            q != [] && q[0] == RemovedFor(head, arrivals)
  {
    FlightLasts(g, arrivals, kinds);
    HeadInFlight(EnqueueAll(g, arrivals).queue, g.queue[0], arrivals);
  }

  lemma DoneKeepsAccepted(q: seq<Entry>, offers: seq<Entry>, removed: seq<Entry>)
    requires q != [] && LanesOk(Split(q)) && Latest(Split(q).back, offers)
    ensures ImportantOnly(removed) + Split(q).front
            == ImportantOnly(removed + [q[0]]) + Split(q[1..]).front
  {
    PopKeepsLanes(q, offers);
    ImportantOnlyAppend(removed, q[0]);
  }

  lemma DoneKeepsPops(s: System)
    requires Inv(s) && s.phase.Publishing? && s.gw.queue != []
    ensures PopsOk(DoneStep(s).sent, DoneStep(s).removed) && Lossless(DoneStep(s))
  {
    HeadInFlight(s.gw.queue, s.phase.head, Arrivals(s));
    ImportantOnlyAppend(s.removed, s.gw.queue[0]);
    ImportantOnlyAppend(s.sent, s.phase.head);
  }

  lemma DoneKeepsInv(s: System)
    requires Inv(s) && s.phase.Publishing? && s.gw.queue != []
    ensures Inv(DoneStep(s))
  {
    PopKeepsLanes(s.gw.queue, s.offers);
    DoneKeepsAccepted(s.gw.queue, s.offers, s.removed);
    DoneKeepsPops(s);
  }

  lemma BeginKeepsInv(s: System)
    requires Inv(s) && Enabled(s, BeginPublish)
    ensures Inv(Apply(s, BeginPublish))
  {
    SplitTail(s.gw.queue);
    assert s.offers[|s.offers|..] == [];
  }

  lemma StepKeepsInv(s: System, step: Step)
    requires Inv(s) && Enabled(s, step) && AllAddressed(s.offers)
    ensures Inv(Apply(s, step)) && AllAddressed(Apply(s, step).offers)
  {
    match step
    case Message(payload, parsed) =>
      MessageAddressed(payload, parsed);
      OfferAddressed(s, MessageEntry(payload, parsed));
      OfferKeepsInv(s, MessageEntry(payload, parsed));
    case PollCommand(payload) =>
      OfferAddressed(s, ResponseEntry(payload));
      OfferKeepsInv(s, ResponseEntry(payload));
    case BeginPublish => BeginKeepsInv(s);
    case PublishDone => DoneKeepsInv(s);
    case _ =>
  }

  lemma MessageAddressed(payload: string, parsed: Parsed)
    ensures Addressed(MessageEntry(payload, parsed))
  {
    assert FromClient(MessageEntry(payload, parsed));
  }

  lemma OfferAddressed(s: System, e: Entry)
    requires AllAddressed(s.offers) && Addressed(e)
    ensures AllAddressed(s.offers + [e]) && KindByTopic(s.offers, e)
  {
    AddressedKindByTopic(s.offers, e);
  }

  lemma {:induction false} RunKeepsInv(steps: seq<Step>)
    requires Run(steps).Some?
    ensures Inv(Run(steps).value) && AllAddressed(Run(steps).value.offers)
  {
    if |steps| == 0 {
    } else {
      RunKeepsInv(steps[..|steps| - 1]);
      StepKeepsInv(Run(steps[..|steps| - 1]).value, steps[|steps| - 1]);
    }
  }

  // ----- what holds in every run -----

  lemma {:induction false} ImportantOnlyIsFront(front: seq<Entry>, back: seq<Entry>)
    requires forall i :: 0 <= i < |front| ==> Important(front[i])
    requires forall i :: 0 <= i < |back| ==> !Important(back[i])
    ensures ImportantOnly(front + back) == front
  {
    if back != [] {
      var n := |back| - 1;
      assert front + back == (front + back[..n]) + [back[n]];
      ImportantOnlyIsFront(front, back[..n]);
      ImportantOnlyAppend(front + back[..n], back[n]);
    } else if front != [] {
      var n := |front| - 1;
      assert front + back == front[..n] + [front[n]];
      assert front[..n] + [] == front[..n];
      ImportantOnlyIsFront(front[..n], []);
      ImportantOnlyAppend(front[..n], front[n]);
    }
  }

  /** The list is two lanes in every reachable state: at most 20 entries, events and responses
      before telemetry, and one telemetry entry per topic. */
  lemma {:induction false} RunIsTwoLanes(steps: seq<Step>)
    requires Run(steps).Some?
    ensures TwoLanes(Run(steps).value.gw.queue)
  {
    RunKeepsInv(steps);
    LanesAreTwo(Run(steps).value.gw.queue);
  }

  ghost predicate TwoLanes(q: seq<Entry>) {
    && |q| <= 20
    && (forall i, j :: 0 <= i < j < |q| && Important(q[j]) ==> Important(q[i]))
    && (forall i, j :: 0 <= i < j < |q| && !Important(q[i]) ==> q[i].topic != q[j].topic)
  }

  lemma LanesAreTwo(q: seq<Entry>)
    requires LanesOk(Split(q))
    ensures TwoLanes(q)
  {
    var l := Split(q);
    var n := |l.front|;
    assert forall i :: 0 <= i < |l.back| ==> l.back[i] == q[n + i];
    forall i, j | 0 <= i < j < |q| && !Important(q[i]) ensures q[i].topic != q[j].topic {
      assert q[i] == l.back[i - n] && q[j] == l.back[j - n];
    }
    assert forall j :: n <= j < |q| ==> !Important(q[j]);
  }

  /** A queued telemetry entry carries the newest payload ever offered for its topic. */
  lemma {:induction false} RunKeepsNewest(steps: seq<Step>)
    requires Run(steps).Some?
    ensures QueuedNewest(Run(steps).value)
  {
    RunKeepsInv(steps);
    var s := Run(steps).value;
    forall i | 0 <= i < |s.gw.queue| && !Important(s.gw.queue[i])
      ensures LastOffer(s.offers, s.gw.queue[i].topic) == Some(s.gw.queue[i]) {
      NewestInList(s.gw.queue, s.offers, i);
    }
  }

  ghost predicate QueuedNewest(s: System) {
    forall i :: 0 <= i < |s.gw.queue| && !Important(s.gw.queue[i]) ==>
      LastOffer(s.offers, s.gw.queue[i].topic) == Some(s.gw.queue[i])
  }

  lemma NewestInList(q: seq<Entry>, offers: seq<Entry>, i: nat)
    requires Latest(Split(q).back, offers) && i < |q| && !Important(q[i])
    ensures LastOffer(offers, q[i].topic) == Some(q[i])
  {
    var l := Split(q);
    assert i >= |l.front| && l.back[i - |l.front|] == q[i];
  }

  /** Accepted events and responses leave the queue in the order of their acceptance and in no
      other way than by `pop(0)`: none is evicted, coalesced or overtaken. */
  lemma {:induction false} RunIsFifo(steps: seq<Step>)
    requires Run(steps).Some?
    ensures var s := Run(steps).value;
            s.accepted == ImportantOnly(s.removed) + ImportantOnly(s.gw.queue)
  {
    RunKeepsInv(steps);
    FrontIsImportantOnly(Run(steps).value.gw.queue);
  }

  lemma FrontIsImportantOnly(q: seq<Entry>)
    requires LanesOk(Split(q))
    ensures Split(q).front == ImportantOnly(q)
  {
    var l := Split(q);
    assert q == l.front + l.back;
    ImportantOnlyIsFront(l.front, l.back);
  }

  /** Every offer is queued, published, coalesced or dropped, and the counters say so. */
  lemma {:induction false} RunBalances(steps: seq<Step>)
    requires Run(steps).Some?
    ensures var s := Run(steps).value;
            && |s.offers| == |s.gw.queue| + s.gw.published + s.gw.coalesced + s.gw.dropped
            && s.refused == s.gw.dropped - s.gw.priorityEvictions
            && |s.sent| == |s.removed| == s.gw.published
  {
    RunKeepsInv(steps);
  }

  // What a step can be counted for.
  datatype Mark = Coalesced | Evicted | Dropped | Published | Failed

  // The entry that the step offers to the queue.
  function Offered(step: Step): Option<Entry> {
    match step
    case Message(payload, parsed) => Some(MessageEntry(payload, parsed))
    case PollCommand(payload) => Some(ResponseEntry(payload))
    case _ => None
  }

  /** The step counts, seen on the list before it. */
  ghost predicate Counts(mark: Mark, q: seq<Entry>, step: Step) {
    match mark
    case Coalesced => Offered(step).Some? && Replaces(q, Offered(step).value)
    case Evicted => Offered(step).Some? && Evicts(q, Offered(step).value)
    case Dropped => Offered(step).Some? && Drops(q, Offered(step).value)
    case Published => step == PublishDone
    case Failed => step == Fail
  }

  ghost function Tally(mark: Mark, steps: seq<Step>): nat {
    if |steps| == 0 then 0
    else
      var before := Run(steps[..|steps| - 1]);
      Tally(mark, steps[..|steps| - 1])
      + One(before.Some? && Counts(mark, before.value.gw.queue, steps[|steps| - 1]))
  }

  ghost predicate Tallied(g: Gateway, g': Gateway, q: seq<Entry>, step: Step) {
    && g'.coalesced == g.coalesced + One(Counts(Coalesced, q, step))
    && g'.priorityEvictions == g.priorityEvictions + One(Counts(Evicted, q, step))
    && g'.dropped == g.dropped + One(Counts(Dropped, q, step))
    && g'.published == g.published + One(Counts(Published, q, step))
    && g'.failed == g.failed + One(Counts(Failed, q, step))
  }

  lemma {:induction false} StepTallies(s: System, step: Step)
    requires Enabled(s, step) && (s.phase.Publishing? ==> s.phase.since <= |s.offers|)
    ensures Tallied(s.gw, Apply(s, step).gw, s.gw.queue, step)
  {
    match step
    case Message(payload, parsed) => OfferTallies(s.gw, step, MessageEntry(payload, parsed));
    case PollCommand(payload) => OfferTallies(s.gw, step, ResponseEntry(payload));
    case _ =>
  }

  lemma {:induction false} OfferTallies(g: Gateway, step: Step, e: Entry)
    requires Offered(step) == Some(e)
    ensures Tallied(g, Enqueue(g, e).0, g.queue, step)
  {
    CountersMove(g, e);
  }

  /** Over a run every counter is the number of steps that it stands for. */
  lemma {:induction false} RunTallies(steps: seq<Step>)
    requires Run(steps).Some?
    ensures var g := Run(steps).value.gw;
            && g.coalesced == Tally(Coalesced, steps) && g.priorityEvictions == Tally(Evicted, steps)
            && g.dropped == Tally(Dropped, steps) && g.published == Tally(Published, steps)
            && g.failed == Tally(Failed, steps)
  {
    if |steps| > 0 {
      RunTallies(steps[..|steps| - 1]);
      StepTallies(Run(steps[..|steps| - 1]).value, steps[|steps| - 1]);
    }
  }

  // The latest of the steps that open or break the connection opened it.
  function Online(steps: seq<Step>): bool {
    if |steps| == 0 then false
    else if steps[|steps| - 1] == Connect then true
    else if steps[|steps| - 1] == Fail then false
    else Online(steps[..|steps| - 1])
  }

  ghost predicate Shows(s: System, online: bool) {
    && s.gw.connected == online
    && s.gw.lastTopic == if |s.sent| == 0 then None else Some(s.sent[|s.sent| - 1].topic)
  }

  /** The status shows the topic published last, and whether the connection stands. */
  lemma {:induction false} RunStatus(steps: seq<Step>)
    requires Run(steps).Some?
    ensures Shows(Run(steps).value, Online(steps))
  {
    if |steps| > 0 {
      RunStatus(steps[..|steps| - 1]);
      StepStatus(Run(steps[..|steps| - 1]).value, steps[|steps| - 1], Online(steps[..|steps| - 1]));
    }
  }

  lemma {:induction false} StepStatus(s: System, step: Step, online: bool)
    requires Enabled(s, step) && (s.phase.Publishing? ==> s.phase.since <= |s.offers|)
    requires Shows(s, online)
    ensures Shows(Apply(s, step), if step == Connect then true else if step == Fail then false else online)
  {
    match step
    case Message(payload, parsed) => CountersMove(s.gw, MessageEntry(payload, parsed));
    case PollCommand(payload) => CountersMove(s.gw, ResponseEntry(payload));
    case _ =>
  }

  /** When a publish completes there is an entry to remove.  It is the published one exactly when
      that was an event or response, or when no event and no newer payload for its topic came in
      meanwhile. */
  lemma {:induction false} PopExact(steps: seq<Step>)
    requires Run(steps).Some? && Run(steps).value.phase.Publishing?
    ensures var s := Run(steps).value;
            var head, arrivals := s.phase.head, Arrivals(s);
            && s.gw.queue != []
            && (Important(head) ==> s.gw.queue[0] == head)
            && (!Important(head) && FirstImportant(arrivals).None? ==>
                  s.gw.queue[0] == Entry(head.topic, NewestPayload(arrivals, head), head.kind))
            && (!Important(head) && FirstImportant(arrivals).Some? ==>
                  s.gw.queue[0] == FirstImportant(arrivals).value)
            && (s.gw.queue[0] == head <==>
                  Important(head) ||
                  (FirstImportant(arrivals).None? && NewestPayload(arrivals, head) == head.payload))
  {
    RunKeepsInv(steps);
    var s := Run(steps).value;
    HeadInFlight(s.gw.queue, s.phase.head, Arrivals(s));
  }

  /** Pairing over the whole run: an event or response that was published is the one that was
      removed, and a removed telemetry entry has the topic and kind of the published one. */
  lemma {:induction false} RunPairsPops(steps: seq<Step>)
    requires Run(steps).Some?
    ensures var s := Run(steps).value;
            |s.sent| == |s.removed| && forall k :: 0 <= k < |s.sent| ==> Paired(s.sent[k], s.removed[k])
  {
    RunKeepsInv(steps);
    var s := Run(steps).value;
    assert forall k :: 0 <= k < |s.sent| ==> Popped(s.sent[k], s.removed[k]);
  }

  ghost predicate Paired(sent: Entry, removed: Entry) {
    && (Important(sent) ==> removed == sent)
    && (!Important(removed) ==> removed.topic == sent.topic && removed.kind == sent.kind)
  }

  /** "No accepted event or response is lost" holds of a run exactly when no event arrived during
      a publish of telemetry that completed; every such publish loses one. */
  lemma {:induction false} NothingLostIff(steps: seq<Step>)
    requires Run(steps).Some?
    ensures var s := Run(steps).value;
            && |s.accepted| == |ImportantOnly(s.sent)| + s.overtaken + |ImportantOnly(s.gw.queue)|
            && (s.accepted == ImportantOnly(s.sent) + ImportantOnly(s.gw.queue) <==>
                  s.overtaken == 0)
  {
    RunKeepsInv(steps);
    RunIsFifo(steps);
    var s := Run(steps).value;
    if s.accepted == ImportantOnly(s.sent) + ImportantOnly(s.gw.queue) {
      assert |s.accepted| == |ImportantOnly(s.sent)| + |ImportantOnly(s.gw.queue)|;
    }
  }

  // ----- lost events, seen from the steps -----

  ghost predicate EventAt(steps: seq<Step>, m: int) {
    0 <= m < |steps| && steps[m].Message? && MessageKind(steps[m].parsed) == Event
  }

  // Step `i` begins a publish, and nothing but messages comes behind it.
  ghost predicate BeginsAt(steps: seq<Step>, i: int) {
    0 <= i < |steps| && steps[i] == BeginPublish && forall m :: i < m < |steps| ==> steps[m].Message?
  }

  // Step `i` finds telemetry at the head of the list.
  ghost predicate TelemetryAt(steps: seq<Step>, i: int) {
    0 <= i <= |steps| && Run(steps[..i]).Some?
    && Run(steps[..i]).value.gw.queue != [] && !Important(Run(steps[..i]).value.gw.queue[0])
  }

  ghost predicate EventBehind(steps: seq<Step>, i: int) {
    exists m :: i < m && EventAt(steps, m)
  }

  /** Step `j` completes a publish of telemetry that step `i` began, and an event was queued between
      the two. */
  ghost predicate LosesAt(steps: seq<Step>, i: int, j: int) {
    0 <= i < j < |steps| && steps[j] == PublishDone
    && BeginsAt(steps[..j], i) && TelemetryAt(steps, i) && EventBehind(steps[..j], i)
  }

  ghost predicate LosesIn(steps: seq<Step>, j: int) {
    exists i :: LosesAt(steps, i, j)
  }

  ghost predicate Loses(steps: seq<Step>) {
    exists j :: LosesIn(steps, j)
  }

  lemma ClientImportant(payload: string, parsed: Parsed)
    ensures Important(MessageEntry(payload, parsed)) <==> MessageKind(parsed) == Event
  {
    ClientKindIsNotResponse(parsed);
  }

  lemma FirstImportantAppend(q: seq<Entry>, e: Entry)
    ensures FirstImportant(q + [e]).Some? <==> FirstImportant(q).Some? || Important(e)
  {
    assert (q + [e])[..|q|] == q;
  }

  // Where the publish under way began, and what it has met since.
  ghost predicate UnderWay(steps: seq<Step>, s: System, i: int) {
    && BeginsAt(steps, i) && s.phase.Publishing? && s.phase.since <= |s.offers|
    && (!Important(s.phase.head) <==> TelemetryAt(steps, i))
    && (FirstImportant(Arrivals(s)).Some? <==> EventBehind(steps, i))
  }

  lemma {:induction false} UnderWayBegins(steps: seq<Step>, s: System)
    requires Run(steps) == Some(s) && Enabled(s, BeginPublish)
    ensures UnderWay(steps + [BeginPublish], Apply(s, BeginPublish), |steps|)
  {
    assert (steps + [BeginPublish])[..|steps|] == steps;
    assert s.offers[|s.offers|..] == [];
  }

  lemma UnderWayGoesOn(steps: seq<Step>, s: System, i: int, step: Step)
    requires UnderWay(steps, s, i) && step.Message?
    ensures UnderWay(steps + [step], Apply(s, step), i)
  {
    var e := MessageEntry(step.payload, step.parsed);
    ClientImportant(step.payload, step.parsed);
    FirstImportantAppend(Arrivals(s), e);
    assert (s.offers + [e])[s.phase.since..] == Arrivals(s) + [e];
    assert (steps + [step])[..i] == steps[..i];
    EventBehindAppend(steps, i, step);
  }

  lemma EventBehindAppend(steps: seq<Step>, i: int, step: Step)
    requires 0 <= i < |steps| && step.Message?
    ensures EventBehind(steps + [step], i) <==>
            EventBehind(steps, i) || MessageKind(step.parsed) == Event
  {
    var all := steps + [step];
    if m :| i < m && EventAt(steps, m) {
      assert EventAt(all, m);
    }
    if MessageKind(step.parsed) == Event {
      assert EventAt(all, |steps|);
    }
    assert forall m :: m < |steps| && EventAt(all, m) ==> EventAt(steps, m);
  }

  lemma {:induction false} PublishingBegan(steps: seq<Step>)
    requires Run(steps).Some? && Run(steps).value.phase.Publishing?
    ensures exists i :: UnderWay(steps, Run(steps).value, i)
  {
    assert |steps| > 0;
    var n := |steps| - 1;
    var before, last := Run(steps[..n]).value, steps[n];
    assert steps == steps[..n] + [last];
    if last == BeginPublish {
      UnderWayBegins(steps[..n], before);
    } else {
      assert last.Message? && before.phase.Publishing?;
      PublishingBegan(steps[..n]);
      var i :| UnderWay(steps[..n], before, i);
      UnderWayGoesOn(steps[..n], before, i, last);
    }
  }

  // A completed publish counts as overtaken exactly when its last step loses something.
  lemma {:induction false} LosesLast(steps: seq<Step>, s: System, i: int)
    requires Run(steps) == Some(s) && UnderWay(steps, s, i)
    ensures (!Important(s.phase.head) && FirstImportant(Arrivals(s)).Some?) <==>
            LosesIn(steps + [PublishDone], |steps|)
  {
    var all := steps + [PublishDone];
    assert all[..|steps|] == steps && all[..i] == steps[..i];
    assert forall k :: BeginsAt(steps, k) ==> k == i;
    if !Important(s.phase.head) && FirstImportant(Arrivals(s)).Some? {
      assert LosesAt(all, i, |steps|);
    }
  }

  lemma LosesEarlier(steps: seq<Step>, last: Step)
    ensures Loses(steps + [last]) <==>
            Loses(steps) || LosesIn(steps + [last], |steps|)
  {
    var all := steps + [last];
    forall i, j | j < |steps| ensures LosesAt(all, i, j) <==> LosesAt(steps, i, j) {
      if 0 <= i < j {
        assert all[..i] == steps[..i] && all[..j] == steps[..j];
      }
    }
    assert forall j :: j < |steps| ==> (LosesIn(all, j) <==> LosesIn(steps, j));
    assert forall j :: LosesIn(all, j) && j >= |steps| ==> j == |steps|;
  }

  // One more step.
  lemma {:induction false} LosesNext(steps: seq<Step>, s: System, last: Step)
    requires Run(steps) == Some(s) && Enabled(s, last)
    ensures Apply(s, last).overtaken > 0 <==>
            s.overtaken > 0 || LosesIn(steps + [last], |steps|)
  {
    if last == PublishDone {
      PublishingBegan(steps);
      var i :| UnderWay(steps, s, i);
      LosesLast(steps, s, i);
    }
  }

  lemma {:induction false} OvertakenIffLoses(steps: seq<Step>)
    requires Run(steps).Some?
    ensures Run(steps).value.overtaken > 0 <==> Loses(steps)
  {
    if |steps| > 0 {
      var n := |steps| - 1;
      var before, s, last := steps[..n], Run(steps[..n]).value, steps[n];
      assert steps == before + [last];
      OvertakenIffLoses(before);
      LosesStep(before, s, last);
    }
  }

  lemma {:induction false} LosesStep(steps: seq<Step>, s: System, last: Step)
    requires Run(steps) == Some(s) && Enabled(s, last) && (s.overtaken > 0 <==> Loses(steps))
    ensures Apply(s, last).overtaken > 0 <==> Loses(steps + [last])
  {
    LosesEarlier(steps, last);
    LosesNext(steps, s, last);
  }

  /** The same in terms of the steps alone: no accepted event or response is lost exactly when no publish
      of telemetry was completed with an event queued since it began. */
  lemma {:induction false} NothingLostIffNoLosingSteps(steps: seq<Step>)
    requires Run(steps).Some?
    ensures var s := Run(steps).value;
            s.accepted == ImportantOnly(s.sent) + ImportantOnly(s.gw.queue) <==> !Loses(steps)
  {
    NothingLostIff(steps);
    OvertakenIffLoses(steps);
  }

  // ----- what is removed unsent, seen from the steps -----

  // The messages queued behind step `i`.
  function Behind(steps: seq<Step>, i: int): seq<Entry> {
    if |steps| == 0 || |steps| - 1 <= i then []
    else
      var last := steps[|steps| - 1];
      Behind(steps[..|steps| - 1], i)
      + (if last.Message? then [MessageEntry(last.payload, last.parsed)] else [])
  }

  // Step `i` finds `head` at the head of the list.
  ghost predicate HeadAt(steps: seq<Step>, i: int, head: Entry) {
    0 <= i <= |steps| && Run(steps[..i]).Some?
    && Run(steps[..i]).value.gw.queue != [] && Run(steps[..i]).value.gw.queue[0] == head
  }

  // An event came in, or else the newest message for the topic of `head` has another payload.
  predicate Overridden(head: Entry, arrivals: seq<Entry>) {
    !Important(head)
    && (FirstImportant(arrivals).Some? || NewestPayload(arrivals, head) != head.payload)
  }

  /** Step `j` completes a publish of telemetry that step `i` began, and an event or a newer value for the
      topic was queued between the two. */
  ghost predicate MissesAt(steps: seq<Step>, i: int, j: int) {
    0 <= i < j < |steps| && steps[j] == PublishDone && BeginsAt(steps[..j], i)
    && exists head :: HeadAt(steps, i, head) && Overridden(head, Behind(steps[..j], i))
  }

  ghost predicate MissesIn(steps: seq<Step>, j: int) {
    exists i :: MissesAt(steps, i, j)
  }

  ghost predicate Misses(steps: seq<Step>) {
    exists j :: MissesIn(steps, j)
  }

  ghost predicate Carrying(steps: seq<Step>, s: System, i: int) {
    && BeginsAt(steps, i) && s.phase.Publishing? && s.phase.since <= |s.offers|
    && HeadAt(steps, i, s.phase.head) && Arrivals(s) == Behind(steps, i)
  }

  lemma {:induction false} CarryingBegins(steps: seq<Step>, s: System)
    requires Run(steps) == Some(s) && Enabled(s, BeginPublish)
    ensures Carrying(steps + [BeginPublish], Apply(s, BeginPublish), |steps|)
  {
    assert (steps + [BeginPublish])[..|steps|] == steps;
    assert s.offers[|s.offers|..] == [];
  }

  lemma {:induction false} CarryingGoesOn(steps: seq<Step>, s: System, i: int, step: Step)
    requires Carrying(steps, s, i) && step.Message?
    ensures Carrying(steps + [step], Apply(s, step), i)
  {
    var e := MessageEntry(step.payload, step.parsed);
    assert (s.offers + [e])[s.phase.since..] == Arrivals(s) + [e];
    assert (steps + [step])[..i] == steps[..i] && (steps + [step])[..|steps|] == steps;
  }

  lemma {:induction false} CarryingBegan(steps: seq<Step>)
    requires Run(steps).Some? && Run(steps).value.phase.Publishing?
    ensures exists i :: Carrying(steps, Run(steps).value, i)
  {
    assert |steps| > 0;
    var n := |steps| - 1;
    var before, last := Run(steps[..n]).value, steps[n];
    assert steps == steps[..n] + [last];
    if last == BeginPublish {
      CarryingBegins(steps[..n], before);
    } else {
      assert last.Message? && before.phase.Publishing?;
      CarryingBegan(steps[..n]);
      var i :| Carrying(steps[..n], before, i);
      CarryingGoesOn(steps[..n], before, i, last);
    }
  }

  lemma {:induction false} MissesLast(steps: seq<Step>, s: System, i: int)
    requires Carrying(steps, s, i)
    ensures Overridden(s.phase.head, Arrivals(s)) <==>
            MissesIn(steps + [PublishDone], |steps|)
  {
    var all := steps + [PublishDone];
    assert all[..|steps|] == steps && all[..i] == steps[..i];
    assert forall k :: BeginsAt(steps, k) ==> k == i;
    if Overridden(s.phase.head, Arrivals(s)) {
      assert HeadAt(all, i, s.phase.head);
      assert MissesAt(all, i, |steps|);
    }
  }

  lemma {:induction false} MissesEarlier(steps: seq<Step>, last: Step)
    ensures Misses(steps + [last]) <==>
            Misses(steps) || MissesIn(steps + [last], |steps|)
  {
    var all := steps + [last];
    forall i, j | j < |steps| ensures MissesAt(all, i, j) <==> MissesAt(steps, i, j) {
      if 0 <= i < j {
        assert all[..i] == steps[..i] && all[..j] == steps[..j];
        assert forall head :: HeadAt(all, i, head) <==> HeadAt(steps, i, head);
      }
    }
    assert forall j :: j < |steps| ==> (MissesIn(all, j) <==> MissesIn(steps, j));
    assert forall j :: MissesIn(all, j) && j >= |steps| ==> j == |steps|;
  }

  // One more step.
  lemma {:induction false} MissesNext(steps: seq<Step>, s: System, last: Step)
    requires Run(steps) == Some(s) && Enabled(s, last)
    ensures var s' := Apply(s, last);
            s'.sent == s'.removed <==>
              s.sent == s.removed && !MissesIn(steps + [last], |steps|)
  {
    if last == PublishDone {
      CarryingBegan(steps);
      var i :| Carrying(steps, s, i);
      MissesLast(steps, s, i);
      PopExact(steps);
      RunBalances(steps);
      SameEnds(s.sent, s.removed, s.phase.head, s.gw.queue[0]);
    }
  }

  lemma SameEnds(x: seq<Entry>, y: seq<Entry>, a: Entry, b: Entry)
    requires |x| == |y|
    ensures x + [a] == y + [b] <==> x == y && a == b
  {
    assert (x + [a])[..|x|] == x && (y + [b])[..|y|] == y;
    assert (x + [a])[|x|] == a && (y + [b])[|y|] == b;
  }

  /** "What leaves the queue by `pop(0)` is what was published" holds of a run exactly when no publish of
      telemetry was completed with an event, or a newer value for its topic, queued since it began: in
      every other run something accepted is removed unsent. */
  lemma {:induction false} RemovedIsSentIff(steps: seq<Step>)
    requires Run(steps).Some?
    ensures Run(steps).value.sent == Run(steps).value.removed <==> !Misses(steps)
  {
    if |steps| > 0 {
      var n := |steps| - 1;
      var before, s, last := steps[..n], Run(steps[..n]).value, steps[n];
      assert steps == before + [last];
      RemovedIsSentIff(before);
      MissesStep(before, s, last);
    }
  }

  lemma {:induction false} MissesStep(steps: seq<Step>, s: System, last: Step)
    requires Run(steps) == Some(s) && Enabled(s, last) && (s.sent == s.removed <==> !Misses(steps))
    ensures Apply(s, last).sent == Apply(s, last).removed <==> !Misses(steps + [last])
  {
    MissesEarlier(steps, last);
    MissesNext(steps, s, last);
  }

  // ----- the run that loses a newer value -----

  function Superseding(t: Entry, u: Entry): System {
    System(STARTED.(connected := true, queue := [u], coalesced := 1), Publishing(t, 1), [t, u], [], 0,
           [], [], 0)
  }

  function Superseded(t: Entry, u: Entry): System {
    System(FinishPublish(STARTED.(connected := true, queue := [u], coalesced := 1), t.topic), Idle,
           [t, u], [], 0, [t], [u], 0)
  }

  lemma ReachSuperseding(t: Entry, u: Entry)
    requires !Important(t) && u.topic == t.topic && u.kind == t.kind
    ensures OfferStep(Queued(t).(phase := Publishing(t, 1)), u) == Superseding(t, u)
  {
    assert Coalescible(t, u.topic);
    assert [t][0 := u] == [u];
  }

  lemma {:induction false} NoneOfOne(e: Entry)
    requires !Important(e)
    ensures FirstImportant([e]) == None
  {
    assert [e][..0] == [];
  }

  lemma {:induction false} ReachSuperseded(t: Entry, u: Entry)
    requires !Important(t) && !Important(u)
    ensures DoneStep(Superseding(t, u)) == Superseded(t, u)
  {
    assert Arrivals(Superseding(t, u)) == [u];
    NoneOfOne(u);
  }

  lemma {:induction false} SupersedingRun(m: Step, t: Entry, n: Step, u: Entry)
    requires m.Message? && n.Message? && !Important(t) && !Important(u)
    requires Apply(Apply(BOOT, Connect), m) == Queued(t)
    requires Apply(Queued(t).(phase := Publishing(t, 1)), n) == Superseding(t, u)
    ensures Run([] + [Connect] + [m] + [BeginPublish] + [n] + [PublishDone]) == Some(Superseded(t, u))
  {
    Goes([], BOOT, Connect, Apply(BOOT, Connect));
    Goes([] + [Connect], Apply(BOOT, Connect), m, Queued(t));
    Goes([] + [Connect] + [m], Queued(t), BeginPublish, Queued(t).(phase := Publishing(t, 1)));
    Goes([] + [Connect] + [m] + [BeginPublish], Queued(t).(phase := Publishing(t, 1)), n,
         Superseding(t, u));
    ReachSuperseded(t, u);
    Goes([] + [Connect] + [m] + [BeginPublish] + [n], Superseding(t, u), PublishDone,
         Superseded(t, u));
  }

  /** A newer value that arrives while the older one of the same client is being published is removed in
      its place: it is the last offer for its topic, was accepted, and is neither sent nor queued. */
  lemma {:induction false} NewerValueLost(p: Parsed, a: string, b: string)
    requires !Important(MessageEntry(a, p)) && a != b
    ensures var u := MessageEntry(b, p);
            var r := Run([] + [Connect] + [Message(a, p)] + [BeginPublish] + [Message(b, p)]
                         + [PublishDone]);
            && r.Some? && r.value.refused == 0
            && LastOffer(r.value.offers, u.topic) == Some(u)
            && u !in r.value.sent && r.value.gw.queue == []
  {
    var t, u := MessageEntry(a, p), MessageEntry(b, p);
    ReachQueued(t);
    ReachSuperseding(t, u);
    SupersedingRun(Message(a, p), t, Message(b, p), u);
  }

  // ----- the run that loses an event -----

  lemma {:induction false} RunAppend(steps: seq<Step>, step: Step)
    requires Run(steps).Some? && Enabled(Run(steps).value, step)
    ensures Run(steps + [step]) == Some(Apply(Run(steps).value, step))
  {
    assert (steps + [step])[..|steps|] == steps;
  }

  lemma OfferToEmpty(g: Gateway, t: Entry)
    requires g.queue == [] && !Important(t)
    ensures Enqueue(g, t) == (g.(queue := [t]), true)
  {
    assert [] + [t] == [t];
  }

  lemma EventOvertakes(g: Gateway, t: Entry, e: Entry)
    requires g.queue == [t] && !Important(t) && e.kind == Event
    ensures Enqueue(g, e) == (g.(queue := [e, t]), true)
  {
    assert ImportantPrefix([t]) == 0;
    assert [t][..0] + [e] + [t][0..] == [e, t];
  }

  // The states of that run: `t` queued, `t` in flight with `e` queued ahead of it, `e` removed.
  function Queued(t: Entry): System {
    System(STARTED.(connected := true, queue := [t]), Idle, [t], [], 0, [], [], 0)
  }

  function Overtaken(t: Entry, e: Entry): System {
    System(STARTED.(connected := true, queue := [e, t]), Publishing(t, 1), [t, e], [e], 0, [], [], 0)
  }

  function Lost(t: Entry, e: Entry): System {
    System(FinishPublish(STARTED.(connected := true, queue := [e, t]), t.topic), Idle,
           [t, e], [e], 0, [t], [e], 1)
  }

  lemma ReachQueued(t: Entry)
    requires !Important(t)
    ensures OfferStep(Apply(BOOT, Connect), t) == Queued(t)
  {
    OfferToEmpty(Apply(BOOT, Connect).gw, t);
  }

  lemma ReachOvertaken(t: Entry, e: Entry)
    requires !Important(t) && e.kind == Event
    ensures OfferStep(Queued(t).(phase := Publishing(t, 1)), e) == Overtaken(t, e)
  {
    EventOvertakes(Queued(t).gw, t, e);
  }

  lemma {:induction false} FirstOfOne(e: Entry)
    requires Important(e)
    ensures FirstImportant([e]) == Some(e)
  {
    assert [e][..0] == [];
  }

  lemma {:induction false} ReachLost(t: Entry, e: Entry)
    requires !Important(t) && e.kind == Event
    ensures DoneStep(Overtaken(t, e)) == Lost(t, e)
  {
    assert Arrivals(Overtaken(t, e)) == [e];
    FirstOfOne(e);
  }

  lemma {:induction false} Goes(steps: seq<Step>, s: System, step: Step, s': System)
    requires Run(steps) == Some(s) && Enabled(s, step) && Apply(s, step) == s'
    ensures Run(steps + [step]) == Some(s')
  {
    RunAppend(steps, step);
  }

  lemma {:induction false} LosingRun(m: Step, t: Entry, n: Step, e: Entry)
    requires m.Message? && n.Message? && !Important(t) && e.kind == Event
    requires Apply(Apply(BOOT, Connect), m) == Queued(t)
    requires Apply(Queued(t).(phase := Publishing(t, 1)), n) == Overtaken(t, e)
    ensures Run([] + [Connect] + [m] + [BeginPublish] + [n] + [PublishDone]) == Some(Lost(t, e))
  {
    Goes([], BOOT, Connect, Apply(BOOT, Connect));
    Goes([] + [Connect], Apply(BOOT, Connect), m, Queued(t));
    Goes([] + [Connect] + [m], Queued(t), BeginPublish, Queued(t).(phase := Publishing(t, 1)));
    Goes([] + [Connect] + [m] + [BeginPublish], Queued(t).(phase := Publishing(t, 1)), n,
         Overtaken(t, e));
    ReachLost(t, e);
    Goes([] + [Connect] + [m] + [BeginPublish] + [n], Overtaken(t, e), PublishDone, Lost(t, e));
  }

  /** An event that arrives while telemetry is being published is removed unpublished: the
      telemetry entry stays in the queue and the event is gone. */
  lemma {:induction false} EventLost(t: string, p: Parsed, e: string, q: Parsed)
    requires !Important(MessageEntry(t, p)) && MessageKind(q) == Event
    ensures Run([] + [Connect] + [Message(t, p)] + [BeginPublish] + [Message(e, q)] + [PublishDone])
            == Some(Lost(MessageEntry(t, p), MessageEntry(e, q)))
  {
    var te, ev := MessageEntry(t, p), MessageEntry(e, q);
    ReachQueued(te);
    ReachOvertaken(te, ev);
    LosingRun(Message(t, p), te, Message(e, q), ev);
  }

  /** The client's own messages do it: fast telemetry in flight, then a DTC event.  The event was
      accepted, and is neither sent nor queued. */
  lemma {:induction false} DtcEventLost()
    ensures var fast := map["data_class" := "fast"];
            var dtc := map["data_class" := "event"];
            var r := Run([] + [Connect] + [Message("rpm", fast)] + [BeginPublish] + [Message("P0171", dtc)]
                         + [PublishDone]);
            && r.Some?
            && MessageEntry("P0171", dtc) in r.value.accepted
            && MessageEntry("P0171", dtc) !in r.value.sent
            && MessageEntry("P0171", dtc) !in r.value.gw.queue
  {
    var fast := map["data_class" := "fast"];
    var dtc := map["data_class" := "event"];
    DtcIsEvent();
    FastIsTelemetry();
    EventLost("rpm", fast, "P0171", dtc);
    LostIsGone(MessageEntry("rpm", fast), MessageEntry("P0171", dtc));
  }

  lemma LostIsGone(t: Entry, e: Entry)
    requires t.kind != e.kind
    ensures e in Lost(t, e).accepted && e !in Lost(t, e).sent && e !in Lost(t, e).gw.queue
  {
    assert Lost(t, e).gw.queue == [t];
  }

  lemma DtcIsEvent()
    ensures MessageKind(map["data_class" := "event"]) == Event
  {
    assert Lower("event") == "event";
  }

  lemma FastIsTelemetry()
    ensures MessageKind(map["data_class" := "fast"]) == Fast
  {
    assert Lower("fast") == "fast" && |Lower("telemetry")| == 9;
    assert Lower("telemetry")[0] == 't';
  }
}
