/** Which counter an offer moves, for the publish queue of gateway/lilygo-micropython/mqtt_manager.py. */
module MqttCounters {
  import opened Options
  import opened Topics
  import opened MqttQueue

  // What an offer does, seen on the list before it.

  predicate Full(q: seq<Entry>) {
    |q| >= 20
  }

  ghost predicate Replaces(q: seq<Entry>, e: Entry) {
    !Important(e) && exists i :: 0 <= i < |q| && Coalescible(q[i], e.topic)
  }

  ghost predicate Evicts(q: seq<Entry>, e: Entry) {
    Important(e) && Full(q) && exists i :: 0 <= i < |q| && !Important(q[i])
  }

  // Some message is given up: the one offered, or the one evicted for it.
  ghost predicate Drops(q: seq<Entry>, e: Entry) {
    Full(q) && !Replaces(q, e)
  }

  function One(b: bool): nat {
    if b then 1 else 0
  }

  /** Each counter moves exactly in its own case: `coalesced` when an older value of the topic is replaced,
      `priority_evictions` when an event or response displaces telemetry, `dropped` when the list is full
      and nothing is replaced.  Nothing else of the status changes. */
  lemma CountersMove(g: Gateway, e: Entry)
    ensures var g' := Enqueue(g, e).0;
            && g'.coalesced == g.coalesced + One(Replaces(g.queue, e))
            && g'.priorityEvictions == g.priorityEvictions + One(Evicts(g.queue, e))
            && g'.dropped == g.dropped + One(Drops(g.queue, e))
            && g'.published == g.published && g'.failed == g.failed
            && g'.connected == g.connected && g'.lastTopic == g.lastTopic
  {
    var q := g.queue;
    assert LowestPriorityIndex(q) < 0 <==> forall i :: 0 <= i < |q| ==> Important(q[i]);
    var at := CoalesceIndex(q, e.topic);
    assert at >= 0 ==> Coalescible(q[at], e.topic);
    assert at < 0 ==> forall i :: 0 <= i < |q| ==> !Coalescible(q[i], e.topic);
  }
}
