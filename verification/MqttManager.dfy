/** The queue methods of class `MQTTManager`, gateway/lilygo-micropython/mqtt_manager.py, on the
    list they change in place. */
module MqttManager {
  import opened Options
  import opened Topics
  import opened MqttQueue
  import opened MqttRuns

  class MQTTManager {
    var queue: seq<Entry>
    var connected: bool
    var published: nat
    var failed: nat
    var dropped: nat
    var coalesced: nat
    var priorityEvictions: nat
    var lastTopic: Option<string>

    function Abs(): Gateway
      reads this
    {
      Gateway(queue, connected, published, failed, dropped, coalesced, priorityEvictions, lastTopic)
    }

    constructor ()
      ensures Abs() == STARTED
    {
      queue := [];
      connected := false;
      published, failed, dropped, coalesced, priorityEvictions := 0, 0, 0, 0, 0;
      lastTopic := None;
    }

    method Enqueue(payload: string, parsed: Parsed) returns (ok: bool)
      modifies this
      ensures (Abs(), ok) == MqttQueue.Enqueue(old(Abs()), MessageEntry(payload, parsed))
    {
      var topic := Topic(parsed);
      var kind := MessageKind(parsed);
      ClientKindIsNotResponse(parsed);
      ok := EnqueueKnown(topic, payload, kind);
    }

    // The rest of `enqueue`, once topic and kind are known.
    method EnqueueKnown(topic: string, payload: string, kind: Kind) returns (ok: bool)
      modifies this
      ensures (Abs(), ok) == Offer(old(Abs()), Entry(topic, payload, kind))
    {
      if kind != Event {
        var index := |queue| - 1;
        while index >= 0
          invariant -1 <= index < |queue|
          invariant Abs() == old(Abs())
          invariant forall i :: index < i < |queue| ==> !Coalescible(queue[i], topic)
        {
          var entry := queue[index];
          if entry.topic == topic && entry.kind != Event {
            assert index == CoalesceIndex(queue, topic);
            queue := queue[index := Entry(topic, payload, kind)];
            coalesced := coalesced + 1;
            return true;
          }
          index := index - 1;
        }
      }
      if kind == Event {
        ok := EnqueueImportant(topic, payload, kind);
        return;
      }
      if |queue| >= MQTT_QUEUE_CAPACITY {
        dropped := dropped + 1;
        return false;
      }
      queue := queue + [Entry(topic, payload, kind)];
      return true;
    }

    method EnqueuePriority(payload: string) returns (ok: bool)
      modifies this
      ensures (Abs(), ok) == MqttQueue.Enqueue(old(Abs()), ResponseEntry(payload))
    {
      ok := EnqueueImportant(MQTT_RESPONSE_TOPIC, payload, Response);
    }

    method EnqueueImportant(topic: string, payload: string, kind: Kind) returns (ok: bool)
      modifies this
      ensures (Abs(), ok) == OfferImportant(old(Abs()), Entry(topic, payload, kind))
    {
      if |queue| >= MQTT_QUEUE_CAPACITY {
        var removeAt := LowestPriority();
        if removeAt < 0 {
          dropped := dropped + 1;
          return false;
        }
        queue := queue[..removeAt] + queue[removeAt + 1..];
        dropped := dropped + 1;
        priorityEvictions := priorityEvictions + 1;
      }
      var insertAt := InsertPosition();
      queue := queue[..insertAt] + [Entry(topic, payload, kind)] + queue[insertAt..];
      return true;
    }

    // The insertion loop of `_enqueue_important`.
    method InsertPosition() returns (insertAt: nat)
      ensures insertAt == ImportantPrefix(queue)
    {
      insertAt := 0;
      while insertAt < |queue| && (queue[insertAt].kind == Event || queue[insertAt].kind == Response)
        invariant insertAt <= |queue|
        invariant forall i :: 0 <= i < insertAt ==> Important(queue[i])
      {
        insertAt := insertAt + 1;
      }
    }

    // `_lowest_priority_index`
    method LowestPriority() returns (r: int)
      ensures r == LowestPriorityIndex(queue)
    {
      for k := 0 to |EVICTION_ORDER|
        invariant forall j, i :: 0 <= j < k && 0 <= i < |queue| ==> queue[i].kind != EVICTION_ORDER[j]
      {
        var wanted := EVICTION_ORDER[k];
        var index := |queue| - 1;
        while index >= 0
          invariant -1 <= index < |queue|
          invariant forall i :: index < i < |queue| ==> queue[i].kind != wanted
        {
          if queue[index].kind == wanted {
            FoundVictim(queue, k, index);
            return index;
          }
          index := index - 1;
        }
      }
      NoneWanted(queue);
      return -1;
    }

    /** One publish: the head is read, any messages are queued while the modem is awaited, and then
        `pop(0)` removes the entry that stands first by then. */
    method PublishHead(arrivals: seq<(string, Parsed)>, succeeds: bool)
      returns (head: Entry, ghost removed: Option<Entry>)
      requires queue != [] && LanesOk(Split(queue)) && AllAddressed(queue)
      modifies this
      ensures var g := EnqueueAll(old(Abs()), Entries(arrivals));
              if succeeds then g.queue != [] && Abs() == FinishPublish(g, old(queue)[0].topic)
              else Abs() == FailPublish(g)
      ensures removed == if succeeds then Some(RemovedFor(old(queue)[0], Entries(arrivals))) else None
      ensures succeeds ==> EnqueueAll(old(Abs()), Entries(arrivals)).queue == [removed.value] + queue
      ensures head == old(queue)[0]
    {
      EntriesAddressed(arrivals);
      AddressedByTopic(queue, Entries(arrivals));
      HeadAfterArrivals(Abs(), Entries(arrivals), KindsOf(queue + Entries(arrivals)));
      head := queue[0];
      EnqueueArrivals(arrivals);
      removed := if succeeds then Some(queue[0]) else None;
      EndPublish(head.topic, succeeds);
    }

    method EndPublish(topic: string, succeeds: bool)
      requires queue != []
      modifies this
      ensures Abs() == if succeeds then FinishPublish(old(Abs()), topic) else FailPublish(old(Abs()))
      ensures succeeds ==> old(queue) == [old(queue)[0]] + queue
    {
      if succeeds {
        PublishDone(topic);
      } else {
        PublishFailed();
      }
    }

    method EnqueueArrivals(arrivals: seq<(string, Parsed)>)
      modifies this
      ensures Abs() == EnqueueAll(old(Abs()), Entries(arrivals))
    {
      for i := 0 to |arrivals|
        invariant Abs() == EnqueueAll(old(Abs()), Entries(arrivals[..i]))
      {
        EntriesNext(old(Abs()), arrivals, i);
        var _ := Enqueue(arrivals[i].0, arrivals[i].1);
      }
      assert arrivals[..|arrivals|] == arrivals;
    }

    method PublishDone(topic: string)
      requires queue != []
      modifies this
      ensures Abs() == FinishPublish(old(Abs()), topic)
    {
      queue := queue[1..];
      published := published + 1;
      lastTopic := Some(topic);
    }

    method PublishFailed()
      modifies this
      ensures Abs() == FailPublish(old(Abs()))
    {
      connected := false;
      failed := failed + 1;
    }
  }

  // The messages as entries.
  function Entries(messages: seq<(string, Parsed)>): (r: seq<Entry>)
    ensures |r| == |messages|
  {
    if |messages| == 0 then []
    else
      var (payload, parsed) := messages[|messages| - 1];
      Entries(messages[..|messages| - 1]) + [MessageEntry(payload, parsed)]
  }

  // One more message queued is one more entry.
  lemma EntriesNext(g: Gateway, messages: seq<(string, Parsed)>, i: nat)
    requires i < |messages|
    ensures EnqueueAll(g, Entries(messages[..i + 1]))
            == MqttQueue.Enqueue(EnqueueAll(g, Entries(messages[..i])),
                                 MessageEntry(messages[i].0, messages[i].1)).0
  {
    assert messages[..i + 1][..i] == messages[..i];
    EnqueueMore(g, Entries(messages[..i]), MessageEntry(messages[i].0, messages[i].1));
  }

  lemma {:induction false} EntriesAddressed(messages: seq<(string, Parsed)>)
    ensures AllAddressed(Entries(messages))
  {
    if |messages| > 0 {
      var (payload, parsed) := messages[|messages| - 1];
      EntriesAddressed(messages[..|messages| - 1]);
      MessageAddressed(payload, parsed);
    }
  }

  lemma FoundVictim(q: seq<Entry>, k: nat, v: nat)
    requires k < |EVICTION_ORDER| && v < |q| && q[v].kind == EVICTION_ORDER[k]
    requires forall j, i :: 0 <= j < k && 0 <= i < |q| ==> q[i].kind != EVICTION_ORDER[j]
    requires forall i :: v < i < |q| ==> q[i].kind != EVICTION_ORDER[k]
    ensures v == LowestPriorityIndex(q)
  {
    assert EVICTION_ORDER[0] == Diagnostic && EVICTION_ORDER[1] == Fast;
    assert EVICTION_ORDER[2] == Slow && EVICTION_ORDER[3] == Telemetry;
    if k > 0 {
      assert forall i :: 0 <= i < |q| ==> q[i].kind != EVICTION_ORDER[0];
    }
    if k > 1 {
      assert forall i :: 0 <= i < |q| ==> q[i].kind != EVICTION_ORDER[1];
    }
    if k > 2 {
      assert forall i :: 0 <= i < |q| ==> q[i].kind != EVICTION_ORDER[2];
    }
    assert IsVictim(q, v);
    VictimUnique(q, v, LowestPriorityIndex(q));
  }

  lemma NoneWanted(q: seq<Entry>)
    requires forall j, i :: 0 <= j < |EVICTION_ORDER| && 0 <= i < |q| ==> q[i].kind != EVICTION_ORDER[j]
    ensures LowestPriorityIndex(q) == -1
  {
    assert forall i :: 0 <= i < |q| ==> q[i].kind != EVICTION_ORDER[0];
    assert forall i :: 0 <= i < |q| ==> q[i].kind != EVICTION_ORDER[1];
    assert forall i :: 0 <= i < |q| ==> q[i].kind != EVICTION_ORDER[2];
    assert forall i :: 0 <= i < |q| ==> q[i].kind != EVICTION_ORDER[3];
  }
}
