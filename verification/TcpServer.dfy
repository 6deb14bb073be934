/** `handle` of gateway/lilygo-micropython/tcp_server.py: what becomes of each received frame.

    The bytes of a frame, its JSON and the state of the connection are given; the registry and the
    publish queue are the classes of the other modules.  A connection gives way to other tasks while it
    reads a frame and while it drains the acknowledgement, and nowhere else: `Acknowledge` and `Book` are
    the two atomic actions, and `ServerRuns` interleaves them with other connections and the publisher. */
module TcpServer {
  import opened Options
  import opened Topics
  import opened MqttQueue
  import MqttManager
  import Devices

  /** The decoded JSON of a frame; `NoJson` is a parse error or a null. */
  datatype Json = Object(fields: Parsed) | OtherJson | NoJson

  /** One pass of the loop: whether the frame read is empty, its text (None when it is not UTF-8) and its
      JSON. */
  datatype Frame = Frame(isEmpty: bool, text: Option<string>, json: Json)

  /** The acknowledgement is written; any other frame ends the connection. */
  predicate Acknowledged(f: Frame) {
    !f.isEmpty && f.text.Some?
  }

  // The message that a frame stands for.
  function EntryOf(f: Frame): Entry
    requires Acknowledged(f) && f.json.Object?
  {
    MessageEntry(f.text.value, f.json.fields)
  }

  /** The publish queue after one booked frame. */
  function QueuedOne(g: Gateway, f: Frame): Gateway {
    if Acknowledged(f) && f.json.Object? then Enqueue(g, EntryOf(f)).0 else g
  }

  function FieldsOf(json: Json): Option<Devices.Fields> {
    if json.Object? then Some(json.fields) else None
  }

  /** What a pass of the loop meets: a frame, whether the acknowledgement got out, and the timestamp. */
  datatype Turn = Turn(frame: Frame, drained: bool, now: string)

  predicate GoesOn(t: Turn) {
    Acknowledged(t.frame) && t.drained
  }

  /** How many frames are booked: those before the one that ends the connection. */
  function Processed(turns: seq<Turn>): (r: nat)
    ensures r <= |turns|
    ensures forall i :: 0 <= i < r ==> GoesOn(turns[i])
    ensures r < |turns| ==> !GoesOn(turns[r])
  {
    if |turns| == 0 || !GoesOn(turns[0]) then 0 else 1 + Processed(turns[1..])
  }

  /** The publish queue after the first `n` frames, in order. */
  function QueuedFirst(g: Gateway, turns: seq<Turn>, n: nat): Gateway
    requires n <= |turns|
  {
    if n == 0 then g else QueuedOne(QueuedFirst(g, turns, n - 1), turns[n - 1].frame)
  }

  class TCPServer {
    const mqtt: MqttManager.MQTTManager?
    const devices: Devices.DeviceManager
    var connectedClients: int
    var packetCount: nat
    var lastClientIp: string
    var lastJson: string
    // History: how many acknowledgements were written.
    ghost var acks: nat

    /** The server counts as many packets as the registry saw updates. */
    ghost predicate Valid()
      reads this, devices
    {
      devices.Valid() && devices.history.updates == packetCount
    }

    constructor (mqtt: MqttManager.MQTTManager?, devices: Devices.DeviceManager)
      requires devices.Valid() && devices.history.updates == 0
      ensures Valid() && packetCount == 0 && acks == 0 && connectedClients == 0
      ensures this.mqtt == mqtt && this.devices == devices
    {
      this.mqtt, this.devices := mqtt, devices;
      connectedClients, packetCount, acks := 0, 0, 0;
      lastClientIp, lastJson := "", "";
    }

    /** From the read to the drain: the acknowledgement depends on nothing but the text of the frame. */
    method Acknowledge(f: Frame) returns (written: bool)
      modifies this`acks
      ensures written == Acknowledged(f)
      ensures acks == old(acks) + if written then 1 else 0
    {
      if f.isEmpty || f.text.None? {
        return false;
      }
      acks := acks + 1;
      return true;
    }

    /** From the drain to the next read: only a JSON object reaches the queue. */
    method Book(ip: string, f: Frame, now: string)
      requires Valid() && Acknowledged(f)
      modifies this`packetCount, this`lastClientIp, this`lastJson, devices, mqtt
      ensures Valid() && packetCount == old(packetCount) + 1
      ensures mqtt != null ==> mqtt.Abs() == QueuedOne(old(mqtt.Abs()), f)
      ensures lastClientIp == ip && lastJson == f.text.value
      ensures exists victim :: Devices.Updated(old(devices.devices), devices.devices,
                devices.capacity, Devices.IdOf(ip, FieldsOf(f.json)),
                Devices.NameOf(ip, FieldsOf(f.json)), ip, f.text.value, now, victim)
      ensures Devices.Total(Devices.Packets(devices.devices)) + devices.history.evictedPackets
              == packetCount
    {
      Record(ip, f.text.value, f.json, now);
      if mqtt != null && f.json.Object? {
        var _ := mqtt.Enqueue(f.text.value, f.json.fields);
      }
    }

    // The server's own counters and the registry.
    method Record(ip: string, text: string, json: Json, now: string)
      requires Valid()
      modifies this`packetCount, this`lastClientIp, this`lastJson, devices
      ensures Valid() && packetCount == old(packetCount) + 1
      ensures lastClientIp == ip && lastJson == text
      ensures exists victim :: Devices.Updated(old(devices.devices), devices.devices,
                devices.capacity, Devices.IdOf(ip, FieldsOf(json)),
                Devices.NameOf(ip, FieldsOf(json)), ip, text, now, victim)
    {
      packetCount := packetCount + 1;
      lastClientIp := ip;
      lastJson := text;
      ghost var victim := devices.Update(ip, text, FieldsOf(json), now);
    }

    /** A whole connection that no other task interrupts: its booked frames are counted and offered to the
        queue in order, and one more acknowledgement is written when the connection breaks on it. */
    method Handle(ip: string, turns: seq<Turn>)
      requires Valid()
      modifies this, devices, mqtt
      ensures Valid() && connectedClients == old(connectedClients)
      ensures packetCount == old(packetCount) + Processed(turns)
      ensures mqtt != null ==> mqtt.Abs() == QueuedFirst(old(mqtt.Abs()), turns, Processed(turns))
      ensures acks == old(acks) + AcksFor(turns)
    {
      connectedClients := connectedClients + 1;
      var n, more := Loop(ip, turns);
      ReachedAll(turns, n, more);
      connectedClients := connectedClients - 1;
    }

    // `while True`, until a frame ends the connection or no more arrives.
    method Loop(ip: string, turns: seq<Turn>) returns (n: nat, more: bool)
      requires Valid()
      modifies this`packetCount, this`lastClientIp, this`lastJson, this`acks, devices, mqtt
      ensures Valid() && Reached(turns, n, more) && (more ==> n == |turns|)
      ensures packetCount == old(packetCount) + n
      ensures acks == old(acks) + n + LastAck(turns, n, more)
      ensures mqtt != null ==> mqtt.Abs() == QueuedFirst(old(mqtt.Abs()), turns, n)
    {
      n, more := 0, true;
      ghost var before := if mqtt != null then mqtt.Abs() else STARTED;
      while n < |turns| && more
        invariant Valid() && Reached(turns, n, more)
        invariant packetCount == old(packetCount) + n
        invariant acks == old(acks) + n + LastAck(turns, n, more)
        invariant mqtt != null ==> mqtt.Abs() == QueuedFirst(before, turns, n)
        decreases |turns| - n, more
      {
        more := TakeTurn(ip, turns[n]);
        if more {
          n := n + 1;
        }
      }
    }

    // One pass, with nothing between its two actions.
    method TakeTurn(ip: string, t: Turn) returns (more: bool)
      requires Valid()
      modifies this`packetCount, this`lastClientIp, this`lastJson, this`acks, devices, mqtt
      ensures Valid() && more == GoesOn(t)
      ensures acks == old(acks) + if Acknowledged(t.frame) then 1 else 0
      ensures packetCount == old(packetCount) + if more then 1 else 0
      ensures mqtt != null ==>
                mqtt.Abs() == if more then QueuedOne(old(mqtt.Abs()), t.frame) else old(mqtt.Abs())
    {
      more := Acknowledge(t.frame);
      more := more && t.drained;
      if more {
        Book(ip, t.frame, t.now);
      }
    }
  }

  // `n` frames are booked; `more` is false when the next one ended the connection.
  ghost predicate Reached(turns: seq<Turn>, n: nat, more: bool) {
    && n <= |turns| && (forall i :: 0 <= i < n ==> GoesOn(turns[i]))
    && (!more ==> n < |turns| && !GoesOn(turns[n]))
  }

  ghost function LastAck(turns: seq<Turn>, n: nat, more: bool): nat
    requires more || n < |turns|
  {
    if !more && Acknowledged(turns[n].frame) then 1 else 0
  }

  lemma ReachedAll(turns: seq<Turn>, n: nat, more: bool)
    requires Reached(turns, n, more) && (more ==> n == |turns|)
    ensures Processed(turns) == n && AcksFor(turns) == n + LastAck(turns, n, more)
  {
    assert Processed(turns) == n;
  }

  /** How many acknowledgements a connection writes. */
  function AcksFor(turns: seq<Turn>): nat {
    var n := Processed(turns);
    n + if n < |turns| && Acknowledged(turns[n].frame) then 1 else 0
  }

  // ----- what an acknowledgement is worth -----

  lemma InsertHolds(q: seq<Entry>, e: Entry)
    ensures e in InsertImportant(q, e)
  {
    assert InsertImportant(q, e)[ImportantPrefix(q)] == e;
  }

  lemma AcceptedIsQueued(g: Gateway, e: Entry)
    requires Enqueue(g, e).1
    ensures e in Enqueue(g, e).0.queue
  {
    var q := g.queue;
    if Important(e) {
      InsertHolds(q, e);
      if LowestPriorityIndex(q) >= 0 {
        InsertHolds(Without(q, LowestPriorityIndex(q)), e);
      }
    } else if CoalesceIndex(q, e.topic) >= 0 {
      assert q[CoalesceIndex(q, e.topic) := e][CoalesceIndex(q, e.topic)] == e;
    } else {
      assert (q + [e])[|q|] == e;
    }
  }

  /** There is a place for `e`: a free one, or for an event or response one that telemetry holds, or for
      telemetry the one of an older value. */
  ghost predicate HasPlace(q: seq<Entry>, e: Entry) {
    || |q| < MQTT_QUEUE_CAPACITY
    || (Important(e) && exists i :: 0 <= i < |q| && !Important(q[i]))
    || (!Important(e) && exists i :: 0 <= i < |q| && Coalescible(q[i], e.topic))
  }

  /** The queue accepts a message exactly when there is a place for it; otherwise only a counter
      changes. */
  lemma AcceptedIff(g: Gateway, e: Entry)
    ensures Enqueue(g, e).1 <==> HasPlace(g.queue, e)
    ensures !HasPlace(g.queue, e) ==> Enqueue(g, e).0 == g.(dropped := g.dropped + 1)
  {
    assert LowestPriorityIndex(g.queue) < 0 <==> forall i :: 0 <= i < |g.queue| ==> Important(g.queue[i]);
    assert CoalesceIndex(g.queue, e.topic) >= 0 ==> Coalescible(g.queue[CoalesceIndex(g.queue, e.topic)], e.topic);
    assert CoalesceIndex(g.queue, e.topic) < 0 ==>
             forall i :: 0 <= i < |g.queue| ==> !Coalescible(g.queue[i], e.topic);
  }

  /** The queue takes the message of an acknowledged frame over. */
  predicate TakenOver(g: Gateway, f: Frame, drained: bool)
    requires Acknowledged(f)
  {
    drained && f.json.Object? && Enqueue(g, EntryOf(f)).1
  }

  /** "An acknowledged message is validated and queued" holds exactly when the acknowledgement got out,
      the JSON is an object, and the queue has a place.  Then the message is in the queue; otherwise the
      queue stays as it was. */
  lemma AcknowledgedIsQueuedIff(g: Gateway, f: Frame, drained: bool)
    requires Acknowledged(f)
    ensures TakenOver(g, f, drained) <==> drained && f.json.Object? && HasPlace(g.queue, EntryOf(f))
    ensures var g' := if drained then QueuedOne(g, f) else g;
            if TakenOver(g, f, drained) then EntryOf(f) in g'.queue else g'.queue == g.queue
  {
    if f.json.Object? {
      AcceptedIff(g, EntryOf(f));
      if Enqueue(g, EntryOf(f)).1 {
        AcceptedIsQueued(g, EntryOf(f));
      }
    }
  }

  /** It fails for text that is not JSON, at any time. */
  lemma GarbageAcknowledged(g: Gateway)
    ensures var f := Frame(false, Some("rpm=800"), NoJson);
            Acknowledged(f) && !TakenOver(g, f, true) && QueuedOne(g, f) == g
  {
  }
}
