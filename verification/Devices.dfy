/** The bounded device registry of gateway/lilygo-micropython/device_manager.py. */
module Devices {
  import opened Options
  import opened Timestamps

  // The text of a device id; ids are only compared with each other.
  datatype NodeId = NodeId(text: string)

  datatype Device = Device(name: string, ip: string, lastSeen: string, packets: nat, json: string)

  type Fields = map<string, string>

  // `_field(parsed, key, default)`; None is a message that is not a JSON object.
  function Field(parsed: Option<Fields>, key: string, default: string): string {
    if parsed.Some? && key in parsed.value then parsed.value[key] else default
  }

  function IdOf(ip: string, parsed: Option<Fields>): NodeId {
    NodeId(Field(parsed, "device_id", Field(parsed, "node_id", Field(parsed, "id", ip))))
  }

  function NameOf(ip: string, parsed: Option<Fields>): string {
    Field(parsed, "device_name", Field(parsed, "name", IdOf(ip, parsed).text))
  }

  /** The id is the first of device_id, node_id and id that the message has, or else the address; the name
      is the first of device_name and name, or else the id. */
  lemma IdentityIs(ip: string, fields: Fields)
    ensures "device_id" in fields ==> IdOf(ip, Some(fields)).text == fields["device_id"]
    ensures "device_id" !in fields && "node_id" in fields ==>
              IdOf(ip, Some(fields)).text == fields["node_id"]
    ensures "device_id" !in fields && "node_id" !in fields && "id" in fields ==>
              IdOf(ip, Some(fields)).text == fields["id"]
    ensures "device_id" !in fields && "node_id" !in fields && "id" !in fields ==>
              IdOf(ip, Some(fields)).text == ip
    ensures "device_name" in fields ==> NameOf(ip, Some(fields)) == fields["device_name"]
    ensures "device_name" !in fields && "name" in fields ==> NameOf(ip, Some(fields)) == fields["name"]
    ensures "device_name" !in fields && "name" !in fields ==>
              NameOf(ip, Some(fields)) == IdOf(ip, Some(fields)).text
    ensures IdOf(ip, None).text == ip == NameOf(ip, None)
  {
  }

  // ----- packet counts -----

  ghost function Total(packets: map<NodeId, nat>): nat
    decreases |packets|
  {
    if packets == map[] then 0
    else
      var k :| k in packets;
      packets[k] + Total(packets - {k})
  }

  lemma {:induction false} TotalWithout(packets: map<NodeId, nat>, k: NodeId)
    requires k in packets
    ensures Total(packets) == packets[k] + Total(packets - {k})
    decreases |packets|
  {
    var j :| j in packets && Total(packets) == packets[j] + Total(packets - {j});
    if j != k {
      TotalWithout(packets - {j}, k);
      TotalWithout(packets - {k}, j);
      assert packets - {j} - {k} == packets - {k} - {j};
    }
  }

  lemma TotalPut(packets: map<NodeId, nat>, k: NodeId, n: nat)
    ensures Total(packets[k := n]) == Total(packets - {k}) + n
  {
    TotalWithout(packets[k := n], k);
    assert packets[k := n] - {k} == packets - {k};
  }

  ghost function Packets(devices: map<NodeId, Device>): map<NodeId, nat> {
    map k | k in devices :: devices[k].packets
  }

  // ----- history -----

  /** What the registry does not keep: the rank of each device's last update, the number of updates,
      the packets of evicted devices, the latest timestamp, and whether timestamps ever went back. */
  datatype History = History(rank: map<NodeId, nat>, updates: nat, evictedPackets: nat,
                             now: string, steady: bool)

  ghost predicate OrderOk(devices: map<NodeId, Device>, h: History) {
    && h.rank.Keys == devices.Keys
    && (forall k :: k in devices ==> h.rank[k] < h.updates)
    && (h.steady ==> forall k :: k in devices ==> !Less(h.now, devices[k].lastSeen))
    && (h.steady ==> forall j, k :: j in devices && k in devices && h.rank[j] < h.rank[k] ==>
                       !Less(devices[k].lastSeen, devices[j].lastSeen))
  }

  ghost predicate Counted(devices: map<NodeId, Device>, h: History) {
    Total(Packets(devices)) + h.evictedPackets == h.updates
  }

  ghost predicate RegistryOk(devices: map<NodeId, Device>, h: History) {
    OrderOk(devices, h) && Counted(devices, h)
  }

  function Larger(a: int, b: int): int {
    if a < b then b else a
  }

  // ----- eviction -----

  /** No device was last seen before `v`. */
  ghost predicate IsOldest(devices: map<NodeId, Device>, v: NodeId) {
    v in devices && forall k :: k in devices ==> !Less(devices[k].lastSeen, devices[v].lastSeen)
  }

  ghost predicate SameClock(h: History, h': History) {
    && h'.updates == h.updates && h'.now == h.now && h'.steady == h.steady
    && (forall k :: k in h'.rank ==> k in h.rank && h'.rank[k] == h.rank[k])
  }

  /** One more update at `now`, which makes `id` the most recently updated device. */
  ghost predicate Noted(h: History, h': History, id: NodeId, now: string) {
    && h'.updates == h.updates + 1 && h'.now == now
    && h'.steady == (h.steady && !Less(now, h.now))
    && id in h'.rank && h'.rank[id] == h.updates
    && (forall k :: k in h'.rank && k != id ==> k in h.rank && h'.rank[k] == h.rank[k])
  }

  ghost function Forget(h: History, v: NodeId, packets: nat): History {
    h.(rank := h.rank - {v}, evictedPackets := h.evictedPackets + packets)
  }

  /** If timestamps never went back, every device updated less recently than the oldest one carries
      the very same timestamp. */
  lemma OldestIsLeastRecent(devices: map<NodeId, Device>, h: History, v: NodeId,
                            k: NodeId)
    requires RegistryOk(devices, h) && h.steady && IsOldest(devices, v)
    requires k in devices && h.rank[k] < h.rank[v]
    ensures devices[k].lastSeen == devices[v].lastSeen
  {
    LessTotal(devices[k].lastSeen, devices[v].lastSeen);
  }

  lemma ForgetKeepsOk(devices: map<NodeId, Device>, h: History, v: NodeId)
    requires RegistryOk(devices, h) && v in devices
    ensures RegistryOk(devices - {v}, Forget(h, v, devices[v].packets))
  {
    TotalWithout(Packets(devices), v);
    assert Packets(devices - {v}) == Packets(devices) - {v};
  }

  // ----- one update -----

  ghost function Remember(h: History, id: NodeId, now: string): History {
    h.(rank := h.rank[id := h.updates], updates := h.updates + 1,
       now := now, steady := h.steady && !Less(now, h.now))
  }

  lemma RememberKeepsOrder(devices: map<NodeId, Device>, h: History, id: NodeId,
                           d: Device)
    requires OrderOk(devices, h)
    ensures OrderOk(devices[id := d], Remember(h, id, d.lastSeen))
  {
    var h' := Remember(h, id, d.lastSeen);
    LessIrreflexive(d.lastSeen);
    if h'.steady {
      forall k | k in devices ensures !Less(d.lastSeen, devices[k].lastSeen) {
        NotLessTransitive(devices[k].lastSeen, h.now, d.lastSeen);
      }
    }
  }

  lemma RememberKeepsCount(devices: map<NodeId, Device>, h: History, id: NodeId,
                           d: Device)
    requires Counted(devices, h)
    requires d.packets == (if id in devices then devices[id].packets else 0) + 1
    ensures Counted(devices[id := d], Remember(h, id, d.lastSeen))
  {
    assert Packets(devices[id := d]) == Packets(devices)[id := d.packets];
    TotalPut(Packets(devices), id, d.packets);
    if id in devices {
      TotalWithout(Packets(devices), id);
    } else {
      assert Packets(devices) - {id} == Packets(devices);
    }
  }

  lemma RememberKeepsOk(devices: map<NodeId, Device>, h: History, id: NodeId,
                        d: Device)
    requires RegistryOk(devices, h)
    requires d.packets == (if id in devices then devices[id].packets else 0) + 1
    ensures RegistryOk(devices[id := d], Remember(h, id, d.lastSeen))
  {
    RememberKeepsOrder(devices, h, id, d);
    RememberKeepsCount(devices, h, id, d);
  }

  // ----- the class -----

  class DeviceManager {
    const capacity: int
    var devices: map<NodeId, Device>
    ghost var history: History

    /** The registry never holds more than its capacity, or one device if that is smaller. */
    ghost predicate Valid()
      reads this
    {
      RegistryOk(devices, history) && |devices| <= Larger(1, capacity)
    }

    // `boot` is the timestamp at which the registry starts.
    constructor (capacity: int, ghost boot: string)
      ensures Valid() && this.capacity == capacity && devices == map[]
      ensures history == History(map[], 0, 0, boot, true)
    {
      this.capacity := capacity;
      devices := map[];
      history := History(map[], 0, 0, boot, true);
      new;
      EmptyRegistry(devices, history);
    }

    // `_evict_oldest`, whatever the order in which the dictionary is walked.
    method EvictOldest() returns (victim: Option<NodeId>)
      requires RegistryOk(devices, history)
      modifies this
      ensures RegistryOk(devices, history)
      ensures victim.Some? <==> old(devices) != map[]
      ensures victim.Some? ==> IsOldest(old(devices), victim.value)
                               && devices == old(devices) - {victim.value}
      ensures victim.None? ==> devices == old(devices)
      ensures SameClock(old(history), history)
    {
      victim := FindOldest();
      if victim.Some? {
        ForgetKeepsOk(devices, history, victim.value);
        history := Forget(history, victim.value, devices[victim.value].packets);
        devices := devices - {victim.value};
      }
    }

    method FindOldest() returns (oldest: Option<NodeId>)
      ensures oldest.Some? <==> devices != map[]
      ensures oldest.Some? ==> IsOldest(devices, oldest.value)
    {
      oldest := None;
      var todo := devices.Keys;
      while todo != {}
        invariant todo <= devices.Keys
        invariant oldest.None? <==> todo == devices.Keys
        invariant oldest.Some? ==> oldest.value in devices
                                   && OldestOf(devices, devices.Keys - todo, oldest.value)
        decreases |todo|
      {
        var key :| key in todo;
        LessIrreflexive(devices[key].lastSeen);
        if oldest.None? || Less(devices[key].lastSeen, devices[oldest.value].lastSeen) {
          if oldest.Some? {
            Lower(devices, devices.Keys - todo, oldest.value, key);
          }
          oldest := Some(key);
        }
        todo := todo - {key};
      }
    }

    method Update(ip: string, payload: string, parsed: Option<Fields>, now: string)
      returns (ghost victim: Option<NodeId>)
      requires Valid()
      modifies this
      ensures Valid() && Noted(old(history), history, IdOf(ip, parsed), now)
      ensures Updated(old(devices), devices, capacity, IdOf(ip, parsed), NameOf(ip, parsed), ip,
                      payload, now, victim)
    {
      victim := UpdateKnown(IdOf(ip, parsed), NameOf(ip, parsed), ip, payload, now);
    }

    // The rest of `update`, once id and name are known.
    method UpdateKnown(id: NodeId, name: string, ip: string, payload: string, now: string)
      returns (ghost victim: Option<NodeId>)
      requires Valid()
      modifies this
      ensures Valid() && Noted(old(history), history, id, now)
      ensures Updated(old(devices), devices, capacity, id, name, ip, payload, now, victim)
    {
      victim := None;
      if id !in devices && |devices| >= capacity {
        victim := MakeRoom();
      }
      var packets := if id in devices then devices[id].packets else 0;
      Put(id, Device(name, ip, now, packets + 1, payload));
    }

    method Put(id: NodeId, device: Device)
      requires RegistryOk(devices, history)
      requires |devices| + 1 <= Larger(1, capacity) || (id in devices && |devices| <= Larger(1, capacity))
      requires device.packets == (if id in devices then devices[id].packets else 0) + 1
      modifies this
      ensures Valid() && Noted(old(history), history, id, device.lastSeen)
      ensures devices == old(devices)[id := device]
    {
      RememberKeepsOk(devices, history, id, device);
      SizePut(devices, id, device);
      history := Remember(history, id, device.lastSeen);
      devices := devices[id := device];
    }

    method MakeRoom() returns (ghost victim: Option<NodeId>)
      requires Valid() && |devices| >= capacity
      modifies this
      ensures RegistryOk(devices, history) && |devices| + 1 <= Larger(1, capacity)
      ensures SameClock(old(history), history)
      ensures victim.Some? <==> old(devices) != map[]
      ensures victim.Some? ==> IsOldest(old(devices), victim.value)
                               && devices == old(devices) - {victim.value}
      ensures victim.None? ==> devices == old(devices)
    {
      var evicted := EvictOldest();
      victim := evicted;
      if evicted.Some? {
        SizeRemove(old(devices), evicted.value);
      }
    }
  }

  /** What `update` does to the registry: a new device may displace the oldest one, and the device
      itself has the message, its time and one more packet. */
  ghost predicate Updated(before: map<NodeId, Device>, after: map<NodeId, Device>, capacity: int,
                          id: NodeId, name: string, ip: string, payload: string, now: string,
                          victim: Option<NodeId>)
  {
    && (victim.Some? <==> id !in before && |before| >= capacity && before != map[])
    && (victim.Some? ==> IsOldest(before, victim.value))
    && after == (if victim.Some? then before - {victim.value} else before)
                [id := Device(name, ip, now, (if id in before then before[id].packets else 0) + 1,
                              payload)]
  }

  /** The device shows the message and one packet more; every other device stays as it was, except that a
      full registry gives up the oldest one for a new device. */
  lemma UpdatedMeans(before: map<NodeId, Device>, after: map<NodeId, Device>, capacity: int,
                     id: NodeId, name: string, ip: string, payload: string, now: string,
                     victim: Option<NodeId>, k: NodeId)
    requires Updated(before, after, capacity, id, name, ip, payload, now, victim)
    ensures id in after && after[id].name == name && after[id].ip == ip
    ensures after[id].lastSeen == now && after[id].json == payload
    ensures id in before ==> victim.None? && after[id].packets == before[id].packets + 1
    ensures id !in before ==> after[id].packets == 1
    ensures k != id ==> (k in after <==> k in before && victim != Some(k))
    ensures k != id && k in after ==> after[k] == before[k]
    ensures |before| < capacity ==> victim.None?
    ensures id !in before && |before| >= capacity && |before| > 0 ==> victim.Some?
  {
  }

  lemma EmptyRegistry(devices: map<NodeId, Device>, h: History)
    requires |devices| == 0 && |h.rank| == 0 && h.updates == 0 && h.evictedPackets == 0
    ensures RegistryOk(devices, h)
  {
    assert Packets(devices) == map[];
  }

  lemma SizePut(devices: map<NodeId, Device>, id: NodeId, d: Device)
    ensures |devices[id := d]| == if id in devices then |devices| else |devices| + 1
  {
    assert devices[id := d].Keys == devices.Keys + {id};
  }

  lemma SizeRemove(devices: map<NodeId, Device>, v: NodeId)
    requires v in devices
    ensures |devices - {v}| == |devices| - 1
  {
    assert (devices - {v}).Keys == devices.Keys - {v};
  }

  ghost predicate OldestOf(devices: map<NodeId, Device>, seen: set<NodeId>, v: NodeId)
    requires v in devices
  {
    forall k :: k in devices && k in seen ==> !Less(devices[k].lastSeen, devices[v].lastSeen)
  }

  // A new minimum is below everything seen so far.
  lemma Lower(devices: map<NodeId, Device>, seen: set<NodeId>, v: NodeId, w: NodeId)
    requires v in devices && w in devices && OldestOf(devices, seen, v)
    requires Less(devices[w].lastSeen, devices[v].lastSeen)
    ensures OldestOf(devices, seen, w)
  {
    LessAsymmetric(devices[w].lastSeen, devices[v].lastSeen);
    forall k | k in devices && k in seen ensures !Less(devices[k].lastSeen, devices[w].lastSeen) {
      NotLessTransitive(devices[w].lastSeen, devices[v].lastSeen, devices[k].lastSeen);
    }
  }

  // ----- a run of messages under a clock -----

  /** A message and the time at which it is booked. */
  datatype Message = Message(ip: string, payload: string, parsed: Option<Fields>, time: Clock)

  // Which device a message updates, and when.
  datatype Seen = Seen(id: NodeId, time: Clock)

  function SeenIn(messages: seq<Message>): (r: seq<Seen>)
    ensures |r| == |messages|
    ensures forall i :: 0 <= i < |r| ==>
              r[i] == Seen(IdOf(messages[i].ip, messages[i].parsed), messages[i].time)
  {
    seq(|messages|, i requires 0 <= i < |messages| =>
      Seen(IdOf(messages[i].ip, messages[i].parsed), messages[i].time))
  }

  ghost predicate ClocksOk(boot: Clock, seen: seq<Seen>) {
    ClockOk(boot) && forall i :: 0 <= i < |seen| ==> ClockOk(seen[i].time)
  }

  // The time of the latest of the first `n` messages.
  function Latest(boot: Clock, seen: seq<Seen>, n: nat): Clock
    requires n <= |seen|
  {
    if n == 0 then boot else seen[n - 1].time
  }

  /** The clock never goes back: from the start of the registry, and from message to message. */
  ghost predicate NeverBack(boot: Clock, seen: seq<Seen>, n: nat)
    requires n <= |seen|
  {
    forall i {:trigger Latest(boot, seen, i)} :: 0 <= i < n ==>
      !Earlier(seen[i].time, Latest(boot, seen, i))
  }

  /** The time at which a device was last updated among the first `n` messages. */
  function LastUpdate(seen: seq<Seen>, n: nat, id: NodeId): Option<Clock>
    requires n <= |seen|
  {
    if n == 0 then None
    else if seen[n - 1].id == id then Some(seen[n - 1].time)
    else LastUpdate(seen, n - 1, id)
  }

  ghost predicate ShowsTime(text: string, t: Option<Clock>) {
    match t
    case None => false
    case Some(time) => ClockOk(time) && text == Format(time)
  }

  /** Every device of the registry shows the time of its last message. */
  ghost predicate Shows(devices: map<NodeId, Device>, seen: seq<Seen>, n: nat)
    requires n <= |seen|
  {
    forall k :: k in devices ==> ShowsTime(devices[k].lastSeen, LastUpdate(seen, n, k))
  }

  /** The latest timestamp is that of the latest message, and timestamps never went back exactly if the
      clock never did. */
  ghost predicate ClockShown(now: string, steady: bool, boot: Clock, seen: seq<Seen>, n: nat)
    requires n <= |seen|
  {
    ShowsTime(now, Some(Latest(boot, seen, n))) && (steady <==> NeverBack(boot, seen, n))
  }

  // The registry after the first `n` messages.
  ghost predicate Tracks(registry: DeviceManager, boot: Clock, seen: seq<Seen>, n: nat)
    requires n <= |seen|
    reads registry
  {
    && registry.Valid() && registry.history.updates == n
    && ClockShown(registry.history.now, registry.history.steady, boot, seen, n)
    && Shows(registry.devices, seen, n)
  }

  /** After any messages the registry keeps its bound and counts, each device shows the time of its last
      message, and timestamps never went back exactly if the clock never did. */
  method Replay(capacity: int, boot: Clock, messages: seq<Message>) returns (registry: DeviceManager)
    requires ClocksOk(boot, SeenIn(messages))
    ensures fresh(registry) && registry.capacity == capacity
    ensures Tracks(registry, boot, SeenIn(messages), |messages|)
  {
    registry := Start(capacity, boot, SeenIn(messages));
    ServeFirst(registry, boot, messages, SeenIn(messages), |messages|);
  }

  method Start(capacity: int, boot: Clock, ghost seen: seq<Seen>) returns (registry: DeviceManager)
    requires ClockOk(boot)
    ensures fresh(registry) && registry.capacity == capacity && Tracks(registry, boot, seen, 0)
  {
    registry := new DeviceManager(capacity, Format(boot));
  }

  method ServeFirst(registry: DeviceManager, ghost boot: Clock, messages: seq<Message>,
                    ghost seen: seq<Seen>, n: nat)
    requires seen == SeenIn(messages) && ClocksOk(boot, seen) && n <= |seen|
    requires Tracks(registry, boot, seen, 0)
    modifies registry
    ensures Tracks(registry, boot, seen, n)
  {
    if n > 0 {
      ServeFirst(registry, boot, messages, seen, n - 1);
      Serve(registry, boot, messages, seen, n - 1);
    }
  }

  method Serve(registry: DeviceManager, ghost boot: Clock, messages: seq<Message>,
               ghost seen: seq<Seen>, i: nat)
    requires seen == SeenIn(messages) && ClocksOk(boot, seen) && i < |seen|
    requires Tracks(registry, boot, seen, i)
    modifies registry
    ensures Tracks(registry, boot, seen, i + 1)
  {
    var m := messages[i];
    assert seen[i] == Seen(IdOf(m.ip, m.parsed), m.time);
    var now := Format(m.time);
    ClockNext(registry.history.now, registry.history.steady, boot, seen, i, now);
    ghost var victim := registry.Update(m.ip, m.payload, m.parsed, now);
    ShowsNext(old(registry.devices), registry.devices, registry.capacity, seen, i,
              NameOf(m.ip, m.parsed), m.ip, m.payload, now, victim);
  }

  lemma ClockNext(now: string, steady: bool, boot: Clock, seen: seq<Seen>, i: nat,
                  now': string)
    requires i < |seen| && ClockShown(now, steady, boot, seen, i)
    requires ShowsTime(now', Some(seen[i].time))
    ensures ClockShown(now', steady && !Less(now', now), boot, seen, i + 1)
  {
    ShownOrder(now', seen[i].time, now, Latest(boot, seen, i));
    NeverBackNext(boot, seen, i);
  }

  lemma ShownOrder(a: string, t: Clock, b: string, u: Clock)
    requires ShowsTime(a, Some(t)) && ShowsTime(b, Some(u))
    ensures Less(a, b) <==> Earlier(t, u)
  {
    FormatOrder(t, u);
  }

  lemma NeverBackNext(boot: Clock, seen: seq<Seen>, i: nat)
    requires i < |seen|
    ensures NeverBack(boot, seen, i + 1) <==>
            NeverBack(boot, seen, i) && !Earlier(seen[i].time, Latest(boot, seen, i))
  {
  }

  lemma ShowsNext(before: map<NodeId, Device>, after: map<NodeId, Device>,
                  capacity: int, seen: seq<Seen>, i: nat, name: string, ip: string,
                  payload: string, now: string, victim: Option<NodeId>)
    requires i < |seen| && ShowsTime(now, Some(seen[i].time)) && Shows(before, seen, i)
    requires Updated(before, after, capacity, seen[i].id, name, ip, payload, now, victim)
    ensures Shows(after, seen, i + 1)
  {
    forall k | k in after ensures ShowsTime(after[k].lastSeen, LastUpdate(seen, i + 1, k)) {
      if k != seen[i].id {
        assert k in before && after[k] == before[k];
      }
    }
  }

  /** The device that is evicted after any messages was last updated no later than any other, although
      only texts are compared. */
  lemma OldestInTime(devices: map<NodeId, Device>, seen: seq<Seen>, v: NodeId,
                     k: NodeId)
    requires Shows(devices, seen, |seen|) && IsOldest(devices, v) && k in devices
    ensures var tv, tk := LastUpdate(seen, |seen|, v), LastUpdate(seen, |seen|, k);
            tv.Some? && tk.Some? && !Earlier(tk.value, tv.value)
  {
    var tv, tk := LastUpdate(seen, |seen|, v), LastUpdate(seen, |seen|, k);
    assert ShowsTime(devices[v].lastSeen, tv) && ShowsTime(devices[k].lastSeen, tk);
    ShownOrder(devices[k].lastSeen, tk.value, devices[v].lastSeen, tv.value);
  }
}
