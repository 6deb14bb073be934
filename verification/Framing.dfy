/** One NDJSON frame over TCP: `send_all` and `gateway_client_send` of
    esp-obd2-client/main/gateway_client.c, and `_read_message` of
    gateway/lilygo-micropython/tcp_server.py.

    On the sending side the network chooses freely how many bytes a call transfers and when it fails.
    On the receiving side a schedule says what each read finds, so the proofs hold for every partial
    write and every chunking. */
module Framing {
  import opened Options

  type Byte = x: int | 0 <= x < 256

  const NEWLINE: Byte := 10

  const TCP_READ_SIZE := 1024
  const TCP_MAX_MESSAGE_SIZE := 4096

  /** `data.split(b"\n", 1)[0]` */
  function UpToNewline(data: seq<Byte>): (r: seq<Byte>)
    ensures r <= data && NEWLINE !in r
    ensures r == data || data[|r|] == NEWLINE
  {
    if |data| == 0 || data[0] == NEWLINE then [] else [data[0]] + UpToNewline(data[1..])
  }

  // ----- the receiving side -----

  type Size = n: int | 0 < n witness 1

  /** What one `wait_for_ms(reader.read(n))` finds: so many bytes arrived, or a timeout or the end of
      file. */
  datatype Arrival = Bytes(count: Size) | Stall

  function Min(a: int, b: int): int {
    if a < b then a else b
  }

  // The size asked for when `taken` bytes are read.
  function ReadSize(taken: nat): (r: Size)
    requires taken < TCP_MAX_MESSAGE_SIZE
  {
    Min(TCP_READ_SIZE, TCP_MAX_MESSAGE_SIZE - taken)
  }

  // The size of the chunk read, at position `taken` of the stream.
  function ChunkSize(stream: seq<Byte>, taken: nat, arrival: Arrival): (r: Size)
    requires arrival.Bytes? && taken < |stream| && taken < TCP_MAX_MESSAGE_SIZE
    ensures taken + r <= |stream| && taken + r <= TCP_MAX_MESSAGE_SIZE && r <= TCP_READ_SIZE
  {
    Min(Min(arrival.count, ReadSize(taken)), |stream| - taken)
  }

  // No more chunk is read: the message is full, or nothing arrives in time.
  predicate Ends(stream: seq<Byte>, taken: nat, schedule: seq<Arrival>) {
    taken >= TCP_MAX_MESSAGE_SIZE || taken >= |stream| || |schedule| == 0 || schedule[0].Stall?
  }

  /** How many bytes of the stream one `_read_message` takes under the schedule, when it has taken
      `taken` bytes already. */
  function Taken(stream: seq<Byte>, taken: nat, schedule: seq<Arrival>): (r: nat)
    requires taken <= |stream| && taken <= TCP_MAX_MESSAGE_SIZE
    ensures taken <= r <= |stream| && r <= TCP_MAX_MESSAGE_SIZE
    decreases |schedule|
  {
    if Ends(stream, taken, schedule) then taken
    else
      var n := ChunkSize(stream, taken, schedule[0]);
      if NEWLINE in stream[taken..taken + n] then taken + n
      else Taken(stream, taken + n, schedule[1..])
  }

  /** What it returns. */
  function FrameOf(stream: seq<Byte>, schedule: seq<Arrival>): seq<Byte> {
    UpToNewline(stream[..Taken(stream, 0, schedule)])
  }

  /** Nothing stalls before the whole stream is read. */
  predicate Steady(stream: seq<Byte>, schedule: seq<Arrival>) {
    |stream| <= |schedule| && forall i :: 0 <= i < |schedule| ==> schedule[i].Bytes?
  }

  class StreamReader {
    // The bytes not read yet, and what the next reads will find.
    var pending: seq<Byte>
    var schedule: seq<Arrival>

    constructor (stream: seq<Byte>, schedule: seq<Arrival>)
      ensures pending == stream && this.schedule == schedule
    {
      pending, this.schedule := stream, schedule;
    }

    /** `None` is a timeout or the end of file. */
    method Read(size: Size) returns (chunk: Option<seq<Byte>>)
      modifies this
      ensures chunk.None? <==> old(pending) == [] || old(schedule) == [] || old(schedule)[0].Stall?
      ensures chunk.None? ==> pending == old(pending)
      ensures chunk.Some? ==>
                && |chunk.value| == Min(Min(old(schedule)[0].count, size), |old(pending)|)
                && old(pending) == chunk.value + pending && schedule == old(schedule)[1..]
    {
      if |pending| == 0 || |schedule| == 0 {
        return None;
      }
      var arrival := schedule[0];
      schedule := schedule[1..];
      if arrival.Stall? {
        return None;
      }
      var n := Min(Min(arrival.count, size), |pending|);
      chunk := Some(pending[..n]);
      pending := pending[n..];
    }
  }

  method ReadMessage(reader: StreamReader) returns (frame: seq<Byte>)
    modifies reader
    ensures frame == FrameOf(old(reader.pending), old(reader.schedule))
    ensures reader.pending
            == old(reader.pending)[Taken(old(reader.pending), 0, old(reader.schedule))..]
  {
    ghost var stream, schedule := reader.pending, reader.schedule;
    var data: seq<Byte> := [];
    while |data| < TCP_MAX_MESSAGE_SIZE
      invariant |data| <= |stream| && |data| <= TCP_MAX_MESSAGE_SIZE && data == stream[..|data|]
      invariant NEWLINE !in data && reader.pending == stream[|data|..]
      invariant Taken(stream, |data|, reader.schedule) == Taken(stream, 0, schedule)
      decreases TCP_MAX_MESSAGE_SIZE - |data|
    {
      var remaining := TCP_MAX_MESSAGE_SIZE - |data|;
      var readSize := if TCP_READ_SIZE < remaining then TCP_READ_SIZE else remaining;
      ghost var ahead := reader.schedule;
      var chunk := reader.Read(readSize);
      if chunk.None? {
        break;
      }
      ChunkTaken(stream, |data|, ahead, chunk.value, reader.pending);
      data := data + chunk.value;
      if NEWLINE in chunk.value {
        frame := UpToNewline(data);
        return;
      }
    }
    frame := data;
    NoNewline(data);
  }

  // One more chunk, and the rest of the stream behind it.
  lemma ChunkTaken(stream: seq<Byte>, taken: nat, schedule: seq<Arrival>,
                   chunk: seq<Byte>, rest: seq<Byte>)
    requires taken <= |stream| && !Ends(stream, taken, schedule)
    requires stream[taken..] == chunk + rest && |chunk| == ChunkSize(stream, taken, schedule[0])
    ensures stream[..taken] + chunk == stream[..taken + |chunk|] && rest == stream[taken + |chunk|..]
    ensures Taken(stream, taken, schedule)
            == if NEWLINE in chunk then taken + |chunk|
               else Taken(stream, taken + |chunk|, schedule[1..])
  {
    assert chunk == stream[taken..][..|chunk|] == stream[taken..taken + |chunk|];
    assert rest == stream[taken..][|chunk|..];
  }

  lemma NoNewline(data: seq<Byte>)
    ensures NEWLINE !in data <==> UpToNewline(data) == data
  {
    if NEWLINE !in data && |UpToNewline(data)| < |data| {
      assert data[|UpToNewline(data)|] in data;
    }
  }

  lemma FirstNewline(msg: seq<Byte>, rest: seq<Byte>)
    requires NEWLINE !in msg
    ensures UpToNewline(msg + [NEWLINE] + rest) == msg
  {
    var s := msg + [NEWLINE] + rest;
    var r := UpToNewline(s);
    assert s[|msg|] == NEWLINE;
    assert forall k :: 0 <= k < |msg| ==> s[k] == msg[k];
    assert forall k :: 0 <= k < |r| ==> s[k] == r[k];
    assert |r| == |msg|;
    assert r == s[..|r|];
  }

  /** Without a stall the reading goes on until a newline is read, or 4096 bytes, or everything. */
  lemma {:induction false} SteadyTaken(stream: seq<Byte>, taken: nat, schedule: seq<Arrival>)
    requires taken <= |stream| && taken <= TCP_MAX_MESSAGE_SIZE && NEWLINE !in stream[..taken]
    requires |stream| - taken <= |schedule| && forall i :: 0 <= i < |schedule| ==> schedule[i].Bytes?
    ensures var n := Taken(stream, taken, schedule);
            NEWLINE in stream[..n] || n == TCP_MAX_MESSAGE_SIZE || n == |stream|
    decreases |schedule|
  {
    if !Ends(stream, taken, schedule) {
      var n := ChunkSize(stream, taken, schedule[0]);
      assert stream[..taken + n] == stream[..taken] + stream[taken..taken + n];
      if NEWLINE !in stream[taken..taken + n] {
        SteadyTaken(stream, taken + n, schedule[1..]);
      }
    }
  }

  /** A newline-free message followed by a newline, and by anything else, is read as that message under
      every schedule without stalls, exactly when it has at most 4096 bytes. */
  lemma FrameIsMessageIff(msg: seq<Byte>, rest: seq<Byte>, schedule: seq<Arrival>)
    requires NEWLINE !in msg && Steady(msg + [NEWLINE] + rest, schedule)
    ensures FrameOf(msg + [NEWLINE] + rest, schedule) == msg <==> |msg| <= 4096
  {
    var s := msg + [NEWLINE] + rest;
    var n := Taken(s, 0, schedule);
    assert s[..0] == [];
    SteadyTaken(s, 0, schedule);
    if n > |msg| {
      assert s[..n] == msg + [NEWLINE] + s[|msg| + 1..n];
      FirstNewline(msg, s[|msg| + 1..n]);
    } else {
      assert s[..n] == msg[..n];
      NoNewline(msg[..n]);
    }
  }

  /** A connection that carries a frame, or breaks off within it, yields a prefix of the message and
      no foreign bytes; the whole message if nothing breaks or stalls and it fits. */
  lemma ConnectionDelivers(msg: seq<Byte>, stream: seq<Byte>, schedule: seq<Arrival>)
    requires NEWLINE !in msg && stream <= msg + [NEWLINE]
    ensures FrameOf(stream, schedule) <= msg
    ensures Steady(stream, schedule) && stream == msg + [NEWLINE] ==>
              (FrameOf(stream, schedule) == msg <==> |msg| <= TCP_MAX_MESSAGE_SIZE)
  {
    var s, frame := msg + [NEWLINE], FrameOf(stream, schedule);
    assert s[|msg|] == NEWLINE;
    assert forall k :: 0 <= k < |frame| ==> s[k] == frame[k];
    assert |frame| <= |msg|;
    assert frame == s[..|frame|];
    if Steady(stream, schedule) && stream == s {
      assert stream == msg + [NEWLINE] + [];
      FrameIsMessageIff(msg, [], schedule);
    }
  }

  // ----- a message without a newline -----

  /** What the schedule brings before the first stall, in reads of at most 1024 bytes. */
  function Brings(schedule: seq<Arrival>): nat {
    if |schedule| == 0 || schedule[0].Stall? then 0
    else (if schedule[0].count < 1024 then schedule[0].count else 1024) + Brings(schedule[1..])
  }

  lemma {:induction false} TakenIs(msg: seq<Byte>, taken: nat, schedule: seq<Arrival>)
    requires NEWLINE !in msg && taken <= |msg| && taken <= 4096
    ensures Taken(msg, taken, schedule) == Min(Min(|msg|, 4096), taken + Brings(schedule))
    decreases |schedule|
  {
    if !Ends(msg, taken, schedule) {
      var n := ChunkSize(msg, taken, schedule[0]);
      assert forall b :: b in msg[taken..taken + n] ==> b in msg;
      TakenIs(msg, taken + n, schedule[1..]);
    }
  }

  /** A packet without a newline is returned as far as it came in before the timeout or the end of file:
      the whole packet exactly if all of it came in, and it has at most 4096 bytes. */
  lemma {:induction false} PacketIs(msg: seq<Byte>, schedule: seq<Arrival>)
    requires NEWLINE !in msg
    ensures FrameOf(msg, schedule) == msg[..Min(Min(|msg|, 4096), Brings(schedule))]
    ensures FrameOf(msg, schedule) == msg <==> |msg| <= 4096 && |msg| <= Brings(schedule)
  {
    var n := Taken(msg, 0, schedule);
    TakenIs(msg, 0, schedule);
    assert forall b :: b in msg[..n] ==> b in msg;
    NoNewline(msg[..n]);
  }

  // ----- what lies behind the newline -----

  /** Nothing behind the newline is taken, whatever the chunking. */
  ghost predicate RestSafe(msg: seq<Byte>, rest: seq<Byte>) {
    forall schedule :: Steady(msg + [NEWLINE] + rest, schedule) ==>
      Taken(msg + [NEWLINE] + rest, 0, schedule) <= |msg| + 1
  }

  // One byte at a time for the message, then two at a time.
  function Clumsy(single: nat, total: nat): (r: seq<Arrival>)
    requires single <= total
    ensures |r| == total && forall i :: 0 <= i < total ==> r[i] == Bytes(if i < single then 1 else 2)
  {
    seq(total, i requires 0 <= i < total => Bytes(if i < single then 1 else 2))
  }

  lemma {:induction false} ClumsyTakes(msg: seq<Byte>, rest: seq<Byte>, taken: nat,
                                       schedule: seq<Arrival>)
    requires NEWLINE !in msg && |rest| > 0 && |msg| < TCP_MAX_MESSAGE_SIZE - 1 && taken <= |msg|
    requires |schedule| > |msg| - taken
    requires forall i :: 0 <= i < |schedule| ==>
               schedule[i] == Bytes(if i < |msg| - taken then 1 else 2)
    ensures Taken(msg + [NEWLINE] + rest, taken, schedule) == |msg| + 2
    decreases |msg| - taken
  {
    var s := msg + [NEWLINE] + rest;
    if taken < |msg| {
      assert s[taken..taken + 1] == [msg[taken]];
      ClumsyTakes(msg, rest, taken + 1, schedule[1..]);
    } else {
      assert s[taken] == NEWLINE;
      assert s[taken] in s[taken..taken + 2];
    }
  }

  /** "The bytes behind a frame are still there for the next one" holds for every chunking exactly when
      there are none, or the message fills the 4096 bytes up to its newline.  A sender that waits for
      the acknowledgement before it sends more is safe; one that pipelines is not. */
  lemma RestSafeIff(msg: seq<Byte>, rest: seq<Byte>)
    requires NEWLINE !in msg
    ensures RestSafe(msg, rest) <==> |rest| == 0 || |msg| >= 4095
  {
    var s := msg + [NEWLINE] + rest;
    if |rest| > 0 && |msg| < TCP_MAX_MESSAGE_SIZE - 1 {
      var schedule := Clumsy(|msg|, |s|);
      ClumsyTakes(msg, rest, 0, schedule);
      assert Steady(s, schedule) && Taken(s, 0, schedule) > |msg| + 1;
    }
  }

  /** Two frames that arrive in one chunk: `_read_message` returns the first one, and the second one is
      gone. */
  lemma SecondFrameLost(a: seq<Byte>, b: seq<Byte>, schedule: seq<Arrival>)
    requires NEWLINE !in a && |a| + |b| + 2 <= 1024
    requires |schedule| > 0 && schedule[0] == Bytes(|a| + |b| + 2)
    ensures var stream := a + [NEWLINE] + (b + [NEWLINE]);
            FrameOf(stream, schedule) == a && stream[Taken(stream, 0, schedule)..] == []
  {
    var stream := a + [NEWLINE] + (b + [NEWLINE]);
    assert stream[|a|] == NEWLINE && stream[0..|stream|] == stream;
    assert Taken(stream, 0, schedule) == |stream|;
    assert stream[..|stream|] == stream;
    FirstNewline(a, b + [NEWLINE]);
  }

  // ----- the sending side -----

  class GatewayClient {
    var open: bool
    // The bytes the network accepted, one entry for each connection ever made.
    var wire: seq<seq<Byte>>

    ghost predicate Valid()
      reads this
    {
      open ==> |wire| > 0
    }

    constructor ()
      ensures Valid() && !open && wire == []
    {
      open := false;
      wire := [];
    }

    method Close()
      modifies `open
      ensures !open
    {
      open := false;
    }

    method Connect() returns (ok: bool)
      modifies this
      ensures open == ok
      ensures wire == if ok then old(wire) + [[]] else old(wire)
    {
      Close();
      ok := *;
      if ok {
        open := true;
        wire := wire + [[]];
      }
    }

    // `send`: some of the bytes, or a failure.
    method SendSome(data: seq<Byte>) returns (count: int)
      requires Valid() && open && data != []
      modifies `wire
      ensures Valid() && count <= |data|
      ensures count <= 0 ==> wire == old(wire)
      ensures count > 0 ==> Carried(old(wire), wire, data[..count])
    {
      count :| count <= |data|;
      if count > 0 {
        var last := |wire| - 1;
        wire := wire[last := wire[last] + data[..count]];
      }
    }

    method SendAll(data: seq<Byte>) returns (ok: bool)
      requires Valid() && open
      modifies `wire
      ensures Valid()
      ensures exists n: nat :: n <= |data| && Carried(old(wire), wire, data[..n])
      ensures ok ==> Carried(old(wire), wire, data)
    {
      var sent := 0;
      assert wire[|wire| - 1] + data[..0] == wire[|wire| - 1];
      while sent < |data|
        invariant 0 <= sent <= |data| && Valid()
        invariant Carried(old(wire), wire, data[..sent])
      {
        var count := SendSome(data[sent..]);
        if count <= 0 {
          return false;
        }
        CarriedMore(old(wire), data, sent, count);
        sent := sent + count;
      }
      assert data[..|data|] == data;
      return true;
    }

    // `recv` and the search for OK: the answer may be anything.
    method Acknowledged() returns (ok: bool) {
      ok := *;
    }

    /** Two attempts, each on its own connection.  Every connection carries a prefix of the frame and
        nothing else; success means that the last one carries all of it. */
    method Send(json: seq<Byte>) returns (ok: bool)
      requires Valid() && !open
      modifies this
      ensures Valid() && !open
      ensures |old(wire)| <= |wire| <= |old(wire)| + 2 && wire[..|old(wire)|] == old(wire)
      ensures forall k :: |old(wire)| <= k < |wire| ==> wire[k] <= json + [NEWLINE]
      ensures ok ==> |wire| > |old(wire)| && wire[|wire| - 1] == json + [NEWLINE]
    {
      var attempt := 0;
      while attempt < 2
        invariant 0 <= attempt <= 2 && !open
        invariant |old(wire)| <= |wire| <= |old(wire)| + attempt
        invariant wire[..|old(wire)|] == old(wire)
        invariant forall k :: |old(wire)| <= k < |wire| ==> wire[k] <= json + [NEWLINE]
      {
        attempt := attempt + 1;
        var connected := Connect();
        if connected {
          ok := Attempt(json);
          Close();
          if ok {
            return true;
          }
        }
      }
      return false;
    }

    // One attempt on a fresh connection: the message, the newline, the answer.
    method Attempt(json: seq<Byte>) returns (ok: bool)
      requires Valid() && open && wire[|wire| - 1] == []
      modifies `wire
      ensures Valid() && |wire| == |old(wire)| && wire[..|wire| - 1] == old(wire)[..|wire| - 1]
      ensures wire[|wire| - 1] <= json + [NEWLINE]
      ensures ok ==> wire[|wire| - 1] == json + [NEWLINE]
    {
      ok := SendAll(json);
      if !ok {
        return;
      }
      assert wire[|wire| - 1] == json;
      ok := SendAll([NEWLINE]);
      if !ok {
        return;
      }
      ok := Acknowledged();
    }
  }

  /** A message sent and received: when `Send` succeeds, the gateway reads the last connection, and
      gets the message under every schedule without stalls exactly if it has at most 4096 bytes. */
  method Deliver(client: GatewayClient, json: seq<Byte>, schedule: seq<Arrival>)
    returns (ok: bool, frame: seq<Byte>)
    requires client.Valid() && !client.open && NEWLINE !in json
    modifies client
    ensures client.Valid() && !client.open && frame <= json
    ensures ok && Steady(json + [NEWLINE], schedule) ==>
              (frame == json <==> |json| <= TCP_MAX_MESSAGE_SIZE)
  {
    var connections := |client.wire|;
    frame := [];
    ok := client.Send(json);
    if |client.wire| > connections {
      var stream := client.wire[|client.wire| - 1];
      var reader := new StreamReader(stream, schedule);
      ConnectionDelivers(json, stream, schedule);
      frame := ReadMessage(reader);
    }
  }

  // The newest connection carries `data` in addition, and nothing else changed.
  ghost predicate Carried(before: seq<seq<Byte>>, after: seq<seq<Byte>>, data: seq<Byte>) {
    && |after| == |before| > 0
    && after == before[|before| - 1 := before[|before| - 1] + data]
  }

  lemma CarriedMore(before: seq<seq<Byte>>, data: seq<Byte>, sent: nat, count: nat)
    requires |before| > 0 && sent + count <= |data|
    ensures forall mid, after ::
              Carried(before, mid, data[..sent]) && Carried(mid, after, data[sent..][..count])
              ==> Carried(before, after, data[..sent + count])
  {
    var last := before[|before| - 1];
    assert (last + data[..sent]) + data[sent..][..count] == last + data[..sent + count];
  }
}
