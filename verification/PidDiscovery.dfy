/** `discover_supported_pids` of esp-obd2-client/main/obd2_source.c.

    A mask of type uint32_t is modelled as the set of fields whose bits it has; the ECU's bitmap is
    tested with the bit operations of the source. */
module PidDiscovery {
  import opened Options

  // One constructor for each OBD_VALID_ bit of esp-obd2-client/main/obd2_types.h.
  datatype Field =
    | Rpm | Speed | Load | Throttle | Coolant | Intake | Fuel | Voltage | Runtime | Ambient | Mil
    | ShortTrim | LongTrim | Map | Maf | FuelSystem | ObdStandard | DistMil | DistClear | FuelType
    | FuelRate

  datatype Row = Row(pid: nat, field: Field)

  const TABLE := [
    Row(0x03, FuelSystem), Row(0x0C, Rpm), Row(0x0D, Speed), Row(0x04, Load), Row(0x11, Throttle),
    Row(0x05, Coolant), Row(0x0F, Intake), Row(0x06, ShortTrim), Row(0x07, LongTrim), Row(0x0B, Map),
    Row(0x10, Maf), Row(0x1C, ObdStandard), Row(0x21, DistMil), Row(0x1F, Runtime), Row(0x2F, Fuel),
    Row(0x31, DistClear), Row(0x42, Voltage), Row(0x46, Ambient), Row(0x51, FuelType),
    Row(0x5E, FuelRate)]

  const BASES := [0x00, 0x20, 0x40]

  /** The PID with which the three read functions query a field; they state it on their own. */
  function QueriedPid(f: Field): nat {
    match f
    case Rpm => 0x0C
    case Speed => 0x0D
    case Load => 0x04
    case Throttle => 0x11
    case Coolant => 0x05
    case Intake => 0x0F
    case Fuel => 0x2F
    case Voltage => 0x42
    case Runtime => 0x1F
    case Ambient => 0x46
    case FuelSystem => 0x03
    case ShortTrim => 0x06
    case LongTrim => 0x07
    case Map => 0x0B
    case Maf => 0x10
    case ObdStandard => 0x1C
    case DistMil => 0x21
    case DistClear => 0x31
    case FuelType => 0x51
    case FuelRate => 0x5E
    case Mil => 0x01
  }

  // The position of a field in the table.
  function RowOf(f: Field): nat {
    match f
    case FuelSystem => 0
    case Rpm => 1
    case Speed => 2
    case Load => 3
    case Throttle => 4
    case Coolant => 5
    case Intake => 6
    case ShortTrim => 7
    case LongTrim => 8
    case Map => 9
    case Maf => 10
    case ObdStandard => 11
    case DistMil => 12
    case Runtime => 13
    case Fuel => 14
    case DistClear => 15
    case Voltage => 16
    case Ambient => 17
    case FuelType => 18
    case FuelRate => 19
    case Mil => 20
  }

  /** The table discovers each field but MIL once, under the very PID with which it is queried later. */
  lemma TableMatchesQueries(k: nat, f: Field)
    requires k < |TABLE|
    ensures TABLE[k].field == f <==> k == RowOf(f)
    ensures TABLE[k].field == f ==> TABLE[k].pid == QueriedPid(f) && f != Mil
  {
    TableFirst(k);
    TableSecond(k);
  }

  lemma TableFirst(k: nat)
    requires k < |TABLE|
    ensures k < 10 ==> RowOf(TABLE[k].field) == k && TABLE[k].pid == QueriedPid(TABLE[k].field)
  {
  }

  lemma TableSecond(k: nat)
    requires k < |TABLE|
    ensures k >= 10 ==> RowOf(TABLE[k].field) == k && TABLE[k].pid == QueriedPid(TABLE[k].field)
    ensures TABLE[k].field != Mil
  {
  }

  // ----- frames and bitmaps -----

  datatype Frame = Frame(id: int, dlc: nat, data: seq<bv8>)

  predicate FrameOk(f: Frame) {
    |f.data| == 8
  }

  predicate Replies(f: Frame, base: nat)
    requires FrameOk(f) && base < 256
  {
    0x7E8 <= f.id <= 0x7EF && f.dlc >= 7 && f.data[1] == 0x41 && f.data[2] == base as bv8
  }

  function Bitmap(d: seq<bv8>): bv32
    requires |d| == 8
  {
    ((d[3] as bv32) << 24) | ((d[4] as bv32) << 16) | ((d[5] as bv32) << 8) | (d[6] as bv32)
  }

  // `bitmap & (1UL << (32 - offset))`
  predicate TestBit(bitmap: bv32, offset: nat)
    requires 1 <= offset <= 32
  {
    bitmap & ((1 as bv32) << (32 - offset)) != 0
  }

  /** The reply as Annex A of ISO 15031-5 defines it: the most significant bit of the first data byte
      stands for the first PID after `base`, the least significant bit of the fourth for the last. */
  predicate Advertises(d: seq<bv8>, offset: nat)
    requires |d| == 8 && 1 <= offset <= 32
  {
    d[3 + (offset - 1) / 8] & ((1 as bv8) << (7 - (offset - 1) % 8)) != 0
  }

  // The test agrees with the definition at one offset.
  predicate Exact(d: seq<bv8>, offset: nat)
    requires |d| == 8 && 1 <= offset <= 32
  {
    TestBit(Bitmap(d), offset) <==> Advertises(d, offset)
  }

  lemma FirstByte(d: seq<bv8>)
    requires |d| == 8
    ensures Exact(d, 1) && Exact(d, 2) && Exact(d, 3) && Exact(d, 4)
    ensures Exact(d, 5) && Exact(d, 6) && Exact(d, 7) && Exact(d, 8)
  {
  }

  lemma SecondByte(d: seq<bv8>)
    requires |d| == 8
    ensures Exact(d, 9) && Exact(d, 10) && Exact(d, 11) && Exact(d, 12)
    ensures Exact(d, 13) && Exact(d, 14) && Exact(d, 15) && Exact(d, 16)
  {
  }

  lemma ThirdByte(d: seq<bv8>)
    requires |d| == 8
    ensures Exact(d, 17) && Exact(d, 18) && Exact(d, 19) && Exact(d, 20)
    ensures Exact(d, 21) && Exact(d, 22) && Exact(d, 23) && Exact(d, 24)
  {
  }

  lemma FourthByte(d: seq<bv8>)
    requires |d| == 8
    ensures Exact(d, 25) && Exact(d, 26) && Exact(d, 27) && Exact(d, 28)
    ensures Exact(d, 29) && Exact(d, 30) && Exact(d, 31) && Exact(d, 32)
  {
  }

  lemma FirstBits(d: seq<bv8>, offset: nat)
    requires |d| == 8 && 1 <= offset <= 8
    ensures Exact(d, offset)
  {
    FirstByte(d);
  }

  lemma SecondBits(d: seq<bv8>, offset: nat)
    requires |d| == 8 && 9 <= offset <= 16
    ensures Exact(d, offset)
  {
    SecondByte(d);
  }

  lemma ThirdBits(d: seq<bv8>, offset: nat)
    requires |d| == 8 && 17 <= offset <= 24
    ensures Exact(d, offset)
  {
    ThirdByte(d);
  }

  lemma FourthBits(d: seq<bv8>, offset: nat)
    requires |d| == 8 && 25 <= offset <= 32
    ensures Exact(d, offset)
  {
    FourthByte(d);
  }

  /** The firmware's big-endian test reads exactly the advertised bit, for every offset. */
  lemma TestBitExact(d: seq<bv8>, offset: nat)
    requires |d| == 8 && 1 <= offset <= 32
    ensures Exact(d, offset)
  {
    if offset <= 8 {
      FirstBits(d, offset);
    } else if offset <= 16 {
      SecondBits(d, offset);
    } else if offset <= 24 {
      ThirdBits(d, offset);
    } else {
      FourthBits(d, offset);
    }
  }

  // ----- the windows -----

  /** What one request brought: whether it was sent, and the frames received before its deadline. */
  datatype Window = Window(sent: bool, frames: seq<Frame>)

  ghost predicate WindowOk(w: Window) {
    forall i :: 0 <= i < |w.frames| ==> FrameOk(w.frames[i])
  }

  /** The first well-formed reply for `base`. */
  function Reply(w: Window, base: nat): (r: Option<Frame>)
    requires base < 256 && WindowOk(w)
    ensures r.Some? ==> w.sent && r.value in w.frames && FrameOk(r.value) && Replies(r.value, base)
  {
    if w.sent then FirstReply(w.frames, base) else None
  }

  function FirstReply(frames: seq<Frame>, base: nat): (r: Option<Frame>)
    requires base < 256 && forall i :: 0 <= i < |frames| ==> FrameOk(frames[i])
    ensures r.Some? ==> r.value in frames && FrameOk(r.value) && Replies(r.value, base)
    ensures r.None? <==> forall i :: 0 <= i < |frames| ==> !Replies(frames[i], base)
  {
    if |frames| == 0 then None
    else if Replies(frames[0], base) then Some(frames[0])
    else FirstReply(frames[1..], base)
  }

  /** The reply used is the first one: when two ECUs answer, the faster one counts. */
  lemma {:induction false} FirstReplyIsFirst(frames: seq<Frame>, base: nat, i: nat)
    requires base < 256 && forall k :: 0 <= k < |frames| ==> FrameOk(frames[k])
    requires IsFirst(frames, base, i)
    ensures FirstReply(frames, base) == Some(frames[i])
  {
    if i > 0 {
      assert forall j :: 0 <= j < i - 1 ==> frames[1..][j] == frames[j + 1];
      FirstReplyIsFirst(frames[1..], base, i - 1);
    }
  }

  /** No frame before this reply is one. */
  ghost predicate IsFirst(frames: seq<Frame>, base: nat, i: int)
    requires base < 256 && forall i :: 0 <= i < |frames| ==> FrameOk(frames[i])
  {
    0 <= i < |frames| && Replies(frames[i], base) && forall j :: 0 <= j < i ==> !Replies(frames[j], base)
  }

  /** A reply comes from one of the eight ECU identifiers, is long enough to hold the bitmap, and answers
      mode 1 for this base. */
  lemma ReplyIs(f: Frame, base: nat)
    requires FrameOk(f) && base < 256
    ensures Replies(f, base) <==>
            2024 <= f.id <= 2031 && f.dlc > 6 && f.data[1] == 65 && f.data[2] == base as bv8
  {
  }

  /** The window a PID belongs to. */
  function WindowOf(pid: nat): nat {
    if pid == 0 then 0 else (pid - 1) / 32
  }

  predicate InWindow(pid: nat, base: nat) {
    base < pid <= base + 32
  }

  ghost predicate TableOk(table: seq<Row>) {
    forall k :: 0 <= k < |table| ==> 1 <= table[k].pid <= 96 && table[k].field != Mil
  }

  lemma TableIsOk()
    ensures TableOk(TABLE)
  {
  }

  lemma BasesAre(b: nat)
    requires b < 3
    ensures BASES[b] == 32 * b
  {
  }

  /** Every PID of the table lies in exactly one window, at a shift of 0 to 31. */
  lemma OneWindowEach(k: nat, b: nat)
    requires k < |TABLE| && b < 3
    ensures WindowOf(TABLE[k].pid) < 3
    ensures InWindow(TABLE[k].pid, BASES[b]) <==> b == WindowOf(TABLE[k].pid)
    ensures InWindow(TABLE[k].pid, BASES[b]) ==> 0 <= 32 - (TABLE[k].pid - BASES[b]) <= 31
  {
    TableIsOk();
    BasesAre(b);
  }

  ghost predicate WindowsOk(windows: seq<Window>) {
    |windows| == 3 && forall b :: 0 <= b < 3 ==> WindowOk(windows[b])
  }

  /** The ECU's reply for the window of a row advertises its PID. */
  ghost predicate Advertised(windows: seq<Window>, row: Row)
    requires WindowsOk(windows)
  {
    var b := WindowOf(row.pid);
    && b < 3 && InWindow(row.pid, 32 * b)
    && Reply(windows[b], 32 * b).Some?
    && Advertises(Reply(windows[b], 32 * b).value.data, row.pid - 32 * b)
  }

  // Which rows are advertised.
  ghost function Hits(table: seq<Row>, windows: seq<Window>): (r: seq<bool>)
    requires WindowsOk(windows)
    ensures |r| == |table|
  {
    seq(|table|, k requires 0 <= k < |table| => Advertised(windows, table[k]))
  }

  lemma HitAt(table: seq<Row>, windows: seq<Window>, k: nat)
    requires WindowsOk(windows) && k < |table|
    ensures Hits(table, windows)[k] <==> Advertised(windows, table[k])
  {
  }

  // The fields hit among the rows before `i` of window `b` and all rows of earlier windows.
  ghost predicate Found(table: seq<Row>, hits: seq<bool>, b: nat, i: nat, f: Field)
    requires |hits| == |table|
  {
    exists k :: 0 <= k < |table| && table[k].field == f && hits[k]
                && (WindowOf(table[k].pid) < b || (WindowOf(table[k].pid) == b && k < i))
  }

  ghost predicate MaskIs(mask: set<Field>, table: seq<Row>, hits: seq<bool>, b: nat, i: nat)
    requires |hits| == |table|
  {
    forall f :: f in mask <==> f == Mil || Found(table, hits, b, i, f)
  }

  // The loop over the table for one reply.
  method AddRows(table: seq<Row>, windows: seq<Window>, b: nat, mask: set<Field>)
    returns (mask': set<Field>)
    requires TableOk(table) && WindowsOk(windows) && b < 3
    requires Reply(windows[b], 32 * b).Some? && MaskIs(mask, table, Hits(table, windows), b, 0)
    ensures MaskIs(mask', table, Hits(table, windows), b, |table|)
  {
    ghost var hits := Hits(table, windows);
    mask' := mask;
    for i := 0 to |table|
      invariant MaskIs(mask', table, hits, b, i)
    {
      var row := table[i];
      WindowFrom(row.pid, b);
      NextRow(table, hits, b, i, mask');
      if row.pid > 32 * b && row.pid <= 32 * b + 32 {
        var hit := RowHit(table, windows, b, i);
        if hit {
          mask' := mask' + {row.field};
        }
      }
    }
  }

  // `bitmap & (1UL << (32 - offset))` for a row of the window.
  method RowHit(table: seq<Row>, windows: seq<Window>, b: nat, i: nat) returns (hit: bool)
    requires WindowsOk(windows) && b < 3 && i < |table| && InWindow(table[i].pid, 32 * b)
    requires Reply(windows[b], 32 * b).Some?
    ensures hit <==> Hits(table, windows)[i]
  {
    var data := Reply(windows[b], 32 * b).value.data;
    var offset := table[i].pid - 32 * b;
    hit := TestBit(Bitmap(data), offset);
    AdvertisedBy(windows, table[i], b, offset, hit);
    HitAt(table, windows, i);
  }

  lemma AdvertisedBy(windows: seq<Window>, row: Row, b: nat, offset: nat, hit: bool)
    requires WindowsOk(windows) && b < 3 && 1 <= offset <= 32 && row.pid == 32 * b + offset
    requires Reply(windows[b], 32 * b).Some?
    requires hit <==> TestBit(Bitmap(Reply(windows[b], 32 * b).value.data), offset)
    ensures Advertised(windows, row) <==> hit
  {
    WindowFrom(row.pid, b);
    TestBitExact(Reply(windows[b], 32 * b).value.data, offset);
  }

  lemma WindowFrom(pid: nat, b: nat)
    requires pid > 0
    ensures WindowOf(pid) == b <==> InWindow(pid, 32 * b)
  {
  }

  // One more row adds its field if it belongs to the window and is hit.
  lemma NextRow(table: seq<Row>, hits: seq<bool>, b: nat, i: nat, mask: set<Field>)
    requires |hits| == |table| && i < |table| && MaskIs(mask, table, hits, b, i)
    ensures WindowOf(table[i].pid) == b && hits[i] ==>
              MaskIs(mask + {table[i].field}, table, hits, b, i + 1)
    ensures !(WindowOf(table[i].pid) == b && hits[i]) ==> MaskIs(mask, table, hits, b, i + 1)
  {
    forall f ensures Found(table, hits, b, i + 1, f) <==>
                     Found(table, hits, b, i, f)
                     || (f == table[i].field && WindowOf(table[i].pid) == b && hits[i])
    {
    }
  }

  // A window is done when all rows are, or when nothing replied.
  lemma NextWindow(table: seq<Row>, hits: seq<bool>, b: nat, i: nat,
                   mask: set<Field>)
    requires |hits| == |table| && MaskIs(mask, table, hits, b, i)
    requires i == |table| || forall k :: 0 <= k < |table| && WindowOf(table[k].pid) == b ==> !hits[k]
    ensures MaskIs(mask, table, hits, b + 1, 0)
  {
    forall f ensures Found(table, hits, b + 1, 0, f) <==> Found(table, hits, b, i, f) {
    }
  }

  lemma SilentWindow(table: seq<Row>, windows: seq<Window>, b: nat)
    requires WindowsOk(windows) && b < 3 && Reply(windows[b], 32 * b).None?
    ensures forall k :: 0 <= k < |table| && WindowOf(table[k].pid) == b ==> !Hits(table, windows)[k]
  {
    forall k | 0 <= k < |table| && WindowOf(table[k].pid) == b ensures !Hits(table, windows)[k] {
      HitAt(table, windows, k);
    }
  }

  // The loop that waits for the reply of one window.
  method Await(w: Window, base: nat) returns (answered: bool)
    requires base < 256 && WindowOk(w)
    ensures answered <==> Reply(w, base).Some?
  {
    if !w.sent {
      return false;
    }
    var k := 0;
    while k < |w.frames|
      invariant k <= |w.frames|
      invariant forall i :: 0 <= i < k ==> !Replies(w.frames[i], base)
    {
      if Replies(w.frames[k], base) {
        return true;
      }
      k := k + 1;
    }
    return false;
  }

  method Discover(table: seq<Row>, windows: seq<Window>) returns (ok: bool, mask: set<Field>)
    requires TableOk(table) && WindowsOk(windows)
    ensures MaskIs(mask, table, Hits(table, windows), 3, 0)
    ensures ok <==> mask != {Mil}
  {
    mask := {Mil};
    ghost var hits := Hits(table, windows);
    for b := 0 to 3
      invariant MaskIs(mask, table, hits, b, 0)
    {
      var answered := Await(windows[b], 32 * b);
      if answered {
        mask := AddRows(table, windows, b, mask);
        NextWindow(table, hits, b, |table|, mask);
      } else {
        SilentWindow(table, windows, b);
        NextWindow(table, hits, b, 0, mask);
      }
    }
    ok := mask != {Mil};
  }

  /** The mask has the bit of a field exactly when that is MIL, or the first reply to the window of
      its PID advertises the PID; a window without a reply contributes nothing. */
  method DiscoverSupportedPids(windows: seq<Window>) returns (ok: bool, mask: set<Field>)
    requires WindowsOk(windows)
    ensures forall f :: f in mask <==>
              (f == Mil || exists k :: 0 <= k < |TABLE| && TABLE[k].field == f
                                       && Advertised(windows, TABLE[k]))
    ensures ok <==> mask != {Mil}
  {
    TableIsOk();
    ok, mask := Discover(TABLE, windows);
    AllFound(TABLE, windows, mask);
  }

  lemma AllFound(table: seq<Row>, windows: seq<Window>, mask: set<Field>)
    requires TableOk(table) && WindowsOk(windows)
    requires MaskIs(mask, table, Hits(table, windows), 3, 0)
    ensures forall f :: f in mask <==>
              (f == Mil || exists k :: 0 <= k < |table| && table[k].field == f
                                       && Advertised(windows, table[k]))
  {
    forall k | 0 <= k < |table| ensures Hits(table, windows)[k] <==> Advertised(windows, table[k]) {
      HitAt(table, windows, k);
    }
    assert forall k :: 0 <= k < |table| ==> WindowOf(table[k].pid) < 3;
  }
}
