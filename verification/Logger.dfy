/** The in-memory ring buffer of gateway/lilygo-micropython/logger.py. */
module Logger {

  datatype Entry = Entry(timestamp: string, level: string, message: string)

  // ----- the reference: a bounded log -----

  function Clamp(n: int, size: nat): (r: nat)
    ensures r <= size && (0 <= n <= size ==> r == n)
    ensures n < 0 ==> r == 0
    ensures n > size ==> r == size
  {
    var low := if n < 0 then 0 else n;
    if low > size then size else low
  }

  /** The last `n` items. */
  function Last<T>(s: seq<T>, n: nat): (r: seq<T>)
    requires n <= |s|
    ensures |r| == n
  {
    s[|s| - n..]
  }

  function Bounded<T>(s: seq<T>, n: nat): seq<T> {
    if |s| <= n then s else Last(s, n)
  }

  predicate IsSuffix<T(==)>(s: seq<T>, all: seq<T>) {
    |s| <= |all| && all[|all| - |s|..] == s
  }

  /** The order in which the ring buffer holds its items. */
  function Unrolled<T>(items: seq<T>, next: nat): seq<T>
    requires next <= |items|
  {
    items[next..] + items[..next]
  }

  // `x` wrapped around once.
  function WrapOnce(x: nat, n: nat): nat
    requires x < 2 * n
  {
    if x < n then x else x - n
  }

  lemma ModuloWraps(x: nat, n: nat)
    requires x < 2 * n
    ensures x % n == WrapOnce(x, n) < n
  {
  }

  lemma UnrolledAt<T>(items: seq<T>, next: nat, i: nat)
    requires next < |items| && i < |items|
    ensures Unrolled(items, next)[i] == items[WrapOnce(next + i, |items|)]
    ensures next == 0 ==> Unrolled(items, next) == items
  {
  }

  // Overwriting the oldest item and moving on drops it and appends the new one.
  lemma Overwrite<T>(items: seq<T>, next: nat, e: T)
    requires next < |items|
    ensures var next' := if next + 1 == |items| then 0 else next + 1;
            Unrolled(items[next := e], next') == Unrolled(items, next)[1..] + [e]
  {
    var items' := items[next := e];
    var oldest := items[next..];
    assert (oldest + items[..next])[1..] == oldest[1..] + items[..next];
    assert oldest[1..] == items[next + 1..];
    assert items'[..next + 1] == items[..next] + [e];
    if next + 1 == |items| {
      assert items'[0..] + items'[..0] == items'[..next + 1];
    } else {
      assert items'[next + 1..] == items[next + 1..];
    }
  }

  lemma OverwriteFull<T>(items: seq<T>, next: nat, e: T)
    requires next < |items|
    ensures var next' := (next + 1) % |items|;
            && next' < |items|
            && Unrolled(items[next := e], next') == Bounded(Unrolled(items, next) + [e], |items|)
  {
    ModuloWraps(next + 1, |items|);
    Overwrite(items, next, e);
    assert Bounded(Unrolled(items, next) + [e], |items|) == Unrolled(items, next)[1..] + [e];
  }

  // ----- the class -----

  class GatewayLogger {
    const capacity: nat
    var items: seq<Entry>
    var next: nat

    ghost predicate Valid()
      reads this
    {
      && 1 <= capacity && |items| <= capacity && next < capacity
      && (|items| < capacity ==> next == 0)
    }

    /** The retained log, oldest entry first. */
    ghost function Contents(): seq<Entry>
      reads this
      requires Valid()
    {
      if |items| == capacity then Unrolled(items, next) else items
    }

    constructor (capacity: nat)
      requires capacity >= 1
      ensures Valid() && Contents() == [] && this.capacity == capacity
    {
      this.capacity := capacity;
      items := [];
      next := 0;
    }

    method Add(e: Entry)
      requires Valid()
      modifies this
      ensures Valid()
      ensures Contents() == Bounded(old(Contents()) + [e], capacity)
    {
      if |items| < capacity {
        items := items + [e];
        assert items[0..] + items[..0] == items;
      } else {
        OverwriteFull(items, next, e);
        items := items[next := e];
        next := (next + 1) % capacity;
      }
    }

    /** The last `limit` entries in order. */
    method Entries(limit: int) returns (result: seq<Entry>)
      requires Valid()
      ensures result == Last(Contents(), Clamp(limit, |Contents()|))
    {
      var count := Clamp(limit, |items|);
      if count == 0 {
        return [];
      }
      result := Newest(count);
    }

    method Trim(keep: int)
      requires Valid()
      modifies this
      ensures Valid()
      ensures Contents() == Last(old(Contents()), Clamp(keep, |old(Contents())|))
    {
      var count := Clamp(keep, |items|);
      if count == |items| {
        return;
      }
      var retained := Newest(count);
      items := retained;
      next := 0;
    }

    // The loop that `entries` and `trim` share: `count` items up to the newest one.
    method Newest(count: nat) returns (result: seq<Entry>)
      requires Valid() && count <= |items| && 0 < |items|
      ensures result == Last(Contents(), count)
    {
      var total := |items|;
      var start := if total == capacity then next else 0;
      ghost var first, log := start, Contents();
      start := (start + total - count) % total;
      result := [];
      for offset := 0 to count
        invariant |result| == offset
        invariant forall k :: 0 <= k < offset ==> result[k] == log[total - count + k]
      {
        ReadAt(items, first, total - count, offset);
        result := result + [items[(start + offset) % total]];
      }
    }
  }

  lemma ReadAt<T>(items: seq<T>, first: nat, skip: nat, offset: nat)
    requires first < |items| && skip + offset < |items|
    ensures var at := ((first + skip) % |items| + offset) % |items|;
            at < |items| && Unrolled(items, first)[skip + offset] == items[at]
    ensures first == 0 ==> Unrolled(items, first) == items
  {
    UnrolledAt(items, first, skip + offset);
    ModuloWraps(first + skip, |items|);
    ModuloWraps(WrapOnce(first + skip, |items|) + offset, |items|);
  }

  // ----- any run of additions and trims -----

  datatype Op = AddOp(e: Entry) | TrimOp(keep: int)

  /** What is retained after `ops`, and everything that was ever added. */
  function Run(ops: seq<Op>, capacity: nat): (r: (seq<Entry>, seq<Entry>)) {
    if |ops| == 0 then ([], [])
    else
      var (kept, all) := Run(ops[..|ops| - 1], capacity);
      match ops[|ops| - 1]
      case AddOp(e) => (Bounded(kept + [e], capacity), all + [e])
      case TrimOp(keep) => (Last(kept, Clamp(keep, |kept|)), all)
  }

  // How many entries are retained.
  function RunLength(ops: seq<Op>, capacity: nat): nat {
    if |ops| == 0 then 0
    else
      var n := RunLength(ops[..|ops| - 1], capacity);
      match ops[|ops| - 1]
      case AddOp(_) => if n < capacity then n + 1 else capacity
      case TrimOp(keep) => Clamp(keep, n)
  }

  lemma SuffixGrows<T>(s: seq<T>, all: seq<T>, e: T, capacity: nat)
    requires IsSuffix(s, all)
    ensures IsSuffix(Bounded(s + [e], capacity), all + [e])
  {
    assert (all + [e])[|all| - |s|..] == s + [e];
  }

  lemma SuffixShrinks<T>(s: seq<T>, all: seq<T>, n: nat)
    requires IsSuffix(s, all) && n <= |s|
    ensures IsSuffix(Last(s, n), all)
  {
  }

  /** The log always is the newest part of everything ever logged, without holes and in order, and
      never longer than the capacity. */
  lemma {:induction false} RunIsSuffix(ops: seq<Op>, capacity: nat)
    ensures var (kept, all) := Run(ops, capacity);
            IsSuffix(kept, all) && |kept| == RunLength(ops, capacity) <= capacity
  {
    if |ops| > 0 {
      var before := ops[..|ops| - 1];
      RunIsSuffix(before, capacity);
      var (kept, all) := Run(before, capacity);
      match ops[|ops| - 1]
      case AddOp(e) => SuffixGrows(kept, all, e, capacity);
      case TrimOp(keep) => SuffixShrinks(kept, all, Clamp(keep, |kept|));
    }
  }

  // The ring buffer carries out any such run.
  method Perform(ops: seq<Op>, capacity: nat) returns (log: GatewayLogger)
    requires capacity >= 1
    ensures fresh(log) && log.Valid() && log.capacity == capacity
    ensures log.Contents() == Run(ops, capacity).0
  {
    log := new GatewayLogger(capacity);
    for i := 0 to |ops|
      invariant fresh(log) && log.Valid() && log.capacity == capacity
      invariant log.Contents() == Run(ops[..i], capacity).0
    {
      assert ops[..i + 1][..i] == ops[..i];
      match ops[i]
      case AddOp(e) => log.Add(e);
      case TrimOp(keep) => log.Trim(keep);
    }
    assert ops[..|ops|] == ops;
  }
}
