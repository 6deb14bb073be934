/** `iso_time` of gateway/lilygo-micropython/utils.py: its text order is the order of time. */
module Timestamps {

  /** The fields of `time.localtime` that the timestamp shows. */
  datatype Clock = Clock(year: nat, month: nat, day: nat, hour: nat, minute: nat, second: nat)

  // The five fields behind the year, and what separates them.
  function FieldAt(c: Clock, i: nat): nat
    requires i < 5
  {
    if i == 0 then c.month else if i == 1 then c.day else if i == 2 then c.hour
    else if i == 3 then c.minute else c.second
  }

  function SeparatorAt(i: nat): char {
    if i < 2 then '-' else if i == 2 then ' ' else ':'
  }

  ghost predicate ClockOk(c: Clock) {
    c.year < 10000 && forall i :: 0 <= i < 5 ==> FieldAt(c, i) < 100
  }

  /** The order of time: the first field that differs decides. */
  predicate Earlier(x: Clock, y: Clock) {
    x.year < y.year || (x.year == y.year && EarlierFrom(x, y, 0))
  }

  predicate EarlierFrom(x: Clock, y: Clock, i: nat)
    requires i <= 5
    decreases 5 - i
  {
    i < 5 && (FieldAt(x, i) < FieldAt(y, i)
              || (FieldAt(x, i) == FieldAt(y, i) && EarlierFrom(x, y, i + 1)))
  }

  function Digit(n: nat): char
    requires n < 10
  {
    (48 + n) as char
  }

  function Pad2(n: nat): (r: string)
    requires n < 100
    ensures |r| == 2
  {
    [Digit(n / 10), Digit(n % 10)]
  }

  function Pad4(n: nat): (r: string)
    requires n < 10000
    ensures |r| == 4
  {
    Pad2(n / 100) + Pad2(n % 100)
  }

  /** "%04d-%02d-%02d %02d:%02d:%02d" */
  function Format(c: Clock): string
    requires ClockOk(c)
  {
    Pad4(c.year) + Tail(c, 0)
  }

  // The fields from the `i`-th on, each behind its separator.
  function Tail(c: Clock, i: nat): string
    requires ClockOk(c) && i <= 5
    decreases 5 - i
  {
    if i == 5 then "" else [SeparatorAt(i)] + (Pad2(FieldAt(c, i)) + Tail(c, i + 1))
  }

  // The number that two digits show.
  function Shown(a: char, b: char): int {
    10 * (a as int - 48) + (b as int - 48)
  }

  lemma PadShows(n: nat)
    requires n < 100
    ensures Shown(Pad2(n)[0], Pad2(n)[1]) == n
  {
  }

  /** The tail from the third field on. */
  lemma TailIs(c: Clock, i: nat)
    requires ClockOk(c) && i < 5
    ensures |Tail(c, i)| == 3 * (5 - i)
    ensures Tail(c, i)[0] == (if i < 2 then '-' else if i == 2 then ' ' else ':')
    ensures Shown(Tail(c, i)[1], Tail(c, i)[2]) == FieldAt(c, i)
    ensures Tail(c, i)[3..] == Tail(c, i + 1)
    decreases 5 - i
  {
    PadShows(FieldAt(c, i));
    if i < 4 {
      TailIs(c, i + 1);
    } else {
      assert Tail(c, 5) == "";
    }
  }

  /** Four digits of the year, and then each field behind its separator as two digits. */
  lemma FormatIs(c: Clock)
    requires ClockOk(c)
    ensures var f := Format(c);
            && |f| == 19 && f[4] == '-' && f[7] == '-' && f[10] == ' ' && f[13] == ':' && f[16] == ':'
            && 100 * Shown(f[0], f[1]) + Shown(f[2], f[3]) == c.year
            && Shown(f[5], f[6]) == c.month && Shown(f[8], f[9]) == c.day
            && Shown(f[11], f[12]) == c.hour && Shown(f[14], f[15]) == c.minute
            && Shown(f[17], f[18]) == c.second
  {
    PadShows(c.year / 100);
    PadShows(c.year % 100);
    TailIs(c, 0);
    TailIs(c, 1);
    TailIs(c, 2);
    TailIs(c, 3);
    TailIs(c, 4);
  }

  /** Python's `<` on strings. */
  predicate Less(a: string, b: string) {
    if |a| == 0 then |b| > 0
    else |b| > 0 && (a[0] < b[0] || (a[0] == b[0] && Less(a[1..], b[1..])))
  }

  lemma {:induction false} LessIrreflexive(a: string)
    ensures !Less(a, a)
  {
    if |a| > 0 {
      LessIrreflexive(a[1..]);
    }
  }

  lemma {:induction false} LessTotal(a: string, b: string)
    ensures Less(a, b) || Less(b, a) || a == b
  {
    if |a| > 0 && |b| > 0 {
      LessTotal(a[1..], b[1..]);
      assert a == [a[0]] + a[1..] && b == [b[0]] + b[1..];
    }
  }

  lemma {:induction false} NotLessTransitive(a: string, b: string, c: string)
    requires !Less(b, a) && !Less(c, b)
    ensures !Less(c, a)
  {
    if |a| > 0 && |b| > 0 && |c| > 0 && a[0] == b[0] == c[0] {
      NotLessTransitive(a[1..], b[1..], c[1..]);
    }
  }

  lemma {:induction false} LessAsymmetric(a: string, b: string)
    requires Less(a, b)
    ensures !Less(b, a)
  {
    if |a| > 0 && a[0] == b[0] {
      LessAsymmetric(a[1..], b[1..]);
    }
  }

  // Heads of equal length decide first.
  lemma {:induction false} LessAppend(p: string, q: string, s: string, t: string)
    requires |p| == |q|
    ensures Less(p + s, q + t) <==> (Less(p, q) || (p == q && Less(s, t)))
  {
    if |p| == 0 {
      assert p + s == s && q + t == t;
    } else {
      assert (p + s)[1..] == p[1..] + s && (q + t)[1..] == q[1..] + t;
      LessAppend(p[1..], q[1..], s, t);
      assert p == q <==> (p[0] == q[0] && p[1..] == q[1..]) by {
        assert p == [p[0]] + p[1..] && q == [q[0]] + q[1..];
      }
      LessIrreflexive(p);
    }
  }

  lemma LessOne(x: char, y: char)
    ensures Less([x], [y]) <==> x < y
  {
    assert [x][1..] == [] && [y][1..] == [];
    assert !Less([], []);
  }

  lemma Pad2Order(m: nat, n: nat)
    requires m < 100 && n < 100
    ensures Less(Pad2(m), Pad2(n)) <==> m < n
    ensures Pad2(m) == Pad2(n) <==> m == n
  {
    var a, b := Pad2(m), Pad2(n);
    assert m == 10 * (m / 10) + m % 10 && n == 10 * (n / 10) + n % 10;
    assert a[1..] == [a[1]] && b[1..] == [b[1]];
    LessOne(a[1], b[1]);
    assert Less(a, b) <==> (a[0] < b[0] || (a[0] == b[0] && a[1] < b[1]));
    assert a[0] as int == 48 + m / 10 && b[0] as int == 48 + n / 10;
    assert a[1] as int == 48 + m % 10 && b[1] as int == 48 + n % 10;
  }

  lemma Pad4Order(m: nat, n: nat)
    requires m < 10000 && n < 10000
    ensures Less(Pad4(m), Pad4(n)) <==> m < n
    ensures Pad4(m) == Pad4(n) <==> m == n
  {
    LessAppend(Pad2(m / 100), Pad2(n / 100), Pad2(m % 100), Pad2(n % 100));
    Pad2Order(m / 100, n / 100);
    Pad2Order(m % 100, n % 100);
    assert Pad4(m)[..2] == Pad2(m / 100) && Pad4(m)[2..] == Pad2(m % 100);
    assert Pad4(n)[..2] == Pad2(n / 100) && Pad4(n)[2..] == Pad2(n % 100);
  }

  lemma {:induction false} TailOrder(x: Clock, y: Clock, i: nat)
    requires ClockOk(x) && ClockOk(y) && i <= 5
    ensures Less(Tail(x, i), Tail(y, i)) <==> EarlierFrom(x, y, i)
    decreases 5 - i
  {
    if i < 5 {
      var p, m, n := [SeparatorAt(i)], FieldAt(x, i), FieldAt(y, i);
      TailOrder(x, y, i + 1);
      LessAppend(p, p, Pad2(m) + Tail(x, i + 1), Pad2(n) + Tail(y, i + 1));
      LessIrreflexive(p);
      LessAppend(Pad2(m), Pad2(n), Tail(x, i + 1), Tail(y, i + 1));
      Pad2Order(m, n);
    }
  }

  /** Comparing two timestamps as texts compares the times. */
  lemma FormatOrder(x: Clock, y: Clock)
    requires ClockOk(x) && ClockOk(y)
    ensures Less(Format(x), Format(y)) <==> Earlier(x, y)
  {
    TailOrder(x, y, 0);
    LessAppend(Pad4(x.year), Pad4(y.year), Tail(x, 0), Tail(y, 0));
    Pad4Order(x.year, y.year);
  }
}
