/** Diagnostic trouble codes, from CAN frames to the cloud.

    `format_dtc`, `append_unique_dtc` and `query_dtc_mode` are in
    esp-obd2-client/main/obd2_source.c; `_valid_dtc_codes` is in
    aws-dashboard/backend/car_health_api/lambda_function.py. */
module Dtc {
  import opened Records
  import opened Text

  type Byte = x: int | 0 <= x < 256

  const OBD_MAX_DTC := 12

  // ----- format_dtc -----

  function HexDigit(n: nat): char
    requires n < 16
  {
    if n < 10 then (48 + n) as char else (55 + n) as char
  }

  function SystemLetter(n: nat): char
    requires n < 4
  {
    if n == 0 then 'P' else if n == 1 then 'C' else if n == 2 then 'B' else 'U'
  }

  datatype Pair = Pair(a: Byte, b: Byte)

  function FormatDtc(p: Pair): (r: string)
    ensures |r| == 5
  {
    [SystemLetter(p.a / 64), HexDigit(p.a / 16 % 4), HexDigit(p.a % 16), HexDigit(p.b / 16),
     HexDigit(p.b % 16)]
  }

  /** The two highest bits of the first byte name the system, the next two the first digit, and the other
      three half bytes the digits behind it. */
  lemma FormatIs(p: Pair)
    ensures FormatDtc(p)[0] == if p.a < 64 then 'P' else if p.a < 128 then 'C'
                               else if p.a < 192 then 'B' else 'U'
    ensures HexValue(FormatDtc(p)[1]) == p.a / 16 % 4 && FormatDtc(p)[1] <= '3'
    ensures HexValue(FormatDtc(p)[2]) == p.a % 16
    ensures HexValue(FormatDtc(p)[3]) == p.b / 16
    ensures HexValue(FormatDtc(p)[4]) == p.b % 16
  {
  }

  // The value of a hexadecimal digit, or 16.
  function HexValue(c: char): nat {
    if '0' <= c <= '9' then c as nat - '0' as nat
    else if 'A' <= c <= 'F' then c as nat - 'A' as nat + 10
    else 16
  }

  lemma HexDigitInjective(m: nat, n: nat)
    requires m < 16 && n < 16 && HexDigit(m) == HexDigit(n)
    ensures m == n
  {
    assert HexDigit(m) as int == if m < 10 then 48 + m else 55 + m;
    assert HexDigit(n) as int == if n < 10 then 48 + n else 55 + n;
  }

  /** No two byte pairs have the same code. */
  lemma FormatInjective(p: Pair, q: Pair)
    ensures FormatDtc(p) == FormatDtc(q) <==> p == q
  {
    var x, y := FormatDtc(p), FormatDtc(q);
    if x == y {
      assert x[0] == y[0] && x[1] == y[1] && x[2] == y[2] && x[3] == y[3] && x[4] == y[4];
      HexDigitInjective(p.a / 16 % 4, q.a / 16 % 4);
      HexDigitInjective(p.a % 16, q.a % 16);
      HexDigitInjective(p.b / 16, q.b / 16);
      HexDigitInjective(p.b % 16, q.b % 16);
      SplitByte(p.a);
      SplitByte(q.a);
    }
  }

  lemma SplitByte(a: Byte)
    ensures a == 64 * (a / 64) + 16 * (a / 16 % 4) + a % 16
  {
  }

  // ----- append_unique_dtc -----

  predicate Acceptable(p: Pair) {
    !((p.a == 0 && p.b == 0) || p.a == 255 || p.b == 255)
  }

  /** The list after one more pair. */
  function Appended(codes: seq<string>, p: Pair): seq<string> {
    if !Acceptable(p) || FormatDtc(p) in codes || |codes| >= OBD_MAX_DTC then codes
    else codes + [FormatDtc(p)]
  }

  function AppendAll(codes: seq<string>, pairs: seq<Pair>): seq<string> {
    if |pairs| == 0 then codes
    else Appended(AppendAll(codes, pairs[..|pairs| - 1]), pairs[|pairs| - 1])
  }

  method AppendUnique(output: array<string>, count: nat, p: Pair) returns (count': nat, added: bool)
    requires output.Length == OBD_MAX_DTC && count <= OBD_MAX_DTC
    modifies output
    ensures count' <= OBD_MAX_DTC
    ensures output[..count'] == Appended(old(output[..count]), p)
    ensures added <==> count' != count
  {
    if (p.a == 0 && p.b == 0) || p.a == 255 || p.b == 255 {
      return count, false;
    }
    var code := FormatDtc(p);
    for i := 0 to count
      invariant code !in output[..i]
    {
      if output[i] == code {
        assert code in output[..count];
        return count, false;
      }
    }
    if count >= OBD_MAX_DTC {
      return count, false;
    }
    output[count] := code;
    return count + 1, true;
  }

  // ----- query_dtc_mode -----

  /** A received CAN frame. */
  datatype Frame = Frame(id: int, dlc: nat, data: seq<Byte>)

  predicate FrameOk(f: Frame) {
    |f.data| == 8 && f.dlc <= 8
  }

  predicate FramesOk(frames: seq<Frame>) {
    forall i :: 0 <= i < |frames| ==> FrameOk(frames[i])
  }

  // A single-frame answer to `mode` from one of the ECU identifiers.
  predicate Answers(f: Frame, mode: Byte)
    requires FrameOk(f)
  {
    && 0x7E8 <= f.id <= 0x7EF && f.dlc >= 3
    && f.data[0] / 16 == 0
    && 1 <= f.data[0] % 16 <= 7
    && f.data[1] == (0x40 + mode) % 256
  }

  // The pairs read from position `i` on.
  function PairsFrom(f: Frame, i: nat): seq<Pair>
    requires FrameOk(f)
    decreases 8 - i
  {
    if i + 1 <= 1 + f.data[0] % 16 && i + 1 < f.dlc then
      [Pair(f.data[i], f.data[i + 1])] + PairsFrom(f, i + 2)
    else []
  }

  function FramePairs(f: Frame, mode: Byte): seq<Pair>
    requires FrameOk(f)
  {
    if Answers(f, mode) then PairsFrom(f, 2) else []
  }

  // The pairs of each frame.
  function Groups(frames: seq<Frame>, mode: Byte): (r: seq<seq<Pair>>)
    requires FramesOk(frames)
    ensures |r| == |frames|
    ensures forall i {:trigger FramePairs(frames[i], mode)} :: 0 <= i < |frames| ==>
              r[i] == FramePairs(frames[i], mode)
  {
    seq(|frames|, i requires 0 <= i < |frames| => FramePairs(frames[i], mode))
  }

  function Flatten(groups: seq<seq<Pair>>): seq<Pair> {
    if |groups| == 0 then [] else Flatten(groups[..|groups| - 1]) + groups[|groups| - 1]
  }

  /** Every pair in the frames that arrive before the deadline, in order of arrival. */
  function AllPairs(frames: seq<Frame>, mode: Byte): seq<Pair>
    requires FramesOk(frames)
  {
    Flatten(Groups(frames, mode))
  }

  /** `frames` are the frames that arrive before the deadline.  The loop stops reading early once
      the buffer is full. */
  method QueryDtcMode(sent: bool, frames: seq<Frame>, mode: Byte, output: array<string>)
    returns (ok: bool, count: nat)
    requires output.Length == OBD_MAX_DTC
    requires FramesOk(frames)
    modifies output
    ensures ok == sent && count <= OBD_MAX_DTC
    ensures output[..count] == if sent then AppendAll([], AllPairs(frames, mode)) else []
  {
    count := 0;
    if !sent {
      return false, 0;
    }
    count := Receive(frames, Groups(frames, mode), mode, output);
    return true, count;
  }

  // The loop over the received frames.
  method Receive(frames: seq<Frame>, ghost groups: seq<seq<Pair>>, mode: Byte, output: array<string>)
    returns (count: nat)
    requires output.Length == OBD_MAX_DTC && FramesOk(frames) && |groups| == |frames|
    requires forall i {:trigger FramePairs(frames[i], mode)} :: 0 <= i < |frames| ==>
               groups[i] == FramePairs(frames[i], mode)
    modifies output
    ensures count <= OBD_MAX_DTC && output[..count] == AppendAll([], Flatten(groups))
  {
    count := 0;
    var k := 0;
    while k < |frames| && count < OBD_MAX_DTC
      invariant k <= |frames| && count <= OBD_MAX_DTC
      invariant output[..count] == Collected(groups, k)
    {
      count := CollectFrame(frames[k], groups, k, mode, output, count);
      k := k + 1;
    }
    StoppedEarly(groups, k);
  }

  // One pass of that loop.
  method CollectFrame(f: Frame, ghost groups: seq<seq<Pair>>, ghost k: nat, mode: Byte,
                      output: array<string>, count: nat)
    returns (count': nat)
    requires FrameOk(f) && k < |groups| && groups[k] == FramePairs(f, mode)
    requires output.Length == OBD_MAX_DTC && count <= OBD_MAX_DTC
    requires output[..count] == Collected(groups, k)
    modifies output
    ensures count' <= OBD_MAX_DTC && output[..count'] == Collected(groups, k + 1)
  {
    count' := ReadFrame(f, mode, output, count);
  }

  // What one received frame adds.
  method ReadFrame(f: Frame, mode: Byte, output: array<string>, count: nat) returns (count': nat)
    requires FrameOk(f) && output.Length == OBD_MAX_DTC && count <= OBD_MAX_DTC
    modifies output
    ensures count' <= OBD_MAX_DTC
    ensures output[..count'] == AppendAll(old(output[..count]), FramePairs(f, mode))
  {
    if Answers(f, mode) {
      count' := ReadPairs(f, output, count);
    } else {
      count' := count;
    }
  }

  // The inner loop over the pairs of one frame.
  method ReadPairs(f: Frame, output: array<string>, count: nat) returns (count': nat)
    requires FrameOk(f) && output.Length == OBD_MAX_DTC && count <= OBD_MAX_DTC
    modifies output
    ensures count' <= OBD_MAX_DTC
    ensures output[..count'] == AppendAll(old(output[..count]), PairsFrom(f, 2))
  {
    var end := 1 + f.data[0] % 16;
    var i := 2;
    count' := count;
    ghost var before, read: seq<Pair> := output[..count], [];
    assert PairsFrom(f, 2) == read + PairsFrom(f, i);
    while i + 1 <= end && i + 1 < f.dlc
      invariant 2 <= i && count' <= OBD_MAX_DTC
      invariant output[..count'] == AppendAll(before, read)
      invariant PairsFrom(f, 2) == read + PairsFrom(f, i)
      decreases 8 - i
    {
      var p := Pair(f.data[i], f.data[i + 1]);
      var added;
      count', added := AppendUnique(output, count', p);
      NextPair(before, read, p, PairsFrom(f, i + 2));
      read := read + [p];
      i := i + 2;
    }
    assert read + [] == read;
  }

  lemma NextPair(codes: seq<string>, read: seq<Pair>, p: Pair, rest: seq<Pair>)
    ensures AppendAll(codes, read + [p]) == Appended(AppendAll(codes, read), p)
    ensures read + ([p] + rest) == (read + [p]) + rest
  {
    assert (read + [p])[..|read|] == read;
  }

  lemma {:induction false} AppendSplit(codes: seq<string>, x: seq<Pair>, y: seq<Pair>)
    ensures AppendAll(codes, x + y) == AppendAll(AppendAll(codes, x), y)
  {
    if |y| == 0 {
      assert x + y == x;
    } else {
      var n := |y| - 1;
      assert (x + y)[..|x + y| - 1] == x + y[..n];
      AppendSplit(codes, x, y[..n]);
    }
  }

  lemma {:induction false} FullIgnores(codes: seq<string>, pairs: seq<Pair>)
    requires |codes| >= OBD_MAX_DTC
    ensures AppendAll(codes, pairs) == codes
  {
    if |pairs| > 0 {
      FullIgnores(codes, pairs[..|pairs| - 1]);
    }
  }

  // The list after the first `k` frames.
  function Collected(groups: seq<seq<Pair>>, k: nat): seq<string>
    requires k <= |groups|
  {
    if k == 0 then [] else AppendAll(Collected(groups, k - 1), groups[k - 1])
  }

  lemma {:induction false} CollectedIsAll(groups: seq<seq<Pair>>, k: nat)
    requires k <= |groups|
    ensures Collected(groups, k) == AppendAll([], Flatten(groups[..k]))
  {
    if k > 0 {
      CollectedIsAll(groups, k - 1);
      assert groups[..k][..k - 1] == groups[..k - 1];
      AppendSplit([], Flatten(groups[..k - 1]), groups[k - 1]);
    }
  }

  // Frames that are not read any more would not have changed a full list.
  lemma {:induction false} FullStays(groups: seq<seq<Pair>>, k: nat, m: nat)
    requires k <= m <= |groups|
    requires k < m ==> |Collected(groups, k)| >= OBD_MAX_DTC
    ensures Collected(groups, m) == Collected(groups, k)
    decreases m - k
  {
    if m > k {
      FullStays(groups, k, m - 1);
      FullIgnores(Collected(groups, k), groups[m - 1]);
    }
  }

  lemma StoppedEarly(groups: seq<seq<Pair>>, k: nat)
    requires k <= |groups|
    requires k < |groups| ==> |Collected(groups, k)| >= OBD_MAX_DTC
    ensures Collected(groups, k) == AppendAll([], Flatten(groups))
  {
    FullStays(groups, k, |groups|);
    CollectedIsAll(groups, |groups|);
    assert groups[..|groups|] == groups;
  }

  // ----- the first twelve distinct pairs -----

  /** The acceptable pairs, each at its first arrival. */
  function Distinct(pairs: seq<Pair>): seq<Pair> {
    if |pairs| == 0 then []
    else
      var before, p := Distinct(pairs[..|pairs| - 1]), pairs[|pairs| - 1];
      if Acceptable(p) && p !in before then before + [p] else before
  }

  function Codes(pairs: seq<Pair>): (r: seq<string>)
    ensures |r| == |pairs|
    ensures forall i :: 0 <= i < |pairs| ==> r[i] == FormatDtc(pairs[i])
  {
    seq(|pairs|, i requires 0 <= i < |pairs| => FormatDtc(pairs[i]))
  }

  function First<T>(s: seq<T>, n: nat): seq<T> {
    if |s| <= n then s else s[..n]
  }

  lemma CodesContain(pairs: seq<Pair>, p: Pair)
    ensures FormatDtc(p) in Codes(pairs) <==> p in pairs
  {
    if FormatDtc(p) in Codes(pairs) {
      var i :| 0 <= i < |pairs| && Codes(pairs)[i] == FormatDtc(p);
      FormatInjective(pairs[i], p);
      assert pairs[i] in pairs;
    }
    if p in pairs {
      var i :| 0 <= i < |pairs| && pairs[i] == p;
      assert Codes(pairs)[i] in Codes(pairs);
    }
  }

  /** The firmware's list is the codes of the first 12 distinct acceptable pairs, in the order in
      which they arrived. */
  lemma {:induction false} CollectsFirstDistinct(pairs: seq<Pair>)
    ensures AppendAll([], pairs) == Codes(First(Distinct(pairs), 12))
  {
    if |pairs| > 0 {
      var n := |pairs| - 1;
      CollectsFirstDistinct(pairs[..n]);
      CollectOne(Distinct(pairs[..n]), pairs[n]);
    }
  }

  lemma CollectOne(before: seq<Pair>, p: Pair)
    ensures Appended(Codes(First(before, OBD_MAX_DTC)), p)
            == Codes(First(if Acceptable(p) && p !in before then before + [p] else before, OBD_MAX_DTC))
  {
    CodesContain(First(before, OBD_MAX_DTC), p);
    if |before| < OBD_MAX_DTC {
      assert Codes(before + [p]) == Codes(before) + [FormatDtc(p)];
    } else {
      assert First(before + [p], OBD_MAX_DTC) == First(before, OBD_MAX_DTC);
    }
  }

  // ----- which frames and pairs are read -----

  /** A frame contributes pairs exactly when an ECU identifier sent it, it is a single frame of 2 to 7
      bytes, answers the mode, and holds a fourth byte. */
  lemma ContributesIff(f: Frame, mode: Byte)
    requires FrameOk(f) && mode < 192
    ensures |FramePairs(f, mode)| > 0 <==>
            2024 <= f.id <= 2031 && 2 <= f.data[0] <= 7 && f.data[1] == mode + 64 && f.dlc >= 4
  {
  }

  /** The pairs are the bytes from the third on, two by two. */
  lemma {:induction false} PairAt(f: Frame, i: nat, k: nat)
    requires FrameOk(f) && i <= 8 && k < |PairsFrom(f, i)|
    ensures i + 2 * k + 1 < 8 && PairsFrom(f, i)[k] == Pair(f.data[i + 2 * k], f.data[i + 2 * k + 1])
    decreases 8 - i
  {
    if k > 0 {
      PairAt(f, i + 2, k - 1);
    }
  }

  /** A pair is collected exactly when it came, is not 0000, and holds no FF. */
  lemma {:induction false} DistinctHas(pairs: seq<Pair>, p: Pair)
    ensures p in Distinct(pairs) <==>
            p in pairs && p != Pair(0, 0) && p.a != 255 && p.b != 255
  {
    if |pairs| > 0 {
      DistinctHas(pairs[..|pairs| - 1], p);
      assert pairs == pairs[..|pairs| - 1] + [pairs[|pairs| - 1]];
    }
  }

  // The first arrival of a pair.
  ghost predicate ArrivesAt(pairs: seq<Pair>, p: Pair, k: int) {
    0 <= k < |pairs| && pairs[k] == p && p !in pairs[..k]
  }

  /** Collected pairs stand in the order of their first arrivals. */
  lemma {:induction false} DistinctInOrder(pairs: seq<Pair>, i: nat, j: nat, m: int, n: int)
    requires i < j < |Distinct(pairs)|
    requires ArrivesAt(pairs, Distinct(pairs)[i], m) && ArrivesAt(pairs, Distinct(pairs)[j], n)
    ensures m < n
  {
    var last := |pairs| - 1;
    var before := Distinct(pairs[..last]);
    var p, q := Distinct(pairs)[i], Distinct(pairs)[j];
    DistinctHas(pairs, q);
    DistinctHas(pairs[..last], p);
    DistinctHas(pairs[..last], q);
    assert p in before;
    ArrivesBefore(pairs, p, m);
    if j < |before| {
      assert q in before;
      ArrivesBefore(pairs, q, n);
      DistinctInOrder(pairs[..last], i, j, m, n);
    } else {
      assert q == pairs[last] && q !in before;
    }
  }

  lemma {:induction false} ArrivesBefore(pairs: seq<Pair>, p: Pair, k: int)
    requires ArrivesAt(pairs, p, k) && p in pairs[..|pairs| - 1]
    ensures k < |pairs| - 1 && ArrivesAt(pairs[..|pairs| - 1], p, k)
  {
    if k < |pairs| - 1 {
      assert pairs[..|pairs| - 1][..k] == pairs[..k];
    }
  }

  // ----- padding read as a code -----

  // The single frame says that its payload is the bytes 1 to `PayloadLength`.
  function PayloadLength(f: Frame): nat
    requires FrameOk(f)
  {
    f.data[0] % 16
  }

  // The position behind the last byte that is read as part of a pair.
  function ReadUpTo(f: Frame): nat
    requires FrameOk(f)
  {
    2 + 2 * |PairsFrom(f, 2)|
  }

  /** A byte behind the payload is read as part of a code exactly when the payload has an even number of
      bytes and the frame goes on behind it. */
  lemma PaddingReadIff(f: Frame, mode: Byte)
    requires FrameOk(f) && Answers(f, mode)
    ensures |PairsFrom(f, 2)| > 0 && ReadUpTo(f) > 1 + PayloadLength(f) <==>
            PayloadLength(f) % 2 == 0 && f.dlc > 1 + PayloadLength(f)
  {
    PairsCount(f, 2);
  }

  lemma {:induction false} PairsCount(f: Frame, i: nat)
    requires FrameOk(f) && i <= 8
    ensures |PairsFrom(f, i)|
            == (if f.data[0] % 16 < i || f.dlc < i then 0
                else (if f.data[0] % 16 + 1 < f.dlc then f.data[0] % 16 + 2 - i else f.dlc - i) / 2)
    decreases 8 - i
  {
    if i + 1 <= 1 + f.data[0] % 16 && i + 1 < f.dlc {
      if i + 2 <= 8 {
        PairsCount(f, i + 2);
      }
    }
  }

  // The answer of a vehicle without trouble codes: the mode and a count of zero.
  predicate NoCodes(f: Frame, mode: Byte)
    requires FrameOk(f)
  {
    Answers(f, mode) && PayloadLength(f) == 2 && f.data[2] == 0
  }

  // What is collected from such an answer.
  lemma NoCodesCollects(f: Frame, mode: Byte)
    requires FrameOk(f) && NoCodes(f, mode)
    ensures AppendAll([], FramePairs(f, mode))
            == if f.dlc > 3 && Acceptable(Pair(0, f.data[3])) then [FormatDtc(Pair(0, f.data[3]))] else []
  {
    if f.dlc > 3 {
      assert PairsFrom(f, 4) == [];
      assert PairsFrom(f, 2) == [Pair(0, f.data[3])];
      AppendOne(Pair(0, f.data[3]));
    } else {
      assert PairsFrom(f, 2) == [];
    }
  }

  /** "A vehicle that reports no codes gets an empty list" holds exactly when the padding byte is 0 or 255
      or the frame ends with the payload. */
  lemma NoCodesIff(f: Frame, mode: Byte)
    requires FrameOk(f) && NoCodes(f, mode)
    ensures AppendAll([], FramePairs(f, mode)) == [] <==>
            f.dlc == 3 || f.data[3] == 0 || f.data[3] == 255
  {
    NoCodesCollects(f, mode);
  }

  lemma AppendOne(p: Pair)
    ensures AppendAll([], [p]) == if Acceptable(p) then [FormatDtc(p)] else []
  {
    assert [p][..0] == [];
  }

  lemma P0055()
    ensures FormatDtc(Pair(0, 0x55)) == "P0055"
  {
  }

  /** Padding of 0x55 turns the answer "no codes" into P0055, and the cloud keeps it. */
  lemma PhantomCode(f: Frame)
    requires f == Frame(0x7E8, 8, [2, 0x43, 0, 0x55, 0x55, 0x55, 0x55, 0x55])
    ensures NoCodes(f, 3) && AppendAll([], FramePairs(f, 3)) == ["P0055"]
    ensures Cleaned(["P0055"]) == ["P0055"]
  {
    NoCodesCollects(f, 3);
    P0055();
    FilterAccepts(Pair(0, 0x55));
    OneCode(FormatDtc(Pair(0, 0x55)));
  }

  lemma OneCode(code: string)
    requires ValidCode(code)
    ensures Cleaned([code]) == [code]
  {
    CleanedIdentity([code]);
  }

  // ----- _valid_dtc_codes -----

  predicate IsHex(c: char) {
    '0' <= c <= '9' || 'A' <= c <= 'F'
  }

  // The pattern ^[PBCU][0-3][0-9A-F]{3}$
  predicate Matches(code: string) {
    && |code| == 5
    && (code[0] == 'P' || code[0] == 'B' || code[0] == 'C' || code[0] == 'U')
    && '0' <= code[1] <= '3'
    && IsHex(code[2]) && IsHex(code[3]) && IsHex(code[4])
  }

  predicate EndsWithFFF(code: string) {
    |code| >= 3 && code[|code| - 3..] == "FFF"
  }

  predicate ValidCode(code: string) {
    Matches(code) && code != "P0000" && code != "P00FF" && !EndsWithFFF(code)
  }

  function Normal(raw: string): string {
    Upper(Strip(raw))
  }

  /** What `_valid_dtc_codes` makes of a list. */
  function Cleaned(items: seq<string>): (r: seq<string>)
    ensures ValidList(r)
  {
    if |items| == 0 then []
    else
      Kept(Cleaned(items[..|items| - 1]), items[|items| - 1])
  }

  // One step of the filter.
  function Kept(before: seq<string>, raw: string): (r: seq<string>)
    ensures ValidList(before) ==> ValidList(r)
  {
    var code := Normal(raw);
    if ValidCode(code) && code !in before then before + [code] else before
  }

  ghost predicate ValidList(codes: seq<string>) {
    && (forall i :: 0 <= i < |codes| ==> ValidCode(codes[i]))
    && (forall i, j :: 0 <= i < j < |codes| ==> codes[i] != codes[j])
  }

  function CleanedValue(value: Value): seq<string> {
    if value.List? then Cleaned(value.items) else []
  }

  method ValidDtcCodes(value: Value) returns (result: seq<string>)
    ensures result == CleanedValue(value)
  {
    result := [];
    if !value.List? {
      return;
    }
    for i := 0 to |value.items|
      invariant result == Cleaned(value.items[..i])
    {
      CleanedAt(value.items, i);
      var code := Upper(Strip(value.items[i]));
      if Matches(code) && code != "P0000" && code != "P00FF" && !EndsWithFFF(code)
         && code !in result {
        result := result + [code];
      }
    }
    assert value.items[..|value.items|] == value.items;
  }

  lemma CleanedAt(items: seq<string>, i: nat)
    requires i < |items|
    ensures Cleaned(items[..i + 1]) == Kept(Cleaned(items[..i]), items[i])
  {
    assert items[..i + 1][..i] == items[..i];
  }

  lemma NormalIdentity(code: string)
    requires Matches(code)
    ensures Normal(code) == code
  {
    assert !IsSpace(code[0]) && !IsSpace(code[4]);
    StripIdentity(code);
    UpperIdentity(code);
  }

  lemma UpperIdentity(code: string)
    requires Matches(code)
    ensures Upper(code) == code
  {
    var u := Upper(code);
    assert u[0] == code[0] && u[1] == code[1] && u[2] == code[2] && u[3] == code[3] && u[4] == code[4];
  }

  /** The filter returns a list unchanged exactly when its codes are valid and distinct: no code is
      lost, merged or moved. */
  lemma CleanedFixesExactlyValid(codes: seq<string>)
    ensures Cleaned(codes) == codes <==> ValidList(codes)
  {
    if ValidList(codes) {
      CleanedIdentity(codes);
    }
  }

  lemma {:induction false} CleanedIdentity(codes: seq<string>)
    requires ValidList(codes)
    ensures Cleaned(codes) == codes
  {
    if |codes| > 0 {
      var n := |codes| - 1;
      CleanedIdentity(codes[..n]);
      assert codes[n] !in codes[..n];
      CleanedNext(codes[..n], codes[n]);
      assert codes == codes[..n] + [codes[n]];
    }
  }

  lemma CleanedNext(before: seq<string>, code: string)
    requires Cleaned(before) == before && ValidCode(code) && code !in before
    ensures Cleaned(before + [code]) == before + [code]
  {
    KeptValid(before, code);
    assert (before + [code])[..|before|] == before;
  }

  lemma KeptValid(before: seq<string>, code: string)
    requires ValidCode(code) && code !in before
    ensures Kept(before, code) == before + [code]
  {
    NormalIdentity(code);
  }

  // Some item stands for the code once white space and case are normal.
  predicate StandsFor(items: seq<string>, code: string) {
    exists i :: 0 <= i < |items| && Normal(items[i]) == code
  }

  /** A code is in the filtered list exactly when it is valid and some item stands for it. */
  lemma {:induction false} CleanedHas(items: seq<string>, code: string)
    ensures code in Cleaned(items) <==> ValidCode(code) && StandsFor(items, code)
  {
    if |items| > 0 {
      var n := |items| - 1;
      CleanedHas(items[..n], code);
      StandsNext(items, code);
      HasNext(items, code, ValidCode(code));
    }
  }

  lemma {:induction false} HasNext(items: seq<string>, code: string, valid: bool)
    requires |items| > 0 && (valid <==> ValidCode(code))
    ensures code in Cleaned(items) <==>
            code in Cleaned(items[..|items| - 1]) || (valid && Normal(items[|items| - 1]) == code)
  {
    KeptHas(Cleaned(items[..|items| - 1]), items[|items| - 1], code);
  }

  lemma {:induction false} StandsNext(items: seq<string>, code: string)
    requires |items| > 0
    ensures StandsFor(items, code) <==>
            StandsFor(items[..|items| - 1], code) || Normal(items[|items| - 1]) == code
  {
    var n := |items| - 1;
    assert forall i :: 0 <= i < n ==> items[..n][i] == items[i];
  }

  lemma {:induction false} KeptHas(before: seq<string>, raw: string, code: string)
    ensures code in Kept(before, raw) <==> code in before || (ValidCode(code) && Normal(raw) == code)
  {
  }

  /** Filtering twice is filtering once. */
  lemma CleanedIdempotent(items: seq<string>)
    ensures Cleaned(Cleaned(items)) == Cleaned(items)
  {
    CleanedIdentity(Cleaned(items));
  }

  // ----- the whole path -----

  /** The byte pairs whose code the cloud accepts: fewer are rejected than by the firmware. */
  lemma FilterAccepts(p: Pair)
    ensures ValidCode(FormatDtc(p)) <==>
            p != Pair(0, 0) && !(p.b == 255 && (p.a == 0 || p.a % 16 == 15))
    ensures Acceptable(p) ==> ValidCode(FormatDtc(p))
  {
    var code := FormatDtc(p);
    ZeroCodes();
    FormatInjective(p, Pair(0, 0));
    FormatInjective(p, Pair(0, 255));
    EndsIffPadded(p);
  }

  lemma ZeroCodes()
    ensures FormatDtc(Pair(0, 0)) == "P0000" && FormatDtc(Pair(0, 255)) == "P00FF"
  {
  }

  lemma EndsIffPadded(p: Pair)
    ensures EndsWithFFF(FormatDtc(p)) <==> p.a % 16 == 15 && p.b == 255
  {
    var code := FormatDtc(p);
    assert code[2..] == [code[2], code[3], code[4]];
    assert HexDigit(15) == 'F';
    if code[2..] == "FFF" {
      assert code[2..][0] == 'F' && code[2..][1] == 'F' && code[2..][2] == 'F';
      HexDigitInjective(p.a % 16, 15);
      HexDigitInjective(p.b / 16, 15);
      HexDigitInjective(p.b % 16, 15);
    }
  }

  lemma {:induction false} DistinctIsDistinct(pairs: seq<Pair>)
    ensures forall i :: 0 <= i < |Distinct(pairs)| ==> Acceptable(Distinct(pairs)[i])
    ensures forall i, j :: 0 <= i < j < |Distinct(pairs)| ==> Distinct(pairs)[i] != Distinct(pairs)[j]
  {
    if |pairs| > 0 {
      DistinctIsDistinct(pairs[..|pairs| - 1]);
    }
  }

  lemma CodesValid(ps: seq<Pair>)
    requires forall i :: 0 <= i < |ps| ==> Acceptable(ps[i])
    requires forall i, j :: 0 <= i < j < |ps| ==> ps[i] != ps[j]
    ensures ValidList(Codes(ps))
  {
    forall i | 0 <= i < |ps| ensures ValidCode(Codes(ps)[i]) {
      FilterAccepts(ps[i]);
    }
    forall i, j | 0 <= i < j < |ps| ensures Codes(ps)[i] != Codes(ps)[j] {
      FormatInjective(ps[i], ps[j]);
    }
  }

  /** Whatever frames arrive, the cloud keeps the firmware's list of codes as it is. */
  lemma PipelineKeepsCodes(frames: seq<Frame>, mode: Byte)
    requires FramesOk(frames)
    ensures var pairs := AllPairs(frames, mode);
            && AppendAll([], pairs) == Codes(First(Distinct(pairs), OBD_MAX_DTC))
            && Cleaned(AppendAll([], pairs)) == AppendAll([], pairs)
  {
    var pairs := AllPairs(frames, mode);
    CollectsFirstDistinct(pairs);
    DistinctIsDistinct(pairs);
    CodesValid(First(Distinct(pairs), OBD_MAX_DTC));
    CleanedIdentity(AppendAll([], pairs));
  }
}
