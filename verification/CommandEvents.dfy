/** Parsing of the modem's receive block: `_parse_event` and `_event_value` of
    gateway/lilygo-micropython/mqtt_manager.py. */
module CommandEvents {
  import opened Options
  import Text

  const TOPIC_MARKER := "+CMQTTRXTOPIC:"
  const PAYLOAD_MARKER := "+CMQTTRXPAYLOAD:"

  // ----- Python's string operations -----

  predicate OccursAt(text: string, marker: string, i: int) {
    0 <= i && i + |marker| <= |text| && text[i..i + |marker|] == marker
  }

  ghost predicate Free(text: string, marker: string) {
    forall i :: !OccursAt(text, marker, i)
  }

  /** `text.find(marker, from)` */
  function Find(text: string, marker: string, from: nat): (r: int)
    ensures r == -1 || from <= r < |text| || r == from
    decreases |text| - from
  {
    if from + |marker| > |text| then -1
    else if OccursAt(text, marker, from) then from
    else if from == |text| then -1
    else Find(text, marker, from + 1)
  }

  /** `find` returns the first occurrence, and -1 only when there is none. */
  lemma {:induction false} FindIsFirst(text: string, marker: string, from: nat)
    ensures var r := Find(text, marker, from);
            && (r == -1 || (from <= r && OccursAt(text, marker, r)))
            && (forall i :: from <= i && (r == -1 || i < r) ==> !OccursAt(text, marker, i))
    decreases |text| - from
  {
    if from + |marker| <= |text| && !OccursAt(text, marker, from) && from < |text| {
      FindIsFirst(text, marker, from + 1);
    }
  }

  function LastComma(s: string): (r: int)
    ensures -1 <= r < |s|
    ensures r >= 0 ==> s[r] == ','
    ensures forall i :: r < i < |s| ==> s[i] != ','
  {
    if |s| == 0 then -1 else if s[|s| - 1] == ',' then |s| - 1 else LastComma(s[..|s| - 1])
  }

  predicate IsDigit(c: char) {
    '0' <= c <= '9'
  }

  function ParseDigits(s: string): (r: Option<int>)
    ensures r.Some? ==> r.value >= 0
  {
    if |s| == 0 || !IsDigit(s[|s| - 1]) then None
    else
      var d := (s[|s| - 1] as int) - ('0' as int);
      if |s| == 1 then Some(d)
      else
        var high := ParseDigits(s[..|s| - 1]);
        if high.None? then None else Some(10 * high.value + d)
  }

  /** `int(s)`; None stands for the ValueError. */
  function ParseInt(s: string): Option<int> {
    var t := Text.Strip(s);
    if |t| > 0 && (t[0] == '-' || t[0] == '+') then
      var n := ParseDigits(t[1..]);
      if n.None? then None
      else
        var v: int := n.value;
        if t[0] == '-' then Some(-v) else Some(v)
    else
      ParseDigits(t)
  }

  /** `text[lo:hi]` for lo >= 0 */
  function Slice(text: string, lo: nat, hi: int): string {
    var end := if hi < 0 then hi + |text| else if hi > |text| then |text| else hi;
    if lo >= end then "" else text[lo..end]
  }

  function RemoveCR(s: string): (r: string)
    ensures '\r' !in r
  {
    if |s| == 0 then []
    else if s[0] == '\r' then RemoveCR(s[1..])
    else [s[0]] + RemoveCR(s[1..])
  }

  // ----- the parser -----

  function EventValue(text: string, marker: string): Option<string> {
    var position := Find(text, marker, 0);
    if position < 0 then None
    else ValueOnLine(text, position, Find(text, "\n", position))
  }

  // The value behind the header line `text[position..lineEnd]`.
  function ValueOnLine(text: string, position: nat, lineEnd: int): Option<string>
    requires lineEnd < 0 || position <= lineEnd <= |text|
  {
    if lineEnd < 0 then None
    else ValueAfter(text, TagOf(text[position..lineEnd]), lineEnd + 1)
  }

  function ValueAfter(text: string, length: Option<int>, start: nat): Option<string> {
    if length.None? then None else Some(Slice(text, start, start + length.value))
  }

  // `int(line.rsplit(",", 1)[1])`; None stands for either exception.
  function TagOf(line: string): Option<int> {
    var comma := LastComma(line);
    if comma < 0 then None else ParseInt(line[comma + 1..])
  }

  function ParseEvent(event: string): (Option<string>, Option<string>) {
    var text := RemoveCR(event);
    (EventValue(text, TOPIC_MARKER), EventValue(text, PAYLOAD_MARKER))
  }

  // ----- the block the modem writes -----

  predicate AllDigits(s: string) {
    s != [] && forall i :: 0 <= i < |s| ==> IsDigit(s[i])
  }

  function Digits(n: nat): (r: string)
    ensures AllDigits(r)
  {
    var d := [(('0' as int) + n % 10) as char];
    if n < 10 then d else Digits(n / 10) + d
  }

  // The bytes of UTF-8 text, which is what the modem counts.
  function CharBytes(c: char): (r: nat)
    ensures r >= 1 && (r == 1 <==> c as int < 0x80)
  {
    if c as int < 0x80 then 1 else if c as int < 0x800 then 2 else if c as int < 0x10000 then 3 else 4
  }

  function ByteLength(s: string): (r: nat)
    ensures r >= |s|
  {
    if |s| == 0 then 0 else CharBytes(s[0]) + ByteLength(s[1..])
  }

  predicate Ascii(s: string) {
    forall i :: 0 <= i < |s| ==> s[i] as int < 0x80
  }

  // A header line carrying a length.
  function Header(marker: string, digits: string): string {
    marker + " 0," + digits
  }

  function Tagged(marker: string, value: string): string {
    Header(marker, Digits(ByteLength(value)))
  }

  /** A receive block, with any lines before the topic and after the payload. */
  function Block(before: string, topic: string, payload: string, after: string): string {
    before + "\r\n" + (Tagged("+CMQTTRXTOPIC:", topic) + "\r\n" + (topic + "\r\n" +
      (Tagged("+CMQTTRXPAYLOAD:", payload) + "\r\n" + (payload + "\r\n" + after))))
  }

  // The block with `t` and `p` in the place of topic and payload, and without carriage returns at the
  // line ends.
  function PlainBlock(before: string, topic: string, t: string, payload: string, p: string,
                      after: string): string
  {
    before + "\n" + (Tagged(TOPIC_MARKER, topic) + "\n" + (t + "\n" +
      (Tagged(PAYLOAD_MARKER, payload) + "\n" + (p + "\n" + after))))
  }

  // ----- numbers -----

  lemma {:induction false} DigitsParse(n: nat)
    ensures ParseDigits(Digits(n)) == Some(n)
  {
    var s := Digits(n);
    if n >= 10 {
      DigitsParse(n / 10);
      assert s[..|s| - 1] == Digits(n / 10);
    }
  }

  lemma ParseIntOfDigits(s: string)
    requires AllDigits(s)
    ensures ParseInt(s) == ParseDigits(s)
  {
    assert IsDigit(s[0]) && IsDigit(s[|s| - 1]);
    Text.StripIdentity(s);
  }

  lemma {:induction false} ByteLengthExact(s: string)
    ensures ByteLength(s) == |s| <==> Ascii(s)
  {
    if s != [] {
      ByteLengthExact(s[1..]);
      assert Ascii(s) <==> (s[0] as int < 0x80 && Ascii(s[1..]));
    }
  }

  // ----- carriage returns -----

  lemma {:induction false} RemoveCRJoin(a: string, b: string)
    ensures RemoveCR(a + b) == RemoveCR(a) + RemoveCR(b)
  {
    if a == [] {
      assert a + b == b;
    } else {
      assert (a + b)[1..] == a[1..] + b;
      RemoveCRJoin(a[1..], b);
    }
  }

  lemma {:induction false} RemoveCRIdentity(s: string)
    requires '\r' !in s
    ensures RemoveCR(s) == s
  {
    if s != [] {
      RemoveCRIdentity(s[1..]);
    }
  }

  // ----- finding a header -----

  // An occurrence in two joined lines lies within one of them.
  lemma OccursInJoin(a: string, b: string, marker: string, i: int)
    requires marker != [] && '\n' !in marker && OccursAt(a + "\n" + b, marker, i)
    ensures OccursAt(a, marker, i) || OccursAt(b, marker, i - |a| - 1)
  {
    var s := a + "\n" + b;
    assert forall k :: 0 <= k < |marker| ==> s[i..i + |marker|][k] == s[i + k] == marker[k];
    assert forall k :: 0 <= k < |marker| ==> marker[k] != '\n';
    assert s[|a|] == '\n';
    assert forall m :: i <= m < i + |marker| ==> s[m] == marker[m - i];
    if i + |marker| <= |a| {
      assert a[i..i + |marker|] == s[i..i + |marker|];
    } else {
      var j := i - |a| - 1;
      assert b[j..j + |marker|] == s[i..i + |marker|];
    }
  }

  lemma FreeJoin(a: string, b: string, marker: string)
    requires marker != [] && '\n' !in marker && Free(a, marker) && Free(b, marker)
    ensures Free(a + "\n" + b, marker)
  {
    forall i ensures !OccursAt(a + "\n" + b, marker, i) {
      if OccursAt(a + "\n" + b, marker, i) {
        OccursInJoin(a, b, marker, i);
      }
    }
  }

  // A marker right after a line break is found there if the text before it is free of it.
  lemma FindAfter(a: string, marker: string, b: string)
    requires marker != [] && '\n' !in marker && Free(a, marker)
    ensures Find(a + "\n" + (marker + b), marker, 0) == |a| + 1
  {
    var s := a + "\n" + (marker + b);
    assert s[|a| + 1..|a| + 1 + |marker|] == marker;
    assert OccursAt(s, marker, |a| + 1);
    FindIsFirst(s, marker, 0);
    forall i | 0 <= i <= |a| ensures !OccursAt(s, marker, i) {
      if OccursAt(s, marker, i) {
        OccursInJoin(a, marker + b, marker, i);
      }
    }
  }

  lemma FindLineEnd(s: string, from: nat, line: string, rest: string)
    requires from <= |s| && s[from..] == line + "\n" + rest && '\n' !in line
    ensures Find(s, "\n", from) == from + |line|
  {
    var e := from + |line|;
    assert forall i :: 0 <= i < |s| - from ==> s[from + i] == (line + "\n" + rest)[i];
    assert s[e] == '\n' && s[e..e + 1] == "\n";
    assert OccursAt(s, "\n", e);
    FindIsFirst(s, "\n", from);
    forall i | from <= i < e ensures !OccursAt(s, "\n", i) {
      assert s[i] == line[i - from] && s[i..i + 1][0] == s[i];
    }
  }

  lemma HeaderParts(marker: string, d: string)
    requires '\n' !in marker && AllDigits(d)
    ensures var t := Header(marker, d);
            LastComma(t) == |marker| + 2 && t[|marker| + 3..] == d && '\n' !in t
  {
    var t := Header(marker, d);
    assert t[|marker| + 2] == ',';
    assert forall i :: |marker| + 3 <= i < |t| ==> t[i] == d[i - |marker| - 3];
    assert t[|marker| + 3..] == d;
  }

  // Where the parser finds the header line and what follows it.
  lemma HeaderFound(a: string, marker: string, d: string, tail: string)
    requires marker != [] && '\n' !in marker && Free(a, marker) && AllDigits(d)
    ensures var t := Header(marker, d);
            var text := a + "\n" + (t + "\n" + tail);
            Find(text, marker, 0) == |a| + 1 && Find(text, "\n", |a| + 1) == |a| + 1 + |t|
  {
    var t := Header(marker, d);
    var text := a + "\n" + (t + "\n" + tail);
    var rest := " 0," + d + "\n" + tail;
    assert t + "\n" + tail == marker + rest;
    HeaderParts(marker, d);
    FindAfter(a, marker, rest);
    assert text[|a| + 1..] == t + "\n" + tail;
    FindLineEnd(text, |a| + 1, t, tail);
  }

  lemma HeaderTag(marker: string, d: string)
    requires '\n' !in marker && AllDigits(d)
    ensures TagOf(Header(marker, d)) == ParseDigits(d)
  {
    HeaderParts(marker, d);
    ParseIntOfDigits(d);
  }

  lemma Middle(a: string, t: string, tail: string)
    ensures var text := a + "\n" + (t + "\n" + tail);
            && |text| == |a| + |t| + |tail| + 2
            && text[|a| + 1..|a| + 1 + |t|] == t
            && text[|a| + 1 + |t| + 1..] == tail
  {
  }

  lemma EventValueIsSlice(text: string, a: string, marker: string, d: string, n: nat, tail: string)
    requires marker != [] && '\n' !in marker && Free(a, marker)
    requires AllDigits(d) && ParseDigits(d) == Some(n)
    requires text == a + "\n" + (Header(marker, d) + "\n" + tail)
    ensures EventValue(text, marker) == Some(Slice(tail, 0, n))
  {
    var t := Header(marker, d);
    var p := |a| + 1;
    var e := p + |t|;
    assert e < |text| && text[p..e] == t && text[e + 1..] == tail by {
      Middle(a, t, tail);
    }
    assert Find(text, marker, 0) == p && Find(text, "\n", p) == e by {
      HeaderFound(a, marker, d, tail);
    }
    assert ValueOnLine(text, p, e) == Some(Slice(tail, 0, n)) by {
      OnHeader(text, p, e, marker, d, n, tail);
    }
    EventValueAt(text, marker, p, e, Some(Slice(tail, 0, n)));
  }

  lemma EventValueAt(text: string, marker: string, p: nat, e: nat,
                     value: Option<string>)
    requires p <= e < |text| && Find(text, marker, 0) == p && Find(text, "\n", p) == e
    requires ValueOnLine(text, p, e) == value
    ensures EventValue(text, marker) == value
  {
  }

  lemma OnHeader(text: string, p: nat, e: nat, marker: string, d: string, n: nat,
                 tail: string)
    requires p <= e < |text| && text[p..e] == Header(marker, d) && text[e + 1..] == tail
    requires '\n' !in marker && AllDigits(d) && ParseDigits(d) == Some(n)
    ensures ValueOnLine(text, p, e) == Some(Slice(tail, 0, n))
  {
    HeaderTag(marker, d);
    OnLineTail(text, p, e, n, tail);
  }

  lemma OnLineTail(text: string, p: nat, e: nat, n: nat, tail: string)
    requires p <= e < |text| && TagOf(text[p..e]) == Some(n) && text[e + 1..] == tail
    ensures ValueOnLine(text, p, e) == Some(Slice(tail, 0, n))
  {
    OnLine(text, p, e, n);
    SliceOfTail(text, e + 1, tail, n);
  }

  lemma OnLine(text: string, p: nat, e: nat, n: nat)
    requires p <= e < |text| && TagOf(text[p..e]) == Some(n)
    ensures ValueOnLine(text, p, e) == Some(Slice(text, e + 1, e + 1 + n))
  {
    Behind(text, TagOf(text[p..e]), e + 1, n);
  }

  lemma Behind(text: string, tag: Option<int>, start: nat, n: nat)
    requires tag == Some(n)
    ensures ValueAfter(text, tag, start) == Some(Slice(text, start, start + n))
  {
  }

  lemma SliceOfTail(text: string, lo: nat, tail: string, n: nat)
    requires lo <= |text| && text[lo..] == tail
    ensures Slice(text, lo, lo + n) == Slice(tail, 0, n)
  {
  }

  /** A value behind its length tag is read back exactly when the value is ASCII: the modem counts
      bytes, the parser slices characters. */
  lemma TaggedValue(a: string, marker: string, value: string, rest: string)
    requires marker != [] && '\n' !in marker && Free(a, marker)
    ensures var text := a + "\n" + (Tagged(marker, value) + "\n" + (value + "\n" + rest));
            EventValue(text, marker) == Some(value) <==> Ascii(value)
  {
    var tail := value + "\n" + rest;
    DigitsParse(ByteLength(value));
    EventValueIsSlice(a + "\n" + (Tagged(marker, value) + "\n" + tail), a, marker,
                      Digits(ByteLength(value)), ByteLength(value), tail);
    ByteLengthExact(value);
    assert tail[..|value|] == value;
  }

  // ----- the receive block -----

  lemma TopicHeaderHidesNoPayloadMarker(d: string)
    requires AllDigits(d)
    ensures Free(Header(TOPIC_MARKER, d), PAYLOAD_MARKER)
  {
    var t := Header(TOPIC_MARKER, d);
    assert forall i :: |TOPIC_MARKER| + 3 <= i < |t| ==> t[i] == d[i - |TOPIC_MARKER| - 3];
    assert forall i :: 1 <= i < |t| ==> t[i] != '+';
    assert t[8] == 'T';
    forall i ensures !OccursAt(t, PAYLOAD_MARKER, i) {
      assert PAYLOAD_MARKER[0] == '+' && PAYLOAD_MARKER[8] == 'P';
      if 0 <= i && i + |PAYLOAD_MARKER| <= |t| {
        assert t[i..i + |PAYLOAD_MARKER|][0] == t[i] && t[i..i + |PAYLOAD_MARKER|][8] == t[i + 8];
      }
    }
  }

  lemma LineBreak()
    ensures RemoveCR("\r\n") == "\n"
  {
    assert RemoveCR("\n") == "\n" by {
      assert "\n"[1..] == "";
    }
    assert "\r\n"[1..] == "\n";
  }

  // Joining one more line, on both sides of the carriage-return removal.
  lemma RemoveCRLine(a: string, b: string, b': string)
    requires RemoveCR(b) == b'
    ensures RemoveCR(a + "\r\n" + b) == RemoveCR(a) + "\n" + b'
  {
    LineBreak();
    RemoveCRJoin(a + "\r\n", b);
    RemoveCRJoin(a, "\r\n");
  }

  lemma HeaderHasNoCR(marker: string, d: string)
    requires '\r' !in marker && AllDigits(d)
    ensures RemoveCR(Header(marker, d)) == Header(marker, d)
  {
    assert '\r' !in d && '\r' !in " 0,";
    RemoveCRIdentity(Header(marker, d));
  }

  // The tags still count the bytes of the texts as they were.
  lemma BlockIsPlain(before: string, topic: string, payload: string, after: string)
    ensures RemoveCR(Block(before, topic, payload, after))
            == PlainBlock(RemoveCR(before), topic, RemoveCR(topic), payload, RemoveCR(payload),
                          RemoveCR(after))
  {
    var p := Tagged(PAYLOAD_MARKER, payload);
    var t := Tagged(TOPIC_MARKER, topic);
    HeaderHasNoCR(PAYLOAD_MARKER, Digits(ByteLength(payload)));
    HeaderHasNoCR(TOPIC_MARKER, Digits(ByteLength(topic)));
    var r := RemoveCR(payload) + "\n" + RemoveCR(after);
    RemoveCRLine(payload, after, RemoveCR(after));
    RemoveCRLine(p, payload + "\r\n" + after, r);
    RemoveCRLine(topic, p + "\r\n" + (payload + "\r\n" + after), p + "\n" + r);
    RemoveCRLine(t, topic + "\r\n" + (p + "\r\n" + (payload + "\r\n" + after)),
                 RemoveCR(topic) + "\n" + (p + "\n" + r));
    RemoveCRLine(before, t + "\r\n" + (topic + "\r\n" + (p + "\r\n" + (payload + "\r\n" + after))),
                 t + "\n" + (RemoveCR(topic) + "\n" + (p + "\n" + r)));
  }

  lemma TopicRead(before: string, topic: string, payload: string, p: string,
                  after: string)
    requires Free(before, TOPIC_MARKER)
    ensures EventValue(PlainBlock(before, topic, topic, payload, p, after), TOPIC_MARKER) == Some(topic)
            <==> Ascii(topic)
  {
    TaggedValue(before, TOPIC_MARKER, topic,
                Tagged(PAYLOAD_MARKER, payload) + "\n" + (p + "\n" + after));
  }

  // The text before the payload header, and the block regrouped around it.
  lemma PayloadRead(before: string, topic: string, t: string, payload: string,
                    after: string)
    requires Free(before, PAYLOAD_MARKER) && Free(t, PAYLOAD_MARKER)
    ensures var text := PlainBlock(before, topic, t, payload, payload, after);
            EventValue(text, PAYLOAD_MARKER) == Some(payload) <==> Ascii(payload)
  {
    var header := Tagged(TOPIC_MARKER, topic);
    var rest := Tagged(PAYLOAD_MARKER, payload) + "\n" + (payload + "\n" + after);
    TopicHeaderHidesNoPayloadMarker(Digits(ByteLength(topic)));
    FreeJoin(before, header, PAYLOAD_MARKER);
    FreeJoin(before + "\n" + header, t, PAYLOAD_MARKER);
    Regroup(before, header, t, rest);
    TaggedValue(before + "\n" + header + "\n" + t, PAYLOAD_MARKER, payload, after);
  }

  lemma Regroup(a: string, b: string, c: string, d: string)
    ensures a + "\n" + (b + "\n" + (c + "\n" + d)) == (a + "\n" + b + "\n" + c) + "\n" + d
  {
  }

  // A value is cut out of the text, so it holds nothing that the text does not hold.
  lemma AfterWithin(text: string, length: Option<int>, start: nat, c: char)
    requires c !in text
    ensures ValueAfter(text, length, start).Some? ==> c !in ValueAfter(text, length, start).value
  {
  }

  lemma OnLineWithin(text: string, p: nat, e: int, c: char)
    requires c !in text && (e < 0 || p <= e <= |text|)
    ensures ValueOnLine(text, p, e).Some? ==> c !in ValueOnLine(text, p, e).value
  {
    if e >= 0 {
      AfterWithin(text, TagOf(text[p..e]), e + 1, c);
    }
  }

  lemma ValueWithin(text: string, marker: string, c: char)
    requires c !in text && EventValue(text, marker).Some?
    ensures c !in EventValue(text, marker).value
  {
    var p := Find(text, marker, 0);
    OnLineWithin(text, p, Find(text, "\n", p), c);
  }

  lemma TopicParsesBack(before: string, topic: string, payload: string, after: string)
    requires Free(RemoveCR(before), TOPIC_MARKER)
    ensures ParseEvent(Block(before, topic, payload, after)).0 == Some(topic)
            <==> Ascii(topic) && '\r' !in topic
  {
    var text := RemoveCR(Block(before, topic, payload, after));
    if '\r' in topic {
      NotRead(text, TOPIC_MARKER, topic);
    } else {
      BlockIsPlain(before, topic, payload, after);
      RemoveCRIdentity(topic);
      TopicRead(RemoveCR(before), topic, payload, RemoveCR(payload), RemoveCR(after));
    }
  }

  lemma PayloadParsesBack(before: string, topic: string, payload: string,
                          after: string)
    requires Free(RemoveCR(before), PAYLOAD_MARKER) && Free(RemoveCR(topic), PAYLOAD_MARKER)
    ensures ParseEvent(Block(before, topic, payload, after)).1 == Some(payload)
            <==> Ascii(payload) && '\r' !in payload
  {
    var text := RemoveCR(Block(before, topic, payload, after));
    if '\r' in payload {
      NotRead(text, PAYLOAD_MARKER, payload);
    } else {
      BlockIsPlain(before, topic, payload, after);
      RemoveCRIdentity(payload);
      PayloadRead(RemoveCR(before), topic, RemoveCR(topic), payload, RemoveCR(after));
    }
  }

  lemma NotRead(text: string, marker: string, value: string)
    requires '\r' !in text && '\r' in value
    ensures EventValue(text, marker) != Some(value)
  {
    if EventValue(text, marker).Some? {
      ValueWithin(text, marker, '\r');
    }
  }

  /** `_parse_event` on a receive block returns the topic exactly when the topic is ASCII and holds no
      carriage return, and the same for the payload.  The payload may hold line feeds and either marker;
      the topic may hold anything but the payload marker. */
  lemma CommandParsesBack(before: string, topic: string, payload: string, after: string)
    requires Free(RemoveCR(before), TOPIC_MARKER) && Free(RemoveCR(before), PAYLOAD_MARKER)
    requires Free(RemoveCR(topic), PAYLOAD_MARKER)
    ensures var (t, p) := ParseEvent(Block(before, topic, payload, after));
            && (t == Some(topic) <==> Ascii(topic) && '\r' !in topic)
            && (p == Some(payload) <==> Ascii(payload) && '\r' !in payload)
  {
    TopicParsesBack(before, topic, payload, after);
    PayloadParsesBack(before, topic, payload, after);
  }

  /** A payload of two lines that end as on Windows is shortened, and does not come back. */
  lemma WindowsLinesLost(topic: string)
    requires Free(RemoveCR(topic), PAYLOAD_MARKER)
    ensures ParseEvent(Block("", topic, "{\r\n}", "")).1 != Some("{\r\n}")
  {
    assert "{\r\n}"[1] == '\r';
    NotRead(RemoveCR(Block("", topic, "{\r\n}", "")), PAYLOAD_MARKER, "{\r\n}");
  }
}
