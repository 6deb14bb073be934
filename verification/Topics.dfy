/** Topics and message kinds of gateway/lilygo-micropython/mqtt_manager.py.

    `parsed` is the JSON object of a client message; a key is mapped to the text that `str()`
    gives for its value. */
module Topics {
  import opened Text

  const MQTT_TOPIC_PREFIX := "dt/iiot-lab/factory1"
  const MQTT_RESPONSE_TOPIC := "cmd/iiot-lab/factory1" + "/gateway/lte-gw-01" + "/response"

  datatype Kind = Event | Response | Diagnostic | Fast | Slow | Telemetry

  type Parsed = map<string, string>

  function Get(parsed: Parsed, key: string, default: string): string {
    if key in parsed then parsed[key] else default
  }

  function MessageKind(parsed: Parsed): Kind {
    var messageType := Lower(Get(parsed, "message_type", "telemetry"));
    var dataClass := Lower(Get(parsed, "data_class", ""));
    if messageType == "event" || dataClass == "event" then Event
    else if messageType == "diagnostic" || dataClass == "diagnostic" then Diagnostic
    else if dataClass == "fast" then Fast
    else if dataClass == "slow" then Slow
    else Telemetry
  }

  // The last topic level.  `_topic` decides it on its own, without calling `_message_kind`.
  function TopicSuffix(parsed: Parsed): string {
    var messageType := Lower(Get(parsed, "message_type", "telemetry"));
    var dataClass := Lower(Get(parsed, "data_class", ""));
    if messageType == "event" || dataClass == "event" then "event"
    else if messageType == "diagnostic" || dataClass == "diagnostic" then "diagnostic"
    else if dataClass == "fast" then "telemetry/fast"
    else if dataClass == "slow" then "telemetry/slow"
    else "telemetry"
  }

  // ----- _safe -----

  const MAX_SLUG := 40

  predicate IsSlugChar(c: char) {
    '0' <= c <= '9' || 'a' <= c <= 'z' || c == '-'
  }

  predicate IsSlug(s: string) {
    1 <= |s| <= MAX_SLUG && forall i :: 0 <= i < |s| ==> IsSlugChar(s[i])
  }

  function CleanChar(c: char): char {
    if IsSlugChar(c) then c else '-'
  }

  function Clean(s: string): (r: string)
    ensures |r| == |s|
    ensures forall i :: 0 <= i < |s| ==> r[i] == CleanChar(s[i])
  {
    seq(|s|, i requires 0 <= i < |s| => CleanChar(s[i]))
  }

  function UnknownSlug(): (r: string)
    ensures IsSlug(r)
  {
    "unknown"
  }

  /** What `_safe` returns. */
  function Slug(value: string): (r: string)
    ensures IsSlug(r)
  {
    var cleaned := Clean(Lower(Strip(value)));
    var cut := if |cleaned| > MAX_SLUG then cleaned[..MAX_SLUG] else cleaned;
    if |cut| == 0 then UnknownSlug() else cut
  }

  method Safe(value: string) returns (r: string)
    ensures r == Slug(value)
    ensures IsSlug(r)
  {
    var lowered := Lower(Strip(value));
    var result := CleanLoop(lowered);
    r := if |result| > MAX_SLUG then result[..MAX_SLUG] else result;
    if |r| == 0 {
      r := UnknownSlug();
    }
  }

  // The loop of `_safe`.
  method CleanLoop(lowered: string) returns (result: string)
    ensures result == Clean(lowered)
  {
    result := [];
    for i := 0 to |lowered|
      invariant |result| == i
      invariant forall k :: 0 <= k < i ==> result[k] == CleanChar(lowered[k])
    {
      var c := lowered[i];
      var valid := '0' <= c <= '9' || 'a' <= c <= 'z' || c == '-';
      result := result + [if valid then c else '-'];
    }
  }

  /** `_safe` returns every slug unchanged, and everything it returns is a slug: it is a
      projection onto the slugs. */
  lemma SlugFixesExactlySlugs(value: string)
    ensures Slug(value) == value <==> IsSlug(value)
  {
    if IsSlug(value) {
      StripIdentity(value);
      LowerFixesSlug(value);
      CleanFixesSlug(value);
    }
  }

  /** Character for character: what is left of the text without white space at its ends, in lower case,
      with a hyphen for everything that is not a slug character, cut after 40 characters. */
  lemma SlugAt(value: string, i: nat)
    ensures |Strip(value)| == 0 ==> Slug(value) == "unknown"
    ensures |Strip(value)| > 0 ==>
              |Slug(value)| == (if |Strip(value)| < 40 then |Strip(value)| else 40)
    ensures |Strip(value)| > 0 && i < |Slug(value)| ==>
              var c := LowerChar(Strip(value)[i]);
              Slug(value)[i] == if '0' <= c <= '9' || 'a' <= c <= 'z' || c == '-' then c else '-'
  {
  }

  lemma LowerFixesSlug(s: string)
    requires IsSlug(s)
    ensures Lower(s) == s
  {
  }

  lemma CleanFixesSlug(s: string)
    requires IsSlug(s)
    ensures Clean(s) == s
  {
  }

  lemma SlugIdempotent(value: string)
    ensures Slug(Slug(value)) == Slug(value)
  {
    SlugFixesExactlySlugs(Slug(value));
  }

  // ----- _topic -----

  // One level: the first of two keys that is present, or a default that `_safe` leaves alone.
  function Level(parsed: Parsed, key: string, other: string, default: string): (r: string)
    requires IsSlug(default)
    ensures IsSlug(r)
  {
    if key in parsed then Slug(parsed[key])
    else if other in parsed then Slug(parsed[other])
    else default
  }

  function AreaOf(parsed: Parsed): string {
    Level(parsed, "area", "site", "process")
  }

  function TypeOf(parsed: Parsed): string {
    Level(parsed, "device_type", "device_type", "device")
  }

  function IdOf(parsed: Parsed): string {
    Level(parsed, "device_id", "node_id", "unknown")
  }

  /** Each level is what `_safe` makes of the value that `get` finds, default included. */
  lemma LevelIsSlug(parsed: Parsed, key: string, other: string, default: string)
    requires IsSlug(default)
    ensures Level(parsed, key, other, default) == Slug(Get(parsed, key, Get(parsed, other, default)))
  {
    SlugFixesExactlySlugs(default);
  }

  // The levels below the prefix.
  function Levels(area: string, deviceType: string, id: string, suffix: string): string {
    area + "/" + (deviceType + "/" + (id + "/" + suffix))
  }

  function Path(parsed: Parsed): string {
    Levels(AreaOf(parsed), TypeOf(parsed), IdOf(parsed), TopicSuffix(parsed))
  }

  function Topic(parsed: Parsed): string {
    MQTT_TOPIC_PREFIX + "/" + Path(parsed)
  }

  lemma FirstLevel(a: string, b: string, x: string, y: string)
    requires '/' !in a && '/' !in b
    requires a + "/" + x == b + "/" + y
    ensures a == b && x == y
  {
    var s := a + "/" + x;
    var t := b + "/" + y;
    assert s[|a|] == '/' && t[|b|] == '/';
    assert forall i :: 0 <= i < |a| ==> s[i] == a[i];
    assert forall i :: 0 <= i < |b| ==> t[i] == b[i];
    assert a == s[..|a|] && x == s[|a| + 1..];
    assert b == t[..|b|] && y == t[|b| + 1..];
  }

  /** `_topic` and `_message_kind` take the same decision, although each takes it separately. */
  lemma SuffixNamesKind(p: Parsed, q: Parsed)
    ensures TopicSuffix(p) == TopicSuffix(q) <==> MessageKind(p) == MessageKind(q)
  {
    assert "telemetry/fast"[10] != "telemetry/slow"[10];
    assert "event" != "diagnostic" && |"event"| != |"telemetry"|;
  }

  // One of the two fields that name a message says `word`, in any case.
  predicate Says(p: Parsed, word: string) {
    Lower(Get(p, "message_type", "telemetry")) == word || Lower(Get(p, "data_class", "")) == word
  }

  /** "event" in either field wins over everything, then "diagnostic" in either field; "fast" and "slow"
      count in the data class only, and anything else is telemetry. */
  lemma KindIff(p: Parsed)
    ensures MessageKind(p) == Event <==> Says(p, "event")
    ensures MessageKind(p) == Diagnostic <==> Says(p, "diagnostic") && !Says(p, "event")
    ensures MessageKind(p) == Fast <==>
              !Says(p, "event") && !Says(p, "diagnostic") && Lower(Get(p, "data_class", "")) == "fast"
    ensures MessageKind(p) == Slow <==>
              !Says(p, "event") && !Says(p, "diagnostic") && Lower(Get(p, "data_class", "")) == "slow"
  {
    assert "fast"[0] != "slow"[0];
  }

  function KindText(kind: Kind): string {
    match kind
    case Event => "event"
    case Response => "response"
    case Diagnostic => "diagnostic"
    case Fast => "telemetry/fast"
    case Slow => "telemetry/slow"
    case Telemetry => "telemetry"
  }

  lemma SuffixIs(p: Parsed)
    ensures TopicSuffix(p) == KindText(MessageKind(p))
  {
  }

  /** The levels of the topic, from the fields of the message and its kind. */
  lemma TopicIs(p: Parsed)
    ensures Topic(p) == MQTT_TOPIC_PREFIX + "/" + Path(p)
    ensures Path(p) == Levels(AreaOf(p), TypeOf(p), IdOf(p), KindText(MessageKind(p)))
    ensures AreaOf(p) == Slug(Get(p, "area", Get(p, "site", "process")))
    ensures TypeOf(p) == Slug(Get(p, "device_type", "device"))
    ensures IdOf(p) == Slug(Get(p, "device_id", Get(p, "node_id", "unknown")))
  {
    LevelsAre(p);
    SuffixIs(p);
  }

  lemma LevelsAre(p: Parsed)
    ensures AreaOf(p) == Slug(Get(p, "area", Get(p, "site", "process")))
    ensures TypeOf(p) == Slug(Get(p, "device_type", "device"))
    ensures IdOf(p) == Slug(Get(p, "device_id", Get(p, "node_id", "unknown")))
  {
    AreaIs(p);
    TypeIs(p);
    IdIs(p);
  }

  lemma AreaIs(p: Parsed)
    ensures AreaOf(p) == Slug(Get(p, "area", Get(p, "site", "process")))
  {
    LevelIsSlug(p, "area", "site", "process");
  }

  lemma TypeIs(p: Parsed)
    ensures TypeOf(p) == Slug(Get(p, "device_type", "device"))
  {
    LevelIsSlug(p, "device_type", "device_type", "device");
  }

  lemma IdIs(p: Parsed)
    ensures IdOf(p) == Slug(Get(p, "device_id", Get(p, "node_id", "unknown")))
  {
    LevelIsSlug(p, "device_id", "node_id", "unknown");
  }

  /** Two messages share a topic exactly when area, device type, device id and kind agree. */
  lemma TopicInjective(p: Parsed, q: Parsed)
    ensures Topic(p) == Topic(q) <==>
            AreaOf(p) == AreaOf(q) && TypeOf(p) == TypeOf(q) && IdOf(p) == IdOf(q)
            && MessageKind(p) == MessageKind(q)
  {
    SuffixNamesKind(p, q);
    SamePrefix(MQTT_TOPIC_PREFIX + "/", Path(p), Path(q));
    if Path(p) == Path(q) {
      LevelsInjective(AreaOf(p), AreaOf(q), TypeOf(p), TypeOf(q), IdOf(p), IdOf(q),
                      TopicSuffix(p), TopicSuffix(q));
    }
  }

  lemma SamePrefix(prefix: string, x: string, y: string)
    ensures prefix + x == prefix + y <==> x == y
  {
    assert (prefix + x)[|prefix|..] == x;
    assert (prefix + y)[|prefix|..] == y;
  }

  lemma LevelsInjective(a: string, a': string, b: string, b': string, c: string, c': string,
                        x: string, x': string)
    requires IsSlug(a) && IsSlug(a') && IsSlug(b) && IsSlug(b') && IsSlug(c) && IsSlug(c')
    requires a + "/" + (b + "/" + (c + "/" + x)) == a' + "/" + (b' + "/" + (c' + "/" + x'))
    ensures a == a' && b == b' && c == c' && x == x'
  {
    FirstLevel(a, a', b + "/" + (c + "/" + x), b' + "/" + (c' + "/" + x'));
    FirstLevel(b, b', c + "/" + x, c' + "/" + x');
    FirstLevel(c, c', x, x');
  }

  /** No client message can be published on the topic of the command responses. */
  lemma ResponseTopicReserved(p: Parsed)
    ensures Topic(p) != MQTT_RESPONSE_TOPIC
  {
    TopicStartsWithD(p);
    ResponseStartsWithC();
  }

  lemma TopicStartsWithD(p: Parsed)
    ensures Topic(p) != [] && Topic(p)[0] == 'd'
  {
    FirstChar(MQTT_TOPIC_PREFIX, "/", Path(p));
  }

  lemma ResponseStartsWithC()
    ensures MQTT_RESPONSE_TOPIC[0] == 'c'
  {
    FirstChar("cmd/iiot-lab/factory1", "/gateway/lte-gw-01", "/response");
  }

  lemma FirstChar(s: string, t: string, u: string)
    requires s != []
    ensures (s + t + u)[0] == s[0]
  {
  }

  lemma ClientKindIsNotResponse(p: Parsed)
    ensures MessageKind(p) != Response
  {
  }
}
