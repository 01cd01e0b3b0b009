/** kafka/kafka.go: the topic pipeline trim, map, filter, prefix, and the topics its callers build. */
module Topics {
  import opened Prelude

  const PREFIX := "bz."

  /** The characters the sanitising expression `[^a-zA-Z0-9._-]` leaves alone. */
  predicate Allowed(c: char) {
    'a' <= c <= 'z' || 'A' <= c <= 'Z' || '0' <= c <= '9' || c == '.' || c == '_' || c == '-'
  }

  predicate AllAllowed(s: string) {
    forall i :: 0 <= i < |s| ==> Allowed(s[i])
  }

  function TrimSlash(s: string): string {
    if s != "" && s[0] == '/' then s[1..] else s
  }

  function SlashesToDots(s: string): string {
    if s == "" then "" else [if s[0] == '/' then '.' else s[0]] + SlashesToDots(s[1..])
  }

  function DropOthers(s: string): string {
    if s == "" then "" else if Allowed(s[0]) then [s[0]] + DropOthers(s[1..]) else DropOthers(s[1..])
  }

  /** The map and filter passes without the trim. */
  function Clean(s: string): string {
    DropOthers(SlashesToDots(s))
  }

  /** The cleaned body of a topic, before the prefix test. */
  function Body(topic: string): string {
    Clean(TrimSlash(topic))
  }

  function SanitizeTopic(topic: string): string {
    var body := Body(topic);
    if PREFIX <= body then body else PREFIX + body
  }

  /** Kafka-safe normal form, stated without the pipeline. */
  predicate Normal(t: string) {
    PREFIX <= t && AllAllowed(t)
  }

  // ----- the passes -------------------------------------------------------------------------

  lemma {:induction false} SlashesAppend(a: string, b: string)
    ensures SlashesToDots(a + b) == SlashesToDots(a) + SlashesToDots(b)
  {
    if a == "" {
      assert a + b == b;
    } else {
      SlashesAppend(a[1..], b);
      assert (a + b)[1..] == a[1..] + b;
    }
  }

  lemma {:induction false} DropAppend(a: string, b: string)
    ensures DropOthers(a + b) == DropOthers(a) + DropOthers(b)
  {
    if a == "" {
      assert a + b == b;
    } else {
      DropAppend(a[1..], b);
      assert (a + b)[1..] == a[1..] + b;
    }
  }

  /** Both passes distribute over concatenation. */
  lemma CleanAppend(a: string, b: string)
    ensures Clean(a + b) == Clean(a) + Clean(b)
  {
    SlashesAppend(a, b);
    DropAppend(SlashesToDots(a), SlashesToDots(b));
  }

  /** What cleaning does to each character, wherever it stands: a slash becomes a dot, an allowed
      character stays, any other is dropped. */
  lemma CleanEachCharacter(before: string, c: char, after: string)
    ensures Clean(before + [c] + after) ==
            Clean(before) + (if c == '/' then "." else if Allowed(c) then [c] else "") + Clean(after)
  {
    CleanAppend(before + [c], after);
    CleanAppend(before, [c]);
    CleanOne(c);
  }

  lemma CleanOne(c: char)
    ensures Clean([c]) == if c == '/' then "." else if Allowed(c) then [c] else ""
  {
    var d := if c == '/' then '.' else c;
    assert [c][1..] == "" && [d][1..] == "";
    assert SlashesToDots([c]) == [d] + SlashesToDots("") == [d];
    assert DropOthers("") == "";
    assert DropOthers([d]) == if Allowed(d) then [d] + "" else "";
  }

  /** Exactly one leading slash is ignored; a second one counts. */
  lemma LeadingSlashIgnoredOnce(topic: string)
    ensures Body("/" + topic) == Clean(topic)
    ensures topic == "" || topic[0] != '/' ==> SanitizeTopic("/" + topic) == SanitizeTopic(topic)
    ensures SanitizeTopic("//" + topic) == PREFIX + ("." + Clean(topic))
  {
    assert ("/" + topic)[1..] == topic;
    assert ("//" + topic)[1..] == "/" + topic;
    CleanEachCharacter("", '/', topic);
    assert "" + ['/'] + topic == "/" + topic && "" + "." == ".";
    assert Body("//" + topic) == "." + Clean(topic);
  }

  lemma {:induction false} CleanIsAllowed(s: string)
    ensures AllAllowed(Clean(s)) && |Clean(s)| <= |s|
  {
    if s == "" {
    } else {
      CleanIsAllowed(s[1..]);
    }
  }

  lemma {:induction false} CleanKeepsAllowed(s: string)
    requires AllAllowed(s)
    ensures Clean(s) == s
  {
    if s == "" {
    } else {
      CleanKeepsAllowed(s[1..]);
      assert s == [s[0]] + s[1..];
    }
  }

  /** A leading slash is trimmed from the front only, so a body that starts otherwise is just cleaned. */
  lemma BodyOf(head: string, tail: string)
    requires head != "" && AllAllowed(head)
    ensures Body(head + tail) == head + Clean(tail)
  {
    assert (head + tail)[0] == head[0];
    CleanAppend(head, tail);
    CleanKeepsAllowed(head);
  }

  // ----- normal form ------------------------------------------------------------------------

  lemma SanitizeIsNormal(topic: string)
    ensures Normal(SanitizeTopic(topic))
  {
    CleanIsAllowed(TrimSlash(topic));
  }

  /** The image of the sanitizer, its fixed points and the normal forms are one and the same set. */
  lemma NormalForm(t: string)
    ensures Normal(t) <==> SanitizeTopic(t) == t
    ensures Normal(t) <==> exists s :: SanitizeTopic(s) == t
  {
    if Normal(t) {
      assert t[0] == 'b';
      CleanKeepsAllowed(t);
      assert SanitizeTopic(t) == t;
    }
    forall s | SanitizeTopic(s) == t ensures Normal(t) {
      SanitizeIsNormal(s);
    }
  }

  /** `Publish` sanitises what `SaveToDBWithError` already sanitised, to no effect. */
  lemma Idempotent(topic: string)
    ensures SanitizeTopic(SanitizeTopic(topic)) == SanitizeTopic(topic)
  {
    SanitizeIsNormal(topic);
    NormalForm(SanitizeTopic(topic));
  }

  /** The sanitizer adds at most the prefix, and adds it in full exactly when nothing was removed
      and the prefix was missing. */
  lemma LengthBound(topic: string)
    ensures |SanitizeTopic(topic)| <= |topic| + |PREFIX|
    ensures |SanitizeTopic(topic)| == |topic| + |PREFIX|
            <==> |Body(topic)| == |topic| && !(PREFIX <= Body(topic))
  {
    CleanIsAllowed(TrimSlash(topic));
  }

  // ----- collisions -------------------------------------------------------------------------

  /** Exactly which inputs share a topic. */
  lemma CollideIff(a: string, b: string)
    ensures SanitizeTopic(a) == SanitizeTopic(b) <==>
            || Body(a) == Body(b)
            || (Body(a) == PREFIX + Body(b) && !(PREFIX <= Body(b)))
            || (Body(b) == PREFIX + Body(a) && !(PREFIX <= Body(a)))
  {
    assert (PREFIX + Body(a))[|PREFIX|..] == Body(a);
    assert (PREFIX + Body(b))[|PREFIX|..] == Body(b);
  }

  /** Differing by one leading prefix is not enough to collide: the shorter body must lack it. */
  lemma OnePrefixApartNeedNotCollide(x: string)
    requires AllAllowed(x)
    ensures Body(PREFIX + (PREFIX + x)) == PREFIX + Body(PREFIX + x)
    ensures SanitizeTopic(PREFIX + (PREFIX + x)) != SanitizeTopic(PREFIX + x)
  {
    BodyOf(PREFIX, x);
    BodyOf(PREFIX, PREFIX + x);
    CleanKeepsAllowed(x);
    CleanKeepsAllowed(PREFIX + x);
  }

  // ----- the topic families -----------------------------------------------------------------

  /** snmpclient/snmp.go:265, then `Publish`. */
  function SnmpTopic(op: string, source: string): string {
    SanitizeTopic("snmp." + op + "." + SanitizeTopic(source))
  }

  /** mqttclient/mqtt.go:52, then `Publish`. */
  function MqttTopic(topic: string): string {
    SanitizeTopic("mq." + topic)
  }

  /** coap/coap.go:146, then `Publish`. */
  function CoapTopic(path: string): string {
    SanitizeTopic("coap" + path)
  }

  /** db/database.go:342-343, then `Publish`. */
  function HttpTopic(url: string): string {
    SanitizeTopic(SanitizeTopic(url))
  }

  /** A topic built on a clean head that does not start like the prefix keeps its head. */
  lemma HeadIsKept(head: string, tail: string)
    requires head != "" && AllAllowed(head) && head[0] != 'b'
    ensures SanitizeTopic(head + tail) == PREFIX + (head + Clean(tail))
  {
    BodyOf(head, tail);
    assert Body(head + tail)[0] == head[0];
  }

  lemma SnmpTail(op: string, san: string)
    requires AllAllowed(san)
    ensures Clean(op + "." + san) == Clean(op) + "." + san
  {
    CleanAppend(op + ".", san);
    CleanAppend(op, ".");
    CleanKeepsAllowed(".");
    CleanKeepsAllowed(san);
  }

  lemma SnmpTopicShape(op: string, source: string)
    ensures SnmpTopic(op, source) == "bz." + ("snmp." + (Clean(op) + "." + SanitizeTopic(source)))
    ensures AllAllowed(op) ==> Clean(op) == op
  {
    var san := SanitizeTopic(source);
    SanitizeIsNormal(source);
    HeadIsKept("snmp.", op + "." + san);
    assert "snmp." + op + "." + san == "snmp." + (op + "." + san);
    SnmpTail(op, san);
    if AllAllowed(op) {
      CleanKeepsAllowed(op);
    }
  }

  lemma MqttTopicShape(topic: string)
    ensures MqttTopic(topic) == "bz." + ("mq." + Clean(topic))
  {
    HeadIsKept("mq.", topic);
  }

  lemma CoapTopicShape(path: string)
    ensures CoapTopic(path) == "bz." + ("coap" + Clean(path))
  {
    HeadIsKept("coap", path);
  }

  /** The three device families never share a topic. */
  lemma FamiliesDisjoint(op: string, source: string, topic: string, path: string)
    ensures SnmpTopic(op, source) != MqttTopic(topic)
    ensures SnmpTopic(op, source) != CoapTopic(path)
    ensures MqttTopic(topic) != CoapTopic(path)
  {
    SnmpTopicShape(op, source);
    MqttTopicShape(topic);
    CoapTopicShape(path);
    assert SnmpTopic(op, source)[3] == 's' && MqttTopic(topic)[3] == 'm' && CoapTopic(path)[3] == 'c';
  }

  /** Within one operation, SNMP sources share a topic exactly when they sanitise alike. */
  lemma SnmpSourcesCollideIff(op: string, a: string, b: string)
    ensures SnmpTopic(op, a) == SnmpTopic(op, b) <==> SanitizeTopic(a) == SanitizeTopic(b)
  {
    SnmpTopicShape(op, a);
    SnmpTopicShape(op, b);
    var tail := x => Clean(op) + "." + x;
    HeadCancels(PREFIX, "snmp." + tail(SanitizeTopic(a)), "snmp." + tail(SanitizeTopic(b)));
    HeadCancels("snmp.", tail(SanitizeTopic(a)), tail(SanitizeTopic(b)));
    HeadCancels(Clean(op) + ".", SanitizeTopic(a), SanitizeTopic(b));
  }

  lemma HeadCancels(head: string, a: string, b: string)
    ensures head + a == head + b <==> a == b
  {
    assert (head + a)[|head|..] == a && (head + b)[|head|..] == b;
  }

  lemma PrefixCancels(head: string, a: string, b: string)
    ensures head + a <= head + b <==> a <= b
  {
    assert (head + a)[|head|..] == a && (head + b)[|head|..] == b;
    if head + a <= head + b {
      assert (head + b)[|head|..][..|a|] == (head + b)[..|head + a|][|head|..];
    }
    if a <= b {
      assert head + b == head + a + b[|a|..];
    }
  }

  /** HTTP records are not a fourth family: a url can land in any family `bz.` + `family`, and this
      says exactly when. */
  lemma HttpEntersFamilyIff(family: string, url: string)
    ensures PREFIX + family <= HttpTopic(url) <==>
            if PREFIX <= Body(url) then PREFIX + family <= Body(url) else family <= Body(url)
  {
    Idempotent(url);
    PrefixCancels(PREFIX, family, Body(url));
  }

  // ----- the characters ---------------------------------------------------------------------

  const OTHERS := "0123456789._-"

  /** The characters of the expression `[a-zA-Z0-9._-]`, one by one. */
  lemma AllowedCharacters(c: char)
    ensures Allowed(c) <==> c in LOWER || c in UPPER || c in OTHERS
  {
    if 'a' <= c <= 'z' {
      assert LOWER[c as int - 'a' as int] == c;
    } else if 'A' <= c <= 'Z' {
      assert UPPER[c as int - 'A' as int] == c;
    } else if '0' <= c <= '9' {
      assert OTHERS[c as int - '0' as int] == c;
    } else if c == '.' {
      assert OTHERS[10] == c;
    } else if c == '_' {
      assert OTHERS[11] == c;
    } else if c == '-' {
      assert OTHERS[12] == c;
    } else {
      assert forall k :: 0 <= k < 26 ==> LOWER[k] as int == 'a' as int + k;
      assert forall k :: 0 <= k < 26 ==> UPPER[k] as int == 'A' as int + k;
      assert forall k :: 0 <= k < 10 ==> OTHERS[k] as int == '0' as int + k;
    }
  }
}
