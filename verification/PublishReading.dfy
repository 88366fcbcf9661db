/** What the PUBLISH branch reads of a packet: when that is the packet's own topic and payload, and when it stays inside
    the buffer. */
module PublishReading {
  import opened Bytes
  import opened Codec
  import opened Broker
  import Builder

  /** The quality of service of a PUBLISH, section 3.3.1 of MQTT 3.1.1. */
  function Qos(m: Msg): byte {
    Flags(m) / 2 % 4
  }

  /** A decoded PUBLISH as sections 3.3.2 and 3.3.3 of MQTT 3.1.1 lay it out: topic, packet identifier if the quality of
      service is not 0, payload. */
  ghost predicate IsPublish(m: Msg, text: bytes, id: bytes, payload: bytes) {
    && m.state == Complete && Type(m) == PUBLISH && m.vheader <= |m.buffer| <= MAX_BUFFER_LENGTH
    && m.buffer[m.vheader..] == Prefixed(text) + id + payload
    && |id| == if Qos(m) != 0 then 2 else 0
  }

  /** Every such packet of the standard that fits arrives as one, whatever was in the decoder before its reset. */
  lemma Arrives(flags: byte, text: bytes, id: bytes, payload: bytes, vheader: byte)
    requires flags < 16 && |id| == if flags / 2 % 4 != 0 then 2 else 0
    requires 2 + |text| + |id| + |payload| <= Builder.MAX_BODY
    ensures var p := Builder.StandardPacket(PUBLISH, flags, Prefixed(text) + id + payload);
            var m := Feed(Fresh(vheader), p);
            IsPublish(m, text, id, payload) && Flags(m) == flags && m.buffer == p
  {
    var body := Prefixed(text) + id + payload;
    Builder.BuiltMsg(PUBLISH, flags, body);
    Builder.RoundTrip(PUBLISH, flags, body, vheader);
  }

  lemma Parts(m: Msg, text: bytes, id: bytes, payload: bytes)
    requires IsPublish(m, text, id, payload)
    ensures Prefixed(text) <= m.buffer[m.vheader..]
    ensures var p := m.vheader as nat + 2 + |text|;
            p + |id| + |payload| == |m.buffer| && m.buffer[p..] == id + payload
  {
    var rest, p := m.buffer[m.vheader..], m.vheader as nat + 2 + |text|;
    assert rest == Prefixed(text) + (id + payload);
    assert rest[2 + |text|..] == id + payload;
    assert m.buffer[p..] == rest[2 + |text|..];
  }

  lemma TopicRead(m: Msg, text: bytes, id: bytes, payload: bytes, beyond: nat -> byte)
    requires IsPublish(m, text, id, payload)
    ensures StringLength(m.buffer, beyond, m.vheader) == |text|
    ensures PublishTopic(m, beyond) == text[..|text| % 256]
  {
    Parts(m, text, id, payload);
    ReadPrefixed(m.buffer, beyond, m.vheader, text);
    var n := |text| % 256;
    assert PublishTopic(m, beyond) == Slice(m.buffer, beyond, m.vheader as nat + 2, |text|)[..n];
  }

  lemma TailRead(buffer: bytes, beyond: nat -> byte, p: nat, tail: bytes)
    requires p <= |buffer| && buffer[p..] == tail
    ensures Slice(buffer, beyond, p, |tail|) == tail
  {
    SliceInside(buffer, beyond, p, |tail|);
    assert buffer[p..p + |tail|] == buffer[p..];
  }

  /** Where the payload is taken to begin, and how much of it there is. */
  lemma PayloadFrom(m: Msg, text: bytes, id: bytes, payload: bytes, beyond: nat -> byte, p: nat, skip: nat)
    requires IsPublish(m, text, id, payload)
    requires p == m.vheader as nat + 2 + |text| && skip == if Flags(m) != 0 then 2 else 0
    ensures PublishPayload(m, beyond) == Slice(m.buffer, beyond, p + skip, (|m.buffer| - (p + skip)) % 65536)
    ensures p <= |m.buffer| && m.buffer[p..] == id + payload
  {
    TopicRead(m, text, id, payload, beyond);
    Parts(m, text, id, payload);
  }

  /** Reading to the end of the buffer from `skip` bytes after `p`: past the end the length wraps. */
  lemma TailSkip(buffer: bytes, beyond: nat -> byte, p: nat, tail: bytes, skip: nat)
    requires p <= |buffer| <= MAX_BUFFER_LENGTH && buffer[p..] == tail && skip <= 2
    ensures var r := Slice(buffer, beyond, p + skip, (|buffer| - (p + skip)) % 65536);
            if skip <= |tail| then r == tail[skip..] else |r| == 65536 + |tail| - skip
  {
    if skip <= |tail| {
      assert buffer[p + skip..] == tail[skip..];
      TailRead(buffer, beyond, p + skip, tail[skip..]);
    }
  }

  lemma SkipMeans(id: bytes, payload: bytes, skip: nat)
    requires skip == 0 || skip == 2
    requires |id| == 0 || |id| == skip
    ensures skip == |id| ==> (id + payload)[skip..] == payload
    ensures |id| == 0 ==> id + payload == payload
  {
  }

  /** The payload read: the packet's own, or one without its first two bytes, or about 64 KB from behind the packet. */
  lemma PayloadRead(m: Msg, text: bytes, id: bytes, payload: bytes, beyond: nat -> byte)
    requires IsPublish(m, text, id, payload)
    ensures var r := PublishPayload(m, beyond);
            if Flags(m) == 0 || Qos(m) != 0 then r == payload
            else if |payload| >= 2 then r == payload[2..]
            else |r| == 65534 + |payload|
  {
    var p, skip := m.vheader as nat + 2 + |text|, if Flags(m) != 0 then 2 else 0;
    PayloadFrom(m, text, id, payload, beyond, p, skip);
    TailSkip(m.buffer, beyond, p, id + payload, skip);
    SkipMeans(id, payload, skip);
  }

  /** The topic read is the packet's exactly up to 255 bytes; the payload exactly without flags or with a quality of
      service, so not if only RETAIN or DUP is set. */
  lemma ReadIsPacket(m: Msg, text: bytes, id: bytes, payload: bytes, beyond: nat -> byte)
    requires IsPublish(m, text, id, payload)
    ensures PublishTopic(m, beyond) == text <==> |text| <= 255
    ensures PublishPayload(m, beyond) == payload <==> Flags(m) == 0 || Qos(m) != 0
  {
    TopicRead(m, text, id, payload, beyond);
    PayloadRead(m, text, id, payload, beyond);
  }

  /** A short packet, byte by byte. */
  lemma ShortPacket(flags: byte, body: bytes)
    requires flags < 16 && |body| < 128
    ensures Builder.StandardPacket(PUBLISH, flags, body) == [PUBLISH + flags, |body|] + body
  {
    assert Builder.EncodeRemaining(|body|) == [|body|];
  }

  /** A retained publication of "hi!" to "a" is read as "!". */
  lemma RetainedPacket(beyond: nat -> byte)
    ensures PublishPayload(Feed(Fresh(0), [0x31, 6, 0, 1, 97, 104, 105, 33]), beyond) == [33]
  {
    Arrives(1, [97], [], [104, 105, 33], 0);
    var body := Prefixed([97]) + [] + [104, 105, 33];
    assert body == [0, 1, 97, 104, 105, 33];
    ShortPacket(1, body);
    PayloadRead(Feed(Fresh(0), [0x31, 6, 0, 1, 97, 104, 105, 33]), [97], [], [104, 105, 33], beyond);
  }

  /** An empty retained publication, which is how a client clears a topic, is read as 65534 bytes from behind the
      packet. */
  lemma EmptyRetainedPacket(beyond: nat -> byte)
    ensures |PublishPayload(Feed(Fresh(0), [0x31, 3, 0, 1, 97]), beyond)| == 65534
  {
    Arrives(1, [97], [], [], 0);
    var body := Prefixed([97]) + [] + [];
    assert body == [0, 1, 97];
    ShortPacket(1, body);
    PayloadRead(Feed(Fresh(0), [0x31, 3, 0, 1, 97]), [97], [], [], beyond);
  }

  // ---------- Staying inside the packet ----------

  /** The 16-bit length of the topic, both bytes of which lie in the buffer. */
  function TopicLength(m: Msg): nat
    requires m.vheader as nat + 2 <= |m.buffer|
  {
    m.buffer[m.vheader] as nat * 256 + m.buffer[m.vheader as nat + 1] as nat
  }

  predicate TopicInside(m: Msg) {
    m.vheader as nat + 2 <= |m.buffer| && m.vheader as nat + 2 + TopicLength(m) % 256 <= |m.buffer|
  }

  /** Nothing is read behind the packet; an overrun of exactly 65536 bytes wraps to an empty payload. */
  predicate PayloadInside(m: Msg) {
    && m.vheader as nat + 2 <= |m.buffer|
    && var p := m.vheader as nat + 2 + TopicLength(m) + if Flags(m) != 0 then 2 else 0;
       p <= |m.buffer| || p == |m.buffer| + 65536
  }

  function Zero(i: nat): byte { 0 }

  function One(i: nat): byte { 1 }

  /** What lies behind the packet has no influence on the topic read exactly when the length bytes and the topic they
      announce, cut to eight bits, lie inside it. */
  lemma TopicStaysInside(m: Msg)
    ensures (forall b: nat -> byte, c: nat -> byte :: PublishTopic(m, b) == PublishTopic(m, c)) <==> TopicInside(m)
  {
    if TopicInside(m) {
      forall b: nat -> byte, c: nat -> byte ensures PublishTopic(m, b) == PublishTopic(m, c) {
      }
    } else {
      var x, y := PublishTopic(m, Zero), PublishTopic(m, One);
      if |x| == |y| {
        assert m.vheader as nat + 2 <= |m.buffer|;
        assert x[|x| - 1] == 0 && y[|y| - 1] == 1;
      }
    }
  }

  /** The same for the payload. */
  lemma PayloadStaysInside(m: Msg)
    ensures (forall b: nat -> byte, c: nat -> byte :: PublishPayload(m, b) == PublishPayload(m, c)) <==>
            PayloadInside(m)
  {
    if PayloadInside(m) {
      forall b: nat -> byte, c: nat -> byte ensures PublishPayload(m, b) == PublishPayload(m, c) {
      }
    } else {
      PayloadOutside(m);
    }
  }

  lemma PayloadOutside(m: Msg)
    requires !PayloadInside(m)
    ensures PublishPayload(m, Zero) != PublishPayload(m, One)
  {
    var x, y := PublishPayload(m, Zero), PublishPayload(m, One);
    if |x| == |y| {
      assert m.vheader as nat + 2 <= |m.buffer|;
      assert x[|x| - 1] == 0 && y[|y| - 1] == 1;
    }
  }
}
