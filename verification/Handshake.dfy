/** The packets one side builds as the other side reads them: CONNECT, and SUBSCRIBE on reconnection. */
module Handshake {
  import opened Bytes
  import opened Codec
  import opened Interner
  import opened Broker
  import opened BrokerInv
  import opened BrokerRuns
  import opened BrokerBooks
  import opened Filters
  import Builder

  // ---------- CONNECT ----------

  const MQTT: bytes := [77, 81, 84, 84]

  /** What `onConnect` adds: the protocol name, level 4, no flags, a keep-alive of one byte, the client's name. */
  function ConnectItems(keepAlive: nat, id: bytes): seq<Builder.Item> {
    [Builder.Text(MQTT), Builder.Byte(4), Builder.Byte(0), Builder.Byte(0), Builder.Byte(keepAlive % 256),
     Builder.Text(id)]
  }

  function ConnectBody(keepAlive: nat, id: bytes): bytes {
    [0, 4, 77, 81, 84, 84, 4, 0, 0, keepAlive % 256] + Prefixed(id)
  }

  lemma SerializeCons(item: Builder.Item, rest: seq<Builder.Item>)
    ensures Builder.Serialize([item] + rest) ==
            Builder.SerializeItem(item) + Builder.Serialize(rest)
  {
    assert ([item] + rest)[1..] == rest;
  }

  lemma ConnectSerialized(keepAlive: nat, id: bytes)
    ensures Builder.Serialize(ConnectItems(keepAlive, id)) == ConnectBody(keepAlive, id)
  {
    var ka: byte := keepAlive % 256;
    var i5 := [Builder.Text(id)];
    var i4 := [Builder.Byte(ka)] + i5;
    var i3 := [Builder.Byte(0)] + i4;
    var i2 := [Builder.Byte(0)] + i3;
    var i1 := [Builder.Byte(4)] + i2;
    var s := Prefixed(id);
    SerializeCons(Builder.Text(id), []);
    assert i5 == [Builder.Text(id)] + [] && Builder.Serialize(i5) == s;
    SerializeCons(Builder.Byte(ka), i5);
    SerializeCons(Builder.Byte(0), i4);
    assert Builder.Serialize(i3) == [0, ka] + s;
    SerializeCons(Builder.Byte(0), i3);
    SerializeCons(Builder.Byte(4), i2);
    assert Builder.Serialize(i1) == [4, 0, 0, ka] + s;
    SerializeCons(Builder.Text(MQTT), i1);
    assert ConnectItems(keepAlive, id) == [Builder.Text(MQTT)] + i1;
    assert Prefixed(MQTT) == [0, 4, 77, 81, 84, 84];
  }

  lemma BodyAt(m: Msg, beyond: nat -> byte, body: bytes, i: nat)
    requires m.vheader <= |m.buffer| && m.buffer[m.vheader..] == body && i < |body|
    ensures At(m.buffer, beyond, m.vheader as nat + i) == body[i]
  {
    assert m.buffer[m.vheader..][i] == m.buffer[m.vheader as nat + i];
  }

  lemma ConnectRead(m: Msg, beyond: nat -> byte, auth: Auth, keepAlive: nat, id: bytes)
    requires m.vheader <= |m.buffer| && m.buffer[m.vheader..] == ConnectBody(keepAlive, id) && |id| < 65536
    ensures Connect(m, beyond, auth) ==
            ConnectResult(0, keepAlive % 256, Some(id), !auth.hasUser && !auth.hasPassword)
  {
    var body, h := ConnectBody(keepAlive, id), m.vheader as nat;
    forall i | 0 <= i < 10 ensures At(m.buffer, beyond, h + i) == body[i] {
      BodyAt(m, beyond, body, i);
    }
    var name := Slice(m.buffer, beyond, h + 2, 4);
    assert name[0] == At(m.buffer, beyond, h + 2) && name[1] == At(m.buffer, beyond, h + 3)
        && name[2] == At(m.buffer, beyond, h + 4) && name[3] == At(m.buffer, beyond, h + 5);
    assert name == MQTT;
    assert m.buffer[h + 10..] == body[10..] == Prefixed(id);
    ReadPrefixed(m.buffer, beyond, h + 10, id);
  }

  lemma ConnectGot(keepAlive: nat, id: bytes, vheader: byte, beyond: nat -> byte, auth: Auth, got: Msg)
    requires 12 + |id| <= Builder.MAX_BODY
    requires got == Feed(Fresh(vheader), Build(CONNECT, 0, ConnectBody(keepAlive, id)).buffer)
    ensures Type(got) == CONNECT
    ensures Connect(got, beyond, auth) ==
            ConnectResult(0, keepAlive % 256, Some(id), !auth.hasUser && !auth.hasPassword)
  {
    Builder.RoundTrip(CONNECT, 0, ConnectBody(keepAlive, id), vheader);
    ConnectRead(got, beyond, auth, keepAlive, id);
  }

  /** The CONNECT of `onConnect` arrives at a broker as it was meant: same name, no flags, and it is let in exactly when
      no login is set. The keep-alive survives exactly when it is below 256. */
  lemma ConnectRoundTrip(keepAlive: nat, id: bytes, vheader: byte, beyond: nat -> byte, auth: Auth, got: Msg)
    requires 12 + |id| <= Builder.MAX_BODY
    requires got == Feed(Fresh(vheader), Build(CONNECT, 0, Builder.Serialize(ConnectItems(keepAlive, id))).buffer)
    ensures var r := Connect(got, beyond, auth);
            && Type(got) == CONNECT && r.flags == 0 && r.clientId == Some(id)
            && (r.accepted <==> !auth.hasUser && !auth.hasPassword)
            && (r.keepAlive == keepAlive <==> keepAlive < 256)
  {
    ConnectSerialized(keepAlive, id);
    ConnectGot(keepAlive, id, vheader, beyond, auth, got);
  }

  // ---------- Acknowledgements ----------

  /** The filters of packet `m` of client `k`, taken. */
  function Taken(w: World, k: ClientId, m: Msg, env: Env): TopicsResult
    requires k in w.objs
  {
    TakeTopics(w.strings, w.objs[k].subs, m.buffer, env.beyond, AfterId(m), IsSubscribe(m))
  }

  lemma {:induction false} CodesBound(r: TopicsResult, b: bytes, beyond: nat -> byte, p: nat, subscribe: bool)
    ensures var r' := WalkTopics(r, b, beyond, p, subscribe);
            |r.codes| <= |r'.codes| && (p < |b| ==> 3 * |r'.codes| <= 3 * |r.codes| + |b| - p + 2)
            && (!subscribe || p >= |b| ==> r'.codes == r.codes)
    decreases |b| - p
  {
    if p < |b| {
      var (r', p') := TakeTopic(r, b, beyond, p, subscribe);
      CodesBound(r', b, beyond, p', subscribe);
    }
  }

  /** Every SUBSCRIBE or UNSUBSCRIBE the decoder hands over is answered by a whole packet of the standard, which starts
      with the packet identifier that came. */
  lemma AcknowledgementFits(w: World, k: ClientId, m: Msg, env: Env)
    requires k in w.objs && |m.buffer| <= MAX_BUFFER_LENGTH
    ensures var codes := Taken(w, k, m, env).codes;
            var id := [At(m.buffer, env.beyond, m.vheader), At(m.buffer, env.beyond, m.vheader as nat + 1)];
            var ack := Acknowledgement(m, env.beyond, codes);
            ack.state == Complete
            && ack.buffer == Builder.StandardPacket(if IsSubscribe(m) then SUBACK else UNSUBACK, 0, id + codes)
  {
    CodesBound(TopicsResult(w.strings, w.objs[k].subs, []), m.buffer, env.beyond, AfterId(m), IsSubscribe(m));
    var codes := Taken(w, k, m, env).codes;
    var id := [At(m.buffer, env.beyond, m.vheader), At(m.buffer, env.beyond, m.vheader as nat + 1)];
    Builder.BuiltMsg(if IsSubscribe(m) then SUBACK else UNSUBACK, 0, id + codes);
  }

  // ---------- SUBSCRIBE and UNSUBSCRIBE ----------

  /** A decoded SUBSCRIBE or UNSUBSCRIBE with this packet identifier and these filters. */
  ghost predicate Asks(m: Msg, subscribe: bool, id: bytes, fs: seq<Filter>) {
    && Type(m) == (if subscribe then SUBSCRIBE else UNSUBSCRIBE) && |id| == 2
    && m.vheader <= |m.buffer| <= MAX_BUFFER_LENGTH && m.buffer[m.vheader..] == id + ListOf(fs, subscribe)
  }

  lemma AsksParts(m: Msg, subscribe: bool, id: bytes, fs: seq<Filter>, beyond: nat -> byte)
    requires Asks(m, subscribe, id, fs)
    ensures ListAt(m.buffer, AfterId(m), fs, subscribe)
    ensures [At(m.buffer, beyond, m.vheader), At(m.buffer, beyond, m.vheader as nat + 1)] == id
  {
    var v, rest := m.vheader as nat, m.buffer[m.vheader..];
    assert m.buffer[v] == rest[0] && m.buffer[v + 1] == rest[1];
    assert m.buffer[v + 2..] == rest[2..] == ListOf(fs, subscribe);
  }

  lemma {:induction false} ListIsLong(fs: seq<Filter>, subscribe: bool)
    ensures forall i :: 0 <= i < |fs| ==> |fs[i].text| <= |ListOf(fs, subscribe)|
  {
    if fs != [] {
      ListIsLong(fs[1..], subscribe);
      assert forall i :: 1 <= i < |fs| ==> fs[i] == fs[1..][i - 1];
    }
  }

  /** What is taken from such a packet: its filters and nothing else. */
  lemma AsksTaken(w: World, k: ClientId, m: Msg, subscribe: bool, id: bytes, fs: seq<Filter>, env: Env)
    requires k in w.objs && Asks(m, subscribe, id, fs)
    ensures Taken(w, k, m, env) == TakeFilters(TopicsResult(w.strings, w.objs[k].subs, []), fs, subscribe)
  {
    AsksParts(m, subscribe, id, fs, env.beyond);
    assert ListOf(fs, subscribe) == m.buffer[AfterId(m)..];
    ListIsLong(fs, subscribe);
    WalkReads(TopicsResult(w.strings, w.objs[k].subs, []), m.buffer, env.beyond, AfterId(m), fs, subscribe);
  }

  /** The answer to such a packet. */
  function Answer(subscribe: bool, id: bytes, fs: seq<Filter>): bytes {
    if subscribe then Builder.StandardPacket(SUBACK, 0, id + Codes(fs)) else Builder.StandardPacket(UNSUBACK, 0, id)
  }

  lemma AskedAck(w: World, k: ClientId, m: Msg, subscribe: bool, id: bytes, fs: seq<Filter>, env: Env)
    requires k in w.objs && Asks(m, subscribe, id, fs)
    ensures var ack := Acknowledgement(m, env.beyond, Taken(w, k, m, env).codes);
            ack.state == Complete && ack.buffer == Answer(subscribe, id, fs)
  {
    var none := TopicsResult(w.strings, w.objs[k].subs, []);
    AcknowledgementFits(w, k, m, env);
    AsksParts(m, subscribe, id, fs, env.beyond);
    AsksTaken(w, k, m, subscribe, id, fs, env);
    CodesRead(none, fs, subscribe);
    assert [] + Codes(fs) == Codes(fs) && id + [] == id;
  }

  lemma TopicsProcessed(w: World, k: ClientId, m: Msg, env: Env)
    requires k in w.objs && Decide(w.objs[k], Type(m)) == Topics
    ensures ProcessMessage(w, k, m, env) == ProcessTopics(w, k, m, env)
  {
  }

  lemma TopicsDecided(c: Client, type_: byte)
    requires c.connected && (type_ == SUBSCRIBE || type_ == UNSUBSCRIBE)
    ensures Decide(c, type_) == Topics
  {
  }

  lemma TopicsAnswered(w: World, k: ClientId, m: Msg, env: Env, r: TopicsResult, packet: bytes)
    requires k in w.objs && w.objs[k].connection.Some? && r == Taken(w, k, m, env) && packet != []
    requires var ack := Acknowledgement(m, env.beyond, r.codes); ack.state == Complete && ack.buffer == packet
    ensures var w' := ProcessTopics(w, k, m, env);
            && w'.strings == r.strings && k in w'.objs
            && w'.objs[k] == Written(w.objs[k].(subs := r.subs), packet, env.sendOk(k))
  {
  }

  /** A SUBSCRIBE or UNSUBSCRIBE in session, whatever its filters: they are taken in order, and the answer is one packet
      with the identifier that came and, for SUBSCRIBE, one return code for each filter in order. */
  lemma FiltersAnswered(w: World, k: ClientId, m: Msg, subscribe: bool, id: bytes, fs: seq<Filter>, env: Env)
    requires k in w.objs && w.objs[k].connected && w.objs[k].connection.Some? && Asks(m, subscribe, id, fs)
    ensures var (w', r) := (ProcessMessage(w, k, m, env),
                            TakeFilters(TopicsResult(w.strings, w.objs[k].subs, []), fs, subscribe));
            && w'.strings == r.strings && k in w'.objs
            && w'.objs[k] == Written(w.objs[k].(subs := r.subs), Answer(subscribe, id, fs), env.sendOk(k))
  {
    AskedAck(w, k, m, subscribe, id, fs, env);
    AsksTaken(w, k, m, subscribe, id, fs, env);
    TopicsDecided(w.objs[k], Type(m));
    TopicsProcessed(w, k, m, env);
    TopicsAnswered(w, k, m, env, Taken(w, k, m, env), Answer(subscribe, id, fs));
  }

  lemma PeerReady(w: World, held: seq<nat>, k: ClientId, fs: seq<Filter>)
    requires Sound(w, held) && Room(Refs(w.objs, held)) && k in w.objs && Takeable(w.strings, TextsOf(fs))
    ensures Ready(TopicsResult(w.strings, w.objs[k].subs, []), Refs(w.objs - {k}, held), fs)
  {
    RoomLess(w, held, k);
  }

  /** A SUBSCRIBE in session with topics the table can take: the client ends up with its own topics and every one named,
      also those whose return code is 0x80. */
  lemma SubscribeEndToEnd(w: World, held: seq<nat>, k: ClientId, m: Msg, id: bytes, fs: seq<Filter>, env: Env)
    requires Sound(w, held) && Room(Refs(w.objs, held)) && k in w.objs && w.objs[k].remote && w.objs[k].connected
    requires Asks(m, true, id, fs) && Takeable(w.strings, TextsOf(fs))
    ensures var w' := ProcessMessage(w, k, m, env);
            && k in w'.objs
            && TextSet(w'.strings, w'.objs[k].subs) == TextSet(w.strings, w.objs[k].subs) + SetOf(TextsOf(fs))
            && w'.objs[k].sent == w.objs[k].sent + if env.sendOk(k) then [Answer(true, id, fs)] else []
  {
    assert w.objs[k].connection.Some? && w.objs[k].sent + [] == w.objs[k].sent;
    PeerReady(w, held, k, fs);
    SubscribeAddsAll(TopicsResult(w.strings, w.objs[k].subs, []), Refs(w.objs - {k}, held), fs);
    FiltersAnswered(w, k, m, true, id, fs, env);
  }

  /** An UNSUBSCRIBE in session: the client keeps exactly its topics that are not named. */
  lemma UnsubscribeEndToEnd(w: World, held: seq<nat>, k: ClientId, m: Msg, id: bytes, fs: seq<Filter>, env: Env)
    requires Sound(w, held) && Room(Refs(w.objs, held)) && k in w.objs && w.objs[k].remote && w.objs[k].connected
    requires Asks(m, false, id, fs) && Separate(w.strings, TextsOf(fs))
    ensures var w' := ProcessMessage(w, k, m, env);
            && k in w'.objs
            && TextSet(w'.strings, w'.objs[k].subs) == TextSet(w.strings, w.objs[k].subs) - SetOf(TextsOf(fs))
            && w'.objs[k].sent == w.objs[k].sent + if env.sendOk(k) then [Answer(false, id, fs)] else []
  {
    assert w.objs[k].connection.Some? && w.objs[k].sent + [] == w.objs[k].sent;
    RoomLess(w, held, k);
    UnsubscribeRemovesAll(TopicsResult(w.strings, w.objs[k].subs, []), Refs(w.objs - {k}, held), fs);
    FiltersAnswered(w, k, m, false, id, fs, env);
  }

  // ---------- SUBSCRIBE on reconnection ----------

  function Texts(t: Strings, topics: seq<byte>): (r: seq<bytes>)
    ensures |r| == |topics|
  {
    seq<bytes>(|topics|, (i: nat) requires i < |topics| => Str(t, topics[i]))
  }

  /** The filters of `resubscribe`. */
  function FiltersOf(t: Strings, topics: seq<byte>): (r: seq<Filter>)
    ensures |r| == |topics|
  {
    seq<Filter>(|topics|, (i: nat) requires i < |topics| => Filter(Str(t, topics[i]), 0))
  }

  lemma {:induction false} ListIsFilters(t: Strings, topics: seq<byte>)
    ensures TopicList(t, topics) == ListOf(FiltersOf(t, topics), true)
  {
    if topics != [] {
      ListIsFilters(t, topics[1..]);
      assert FiltersOf(t, topics)[1..] == FiltersOf(t, topics[1..]);
    }
  }

  lemma {:induction false} AscendingMeans(subs: set<byte>, i: nat, x: byte)
    requires i <= 256
    ensures x in Ascending(subs, i) <==> x in subs && x >= i
    decreases 256 - i
  {
    if i < 256 {
      AscendingMeans(subs, i + 1, x);
    }
  }

  lemma {:induction false} AscendingSize(subs: set<byte>, i: nat)
    requires i <= 256
    ensures |Ascending(subs, i)| == |From(subs, i)|
    decreases 256 - i
  {
    if i < 256 {
      AscendingSize(subs, i + 1);
      assert From(subs, i) == From(subs, i + 1) + if i in subs then {i} else {};
    } else {
      assert From(subs, i) == {};
    }
  }

  lemma TopicTexts(t: Strings, topics: set<byte>)
    requires forall i :: i in topics ==> i in t
    ensures SetOf(Texts(t, Ascending(topics, 0))) == TextSet(t, topics)
    ensures |Texts(t, Ascending(topics, 0))| == |topics|
  {
    AscendingSize(topics, 0);
    assert From(topics, 0) == topics;
    var order := Ascending(topics, 0);
    forall y ensures y in Texts(t, order) <==> y in TextSet(t, topics) {
      TextIn(t, topics, order, y);
    }
  }

  lemma TextIn(t: Strings, topics: set<byte>, order: seq<byte>, y: bytes)
    requires order == Ascending(topics, 0) && forall i :: i in topics ==> i in t
    ensures y in Texts(t, order) <==> y in TextSet(t, topics)
  {
    var texts := Texts(t, order);
    if y in texts {
      var n :| 0 <= n < |texts| && texts[n] == y;
      AscendingMeans(topics, 0, order[n]);
      assert order[n] in topics && t[order[n]].str == y;
    } else if y in TextSet(t, topics) {
      TextListed(t, topics, order, y);
    }
  }

  lemma TextListed(t: Strings, topics: set<byte>, order: seq<byte>, y: bytes)
    requires order == Ascending(topics, 0) && y in TextSet(t, topics)
    ensures y in Texts(t, order)
  {
    var s :| s in topics && s in t && t[s].str == y;
    AscendingMeans(topics, 0, s);
    var n :| 0 <= n < |order| && order[n] == s;
    assert Texts(t, order)[n] == y;
  }

  lemma FilterTexts(t: Strings, topics: seq<byte>)
    ensures TextsOf(FiltersOf(t, topics)) == Texts(t, topics)
    ensures Codes(FiltersOf(t, topics)) == Zeros(|topics|)
  {
  }

  function Zeros(n: nat): (r: bytes)
    ensures |r| == n
  {
    seq<byte>(n, _ => 0)
  }

  /** The packet of `resubscribe`, decoded. */
  lemma ResubscribePacket(t: Strings, topics: set<byte>, vheader: byte)
    requires 2 + |TopicList(t, Ascending(topics, 0))| <= Builder.MAX_BODY
    ensures var got := Feed(Fresh(vheader), EncodeLength(ResubscribeMsg(t, topics)).buffer);
            Asks(got, true, [0, 0], FiltersOf(t, Ascending(topics, 0)))
  {
    var list := TopicList(t, Ascending(topics, 0));
    ListIsFilters(t, Ascending(topics, 0));
    SubscribePacket([0, 0], list, vheader);
    assert ResubscribeMsg(t, topics) == Feed(CreateMsg(SUBSCRIBE, 2), [0, 0] + list);
  }

  lemma SubscribePacket(id: bytes, list: bytes, vheader: byte)
    requires |id| + |list| <= Builder.MAX_BODY
    ensures var got := Feed(Fresh(vheader), Build(SUBSCRIBE, 2, id + list).buffer);
            Type(got) == SUBSCRIBE && got.vheader <= |got.buffer| <= MAX_BUFFER_LENGTH
            && got.buffer[got.vheader..] == id + list
  {
    Builder.RoundTrip(SUBSCRIBE, 2, id + list, vheader);
    Builder.BuiltMsg(SUBSCRIBE, 2, id + list);
    BuiltShort(SUBSCRIBE, 2, id + list);
  }

  lemma BuiltShort(type_: byte, bits: byte, body: bytes)
    requires type_ % 16 == 0 && bits < 16 && |body| <= Builder.MAX_BODY
    ensures |Build(type_, bits, body).buffer| <= MAX_BUFFER_LENGTH
  {
    Builder.BuiltMsg(type_, bits, body);
    Builder.BuiltIsFramed(type_, bits, body);
  }

  /** The peer's client `k` has its own topics and all those of the sender, and answers with packet identifier 0 and one
      zero return code for each topic. */
  ghost predicate PeerHasAll(w: World, w': World, k: ClientId, t: Strings, topics: set<byte>, env: Env) {
    && k in w.objs && k in w'.objs
    && TextSet(w'.strings, w'.objs[k].subs) == TextSet(w.strings, w.objs[k].subs) + TextSet(t, topics)
    && w'.objs[k].sent == w.objs[k].sent +
         if env.sendOk(k) then [Builder.StandardPacket(SUBACK, 0, [0, 0] + Zeros(|topics|))] else []
  }

  /** Resubscription, end to end: a connected peer that can take the topics ends up subscribed to its own and to all of
      the sender's, and answers with one return code for each. */
  lemma ResubscribeRoundTrip(w: World, held: seq<nat>, k: ClientId, t: Strings, topics: set<byte>, env: Env, v: byte,
                             got: Msg)
    requires Sound(w, held) && Room(Refs(w.objs, held)) && k in w.objs && w.objs[k].remote && w.objs[k].connected
    requires forall i :: i in topics ==> i in t
    requires Takeable(w.strings, Texts(t, Ascending(topics, 0)))
    requires 2 + |TopicList(t, Ascending(topics, 0))| <= Builder.MAX_BODY
    requires got == Feed(Fresh(v), EncodeLength(ResubscribeMsg(t, topics)).buffer)
    ensures PeerHasAll(w, ProcessMessage(w, k, got, env), k, t, topics, env)
  {
    ResubscribePacket(t, topics, v);
    FilterTexts(t, Ascending(topics, 0));
    SubscribeEndToEnd(w, held, k, got, [0, 0], FiltersOf(t, Ascending(topics, 0)), env);
    PeerGains(w, ProcessMessage(w, k, got, env), k, t, topics, env);
  }

  lemma PeerGains(w: World, w': World, k: ClientId, t: Strings, topics: set<byte>, env: Env)
    requires k in w.objs && k in w'.objs
    requires var fs := FiltersOf(t, Ascending(topics, 0));
             && TextSet(w'.strings, w'.objs[k].subs) == TextSet(w.strings, w.objs[k].subs) + SetOf(TextsOf(fs))
             && w'.objs[k].sent == w.objs[k].sent + if env.sendOk(k) then [Answer(true, [0, 0], fs)] else []
    requires forall i :: i in topics ==> i in t
    ensures PeerHasAll(w, w', k, t, topics, env)
  {
    FilterTexts(t, Ascending(topics, 0));
    TopicTexts(t, topics);
  }
}
