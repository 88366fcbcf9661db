/** From `publish` to the callbacks and sockets of the subscribers. */
module EndToEnd {
  import opened Bytes
  import opened Codec
  import opened Interner
  import opened Broker
  import opened BrokerInv
  import opened BrokerRuns
  import opened BrokerBooks
  import Builder
  import Framing
  import opened PublishReading
  import Sessions

  // ---------- Exactly once ----------

  /** What one publication does to client `k`, whose fields are `c`, and to the socket table. */
  function Offered(t: Strings, k: ClientId, c: Client, topic: byte, m: Msg, env: Env): Client {
    if !Subscribed(t, c.subs, topic) then c
    else if c.remote then SentMsg(c, m, env.sendOk(k))
    else Called(t, c, m, env.beyond)
  }

  function OfferedTable(table: Sessions.Table, t: Strings, k: ClientId, c: Client, topic: byte, m: Msg, env: Env)
    : Sessions.Table
  {
    if Subscribed(t, c.subs, topic) && c.remote then AfterSend(table, c, m, env.sendOk(k)) else table
  }

  lemma OfferExact(w: World, k: ClientId, topic: byte, m: Msg, env: Env)
    requires k in w.objs && Wired(w) && AllUsed(w.strings) && TableOk(w.table)
    ensures Offer(w, k, topic, m, env).objs == w.objs[k := Offered(w.strings, k, w.objs[k], topic, m, env)]
    ensures Offer(w, k, topic, m, env).strings == w.strings
    ensures Offer(w, k, topic, m, env).table == OfferedTable(w.table, w.strings, k, w.objs[k], topic, m, env)
  {
    assert w.objs[k := w.objs[k]] == w.objs;
    if !Subscribed(w.strings, w.objs[k].subs, topic) {
      return;
    }
    if w.objs[k].remote {
      return;
    }
    ReceiveStrings(w, k, m, env);
  }

  lemma QuietWired(w: World, w': World)
    requires Quiet(w, w') && Wired(w)
    ensures Wired(w')
  {
    forall k | k in w.objs
      ensures w'.objs[k].connection == w.objs[k].connection && w'.objs[k].remote == w.objs[k].remote
    {
      assert Core(w'.objs[k]) == Core(w.objs[k]);
    }
  }

  /** A fan-out acts exactly once on each client in the list, and on no other. */
  lemma {:induction false} FanoutExact(w: World, ks: seq<ClientId>, topic: byte, m: Msg, env: Env, k: ClientId)
    requires k in w.objs && Wired(w) && AllUsed(w.strings) && TableOk(w.table) && Unique(ks)
    requires forall x :: x in ks ==> x in w.objs
    ensures var w' := Fanout(w, ks, topic, m, env);
            && w'.strings == w.strings && w'.registry == w.registry && w'.objs.Keys == w.objs.Keys
            && w'.objs[k] == if k in ks then Offered(w.strings, k, w.objs[k], topic, m, env) else w.objs[k]
    decreases |ks|
  {
    if ks != [] {
      var w1 := Offer(w, ks[0], topic, m, env);
      OfferExact(w, ks[0], topic, m, env);
      OfferQuiet(w, ks[0], topic, m, env);
      QuietWired(w, w1);
      UniqueTail(ks);
      FanoutExact(w1, ks[1..], topic, m, env, k);
      assert ks == [ks[0]] + ks[1..];
    }
  }

  // ---------- Topics as texts ----------

  /** The client has a live topic with this text. */
  ghost predicate SubscribedText(t: Strings, subs: set<byte>, text: bytes) {
    exists s :: s in subs && s in t && t[s].str == text
  }

  /** What the string table must be like for a topic to get through it unharmed. */
  ghost predicate Clean(t: Strings, text: bytes) {
    && NulFree(text) && 1 <= |text| <= 255 && NoneExtends(t, text)
    && (Stored(t, text) || exists j: byte :: 1 <= j && j !in t)
  }

  lemma SubscriptionsLive(w: World, held: seq<nat>, k: ClientId, s: byte)
    requires Books(w, held) && k in w.objs && s in w.objs[k].subs && s != 0
    ensures s in w.strings
  {
    assert k in Subscribers(w.objs, s);
    assert |Subscribers(w.objs, s)| > 0;
    assert Refs(w.objs, held)[s] > 0;
  }

  /** For live subscriptions, matching the handle just made is having the text. */
  lemma SubscribedIsText(w: World, held: seq<nat>, k: ClientId, text: bytes)
    requires Books(w, held) && k in w.objs && Clean(w.strings, text)
    ensures var (t, i) := Intern(w.strings, text);
            && i != 0 && Str(t, i) == text
            && (Subscribed(t, w.objs[k].subs, i) <==> SubscribedText(w.strings, w.objs[k].subs, text))
  {
    InternExact(w.strings, text);
    var (t, i) := Intern(w.strings, text);
    forall s | s in w.objs[k].subs
      ensures Matches(t, s, i) <==> s in w.strings && w.strings[s].str == text
    {
      if s == 0 {
        assert 0 !in t;
      } else {
        SubscriptionsLive(w, held, k, s);
        TextsStay(w.strings, text, 0, s);
      }
    }
  }

  // ---------- One publication ----------

  /** What client `k` sees of a publication: a subscriber's callback is called once, a subscriber's socket is handed one
      packet, which it gets if it takes it. */
  ghost predicate Delivered(w: World, k: ClientId, after: Client, text: bytes, payload: bytes, packet: bytes, env: Env)
    requires k in w.objs
  {
    var before := w.objs[k];
    if !SubscribedText(w.strings, before.subs, text) then after == before
    else if before.remote then after == before.(sent := before.sent + if env.sendOk(k) then [packet] else [])
    else after == before.(calls := before.calls + if before.callback then [Delivery(text, payload)] else [])
  }

  /** The message stands for this topic and payload. */
  ghost predicate Carries(m: Msg, beyond: nat -> byte, text: bytes, payload: bytes) {
    m.state == Complete && m.buffer != [] && PublishTopic(m, beyond) == text && PublishPayload(m, beyond) == payload
  }

  lemma OfferedText(w: World, held: seq<nat>, k: ClientId, text: bytes, payload: bytes, m: Msg, env: Env)
    requires Books(w, held) && Wired(w) && k in w.objs
    requires Clean(w.strings, text) && Carries(m, env.beyond, text, payload)
    ensures var (t, i) := Intern(w.strings, text);
            Delivered(w, k, Offered(t, k, w.objs[k], i, m, env), text, payload, m.buffer, env)
  {
    SubscribedIsText(w, held, k, text);
    var (t, i) := Intern(w.strings, text);
    InternAgain(w.strings, text);
    var (t', j) := Intern(t, text);
    TextsStay(t, text, 0, i);
    SameSubscribed(t, t', w.objs[k].subs, i);
    assert w.objs[k].calls + [] == w.objs[k].calls && w.objs[k].sent + [] == w.objs[k].sent;
  }

  lemma SameSubscribed(t: Strings, t': Strings, subs: set<byte>, i: byte)
    requires t.Keys == t'.Keys && forall s :: s in t ==> t'[s].str == t[s].str
    ensures Subscribed(t', subs, i) <==> Subscribed(t, subs, i)
  {
    assert forall s :: Str(t', s) == Str(t, s);
  }

  /** One publication, whoever makes it: each registered client is served exactly once according to its own
      subscriptions, unregistered clients and the string table are untouched, every socket gets the same bytes. */
  lemma PublicationExact(w: World, held: seq<nat>, text: bytes, payload: bytes, m: Msg, env: Env, k: ClientId)
    requires Sound(w, held) && Room(Refs(w.objs, held)) && k in w.objs
    requires Clean(w.strings, text) && Carries(m, env.beyond, text, payload)
    ensures var (t, i) := Intern(w.strings, text);
            var f := Fanout(w.(strings := t), w.registry, i, m, env);
            var w' := f.(strings := Release(f.strings, i));
            && w'.strings == w.strings && w'.registry == w.registry && k in w'.objs
            && if k in w.registry then Delivered(w, k, w'.objs[k], text, payload, m.buffer, env)
               else w'.objs[k] == w.objs[k]
  {
    var (t, i) := Intern(w.strings, text);
    TemporaryUsed(w.strings, Refs(w.objs, held), text);
    FanoutExact(w.(strings := t), w.registry, i, m, env, k);
    TemporaryRestores(w.strings, text);
    OfferedText(w, held, k, text, payload, m, env);
  }

  /** The packet `publish` builds, read by whoever gets it. */
  lemma PacketCarries(text: bytes, payload: bytes, m: Msg, beyond: nat -> byte)
    requires |text| <= 255 && 2 + |text| + |payload| <= Builder.MAX_BODY
    requires m.state == Complete && m.vheader <= |m.buffer| && m.buffer[m.vheader..] == Prefixed(text) + payload
    requires m.buffer != [] && Flags(m) == 0
    ensures Carries(m, beyond, text, payload)
  {
    var body := Prefixed(text) + payload;
    assert Prefixed(text) <= body;
    ReadPrefixed(m.buffer, beyond, m.vheader, text);
    var p := m.vheader as nat + 2 + |text|;
    assert |m.buffer| - p == |payload|;
    SliceInside(m.buffer, beyond, p, |payload|);
    assert m.buffer[p..] == m.buffer[m.vheader..][2 + |text|..] == payload;
    assert m.buffer[p..p + |payload|] == m.buffer[p..];
  }

  /** The packet of a publication and what a decoder makes of it, whatever was in that decoder before its reset. */
  lemma PublishPacket(text: bytes, payload: bytes, vheader: byte, beyond: nat -> byte)
    requires |text| <= 255 && 2 + |text| + |payload| <= Builder.MAX_BODY
    ensures var m := Build(PUBLISH, 0, Prefixed(text) + payload);
            var got := Feed(Fresh(vheader), m.buffer);
            && Carries(m, beyond, text, payload)
            && Framing.Receive(Fresh(vheader), m.buffer) == (Fresh(m.vheader), [got])
            && Type(got) == PUBLISH && Carries(got, beyond, text, payload)
  {
    var body := Prefixed(text) + payload;
    Builder.BuiltMsg(PUBLISH, 0, body);
    Builder.RoundTrip(PUBLISH, 0, body, vheader);
    var m := Build(PUBLISH, 0, body);
    PacketCarries(text, payload, m, beyond);
    PacketCarries(text, payload, Feed(Fresh(vheader), m.buffer), beyond);
  }

  /** The packet of `publish` names the published topic exactly when the string table finds that very text. */
  lemma PublishedTopicIsText(t: Strings, text: bytes, payload: bytes, beyond: nat -> byte)
    requires Distinct(t) && NulFree(text) && |text| <= 255 && forall i :: i in t ==> |t[i].str| <= 255
    requires 257 + |payload| <= Builder.MAX_BODY
    ensures var (t', i) := Intern(t, text);
            var m := Build(PUBLISH, 0, Prefixed(Str(t', i)) + payload);
            && (PublishTopic(m, beyond) == text <==> FoundExactly(t, text))
            && PublishPayload(m, beyond) == payload
  {
    InternIsExact(t, text);
    InternFinds(t, text);
    var (t', i) := Intern(t, text);
    PublishPacket(Str(t', i), payload, 0, beyond);
  }

  /** A topic that begins a stored one is taken for it: with only "ab" stored, "a" is published as "ab", to the
      subscribers of "ab". */
  lemma PrefixIsTakenForLonger(payload: bytes, beyond: nat -> byte)
    requires 257 + |payload| <= Builder.MAX_BODY
    ensures var t: Strings := map[1 := Counter([97, 98], 1)];
            var (t', i) := Intern(t, [97]);
            && PublishTopic(Build(PUBLISH, 0, Prefixed(Str(t', i)) + payload), beyond) == [97, 98]
            && Subscribed(t', {1}, i)
  {
    var t: Strings := map[1 := Counter([97, 98], 1)];
    InternFinds(t, [97]);
    assert [97] <= t[1].str;
    PublishPacket([97, 98], payload, 0, beyond);
  }

  /** End to end from a local client: the callback of each subscribed local client gets exactly the published text and
      payload, each subscribed remote client gets one packet, and that packet decodes to them. */
  lemma LocalPublishEndToEnd(w: World, held: seq<nat>, text: bytes, payload: bytes, env: Env, k: ClientId)
    requires Sound(w, held) && Room(Refs(w.objs, held)) && k in w.objs
    requires Clean(w.strings, text) && 2 + |text| + |payload| <= Builder.MAX_BODY
    ensures var w' := LocalPublish(w, text, payload, env);
            var packet := Build(PUBLISH, 0, Prefixed(text) + payload).buffer;
            && w'.strings == w.strings && w'.registry == w.registry && k in w'.objs
            && (if k in w.registry then Delivered(w, k, w'.objs[k], text, payload, packet, env)
                else w'.objs[k] == w.objs[k])
            && forall v: byte, beyond: nat -> byte :: Carries(Feed(Fresh(v), packet), beyond, text, payload)
  {
    assert TopicText(text) == text;
    SubscribedIsText(w, held, k, text);
    var m := Build(PUBLISH, 0, Prefixed(text) + payload);
    PublishPacket(text, payload, 0, env.beyond);
    PublicationExact(w, held, text, payload, m, env, k);
    forall v: byte, beyond: nat -> byte ensures Carries(Feed(Fresh(v), m.buffer), beyond, text, payload) {
      PublishPacket(text, payload, v, beyond);
    }
  }

  /** End to end from a remote client. The packet laid out by the standard as this topic and payload goes to exactly the
      subscribers of the topic: sockets get the packet that came, callbacks its topic and payload - unless only RETAIN
      or DUP is set, and then every callback gets something else. */
  lemma ForwardEndToEnd(w: World, held: seq<nat>, m: Msg, text: bytes, id: bytes, payload: bytes, env: Env, k: ClientId)
    requires Sound(w, held) && Room(Refs(w.objs, held)) && k in w.objs
    requires IsPublish(m, text, id, payload) && Clean(w.strings, text)
    ensures var (w', c) := (ForwardPublish(w, m, env), w.objs[k]);
            && w'.strings == w.strings && w'.registry == w.registry && k in w'.objs
            && (k !in w.registry ==> w'.objs[k] == c)
            && (k in w.registry ==>
                  (Delivered(w, k, w'.objs[k], text, payload, m.buffer, env) <==>
                     Flags(m) == 0 || Qos(m) != 0
                     || c.remote || !c.callback || !SubscribedText(w.strings, c.subs, text)))
  {
    ReadIsPacket(m, text, id, payload, env.beyond);
    var read := PublishPayload(m, env.beyond);
    PublicationExact(w, held, text, read, m, env, k);
    if read != payload {
      OtherPayload(w.objs[k].calls, text, payload, read);
    }
  }

  lemma OtherPayload(calls: seq<Delivery>, text: bytes, payload: bytes, read: bytes)
    requires read != payload
    ensures calls + [Delivery(text, read)] != calls + [Delivery(text, payload)]
  {
    assert (calls + [Delivery(text, read)])[|calls|] == Delivery(text, read);
  }

  // ---------- The socket table ----------

  /** The socket table after the clients `ks` from `i` on have been served. */
  function ServedTable(table: Sessions.Table, t: Strings, ks: seq<ClientId>, cs: seq<Client>, i: nat, topic: byte,
                       m: Msg, env: Env): Sessions.Table
    requires |cs| == |ks|
    decreases |ks| - i
  {
    if i >= |ks| then table
    else ServedTable(OfferedTable(table, t, ks[i], cs[i], topic, m, env), t, ks, cs, i + 1, topic, m, env)
  }

  ghost predicate ClientsFrom(w: World, ks: seq<ClientId>, cs: seq<Client>, i: nat) {
    |cs| == |ks| && i <= |ks| && forall j :: i <= j < |ks| ==> ks[j] in w.objs && w.objs[ks[j]] == cs[j]
  }

  /** A fan-out deletes the sessions of those subscribers whose sockets refuse the packet, in order, and no other. */
  lemma {:induction false} FanoutTable(w: World, ks: seq<ClientId>, cs: seq<Client>, i: nat, topic: byte, m: Msg,
                                       env: Env)
    requires Wired(w) && AllUsed(w.strings) && TableOk(w.table) && Unique(ks) && ClientsFrom(w, ks, cs, i)
    ensures Fanout(w, ks[i..], topic, m, env).table == ServedTable(w.table, w.strings, ks, cs, i, topic, m, env)
    decreases |ks| - i
  {
    if i < |ks| {
      var w' := Offer(w, ks[i], topic, m, env);
      OfferExact(w, ks[i], topic, m, env);
      OfferQuiet(w, ks[i], topic, m, env);
      QuietWired(w, w');
      FanoutTable(w', ks, cs, i + 1, topic, m, env);
      assert ks[i..][1..] == ks[i + 1..];
    }
  }

  /** The socket of client `k` refuses the packet, and slot `s` is its session. */
  predicate Refuses(t: Strings, k: ClientId, c: Client, topic: byte, m: Msg, env: Env, s: nat) {
    Subscribed(t, c.subs, topic) && c.remote && c.connection == Some(s) && m.buffer != [] && !env.sendOk(k)
  }

  /** Slot by slot: the sessions whose sockets refuse the packet are freed, and no other slot changes. */
  lemma {:induction false} ServedSlots(table: Sessions.Table, t: Strings, ks: seq<ClientId>, cs: seq<Client>, i: nat,
                                       topic: byte, m: Msg, env: Env)
    requires |cs| == |ks|
    ensures var table' := ServedTable(table, t, ks, cs, i, topic, m, env);
            && |table'.slots| == |table.slots|
            && forall s :: 0 <= s < |table.slots| ==>
                 if exists j :: i <= j < |ks| && Refuses(t, ks[j], cs[j], topic, m, env, s) then table'.slots[s].fd < 0
                 else table'.slots[s] == table.slots[s]
    decreases |ks| - i
  {
    if i < |ks| {
      ServedSlots(OfferedTable(table, t, ks[i], cs[i], topic, m, env), t, ks, cs, i + 1, topic, m, env);
    }
  }

  /** A publication frees exactly the sessions of the subscribers whose sockets refuse it. */
  lemma FanoutSlots(w: World, ks: seq<ClientId>, cs: seq<Client>, topic: byte, m: Msg, env: Env)
    requires Wired(w) && AllUsed(w.strings) && TableOk(w.table) && Unique(ks) && ClientsFrom(w, ks, cs, 0)
    ensures var table' := Fanout(w, ks, topic, m, env).table;
            && |table'.slots| == |w.table.slots|
            && forall s :: 0 <= s < |w.table.slots| ==>
                 if exists j :: 0 <= j < |ks| && Refuses(w.strings, ks[j], cs[j], topic, m, env, s)
                 then table'.slots[s].fd < 0 else table'.slots[s] == w.table.slots[s]
  {
    assert ks[0..] == ks;
    FanoutTable(w, ks, cs, 0, topic, m, env);
    ServedSlots(w.table, w.strings, ks, cs, 0, topic, m, env);
  }
}
