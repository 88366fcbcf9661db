/** Packet by packet: what the first byte of a packet makes the broker do, told of bytes and clients alone. */
module Packets {
  import opened Bytes
  import opened Codec
  import opened Interner
  import opened Broker
  import opened BrokerInv
  import opened BrokerRuns
  import opened BrokerBooks
  import opened Filters
  import opened PublishReading
  import Agreement
  import Builder
  import EndToEnd
  import Handshake
  import Sessions
  import SessionProtocol

  /** Table 2.1 of MQTT 3.1.1, in the high nibble. */
  lemma TypeBytes()
    ensures CONNECT == 0x10 && CONNACK == 0x20 && PUBLISH == 0x30 && PUBACK == 0x40
    ensures SUBSCRIBE == 0x80 && SUBACK == 0x90
    ensures UNSUBSCRIBE == 0xA0 && UNSUBACK == 0xB0 && PINGREQ == 0xC0 && PINGRESP == 0xD0
  {
  }

  // ---------- Writing ----------

  /** A write to a client with a connection: if the socket takes it, the bytes are sent and the socket table is as
      before; if not, nothing is sent and the session is freed. Nothing else changes. */
  lemma WriteMeans(w: World, k: ClientId, b: bytes, env: Env)
    requires k in w.objs && w.objs[k].connection.Some? && w.objs[k].connection.value < |w.table.slots|
    ensures var (w', s) := (Send(w, k, b, env), w.objs[k].connection.value);
            && SessionProtocol.OnlyTouches(w, w', k) && w'.strings == w.strings && w'.registry == w.registry
            && w'.objs[k] == w.objs[k].(sent := w.objs[k].sent + if env.sendOk(k) then [b] else [])
            && (env.sendOk(k) ==> w'.table == w.table)
            && (!env.sendOk(k) ==>
                  && w'.table.slots[s].fd < 0
                  && forall i :: 0 <= i < |w.table.slots| && i != s ==> w'.table.slots[i] == w.table.slots[i])
  {
    assert w.objs[k].sent + [] == w.objs[k].sent;
  }

  /** An empty message is not sent; a finished one is sent as it is. */
  lemma SendMeans(w: World, k: ClientId, m: Msg, env: Env)
    requires k in w.objs
    ensures m.buffer == [] ==> SendMsg(w, k, m, env) == w
    ensures m.buffer != [] && m.state == Complete ==> SendMsg(w, k, m, env) == Send(w, k, m.buffer, env)
  {
  }

  // ---------- PINGREQ ----------

  lemma PingDecided(c: Client)
    requires c.connected && c.remote
    ensures Decide(c, 0xC0) == Pong
  {
  }

  lemma PongProcessed(w: World, k: ClientId, m: Msg, env: Env)
    requires k in w.objs && Decide(w.objs[k], Type(m)) == Pong
    ensures ProcessMessage(w, k, m, env) == Send(w, k, [0xD0, 0], env)
  {
  }

  lemma PongBytes()
    ensures Builder.StandardPacket(0xD0, 0, []) == [0xD0, 0]
  {
    assert Builder.EncodeRemaining(0) == [0];
  }

  /** A ping in session is answered with exactly one PINGRESP, and nothing else changes. */
  lemma PingAnswered(w: World, k: ClientId, m: Msg, env: Env)
    requires k in w.objs && w.objs[k].connected && w.objs[k].remote && Type(m) == 0xC0
    requires w.objs[k].connection.Some? && w.objs[k].connection.value < |w.table.slots|
    ensures var w' := ProcessMessage(w, k, m, env);
            && SessionProtocol.OnlyTouches(w, w', k) && w'.strings == w.strings && w'.registry == w.registry
            && w'.objs[k] == w.objs[k].(sent := w.objs[k].sent +
                                                if env.sendOk(k) then [Builder.StandardPacket(0xD0, 0, [])] else [])
            && (env.sendOk(k) ==> w'.table == w.table)
  {
    PingDecided(w.objs[k]);
    PongProcessed(w, k, m, env);
    PongBytes();
    WriteMeans(w, k, [0xD0, 0], env);
  }

  // ---------- Packets without an answer ----------

  /** In session PUBACK, SUBACK, UNSUBACK and PINGRESP change nothing at all; out of session only PINGRESP. */
  lemma Ignored(w: World, k: ClientId, m: Msg, env: Env)
    requires k in w.objs && Type(m) in {0x40, 0x90, 0xB0, 0xD0} && (w.objs[k].connected || Type(m) == 0xD0)
    ensures ProcessMessage(w, k, m, env) == w
  {
  }

  /** The types that close a client: a second CONNECT, DISCONNECT and every unknown type; out of session all but
      CONNECT, CONNACK and PINGRESP; and to a client without a socket a PINGREQ, but never a PUBLISH. */
  predicate Ends(c: Client, type_: byte) {
    if type_ == 0x30 then c.remote && !c.connected
    else if type_ == 0xC0 then !c.remote || !c.connected
    else if c.connected then type_ !in {0x20, 0x40, 0x80, 0x90, 0xA0, 0xB0, 0xD0}
    else type_ !in {0x10, 0x20, 0xD0}
  }

  lemma EndDecided(c: Client, type_: byte)
    ensures Decide(c, type_) == End <==> Ends(c, type_)
  {
  }

  /** Such a packet takes its client out of the registry and frees the session of a remote one. Nothing is sent, and
      nobody else and no topic is touched. */
  lemma SessionEnds(w: World, k: ClientId, m: Msg, env: Env)
    requires Linked(w) && k in w.objs && w.objs[k].attached && Ends(w.objs[k], Type(m))
    ensures var (w', c) := (ProcessMessage(w, k, m, env), w.objs[k]);
            && SessionProtocol.OnlyTouches(w, w', k) && w'.strings == w.strings
            && w'.objs[k] == c.(connected := false, attached := false)
            && (forall x :: x in w'.registry <==> x in w.registry && x != k)
            && |w'.table.slots| == |w.table.slots|
            && forall i :: 0 <= i < |w.table.slots| ==>
                 if c.remote && c.connection == Some(i) then w'.table.slots[i].fd < 0
                 else w'.table.slots[i] == w.table.slots[i]
  {
    EndDecided(w.objs[k], Type(m));
    EraseMeans(w.registry, k);
  }

  // ---------- CONNACK ----------

  /** The body of the packet that asks for all of a client's topics: identifier 0, then the filters in index order. */
  function AskAll(t: Strings, subs: set<byte>): bytes {
    [0, 0] + TopicList(t, Ascending(subs, 0))
  }

  /** A CONNACK connects the client. If it has topics they are asked for again in one SUBSCRIBE, flags 2, identifier
      0. */
  lemma Acknowledged(w: World, k: ClientId, m: Msg, env: Env)
    requires k in w.objs && Type(m) == 0x20 && |AskAll(w.strings, w.objs[k].subs)| <= Builder.MAX_BODY
    ensures var (w', c) := (ProcessMessage(w, k, m, env), w.objs[k].(connected := true));
            if c.subs == {} then w' == w.(objs := w.objs[k := c])
            else var asked := Builder.StandardPacket(0x80, 2, AskAll(w.strings, c.subs));
                 w' == Send(w.(objs := w.objs[k := c]), k, asked, env)
  {
    var c := w.objs[k].(connected := true);
    AckProcessed(w, k, m, env);
    if c.subs != {} {
      ResubscribeSent(w.(objs := w.objs[k := c]), k, env);
    }
  }

  lemma AckProcessed(w: World, k: ClientId, m: Msg, env: Env)
    requires k in w.objs && Type(m) == 0x20
    ensures ProcessMessage(w, k, m, env) == Resubscribe(w.(objs := w.objs[k := w.objs[k].(connected := true)]), k, env)
  {
  }

  lemma ResubscribeBytes(t: Strings, subs: set<byte>)
    requires |AskAll(t, subs)| <= Builder.MAX_BODY
    ensures var m := EncodeLength(ResubscribeMsg(t, subs)); m.buffer == Builder.StandardPacket(0x80, 2, AskAll(t, subs))
    ensures ResubscribeMsg(t, subs).buffer != []
  {
    Builder.BuiltMsg(0x80, 2, AskAll(t, subs));
    Builder.FeedCreate(0x80, 2, AskAll(t, subs));
  }

  lemma ResubscribeSent(w: World, k: ClientId, env: Env)
    requires k in w.objs && w.objs[k].subs != {} && |AskAll(w.strings, w.objs[k].subs)| <= Builder.MAX_BODY
    ensures Resubscribe(w, k, env) ==
            Send(w, k, Builder.StandardPacket(0x80, 2, AskAll(w.strings, w.objs[k].subs)), env)
  {
    ResubscribeBytes(w.strings, w.objs[k].subs);
  }

  // ---------- SUBSCRIBE and UNSUBSCRIBE ----------

  /** The answers byte by byte: two filters, the second with quality of service 1. */
  lemma AnswerBytes(text: bytes, other: bytes)
    ensures Handshake.Answer(true, [1, 2], [Filter(text, 0), Filter(other, 1)]) == [0x90, 4, 1, 2, 0, 0x80]
    ensures Handshake.Answer(false, [1, 2], [Filter(text, 0), Filter(other, 1)]) == [0xB0, 2, 1, 2]
  {
    var fs := [Filter(text, 0), Filter(other, 1)];
    assert Codes(fs) == [0, 0x80] && [1, 2] + Codes(fs) == [1, 2, 0, 0x80];
    assert Builder.EncodeRemaining(4) == [4] && Builder.EncodeRemaining(2) == [2];
  }

  // ---------- PUBLISH ----------

  /** Where a PUBLISH goes: from a remote client in session to the broker, at a client without a socket to its
      callback. */
  lemma PublishGoes(w: World, k: ClientId, m: Msg, env: Env)
    requires k in w.objs && Type(m) == 0x30
    ensures w.objs[k].remote && w.objs[k].connected && w.objs[k].attached ==>
              ProcessMessage(w, k, m, env) == ForwardPublish(w, m, env)
    ensures !w.objs[k].remote ==> ProcessMessage(w, k, m, env) == ReceivePublish(w, k, m, env)
  {
  }

  /** End to end through `processMessage`: a PUBLISH of the standard from a remote client in session goes once to
      exactly the subscribers of its topic. */
  lemma PublishProcessed(w: World, held: seq<nat>, j: ClientId, m: Msg, text: bytes, id: bytes, payload: bytes,
                         env: Env, k: ClientId)
    requires Sound(w, held) && Room(Refs(w.objs, held)) && k in w.objs
    requires j in w.objs && w.objs[j].remote && w.objs[j].connected && w.objs[j].attached
    requires IsPublish(m, text, id, payload) && EndToEnd.Clean(w.strings, text) && (Flags(m) == 0 || Qos(m) != 0)
    ensures var w' := ProcessMessage(w, j, m, env);
            && w'.strings == w.strings && w'.registry == w.registry && k in w'.objs
            && if k in w.registry then EndToEnd.Delivered(w, k, w'.objs[k], text, payload, m.buffer, env)
               else w'.objs[k] == w.objs[k]
  {
    PublishGoes(w, j, m, env);
    EndToEnd.ForwardEndToEnd(w, held, m, text, id, payload, env, k);
  }

  /** The callback of a client without a socket is called with the packet's topic and payload exactly if it is
      subscribed. */
  lemma PublishReceived(w: World, held: seq<nat>, k: ClientId, m: Msg, text: bytes, id: bytes, payload: bytes, env: Env)
    requires Sound(w, held) && Room(Refs(w.objs, held)) && k in w.objs && !w.objs[k].remote
    requires IsPublish(m, text, id, payload) && EndToEnd.Clean(w.strings, text) && (Flags(m) == 0 || Qos(m) != 0)
    ensures var (w', c) := (ProcessMessage(w, k, m, env), w.objs[k]);
            && SessionProtocol.OnlyTouches(w, w', k) && w'.registry == w.registry && w'.table == w.table
            && w'.strings == w.strings
            && w'.objs[k] == c.(calls := c.calls + if c.callback && EndToEnd.SubscribedText(w.strings, c.subs, text)
                                                   then [Delivery(text, payload)] else [])
  {
    PublishGoes(w, k, m, env);
    ReadIsPacket(m, text, id, payload, env.beyond);
    AccountsUsed(w.strings, Refs(w.objs, held));
    ReceiveStrings(w, k, m, env);
    EndToEnd.SubscribedIsText(w, held, k, text);
    assert w.objs[k].calls + [] == w.objs[k].calls;
  }

  // ---------- Clients ----------

  /** A client accepted on slot `s`: registered last, not connected, no topics, no callback, a decoder that is
      waiting. */
  lemma AcceptedClient(w: World, e: Event, s: nat)
    requires TableOk(w.table) && e.Accept? && Enabled(w, e) && Agreement.Takes(w, e, s)
    ensures var w' := Step(w, e);
            && w'.registry == w.registry + [e.k] && w'.strings == w.strings
            && w'.objs == w.objs[e.k := Client(false, 0, 60, [], true, true, Some(s), {}, Msg([], 0, 0, FixedHeader),
                                               false, [], [])]
  {
  }

  /** A client of the application: registered last, attached, without a socket. */
  lemma LocalClient(w: World, k: ClientId, id: bytes, callback: bool)
    requires k !in w.objs
    ensures var w' := Step(w, NewLocal(k, id, callback));
            && w'.registry == w.registry + [k] && w'.strings == w.strings && w'.table == w.table
            && w'.objs == w.objs[k := Client(false, 0, 60, id, true, false, None, {}, Msg([], 0, 0, FixedHeader),
                                             callback, [], [])]
  {
  }

  /** While broker and socket table agree, the clients that can be read are exactly the registered remote ones. */
  lemma ReadableIsRegistered(w: World, k: ClientId)
    requires Agreement.Agree(w) && Linked(w)
    ensures Readable(w, k) <==> k in w.registry && k in w.objs && w.objs[k].remote
  {
    assert Agreement.Remote(w, k) ==> w.table.slots[Agreement.Slot(w, k)].fd >= 0;
  }

  /** A time-out closes an attached client; a failed read frees the slot and nothing else. */
  lemma Failures(w: World, k: ClientId)
    ensures Step(w, Timeout(k)) == if k in w.objs && w.objs[k].attached then Close(w, k) else w
    ensures Readable(w, k) ==>
              var (w', s) := (Step(w, ReadError(k)), w.objs[k].connection.value);
              && w' == w.(table := w'.table) && w'.table.slots[s].fd < 0
              && forall i :: 0 <= i < |w.table.slots| && i != s ==> w'.table.slots[i] == w.table.slots[i]
    ensures !Readable(w, k) ==> Step(w, ReadError(k)) == w
  {
  }

  /** Connecting a local client to a broker in the same program: it is closed, then attached without being listed. */
  lemma Attaching(w: World, k: ClientId)
    requires Registered(w) && Wired(w) && Enabled(w, Attach(k))
    ensures var w' := Step(w, Attach(k));
            && w' == w.(registry := w'.registry, objs := w.objs[k := w.objs[k].(connected := false, attached := true)])
            && forall x :: x in w'.registry <==> x in w.registry && x != k
  {
    CloseRegistered(w, k);
  }

  /** The set of topics after one more, named by a text whose length is cut to eight bits. */
  lemma SubscribeText(t: Strings, base: seq<nat>, subs: set<byte>, text: bytes, topic: bytes)
    requires topic == text[..|text| % 256] && Takeable(t, [topic])
    requires Room(base) && Distinct(t) && Accounts(t, With(base, subs))
    ensures var (t', subs') := InsertTopic(t, subs, TopicText(text)); TextSet(t', subs') == TextSet(t, subs) + {topic}
  {
    assert [topic][0] == topic && TopicText(text) == topic;
    TakeOne(t, base, subs, [topic]);
  }

  /** Subscribing from the application adds exactly that topic. */
  lemma AppSubscribes(w: World, held: seq<nat>, k: ClientId, text: bytes, topic: bytes)
    requires Sound(w, held) && Room(Refs(w.objs, held)) && Enabled(w, Subscribe(k, text))
    requires topic == text[..|text| % 256] && Takeable(w.strings, [topic])
    ensures var w' := Step(w, Subscribe(k, text));
            && SessionProtocol.OnlyTouches(w, w', k) && w'.registry == w.registry && w'.table == w.table
            && w'.objs[k] == w.objs[k].(subs := w'.objs[k].subs)
            && TextSet(w'.strings, w'.objs[k].subs) == TextSet(w.strings, w.objs[k].subs) + {topic}
  {
    RoomLess(w, held, k);
    SubscribeText(w.strings, Refs(w.objs - {k}, held), w.objs[k].subs, text, topic);
  }

  lemma UnsubscribeText(t: Strings, base: seq<nat>, subs: set<byte>, text: bytes, topic: bytes)
    requires topic == text[..|text| % 256] && Separate(t, [topic])
    requires Room(base) && Distinct(t) && Accounts(t, With(base, subs))
    ensures var (t', subs') := EraseTopic(t, subs, TopicText(text)); TextSet(t', subs') == TextSet(t, subs) - {topic}
  {
    assert [topic][0] == topic && TopicText(text) == topic;
    EraseOne(t, base, subs, topic);
  }

  /** Unsubscribing takes exactly that topic away. */
  lemma AppUnsubscribes(w: World, held: seq<nat>, k: ClientId, text: bytes, topic: bytes)
    requires Sound(w, held) && Room(Refs(w.objs, held)) && Enabled(w, Unsubscribe(k, text))
    requires topic == text[..|text| % 256] && Separate(w.strings, [topic])
    ensures var w' := Step(w, Unsubscribe(k, text));
            && SessionProtocol.OnlyTouches(w, w', k) && w'.registry == w.registry && w'.table == w.table
            && w'.objs[k] == w.objs[k].(subs := w'.objs[k].subs)
            && TextSet(w'.strings, w'.objs[k].subs) == TextSet(w.strings, w.objs[k].subs) - {topic}
  {
    RoomLess(w, held, k);
    UnsubscribeText(w.strings, Refs(w.objs - {k}, held), w.objs[k].subs, text, topic);
  }
}
