/** The client and broker objects. Each method is proved to leave its client, the socket table, the string table and the
    registry as the functions of `Broker` say; those functions make up `Broker.ProcessMessage`. */
module MqttBrokers {
  import opened Bytes
  import opened Codec
  import opened Interner
  import opened Broker
  import Builder
  import BrokerInv
  import EndToEnd
  import Handshake
  import HttpdSess
  import MqttMessages
  import Sessions
  import Solo
  import StringIndexers

  class MqttClient {
    const id: ClientId
    const remote: bool
    const connection: Option<nat>
    const message: MqttMessages.MqttMessage
    var connected: bool
    var flags: byte
    var keepAlive: nat
    var clientId: bytes
    var attached: bool
    var subs: set<byte>
    var callback: bool
    ghost var calls: seq<Delivery>
    ghost var sent: seq<bytes>

    ghost function View(): Client
      reads this, message
    {
      Client(connected, flags, keepAlive, clientId, attached, remote, connection, subs, message.View(), callback,
             calls, sent)
    }

    constructor (id: ClientId, connection: Option<nat>, clientId: bytes, callback: bool)
      ensures this.id == id && View() == NewClient(connection, clientId, callback) && fresh(message)
    {
      this.id, this.remote, this.connection := id, connection.Some?, connection;
      this.clientId, this.callback := clientId, callback;
      connected, flags, keepAlive, attached, subs, calls, sent := false, 0, 60, true, {}, [], [];
      message := new MqttMessages.MqttMessage();
    }
  }

  ghost function IdsOf(cs: seq<MqttClient>): (r: seq<ClientId>)
    ensures |r| == |cs| && forall i :: 0 <= i < |cs| ==> r[i] == cs[i].id
  {
    seq<ClientId>(|cs|, (i: nat) requires i < |cs| => cs[i].id)
  }

  ghost function Views(cs: seq<MqttClient>): (r: seq<Client>)
    reads (set c | c in cs), (set c | c in cs :: c.message)
    ensures |r| == |cs| && forall i :: 0 <= i < |cs| ==> r[i] == cs[i].View()
  {
    seq(|cs|, (i: nat) requires i < |cs| reads (set c | c in cs), (set c | c in cs :: c.message) => cs[i].View())
  }

  /** The first `n` clients have been offered the message. */
  ghost function Served(ks: seq<ClientId>, before: seq<Client>, n: nat, t: Strings, topic: byte, m: Msg, env: Env)
    : (r: seq<Client>)
    requires n <= |before| == |ks|
    ensures |r| == |before|
  {
    seq<Client>(|before|, (i: nat) requires i < |before| =>
      if i < n then EndToEnd.Offered(t, ks[i], before[i], topic, m, env) else before[i])
  }

  lemma ServedStep(ks: seq<ClientId>, before: seq<Client>, n: nat, t: Strings, topic: byte, m: Msg, env: Env)
    requires n < |before| == |ks|
    ensures Served(ks, before, n, t, topic, m, env)[n] == before[n]
    ensures Served(ks, before, n, t, topic, m, env)[n := EndToEnd.Offered(t, ks[n], before[n], topic, m, env)]
         == Served(ks, before, n + 1, t, topic, m, env)
  {
  }

  lemma {:induction false} EraseFirst(a: seq<ClientId>, k: ClientId, b: seq<ClientId>)
    requires k !in a
    ensures Erase(a + [k] + b, k) == a + b
  {
    var s := a + [k] + b;
    if a == [] {
      assert s[1..] == b;
    } else {
      assert s[0] == a[0] && s[1..] == a[1..] + [k] + b;
      EraseFirst(a[1..], k, b);
      assert a + b == [a[0]] + (a[1..] + b);
    }
  }

  lemma {:induction false} EraseNone(s: seq<ClientId>, k: ClientId)
    requires k !in s
    ensures Erase(s, k) == s
  {
    if s != [] {
      EraseNone(s[1..], k);
    }
  }

  lemma EraseClient(cs: seq<MqttClient>, c: MqttClient, i: nat)
    requires i < |cs| && cs[i] == c && c !in cs[..i]
    requires forall j :: 0 <= j < i && cs[j].id == c.id ==> cs[j] == c
    ensures IdsOf(cs[..i] + cs[i + 1..]) == Erase(IdsOf(cs), c.id)
  {
    var before, rest := IdsOf(cs[..i]), IdsOf(cs[i + 1..]);
    forall j | 0 <= j < i ensures before[j] != c.id {
      assert cs[..i][j] == cs[j];
    }
    EraseFirst(before, c.id, rest);
    assert IdsOf(cs) == before + [c.id] + rest;
    assert IdsOf(cs[..i] + cs[i + 1..]) == before + rest;
  }

  /** The socket table and the string table after these clients have been deleted, first to last. */
  ghost function TornDown(cs: seq<Client>, table: Sessions.Table, t: Strings): (Sessions.Table, Strings)
    decreases |cs|
  {
    if cs == [] then (table, t)
    else TornDown(cs[1..], ClosedTable(table, cs[0]), ReleaseAll(t, Ascending(cs[0].subs, 0)))
  }

  ghost predicate Owns(c: Client, i: nat) {
    c.attached && c.remote && c.connection == Some(i)
  }

  /** The sessions of the deleted clients are freed, and no other. */
  lemma {:induction false} TornDownSlots(cs: seq<Client>, table: Sessions.Table, t: Strings)
    ensures var table' := TornDown(cs, table, t).0;
            && |table'.slots| == |table.slots|
            && forall i :: 0 <= i < |table.slots| ==>
                 if exists j :: 0 <= j < |cs| && Owns(cs[j], i) then table'.slots[i].fd < 0
                 else table'.slots[i] == table.slots[i]
    decreases |cs|
  {
    if cs != [] {
      var table1 := ClosedTable(table, cs[0]);
      TornDownSlots(cs[1..], table1, ReleaseAll(t, Ascending(cs[0].subs, 0)));
      forall i | 0 <= i < |table.slots|
        ensures (exists j :: 0 <= j < |cs| && Owns(cs[j], i)) <==>
                Owns(cs[0], i) || exists j :: 0 <= j < |cs| - 1 && Owns(cs[1..][j], i)
      {
        if j :| 0 <= j < |cs| && Owns(cs[j], i) && j != 0 {
          assert Owns(cs[1..][j - 1], i);
        }
      }
    }
  }

  /** The references of all these clients on top of `base`. */
  ghost function WithAll(base: seq<nat>, cs: seq<Client>): (r: seq<nat>)
    requires |base| == 256
    ensures |r| == 256
    decreases |cs|
  {
    if cs == [] then base else BrokerInv.With(WithAll(base, cs[1..]), cs[0].subs)
  }

  /** The topics of the deleted clients are given up, and exactly their references are gone. */
  lemma {:induction false} TornDownBooks(cs: seq<Client>, table: Sessions.Table, t: Strings, base: seq<nat>)
    requires |base| == 256 && BrokerInv.Room(WithAll(base, cs)) && Accounts(t, WithAll(base, cs))
    ensures Accounts(TornDown(cs, table, t).1, base)
    decreases |cs|
  {
    if cs != [] {
      var rest := WithAll(base, cs[1..]);
      LessRoom(rest, cs[0].subs);
      assert BrokerInv.From(cs[0].subs, 0) == cs[0].subs;
      BrokerInv.ReleasedBooks(t, rest, cs[0].subs, 0);
      TornDownBooks(cs[1..], ClosedTable(table, cs[0]), ReleaseAll(t, Ascending(cs[0].subs, 0)), base);
    }
  }

  lemma LessRoom(base: seq<nat>, subs: set<byte>)
    requires |base| == 256 && BrokerInv.Room(BrokerInv.With(base, subs))
    ensures BrokerInv.Room(base)
  {
    forall i: byte | i != 0 ensures base[i] <= 254 {
      assert BrokerInv.With(base, subs)[i] <= 254;
    }
  }

  class MqttBroker {
    const server: HttpdSess.HttpdData
    const indexer: StringIndexers.StringIndexer
    const auth: Auth
    var clients: seq<MqttClient>

    constructor (server: HttpdSess.HttpdData, indexer: StringIndexers.StringIndexer, auth: Auth)
      ensures clients == [] && this.server == server && this.indexer == indexer && this.auth == auth
    {
      this.server, this.indexer, this.auth, this.clients := server, indexer, auth, [];
    }

    ghost function Ids(): seq<ClientId>
      reads this
    {
      IdsOf(clients)
    }

    ghost predicate Wired(c: MqttClient) {
      (c.remote <==> c.connection.Some?) && (c.connection.Some? ==> c.connection.value < server.sd.Length)
    }

    /** The broker as seen from one client. */
    ghost function SceneOf(c: MqttClient): Solo.Scene
      reads this, c, c.message, server, server.sd, indexer
    {
      Solo.Scene(c.View(), Ids(), server.View(), indexer.strings)
    }

    // ---------- Sending ----------

    /** `writeData`: a refused write ends the session. */
    method WriteData(c: MqttClient, b: bytes, env: Env)
      requires Wired(c)
      modifies c`sent, server, server.sd
      ensures c.View() == Written(old(c.View()), b, env.sendOk(c.id))
      ensures server.View() == AfterWrite(old(server.View()), old(c.View()), env.sendOk(c.id))
    {
      if c.connection.Some? {
        if env.sendOk(c.id) {
          c.sent := c.sent + [b];
        } else {
          server.SessDelete(c.connection.value);
        }
      }
    }

    /** `sendTo`: completes the message and writes it. */
    method SendTo(msg: MqttMessages.MqttMessage, c: MqttClient, env: Env)
      requires Wired(c) && (msg.state == Complete || (msg != c.message && (msg.buffer == [] || |msg.buffer| >= 3)))
      modifies msg, c`sent, server, server.sd
      ensures msg.View() == if old(msg.buffer) == [] then old(msg.View()) else EncodeLength(old(msg.View()))
      ensures c.View() == SentMsg(old(c.View()), old(msg.View()), env.sendOk(c.id))
      ensures server.View() == AfterSend(old(server.View()), old(c.View()), old(msg.View()), env.sendOk(c.id))
    {
      if |msg.buffer| != 0 {
        msg.EncodeLength();
        WriteData(c, msg.buffer, env);
      }
    }

    method BuildAndSend(c: MqttClient, t: byte, bits: byte, body: bytes, env: Env)
      requires Wired(c) && t % 16 == 0 && bits < 16 && |body| <= Builder.MAX_BODY
      modifies c`sent, server, server.sd
      ensures c.View() == SentMsg(old(c.View()), Build(t, bits, body), env.sendOk(c.id))
      ensures server.View() == AfterSend(old(server.View()), old(c.View()), Build(t, bits, body), env.sendOk(c.id))
    {
      var msg := new MqttMessages.MqttMessage.Create(t, bits);
      Builder.FeedCreate(t, bits, body);
      Builder.BuiltMsg(t, bits, body);
      msg.Add(body, false);
      msg.EncodeLength();
      SendTo(msg, c, env);
    }

    // ---------- Publishing ----------

    method IsSubscribedTo(c: MqttClient, topic: byte) returns (r: bool)
      ensures r == Subscribed(indexer.strings, c.subs, topic)
    {
      var rest := c.subs;
      while rest != {}
        invariant rest <= c.subs
        invariant forall s :: s in c.subs && s !in rest ==> !Matches(indexer.strings, s, topic)
        decreases rest
      {
        var s :| s in rest;
        if Matches(indexer.strings, s, topic) {
          return true;
        }
        rest := rest - {s};
      }
      return false;
    }

    /** The PUBLISH branch for a client that is not a remote one: a topic handle, the callback if subscribed. */
    method ReceivePublish(c: MqttClient, m: Msg, env: Env)
      modifies c`calls, indexer
      ensures c.View() == Called(old(indexer.strings), old(c.View()), m, env.beyond)
      ensures var (t, i) := Intern(old(indexer.strings), PublishTopic(m, env.beyond)); indexer.strings == Release(t, i)
    {
      var published := indexer.StrToIndex(PublishTopic(m, env.beyond));
      if c.callback {
        var subscribed := IsSubscribedTo(c, published);
        if subscribed {
          c.calls := c.calls + [Delivery(Str(indexer.strings, published), PublishPayload(m, env.beyond))];
        }
      }
      indexer.Release(published);
    }

    /** Serves one client of a publication; the string table is as before, and so is the socket table unless a write
        fails. */
    method PublishIfSubscribed(c: MqttClient, topic: byte, msg: MqttMessages.MqttMessage, env: Env)
      requires Wired(c) && msg.state == Complete && BrokerInv.AllUsed(indexer.strings)
      modifies msg, c`calls, c`sent, indexer, server, server.sd
      ensures c.View() == EndToEnd.Offered(indexer.strings, c.id, old(c.View()), topic, old(msg.View()), env)
      ensures msg.View() == old(msg.View()) && indexer.strings == old(indexer.strings)
      ensures server.View() == EndToEnd.OfferedTable(old(server.View()), indexer.strings, c.id, old(c.View()), topic,
                                                     old(msg.View()), env)
    {
      var subscribed := IsSubscribedTo(c, topic);
      if subscribed {
        if c.remote {
          SendTo(msg, c, env);
        } else {
          BrokerInv.TemporaryRestores(indexer.strings, PublishTopic(msg.View(), env.beyond));
          ReceivePublish(c, Msg(msg.buffer, msg.vheader, msg.size, msg.state), env);
        }
      }
    }

    /** No client is registered twice. The message being published may be the receive buffer of one of them. */
    ghost predicate Ready()
      reads this
    {
      && (forall i :: 0 <= i < |clients| ==> Wired(clients[i]))
      && (forall i, j :: 0 <= i < j < |clients| ==> clients[i] != clients[j])
    }

    ghost function AllViews(): (r: seq<Client>)
      reads this, (set c | c in clients), (set c | c in clients :: c.message)
      ensures |r| == |clients|
    {
      Views(clients)
    }

    /** The socket table a fan-out of this message leaves, the clients from `i` on being still to be served. */
    ghost function TableAfter(table: Sessions.Table, before: seq<Client>, i: nat, topic: byte, m: Msg, env: Env)
      : Sessions.Table
      requires |before| == |clients|
      reads this, indexer
    {
      EndToEnd.ServedTable(table, indexer.strings, Ids(), before, i, topic, m, env)
    }

    method ServeClient(i: nat, topic: byte, msg: MqttMessages.MqttMessage, env: Env, ghost before: seq<Client>)
      requires i < |clients| == |before| && Ready() && msg.state == Complete && BrokerInv.AllUsed(indexer.strings)
      requires AllViews() == Served(Ids(), before, i, indexer.strings, topic, msg.View(), env)
      modifies msg, clients[i], indexer, server, server.sd
      ensures AllViews() == Served(Ids(), before, i + 1, indexer.strings, topic, msg.View(), env)
      ensures msg.View() == old(msg.View()) && indexer.strings == old(indexer.strings)
      ensures TableAfter(server.View(), before, i + 1, topic, msg.View(), env)
           == TableAfter(old(server.View()), before, i, topic, msg.View(), env)
    {
      ServedStep(Ids(), before, i, indexer.strings, topic, msg.View(), env);
      PublishIfSubscribed(clients[i], topic, msg, env);
      forall j | 0 <= j < |clients| && j != i ensures clients[j].View() == old(clients[j].View()) {
        assert clients[j] != clients[i];
      }
    }

    /** `publish`: with no upstream broker, every registered client is offered the message exactly once. */
    method Publish(topic: byte, msg: MqttMessages.MqttMessage, env: Env)
      requires Ready() && msg.state == Complete && BrokerInv.AllUsed(indexer.strings)
      modifies msg, (set c | c in clients), indexer, server, server.sd
      ensures AllViews() == Served(Ids(), old(AllViews()), |clients|, indexer.strings, topic, old(msg.View()), env)
      ensures msg.View() == old(msg.View()) && indexer.strings == old(indexer.strings)
      ensures server.View() == TableAfter(old(server.View()), old(AllViews()), 0, topic, old(msg.View()), env)
    {
      ghost var m, t, before := msg.View(), indexer.strings, AllViews();
      ghost var goal := TableAfter(server.View(), before, 0, topic, m, env);
      var i := 0;
      while i < |clients|
        invariant 0 <= i <= |clients| && msg.View() == m && indexer.strings == t
        invariant AllViews() == Served(Ids(), before, i, t, topic, m, env)
        invariant TableAfter(server.View(), before, i, topic, m, env) == goal
      {
        ServeClient(i, topic, msg, env, before);
        i := i + 1;
      }
    }

    /** The PUBLISH branch for a remote client: the topic handle lives while the message goes round. */
    method ForwardPublish(msg: MqttMessages.MqttMessage, env: Env)
      requires Ready() && msg.state == Complete
      requires BrokerInv.AllUsed(indexer.strings)
      requires BrokerInv.AllUsed(Intern(indexer.strings, PublishTopic(msg.View(), env.beyond)).0)
      modifies msg, (set c | c in clients), indexer, server, server.sd
      ensures var (t, i) := Intern(old(indexer.strings), PublishTopic(old(msg.View()), env.beyond));
              && AllViews() == Served(Ids(), old(AllViews()), |clients|, t, i, old(msg.View()), env)
              && server.View() == EndToEnd.ServedTable(old(server.View()), t, Ids(), old(AllViews()), 0, i,
                                                       old(msg.View()), env)
      ensures msg.View() == old(msg.View()) && indexer.strings == old(indexer.strings)
    {
      var text := PublishTopic(msg.View(), env.beyond);
      ghost var start := indexer.strings;
      BrokerInv.TemporaryRestores(start, text);
      var published := indexer.StrToIndex(text);
      PublishThenRelease(published, msg, env, start);
    }

    /** The handle is destroyed at the end of its scope. */
    method PublishThenRelease(topic: byte, msg: MqttMessages.MqttMessage, env: Env, ghost start: Strings)
      requires Ready() && msg.state == Complete && BrokerInv.AllUsed(indexer.strings)
      requires Release(indexer.strings, topic) == start
      modifies msg, (set c | c in clients), indexer, server, server.sd
      ensures AllViews() == Served(Ids(), old(AllViews()), |clients|, old(indexer.strings), topic, old(msg.View()), env)
      ensures server.View() == old(TableAfter(server.View(), AllViews(), 0, topic, msg.View(), env))
      ensures msg.View() == old(msg.View()) && indexer.strings == start
    {
      Publish(topic, msg, env);
      indexer.Release(topic);
    }

    /** `MqttClient::publish` of a local client, the topic being a temporary of the caller. */
    method PublishText(text: bytes, payload: bytes, env: Env)
      requires Ready() && BrokerInv.AllUsed(indexer.strings)
      requires BrokerInv.AllUsed(Intern(indexer.strings, TopicText(text)).0)
      requires var (t, i) := Intern(indexer.strings, TopicText(text)); 2 + |Str(t, i)| + |payload| <= Builder.MAX_BODY
      modifies (set c | c in clients), indexer, server, server.sd
      ensures var (t, i) := Intern(old(indexer.strings), TopicText(text));
              var m := Build(PUBLISH, 0, Prefixed(Str(t, i)) + payload);
              && AllViews() == Served(Ids(), old(AllViews()), |clients|, t, i, m, env)
              && server.View() == EndToEnd.ServedTable(old(server.View()), t, Ids(), old(AllViews()), 0, i, m, env)
      ensures indexer.strings == old(indexer.strings)
    {
      ghost var start := indexer.strings;
      BrokerInv.TemporaryRestores(start, TopicText(text));
      var topic := indexer.StrToIndex(TopicText(text));
      PublishTo(topic, payload, env, start);
    }

    /** The packet is built around the text the handle stands for. */
    method PublishTo(topic: byte, payload: bytes, env: Env, ghost start: Strings)
      requires Ready() && BrokerInv.AllUsed(indexer.strings)
      requires 2 + |Str(indexer.strings, topic)| + |payload| <= Builder.MAX_BODY
      requires Release(indexer.strings, topic) == start
      modifies (set c | c in clients), indexer, server, server.sd
      ensures var m := Build(PUBLISH, 0, Prefixed(Str(old(indexer.strings), topic)) + payload);
              && AllViews() == Served(Ids(), old(AllViews()), |clients|, old(indexer.strings), topic, m, env)
              && server.View() == old(TableAfter(server.View(), AllViews(), 0, topic, m, env))
      ensures indexer.strings == start
    {
      var msg := BuildPublish(Str(indexer.strings, topic), payload);
      assert AllViews() == old(AllViews());
      PublishThenRelease(topic, msg, env, start);
    }

    static method BuildPublish(topic: bytes, payload: bytes) returns (msg: MqttMessages.MqttMessage)
      requires 2 + |topic| + |payload| <= Builder.MAX_BODY
      ensures fresh(msg) && msg.View() == Build(PUBLISH, 0, Prefixed(topic) + payload) && msg.state == Complete
    {
      Builder.BuiltMsg(PUBLISH, 0, Prefixed(topic) + payload);
      Builder.FeedCreate(PUBLISH, 0, Prefixed(topic) + payload);
      FeedAppend(CreateMsg(PUBLISH, 0), Prefixed(topic), payload);
      msg := new MqttMessages.MqttMessage.Create(PUBLISH, 0);
      msg.Add(topic, true);
      msg.Add(payload, false);
      msg.EncodeLength();
    }

    // ---------- The registry ----------

    /** Names stand for addresses: no registered client but `c` has its name. */
    ghost predicate Named(c: MqttClient)
      reads this
    {
      forall i :: 0 <= i < |clients| && clients[i].id == c.id ==> clients[i] == c
    }

    method AddClient(c: MqttClient)
      modifies this`clients, c.message
      ensures clients == old(clients) + [c] && c.message.View() == Codec.Reset(old(c.message.View()))
    {
      c.message.Reset();
      clients := clients + [c];
    }

    /** Frees the session of a remote client, and takes the client out of the registry. */
    method RemoveClient(c: MqttClient)
      requires Wired(c) && Named(c) && c.attached
      modifies this`clients, server, server.sd
      ensures Ids() == Erase(old(Ids()), c.id) && server.View() == ClosedTable(old(server.View()), c.View())
      ensures (forall x :: x in clients ==> x in old(clients))
      ensures |clients| == |old(clients)| - if c in old(clients) then 1 else 0
      ensures old(clients) != [] && old(clients)[0] == c ==> clients == old(clients)[1..]
    {
      if c.remote && c.connection.Some? {
        server.SessDelete(c.connection.value);
      }
      var i := 0;
      while i < |clients|
        invariant 0 <= i <= |clients| && c !in clients[..i]
      {
        if clients[i] == c {
          EraseClient(clients, c, i);
          clients := clients[..i] + clients[i + 1..];
          return;
        }
        i := i + 1;
      }
      assert c.id !in Ids();
      EraseNone(Ids(), c.id);
    }

    method Close(c: MqttClient)
      requires Wired(c) && Named(c)
      modifies this`clients, c`connected, c`attached, server, server.sd
      ensures SceneOf(c) == Solo.CloseAlone(old(SceneOf(c)), c.id)
      ensures forall x :: x in clients ==> x in old(clients)
      ensures |clients| == |old(clients)| - if c in old(clients) && old(c.attached) then 1 else 0
      ensures old(clients) != [] && old(clients)[0] == c && old(c.attached) ==> clients == old(clients)[1..]
    {
      c.connected := false;
      if c.attached {
        RemoveClient(c);
        c.attached := false;
      }
    }

    /** The destructor of a client: it is closed, and every topic in its set is destroyed. */
    method DeleteClient(c: MqttClient)
      requires Wired(c) && Named(c)
      modifies this`clients, c`connected, c`attached, c`subs, indexer, server, server.sd
      ensures SceneOf(c) == Solo.DeletedAlone(old(SceneOf(c)), c.id)
      ensures old(clients) != [] && old(clients)[0] == c && old(c.attached) ==> clients == old(clients)[1..]
    {
      Close(c);
      ReleaseTopics(c);
    }

    method ReleaseTopics(c: MqttClient)
      modifies c`subs, indexer
      ensures c.subs == {} && indexer.strings == ReleaseAll(old(indexer.strings), Ascending(old(c.subs), 0))
    {
      ghost var goal := ReleaseAll(indexer.strings, Ascending(c.subs, 0));
      var i := 0;
      while i < 256
        invariant 0 <= i <= 256 && ReleaseAll(indexer.strings, Ascending(c.subs, i)) == goal
      {
        AscendingHead(c.subs, i);
        if i in c.subs {
          indexer.Release(i);
        }
        i := i + 1;
      }
      c.subs := {};
    }

    /** The destructor: deletes the first client until none is left. It comes to an end because every registered client
        is attached to this broker, so that deleting it unregisters it. */
    method Destroy()
      requires Ready() && forall c :: c in clients ==> c.attached
      requires forall i, j :: 0 <= i < j < |clients| ==> clients[i].id != clients[j].id
      modifies this`clients, (set c | c in clients), indexer, server, server.sd
      ensures clients == []
      ensures (server.View(), indexer.strings) == TornDown(old(AllViews()), old(server.View()), old(indexer.strings))
    {
      ghost var goal := TornDown(AllViews(), server.View(), indexer.strings);
      while |clients| != 0
        invariant forall c :: c in clients ==> c in old(clients) && c.attached && Wired(c)
        invariant forall i, j :: 0 <= i < j < |clients| ==> clients[i].id != clients[j].id
        invariant TornDown(AllViews(), server.View(), indexer.strings) == goal
        decreases |clients|
      {
        DeleteFirst();
      }
    }

    method DeleteFirst()
      requires clients != [] && forall c :: c in clients ==> Wired(c) && c.attached
      requires forall i, j :: 0 <= i < j < |clients| ==> clients[i].id != clients[j].id
      modifies this`clients, clients[0], indexer, server, server.sd
      ensures clients == old(clients[1..]) && forall c :: c in clients ==> c.attached
      ensures TornDown(AllViews(), server.View(), indexer.strings)
           == old(TornDown(AllViews(), server.View(), indexer.strings))
    {
      ghost var before := AllViews();
      DeleteClient(clients[0]);
      assert AllViews() == before[1..];
    }

    // ---------- Packets ----------

    /** The CONNECT of `onConnect`: protocol name and level, no flags, one byte of keep-alive, the client's name. */
    static method BuildConnect(keepAlive: nat, id: bytes) returns (msg: MqttMessages.MqttMessage)
      requires 12 + |id| <= Builder.MAX_BODY
      ensures fresh(msg) && msg.View() == Build(CONNECT, 0, Builder.Serialize(Handshake.ConnectItems(keepAlive, id)))
      ensures msg.state == Complete
    {
      ConnectParts(CreateMsg(CONNECT, 0), keepAlive, id);
      Handshake.ConnectSerialized(keepAlive, id);
      Builder.FeedCreate(CONNECT, 0, Handshake.ConnectBody(keepAlive, id));
      Builder.BuiltMsg(CONNECT, 0, Handshake.ConnectBody(keepAlive, id));
      msg := new MqttMessages.MqttMessage.Create(CONNECT, 0);
      msg.Add(Handshake.MQTT, true);
      AddFour(msg, 4, 0, 0, keepAlive % 256);
      msg.Add(id, true);
      msg.EncodeLength();
    }

    static method AddFour(msg: MqttMessages.MqttMessage, a: byte, b: byte, c: byte, d: byte)
      modifies msg
      ensures msg.View() == Feed(old(msg.View()), [a, b, c, d])
    {
      ghost var start := msg.View();
      FeedSnoc(start, [], a);
      FeedSnoc(start, [a], b);
      FeedSnoc(start, [a, b], c);
      FeedSnoc(start, [a, b, c], d);
      assert [] + [a] == [a] && [a] + [b] == [a, b] && [a, b] + [c] == [a, b, c] && [a, b, c] + [d] == [a, b, c, d];
      msg.Incoming(a);
      msg.Incoming(b);
      msg.Incoming(c);
      msg.Incoming(d);
    }

    /** A client that has just reached its broker introduces itself. */
    method OnConnect(c: MqttClient, env: Env)
      requires Wired(c) && 12 + |c.clientId| <= Builder.MAX_BODY
      modifies c`sent, server, server.sd
      ensures var m := Build(CONNECT, 0, Builder.Serialize(Handshake.ConnectItems(c.keepAlive, c.clientId)));
              SceneOf(c) == Solo.SendAlone(old(SceneOf(c)), m, env.sendOk(c.id))
    {
      var msg := BuildConnect(c.keepAlive, c.clientId);
      SendTo(msg, c, env);
    }

    /** `getString`: the length stored at `p`, and `p` moved past it. */
    static method GetString(m: Msg, p: nat, env: Env) returns (len: uint16, next: nat)
      ensures len == StringLength(m.buffer, env.beyond, p) && next == p + 2
    {
      len := At(m.buffer, env.beyond, p) * 256 + At(m.buffer, env.beyond, p + 1);
      next := p + 2;
    }

    /** The will topic and the will message, if there is a will, are passed over. */
    static method SkipWill(m: Msg, p: nat, flags: byte, env: Env) returns (payload: nat)
      ensures payload == if flags / 4 % 2 == 1 then After(m.buffer, env.beyond, After(m.buffer, env.beyond, p)) else p
    {
      payload := p;
      if flags / 4 % 2 == 1 {
        var len;
        len, payload := GetString(m, payload, env);
        payload := payload + len as nat;
        len, payload := GetString(m, payload, env);
        payload := payload + len as nat;
      }
    }

    /** The credentials at `p`. Leaving one out is allowed if the other is not set. */
    method CheckLogin(m: Msg, p: nat, flags: byte, env: Env) returns (ok: bool)
      ensures ok == LoginOk(m.buffer, env.beyond, p, flags, auth)
    {
      var payload: nat, len: uint16 := p, 0;
      if flags / 128 % 2 == 1 {
        len, payload := GetString(m, payload, env);
        if !auth.userOk(Slice(m.buffer, env.beyond, payload, len % 256)) {
          return false;
        }
        payload := payload + len as nat;
      } else if auth.hasPassword {
        return false;
      }
      if flags / 64 % 2 == 1 {
        len, payload := GetString(m, payload, env);
        return auth.passwordOk(Slice(m.buffer, env.beyond, payload, len % 256));
      }
      return !auth.hasUser;
    }

    /** The fixed fields: flags and keep-alive are kept whatever the protocol name and level are. */
    method TakeFixed(c: MqttClient, m: Msg, env: Env) returns (known: bool)
      modifies c`flags, c`keepAlive
      ensures var h := m.vheader as nat;
              && c.flags == At(m.buffer, env.beyond, h + 7) && c.keepAlive == StringLength(m.buffer, env.beyond, h + 8)
              && known == (Slice(m.buffer, env.beyond, h + 2, 4) == Handshake.MQTT
                           && At(m.buffer, env.beyond, h + 6) == 4)
    {
      var header := m.vheader as nat;
      c.flags := At(m.buffer, env.beyond, header + 7);
      c.keepAlive := At(m.buffer, env.beyond, header + 8) as int * 256 + At(m.buffer, env.beyond, header + 9) as int;
      return Slice(m.buffer, env.beyond, header + 2, 4) == Handshake.MQTT && At(m.buffer, env.beyond, header + 6) == 4;
    }

    /** Reads a CONNECT from its fixed fields on: the client's name is kept, a will skipped, the credentials checked. */
    method TakeConnect(c: MqttClient, m: Msg, env: Env) returns (accepted: bool)
      requires !c.connected
      modifies c`flags, c`keepAlive, c`clientId, c`connected
      ensures accepted == Connect(m, env.beyond, auth).accepted
      ensures c.View() == Connecting(old(c.View()), Connect(m, env.beyond, auth))
    {
      ghost var r := Connect(m, env.beyond, auth);
      var known := TakeFixed(c, m, env);
      assert c.flags == r.flags && c.keepAlive == r.keepAlive;
      if !known {
        assert r.clientId.None? && !r.accepted;
        return false;
      }
      var len, payload := GetString(m, m.vheader as nat + 10, env);
      c.clientId := Slice(m.buffer, env.beyond, payload, len);
      assert r.clientId == Some(c.clientId);
      payload := SkipWill(m, payload + len as nat, c.flags, env);
      c.connected := CheckLogin(m, payload, c.flags, env);
      assert c.connected == r.accepted;
      return c.connected;
    }

    /** The CONNECT branch: an accepted client is acknowledged, any other closed. */
    method ProcessConnect(c: MqttClient, m: Msg, env: Env)
      requires Wired(c) && Named(c) && !c.connected
      modifies this`clients, c, server, server.sd
      ensures SceneOf(c) == Solo.ConnectAlone(old(SceneOf(c)), c.id, auth, m, env)
    {
      var accepted := TakeConnect(c, m, env);
      if accepted {
        BuildAndSend(c, CONNACK, 0, [0, 0], env);
      } else {
        Close(c);
      }
    }

    method TakeTopic(c: MqttClient, codes: bytes, m: Msg, p: nat, env: Env) returns (codes': bytes, next: nat)
      modifies c`subs, indexer
      ensures next >= p + 2 && (codes' == codes || (|codes'| == |codes| + 1 && next >= p + 3))
      ensures (TopicsResult(indexer.strings, c.subs, codes'), next) ==
              Broker.TakeTopic(TopicsResult(old(indexer.strings), old(c.subs), codes), m.buffer, env.beyond, p,
                               IsSubscribe(m))
    {
      var len := StringLength(m.buffer, env.beyond, p);
      var text := Slice(m.buffer, env.beyond, p + 2, len % 256);
      next := p + 2 + len;
      codes' := codes;
      if IsSubscribe(m) {
        var qos := At(m.buffer, env.beyond, next);
        next := next + 1;
        codes' := codes' + [if qos != 0 then 0x80 else 0];
        Subscribe(c, text);
      } else {
        Unsubscribe(c, text);
      }
    }

    /** Inserting a topic: a temporary handle for the text, a copy of it if the set has none, the temporary
        destroyed. */
    method Subscribe(c: MqttClient, text: bytes)
      modifies c`subs, indexer
      ensures (indexer.strings, c.subs) == InsertTopic(old(indexer.strings), old(c.subs), text)
    {
      var topic := indexer.StrToIndex(text);
      if topic !in c.subs {
        indexer.Use(topic);
      }
      c.subs := c.subs + {topic};
      indexer.Release(topic);
    }

    method Unsubscribe(c: MqttClient, text: bytes)
      modifies c`subs, indexer
      ensures (indexer.strings, c.subs) == EraseTopic(old(indexer.strings), old(c.subs), text)
    {
      var topic := indexer.StrToIndex(text);
      if topic in c.subs {
        indexer.Release(topic);
      }
      c.subs := c.subs - {topic};
      indexer.Release(topic);
    }

    /** The loop of SUBSCRIBE and UNSUBSCRIBE: it ends because each turn moves on by at least two bytes. */
    method TakeTopics(c: MqttClient, m: Msg, env: Env) returns (codes: bytes)
      modifies c`subs, indexer
      ensures TopicsResult(indexer.strings, c.subs, codes) == Solo.Walked(old(SceneOf(c)), m, env)
      ensures codes == [] || 3 * (|codes| - 1) < |m.buffer|
    {
      ghost var goal := Solo.Walked(SceneOf(c), m, env);
      var start := AfterId(m);
      var p := start;
      codes := [];
      while p < |m.buffer|
        invariant WalkTopics(TopicsResult(indexer.strings, c.subs, codes), m.buffer, env.beyond, p, IsSubscribe(m))
               == goal
        invariant 3 * |codes| <= p - start && (codes == [] || 3 * (|codes| - 1) < |m.buffer|)
        decreases |m.buffer| - p
      {
        codes, p := TakeTopic(c, codes, m, p, env);
      }
    }

    /** The SUBSCRIBE and UNSUBSCRIBE branch: the topics are taken, then one acknowledgement is written. */
    method ProcessTopics(c: MqttClient, m: Msg, env: Env)
      requires Wired(c) && |m.buffer| <= MAX_BUFFER_LENGTH
      modifies c`subs, c`sent, indexer, server, server.sd
      ensures SceneOf(c) == Solo.TopicsAlone(old(SceneOf(c)), m, env, env.sendOk(c.id))
    {
      var codes := TakeTopics(c, m, env);
      assert SceneOf(c) == Solo.Taken(old(SceneOf(c)), TopicsResult(indexer.strings, c.subs, codes));
      Acknowledge(c, m, codes, env);
    }

    /** The answer: the packet identifier that came, and the return codes. */
    method Acknowledge(c: MqttClient, m: Msg, codes: bytes, env: Env)
      requires Wired(c) && 2 + |codes| <= Builder.MAX_BODY
      modifies c`sent, server, server.sd
      ensures SceneOf(c) == Solo.SendAlone(old(SceneOf(c)), Acknowledgement(m, env.beyond, codes), env.sendOk(c.id))
    {
      var h := m.vheader as nat;
      BuildAndSend(c, if IsSubscribe(m) then SUBACK else UNSUBACK, 0,
                   [At(m.buffer, env.beyond, h), At(m.buffer, env.beyond, h + 1)] + codes, env);
    }

    /** The packet of `resubscribe`: every topic, in index order. */
    method BuildResubscribe(c: MqttClient) returns (msg: MqttMessages.MqttMessage)
      ensures fresh(msg) && msg.View() == ResubscribeMsg(indexer.strings, c.subs)
    {
      msg := new MqttMessages.MqttMessage.Create(SUBSCRIBE, 2);
      ghost var start := CreateMsg(SUBSCRIBE, 2);
      msg.Add([0, 0], false);
      ghost var all := TopicList(indexer.strings, Ascending(c.subs, 0));
      ghost var done: bytes := [0, 0];
      var i := 0;
      while i < 256
        invariant 0 <= i <= 256 && fresh(msg) && msg.View() == Feed(start, done)
        invariant done + TopicList(indexer.strings, Ascending(c.subs, i)) == [0, 0] + all
      {
        ListHead(indexer.strings, c.subs, i, done);
        if i in c.subs {
          AddTopic(msg, Str(indexer.strings, i), start, done);
          done := done + (Prefixed(Str(indexer.strings, i)) + [0]);
        }
        i := i + 1;
      }
      assert done + [] == done;
    }

    static method AddTopic(msg: MqttMessages.MqttMessage, text: bytes, ghost start: Msg, ghost done: bytes)
      requires msg.View() == Feed(start, done)
      modifies msg
      ensures msg.View() == Feed(start, done + (Prefixed(text) + [0]))
    {
      FeedAppend(start, done, Prefixed(text));
      FeedSnoc(start, done + Prefixed(text), 0);
      msg.Add(text, true);
      msg.Incoming(0);
      assert done + Prefixed(text) + [0] == done + (Prefixed(text) + [0]);
    }

    /** A list too long for one packet resets the message while it is built; completing it is then defined only if
        three bytes have come in since, or none. */
    method Resubscribe(c: MqttClient, env: Env)
      requires Wired(c)
      requires Sendable(ResubscribeMsg(indexer.strings, c.subs))
      modifies c`sent, server, server.sd
      ensures SceneOf(c) == Solo.ResubscribeAlone(old(SceneOf(c)), env.sendOk(c.id))
    {
      if c.subs != {} {
        var msg := BuildResubscribe(c);
        SendTo(msg, c, env);
      }
    }

    // ---------- The dispatcher ----------

    /** `processMessage` for every packet that is not a publication to pass on. */
    method ProcessMessage(c: MqttClient, m: Msg, env: Env)
      requires Wired(c) && Named(c) && |m.buffer| <= MAX_BUFFER_LENGTH && Decide(c.View(), Type(m)) != Deliver
      requires Sendable(ResubscribeMsg(indexer.strings, c.subs))
      modifies this`clients, c, indexer, server, server.sd
      ensures SceneOf(c) == Solo.ProcessAlone(old(SceneOf(c)), c.id, auth, m, env)
    {
      var action := DecideAction(c, Type(m));
      Act(c, action, m, env);
    }

    /** The CONNACK branch. */
    method Acknowledged(c: MqttClient, env: Env)
      requires Wired(c) && Sendable(ResubscribeMsg(indexer.strings, c.subs))
      modifies c`connected, c`sent, server, server.sd
      ensures SceneOf(c) == Solo.AcknowledgedAlone(old(SceneOf(c)), env.sendOk(c.id))
    {
      c.connected := true;
      Resubscribe(c, env);
    }

    /** The PINGREQ branch. */
    method AnswerPing(c: MqttClient, env: Env)
      requires Wired(c)
      modifies c`sent, server, server.sd
      ensures SceneOf(c) == Solo.PongAlone(old(SceneOf(c)), env.sendOk(c.id))
    {
      WriteData(c, [PINGRESP, 0], env);
    }

    /** The body of each case. */
    method Act(c: MqttClient, action: Action, m: Msg, env: Env)
      requires Wired(c) && Named(c) && |m.buffer| <= MAX_BUFFER_LENGTH
      requires action != Deliver && (action == TryConnect ==> !c.connected)
      requires Sendable(ResubscribeMsg(indexer.strings, c.subs))
      modifies this`clients, c, indexer, server, server.sd
      ensures SceneOf(c) == Solo.ActAlone(old(SceneOf(c)), action, c.id, auth, m, env)
    {
      match action {
        case TryConnect =>
          ProcessConnect(c, m, env);
          return;
        case NowConnected =>
          Acknowledged(c, env);
          return;
        case Topics =>
          ProcessTopics(c, m, env);
          return;
        case Pong =>
          AnswerPing(c, env);
          return;
        case End =>
          Close(c);
          return;
        case _ =>
          return;
      }
    }

    /** A publication: from a remote client to every subscriber, otherwise to the client's own callback. */
    method ProcessPublish(c: MqttClient, env: Env)
      requires Wired(c) && Ready() && c.message.state == Complete && BrokerInv.AllUsed(indexer.strings)
      requires BrokerInv.AllUsed(Intern(indexer.strings, PublishTopic(c.message.View(), env.beyond)).0)
      modifies c.message, c`calls, (set x | x in clients), indexer, server, server.sd
      ensures c.message.View() == old(c.message.View()) && indexer.strings == old(indexer.strings)
      ensures c.remote && old(c.attached) ==>
                var (t, i) := Intern(old(indexer.strings), PublishTopic(old(c.message.View()), env.beyond));
                && AllViews() == Served(Ids(), old(AllViews()), |clients|, t, i, old(c.message.View()), env)
                && server.View() == EndToEnd.ServedTable(old(server.View()), t, Ids(), old(AllViews()), 0, i,
                                                         old(c.message.View()), env)
      ensures !(c.remote && old(c.attached)) ==>
                c.View() == Called(old(indexer.strings), old(c.View()), old(c.message.View()), env.beyond)
                && server.View() == old(server.View())
    {
      if c.remote && c.attached {
        ForwardPublish(c.message, env);
        return;
      }
      BrokerInv.TemporaryRestores(indexer.strings, PublishTopic(c.message.View(), env.beyond));
      ReceivePublish(c, c.message.View(), env);
    }

    /** One byte read in `MqttClient::loop`, unless it completes a publication: it goes into the receive buffer, a
        finished packet is processed and the buffer reset. */
    method ReadByte(c: MqttClient, b: byte, env: Env)
      requires Wired(c) && Named(c) && |c.message.buffer| <= MAX_BUFFER_LENGTH
      requires var m := Codec.Incoming(c.message.View(), b); Type(m) == 0 || Decide(c.View(), Type(m)) != Deliver
      requires Sendable(ResubscribeMsg(indexer.strings, c.subs))
      modifies this`clients, c, c.message, indexer, server, server.sd
      ensures SceneOf(c) == Solo.ReadAlone(old(SceneOf(c)), c.id, auth, b, env)
    {
      Receive(c, b);
      HandleFinished(c, env);
    }

    method HandleFinished(c: MqttClient, env: Env)
      requires Wired(c) && Named(c) && |c.message.buffer| <= MAX_BUFFER_LENGTH
      requires var t := Type(c.message.View()); t == 0 || Decide(c.View(), t) != Deliver
      requires Sendable(ResubscribeMsg(indexer.strings, c.subs))
      modifies this`clients, c, c.message, indexer, server, server.sd
      ensures SceneOf(c) == Solo.FinishedAlone(old(SceneOf(c)), c.id, auth, env)
    {
      var type_ := Type(c.message.View());
      if type_ != 0 {
        HandlePacket(c, env);
        return;
      }
    }

    /** A finished publication in the receive buffer is passed on or given to the callback, then the buffer is reset. */
    method HandlePublish(c: MqttClient, env: Env)
      requires Wired(c) && Ready() && c.message.state == Complete && BrokerInv.Spare(indexer.strings)
      modifies c.message, c`calls, (set x | x in clients), indexer, server, server.sd
      ensures c.message.View() == Codec.Reset(old(c.message.View())) && indexer.strings == old(indexer.strings)
      ensures c.remote && old(c.attached) ==>
                var (t, i) := Intern(old(indexer.strings), PublishTopic(old(c.message.View()), env.beyond));
                && LogsAs(Served(Ids(), old(AllViews()), |clients|, t, i, old(c.message.View()), env))
                && server.View() == EndToEnd.ServedTable(old(server.View()), t, Ids(), old(AllViews()), 0, i,
                                                         old(c.message.View()), env)
      ensures !(c.remote && old(c.attached)) ==>
                && c.View() == Called(old(indexer.strings), old(c.View()), old(c.message.View()), env.beyond)
                               .(message := c.message.View())
                && server.View() == old(server.View())
    {
      BrokerInv.SpareIntern(indexer.strings, PublishTopic(c.message.View(), env.beyond));
      ProcessPublish(c, env);
      ghost var views, view := AllViews(), c.View();
      c.message.Reset();
      assert LogsAs(views) && c.View() == view.(message := c.message.View());
    }

    /** Receive buffers apart, the registered clients are as given. */
    ghost predicate LogsAs(views: seq<Client>)
      reads this, (set c | c in clients), (set c | c in clients :: c.message)
    {
      && |views| == |clients|
      && forall i :: 0 <= i < |clients| ==> clients[i].View() == views[i].(message := clients[i].message.View())
    }

    method Receive(c: MqttClient, b: byte)
      modifies c.message
      ensures c.message.View() == Codec.Incoming(old(c.message.View()), b)
      ensures SceneOf(c) == Solo.Holding(old(SceneOf(c)), c.message.View())
    {
      c.message.Incoming(b);
    }

    /** A finished packet in the receive buffer is processed, then the buffer is reset. */
    method HandlePacket(c: MqttClient, env: Env)
      requires Wired(c) && Named(c) && |c.message.buffer| <= MAX_BUFFER_LENGTH
      requires Decide(c.View(), Type(c.message.View())) != Deliver
      requires Sendable(ResubscribeMsg(indexer.strings, c.subs))
      modifies this`clients, c, c.message, indexer, server, server.sd
      ensures SceneOf(c) == Solo.HandledAlone(old(SceneOf(c)), c.id, auth, old(c.message.View()), env)
    {
      ProcessMessage(c, c.message.View(), env);
      ghost var s := SceneOf(c);
      c.message.Reset();
      assert SceneOf(c) == Solo.Holding(s, c.message.View());
    }

    /** The switch over packet types. */
    method DecideAction(c: MqttClient, type_: byte) returns (a: Action)
      ensures a == Decide(c.View(), type_)
      ensures a == TryConnect ==> !c.connected
    {
      if type_ == CONNECT {
        return if c.connected then End else TryConnect;
      } else if type_ == CONNACK {
        return NowConnected;
      } else if type_ == PUBLISH {
        return if c.connected || !c.remote then Deliver else End;
      } else if type_ == PINGRESP {
        return Ignore;
      } else if !c.connected {
        return End;
      } else if type_ == SUBACK || type_ == PUBACK || type_ == UNSUBACK {
        return Ignore;
      } else if type_ == PINGREQ {
        return if c.remote then Pong else End;
      } else if type_ == SUBSCRIBE || type_ == UNSUBSCRIBE {
        return Topics;
      }
      return End;
    }
  }

  lemma AscendingHead(subs: set<byte>, i: byte)
    ensures var (here, rest) := (Ascending(subs, i), Ascending(subs, i as nat + 1));
            if i in subs then here != [] && here[0] == i && here[1..] == rest else here == rest
  {
    var rest := Ascending(subs, i as nat + 1);
    if i in subs {
      assert ([i] + rest)[1..] == rest;
    } else {
      assert [] + rest == rest;
    }
  }

  lemma ListHead(t: Strings, subs: set<byte>, i: byte, done: bytes)
    ensures done + TopicList(t, Ascending(subs, i)) ==
            (if i in subs then done + (Prefixed(Str(t, i)) + [0]) else done)
            + TopicList(t, Ascending(subs, i as nat + 1))
  {
    var rest := Ascending(subs, i as nat + 1);
    if i in subs {
      assert Ascending(subs, i) == [i] + rest && ([i] + rest)[1..] == rest;
      Regroup(done, Prefixed(Str(t, i)) + [0], TopicList(t, rest));
    } else {
      assert Ascending(subs, i) == rest;
    }
  }

  lemma ConnectParts(start: Msg, keepAlive: nat, id: bytes)
    ensures Feed(Feed(Feed(start, Prefixed(Handshake.MQTT)), [4, 0, 0, keepAlive % 256]), Prefixed(id))
         == Feed(start, Handshake.ConnectBody(keepAlive, id))
  {
    var name, fixed := Prefixed(Handshake.MQTT), [4, 0, 0, keepAlive % 256];
    FeedAppend(start, name, fixed);
    FeedAppend(start, name + fixed, Prefixed(id));
    ConnectHead(keepAlive % 256);
  }

  lemma ConnectHead(ka: byte)
    ensures Prefixed(Handshake.MQTT) + [4, 0, 0, ka] == [0, 4, 77, 81, 84, 84, 4, 0, 0, ka]
  {
  }

  lemma Regroup(a: bytes, b: bytes, c: bytes)
    ensures a + (b + c) == a + b + c
  {
  }
}
