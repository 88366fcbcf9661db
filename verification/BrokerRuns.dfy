/** Every run of the broker keeps the registry, the connections, the socket table and the decoders in order. */
module BrokerRuns {
  import opened Bytes
  import opened Codec
  import opened Interner
  import opened Broker
  import opened BrokerInv
  import Decoder
  import Sessions
  import SessionRuns

  /** The registry lists attached clients, each once, and every attached remote one; only an attached remote client is
      connected. */
  ghost predicate Registered(w: World) {
    && Unique(w.registry)
    && (forall k :: k in w.registry ==> k in w.objs && w.objs[k].attached)
    && (forall k :: k in w.objs && w.objs[k].remote && w.objs[k].attached ==> k in w.registry)
    && (forall k :: k in w.objs && w.objs[k].remote && w.objs[k].connected ==> w.objs[k].attached)
  }

  /** Remote clients, and only they, have a connection, and it is a slot of the table. */
  ghost predicate Wired(w: World) {
    forall k :: k in w.objs ==>
      (w.objs[k].remote <==> w.objs[k].connection.Some?)
      && (w.objs[k].connection.Some? ==> w.objs[k].connection.value < |w.table.slots|)
  }

  ghost predicate Linked(w: World) {
    Registered(w) && Wired(w) && TableOk(w.table)
  }

  /** Every attached client is in the registry. */
  ghost predicate Listed(w: World) {
    forall k :: k in w.objs && w.objs[k].attached ==> k in w.registry
  }

  /** Between bytes no client has a finished packet waiting. */
  ghost predicate Decoding(w: World) {
    forall k :: k in w.objs ==> Decoder.DecoderInv(w.objs[k].message) && Type(w.objs[k].message) == 0
  }

  /** A client less its logs. */
  function Core(c: Client): Client {
    c.(calls := [], sent := [])
  }

  /** Only logs, the socket table and the string table may differ. */
  ghost predicate Quiet(w: World, w': World) {
    && w'.registry == w.registry && w'.auth == w.auth
    && OnlyDeletes(w.table, w'.table)
    && w'.objs.Keys == w.objs.Keys && forall k :: k in w.objs ==> Core(w'.objs[k]) == Core(w.objs[k])
  }

  lemma QuietLinked(w: World, w': World)
    requires Linked(w) && Quiet(w, w') && TableOk(w'.table)
    ensures Linked(w')
  {
    forall k | k in w.objs ensures w'.objs[k] == w.objs[k].(calls := w'.objs[k].calls, sent := w'.objs[k].sent) {
      assert Core(w'.objs[k]) == Core(w.objs[k]);
    }
  }

  lemma QuietTrans(a: World, b: World, c: World)
    requires Quiet(a, b) && Quiet(b, c)
    ensures Quiet(a, c)
  {
  }

  // ---------- Sending and publishing ----------

  lemma SendQuiet(w: World, k: ClientId, b: bytes, env: Env)
    requires k in w.objs && TableOk(w.table)
    ensures Quiet(w, Send(w, k, b, env)) && TableOk(Send(w, k, b, env).table)
  {
    var c := w.objs[k];
    if c.connection.Some? && c.connection.value < |w.table.slots| {
      DeleteTable(w.table, c.connection.value);
    }
  }

  lemma SendMsgQuiet(w: World, k: ClientId, m: Msg, env: Env)
    requires k in w.objs && TableOk(w.table)
    ensures Quiet(w, SendMsg(w, k, m, env)) && TableOk(SendMsg(w, k, m, env).table)
  {
    SendQuiet(w, k, EncodeLength(m).buffer, env);
  }

  lemma ReceiveQuiet(w: World, k: ClientId, m: Msg, env: Env)
    requires k in w.objs && TableOk(w.table)
    ensures Quiet(w, ReceivePublish(w, k, m, env)) && ReceivePublish(w, k, m, env).table == w.table
  {
    CalledCore(w.strings, w.objs[k], m, env.beyond);
    var (t, i) := Intern(w.strings, PublishTopic(m, env.beyond));
    LogQuiet(w, k, Called(w.strings, w.objs[k], m, env.beyond), Release(t, i));
  }

  lemma LogQuiet(w: World, k: ClientId, c: Client, t: Strings)
    requires k in w.objs && Core(c) == Core(w.objs[k])
    ensures Quiet(w, w.(objs := w.objs[k := c], strings := t))
  {
  }

  lemma CalledCore(t: Strings, c: Client, m: Msg, beyond: nat -> byte)
    ensures Core(Called(t, c, m, beyond)) == Core(c)
  {
  }

  lemma OfferQuiet(w: World, k: ClientId, topic: byte, m: Msg, env: Env)
    requires TableOk(w.table)
    ensures Quiet(w, Offer(w, k, topic, m, env)) && TableOk(Offer(w, k, topic, m, env).table)
  {
    if k in w.objs {
      SendMsgQuiet(w, k, m, env);
      ReceiveQuiet(w, k, m, env);
    }
  }

  lemma {:induction false} FanoutQuiet(w: World, ks: seq<ClientId>, topic: byte, m: Msg, env: Env)
    requires TableOk(w.table)
    ensures Quiet(w, Fanout(w, ks, topic, m, env)) && TableOk(Fanout(w, ks, topic, m, env).table)
    decreases |ks|
  {
    if ks != [] {
      var w' := Offer(w, ks[0], topic, m, env);
      OfferQuiet(w, ks[0], topic, m, env);
      FanoutQuiet(w', ks[1..], topic, m, env);
      QuietTrans(w, w', Fanout(w', ks[1..], topic, m, env));
    }
  }

  lemma ForwardQuiet(w: World, m: Msg, env: Env)
    requires TableOk(w.table)
    ensures Quiet(w, ForwardPublish(w, m, env)) && TableOk(ForwardPublish(w, m, env).table)
  {
    var (t, i) := Intern(w.strings, PublishTopic(m, env.beyond));
    FanoutQuiet(w.(strings := t), w.registry, i, m, env);
  }

  lemma LocalQuiet(w: World, text: bytes, payload: bytes, env: Env)
    requires TableOk(w.table)
    ensures Quiet(w, LocalPublish(w, text, payload, env)) && TableOk(LocalPublish(w, text, payload, env).table)
  {
    var (t, i) := Intern(w.strings, TopicText(text));
    FanoutQuiet(w.(strings := t), w.registry, i, Build(PUBLISH, 0, Prefixed(Str(t, i)) + payload), env);
  }

  // ---------- Closing ----------

  ghost predicate Unique(s: seq<ClientId>) {
    forall i, j :: 0 <= i < j < |s| ==> s[i] != s[j]
  }

  lemma UniqueTail(s: seq<ClientId>)
    requires Unique(s) && s != []
    ensures Unique(s[1..]) && s[0] !in s[1..]
  {
  }

  lemma UniqueCons(x: ClientId, s: seq<ClientId>)
    requires Unique(s) && x !in s
    ensures Unique([x] + s)
  {
  }

  lemma {:induction false} EraseMeans(s: seq<ClientId>, k: ClientId)
    requires Unique(s)
    ensures Unique(Erase(s, k))
    ensures forall x :: x in Erase(s, k) <==> x in s && x != k
    ensures |Erase(s, k)| == |s| - if k in s then 1 else 0
  {
    if s != [] {
      UniqueTail(s);
      EraseMeans(s[1..], k);
      assert s == [s[0]] + s[1..];
      if s[0] != k {
        UniqueCons(s[0], Erase(s[1..], k));
      }
    }
  }

  lemma CloseRegistered(w: World, k: ClientId)
    requires Registered(w) && Wired(w) && k in w.objs
    ensures Registered(Close(w, k))
    ensures forall x :: x in Close(w, k).registry <==> x in w.registry && x != k
  {
    EraseMeans(w.registry, k);
    var w' := Close(w, k);
    assert forall x :: x in w'.registry <==> x in w.registry && x != k;
    forall x | x in w'.registry ensures x in w'.objs && w'.objs[x].attached {
      assert x in w.registry && x in w.objs;
      assert w'.objs[x] == w.objs[x];
    }
  }

  lemma CloseLinked(w: World, k: ClientId)
    requires Linked(w) && k in w.objs
    ensures Linked(Close(w, k))
  {
    CloseRegistered(w, k);
    var c := w.objs[k];
    if c.connection.Some? {
      DeleteTable(w.table, c.connection.value);
    }
  }

  // ---------- One packet ----------

  /** Changing fields of one client that no link ties to anything else. */
  lemma UpdateLinked(w: World, k: ClientId, c: Client, t: Strings)
    requires Linked(w) && k in w.objs && c.attached == w.objs[k].attached && c.remote == w.objs[k].remote
    requires c.connection == w.objs[k].connection && (c.connected ==> w.objs[k].connected || c.attached)
    ensures Linked(w.(strings := t, objs := w.objs[k := c]))
  {
  }

  lemma ConnectLinked(w: World, k: ClientId, m: Msg, env: Env)
    requires Linked(w) && k in w.objs && w.objs[k].attached
    ensures Linked(ProcessConnect(w, k, m, env))
  {
    var r := Connect(m, env.beyond, w.auth);
    var c' := Connecting(w.objs[k], r);
    var w' := w.(objs := w.objs[k := c']);
    UpdateLinked(w, k, c', w.strings);
    if r.accepted {
      SendMsgQuiet(w', k, ConnAck(), env);
      QuietLinked(w', SendMsg(w', k, ConnAck(), env));
    } else {
      CloseLinked(w', k);
    }
  }

  lemma TopicsLinked(w: World, k: ClientId, m: Msg, env: Env)
    requires Linked(w) && k in w.objs
    ensures Linked(ProcessTopics(w, k, m, env))
  {
    var r := TakeTopics(w.strings, w.objs[k].subs, m.buffer, env.beyond, AfterId(m), IsSubscribe(m));
    var w' := w.(strings := r.strings, objs := w.objs[k := w.objs[k].(subs := r.subs)]);
    UpdateLinked(w, k, w.objs[k].(subs := r.subs), r.strings);
    var msg := Acknowledgement(m, env.beyond, r.codes);
    SendMsgQuiet(w', k, msg, env);
    QuietLinked(w', SendMsg(w', k, msg, env));
  }

  lemma ResubscribeQuiet(w: World, k: ClientId, env: Env)
    requires k in w.objs && TableOk(w.table)
    ensures Quiet(w, Resubscribe(w, k, env)) && TableOk(Resubscribe(w, k, env).table)
  {
    if w.objs[k].subs != {} {
      SendMsgQuiet(w, k, ResubscribeMsg(w.strings, w.objs[k].subs), env);
    }
  }

  lemma AckLinked(w: World, k: ClientId, env: Env)
    requires Linked(w) && k in w.objs && w.objs[k].attached
    ensures Linked(Resubscribe(w.(objs := w.objs[k := w.objs[k].(connected := true)]), k, env))
  {
    var w' := w.(objs := w.objs[k := w.objs[k].(connected := true)]);
    UpdateLinked(w, k, w.objs[k].(connected := true), w.strings);
    ResubscribeQuiet(w', k, env);
    QuietLinked(w', Resubscribe(w', k, env));
  }

  lemma PingLinked(w: World, k: ClientId, env: Env)
    requires Linked(w) && k in w.objs
    ensures Linked(Send(w, k, [PINGRESP, 0], env))
  {
    SendQuiet(w, k, [PINGRESP, 0], env);
    QuietLinked(w, Send(w, k, [PINGRESP, 0], env));
  }

  lemma PublishQuiet(w: World, k: ClientId, m: Msg, env: Env)
    requires k in w.objs && TableOk(w.table)
    ensures Quiet(w, ProcessPublish(w, k, m, env)) && TableOk(ProcessPublish(w, k, m, env).table)
  {
    if w.objs[k].remote && w.objs[k].attached {
      ForwardQuiet(w, m, env);
    } else {
      ReceiveQuiet(w, k, m, env);
    }
  }

  /** Whatever packet comes from an attached client, the links survive it. */
  lemma ProcessLinked(w: World, k: ClientId, m: Msg, env: Env)
    requires Linked(w) && k in w.objs && w.objs[k].attached
    ensures Linked(ProcessMessage(w, k, m, env))
  {
    match Decide(w.objs[k], Type(m)) {
      case TryConnect => ConnectLinked(w, k, m, env); return;
      case NowConnected => AckLinked(w, k, env); return;
      case Deliver =>
        PublishQuiet(w, k, m, env);
        QuietLinked(w, ProcessPublish(w, k, m, env));
        return;
      case Topics => TopicsLinked(w, k, m, env); return;
      case Pong => PingLinked(w, k, env); return;
      case Ignore => return;
      case End => CloseLinked(w, k); return;
    }
  }

  // ---------- What a packet can touch ----------

  /** Client `k` keeps its buffer and its wiring, every other client all but its logs. */
  ghost predicate Frame(w: World, w': World, k: ClientId) {
    && k in w.objs && w'.objs.Keys == w.objs.Keys && w'.auth == w.auth && OnlyDeletes(w.table, w'.table)
    && (forall j :: j in w.objs && j != k ==> Core(w'.objs[j]) == Core(w.objs[j]))
    && w'.objs[k].message == w.objs[k].message && w'.objs[k].remote == w.objs[k].remote
    && w'.objs[k].connection == w.objs[k].connection && w'.objs[k].callback == w.objs[k].callback
  }

  lemma QuietFrame(w: World, w': World, k: ClientId)
    requires Quiet(w, w') && k in w.objs
    ensures Frame(w, w', k)
  {
    assert Core(w'.objs[k]) == Core(w.objs[k]);
  }

  lemma FrameThenQuiet(a: World, b: World, c: World, k: ClientId)
    requires Frame(a, b, k) && Quiet(b, c)
    ensures Frame(a, c, k)
  {
    assert Core(c.objs[k]) == Core(b.objs[k]);
  }

  lemma CloseFrame(w: World, k: ClientId)
    requires k in w.objs
    ensures Frame(w, Close(w, k), k)
  {
  }

  lemma ConnectFrame(w: World, k: ClientId, m: Msg, env: Env)
    requires k in w.objs && TableOk(w.table)
    ensures Frame(w, ProcessConnect(w, k, m, env), k)
  {
    var r := Connect(m, env.beyond, w.auth);
    var c' := Connecting(w.objs[k], r);
    var w' := w.(objs := w.objs[k := c']);
    if r.accepted {
      SendMsgQuiet(w', k, ConnAck(), env);
      FrameThenQuiet(w, w', ProcessConnect(w, k, m, env), k);
    }
  }

  lemma TopicsFrame(w: World, k: ClientId, m: Msg, env: Env)
    requires k in w.objs && TableOk(w.table)
    ensures Frame(w, ProcessTopics(w, k, m, env), k)
  {
    var r := TakeTopics(w.strings, w.objs[k].subs, m.buffer, env.beyond, AfterId(m), IsSubscribe(m));
    var w' := w.(strings := r.strings, objs := w.objs[k := w.objs[k].(subs := r.subs)]);
    SendMsgQuiet(w', k, Acknowledgement(m, env.beyond, r.codes), env);
    FrameThenQuiet(w, w', ProcessTopics(w, k, m, env), k);
  }

  lemma AckFrame(w: World, k: ClientId, env: Env)
    requires k in w.objs && TableOk(w.table)
    ensures Frame(w, Resubscribe(w.(objs := w.objs[k := w.objs[k].(connected := true)]), k, env), k)
  {
    var w' := w.(objs := w.objs[k := w.objs[k].(connected := true)]);
    ResubscribeQuiet(w', k, env);
    FrameThenQuiet(w, w', Resubscribe(w', k, env), k);
  }

  lemma PingFrame(w: World, k: ClientId, env: Env)
    requires k in w.objs && TableOk(w.table)
    ensures Frame(w, Send(w, k, [PINGRESP, 0], env), k)
  {
    SendQuiet(w, k, [PINGRESP, 0], env);
    QuietFrame(w, Send(w, k, [PINGRESP, 0], env), k);
  }

  lemma PublishFrame(w: World, k: ClientId, m: Msg, env: Env)
    requires k in w.objs && TableOk(w.table)
    ensures Frame(w, ProcessPublish(w, k, m, env), k)
  {
    PublishQuiet(w, k, m, env);
    QuietFrame(w, ProcessPublish(w, k, m, env), k);
  }

  lemma ProcessFrame(w: World, k: ClientId, m: Msg, env: Env)
    requires k in w.objs && TableOk(w.table)
    ensures Frame(w, ProcessMessage(w, k, m, env), k)
  {
    match Decide(w.objs[k], Type(m)) {
      case TryConnect => ConnectFrame(w, k, m, env); return;
      case NowConnected => AckFrame(w, k, env); return;
      case Deliver => PublishFrame(w, k, m, env); return;
      case Topics => TopicsFrame(w, k, m, env); return;
      case Pong => PingFrame(w, k, env); return;
      case Ignore => return;
      case End => CloseFrame(w, k); return;
    }
  }

  // ---------- One event ----------

  lemma MessageLinked(w: World, k: ClientId, m: Msg)
    requires Linked(w) && k in w.objs
    ensures Linked(w.(objs := w.objs[k := w.objs[k].(message := m)]))
  {
    UpdateLinked(w, k, w.objs[k].(message := m), w.strings);
    assert w.(strings := w.strings, objs := w.objs[k := w.objs[k].(message := m)])
        == w.(objs := w.objs[k := w.objs[k].(message := m)]);
  }

  lemma ReadLinked(w: World, k: ClientId, b: byte, env: Env)
    requires Linked(w) && Readable(w, k)
    ensures Linked(ReadByte(w, k, b, env))
  {
    var m := Incoming(w.objs[k].message, b);
    MessageLinked(w, k, m);
    if Type(m) != 0 {
      PacketLinked(w.(objs := w.objs[k := w.objs[k].(message := m)]), k, m, env);
    }
  }

  lemma ReadDecoding(w: World, k: ClientId, b: byte, env: Env)
    requires Decoding(w) && TableOk(w.table) && k in w.objs
    ensures Decoding(ReadByte(w, k, b, env))
  {
    var m := Incoming(w.objs[k].message, b);
    var w' := w.(objs := w.objs[k := w.objs[k].(message := m)]);
    Decoder.InvStep(w.objs[k].message, b);
    if Type(m) != 0 {
      ProcessFrame(w', k, m, env);
      PacketDecoding(w, w', ProcessMessage(w', k, m, env), k, m);
    }
  }

  /** A finished packet is processed and the buffer reset. */
  lemma PacketLinked(w: World, k: ClientId, m: Msg, env: Env)
    requires Linked(w) && k in w.objs && w.objs[k].attached
    ensures var w' := ProcessMessage(w, k, m, env);
            Frame(w, w', k) && Linked(w'.(objs := w'.objs[k := w'.objs[k].(message := Reset(m))]))
  {
    ProcessLinked(w, k, m, env);
    ProcessFrame(w, k, m, env);
    MessageLinked(ProcessMessage(w, k, m, env), k, Reset(m));
  }

  lemma PacketDecoding(w: World, w': World, w'': World, k: ClientId, m: Msg)
    requires Decoding(w) && k in w.objs && w'.objs == w.objs[k := w.objs[k].(message := m)] && Frame(w', w'', k)
    ensures Decoding(w''.(objs := w''.objs[k := w''.objs[k].(message := Reset(m))]))
  {
    forall j | j in w.objs && j != k ensures Core(w''.objs[j]) == Core(w.objs[j]) {
      assert w'.objs[j] == w.objs[j];
    }
    ResetDecoding(w, w'', k, m);
  }

  lemma ResetDecoding(w: World, w': World, k: ClientId, m: Msg)
    requires Decoding(w) && k in w.objs && w'.objs.Keys == w.objs.Keys
    requires forall j :: j in w.objs && j != k ==> Core(w'.objs[j]) == Core(w.objs[j])
    ensures Decoding(w'.(objs := w'.objs[k := w'.objs[k].(message := Reset(m))]))
  {
    var objs := w'.objs[k := w'.objs[k].(message := Reset(m))];
    forall j | j in objs ensures Decoder.DecoderInv(objs[j].message) && Type(objs[j].message) == 0 {
      if j != k {
        assert Core(objs[j]) == Core(w.objs[j]);
        assert objs[j].message == w.objs[j].message;
      }
    }
  }

  lemma QuietDecoding(w: World, w': World)
    requires Decoding(w) && Quiet(w, w')
    ensures Decoding(w')
  {
    forall j | j in w'.objs ensures w'.objs[j].message == w.objs[j].message {
      assert Core(w'.objs[j]) == Core(w.objs[j]);
    }
  }

  lemma AddLinked(w: World, k: ClientId, c: Client, t: Sessions.Table)
    requires Linked(w) && k !in w.objs && TableOk(t) && |t.slots| == |w.table.slots| && c.attached && !c.connected
    requires (c.remote <==> c.connection.Some?) && (c.connection.Some? ==> c.connection.value < |t.slots|)
    ensures Linked(w.(table := t, registry := w.registry + [k], objs := w.objs[k := c]))
  {
  }

  lemma AcceptLinked(w: World, e: Event)
    requires Linked(w) && e.Accept? && Enabled(w, e)
    ensures Linked(Step(w, e))
  {
    AcceptTable(w.table, e.lruPurge, e.pending, e.fd, e.openOk);
    var (t, s) := Sessions.CheckAvail(w.table, e.lruPurge, e.pending, e.fd, e.openOk);
    if s.Some? {
      AddLinked(w, e.k, NewClient(s, [], false), t);
    }
  }

  lemma SubsLinked(w: World, k: ClientId, t: Strings, subs: set<byte>)
    requires Linked(w) && k in w.objs
    ensures Linked(w.(strings := t, objs := w.objs[k := w.objs[k].(subs := subs)]))
  {
    UpdateLinked(w, k, w.objs[k].(subs := subs), t);
  }

  /** Attaching a client again takes it out of the registry. */
  lemma AttachLinked(w: World, k: ClientId)
    requires Linked(w) && Enabled(w, Attach(k))
    ensures Linked(Step(w, Attach(k)))
    ensures forall x :: x in Step(w, Attach(k)).registry <==> x in w.registry && x != k
    ensures Step(w, Attach(k)).objs[k].attached
  {
    CloseLinked(w, k);
    CloseRegistered(w, k);
    UpdateAttached(Close(w, k), k);
  }

  lemma UpdateAttached(w: World, k: ClientId)
    requires Linked(w) && k in w.objs && !w.objs[k].remote && k !in w.registry
    ensures Linked(w.(objs := w.objs[k := w.objs[k].(attached := true)]))
  {
  }

  lemma AppLinked(w: World, e: Event)
    requires Linked(w) && Enabled(w, e)
    requires e.Subscribe? || e.Unsubscribe? || e.Publish? || e.NewLocal? || e.Attach? || e.Hold? || e.Drop?
    ensures Linked(Step(w, e))
  {
    match e {
      case NewLocal(k, id, callback) =>
        AddLinked(w, k, NewClient(None, id, callback), w.table);
        return;
      case Attach(k) =>
        AttachLinked(w, k);
        return;
      case Subscribe(k, text) =>
        var (t, subs) := InsertTopic(w.strings, w.objs[k].subs, TopicText(text));
        SubsLinked(w, k, t, subs);
        return;
      case Unsubscribe(k, text) =>
        var (t, subs) := EraseTopic(w.strings, w.objs[k].subs, TopicText(text));
        SubsLinked(w, k, t, subs);
        return;
      case Publish(k, text, payload, env) =>
        LocalQuiet(w, text, payload, env);
        QuietLinked(w, Step(w, e));
        return;
      case Hold(text) => return;
      case Drop(i) => return;
    }
  }

  lemma StepLinked(w: World, e: Event)
    requires Linked(w) && Enabled(w, e)
    ensures Linked(Step(w, e))
  {
    match e {
      case Accept(k, lruPurge, pending, fd, openOk) =>
        AcceptLinked(w, e);
        return;
      case Read(k, b, env) =>
        if Readable(w, k) {
          ReadLinked(w, k, b, env);
        }
        return;
      case ReadError(k) =>
        if Readable(w, k) {
          DeleteTable(w.table, w.objs[k].connection.value);
        }
        return;
      case Timeout(k) =>
        if k in w.objs && w.objs[k].attached {
          CloseLinked(w, k);
        }
        return;
      case _ =>
        AppLinked(w, e);
        return;
    }
  }

  lemma LocalDecoding(w: World, text: bytes, payload: bytes, env: Env)
    requires Decoding(w) && TableOk(w.table)
    ensures Decoding(LocalPublish(w, text, payload, env))
  {
    LocalQuiet(w, text, payload, env);
    QuietDecoding(w, LocalPublish(w, text, payload, env));
  }

  lemma AppDecoding(w: World, e: Event)
    requires Decoding(w) && TableOk(w.table) && Enabled(w, e)
    requires e.Subscribe? || e.Unsubscribe? || e.Publish? || e.NewLocal? || e.Attach? || e.Hold? || e.Drop?
    ensures Decoding(Step(w, e))
  {
    match e {
      case Publish(k, text, payload, env) => LocalDecoding(w, text, payload, env); return;
      case NewLocal(k, id, callback) => AddDecoding(w, Step(w, e), k); return;
      case Subscribe(k, text) => SameDecoding(w, Step(w, e), k); return;
      case Unsubscribe(k, text) => SameDecoding(w, Step(w, e), k); return;
      case Attach(k) => SameDecoding(w, Step(w, e), k); return;
      case Hold(text) => return;
      case Drop(i) => return;
    }
  }

  lemma StepDecoding(w: World, e: Event)
    requires Decoding(w) && TableOk(w.table) && Enabled(w, e)
    ensures Decoding(Step(w, e))
  {
    match e {
      case Read(k, b, env) =>
        if Readable(w, k) {
          ReadDecoding(w, k, b, env);
        }
        return;
      case Accept(k, lruPurge, pending, fd, openOk) => AddDecoding(w, Step(w, e), k); return;
      case Timeout(k) =>
        if k in w.objs {
          SameDecoding(w, Step(w, e), k);
        }
        return;
      case ReadError(k) => return;
      case _ => AppDecoding(w, e); return;
    }
  }

  lemma SameDecoding(w: World, w': World, k: ClientId)
    requires Decoding(w) && k in w.objs && k in w'.objs && w'.objs == w.objs[k := w'.objs[k]]
    requires w'.objs[k].message == w.objs[k].message
    ensures Decoding(w')
  {
  }

  lemma AddDecoding(w: World, w': World, k: ClientId)
    requires Decoding(w) && k !in w.objs
    requires w'.objs == w.objs || (k in w'.objs && w'.objs == w.objs[k := w'.objs[k]] && w'.objs[k].message == Fresh(0))
    ensures Decoding(w')
  {
  }

  // ---------- Runs ----------

  /** A run the program can make. */
  ghost predicate CanRun(w: World, es: seq<Event>)
    decreases |es|
  {
    es == [] || (Enabled(w, es[0]) && CanRun(Step(w, es[0]), es[1..]))
  }

  ghost function Run(w: World, es: seq<Event>): World
    requires CanRun(w, es)
    decreases |es|
  {
    if es == [] then w else Run(Step(w, es[0]), es[1..])
  }

  /** One step and the first `j - 1` of the rest are the first `j` steps. */
  lemma RunHead(w: World, es: seq<Event>, j: nat)
    requires es != [] && CanRun(w, es) && 1 <= j <= |es| && CanRun(Step(w, es[0]), es[1..][..j - 1])
    ensures CanRun(w, es[..j]) && Run(w, es[..j]) == Run(Step(w, es[0]), es[1..][..j - 1])
  {
    assert es[..j][1..] == es[1..][..j - 1];
  }

  lemma RunOne(w: World, e: Event, es: seq<Event>)
    requires Enabled(w, e) && CanRun(Step(w, e), es)
    ensures CanRun(w, [e] + es) && Run(w, [e] + es) == Run(Step(w, e), es)
  {
    assert ([e] + es)[1..] == es;
  }

  lemma RunThree(w: World, e0: Event, e1: Event, e2: Event, w1: World, w2: World)
    requires Enabled(w, e0) && w1 == Step(w, e0) && Enabled(w1, e1) && w2 == Step(w1, e1) && Enabled(w2, e2)
    ensures CanRun(w, [e0, e1, e2]) && Run(w, [e0, e1, e2]) == Step(w2, e2)
  {
    RunOne(w2, e2, []);
    RunOne(w1, e1, [e2]);
    RunOne(w, e0, [e1, e2]);
    assert [e0] + [e1, e2] == [e0, e1, e2] && [e1] + [e2] == [e1, e2] && [e2] + [] == [e2];
  }

  /** A broker with no client, `n` free slots, and whatever topics the application already holds. */
  function Start(n: nat, strings: Strings, auth: Auth): World {
    World([], map[], SessionRuns.Start(n).t, strings, auth)
  }

  lemma StartLinked(n: nat, strings: Strings, auth: Auth)
    ensures Linked(Start(n, strings, auth)) && Decoding(Start(n, strings, auth))
  {
    SessionRuns.StartInv(n);
    SessionRuns.StartMeans(n);
  }

  /** The links hold, and the decoders stay in order, in every state of every run, I/O errors included. */
  lemma {:induction false} RunLinked(w: World, es: seq<Event>)
    requires Linked(w) && Decoding(w) && CanRun(w, es)
    ensures Linked(Run(w, es)) && Decoding(Run(w, es))
    decreases |es|
  {
    if es != [] {
      StepLinked(w, es[0]);
      StepDecoding(w, es[0]);
      RunLinked(Step(w, es[0]), es[1..]);
    }
  }

  // ---------- Clients attached but not registered ----------

  lemma QuietListed(w: World, w': World)
    requires Quiet(w, w') && Listed(w)
    ensures Listed(w')
  {
    forall k | k in w'.objs && w'.objs[k].attached ensures k in w'.registry {
      assert Core(w'.objs[k]) == Core(w.objs[k]);
    }
  }

  lemma CloseListed(w: World, k: ClientId)
    requires Linked(w) && Listed(w) && k in w.objs
    ensures Listed(Close(w, k))
  {
    CloseRegistered(w, k);
  }

  lemma SentListed(w: World, k: ClientId, m: Msg, env: Env)
    requires Listed(w) && TableOk(w.table) && k in w.objs
    ensures Listed(SendMsg(w, k, m, env))
  {
    SendMsgQuiet(w, k, m, env);
    QuietListed(w, SendMsg(w, k, m, env));
  }

  lemma ConnectListed(w: World, k: ClientId, m: Msg, env: Env)
    requires Linked(w) && Listed(w) && k in w.objs && w.objs[k].attached
    ensures Listed(ProcessConnect(w, k, m, env))
  {
    var r := Connect(m, env.beyond, w.auth);
    var c' := Connecting(w.objs[k], r);
    var w' := w.(objs := w.objs[k := c']);
    UpdateLinked(w, k, c', w.strings);
    if r.accepted {
      SentListed(w', k, ConnAck(), env);
    } else {
      CloseListed(w', k);
    }
  }

  lemma AckListed(w: World, k: ClientId, env: Env)
    requires Linked(w) && Listed(w) && k in w.objs
    ensures Listed(Resubscribe(w.(objs := w.objs[k := w.objs[k].(connected := true)]), k, env))
  {
    var w' := w.(objs := w.objs[k := w.objs[k].(connected := true)]);
    ResubscribeQuiet(w', k, env);
    QuietListed(w', Resubscribe(w', k, env));
  }

  lemma TopicsListed(w: World, k: ClientId, m: Msg, env: Env)
    requires Linked(w) && Listed(w) && k in w.objs
    ensures Listed(ProcessTopics(w, k, m, env))
  {
    var r := TakeTopics(w.strings, w.objs[k].subs, m.buffer, env.beyond, AfterId(m), IsSubscribe(m));
    var w' := w.(strings := r.strings, objs := w.objs[k := w.objs[k].(subs := r.subs)]);
    SentListed(w', k, Acknowledgement(m, env.beyond, r.codes), env);
  }

  lemma ProcessListed(w: World, k: ClientId, m: Msg, env: Env)
    requires Linked(w) && Listed(w) && k in w.objs && w.objs[k].attached
    ensures Listed(ProcessMessage(w, k, m, env))
  {
    match Decide(w.objs[k], Type(m)) {
      case TryConnect => ConnectListed(w, k, m, env); return;
      case NowConnected => AckListed(w, k, env); return;
      case Deliver =>
        PublishQuiet(w, k, m, env);
        QuietListed(w, ProcessPublish(w, k, m, env));
        return;
      case Topics => TopicsListed(w, k, m, env); return;
      case Pong =>
        SendQuiet(w, k, [PINGRESP, 0], env);
        QuietListed(w, Send(w, k, [PINGRESP, 0], env));
        return;
      case Ignore => return;
      case End => CloseListed(w, k); return;
    }
  }

  lemma ReadListed(w: World, k: ClientId, b: byte, env: Env)
    requires Linked(w) && Listed(w) && Readable(w, k)
    ensures Listed(ReadByte(w, k, b, env))
  {
    var m := Incoming(w.objs[k].message, b);
    var w' := w.(objs := w.objs[k := w.objs[k].(message := m)]);
    if Type(m) != 0 {
      MessageLinked(w, k, m);
      ProcessListed(w', k, m, env);
    }
  }

  /** Every attached client stays registered, except that `connect` to a broker of the same program unregisters it. */
  lemma StepListed(w: World, e: Event)
    requires Linked(w) && Listed(w) && Enabled(w, e)
    ensures Listed(Step(w, e)) <==> !e.Attach?
  {
    match e {
      case Accept(k, lruPurge, pending, fd, openOk) => return;
      case Read(k, b, env) =>
        if Readable(w, k) {
          ReadListed(w, k, b, env);
        }
        return;
      case Timeout(k) =>
        if k in w.objs && w.objs[k].attached {
          CloseListed(w, k);
        }
        return;
      case Publish(k, text, payload, env) =>
        LocalQuiet(w, text, payload, env);
        QuietListed(w, Step(w, e));
        return;
      case Attach(k) => AttachLinked(w, k); return;
      case _ => return;
    }
  }

  /** The first connection to a broker with one session. */
  lemma FirstAccept(auth: Auth) returns (w: World)
    ensures var (w0, e) := (Start(1, map[], auth), Accept(0, false, true, 5, true));
            CanRun(w0, [e]) && Run(w0, [e]) == w == Step(w0, e)
    ensures w.registry == [0] && w.objs == map[0 := NewClient(Some(0), [], false)] && w.strings == map[]
    ensures |w.table.slots| == 1 && w.table.slots[0].fd == 5 && Linked(w) && Decoding(w)
  {
    var (w0, e) := (Start(1, map[], auth), Accept(0, false, true, 5, true));
    StartLinked(1, map[], auth);
    w := Step(w0, e);
    StepLinked(w0, e);
    StepDecoding(w0, e);
    SessionRuns.StartMeans(1);
    OnlySlot(w0.table, 5);
    assert [e][1..] == [];
  }

  lemma OnlySlot(t: Sessions.Table, fd: int)
    requires TableOk(t) && |t.slots| == 1 && t.slots[0].fd < 0 && fd >= 0
    ensures var (t', s) := Sessions.CheckAvail(t, false, true, fd, true);
            s == Some(0) && |t'.slots| == 1 && t'.slots[0].fd == fd
  {
    SessionRuns.CachedLookup(t, fd);
    SessionRuns.FindMeans(t, fd);
    SessionRuns.Availability(HistoryOf(t));
  }
}
