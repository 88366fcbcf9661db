/** What a remote client can do before, during and after its session. */
module SessionProtocol {
  import opened Bytes
  import opened Codec
  import opened Interner
  import opened Broker
  import opened BrokerInv
  import opened BrokerRuns

  /** The packet lets the client in. */
  predicate LetsIn(w: World, k: ClientId, m: Msg, env: Env)
    requires k in w.objs
  {
    Type(m) == CONNACK || (Type(m) == CONNECT && !w.objs[k].connected && Connect(m, env.beyond, w.auth).accepted)
  }

  /** The packet is one a connected client may send. */
  predicate MayFollow(m: Msg) {
    var t := Type(m);
    t == CONNACK || t == PINGRESP || t == SUBACK || t == PUBACK || t == UNSUBACK || t == PINGREQ || t == SUBSCRIBE
    || t == UNSUBSCRIBE || t == PUBLISH
  }

  /** Everyone but `k` is exactly as before. */
  ghost predicate OnlyTouches(w: World, w': World, k: ClientId) {
    w'.objs.Keys == w.objs.Keys && forall j :: j in w.objs && j != k ==> w'.objs[j] == w.objs[j]
  }

  lemma SendTouches(w: World, k: ClientId, m: Msg, env: Env)
    requires k in w.objs
    ensures var w' := SendMsg(w, k, m, env);
            && OnlyTouches(w, w', k) && w'.strings == w.strings && w'.registry == w.registry
            && w'.objs[k] == w.objs[k].(sent := w'.objs[k].sent)
  {
  }

  lemma ConnectTouches(w: World, k: ClientId, m: Msg, env: Env)
    requires k in w.objs
    ensures var w' := ProcessConnect(w, k, m, env);
            && OnlyTouches(w, w', k) && w'.strings == w.strings
            && w'.objs[k].subs == w.objs[k].subs && w'.objs[k].calls == w.objs[k].calls
            && w'.objs[k].connected == Connect(m, env.beyond, w.auth).accepted
            && w'.registry == if w'.objs[k].connected || !w.objs[k].attached then w.registry else Erase(w.registry, k)
  {
    var r := Connect(m, env.beyond, w.auth);
    var c' := Connecting(w.objs[k], r);
    if r.accepted {
      SendTouches(w.(objs := w.objs[k := c']), k, ConnAck(), env);
    }
  }

  lemma TopicsTouches(w: World, k: ClientId, m: Msg, env: Env)
    requires k in w.objs
    ensures var w' := ProcessTopics(w, k, m, env);
            OnlyTouches(w, w', k) && w'.registry == w.registry && w'.objs[k].connected == w.objs[k].connected
  {
  }

  lemma ResubscribeTouches(w: World, k: ClientId, env: Env)
    requires k in w.objs
    ensures var w' := Resubscribe(w, k, env);
            && OnlyTouches(w, w', k) && w'.registry == w.registry && w'.strings == w.strings
            && w'.objs[k].subs == w.objs[k].subs && w'.objs[k].calls == w.objs[k].calls
            && w'.objs[k].connected == w.objs[k].connected
  {
    if w.objs[k].subs != {} {
      SendTouches(w, k, ResubscribeMsg(w.strings, w.objs[k].subs), env);
    }
  }

  lemma AckTouches(w: World, k: ClientId, env: Env)
    requires k in w.objs
    ensures var w' := Resubscribe(w.(objs := w.objs[k := w.objs[k].(connected := true)]), k, env);
            && OnlyTouches(w, w', k) && w'.registry == w.registry && w'.strings == w.strings
            && w'.objs[k].subs == w.objs[k].subs && w'.objs[k].calls == w.objs[k].calls && w'.objs[k].connected
  {
    ResubscribeTouches(w.(objs := w.objs[k := w.objs[k].(connected := true)]), k, env);
  }

  /** Before its session a remote client changes nothing but itself: no subscription, no delivery, no topic. */
  lemma BeforeSession(w: World, k: ClientId, m: Msg, env: Env)
    requires k in w.objs && w.objs[k].remote && !w.objs[k].connected
    ensures var w' := ProcessMessage(w, k, m, env);
            && OnlyTouches(w, w', k) && w'.strings == w.strings
            && w'.objs[k].subs == w.objs[k].subs && w'.objs[k].calls == w.objs[k].calls
            && (w'.objs[k].connected <==> LetsIn(w, k, m, env))
  {
    match Decide(w.objs[k], Type(m)) {
      case TryConnect => ConnectTouches(w, k, m, env); return;
      case NowConnected => AckTouches(w, k, env); return;
      case Ignore => return;
      case End => return;
    }
  }

  /** The first packet decides: the client stays exactly if it is let in or sends a ping response. */
  lemma FirstPacket(w: World, k: ClientId, m: Msg, env: Env)
    requires Registered(w) && k in w.registry && w.objs[k].remote && !w.objs[k].connected
    ensures k in ProcessMessage(w, k, m, env).registry <==> LetsIn(w, k, m, env) || Type(m) == PINGRESP
  {
    match Decide(w.objs[k], Type(m)) {
      case TryConnect =>
        EraseMeans(w.registry, k);
        ConnectTouches(w, k, m, env);
        return;
      case NowConnected =>
        AckTouches(w, k, env);
        return;
      case Ignore =>
        return;
      case End =>
        EraseMeans(w.registry, k);
        return;
    }
  }

  lemma FanoutRegistry(w: World, k: ClientId, m: Msg, env: Env)
    requires Linked(w) && k in w.objs && w.objs[k].attached && w.objs[k].remote
    requires w.objs[k].connected
    ensures ProcessPublish(w, k, m, env).registry == w.registry
    ensures k in ProcessPublish(w, k, m, env).objs && ProcessPublish(w, k, m, env).objs[k].connected
  {
    ForwardQuiet(w, m, env);
    assert Core(ForwardPublish(w, m, env).objs[k]) == Core(w.objs[k]);
  }

  /** During the session: it goes on exactly while the packets are ones that may follow, and a second CONNECT is not
      one. */
  lemma DuringSession(w: World, k: ClientId, m: Msg, env: Env)
    requires Linked(w) && k in w.registry && w.objs[k].remote && w.objs[k].connected
    ensures var w' := ProcessMessage(w, k, m, env);
            k in w'.objs && (k in w'.registry <==> MayFollow(m)) && (w'.objs[k].connected <==> MayFollow(m))
  {
    match Decide(w.objs[k], Type(m)) {
      case NowConnected => AckTouches(w, k, env); return;
      case Deliver => FanoutRegistry(w, k, m, env); return;
      case Topics => TopicsTouches(w, k, m, env); return;
      case Pong => return;
      case Ignore => return;
      case End => EraseMeans(w.registry, k); return;
    }
  }

  // ---------- After the session ----------

  lemma OfferOther(w: World, j: ClientId, topic: byte, m: Msg, env: Env, k: ClientId)
    requires k in w.objs && j != k
    ensures k in Offer(w, j, topic, m, env).objs && Offer(w, j, topic, m, env).objs[k] == w.objs[k]
  {
  }

  /** A fan-out leaves everyone who is not in the list alone, whatever the string table does. */
  lemma {:induction false} FanoutOther(w: World, ks: seq<ClientId>, topic: byte, m: Msg, env: Env, k: ClientId)
    requires k in w.objs && k !in ks
    ensures k in Fanout(w, ks, topic, m, env).objs && Fanout(w, ks, topic, m, env).objs[k] == w.objs[k]
    decreases |ks|
  {
    if ks != [] {
      OfferOther(w, ks[0], topic, m, env, k);
      FanoutOther(Offer(w, ks[0], topic, m, env), ks[1..], topic, m, env, k);
    }
  }

  lemma LoggedOff(w: World, k: ClientId, topic: byte, m: Msg, env: Env, text: bytes)
    requires k in w.objs && k !in w.registry
    ensures var (t, i) := Intern(w.strings, text);
            k in Fanout(w.(strings := t), w.registry, topic, m, env).objs
            && Fanout(w.(strings := t), w.registry, topic, m, env).objs[k] == w.objs[k]
  {
    var (t, i) := Intern(w.strings, text);
    FanoutOther(w.(strings := t), w.registry, topic, m, env, k);
  }

  lemma PublishLeavesAlone(w: World, j: ClientId, m: Msg, env: Env, k: ClientId)
    requires Linked(w) && j in w.registry && k in w.objs && k !in w.registry
    ensures k in ProcessPublish(w, j, m, env).objs && ProcessPublish(w, j, m, env).objs[k] == w.objs[k]
  {
    LoggedOff(w, k, Intern(w.strings, PublishTopic(m, env.beyond)).1, m, env, PublishTopic(m, env.beyond));
  }

  lemma OthersLeaveAlone(w: World, j: ClientId, m: Msg, env: Env, k: ClientId)
    requires Linked(w) && j in w.registry && k in w.objs && k !in w.registry
    ensures k in ProcessMessage(w, j, m, env).objs && ProcessMessage(w, j, m, env).objs[k] == w.objs[k]
  {
    match Decide(w.objs[j], Type(m)) {
      case TryConnect => ConnectTouches(w, j, m, env); return;
      case NowConnected => AckTouches(w, j, env); return;
      case Deliver => PublishLeavesAlone(w, j, m, env, k); return;
      case Topics => TopicsTouches(w, j, m, env); return;
      case Pong => return;
      case Ignore => return;
      case End => return;
    }
  }

  lemma ReadLeavesAlone(w: World, e: Event, k: ClientId)
    requires Linked(w) && k in w.objs && !w.objs[k].attached && e.Read?
    ensures k in Step(w, e).objs && Step(w, e).objs[k] == w.objs[k]
  {
    if Readable(w, e.k) {
      var m := Incoming(w.objs[e.k].message, e.b);
      var w' := w.(objs := w.objs[e.k := w.objs[e.k].(message := m)]);
      MessageLinked(w, e.k, m);
      OthersLeaveAlone(w', e.k, m, e.env, k);
    }
  }

  lemma StepLeavesAlone(w: World, e: Event, k: ClientId)
    requires Linked(w) && Enabled(w, e)
    requires k in w.objs && w.objs[k].remote && !w.objs[k].attached
    ensures k in Step(w, e).objs && Step(w, e).objs[k] == w.objs[k]
  {
    match e
    case Read(j, b, env) => ReadLeavesAlone(w, e, k);
    case Publish(j, text, payload, env) =>
      var (t, i) := Intern(w.strings, TopicText(text));
      LoggedOff(w, k, i, Build(PUBLISH, 0, Prefixed(Str(t, i)) + payload), env, TopicText(text));
    case _ =>
  }

  /** Once a remote client is closed no packet and no other event has any effect on it, in any continuation. */
  lemma {:induction false} ClosedForEver(w: World, es: seq<Event>, k: ClientId)
    requires Linked(w) && CanRun(w, es)
    requires k in w.objs && w.objs[k].remote && !w.objs[k].attached
    ensures var w' := Run(w, es); k in w'.objs && w'.objs[k] == w.objs[k] && k !in w'.registry && !Readable(w', k)
    decreases |es|
  {
    if es != [] {
      StepLeavesAlone(w, es[0], k);
      StepLinked(w, es[0]);
      ClosedForEver(Step(w, es[0]), es[1..], k);
    }
  }

  // ---------- Whole runs ----------

  /** In this state the event completes a packet that lets client `k` in. */
  predicate Admits(w: World, e: Event, k: ClientId) {
    e.Read? && e.k == k && Readable(w, k) &&
    var m := Incoming(w.objs[k].message, e.b);
    Type(m) != 0 && LetsIn(w, k, m, e.env)
  }

  ghost predicate InSession(w: World, k: ClientId) {
    k in w.objs && w.objs[k].remote && w.objs[k].connected
  }

  lemma FrameOther(w: World, w': World, j: ClientId, k: ClientId)
    requires Frame(w, w', j)
    ensures k in w.objs && k != j ==>
              w'.objs[k].connected == w.objs[k].connected && w'.objs[k].remote == w.objs[k].remote
  {
    assert k in w.objs && k != j ==> Core(w'.objs[k]) == Core(w.objs[k]);
  }

  lemma QuietOther(w: World, w': World, k: ClientId)
    requires Quiet(w, w')
    ensures InSession(w', k) <==> InSession(w, k)
  {
    assert k in w.objs ==> Core(w'.objs[k]) == Core(w.objs[k]);
  }

  lemma ReadSession(w: World, e: Event, k: ClientId)
    requires Linked(w) && e.Read? && Readable(w, e.k)
    requires !InSession(w, k) && InSession(Step(w, e), k)
    ensures Admits(w, e, k)
  {
    var j, b, env := e.k, e.b, e.env;
    var m := Incoming(w.objs[j].message, b);
    var w' := w.(objs := w.objs[j := w.objs[j].(message := m)]);
    if Type(m) != 0 {
      ProcessFrame(w', j, m, env);
      FrameOther(w', ProcessMessage(w', j, m, env), j, k);
      if k == j {
        BeforeSession(w', j, m, env);
      }
    }
  }

  lemma SessionStarts(w: World, e: Event, k: ClientId)
    requires Linked(w) && Enabled(w, e)
    requires !InSession(w, k) && InSession(Step(w, e), k)
    ensures Admits(w, e, k)
  {
    match e {
      case Read(j, b, env) =>
        ReadSession(w, e, k);
        return;
      case Publish(j, text, payload, env) =>
        LocalQuiet(w, text, payload, env);
        QuietOther(w, Step(w, e), k);
        return;
      case _ => return;
    }
  }

  /** In every run: a client in session was let in by an event of its own, at a definite point of that run. */
  lemma {:induction false} SessionHasCause(w: World, es: seq<Event>, k: ClientId) returns (n: nat)
    requires Linked(w) && CanRun(w, es)
    requires !InSession(w, k) && InSession(Run(w, es), k)
    ensures n < |es| && CanRun(w, es[..n]) && Admits(Run(w, es[..n]), es[n], k)
    decreases |es|
  {
    var w' := Step(w, es[0]);
    StepLinked(w, es[0]);
    if InSession(w', k) {
      SessionStarts(w, es[0], k);
      n := 0;
    } else {
      var n' := SessionHasCause(w', es[1..], k);
      n := n' + 1;
      RunHead(w, es, n);
    }
  }

  /** Only a client in session makes anything happen to others: a byte from any other remote client leaves every other
      client, every subscription and the string table as they were. */
  lemma OnlySessionsAct(w: World, e: Event)
    requires e.Read? && e.k in w.objs && w.objs[e.k].remote && !InSession(w, e.k)
    ensures var w' := Step(w, e);
            && OnlyTouches(w, w', e.k) && w'.strings == w.strings
            && w'.objs[e.k].subs == w.objs[e.k].subs && w'.objs[e.k].calls == w.objs[e.k].calls
  {
    if Readable(w, e.k) {
      var m := Incoming(w.objs[e.k].message, e.b);
      BeforeSession(w.(objs := w.objs[e.k := w.objs[e.k].(message := m)]), e.k, m, e.env);
    }
  }

  /** A run in which the first packet is a CONNACK, and its sender is in session after it. */
  lemma ConnackOpensSession(auth: Auth, env: Env) returns (w: World)
    ensures var w0 := Start(1, map[], auth);
            var es := [Accept(0, false, true, 5, true), Read(0, 0x20, env), Read(0, 0, env)];
            CanRun(w0, es) && Run(w0, es) == w
    ensures InSession(w, 0) && 0 in w.registry
  {
    var w0, e0, e1, e2 := Start(1, map[], auth), Accept(0, false, true, 5, true), Read(0, 0x20, env), Read(0, 0, env);
    var w1 := FirstAccept(auth);
    var w2 := HalfConnack(w1, env);
    w := WholeConnack(w2, env);
    RunThree(w0, e0, e1, e2, w1, w2);
  }

  lemma HalfConnack(w: World, env: Env) returns (w': World)
    requires w.registry == [0] && w.objs == map[0 := NewClient(Some(0), [], false)]
    requires |w.table.slots| == 1 && w.table.slots[0].fd == 5
    ensures w' == Step(w, Read(0, 0x20, env))
    ensures w'.registry == [0] && w'.table == w.table
    ensures w'.objs == map[0 := NewClient(Some(0), [], false).(message := Msg([0x20], 0, MAX_BUFFER_LENGTH, Length))]
  {
    var m := Incoming(w.objs[0].message, 0x20);
    assert m == Msg([0x20], 0, MAX_BUFFER_LENGTH, Length) && Type(m) == 0;
    assert Readable(w, 0);
    w' := Step(w, Read(0, 0x20, env));
    assert w'.objs == w.objs[0 := w.objs[0].(message := m)];
  }

  lemma WholeConnack(w: World, env: Env) returns (w': World)
    requires w.registry == [0] && |w.table.slots| == 1 && w.table.slots[0].fd == 5
    requires w.objs == map[0 := NewClient(Some(0), [], false).(message := Msg([0x20], 0, MAX_BUFFER_LENGTH, Length))]
    ensures w' == Step(w, Read(0, 0, env))
    ensures InSession(w', 0) && w'.registry == [0]
  {
    var m := Incoming(w.objs[0].message, 0);
    assert m == Msg([0x20, 0], 2, 0, Complete);
    w' := Step(w, Read(0, 0, env));
  }

  // ---------- Attached but not registered ----------

  lemma ProcessRegistry(w: World, j: ClientId, m: Msg, env: Env, k: ClientId)
    requires Linked(w) && j in w.objs && k !in w.registry
    ensures k !in ProcessMessage(w, j, m, env).registry
  {
    match Decide(w.objs[j], Type(m)) {
      case TryConnect =>
        EraseMeans(w.registry, j);
        ConnectTouches(w, j, m, env);
        return;
      case NowConnected => AckTouches(w, j, env); return;
      case Deliver => PublishQuiet(w, j, m, env); return;
      case Topics => TopicsTouches(w, j, m, env); return;
      case Pong => return;
      case Ignore => return;
      case End => EraseMeans(w.registry, j); return;
    }
  }

  /** A local client that no publication reaches. */
  ghost predicate Deaf(w: World, k: ClientId) {
    k in w.objs && !w.objs[k].remote && k !in w.registry
  }

  lemma ReadDeaf(w: World, e: Event, k: ClientId)
    requires Linked(w) && Deaf(w, k) && e.Read? && Readable(w, e.k)
    ensures Deaf(Step(w, e), k) && Step(w, e).objs[k] == w.objs[k]
  {
    var m := Incoming(w.objs[e.k].message, e.b);
    var w' := w.(objs := w.objs[e.k := w.objs[e.k].(message := m)]);
    MessageLinked(w, e.k, m);
    if Type(m) != 0 {
      OthersLeaveAlone(w', e.k, m, e.env, k);
      ProcessRegistry(w', e.k, m, e.env, k);
    }
  }

  lemma PublishDeaf(w: World, text: bytes, payload: bytes, env: Env, k: ClientId)
    requires Linked(w) && Deaf(w, k)
    ensures var w' := LocalPublish(w, text, payload, env); Deaf(w', k) && w'.objs[k] == w.objs[k]
  {
    var (t, i) := Intern(w.strings, TopicText(text));
    LoggedOff(w, k, i, Build(PUBLISH, 0, Prefixed(Str(t, i)) + payload), env, TopicText(text));
    LocalQuiet(w, text, payload, env);
  }

  lemma StepDeaf(w: World, e: Event, k: ClientId)
    requires Linked(w) && Deaf(w, k) && Enabled(w, e)
    ensures Deaf(Step(w, e), k) && Step(w, e).objs[k].calls == w.objs[k].calls
  {
    match e {
      case Read(j, b, env) =>
        if Readable(w, j) {
          ReadDeaf(w, e, k);
        }
        return;
      case Publish(j, text, payload, env) => PublishDeaf(w, text, payload, env, k); return;
      case Timeout(j) => EraseMeans(w.registry, j); return;
      case Attach(j) => EraseMeans(w.registry, j); return;
      case _ => return;
    }
  }

  /** A client that has called `connect` on its broker can go on publishing, but its callback is never called again, in
      any continuation. */
  lemma {:induction false} AttachedIsDeaf(w: World, es: seq<Event>, k: ClientId)
    requires Linked(w) && CanRun(w, es) && Deaf(w, k)
    ensures Deaf(Run(w, es), k) && Run(w, es).objs[k].calls == w.objs[k].calls
    decreases |es|
  {
    if es != [] {
      StepDeaf(w, es[0], k);
      StepLinked(w, es[0]);
      AttachedIsDeaf(Step(w, es[0]), es[1..], k);
    }
  }

  lemma AttachDeafens(w: World, k: ClientId, text: bytes, payload: bytes, env: Env)
    requires Linked(w) && Enabled(w, Attach(k))
    ensures var w' := Step(w, Attach(k));
            Linked(w') && Deaf(w', k) && w'.objs[k].attached && Enabled(w', Publish(k, text, payload, env))
  {
    AttachLinked(w, k);
  }
}
