/** Every run of the broker in which no counter of the string table can wrap keeps that table's books. */
module BrokerBooks {
  import opened Bytes
  import opened Codec
  import opened Interner
  import opened Broker
  import opened BrokerInv
  import opened BrokerRuns
  import Sessions

  /** The string table accounts for the subscriptions and the topics the application holds. */
  ghost predicate Books(w: World, held: seq<nat>) {
    |held| == 256 && Distinct(w.strings) && Accounts(w.strings, Refs(w.objs, held))
  }

  ghost predicate Sound(w: World, held: seq<nat>) {
    Linked(w) && Books(w, held)
  }

  lemma QuietRefs(objs: map<ClientId, Client>, objs': map<ClientId, Client>, held: seq<nat>)
    requires |held| == 256 && objs'.Keys == objs.Keys && forall k :: k in objs ==> objs'[k].subs == objs[k].subs
    ensures Refs(objs', held) == Refs(objs, held)
  {
    forall i: byte ensures Subscribers(objs', i) == Subscribers(objs, i) {
    }
  }

  lemma QuietBooks(w: World, w': World, held: seq<nat>)
    requires Books(w, held) && Quiet(w, w') && w'.strings == w.strings
    ensures Books(w', held)
  {
    forall k | k in w.objs ensures w'.objs[k].subs == w.objs[k].subs {
      assert Core(w'.objs[k]) == Core(w.objs[k]);
    }
    QuietRefs(w.objs, w'.objs, held);
  }

  // ---------- Publishing ----------

  lemma ReceiveStrings(w: World, k: ClientId, m: Msg, env: Env)
    requires k in w.objs && AllUsed(w.strings)
    ensures ReceivePublish(w, k, m, env).strings == w.strings
  {
    TemporaryRestores(w.strings, PublishTopic(m, env.beyond));
  }

  lemma OfferStrings(w: World, k: ClientId, topic: byte, m: Msg, env: Env)
    requires AllUsed(w.strings)
    ensures Offer(w, k, topic, m, env).strings == w.strings
  {
    if k in w.objs {
      ReceiveStrings(w, k, m, env);
    }
  }

  lemma {:induction false} FanoutStrings(w: World, ks: seq<ClientId>, topic: byte, m: Msg, env: Env)
    requires AllUsed(w.strings)
    ensures Fanout(w, ks, topic, m, env).strings == w.strings
    decreases |ks|
  {
    if ks != [] {
      OfferStrings(w, ks[0], topic, m, env);
      FanoutStrings(Offer(w, ks[0], topic, m, env), ks[1..], topic, m, env);
    }
  }

  /** A temporary topic handle around a fan-out. */
  lemma TemporaryUsed(t: Strings, refs: seq<nat>, text: bytes)
    requires Room(refs) && Accounts(t, refs)
    ensures AllUsed(t) && AllUsed(Intern(t, text).0)
  {
    InternAccounts(t, refs, text);
    AccountsUsed(t, refs);
    var (t', i) := Intern(t, text);
    AccountsUsed(t', refs[i := refs[i] + 1]);
  }

  /** A temporary topic handle around a fan-out. */
  lemma PublishStrings(w: World, text: bytes, m: Msg, env: Env, refs: seq<nat>)
    requires Room(refs) && Accounts(w.strings, refs)
    ensures var (t, i) := Intern(w.strings, text);
            Release(Fanout(w.(strings := t), w.registry, i, m, env).strings, i) == w.strings
  {
    var (t, i) := Intern(w.strings, text);
    TemporaryUsed(w.strings, refs, text);
    FanoutStrings(w.(strings := t), w.registry, i, m, env);
    TemporaryRestores(w.strings, text);
  }

  lemma ForwardStrings(w: World, m: Msg, env: Env, refs: seq<nat>)
    requires Room(refs) && Accounts(w.strings, refs)
    ensures ForwardPublish(w, m, env).strings == w.strings
  {
    PublishStrings(w, PublishTopic(m, env.beyond), m, env, refs);
  }

  lemma LocalStrings(w: World, text: bytes, payload: bytes, env: Env, refs: seq<nat>)
    requires Room(refs) && Accounts(w.strings, refs)
    ensures LocalPublish(w, text, payload, env).strings == w.strings
  {
    var (t, i) := Intern(w.strings, TopicText(text));
    PublishStrings(w, TopicText(text), Build(PUBLISH, 0, Prefixed(Str(t, i)) + payload), env, refs);
  }

  // ---------- One packet ----------

  lemma SubsBooks(w: World, held: seq<nat>, k: ClientId, t: Strings, subs: set<byte>)
    requires |held| == 256 && k in w.objs && Distinct(t) && Accounts(t, With(Refs(w.objs - {k}, held), subs))
    ensures Books(w.(strings := t, objs := w.objs[k := w.objs[k].(subs := subs)]), held)
  {
    RefsSplit(w.objs, held, k, w.objs[k].(subs := subs));
  }

  lemma SameBooks(w: World, held: seq<nat>, k: ClientId, c: Client)
    requires Books(w, held) && k in w.objs && c.subs == w.objs[k].subs
    ensures Books(w.(objs := w.objs[k := c]), held)
  {
    RefsSame(w.objs, held, k, c);
  }

  lemma RoomLess(w: World, held: seq<nat>, k: ClientId)
    requires |held| == 256 && Room(Refs(w.objs, held)) && k in w.objs
    ensures Room(Refs(w.objs - {k}, held))
    ensures Refs(w.objs, held) == With(Refs(w.objs - {k}, held), w.objs[k].subs)
  {
    RefsSplit(w.objs, held, k, w.objs[k]);
    assert w.objs[k := w.objs[k]] == w.objs;
  }

  lemma TakenBooks(t: Strings, subs: set<byte>, base: seq<nat>, b: bytes, beyond: nat -> byte, p: nat, subscribe: bool)
    requires Room(base) && Distinct(t) && Accounts(t, With(base, subs))
    ensures var r := TakeTopics(t, subs, b, beyond, p, subscribe);
            Distinct(r.strings) && Accounts(r.strings, With(base, r.subs))
  {
    WalkKeeps(TopicsResult(t, subs, []), base, b, beyond, p, subscribe);
  }

  lemma TakenSubs(w: World, held: seq<nat>, k: ClientId, b: bytes, beyond: nat -> byte, p: nat, subscribe: bool)
    requires Books(w, held) && k in w.objs && Room(Refs(w.objs, held))
    ensures var r := TakeTopics(w.strings, w.objs[k].subs, b, beyond, p, subscribe);
            Books(w.(strings := r.strings, objs := w.objs[k := w.objs[k].(subs := r.subs)]), held)
  {
    RoomLess(w, held, k);
    TakenBooks(w.strings, w.objs[k].subs, Refs(w.objs - {k}, held), b, beyond, p, subscribe);
    var r := TakeTopics(w.strings, w.objs[k].subs, b, beyond, p, subscribe);
    SubsBooks(w, held, k, r.strings, r.subs);
  }

  lemma SentBooks(w: World, held: seq<nat>, k: ClientId, m: Msg, env: Env)
    requires Books(w, held) && k in w.objs && TableOk(w.table)
    ensures Books(SendMsg(w, k, m, env), held)
  {
    SendMsgQuiet(w, k, m, env);
    QuietBooks(w, SendMsg(w, k, m, env), held);
  }

  lemma TopicsBooks(w: World, held: seq<nat>, k: ClientId, m: Msg, env: Env)
    requires Books(w, held) && TableOk(w.table) && k in w.objs && Room(Refs(w.objs, held))
    ensures Books(ProcessTopics(w, k, m, env), held)
  {
    var r := TakeTopics(w.strings, w.objs[k].subs, m.buffer, env.beyond, AfterId(m), IsSubscribe(m));
    TakenSubs(w, held, k, m.buffer, env.beyond, AfterId(m), IsSubscribe(m));
    SentBooks(w.(strings := r.strings, objs := w.objs[k := w.objs[k].(subs := r.subs)]), held, k,
              Acknowledgement(m, env.beyond, r.codes), env);
  }

  lemma ConnectBooks(w: World, held: seq<nat>, k: ClientId, m: Msg, env: Env)
    requires Books(w, held) && TableOk(w.table) && k in w.objs
    ensures Books(ProcessConnect(w, k, m, env), held)
  {
    var r := Connect(m, env.beyond, w.auth);
    var c' := Connecting(w.objs[k], r);
    var w' := w.(objs := w.objs[k := c']);
    SameBooks(w, held, k, c');
    if r.accepted {
      SentBooks(w', held, k, ConnAck(), env);
    } else {
      CloseBooks(w', held, k);
    }
  }

  lemma CloseBooks(w: World, held: seq<nat>, k: ClientId)
    requires Books(w, held) && k in w.objs
    ensures Books(Close(w, k), held)
  {
    SameBooks(w, held, k, Closed(w.objs[k]));
  }

  lemma AckBooks(w: World, held: seq<nat>, k: ClientId, env: Env)
    requires Books(w, held) && TableOk(w.table) && k in w.objs
    ensures Books(Resubscribe(w.(objs := w.objs[k := w.objs[k].(connected := true)]), k, env), held)
  {
    var w' := w.(objs := w.objs[k := w.objs[k].(connected := true)]);
    SameBooks(w, held, k, w.objs[k].(connected := true));
    if w'.objs[k].subs != {} {
      SentBooks(w', held, k, ResubscribeMsg(w'.strings, w'.objs[k].subs), env);
    }
  }

  lemma PublishBooks(w: World, held: seq<nat>, k: ClientId, m: Msg, env: Env)
    requires Books(w, held) && TableOk(w.table) && k in w.objs && Room(Refs(w.objs, held))
    ensures Books(ProcessPublish(w, k, m, env), held)
  {
    PublishQuiet(w, k, m, env);
    if w.objs[k].remote && w.objs[k].attached {
      ForwardStrings(w, m, env, Refs(w.objs, held));
    } else {
      AccountsUsed(w.strings, Refs(w.objs, held));
      ReceiveStrings(w, k, m, env);
    }
    QuietBooks(w, ProcessPublish(w, k, m, env), held);
  }

  lemma PingBooks(w: World, held: seq<nat>, k: ClientId, env: Env)
    requires Books(w, held) && TableOk(w.table) && k in w.objs
    ensures Books(Send(w, k, [PINGRESP, 0], env), held)
  {
    SendQuiet(w, k, [PINGRESP, 0], env);
    QuietBooks(w, Send(w, k, [PINGRESP, 0], env), held);
  }

  /** Whatever packet comes, the books survive it. */
  lemma ProcessBooks(w: World, held: seq<nat>, k: ClientId, m: Msg, env: Env)
    requires Books(w, held) && TableOk(w.table) && k in w.objs && Room(Refs(w.objs, held))
    ensures Books(ProcessMessage(w, k, m, env), held)
  {
    match Decide(w.objs[k], Type(m)) {
      case TryConnect => ConnectBooks(w, held, k, m, env); return;
      case NowConnected => AckBooks(w, held, k, env); return;
      case Deliver => PublishBooks(w, held, k, m, env); return;
      case Topics => TopicsBooks(w, held, k, m, env); return;
      case Pong => PingBooks(w, held, k, env); return;
      case Ignore => return;
      case End => CloseBooks(w, held, k); return;
    }
  }

  // ---------- One event ----------

  lemma ReadBooks(w: World, held: seq<nat>, k: ClientId, b: byte, env: Env)
    requires Books(w, held) && TableOk(w.table) && k in w.objs && Room(Refs(w.objs, held))
    ensures Books(ReadByte(w, k, b, env), held)
  {
    var m := Incoming(w.objs[k].message, b);
    var w' := w.(objs := w.objs[k := w.objs[k].(message := m)]);
    SameBooks(w, held, k, w.objs[k].(message := m));
    if Type(m) == 0 {
      return;
    }
    RefsSame(w.objs, held, k, w.objs[k].(message := m));
    ProcessBooks(w', held, k, m, env);
    ProcessFrame(w', k, m, env);
    var w'' := ProcessMessage(w', k, m, env);
    SameBooks(w'', held, k, w''.objs[k].(message := Reset(m)));
  }

  lemma SubscribeBooks(w: World, held: seq<nat>, k: ClientId, text: bytes)
    requires Books(w, held) && k in w.objs && Room(Refs(w.objs, held))
    ensures var (t, subs) := InsertTopic(w.strings, w.objs[k].subs, text);
            Books(w.(strings := t, objs := w.objs[k := w.objs[k].(subs := subs)]), held)
    ensures var (t, subs) := EraseTopic(w.strings, w.objs[k].subs, text);
            Books(w.(strings := t, objs := w.objs[k := w.objs[k].(subs := subs)]), held)
  {
    var base, old_ := Refs(w.objs - {k}, held), w.objs[k].subs;
    RoomLess(w, held, k);
    TopicsDistinct(w.strings, old_, text);
    InsertKeeps(w.strings, base, old_, text);
    EraseKeeps(w.strings, base, old_, text);
    var (t, subs) := InsertTopic(w.strings, old_, text);
    SubsBooks(w, held, k, t, subs);
    var (t', subs') := EraseTopic(w.strings, old_, text);
    SubsBooks(w, held, k, t', subs');
  }

  /** The topics the application holds after an event. */
  ghost function HeldAfter(w: World, held: seq<nat>, e: Event): (r: seq<nat>)
    requires |held| == 256
    ensures |r| == 256
  {
    match e
    case Hold(text) =>
      var i := Intern(w.strings, TopicText(text)).1;
      held[i := held[i] + 1]
    case Drop(i) => if held[i] > 0 then held[i := held[i] - 1] else held
    case _ => held
  }

  lemma HeldRefs(objs: map<ClientId, Client>, held: seq<nat>, i: byte, n: nat)
    requires |held| == 256
    ensures Refs(objs, held[i := n]) == Refs(objs, held)[i := |Subscribers(objs, i)| + n]
  {
  }

  lemma HoldBooks(objs: map<ClientId, Client>, t: Strings, held: seq<nat>, text: bytes)
    requires |held| == 256 && Distinct(t) && Accounts(t, Refs(objs, held))
    ensures var (t', i) := Intern(t, text); Distinct(t') && Accounts(t', Refs(objs, held[i := held[i] + 1]))
  {
    var (t', i) := Intern(t, text);
    InternBooks(t, Refs(objs, held), text, t', i);
    HeldMore(objs, t', held, i);
  }

  lemma InternBooks(t: Strings, refs: seq<nat>, text: bytes, t': Strings, i: byte)
    requires Distinct(t) && Accounts(t, refs) && (t', i) == Intern(t, text)
    ensures Distinct(t') && Accounts(t', refs[i := refs[i] + 1])
  {
    InternAccounts(t, refs, text);
    InternDistinct(t, text);
  }

  lemma HeldMore(objs: map<ClientId, Client>, t: Strings, held: seq<nat>, i: byte)
    requires |held| == 256 && Accounts(t, Refs(objs, held)[i := Refs(objs, held)[i] + 1])
    ensures Accounts(t, Refs(objs, held[i := held[i] + 1]))
  {
    HeldRefs(objs, held, i, held[i] + 1);
  }

  lemma DropBooks(objs: map<ClientId, Client>, t: Strings, held: seq<nat>, i: byte)
    requires |held| == 256 && Distinct(t) && Accounts(t, Refs(objs, held)) && Room(Refs(objs, held)) && held[i] > 0
    ensures Distinct(Release(t, i)) && Accounts(Release(t, i), Refs(objs, held[i := held[i] - 1]))
  {
    UseDistinct(t, i);
    HeldRefs(objs, held, i, held[i] - 1);
    DropOne(t, Refs(objs, held), i);
  }

  lemma DropOne(t: Strings, refs: seq<nat>, i: byte)
    requires Accounts(t, refs) && Room(refs) && refs[i] > 0
    ensures Accounts(Release(t, i), refs[i := refs[i] - 1])
  {
    ReleaseAccounts(t, refs, i);
  }

  /** No index has more than 254 references, and the application only destroys topics it holds. */
  ghost predicate MayStep(w: World, held: seq<nat>, e: Event) {
    |held| == 256 && Enabled(w, e) && Room(Refs(w.objs, held)) && (e.Drop? ==> held[e.i] > 0)
  }

  lemma AcceptBooks(w: World, held: seq<nat>, e: Event)
    requires Books(w, held) && e.Accept? && Enabled(w, e)
    ensures Books(Step(w, e), held)
  {
    var s := Sessions.CheckAvail(w.table, e.lruPurge, e.pending, e.fd, e.openOk).1;
    if s.Some? {
      RefsNew(w.objs, held, e.k, NewClient(s, [], false));
    }
  }

  lemma AppBooks(w: World, held: seq<nat>, e: Event)
    requires Books(w, held) && TableOk(w.table) && MayStep(w, held, e)
    requires e.Subscribe? || e.Unsubscribe? || e.Publish? || e.NewLocal? || e.Attach? || e.Hold? || e.Drop?
    ensures Books(Step(w, e), HeldAfter(w, held, e))
  {
    match e {
      case NewLocal(k, id, callback) => RefsNew(w.objs, held, k, NewClient(None, id, callback)); return;
      case Attach(k) =>
        CloseBooks(w, held, k);
        SameBooks(Close(w, k), held, k, Close(w, k).objs[k].(attached := true));
        return;
      case Subscribe(k, text) => SubscribeBooks(w, held, k, TopicText(text)); return;
      case Unsubscribe(k, text) => SubscribeBooks(w, held, k, TopicText(text)); return;
      case Publish(k, text, payload, env) =>
        LocalQuiet(w, text, payload, env);
        LocalStrings(w, text, payload, env, Refs(w.objs, held));
        QuietBooks(w, Step(w, e), held);
        return;
      case Hold(text) => HoldBooks(w.objs, w.strings, held, TopicText(text)); return;
      case Drop(i) => DropBooks(w.objs, w.strings, held, i); return;
    }
  }

  lemma StepBooks(w: World, held: seq<nat>, e: Event)
    requires Books(w, held) && TableOk(w.table) && MayStep(w, held, e)
    ensures Books(Step(w, e), HeldAfter(w, held, e))
  {
    match e {
      case Accept(k, lruPurge, pending, fd, openOk) => AcceptBooks(w, held, e); return;
      case Read(k, b, env) =>
        if Readable(w, k) {
          ReadBooks(w, held, k, b, env);
        }
        return;
      case ReadError(k) => return;
      case Timeout(k) =>
        if k in w.objs && w.objs[k].attached {
          CloseBooks(w, held, k);
        }
        return;
      case _ => AppBooks(w, held, e); return;
    }
  }

  // ---------- Runs ----------

  ghost predicate RoomRun(w: World, held: seq<nat>, es: seq<Event>)
    decreases |es|
  {
    es == [] || (MayStep(w, held, es[0]) && RoomRun(Step(w, es[0]), HeldAfter(w, held, es[0]), es[1..]))
  }

  ghost function HeldAtEnd(w: World, held: seq<nat>, es: seq<Event>): seq<nat>
    requires RoomRun(w, held, es)
    decreases |es|
  {
    if es == [] then held else HeldAtEnd(Step(w, es[0]), HeldAfter(w, held, es[0]), es[1..])
  }

  lemma StartSound(n: nat, strings: Strings, auth: Auth, held: seq<nat>)
    requires Distinct(strings) && Accounts(strings, held)
    ensures Sound(Start(n, strings, auth), held)
  {
    StartLinked(n, strings, auth);
    var w := Start(n, strings, auth);
    forall i: byte ensures Refs(w.objs, held)[i] == held[i] {
      assert Subscribers(w.objs, i) == {};
    }
    assert Refs(w.objs, held) == held;
  }

  /** Links and books hold in every state of every run that leaves room in the counters, I/O errors included. */
  lemma {:induction false} RunSound(w: World, held: seq<nat>, es: seq<Event>)
    requires Sound(w, held) && Decoding(w) && RoomRun(w, held, es)
    ensures CanRun(w, es) && Sound(Run(w, es), HeldAtEnd(w, held, es)) && Decoding(Run(w, es))
    decreases |es|
  {
    if es != [] {
      StepLinked(w, es[0]);
      StepDecoding(w, es[0]);
      StepBooks(w, held, es[0]);
      RunSound(Step(w, es[0]), HeldAfter(w, held, es[0]), es[1..]);
    }
  }
}
