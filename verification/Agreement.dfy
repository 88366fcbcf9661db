/** The broker's registry and the socket table name the same sessions, as long as no read or write fails. */
module Agreement {
  import opened Bytes
  import opened Codec
  import opened Broker
  import opened BrokerInv
  import opened BrokerRuns
  import opened Interner
  import Sessions
  import SessionRuns

  ghost predicate Remote(w: World, k: ClientId) {
    k in w.registry && k in w.objs && w.objs[k].connection.Some?
  }

  function Slot(w: World, k: ClientId): nat
    requires k in w.objs && w.objs[k].connection.Some?
  {
    w.objs[k].connection.value
  }

  /** The connections of the registered remote clients are distinct and are exactly the active slots. */
  ghost predicate Agree(w: World) {
    && (forall k :: Remote(w, k) ==> Slot(w, k) < |w.table.slots| && w.table.slots[Slot(w, k)].fd >= 0)
    && (forall j, k :: Remote(w, j) && Remote(w, k) && j != k ==> Slot(w, j) != Slot(w, k))
    && (forall i :: 0 <= i < |w.table.slots| && w.table.slots[i].fd >= 0 ==>
          exists k :: Remote(w, k) && Slot(w, k) == i)
  }

  /** Same registry, same table, same connections. */
  ghost predicate SameWiring(w: World, w': World) {
    && w'.registry == w.registry && w'.table == w.table && w'.objs.Keys == w.objs.Keys
    && forall k :: k in w.objs ==> w'.objs[k].connection == w.objs[k].connection
  }

  lemma AgreeSame(w: World, w': World)
    requires Agree(w) && SameWiring(w, w')
    ensures Agree(w')
  {
    forall k ensures Remote(w', k) <==> Remote(w, k) {
    }
    forall i | 0 <= i < |w'.table.slots| && w'.table.slots[i].fd >= 0
      ensures exists k :: Remote(w', k) && Slot(w', k) == i
    {
      var k :| Remote(w, k) && Slot(w, k) == i;
      assert Remote(w', k);
    }
  }

  lemma CloseTable(w: World, k: ClientId)
    requires Agree(w) && Linked(w) && k in w.objs
    ensures var t := Close(w, k).table;
            && |t.slots| == |w.table.slots|
            && forall i :: 0 <= i < |t.slots| ==>
                 t.slots[i].fd == if Remote(w, k) && Slot(w, k) == i then -1 else w.table.slots[i].fd
  {
    if w.objs[k].attached && w.objs[k].remote {
      assert k in w.registry;
    }
  }

  lemma CloseRemotes(w: World, k: ClientId, j: ClientId)
    requires Linked(w) && k in w.objs
    ensures Remote(Close(w, k), j) <==> Remote(w, j) && j != k
  {
    CloseRegistered(w, k);
  }

  lemma CloseAgree(w: World, k: ClientId)
    requires Agree(w) && Linked(w) && k in w.objs
    ensures Agree(Close(w, k))
  {
    var w' := Close(w, k);
    CloseTable(w, k);
    forall j ensures Remote(w', j) <==> Remote(w, j) && j != k {
      CloseRemotes(w, k, j);
    }
    forall i | 0 <= i < |w'.table.slots| && w'.table.slots[i].fd >= 0
      ensures exists j :: Remote(w', j) && Slot(w', j) == i
    {
      var j :| Remote(w, j) && Slot(w, j) == i;
      assert Remote(w', j);
    }
  }

  /** Closing a remote client takes out exactly that client and frees exactly its slot; nothing can be read from it
      any more, and every other session is as it was. */
  lemma CloseIsExact(w: World, k: ClientId)
    requires Agree(w) && Linked(w) && Remote(w, k)
    ensures var w' := Close(w, k);
            && Agree(w') && w'.registry == Erase(w.registry, k)
            && (forall j :: j in w'.registry <==> j in w.registry && j != k)
            && w'.table.slots == w.table.slots[Slot(w, k) := Sessions.Cleared(w.table.slots[Slot(w, k)])]
            && !Readable(w', k) && w'.table.slots[Slot(w, k)].fd < 0
            && forall j :: j in w.objs && j != k ==> w'.objs[j] == w.objs[j] && (Readable(w', j) <==> Readable(w, j))
  {
    CloseAgree(w, k);
    CloseRegistered(w, k);
    forall j | j in w.objs && j != k ensures Readable(Close(w, k), j) <==> Readable(w, j) {
      assert Remote(w, j) ==> Slot(w, j) != Slot(w, k);
    }
  }

  // ---------- Packets ----------

  lemma SendWiring(w: World, k: ClientId, m: Msg, b: bytes, env: Env)
    requires k in w.objs && env.sendOk(k)
    ensures SameWiring(w, Send(w, k, b, env)) && SameWiring(w, SendMsg(w, k, m, env))
  {
  }

  ghost predicate NoSendError(w: World, env: Env) {
    forall k :: k in w.objs ==> env.sendOk(k)
  }

  lemma OfferWiring(w: World, k: ClientId, topic: byte, m: Msg, env: Env)
    requires NoSendError(w, env)
    ensures SameWiring(w, Offer(w, k, topic, m, env))
  {
    if k in w.objs {
      SendWiring(w, k, m, [], env);
    }
  }

  lemma {:induction false} FanoutWiring(w: World, ks: seq<ClientId>, topic: byte, m: Msg, env: Env)
    requires NoSendError(w, env)
    ensures SameWiring(w, Fanout(w, ks, topic, m, env))
    decreases |ks|
  {
    if ks != [] {
      OfferWiring(w, ks[0], topic, m, env);
      FanoutWiring(Offer(w, ks[0], topic, m, env), ks[1..], topic, m, env);
    }
  }

  /** A packet leaves the wiring alone, or ends the session of its sender. */
  ghost predicate KeepsOrCloses(w: World, w': World, k: ClientId) {
    k in w.objs && (SameWiring(w, w') || SameWiring(Close(w, k), w'))
  }

  lemma CloseSame(w: World, k: ClientId, c: Client)
    requires k in w.objs && c.attached == w.objs[k].attached && c.remote == w.objs[k].remote
    requires c.connection == w.objs[k].connection
    ensures SameWiring(Close(w, k), Close(w.(objs := w.objs[k := c]), k))
  {
  }

  lemma ConnectWiring(w: World, k: ClientId, m: Msg, env: Env)
    requires k in w.objs && NoSendError(w, env)
    ensures KeepsOrCloses(w, ProcessConnect(w, k, m, env), k)
  {
    var r := Connect(m, env.beyond, w.auth);
    var c' := Connecting(w.objs[k], r);
    if r.accepted {
      SendWiring(w.(objs := w.objs[k := c']), k, ConnAck(), [], env);
    } else {
      CloseSame(w, k, c');
    }
  }

  lemma TopicsWiring(w: World, k: ClientId, m: Msg, env: Env)
    requires k in w.objs && NoSendError(w, env)
    ensures SameWiring(w, ProcessTopics(w, k, m, env))
  {
    var r := TakeTopics(w.strings, w.objs[k].subs, m.buffer, env.beyond, AfterId(m), IsSubscribe(m));
    var w' := w.(strings := r.strings, objs := w.objs[k := w.objs[k].(subs := r.subs)]);
    SendWiring(w', k, Acknowledgement(m, env.beyond, r.codes), [], env);
  }

  lemma AckWiring(w: World, k: ClientId, env: Env)
    requires k in w.objs && NoSendError(w, env)
    ensures SameWiring(w, Resubscribe(w.(objs := w.objs[k := w.objs[k].(connected := true)]), k, env))
  {
    var w' := w.(objs := w.objs[k := w.objs[k].(connected := true)]);
    SendWiring(w', k, ResubscribeMsg(w'.strings, w'.objs[k].subs), [], env);
  }

  lemma PublishWiring(w: World, k: ClientId, m: Msg, env: Env)
    requires k in w.objs && NoSendError(w, env)
    ensures KeepsOrCloses(w, ProcessPublish(w, k, m, env), k)
  {
    var (t, i) := Intern(w.strings, PublishTopic(m, env.beyond));
    FanoutWiring(w.(strings := t), w.registry, i, m, env);
  }

  lemma ProcessWiring(w: World, k: ClientId, m: Msg, env: Env)
    requires k in w.objs && NoSendError(w, env)
    ensures KeepsOrCloses(w, ProcessMessage(w, k, m, env), k)
  {
    match Decide(w.objs[k], Type(m)) {
      case TryConnect => ConnectWiring(w, k, m, env); return;
      case NowConnected => AckWiring(w, k, env); return;
      case Deliver => PublishWiring(w, k, m, env); return;
      case Topics => TopicsWiring(w, k, m, env); return;
      case Pong => SendWiring(w, k, m, [PINGRESP, 0], env); return;
      case Ignore => return;
      case End => return;
    }
  }

  // ---------- Events ----------

  /** No read and no write fails in this step. */
  ghost predicate NoErrors(w: World, e: Event) {
    match e
    case Read(_, _, env) => NoSendError(w, env)
    case Publish(_, _, _, env) => NoSendError(w, env)
    case ReadError(k) => !Readable(w, k)
    case _ => true
  }

  lemma ProcessAgree(w: World, k: ClientId, m: Msg, env: Env)
    requires Agree(w) && Linked(w) && k in w.objs && NoSendError(w, env)
    ensures Agree(ProcessMessage(w, k, m, env))
  {
    var w' := ProcessMessage(w, k, m, env);
    ProcessWiring(w, k, m, env);
    if SameWiring(w, w') {
      AgreeSame(w, w');
    } else {
      CloseAgree(w, k);
      AgreeSame(Close(w, k), w');
    }
  }

  lemma MessageWiring(w: World, k: ClientId, m: Msg)
    requires k in w.objs
    ensures SameWiring(w, w.(objs := w.objs[k := w.objs[k].(message := m)]))
  {
  }

  lemma ReadAgree(w: World, k: ClientId, b: byte, env: Env)
    requires Agree(w) && Linked(w) && Readable(w, k) && NoSendError(w, env)
    ensures Agree(ReadByte(w, k, b, env))
  {
    var m := Incoming(w.objs[k].message, b);
    var w' := w.(objs := w.objs[k := w.objs[k].(message := m)]);
    MessageWiring(w, k, m);
    AgreeSame(w, w');
    if Type(m) != 0 {
      var w'' := ProcessMessage(w', k, m, env);
      ProcessAgree(w', k, m, env);
      if k in w''.objs {
        MessageWiring(w'', k, Reset(m));
        AgreeSame(w'', w''.(objs := w''.objs[k := w''.objs[k].(message := Reset(m))]));
      }
    }
  }

  lemma AddAgree(w: World, k: ClientId, c: Client, t: Sessions.Table)
    requires Agree(w) && Linked(w) && k !in w.objs && TookSlot(w.table, t, c.connection)
    ensures Agree(w.(table := t, registry := w.registry + [k], objs := w.objs[k := c]))
  {
    var w' := w.(table := t, registry := w.registry + [k], objs := w.objs[k := c]);
    forall j ensures Remote(w', j) <==> Remote(w, j) || (j == k && c.connection.Some?) {
    }
    forall j | Remote(w, j) ensures j != k && Slot(w', j) == Slot(w, j) && c.connection != Some(Slot(w, j)) {
    }
    forall i | 0 <= i < |t.slots| && t.slots[i].fd >= 0 ensures exists j :: Remote(w', j) && Slot(w', j) == i {
      if c.connection == Some(i) {
        assert Remote(w', k);
      } else {
        var j :| Remote(w, j) && Slot(w, j) == i;
        assert Remote(w', j);
      }
    }
  }

  lemma TableAgree(w: World, t: Sessions.Table)
    requires Agree(w) && TookSlot(w.table, t, None)
    ensures Agree(w.(table := t))
  {
    var w' := w.(table := t);
    forall k ensures Remote(w', k) <==> Remote(w, k) {
    }
    forall i | 0 <= i < |t.slots| && t.slots[i].fd >= 0 ensures exists k :: Remote(w', k) && Slot(w', k) == i {
      var k :| Remote(w, k) && Slot(w, k) == i;
      assert Remote(w', k);
    }
  }

  lemma StepAgree(w: World, e: Event)
    requires Linked(w) && Agree(w) && Enabled(w, e) && NoErrors(w, e)
    ensures Agree(Step(w, e))
  {
    match e {
      case Accept(k, lruPurge, pending, fd, openOk) =>
        AcceptTable(w.table, lruPurge, pending, fd, openOk);
        var (t, s) := Sessions.CheckAvail(w.table, lruPurge, pending, fd, openOk);
        if s.None? {
          TableAgree(w, t);
        } else {
          AddAgree(w, k, NewClient(s, [], false), t);
        }
        return;
      case Read(k, b, env) =>
        if Readable(w, k) {
          ReadAgree(w, k, b, env);
        }
        return;
      case ReadError(k) => return;
      case Timeout(k) =>
        if k in w.objs && w.objs[k].attached {
          CloseAgree(w, k);
        }
        return;
      case NewLocal(k, id, callback) =>
        AddAgree(w, k, NewClient(None, id, callback), w.table);
        return;
      case Subscribe(k, text) => AgreeSame(w, Step(w, e)); return;
      case Unsubscribe(k, text) => AgreeSame(w, Step(w, e)); return;
      case Publish(k, text, payload, env) =>
        LocalWiring(w, text, payload, env);
        AgreeSame(w, Step(w, e));
        return;
      case Attach(k) =>
        CloseAgree(w, k);
        AgreeSame(Close(w, k), Step(w, e));
        return;
      case Hold(text) => AgreeSame(w, Step(w, e)); return;
      case Drop(i) => AgreeSame(w, Step(w, e)); return;
    }
  }

  lemma LocalWiring(w: World, text: bytes, payload: bytes, env: Env)
    requires NoSendError(w, env)
    ensures SameWiring(w, LocalPublish(w, text, payload, env))
  {
    var (t, i) := Intern(w.strings, TopicText(text));
    var m := Build(PUBLISH, 0, Prefixed(Str(t, i)) + payload);
    FanoutWiring(w.(strings := t), w.registry, i, m, env);
  }

  /** A failed read frees the slot of a client that stays registered: exactly then does the agreement end. */
  lemma ReadErrorBreaks(w: World, k: ClientId)
    requires Agree(w)
    ensures Agree(Step(w, ReadError(k))) <==> !Readable(w, k)
  {
    if Readable(w, k) {
      var w' := Step(w, ReadError(k));
      assert Remote(w', k) && w'.table.slots[Slot(w', k)].fd < 0;
    }
  }

  /** So does a failed write. */
  lemma SendErrorBreaks(w: World, k: ClientId, b: bytes, env: Env)
    requires Agree(w) && Remote(w, k)
    ensures Agree(Send(w, k, b, env)) <==> env.sendOk(k)
  {
    var w' := Send(w, k, b, env);
    if env.sendOk(k) {
      AgreeSame(w, w');
    } else {
      assert Remote(w', k) && w'.table.slots[Slot(w', k)].fd < 0;
    }
  }

  ghost predicate CleanRun(w: World, es: seq<Event>)
    requires CanRun(w, es)
    decreases |es|
  {
    es == [] || (NoErrors(w, es[0]) && CleanRun(Step(w, es[0]), es[1..]))
  }

  lemma {:induction false} RunAgree(w: World, es: seq<Event>)
    requires Linked(w) && Agree(w) && CanRun(w, es) && CleanRun(w, es)
    ensures Agree(Run(w, es)) && Linked(Run(w, es))
    ensures |Run(w, es).table.slots| == |w.table.slots|
    decreases |es|
  {
    if es != [] {
      StepLinked(w, es[0]);
      StepAgree(w, es[0]);
      StepTable(w, es[0], 0);
      RunAgree(Step(w, es[0]), es[1..]);
    }
  }

  lemma ReadTable(w: World, k: ClientId, b: byte, env: Env)
    requires Linked(w) && Readable(w, k)
    ensures OnlyDeletes(w.table, ReadByte(w, k, b, env).table)
  {
    var m := Incoming(w.objs[k].message, b);
    var w' := w.(objs := w.objs[k := w.objs[k].(message := m)]);
    if Type(m) != 0 {
      ProcessFrame(w', k, m, env);
    }
  }

  /** In this state the event gives slot `i` out. */
  predicate Takes(w: World, e: Event, i: nat) {
    e.Accept? && Sessions.CheckAvail(w.table, e.lruPurge, e.pending, e.fd, e.openOk).1 == Some(i)
  }

  lemma AcceptTakes(w: World, e: Event, i: nat)
    requires TableOk(w.table) && Enabled(w, e) && e.Accept?
    ensures |Step(w, e).table.slots| == |w.table.slots|
    ensures i < |w.table.slots| && w.table.slots[i].fd < 0 ==> (Step(w, e).table.slots[i].fd < 0 <==> !Takes(w, e, i))
  {
    AcceptTable(w.table, e.lruPurge, e.pending, e.fd, e.openOk);
    assert Step(w, e).table == Sessions.CheckAvail(w.table, e.lruPurge, e.pending, e.fd, e.openOk).0;
  }

  /** A free slot stays free unless the event is an accept that gives it out. */
  lemma StepTable(w: World, e: Event, i: nat)
    requires Linked(w) && Enabled(w, e)
    ensures |Step(w, e).table.slots| == |w.table.slots|
    ensures i < |w.table.slots| && w.table.slots[i].fd < 0 ==> (Step(w, e).table.slots[i].fd < 0 <==> !Takes(w, e, i))
  {
    match e {
      case Accept(k, lruPurge, pending, fd, openOk) =>
        AcceptTakes(w, e, i);
        return;
      case Read(k, b, env) =>
        if Readable(w, k) {
          ReadTable(w, k, b, env);
        }
        return;
      case Publish(k, text, payload, env) =>
        LocalQuiet(w, text, payload, env);
        return;
      case _ => return;
    }
  }

  /** A slot that is free, as one is after its client was closed, stays free in every continuation until an accept gives
      it out: if it is taken in the end, there is a first such accept, and up to it the slot was free. */
  lemma {:induction false} FreeUntilTaken(w: World, es: seq<Event>, i: nat) returns (n: nat)
    requires Linked(w) && CanRun(w, es)
    requires i < |w.table.slots| && w.table.slots[i].fd < 0
    ensures n <= |es|
    ensures forall j :: 0 <= j <= n ==> CanRun(w, es[..j]) && SlotFree(Run(w, es[..j]), i)
    ensures n < |es| ==> Takes(Run(w, es[..n]), es[n], i)
    decreases |es|
  {
    if es == [] || Takes(w, es[0], i) {
      n := 0;
      assert es[..0] == [];
    } else {
      var w' := Step(w, es[0]);
      StepLinked(w, es[0]);
      StepTable(w, es[0], i);
      var n' := FreeUntilTaken(w', es[1..], i);
      n := n' + 1;
      forall j | 0 <= j <= n ensures CanRun(w, es[..j]) && SlotFree(Run(w, es[..j]), i) {
        if j > 0 {
          RunHead(w, es, j);
        }
      }
      RunHead(w, es, n);
    }
  }

  ghost predicate SlotFree(w: World, i: nat) {
    i < |w.table.slots| && w.table.slots[i].fd < 0
  }

  // ---------- How many clients ----------

  ghost function RemoteClients(w: World): set<ClientId> {
    set k | k in w.registry && k in w.objs && w.objs[k].connection.Some?
  }

  ghost function ActiveSlots(t: Sessions.Table): set<nat> {
    set i | 0 <= i < |t.slots| && t.slots[i].fd >= 0
  }

  lemma {:induction false} SameSize(a: set<ClientId>, b: set<nat>, f: map<ClientId, nat>)
    requires f.Keys == a && (forall x, y :: x in a && y in a && x != y ==> f[x] != f[y])
    requires forall i :: i in b <==> exists x :: x in a && f[x] == i
    ensures |a| == |b|
    decreases a
  {
    if a != {} {
      var x :| x in a;
      var a', b', f' := a - {x}, b - {f[x]}, f - {x};
      forall i ensures i in b' <==> exists y :: y in a' && f'[y] == i {
        if i in b' {
          var y :| y in a && f[y] == i;
          assert y in a' && f'[y] == i;
        }
      }
      SameSize(a', b', f');
    } else {
      assert forall i :: i !in b;
    }
  }

  lemma {:induction false} BelowSize(s: set<nat>, n: nat)
    requires forall i :: i in s ==> i < n
    ensures |s| <= n
  {
    if n == 0 {
      assert s == {};
    } else {
      BelowSize(s - {n - 1}, n - 1);
    }
  }

  /** Broker and socket table agree in every state of every run without I/O errors; so there are exactly as many remote
      clients as active slots, and never more than slots. */
  lemma BrokerSlotAgreement(n: nat, strings: Strings, auth: Auth, es: seq<Event>, w: World)
    requires CanRun(Start(n, strings, auth), es) && CleanRun(Start(n, strings, auth), es)
    requires w == Run(Start(n, strings, auth), es)
    ensures Agree(w) && |w.table.slots| == n
    ensures |RemoteClients(w)| == |ActiveSlots(w.table)| <= n
  {
    var w0 := Start(n, strings, auth);
    StartLinked(n, strings, auth);
    SessionRuns.StartMeans(n);
    assert Agree(w0);
    RunAgree(w0, es);
    AgreeCounts(w);
  }

  lemma AgreeCounts(w: World)
    requires Agree(w)
    ensures |RemoteClients(w)| == |ActiveSlots(w.table)| <= |w.table.slots|
  {
    var a, b := RemoteClients(w), ActiveSlots(w.table);
    forall k | k in a ensures Remote(w, k) {
    }
    var f := map k | k in a :: Slot(w, k);
    forall i | i in b ensures exists k :: k in a && f[k] == i {
      var k :| Remote(w, k) && Slot(w, k) == i;
      assert k in a;
    }
    SameSize(a, b, f);
    BelowSize(b, |w.table.slots|);
  }

  /** A run without I/O errors that ends with a readable connection; if the next read or write fails the agreement is
      gone. */
  lemma ReadErrorRun(auth: Auth) returns (w: World)
    ensures var (w0, e) := (Start(1, map[], auth), Accept(0, false, true, 5, true));
            CanRun(w0, [e]) && CleanRun(w0, [e]) && Run(w0, [e]) == w
    ensures Agree(w) && Readable(w, 0) && !Agree(Step(w, ReadError(0)))
    ensures forall b, env: Env :: !env.sendOk(0) ==> !Agree(Send(w, 0, b, env))
  {
    w := FirstAccept(auth);
    var (w0, e) := (Start(1, map[], auth), Accept(0, false, true, 5, true));
    assert [e][1..] == [];
    StartLinked(1, map[], auth);
    BrokerSlotAgreement(1, map[], auth, [e], w);
    ReadErrorBreaks(w, 0);
    forall b, env: Env | !env.sendOk(0) ensures !Agree(Send(w, 0, b, env)) {
      SendErrorBreaks(w, 0, b, env);
    }
  }

  // ---------- Two clients on one slot ----------

  /** After a failed read the freed slot may be given to a new client. Then two registered clients share it: what the
      new peer sends is read for the old client as well, and closing the old client ends the new session. */
  lemma SharedSlot(w: World, k: ClientId, e: Event)
    requires Linked(w) && Readable(w, k) && Enabled(w, e)
    requires Takes(Step(w, ReadError(k)), e, Slot(w, k))
    ensures var w2 := Step(Step(w, ReadError(k)), e);
            && k != e.k && Remote(w2, k) && Remote(w2, e.k) && Slot(w2, k) == Slot(w2, e.k)
            && Readable(w2, k) && Readable(w2, e.k)
            && var w3 := Close(w2, k); e.k in w3.registry && !Readable(w3, e.k)
  {
    var w1 := Step(w, ReadError(k));
    DeleteTable(w.table, Slot(w, k));
    AcceptTable(w1.table, e.lruPurge, e.pending, e.fd, e.openOk);
    var w2 := Step(w1, e);
    assert w2.registry == w.registry + [e.k];
    assert e.k in w2.registry;
    EraseOther(w2.registry, k, e.k);
  }

  lemma {:induction false} EraseOther(s: seq<ClientId>, k: ClientId, j: ClientId)
    requires j != k && j in s
    ensures j in Erase(s, k)
  {
    if s[0] != k && s[0] != j {
      EraseOther(s[1..], k, j);
    }
  }

  /** It happens: one connection, one failed read, another connection. */
  lemma SharedSlotRun(auth: Auth) returns (w: World)
    ensures var es := [Accept(0, false, true, 5, true), ReadError(0), Accept(1, false, true, 7, true)];
            CanRun(Start(1, map[], auth), es) && Run(Start(1, map[], auth), es) == w
    ensures Remote(w, 0) && Remote(w, 1) && Slot(w, 0) == Slot(w, 1) && Readable(w, 0) && Readable(w, 1)
  {
    var w0 := Start(1, map[], auth);
    var e0, e1, e2 := Accept(0, false, true, 5, true), ReadError(0), Accept(1, false, true, 7, true);
    var w1 := FirstAccept(auth);
    assert Readable(w1, 0);
    var w2 := Step(w1, e1);
    StepLinked(w1, e1);
    OnlySlot(w2.table, 7);
    SharedSlot(w1, 0, e2);
    w := Step(w2, e2);
    RunThree(w0, e0, e1, e2, w1, w2);
  }
}
