/** What a packet does that is not a publication to pass on, told from its client alone: the client, the registry, the
    two tables. */
module Solo {
  import opened Bytes
  import opened Codec
  import opened Interner
  import opened Broker
  import Sessions

  datatype Scene = Scene(client: Client, registry: seq<ClientId>, table: Sessions.Table, strings: Strings)

  function SceneOf(w: World, k: ClientId): Scene
    requires k in w.objs
  {
    Scene(w.objs[k], w.registry, w.table, w.strings)
  }

  function SendAlone(s: Scene, m: Msg, ok: bool): Scene {
    s.(client := SentMsg(s.client, m, ok), table := AfterSend(s.table, s.client, m, ok))
  }

  function CloseAlone(s: Scene, k: ClientId): Scene {
    s.(client := Closed(s.client), registry := ClosedRegistry(s.registry, k, s.client),
       table := ClosedTable(s.table, s.client))
  }

  /** `~MqttClient`: the client is closed and its topics go with it. */
  function DeletedAlone(s: Scene, k: ClientId): Scene {
    var s' := CloseAlone(s, k);
    s'.(client := s'.client.(subs := {}), strings := ReleaseAll(s.strings, Ascending(s.client.subs, 0)))
  }

  function ConnectAlone(s: Scene, k: ClientId, auth: Auth, m: Msg, env: Env): Scene {
    var r := Connect(m, env.beyond, auth);
    var s' := s.(client := Connecting(s.client, r));
    if r.accepted then SendAlone(s', ConnAck(), env.sendOk(k)) else CloseAlone(s', k)
  }

  function ResubscribeAlone(s: Scene, ok: bool): Scene {
    if s.client.subs == {} then s else SendAlone(s, ResubscribeMsg(s.strings, s.client.subs), ok)
  }

  function Walked(s: Scene, m: Msg, env: Env): TopicsResult {
    TakeTopics(s.strings, s.client.subs, m.buffer, env.beyond, AfterId(m), IsSubscribe(m))
  }

  function Taken(s: Scene, r: TopicsResult): Scene {
    s.(client := s.client.(subs := r.subs), strings := r.strings)
  }

  function TopicsAlone(s: Scene, m: Msg, env: Env, ok: bool): Scene {
    var r := Walked(s, m, env);
    SendAlone(Taken(s, r), Acknowledgement(m, env.beyond, r.codes), ok)
  }

  /** A CONNACK: the client is connected and asks for its topics again. */
  function AcknowledgedAlone(s: Scene, ok: bool): Scene {
    ResubscribeAlone(s.(client := s.client.(connected := true)), ok)
  }

  function PongAlone(s: Scene, ok: bool): Scene {
    s.(client := Written(s.client, [PINGRESP, 0], ok), table := AfterWrite(s.table, s.client, ok))
  }

  function ProcessAlone(s: Scene, k: ClientId, auth: Auth, m: Msg, env: Env): Scene {
    ActAlone(s, Decide(s.client, Type(m)), k, auth, m, env)
  }

  function ActAlone(s: Scene, action: Action, k: ClientId, auth: Auth, m: Msg, env: Env): Scene {
    match action
    case TryConnect => ConnectAlone(s, k, auth, m, env)
    case NowConnected => AcknowledgedAlone(s, env.sendOk(k))
    case Topics => TopicsAlone(s, m, env, env.sendOk(k))
    case Pong => PongAlone(s, env.sendOk(k))
    case End => CloseAlone(s, k)
    case Ignore => s
    case Deliver => s
  }

  /** A scene put back into its world. */
  function Restore(w: World, k: ClientId, s: Scene): World {
    World(s.registry, w.objs[k := s.client], s.table, s.strings, w.auth)
  }

  lemma SendIsAlone(w: World, k: ClientId, s: Scene, m: Msg, env: Env)
    requires k in w.objs
    ensures SendMsg(Restore(w, k, s), k, m, env) == Restore(w, k, SendAlone(s, m, env.sendOk(k)))
  {
    var w' := Restore(w, k, s);
    var c := SentMsg(s.client, m, env.sendOk(k));
    assert w'.objs[k := c] == w.objs[k := c];
  }

  lemma CloseIsAlone(w: World, k: ClientId, s: Scene)
    requires k in w.objs
    ensures Close(Restore(w, k, s), k) == Restore(w, k, CloseAlone(s, k))
  {
    var w' := Restore(w, k, s);
    assert w'.objs[k := Closed(s.client)] == w.objs[k := Closed(s.client)];
  }

  lemma RestoreSame(w: World, k: ClientId)
    requires k in w.objs
    ensures Restore(w, k, SceneOf(w, k)) == w
  {
    assert w.objs[k := w.objs[k]] == w.objs;
  }

  lemma ConnectIsAlone(w: World, k: ClientId, m: Msg, env: Env)
    requires k in w.objs
    ensures ProcessConnect(w, k, m, env) == Restore(w, k, ConnectAlone(SceneOf(w, k), k, w.auth, m, env))
  {
    var s' := SceneOf(w, k).(client := Connecting(w.objs[k], Connect(m, env.beyond, w.auth)));
    SendIsAlone(w, k, s', ConnAck(), env);
    CloseIsAlone(w, k, s');
  }

  lemma ResubscribeIsAlone(w: World, k: ClientId, s: Scene, env: Env)
    requires k in w.objs
    ensures Resubscribe(Restore(w, k, s), k, env) == Restore(w, k, ResubscribeAlone(s, env.sendOk(k)))
  {
    SendIsAlone(w, k, s, ResubscribeMsg(s.strings, s.client.subs), env);
  }

  lemma TopicsIsAlone(w: World, k: ClientId, m: Msg, env: Env)
    requires k in w.objs
    ensures ProcessTopics(w, k, m, env) == Restore(w, k, TopicsAlone(SceneOf(w, k), m, env, env.sendOk(k)))
  {
    var r := TakeTopics(w.strings, w.objs[k].subs, m.buffer, env.beyond, AfterId(m), IsSubscribe(m));
    var s' := SceneOf(w, k).(client := w.objs[k].(subs := r.subs), strings := r.strings);
    SendIsAlone(w, k, s', Acknowledgement(m, env.beyond, r.codes), env);
  }

  /** Nothing is lost by looking at one client: the rest of the world is as before. */
  lemma ProcessIsAlone(w: World, k: ClientId, m: Msg, env: Env)
    requires k in w.objs && Decide(w.objs[k], Type(m)) != Deliver
    ensures ProcessMessage(w, k, m, env) == Restore(w, k, ProcessAlone(SceneOf(w, k), k, w.auth, m, env))
  {
    RestoreSame(w, k);
    match Decide(w.objs[k], Type(m))
    case TryConnect => ConnectIsAlone(w, k, m, env);
    case NowConnected =>
      ResubscribeIsAlone(w, k, SceneOf(w, k).(client := w.objs[k].(connected := true)), env);
    case Topics => TopicsIsAlone(w, k, m, env);
    case End => CloseIsAlone(w, k, SceneOf(w, k));
    case _ =>
  }

  /** The client's receive buffer replaced. */
  function Holding(s: Scene, m: Msg): Scene {
    s.(client := s.client.(message := m))
  }

  function HandledAlone(s: Scene, k: ClientId, auth: Auth, m: Msg, env: Env): Scene {
    Holding(ProcessAlone(s, k, auth, m, env), Reset(m))
  }

  /** What is in the receive buffer is processed if it is finished. */
  function FinishedAlone(s: Scene, k: ClientId, auth: Auth, env: Env): Scene {
    if Type(s.client.message) == 0 then s else HandledAlone(s, k, auth, s.client.message, env)
  }

  /** One byte read, told from its client alone. */
  function ReadAlone(s: Scene, k: ClientId, auth: Auth, b: byte, env: Env): Scene {
    FinishedAlone(Holding(s, Incoming(s.client.message, b)), k, auth, env)
  }

  lemma ReadIsAlone(w: World, k: ClientId, b: byte, env: Env)
    requires k in w.objs
    requires var m := Incoming(w.objs[k].message, b); Type(m) == 0 || Decide(w.objs[k], Type(m)) != Deliver
    ensures ReadByte(w, k, b, env) == Restore(w, k, ReadAlone(SceneOf(w, k), k, w.auth, b, env))
  {
    var m := Incoming(w.objs[k].message, b);
    var w' := w.(objs := w.objs[k := w.objs[k].(message := m)]);
    if Type(m) != 0 {
      ProcessIsAlone(w', k, m, env);
      var s'' := ProcessAlone(SceneOf(w', k), k, w.auth, m, env);
      var c := s''.client.(message := Reset(m));
      assert w'.objs[k := s''.client][k := c] == w.objs[k := c];
    }
  }
}
