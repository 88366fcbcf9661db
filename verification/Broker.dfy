/** The broker, its clients, the socket table and the string table as one value, and what each operation does to it.
    A client object is named by a number, as its address names it in the source. The classes in MqttBroker.dfy are
    proved against these functions. */
module Broker {
  import opened Bytes
  import opened Codec
  import opened Interner
  import Sessions

  type ClientId = nat

  /** One call of a client's callback. */
  datatype Delivery = Delivery(topic: bytes, payload: bytes)

  /** `attached`: `parent` is set. `remote`: `client` is set. `calls` and `sent` log the callback and the socket. */
  datatype Client = Client(connected: bool, flags: byte, keepAlive: nat, clientId: bytes, attached: bool, remote: bool,
                           connection: Option<nat>, subs: set<byte>, message: Msg, callback: bool,
                           calls: seq<Delivery>, sent: seq<bytes>)

  /** The login: whether `auth_user` and `auth_password` are non-empty, and which strings compare equal to them. */
  datatype Auth = Auth(hasUser: bool, hasPassword: bool, userOk: bytes -> bool, passwordOk: bytes -> bool)

  datatype World = World(registry: seq<ClientId>, objs: map<ClientId, Client>, table: Sessions.Table, strings: Strings,
                         auth: Auth)

  /** What one step sees of its surroundings: the memory after the packet, and which sockets take a write. */
  datatype Env = Env(beyond: nat -> byte, sendOk: ClientId -> bool)

  // ---------- Sending ----------

  /** A client after bytes have been written to its connection, and the socket table. `ok` says whether the socket takes
      them; a refused write ends the session. */
  function Written(c: Client, b: bytes, ok: bool): Client {
    if c.connection.Some? && ok then c.(sent := c.sent + [b]) else c
  }

  function AfterWrite(t: Sessions.Table, c: Client, ok: bool): Sessions.Table {
    if c.connection.Some? && c.connection.value < |t.slots| && !ok then Sessions.Delete(t, c.connection.value) else t
  }

  function Send(w: World, k: ClientId, b: bytes, env: Env): World
    requires k in w.objs
  {
    w.(objs := w.objs[k := Written(w.objs[k], b, env.sendOk(k))],
       table := AfterWrite(w.table, w.objs[k], env.sendOk(k)))
  }

  /** `sendTo`: an empty message is refused, an unfinished one completed. */
  function SendMsg(w: World, k: ClientId, m: Msg, env: Env): World
    requires k in w.objs
  {
    if m.buffer == [] then w else Send(w, k, EncodeLength(m).buffer, env)
  }

  function SentMsg(c: Client, m: Msg, ok: bool): Client {
    if m.buffer == [] then c else Written(c, EncodeLength(m).buffer, ok)
  }

  function AfterSend(t: Sessions.Table, c: Client, m: Msg, ok: bool): Sessions.Table {
    if m.buffer == [] then t else AfterWrite(t, c, ok)
  }

  // ---------- Topics ----------

  predicate Subscribed(t: Strings, subs: set<byte>, i: byte) {
    exists s | s in subs :: Matches(t, s, i)
  }

  /** Inserting a topic into a client's set: a temporary handle, a copy if it is new to the set, the temporary gone. */
  function InsertTopic(t: Strings, subs: set<byte>, text: bytes): (Strings, set<byte>) {
    var (t', i) := Intern(t, text);
    (Release(if i in subs then t' else Use(t', i), i), subs + {i})
  }

  function EraseTopic(t: Strings, subs: set<byte>, text: bytes): (Strings, set<byte>) {
    var (t', i) := Intern(t, text);
    (Release(if i in subs then Release(t', i) else t', i), subs - {i})
  }

  // ---------- Publishing ----------

  /** The topic a PUBLISH names: its length passes through a `uint8_t`. */
  function PublishTopic(m: Msg, beyond: nat -> byte): bytes {
    Slice(m.buffer, beyond, m.vheader + 2, StringLength(m.buffer, beyond, m.vheader) % 256)
  }

  /** The rest of a PUBLISH: with any flag set a packet identifier is skipped, and the 16-bit length may wrap. */
  function PublishPayload(m: Msg, beyond: nat -> byte): bytes {
    var p := m.vheader as int + 2 + StringLength(m.buffer, beyond, m.vheader) + if Flags(m) != 0 then 2 else 0;
    Slice(m.buffer, beyond, p, (|m.buffer| - p) % 65536)
  }

  /** A client after a PUBLISH has come to its callback: one call if it is subscribed. */
  function Called(t: Strings, c: Client, m: Msg, beyond: nat -> byte): Client {
    var (t', i) := Intern(t, PublishTopic(m, beyond));
    if c.callback && Subscribed(t', c.subs, i) then
      c.(calls := c.calls + [Delivery(Str(t', i), PublishPayload(m, beyond))])
    else c
  }

  /** A PUBLISH arriving at a client that is not a remote one of this broker; its topic handle is gone afterwards. */
  function ReceivePublish(w: World, k: ClientId, m: Msg, env: Env): World
    requires k in w.objs
  {
    var (t, i) := Intern(w.strings, PublishTopic(m, env.beyond));
    w.(objs := w.objs[k := Called(w.strings, w.objs[k], m, env.beyond)], strings := Release(t, i))
  }

  /** `publishIfSubscribed`. */
  function Offer(w: World, k: ClientId, topic: byte, m: Msg, env: Env): World {
    if k !in w.objs || !Subscribed(w.strings, w.objs[k].subs, topic) then w
    else if w.objs[k].remote then SendMsg(w, k, m, env)
    else ReceivePublish(w, k, m, env)
  }

  /** `MqttBroker::publish` over the clients `ks`, with no upstream broker. */
  function Fanout(w: World, ks: seq<ClientId>, topic: byte, m: Msg, env: Env): World
    decreases |ks|
  {
    if ks == [] then w else Fanout(Offer(w, ks[0], topic, m, env), ks[1..], topic, m, env)
  }

  /** A PUBLISH from outside goes to every registered client. */
  function ForwardPublish(w: World, m: Msg, env: Env): World {
    var (t, i) := Intern(w.strings, PublishTopic(m, env.beyond));
    var w' := Fanout(w.(strings := t), w.registry, i, m, env);
    w'.(strings := Release(w'.strings, i))
  }

  /** `MqttClient::publish` of a local client: the topic handle lives as long as the call. */
  function LocalPublish(w: World, text: bytes, payload: bytes, env: Env): World {
    var (t, i) := Intern(w.strings, TopicText(text));
    var m := Build(PUBLISH, 0, Prefixed(Str(t, i)) + payload);
    var w' := Fanout(w.(strings := t), w.registry, i, m, env);
    w'.(strings := Release(w'.strings, i))
  }

  // ---------- The registry ----------

  function Erase(s: seq<ClientId>, k: ClientId): seq<ClientId> {
    if s == [] then [] else if s[0] == k then s[1..] else [s[0]] + Erase(s[1..], k)
  }

  /** What `close` leaves of a client, of the registry and of the table: an attached client is taken out of the
      registry, and its session is deleted. */
  function Closed(c: Client): Client {
    c.(connected := false, attached := false)
  }

  function ClosedRegistry(registry: seq<ClientId>, k: ClientId, c: Client): seq<ClientId> {
    if c.attached then Erase(registry, k) else registry
  }

  function ClosedTable(t: Sessions.Table, c: Client): Sessions.Table {
    if c.attached && c.remote && c.connection.Some? && c.connection.value < |t.slots|
    then Sessions.Delete(t, c.connection.value) else t
  }

  function Close(w: World, k: ClientId): World
    requires k in w.objs
  {
    var c := w.objs[k];
    w.(registry := ClosedRegistry(w.registry, k, c), table := ClosedTable(w.table, c), objs := w.objs[k := Closed(c)])
  }

  // ---------- Packets ----------

  /** What a CONNECT packet asks for and whether it is let in. */
  datatype ConnectResult = ConnectResult(flags: byte, keepAlive: nat, clientId: Option<bytes>, accepted: bool)

  function Field(b: bytes, beyond: nat -> byte, p: nat): bytes {
    Slice(b, beyond, p + 2, StringLength(b, beyond, p))
  }

  function After(b: bytes, beyond: nat -> byte, p: nat): nat {
    p + 2 + StringLength(b, beyond, p)
  }

  /** A credential is compared with its length cut to eight bits. */
  function Credential(b: bytes, beyond: nat -> byte, p: nat): bytes {
    Slice(b, beyond, p + 2, StringLength(b, beyond, p) % 256)
  }

  predicate LoginOk(b: bytes, beyond: nat -> byte, p: nat, flags: byte, auth: Auth) {
    var named := flags >= 128;
    var p' := if named then After(b, beyond, p) else p;
    && (if named then auth.userOk(Credential(b, beyond, p)) else !auth.hasPassword)
    && (if flags / 64 % 2 == 1 then auth.passwordOk(Credential(b, beyond, p')) else !auth.hasUser)
  }

  function Connect(m: Msg, beyond: nat -> byte, auth: Auth): ConnectResult {
    var b, h := m.buffer, m.vheader as nat;
    var flags := At(b, beyond, h + 7);
    var keepAlive := StringLength(b, beyond, h + 8);
    if Slice(b, beyond, h + 2, 4) != [77, 81, 84, 84] || At(b, beyond, h + 6) != 4 then
      ConnectResult(flags, keepAlive, None, false)
    else
      var p := After(b, beyond, h + 10);
      var p' := if flags / 4 % 2 == 1 then After(b, beyond, After(b, beyond, p)) else p;
      ConnectResult(flags, keepAlive, Some(Field(b, beyond, h + 10)), LoginOk(b, beyond, p', flags, auth))
  }

  /** The fields a CONNECT packet sets, accepted or not. */
  function Connecting(c: Client, r: ConnectResult): Client {
    c.(flags := r.flags, keepAlive := r.keepAlive,
       clientId := if r.clientId.Some? then r.clientId.value else c.clientId, connected := r.accepted)
  }

  function ConnAck(): Msg {
    Build(CONNACK, 0, [0, 0])
  }

  function ProcessConnect(w: World, k: ClientId, m: Msg, env: Env): World
    requires k in w.objs
  {
    var r := Connect(m, env.beyond, w.auth);
    var w' := w.(objs := w.objs[k := Connecting(w.objs[k], r)]);
    if r.accepted then SendMsg(w', k, ConnAck(), env) else Close(w', k)
  }

  datatype TopicsResult = TopicsResult(strings: Strings, subs: set<byte>, codes: bytes)

  /** One turn of the loop of SUBSCRIBE and UNSUBSCRIBE at position `p`: the outcome and where it goes on. */
  function TakeTopic(r: TopicsResult, b: bytes, beyond: nat -> byte, p: nat, subscribe: bool): (n: (TopicsResult, nat))
    ensures n.1 >= p + 2
  {
    var text := Slice(b, beyond, p + 2, StringLength(b, beyond, p) % 256);
    var q := After(b, beyond, p);
    if subscribe then
      var (t, subs) := InsertTopic(r.strings, r.subs, text);
      (TopicsResult(t, subs, r.codes + [if At(b, beyond, q) != 0 then 0x80 else 0]), q + 1)
    else
      var (t, subs) := EraseTopic(r.strings, r.subs, text);
      (TopicsResult(t, subs, r.codes), q)
  }

  function WalkTopics(r: TopicsResult, b: bytes, beyond: nat -> byte, p: nat, subscribe: bool): TopicsResult
    decreases |b| - p
  {
    if p >= |b| then r
    else
      var (r', p') := TakeTopic(r, b, beyond, p, subscribe);
      WalkTopics(r', b, beyond, p', subscribe)
  }

  /** Where the filters of a SUBSCRIBE or UNSUBSCRIBE begin, behind the packet identifier. */
  function AfterId(m: Msg): nat {
    m.vheader as nat + 2
  }

  predicate IsSubscribe(m: Msg) {
    Type(m) == SUBSCRIBE
  }

  /** The topics of a SUBSCRIBE or UNSUBSCRIBE taken into account, before the acknowledgement. */
  function TakeTopics(t: Strings, subs: set<byte>, b: bytes, beyond: nat -> byte, p: nat, subscribe: bool)
    : TopicsResult
  {
    WalkTopics(TopicsResult(t, subs, []), b, beyond, p, subscribe)
  }

  /** The packet identifier comes back, and a SUBACK has one return code for every topic. */
  function Acknowledgement(m: Msg, beyond: nat -> byte, codes: bytes): Msg {
    Build(if IsSubscribe(m) then SUBACK else UNSUBACK, 0,
          [At(m.buffer, beyond, m.vheader), At(m.buffer, beyond, m.vheader as nat + 1)] + codes)
  }

  function ProcessTopics(w: World, k: ClientId, m: Msg, env: Env): World
    requires k in w.objs
  {
    var r := TakeTopics(w.strings, w.objs[k].subs, m.buffer, env.beyond, AfterId(m), IsSubscribe(m));
    var w' := w.(strings := r.strings, objs := w.objs[k := w.objs[k].(subs := r.subs)]);
    SendMsg(w', k, Acknowledgement(m, env.beyond, r.codes), env)
  }

  /** A set of topics in the order `std::set` walks them. */
  function Ascending(subs: set<byte>, i: nat): seq<byte>
    requires i <= 256
    decreases 256 - i
  {
    if i == 256 then [] else (if i in subs then [i] else []) + Ascending(subs, i + 1)
  }

  /** What the destructors of these topics leave of the string table. */
  function ReleaseAll(t: Strings, topics: seq<byte>): Strings
    decreases |topics|
  {
    if topics == [] then t else ReleaseAll(Release(t, topics[0]), topics[1..])
  }

  function TopicList(t: Strings, topics: seq<byte>): bytes {
    if topics == [] then [] else Prefixed(Str(t, topics[0])) + [0] + TopicList(t, topics[1..])
  }

  /** The packet of `resubscribe`. */
  function ResubscribeMsg(t: Strings, subs: set<byte>): Msg {
    Feed(CreateMsg(SUBSCRIBE, 2), [0, 0] + TopicList(t, Ascending(subs, 0)))
  }

  function Resubscribe(w: World, k: ClientId, env: Env): World
    requires k in w.objs
  {
    var c := w.objs[k];
    if c.subs == {} then w else SendMsg(w, k, ResubscribeMsg(w.strings, c.subs), env)
  }

  /** A PUBLISH goes to the callback of a client without a socket or without a broker, and from a remote client to every
      subscriber. */
  function ProcessPublish(w: World, k: ClientId, m: Msg, env: Env): World
    requires k in w.objs
  {
    if w.objs[k].remote && w.objs[k].attached then ForwardPublish(w, m, env) else ReceivePublish(w, k, m, env)
  }

  /** What `processMessage` does with a packet of this type. One that may not come now ends the session. */
  datatype Action = TryConnect | NowConnected | Deliver | Topics | Pong | Ignore | End

  function Decide(c: Client, type_: byte): Action {
    if type_ == CONNECT then if c.connected then End else TryConnect
    else if type_ == CONNACK then NowConnected
    else if type_ == PUBLISH then if c.remote && !c.connected then End else Deliver
    else if type_ == PINGRESP then Ignore
    else if !c.connected then End
    else if type_ == SUBACK || type_ == PUBACK || type_ == UNSUBACK then Ignore
    else if type_ == PINGREQ then if c.remote then Pong else End
    else if type_ == SUBSCRIBE || type_ == UNSUBSCRIBE then Topics
    else End
  }

  function ProcessMessage(w: World, k: ClientId, m: Msg, env: Env): World
    requires k in w.objs
  {
    var c := w.objs[k];
    match Decide(c, Type(m))
    case TryConnect => ProcessConnect(w, k, m, env)
    case NowConnected => Resubscribe(w.(objs := w.objs[k := c.(connected := true)]), k, env)
    case Deliver => ProcessPublish(w, k, m, env)
    case Topics => ProcessTopics(w, k, m, env)
    case Pong => Send(w, k, [PINGRESP, 0], env)
    case Ignore => w
    case End => Close(w, k)
  }

  // ---------- Events ----------

  /** `canReadData` on the client's connection, as far as the table decides it. */
  predicate Readable(w: World, k: ClientId)
  {
    k in w.registry && k in w.objs && w.objs[k].connection.Some?
    && w.objs[k].connection.value < |w.table.slots| && w.table.slots[w.objs[k].connection.value].fd >= 0
  }

  /** One byte read in `MqttClient::loop`. */
  function ReadByte(w: World, k: ClientId, b: byte, env: Env): World
    requires k in w.objs
  {
    var c := w.objs[k];
    var m := Incoming(c.message, b);
    var w' := w.(objs := w.objs[k := c.(message := m)]);
    if Type(m) == 0 then w'
    else
      var w'' := ProcessMessage(w', k, m, env);
      if k in w''.objs then w''.(objs := w''.objs[k := w''.objs[k].(message := Reset(m))]) else w''
  }

  function NewClient(connection: Option<nat>, id: bytes, callback: bool): Client {
    Client(false, 0, 60, id, true, connection.Some?, connection, {}, Fresh(0), callback, [], [])
  }

  /** The accepting half of `MqttBroker::loop`. */
  function AcceptClient(w: World, k: ClientId, lruPurge: bool, pending: bool, fd: int, openOk: bool): World {
    var (t, s) := Sessions.CheckAvail(w.table, lruPurge, pending, fd, openOk);
    if s.None? then w.(table := t)
    else w.(table := t, registry := w.registry + [k], objs := w.objs[k := NewClient(s, [], false)])
  }

  datatype Event =
    | Accept(k: ClientId, lruPurge: bool, pending: bool, fd: int, openOk: bool)
    | Read(k: ClientId, b: byte, env: Env)
    | ReadError(k: ClientId)
    | Timeout(k: ClientId)
    | NewLocal(k: ClientId, id: bytes, callback: bool)
    | Subscribe(k: ClientId, text: bytes)
    | Unsubscribe(k: ClientId, text: bytes)
    | Publish(k: ClientId, text: bytes, payload: bytes, env: Env)
    | Attach(k: ClientId)
    | Hold(text: bytes)
    | Drop(i: byte)

  /** Objects are created once; only local clients are called by the application. `Attach` is `connect` to a broker in
      the same program, `Hold` and `Drop` are topics the application constructs and destroys. */
  predicate Enabled(w: World, e: Event) {
    match e
    case Accept(k, _, _, _, _) => k !in w.objs
    case NewLocal(k, _, _) => k !in w.objs
    case Subscribe(k, _) => k in w.objs && !w.objs[k].remote && w.objs[k].attached
    case Unsubscribe(k, _) => k in w.objs && !w.objs[k].remote && w.objs[k].attached
    case Publish(k, text, payload, _) => k in w.objs && !w.objs[k].remote && w.objs[k].attached
    case Attach(k) => k in w.objs && !w.objs[k].remote
    case _ => true
  }

  function Step(w: World, e: Event): World
    requires Enabled(w, e)
  {
    match e
    case Accept(k, lruPurge, pending, fd, openOk) => AcceptClient(w, k, lruPurge, pending, fd, openOk)
    case Read(k, b, env) => if Readable(w, k) then ReadByte(w, k, b, env) else w
    case ReadError(k) =>
      if Readable(w, k) then w.(table := Sessions.Delete(w.table, w.objs[k].connection.value)) else w
    case Timeout(k) => if k in w.objs && w.objs[k].attached then Close(w, k) else w
    case NewLocal(k, id, callback) =>
      w.(registry := w.registry + [k], objs := w.objs[k := NewClient(None, id, callback)])
    case Subscribe(k, text) =>
      var (t, subs) := InsertTopic(w.strings, w.objs[k].subs, TopicText(text));
      w.(strings := t, objs := w.objs[k := w.objs[k].(subs := subs)])
    case Unsubscribe(k, text) =>
      var (t, subs) := EraseTopic(w.strings, w.objs[k].subs, TopicText(text));
      w.(strings := t, objs := w.objs[k := w.objs[k].(subs := subs)])
    case Publish(k, text, payload, env) => LocalPublish(w, text, payload, env)
    case Attach(k) =>
      var w' := Close(w, k);
      w'.(objs := w'.objs[k := w'.objs[k].(attached := true)])
    case Hold(text) => w.(strings := Intern(w.strings, TopicText(text)).0)
    case Drop(i) => w.(strings := Release(w.strings, i))
  }
}
