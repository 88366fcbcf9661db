/** Which CONNECT is let in, told of its fields, and what follows. */
module Login {
  import opened Bytes
  import opened Codec
  import opened Interner
  import opened Broker
  import opened BrokerRuns
  import Builder
  import Sessions
  import SessionProtocol

  /** The fields of a CONNECT, section 3.1 of MQTT 3.1.1. */
  datatype Fields = Fields(flags: byte, keepAlive: uint16, id: bytes, will: Option<Will>, user: Option<bytes>,
                           password: Option<bytes>)

  datatype Will = Will(topic: bytes, message: bytes)

  /** The flag byte says which optional fields are there. */
  predicate Consistent(f: Fields) {
    && (f.user.Some? <==> f.flags / 128 % 2 == 1) && (f.password.Some? <==> f.flags / 64 % 2 == 1)
    && (f.will.Some? <==> f.flags / 4 % 2 == 1)
    && |f.id| < 65536
    && (f.will.Some? ==> |f.will.value.topic| < 65536 && |f.will.value.message| < 65536)
    && (f.user.Some? ==> |f.user.value| < 65536) && (f.password.Some? ==> |f.password.value| < 65536)
  }

  function Optional(s: Option<bytes>): bytes {
    if s.Some? then Prefixed(s.value) else []
  }

  function WillBytes(w: Option<Will>): bytes {
    if w.Some? then Prefixed(w.value.topic) + Prefixed(w.value.message) else []
  }

  function FixedPart(f: Fields): bytes {
    [0, 4, 77, 81, 84, 84, 4, f.flags, f.keepAlive / 256 % 256, f.keepAlive % 256]
  }

  /** The payload, section 3.1.3: client identifier, will topic and message, user name, password. */
  function PayloadOf(f: Fields): bytes {
    Prefixed(f.id) + (WillBytes(f.will) + (Optional(f.user) + Optional(f.password)))
  }

  /** A decoded message with these fields. */
  ghost predicate Lays(m: Msg, f: Fields) {
    Consistent(f) && m.vheader <= |m.buffer| && m.buffer[m.vheader..] == FixedPart(f) + PayloadOf(f)
  }

  /** A string as the comparison of credentials sees it: its length passes through a `uint8_t`. */
  function Cut(s: bytes): bytes {
    s[..|s| % 256]
  }

  /** Who is let in: the user name passes, or none is given and no password is set; and the password passes, or none is
      given and no user is set. */
  predicate Passes(f: Fields, auth: Auth) {
    && (match f.user case Some(u) => auth.userOk(Cut(u)) case None => !auth.hasPassword)
    && (match f.password case Some(p) => auth.passwordOk(Cut(p)) case None => !auth.hasUser)
  }

  // ---------- Reading ----------

  /** A length-prefixed string at `p`, with `rest` behind it. */
  lemma StringAt(b: bytes, beyond: nat -> byte, p: nat, s: bytes, rest: bytes)
    requires |s| < 65536 && p <= |b| && b[p..] == Prefixed(s) + rest
    ensures var q := After(b, beyond, p); q == p + 2 + |s| <= |b| && b[q..] == rest
    ensures Field(b, beyond, p) == s && Credential(b, beyond, p) == Cut(s)
  {
    ReadPrefixed(b, beyond, p, s);
    var q := p + 2 + |s|;
    assert b[q..] == b[p..][2 + |s|..] == rest;
    assert Slice(b, beyond, p + 2, |s|)[..|s| % 256] == Slice(b, beyond, p + 2, |s| % 256);
  }

  lemma OptionalAt(b: bytes, beyond: nat -> byte, p: nat, s: Option<bytes>, rest: bytes)
    requires p <= |b| && b[p..] == Optional(s) + rest && (s.Some? ==> |s.value| < 65536)
    ensures var q := if s.Some? then After(b, beyond, p) else p; q <= |b| && b[q..] == rest
    ensures s.Some? ==> Credential(b, beyond, p) == Cut(s.value)
  {
    if s.Some? {
      StringAt(b, beyond, p, s.value, rest);
    } else {
      assert [] + rest == rest;
    }
  }

  lemma WillAt(b: bytes, beyond: nat -> byte, p: nat, w: Option<Will>, rest: bytes)
    requires p <= |b| && b[p..] == WillBytes(w) + rest
    requires w.Some? ==> |w.value.topic| < 65536 && |w.value.message| < 65536
    ensures var q := if w.Some? then After(b, beyond, After(b, beyond, p)) else p; q <= |b| && b[q..] == rest
  {
    if w.Some? {
      assert b[p..] == Prefixed(w.value.topic) + (Prefixed(w.value.message) + rest);
      StringAt(b, beyond, p, w.value.topic, Prefixed(w.value.message) + rest);
      StringAt(b, beyond, After(b, beyond, p), w.value.message, rest);
    } else {
      assert [] + rest == rest;
    }
  }

  /** The credentials at `p`. */
  lemma LoginMeans(b: bytes, beyond: nat -> byte, p: nat, f: Fields, auth: Auth)
    requires Consistent(f) && p <= |b| && b[p..] == Optional(f.user) + Optional(f.password)
    ensures LoginOk(b, beyond, p, f.flags, auth) <==> Passes(f, auth)
  {
    OptionalAt(b, beyond, p, f.user, Optional(f.password));
    var q := if f.user.Some? then After(b, beyond, p) else p;
    assert b[q..] == Optional(f.password) + [];
    OptionalAt(b, beyond, q, f.password, []);
  }

  lemma FixedAt(m: Msg, beyond: nat -> byte, f: Fields)
    requires Lays(m, f)
    ensures var h := m.vheader as nat;
            && h + 10 <= |m.buffer| && m.buffer[h + 10..] == PayloadOf(f)
            && Slice(m.buffer, beyond, h + 2, 4) == [77, 81, 84, 84] && At(m.buffer, beyond, h + 6) == 4
            && At(m.buffer, beyond, h + 7) == f.flags && StringLength(m.buffer, beyond, h + 8) == f.keepAlive
  {
    var h, rest, b := m.vheader as nat, m.buffer[m.vheader..], m.buffer;
    assert b[h + 10..] == rest[10..] == PayloadOf(f);
    forall i | 0 <= i < 10 ensures At(b, beyond, h + i) == FixedPart(f)[i] {
      assert b[h + i] == rest[i];
    }
    var name := Slice(b, beyond, h + 2, 4);
    assert name[0] == At(b, beyond, h + 2) && name[1] == At(b, beyond, h + 3)
        && name[2] == At(b, beyond, h + 4) && name[3] == At(b, beyond, h + 5);
    assert name == [77, 81, 84, 84];
  }

  /** A CONNECT is read as its fields: every one arrives, the keep-alive with both bytes, and it is let in exactly if
      its credentials pass. */
  lemma ConnectMeans(m: Msg, beyond: nat -> byte, f: Fields, auth: Auth)
    requires Lays(m, f)
    ensures Connect(m, beyond, auth) == ConnectResult(f.flags, f.keepAlive, Some(f.id), Passes(f, auth))
  {
    var b, p := m.buffer, m.vheader as nat + 10;
    FixedAt(m, beyond, f);
    StringAt(b, beyond, p, f.id, WillBytes(f.will) + (Optional(f.user) + Optional(f.password)));
    var q := After(b, beyond, p);
    WillAt(b, beyond, q, f.will, Optional(f.user) + Optional(f.password));
    LoginMeans(b, beyond, if f.will.Some? then After(b, beyond, After(b, beyond, q)) else q, f, auth);
  }

  /** Another protocol name or level. */
  predicate OtherName(m: Msg, beyond: nat -> byte) {
    || Slice(m.buffer, beyond, m.vheader as nat + 2, 4) != [77, 81, 84, 84]
    || At(m.buffer, beyond, m.vheader as nat + 6) != 4
  }

  /** The client as such a CONNECT leaves it: flags and keep-alive are taken, its name is not. */
  function Renounced(c: Client, m: Msg, beyond: nat -> byte): Client {
    var (b, h) := (m.buffer, m.vheader as nat);
    c.(flags := At(b, beyond, h + 7), keepAlive := 256 * At(b, beyond, h + 8) as nat + At(b, beyond, h + 9) as nat,
       connected := false)
  }

  /** With another protocol name or level a CONNECT is refused, and the name of the client is not taken from it. */
  lemma OtherProtocol(m: Msg, beyond: nat -> byte, auth: Auth, c: Client)
    requires OtherName(m, beyond)
    ensures !Connect(m, beyond, auth).accepted && Connecting(c, Connect(m, beyond, auth)) == Renounced(c, m, beyond)
  {
  }

  /** Credentials of at most 255 bytes are compared whole. */
  lemma ShortCredentials(s: bytes)
    requires |s| <= 255
    ensures Cut(s) == s
  {
  }

  // ---------- Arriving and answering ----------

  /** Every CONNECT of the standard that fits arrives with its fields. */
  lemma ConnectArrives(f: Fields, vheader: byte)
    requires Consistent(f) && |FixedPart(f) + PayloadOf(f)| <= Builder.MAX_BODY
    ensures var m := Feed(Fresh(vheader), Builder.StandardPacket(0x10, 0, FixedPart(f) + PayloadOf(f)));
            Type(m) == 0x10 && Lays(m, f)
  {
    var body := FixedPart(f) + PayloadOf(f);
    Builder.BuiltMsg(0x10, 0, body);
    Builder.RoundTrip(0x10, 0, body, vheader);
  }

  /** The acknowledgement of an accepted CONNECT: no session present, return code 0. */
  lemma ConnAckBytes()
    ensures ConnAck().buffer == [0x20, 2, 0, 0] && EncodeLength(ConnAck()).buffer == [0x20, 2, 0, 0]
  {
    Builder.BuiltMsg(0x20, 0, [0, 0]);
    assert Builder.EncodeRemaining(2) == [2];
    assert Builder.StandardPacket(0x20, 0, [0, 0]) == [0x20, 2, 0, 0];
  }

  /** A client with the fields of a CONNECT. */
  function Taking(c: Client, f: Fields): Client {
    c.(flags := f.flags, keepAlive := f.keepAlive, clientId := f.id)
  }

  lemma AcceptedAnswer(w: World, k: ClientId, m: Msg, env: Env)
    requires k in w.objs && Connect(m, env.beyond, w.auth).accepted
    ensures var c := Connecting(w.objs[k], Connect(m, env.beyond, w.auth));
            ProcessConnect(w, k, m, env) == Send(w.(objs := w.objs[k := c]), k, [0x20, 2, 0, 0], env)
  {
    ConnAckBytes();
  }

  lemma TryDecided(c: Client)
    requires !c.connected
    ensures Decide(c, 0x10) == TryConnect
  {
  }

  lemma TryProcessed(w: World, k: ClientId, m: Msg, env: Env)
    requires k in w.objs && Decide(w.objs[k], Type(m)) == TryConnect
    ensures ProcessMessage(w, k, m, env) == ProcessConnect(w, k, m, env)
  {
  }

  /** A CONNECT from a remote client that is not connected. If its credentials pass, the client is connected and is
      sent the four bytes of an accepting CONNACK; if not, it is sent nothing, taken out of the registry and its
      session freed. Either way its fields are kept, and nobody else and no topic is touched. */
  lemma ConnectProcessed(w: World, k: ClientId, m: Msg, f: Fields, env: Env)
    requires Linked(w) && k in w.objs && w.objs[k].remote && w.objs[k].attached && !w.objs[k].connected
    requires Type(m) == 0x10 && Lays(m, f)
    ensures var (w', c) := (ProcessMessage(w, k, m, env), Taking(w.objs[k], f));
            && SessionProtocol.OnlyTouches(w, w', k) && w'.strings == w.strings
            && (Passes(f, w.auth) ==>
                  && w'.objs[k] == c.(connected := true,
                                      sent := c.sent + if env.sendOk(k) then [[0x20, 2, 0, 0]] else [])
                  && w'.registry == w.registry)
            && (!Passes(f, w.auth) ==>
                  && w'.objs[k] == c.(connected := false, attached := false)
                  && (forall x :: x in w'.registry <==> x in w.registry && x != k)
                  && w'.table.slots[c.connection.value].fd < 0)
  {
    ConnectMeans(m, env.beyond, f, w.auth);
    TryDecided(w.objs[k]);
    TryProcessed(w, k, m, env);
    if Passes(f, w.auth) {
      AcceptedAnswer(w, k, m, env);
      SentToOne(w, k, Taking(w.objs[k], f).(connected := true), [0x20, 2, 0, 0], env);
    } else {
      RefusedConnect(w, k, m, Taking(w.objs[k], f).(connected := false), env);
    }
  }

  lemma SentToOne(w: World, k: ClientId, c: Client, b: bytes, env: Env)
    requires k in w.objs && c.connection.Some?
    ensures var w' := Send(w.(objs := w.objs[k := c]), k, b, env);
            && SessionProtocol.OnlyTouches(w, w', k) && w'.strings == w.strings && w'.registry == w.registry
            && w'.objs[k] == c.(sent := c.sent + if env.sendOk(k) then [b] else [])
  {
    assert c.sent + [] == c.sent;
  }

  lemma RefusedConnect(w: World, k: ClientId, m: Msg, c: Client, env: Env)
    requires Linked(w) && k in w.objs && c.remote && c.attached && c.connection == w.objs[k].connection
    requires w.objs[k].attached && w.objs[k].remote && !c.connected
    requires c == Connecting(w.objs[k], Connect(m, env.beyond, w.auth)) && !Connect(m, env.beyond, w.auth).accepted
    ensures var w' := ProcessConnect(w, k, m, env);
            && SessionProtocol.OnlyTouches(w, w', k) && w'.strings == w.strings
            && w'.objs[k] == c.(connected := false, attached := false)
            && (forall x :: x in w'.registry <==> x in w.registry && x != k)
            && w'.table.slots[c.connection.value].fd < 0
  {
    EraseMeans(w.registry, k);
  }

  /** Such a CONNECT ends the session of a remote client. */
  lemma OtherProtocolProcessed(w: World, k: ClientId, m: Msg, env: Env)
    requires Linked(w) && k in w.objs && w.objs[k].remote && w.objs[k].attached && !w.objs[k].connected
    requires Type(m) == 0x10 && OtherName(m, env.beyond)
    ensures var (w', c) := (ProcessMessage(w, k, m, env), Renounced(w.objs[k], m, env.beyond));
            && SessionProtocol.OnlyTouches(w, w', k) && w'.strings == w.strings
            && w'.objs[k] == c.(attached := false)
            && (forall x :: x in w'.registry <==> x in w.registry && x != k)
            && w'.table.slots[c.connection.value].fd < 0
  {
    OtherProtocol(m, env.beyond, w.auth, w.objs[k]);
    TryDecided(w.objs[k]);
    TryProcessed(w, k, m, env);
    RefusedConnect(w, k, m, Renounced(w.objs[k], m, env.beyond), env);
  }

  /** User "a" and password "x", byte by byte. */
  const WRONG: bytes := [0x10, 19, 0, 4, 77, 81, 84, 84, 4, 0xC2, 0, 60, 0, 1, 99, 0, 1, 97, 0, 1, 120]

  function WrongFields(): Fields {
    Fields(0xC2, 60, [99], None, Some([97]), Some([120]))
  }

  lemma WrongBytes()
    ensures Consistent(WrongFields()) && |FixedPart(WrongFields()) + PayloadOf(WrongFields())| == 19
    ensures Builder.StandardPacket(0x10, 0, FixedPart(WrongFields()) + PayloadOf(WrongFields())) == WRONG
  {
    assert Builder.EncodeRemaining(19) == [19];
    assert PayloadOf(WrongFields()) == [0, 1, 99, 0, 1, 97, 0, 1, 120];
    assert FixedPart(WrongFields()) == [0, 4, 77, 81, 84, 84, 4, 0xC2, 0, 60];
  }

  lemma WrongArrives()
    ensures Type(Feed(Fresh(0), WRONG)) == 0x10 && Lays(Feed(Fresh(0), WRONG), WrongFields())
  {
    WrongBytes();
    ConnectArrives(WrongFields(), 0);
  }

  lemma WrongPasses(auth: Auth)
    ensures Passes(WrongFields(), auth) <==> auth.userOk([97]) && auth.passwordOk([120])
  {
    assert Cut([97]) == [97] && Cut([120]) == [120];
  }

  /** That CONNECT is refused by a login that does not take the password, whatever it says of the user. */
  lemma WrongPassword(w: World, k: ClientId, m: Msg, env: Env)
    requires Linked(w) && k in w.objs && w.objs[k].remote && w.objs[k].attached && !w.objs[k].connected
    requires !w.auth.passwordOk([120]) && m == Feed(Fresh(0), WRONG)
    ensures var w' := ProcessMessage(w, k, m, env);
            k in w'.objs && !w'.objs[k].connected && k !in w'.registry && w'.objs[k].sent == w.objs[k].sent
  {
    WrongArrives();
    WrongPasses(w.auth);
    ConnectProcessed(w, k, m, WrongFields(), env);
  }
}
