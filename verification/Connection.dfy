/** The broker's own receive loop on one connection: what the bytes read amount to. */
module Connection {
  import opened Bytes
  import opened Codec
  import opened Framing
  import opened Broker
  import opened BrokerInv
  import opened BrokerRuns

  /** The receive buffer of client `k` replaced. */
  function Holding(w: World, k: ClientId, m: Msg): World {
    if k in w.objs then w.(objs := w.objs[k := w.objs[k].(message := m)]) else w
  }

  /** Packet `m` of client `k` processed, with `m` in the receive buffer, which is empty and waiting afterwards. */
  function AfterPacket(w: World, k: ClientId, m: Msg, env: Env): World {
    if k in w.objs
    then Holding(ProcessMessage(Holding(w, k, m), k, m, env), k, Msg([], m.vheader, 0, FixedHeader))
    else w
  }

  /** A packet and what its processing sees of the surroundings. */
  datatype Arrival = Arrival(m: Msg, env: Env)

  function AfterPackets(w: World, k: ClientId, arrivals: seq<Arrival>): World
    decreases |arrivals|
  {
    if arrivals == [] then w
    else AfterPackets(AfterPacket(w, k, arrivals[0].m, arrivals[0].env), k, arrivals[1..])
  }

  // ---------- Reads ----------

  /** All events are bytes read from client `k`. */
  predicate ReadsOf(k: ClientId, es: seq<Event>) {
    forall i :: 0 <= i < |es| ==> es[i].Read? && es[i].k == k
  }

  function BytesOf(k: ClientId, es: seq<Event>): (r: bytes)
    requires ReadsOf(k, es)
    ensures |r| == |es| && forall i :: 0 <= i < |es| ==> r[i] == es[i].b
  {
    seq<byte>(|es|, (i: nat) requires i < |es| => es[i].b)
  }

  /** The connection can be read before each of these events. */
  ghost predicate StaysReadable(w: World, k: ClientId, es: seq<Event>)
    requires ReadsOf(k, es)
    decreases |es|
  {
    es == [] || (Readable(w, k) && StaysReadable(Step(w, es[0]), k, es[1..]))
  }

  /** The packets a decoder in state `m` completes over these bytes, each with the surroundings of its last byte. */
  function Arrivals(m: Msg, k: ClientId, es: seq<Event>): seq<Arrival>
    requires ReadsOf(k, es)
    decreases |es|
  {
    if es == [] then []
    else
      var (m', out) := Receive(m, [es[0].b]);
      if out == [] then Arrivals(m', k, es[1..]) else [Arrival(out[0], es[0].env)] + Arrivals(m', k, es[1..])
  }

  function Messages(arrivals: seq<Arrival>): (r: seq<Msg>)
    ensures |r| == |arrivals| && forall i :: 0 <= i < |arrivals| ==> r[i] == arrivals[i].m
  {
    seq<Msg>(|arrivals|, (i: nat) requires i < |arrivals| => arrivals[i].m)
  }

  lemma ReceiveByte(m: Msg, b: byte)
    ensures var m' := Incoming(m, b);
            Receive(m, [b]) == if Type(m') != 0 then (Reset(m'), [m']) else (m', [])
  {
    var s, m' := [b], Incoming(m, b);
    assert s[0] == b && s[1..] == [];
    assert Receive(m', s[1..]) == (m', []) && Receive(Reset(m'), s[1..]) == (Reset(m'), []);
    assert [m'] + [] == [m'];
  }

  /** They are the messages `Receive` hands over for the whole of the bytes. */
  lemma {:induction false} ArrivalsAreReceived(m: Msg, k: ClientId, es: seq<Event>)
    requires ReadsOf(k, es)
    ensures Messages(Arrivals(m, k, es)) == Receive(m, BytesOf(k, es)).1
    decreases |es|
  {
    if es != [] {
      var b, rest := es[0].b, BytesOf(k, es[1..]);
      var (m', out) := Receive(m, [b]);
      assert BytesOf(k, es) == [b] + rest;
      ReceiveByte(m, b);
      ReceiveAppend(m, [b], rest);
      ArrivalsAreReceived(m', k, es[1..]);
      assert Messages(Arrivals(m, k, es)) == out + Messages(Arrivals(m', k, es[1..]));
    }
  }

  // ---------- The loop ----------

  lemma HoldingTwice(w: World, k: ClientId, m: Msg, m': Msg)
    ensures Holding(Holding(w, k, m), k, m') == Holding(w, k, m')
  {
    if k in w.objs {
      var c := w.objs[k].(message := m');
      assert w.objs[k := w.objs[k].(message := m)][k := c] == w.objs[k := c];
    }
  }

  /** What the receive buffer held before a packet is forgotten. */
  lemma PacketsForget(w: World, k: ClientId, m: Msg, arrivals: seq<Arrival>, last: Msg)
    ensures Holding(AfterPackets(Holding(w, k, m), k, arrivals), k, last) ==
            Holding(AfterPackets(w, k, arrivals), k, last)
  {
    if arrivals == [] {
      HoldingTwice(w, k, m, last);
    } else {
      HoldingTwice(w, k, m, arrivals[0].m);
    }
  }

  /** One byte: the decoder goes on, or a finished packet is processed. */
  lemma OneRead(w: World, k: ClientId, b: byte, env: Env)
    requires TableOk(w.table) && Readable(w, k)
    ensures var (m', out) := Receive(w.objs[k].message, [b]);
            && Step(w, Read(k, b, env)) == (if out == [] then Holding(w, k, m') else AfterPacket(w, k, out[0], env))
            && k in Step(w, Read(k, b, env)).objs && Step(w, Read(k, b, env)).objs[k].message == m'
  {
    var m := Incoming(w.objs[k].message, b);
    ReceiveByte(w.objs[k].message, b);
    if Type(m) != 0 {
      ProcessFrame(Holding(w, k, m), k, m, env);
    }
  }

  /** The world of these packets, processed in order, the decoder being in the state the bytes leave. */
  function Amounts(w: World, k: ClientId, m: Msg, es: seq<Event>): World
    requires ReadsOf(k, es)
  {
    Holding(AfterPackets(w, k, Arrivals(m, k, es)), k, Receive(m, BytesOf(k, es)).0)
  }

  lemma FirstByte(m: Msg, k: ClientId, es: seq<Event>)
    requires ReadsOf(k, es) && es != []
    ensures var m' := Receive(m, [es[0].b]).0; Receive(m, BytesOf(k, es)).0 == Receive(m', BytesOf(k, es[1..])).0
  {
    assert BytesOf(k, es) == [es[0].b] + BytesOf(k, es[1..]);
    ReceiveAppend(m, [es[0].b], BytesOf(k, es[1..]));
  }

  lemma AmountsStep(w: World, k: ClientId, m: Msg, es: seq<Event>)
    requires ReadsOf(k, es) && es != []
    ensures var (m', out) := Receive(m, [es[0].b]);
            var w' := if out == [] then Holding(w, k, m') else AfterPacket(w, k, out[0], es[0].env);
            Amounts(w, k, m, es) == Amounts(w', k, m', es[1..])
  {
    var (m', out) := Receive(m, [es[0].b]);
    FirstByte(m, k, es);
    if out == [] {
      PacketsForget(w, k, m', Arrivals(m', k, es[1..]), Receive(m', BytesOf(k, es[1..])).0);
    } else {
      var arrivals := Arrivals(m, k, es);
      assert arrivals[0] == Arrival(out[0], es[0].env) && arrivals[1..] == Arrivals(m', k, es[1..]);
    }
  }

  /** Bytes read from one client, as long as it stays readable: its decoder ends where `Receive` ends on those bytes,
      and the world is that of exactly the packets `Receive` hands over, processed in order. */
  lemma {:induction false} ReadsAreReceived(w: World, k: ClientId, es: seq<Event>)
    requires Linked(w) && k in w.objs && CanRun(w, es) && ReadsOf(k, es) && StaysReadable(w, k, es)
    ensures Run(w, es) == Amounts(w, k, w.objs[k].message, es)
    ensures k in Run(w, es).objs && Run(w, es).objs[k].message == Receive(w.objs[k].message, BytesOf(k, es)).0
    decreases |es|
  {
    var m := w.objs[k].message;
    if es == [] {
      assert w.objs[k := w.objs[k].(message := m)] == w.objs;
      return;
    }
    OneRead(w, k, es[0].b, es[0].env);
    assert es[0] == Read(k, es[0].b, es[0].env);
    StepLinked(w, es[0]);
    AmountsStep(w, k, m, es);
    FirstByte(m, k, es);
    ReadsAreReceived(Step(w, es[0]), k, es[1..]);
  }

  /** A stream of packets on a connection: from a decoder that is waiting, the packets processed are the packets
      sent, in order, if and only if each has a non-zero type nibble; and then the decoder waits again. */
  lemma ConnectionFraming(w: World, k: ClientId, es: seq<Event>, ps: seq<bytes>)
    requires Linked(w) && k in w.objs && CanRun(w, es) && ReadsOf(k, es) && StaysReadable(w, k, es)
    requires AllFramed(ps) && BytesOf(k, es) == Flatten(ps) && w.objs[k].message == Fresh(w.objs[k].message.vheader)
    ensures var arrivals := Arrivals(w.objs[k].message, k, es);
            && (Buffers(Messages(arrivals)) == ps <==> AllTyped(ps))
            && (AllTyped(ps) ==> Messages(arrivals) == DeliveredAll(ps))
    ensures Run(w, es) == Amounts(w, k, w.objs[k].message, es) && k in Run(w, es).objs
    ensures AllTyped(ps) ==> var m := Run(w, es).objs[k].message; m == Fresh(m.vheader)
  {
    var m := w.objs[k].message;
    ReadsAreReceived(w, k, es);
    ArrivalsAreReceived(m, k, es);
    StreamFraming(ps, m.vheader);
    if AllTyped(ps) {
      StreamEnd(ps, m.vheader);
    }
  }

  const PING: bytes := [0xC0, 0]

  lemma PingFramed()
    ensures Framed(PING)
  {
    assert PING[1..2] == [0];
    assert [0][1..] == [] && Remaining([]) == 0 && Remaining([0]) == 0;
    assert LengthField([0]);
    assert Packet(PING, 2);
  }

  lemma TwoFlattened(p: bytes)
    ensures Flatten([p, p]) == p + p
  {
    assert [p, p][1..] == [p] && [p][1..] == [];
    assert Flatten([p]) == p + [] == p;
  }

  /** Two pings in a row on one connection: both are processed. */
  lemma TwoPings(w: World, k: ClientId, es: seq<Event>)
    requires Linked(w) && k in w.objs && CanRun(w, es) && ReadsOf(k, es) && StaysReadable(w, k, es)
    requires BytesOf(k, es) == PING + PING && w.objs[k].message == Fresh(w.objs[k].message.vheader)
    ensures Buffers(Messages(Arrivals(w.objs[k].message, k, es))) == [PING, PING]
    ensures Run(w, es) == Amounts(w, k, w.objs[k].message, es)
  {
    PingFramed();
    TwoFlattened(PING);
    ConnectionFraming(w, k, es, [PING, PING]);
  }
}
