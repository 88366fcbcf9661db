/** Built messages: the packet they make, and what a decoder gets back from it. */
module Builder {
  import opened Bytes
  import opened Codec
  import opened Framing

  const MAX_BODY: nat := 4093

  /** MQTT 3.1.1 section 2.2.3: the encoding of a Remaining Length. */
  function EncodeRemaining(n: nat): (l: bytes)
    ensures LengthField(l) && Remaining(l) == n
  {
    if n < 128 then [n]
    else
      var rest := EncodeRemaining(n / 128);
      var l := [128 + n % 128] + rest;
      assert l[1..] == rest;
      assert forall i :: 1 <= i < |l| ==> l[i] == rest[i - 1];
      l
  }

  /** The control packet the standard prescribes. */
  function StandardPacket(t: byte, bits: byte, body: bytes): bytes
    requires t % 16 == 0 && bits < 16
  {
    [t + bits] + EncodeRemaining(|body|) + body
  }

  /** While it is being built a message counts its body bytes. */
  lemma {:induction false} FeedCreate(t: byte, bits: byte, body: bytes)
    requires t % 16 == 0 && bits < 16 && |body| <= MAX_BODY
    ensures Feed(CreateMsg(t, bits), body) == Msg([t + bits, 0, 0] + body, 3, |body|, Create)
    decreases |body|
  {
    if body == [] {
      assert [t + bits, 0, 0] + body == [t + bits, 0, 0];
    } else {
      var body', b := body[..|body| - 1], body[|body| - 1];
      FeedCreate(t, bits, body');
      assert body == body' + [b];
      FeedSnoc(CreateMsg(t, bits), body', b);
      assert [t + bits, 0, 0] + body == [t + bits, 0, 0] + body' + [b];
    }
  }

  lemma {:induction false} FeedBound(m: Msg, s: bytes)
    requires |m.buffer| <= MAX_BUFFER_LENGTH
    ensures |Feed(m, s).buffer| <= MAX_BUFFER_LENGTH
    decreases |s|
  {
    if s != [] {
      FeedBound(Incoming(m, s[0]), s[1..]);
    }
  }

  lemma EncodeSmall(n: nat)
    requires n <= MAX_BODY
    ensures EncodeRemaining(n) == if n < 128 then [n] else [128 + n % 128, n / 128]
  {
    if n >= 128 {
      assert n / 128 < 128;
      assert EncodeRemaining(n / 128) == [n / 128];
    }
  }

  lemma StandardForm(t: byte, bits: byte, body: bytes)
    requires t % 16 == 0 && bits < 16 && |body| <= MAX_BODY
    ensures StandardPacket(t, bits, body) ==
            if |body| < 128 then [t + bits, |body|] + body
            else [t + bits, 128 + |body| % 128, |body| / 128 % 256] + body
    ensures |EncodeRemaining(|body|)| == if |body| < 128 then 1 else 2
  {
    EncodeSmall(|body|);
  }

  lemma BuiltParts(t: byte, bits: byte, body: bytes)
    requires t % 16 == 0 && bits < 16 && |body| <= MAX_BODY
    ensures Build(t, bits, body) ==
            Msg(StandardPacket(t, bits, body), if |body| < 128 then 2 else 3, |body|, Complete)
  {
    FeedCreate(t, bits, body);
    StandardForm(t, bits, body);
    var m := Feed(CreateMsg(t, bits), body);
    assert m.buffer[3..] == body;
  }

  /** The finished message, field by field. */
  lemma BuiltMsg(t: byte, bits: byte, body: bytes)
    requires t % 16 == 0 && bits < 16 && |body| <= MAX_BODY
    ensures Build(t, bits, body) ==
            Msg(StandardPacket(t, bits, body), if |body| < 128 then 2 else 3, |body|, Complete)
    ensures Build(t, bits, body).vheader == 1 + |EncodeRemaining(|body|)|
    ensures Build(t, bits, body).vheader <= |Build(t, bits, body).buffer|
    ensures Build(t, bits, body).buffer[1..Build(t, bits, body).vheader] == EncodeRemaining(|body|)
    ensures Build(t, bits, body).buffer[Build(t, bits, body).vheader..] == body
  {
    BuiltParts(t, bits, body);
    StandardForm(t, bits, body);
    var p, e := StandardPacket(t, bits, body), EncodeRemaining(|body|);
    assert p[1..1 + |e|] == e && p[1 + |e|..] == body;
  }

  /** The builder makes the standard's packet exactly up to 4093 body bytes; past that it has reset itself. */
  lemma BuildIsStandard(t: byte, bits: byte, body: bytes)
    requires t % 16 == 0 && bits < 16
    ensures Build(t, bits, body).buffer == StandardPacket(t, bits, body) <==> |body| <= MAX_BODY
  {
    if |body| <= MAX_BODY {
      BuiltMsg(t, bits, body);
    } else {
      FeedBound(CreateMsg(t, bits), body);
      assert |body| >= 128;
      assert |EncodeRemaining(|body|)| == 1 + |EncodeRemaining(|body| / 128)| >= 2;
    }
  }

  lemma BuiltIsFramed(t: byte, bits: byte, body: bytes)
    requires t % 16 == 0 && bits < 16 && |body| <= MAX_BODY
    ensures Framed(StandardPacket(t, bits, body))
    ensures HeaderLength(StandardPacket(t, bits, body)) == 1 + |EncodeRemaining(|body|)|
  {
    var p := StandardPacket(t, bits, body);
    EncodeSmall(|body|);
    BuiltMsg(t, bits, body);
    var h := 1 + |EncodeRemaining(|body|)|;
    assert p[1] == EncodeRemaining(|body|)[0];
    assert Packet(p, h);
  }

  /** A built packet arriving at a reset decoder is handed over on its last byte, and is the message that was built. */
  lemma RoundTrip(t: byte, bits: byte, body: bytes, vheader: byte)
    requires t % 16 == 0 && t >= 16 && bits < 16 && |body| <= MAX_BODY
    ensures var b := Build(t, bits, body);
            var got := Msg(b.buffer, b.vheader, 0, Complete);
            && Receive(Fresh(vheader), b.buffer) == (Fresh(b.vheader), [got])
            && Feed(Fresh(vheader), b.buffer) == got
            && Type(got) == t && Flags(got) == bits
            && got.vheader <= |got.buffer| && got.buffer[got.vheader..] == body
    ensures forall n :: 0 <= n < |Build(t, bits, body).buffer| ==>
                          Receive(Fresh(vheader), Build(t, bits, body).buffer[..n]).1 == []
  {
    BuiltMsg(t, bits, body);
    BuiltIsFramed(t, bits, body);
    var p := StandardPacket(t, bits, body);
    assert p[..|p|] == p;
    assert p[0] == t + bits;
    ReceivePrefix(p, |p|, vheader);
    FeedPrefix(p, |p|, vheader);
    forall n | 0 <= n < |p| ensures Receive(Fresh(vheader), p[..n]).1 == [] {
      ReceivePrefix(p, n, vheader);
    }
  }

  // ---------- Bytes and length-prefixed strings ----------

  datatype Item = Byte(b: byte) | Text(s: bytes)

  /** What `add` appends for one item. */
  function SerializeItem(item: Item): bytes {
    match item
    case Byte(b) => [b]
    case Text(s) => Prefixed(s)
  }

  /** What `add` appends for a list of items. */
  function Serialize(items: seq<Item>): bytes {
    if items == [] then []
    else SerializeItem(items[0]) + Serialize(items[1..])
  }

  /** Reads items of the same kinds as `like`, the way `processMessage` walks its payload pointer. */
  function ReadLike(buffer: bytes, beyond: nat -> byte, from: nat, like: seq<Item>): seq<Item>
    decreases |like|
  {
    if like == [] then []
    else match like[0]
      case Byte(_) => [Byte(At(buffer, beyond, from))] + ReadLike(buffer, beyond, from + 1, like[1..])
      case Text(_) =>
        var n := StringLength(buffer, beyond, from);
        [Text(Slice(buffer, beyond, from + 2, n))] + ReadLike(buffer, beyond, from + 2 + n, like[1..])
  }

  /** Past the first item the rest follows. */
  lemma ItemThenRest(b: bytes, first: bytes, rest: bytes)
    requires first + rest <= b
    ensures first <= b && rest <= b[|first|..]
  {
    assert b[..|first|] == (first + rest)[..|first|] == first;
    assert b[|first|..][..|rest|] == (first + rest)[|first|..] == rest;
  }

  /** Every text is short enough for its two-byte length. */
  predicate TextsHaveRoom(items: seq<Item>) {
    forall i :: 0 <= i < |items| ==> items[i].Text? ==> |items[i].s| < 65536
  }

  /** Whatever was added is read back, in order. */
  lemma {:induction false} ItemsRoundTrip(buffer: bytes, beyond: nat -> byte, from: nat, items: seq<Item>)
    requires from <= |buffer| && Serialize(items) <= buffer[from..] && TextsHaveRoom(items)
    ensures ReadLike(buffer, beyond, from, items) == items
    decreases |items|
  {
    if items != [] {
      var next := NextItem(buffer, from, items);
      ItemsRoundTrip(buffer, beyond, next, items[1..]);
      ItemReadsBack(buffer, beyond, from, next, items);
    }
  }

  /** The buffer holds the item from `from` up to `next`. */
  predicate Begins(buffer: bytes, from: nat, next: nat, item: Item) {
    from <= |buffer| && SerializeItem(item) <= buffer[from..] && next == from + |SerializeItem(item)|
  }

  lemma NextItem(buffer: bytes, from: nat, items: seq<Item>) returns (next: nat)
    requires from <= |buffer| && items != [] && Serialize(items) <= buffer[from..] && TextsHaveRoom(items)
    ensures next <= |buffer| && Begins(buffer, from, next, items[0])
    ensures Serialize(items[1..]) <= buffer[next..] && TextsHaveRoom(items[1..])
  {
    var first := SerializeItem(items[0]);
    ItemThenRest(buffer[from..], first, Serialize(items[1..]));
    next := from + |first|;
    assert buffer[next..] == buffer[from..][|first|..];
  }

  lemma ItemReadsBack(buffer: bytes, beyond: nat -> byte, from: nat, next: nat, items: seq<Item>)
    requires items != [] && TextsHaveRoom(items) && Begins(buffer, from, next, items[0])
    requires ReadLike(buffer, beyond, next, items[1..]) == items[1..]
    ensures ReadLike(buffer, beyond, from, items) == items
  {
    match items[0]
    case Byte(b) => assert buffer[from..][0] == b;
    case Text(s) => ReadPrefixed(buffer, beyond, from, s);
  }

  /** The whole way: build from items, send, decode, read the items back out of the decoded message. */
  lemma BuiltItemsRoundTrip(t: byte, bits: byte, items: seq<Item>, vheader: byte, beyond: nat -> byte)
    requires t % 16 == 0 && t >= 16 && bits < 16 && |Serialize(items)| <= MAX_BODY
    ensures var got := Feed(Fresh(vheader), Build(t, bits, Serialize(items)).buffer);
            got.state == Complete && ReadLike(got.buffer, beyond, got.vheader, items) == items
  {
    RoundTrip(t, bits, Serialize(items), vheader);
    var got := Feed(Fresh(vheader), Build(t, bits, Serialize(items)).buffer);
    TextsFit(items);
    ItemsRoundTrip(got.buffer, beyond, got.vheader, items);
  }

  lemma {:induction false} TextsFit(items: seq<Item>)
    ensures forall i :: 0 <= i < |items| ==> items[i].Text? ==> |items[i].s| <= |Serialize(items)|
    decreases |items|
  {
    if items == [] {
    } else {
      TextsFit(items[1..]);
      assert forall i :: 1 <= i < |items| ==> items[i] == items[1..][i - 1];
    }
  }
}
