/** The MQTT packet buffer as a value: what each operation of `MqttMessage` does to its four fields.
    The class in MqttMessage.dfy is proved against these functions. */
module Codec {
  import opened Bytes

  const MAX_BUFFER_LENGTH: nat := 4096

  const CONNECT: byte := 0x10
  const CONNACK: byte := 0x20
  const PUBLISH: byte := 0x30
  const PUBACK: byte := 0x40
  const SUBSCRIBE: byte := 0x80
  const SUBACK: byte := 0x90
  const UNSUBSCRIBE: byte := 0xA0
  const UNSUBACK: byte := 0xB0
  const PINGREQ: byte := 0xC0
  const PINGRESP: byte := 0xD0

  datatype State = FixedHeader | Length | VariableHeader | PayLoad | Complete | Error | Create

  datatype Msg = Msg(buffer: bytes, vheader: byte, size: uint16, state: State)

  /** A message after `reset`; `reset` leaves `vheader` as it was. */
  function Fresh(vheader: byte): Msg {
    Msg([], vheader, 0, FixedHeader)
  }

  function Reset(m: Msg): Msg {
    Fresh(m.vheader)
  }

  /** The 16-bit counter after one more Remaining Length byte; 4096 marks "no length byte yet". */
  function AddLengthByte(size: uint16, b: byte): uint16 {
    if size == MAX_BUFFER_LENGTH then b % 128 else (size + b % 128 * 128) % 65536
  }

  function Incoming(m: Msg, b: byte): Msg {
    var buffer := m.buffer + [b];
    var m' := match m.state
      case FixedHeader => Msg(buffer, m.vheader, MAX_BUFFER_LENGTH, Length)
      case Length =>
        var size := AddLengthByte(m.size, b);
        if size > MAX_BUFFER_LENGTH then Msg(buffer, m.vheader, size, Error)
        else if b < 128 then Msg(buffer, |buffer| % 256, size, if size == 0 then Complete else VariableHeader)
        else Msg(buffer, m.vheader, size, Length)
      case VariableHeader =>
        var size := (m.size + 65535) % 65536;
        Msg(buffer, m.vheader, size, if size == 0 then Complete else m.state)
      case PayLoad =>
        var size := (m.size + 65535) % 65536;
        Msg(buffer, m.vheader, size, if size == 0 then Complete else m.state)
      case Create => Msg(buffer, m.vheader, (m.size + 1) % 65536, Create)
      case Complete => Reset(m)
      case Error => Reset(m);
    if |m'.buffer| > MAX_BUFFER_LENGTH then Reset(m') else m'
  }

  /** `incoming` on each byte of `s` in turn. */
  function Feed(m: Msg, s: bytes): Msg
    decreases |s|
  {
    if s == [] then m else Feed(Incoming(m, s[0]), s[1..])
  }

  function Type(m: Msg): byte {
    if m.state == Complete && m.buffer != [] then m.buffer[0] / 16 * 16 else 0
  }

  function Flags(m: Msg): byte {
    if m.buffer == [] then 0 else m.buffer[0] % 16
  }

  /** `MqttMessage(type, bits)`: the type byte and two bytes reserved for the length. */
  function CreateMsg(t: byte, bits: byte): Msg
    requires t % 16 == 0 && bits < 16
  {
    Msg([t + bits, 0, 0], 3, 0, Create)
  }

  /** A byte string with its length in front, high byte first, each half truncated to a `char`. */
  function Prefixed(s: bytes): bytes {
    [|s| / 256 % 256, |s| % 256] + s
  }

  /** The source writes outside the buffer when fewer than three bytes are there; that case is left alone. */
  function EncodeLength(m: Msg): Msg {
    if m.state == Complete || |m.buffer| < 3 then m
    else
      var length := |m.buffer| - 3;
      if length <= 0x7F then
        Msg([m.buffer[0], length] + m.buffer[3..], 2, m.size, Complete)
      else
        Msg([m.buffer[0], 128 + length % 128, length / 128 % 256] + m.buffer[3..], 3, m.size, Complete)
  }

  /** `sendTo` stays inside this message's buffer. */
  predicate Sendable(m: Msg) {
    m.state == Complete || m.buffer == [] || |m.buffer| >= 3
  }

  /** A whole message built from its type, flag bits and everything `add`ed to it. */
  function Build(t: byte, bits: byte, body: bytes): Msg
    requires t % 16 == 0 && bits < 16
  {
    EncodeLength(Feed(CreateMsg(t, bits), body))
  }

  /** The memory a pointer into the buffer reads: the buffer, then whatever lies beyond its last byte. */
  function At(buffer: bytes, beyond: nat -> byte, i: nat): byte {
    if i < |buffer| then buffer[i] else beyond(i - |buffer|)
  }

  function Slice(buffer: bytes, beyond: nat -> byte, from: nat, n: nat): (r: bytes)
    ensures |r| == n
    ensures forall j :: 0 <= j < n ==> r[j] == At(buffer, beyond, from + j)
  {
    seq<byte>(n, (j: nat) requires j < n => At(buffer, beyond, from + j))
  }

  /** `getString`: the 16-bit length stored at `from`. */
  function StringLength(buffer: bytes, beyond: nat -> byte, from: nat): uint16 {
    At(buffer, beyond, from) * 256 + At(buffer, beyond, from + 1)
  }

  lemma {:induction false} FeedAppend(m: Msg, a: bytes, b: bytes)
    ensures Feed(m, a + b) == Feed(Feed(m, a), b)
    decreases |a|
  {
    if a == [] {
      assert a + b == b;
    } else {
      FeedAppend(Incoming(m, a[0]), a[1..], b);
      assert (a + b)[1..] == a[1..] + b;
    }
  }

  lemma FeedSnoc(m: Msg, a: bytes, b: byte)
    ensures Feed(m, a + [b]) == Incoming(Feed(m, a), b)
  {
    FeedAppend(m, a, [b]);
    assert Feed(Feed(m, a), [b]) == Feed(Incoming(Feed(m, a), b), []);
  }

  /** Reading a slice that lies inside the buffer. */
  lemma SliceInside(buffer: bytes, beyond: nat -> byte, from: nat, n: nat)
    requires from + n <= |buffer|
    ensures Slice(buffer, beyond, from, n) == buffer[from..from + n]
  {
  }

  /** `getString` undoes the length prefix `add` writes, wherever the string sits in the buffer. */
  lemma ReadPrefixed(buffer: bytes, beyond: nat -> byte, from: nat, s: bytes)
    requires |s| < 65536
    requires from <= |buffer| && Prefixed(s) <= buffer[from..]
    ensures StringLength(buffer, beyond, from) == |s|
    ensures from + 2 + |s| <= |buffer|
    ensures Slice(buffer, beyond, from + 2, |s|) == s
  {
    var p := Prefixed(s);
    assert buffer[from..][0] == p[0] && buffer[from..][1] == p[1];
    assert buffer[from] == p[0] && buffer[from + 1] == p[1];
    forall j | 0 <= j < |s| ensures buffer[from + 2 + j] == s[j] {
      assert buffer[from..][2 + j] == p[2 + j];
    }
  }
}
