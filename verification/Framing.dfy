/** The receive loop: `incoming` on every byte, and `processMessage` then `reset` whenever `type()` is non-zero. */
module Framing {
  import opened Bytes
  import opened Codec

  /** Every message handed to `processMessage` while `s` arrives, and the message left under construction. */
  function Receive(m: Msg, s: bytes): (r: (Msg, seq<Msg>))
    decreases |s|
  {
    if s == [] then (m, [])
    else
      var m' := Incoming(m, s[0]);
      if Type(m') != 0 then
        var (rest, out) := Receive(Reset(m'), s[1..]);
        (rest, [m'] + out)
      else Receive(m', s[1..])
  }

  function Buffers(ms: seq<Msg>): (r: seq<bytes>)
    ensures |r| == |ms|
    ensures forall i :: 0 <= i < |ms| ==> r[i] == ms[i].buffer
  {
    seq<bytes>(|ms|, (i: nat) requires i < |ms| => ms[i].buffer)
  }

  // ---------- The framing rule of the standard ----------

  /** MQTT 3.1.1 section 2.2.3: seven bits a byte, least significant group first. */
  function Remaining(l: bytes): nat {
    if l == [] then 0 else l[0] % 128 + 128 * Remaining(l[1..])
  }

  /** All but the last byte have the continuation bit. */
  predicate LengthField(l: bytes) {
    l != [] && l[|l| - 1] < 128 && forall i :: 0 <= i < |l| - 1 ==> l[i] >= 128
  }

  /** A control packet whose fixed header takes `h` bytes. */
  predicate Packet(p: bytes, h: nat) {
    2 <= h <= |p| && LengthField(p[1..h]) && |p| == h + Remaining(p[1..h])
  }

  /** The packets this decoder is meant for: at most 4096 bytes, one or two of them the Remaining Length. */
  predicate Framed(p: bytes) {
    |p| <= MAX_BUFFER_LENGTH && (Packet(p, 2) || Packet(p, 3))
  }

  function HeaderLength(p: bytes): nat
    requires |p| >= 2
  {
    if p[1] < 128 then 2 else 3
  }

  lemma FramedShape(p: bytes)
    requires Framed(p)
    ensures |p| >= HeaderLength(p)
    ensures HeaderLength(p) == 2 ==> |p| == 2 + p[1] as int
    ensures HeaderLength(p) == 3 ==> p[2] < 128 && |p| == 3 + p[1] as int % 128 + 128 * p[2] as int
  {
    if Packet(p, 2) {
      assert p[1..2] == [p[1]];
      assert Remaining([p[1]]) == p[1] % 128 + 128 * Remaining([]);
    } else {
      assert p[1..3] == [p[1], p[2]];
      assert [p[1], p[2]][1..] == [p[2]];
      assert [p[2]][1..] == [];
      assert LengthField([p[1], p[2]]);
      assert [p[1], p[2]][0] == p[1] && [p[1], p[2]][1] == p[2];
      assert Remaining([p[2]]) == p[2] % 128 + 128 * Remaining([]);
    }
  }

  /** The decoder's state after the first `n` bytes of packet `p`. */
  function Halfway(p: bytes, n: nat, vheader: byte): Msg
    requires Framed(p) && 0 <= n <= |p|
  {
    FramedShape(p);
    var h := HeaderLength(p);
    if n == 0 then Fresh(vheader)
    else if n == 1 then Msg(p[..1], vheader, MAX_BUFFER_LENGTH, Length)
    else if n < h then Msg(p[..n], vheader, p[1] % 128, Length)
    else Msg(p[..n], h, |p| - n, if n == |p| then Complete else VariableHeader)
  }

  /** In the fixed header. */
  lemma HalfwayHeader(p: bytes, n: nat, vheader: byte)
    requires Framed(p) && n < HeaderLength(p) && n < |p|
    ensures Incoming(Halfway(p, n, vheader), p[n]) == Halfway(p, n + 1, vheader)
  {
    FramedShape(p);
    assert p[..n] + [p[n]] == p[..n + 1];
    if n == 0 {
      return;
    }
    if n == 1 {
      assert p[1] < 128 ==> p[1] % 128 == p[1];
      return;
    }
    assert p[1] as int % 128 + p[2] as int % 128 * 128 == |p| - 3;
  }

  /** After the fixed header. */
  lemma HalfwayBody(p: bytes, n: nat, vheader: byte)
    requires Framed(p) && HeaderLength(p) <= n < |p|
    ensures Incoming(Halfway(p, n, vheader), p[n]) == Halfway(p, n + 1, vheader)
  {
    assert p[..n] + [p[n]] == p[..n + 1];
    assert Halfway(p, n, vheader) == Msg(p[..n], HeaderLength(p), |p| - n, VariableHeader);
  }

  lemma HalfwayStep(p: bytes, n: nat, vheader: byte)
    requires Framed(p) && n < |p|
    ensures Incoming(Halfway(p, n, vheader), p[n]) == Halfway(p, n + 1, vheader)
  {
    if n < HeaderLength(p) {
      HalfwayHeader(p, n, vheader);
    } else {
      HalfwayBody(p, n, vheader);
    }
  }

  /** Feeding a packet's first `n` bytes to a reset decoder. */
  lemma {:induction false} FeedPrefix(p: bytes, n: nat, vheader: byte)
    requires Framed(p) && n <= |p|
    ensures Feed(Fresh(vheader), p[..n]) == Halfway(p, n, vheader)
  {
    if n == 0 {
    } else {
      FeedPrefix(p, n - 1, vheader);
      assert p[..n] == p[..n - 1] + [p[n - 1]];
      FeedSnoc(Fresh(vheader), p[..n - 1], p[n - 1]);
      HalfwayStep(p, n - 1, vheader);
    }
  }

  // ---------- Streams of packets ----------

  lemma {:induction false} ReceiveAppend(m: Msg, a: bytes, b: bytes)
    ensures Receive(m, a + b).0 == Receive(Receive(m, a).0, b).0
    ensures Receive(m, a + b).1 == Receive(m, a).1 + Receive(Receive(m, a).0, b).1
    decreases |a|
  {
    if a == [] {
      assert a + b == b;
    } else {
      var m' := Incoming(m, a[0]);
      var next := if Type(m') != 0 then Reset(m') else m';
      ReceiveAppend(next, a[1..], b);
      assert (a + b)[1..] == a[1..] + b;
    }
  }

  /** The receive loop over the first `n` bytes of one packet. */
  lemma {:induction false} ReceivePrefix(p: bytes, n: nat, vheader: byte)
    requires Framed(p) && p[0] >= 16 && n <= |p|
    ensures n < |p| ==> Receive(Fresh(vheader), p[..n]) == (Halfway(p, n, vheader), [])
    ensures n == |p| ==> Receive(Fresh(vheader), p[..n]) ==
                         (Fresh(HeaderLength(p)), [Halfway(p, n, vheader)])
  {
    if n == 0 {
    } else {
      ReceivePrefix(p, n - 1, vheader);
      assert p[..n] == p[..n - 1] + [p[n - 1]];
      ReceiveAppend(Fresh(vheader), p[..n - 1], [p[n - 1]]);
      HalfwayStep(p, n - 1, vheader);
      FramedShape(p);
      var m := Halfway(p, n, vheader);
      var one := [p[n - 1]];
      assert one[1..] == [];
      assert Incoming(Halfway(p, n - 1, vheader), one[0]) == m;
      if n == |p| {
        assert Receive(Reset(m), one[1..]) == (Reset(m), []);
        assert Receive(Fresh(vheader), p[..n]).1 == [m];
      }
    }
  }

  predicate AllFramed(ps: seq<bytes>) {
    forall i :: 0 <= i < |ps| ==> Framed(ps[i])
  }

  predicate AllTyped(ps: seq<bytes>)
    requires AllFramed(ps)
  {
    forall i :: 0 <= i < |ps| ==> ps[i][0] >= 16
  }

  /** The message handed over for a packet: it carries the packet, where its variable header starts, nothing left. */
  function Delivered(p: bytes): Msg
    requires Framed(p)
  {
    Halfway(p, |p|, 0)
  }

  function DeliveredAll(ps: seq<bytes>): seq<Msg>
    requires AllFramed(ps)
  {
    if ps == [] then [] else [Delivered(ps[0])] + DeliveredAll(ps[1..])
  }

  /** How many of the packets lie wholly within the first `n` bytes of the stream. */
  function Whole(ps: seq<bytes>, n: nat): (r: nat)
    ensures r <= |ps|
  {
    if ps == [] || |ps[0]| > n then 0 else 1 + Whole(ps[1..], n - |ps[0]|)
  }

  /** After any number of bytes of a stream of packets, exactly the packets already whole have been handed over. */
  lemma {:induction false} StreamPrefix(ps: seq<bytes>, n: nat, vheader: byte)
    requires AllFramed(ps) && AllTyped(ps) && n <= |Flatten(ps)|
    ensures Receive(Fresh(vheader), Flatten(ps)[..n]).1 == DeliveredAll(ps[..Whole(ps, n)])
    decreases |ps|
  {
    if ps == [] {
      assert Flatten(ps)[..n] == [];
    } else {
      var p, rest := ps[0], ps[1..];
      if n < |p| {
        assert Flatten(ps)[..n] == p[..n];
        ReceivePrefix(p, n, vheader);
        return;
      }
      var k := n - |p|;
      assert Flatten(ps)[..n] == p + Flatten(rest)[..k];
      StreamPrefix(rest, k, HeaderLength(p));
      ReceiveFirst(p, Flatten(rest)[..k], vheader);
      assert ps[..Whole(ps, n)] == [p] + rest[..Whole(rest, k)];
    }
  }

  /** A whole packet and what comes after it. */
  lemma ReceiveFirst(p: bytes, rest: bytes, vheader: byte)
    requires Framed(p) && p[0] >= 16
    ensures Receive(Fresh(vheader), p + rest).0 == Receive(Fresh(HeaderLength(p)), rest).0
    ensures Receive(Fresh(vheader), p + rest).1 == [Delivered(p)] + Receive(Fresh(HeaderLength(p)), rest).1
  {
    assert p[..|p|] == p;
    ReceivePrefix(p, |p|, vheader);
    ReceiveAppend(Fresh(vheader), p, rest);
    assert Halfway(p, |p|, vheader) == Delivered(p);
  }

  lemma {:induction false} StreamEnd(ps: seq<bytes>, vheader: byte)
    requires AllFramed(ps) && AllTyped(ps)
    ensures Receive(Fresh(vheader), Flatten(ps)).1 == DeliveredAll(ps)
    ensures Receive(Fresh(vheader), Flatten(ps)).0 ==
            Fresh(if ps == [] then vheader else HeaderLength(ps[|ps| - 1]))
  {
    if ps == [] {
    } else {
      var p, rest := ps[0], ps[1..];
      StreamEnd(rest, HeaderLength(p));
      ReceiveFirst(p, Flatten(rest), vheader);
    }
  }

  lemma {:induction false} DeliveredBuffers(ps: seq<bytes>)
    requires AllFramed(ps)
    ensures |DeliveredAll(ps)| == |ps| && Buffers(DeliveredAll(ps)) == ps
  {
    if ps == [] {
    } else {
      DeliveredBuffers(ps[1..]);
      var all := DeliveredAll(ps);
      assert all[0].buffer == ps[0];
      forall i | 1 <= i < |ps| ensures all[i].buffer == ps[i] {
        assert all[i] == DeliveredAll(ps[1..])[i - 1];
        assert Buffers(DeliveredAll(ps[1..]))[i - 1] == ps[1..][i - 1];
      }
    }
  }

  lemma {:induction false} HandedOverHasType(m: Msg, s: bytes)
    ensures forall i :: 0 <= i < |Receive(m, s).1| ==> Type(Receive(m, s).1[i]) != 0
    decreases |s|
  {
    if s == [] {
    } else {
      var m' := Incoming(m, s[0]);
      HandedOverHasType(if Type(m') != 0 then Reset(m') else m', s[1..]);
    }
  }

  /** Stream framing, exactly: a stream of packets comes out as those packets, in order,
      if and only if every one of them has a non-zero type nibble. */
  lemma StreamFraming(ps: seq<bytes>, vheader: byte)
    requires AllFramed(ps)
    ensures Buffers(Receive(Fresh(vheader), Flatten(ps)).1) == ps <==> AllTyped(ps)
  {
    var out := Receive(Fresh(vheader), Flatten(ps)).1;
    if AllTyped(ps) {
      StreamEnd(ps, vheader);
      DeliveredBuffers(ps);
    } else {
      HandedOverHasType(Fresh(vheader), Flatten(ps));
      var i :| 0 <= i < |ps| && ps[i][0] < 16;
      assert i < |out| ==> Buffers(out)[i][0] >= 16;
    }
  }
}
