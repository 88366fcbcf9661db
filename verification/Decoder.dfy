/** The decoder on arbitrary bytes: what every state keeps, and what can be said of any message it hands over. */
module Decoder {
  import opened Bytes
  import opened Codec
  import opened Framing

  /** The counter after the length bytes `l`. */
  function Tally(l: bytes): uint16
    decreases |l|
  {
    if l == [] then MAX_BUFFER_LENGTH else AddLengthByte(Tally(l[..|l| - 1]), l[|l| - 1])
  }

  /** Length bytes after which the decoder waits for more. */
  predicate Pending(l: bytes)
    decreases |l|
  {
    l == [] || (l[|l| - 1] >= 128 && Tally(l) <= MAX_BUFFER_LENGTH && Pending(l[..|l| - 1]))
  }

  /** The buffer starts with a header of `k` bytes that the decoder accepted. */
  predicate HeaderAt(buffer: bytes, k: nat) {
    2 <= k <= |buffer| && buffer[k - 1] < 128 && Pending(buffer[1..k - 1]) && Tally(buffer[1..k]) <= MAX_BUFFER_LENGTH
  }

  predicate Splits(m: Msg, k: nat) {
    HeaderAt(m.buffer, k) && m.vheader == k % 256 && |m.buffer| + m.size == k + Tally(m.buffer[1..k])
  }

  /** What every reachable decoder state satisfies. */
  ghost predicate DecoderInv(m: Msg) {
    && |m.buffer| <= MAX_BUFFER_LENGTH
    && match m.state
       case FixedHeader => m.buffer == [] && m.size == 0
       case Length => m.buffer != [] && Pending(m.buffer[1..]) && m.size == Tally(m.buffer[1..])
       case VariableHeader => m.size >= 1 && exists k :: Splits(m, k)
       case Complete => m.size == 0 && exists k :: Splits(m, k)
       case Error => |m.buffer| >= 2
       case PayLoad => false
       case Create => false
  }

  lemma HeaderGrows(buffer: bytes, b: byte, k: nat)
    requires HeaderAt(buffer, k)
    ensures HeaderAt(buffer + [b], k) && (buffer + [b])[1..k] == buffer[1..k]
  {
    assert (buffer + [b])[1..k] == buffer[1..k];
    assert (buffer + [b])[1..k - 1] == buffer[1..k - 1];
  }

  /** One more length byte, told of the bytes alone. */
  lemma LengthGrows(buffer: bytes, b: byte)
    requires buffer != [] && Pending(buffer[1..])
    ensures var l := (buffer + [b])[1..];
            && Tally(l) == AddLengthByte(Tally(buffer[1..]), b)
            && (b >= 128 && Tally(l) <= MAX_BUFFER_LENGTH ==> Pending(l))
            && (b < 128 && Tally(l) <= MAX_BUFFER_LENGTH ==> HeaderAt(buffer + [b], |buffer| + 1))
  {
    var b', l := buffer + [b], buffer[1..] + [b];
    assert l[..|l| - 1] == buffer[1..];
    assert b'[1..] == l && b'[1..|b'|] == l && b'[1..|b'| - 1] == buffer[1..];
  }

  lemma InvLength(m: Msg, b: byte)
    requires DecoderInv(m) && m.state == Length
    ensures m.size + b % 128 * 128 < 65536
    ensures DecoderInv(Incoming(m, b))
  {
    LengthGrows(m.buffer, b);
    var m' := Incoming(m, b);
    var k := |m.buffer| + 1;
    if m'.state == VariableHeader || m'.state == Complete {
      assert m'.buffer[1..k] == m'.buffer[1..];
      assert Splits(m', k);
    }
  }

  lemma SplitsGrows(m: Msg, b: byte, k: nat, m': Msg)
    requires Splits(m, k) && m.size >= 1
    requires m'.buffer == m.buffer + [b] && m'.vheader == m.vheader && m'.size == m.size - 1
    ensures Splits(m', k)
  {
    HeaderGrows(m.buffer, b, k);
  }

  lemma IncomingVariable(m: Msg, b: byte)
    requires m.state == VariableHeader && m.size >= 1
    ensures Incoming(m, b) ==
            if |m.buffer| >= MAX_BUFFER_LENGTH then Fresh(m.vheader)
            else Msg(m.buffer + [b], m.vheader, m.size - 1, if m.size == 1 then Complete else VariableHeader)
  {
  }

  lemma InvVariable(m: Msg, b: byte)
    requires DecoderInv(m) && m.state == VariableHeader
    ensures DecoderInv(Incoming(m, b))
  {
    IncomingVariable(m, b);
    if |m.buffer| < MAX_BUFFER_LENGTH {
      var k :| Splits(m, k);
      SplitsInv(m, b, k, Incoming(m, b));
    }
  }

  lemma SplitsInv(m: Msg, b: byte, k: nat, m': Msg)
    requires Splits(m, k) && m.size >= 1 && |m.buffer| < MAX_BUFFER_LENGTH
    requires m' == Msg(m.buffer + [b], m.vheader, m.size - 1, if m.size == 1 then Complete else VariableHeader)
    ensures DecoderInv(m')
  {
    SplitsGrows(m, b, k, m');
  }

  /** One byte: the invariant is kept, and neither 16-bit operation on the counter wraps. */
  lemma InvStep(m: Msg, b: byte)
    requires DecoderInv(m)
    ensures DecoderInv(Incoming(m, b))
    ensures m.state == VariableHeader ==> m.size >= 1
    ensures m.state == Length ==> m.size + b % 128 * 128 < 65536
  {
    match m.state
    case FixedHeader =>
      assert (m.buffer + [b])[1..] == [];
    case Length => InvLength(m, b);
    case VariableHeader => InvVariable(m, b);
    case _ =>
  }

  /** A byte either joins the buffer or empties it. */
  lemma JoinsOrEmpties(m: Msg, b: byte)
    ensures Incoming(m, b).buffer == m.buffer + [b] || Incoming(m, b).buffer == []
    ensures Incoming(m, b).state == Complete ==> Incoming(m, b).buffer == m.buffer + [b]
  {
  }

  /** From a reset message the invariant holds for ever, whatever arrives. */
  lemma {:induction false} InvReceive(m: Msg, s: bytes)
    requires DecoderInv(m)
    ensures DecoderInv(Receive(m, s).0)
    ensures forall i :: 0 <= i < |Receive(m, s).1| ==> DecoderInv(Receive(m, s).1[i])
    decreases |s|
  {
    if s == [] {
    } else {
      var m' := Incoming(m, s[0]);
      InvStep(m, s[0]);
      InvReceive(if Type(m') != 0 then Reset(m') else m', s[1..]);
    }
  }

  // ---------- No byte invented, lost from a packet or reordered ----------

  /** The messages in order, with the bytes thrown away before, between and after them. */
  function Interleave(gaps: seq<bytes>, parts: seq<Msg>): bytes
    requires |gaps| == |parts| + 1
  {
    if parts == [] then gaps[0] else gaps[0] + parts[0].buffer + Interleave(gaps[1..], parts[1..])
  }

  lemma Regroup(x: bytes, gap: bytes, part: bytes, tail: bytes)
    ensures x + (gap + part + tail) == (x + gap) + part + tail
  {
  }

  lemma InterleaveGrow(x: bytes, gaps: seq<bytes>, parts: seq<Msg>)
    requires |gaps| == |parts| + 1
    ensures x + Interleave(gaps, parts) == Interleave([x + gaps[0]] + gaps[1..], parts)
  {
    var gaps' := [x + gaps[0]] + gaps[1..];
    assert gaps'[1..] == gaps[1..];
    if parts != [] {
      Regroup(x, gaps[0], parts[0].buffer, Interleave(gaps[1..], parts[1..]));
    }
  }

  lemma InterleaveCons(part: Msg, gaps: seq<bytes>, parts: seq<Msg>)
    requires |gaps| == |parts| + 1
    ensures Interleave([[]] + gaps, [part] + parts) == part.buffer + Interleave(gaps, parts)
  {
    assert ([[]] + gaps)[1..] == gaps && ([part] + parts)[1..] == parts;
    assert [] + part.buffer == part.buffer;
  }

  /** On any input, the messages handed over are disjoint contiguous pieces of it, in order. */
  lemma {:induction false} ReceiveIsPieces(m: Msg, s: bytes) returns (gaps: seq<bytes>)
    ensures |gaps| == |Receive(m, s).1| + 1
    ensures m.buffer + s == Interleave(gaps, Receive(m, s).1)
    decreases |s|
  {
    if s == [] {
      gaps := [m.buffer];
      assert m.buffer + s == m.buffer;
    } else {
      var m' := Incoming(m, s[0]);
      JoinsOrEmpties(m, s[0]);
      var here := m.buffer + [s[0]];
      assert m.buffer + s == here + s[1..];
      assert [] + s[1..] == s[1..];
      if Type(m') != 0 {
        var more := ReceiveIsPieces(Reset(m'), s[1..]);
        gaps := [[]] + more;
        InterleaveCons(m', more, Receive(Reset(m'), s[1..]).1);
      } else {
        gaps := ReceiveIsPieces(m', s[1..]);
        if m'.buffer == [] {
          InterleaveGrow(here, gaps, Receive(m', s[1..]).1);
          gaps := [here + gaps[0]] + gaps[1..];
        }
      }
    }
  }

  // ---------- Progress ----------

  /** No more than 4096 bytes pass without a completion or a reset. */
  lemma {:induction false} Progress(m: Msg, s: bytes) returns (n: nat)
    requires DecoderInv(m) && |m.buffer| + |s| > MAX_BUFFER_LENGTH
    ensures 1 <= n <= |s| && n <= MAX_BUFFER_LENGTH + 1 - |m.buffer|
    ensures Feed(m, s[..n]).state == Complete || Feed(m, s[..n]).state == FixedHeader
    decreases |s|
  {
    var m' := Incoming(m, s[0]);
    InvStep(m, s[0]);
    n := 1;
    if m'.state != Complete && m'.state != FixedHeader {
      var more := Progress(m', s[1..]);
      n := more + 1;
    }
    FeedFirst(m, s, n);
  }

  lemma FeedFirst(m: Msg, s: bytes, n: nat)
    requires 1 <= n <= |s|
    ensures Feed(m, s[..n]) == Feed(Incoming(m, s[0]), s[1..][..n - 1])
  {
    assert s[..n][1..] == s[1..][..n - 1];
  }

  // ---------- Agreement with the standard ----------

  function Two(l: bytes): nat
    requires |l| >= 2
  {
    l[0] as int % 128 + 128 * (l[1] as int % 128)
  }

  lemma {:induction false} RemainingZero(l: bytes)
    ensures Remaining(l) == 0 <==> forall i :: 0 <= i < |l| ==> l[i] % 128 == 0
  {
    if l == [] {
    } else {
      RemainingZero(l[1..]);
      assert forall i :: 1 <= i < |l| ==> l[i] == l[1..][i - 1];
    }
  }

  lemma RemainingTwo(l: bytes)
    requires |l| >= 2
    ensures Remaining(l) == Two(l) + 16384 * Remaining(l[2..])
  {
    assert l[1..][1..] == l[2..];
  }

  lemma TallyTwo(l: bytes)
    requires |l| == 2
    ensures Tally(l) == Two(l)
  {
    assert l[..1][..0] == [];
    assert Tally(l[..1]) == l[0] % 128;
  }

  /** Zero groups after the second leave the counter alone, unless it stands at the "no length yet" value,
      which the next group overwrites. */
  lemma {:induction false} TallyZeros(l: bytes)
    requires |l| >= 2 && forall i :: 2 <= i < |l| ==> l[i] % 128 == 0
    requires Tally(l[..2]) <= MAX_BUFFER_LENGTH
    ensures Tally(l) == if |l| > 2 && Tally(l[..2]) == MAX_BUFFER_LENGTH then 0 else Tally(l[..2])
    decreases |l|
  {
    if |l| == 2 {
      assert l[..2] == l;
    } else {
      var l' := l[..|l| - 1];
      TallyZeros(l');
      assert l'[..2] == l[..2];
    }
  }

  lemma {:induction false} PendingPrefix(l: bytes, n: nat)
    requires Pending(l) && 1 <= n <= |l|
    ensures Tally(l[..n]) <= MAX_BUFFER_LENGTH
    decreases |l|
  {
    if n == |l| {
      assert l[..n] == l;
    } else {
      PendingPrefix(l[..|l| - 1], n);
      assert l[..|l| - 1][..n] == l[..n];
    }
  }

  lemma {:induction false} PendingContinues(l: bytes)
    requires Pending(l)
    ensures forall i :: 0 <= i < |l| ==> l[i] >= 128
    decreases |l|
  {
    if l == [] {
    } else {
      PendingContinues(l[..|l| - 1]);
    }
  }

  /** On an accepted length field the decoder computes the standard's value in exactly these cases. */
  lemma TallyIsRemaining(l: bytes)
    requires l != [] && Pending(l[..|l| - 1]) && Tally(l) <= MAX_BUFFER_LENGTH
    ensures Tally(l) == Remaining(l) <==>
            |l| <= 2 || (Two(l) != MAX_BUFFER_LENGTH && forall i :: 2 <= i < |l| ==> l[i] % 128 == 0)
  {
    if |l| == 1 {
      assert l[..0] == [] && l[1..] == [];
    } else if |l| == 2 {
      TallyTwo(l);
      RemainingTwo(l);
      assert l[2..] == [];
    } else {
      RemainingTwo(l);
      RemainingZero(l[2..]);
      assert forall i :: 2 <= i < |l| ==> l[i] == l[2..][i - 2];
      PendingPrefix(l[..|l| - 1], 2);
      assert l[..|l| - 1][..2] == l[..2];
      TallyTwo(l[..2]);
      if Remaining(l[2..]) == 0 {
        TallyZeros(l);
      }
    }
  }

  /** A message handed over on any input is a control packet of the standard in exactly these cases. */
  lemma HandedOverIsPacket(m: Msg, k: nat)
    requires DecoderInv(m) && m.state == Complete && Splits(m, k)
    ensures Packet(m.buffer, k) <==>
            k <= 3 || (Two(m.buffer[1..k]) != MAX_BUFFER_LENGTH && forall i :: 3 <= i < k ==> m.buffer[i] % 128 == 0)
  {
    var l := m.buffer[1..k];
    assert l[..|l| - 1] == m.buffer[1..k - 1];
    TallyIsRemaining(l);
    PendingContinues(l[..|l| - 1]);
    assert LengthField(l);
    if k > 3 {
      ZeroGroups(m.buffer, k);
    }
  }

  /** The groups after the second, counted in the buffer or in the length field. */
  lemma ZeroGroups(buffer: bytes, k: nat)
    requires 3 < k <= |buffer|
    ensures (forall i :: 3 <= i < k ==> buffer[i] % 128 == 0) <==>
            (forall i :: 2 <= i < k - 1 ==> buffer[1..k][i] % 128 == 0)
  {
    forall i | 3 <= i < k ensures buffer[i] == buffer[1..k][i - 1] {
    }
  }

  /** Three length bytes whose value the standard puts at 16384 and this decoder at 128. */
  lemma ThreeByteLengthDiffers()
    ensures Pending([0x80, 0x80]) && Tally([0x80, 0x80, 0x01]) == 128
    ensures LengthField([0x80, 0x80, 0x01]) && Remaining([0x80, 0x80, 0x01]) == 16384
  {
    var l: bytes := [0x80, 0x80, 0x01];
    assert l[..2] == [0x80, 0x80];
    assert l[..2][..1] == [0x80];
    assert l[..2][..1][..0] == [];
    TallyTwo(l[..2]);
    assert Tally([0x80]) == 0;
    assert l[1..][1..] == [0x01];
    assert l[1..][1..][1..] == [];
  }

  // ---------- Out of step ----------

  /** A byte that comes while a message is finished or in error is swallowed, and the decoder waits for a new packet. */
  lemma SpuriousByte(m: Msg, b: byte)
    requires m.state == Complete || m.state == Error
    ensures Incoming(m, b) == Msg([], m.vheader, 0, FixedHeader)
  {
  }

  /** A length that passes 4096 is an error; the next byte is swallowed, and nothing has been handed over. */
  lemma TooLong(m: Msg, b: byte, next: byte)
    requires DecoderInv(m) && m.state == Length && |m.buffer| < 4096 && AddLengthByte(m.size, b) > 4096
    ensures Incoming(m, b).state == Error && Type(Incoming(m, b)) == 0
    ensures Receive(m, [b, next]) == (Msg([], m.vheader, 0, FixedHeader), [])
  {
    var m' := Incoming(m, b);
    assert [b, next][1..] == [next] && [next][1..] == [];
    assert m'.state == Error;
    assert Receive(m', [next]) == Receive(Incoming(m', next), []);
  }

  /** A length field announcing 4097 bytes, and the byte after it. */
  lemma FourThousandNinetySeven(next: byte)
    ensures Receive(Fresh(0), [0x30, 0x81, 0x20, next]) == (Fresh(0), [])
  {
    var s := [0x30, 0x81, 0x20, next];
    var m1 := Incoming(Fresh(0), 0x30);
    var m2 := Incoming(m1, 0x81);
    assert s[1..] == [0x81, 0x20, next] && s[1..][1..] == [0x20, next];
    assert m2 == Msg([0x30, 0x81], 0, 1, Length);
    InvStep(Fresh(0), 0x30);
    InvStep(m1, 0x81);
    TooLong(m2, 0x20, next);
  }

  /** Two length bytes that add up to 4096 are forgotten when a third follows: this packet has one byte behind them. */
  lemma FourThousandNinetySix(b: byte)
    ensures var s := [0x30, 0x80, 0xA0, 0x01, b];
            Receive(Fresh(0), s) == (Fresh(4), [Msg(s, 4, 0, Complete)])
  {
    var s := [0x30, 0x80, 0xA0, 0x01, b];
    var m2 := Msg([0x30, 0x80], 0, 0, Length);
    NotYet(Fresh(0), s, Msg([0x30], 0, 4096, Length));
    assert s[1..] == [0x80, 0xA0, 0x01, b] && s[1..][1..] == [0xA0, 0x01, b];
    NotYet(Msg([0x30], 0, 4096, Length), s[1..], m2);
    LengthForgotten(m2, b);
  }

  lemma LengthForgotten(m2: Msg, b: byte)
    requires m2 == Msg([0x30, 0x80], 0, 0, Length)
    ensures Receive(m2, [0xA0, 0x01, b]) == (Fresh(4), [Msg([0x30, 0x80, 0xA0, 0x01, b], 4, 0, Complete)])
  {
    var s := [0xA0, 0x01, b];
    var m3 := Msg([0x30, 0x80, 0xA0], 0, 4096, Length);
    var m4 := Msg([0x30, 0x80, 0xA0, 0x01], 4, 1, VariableHeader);
    NotYet(m2, s, m3);
    assert s[1..] == [0x01, b] && s[1..][1..] == [b];
    NotYet(m3, s[1..], m4);
    LastByte(m4, b, Msg([0x30, 0x80, 0xA0, 0x01, b], 4, 0, Complete));
  }

  /** A byte that finishes no message is taken in. */
  lemma NotYet(m: Msg, s: bytes, m': Msg)
    requires s != [] && Incoming(m, s[0]) == m' && Type(m') == 0
    ensures Receive(m, s) == Receive(m', s[1..])
  {
  }

  lemma LastByte(m: Msg, b: byte, m': Msg)
    requires Incoming(m, b) == m' && Type(m') != 0
    ensures Receive(m, [b]) == (Reset(m'), [m'])
  {
    assert Receive(Reset(m'), [b][1..]) == (Reset(m'), []);
    assert [m'] + [] == [m'];
  }
}
